/** The lease itself: an object over a store that outlives it. Each method performs, one by one, the
    writes that the model's transition lists, so what is proved of those writes and their prefixes
    holds of every point at which the process can die. */
module UpdateRestartLease {
  import opened UpdateRestartModel
  import Proofs = UpdateRestartProofs

  /** The registry: five policy keys and a journal. `writes` logs every durable write. */
  class PolicyStore {
    var policy: seq<Setting>
    var journal: Journal
    ghost var writes: seq<Write>

    constructor (policy: seq<Setting>)
      requires |policy| == KEY_COUNT
      ensures Stored() == Disk(policy, NoLease) && writes == []
    {
      this.policy, journal, writes := policy, NoLease, [];
    }

    function Stored(): Disk
      reads this
    {
      Disk(policy, journal)
    }

    method SetValue(i: nat, s: Setting)
      requires i < |policy|
      modifies this
      ensures Stored() == Perform(old(Stored()), Put(i, s)) && writes == old(writes) + [Put(i, s)]
      ensures journal == old(journal) && policy == old(policy)[i := s]
    {
      policy := policy[i := s];
      writes := writes + [Put(i, s)];
    }

    method Remove(i: nat)
      requires i < |policy|
      modifies this
      ensures Stored() == Perform(old(Stored()), Put(i, Absent)) && writes == old(writes) + [Put(i, Absent)]
      ensures journal == old(journal) && policy == old(policy)[i := Absent]
    {
      policy := policy[i := Absent];
      writes := writes + [Put(i, Absent)];
    }

    method SetJournal(j: Journal)
      modifies this
      ensures Stored() == Perform(old(Stored()), WriteJournal(j)) && writes == old(writes) + [WriteJournal(j)]
      ensures policy == old(policy) && journal == j
    {
      journal := j;
      writes := writes + [WriteJournal(j)];
    }
  }

  /** One more write: after `done` of `done + [w] + rest`, doing `w`. */
  lemma {:induction false} PerformLast(d: Disk, log: seq<Write>, done: seq<Write>, w: Write, rest: seq<Write>)
    ensures PerformAll(d, done + [w]) == Perform(PerformAll(d, done), w)
    ensures (log + done) + [w] == log + (done + [w])
    ensures done + ([w] + rest) == (done + [w]) + rest
  {
    var ws := done;
    Proofs.PerformAllConcat(d, ws, [w]);
    assert [w][1..] == [];
    assert PerformAll(PerformAll(d, ws), [w]) == PerformAll(Perform(PerformAll(d, ws), w), []);
  }

  class UpdateRestartPolicyLease {
    const store: PolicyStore
    var entries: seq<Entry>
    var active: bool
    var applied: bool
    var locked: bool

    ghost predicate Valid()
      reads this, store
    {
      && |store.policy| == KEY_COUNT
      && (active ==> |entries| == KEY_COUNT)
      && locked == active
    }

    function Remembered(): Memory
      reads this
    {
      Memory(active, applied, entries)
    }

    /** The transition `t` has happened since the store was `d` with log `log`. */
    ghost predicate Performed(t: Transition, outcome: Outcome, d: Disk, log: seq<Write>)
      reads this, store
    {
      && outcome == t.outcome && Remembered() == t.memory
      && store.writes == log + t.writes
      && store.Stored() == PerformAll(d, t.writes)
    }

    /** A new process over whatever the store holds. */
    constructor (store: PolicyStore)
      requires |store.policy| == KEY_COUNT
      ensures Valid() && this.store == store && Remembered() == FRESH_MEMORY
    {
      this.store := store;
      entries, active, applied, locked := [], false, false, false;
    }

    method Lock(free: bool) returns (ok: bool)
      modifies this`locked
      ensures ok == (old(locked) || free) && locked == ok
    {
      if locked { return true; }
      locked := free;
      ok := free;
    }

    method Unlock()
      modifies this`locked
      ensures !locked
    {
      locked := false;
    }

    method Save(f: Sync) returns (ok: bool)
      modifies store
      ensures ok == f.Clean?
      ensures store.policy == old(store.policy)
      ensures var ws := if f.Clean? || f.written then [WriteJournal(Encode(entries))] else [];
              store.writes == old(store.writes) + ws && store.Stored() == PerformAll(old(store.Stored()), ws)
    {
      ghost var d := store.Stored();
      if f.Clean? || f.written {
        store.SetJournal(Encode(entries));
        PerformLast(d, store.writes, [], WriteJournal(Encode(entries)), []);
        assert [] + [WriteJournal(Encode(entries))] == [WriteJournal(Encode(entries))];
      }
      ok := f.Clean?;
    }

    /** The restoring loop over the five keys of a validated journal. */
    method RestoreKeys(recorded: seq<Entry>, lost: set<nat>)
      requires |store.policy| == KEY_COUNT == |recorded|
      modifies store
      ensures var ws := RestoreKeyWrites(old(store.policy), recorded, lost, 0);
              && store.writes == old(store.writes) + ws
              && store.Stored() == PerformAll(old(store.Stored()), ws)
    {
      ghost var d, log, ws := store.Stored(), store.writes, [];
      ghost var all := RestoreKeyWrites(d.policy, recorded, lost, 0);
      var i := 0;
      while i < KEY_COUNT
        invariant 0 <= i <= KEY_COUNT && |store.policy| == KEY_COUNT
        invariant store.writes == log + ws
        invariant store.Stored() == PerformAll(d, ws)
        invariant forall k :: i <= k < KEY_COUNT ==> store.policy[k] == d.policy[k]
        invariant all == ws + RestoreKeyWrites(d.policy, recorded, lost, i)
      {
        ghost var rest := RestoreKeyWrites(d.policy, recorded, lost, i + 1);
        if Ours(store.policy[i], recorded[i]) && i !in lost {
          ghost var w := Put(i, Original(recorded[i]));
          assert RestoreKeyWrites(d.policy, recorded, lost, i) == [w] + rest;
          PerformLast(d, log, ws, w, rest);
          if recorded[i].present {
            store.SetValue(i, Number(false, recorded[i].original));
          } else {
            store.Remove(i);
          }
          ws := ws + [w];
        } else {
          assert RestoreKeyWrites(d.policy, recorded, lost, i) == rest;
        }
        i := i + 1;
      }
      assert ws + [] == ws;
    }

    method RestoreJournaled(f: RestoreFaults) returns (outcome: Outcome)
      requires |store.policy| == KEY_COUNT
      modifies store
      ensures Performed(Restore(old(store.Stored()), Remembered(), f), outcome, old(store.Stored()), old(store.writes))
    {
      if store.journal == NoLease { return Done; }
      if !JournalValid(store.journal) { return Failed([JournalInvalid]); }
      var recorded := Decode(store.journal);
      ghost var ws := RestoreKeyWrites(store.policy, recorded, f.lost, 0);
      RestoreKeys(recorded, f.lost);
      if f.lost != {} || f.syncError { return Failed([RestoreFailed]); }
      assert ws + [] == ws;
      if f.cleanup.Clean? || f.cleanup.written {
        PerformLast(old(store.Stored()), old(store.writes), ws, WriteJournal(NoLease), []);
        store.SetJournal(NoLease);
      }
      outcome := if f.cleanup.Clean? then Done else Failed([JournalCleanupFailed]);
    }

    /** The checking loop: moves the entries on as it goes and stops at the first conflict. */
    method StageEntries(values: seq<nat>) returns (changed: bool, conflict: bool)
      requires |store.policy| == KEY_COUNT == |entries| == |values|
      modifies this`entries
      ensures Staging(entries, changed, conflict) == Stage(store.policy, old(entries), values, applied, 0, false)
    {
      changed := false;
      var i := 0;
      while i < |entries|
        invariant 0 <= i <= |entries| == KEY_COUNT
        invariant Stage(store.policy, old(entries), values, applied, 0, false)
               == Stage(store.policy, entries, values, applied, i, changed)
      {
        var entry := entries[i];
        if Conflicts(store.policy[i], entry, applied) { return changed, true; }
        if !(entry.applied == values[i] && !store.policy[i].Absent?) {
          changed := true;
          entries := entries[i := StageEntry(entry, values[i])];
        }
        i := i + 1;
      }
      conflict := false;
    }

    method WriteValues(values: seq<nat>, lost: set<nat>)
      requires |store.policy| == KEY_COUNT == |values|
      modifies store
      ensures store.writes == old(store.writes) + ValueWrites(values, lost, 0)
      ensures store.Stored() == PerformAll(old(store.Stored()), ValueWrites(values, lost, 0))
    {
      ghost var d, log, ws := store.Stored(), store.writes, [];
      ghost var all := ValueWrites(values, lost, 0);
      var i := 0;
      while i < KEY_COUNT
        invariant 0 <= i <= KEY_COUNT && |store.policy| == KEY_COUNT
        invariant store.writes == log + ws
        invariant store.Stored() == PerformAll(d, ws)
        invariant all == ws + ValueWrites(values, lost, i)
      {
        ghost var rest := ValueWrites(values, lost, i + 1);
        if i !in lost {
          ghost var w := Put(i, Number(false, values[i]));
          assert ValueWrites(values, lost, i) == [w] + rest;
          PerformLast(d, log, ws, w, rest);
          store.SetValue(i, Number(false, values[i]));
          ws := ws + [w];
        } else {
          assert ValueWrites(values, lost, i) == rest;
        }
        i := i + 1;
      }
      assert ws + [] == ws;
    }

    method ReadBack(values: seq<nat>) returns (ok: bool)
      requires |store.policy| == KEY_COUNT == |values|
      ensures ok == ReadsBack(store.policy, values)
    {
      var i := 0;
      while i < KEY_COUNT
        invariant 0 <= i <= KEY_COUNT
        invariant forall k :: 0 <= k < i ==> !store.policy[k].Absent? && store.policy[k].ToUInt() == values[k]
      {
        if store.policy[i].Absent? || store.policy[i].ToUInt() != values[i] { return false; }
        i := i + 1;
      }
      ok := true;
    }

    method CommitValues(values: seq<nat>, f: ApplyFaults) returns (outcome: Outcome)
      requires |store.policy| == KEY_COUNT == |values|
      modifies store, this`applied
      ensures Performed(Commit(old(store.Stored()), old(Remembered()), values, f), outcome, old(store.Stored()), old(store.writes))
    {
      hide ValueWrites, ReadsBack, Encode;
      ghost var save := [WriteJournal(Encode(entries))];
      var saved := Save(f.save);
      if !saved { return Failed([JournalWriteFailed]); }
      WriteValues(values, f.lost);
      Proofs.PerformAllConcat(old(store.Stored()), save, ValueWrites(values, f.lost, 0));
      assert store.writes == old(store.writes) + (save + ValueWrites(values, f.lost, 0));
      if f.lost != {} || f.syncError { return Failed([PolicyWriteFailed]); }
      var ok := ReadBack(values);
      if !ok { return Failed([ReadbackFailed]); }
      applied := true;
      outcome := Done;
    }

    method ApplyHour(hour: int, f: ApplyFaults) returns (outcome: Outcome)
      requires |store.policy| == KEY_COUNT && (active ==> |entries| == KEY_COUNT)
      modifies store, this`entries, this`applied
      ensures Performed(Apply(old(store.Stored()), old(Remembered()), hour, f), outcome, old(store.Stored()), old(store.writes))
    {
      if hour < 0 || hour > 23 { return Failed([InvalidLocalHour]); }
      if !active { return Failed([LeaseInactive]); }
      var range: nat := 18;
      if f.rangeEnabled.ToUInt() != 0 {
        if !f.range.Number? || f.range.ToUInt() < 8 || f.range.ToUInt() > 18 {
          return Failed([ActiveHoursRangeInvalid]);
        }
        range := f.range.ToUInt();
      }
      var values := LeaseValues(hour, range);
      var changed, conflict := StageEntries(values);
      if conflict { return Failed([ChangedExternally]); }
      if applied && !changed { return Done; }
      outcome := CommitValues(values, f);
    }

    method ReleaseLease(f: RestoreFaults) returns (outcome: Outcome)
      requires Valid()
      modifies this, store
      ensures Valid() && !active
      ensures Performed(Release(old(store.Stored()), old(Remembered()), f), outcome, old(store.Stored()), old(store.writes))
    {
      if !active { return Done; }
      outcome := RestoreJournaled(f);
      active := false;
      Unlock();
    }

    /** Builds the entries from the policy found; false if a key is no 32-bit number. */
    method ScanEntries() returns (valid: bool)
      requires |store.policy| == KEY_COUNT
      modifies this`entries
      ensures Scan(entries, valid) == ScanPolicy(store.policy, 0, [])
    {
      entries := [];
      var i := 0;
      while i < KEY_COUNT
        invariant 0 <= i <= KEY_COUNT
        invariant ScanPolicy(store.policy, 0, []) == ScanPolicy(store.policy, i, entries)
      {
        match store.policy[i] {
          case OtherKind(_) =>
            return false;
          case Absent =>
            entries := entries + [Entry(false, 0, false, 0, false, 0)];
          case Number(_, v) =>
            if v > DWORD_MAX { return false; }
            entries := entries + [Entry(true, v, true, v, true, v)];
        }
        i := i + 1;
      }
      valid := true;
    }

    method TakeOverPolicy(hour: int, f: AcquireFaults) returns (outcome: Outcome)
      requires |store.policy| == KEY_COUNT == |entries| && !active && !applied && locked
      modifies this, store
      ensures Valid()
      ensures Performed(TakeOver(old(store.Stored()), old(entries), hour, f), outcome, old(store.Stored()), old(store.writes))
    {
      hide Apply, Release, PerformAll;
      active := true;
      ghost var d := store.Stored();
      ghost var held := Apply(d, Remembered(), hour, f.apply);
      outcome := ApplyHour(hour, f.apply);
      if outcome.Done? { return; }
      ghost var undo := Release(store.Stored(), Remembered(), f.undo);
      Proofs.PerformAllConcat(d, held.writes, undo.writes);
      var undone := ReleaseLease(f.undo);
      outcome := Combine(outcome, undone);
      assert store.writes == old(store.writes) + (held.writes + undo.writes);
    }

    method AcquireLease(hour: int, f: AcquireFaults) returns (outcome: Outcome)
      requires Valid()
      modifies this, store
      ensures Valid()
      ensures Performed(Acquire(old(store.Stored()), old(Remembered()), hour, f), outcome, old(store.Stored()), old(store.writes))
    {
      hide Apply, Restore, TakeOver, ScanPolicy;
      if active {
        outcome := ApplyHour(hour, f.apply);
        return;
      }
      if hour < 0 || hour > 23 { return Failed([InvalidLocalHour]); }
      var held := Lock(f.lockFree);
      if !held { return Failed([AnotherHostOwnsProtection]); }
      ghost var first := Restore(store.Stored(), Remembered(), f.first).writes;
      outcome := RestoreJournaled(f.first);
      if outcome.Failed? { Unlock(); return; }
      ghost var d1 := store.Stored();
      ScanCoversKeys(d1.policy, 0, []);
      applied := false;
      var valid := ScanEntries();
      if !valid {
        Unlock();
        return Failed([PolicyValueInvalid]);
      }
      ghost var rest := TakeOver(d1, entries, hour, f).writes;
      outcome := TakeOverPolicy(hour, f);
      Proofs.PerformAllConcat(old(store.Stored()), first, rest);
      assert store.writes == old(store.writes) + (first + rest);
    }

    method RecoverPolicy(lockFree: bool, f: RestoreFaults) returns (outcome: Outcome)
      requires Valid()
      modifies this`locked, store
      ensures Valid()
      ensures Performed(Recover(old(store.Stored()), old(Remembered()), lockFree, f), outcome, old(store.Stored()), old(store.writes))
    {
      if active { return Done; }
      var held := Lock(lockFree);
      if !held { return Failed([AnotherHostOwnsProtection]); }
      outcome := RestoreJournaled(f);
      Unlock();
    }
  }
}
