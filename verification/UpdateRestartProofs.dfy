/** What the lease guarantees over whole runs, crashes included. */
module UpdateRestartProofs {
  import opened Basics
  import opened UpdateRestartModel

  // ---- Writes and their prefixes ----

  lemma PerformAllConcat(d: Disk, a: seq<Write>, b: seq<Write>)
    ensures PerformAll(d, a + b) == PerformAll(PerformAll(d, a), b)
    decreases |a|
  {
    if a == [] {
      assert a + b == b;
    } else {
      assert (a + b)[1..] == a[1..] + b;
      PerformAllConcat(Perform(d, a[0]), a[1..], b);
    }
  }

  // ---- The invariant ----

  /** `now` is what `then` was, up to a 64-bit number having become the same 32-bit number. */
  predicate SameUpToWidth(before: Setting, now: Setting) {
    now == before || (before.Number? && now == Number(false, before.value))
  }

  predicate Recorded(origin: Setting, e: Entry) {
    if e.present then origin.Number? && origin.value == e.original else origin.Absent?
  }

  /** The value is the original one, or one of the two writes the entry records. */
  predicate Covered(origin: Setting, e: Entry, now: Setting) {
    || SameUpToWidth(origin, now)
    || (e.appliedPresent && now == Number(false, e.applied))
    || (e.previousPresent && now == Number(false, e.previous))
  }

  predicate InDwordRange(e: Entry) {
    e.original <= DWORD_MAX && e.applied <= DWORD_MAX && e.previous <= DWORD_MAX
  }

  ghost predicate Untouched(origin: seq<Setting>, policy: seq<Setting>) {
    |origin| == |policy| && forall i :: 0 <= i < |origin| ==> SameUpToWidth(origin[i], policy[i])
  }

  ghost predicate Undoable(origin: seq<Setting>, es: seq<Entry>, policy: seq<Setting>) {
    && |origin| == |es| == |policy|
    && forall i :: 0 <= i < |origin| ==> Recorded(origin[i], es[i]) && Covered(origin[i], es[i], policy[i])
  }

  /** No journal: the policy is the pre-lease one. A journal: it is valid, it records the pre-lease
      policy, and every key is one that it can undo. */
  ghost predicate SafeDisk(origin: seq<Setting>, d: Disk) {
    && |origin| == |d.policy| == KEY_COUNT
    && if d.journal == NoLease then Untouched(origin, d.policy)
       else JournalValid(d.journal) && Undoable(origin, Decode(d.journal), d.policy)
  }

  /** The entries in memory record the pre-lease policy too, and a key not yet taken over by the
      lease still holds its original value. */
  ghost predicate SafeEntries(origin: seq<Setting>, es: seq<Entry>, policy: seq<Setting>) {
    && |origin| == |es| == |policy| == KEY_COUNT
    && forall i :: 0 <= i < KEY_COUNT ==>
         && Recorded(origin[i], es[i]) && InDwordRange(es[i])
         && (!es[i].appliedPresent ==> origin[i].Absent? && policy[i].Absent?)
  }

  ghost predicate SafeWorld(origin: seq<Setting>, w: World) {
    && WellFormed(w)
    && SafeDisk(origin, w.disk)
    && (w.memory.active ==> SafeEntries(origin, w.memory.entries, w.disk.policy))
  }

  /** Every state that the writes pass through, the first and the last included, is safe. */
  ghost predicate SafeThrough(origin: seq<Setting>, d: Disk, ws: seq<Write>)
    decreases |ws|
  {
    SafeDisk(origin, d) && (ws != [] ==> SafeThrough(origin, Perform(d, ws[0]), ws[1..]))
  }

  lemma SafeThroughEnd(origin: seq<Setting>, d: Disk, ws: seq<Write>)
    requires SafeThrough(origin, d, ws)
    ensures SafeDisk(origin, PerformAll(d, ws))
    decreases |ws|
  {
  }

  lemma SafeThroughConcat(origin: seq<Setting>, d: Disk, a: seq<Write>, b: seq<Write>)
    requires SafeThrough(origin, d, a) && SafeThrough(origin, PerformAll(d, a), b)
    ensures SafeThrough(origin, d, a + b)
    decreases |a|
  {
    if a == [] {
      assert a + b == b;
    } else {
      assert (a + b)[1..] == a[1..] + b;
      SafeThroughConcat(origin, Perform(d, a[0]), a[1..], b);
    }
  }

  lemma SafeThroughPrefix(origin: seq<Setting>, d: Disk, ws: seq<Write>, k: nat)
    requires SafeThrough(origin, d, ws)
    ensures SafeDisk(origin, PerformAll(d, Upto(ws, k)))
    decreases |ws|
  {
    if ws == [] || k == 0 || k >= |ws| {
      SafeThroughEnd(origin, d, ws);
    } else {
      assert ws[..k][1..] == ws[1..][..k - 1];
      SafeThroughPrefix(origin, Perform(d, ws[0]), ws[1..], k - 1);
      assert Upto(ws[1..], k - 1) == ws[1..][..k - 1];
    }
  }

  // ---- Encoding ----

  lemma DecodeEncode(es: seq<Entry>)
    requires |es| == KEY_COUNT
    requires forall i :: 0 <= i < |es| ==> InDwordRange(es[i])
    ensures JournalValid(Encode(es))
    ensures forall i :: 0 <= i < |es| ==>
              Decode(Encode(es))[i] == if es[i].present then es[i] else es[i].(original := 0)
  {
  }

  // ---- Key writes under a journal ----

  /** A write that keeps its key undoable. */
  predicate Harmless(origin: seq<Setting>, es: seq<Entry>, w: Write) {
    w.Put? && w.key < |origin| && w.key < |es| && Covered(origin[w.key], es[w.key], w.setting)
  }

  lemma HarmlessWritesAreSafe(origin: seq<Setting>, d: Disk, ws: seq<Write>)
    requires SafeDisk(origin, d) && d.journal != NoLease
    requires forall w :: w in ws ==> Harmless(origin, Decode(d.journal), w)
    ensures SafeThrough(origin, d, ws)
    ensures PerformAll(d, ws).journal == d.journal
    decreases |ws|
  {
    if ws != [] {
      assert ws[0] in ws;
      HarmlessWritesAreSafe(origin, Perform(d, ws[0]), ws[1..]);
    }
  }

  // ---- Restore ----

  /** What restoring makes of one key. */
  function RestoredKey(s: Setting, e: Entry): Setting {
    if Ours(s, e) then Original(e) else s
  }

  function RestoredPolicy(policy: seq<Setting>, es: seq<Entry>): seq<Setting>
    requires |policy| == |es|
  {
    seq(|policy|, i requires 0 <= i < |policy| => RestoredKey(policy[i], es[i]))
  }

  /** The key writes change exactly the keys that are ours and whose write is not lost. */
  lemma RestoreKeyWritesEffect(d: Disk, p: seq<Setting>, es: seq<Entry>, lost: set<nat>, i: nat)
    requires |p| == |es| == |d.policy| && i <= |es|
    ensures var d' := PerformAll(d, RestoreKeyWrites(p, es, lost, i));
            && d'.journal == d.journal && |d'.policy| == |d.policy|
            && forall k :: 0 <= k < |d.policy| ==>
                 d'.policy[k] == if k >= i && Ours(p[k], es[k]) && k !in lost then Original(es[k]) else d.policy[k]
    decreases |es| - i
  {
    if i < |es| {
      var first := if Ours(p[i], es[i]) && i !in lost then [Put(i, Original(es[i]))] else [];
      PerformAllConcat(d, first, RestoreKeyWrites(p, es, lost, i + 1));
      if first != [] {
        assert first[1..] == [];
        assert PerformAll(d, first) == PerformAll(Perform(d, first[0]), []);
      }
      RestoreKeyWritesEffect(PerformAll(d, first), p, es, lost, i + 1);
    }
  }

  lemma {:induction false} RestoreKeyWritesShape(p: seq<Setting>, es: seq<Entry>, lost: set<nat>, i: nat, w: Write)
    requires |p| == |es| && w in RestoreKeyWrites(p, es, lost, i)
    ensures w.Put? && i <= w.key < |es| && Ours(p[w.key], es[w.key]) && w.setting == Original(es[w.key])
    decreases |es| - i
  {
    hide Ours, Original;
    if i < |es| {
      var first := if Ours(p[i], es[i]) && i !in lost then [Put(i, Original(es[i]))] else [];
      assert RestoreKeyWrites(p, es, lost, i) == first + RestoreKeyWrites(p, es, lost, i + 1);
      if w !in first { RestoreKeyWritesShape(p, es, lost, i + 1, w); }
    }
  }

  lemma RestoreIsSafe(origin: seq<Setting>, d: Disk, m: Memory, f: RestoreFaults)
    requires SafeDisk(origin, d)
    ensures var t := Restore(d, m, f);
            && SafeThrough(origin, d, t.writes)
            && (t.outcome.Done? ==> PerformAll(d, t.writes).journal == NoLease)
  {
    if d.journal != NoLease {
      var es := Decode(d.journal);
      var keys := RestoreKeyWrites(d.policy, es, f.lost, 0);
      forall w | w in keys ensures Harmless(origin, es, w) {
        RestoreKeyWritesShape(d.policy, es, f.lost, 0, w);
      }
      HarmlessWritesAreSafe(origin, d, keys);
      RestoreKeyWritesEffect(d, d.policy, es, f.lost, 0);
      var drop := [WriteJournal(NoLease)];
      var d1 := PerformAll(d, keys);
      if f.lost == {} {
        forall k | 0 <= k < KEY_COUNT ensures SameUpToWidth(origin[k], d1.policy[k]) {
          assert Recorded(origin[k], es[k]) && Covered(origin[k], es[k], d.policy[k]);
        }
        assert drop[1..] == [];
        assert SafeThrough(origin, Perform(d1, drop[0]), []);
        assert SafeThrough(origin, d1, drop);
        SafeThroughConcat(origin, d, keys, drop);
        PerformAllConcat(d, keys, drop);
        assert PerformAll(d1, drop) == Perform(d1, drop[0]);
      }
      assert keys + [] == keys;
    }
  }

  // ---- Apply ----

  /** Where staging ends: the entries before the stopping point have moved on, the others have not. */
  lemma {:induction false} StageMeaning(p: seq<Setting>, es: seq<Entry>, vs: seq<nat>, applied: bool, i: nat, changed: bool)
    requires |p| == |es| == |vs| && i <= |es|
    ensures var st := Stage(p, es, vs, applied, i, changed);
            && (forall k :: 0 <= k < i ==> st.entries[k] == es[k])
            && (!st.conflict ==> forall k :: i <= k < |es| ==>
                  && !Conflicts(p[k], es[k], applied)
                  && st.entries[k] == if es[k].applied == vs[k] && !p[k].Absent? then es[k] else StageEntry(es[k], vs[k]))
            && (st.conflict ==> exists k :: i <= k < |es| && Conflicts(p[k], es[k], applied))
            && (forall k :: i <= k < |es| ==> st.entries[k] == es[k] || st.entries[k] == StageEntry(es[k], vs[k]))
            && (!st.changed ==> !changed && st.entries == es)
    decreases |es| - i
  {
    if i < |es| && !Conflicts(p[i], es[i], applied) {
      if es[i].applied == vs[i] && !p[i].Absent? {
        StageMeaning(p, es, vs, applied, i + 1, changed);
      } else {
        var next := es[i := StageEntry(es[i], vs[i])];
        StageMeaning(p, next, vs, applied, i + 1, true);
        var st := Stage(p, next, vs, applied, i + 1, true);
        assert st.entries[i] == StageEntry(es[i], vs[i]);
        if st.conflict {
          var k :| i + 1 <= k < |es| && Conflicts(p[k], next[k], applied);
          assert Conflicts(p[k], es[k], applied);
        }
        forall k | i <= k < |es| ensures st.entries[k] == es[k] || st.entries[k] == StageEntry(es[k], vs[k]) {
          if k > i { assert next[k] == es[k]; }
        }
      }
    }
  }

  /** With its journal written, every state that the value writes pass through can be undone. */
  lemma ValueWritesShape(vs: seq<nat>, lost: set<nat>, i: nat, w: Write)
    requires w in ValueWrites(vs, lost, i)
    ensures w.Put? && i <= w.key < |vs| && w.setting == Number(false, vs[w.key])
    decreases |vs| - i
  {
    if i < |vs| && w in ValueWrites(vs, lost, i + 1) {
      ValueWritesShape(vs, lost, i + 1, w);
    }
  }

  /** The entries that a conflict-free staging leaves undo both the values it is about to write and
      the ones it found. */
  lemma {:induction false} StagedEntriesCover(origin: seq<Setting>, d: Disk, m: Memory, vs: seq<nat>)
    requires SafeDisk(origin, d) && m.active && SafeEntries(origin, m.entries, d.policy)
    requires |vs| == KEY_COUNT && forall k :: 0 <= k < KEY_COUNT ==> vs[k] <= DWORD_MAX
    requires !Stage(d.policy, m.entries, vs, m.applied, 0, false).conflict
    ensures var st := Stage(d.policy, m.entries, vs, m.applied, 0, false);
            && JournalValid(Encode(st.entries))
            && Undoable(origin, Decode(Encode(st.entries)), d.policy)
            && (forall k :: 0 <= k < KEY_COUNT ==>
                  var e := Decode(Encode(st.entries))[k]; e.appliedPresent && e.applied == vs[k])
            && SafeEntries(origin, st.entries, d.policy)
            && (forall k :: 0 <= k < KEY_COUNT ==> st.entries[k].appliedPresent && st.entries[k].applied == vs[k])
  {
    var st := Stage(d.policy, m.entries, vs, m.applied, 0, false);
    StageMeaning(d.policy, m.entries, vs, m.applied, 0, false);
    forall k | 0 <= k < KEY_COUNT
      ensures InDwordRange(st.entries[k]) && Recorded(origin[k], st.entries[k])
      ensures st.entries[k].appliedPresent && st.entries[k].applied == vs[k]
      ensures Covered(origin[k], st.entries[k], d.policy[k])
    {
      var e, s := m.entries[k], d.policy[k];
      assert Recorded(origin[k], e) && InDwordRange(e) && !Conflicts(s, e, m.applied);
      SafePolicyKey(origin, d, k);
      if s.Absent? {
        assert SameUpToWidth(origin[k], s);
      }
    }
    DecodeEncode(st.entries);
    var es := Decode(Encode(st.entries));
    forall k | 0 <= k < KEY_COUNT
      ensures Recorded(origin[k], es[k]) && Covered(origin[k], es[k], d.policy[k])
    {
      assert es[k] == if st.entries[k].present then st.entries[k] else st.entries[k].(original := 0);
    }
  }

  /** On a safe disk a key is the original value, or a 32-bit number. */
  lemma SafePolicyKey(origin: seq<Setting>, d: Disk, k: nat)
    requires SafeDisk(origin, d) && k < KEY_COUNT
    ensures SameUpToWidth(origin[k], d.policy[k]) || (d.policy[k].Number? && !d.policy[k].wide)
  {
    if d.journal != NoLease {
      assert Covered(origin[k], Decode(d.journal)[k], d.policy[k]);
    }
  }

  /** An apply either stops before the journal, or writes a prefix of journal-then-values. */
  lemma ApplyShape(d: Disk, m: Memory, hour: int, f: ApplyFaults)
    requires |d.policy| == KEY_COUNT && m.active && |m.entries| == KEY_COUNT
    requires HourValid(hour) && ActiveHoursRange(f).Some?
    ensures var t := Apply(d, m, hour, f);
            var vs := LeaseValues(hour, ActiveHoursRange(f).value);
            var st := Stage(d.policy, m.entries, vs, m.applied, 0, false);
            var save := [WriteJournal(Encode(st.entries))];
            && t.memory.active && t.memory.entries == st.entries
            && (t.writes == [] || (!st.conflict && (t.writes == save || t.writes == save + ValueWrites(vs, f.lost, 0))))
  {
  }

  lemma ApplyIsSafe(origin: seq<Setting>, d: Disk, m: Memory, hour: int, f: ApplyFaults)
    requires SafeWorld(origin, World(d, m))
    ensures var t := Apply(d, m, hour, f);
            SafeThrough(origin, d, t.writes) && SafeWorld(origin, World(PerformAll(d, t.writes), t.memory))
  {
    if HourValid(hour) && m.active && ActiveHoursRange(f).Some? {
      var t := Apply(d, m, hour, f);
      ApplyShape(d, m, hour, f);
      var vs := LeaseValues(hour, ActiveHoursRange(f).value);
      StagingIsSafe(origin, d, m, vs);
      var st := Stage(d.policy, m.entries, vs, m.applied, 0, false);
      if !st.conflict {
        StagedEntriesCover(origin, d, m, vs);
        JournaledWritesAreSafe(origin, d, st.entries, vs, f.lost);
      }
      SafeThroughEnd(origin, d, t.writes);
    }
  }

  lemma StagingIsSafe(origin: seq<Setting>, d: Disk, m: Memory, vs: seq<nat>)
    requires SafeEntries(origin, m.entries, d.policy)
    requires |vs| == KEY_COUNT && forall k :: 0 <= k < KEY_COUNT ==> vs[k] <= DWORD_MAX
    ensures SafeEntries(origin, Stage(d.policy, m.entries, vs, m.applied, 0, false).entries, d.policy)
  {
    var st := Stage(d.policy, m.entries, vs, m.applied, 0, false);
    StageMeaning(d.policy, m.entries, vs, m.applied, 0, false);
    forall k | 0 <= k < KEY_COUNT
      ensures Recorded(origin[k], st.entries[k]) && InDwordRange(st.entries[k])
      ensures !st.entries[k].appliedPresent ==> origin[k].Absent? && d.policy[k].Absent?
    {
      assert st.entries[k] == m.entries[k] || st.entries[k] == StageEntry(m.entries[k], vs[k]);
    }
  }

  lemma JournaledWritesAreSafe(origin: seq<Setting>, d: Disk, es: seq<Entry>, vs: seq<nat>, lost: set<nat>)
    requires SafeDisk(origin, d) && SafeEntries(origin, es, d.policy) && |vs| == KEY_COUNT
    requires JournalValid(Encode(es)) && Undoable(origin, Decode(Encode(es)), d.policy)
    requires forall k :: 0 <= k < KEY_COUNT ==>
               var e := Decode(Encode(es))[k]; e.appliedPresent && e.applied == vs[k]
    requires forall k :: 0 <= k < KEY_COUNT ==> es[k].appliedPresent
    ensures var save := [WriteJournal(Encode(es))];
            && SafeThrough(origin, d, save)
            && SafeEntries(origin, es, PerformAll(d, save).policy)
            && SafeThrough(origin, d, save + ValueWrites(vs, lost, 0))
            && SafeEntries(origin, es, PerformAll(d, save + ValueWrites(vs, lost, 0)).policy)
  {
    var save, values := [WriteJournal(Encode(es))], ValueWrites(vs, lost, 0);
    var d1 := Perform(d, save[0]);
    assert save[1..] == [];
    assert PerformAll(d1, []) == d1;
    assert PerformAll(d, save) == d1;
    assert SafeThrough(origin, d1, []);
    forall w | w in values ensures Harmless(origin, Decode(d1.journal), w) {
      ValueWritesShape(vs, lost, 0, w);
    }
    HarmlessWritesAreSafe(origin, d1, values);
    SafeThroughConcat(origin, d, save, values);
  }

  // ---- Acquire ----

  lemma ScanRecords(origin: seq<Setting>, p: seq<Setting>, i: nat, found: seq<Entry>)
    requires Untouched(origin, p) && |p| == KEY_COUNT && i == |found| <= KEY_COUNT
    requires forall k :: 0 <= k < i ==>
               && Recorded(origin[k], found[k]) && InDwordRange(found[k])
               && (!found[k].appliedPresent ==> origin[k].Absent? && p[k].Absent?)
    ensures var sc := ScanPolicy(p, i, found); sc.valid ==> SafeEntries(origin, sc.entries, p)
    decreases KEY_COUNT - i
  {
    if i < KEY_COUNT {
      assert SameUpToWidth(origin[i], p[i]);
      match p[i]
      case OtherKind(_) =>
      case Absent => ScanRecords(origin, p, i + 1, found + [Entry(false, 0, false, 0, false, 0)]);
      case Number(_, v) =>
        if v <= DWORD_MAX {
          ScanRecords(origin, p, i + 1, found + [Entry(true, v, true, v, true, v)]);
        }
    }
  }

  lemma AcquireIsSafe(origin: seq<Setting>, d: Disk, m: Memory, hour: int, f: AcquireFaults)
    requires SafeWorld(origin, World(d, m))
    ensures var t := Acquire(d, m, hour, f);
            SafeThrough(origin, d, t.writes) && SafeWorld(origin, World(PerformAll(d, t.writes), t.memory))
  {
    if m.active {
      ApplyIsSafe(origin, d, m, hour, f.apply);
    } else if HourValid(hour) && f.lockFree {
      var first := Restore(d, m, f.first);
      RestoreIsSafe(origin, d, m, f.first);
      SafeThroughEnd(origin, d, first.writes);
      var d1 := PerformAll(d, first.writes);
      var scan := ScanPolicy(d1.policy, 0, []);
      if first.outcome.Done? && scan.valid {
        ScanRecords(origin, d1.policy, 0, []);
        TakeOverIsSafe(origin, d1, scan.entries, hour, f);
        var rest := TakeOver(d1, scan.entries, hour, f);
        SafeThroughConcat(origin, d, first.writes, rest.writes);
        PerformAllConcat(d, first.writes, rest.writes);
      }
    }
  }

  lemma TakeOverIsSafe(origin: seq<Setting>, d: Disk, es: seq<Entry>, hour: int, f: AcquireFaults)
    requires SafeDisk(origin, d) && SafeEntries(origin, es, d.policy)
    ensures var t := TakeOver(d, es, hour, f);
            SafeThrough(origin, d, t.writes) && SafeWorld(origin, World(PerformAll(d, t.writes), t.memory))
  {
    var m := Memory(true, false, es);
    ApplyIsSafe(origin, d, m, hour, f.apply);
    var held := Apply(d, m, hour, f.apply);
    if held.outcome.Failed? {
      var d2 := PerformAll(d, held.writes);
      RestoreIsSafe(origin, d2, held.memory, f.undo);
      var undo := Release(d2, held.memory, f.undo);
      SafeThroughConcat(origin, d, held.writes, undo.writes);
      PerformAllConcat(d, held.writes, undo.writes);
      SafeThroughEnd(origin, d2, undo.writes);
    }
  }

  // ---- Every run ----

  lemma OperationIsSafe(origin: seq<Setting>, w: World, op: Operation)
    requires SafeWorld(origin, w)
    ensures var t := Execute(w, op);
            SafeThrough(origin, w.disk, t.writes) && SafeWorld(origin, World(PerformAll(w.disk, t.writes), t.memory))
  {
    match op
    case AcquireOp(hour, f) => AcquireIsSafe(origin, w.disk, w.memory, hour, f);
    case RefreshOp(hour, f) => ApplyIsSafe(origin, w.disk, w.memory, hour, f);
    case ReleaseOp(f) =>
      RestoreIsSafe(origin, w.disk, w.memory, f);
      SafeThroughEnd(origin, w.disk, Execute(w, op).writes);
    case RecoverOp(free, f) =>
      RestoreIsSafe(origin, w.disk, w.memory, f);
      SafeThroughEnd(origin, w.disk, Execute(w, op).writes);
  }

  /** One step keeps the invariant, whether the operation returns or its process dies after any
      number of its writes. */
  lemma NextIsSafe(origin: seq<Setting>, w: World, ev: Event)
    requires SafeWorld(origin, w)
    ensures SafeWorld(origin, Next(w, ev))
  {
    OperationIsSafe(origin, w, ev.op);
    if ev.Dies? {
      SafeThroughPrefix(origin, w.disk, Execute(w, ev.op).writes, ev.after);
    }
  }

  lemma {:induction false} RunKeepsSafe(origin: seq<Setting>, w: World, evs: seq<Event>)
    requires SafeWorld(origin, w)
    ensures SafeWorld(origin, Run(w, evs))
    decreases |evs|
  {
    if evs != [] {
      NextIsSafe(origin, w, evs[0]);
      RunKeepsSafe(origin, Next(w, evs[0]), evs[1..]);
    }
  }

  /** Crash safety over every run: with no journal on disk the five keys are the pre-lease ones; with
      one, it records the pre-lease policy and can undo every key. */
  lemma RunIsSafe(origin: seq<Setting>, evs: seq<Event>)
    requires |origin| == KEY_COUNT
    ensures SafeWorld(origin, Run(Start(origin), evs))
  {
    RunKeepsSafe(origin, Start(origin), evs);
  }

  predicate HasWideNumber(origin: seq<Setting>) {
    exists i :: 0 <= i < |origin| && origin[i].Number? && origin[i].wide
  }

  /** After any run, a recovery that reports success has removed the journal and brought back every
      key, absent ones included; exactly so when no original was a 64-bit number. */
  lemma RecoveryBringsBackTheOrigin(origin: seq<Setting>, evs: seq<Event>, lockFree: bool, f: RestoreFaults)
    requires |origin| == KEY_COUNT
    ensures var w := Run(Start(origin), evs);
            var t := Recover(w.disk, w.memory, lockFree, f);
            var d := PerformAll(w.disk, t.writes);
            !w.memory.active && t.outcome.Done? ==>
              && d.journal == NoLease
              && Untouched(origin, d.policy)
              && (!HasWideNumber(origin) ==> d.policy == origin)
  {
    var w := Run(Start(origin), evs);
    RunIsSafe(origin, evs);
    RestoreIsSafe(origin, w.disk, w.memory, f);
    SafeThroughEnd(origin, w.disk, Recover(w.disk, w.memory, lockFree, f).writes);
  }

  /** No journal, every key as before the lease up to width, and exactly so without 64-bit numbers. */
  ghost predicate AtOrigin(origin: seq<Setting>, d: Disk) {
    d.journal == NoLease && Untouched(origin, d.policy) && (!HasWideNumber(origin) ==> d.policy == origin)
  }

  lemma RestoreDoneIsOrigin(origin: seq<Setting>, d: Disk, m: Memory, f: RestoreFaults)
    requires SafeDisk(origin, d) && Restore(d, m, f).outcome.Done?
    ensures AtOrigin(origin, PerformAll(d, Restore(d, m, f).writes))
  {
    RestoreIsSafe(origin, d, m, f);
    SafeThroughEnd(origin, d, Restore(d, m, f).writes);
  }

  /** After any run, a release of a held lease that reports success has brought the origin back. */
  lemma ReleaseBringsBackTheOrigin(origin: seq<Setting>, evs: seq<Event>, f: RestoreFaults)
    requires |origin| == KEY_COUNT
    ensures var w := Run(Start(origin), evs);
            var t := Release(w.disk, w.memory, f);
            w.memory.active && t.outcome.Done? ==> AtOrigin(origin, PerformAll(w.disk, t.writes))
  {
    var w := Run(Start(origin), evs);
    RunIsSafe(origin, evs);
    if w.memory.active && Release(w.disk, w.memory, f).outcome.Done? { RestoreDoneIsOrigin(origin, w.disk, w.memory, f); }
  }

  /** After any run, crashes included, an acquire that gets past its own restore starts from the origin;
      and one that fails after that, but could undo what it did, leaves the origin. */
  lemma AcquireStartsFromTheOrigin(origin: seq<Setting>, evs: seq<Event>, hour: int, f: AcquireFaults)
    requires |origin| == KEY_COUNT
    ensures var w := Run(Start(origin), evs);
            var first := Restore(w.disk, w.memory, f.first);
            var t := Acquire(w.disk, w.memory, hour, f);
            !w.memory.active && HourValid(hour) && f.lockFree && first.outcome.Done? ==>
              && first.writes <= t.writes && AtOrigin(origin, PerformAll(w.disk, first.writes))
              && (t.outcome.Failed? && f.undo == NO_RESTORE_FAULTS ==> AtOrigin(origin, PerformAll(w.disk, t.writes)))
  {
    var w := Run(Start(origin), evs);
    RunIsSafe(origin, evs);
    var first := Restore(w.disk, w.memory, f.first);
    if !w.memory.active && HourValid(hour) && f.lockFree && first.outcome.Done? {
      RestoreDoneIsOrigin(origin, w.disk, w.memory, f.first);
      var d1 := PerformAll(w.disk, first.writes);
      ScanCoversKeys(d1.policy, 0, []);
      var scan := ScanPolicy(d1.policy, 0, []);
      if scan.valid && TakeOver(d1, scan.entries, hour, f).outcome.Failed? && f.undo == NO_RESTORE_FAULTS {
        ScanRecords(origin, d1.policy, 0, []);
        FailedTakeOverIsUndone(origin, d1, scan.entries, hour, f);
        PerformAllConcat(w.disk, first.writes, TakeOver(d1, scan.entries, hour, f).writes);
      }
    }
  }

  lemma FailedTakeOverIsUndone(origin: seq<Setting>, d: Disk, es: seq<Entry>, hour: int, f: AcquireFaults)
    requires SafeDisk(origin, d) && SafeEntries(origin, es, d.policy)
    requires TakeOver(d, es, hour, f).outcome.Failed? && f.undo == NO_RESTORE_FAULTS
    ensures AtOrigin(origin, PerformAll(d, TakeOver(d, es, hour, f).writes))
  {
    var m := Memory(true, false, es);
    var held := Apply(d, m, hour, f.apply);
    ApplyIsSafe(origin, d, m, hour, f.apply);
    var d2 := PerformAll(d, held.writes);
    RestoreDoneIsOrigin(origin, d2, held.memory, f.undo);
    PerformAllConcat(d, held.writes, Release(d2, held.memory, f.undo).writes);
  }

  /** After any run the way back is open: without faults, a recovery by a process without the lease
      and a release by the one with it both succeed. */
  lemma RecoveryIsAlwaysPossible(origin: seq<Setting>, evs: seq<Event>)
    requires |origin| == KEY_COUNT
    ensures var w := Run(Start(origin), evs);
            && Recover(w.disk, w.memory, true, NO_RESTORE_FAULTS).outcome == Done
            && Release(w.disk, w.memory, NO_RESTORE_FAULTS).outcome == Done
  {
    RunIsSafe(origin, evs);
  }

  // ---- The width of a number does not survive a lease ----

  /** Acquired and released on an untouched machine without faults, the policy comes back exactly if
      and only if it held no 64-bit number: such a number comes back as a 32-bit one. */
  lemma LeaseIsExactUnlessWide(origin: seq<Setting>, hour: int, f: AcquireFaults)
    requires |origin| == KEY_COUNT
    requires Acquire(Start(origin).disk, FRESH_MEMORY, hour, f).outcome.Done?
    ensures var t := Acquire(Start(origin).disk, FRESH_MEMORY, hour, f);
            var held := PerformAll(Start(origin).disk, t.writes);
            var back := PerformAll(held, Release(held, t.memory, NO_RESTORE_FAULTS).writes);
            && t.memory.active
            && back.journal == NoLease && Untouched(origin, back.policy)
            && (back.policy == origin <==> !HasWideNumber(origin))
  {
    var d := Start(origin).disk;
    var t := Acquire(d, FRESH_MEMORY, hour, f);
    var held := PerformAll(d, t.writes);
    AcquireIsSafe(origin, d, FRESH_MEMORY, hour, f);
    SafeThroughEnd(origin, d, t.writes);
    var back := PerformAll(held, Release(held, t.memory, NO_RESTORE_FAULTS).writes);
    RestoreIsSafe(origin, held, t.memory, NO_RESTORE_FAULTS);
    SafeThroughEnd(origin, held, Restore(held, t.memory, NO_RESTORE_FAULTS).writes);
    AcquireWritesValues(d, hour, f);
    assert held.journal != NoLease;
    RestoreChangesOnlyOurs(held, t.memory);
    forall i | 0 <= i < KEY_COUNT ensures !(back.policy[i].Number? && back.policy[i].wide) {
      assert Recorded(origin[i], Decode(held.journal)[i]);
      assert back.policy[i] == RestoredKey(held.policy[i], Decode(held.journal)[i]);
    }
  }

  lemma ValueWritesEffect(d: Disk, vs: seq<nat>, lost: set<nat>, i: nat)
    requires |vs| == |d.policy| && i <= |vs|
    ensures var d' := PerformAll(d, ValueWrites(vs, lost, i));
            && d'.journal == d.journal && |d'.policy| == |d.policy|
            && forall k :: 0 <= k < |d.policy| ==>
                 d'.policy[k] == if k >= i && k !in lost then Number(false, vs[k]) else d.policy[k]
    decreases |vs| - i
  {
    if i < |vs| {
      var first := if i !in lost then [Put(i, Number(false, vs[i]))] else [];
      PerformAllConcat(d, first, ValueWrites(vs, lost, i + 1));
      if first != [] {
        assert first[1..] == [];
        assert PerformAll(d, first) == PerformAll(Perform(d, first[0]), []);
      }
      ValueWritesEffect(PerformAll(d, first), vs, lost, i + 1);
    }
  }

  /** An apply that reports success leaves the five lease values in place, as an applied lease. */
  lemma ApplyDoneMeansInForce(d: Disk, m: Memory, hour: int, f: ApplyFaults)
    requires |d.policy| == KEY_COUNT && m.active && |m.entries| == KEY_COUNT
    requires Apply(d, m, hour, f).outcome.Done?
    ensures var t := Apply(d, m, hour, f);
            var d' := PerformAll(d, t.writes);
            && HourValid(hour) && ActiveHoursRange(f).Some? && t.memory.active && t.memory.applied
            && (forall k :: 0 <= k < KEY_COUNT ==>
                  d'.policy[k].Number? && d'.policy[k].value == LeaseValues(hour, ActiveHoursRange(f).value)[k])
            && (t.writes != [] ==> d'.journal.Document? && forall k :: 0 <= k < KEY_COUNT ==> !d'.policy[k].wide)
  {
    hide Stage, ValueWrites, LeaseValues, ActiveHoursRange;
    var t := Apply(d, m, hour, f);
    var vs := LeaseValues(hour, ActiveHoursRange(f).value);
    var st := Stage(d.policy, m.entries, vs, m.applied, 0, false);
    StageMeaning(d.policy, m.entries, vs, m.applied, 0, false);
    ApplyShape(d, m, hour, f);
    if t.writes == [] {
      forall k | 0 <= k < KEY_COUNT ensures d.policy[k].Number? && d.policy[k].value == vs[k] {
        assert !Conflicts(d.policy[k], m.entries[k], m.applied);
        assert st.entries[k] == m.entries[k];
      }
    } else {
      var save := [WriteJournal(Encode(st.entries))];
      assert save[1..] == [];
      assert PerformAll(Perform(d, save[0]), []) == Perform(d, save[0]);
      PerformAllConcat(d, save, ValueWrites(vs, {}, 0));
      ValueWritesEffect(Perform(d, save[0]), vs, {}, 0);
    }
  }

  /** Whether an hour of the day lies in the window from one hour up to another, across midnight or not. */
  predicate InWindow(from: nat, to: nat, hour: nat) { if from <= to then from <= hour < to else hour >= from || hour < to }

  /** What the range policies ask for: eighteen hours, or what a range policy switched on configures. */
  ghost predicate RangeAsked(f: ApplyFaults, range: nat) {
    || (range == 18 && (f.rangeEnabled.Absent? || f.rangeEnabled.ToUInt() == 0))
    || (f.rangeEnabled.ToUInt() != 0 && f.range.Number? && f.range.value % 0x1_0000_0000 == range && 8 <= range <= 18)
  }

  /** An apply that reports success has switched active hours on, from the hour given for as many hours
      as asked, the current one first, and switched the two policies off that would override them. */
  lemma LeaseCoversItsHours(d: Disk, m: Memory, hour: int, f: ApplyFaults)
    requires |d.policy| == KEY_COUNT && m.active && |m.entries| == KEY_COUNT
    requires Apply(d, m, hour, f).outcome.Done?
    ensures var p := PerformAll(d, Apply(d, m, hour, f).writes).policy;
            && |p| == KEY_COUNT && (forall k :: 0 <= k < KEY_COUNT ==> p[k].Number?)
            && p[0].value == 1 && p[3].value == p[4].value == 0 && p[1].value == hour && p[2].value < 24
            && exists range: nat :: RangeAsked(f, range) && WindowLasts(p[1].value, p[2].value, range)
  {
    hide Apply;
    ApplyDoneMeansInForce(d, m, hour, f);
    var range := ActiveHoursRange(f).value;
    assert RangeAsked(f, range);
    WindowOf(hour, range);
  }

  function HourAfter(from: nat, o: nat): nat { if from + o < 24 then from + o else from + o - 24 }

  /** From `from` on, exactly the next `range` hours are in the window. */
  predicate WindowLasts(from: nat, to: nat, range: nat) {
    forall o: nat :: o < 24 ==> (InWindow(from, to, HourAfter(from, o)) <==> o < range)
  }

  lemma WindowOf(hour: nat, range: nat)
    requires hour < 24 && 8 <= range <= 18
    ensures WindowLasts(hour, (hour + range) % 24, range)
  {
    assert (hour + range) % 24 == if hour + range < 24 then hour + range else hour + range - 24;
  }

  /** With the other inputs in order, an apply fails for its range if and only if nothing is asked for
      that it could use. */
  lemma RangeRefusedIff(d: Disk, m: Memory, hour: int, f: ApplyFaults)
    requires |d.policy| == KEY_COUNT && m.active && |m.entries| == KEY_COUNT && HourValid(hour)
    ensures Apply(d, m, hour, f).outcome == Failed([ActiveHoursRangeInvalid]) <==> !exists range: nat :: RangeAsked(f, range)
  {
    if ActiveHoursRange(f).Some? { assert RangeAsked(f, ActiveHoursRange(f).value); }
  }

  lemma AcquireWritesValues(d: Disk, hour: int, f: AcquireFaults)
    requires |d.policy| == KEY_COUNT && d.journal == NoLease
    requires Acquire(d, FRESH_MEMORY, hour, f).outcome.Done?
    ensures var t := Acquire(d, FRESH_MEMORY, hour, f);
            var d' := PerformAll(d, t.writes);
            && t.memory.active && d'.journal.Document?
            && forall k :: 0 <= k < KEY_COUNT ==> d'.policy[k].Number? && !d'.policy[k].wide
  {
    var scan := ScanPolicy(d.policy, 0, []);
    ScanCoversKeys(d.policy, 0, []);
    assert PerformAll(d, []) == d;
    var m1 := Memory(true, false, scan.entries);
    var held := Apply(d, m1, hour, f.apply);
    assert [] + held.writes == held.writes;
    ApplyDoneMeansInForce(d, m1, hour, f.apply);
    ApplyShape(d, m1, hour, f.apply);
  }

  // ---- Restore on its own: any policy, any valid journal ----

  /** A complete restore returns exactly the keys that hold one of the two recorded writes, to their
      recorded presence and value; every other key stays as found. An invalid journal changes nothing. */
  lemma RestoreChangesOnlyOurs(d: Disk, m: Memory)
    requires |d.policy| == KEY_COUNT && d.journal != NoLease
    ensures var t := Restore(d, m, NO_RESTORE_FAULTS);
            if JournalValid(d.journal) then
              t.outcome.Done? && PerformAll(d, t.writes) == Disk(RestoredPolicy(d.policy, Decode(d.journal)), NoLease)
            else t.writes == [] && t.outcome == Failed([JournalInvalid])
  {
    if JournalValid(d.journal) {
      var es := Decode(d.journal);
      var keys := RestoreKeyWrites(d.policy, es, {}, 0);
      RestoreKeyWritesEffect(d, d.policy, es, {}, 0);
      var drop := [WriteJournal(NoLease)];
      PerformAllConcat(d, keys, drop);
      assert drop[1..] == [];
      var d1 := PerformAll(d, keys);
      assert PerformAll(Perform(d1, drop[0]), []) == Perform(d1, drop[0]);
      assert d1.policy == RestoredPolicy(d.policy, es);
    }
  }

  /** Over what the journal itself says: a complete restore gives a key its recorded presence and
      original exactly when the key holds a number that the journal records as present and applied, or
      as present and previous; whatever else it holds, absent, of another kind or any other number, an
      administrator put there, and it stays. */
  lemma RestoreReturnsOnlyOurWrites(d: Disk, m: Memory, k: nat)
    requires |d.policy| == KEY_COUNT && JournalValid(d.journal) && k < KEY_COUNT
    ensures var found, entry := d.policy[k], d.journal.values[k];
            var t := Restore(d, m, NO_RESTORE_FAULTS);
            var left := PerformAll(d, t.writes);
            var ours := found.Number?
                        && ((entry.appliedPresent == Flag(true) && entry.applied == Num(found.value as real))
                            || (entry.previousPresent == Flag(true) && entry.previous == Num(found.value as real)));
            && t.outcome.Done? && left.journal == NoLease
            && (ours && entry.present == Flag(true) ==>
                  left.policy[k].Number? && !left.policy[k].wide && entry.original == Num(left.policy[k].value as real))
            && (ours && entry.present == Flag(false) ==> left.policy[k] == Absent)
            && (!ours ==> left.policy[k] == found)
  {
    RestoreChangesOnlyOurs(d, m);
    var entry := d.journal.values[k];
    assert EntryValid(entry, k);
    assert Decode(d.journal)[k] == DecodeEntry(entry, k);
    WholeNumber(entry.applied);
    WholeNumber(entry.previous);
    if entry.present.b { WholeNumber(entry.original); }
  }

  lemma WholeNumber(j: Json)
    requires IsDword(j)
    ensures j.x.Floor >= 0 && j.x.Floor as real == j.x
  {
  }

  /** A journal with a single thing wrong in it, wherever it is, changes nothing at all. */
  lemma WrongJournalChangesNothing(d: Disk, m: Memory, f: RestoreFaults, k: nat)
    requires |d.policy| == KEY_COUNT && d.journal.Document?
    requires !d.journal.schemaKnown || d.journal.version != Num(1.0) || |d.journal.values| != 5
             || (k < 5 && Wrong(d.journal.values[k], k))
    ensures Restore(d, m, f).writes == [] && Restore(d, m, f).outcome == Failed([JournalInvalid])
  {
    assert |d.journal.values| == KEY_COUNT && k < KEY_COUNT ==> (EntryValid(d.journal.values[k], k) ==> !Wrong(d.journal.values[k], k));
  }

  /** An entry for another key, a flag that is none, or a number that is none or does not fit 32 bits. */
  predicate Wrong(e: JournalEntry, k: nat) {
    || e.index != Num(k as real)
    || !e.present.Flag? || !e.appliedPresent.Flag? || !e.previousPresent.Flag?
    || NotAWord(e.applied) || NotAWord(e.previous) || (e.present == Flag(true) && NotAWord(e.original))
  }

  predicate NotAWord(j: Json) { !j.Num? || j.x < 0.0 || j.x > 4294967295.0 || j.x.Floor as real != j.x }

  lemma RestoredKeyIsStable(s: Setting, e: Entry)
    ensures RestoredKey(RestoredKey(s, e), e) == RestoredKey(s, e)
  {
  }

  /** Between `d` and its restored form: each key is as found or already restored. */
  ghost predicate PartlyRestored(d: Disk, now: Disk)
    requires JournalValid(d.journal) && |d.policy| == KEY_COUNT
  {
    && now.journal == d.journal && |now.policy| == KEY_COUNT
    && forall k :: 0 <= k < KEY_COUNT ==>
         now.policy[k] == d.policy[k] || now.policy[k] == RestoredKey(d.policy[k], Decode(d.journal)[k])
  }

  lemma KeyWritesPartlyRestore(d: Disk, now: Disk, ws: seq<Write>)
    requires JournalValid(d.journal) && |d.policy| == KEY_COUNT && PartlyRestored(d, now)
    requires forall w :: w in ws ==> w in RestoreKeyWrites(d.policy, Decode(d.journal), {}, 0)
    ensures PartlyRestored(d, PerformAll(now, ws))
    decreases |ws|
  {
    if ws != [] {
      assert ws[0] in ws;
      RestoreKeyWritesShape(d.policy, Decode(d.journal), {}, 0, ws[0]);
      KeyWritesPartlyRestore(d, Perform(now, ws[0]), ws[1..]);
    }
  }

  lemma {:induction false} LostWritesAreFewer(p: seq<Setting>, es: seq<Entry>, lost: set<nat>, i: nat, w: Write)
    requires |p| == |es| && w in RestoreKeyWrites(p, es, lost, i)
    ensures w in RestoreKeyWrites(p, es, {}, i)
    decreases |es| - i
  {
    hide Ours, Original;
    if i < |es| && w in RestoreKeyWrites(p, es, lost, i + 1) {
      LostWritesAreFewer(p, es, lost, i + 1, w);
    }
  }

  /** Whatever the policy and the valid journal, and whatever went wrong: a restore cut off after any
      number of its writes and run again ends exactly where one uninterrupted restore ends. */
  lemma RestoreResumes(d: Disk, m: Memory, f: RestoreFaults, cut: nat)
    requires |d.policy| == KEY_COUNT && JournalValid(d.journal)
    ensures var d1 := PerformAll(d, Upto(Restore(d, m, f).writes, cut));
            && |d1.policy| == KEY_COUNT
            && PerformAll(d1, Restore(d1, m, NO_RESTORE_FAULTS).writes)
               == PerformAll(d, Restore(d, m, NO_RESTORE_FAULTS).writes)
  {
    var es := Decode(d.journal);
    var all := Restore(d, m, f).writes;
    var keys := RestoreKeyWrites(d.policy, es, f.lost, 0);
    var done := Upto(all, cut);
    var d1 := PerformAll(d, done);
    RestoreChangesOnlyOurs(d, m);
    if |done| <= |keys| {
      assert done == keys[..|done|];
      forall w | w in done ensures w in RestoreKeyWrites(d.policy, es, {}, 0) {
        LostWritesAreFewer(d.policy, es, f.lost, 0, w);
      }
      KeyWritesPartlyRestore(d, d, done);
      RestoreChangesOnlyOurs(d1, m);
      forall k | 0 <= k < KEY_COUNT
        ensures RestoredKey(d1.policy[k], es[k]) == RestoredKey(d.policy[k], es[k])
      {
        RestoredKeyIsStable(d.policy[k], es[k]);
      }
      assert RestoredPolicy(d1.policy, es) == RestoredPolicy(d.policy, es);
    } else {
      var drop := [WriteJournal(NoLease)];
      assert done == keys + drop;
      PerformAllConcat(d, keys, drop);
      RestoreKeyWritesEffect(d, d.policy, es, f.lost, 0);
      var dk := PerformAll(d, keys);
      assert drop[1..] == [];
      assert PerformAll(Perform(dk, drop[0]), []) == Perform(dk, drop[0]);
      assert d1.policy == RestoredPolicy(d.policy, es);
      assert PerformAll(d1, []) == d1;
    }
  }

  // ---- Outside edits ----

  /** An apply meeting any key that differs from the value in memory touches neither policy nor
      journal, and says so. */
  lemma ApplyRespectsOutsideEdits(d: Disk, m: Memory, hour: int, f: ApplyFaults, k: nat)
    requires |d.policy| == KEY_COUNT && m.active && |m.entries| == KEY_COUNT
    requires HourValid(hour) && ActiveHoursRange(f).Some?
    requires k < KEY_COUNT && Conflicts(d.policy[k], m.entries[k], m.applied)
    ensures Apply(d, m, hour, f).writes == [] && Apply(d, m, hour, f).outcome == Failed([ChangedExternally])
  {
    var vs := LeaseValues(hour, ActiveHoursRange(f).value);
    StageMeaning(d.policy, m.entries, vs, m.applied, 0, false);
  }

  // ---- Exactly when a refresh is refused, and what brings that about without an edit ----

  /** Some key differs from what memory says the lease wrote. */
  ghost predicate Conflicted(d: Disk, m: Memory)
    requires |d.policy| == |m.entries| == KEY_COUNT
  {
    exists k :: 0 <= k < KEY_COUNT && Conflicts(d.policy[k], m.entries[k], m.applied)
  }

  /** An apply of an active lease is refused as an outside edit if and only if some key conflicts with
      memory, whoever brought that about. */
  lemma ApplyRefusedIff(d: Disk, m: Memory, hour: int, f: ApplyFaults)
    requires |d.policy| == KEY_COUNT && m.active && |m.entries| == KEY_COUNT
    requires HourValid(hour) && ActiveHoursRange(f).Some?
    ensures Apply(d, m, hour, f).outcome == Failed([ChangedExternally]) <==> Conflicted(d, m)
    ensures Conflicted(d, m) ==> Apply(d, m, hour, f).writes == []
  {
    StageMeaning(d.policy, m.entries, LeaseValues(hour, ActiveHoursRange(f).value), m.applied, 0, false);
  }

  /** A key that an apply is about to change: present, and not at the wanted value. */
  predicate Changing(s: Setting, e: Entry, v: nat) { !s.Absent? && e.applied != v }

  /** From a policy that agrees with memory, an apply leaves one that does not if and only if it was
      about to change a present key and either could not save the journal, whether or not the new one
      reached the disk, or lost that key's write. */
  lemma ApplyLeavesConflictIff(d: Disk, m: Memory, hour: int, f: ApplyFaults)
    requires |d.policy| == KEY_COUNT && m.active && |m.entries| == KEY_COUNT && !Conflicted(d, m)
    requires HourValid(hour) && ActiveHoursRange(f).Some?
    ensures var t := Apply(d, m, hour, f);
            var vs := LeaseValues(hour, ActiveHoursRange(f).value);
            && |t.memory.entries| == KEY_COUNT
            && (Conflicted(PerformAll(d, t.writes), t.memory) <==>
                  exists k :: 0 <= k < KEY_COUNT && Changing(d.policy[k], m.entries[k], vs[k]) && (f.save != Clean || k in f.lost))
  {
    var vs := LeaseValues(hour, ActiveHoursRange(f).value);
    var t := Apply(d, m, hour, f);
    ApplyShape(d, m, hour, f);
    StageMeaning(d.policy, m.entries, vs, m.applied, 0, false);
    ApplyPolicy(d, m, hour, f);
    var d' := PerformAll(d, t.writes);
    forall k | 0 <= k < KEY_COUNT
      ensures Conflicts(d'.policy[k], t.memory.entries[k], t.memory.applied) <==>
                Changing(d.policy[k], m.entries[k], vs[k]) && (f.save != Clean || k in f.lost)
    {
      assert !Conflicts(d.policy[k], m.entries[k], m.applied);
      assert t.memory.entries[k].applied == vs[k];
    }
  }

  /** What an apply that meets no conflict leaves of the policy: with nothing to change or no journal,
      what it found; otherwise the values, but for lost writes. */
  lemma ApplyPolicy(d: Disk, m: Memory, hour: int, f: ApplyFaults)
    requires |d.policy| == KEY_COUNT && m.active && |m.entries| == KEY_COUNT && !Conflicted(d, m)
    requires HourValid(hour) && ActiveHoursRange(f).Some?
    ensures var t := Apply(d, m, hour, f);
            var vs := LeaseValues(hour, ActiveHoursRange(f).value);
            var st := Stage(d.policy, m.entries, vs, m.applied, 0, false);
            var d' := PerformAll(d, t.writes);
            && |d'.policy| == KEY_COUNT && !st.conflict
            && (m.applied && !st.changed ==> d' == d && t.memory.applied)
            && (!(m.applied && !st.changed) && f.save != Clean ==> d'.policy == d.policy && t.memory.applied == m.applied)
            && (!(m.applied && !st.changed) && f.save == Clean ==>
                  && (forall k :: 0 <= k < KEY_COUNT ==>
                       d'.policy[k] == if k !in f.lost then Number(false, vs[k]) else d.policy[k])
                  && (f.lost != {} ==> t.memory.applied == m.applied))
  {
    var vs := LeaseValues(hour, ActiveHoursRange(f).value);
    StageMeaning(d.policy, m.entries, vs, m.applied, 0, false);
    var st := Stage(d.policy, m.entries, vs, m.applied, 0, false);
    var save := [WriteJournal(Encode(st.entries))];
    assert save[1..] == [];
    assert PerformAll(d, save) == PerformAll(Perform(d, save[0]), []);
    PerformAllConcat(d, save, ValueWrites(vs, f.lost, 0));
    ValueWritesEffect(Perform(d, save[0]), vs, f.lost, 0);
  }

  // ---- What is refused, and what is reported ----

  /** An apply is refused for its hour if and only if that is no hour of the day, and otherwise for want
      of a lease if and only if there is none; then it writes and changes nothing. */
  lemma ApplyRefusesFirst(d: Disk, m: Memory, hour: int, f: ApplyFaults)
    requires |d.policy| == KEY_COUNT && (m.active ==> |m.entries| == KEY_COUNT)
    ensures var t := Apply(d, m, hour, f);
            && (t.outcome == Failed([InvalidLocalHour]) <==> hour < 0 || hour > 23)
            && (t.outcome == Failed([LeaseInactive]) <==> 0 <= hour <= 23 && !m.active)
            && (hour < 0 || hour > 23 || !m.active ==> t.writes == [] && t.memory == m)
  {
  }

  /** Without a lease: an acquire at no hour of the day, or while another process has the lock, and a
      recovery while another has the lock, are refused and do nothing; a release has nothing to do. With
      one, a recovery has nothing to do, an acquire is a refresh, and a release gives it up. */
  lemma OthersAreRespected(d: Disk, m: Memory, hour: int, f: AcquireFaults, lockFree: bool, g: RestoreFaults)
    requires |d.policy| == KEY_COUNT && (m.active ==> |m.entries| == KEY_COUNT)
    ensures !m.active && (hour < 0 || hour > 23) ==> Acquire(d, m, hour, f) == Transition([], m, Failed([InvalidLocalHour]))
    ensures !m.active && 0 <= hour <= 23 && !f.lockFree ==>
              Acquire(d, m, hour, f) == Transition([], m, Failed([AnotherHostOwnsProtection]))
    ensures !m.active && !lockFree ==> Recover(d, m, lockFree, g) == Transition([], m, Failed([AnotherHostOwnsProtection]))
    ensures !m.active ==> Release(d, m, g) == Transition([], m, Done)
    ensures m.active ==> Recover(d, m, lockFree, g) == Transition([], m, Done) && Acquire(d, m, hour, f) == Apply(d, m, hour, f.apply)
    ensures !Release(d, m, g).memory.active
  {
  }

  /** A restore reports success if and only if there was no journal, or it was valid and nothing went
      wrong; what went wrong is named, and the journal is gone exactly if its removal reached the disk. */
  lemma RestoreReports(d: Disk, m: Memory, f: RestoreFaults)
    requires |d.policy| == KEY_COUNT && d.journal != NoLease
    ensures var t := Restore(d, m, f);
            var left := PerformAll(d, t.writes).journal;
            && (t.outcome == Failed([JournalInvalid]) <==> !JournalValid(d.journal))
            && (t.outcome == Failed([RestoreFailed]) <==> JournalValid(d.journal) && (f.lost != {} || f.syncError))
            && (t.outcome == Failed([JournalCleanupFailed]) <==>
                  JournalValid(d.journal) && f.lost == {} && !f.syncError && f.cleanup.SyncError?)
            && (t.outcome == Done <==> JournalValid(d.journal) && f.lost == {} && !f.syncError && f.cleanup.Clean?)
            && (left == NoLease <==> t.outcome == Done || (t.outcome == Failed([JournalCleanupFailed]) && f.cleanup.written))
            && (left != NoLease ==> left == d.journal) && t.memory == m
  {
    if JournalValid(d.journal) {
      var es := Decode(d.journal);
      var keys := RestoreKeyWrites(d.policy, es, f.lost, 0);
      RestoreKeyWritesEffect(d, d.policy, es, f.lost, 0);
      var drop := [WriteJournal(NoLease)];
      PerformAllConcat(d, keys, drop);
      assert keys + [] == keys && drop[1..] == [];
      assert PerformAll(Perform(PerformAll(d, keys), drop[0]), []) == Perform(PerformAll(d, keys), drop[0]);
    }
  }

  /** From an untouched machine an acquire that fails to apply reports why, and then whatever else goes
      wrong in taking it back; it is refused for a policy it cannot record if and only if some key is
      neither absent nor a number that fits 32 bits. Either way there is no lease. */
  lemma AcquireReports(origin: seq<Setting>, hour: int, f: AcquireFaults)
    requires |origin| == KEY_COUNT && 0 <= hour <= 23 && f.lockFree
    ensures var d := Start(origin).disk;
            var t := Acquire(d, FRESH_MEMORY, hour, f);
            && (t.outcome == Failed([PolicyValueInvalid]) <==>
                  exists k :: 0 <= k < KEY_COUNT && !(origin[k].Absent? || (origin[k].Number? && origin[k].value <= 0xffff_ffff)))
            && (t.outcome.Failed? ==> !t.memory.active)
            && (t.outcome.Failed? && t.outcome != Failed([PolicyValueInvalid]) ==>
                  var entries := ScanPolicy(origin, 0, []).entries;
                  |entries| == KEY_COUNT &&
                  var held := Apply(d, Memory(true, false, entries), hour, f.apply);
                  var undo := Restore(PerformAll(d, held.writes), held.memory, f.undo);
                  && held.outcome.Failed?
                  && t.outcome == Failed(held.outcome.errors + if undo.outcome.Failed? then undo.outcome.errors else []))
  {
    var d := Start(origin).disk;
    assert PerformAll(d, []) == d;
    ScanAccepts(d.policy, 0, []);
    ScanCoversKeys(d.policy, 0, []);
    var entries := ScanPolicy(d.policy, 0, []).entries;
    if ScanPolicy(d.policy, 0, []).valid {
      ApplyErrors(d, Memory(true, false, entries), hour, f.apply);
      var held := Apply(d, Memory(true, false, entries), hour, f.apply);
      if held.outcome.Failed? { assert held.outcome.errors + [] == held.outcome.errors; }
    } else {
      var k :| 0 <= k < KEY_COUNT && !Acceptable(d.policy[k]);
    }
  }

  lemma ApplyErrors(d: Disk, m: Memory, hour: int, f: ApplyFaults)
    requires |d.policy| == KEY_COUNT && m.active && |m.entries| == KEY_COUNT
    ensures var o := Apply(d, m, hour, f).outcome; o.Failed? ==> |o.errors| == 1 && o.errors[0] != PolicyValueInvalid
  {
  }

  /** An apply that gets as far as writing reports the first thing that goes wrong. */
  lemma ApplyReports(d: Disk, m: Memory, hour: int, f: ApplyFaults)
    requires |d.policy| == KEY_COUNT && m.active && |m.entries| == KEY_COUNT && !Conflicted(d, m) && !m.applied
    requires 0 <= hour <= 23 && ActiveHoursRange(f).Some?
    ensures var t := Apply(d, m, hour, f);
            && (t.outcome == Failed([JournalWriteFailed]) <==> f.save.SyncError?)
            && (t.outcome == Failed([PolicyWriteFailed]) <==> f.save.Clean? && (f.lost != {} || f.syncError))
            && (t.outcome == Done <==> Faultless(f))
            && (f.save.SyncError? ==> |t.writes| == (if f.save.written then 1 else 0))
            && (t.writes != [] ==> t.writes[0].WriteJournal?)
  {
    StageMeaning(d.policy, m.entries, LeaseValues(hour, ActiveHoursRange(f).value), m.applied, 0, false);
    if Faultless(f) { FaultlessApplySucceeds(d, m, hour, f); }
  }

  /** The first key that conflicts, or the number of keys. */
  function FirstConflict(p: seq<Setting>, es: seq<Entry>, applied: bool, i: nat): (k: nat)
    requires |p| == |es| && i <= |es|
    ensures i <= k <= |es| && (k < |es| ==> Conflicts(p[k], es[k], applied))
    ensures forall x :: i <= x < k ==> !Conflicts(p[x], es[x], applied)
    decreases |es| - i
  {
    if i == |es| || Conflicts(p[i], es[i], applied) then i else FirstConflict(p, es, applied, i + 1)
  }

  /** A staging moves on exactly the keys before the first conflict that are absent or not at the
      wanted value. */
  lemma {:induction false} StageStops(p: seq<Setting>, es: seq<Entry>, vs: seq<nat>, applied: bool, i: nat, changed: bool)
    requires |p| == |es| == |vs| && i <= |es|
    ensures var st := Stage(p, es, vs, applied, i, changed);
            forall k :: 0 <= k < |es| ==>
              st.entries[k] == if i <= k < FirstConflict(p, es, applied, i) && !(es[k].applied == vs[k] && !p[k].Absent?)
                               then StageEntry(es[k], vs[k]) else es[k]
    decreases |es| - i
  {
    hide Conflicts;
    if i < |es| && !Conflicts(p[i], es[i], applied) {
      if es[i].applied == vs[i] && !p[i].Absent? {
        StageStops(p, es, vs, applied, i + 1, changed);
      } else {
        var next := es[i := StageEntry(es[i], vs[i])];
        StageStops(p, next, vs, applied, i + 1, true);
        SameFirstConflict(p, es, next, applied, i + 1);
      }
    }
  }

  lemma SameFirstConflict(p: seq<Setting>, es: seq<Entry>, fs: seq<Entry>, applied: bool, i: nat)
    requires |p| == |es| == |fs| && i <= |es| && forall k :: i <= k < |es| ==> es[k] == fs[k]
    ensures FirstConflict(p, es, applied, i) == FirstConflict(p, fs, applied, i)
    decreases |es| - i
  {
  }

  /** An edited policy makes a refresh fail; once the edit is undone, later refreshes still fail if and
      only if some present key before the first edited one was about to change. */
  lemma UndoneEditStillRefusedIff(d: Disk, edited: seq<Setting>, m: Memory, hour: int, f: ApplyFaults)
    requires |d.policy| == KEY_COUNT == |edited| && m.active && |m.entries| == KEY_COUNT && !Conflicted(d, m)
    requires HourValid(hour) && ActiveHoursRange(f).Some? && Conflicted(d.(policy := edited), m)
    ensures var t := Apply(d.(policy := edited), m, hour, f);
            var vs := LeaseValues(hour, ActiveHoursRange(f).value);
            && t.outcome == Failed([ChangedExternally]) && t.writes == [] && |t.memory.entries| == KEY_COUNT
            && (Conflicted(d, t.memory) <==>
                  exists k :: 0 <= k < FirstConflict(edited, m.entries, m.applied, 0) && Changing(d.policy[k], m.entries[k], vs[k]))
  {
    var vs := LeaseValues(hour, ActiveHoursRange(f).value);
    ApplyRefusedIff(d.(policy := edited), m, hour, f);
    ApplyShape(d.(policy := edited), m, hour, f);
    StageStops(edited, m.entries, vs, m.applied, 0, false);
    var t := Apply(d.(policy := edited), m, hour, f);
    StageMeaning(edited, m.entries, vs, m.applied, 0, false);
    assert t.memory.applied == m.applied;
    forall k | 0 <= k < KEY_COUNT
      ensures Conflicts(d.policy[k], t.memory.entries[k], t.memory.applied) <==>
                k < FirstConflict(edited, m.entries, m.applied, 0) && Changing(d.policy[k], m.entries[k], vs[k])
    {
      assert !Conflicts(d.policy[k], m.entries[k], m.applied);
    }
  }

  /** Refreshes at given hours and with given faults, one after the other. */
  function Refreshes(w: World, fs: seq<(int, ApplyFaults)>): (r: World)
    requires WellFormed(w)
    ensures WellFormed(r)
    decreases |fs|
  {
    if fs == [] then w else Refreshes(Next(w, Returns(RefreshOp(fs[0].0, fs[0].1))), fs[1..])
  }

  /** A conflict is for good: whatever refreshes follow, none writes anything and every one with a valid
      hour and range is refused. */
  lemma {:induction false} RefusalPersists(w: World, fs: seq<(int, ApplyFaults)>)
    requires WellFormed(w) && w.memory.active && Conflicted(w.disk, w.memory)
    ensures var r := Refreshes(w, fs);
            && r.disk == w.disk && r.memory.active && Conflicted(r.disk, r.memory)
    decreases |fs|
  {
    hide Conflicts;
    if fs != [] {
      RefusedKeepsConflict(w, fs[0].0, fs[0].1);
      RefusalPersists(Next(w, Returns(RefreshOp(fs[0].0, fs[0].1))), fs[1..]);
    }
  }

  lemma RefusedKeepsConflict(w: World, hour: int, f: ApplyFaults)
    requires WellFormed(w) && w.memory.active && Conflicted(w.disk, w.memory)
    ensures var n := Next(w, Returns(RefreshOp(hour, f)));
            n.disk == w.disk && n.memory.active && Conflicted(n.disk, n.memory)
  {
    var d, m := w.disk, w.memory;
    assert PerformAll(d, []) == d;
    if HourValid(hour) && ActiveHoursRange(f).Some? {
      var vs := LeaseValues(hour, ActiveHoursRange(f).value);
      ApplyRefusedIff(d, m, hour, f);
      ApplyShape(d, m, hour, f);
      StageStops(d.policy, m.entries, vs, m.applied, 0, false);
      StageMeaning(d.policy, m.entries, vs, m.applied, 0, false);
      var k := FirstConflict(d.policy, m.entries, m.applied, 0);
      assert k < KEY_COUNT;
      assert Conflicts(d.policy[k], Apply(d, m, hour, f).memory.entries[k], m.applied);
    }
  }

  /** A refresh at a new hour whose journal save reports an error, whether or not the journal reached
      the disk, has already moved the entries on: every later refresh of the lease is refused as an
      outside edit and touches nothing, although nobody edited anything. Release still brings the
      policy back. */
  lemma UnsavedRefreshBlocksLaterOnes(
    origin: seq<Setting>, d: Disk, m: Memory, hour: int, f: ApplyFaults, later: seq<(int, ApplyFaults)>, g: ApplyFaults, at: int)
    requires SafeWorld(origin, World(d, m)) && m.active && m.applied
    requires Apply(d, m, hour, f).outcome == Failed([JournalWriteFailed])
    requires HourValid(at) && ActiveHoursRange(g).Some?
    ensures var after := World(PerformAll(d, Apply(d, m, hour, f).writes), Apply(d, m, hour, f).memory);
            && after.disk.policy == d.policy && WellFormed(after)
            && var r := Refreshes(after, later);
               && r.disk == after.disk && r.memory.active
               && Apply(r.disk, r.memory, at, g).writes == []
               && Apply(r.disk, r.memory, at, g).outcome == Failed([ChangedExternally])
               && Release(r.disk, r.memory, NO_RESTORE_FAULTS).outcome == Done
               && Untouched(origin, PerformAll(r.disk, Release(r.disk, r.memory, NO_RESTORE_FAULTS).writes).policy)
  {
    var vs := LeaseValues(hour, ActiveHoursRange(f).value);
    var t := Apply(d, m, hour, f);
    var after := World(PerformAll(d, t.writes), t.memory);
    ApplyRefusedIff(d, m, hour, f);
    ApplyPolicy(d, m, hour, f);
    ApplyLeavesConflictIff(d, m, hour, f);
    ApplyIsSafe(origin, d, m, hour, f);
    StageMeaning(d.policy, m.entries, vs, m.applied, 0, false);
    if forall k :: 0 <= k < KEY_COUNT ==> m.entries[k].applied == vs[k] {
      StageUnchanged(d.policy, m.entries, vs, m.applied, 0, false);
      assert false;
    }
    var k :| 0 <= k < KEY_COUNT && m.entries[k].applied != vs[k];
    assert !Conflicts(d.policy[k], m.entries[k], m.applied);
    assert Changing(d.policy[k], m.entries[k], vs[k]);
    RefusalPersists(after, later);
    var r := Refreshes(after, later);
    ApplyRefusedIff(r.disk, r.memory, at, g);
    ReleaseRestores(origin, r.disk, r.memory);
  }

  /** An apply that reports success leaves policy and memory in agreement. */
  lemma ApplyDoneAgrees(d: Disk, m: Memory, hour: int, f: ApplyFaults)
    requires |d.policy| == KEY_COUNT && m.active && |m.entries| == KEY_COUNT
    requires Apply(d, m, hour, f).outcome.Done?
    ensures var t := Apply(d, m, hour, f);
            && HourValid(hour) && ActiveHoursRange(f).Some? && t.memory.active && t.memory.applied
            && |t.memory.entries| == KEY_COUNT
            && !Conflicted(PerformAll(d, t.writes), t.memory)
            && forall k :: 0 <= k < KEY_COUNT ==>
                 && !PerformAll(d, t.writes).policy[k].Absent?
                 && t.memory.entries[k].applied == LeaseValues(hour, ActiveHoursRange(f).value)[k]
  {
    ApplyDoneMeansInForce(d, m, hour, f);
    var vs := LeaseValues(hour, ActiveHoursRange(f).value);
    ApplyShape(d, m, hour, f);
    StageMeaning(d.policy, m.entries, vs, m.applied, 0, false);
  }

  /** A policy value that an acquire accepts. */
  predicate Acceptable(s: Setting) { s.Absent? || (s.Number? && s.value <= DWORD_MAX) }

  /** An acquire records a policy if and only if it accepts every key, and its record then agrees with
      the policy. */
  lemma {:induction false} ScanAccepts(p: seq<Setting>, i: nat, found: seq<Entry>)
    requires i == |found| <= |p| && forall k :: 0 <= k < i ==> Acceptable(p[k]) && !Conflicts(p[k], found[k], false)
    ensures var sc := ScanPolicy(p, i, found);
            && (sc.valid <==> forall k :: 0 <= k < |p| ==> Acceptable(p[k]))
            && (sc.valid ==> |sc.entries| == |p| && forall k :: 0 <= k < |p| ==> !Conflicts(p[k], sc.entries[k], false))
    decreases |p| - i
  {
    if i < |p| {
      match p[i]
      case OtherKind(_) =>
      case Absent => ScanAccepts(p, i + 1, found + [Entry(false, 0, false, 0, false, 0)]);
      case Number(_, v) =>
        if v <= DWORD_MAX { ScanAccepts(p, i + 1, found + [Entry(true, v, true, v, true, v)]); }
    }
  }

  predicate Faultless(f: ApplyFaults) { ActiveHoursRange(f).Some? && f.save == Clean && f.lost == {} && !f.syncError }

  lemma FaultlessApplySucceeds(d: Disk, m: Memory, hour: int, f: ApplyFaults)
    requires |d.policy| == KEY_COUNT && m.active && |m.entries| == KEY_COUNT && !Conflicted(d, m)
    requires HourValid(hour) && Faultless(f)
    ensures Apply(d, m, hour, f).outcome == Done
  {
    hide Stage, ValueWrites, ActiveHoursRange, Encode, FirstConflict;
    var vs := LeaseValues(hour, ActiveHoursRange(f).value);
    var st := Stage(d.policy, m.entries, vs, m.applied, 0, false);
    StageMeaning(d.policy, m.entries, vs, m.applied, 0, false);
    var save := [WriteJournal(Encode(st.entries))];
    assert save[1..] == [];
    assert PerformAll(Perform(d, save[0]), []) == Perform(d, save[0]);
    PerformAllConcat(d, save, ValueWrites(vs, {}, 0));
    ValueWritesEffect(Perform(d, save[0]), vs, {}, 0);
  }

  /** From an untouched machine, without faults, a process gets the lease if and only if every key is
      absent or a number that fits 32 bits. */
  lemma AcquireSucceedsIff(origin: seq<Setting>, hour: int, f: AcquireFaults)
    requires |origin| == KEY_COUNT && HourValid(hour) && f.lockFree && Faultless(f.apply)
    ensures Acquire(Start(origin).disk, FRESH_MEMORY, hour, f).outcome.Done? <==>
              forall k :: 0 <= k < KEY_COUNT ==> Acceptable(origin[k])
  {
    var d := Start(origin).disk;
    assert PerformAll(d, []) == d;
    ScanAccepts(d.policy, 0, []);
    var sc := ScanPolicy(d.policy, 0, []);
    if sc.valid {
      FaultlessApplySucceeds(d, Memory(true, false, sc.entries), hour, f.apply);
    }
  }

  /** Reached from any machine that grants a lease: acquire it, then refresh at another hour with a
      failing journal save, or losing the write of the hour. From then on every refresh is refused as an
      outside edit, though there was none. */
  lemma RefusedWithoutAnEdit(origin: seq<Setting>, hour: int, f: AcquireFaults, next: int, g: ApplyFaults,
                             later: seq<(int, ApplyFaults)>, at: int, h: ApplyFaults)
    requires |origin| == KEY_COUNT && Acquire(Start(origin).disk, FRESH_MEMORY, hour, f).outcome.Done?
    requires HourValid(next) && next != hour && ActiveHoursRange(g).Some? && (g.save != Clean || 1 in g.lost)
    requires HourValid(at) && ActiveHoursRange(h).Some?
    ensures var w := Next(Next(Start(origin), Returns(AcquireOp(hour, f))), Returns(RefreshOp(next, g)));
            var r := Refreshes(w, later);
            && r.memory.active && Apply(r.disk, r.memory, at, h).outcome == Failed([ChangedExternally])
            && r.disk == w.disk
            && (g.save != Clean ==> w.disk.policy == Next(Start(origin), Returns(AcquireOp(hour, f))).disk.policy)
  {
    var d0 := Start(origin).disk;
    assert PerformAll(d0, []) == d0;
    ScanCoversKeys(d0.policy, 0, []);
    var m0 := Memory(true, false, ScanPolicy(d0.policy, 0, []).entries);
    var held := Apply(d0, m0, hour, f.apply);
    assert [] + held.writes == held.writes;
    var w1 := Next(Start(origin), Returns(AcquireOp(hour, f)));
    assert w1 == World(PerformAll(d0, held.writes), held.memory);
    ApplyDoneAgrees(d0, m0, hour, f.apply);
    ApplyPolicy(w1.disk, w1.memory, next, g);
    ApplyLeavesConflictIff(w1.disk, w1.memory, next, g);
    ApplyShape(w1.disk, w1.memory, next, g);
    assert Changing(w1.disk.policy[1], w1.memory.entries[1], LeaseValues(next, ActiveHoursRange(g).value)[1]);
    var w := Next(w1, Returns(RefreshOp(next, g)));
    RefusalPersists(w, later);
    var r := Refreshes(w, later);
    ApplyRefusedIff(r.disk, r.memory, at, h);
  }

  lemma ReleaseRestores(origin: seq<Setting>, d: Disk, m: Memory)
    requires SafeDisk(origin, d) && m.active
    ensures Release(d, m, NO_RESTORE_FAULTS).outcome == Done
    ensures Untouched(origin, PerformAll(d, Release(d, m, NO_RESTORE_FAULTS).writes).policy)
  {
    RestoreIsSafe(origin, d, m, NO_RESTORE_FAULTS);
    SafeThroughEnd(origin, d, Restore(d, m, NO_RESTORE_FAULTS).writes);
  }

  /** With every recorded value already the wanted one and no conflict, an applied lease has nothing
      to change. */
  lemma StageUnchanged(p: seq<Setting>, es: seq<Entry>, vs: seq<nat>, applied: bool, i: nat, changed: bool)
    requires |p| == |es| == |vs| && i <= |es| && applied
    requires forall k :: 0 <= k < |es| ==> es[k].applied == vs[k]
    ensures Stage(p, es, vs, applied, i, changed).changed == changed
    decreases |es| - i
  {
  }
}
