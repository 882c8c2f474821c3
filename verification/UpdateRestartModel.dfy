/** The update-restart policy lease as pure data: what is stored, what each operation writes and in
    which order, and what it remembers. A write is the unit of crashing. */
module UpdateRestartModel {
  import opened Basics

  const KEY_COUNT: nat := 5
  const DWORD_MAX: nat := 0xffff_ffff
  const JOURNAL_VERSION := 1.0

  /** A stored policy value. `wide` tells a 64-bit number from a 32-bit one: both are accepted as
      numbers, but the lease itself only ever writes 32-bit ones. `OtherKind` is a value of another
      type, with the number it converts to. */
  datatype Setting = Absent | Number(wide: bool, value: nat) | OtherKind(reading: nat) {
    function ToUInt(): nat {
      match this
      case Absent => 0
      case Number(_, v) => v % (DWORD_MAX + 1)
      case OtherKind(r) => r
    }
  }

  // ---- The journal as stored: a JSON document that may hold anything ----

  datatype Json = Missing | Flag(b: bool) | Num(x: real) | Text

  datatype JournalEntry = JournalEntry(
    index: Json, present: Json, original: Json,
    appliedPresent: Json, applied: Json, previousPresent: Json, previous: Json)

  datatype Journal = NoLease | Unreadable | Document(schemaKnown: bool, version: Json, values: seq<JournalEntry>)

  predicate IsDword(j: Json) {
    j.Num? && 0.0 <= j.x <= 4294967295.0 && j.x.Floor as real == j.x
  }

  predicate EntryValid(e: JournalEntry, i: nat) {
    && e.index == Num(i as real)
    && e.present.Flag? && e.appliedPresent.Flag? && e.previousPresent.Flag?
    && IsDword(e.applied) && IsDword(e.previous)
    && (e.present.b ==> IsDword(e.original))
  }

  predicate JournalValid(j: Journal) {
    && j.Document? && j.schemaKnown && j.version == Num(JOURNAL_VERSION)
    && |j.values| == KEY_COUNT
    && forall i :: 0 <= i < KEY_COUNT ==> EntryValid(j.values[i], i)
  }

  // ---- The journal as understood: one entry a key ----

  datatype Entry = Entry(
    present: bool, original: nat,
    appliedPresent: bool, applied: nat,
    previousPresent: bool, previous: nat)

  function DecodeEntry(e: JournalEntry, ghost i: nat): Entry
    requires EntryValid(e, i)
  {
    Entry(e.present.b, if e.present.b then e.original.x.Floor else 0,
          e.appliedPresent.b, e.applied.x.Floor,
          e.previousPresent.b, e.previous.x.Floor)
  }

  function Decode(j: Journal): (es: seq<Entry>)
    requires JournalValid(j)
    ensures |es| == KEY_COUNT
  {
    seq(KEY_COUNT, i requires 0 <= i < KEY_COUNT => DecodeEntry(j.values[i], i))
  }

  function EncodeEntry(i: nat, e: Entry): JournalEntry {
    JournalEntry(Num(i as real), Flag(e.present), Num(e.original as real),
                 Flag(e.appliedPresent), Num(e.applied as real),
                 Flag(e.previousPresent), Num(e.previous as real))
  }

  function Encode(es: seq<Entry>): Journal {
    Document(true, Num(JOURNAL_VERSION), seq(|es|, i requires 0 <= i < |es| => EncodeEntry(i, es[i])))
  }

  // ---- Durable state and its writes ----

  datatype Disk = Disk(policy: seq<Setting>, journal: Journal)

  /** Removing a key puts `Absent`; removing the journal writes `NoLease`. */
  datatype Write = Put(key: nat, setting: Setting) | WriteJournal(journal: Journal)

  function Perform(d: Disk, w: Write): Disk {
    match w
    case Put(i, s) => if i < |d.policy| then d.(policy := d.policy[i := s]) else d
    case WriteJournal(j) => d.(journal := j)
  }

  function PerformAll(d: Disk, ws: seq<Write>): (last: Disk)
    ensures |last.policy| == |d.policy|
    decreases |ws|
  {
    if ws == [] then d else PerformAll(Perform(d, ws[0]), ws[1..])
  }

  // ---- Faults of one operation ----

  /** How a journal sync ends: an error may leave the old or the new journal on disk. */
  datatype Sync = Clean | SyncError(written: bool)

  /** Keys whose write is lost (which the sync then reports), a sync error without a lost write, and
      the fate of removing the journal. */
  datatype RestoreFaults = RestoreFaults(lost: set<nat>, syncError: bool, cleanup: Sync)

  /** The two range policies as found, the fate of saving the journal, and the policy faults. */
  datatype ApplyFaults = ApplyFaults(rangeEnabled: Setting, range: Setting, save: Sync, lost: set<nat>, syncError: bool)

  datatype AcquireFaults = AcquireFaults(lockFree: bool, first: RestoreFaults, apply: ApplyFaults, undo: RestoreFaults)

  const NO_RESTORE_FAULTS := RestoreFaults({}, false, Clean)

  datatype Error =
    | InvalidLocalHour | LeaseInactive | ActiveHoursRangeInvalid | ChangedExternally
    | JournalWriteFailed | PolicyWriteFailed | ReadbackFailed
    | JournalInvalid | RestoreFailed | JournalCleanupFailed
    | AnotherHostOwnsProtection | PolicyValueInvalid

  datatype Outcome = Done | Failed(errors: seq<Error>)

  datatype Memory = Memory(active: bool, applied: bool, entries: seq<Entry>)

  const FRESH_MEMORY := Memory(false, false, [])

  /** What one operation does: its writes in order, the memory it leaves and its result. */
  datatype Transition = Transition(writes: seq<Write>, memory: Memory, outcome: Outcome)

  // ---- Restore ----

  predicate Ours(s: Setting, e: Entry) {
    s.Number? && ((e.appliedPresent && s.value == e.applied) || (e.previousPresent && s.value == e.previous))
  }

  function Original(e: Entry): Setting {
    if e.present then Number(false, e.original) else Absent
  }

  function RestoreKeyWrites(policy: seq<Setting>, es: seq<Entry>, lost: set<nat>, i: nat): seq<Write>
    requires |policy| == |es|
    decreases |es| - i
  {
    if i >= |es| then []
    else (if Ours(policy[i], es[i]) && i !in lost then [Put(i, Original(es[i]))] else [])
         + RestoreKeyWrites(policy, es, lost, i + 1)
  }

  function Restore(d: Disk, m: Memory, f: RestoreFaults): Transition
    requires |d.policy| == KEY_COUNT
  {
    if d.journal == NoLease then Transition([], m, Done)
    else if !JournalValid(d.journal) then Transition([], m, Failed([JournalInvalid]))
    else
      var keys := RestoreKeyWrites(d.policy, Decode(d.journal), f.lost, 0);
      if f.lost != {} || f.syncError then Transition(keys, m, Failed([RestoreFailed]))
      else match f.cleanup
        case Clean => Transition(keys + [WriteJournal(NoLease)], m, Done)
        case SyncError(written) =>
          Transition(keys + (if written then [WriteJournal(NoLease)] else []), m, Failed([JournalCleanupFailed]))
  }

  // ---- Apply ----

  predicate HourValid(hour: int) { 0 <= hour <= 23 }

  function ActiveHoursRange(f: ApplyFaults): (r: Option<nat>)
    ensures r.Some? ==> 8 <= r.value <= 18
  {
    if f.rangeEnabled.ToUInt() != 0 then
      if f.range.Number? && 8 <= f.range.ToUInt() <= 18 then Some(f.range.ToUInt()) else None
    else Some(18)
  }

  function LeaseValues(hour: nat, range: nat): (vs: seq<nat>)
    ensures |vs| == KEY_COUNT
  {
    [1, hour, (hour + range) % 24, 0, 0]
  }

  datatype Staging = Staging(entries: seq<Entry>, changed: bool, conflict: bool)

  predicate Conflicts(s: Setting, e: Entry, applied: bool) {
    || (applied && s.Absent?)
    || (!s.Absent? && (!s.Number? || s.value != e.applied))
  }

  function StageEntry(e: Entry, v: nat): Entry {
    e.(previous := e.applied, previousPresent := e.appliedPresent, applied := v, appliedPresent := true)
  }

  /** The loop that checks every key against memory and, in the same pass, moves the entries on. It
      stops at the first conflict and keeps what it has moved so far. */
  function Stage(policy: seq<Setting>, es: seq<Entry>, values: seq<nat>, applied: bool, i: nat, changed: bool): (st: Staging)
    requires |policy| == |es| == |values|
    ensures |st.entries| == |es|
    decreases |es| - i
  {
    if i >= |es| then Staging(es, changed, false)
    else if Conflicts(policy[i], es[i], applied) then Staging(es, changed, true)
    else if es[i].applied == values[i] && !policy[i].Absent? then Stage(policy, es, values, applied, i + 1, changed)
    else Stage(policy, es[i := StageEntry(es[i], values[i])], values, applied, i + 1, true)
  }

  function ValueWrites(values: seq<nat>, lost: set<nat>, i: nat): seq<Write>
    decreases |values| - i
  {
    if i >= |values| then []
    else (if i !in lost then [Put(i, Number(false, values[i]))] else []) + ValueWrites(values, lost, i + 1)
  }

  predicate ReadsBack(policy: seq<Setting>, values: seq<nat>)
    requires |policy| == |values|
  {
    forall i :: 0 <= i < |values| ==> !policy[i].Absent? && policy[i].ToUInt() == values[i]
  }

  /** The second half of an apply: journal both possible values of every key, then write the keys,
      then read them back. */
  function Commit(d: Disk, m: Memory, values: seq<nat>, f: ApplyFaults): (t: Transition)
    requires |d.policy| == KEY_COUNT == |values|
    ensures t.memory == m || t.memory == m.(applied := true)
  {
    var save := [WriteJournal(Encode(m.entries))];
    match f.save
    case SyncError(written) => Transition(if written then save else [], m, Failed([JournalWriteFailed]))
    case Clean =>
      var writes := save + ValueWrites(values, f.lost, 0);
      if f.lost != {} || f.syncError then Transition(writes, m, Failed([PolicyWriteFailed]))
      else if !ReadsBack(PerformAll(d, writes).policy, values) then Transition(writes, m, Failed([ReadbackFailed]))
      else Transition(writes, m.(applied := true), Done)
  }

  function Apply(d: Disk, m: Memory, hour: int, f: ApplyFaults): (t: Transition)
    requires |d.policy| == KEY_COUNT
    requires m.active ==> |m.entries| == KEY_COUNT
    ensures t.memory.active == m.active
    ensures t.memory.active ==> |t.memory.entries| == KEY_COUNT
  {
    if !HourValid(hour) then Transition([], m, Failed([InvalidLocalHour]))
    else if !m.active then Transition([], m, Failed([LeaseInactive]))
    else match ActiveHoursRange(f)
      case None => Transition([], m, Failed([ActiveHoursRangeInvalid]))
      case Some(range) =>
        var values := LeaseValues(hour, range);
        var st := Stage(d.policy, m.entries, values, m.applied, 0, false);
        var staged := m.(entries := st.entries);
        if st.conflict then Transition([], staged, Failed([ChangedExternally]))
        else if m.applied && !st.changed then Transition([], staged, Done)
        else Commit(d, staged, values, f)
  }

  // ---- Acquire, release, recover ----

  datatype Scan = Scan(entries: seq<Entry>, valid: bool)

  function ScanPolicy(policy: seq<Setting>, i: nat, found: seq<Entry>): Scan
    decreases |policy| - i
  {
    if i >= |policy| then Scan(found, true)
    else match policy[i]
      case OtherKind(_) => Scan(found, false)
      case Absent => ScanPolicy(policy, i + 1, found + [Entry(false, 0, false, 0, false, 0)])
      case Number(_, v) =>
        if v > DWORD_MAX then Scan(found, false)
        else ScanPolicy(policy, i + 1, found + [Entry(true, v, true, v, true, v)])
  }

  function Release(d: Disk, m: Memory, f: RestoreFaults): Transition
    requires |d.policy| == KEY_COUNT
  {
    if !m.active then Transition([], m, Done)
    else Restore(d, m, f).(memory := m.(active := false))
  }

  function Recover(d: Disk, m: Memory, lockFree: bool, f: RestoreFaults): Transition
    requires |d.policy| == KEY_COUNT
  {
    if m.active then Transition([], m, Done)
    else if !lockFree then Transition([], m, Failed([AnotherHostOwnsProtection]))
    else Restore(d, m, f)
  }

  function Combine(first: Outcome, second: Outcome): Outcome
    requires first.Failed?
  {
    match second
    case Done => first
    case Failed(es) => Failed(first.errors + es)
  }

  lemma ScanCoversKeys(policy: seq<Setting>, i: nat, found: seq<Entry>)
    requires i <= |policy| && |found| == i
    ensures ScanPolicy(policy, i, found).valid ==> |ScanPolicy(policy, i, found).entries| == |policy|
    decreases |policy| - i
  {
  }

  /** The end of an acquire: apply as the new owner, and give up the lease if that fails. */
  function TakeOver(d: Disk, entries: seq<Entry>, hour: int, f: AcquireFaults): (t: Transition)
    requires |d.policy| == KEY_COUNT == |entries|
    ensures t.memory.active ==> |t.memory.entries| == KEY_COUNT
  {
    var held := Apply(d, Memory(true, false, entries), hour, f.apply);
    if held.outcome.Done? then held
    else
      var undo := Release(PerformAll(d, held.writes), held.memory, f.undo);
      Transition(held.writes + undo.writes, undo.memory, Combine(held.outcome, undo.outcome))
  }

  function Acquire(d: Disk, m: Memory, hour: int, f: AcquireFaults): (t: Transition)
    requires |d.policy| == KEY_COUNT
    requires m.active ==> |m.entries| == KEY_COUNT
    ensures t.memory.active ==> |t.memory.entries| == KEY_COUNT
  {
    if m.active then Apply(d, m, hour, f.apply)
    else if !HourValid(hour) then Transition([], m, Failed([InvalidLocalHour]))
    else if !f.lockFree then Transition([], m, Failed([AnotherHostOwnsProtection]))
    else
      var first := Restore(d, m, f.first);
      if first.outcome.Failed? then first
      else
        var d1 := PerformAll(d, first.writes);
        ScanCoversKeys(d1.policy, 0, []);
        var scan := ScanPolicy(d1.policy, 0, []);
        if !scan.valid then
          Transition(first.writes, Memory(false, false, scan.entries), Failed([PolicyValueInvalid]))
        else
          var rest := TakeOver(d1, scan.entries, hour, f);
          rest.(writes := first.writes + rest.writes)
  }

  // ---- Runs ----

  datatype Operation =
    | AcquireOp(hour: int, acquire: AcquireFaults)
    | RefreshOp(hour: int, apply: ApplyFaults)
    | ReleaseOp(restore: RestoreFaults)
    | RecoverOp(lockFree: bool, restore: RestoreFaults)

  /** An operation that returns, or one whose process dies after its first `after` writes. */
  datatype Event = Returns(op: Operation) | Dies(op: Operation, after: nat)

  datatype World = World(disk: Disk, memory: Memory)

  predicate WellFormed(w: World) {
    |w.disk.policy| == KEY_COUNT && (w.memory.active ==> |w.memory.entries| == KEY_COUNT)
  }

  function Execute(w: World, op: Operation): Transition
    requires WellFormed(w)
  {
    match op
    case AcquireOp(hour, f) => Acquire(w.disk, w.memory, hour, f)
    case RefreshOp(hour, f) => Apply(w.disk, w.memory, hour, f)
    case ReleaseOp(f) => Release(w.disk, w.memory, f)
    case RecoverOp(free, f) => Recover(w.disk, w.memory, free, f)
  }

  function Upto<T>(s: seq<T>, k: nat): seq<T> { if k < |s| then s[..k] else s }

  function Next(w: World, ev: Event): (next: World)
    requires WellFormed(w)
    ensures WellFormed(next)
  {
    match ev
    case Returns(op) => World(PerformAll(w.disk, Execute(w, op).writes), Execute(w, op).memory)
    case Dies(op, k) =>
      World(PerformAll(w.disk, Upto(Execute(w, op).writes, k)), FRESH_MEMORY)
  }

  function Run(w: World, evs: seq<Event>): (last: World)
    requires WellFormed(w)
    ensures WellFormed(last)
    decreases |evs|
  {
    if evs == [] then w else Run(Next(w, evs[0]), evs[1..])
  }

  /** A machine whose policy the lease has never touched. */
  function Start(origin: seq<Setting>): World { World(Disk(origin, NoLease), FRESH_MEMORY) }
}
