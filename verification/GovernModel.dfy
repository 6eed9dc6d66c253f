/**
 The governance round protocol as a state machine: a run manifest on disk, a timelock and the vaults on
 chain, one `govern` process at a time, and an environment that ticks the clock, runs `pause-all`, sends
 Safe transactions of its own and can stop the process between any two steps.

 Every step is atomic. A Safe send and the save that follows it are two steps, so a crash between them is
 a run of this machine: memory goes, the manifest on disk and the chain stay.
 */
module GovernModel {
  import opened Basics

  type Vault = string

  /** A vault unpause, a one-round row (a receipt release, a generic call) or the row the Safe cancels on purpose. */
  datatype Row = Unpause(vault: Vault) | Single(name: string) | CancelRow

  /** The salt of an operation is its round key, so an operation id stands for a row and a round. */
  datatype OpId = OpId(row: Row, round: nat)

  /** The manifest keys of a row: its record, the archive of an executed round, the archive of a cancelled schedule. */
  datatype Key = Current(row: Row) | Archived(row: Row, round: nat) | Cancelled(row: Row, round: nat, k: nat)

  datatype Scheduled = Scheduled(id: OpId, seqno: nat, readyAt: nat)

  datatype Record = Record(round: nat, skipped: bool, scheduled: Option<Scheduled>, executed: Option<OpId>,
    cancelled: Option<OpId>)

  /** `pauses` holds the sequence numbers of the recorded pause-alls. */
  datatype Manifest = Manifest(govern: map<Key, Record>, pauses: set<nat>, seqHigh: nat)

  /**
   How far a row got. `Waited`: the wait saw its operation ready or done. `Cleared`: after that the execute phase
   read it not done.
   */
  datatype Phase =
    | Planned | Reserved(seqno: nat) | ScheduleSent(seqno: nat) | Recorded | Waited | Cleared | ExecuteSent | CancelSent
    | Finished

  datatype Local = Local(id: OpId, at: Phase)

  /** The govern process: its copy of the manifest, the row it was asked for, and how far each row got. */
  datatype Process = Down | Up(mem: Manifest, named: Option<Row>, local: map<Row, Local>)

  /**
   What happened, in order. `seqHeld` is the sequence number the tool holds for its own schedule, none for another
   party.
   */
  datatype Event =
    | PauseBegun(seqno: nat)
    | SeqReserved(seqno: nat)
    | ScheduleMined(id: OpId, seqHeld: Option<nat>, before: nat)
    | ExecuteMined(id: OpId, byTool: bool, before: nat)
    | CancelMined(id: OpId, byTool: bool)
    | ReadBack(id: OpId, stamp: nat, stillPaused: bool)
    // what the tool read at the plan of a round and before an execute, and its own sends the timelock reverted
    | PlanRead(id: OpId, paused: bool)
    | WaitOver(id: OpId)
    | NotDoneRead(id: OpId)
    | ScheduleReverted(id: OpId, seqno: nat, before: nat)
    | ExecuteReverted(id: OpId, before: nat)

  datatype World = World(disk: Manifest, process: Process, timelock: map<OpId, nat>, paused: set<Vault>, now: nat,
    log: seq<Event>)

  datatype Step =
    // the environment
    | Tick(seconds: nat)
    | BeginPause
    | PauseVault(vault: Vault)
    | UnpauseVault(vault: Vault)
    | OtherSchedule(id: OpId, delay: nat)
    | OtherExecute(id: OpId)
    | SafeCancel(id: OpId)
    | Stop
    // the tool
    | Launch(named: Option<Row>)
    | ArchiveCancelled(row: Row, k: nat)
    | OpenRound(row: Row)
    | SkipRow(row: Row)
    | Plan(row: Row)
    | UseRecorded(row: Row)
    | AdoptSchedule(row: Row)
    | Reserve(row: Row)
    | SendSchedule(row: Row, delay: nat)
    | RecordSchedule(row: Row)
    | FinishWait(row: Row)
    | ReadNotDone(row: Row)
    | SendExecute(row: Row)
    | RecordExecute(row: Row)
    | SendCancel(row: Row)
    | RecordCancel(row: Row)

  // ---- the timelock --------------------------------------------------------------------------------

  /** The timestamp the timelock holds: 0 absent, 1 done, anything else the time the operation is ready at. */
  function Stamp(timelock: map<OpId, nat>, id: OpId): nat {
    if id in timelock then timelock[id] else 0
  }

  predicate Exists(timelock: map<OpId, nat>, id: OpId) { Stamp(timelock, id) > 0 }

  predicate Pending(timelock: map<OpId, nat>, id: OpId) { Stamp(timelock, id) > 1 }

  predicate IsDone(timelock: map<OpId, nat>, id: OpId) { Stamp(timelock, id) == 1 }

  predicate Ready(timelock: map<OpId, nat>, id: OpId, now: nat) { 1 < Stamp(timelock, id) <= now }

  // ---- sequence numbers ----------------------------------------------------------------------------

  predicate IsMax(s: set<nat>, m: nat) { m in s && forall x | x in s :: x <= m }

  lemma {:induction false} MaxExists(s: set<nat>)
    requires s != {}
    ensures exists m :: IsMax(s, m)
  {
    var y :| y in s;
    var rest := s - {y};
    assert forall x | x in s :: x == y || x in rest;
    if rest == {} {
      assert IsMax(s, y);
    } else {
      MaxExists(rest);
      var m :| IsMax(rest, m);
      assert IsMax(s, if m < y then y else m);
    }
  }

  function MaxOf(s: set<nat>): (m: nat)
    ensures forall x | x in s :: x <= m
  {
    if s == {} then 0 else
      MaxExists(s);
      var m: nat :| IsMax(s, m);
      assert forall n: nat | IsMax(s, n) :: n <= m && m <= n;
      m
  }

  function ScheduledSeqs(g: map<Key, Record>): set<nat> {
    set key | key in g && g[key].scheduled.Some? :: g[key].scheduled.value.seqno
  }

  /** The next manifest sequence number: above every reserved number, every pause and every stamped schedule. */
  function NextSeq(m: Manifest): nat {
    1 + Max(m.seqHigh, MaxOf(m.pauses + ScheduledSeqs(m.govern)))
  }

  /** It is the next number indeed: above all of them, and one above the highest. */
  lemma NextSeqIsNext(m: Manifest)
    ensures var taken := {m.seqHigh} + m.pauses + ScheduledSeqs(m.govern);
            (forall n | n in taken :: n < NextSeq(m)) && (NextSeq(m) - 1 in taken)
  {
    var s := m.pauses + ScheduledSeqs(m.govern);
    if s != {} { MaxExists(s); }
  }

  /** What every save does first: the pauses on disk are kept, the reserved number only grows. */
  function Merge(m: Manifest, disk: Manifest): Manifest {
    m.(pauses := m.pauses + disk.pauses, seqHigh := Max(m.seqHigh, disk.seqHigh))
  }

  // ---- records -------------------------------------------------------------------------------------

  function FreshRecord(round: nat): Record { Record(round, false, None, None, None) }

  predicate Complete(r: Record) { r.skipped || r.executed.Some? || r.cancelled.Some? }

  /** The row's record, or the empty first round when there is none yet. */
  function RecordOf(g: map<Key, Record>, row: Row): Record {
    if Current(row) in g then g[Current(row)] else FreshRecord(1)
  }

  /** The archive number search `while (state[...cancelled-k]) k++`, from `k`. */
  function FreshFrom(g: map<Key, Record>, row: Row, round: nat, k: nat): (n: nat)
    ensures n >= k && Cancelled(row, round, n) !in g
    ensures forall j | k <= j < n :: Cancelled(row, round, j) in g
    decreases |CancelledAbove(g, row, round, k)|
  {
    if Cancelled(row, round, k) !in g then k
    else
      assert CancelledAbove(g, row, round, k + 1) < CancelledAbove(g, row, round, k) by {
        assert Cancelled(row, round, k) in CancelledAbove(g, row, round, k);
      }
      SubsetSizeStrict(CancelledAbove(g, row, round, k + 1), CancelledAbove(g, row, round, k));
      FreshFrom(g, row, round, k + 1)
  }

  function CancelledAbove(g: map<Key, Record>, row: Row, round: nat, k: nat): set<Key> {
    set key | key in g && key.Cancelled? && key.row == row && key.round == round && key.k >= k
  }

  lemma SubsetSizeStrict(a: set<Key>, b: set<Key>)
    requires a < b
    ensures |a| < |b|
  {
    assert b == a + (b - a);
    assert b - a != {};
  }

  // ---- steps ---------------------------------------------------------------------------------------

  predicate Env(s: Step) {
    s.Tick? || s.BeginPause? || s.PauseVault? || s.UnpauseVault? || s.OtherSchedule? || s.OtherExecute? ||
      s.SafeCancel? || s.Stop?
  }

  predicate At(w: World, row: Row, phase: Phase) {
    w.process.Up? && row in w.process.local && w.process.local[row].at == phase
  }

  predicate StillPaused(w: World, row: Row) { row.Unpause? && row.vault in w.paused }

  /** A pause-all recorded with a higher number than the schedule: on disk now, or seen earlier by this process. */
  predicate PausedSince(w: World, row: Row)
    requires w.process.Up?
  {
    var rec := RecordOf(w.process.mem.govern, row);
    rec.scheduled.Some? && exists p | p in w.process.mem.pauses + w.disk.pauses :: p > rec.scheduled.value.seqno
  }

  /** `sheet` is the set of vaults the sheet asks to unpause. */
  predicate Enabled(sheet: set<Vault>, w: World, s: Step) {
    match s
    case Tick(_) => true
    case BeginPause => true
    case PauseVault(_) => true
    case UnpauseVault(_) => true
    case OtherSchedule(id, _) => !Exists(w.timelock, id)
    case OtherExecute(id) => Ready(w.timelock, id, w.now)
    case SafeCancel(id) => Pending(w.timelock, id)
    case Stop => w.process.Up?
    case Launch(_) => w.process.Down?
    case ArchiveCancelled(row, k) =>
      && w.process.Up? && row.Unpause? && row !in w.process.local && w.process.named == Some(row)
      && var rec := RecordOf(w.process.mem.govern, row);
      && rec.scheduled.Some? && !Complete(rec) && !Exists(w.timelock, rec.scheduled.value.id)
      && k == FreshFrom(w.process.mem.govern, row, rec.round, 1)
    case OpenRound(row) =>
      && w.process.Up? && row.Unpause? && row !in w.process.local && w.process.named == Some(row)
      && RecordOf(w.process.mem.govern, row).executed.Some? && row.vault in w.paused
    case SkipRow(row) =>
      && w.process.Up? && row.Unpause? && row !in w.process.local
      && !Complete(RecordOf(w.process.mem.govern, row)) && row.vault !in sheet
    case Plan(row) =>
      && w.process.Up? && row !in w.process.local
      && var rec := RecordOf(w.process.mem.govern, row);
      && !Complete(rec)
      && (row.Unpause? ==>
            && row.vault in sheet
            && (rec.scheduled.Some? || Exists(w.timelock, OpId(row, rec.round)) || row.vault in w.paused))
    case UseRecorded(row) => At(w, row, Planned) && RecordOf(w.process.mem.govern, row).scheduled.Some?
    case AdoptSchedule(row) =>
      At(w, row, Planned) && RecordOf(w.process.mem.govern, row).scheduled.None? &&
        Exists(w.timelock, w.process.local[row].id)
    case Reserve(row) =>
      At(w, row, Planned) && RecordOf(w.process.mem.govern, row).scheduled.None? &&
        !Exists(w.timelock, w.process.local[row].id)
    // a send goes out on what was read before it, whatever the timelock holds by then
    case SendSchedule(row, _) => w.process.Up? && row in w.process.local && w.process.local[row].at.Reserved?
    case RecordSchedule(row) => w.process.Up? && row in w.process.local && w.process.local[row].at.ScheduleSent?
    case FinishWait(row) =>
      && At(w, row, Recorded) && !row.CancelRow? && !Complete(RecordOf(w.process.mem.govern, row))
      && (Ready(w.timelock, w.process.local[row].id, w.now) || IsDone(w.timelock, w.process.local[row].id))
    case ReadNotDone(row) => At(w, row, Waited) && !row.CancelRow? && !IsDone(w.timelock, w.process.local[row].id)
    case SendExecute(row) =>
      && At(w, row, Cleared) && !row.CancelRow? && !Complete(RecordOf(w.process.mem.govern, row))
      && (row.Unpause? ==> !(PausedSince(w, row) && Pending(w.timelock, w.process.local[row].id)))
    case RecordExecute(row) =>
      && !row.CancelRow? && w.process.Up? && row in w.process.local
      && (w.process.local[row].at == ExecuteSent || w.process.local[row].at == Waited)
      && !Complete(RecordOf(w.process.mem.govern, row))
      && IsDone(w.timelock, w.process.local[row].id) && !StillPaused(w, row)
    case SendCancel(row) =>
      && At(w, row, Recorded) && row.CancelRow? && !Complete(RecordOf(w.process.mem.govern, row))
      && Pending(w.timelock, w.process.local[row].id)
    case RecordCancel(row) =>
      && row.CancelRow? && w.process.Up? && row in w.process.local
      && (w.process.local[row].at == CancelSent || w.process.local[row].at == Recorded)
      && !Complete(RecordOf(w.process.mem.govern, row)) && !Exists(w.timelock, w.process.local[row].id)
  }

  function Logged(w: World, e: Event): World { w.(log := w.log + [e]) }

  function Moved(w: World, row: Row, l: Local): World
    requires w.process.Up?
  {
    w.(process := w.process.(local := w.process.local[row := l]))
  }

  /** A send the timelock reverts: nothing moves on chain and the process ends with the error. */
  function Reverted(w: World, e: Event): World { Logged(w.(process := Down), e) }

  /** `save()`: the process's records with the pauses on disk merged in, written to disk. */
  function Saved(w: World, g: map<Key, Record>): World
    requires w.process.Up?
  {
    var m := Merge(w.process.mem.(govern := g), w.disk);
    w.(disk := m, process := w.process.(mem := m))
  }

  function Executed(w: World, id: OpId, byTool: bool): World {
    Logged(w.(timelock := w.timelock[id := 1], paused := if id.row.Unpause? then w.paused - {id.row.vault}
      else w.paused),
           ExecuteMined(id, byTool, Stamp(w.timelock, id)))
  }

  function ScheduledNow(w: World, id: OpId, delay: nat, seqHeld: Option<nat>): World {
    Logged(w.(timelock := w.timelock[id := w.now + delay]), ScheduleMined(id, seqHeld, Stamp(w.timelock, id)))
  }

  function CancelledNow(w: World, id: OpId, byTool: bool): World {
    Logged(w.(timelock := w.timelock - {id}), CancelMined(id, byTool))
  }

  /** Archives a schedule that was cancelled through the Safe and empties the record of the same round. */
  function ArchiveSchedule(g: map<Key, Record>, row: Row, k: nat): map<Key, Record> {
    var rec := RecordOf(g, row);
    g[Cancelled(row, rec.round, k) := rec][Current(row) := FreshRecord(rec.round)]
  }

  /** Archives an executed round and opens the next one. */
  function NextRound(g: map<Key, Record>, row: Row): map<Key, Record> {
    var rec := RecordOf(g, row);
    g[Archived(row, rec.round) := rec][Current(row) := FreshRecord(rec.round + 1)]
  }

  function WithSchedule(g: map<Key, Record>, row: Row, s: Scheduled): map<Key, Record> {
    g[Current(row) := RecordOf(g, row).(scheduled := Some(s))]
  }

  function Apply(w: World, s: Step, sheet: set<Vault>): World
    requires Enabled(sheet, w, s)
  {
    match s
    case Tick(seconds) => w.(now := w.now + seconds)
    case BeginPause =>
      var n := NextSeq(w.disk);
      Logged(w.(disk := w.disk.(pauses := w.disk.pauses + {n}, seqHigh := n)), PauseBegun(n))
    case PauseVault(v) => w.(paused := w.paused + {v})
    case UnpauseVault(v) => w.(paused := w.paused - {v})
    case OtherSchedule(id, delay) => ScheduledNow(w, id, delay, None)
    case OtherExecute(id) => Executed(w, id, false)
    case SafeCancel(id) => CancelledNow(w, id, false)
    case Stop => w.(process := Down)
    case Launch(named) => w.(process := Up(w.disk, named, map[]))
    case ArchiveCancelled(row, k) => Saved(w, ArchiveSchedule(w.process.mem.govern, row, k))
    case OpenRound(row) => Saved(w, NextRound(w.process.mem.govern, row))
    case SkipRow(row) =>
      Moved(Saved(w, w.process.mem.govern[Current(row) := Record(1, true, None, None, None)]), row,
        Local(OpId(row, 1), Finished))
    case Plan(row) =>
      var id := OpId(row, RecordOf(w.process.mem.govern, row).round);
      Logged(Moved(w, row, Local(id, Planned)), PlanRead(id, StillPaused(w, row)))
    case UseRecorded(row) => Moved(w, row, w.process.local[row].(at := Recorded))
    case AdoptSchedule(row) =>
      // the time of this schedule is unknown, so it counts as older than any recorded pause
      var id := w.process.local[row].id;
      Moved(Saved(w, WithSchedule(w.process.mem.govern, row, Scheduled(id, 0, Stamp(w.timelock, id)))), row,
        Local(id, Recorded))
    case Reserve(row) =>
      var merged := Merge(w.process.mem, w.disk);
      var n := NextSeq(merged);
      var m := merged.(seqHigh := n);
      Logged(Moved(w.(disk := m, process := w.process.(mem := m)), row, w.process.local[row].(at := Reserved(n))),
        SeqReserved(n))
    case SendSchedule(row, delay) =>
      var l := w.process.local[row];
      if Exists(w.timelock, l.id) then Reverted(w, ScheduleReverted(l.id, l.at.seqno, Stamp(w.timelock, l.id)))
      else Moved(ScheduledNow(w, l.id, delay, Some(l.at.seqno)), row, Local(l.id, ScheduleSent(l.at.seqno)))
    case RecordSchedule(row) =>
      var l := w.process.local[row];
      Moved(Saved(w, WithSchedule(w.process.mem.govern, row, Scheduled(l.id, l.at.seqno, Stamp(w.timelock, l.id)))),
        row, Local(l.id, Recorded))
    case FinishWait(row) =>
      var id := w.process.local[row].id;
      Logged(Moved(w, row, Local(id, Waited)), WaitOver(id))
    case ReadNotDone(row) =>
      var id := w.process.local[row].id;
      Logged(Moved(w, row, Local(id, Cleared)), NotDoneRead(id))
    case SendExecute(row) =>
      var id := w.process.local[row].id;
      if !Ready(w.timelock, id, w.now) then Reverted(w, ExecuteReverted(id, Stamp(w.timelock, id)))
      else Moved(Executed(w, id, true), row, Local(id, ExecuteSent))
    case RecordExecute(row) =>
      var id := w.process.local[row].id;
      var rec := RecordOf(w.process.mem.govern, row);
      Logged(Moved(Saved(w, w.process.mem.govern[Current(row) := rec.(executed := Some(id))]), row,
        Local(id, Finished)),
             ReadBack(id, Stamp(w.timelock, id), StillPaused(w, row)))
    case SendCancel(row) =>
      var id := w.process.local[row].id;
      Moved(CancelledNow(w, id, true), row, Local(id, CancelSent))
    case RecordCancel(row) =>
      var id := w.process.local[row].id;
      var rec := RecordOf(w.process.mem.govern, row);
      Moved(Saved(w, w.process.mem.govern[Current(row) := rec.(cancelled := Some(id))]), row, Local(id, Finished))
  }

  // ---- runs ----------------------------------------------------------------------------------------

  /** An empty manifest and timelock, no process. Block timestamps are past 1, which the timelock keeps for "done". */
  predicate Init(w: World) {
    w.disk == Manifest(map[], {}, 0) && w.process.Down? && w.timelock == map[] && w.now >= 2 && w.log == []
  }

  /** The world a list of steps leads to, or none when a step is not enabled where it is taken. */
  function Run(sheet: set<Vault>, w: World, steps: seq<Step>): Option<World> {
    if steps == [] then Some(w) else
      match Run(sheet, w, steps[..|steps| - 1])
      case None => None
      case Some(v) =>
        if Enabled(sheet, v, steps[|steps| - 1]) then Some(Apply(v, steps[|steps| - 1], sheet)) else None
  }
}
