/**
 Safety of the governance protocol over every run: the inductive invariants and the theorems they give.
 */
module GovernSafety {
  import opened Basics
  import opened GovernModel

  // ---- invariants ----------------------------------------------------------------------------------

  predicate Numbered(e: Event) { e.PauseBegun? || e.SeqReserved? }

  /** Pauses and reservations share one counter that only grows, and the disk knows its top. */
  ghost predicate NumbersGrow(log: seq<Event>, high: nat) {
    && (forall i | 0 <= i < |log| && Numbered(log[i]) :: 1 <= log[i].seqno <= high)
    && (forall i, j | 0 <= i < j < |log| && Numbered(log[i]) && Numbered(log[j]) :: log[i].seqno < log[j].seqno)
  }

  /** The pauses on disk are exactly the pauses that happened. */
  ghost predicate PausesLogged(log: seq<Event>, pauses: set<nat>) {
    forall p: nat :: p in pauses <==> PauseBegun(p) in log
  }

  /** A schedule the tool sends carries a number reserved before the send. */
  ghost predicate SendsReserved(log: seq<Event>) {
    forall i | 0 <= i < |log| && log[i].ScheduleMined? && log[i].seqHeld.Some? ::
      exists r :: 0 <= r < i && log[r] == SeqReserved(log[i].seqHeld.value)
  }

  /** A recorded schedule with a number was sent by the tool with that number. */
  ghost predicate SchedulesLogged(g: map<Key, Record>, log: seq<Event>) {
    forall key | key in g && g[key].scheduled.Some? && g[key].scheduled.value.seqno > 0 ::
      ScheduleMined(g[key].scheduled.value.id, Some(g[key].scheduled.value.seqno), 0) in log
  }

  /** Numbers held in memory are numbers of the log. */
  ghost predicate LocalsLogged(w: World) {
    w.process.Up? ==> forall row | row in w.process.local ::
      var l := w.process.local[row];
      && (l.at.Reserved? ==> SeqReserved(l.at.seqno) in w.log)
      && (l.at.ScheduleSent? ==> ScheduleMined(l.id, Some(l.at.seqno), 0) in w.log)
  }

  /** The process's manifest is what is on disk, but for pauses and numbers that landed since. */
  ghost predicate MemoryAgrees(w: World) {
    w.process.Up? ==>
      && w.process.mem.govern == w.disk.govern
      && w.process.mem.pauses <= w.disk.pauses
      && w.process.mem.seqHigh <= w.disk.seqHigh
  }

  /** Where a row stands in memory agrees with its record. */
  ghost predicate LocalAgrees(sheet: set<Vault>, w: World, row: Row)
    requires w.process.Up? && row in w.process.local
  {
    var l := w.process.local[row];
    var rec := RecordOf(w.process.mem.govern, row);
    && l.id == OpId(row, rec.round)
    && (l.at.Reserved? || l.at.ScheduleSent? ==> rec.scheduled.None?)
    && (l.at.Recorded? || l.at.Waited? || l.at.Cleared? || l.at.ExecuteSent? || l.at.CancelSent? ==>
      rec.scheduled.Some?)
    && (!l.at.Finished? ==> !Complete(rec) && (row.Unpause? ==> row.vault in sheet))
  }

  ghost predicate LocalsAgree(sheet: set<Vault>, w: World) {
    w.process.Up? ==> forall row | row in w.process.local :: LocalAgrees(sheet, w, row)
  }

  /** A current record names its own round's operation, and only a scheduled row is executed or cancelled. */
  ghost predicate CurrentShape(sheet: set<Vault>, row: Row, rec: Record) {
    && rec.round >= 1
    && (rec.scheduled.Some? ==> rec.scheduled.value.id == OpId(row, rec.round))
    && (rec.executed.Some? ==>
      rec.executed == Some(OpId(row, rec.round)) && rec.scheduled.Some? && rec.cancelled.None? && !row.CancelRow?)
    && (rec.cancelled.Some? ==> row.CancelRow?)
    && (rec.skipped ==> row.Unpause? && row.vault !in sheet && rec == Record(1, true, None, None, None))
    && (row.Unpause? && row.vault !in sheet ==> rec == Record(1, true, None, None, None))
    && (!row.Unpause? ==> rec.round == 1)
  }

  /**
   The records of one row: archived rounds are exactly the rounds before the current one, cancelled archives are 1..c.
   */
  ghost predicate RowBookkeeping(sheet: set<Vault>, g: map<Key, Record>, row: Row) {
    var rec := RecordOf(g, row);
    && CurrentShapeAt(sheet, g, row)
    && (forall n: nat :: Archived(row, n) in g <==> 1 <= n < rec.round)
    && (forall n: nat | Archived(row, n) in g :: ArchivedShape(row, n, g[Archived(row, n)]))
    && (forall n: nat, k: nat | Cancelled(row, n, k) in g ::
      1 <= n <= rec.round && k >= 1 && CancelledShape(row, n, g[Cancelled(row, n, k)]))
    && (forall n: nat, k: nat, j: nat | Cancelled(row, n, k) in g && 1 <= j <= k :: Cancelled(row, n, j) in g)
  }

  ghost predicate CurrentShapeAt(sheet: set<Vault>, g: map<Key, Record>, row: Row) {
    if Current(row) in g then CurrentShape(sheet, row, g[Current(row)])
    else forall n: nat, k: nat :: Archived(row, n) !in g && Cancelled(row, n, k) !in g
  }

  predicate ArchivedShape(row: Row, n: nat, rec: Record) {
    rec.round == n && rec.executed == Some(OpId(row, n)) && rec.scheduled.Some? &&
      rec.scheduled.value.id == OpId(row, n)
  }

  predicate CancelledShape(row: Row, n: nat, rec: Record) {
    rec.round == n && rec.scheduled.Some? && rec.scheduled.value.id == OpId(row, n) && !Complete(rec)
  }

  ghost predicate Bookkeeping(sheet: set<Vault>, g: map<Key, Record>) {
    forall row :: RowBookkeeping(sheet, g, row)
  }

  ghost predicate Passed(log: seq<Event>, id: OpId) { ReadBack(id, 1, false) in log }

  /** Every executed record names a done operation whose read-back passed. */
  ghost predicate ExecutedAreDone(g: map<Key, Record>, timelock: map<OpId, nat>, log: seq<Event>) {
    forall key | key in g && g[key].executed.Some? ::
      IsDone(timelock, g[key].executed.value) && Passed(log, g[key].executed.value)
  }

  function Schedules(log: seq<Event>, id: OpId): nat {
    if log == [] then 0 else
      Schedules(log[..|log| - 1], id) + (var e := log[|log| - 1]; if e.ScheduleMined? && e.id == id then 1 else 0)
  }

  function Executes(log: seq<Event>, id: OpId): nat {
    if log == [] then 0 else
      Executes(log[..|log| - 1], id) + (var e := log[|log| - 1]; if e.ExecuteMined? && e.id == id then 1 else 0)
  }

  function Cancels(log: seq<Event>, id: OpId): nat {
    if log == [] then 0 else
      Cancels(log[..|log| - 1], id) + (var e := log[|log| - 1]; if e.CancelMined? && e.id == id then 1 else 0)
  }

  /**
   The ledger of an operation: each schedule is still on the timelock or was cancelled, and done means one execute.
   */
  ghost predicate LedgerOf(log: seq<Event>, timelock: map<OpId, nat>, id: OpId) {
    && Schedules(log, id) == Cancels(log, id) + (if Exists(timelock, id) then 1 else 0)
    && Executes(log, id) == (if IsDone(timelock, id) then 1 else 0)
  }

  ghost predicate Ledger(log: seq<Event>, timelock: map<OpId, nat>) {
    forall id :: LedgerOf(log, timelock, id)
  }

  /** The timelock's own rule: only schedules of absent ids and executes of pending ones are mined. */
  ghost predicate CleanSends(log: seq<Event>) {
    forall i | 0 <= i < |log| ::
      && (log[i].ScheduleMined? ==> log[i].before == 0)
      && (log[i].ExecuteMined? ==> log[i].before > 1)
  }

  // ---- what excuses a reverted send ----------------------------------------------------------------

  /** The log after the last occurrence of an event. */
  function Since(log: seq<Event>, mark: Event): seq<Event> {
    if log == [] || log[|log| - 1] == mark then [] else Since(log[..|log| - 1], mark) + [log[|log| - 1]]
  }

  predicate ExecutedByOther(events: seq<Event>, id: OpId) {
    exists e | e in events :: e.ExecuteMined? && e.id == id && !e.byTool
  }

  /** A reverted schedule: after its number was reserved another party scheduled the operation. */
  predicate ScheduleExcused(past: seq<Event>, id: OpId, seqno: nat) {
    SeqReserved(seqno) in past && ScheduleMined(id, None, 0) in Since(past, SeqReserved(seqno))
  }

  /**
   A reverted execute: another party executed the operation after it was read not done, or cancelled it after the wait.
   */
  predicate ExecuteExcused(past: seq<Event>, id: OpId, before: nat) {
    && WaitOver(id) in past && NotDoneRead(id) in past
    && if before == 1 then ExecutedByOther(Since(past, NotDoneRead(id)), id)
      else CancelMined(id, false) in Since(past, WaitOver(id))
  }

  predicate Excused(past: seq<Event>, e: Event) {
    && (e.ScheduleReverted? ==> ScheduleExcused(past, e.id, e.seqno))
    && (e.ExecuteReverted? ==> ExecuteExcused(past, e.id, e.before))
  }

  ghost predicate RevertsExcused(log: seq<Event>) { forall j | 0 <= j < |log| :: Excused(log[..j], log[j]) }

  /** What a row on its way to a send knows: the timelock is as it was read, or another party moved it since. */
  ghost predicate Watched(w: World, l: Local) {
    && (l.at.Reserved? ==>
          SeqReserved(l.at.seqno) in w.log && (Exists(w.timelock, l.id) ==>
            ScheduleMined(l.id, None, 0) in Since(w.log, SeqReserved(l.at.seqno))))
    && (l.at.Waited? || l.at.Cleared? ==>
          WaitOver(l.id) in w.log && (Ready(w.timelock, l.id, w.now) || IsDone(w.timelock, l.id) ||
            CancelMined(l.id, false) in Since(w.log, WaitOver(l.id))))
    && (l.at.Cleared? ==>
          NotDoneRead(l.id) in w.log && (IsDone(w.timelock, l.id) ==>
            ExecutedByOther(Since(w.log, NotDoneRead(l.id)), l.id)))
  }

  ghost predicate AllWatched(w: World) { w.process.Up? ==>
    forall row | row in w.process.local :: Watched(w, w.process.local[row]) }

  predicate ReopensByTool(e: Event) { e.ExecuteMined? && e.byTool && e.id.row.Unpause? }

  /** An unpause the tool executes was scheduled by the tool after every pause recorded before the execute. */
  ghost predicate PauseSafe(log: seq<Event>) {
    forall k, j | 0 <= k < j < |log| && log[k].PauseBegun? && ReopensByTool(log[j]) ::
      ScheduledBetween(log, k, j, log[j].id)
  }

  ghost predicate ScheduledBetween(log: seq<Event>, k: int, j: int, id: OpId)
    requires 0 <= k < j <= |log|
  {
    exists i :: k < i < j && log[i].ScheduleMined? && log[i].id == id && log[i].seqHeld.Some?
  }

  ghost predicate SeqInv(w: World) {
    && NumbersGrow(w.log, w.disk.seqHigh)
    && PausesLogged(w.log, w.disk.pauses)
    && SendsReserved(w.log)
    && SchedulesLogged(w.disk.govern, w.log)
    && LocalsLogged(w)
  }

  ghost predicate Inv(sheet: set<Vault>, w: World) {
    && w.now >= 2
    && MemoryAgrees(w)
    && LocalsAgree(sheet, w)
    && Bookkeeping(sheet, w.disk.govern)
    && SeqInv(w)
    && PauseSafe(w.log)
    && ExecutedAreDone(w.disk.govern, w.timelock, w.log)
    && Ledger(w.log, w.timelock)
    && CleanSends(w.log)
    && AllWatched(w)
    && RevertsExcused(w.log)
  }

  // ---- preservation --------------------------------------------------------------------------------

  lemma MemoryKept(sheet: set<Vault>, w: World, s: Step)
    requires w.now >= 2 && MemoryAgrees(w) && Enabled(sheet, w, s)
    ensures MemoryAgrees(Apply(w, s, sheet)) && Apply(w, s, sheet).now >= 2
  {
  }

  lemma LocalsKept(sheet: set<Vault>, w: World, s: Step)
    requires MemoryAgrees(w) && LocalsAgree(sheet, w) && Enabled(sheet, w, s)
    ensures LocalsAgree(sheet, Apply(w, s, sheet))
  {
    var v := Apply(w, s, sheet);
    if w.process.Up? && v.process.Up? {
      forall row | row in v.process.local ensures LocalAgrees(sheet, v, row) {
        if !Env(s) && !s.Launch? && s.row == row {
          LocalKept(sheet, w, s);
        } else {
          assert LocalAgrees(sheet, w, row);
          assert RecordOf(v.process.mem.govern, row) == RecordOf(w.process.mem.govern, row);
        }
      }
    }
  }

  lemma LocalKept(sheet: set<Vault>, w: World, s: Step)
    requires MemoryAgrees(w) && LocalsAgree(sheet, w) && Enabled(sheet, w, s) && !Env(s) && !s.Launch?
    ensures var v := Apply(w, s, sheet); v.process.Up? && s.row in v.process.local ==> LocalAgrees(sheet, v, s.row)
  {
  }

  /** A step adds nothing or one event to the log. */
  lemma LogGrows(sheet: set<Vault>, w: World, s: Step)
    requires Enabled(sheet, w, s)
    ensures var v := Apply(w, s, sheet); v.log == w.log || (|v.log| == |w.log| + 1 && v.log == w.log + [v.log[|w.log|]])
  {
  }

  /** The counter and the pauses on disk move with the numbered events, and only with them. */
  lemma NumbersMove(sheet: set<Vault>, w: World, s: Step)
    requires MemoryAgrees(w) && Enabled(sheet, w, s)
    ensures var v := Apply(w, s, sheet);
            if |v.log| == |w.log| + 1 && Numbered(v.log[|w.log|])
            then w.disk.seqHigh < v.log[|w.log|].seqno == v.disk.seqHigh &&
              v.disk.pauses == w.disk.pauses + Begun(v.log[|w.log|])
            else v.disk.seqHigh == w.disk.seqHigh && v.disk.pauses == w.disk.pauses
  {
  }

  function Begun(e: Event): set<nat> { if e.PauseBegun? then {e.seqno} else {} }

  lemma NumbersAppend(log: seq<Event>, high: nat, pauses: set<nat>, e: Event)
    requires NumbersGrow(log, high) && PausesLogged(log, pauses) && (Numbered(e) ==> e.seqno > high)
    ensures NumbersGrow(log + [e], if Numbered(e) then e.seqno else high) && PausesLogged(log + [e], pauses + Begun(e))
  {
  }

  lemma NumbersKept(sheet: set<Vault>, w: World, s: Step)
    requires MemoryAgrees(w) && SeqInv(w) && Enabled(sheet, w, s)
    ensures NumbersGrow(Apply(w, s, sheet).log, Apply(w, s, sheet).disk.seqHigh)
    ensures PausesLogged(Apply(w, s, sheet).log, Apply(w, s, sheet).disk.pauses)
  {
    LogGrows(sheet, w, s);
    NumbersMove(sheet, w, s);
    var v := Apply(w, s, sheet);
    if v.log != w.log {
      var e := v.log[|w.log|];
      NumbersAppend(w.log, w.disk.seqHigh, w.disk.pauses, e);
      assert !Numbered(e) ==> w.disk.pauses + Begun(e) == w.disk.pauses;
    }
  }

  lemma SendsAppend(log: seq<Event>, e: Event)
    requires SendsReserved(log) && (e.ScheduleMined? && e.seqHeld.Some? ==> SeqReserved(e.seqHeld.value) in log)
    ensures SendsReserved(log + [e])
  {
    var more := log + [e];
    forall i | 0 <= i < |more| && more[i].ScheduleMined? && more[i].seqHeld.Some?
      ensures exists r :: 0 <= r < i && more[r] == SeqReserved(more[i].seqHeld.value)
    {
      var r :| 0 <= r < i && r < |log| && log[r] == SeqReserved(more[i].seqHeld.value);
      assert more[r] == log[r];
    }
  }

  lemma SendHoldsItsNumber(sheet: set<Vault>, w: World, s: Step)
    requires LocalsLogged(w) && Enabled(sheet, w, s)
    ensures var v := Apply(w, s, sheet);
            |v.log| == |w.log| + 1 && v.log[|w.log|].ScheduleMined? && v.log[|w.log|].seqHeld.Some? ==>
              SeqReserved(v.log[|w.log|].seqHeld.value) in w.log
  {
  }

  lemma SendsKept(sheet: set<Vault>, w: World, s: Step)
    requires SeqInv(w) && Enabled(sheet, w, s)
    ensures SendsReserved(Apply(w, s, sheet).log)
  {
    LogGrows(sheet, w, s);
    SendHoldsItsNumber(sheet, w, s);
    var v := Apply(w, s, sheet);
    if v.log != w.log { SendsAppend(w.log, v.log[|w.log|]); }
  }

  lemma SchedulesKept(sheet: set<Vault>, w: World, s: Step)
    requires MemoryAgrees(w) && SchedulesLogged(w.disk.govern, w.log) && LocalsLogged(w) && Enabled(sheet, w, s)
    ensures SchedulesLogged(Apply(w, s, sheet).disk.govern, Apply(w, s, sheet).log)
  {
    LogGrows(sheet, w, s);
    assert forall e | e in w.log :: e in Apply(w, s, sheet).log;
  }

  lemma LoggedKept(sheet: set<Vault>, w: World, s: Step)
    requires LocalsLogged(w) && Enabled(sheet, w, s)
    ensures LocalsLogged(Apply(w, s, sheet))
  {
    LogGrows(sheet, w, s);
    assert forall e | e in w.log :: e in Apply(w, s, sheet).log;
  }

  lemma ExecutedKept(sheet: set<Vault>, w: World, s: Step)
    requires MemoryAgrees(w) && ExecutedAreDone(w.disk.govern, w.timelock, w.log) && Enabled(sheet, w, s)
    ensures ExecutedAreDone(Apply(w, s, sheet).disk.govern, Apply(w, s, sheet).timelock, Apply(w, s, sheet).log)
  {
    LogGrows(sheet, w, s);
    assert forall e | e in w.log :: e in Apply(w, s, sheet).log;
  }

  lemma CleanSendsKept(sheet: set<Vault>, w: World, s: Step)
    requires CleanSends(w.log) && Enabled(sheet, w, s)
    ensures CleanSends(Apply(w, s, sheet).log)
  {
  }

  lemma CountsAppend(log: seq<Event>, e: Event, id: OpId)
    ensures Schedules(log + [e], id) == Schedules(log, id) + if e.ScheduleMined? && e.id == id then 1 else 0
    ensures Executes(log + [e], id) == Executes(log, id) + if e.ExecuteMined? && e.id == id then 1 else 0
    ensures Cancels(log + [e], id) == Cancels(log, id) + if e.CancelMined? && e.id == id then 1 else 0
  {
    assert (log + [e])[..|log|] == log;
  }

  /** What an event says of the timelock: only the three mined kinds move an operation, each its own. */
  predicate Moves(before: map<OpId, nat>, e: Event, after: map<OpId, nat>, id: OpId) {
    match e
    case ScheduleMined(x, _, _) => if x == id then !Exists(before, id) && Pending(after, id)
      else Stamp(after, id) == Stamp(before, id)
    case ExecuteMined(x, _, _) => if x == id then Pending(before, id) && IsDone(after, id)
      else Stamp(after, id) == Stamp(before, id)
    case CancelMined(x, _) => if x == id then Pending(before, id) && !Exists(after, id)
      else Stamp(after, id) == Stamp(before, id)
    case _ => Stamp(after, id) == Stamp(before, id)
  }

  lemma TimelockMovesByOthers(sheet: set<Vault>, w: World, s: Step, id: OpId)
    requires w.now >= 2 && Enabled(sheet, w, s) && Env(s)
    ensures var v := Apply(w, s, sheet);
            if |v.log| == |w.log| + 1 then Moves(w.timelock, v.log[|w.log|], v.timelock, id)
              else Stamp(v.timelock, id) == Stamp(w.timelock, id)
  {
  }

  lemma TimelockMoves(sheet: set<Vault>, w: World, s: Step, id: OpId)
    requires w.now >= 2 && Enabled(sheet, w, s)
    ensures var v := Apply(w, s, sheet);
            if |v.log| == |w.log| + 1 then Moves(w.timelock, v.log[|w.log|], v.timelock, id)
              else Stamp(v.timelock, id) == Stamp(w.timelock, id)
  {
    if Env(s) {
      TimelockMovesByOthers(sheet, w, s, id);
    } else if !s.SendSchedule? && !s.SendExecute? && !s.SendCancel? {
      assert Apply(w, s, sheet).timelock == w.timelock;
    }
  }

  lemma LedgerKept(sheet: set<Vault>, w: World, s: Step)
    requires w.now >= 2 && Ledger(w.log, w.timelock) && Enabled(sheet, w, s)
    ensures Ledger(Apply(w, s, sheet).log, Apply(w, s, sheet).timelock)
  {
    LogGrows(sheet, w, s);
    var v := Apply(w, s, sheet);
    forall id ensures LedgerOf(v.log, v.timelock, id) {
      assert LedgerOf(w.log, w.timelock, id);
      TimelockMoves(sheet, w, s, id);
      if v.log != w.log { CountsAppend(w.log, v.log[|w.log|], id); }
    }
  }

  // ---- reverted sends ------------------------------------------------------------------------------

  lemma SinceAppend(log: seq<Event>, mark: Event, e: Event)
    ensures Since(log + [e], mark) == if e == mark then [] else Since(log, mark) + [e]
  {
    assert (log + [e])[..|log|] == log;
  }

  /** A step of another row, or of the environment, does not repeat what this row read. */
  lemma MarksStay(sheet: set<Vault>, w: World, s: Step, row: Row)
    requires w.process.Up? && LocalsAgree(sheet, w) && row in w.process.local && Enabled(sheet, w, s)
    requires Env(s) || s.Launch? || s.row != row
    ensures var v := Apply(w, s, sheet);
            |v.log| == |w.log| + 1 ==>
              v.log[|w.log|] != WaitOver(w.process.local[row].id) &&
                v.log[|w.log|] != NotDoneRead(w.process.local[row].id)
  {
    assert LocalAgrees(sheet, w, row);
    if !Env(s) && !s.Launch? && s.row in w.process.local { assert LocalAgrees(sheet, w, s.row); }
  }

  /** Another row's step, or the environment's, moves this row's operation only by another party's hand. */
  lemma MovedByOthers(sheet: set<Vault>, w: World, s: Step, row: Row)
    requires w.now >= 2 && w.process.Up? && LocalsAgree(sheet, w) && row in w.process.local && Enabled(sheet, w, s)
    requires Env(s) || s.Launch? || s.row != row
    ensures var v := Apply(w, s, sheet);
            var id := w.process.local[row].id;
            Stamp(v.timelock, id) == Stamp(w.timelock, id) ||
            (|v.log| == |w.log| + 1 &&
              (v.log[|w.log|] == ScheduleMined(id, None, 0) ||
                v.log[|w.log|] == ExecuteMined(id, false, Stamp(w.timelock, id)) ||
                  v.log[|w.log|] == CancelMined(id, false)))
  {
    assert LocalAgrees(sheet, w, row);
    if !Env(s) && !s.Launch? {
      if s.row in w.process.local { assert LocalAgrees(sheet, w, s.row); }
      TimelockMoves(sheet, w, s, w.process.local[row].id);
    }
  }

  lemma WatchedByOthers(sheet: set<Vault>, w: World, s: Step, row: Row)
    requires w.now >= 2 && w.process.Up? && LocalsAgree(sheet, w) && SeqInv(w) && row in w.process.local
    requires Enabled(sheet, w, s) && MemoryAgrees(w)
    requires Env(s) || s.Launch? || s.row != row
    requires Watched(w, w.process.local[row])
    ensures Watched(Apply(w, s, sheet), w.process.local[row])
  {
    var v, l := Apply(w, s, sheet), w.process.local[row];
    LogGrows(sheet, w, s);
    MarksStay(sheet, w, s, row);
    MovedByOthers(sheet, w, s, row);
    TimelockMoves(sheet, w, s, l.id);
    NumbersMove(sheet, w, s);
    TimeMoves(sheet, w, s);
    if v.log != w.log {
      var e := v.log[|w.log|];
      SinceAppend(w.log, WaitOver(l.id), e);
      SinceAppend(w.log, NotDoneRead(l.id), e);
      if l.at.Reserved? {
        SinceAppend(w.log, SeqReserved(l.at.seqno), e);
        NumberIsOld(w, l.at.seqno);
      }
      WatchedAppend(w, v, l, e);
    }
  }

  lemma TimeMoves(sheet: set<Vault>, w: World, s: Step)
    requires Enabled(sheet, w, s)
    ensures Apply(w, s, sheet).now >= w.now
  {
  }

  lemma NumberIsOld(w: World, n: nat)
    requires SeqInv(w) && SeqReserved(n) in w.log
    ensures n <= w.disk.seqHigh
  {
    var r :| 0 <= r < |w.log| && w.log[r] == SeqReserved(n);
    assert Numbered(w.log[r]);
  }

  lemma WatchedAppend(w: World, v: World, l: Local, e: Event)
    requires Watched(w, l) && v.log == w.log + [e] && v.now >= w.now && Moves(w.timelock, e, v.timelock, l.id)
    requires e != WaitOver(l.id) && e != NotDoneRead(l.id) && (l.at.Reserved? ==> e != SeqReserved(l.at.seqno))
    requires Stamp(v.timelock, l.id) == Stamp(w.timelock, l.id) || e == ScheduleMined(l.id, None, 0)
             || e == ExecuteMined(l.id, false, Stamp(w.timelock, l.id)) || e == CancelMined(l.id, false)
    ensures Watched(v, l)
  {
    SinceAppend(w.log, WaitOver(l.id), e);
    SinceAppend(w.log, NotDoneRead(l.id), e);
    if l.at.Reserved? { SinceAppend(w.log, SeqReserved(l.at.seqno), e); }
  }

  /** The row that moves reads afresh. */
  lemma WatchedByItself(sheet: set<Vault>, w: World, s: Step)
    requires Enabled(sheet, w, s) && !Env(s) && !s.Launch?
    requires (s.row in w.process.local ==> Watched(w, w.process.local[s.row]))
    ensures var v := Apply(w, s, sheet); v.process.Up? && s.row in v.process.local ==>
      Watched(v, v.process.local[s.row])
  {
    LogGrows(sheet, w, s);
    var v := Apply(w, s, sheet);
    if s.ReadNotDone? { SinceAppend(w.log, WaitOver(w.process.local[s.row].id), v.log[|w.log|]); }
  }

  lemma WatchedKept(sheet: set<Vault>, w: World, s: Step)
    requires w.now >= 2 && MemoryAgrees(w) && LocalsAgree(sheet, w) && SeqInv(w) && AllWatched(w)
    requires Enabled(sheet, w, s)
    ensures AllWatched(Apply(w, s, sheet))
  {
    var v := Apply(w, s, sheet);
    if w.process.Up? && v.process.Up? {
      forall row | row in v.process.local ensures Watched(v, v.process.local[row]) {
        if !Env(s) && s.row == row {
          WatchedByItself(sheet, w, s);
        } else {
          RestStays(sheet, w, s, row);
          WatchedByOthers(sheet, w, s, row);
        }
      }
    }
  }

  lemma RestStays(sheet: set<Vault>, w: World, s: Step, row: Row)
    requires w.process.Up? && Enabled(sheet, w, s) && Apply(w, s, sheet).process.Up? && (Env(s) || s.row != row)
    ensures var v := Apply(w, s, sheet);
            row in v.process.local ==> row in w.process.local && v.process.local[row] == w.process.local[row]
  {
  }

  /** Only the tool's own sends revert, and each was prepared by its reads. */
  lemma RevertIsExcused(sheet: set<Vault>, w: World, s: Step)
    requires w.now >= 2 && AllWatched(w) && Enabled(sheet, w, s)
    ensures var v := Apply(w, s, sheet); |v.log| == |w.log| + 1 ==> Excused(w.log, v.log[|w.log|])
  {
    if (s.SendSchedule? || s.SendExecute?) { assert Watched(w, w.process.local[s.row]); }
  }

  lemma RevertsKept(sheet: set<Vault>, w: World, s: Step)
    requires w.now >= 2 && AllWatched(w) && RevertsExcused(w.log) && Enabled(sheet, w, s)
    ensures RevertsExcused(Apply(w, s, sheet).log)
  {
    LogGrows(sheet, w, s);
    RevertIsExcused(sheet, w, s);
    var v := Apply(w, s, sheet);
    forall j | 0 <= j < |v.log| ensures Excused(v.log[..j], v.log[j]) {
      if j < |w.log| { assert v.log[..j] == w.log[..j] && v.log[j] == w.log[j]; } else { assert v.log[..j] == w.log; }
    }
  }

  // ---- round bookkeeping ---------------------------------------------------------------------------

  lemma CurrentReplaced(sheet: set<Vault>, g: map<Key, Record>, row: Row, rec: Record)
    requires Bookkeeping(sheet, g)
    requires rec.round == RecordOf(g, row).round && CurrentShape(sheet, row, rec)
    ensures Bookkeeping(sheet, g[Current(row) := rec])
  {
    var h := g[Current(row) := rec];
    forall x ensures RowBookkeeping(sheet, h, x) {
      assert RowBookkeeping(sheet, g, x);
    }
  }

  lemma ScheduleArchived(sheet: set<Vault>, g: map<Key, Record>, row: Row, c: nat)
    requires Bookkeeping(sheet, g) && row.Unpause? && c == FreshFrom(g, row, RecordOf(g, row).round, 1)
    requires RecordOf(g, row).scheduled.Some? && !Complete(RecordOf(g, row))
    ensures Bookkeeping(sheet, ArchiveSchedule(g, row, c))
  {
    var h := ArchiveSchedule(g, row, c);
    var rec := RecordOf(g, row);
    assert RowBookkeeping(sheet, g, row);
    forall x ensures RowBookkeeping(sheet, h, x) {
      assert RowBookkeeping(sheet, g, x);
      if x == row {
        forall n: nat, k: nat, j: nat | Cancelled(x, n, k) in h && 1 <= j <= k ensures Cancelled(x, n, j) in h {
          if Cancelled(x, n, k) !in g { assert n == rec.round && k == c; }
        }
      }
    }
  }

  lemma RoundOpened(sheet: set<Vault>, g: map<Key, Record>, row: Row)
    requires Bookkeeping(sheet, g) && row.Unpause? && RecordOf(g, row).executed.Some?
    ensures Bookkeeping(sheet, NextRound(g, row))
  {
    var h := NextRound(g, row);
    assert RowBookkeeping(sheet, g, row);
    forall x ensures RowBookkeeping(sheet, h, x) {
      assert RowBookkeeping(sheet, g, x);
    }
  }

  lemma BookkeepingKept(sheet: set<Vault>, w: World, s: Step)
    requires MemoryAgrees(w) && LocalsAgree(sheet, w) && Bookkeeping(sheet, w.disk.govern) && Enabled(sheet, w, s)
    ensures Bookkeeping(sheet, Apply(w, s, sheet).disk.govern)
  {
    if !Env(s) && !s.Launch? {
      var g, row := w.process.mem.govern, s.row;
      assert RowBookkeeping(sheet, g, row);
      if s.ArchiveCancelled? {
        ScheduleArchived(sheet, g, row, s.k);
      } else if s.OpenRound? {
        RoundOpened(sheet, g, row);
      } else if Apply(w, s, sheet).disk.govern != g {
        CurrentReplaced(sheet, g, row, RecordOf(Apply(w, s, sheet).disk.govern, row));
      }
    }
  }

  // ---- pause safety --------------------------------------------------------------------------------

  /** A schedule the tool numbered, and a recorded pause: the lower number came first, with the reservation between. */
  lemma NumberedAfterPause(log: seq<Event>, high: nat, k: int, i: int)
    requires NumbersGrow(log, high) && SendsReserved(log)
    requires 0 <= k < |log| && log[k].PauseBegun? && 0 <= i < |log| && log[i].ScheduleMined? && log[i].seqHeld.Some?
    ensures log[k].seqno >= 1 && log[k].seqno != log[i].seqHeld.value
    ensures log[k].seqno < log[i].seqHeld.value ==> k < i
  {
    var r :| 0 <= r < i && log[r] == SeqReserved(log[i].seqHeld.value);
    assert Numbered(log[k]) && Numbered(log[r]);
  }

  /**
   At the send of an unpause: the round's schedule is recorded, was sent by the tool if numbered, and no pause on disk
   has a higher number.
   */
  lemma SendFacts(sheet: set<Vault>, w: World, row: Row)
    requires Inv(sheet, w) && row.Unpause? && Enabled(sheet, w, SendExecute(row))
    requires Ready(w.timelock, w.process.local[row].id, w.now)
    ensures var sched := RecordOf(w.disk.govern, row).scheduled;
            && sched.Some? && sched.value.id == w.process.local[row].id
            && (sched.value.seqno > 0 ==> ScheduleMined(sched.value.id, Some(sched.value.seqno), 0) in w.log)
            && (forall p | p in w.disk.pauses :: p <= sched.value.seqno)
  {
    assert RowBookkeeping(sheet, w.disk.govern, row) && LocalAgrees(sheet, w, row);
    forall p | p in w.disk.pauses ensures p <= RecordOf(w.disk.govern, row).scheduled.value.seqno {
      assert !PausedSince(w, row) && p in w.process.mem.pauses + w.disk.pauses;
    }
  }

  /** Where the tool executes an unpause, every pause on disk has a lower number than the round's schedule. */
  lemma PausesAreOlder(sheet: set<Vault>, w: World, row: Row, p: nat)
    requires Inv(sheet, w) && row.Unpause? && Enabled(sheet, w, SendExecute(row))
    requires Ready(w.timelock, w.process.local[row].id, w.now) && p in w.disk.pauses
    ensures var sched := RecordOf(w.disk.govern, row).scheduled; sched.Some? && 1 <= p < sched.value.seqno
  {
    SendFacts(sheet, w, row);
    var sched := RecordOf(w.disk.govern, row).scheduled.value;
    var k :| 0 <= k < |w.log| && w.log[k] == PauseBegun(p);
    assert Numbered(w.log[k]);
    var i :| 0 <= i < |w.log| && w.log[i] == ScheduleMined(sched.id, Some(sched.seqno), 0);
    NumberedAfterPause(w.log, w.disk.seqHigh, k, i);
  }

  lemma ExecuteIsAfterPauses(sheet: set<Vault>, w: World, row: Row, k: int)
    requires Inv(sheet, w) && row.Unpause? && Enabled(sheet, w, SendExecute(row))
    requires Ready(w.timelock, w.process.local[row].id, w.now)
    requires 0 <= k < |w.log| && w.log[k].PauseBegun?
    ensures ScheduledBetween(w.log, k, |w.log|, w.process.local[row].id)
  {
    var p := w.log[k].seqno;
    SendFacts(sheet, w, row);
    assert PauseBegun(p) in w.log;
    PausesAreOlder(sheet, w, row, p);
    var sched := RecordOf(w.disk.govern, row).scheduled.value;
    var i :| 0 <= i < |w.log| && w.log[i] == ScheduleMined(sched.id, Some(sched.seqno), 0);
    NumberedAfterPause(w.log, w.disk.seqHigh, k, i);
  }

  lemma PauseSafeAppend(log: seq<Event>, e: Event)
    requires PauseSafe(log)
    requires ReopensByTool(e) ==>
      forall k | 0 <= k < |log| && log[k].PauseBegun? :: ScheduledBetween(log, k, |log|, e.id)
    ensures PauseSafe(log + [e])
  {
    var more := log + [e];
    forall k, j | 0 <= k < j < |more| && more[k].PauseBegun? &&
      ReopensByTool(more[j]) ensures ScheduledBetween(more, k, j, more[j].id) {
      assert more[k] == log[k] && (j < |log| ==> more[j] == log[j]);
      assert ScheduledBetween(log, k, j, more[j].id);
      var i :| k < i < j && log[i].ScheduleMined? && log[i].id == more[j].id && log[i].seqHeld.Some?;
      assert more[i] == log[i];
    }
  }

  /** Only SendExecute reopens a vault by the tool's hand. */
  lemma OnlySendReopens(sheet: set<Vault>, w: World, s: Step)
    requires Enabled(sheet, w, s)
    ensures var v := Apply(w, s, sheet);
            |v.log| == |w.log| + 1 && ReopensByTool(v.log[|w.log|]) ==>
              s.SendExecute? && v.log[|w.log|].id == w.process.local[s.row].id &&
                Ready(w.timelock, v.log[|w.log|].id, w.now)
  {
  }

  lemma PauseSafeKept(sheet: set<Vault>, w: World, s: Step)
    requires Inv(sheet, w) && Enabled(sheet, w, s)
    ensures PauseSafe(Apply(w, s, sheet).log)
  {
    LogGrows(sheet, w, s);
    OnlySendReopens(sheet, w, s);
    var v := Apply(w, s, sheet);
    if v.log != w.log {
      var e := v.log[|w.log|];
      if ReopensByTool(e) {
        assert LocalAgrees(sheet, w, s.row);
        forall k | 0 <= k < |w.log| && w.log[k].PauseBegun? ensures ScheduledBetween(w.log, k, |w.log|, e.id) {
          ExecuteIsAfterPauses(sheet, w, s.row, k);
        }
      }
      PauseSafeAppend(w.log, e);
    }
  }

  lemma InvKept(sheet: set<Vault>, w: World, s: Step)
    requires Inv(sheet, w) && Enabled(sheet, w, s)
    ensures Inv(sheet, Apply(w, s, sheet))
  {
    MemoryKept(sheet, w, s);
    LocalsKept(sheet, w, s);
    BookkeepingKept(sheet, w, s);
    NumbersKept(sheet, w, s);
    SendsKept(sheet, w, s);
    SchedulesKept(sheet, w, s);
    LoggedKept(sheet, w, s);
    PauseSafeKept(sheet, w, s);
    ExecutedKept(sheet, w, s);
    CleanSendsKept(sheet, w, s);
    LedgerKept(sheet, w, s);
    WatchedKept(sheet, w, s);
    RevertsKept(sheet, w, s);
  }

  lemma {:induction false} InvOnRuns(sheet: set<Vault>, w: World, steps: seq<Step>)
    requires Init(w) && Run(sheet, w, steps).Some?
    ensures Inv(sheet, Run(sheet, w, steps).value)
  {
    if steps == [] {
    } else {
      InvOnRuns(sheet, w, steps[..|steps| - 1]);
      InvKept(sheet, Run(sheet, w, steps[..|steps| - 1]).value, steps[|steps| - 1]);
    }
  }
}
