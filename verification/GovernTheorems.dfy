/** What every run of the governance protocol keeps, whatever the interleaving and wherever the process stops. */
module GovernTheorems {
  import opened Basics
  import opened GovernModel
  import opened GovernSafety

  /**
   Pause safety: take any run and any unpause the tool executed in it. Each pause-all recorded before that
   execute was followed, still before the execute, by a schedule of that same operation sent by the tool.
   */
  lemma PauseSafety(sheet: set<Vault>, w: World, steps: seq<Step>, k: int, j: int)
    requires Init(w) && Run(sheet, w, steps).Some?
    requires var log := Run(sheet, w, steps).value.log;
      0 <= k < j < |log| && log[k].PauseBegun? && ReopensByTool(log[j])
    ensures var log := Run(sheet, w, steps).value.log;
            exists i :: k < i < j && log[i].ScheduleMined? && log[i].id == log[j].id && log[i].seqHeld.Some?
  {
    InvOnRuns(sheet, w, steps);
    var log := Run(sheet, w, steps).value.log;
    assert ScheduledBetween(log, k, j, log[j].id);
  }

  /**
   The check the tool makes, read at the moment of a send that will be mined: every pause on disk has a lower
   number than the round's schedule. An adopted schedule counts as 0, so any recorded pause blocks it.
   */
  lemma ExecuteOutranksPauses(sheet: set<Vault>, w: World, steps: seq<Step>, row: Row)
    requires Init(w) && Run(sheet, w, steps).Some? && row.Unpause?
    requires var v := Run(sheet, w, steps).value;
             Enabled(sheet, v, SendExecute(row)) && Ready(v.timelock, v.process.local[row].id, v.now)
    ensures var v := Run(sheet, w, steps).value;
            var sched := RecordOf(v.disk.govern, row).scheduled;
            && sched.Some? && sched.value.id == v.process.local[row].id
            && (forall p | p in v.disk.pauses :: 1 <= p < sched.value.seqno)
            && (sched.value.seqno == 0 ==> v.disk.pauses == {})
  {
    var v := Run(sheet, w, steps).value;
    InvOnRuns(sheet, w, steps);
    assert RowBookkeeping(sheet, v.disk.govern, row) && LocalAgrees(sheet, v, row);
    forall p | p in v.disk.pauses ensures 1 <= p < RecordOf(v.disk.govern, row).scheduled.value.seqno {
      PausesAreOlder(sheet, v, row, p);
    }
  }

  /**
   The tool sends nothing the timelock would revert, unless another party is at work on the same operation. Take any
   reverted send of any run. A schedule: after its number was reserved another party scheduled that operation. An
   execute of a done operation: after the tool read it not done another party executed it. An execute of an absent or
   unready one: after the wait saw it ready the Safe cancelled it from outside the tool.
   */
  lemma RevertsAreOthersDoing(sheet: set<Vault>, w: World, steps: seq<Step>, j: nat)
    requires Init(w) && Run(sheet, w, steps).Some? && j < |Run(sheet, w, steps).value.log|
    ensures var log := Run(sheet, w, steps).value.log;
            var past, e := log[..j], log[j];
            && (e.ScheduleReverted? ==>
                  SeqReserved(e.seqno) in past && ScheduleMined(e.id, None, 0) in Since(past, SeqReserved(e.seqno)))
            && (e.ExecuteReverted? && e.before == 1 ==>
                  NotDoneRead(e.id) in past && exists x | x in Since(past, NotDoneRead(e.id)) ::
                    x.ExecuteMined? && x.id == e.id && !x.byTool)
            && (e.ExecuteReverted? && e.before != 1 ==>
                  WaitOver(e.id) in past && CancelMined(e.id, false) in Since(past, WaitOver(e.id)))
  {
    InvOnRuns(sheet, w, steps);
    var log := Run(sheet, w, steps).value.log;
    assert Excused(log[..j], log[j]);
  }

  /** Another party's hand on an operation: a schedule, an execute or a cancel that is not the tool's. */
  predicate ByOther(e: Event, id: OpId) {
    || (e.ScheduleMined? && e.id == id && e.seqHeld.None?)
    || (e.ExecuteMined? && e.id == id && !e.byTool)
    || (e.CancelMined? && e.id == id && !e.byTool)
  }

  lemma {:induction false} SinceIsPast(log: seq<Event>, mark: Event, e: Event)
    requires e in Since(log, mark)
    ensures e in log
  {
    var n := |log| - 1;
    if e != log[n] { SinceIsPast(log[..n], mark, e); }
  }

  /**
   Crashes and restarts alone never make a send fail: a reverted schedule or execute is of an operation another party
   touched, however often the process stopped between a send and its record.
   */
  lemma CrashesAloneNeverRevert(sheet: set<Vault>, w: World, steps: seq<Step>, j: nat)
    requires Init(w) && Run(sheet, w, steps).Some? && j < |Run(sheet, w, steps).value.log|
    ensures var log := Run(sheet, w, steps).value.log;
            log[j].ScheduleReverted? || log[j].ExecuteReverted? ==> exists x | x in log :: ByOther(x, log[j].id)
  {
    RevertsAreOthersDoing(sheet, w, steps, j);
    var log := Run(sheet, w, steps).value.log;
    var past, e := log[..j], log[j];
    if e.ScheduleReverted? {
      SinceIsPast(past, SeqReserved(e.seqno), ScheduleMined(e.id, None, 0));
      assert ByOther(ScheduleMined(e.id, None, 0), e.id);
    } else if e.ExecuteReverted? && e.before == 1 {
      var x :| x in Since(past, NotDoneRead(e.id)) && x.ExecuteMined? && x.id == e.id && !x.byTool;
      SinceIsPast(past, NotDoneRead(e.id), x);
      assert ByOther(x, e.id);
    } else if e.ExecuteReverted? {
      SinceIsPast(past, WaitOver(e.id), CancelMined(e.id, false));
      assert ByOther(CancelMined(e.id, false), e.id);
    }
  }

  /**
   Exactly once under crashes: per operation the successful schedules are at most one more than its cancels and it
   executes at most once; and an executed record names a done operation, executed once, whose read-back passed.
   */
  lemma ExactlyOnce(sheet: set<Vault>, w: World, steps: seq<Step>)
    requires Init(w) && Run(sheet, w, steps).Some?
    ensures var v := Run(sheet, w, steps).value;
            && (forall id :: Schedules(v.log, id) <= 1 + Cancels(v.log, id) && Executes(v.log, id) <= 1)
            && (forall key | key in v.disk.govern && v.disk.govern[key].executed.Some? ::
                  var id := v.disk.govern[key].executed.value;
                  IsDone(v.timelock, id) && Executes(v.log, id) == 1 && ReadBack(id, 1, false) in v.log)
  {
    InvOnRuns(sheet, w, steps);
    var v := Run(sheet, w, steps).value;
    forall id ensures Schedules(v.log, id) <= 1 + Cancels(v.log, id) && Executes(v.log, id) <= 1 &&
      LedgerOf(v.log, v.timelock, id) {
      assert LedgerOf(v.log, v.timelock, id);
    }
  }

  /**
   Round bookkeeping: the archived rounds of an unpause row are exactly 1 to r-1, each executed, the current
   record is round r, and the cancelled archives of a round are numbered 1 to c with no gap.
   */
  lemma RoundBookkeeping(sheet: set<Vault>, w: World, steps: seq<Step>, row: Row)
    requires Init(w) && Run(sheet, w, steps).Some? && row.Unpause?
    ensures var g := Run(sheet, w, steps).value.disk.govern;
            var r := RecordOf(g, row).round;
            && r >= 1
            && (forall n: nat :: Archived(row, n) in g <==> 1 <= n < r)
            && (forall n: nat | 1 <= n < r ::
              g[Archived(row, n)].round == n && g[Archived(row, n)].executed == Some(OpId(row, n)))
            && (forall n: nat, k: nat | Cancelled(row, n, k) in g ::
                  && 1 <= n <= r && k >= 1 && g[Cancelled(row, n, k)].executed.None?
                  && forall j: nat | 1 <= j <= k :: Cancelled(row, n, j) in g)
  {
    InvOnRuns(sheet, w, steps);
    assert RowBookkeeping(sheet, Run(sheet, w, steps).value.disk.govern, row);
  }

  predicate IsArchive(key: Key) { !key.Current? }

  lemma ArchiveKeptByStep(sheet: set<Vault>, w: World, s: Step, key: Key)
    requires MemoryAgrees(w) && Bookkeeping(sheet, w.disk.govern) && Enabled(sheet, w, s) && IsArchive(key)
    requires key in w.disk.govern
    ensures key in Apply(w, s, sheet).disk.govern && Apply(w, s, sheet).disk.govern[key] == w.disk.govern[key]
  {
    assert RowBookkeeping(sheet, w.disk.govern, key.row);
  }

  /** No archived record is ever overwritten or dropped, in this process or in a later one. */
  lemma {:induction false} ArchivesNeverChange(sheet: set<Vault>, w: World, steps: seq<Step>, more: seq<Step>, key: Key)
    requires Init(w) && Run(sheet, w, steps + more).Some? && Run(sheet, w, steps).Some?
    requires IsArchive(key) && key in Run(sheet, w, steps).value.disk.govern
    ensures var g, h := Run(sheet, w, steps).value.disk.govern, Run(sheet, w, steps + more).value.disk.govern;
            key in h && h[key] == g[key]
    decreases |more|
  {
    if more == [] {
      assert steps + more == steps;
    } else {
      var n := |more| - 1;
      assert (steps + more)[..|steps + more| - 1] == steps + more[..n];
      ArchivesNeverChange(sheet, w, steps, more[..n], key);
      InvOnRuns(sheet, w, steps + more[..n]);
      ArchiveKeptByStep(sheet, Run(sheet, w, steps + more[..n]).value, more[n], key);
    }
  }

  /**
   A round is archived, and the next one opened, only in a run that names the row, after it executed and the vault reads
   paused.
   */
  lemma RoundOpensOnlyWhenNamed(sheet: set<Vault>, w: World, steps: seq<Step>, s: Step, row: Row, n: nat)
    requires Init(w) && Run(sheet, w, steps).Some? && Enabled(sheet, Run(sheet, w, steps).value, s)
    requires var v := Run(sheet, w, steps).value;
      Archived(row, n) !in v.disk.govern && Archived(row, n) in Apply(v, s, sheet).disk.govern
    ensures var v := Run(sheet, w, steps).value;
            var u := Apply(v, s, sheet);
            && v.process.Up? && v.process.named == Some(row)
            && row.Unpause? && row.vault in v.paused
            && IsDone(v.timelock, OpId(row, n)) && ReadBack(OpId(row, n), 1, false) in v.log
            && RecordOf(v.disk.govern, row).round == n && RecordOf(u.disk.govern, row) == FreshRecord(n + 1)
  {
    var v := Run(sheet, w, steps).value;
    InvOnRuns(sheet, w, steps);
    assert RowBookkeeping(sheet, v.disk.govern, row);
    assert s == OpenRound(row);
    assert Current(row) in v.disk.govern && v.disk.govern[Current(row)].executed == Some(OpId(row, n));
  }

  /**
   A cancelled schedule is archived, and its round starts again, only in a run that names the row: the process is up and
   named it, and the record held an incomplete schedule of that round's operation, which the timelock no longer has.
   */
  lemma CancelledArchivedOnlyWhenNamed(sheet: set<Vault>, w: World, steps: seq<Step>, s: Step, row: Row, n: nat, k: nat)
    requires Init(w) && Run(sheet, w, steps).Some? && Enabled(sheet, Run(sheet, w, steps).value, s)
    requires var v := Run(sheet, w, steps).value;
             Cancelled(row, n, k) !in v.disk.govern && Cancelled(row, n, k) in Apply(v, s, sheet).disk.govern
    ensures var v := Run(sheet, w, steps).value;
            var u := Apply(v, s, sheet);
            var rec := RecordOf(v.disk.govern, row);
            && v.process.Up? && v.process.named == Some(row) && row.Unpause?
            && rec.round == n && rec.scheduled.Some? && rec.scheduled.value.id == OpId(row, n)
            && rec.executed.None? && rec.cancelled.None? && !rec.skipped && Stamp(v.timelock, OpId(row, n)) == 0
            && u.disk.govern[Cancelled(row, n, k)] == rec && RecordOf(u.disk.govern, row) == FreshRecord(n)
  {
    var v := Run(sheet, w, steps).value;
    InvOnRuns(sheet, w, steps);
    assert RowBookkeeping(sheet, v.disk.govern, row);
    assert s == ArchiveCancelled(row, k);
  }

  lemma ScheduleKeptByStep(sheet: set<Vault>, w: World, s: Step, row: Row)
    requires MemoryAgrees(w) && Enabled(sheet, w, s) && RecordOf(w.disk.govern, row).scheduled.Some?
    requires CurrentShapeAt(sheet, w.disk.govern, row)
    requires w.process.Up? && row in w.process.local ==> LocalAgrees(sheet, w, row)
    requires w.process.Up? ==> w.process.named != Some(row)
    ensures RecordOf(Apply(w, s, sheet).disk.govern, row).scheduled == RecordOf(w.disk.govern, row).scheduled
  {
    if Env(s) || s.Launch? || s.row != row { OtherRecordsStay(sheet, w, s, row); }
  }

  lemma OtherRecordsStay(sheet: set<Vault>, w: World, s: Step, row: Row)
    requires MemoryAgrees(w) && Enabled(sheet, w, s) && (Env(s) || s.Launch? || s.row != row)
    ensures RecordOf(Apply(w, s, sheet).disk.govern, row) == RecordOf(w.disk.govern, row)
  {
  }

  lemma NamedOnlyByLaunch(sheet: set<Vault>, w: World, s: Step, row: Row)
    requires Enabled(sheet, w, s) && s != Launch(Some(row)) && (w.process.Up? ==> w.process.named != Some(row))
    ensures Apply(w, s, sheet).process.Up? ==> Apply(w, s, sheet).process.named != Some(row)
  {
  }

  /** As long as no run names the row, its recorded schedule stays as it is: nothing empties or replaces it. */
  lemma {:induction false} UnnamedRunsKeepSchedules(
    sheet: set<Vault>, w: World, steps: seq<Step>, more: seq<Step>, row: Row)
    requires Init(w) && Run(sheet, w, steps).Some? && Run(sheet, w, steps + more).Some?
    requires RecordOf(Run(sheet, w, steps).value.disk.govern, row).scheduled.Some?
    requires var v := Run(sheet, w, steps).value; v.process.Up? ==> v.process.named != Some(row)
    requires Launch(Some(row)) !in more
    ensures var u, v := Run(sheet, w, steps).value, Run(sheet, w, steps + more).value;
            && RecordOf(v.disk.govern, row).scheduled == RecordOf(u.disk.govern, row).scheduled
            && (v.process.Up? ==> v.process.named != Some(row))
    decreases |more|
  {
    if more == [] {
      assert steps + more == steps;
    } else {
      var n := |more| - 1;
      assert (steps + more)[..|steps + more| - 1] == steps + more[..n];
      UnnamedRunsKeepSchedules(sheet, w, steps, more[..n], row);
      InvOnRuns(sheet, w, steps + more[..n]);
      var v := Run(sheet, w, steps + more[..n]).value;
      assert more[n] in more && RowBookkeeping(sheet, v.disk.govern, row);
      ScheduleKeptByStep(sheet, v, more[n], row);
      NamedOnlyByLaunch(sheet, v, more[n], row);
    }
  }

  /** A run split at any point is a run followed by a run: what lets a restart be reasoned about as more steps. */
  lemma {:induction false} RunsCompose(sheet: set<Vault>, w: World, first: seq<Step>, second: seq<Step>)
    ensures Run(sheet, w, first + second) ==
            (match Run(sheet, w, first) case None => None case Some(v) => Run(sheet, v, second))
    decreases |second|
  {
    if second == [] {
      assert first + second == first;
    } else {
      var n := |second| - 1;
      assert (first + second)[..|first + second| - 1] == first + second[..n];
      RunsCompose(sheet, w, first, second[..n]);
    }
  }

  /**
   A stop between a schedule and its record is repaired by the next run of the row: the run goes on to adopt the
   operation, sends nothing, and the adopted record carries number 0.
   */
  lemma CrashAfterScheduleIsAdopted(sheet: set<Vault>, w: World, steps: seq<Step>, row: Row)
    requires Init(w) && Run(sheet, w, steps).Some? && row.Unpause?
    requires var v := Run(sheet, w, steps).value;
             v.process.Up? && row in v.process.local && v.process.local[row].at.ScheduleSent? &&
               Exists(v.timelock, v.process.local[row].id)
    ensures var v := Run(sheet, w, steps).value;
            var after := Run(sheet, w, steps + [Stop, Launch(Some(row)), Plan(row), AdoptSchedule(row)]);
            && after.Some? && after.value.timelock == v.timelock
            && after.value.log == v.log + [PlanRead(v.process.local[row].id, row.vault in v.paused)]
            && RecordOf(after.value.disk.govern, row).scheduled ==
               Some(Scheduled(v.process.local[row].id, 0, Stamp(v.timelock, v.process.local[row].id)))
  {
    InvOnRuns(sheet, w, steps);
    RunsCompose(sheet, w, steps, [Stop, Launch(Some(row)), Plan(row), AdoptSchedule(row)]);
    var v := Run(sheet, w, steps).value;
    assert LocalAgrees(sheet, v, row);
    AdoptionRun(sheet, v, row);
  }

  lemma RunExtends(sheet: set<Vault>, w: World, steps: seq<Step>, s: Step, v: World)
    requires Run(sheet, w, steps) == Some(v) && Enabled(sheet, v, s)
    ensures Run(sheet, w, steps + [s]) == Some(Apply(v, s, sheet))
  {
    assert (steps + [s])[..|steps + [s]| - 1] == steps;
  }

  lemma AdoptionRun(sheet: set<Vault>, v: World, row: Row)
    requires MemoryAgrees(v) && v.process.Up? && row in v.process.local && LocalAgrees(sheet, v, row)
    requires row.Unpause? && v.process.local[row].at.ScheduleSent? && Exists(v.timelock, v.process.local[row].id)
    ensures var after := Run(sheet, v, [Stop, Launch(Some(row)), Plan(row), AdoptSchedule(row)]);
            && after.Some? && after.value.timelock == v.timelock
            && after.value.log == v.log + [PlanRead(v.process.local[row].id, row.vault in v.paused)]
            && RecordOf(after.value.disk.govern, row).scheduled ==
               Some(Scheduled(v.process.local[row].id, 0, Stamp(v.timelock, v.process.local[row].id)))
  {
    var a := v.(process := Down);
    var b := v.(process := Up(v.disk, Some(row), map[]));
    RunExtends(sheet, v, [], Stop, v);
    RunExtends(sheet, v, [Stop], Launch(Some(row)), a);
    assert [Stop] + [Launch(Some(row))] == [Stop, Launch(Some(row))];
    var c := Apply(b, Plan(row), sheet);
    RunExtends(sheet, v, [Stop, Launch(Some(row))], Plan(row), b);
    assert [Stop, Launch(Some(row))] + [Plan(row)] == [Stop, Launch(Some(row)), Plan(row)];
    RunExtends(sheet, v, [Stop, Launch(Some(row)), Plan(row)], AdoptSchedule(row), c);
    assert [Stop, Launch(Some(row)), Plan(row)] + [AdoptSchedule(row)] == [Stop, Launch(Some(row)), Plan(row),
      AdoptSchedule(row)];
  }
}
