/** What the tool may schedule and reopen at all: vaults of the sheet, read paused when the round was planned. */
module GovernPlans {
  import opened Basics
  import opened GovernModel
  import opened GovernSafety

  // ---- the last plan of a round --------------------------------------------------------------------

  /** What the last plan of the operation's round read of the vault, if it was planned at all. */
  function LastPlan(log: seq<Event>, id: OpId): Option<bool> {
    if log == [] then None else
      var e := log[|log| - 1];
      if e.PlanRead? && e.id == id then Some(e.paused) else LastPlan(log[..|log| - 1], id)
  }

  /** The log after that plan. */
  function SincePlan(log: seq<Event>, id: OpId): seq<Event> {
    if log == [] then [] else
      var e := log[|log| - 1];
      if e.PlanRead? && e.id == id then [] else SincePlan(log[..|log| - 1], id) + [e]
  }

  lemma PlanAppend(log: seq<Event>, e: Event, id: OpId)
    ensures var again := e.PlanRead? && e.id == id;
            && LastPlan(log + [e], id) == (if again then Some(e.paused) else LastPlan(log, id))
            && SincePlan(log + [e], id) == (if again then [] else SincePlan(log, id) + [e])
  {
    assert (log + [e])[..|log|] == log;
  }

  /** The vault read paused at the plan, or the operation was there then and the Safe has cancelled it since. */
  predicate Wanted(log: seq<Event>, id: OpId) {
    && LastPlan(log, id).Some?
    && (LastPlan(log, id).value || CancelMined(id, false) in SincePlan(log, id))
  }

  predicate ToolSchedule(e: Event) { (e.ScheduleMined? && e.seqHeld.Some?) || e.ScheduleReverted? }

  /** An unpause the tool schedules is of a vault of the sheet and was wanted; so is what it reopens of the sheet. */
  predicate Warranted(sheet: set<Vault>, past: seq<Event>, e: Event) {
    && (ToolSchedule(e) && e.id.row.Unpause? ==> e.id.row.vault in sheet && Wanted(past, e.id))
    && (ReopensByTool(e) ==> e.id.row.vault in sheet)
  }

  ghost predicate AllWarranted(sheet: set<Vault>, log: seq<Event>) {
    forall j | 0 <= j < |log| :: Warranted(sheet, log[..j], log[j])
  }

  /** A planned row without a record is wanted, or its operation is on the timelock to be adopted. */
  ghost predicate PlanKnown(w: World, row: Row)
    requires w.process.Up? && row in w.process.local
  {
    var l := w.process.local[row];
    && (row.Unpause? && l.at.Planned? && RecordOf(w.process.mem.govern, row).scheduled.None? ==>
          LastPlan(w.log, l.id).Some? && (Wanted(w.log, l.id) || Exists(w.timelock, l.id)))
    && (row.Unpause? && l.at.Reserved? ==> Wanted(w.log, l.id))
  }

  ghost predicate PlanInv(sheet: set<Vault>, w: World) {
    && AllWarranted(sheet, w.log)
    && (w.process.Up? ==> forall row | row in w.process.local :: PlanKnown(w, row))
  }

  // ---- kept by every step --------------------------------------------------------------------------

  lemma WantedAppend(log: seq<Event>, e: Event, id: OpId)
    requires Wanted(log, id) && !(e.PlanRead? && e.id == id)
    ensures Wanted(log + [e], id)
  {
    PlanAppend(log, e, id);
  }

  /** Only the row's own plan reads the row's own operation. */
  lemma PlansAreOwn(sheet: set<Vault>, w: World, s: Step, id: OpId)
    requires Enabled(sheet, w, s) && (Env(s) || s.Launch? || s.row != id.row || !s.Plan?)
    ensures var v := Apply(w, s, sheet);
            |v.log| == |w.log| + 1 ==> !(v.log[|w.log|].PlanRead? && v.log[|w.log|].id == id)
  {
  }

  lemma KnownByOthers(sheet: set<Vault>, w: World, s: Step, row: Row)
    requires Inv(sheet, w) && w.process.Up? && row in w.process.local && Enabled(sheet, w, s) && PlanKnown(w, row)
    requires Env(s) || s.row != row
    requires Apply(w, s, sheet).process.Up?
    ensures var v := Apply(w, s, sheet); row in v.process.local && PlanKnown(v, row)
  {
    var v, id := Apply(w, s, sheet), w.process.local[row].id;
    assert LocalAgrees(sheet, w, row);
    LogGrows(sheet, w, s);
    PlansAreOwn(sheet, w, s, id);
    MovedByOthers(sheet, w, s, row);
    TimelockMoves(sheet, w, s, id);
    OthersStay(sheet, w, s, row);
    if v.log != w.log {
      PlanAppend(w.log, v.log[|w.log|], id);
      if Wanted(w.log, id) { WantedAppend(w.log, v.log[|w.log|], id); }
    }
  }

  lemma OthersStay(sheet: set<Vault>, w: World, s: Step, row: Row)
    requires MemoryAgrees(w) && w.process.Up? && row in w.process.local && Enabled(sheet, w, s)
    requires (Env(s) || s.row != row) && Apply(w, s, sheet).process.Up?
    ensures var v := Apply(w, s, sheet);
            && row in v.process.local && v.process.local[row] == w.process.local[row]
            && RecordOf(v.process.mem.govern, row) == RecordOf(w.process.mem.govern, row)
  {
  }

  /** The row's own step: a plan reads, a reservation keeps what the plan read. */
  lemma KnownByItself(sheet: set<Vault>, w: World, s: Step)
    requires Enabled(sheet, w, s) && !Env(s) && !s.Launch? && Apply(w, s, sheet).process.Up?
    requires s.row in w.process.local ==> PlanKnown(w, s.row) && LocalAgrees(sheet, w, s.row)
    ensures var v := Apply(w, s, sheet); s.row in v.process.local ==> PlanKnown(v, s.row)
  {
    LogGrows(sheet, w, s);
    var v := Apply(w, s, sheet);
    if s.Plan? || s.Reserve? { PlanAppend(w.log, v.log[|w.log|], v.process.local[s.row].id); }
  }

  lemma SendIsWarranted(sheet: set<Vault>, w: World, s: Step)
    requires LocalsAgree(sheet, w) && PlanInv(sheet, w) && Enabled(sheet, w, s)
    ensures var v := Apply(w, s, sheet); |v.log| == |w.log| + 1 ==> Warranted(sheet, w.log, v.log[|w.log|])
  {
    if s.SendSchedule? || s.SendExecute? { assert PlanKnown(w, s.row) && LocalAgrees(sheet, w, s.row); }
  }

  lemma PlanInvKept(sheet: set<Vault>, w: World, s: Step)
    requires Inv(sheet, w) && PlanInv(sheet, w) && Enabled(sheet, w, s)
    ensures PlanInv(sheet, Apply(w, s, sheet))
  {
    var v := Apply(w, s, sheet);
    LogGrows(sheet, w, s);
    SendIsWarranted(sheet, w, s);
    forall j | 0 <= j < |v.log| ensures Warranted(sheet, v.log[..j], v.log[j]) {
      if j < |w.log| { assert v.log[..j] == w.log[..j] && v.log[j] == w.log[j]; } else { assert v.log[..j] == w.log; }
    }
    if v.process.Up? && !s.Launch? {
      forall row | row in v.process.local ensures PlanKnown(v, row) {
        if !Env(s) && s.row == row {
          if row in w.process.local { assert LocalAgrees(sheet, w, row); }
          KnownByItself(sheet, w, s);
        } else {
          RestStays(sheet, w, s, row);
          KnownByOthers(sheet, w, s, row);
        }
      }
    }
  }

  lemma {:induction false} PlanInvOnRuns(sheet: set<Vault>, w: World, steps: seq<Step>)
    requires Init(w) && Run(sheet, w, steps).Some?
    ensures PlanInv(sheet, Run(sheet, w, steps).value)
  {
    if steps != [] {
      var front, n := steps[..|steps| - 1], |steps| - 1;
      PlanInvOnRuns(sheet, w, front);
      InvOnRuns(sheet, w, front);
      PlanInvKept(sheet, Run(sheet, w, front).value, steps[n]);
    }
  }

  /**
   What the tool schedules and reopens, over every run. A schedule of an unpause the tool sends, mined or reverted, is
   of a vault the sheet asks for, and at the last plan of that round the vault read paused; or the operation was on the
   timelock then and the Safe cancelled it from outside since. What the tool reopens is a vault of the sheet.
   */
  lemma OnlyPausedVaultsOfTheSheet(sheet: set<Vault>, w: World, steps: seq<Step>, j: nat)
    requires Init(w) && Run(sheet, w, steps).Some? && j < |Run(sheet, w, steps).value.log|
    ensures var log := Run(sheet, w, steps).value.log;
            var past, e := log[..j], log[j];
            && ((e.ScheduleMined? && e.seqHeld.Some?) || e.ScheduleReverted? ==>
                  e.id.row.Unpause? ==>
                    && e.id.row.vault in sheet
                    && LastPlan(past, e.id).Some?
                    && (LastPlan(past, e.id).value || CancelMined(e.id, false) in SincePlan(past, e.id)))
            && (e.ExecuteMined? && e.byTool && e.id.row.Unpause? ==> e.id.row.vault in sheet)
  {
    PlanInvOnRuns(sheet, w, steps);
    var log := Run(sheet, w, steps).value.log;
    assert Warranted(sheet, log[..j], log[j]);
  }
}
