/**
 The govern process as the code it is: phases that read the chain, send, and save, and the loops of the
 unpause set over them. The object's world is at all times the last world of a run of the state machine, so
 every theorem about runs holds wherever one of these methods stops. Where the environment keeps still, each
 method says exactly when it goes through.
 */
module GovernRun {
  import opened Basics
  import opened GovernModel
  import opened GovernSafety

  datatype Opened = Live | AlreadyComplete | Refused

  /** The archive number of a cancelled schedule, found by counting up from 1. */
  method FindFresh(g: map<Key, Record>, row: Row, round: nat) returns (k: nat)
    ensures k >= 1 && Cancelled(row, round, k) !in g
    ensures forall j | 1 <= j < k :: Cancelled(row, round, j) in g
    ensures k == FreshFrom(g, row, round, 1)
  {
    k := 1;
    while Cancelled(row, round, k) in g
      invariant k >= 1
      invariant forall j | 1 <= j < k :: Cancelled(row, round, j) in g
      invariant FreshFrom(g, row, round, k) == FreshFrom(g, row, round, 1)
      decreases |CancelledAbove(g, row, round, k)|
    {
      assert Cancelled(row, round, k) in CancelledAbove(g, row, round, k);
      SubsetSizeStrict(CancelledAbove(g, row, round, k + 1), CancelledAbove(g, row, round, k));
      k := k + 1;
    }
  }

  // ---- what a step of one row leaves alone ---------------------------------------------------------

  /** Nothing of the rows other than `row` moved between two worlds of one process. */
  ghost predicate OthersKept(w: World, v: World, row: Row) {
    && w.process.Up? && v.process.Up? && v.process.named == w.process.named
    && (forall r | r != row :: r in v.process.local <==> r in w.process.local)
    && (forall r | r != row && r in w.process.local :: v.process.local[r] == w.process.local[r])
    && (forall r | r != row :: RecordOf(v.disk.govern, r) == RecordOf(w.disk.govern, r))
  }

  lemma StepKeepsOthers(sheet: set<Vault>, w: World, s: Step)
    requires MemoryAgrees(w) && Enabled(sheet, w, s) && !Env(s) && !s.Launch? && Apply(w, s, sheet).process.Up?
    ensures OthersKept(w, Apply(w, s, sheet), s.row)
  {
  }

  function Pauses(w: World): set<nat>
    requires w.process.Up?
  {
    w.process.mem.pauses + w.disk.pauses
  }

  /** The row finds everything that decides its fate as it was. */
  ghost predicate SameFor(w: World, v: World, r: Row) {
    && w.process.Up? && v.process.Up? && v.process.named == w.process.named && v.now == w.now && Pauses(v) == Pauses(w)
    && (r in v.process.local <==> r in w.process.local)
    && (r in w.process.local ==> v.process.local[r] == w.process.local[r])
    && RecordOf(v.process.mem.govern, r) == RecordOf(w.process.mem.govern, r)
    && (forall n: nat :: Stamp(v.timelock, OpId(r, n)) == Stamp(w.timelock, OpId(r, n)))
    && (StillPaused(v, r) <==> StillPaused(w, r))
  }

  ghost predicate OthersSame(w: World, v: World, row: Row) { forall r | r != row :: SameFor(w, v, r) }

  lemma StepKeepsChain(sheet: set<Vault>, w: World, s: Step, r: Row)
    requires Enabled(sheet, w, s) && !Env(s) && !s.Launch? && r != s.row
    requires s.row in w.process.local ==> w.process.local[s.row].id.row == s.row
    ensures var v := Apply(w, s, sheet);
            v.now == w.now && (StillPaused(v, r) <==> StillPaused(w, r)) && forall n: nat ::
              Stamp(v.timelock, OpId(r, n)) == Stamp(w.timelock, OpId(r, n))
  {
  }

  lemma StepKeepsPauses(sheet: set<Vault>, w: World, s: Step)
    requires Enabled(sheet, w, s) && !Env(s) && !s.Launch? && Apply(w, s, sheet).process.Up?
    ensures Pauses(Apply(w, s, sheet)) == Pauses(w)
  {
  }

  lemma StepKeepsSame(sheet: set<Vault>, w: World, s: Step, r: Row)
    requires MemoryAgrees(w) && Enabled(sheet, w, s) && !Env(s) && !s.Launch? && Apply(w, s, sheet).process.Up?
    requires r != s.row
    requires MemoryAgrees(Apply(w, s, sheet)) && OthersKept(w, Apply(w, s, sheet), s.row)
    requires s.row in w.process.local ==> w.process.local[s.row].id.row == s.row
    ensures SameFor(w, Apply(w, s, sheet), r)
  {
    StepKeepsChain(sheet, w, s, r);
    StepKeepsPauses(sheet, w, s);
  }

  lemma SameTrans(w: World, u: World, v: World, row: Row)
    requires OthersSame(w, u, row) && OthersSame(u, v, row)
    ensures OthersSame(w, v, row)
  {
    forall r | r != row ensures SameFor(w, v, r) { assert SameFor(w, u, r) && SameFor(u, v, r); }
  }

  /** The part of the invariant the code relies on for one row. */
  ghost predicate RowKnown(sheet: set<Vault>, w: World, row: Row) {
    && w.now >= 2 && MemoryAgrees(w)
    && (w.process.Up? && row in w.process.local ==> LocalAgrees(sheet, w, row))
    && (w.process.Up? && row.Unpause? && row.vault !in sheet && row !in w.process.local ==>
          Complete(RecordOf(w.disk.govern, row)) || Current(row) !in w.disk.govern)
    && (RecordOf(w.disk.govern, row).executed.Some? && row.Unpause? ==> row.vault in sheet)
    && (row.Unpause? && row.vault in sheet && Complete(RecordOf(w.disk.govern, row)) ==>
          RecordOf(w.disk.govern, row).executed.Some?)
    && (RecordOf(w.disk.govern, row).scheduled.Some? ==>
          RecordOf(w.disk.govern, row).scheduled.value.id == OpId(row, RecordOf(w.disk.govern, row).round))
  }

  lemma RowIsKnown(sheet: set<Vault>, start: World, past: seq<Step>, w: World, row: Row)
    requires Init(start) && Run(sheet, start, past) == Some(w)
    ensures RowKnown(sheet, w, row)
  {
    InvOnRuns(sheet, start, past);
    assert RowBookkeeping(sheet, w.disk.govern, row);
  }

  /** A step of a run is a longer run, and a step of one row leaves the others alone. */
  lemma RunGoesOn(sheet: set<Vault>, start: World, past: seq<Step>, w: World, s: Step)
    requires Init(start) && Run(sheet, start, past) == Some(w) && Enabled(sheet, w, s)
    ensures Run(sheet, start, past + [s]) == Some(Apply(w, s, sheet))
    ensures var v := Apply(w, s, sheet);
            !Env(s) && !s.Launch? && v.process.Up? ==> OthersKept(w, v, s.row) && OthersSame(w, v, s.row)
  {
    assert (past + [s])[..|past + [s]| - 1] == past;
    if !Env(s) && !s.Launch? && Apply(w, s, sheet).process.Up? {
      RowIsKnown(sheet, start, past, w, s.row);
      StepKeepsAll(sheet, w, s);
    }
  }

  lemma StepKeepsAll(sheet: set<Vault>, w: World, s: Step)
    requires !Env(s) && !s.Launch? && RowKnown(sheet, w, s.row) && Enabled(sheet, w, s)
    requires Apply(w, s, sheet).process.Up?
    ensures OthersKept(w, Apply(w, s, sheet), s.row) && OthersSame(w, Apply(w, s, sheet), s.row)
  {
    StepKeepsOthers(sheet, w, s);
    MemoryKept(sheet, w, s);
    forall r | r != s.row ensures SameFor(w, Apply(w, s, sheet), r) { StepKeepsSame(sheet, w, s, r); }
  }

  // ---- what a row left alone does --------------------------------------------------------------------

  /** An operation may be executed or its execution adopted: done and open, or ready and not outranked by a pause. */
  predicate Fit(w: World, row: Row, id: OpId, seqno: nat)
    requires w.process.Up?
  {
    if IsDone(w.timelock, id) then !StillPaused(w, row) else
      Ready(w.timelock, id, w.now) && (row.Unpause? ==> forall p | p in Pauses(w) :: p <= seqno)
  }

  predicate Executable(w: World, row: Row)
    requires w.process.Up? && row in w.process.local
  {
    RecordOf(w.process.mem.govern, row).scheduled.Some? &&
    Fit(w, row, w.process.local[row].id, RecordOf(w.process.mem.govern, row).scheduled.value.seqno)
  }

  /**
   A round goes through: the recorded schedule, or one found on the timelock, is fit; a new one is when there is no
   delay.
   */
  predicate GoesFrom(w: World, row: Row, rec: Record, delay: nat)
    requires w.process.Up?
  {
    var id := OpId(row, rec.round);
    if rec.scheduled.Some? then Fit(w, row, id, rec.scheduled.value.seqno)
    else if Exists(w.timelock, id) then Fit(w, row, id, 0)
    else delay == 0
  }

  predicate Restarts(w: World, row: Row)
    requires w.process.Up?
  {
    var rec := RecordOf(w.process.mem.govern, row);
    w.process.named == Some(row) && !Complete(rec) && rec.scheduled.Some? && !Exists(w.timelock, rec.scheduled.value.id)
  }

  /**
   What a run left alone makes of an unpause row: the row is live when its round is on its way or its vault is paused.
   */
  function Opening(sheet: set<Vault>, w: World, row: Row): Opened
    requires w.process.Up? && row.Unpause?
  {
    var rec := RecordOf(w.process.mem.govern, row);
    var paused := row.vault in w.paused;
    if Complete(rec) then
      if rec.executed.None? || !paused then AlreadyComplete else if w.process.named == Some(row) then Live else Refused
    else if row.vault !in sheet then AlreadyComplete
    else if paused || Exists(w.timelock, OpId(row, rec.round)) || (rec.scheduled.Some? && !Restarts(w, row)) then Live
    else Refused
  }

  /** The record a live row goes on with: the next round, the same round again, or the round it was in. */
  function OpenedRecord(w: World, row: Row): Record
    requires w.process.Up?
  {
    var rec := RecordOf(w.process.mem.govern, row);
    if Complete(rec) then FreshRecord(rec.round + 1) else if Restarts(w, row) then FreshRecord(rec.round) else rec
  }

  predicate Goes(w: World, row: Row, delay: nat)
    requires w.process.Up?
  {
    GoesFrom(w, row, OpenedRecord(w, row), delay)
  }

  /** A row that finds everything as it was has the same fate. */
  lemma SameFate(sheet: set<Vault>, w: World, v: World, r: Row, delay: nat)
    requires SameFor(w, v, r) && RowKnown(sheet, w, r)
    ensures r.Unpause? ==> Opening(sheet, v, r) == Opening(sheet, w, r) && (Goes(v, r, delay) <==> Goes(w, r, delay))
    ensures r in w.process.local ==> (Executable(v, r) <==> Executable(w, r))
  {
    assert r.Unpause? ==> (StillPaused(v, r) <==> r.vault in v.paused) && (StillPaused(w, r) <==> r.vault in w.paused);
    forall n: nat ensures Exists(v.timelock, OpId(r, n)) <==> Exists(w.timelock, OpId(r, n)) {
      assert Stamp(v.timelock, OpId(r, n)) == Stamp(w.timelock, OpId(r, n));
    }
    forall n: nat, q: nat ensures Fit(v, r, OpId(r, n), q) <==> Fit(w, r, OpId(r, n), q) {
      assert Stamp(v.timelock, OpId(r, n)) == Stamp(w.timelock, OpId(r, n));
    }
    if r in w.process.local { assert LocalAgrees(sheet, w, r); }
  }

  /** The row's schedule of this moment, recorded under its reserved number. */
  ghost predicate ScheduledAt(w: World, v: World, row: Row, delay: nat)
    requires w.process.Up? && row in w.process.local && w.process.local[row].at.Reserved?
  {
    && v.process.Up? && row in v.process.local && v.process.local[row].id == w.process.local[row].id
    && v.now == w.now && Pauses(v) == Pauses(w)
    && Stamp(v.timelock, w.process.local[row].id) == w.now + delay
    && RecordOf(v.process.mem.govern, row).scheduled.Some?
    && RecordOf(v.process.mem.govern, row).scheduled.value
       == Scheduled(w.process.local[row].id, w.process.local[row].at.seqno, w.now + delay)
  }

  /** The row is about the same operation, and it is done if it was. */
  ghost predicate DoneAsBefore(w: World, v: World, row: Row) {
    && w.process.Up? && v.process.Up? && row in w.process.local && row in v.process.local &&
      v.process.local[row].id == w.process.local[row].id
    && (IsDone(v.timelock, v.process.local[row].id) <==> IsDone(w.timelock, w.process.local[row].id))
  }

  /** A schedule of this moment is under a number above every pause, so only its delay decides. */
  lemma FreshFits(w: World, v: World, row: Row, delay: nat)
    requires w.now >= 2 && w.process.Up? && row in w.process.local && w.process.local[row].at.Reserved?
    requires ScheduledAt(w, v, row, delay)
    requires forall p | p in Pauses(w) :: p <= w.process.local[row].at.seqno
    ensures Executable(v, row) <==> delay == 0
  {
  }

  lemma ReservedIsHighest(sheet: set<Vault>, w: World, row: Row)
    requires Enabled(sheet, w, Reserve(row))
    ensures var v := Apply(w, Reserve(row), sheet);
            v.process.local[row].at.Reserved? && forall p | p in Pauses(v) :: p <= v.process.local[row].at.seqno
  {
    var merged := Merge(w.process.mem, w.disk);
    assert Pauses(Apply(w, Reserve(row), sheet)) == merged.pauses;
    forall p | p in merged.pauses ensures p <= NextSeq(merged) {
      assert p in merged.pauses + ScheduledSeqs(merged.govern);
    }
  }

  /** A schedule adopted from the timelock counts as number 0. */
  lemma AdoptedFits(sheet: set<Vault>, w: World, row: Row, delay: nat)
    requires RowKnown(sheet, w, row) && Enabled(sheet, w, AdoptSchedule(row))
    ensures var v := Apply(w, AdoptSchedule(row), sheet);
            Executable(v, row) <==> GoesFrom(w, row, RecordOf(w.process.mem.govern, row), delay)
  {
    StepKeepsPauses(sheet, w, AdoptSchedule(row));
    var v := Apply(w, AdoptSchedule(row), sheet);
    assert v.timelock == w.timelock && v.now == w.now && v.paused == w.paused;
    assert LocalAgrees(sheet, w, row);
  }

  lemma RecordedFits(sheet: set<Vault>, w: World, row: Row, delay: nat)
    requires RowKnown(sheet, w, row) && Enabled(sheet, w, UseRecorded(row))
    ensures var v := Apply(w, UseRecorded(row), sheet);
            Executable(v, row) <==> GoesFrom(w, row, RecordOf(w.process.mem.govern, row), delay)
  {
    var v := Apply(w, UseRecorded(row), sheet);
    assert v.timelock == w.timelock && v.now == w.now && v.paused == w.paused && Pauses(v) == Pauses(w);
    assert LocalAgrees(sheet, w, row);
  }

  // ---- the set ---------------------------------------------------------------------------------------

  /** The first `i` rows of a set are scheduled or complete, and no later row has been touched. */
  ghost predicate SetScheduled(w: World, names: seq<Row>, i: nat, live: seq<Row>)
    requires i <= |names|
  {
    && w.process.Up? && Distinct(live)
    && (forall r | r in w.process.local :: r in names[..i])
    && (forall r | r in live :: r in names[..i] && At(w, r, Recorded))
    && (forall j | 0 <= j < i :: names[j] in live || Complete(RecordOf(w.disk.govern, names[j])))
  }

  lemma SetGrows(w: World, v: World, names: seq<Row>, i: nat, live: seq<Row>, added: bool)
    requires i < |names| && Distinct(names) && SetScheduled(w, names, i, live) && OthersKept(w, v, names[i])
    requires if added then At(v, names[i], Recorded) else Complete(RecordOf(v.disk.govern, names[i]))
    ensures SetScheduled(v, names, i + 1, if added then live + [names[i]] else live)
  {
    assert names[i] !in names[..i];
    assert names[..i + 1] == names[..i] + [names[i]];
  }

  /** The first `i` rows of a list are complete on disk, the rest wait for their turn, and no other record moved. */
  ghost predicate ExecutedTo(w: World, v: World, live: seq<Row>, i: nat) {
    && (forall j | i <= j < |live| :: At(v, live[j], Waited))
    && (forall j | 0 <= j < i && j < |live| :: Complete(RecordOf(v.disk.govern, live[j])))
    && (forall r | r !in live :: RecordOf(v.disk.govern, r) == RecordOf(w.disk.govern, r))
  }

  lemma ExecutedGrows(w: World, u: World, v: World, live: seq<Row>, i: nat)
    requires i < |live| && Distinct(live) && ExecutedTo(w, u, live, i) && OthersKept(u, v, live[i])
    requires Complete(RecordOf(v.disk.govern, live[i]))
    ensures ExecutedTo(w, v, live, i + 1)
  {
    forall j | i + 1 <= j < |live| ensures At(v, live[j], Waited) {
      assert At(u, live[j], Waited) && live[j] != live[i];
    }
  }

  predicate AllUnpause(names: seq<Row>) { forall i | 0 <= i < |names| :: names[i].Unpause? }

  /** A row the sheet asks for is executed and its vault reads open. */
  predicate Reopened(sheet: set<Vault>, w: World, row: Row) {
    && w.process.Up?
    && (row.Unpause? && row.vault in sheet ==>
          RecordOf(w.process.mem.govern, row).executed.Some? && !StillPaused(w, row))
  }

  /** The rows outside the list that were reopened still are. */
  ghost predicate RestReopened(sheet: set<Vault>, w: World, v: World, live: seq<Row>) {
    forall r | r !in live && Reopened(sheet, w, r) :: Reopened(sheet, v, r)
  }

  lemma RestStaysReopened(sheet: set<Vault>, w: World, u: World, v: World, live: seq<Row>, i: nat)
    requires i < |live| && RestReopened(sheet, w, u, live) && OthersSame(u, v, live[i])
    ensures RestReopened(sheet, w, v, live)
  {
    forall r | r !in live && Reopened(sheet, w, r) ensures Reopened(sheet, v, r) {
      assert r != live[i] && SameFor(u, v, r) && Reopened(sheet, u, r);
    }
  }

  /** The first `i` rows of the list are reopened. */
  ghost predicate ReopenedTo(sheet: set<Vault>, v: World, live: seq<Row>, i: nat) {
    forall j | 0 <= j < i && j < |live| :: Reopened(sheet, v, live[j])
  }

  lemma ReopenedGrows(sheet: set<Vault>, u: World, v: World, live: seq<Row>, i: nat)
    requires i < |live| && Distinct(live) && ReopenedTo(sheet, u, live, i) && OthersSame(u, v, live[i])
    requires Reopened(sheet, v, live[i])
    ensures ReopenedTo(sheet, v, live, i + 1)
  {
    forall j | 0 <= j < i ensures Reopened(sheet, v, live[j]) {
      assert live[j] != live[i] && SameFor(u, v, live[j]) && Reopened(sheet, u, live[j]);
    }
  }

  /** The rows from `i` on find everything as it was. */
  ghost predicate RestSame(w: World, v: World, names: seq<Row>, i: nat) {
    forall j | i <= j < |names| :: SameFor(w, v, names[j])
  }

  lemma RestStaysSame(w: World, u: World, v: World, names: seq<Row>, i: nat)
    requires i < |names| && Distinct(names) && RestSame(w, u, names, i) && OthersSame(u, v, names[i])
    ensures RestSame(w, v, names, i + 1)
  {
    forall j | i + 1 <= j < |names| ensures SameFor(w, v, names[j]) {
      assert names[i] != names[j];
      assert SameFor(w, u, names[j]) && SameFor(u, v, names[j]);
    }
  }

  /** Left alone, the first `i` rows of a set opened as the first world decides, and the live ones go as it decides. */
  ghost predicate SetFate(sheet: set<Vault>, w: World, v: World, names: seq<Row>, i: nat, live: seq<Row>, delay: nat)
    requires i <= |names| && AllUnpause(names) && w.process.Up? && v.process.Up?
  {
    && (forall j | 0 <= j < i ::
      !Opening(sheet, w, names[j]).Refused? && (names[j] in live <==> Opening(sheet, w, names[j]).Live?))
    && (forall r | r in live :: r in names[..i] && r in v.process.local && (Executable(v, r) <==> Goes(w, r, delay)))
    && RestSame(w, v, names, i)
    && (forall j | 0 <= j < i :: names[j] in live || Reopened(sheet, v, names[j]))
  }

  lemma SetFateGrows(sheet: set<Vault>, w: World, u: World, v: World, names: seq<Row>, i: nat, live: seq<Row>,
                     delay: nat)
    requires i < |names| && Distinct(names) && AllUnpause(names) && w.process.Up? && u.process.Up? && v.process.Up?
    requires SetFate(sheet, w, u, names, i, live, delay) && OthersSame(u, v, names[i])
    requires forall r :: RowKnown(sheet, w, r) && RowKnown(sheet, u, r)
    requires var o := Opening(sheet, u, names[i]);
             !o.Refused? && (o.Live? ==>
               names[i] in v.process.local && (Executable(v, names[i]) <==> Goes(u, names[i], delay)))
    requires Opening(sheet, u, names[i]).AlreadyComplete? ==> Reopened(sheet, v, names[i])
    ensures SetFate(sheet, w, v, names, i + 1, if Opening(sheet, w, names[i]).Live? then live + [names[i]]
      else live, delay)
  {
    var row := names[i];
    assert SameFor(w, u, row);
    SameFate(sheet, w, u, row, delay);
    RestStaysSame(w, u, v, names, i);
    assert row !in names[..i] && names[..i + 1] == names[..i] + [row];
    forall j | 0 <= j < i && names[j] !in live ensures Reopened(sheet, v, names[j]) {
      assert names[j] != row && SameFor(u, v, names[j]) && Reopened(sheet, u, names[j]);
    }
    forall r | r in live ensures r in v.process.local && (Executable(v, r) <==> Goes(w, r, delay)) {
      assert r != row && SameFor(u, v, r);
      SameFate(sheet, u, v, r, delay);
    }
  }

  /** The first `i` rows of a list may be executed. */
  predicate AllFit(w: World, live: seq<Row>, i: nat)
    requires i <= |live|
  {
    w.process.Up? && forall j | 0 <= j < i :: live[j] in w.process.local && Executable(w, live[j])
  }

  predicate RowGoes(sheet: set<Vault>, w: World, row: Row, delay: nat)
    requires w.process.Up? && row.Unpause?
  {
    var o := Opening(sheet, w, row);
    !o.Refused? && (o.Live? ==> Goes(w, row, delay))
  }

  /** The live rows of a set are fit exactly when every row of it goes. */
  lemma SetFateIsFit(sheet: set<Vault>, w: World, v: World, names: seq<Row>, live: seq<Row>, delay: nat)
    requires AllUnpause(names) && w.process.Up? && v.process.Up? && SetFate(sheet, w, v, names, |names|, live, delay)
    ensures AllFit(v, live, |live|) <==> forall i | 0 <= i < |names| :: RowGoes(sheet, w, names[i], delay)
  {
    if AllFit(v, live, |live|) {
      forall i | 0 <= i < |names| ensures RowGoes(sheet, w, names[i], delay) {
        if names[i] in live {
          var j :| 0 <= j < |live| && live[j] == names[i];
          assert Executable(v, live[j]);
        }
      }
    }
    if forall i | 0 <= i < |names| :: RowGoes(sheet, w, names[i], delay) {
      forall j | 0 <= j < |live| ensures live[j] in v.process.local && Executable(v, live[j]) {
        assert live[j] in live && live[j] in names[..|names|];
        var i :| 0 <= i < |names| && names[i] == live[j];
        assert RowGoes(sheet, w, names[i], delay);
      }
    }
  }

  /** Nothing on chain moved, and no pause was seen. */
  ghost predicate ChainSame(w: World, v: World) {
    && w.process.Up? && v.process.Up? && v.timelock == w.timelock && v.paused == w.paused && v.now == w.now
    && Pauses(v) == Pauses(w) && v.process.named == w.process.named
  }

  /** The first `i` rows of a list are in one phase and the rest in another, each as fit as in the first world. */
  ghost predicate Advanced(w: World, v: World, live: seq<Row>, i: nat, behind: Phase, ahead: Phase) {
    && w.process.Up? && v.process.Up?
    && (forall j | 0 <= j < |live| :: live[j] in w.process.local && At(v, live[j], if j < i then behind else ahead))
    && (forall j | 0 <= j < |live| :: Executable(v, live[j]) <==> Executable(w, live[j]))
  }

  lemma AdvancedGrows(sheet: set<Vault>, w: World, u: World, v: World, live: seq<Row>, i: nat, behind: Phase,
                      ahead: Phase)
    requires i < |live| && Distinct(live) && Advanced(w, u, live, i, behind, ahead) && OthersSame(u, v, live[i])
    requires v.process.Up?
    requires forall r :: RowKnown(sheet, u, r)
    requires At(v, live[i], behind) && (Executable(v, live[i]) <==> Executable(u, live[i]))
    ensures Advanced(w, v, live, i + 1, behind, ahead)
  {
    forall j | 0 <= j < |live| && j != i ensures At(v, live[j], if j < i + 1 then behind else ahead) &&
      (Executable(v, live[j]) <==> Executable(w, live[j])) {
      assert live[j] != live[i];
      assert SameFor(u, v, live[j]) && At(u, live[j], if j < i then behind else ahead);
      SameFate(sheet, u, v, live[j], 0);
    }
  }

  /** A pending operation that a recorded pause outranks. */
  predicate Stale(w: World, row: Row)
    requires w.process.Up? && row in w.process.local
  {
    PausedSince(w, row) && Pending(w.timelock, w.process.local[row].id)
  }

  /** What the execute phase looks at. */
  lemma ExecutableIs(w: World, row: Row)
    requires w.process.Up? && row in w.process.local && RecordOf(w.process.mem.govern, row).scheduled.Some?
    ensures Executable(w, row) <==>
            var id := w.process.local[row].id;
            if IsDone(w.timelock, id) then !StillPaused(w, row)
              else Ready(w.timelock, id, w.now) && (row.Unpause? ==> !PausedSince(w, row))
  {
    assert forall p :: p in Pauses(w) <==> p in w.process.mem.pauses + w.disk.pauses;
  }

  lemma WaitFits(sheet: set<Vault>, w: World, row: Row)
    requires RowKnown(sheet, w, row) && Enabled(sheet, w, FinishWait(row))
    ensures Executable(Apply(w, FinishWait(row), sheet), row) <==> Executable(w, row)
  {
    var v := Apply(w, FinishWait(row), sheet);
    assert LocalAgrees(sheet, w, row);
    assert v.timelock == w.timelock && v.now == w.now && v.paused == w.paused && Pauses(v) == Pauses(w);
  }

  class GovernProcess {
    const sheet: set<Vault>
    ghost const start: World
    var world: World
    /** What the environment does at each point where the process waits for an answer. */
    var script: seq<seq<Step>>
    ghost var past: seq<Step>

    ghost predicate Valid()
      reads this
    {
      Init(start) && Run(sheet, start, past) == Some(world)
    }

    constructor (sheet: set<Vault>, w: World, script: seq<seq<Step>>)
      requires Init(w)
      ensures Valid() && this.sheet == sheet && world == w && this.script == script
    {
      this.sheet, start, world, this.script, past := sheet, w, w, script, [];
    }

    method Take(s: Step)
      requires Valid() && Enabled(sheet, world, s)
      modifies this`world, this`past
      ensures Valid() && world == Apply(old(world), s, sheet) && past == old(past) + [s]
      ensures !Env(s) && !s.Launch? && world.process.Up? ==>
        OthersKept(old(world), world, s.row) && OthersSame(old(world), world, s.row)
    {
      RunGoesOn(sheet, start, past, world, s);
      world := Apply(world, s, sheet);
      past := past + [s];
    }

    /** The rows' records belong to the process: the environment moves everything else. */
    ghost predicate OwnPartKept(w: World)
      reads this
    {
      && world.disk.govern == w.disk.govern
      && (world.process.Up? ==> world.process == w.process)
      && (w.process.Down? ==> world.process.Down?)
      && (forall id | IsDone(w.timelock, id) :: IsDone(world.timelock, id))
    }

    method Await()
      requires Valid()
      modifies this
      ensures Valid() && OwnPartKept(old(world)) && old(past) <= past
      ensures old(script) == [] ==> world == old(world) && script == []
    {
      if script == [] { return; }
      var actions := script[0];
      script := script[1..];
      for i := 0 to |actions|
        invariant Valid() && OwnPartKept(old(world)) && old(past) <= past
      {
        if Env(actions[i]) && Enabled(sheet, world, actions[i]) {
          Take(actions[i]);
        }
      }
    }

    /** A refusal: the process ends with what is on disk. */
    method Refuse()
      requires Valid() && world.process.Up?
      modifies this`world, this`past
      ensures Valid() && world == old(world).(process := Down) && old(past) <= past
    {
      Take(Stop);
    }

    // ---- phase 1 ---------------------------------------------------------------------------------------

    /** The sending half of phase 1: the number is reserved and on disk before the Safe transaction goes out. */
    method SendAndRecordSchedule(row: Row, delay: nat) returns (ok: bool)
      requires Valid() && Enabled(sheet, world, Reserve(row))
      modifies this
      ensures Valid() && old(past) <= past && ok == world.process.Up?
      ensures ok ==> At(world, row, Recorded) && OthersKept(old(world), world, row)
      ensures old(script) == [] ==>
        ok && script == [] && OthersSame(old(world), world, row) && (Executable(world, row) <==> delay == 0)
      ensures old(script) == [] ==> DoneAsBefore(old(world), world, row)
    {
      RowIsKnown(sheet, start, past, world, row);
      ReservedIsHighest(sheet, world, row);
      Take(Reserve(row));
      ghost var reserved := world;
      Await();
      if world.process.Down? { return false; }
      ok := SendReserved(row, delay);
      if old(script) == [] {
        SameTrans(old(world), reserved, world, row);
        FreshFits(reserved, world, row, delay);
      }
    }

    /** The send under a reserved number, and the record of it. A stop in between leaves the operation to be adopted. */
    method SendReserved(row: Row, delay: nat) returns (ok: bool)
      requires Valid() && Enabled(sheet, world, SendSchedule(row, delay))
      modifies this
      ensures Valid() && old(past) <= past && ok == world.process.Up?
      ensures ok ==> At(world, row, Recorded) && OthersKept(old(world), world, row)
      ensures old(script) == [] ==> script == [] && (ok <==>
        !Exists(old(world).timelock, old(world).process.local[row].id))
      ensures old(script) == [] && ok ==>
        OthersSame(old(world), world, row) && ScheduledAt(old(world), world, row, delay)
    {
      RowIsKnown(sheet, start, past, world, row);
      Take(SendSchedule(row, delay));
      if world.process.Down? { return false; }
      ghost var sent := world;
      Await();
      if world.process.Down? { return false; }
      Take(RecordSchedule(row));
      if old(script) == [] { SameTrans(old(world), sent, world, row); }
      return true;
    }

    /** Phase 1 of a round: use the recorded schedule, adopt one that is on the timelock, or send one. */
    method SchedulePhase(row: Row, delay: nat) returns (ok: bool)
      requires Valid() && At(world, row, Planned)
      modifies this
      ensures Valid() && old(past) <= past && ok == world.process.Up?
      ensures ok ==> At(world, row, Recorded) && OthersKept(old(world), world, row)
      ensures old(script) == [] ==>
        ok && script == [] && OthersSame(old(world), world, row) && DoneAsBefore(old(world), world, row)
      ensures old(script) == [] ==> (Executable(world, row) <==>
        GoesFrom(old(world), row, RecordOf(old(world).process.mem.govern, row), delay))
    {
      RowIsKnown(sheet, start, past, world, row);
      if RecordOf(world.process.mem.govern, row).scheduled.Some? {
        RecordedFits(sheet, world, row, delay);
        Take(UseRecorded(row));
        return true;
      }
      Await();
      if world.process.Down? { return false; }
      ok := AdoptOrSend(row, delay);
    }

    /** An unrecorded round: adopt the operation found on the timelock, or send its schedule. */
    method AdoptOrSend(row: Row, delay: nat) returns (ok: bool)
      requires Valid() && At(world, row, Planned) && RecordOf(world.process.mem.govern, row).scheduled.None?
      modifies this
      ensures Valid() && old(past) <= past && ok == world.process.Up?
      ensures ok ==> At(world, row, Recorded) && OthersKept(old(world), world, row)
      ensures old(script) == [] ==>
        ok && script == [] && OthersSame(old(world), world, row) && DoneAsBefore(old(world), world, row)
      ensures old(script) == [] ==> (Executable(world, row) <==>
        GoesFrom(old(world), row, RecordOf(old(world).process.mem.govern, row), delay))
    {
      RowIsKnown(sheet, start, past, world, row);
      if Exists(world.timelock, world.process.local[row].id) {
        AdoptedFits(sheet, world, row, delay);
        Take(AdoptSchedule(row));
        return true;
      }
      ok := SendAndRecordSchedule(row, delay);
    }

    // ---- phase 2 ---------------------------------------------------------------------------------------

    /** The end of the wait for one row: it goes on once its operation is ready or done. */
    method WaitRow(row: Row) returns (ok: bool)
      requires Valid() && At(world, row, Recorded) && !row.CancelRow?
      modifies this`world, this`past
      ensures Valid() && old(past) <= past && ok == world.process.Up?
      ensures ok <==> old(Ready(world.timelock, world.process.local[row].id, world.now) ||
        IsDone(world.timelock, world.process.local[row].id))
      ensures ok ==> At(world, row, Waited) && OthersKept(old(world), world, row) && OthersSame(old(world), world, row)
      ensures ok ==> world.disk == old(world.disk) && (Executable(world, row) <==> Executable(old(world), row))
      ensures Executable(old(world), row) ==> ok
    {
      var id := world.process.local[row].id;
      if !Ready(world.timelock, id, world.now) && !IsDone(world.timelock, id) {
        Refuse();
        return false;
      }
      RowIsKnown(sheet, start, past, world, row);
      WaitFits(sheet, world, row);
      Take(FinishWait(row));
      return true;
    }

    /** The last half of phase 2: read the vault back and record. */
    method ReadBackAndRecord(row: Row) returns (ok: bool)
      requires Valid() && !row.CancelRow? && world.process.Up? && row in world.process.local
      requires world.process.local[row].at == ExecuteSent || world.process.local[row].at == Waited
      requires IsDone(world.timelock, world.process.local[row].id)
      modifies this`world, this`past
      ensures Valid() && old(past) <= past && ok == world.process.Up?
      ensures ok ==> OthersKept(old(world), world, row) && OthersSame(old(world), world, row)
      ensures ok ==> RecordOf(world.disk.govern, row).executed == Some(old(world.process.local[row].id))
      ensures ok ==> Reopened(sheet, world, row)
      ensures ok <==> !StillPaused(old(world), row)
    {
      if StillPaused(world, row) {
        Refuse();
        return false;
      }
      RowIsKnown(sheet, start, past, world, row);
      Take(RecordExecute(row));
      return true;
    }

    /** Phase 2 of an executing round: refuse a stale unpause, execute or adopt the execution, read back, record. */
    method ExecutePhase(row: Row) returns (ok: bool)
      requires Valid() && At(world, row, Waited) && !row.CancelRow?
      modifies this
      ensures Valid() && old(past) <= past && ok == world.process.Up?
      ensures ok ==> Reopened(sheet, world, row)
      ensures ok ==> OthersKept(old(world), world, row) && RecordOf(world.disk.govern, row).executed.Some?
      // left alone, the phase goes through exactly when the operation may be executed or its execution adopted
      ensures old(script) == [] ==>
        script == [] && (ok <==> Executable(old(world), row)) && (ok ==> OthersSame(old(world), world, row))
    {
      RowIsKnown(sheet, start, past, world, row);
      ExecutableIs(world, row);
      Await();
      if world.process.Down? { return false; }
      if row.Unpause? && PausedSince(world, row) && Pending(world.timelock, world.process.local[row].id) {
        Refuse();
        return false;
      }
      if IsDone(world.timelock, world.process.local[row].id) {
        ok := ReadBackAndRecord(row);
      } else {
        ok := SendAndReadBack(row);
      }
    }

    /** The send of an execute, and what follows it. A stop in between leaves the execution to be adopted. */
    method SendAndReadBack(row: Row) returns (ok: bool)
      requires Valid() && At(world, row, Waited) && !row.CancelRow?
      requires !IsDone(world.timelock, world.process.local[row].id)
      requires row.Unpause? ==> !(PausedSince(world, row) && Pending(world.timelock, world.process.local[row].id))
      modifies this
      ensures Valid() && old(past) <= past && ok == world.process.Up?
      ensures ok ==> Reopened(sheet, world, row)
      ensures ok ==> OthersKept(old(world), world, row) && RecordOf(world.disk.govern, row).executed.Some?
      ensures old(script) == [] ==> script == [] && (ok <==>
        Ready(old(world).timelock, old(world).process.local[row].id, old(world).now))
      ensures old(script) == [] && ok ==> OthersSame(old(world), world, row)
    {
      ok := ClearAndSend(row);
      if !ok { return; }
      ghost var sent := world;
      ok := AfterSend(row);
      if old(script) == [] && ok { SameTrans(old(world), sent, world, row); }
    }

    /** The last read and the send: mined exactly when the operation is ready. */
    method ClearAndSend(row: Row) returns (ok: bool)
      requires Valid() && At(world, row, Waited) && !row.CancelRow?
      requires !IsDone(world.timelock, world.process.local[row].id)
      requires row.Unpause? ==> !(PausedSince(world, row) && Pending(world.timelock, world.process.local[row].id))
      modifies this`world, this`past
      ensures Valid() && old(past) <= past && ok == world.process.Up?
      ensures ok <==> Ready(old(world).timelock, old(world).process.local[row].id, old(world).now)
      ensures ok ==>
        At(world, row, ExecuteSent) && IsDone(world.timelock, world.process.local[row].id) && !StillPaused(world, row)
      ensures ok ==> OthersKept(old(world), world, row) && OthersSame(old(world), world, row)
    {
      RowIsKnown(sheet, start, past, world, row);
      Take(ReadNotDone(row));
      ghost var read := world;
      Take(SendExecute(row));
      if world.process.Down? { return false; }
      SameTrans(old(world), read, world, row);
      return true;
    }

    /** After an execute is mined: the read-back and the record. */
    method AfterSend(row: Row) returns (ok: bool)
      requires Valid() && At(world, row, ExecuteSent) && !row.CancelRow?
      requires IsDone(world.timelock, world.process.local[row].id)
      modifies this
      ensures Valid() && old(past) <= past && ok == world.process.Up?
      ensures ok ==> Reopened(sheet, world, row)
      ensures ok ==> OthersKept(old(world), world, row) && RecordOf(world.disk.govern, row).executed.Some?
      ensures old(script) == [] ==>
        script == [] && (ok <==> !StillPaused(old(world), row)) && (ok ==> OthersSame(old(world), world, row))
    {
      Await();
      if world.process.Down? { return false; }
      ok := ReadBackAndRecord(row);
    }

    /** Phase 2 of the cancel row: the Safe cancels the operation, or finds it gone already. */
    method CancelPhase(row: Row) returns (ok: bool)
      requires Valid() && At(world, row, Recorded) && row.CancelRow?
      modifies this
      ensures Valid() && old(past) <= past && ok == world.process.Up?
      ensures ok ==> OthersKept(old(world), world, row)
      ensures ok ==> RecordOf(world.disk.govern, row).cancelled == Some(old(world.process.local[row].id))
      ensures old(script) == [] ==> (ok <==> !IsDone(old(world).timelock, old(world).process.local[row].id))
    {
      Await();
      if world.process.Down? { return false; }
      var id := world.process.local[row].id;
      if Exists(world.timelock, id) {
        if !Pending(world.timelock, id) {
          Refuse();
          return false;
        }
        RowIsKnown(sheet, start, past, world, row);
        Take(SendCancel(row));
        Await();
        if world.process.Down? { return false; }
      }
      ok := RecordGone(row);
    }

    /** The record of a cancel, once the operation reads absent. */
    method RecordGone(row: Row) returns (ok: bool)
      requires Valid() && row.CancelRow? && world.process.Up? && row in world.process.local
      requires world.process.local[row].at == CancelSent || world.process.local[row].at == Recorded
      modifies this`world, this`past
      ensures Valid() && old(past) <= past && ok == world.process.Up?
      ensures ok ==> OthersKept(old(world), world, row)
      ensures ok ==> RecordOf(world.disk.govern, row).cancelled == Some(old(world.process.local[row].id))
      ensures ok <==> !Exists(old(world).timelock, old(world).process.local[row].id)
    {
      if Exists(world.timelock, world.process.local[row].id) {
        Refuse();
        return false;
      }
      RowIsKnown(sheet, start, past, world, row);
      Take(RecordCancel(row));
      return true;
    }

    /** A row with one round of its own: schedule, then cancel, or wait and execute. */
    method RunRound(row: Row, delay: nat) returns (ok: bool)
      requires Valid() && world.process.Up? && !row.Unpause? && row !in world.process.local
      requires !Complete(RecordOf(world.process.mem.govern, row))
      modifies this
      ensures Valid() && old(past) <= past && ok == world.process.Up?
      ensures ok ==> OthersKept(old(world), world, row) && Complete(RecordOf(world.disk.govern, row))
      // left alone, a cancel goes through unless the operation is done, any other round exactly when it is fit
      ensures old(script) == [] ==>
        (ok <==> old(var rec := RecordOf(world.process.mem.govern, row);
                     if row.CancelRow? then !IsDone(world.timelock, OpId(row, rec.round))
                       else GoesFrom(world, row, rec, delay)))
    {
      ghost var rec := RecordOf(world.process.mem.govern, row);
      Take(Plan(row));
      ghost var planned := world;
      assert GoesFrom(planned, row, rec, delay) <==> GoesFrom(old(world), row, rec, delay);
      ok := SchedulePhase(row, delay);
      if ok { ok := FinishRound(row); }
    }

    /** The rest of such a round, once its schedule is recorded. */
    method FinishRound(row: Row) returns (ok: bool)
      requires Valid() && At(world, row, Recorded)
      modifies this
      ensures Valid() && old(past) <= past && ok == world.process.Up?
      ensures ok ==> OthersKept(old(world), world, row) && Complete(RecordOf(world.disk.govern, row))
      ensures old(script) == [] ==>
        (ok <==> if row.CancelRow? then !IsDone(old(world).timelock, old(world).process.local[row].id)
          else Executable(old(world), row))
    {
      if row.CancelRow? {
        ok := CancelPhase(row);
        return;
      }
      Await();
      if world.process.Down? { return false; }
      ok := WaitRow(row);
      if ok { ok := ExecutePhase(row); }
    }

    // ---- the unpause set -------------------------------------------------------------------------------

    /** A named row whose schedule was cancelled through the Safe: archive it, and the same round starts again. */
    method ArchiveIfCancelled(row: Row)
      requires Valid() && world.process.Up? && row.Unpause? && row !in world.process.local
      modifies this`world, this`past
      ensures Valid() && old(past) <= past && ChainSame(old(world), world) && row !in world.process.local
      ensures OthersKept(old(world), world, row) && OthersSame(old(world), world, row)
      ensures RecordOf(world.process.mem.govern, row) == old(
        var rec := RecordOf(world.process.mem.govern, row);
        if world.process.named == Some(row) && rec.scheduled.Some? && rec.executed.None? && rec.cancelled.None? &&
          !rec.skipped && Stamp(world.timelock, rec.scheduled.value.id) == 0
        then FreshRecord(rec.round) else rec)
    {
      var rec := RecordOf(world.process.mem.govern, row);
      if world.process.named == Some(row) && rec.scheduled.Some? && !Complete(rec) &&
        !Exists(world.timelock, rec.scheduled.value.id) {
        var k := FindFresh(world.process.mem.govern, row, rec.round);
        StepKeepsPauses(sheet, world, ArchiveCancelled(row, k));
        Take(ArchiveCancelled(row, k));
      }
    }

    /** An executed row whose vault reads paused again gets a new round, if this run named it. */
    method ReopenIfPaused(row: Row) returns (o: Opened)
      requires Valid() && world.process.Up? && row.Unpause? && row !in world.process.local
      modifies this`world, this`past
      ensures Valid() && old(past) <= past && (o.Refused? <==> world.process.Down?)
      ensures !o.Refused? ==>
        OthersKept(old(world), world, row) && OthersSame(old(world), world, row) && ChainSame(old(world), world)
      ensures o.AlreadyComplete? ==> Complete(RecordOf(world.disk.govern, row))
      ensures o.AlreadyComplete? ==> Reopened(sheet, world, row)
      ensures o.Live? ==> row !in world.process.local
      ensures o == old(var rec := RecordOf(world.process.mem.govern, row);
                       if !Complete(rec) then Live
                       else if rec.executed.None? || row.vault !in world.paused then AlreadyComplete
                       else if world.process.named == Some(row) then Live else Refused)
      ensures o.Live? ==> RecordOf(world.process.mem.govern, row) == old(
        var rec := RecordOf(world.process.mem.govern, row);
        if Complete(rec) then FreshRecord(rec.round + 1) else rec)
    {
      RowIsKnown(sheet, start, past, world, row);
      var rec := RecordOf(world.process.mem.govern, row);
      if !Complete(rec) { return Live; }
      if rec.executed.None? || row.vault !in world.paused { return AlreadyComplete; }
      if world.process.named != Some(row) {
        Refuse();
        return Refused;
      }
      StepKeepsPauses(sheet, world, OpenRound(row));
      Take(OpenRound(row));
      return Live;
    }

    /** The plan of a row: skipped when the sheet does not ask for it, refused when there is nothing to reopen. */
    method PlanOrSkip(row: Row) returns (o: Opened)
      requires Valid() && world.process.Up? && row.Unpause? && row !in world.process.local
      requires !Complete(RecordOf(world.process.mem.govern, row))
      modifies this`world, this`past
      ensures Valid() && old(past) <= past && (o.Refused? <==> world.process.Down?)
      ensures !o.Refused? ==>
        OthersKept(old(world), world, row) && OthersSame(old(world), world, row) && ChainSame(old(world), world)
      ensures o.Live? ==>
        && At(world, row, Planned)
        && RecordOf(world.process.mem.govern, row) == old(RecordOf(world.process.mem.govern, row))
      ensures o.AlreadyComplete? ==> RecordOf(world.disk.govern, row) == Record(1, true, None, None, None)
      ensures o == if row.vault !in sheet then AlreadyComplete
                   else if old(RecordOf(world.process.mem.govern, row).scheduled.Some? || row.vault in world.paused ||
                     Stamp(world.timelock, OpId(row, RecordOf(world.process.mem.govern, row).round)) > 0)
                   then Live else Refused
    {
      if row.vault !in sheet {
        RowIsKnown(sheet, start, past, world, row);
        StepKeepsPauses(sheet, world, SkipRow(row));
        Take(SkipRow(row));
        return AlreadyComplete;
      }
      if !Enabled(sheet, world, Plan(row)) {
        // nothing of this round is on the timelock and the vault is already open
        Refuse();
        return Refused;
      }
      Take(Plan(row));
      return Live;
    }

    /** The first part of the set's loop for one row: archive a cancelled schedule, open a new round, skip or plan. */
    method OpenNow(row: Row) returns (o: Opened)
      requires Valid() && world.process.Up? && row.Unpause? && row !in world.process.local
      modifies this`world, this`past
      ensures Valid() && old(past) <= past && (o.Refused? <==> world.process.Down?)
      ensures !o.Refused? ==>
        OthersKept(old(world), world, row) && OthersSame(old(world), world, row) && ChainSame(old(world), world)
      ensures o.Live? ==>
        At(world, row, Planned) && RecordOf(world.process.mem.govern, row) == OpenedRecord(old(world), row)
      ensures o.AlreadyComplete? ==> Complete(RecordOf(world.disk.govern, row))
      ensures o.AlreadyComplete? ==> Reopened(sheet, world, row)
      ensures o == Opening(sheet, old(world), row)
    {
      RowIsKnown(sheet, start, past, world, row);
      o := SettleRound(row);
      if !o.Live? { return; }
      ghost var settled := world;
      o := PlanOrSkip(row);
      if !o.Refused? { SameTrans(old(world), settled, world, row); }
    }

    /** Which round the row is in: a cancelled schedule archived, then an executed round reopened. */
    method SettleRound(row: Row) returns (o: Opened)
      requires Valid() && world.process.Up? && row.Unpause? && row !in world.process.local
      modifies this`world, this`past
      ensures Valid() && old(past) <= past && (o.Refused? <==> world.process.Down?)
      ensures !o.Refused? ==>
        OthersKept(old(world), world, row) && OthersSame(old(world), world, row) && ChainSame(old(world), world)
      ensures o.AlreadyComplete? ==> Complete(RecordOf(world.disk.govern, row))
      ensures o.AlreadyComplete? ==> Reopened(sheet, world, row)
      ensures o.Live? ==>
        row !in world.process.local && RecordOf(world.process.mem.govern, row) == OpenedRecord(old(world), row)
      ensures o == old(var rec := RecordOf(world.process.mem.govern, row);
                       if !Complete(rec) then Live
                       else if rec.executed.None? || row.vault !in world.paused then AlreadyComplete
                       else if world.process.named == Some(row) then Live else Refused)
    {
      ArchiveIfCancelled(row);
      ghost var archived := world;
      o := ReopenIfPaused(row);
      if !o.Refused? { SameTrans(old(world), archived, world, row); }
    }

    /** One row of the set: opened and, unless it is complete, scheduled. */
    method ScheduleRow(row: Row, delay: nat) returns (o: Opened)
      requires Valid() && world.process.Up? && row.Unpause? && row !in world.process.local
      modifies this
      ensures Valid() && old(past) <= past && (o.Refused? <==> world.process.Down?)
      ensures !o.Refused? ==> OthersKept(old(world), world, row)
      ensures o.Live? ==> At(world, row, Recorded)
      ensures o.AlreadyComplete? ==> Complete(RecordOf(world.disk.govern, row))
      ensures o.AlreadyComplete? ==> Reopened(sheet, world, row)
      // left alone, the row opens and goes as the world at the call decides
      ensures old(script) == [] ==> script == [] && o == Opening(sheet, old(world), row)
      ensures old(script) == [] && !o.Refused? ==> OthersSame(old(world), world, row)
      ensures old(script) == [] && o.Live? ==> (Executable(world, row) <==> Goes(old(world), row, delay))
    {
      Await();
      if world.process.Down? { return Refused; }
      RowIsKnown(sheet, start, past, world, row);
      o := OpenNow(row);
      if !o.Live? { return; }
      ghost var planned := world;
      var ok := SchedulePhase(row, delay);
      if !ok { return Refused; }
      if old(script) == [] { SameTrans(old(world), planned, world, row); }
    }

    /** Every row opened and scheduled in one sitting. `live` are the rows with an operation to wait for. */
    method ScheduleSet(names: seq<Row>, delay: nat) returns (ok: bool, live: seq<Row>)
      requires Valid() && world.process.Up? && world.process.local == map[] && Distinct(names) && AllUnpause(names)
      modifies this
      ensures Valid() && old(past) <= past && ok == world.process.Up?
      ensures ok ==> SetScheduled(world, names, |names|, live)
      // left alone, it goes through when no row is refused, and the live rows are those that open
      ensures old(script) == [] ==> script == [] && (ok <==>
        forall j | 0 <= j < |names| :: !Opening(sheet, old(world), names[j]).Refused?)
      ensures old(script) == [] && ok ==> SetFate(sheet, old(world), world, names, |names|, live, delay)
    {
      live := [];
      for i := 0 to |names|
        invariant Valid() && old(past) <= past && SetScheduled(world, names, i, live)
        invariant old(script) == [] ==> script == [] && SetFate(sheet, old(world), world, names, i, live, delay)
      {
        assert names[i] !in names[..i];
        ghost var before := world;
        if old(script) == [] {
          forall r ensures RowKnown(sheet, old(world), r) { RowIsKnown(sheet, start, old(past), old(world), r); }
          forall r ensures RowKnown(sheet, before, r) { RowIsKnown(sheet, start, past, before, r); }
          SameFate(sheet, old(world), before, names[i], delay);
        }
        var o := ScheduleRow(names[i], delay);
        if o.Refused? { return false, live; }
        SetGrows(before, world, names, i, live, o.Live?);
        if old(script) == [] { SetFateGrows(sheet, old(world), before, world, names, i, live, delay); }
        if o.Live? { live := live + [names[i]]; }
      }
      ok := true;
    }

    /** The one wait for the set: every live row's operation is ready or done. */
    method WaitSet(live: seq<Row>) returns (ok: bool)
      requires Valid() && world.process.Up? && Distinct(live) && AllUnpause(live)
      requires forall j | 0 <= j < |live| :: At(world, live[j], Recorded)
      modifies this`world, this`past
      ensures Valid() && old(past) <= past && ok == world.process.Up?
      ensures ok ==> world.disk == old(world.disk) && Advanced(old(world), world, live, |live|, Waited, Recorded)
      ensures AllFit(old(world), live, |live|) ==> ok
      ensures ok ==> RestReopened(sheet, old(world), world, live)
    {
      for i := 0 to |live|
        invariant Valid() && old(past) <= past && world.disk == old(world.disk)
        invariant RestReopened(sheet, old(world), world, live)
        invariant Advanced(old(world), world, live, i, Waited, Recorded)
      {
        ghost var before := world;
        forall r ensures RowKnown(sheet, before, r) { RowIsKnown(sheet, start, past, before, r); }
        assert At(world, live[i], Recorded);
        ok := WaitRow(live[i]);
        if !ok { return; }
        AdvancedGrows(sheet, old(world), before, world, live, i, Waited, Recorded);
        RestStaysReopened(sheet, old(world), before, world, live, i);
      }
      ok := true;
    }

    /** Each live row executed in order and read back. */
    method ExecuteSet(live: seq<Row>) returns (ok: bool)
      requires Valid() && world.process.Up? && Distinct(live) && AllUnpause(live)
      requires forall j | 0 <= j < |live| :: At(world, live[j], Waited)
      modifies this
      ensures Valid() && old(past) <= past && ok == world.process.Up?
      ensures ok ==> forall j | 0 <= j < |live| :: Complete(RecordOf(world.disk.govern, live[j]))
      ensures ok ==> forall r | r !in live :: RecordOf(world.disk.govern, r) == old(RecordOf(world.disk.govern, r))
      // left alone, it goes through exactly when every row is fit at the start: no row disturbs another
      ensures old(script) == [] ==> script == [] && (ok <==> AllFit(old(world), live, |live|))
      ensures old(script) == [] && ok ==>
        ReopenedTo(sheet, world, live, |live|) && RestReopened(sheet, old(world), world, live)
    {
      for i := 0 to |live|
        invariant Valid() && old(past) <= past && world.process.Up?
        invariant old(script) == [] ==>
          ReopenedTo(sheet, world, live, i) && RestReopened(sheet, old(world), world, live)
        invariant ExecutedTo(old(world), world, live, i)
        invariant old(script) == [] ==> script == [] && RestSame(old(world), world, live, i)
        invariant old(script) == [] ==> AllFit(old(world), live, i)
      {
        ghost var before := world;
        assert At(world, live[i], Waited);
        if old(script) == [] {
          RowIsKnown(sheet, start, old(past), old(world), live[i]);
          SameFate(sheet, old(world), before, live[i], 0);
        }
        ok := ExecutePhase(live[i]);
        if !ok { return; }
        ExecutedGrows(old(world), before, world, live, i);
        if old(script) == [] {
          RestStaysSame(old(world), before, world, live, i);
          ReopenedGrows(sheet, before, world, live, i);
          RestStaysReopened(sheet, old(world), before, world, live, i);
        }
      }
      ok := true;
    }

    /**
     The unpause rows as one set: every operation scheduled, a stale one refused before the wait, one wait, then
     each executed in order. A set that returns has every row of it complete on disk.
     */
    method RunSet(names: seq<Row>, delay: nat) returns (ok: bool)
      requires Valid() && world.process.Up? && world.process.local == map[] && Distinct(names) && AllUnpause(names)
      modifies this
      ensures Valid() && old(past) <= past && ok == world.process.Up?
      ensures ok ==> forall i | 0 <= i < |names| :: Complete(RecordOf(world.disk.govern, names[i]))
      // left alone, it goes through exactly when no row is refused and every live row is fit
      ensures old(script) == [] ==>
        (ok <==> forall i | 0 <= i < |names| :: RowGoes(sheet, old(world), names[i], delay))
      // and then every vault it names that the sheet asks for is executed on disk and reads open
      ensures old(script) == [] && ok ==> forall i | 0 <= i < |names| && names[i].vault in sheet ::
        RecordOf(world.disk.govern, names[i]).executed.Some? && names[i].vault !in world.paused
    {
      var live;
      ok, live := ScheduleSet(names, delay);
      if !ok { return; }
      if old(script) == [] { SetFateIsFit(sheet, old(world), world, names, live, delay); }
      assert forall j | 0 <= j < |live| :: live[j] in live && live[j] in names[..|names|];
      ghost var scheduled := world;
      ok := ExecuteLive(live);
      if old(script) == [] && ok {
        forall i | 0 <= i < |names| ensures Reopened(sheet, world, names[i]) {
          if names[i] in live {
            var j :| 0 <= j < |live| && live[j] == names[i];
            assert Reopened(sheet, world, live[j]);
          } else {
            assert Reopened(sheet, scheduled, names[i]);
          }
        }
        RowIsKnown(sheet, start, past, world, CancelRow);
      }
    }

    /** The second half of the set: a stale row refused before the wait, one wait, then each executed in order. */
    method ExecuteLive(live: seq<Row>) returns (ok: bool)
      requires Valid() && world.process.Up? && Distinct(live) && AllUnpause(live)
      requires forall j | 0 <= j < |live| :: At(world, live[j], Recorded)
      modifies this
      ensures Valid() && old(past) <= past && ok == world.process.Up?
      ensures ok ==> forall j | 0 <= j < |live| :: Complete(RecordOf(world.disk.govern, live[j]))
      ensures ok ==> forall r | r !in live :: RecordOf(world.disk.govern, r) == old(RecordOf(world.disk.govern, r))
      ensures old(script) == [] ==> (ok <==> AllFit(old(world), live, |live|))
      ensures old(script) == [] && ok ==>
        ReopenedTo(sheet, world, live, |live|) && RestReopened(sheet, old(world), world, live)
      // a row a pause outranks is refused before the wait: nothing is waited for and nothing moves
      ensures old(exists j | 0 <= j < |live| :: live[j] in world.process.local && Stale(world, live[j])) ==>
        world == old(world).(process := Down)
    {
      if i :| 0 <= i < |live| && Stale(world, live[i]) {
        ExecutableIs(world, live[i]);
        Refuse();
        return false;
      }
      Await();
      if world.process.Down? { return false; }
      ghost var waiting := world;
      assert forall j | 0 <= j < |live| :: At(world, live[j], Recorded);
      ok := WaitSet(live);
      if !ok { return; }
      assert AllFit(world, live, |live|) <==> AllFit(waiting, live, |live|);
      ok := ExecuteSet(live);
    }
  }
}
