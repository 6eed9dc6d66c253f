/**
 The documents the evidence check accepts, said entry by entry: nothing in it but the document's own lists, and as
 many documents as the check lets through.
 */
module EvidenceAccepted {
  import opened Basics
  import opened KeySort
  import opened Evidence
  import opened EvidenceTheorems
  import opened EvidencePlaces

  /** An entry shows a mined schedule and a mined end, two transactions, with the delay between them. */
  predicate Shows(d: Document, kind: Kind, p: Place)
    requires Present(d, p)
  {
    var e := EntryAt(d, p);
    && IsTx(Form(e.scheduleTx)) && e.scheduleStatus == Code(1)
    && IsTx(Form(EndTx(d, p))) && EndStatus(d, p) == Code(1) && !SharedText(e.scheduleTx, EndTx(d, p))
    && (!IsCancelRow(d, p) ==>
          && e.scheduleTime.Some? && e.executeTime.Some?
          && e.executeTime.value - e.scheduleTime.value >= if kind.Rehearsal? then 900.0 else 172800.0)
  }

  predicate NothingInCommon(d: Document, p: Place, q: Place)
    requires Present(d, p) && Present(d, q)
  {
    && !SharedText(EntryAt(d, p).scheduleTx, EntryAt(d, q).scheduleTx) && !SharedText(EndTx(d, p), EndTx(d, q))
    && !SharedText(EntryAt(d, p).operationId, EntryAt(d, q).operationId)
  }

  /** Outside the rehearsal rows no entry says anything of a cancel. */
  predicate SaysNoCancel(e: Entry) { e.cancelled.Undefined? && e.cancelTx.Undefined? && e.cancelStatus.NoStatus? }

  /** The rehearsal rows: each of the three once at most, and the cancel row cancelled and never executed. */
  predicate RowsRead(rows: seq<Entry>) {
    && (forall i, j | 0 <= i < j < |rows| :: rows[i].step != rows[j].step)
    && forall r | r in rows ::
         r.step in [Text("update-delay"), Text("batch")] || (r.step == Text("cancel") && CancelledOnly(r))
  }

  predicate CancelledOnly(r: Entry) { IsTx(Form(r.cancelTx)) && r.cancelStatus == Code(1) && r.executeTx.Undefined? }

  /** The entry is of an unpause step and names a round, or none. */
  predicate OfAStep(e: Entry, steps: seq<string>) {
    e.step.Text? && e.step.s in steps && (e.round.NoRound? || (e.round.Whole? && e.round.n >= 1))
  }

  /** The round before this one executed before this one was scheduled. */
  ghost predicate Follows(govern: seq<Entry>, e: Entry, r: int) {
    exists b :: b in govern && b.step == e.step && IsRound(b, r - 1) && b.executeTime.Some? && e.scheduleTime.Some? &&
      e.scheduleTime.value > b.executeTime.value
  }

  /**
   The unpause entries: of known steps, the required ones present, no round of a step twice, and no round but the first
   without the one before it.
   */
  ghost predicate GovernReads(govern: seq<Entry>, steps: seq<string>, required: seq<string>) {
    && (forall e | e in govern :: OfAStep(e, steps))
    && (forall name | name in required :: exists e :: e in govern && e.step == Text(name))
    && (forall i, j | 0 <= i < j < |govern| && govern[i].step == govern[j].step ::
          DifferentRounds(govern[i], govern[j]))
    && (forall e, r | e in govern && r >= 2 && IsRound(e, r) :: Follows(govern, e, r))
  }

  ghost predicate DifferentRounds(a: Entry, b: Entry) { !exists r :: IsRound(a, r) && IsRound(b, r) }

  // ---- the rounds ------------------------------------------------------------------------------------

  lemma OfAStepIs(e: Entry, steps: seq<string>)
    ensures GovernEntryOk(e, steps) <==> OfAStep(e, steps)
    ensures OfAStep(e, steps) ==> forall r :: IsRound(e, r) <==> RoundNo(e) == r
  {
  }

  lemma DifferentIs(a: Entry, b: Entry, steps: seq<string>)
    requires OfAStep(a, steps) && OfAStep(b, steps)
    ensures DifferentRounds(a, b) <==> RoundNo(a) != RoundNo(b)
  {
    OfAStepIs(a, steps);
    OfAStepIs(b, steps);
    assert IsRound(a, RoundNo(a));
  }

  /** Two entries of a step stand in the document in the same order. */
  lemma {:induction false} StepSources(govern: seq<Entry>, name: string, p: nat, q: nat) returns (i: nat, j: nat)
    requires p < q < |StepEntries(govern, name)|
    ensures i < j < |govern| && govern[i] == StepEntries(govern, name)[p] && govern[j] == StepEntries(govern, name)[q]
    decreases |govern|
  {
    if OfStep(govern[0], name) {
      if p == 0 {
        j := StepSource(govern[1..], name, q - 1);
        i, j := 0, j + 1;
      } else {
        i, j := StepSources(govern[1..], name, p - 1, q - 1);
        i, j := i + 1, j + 1;
      }
    } else {
      i, j := StepSources(govern[1..], name, p, q);
      i, j := i + 1, j + 1;
    }
  }

  lemma {:induction false} StepSource(govern: seq<Entry>, name: string, q: nat) returns (j: nat)
    requires q < |StepEntries(govern, name)|
    ensures j < |govern| && govern[j] == StepEntries(govern, name)[q]
    decreases |govern|
  {
    if OfStep(govern[0], name) && q == 0 {
      j := 0;
    } else {
      j := StepSource(govern[1..], name, if OfStep(govern[0], name) then q - 1 else q);
      j := j + 1;
    }
  }

  function UpTo(r: nat): (s: set<int>)
    ensures forall k | k in s :: k <= r
  {
    if r == 0 then {} else UpTo(r - 1) + {r}
  }

  lemma {:induction false} UpToSize(r: nat)
    ensures |UpTo(r)| == r
  {
    if r > 0 {
      UpToSize(r - 1);
      assert r !in UpTo(r - 1);
    }
  }

  lemma StepIsDistinct(govern: seq<Entry>, steps: seq<string>, required: seq<string>, name: string)
    requires GovernReads(govern, steps, required)
    ensures Distinct(KeysOf(StepEntries(govern, name), RoundNo))
  {
    var s := StepEntries(govern, name);
    StepEntriesAre(govern, name);
    forall p, q | 0 <= p < q < |s| ensures RoundNo(s[p]) != RoundNo(s[q]) {
      var i, j := StepSources(govern, name, p, q);
      assert s[p] in s && s[q] in s && OfAStep(govern[i], steps) && OfAStep(govern[j], steps);
      DifferentIs(govern[i], govern[j], steps);
    }
  }

  lemma FollowsInStep(govern: seq<Entry>, steps: seq<string>, required: seq<string>, name: string, e: Entry)
    returns (b: Entry)
    requires GovernReads(govern, steps, required) && e in StepEntries(govern, name) && RoundNo(e) >= 2
    ensures b in StepEntries(govern, name) && RoundNo(b) == RoundNo(e) - 1 && ScheduledAfter(e, b)
  {
    StepEntriesAre(govern, name);
    assert OfAStep(e, steps);
    OfAStepIs(e, steps);
    assert IsRound(e, RoundNo(e));
    assert Follows(govern, e, RoundNo(e));
    b :| b in govern && b.step == e.step && IsRound(b, RoundNo(e) - 1) && b.executeTime.Some? && e.scheduleTime.Some? &&
      e.scheduleTime.value > b.executeTime.value;
    RoundNumbers(b, RoundNo(e) - 1);
  }

  /** So no round of a step is missing, and the highest is at most the number of its entries. */
  lemma {:induction false} RoundsBelow(govern: seq<Entry>, steps: seq<string>, required: seq<string>, name: string,
                                       e: Entry)
    requires GovernReads(govern, steps, required) && e in StepEntries(govern, name) && RoundNo(e) >= 1
    ensures UpTo(RoundNo(e)) <= SetOf(KeysOf(StepEntries(govern, name), RoundNo))
    decreases RoundNo(e)
  {
    KeyIsThere(StepEntries(govern, name), e);
    if RoundNo(e) >= 2 {
      var b := FollowsInStep(govern, steps, required, name, e);
      RoundsBelow(govern, steps, required, name, b);
    }
  }

  lemma KeyIsThere(s: seq<Entry>, e: Entry)
    requires e in s
    ensures RoundNo(e) in SetOf(KeysOf(s, RoundNo))
  {
    var i :| 0 <= i < |s| && s[i] == e;
    assert KeysOf(s, RoundNo)[i] == RoundNo(e);
  }

  lemma RoundsFit(govern: seq<Entry>, steps: seq<string>, required: seq<string>, name: string, e: Entry)
    requires GovernReads(govern, steps, required) && e in StepEntries(govern, name) && RoundNo(e) >= 1
    ensures RoundNo(e) <= |StepEntries(govern, name)|
  {
    var s := StepEntries(govern, name);
    RoundsBelow(govern, steps, required, name, e);
    UpToSize(RoundNo(e));
    SubsetSize(UpTo(RoundNo(e)), SetOf(KeysOf(s, RoundNo)));
    SetOfSize(KeysOf(s, RoundNo));
  }

  lemma ReadRoundsAreOk(govern: seq<Entry>, steps: seq<string>, required: seq<string>, name: string)
    requires GovernReads(govern, steps, required)
    ensures RoundsOk(StepEntries(govern, name))
  {
    var s := StepEntries(govern, name);
    StepEntriesAre(govern, name);
    StepIsDistinct(govern, steps, required, name);
    forall e | e in s ensures 1 <= RoundNo(e) <= |s| { RoundsFit(govern, steps, required, name, e); }
    forall a, b | a in s && b in s && RoundNo(b) == RoundNo(a) + 1 ensures ScheduledAfter(b, a) {
      var c := FollowsInStep(govern, steps, required, name, b);
      OneOfTheRound(s, a, c);
    }
  }

  lemma OneOfTheRound(s: seq<Entry>, a: Entry, b: Entry)
    requires Distinct(KeysOf(s, RoundNo)) && a in s && b in s && RoundNo(a) == RoundNo(b)
    ensures a == b
  {
    var i :| 0 <= i < |s| && s[i] == a;
    var j :| 0 <= j < |s| && s[j] == b;
    assert KeysOf(s, RoundNo)[i] == KeysOf(s, RoundNo)[j];
  }

  lemma OkRoundsFollow(govern: seq<Entry>, steps: seq<string>, required: seq<string>, e: Entry, r: int)
    requires GovernOk(govern, steps, required) && e in govern && r >= 2 && IsRound(e, r)
    ensures Follows(govern, e, r)
  {
    assert GovernEntryOk(e, steps);
    var k :| 0 <= k < |steps| && steps[k] == e.step.s;
    var s := StepEntries(govern, steps[k]);
    StepEntriesAre(govern, steps[k]);
    RoundNumbers(e, r);
    assert RoundsOk(s) && e in s;
    RoundExists(s, r - 1);
    var b :| b in s && RoundNo(b) == r - 1;
    RoundNumbers(b, r - 1);
    assert ScheduledAfter(e, b);
  }

  lemma OkRoundsDiffer(govern: seq<Entry>, steps: seq<string>, required: seq<string>, i: nat, j: nat)
    requires GovernOk(govern, steps, required) && i < j < |govern| && govern[i].step == govern[j].step
    ensures DifferentRounds(govern[i], govern[j])
  {
    assert GovernEntryOk(govern[i], steps) && GovernEntryOk(govern[j], steps);
    var k :| 0 <= k < |steps| && steps[k] == govern[i].step.s;
    var p, q := StepPositions(govern, steps[k], i, j);
    var keys := KeysOf(StepEntries(govern, steps[k]), RoundNo);
    assert RoundsOk(StepEntries(govern, steps[k])) && keys[p] != keys[q];
    OfAStepIs(govern[i], steps);
    OfAStepIs(govern[j], steps);
    DifferentIs(govern[i], govern[j], steps);
  }

  lemma GovernIs(govern: seq<Entry>, steps: seq<string>, required: seq<string>)
    ensures GovernOk(govern, steps, required) <==> GovernReads(govern, steps, required)
  {
    if GovernOk(govern, steps, required) {
      forall e | e in govern ensures OfAStep(e, steps) { assert GovernEntryOk(e, steps); OfAStepIs(e, steps); }
      forall name | name in required ensures exists e :: e in govern && e.step == Text(name) {
        assert HasStep(govern, name);
      }
      forall i, j | 0 <= i < j < |govern| && govern[i].step == govern[j].step
        ensures DifferentRounds(govern[i], govern[j])
      {
        OkRoundsDiffer(govern, steps, required, i, j);
      }
      forall e, r | e in govern && r >= 2 && IsRound(e, r) ensures Follows(govern, e, r) {
        OkRoundsFollow(govern, steps, required, e, r);
      }
    }
    if GovernReads(govern, steps, required) {
      forall i | 0 <= i < |govern| ensures GovernEntryOk(govern[i], steps) {
        assert govern[i] in govern;
        OfAStepIs(govern[i], steps);
      }
      forall i | 0 <= i < |required| ensures HasStep(govern, required[i]) { assert required[i] in required; }
      forall i | 0 <= i < |steps| ensures RoundsOk(StepEntries(govern, steps[i])) {
        ReadRoundsAreOk(govern, steps, required, steps[i]);
      }
    }
  }

  // ---- the operations --------------------------------------------------------------------------------

  lemma ShowsIs(d: Document, kind: Kind, p: Place)
    requires NoRehearsalParts(d, kind) && Present(d, p)
    ensures IndexOf(d, p) < |Operations(d, kind)|
    ensures OperationOk(Operations(d, kind)[IndexOf(d, p)], DelayFloor(kind)) <==> Shows(d, kind, p)
  {
    OperationAt(d, kind, p);
  }

  lemma ClashIs(d: Document, kind: Kind, p: Place, q: Place)
    requires NoRehearsalParts(d, kind) && Present(d, p) && Present(d, q) && Shows(d, kind, p)
    ensures IndexOf(d, p) < |Operations(d, kind)| && IndexOf(d, q) < |Operations(d, kind)|
    ensures var a, b := Operations(d, kind)[IndexOf(d, p)], Operations(d, kind)[IndexOf(d, q)];
            (forall field :: !Clash(a, b, field)) <==> NothingInCommon(d, p, q)
  {
    OperationAt(d, kind, p);
    OperationAt(d, kind, q);
    var a, b := Operations(d, kind)[IndexOf(d, p)], Operations(d, kind)[IndexOf(d, q)];
    if a.entry.scheduleTx.Text? { FoldedTx(a.entry.scheduleTx.s); }
    if a.entry.executeTx.Text? { FoldedTx(a.entry.executeTx.s); }
    assert Clash(a, b, ScheduleTx) <==> SharedText(Get(a, ScheduleTx), Get(b, ScheduleTx));
    assert Clash(a, b, ExecuteTx) <==> SharedText(Get(a, ExecuteTx), Get(b, ExecuteTx));
    assert Clash(a, b, OperationId) <==> SharedText(Get(a, OperationId), Get(b, OperationId));
    forall field | Clash(a, b, field) ensures !NothingInCommon(d, p, q) {
      match field { case ScheduleTx => case ExecuteTx => case OperationId => }
    }
  }

  /** Every operation comes from an entry. */
  lemma PlaceOf(d: Document, kind: Kind, i: nat) returns (p: Place)
    requires NoRehearsalParts(d, kind) && i < |Operations(d, kind)|
    ensures Present(d, p) && IndexOf(d, p) == i
  {
    InThreeParts(d, kind);
    var list :=
      if i < Offset(d, Releases) then Govern else if i < Offset(d, Applications) then Releases
      else if i < Offset(d, Clears) then Applications else if i < Offset(d, Retirements) then Clears
      else if i < Offset(d, Redeploys) then Retirements else if i < Offset(d, RehearsalRows) then Redeploys
      else if i < Offset(d, Registrations) then RehearsalRows else Registrations;
    p := Place(list, i - Offset(d, list));
  }

  ghost predicate AllShow(d: Document, kind: Kind) {
    && (forall p | Present(d, p) :: Shows(d, kind, p))
    && (forall p, q | Present(d, p) && Present(d, q) && p != q :: NothingInCommon(d, p, q))
  }

  lemma OkOperationsShow(d: Document, kind: Kind)
    requires NoRehearsalParts(d, kind) && OperationsOk(Operations(d, kind), DelayFloor(kind))
    ensures AllShow(d, kind)
  {
    forall p | Present(d, p) ensures Shows(d, kind, p) { ShowsIs(d, kind, p); }
    forall p, q | Present(d, p) && Present(d, q) && p != q ensures NothingInCommon(d, p, q) {
      PlacesDiffer(d, p, q);
      if IndexOf(d, p) < IndexOf(d, q) { NoClashShares(d, kind, p, q); } else { NoClashShares(d, kind, q, p); }
    }
  }

  lemma NoClashShares(d: Document, kind: Kind, p: Place, q: Place)
    requires NoRehearsalParts(d, kind) && OperationsOk(Operations(d, kind), DelayFloor(kind))
    requires Present(d, p) && Present(d, q) && Shows(d, kind, p) && IndexOf(d, p) < IndexOf(d, q)
    ensures NothingInCommon(d, p, q)
  {
    ClashIs(d, kind, p, q);
    forall field ensures !Clash(Operations(d, kind)[IndexOf(d, p)], Operations(d, kind)[IndexOf(d, q)], field) {
      assert Unshared(Operations(d, kind), field);
    }
  }

  lemma ShownOperationsAreOk(d: Document, kind: Kind)
    requires NoRehearsalParts(d, kind) && AllShow(d, kind)
    ensures OperationsOk(Operations(d, kind), DelayFloor(kind))
  {
    var ops := Operations(d, kind);
    forall i | 0 <= i < |ops| ensures OperationOk(ops[i], DelayFloor(kind)) {
      var p := PlaceOf(d, kind, i);
      ShowsIs(d, kind, p);
    }
    forall field ensures Unshared(ops, field) {
      forall i, j | 0 <= i < j < |ops| ensures !Clash(ops[i], ops[j], field) {
        var p := PlaceOf(d, kind, i);
        var q := PlaceOf(d, kind, j);
        ClashIs(d, kind, p, q);
      }
    }
  }

  lemma RowsAre(rows: seq<Entry>)
    ensures RowsOk(rows, |rows|) <==> RowsRead(rows)
  {
    assert ROW_NAMES == ["update-delay", "batch", "cancel"];
    forall r ensures RowOk(r) <==>
      r.step in [Text("update-delay"), Text("batch")] || (r.step == Text("cancel") && CancelledOnly(r))
    {
      assert "cancel"[0] != "batch"[0] && "cancel"[0] != "update-delay"[0];
      assert r.step.Text? ==>
        (r.step.s in ROW_NAMES <==> r.step.s == "update-delay" || r.step.s == "batch" || r.step.s == "cancel");
    }
    assert forall i, j | 0 <= i < j < |rows| :: SameStep(rows[i], rows[j]) <==> rows[i].step == rows[j].step;
  }

  lemma CancelsAre(d: Document)
    ensures (forall e | e in Executed(d) :: !HasCancelField(e)) <==>
      forall p | Present(d, p) && !p.list.RehearsalRows? :: SaysNoCancel(EntryAt(d, p))
  {
    if forall e | e in Executed(d) :: !HasCancelField(e) {
      forall p | Present(d, p) && !p.list.RehearsalRows? ensures SaysNoCancel(EntryAt(d, p)) {
        assert EntryAt(d, p) in Executed(d);
      }
    }
    if forall p | Present(d, p) && !p.list.RehearsalRows? :: SaysNoCancel(EntryAt(d, p)) {
      forall e | e in Executed(d) ensures !HasCancelField(e) {
        var p := ExecutedPlace(d, e);
        assert SaysNoCancel(EntryAt(d, p));
      }
    }
  }

  lemma ExecutedPlace(d: Document, e: Entry) returns (p: Place)
    requires e in Executed(d)
    ensures Present(d, p) && !p.list.RehearsalRows? && EntryAt(d, p) == e
  {
    var list := if e in d.govern then Govern else if e in d.releases then Releases
      else if e in d.applications then Applications else if e in d.clears then Clears
      else if e in d.redeploys then Redeploys else if e in d.retirements then Retirements else Registrations;
    var i :| 0 <= i < |EntriesIn(d, list)| && EntriesIn(d, list)[i] == e;
    p := Place(list, i);
  }

  /**
   The check is silent exactly on the documents whose every entry shows its two transactions and its delay, shares none
   of them with another entry and says nothing of a cancel outside the rehearsal rows, whose rows and unpause rounds
   read as they should, and which carry no rehearsal parts in production.
   */
  lemma AcceptedExactlyWhen(d: Document, kind: Kind, steps: seq<string>, required: seq<string>)
    ensures DocumentOk(d, kind, steps, required) <==>
      && AllShow(d, kind) && GovernReads(d.govern, steps, required)
      && (kind == Production ==> d.redeploys == [] && d.rehearsalRows == [])
      && (forall p | Present(d, p) && !p.list.RehearsalRows? :: SaysNoCancel(EntryAt(d, p)))
      && RowsRead(d.rehearsalRows)
  {
    GovernIs(d.govern, steps, required);
    CancelsAre(d);
    RowsAre(d.rehearsalRows);
    if NoRehearsalParts(d, kind) {
      if OperationsOk(Operations(d, kind), DelayFloor(kind)) { OkOperationsShow(d, kind); }
      if AllShow(d, kind) { ShownOperationsAreOk(d, kind); }
    }
  }
}
