/** What an evidence check that reports nothing proves about the whole document. */
module EvidenceTheorems {
  import opened Basics
  import opened KeySort
  import opened Evidence

  // ---- uniqueness ------------------------------------------------------------------------------------

  lemma FoldedTx(s: string)
    requires IsTx(s)
    ensures IsTx(Lower(s))
  {
    forall i | 2 <= i < 66 ensures IsHex(Lower(s)[i]) { assert IsHex(s[i]); }
  }

  predicate SameText(a: Field, b: Field) { Lower(Form(a)) == Lower(Form(b)) }

  lemma NoClashIsNotShared(a: Operation, b: Operation, field: FieldName)
    requires ShapeOk(a) && !Clash(a, b, field)
    ensures SameText(Get(a, field), Get(b, field)) && Form(Get(a, field)) != "" ==>
      Get(a, field).Coerced? || Get(b, field).Coerced?
  {
    var f, g := Get(a, field), Get(b, field);
    if SameText(f, g) && Form(f) != "" && f.Text? && g.Text? {
      if !field.OperationId? { FoldedTx(f.s); }
      assert false;
    }
  }

  /** Of two operations of the list, a field that is the same text in both is not JSON text in one of them. */
  lemma OperationsShareNothing(d: Document, kind: Kind, steps: seq<string>, required: seq<string>, i: nat, j: nat,
                               field: FieldName)
    requires DocumentOk(d, kind, steps, required) && i < j < |Operations(d, kind)|
    ensures var a, b := Get(Operations(d, kind)[i], field), Get(Operations(d, kind)[j], field);
            SameText(a, b) && Form(a) != "" ==> a.Coerced? || b.Coerced?
  {
    var ops := Operations(d, kind);
    assert OperationOk(ops[i], DelayFloor(kind));
    assert Unshared(ops, field);
    NoClashIsNotShared(ops[i], ops[j], field);
  }

  const TWO_STEPS: seq<string> := ["unpause-USDC", "unpause-PROTO"]

  /** An executed unpause, first round, whose schedule hash is given as a one-element list. */
  function ListedUnpause(name: string, hash: string, execute: string): Entry {
    Entry(Text(name), NoRound, Undefined, Coerced(hash), Code(1), Some(0.0), Text(execute), Code(1), Some(172800.0),
          Undefined, Undefined, NoStatus)
  }

  /** A production document of two unpauses with one schedule hash, a list in both. */
  function EscapingDocument(hash: string, x: string, y: string): Document {
    Document([ListedUnpause("unpause-USDC", hash, x), ListedUnpause("unpause-PROTO", hash, y)], [], [], [], [], [], [],
      [])
  }

  lemma OneRoundIsOk(govern: seq<Entry>, name: string, i: nat)
    requires |govern| == 2 && i < 2 && OfStep(govern[i], name) && RoundNo(govern[i]) == 1
    requires !OfStep(govern[1 - i], name)
    ensures RoundsOk(StepEntries(govern, name))
  {
    assert govern[1..][1..] == [] && govern[1..] == [govern[1]];
    assert StepEntries(govern[1..], name) == if i == 1 then [govern[1]] else [];
    assert StepEntries(govern, name) == [govern[i]];
  }

  lemma EscapingOperations(d: Document, hash: string, x: string, y: string)
    requires d == EscapingDocument(hash, x, y) && IsTx(hash) && IsTx(x) && IsTx(y) && Lower(x) != Lower(y)
    ensures Operations(d, Production) == Plain(d.govern) && OperationsOk(Plain(d.govern), MAINNET_DELAY_FLOOR)
  {
    assert Operations(d, Production) == Plain(d.govern);
    var a, b := Plain(d.govern)[0], Plain(d.govern)[1];
    FoldedTx(x);
    forall field ensures Unshared(Plain(d.govern), field) {
      assert !Clash(a, b, field) by { match field { case ScheduleTx => case ExecuteTx => case OperationId => } }
    }
  }

  lemma EscapingGovern(govern: seq<Entry>, steps: seq<string>, hash: string, x: string, y: string)
    requires govern == EscapingDocument(hash, x, y).govern && steps == TWO_STEPS
    ensures GovernOk(govern, steps, steps) && forall e | e in govern :: !HasCancelField(e)
  {
    assert steps[0] == "unpause-USDC" && steps[1] == "unpause-PROTO" && steps[0][8] != steps[1][8];
    OneRoundIsOk(govern, steps[0], 0);
    OneRoundIsOk(govern, steps[1], 1);
    assert govern[0].step == Text(steps[0]) && govern[1].step == Text(steps[1]);
    assert HasStep(govern, steps[0]) && HasStep(govern, steps[1]);
  }

  /**
   Such a value does escape, in a production document the whole check accepts: two unpauses whose schedule hash is the
   same one-element list.
   */
  lemma ListedHashEscapes(hash: string, x: string, y: string)
    requires IsTx(hash) && IsTx(x) && IsTx(y) && Lower(x) != Lower(y)
    ensures var d := EscapingDocument(hash, x, y);
            var ops := Operations(d, Production);
            && DocumentOk(d, Production, TWO_STEPS, TWO_STEPS) && |ops| == 2
            && Form(ops[0].entry.scheduleTx) == hash && SameText(ops[0].entry.scheduleTx, ops[1].entry.scheduleTx)
  {
    var d := EscapingDocument(hash, x, y);
    EscapingOperations(d, hash, x, y);
    EscapingGovern(d.govern, TWO_STEPS, hash, x, y);
    assert Executed(d) == d.govern;
  }

  // ---- the floor has one exception ---------------------------------------------------------------------

  function Rows(d: Document, kind: Kind): seq<Entry> { if kind.Rehearsal? then d.rehearsalRows else [] }

  function RowsAt(d: Document, kind: Kind): nat {
    |d.govern| + |d.releases| + |d.applications| + |d.clears| + |d.retirements|
    + if kind.Rehearsal? then |d.redeploys| else 0
  }

  predicate Unmarked(ops: seq<Operation>) { forall k | 0 <= k < |ops| :: !ops[k].internalCancel }

  lemma MarkedIsInTheMiddle(before: seq<Operation>, middle: seq<Operation>, rest: seq<Operation>, i: nat)
    requires Unmarked(before) && Unmarked(rest) && i < |before + middle + rest|
    requires (before + middle + rest)[i].internalCancel
    ensures |before| <= i < |before| + |middle| && (before + middle + rest)[i] == middle[i - |before|]
  {
  }

  /** A marked operation is the cancel row of a rehearsal, in its place: nothing an entry says sets the mark. */
  lemma MarkedIsCancelRow(d: Document, kind: Kind, i: nat)
    requires i < |Operations(d, kind)| && Operations(d, kind)[i].internalCancel
    ensures RowsAt(d, kind) <= i < RowsAt(d, kind) + |Rows(d, kind)|
    ensures var r := Rows(d, kind)[i - RowsAt(d, kind)]; IsCancel(r) && Operations(d, kind)[i] == RowOperation(r)
  {
    var before := Plain(d.govern) + Plain(d.releases) + Plain(d.applications) + Plain(d.clears) + Plain(d.retirements)
      + Plain(if kind.Rehearsal? then d.redeploys else []);
    assert |before| == RowsAt(d, kind) && Unmarked(before);
    MarkedIsInTheMiddle(before, RowOperations(Rows(d, kind)), Plain(d.registrations), i);
  }

  /** Every operation of the list keeps the delay floor except at most one marked one. */
  lemma OneMarkAtMost(d: Document, kind: Kind, steps: seq<string>, required: seq<string>, i: nat, j: nat)
    requires DocumentOk(d, kind, steps, required) && i < |Operations(d, kind)| && j < |Operations(d, kind)|
    ensures GapOk(Operations(d, kind)[i].entry, DelayFloor(kind)) || Operations(d, kind)[i].internalCancel
    ensures kind.Production? ==> GapOk(Operations(d, kind)[i].entry, MAINNET_DELAY_FLOOR)
    ensures i != j && !GapOk(Operations(d, kind)[i].entry, DelayFloor(kind)) ==>
      GapOk(Operations(d, kind)[j].entry, DelayFloor(kind))
  {
    var ops := Operations(d, kind);
    assert OperationOk(ops[i], DelayFloor(kind)) && OperationOk(ops[j], DelayFloor(kind));
    if ops[i].internalCancel {
      MarkedIsCancelRow(d, kind, i);
      if i != j && ops[j].internalCancel {
        MarkedIsCancelRow(d, kind, j);
        assert false;
      }
    }
  }

  // ---- the rounds ----------------------------------------------------------------------------------------

  lemma {:induction false} StepPosition(govern: seq<Entry>, name: string, j: nat) returns (q: nat)
    requires j < |govern| && OfStep(govern[j], name)
    ensures q < |StepEntries(govern, name)| && StepEntries(govern, name)[q] == govern[j]
  {
    if j == 0 {
      q := 0;
    } else {
      q := StepPosition(govern[1..], name, j - 1);
      if OfStep(govern[0], name) { q := q + 1; }
    }
  }

  /** The entries of a step keep their order. */
  lemma {:induction false} StepPositions(govern: seq<Entry>, name: string, i: nat, j: nat) returns (p: nat, q: nat)
    requires i < j < |govern| && OfStep(govern[i], name) && OfStep(govern[j], name)
    ensures p < q < |StepEntries(govern, name)|
    ensures StepEntries(govern, name)[p] == govern[i] && StepEntries(govern, name)[q] == govern[j]
    decreases |govern|
  {
    if i == 0 {
      q := StepPosition(govern[1..], name, j - 1);
      p, q := 0, q + 1;
    } else {
      p, q := StepPositions(govern[1..], name, i - 1, j - 1);
      if OfStep(govern[0], name) { p, q := p + 1, q + 1; }
    }
  }

  lemma RoundExists(s: seq<Entry>, r: int)
    requires RoundsOk(s) && 1 <= r <= |s|
    ensures exists e :: e in s && RoundNo(e) == r
  {
    SortHolds(s, RoundNo);
    SortedIsInOrder(s);
    assert InOrder(SortByRound(s), r - 1);
    assert SortByRound(s)[r - 1] in SortByRound(s);
  }

  /** The entry names the round, or names none and the round is the first. */
  predicate IsRound(e: Entry, r: int) { e.round == Whole(r) || (r == 1 && e.round.NoRound?) }

  lemma RoundNumbers(e: Entry, r: int)
    ensures IsRound(e, r) ==> RoundNo(e) == r
    ensures RoundNo(e) == r && r >= 1 ==> IsRound(e, r)
  {
  }

  predicate HasRound(govern: seq<Entry>, name: string, r: int) {
    exists e | e in govern :: e.step == Text(name) && IsRound(e, r)
  }

  lemma StepEntriesHoldTheStep(d: Document, kind: Kind, steps: seq<string>, required: seq<string>, name: string)
    requires DocumentOk(d, kind, steps, required) && name in steps
    ensures RoundsOk(StepEntries(d.govern, name))
    ensures forall e :: e in StepEntries(d.govern, name) <==> e in d.govern && e.step == Text(name)
  {
    var k :| 0 <= k < |steps| && steps[k] == name;
    assert RoundsOk(StepEntries(d.govern, steps[k]));
    StepEntriesAre(d.govern, name);
    forall e | e in d.govern ensures RoundNo(e) >= 1 { assert GovernEntryOk(e, steps); }
  }

  /** The rounds of every unpause step are exactly 1 to n, and a required step has a first round. */
  lemma RoundsAreOneToN(d: Document, kind: Kind, steps: seq<string>, required: seq<string>, name: string, r: int)
    requires DocumentOk(d, kind, steps, required) && name in steps
    ensures 1 <= r <= |StepEntries(d.govern, name)| <==> HasRound(d.govern, name, r)
    ensures name in required ==> HasRound(d.govern, name, 1)
  {
    StepEntriesHoldTheStep(d, kind, steps, required, name);
    RoundsFill(d.govern, StepEntries(d.govern, name), name, r);
    if name in required {
      assert HasStep(d.govern, name);
      var i :| 0 <= i < |d.govern| && d.govern[i].step == Text(name);
      assert d.govern[i] in StepEntries(d.govern, name);
      RoundsFill(d.govern, StepEntries(d.govern, name), name, 1);
    }
  }

  lemma RoundsFill(govern: seq<Entry>, s: seq<Entry>, name: string, r: int)
    requires RoundsOk(s) && forall e :: e in s <==> e in govern && e.step == Text(name)
    ensures 1 <= r <= |s| <==> HasRound(govern, name, r)
  {
    if 1 <= r <= |s| {
      RoundExists(s, r);
      var e :| e in s && RoundNo(e) == r;
      RoundNumbers(e, r);
    }
    if HasRound(govern, name, r) {
      var e :| e in govern && e.step == Text(name) && IsRound(e, r);
      RoundNumbers(e, r);
      assert e in s;
    }
  }

  /** No two entries stand for one round of one step, and every entry stands for a round of an unpause step. */
  lemma OneEntryPerRound(d: Document, kind: Kind, steps: seq<string>, required: seq<string>, i: nat, j: nat, r: int)
    requires DocumentOk(d, kind, steps, required) && i < j < |d.govern|
    ensures d.govern[i].step == d.govern[j].step && IsRound(d.govern[i], r) ==> !IsRound(d.govern[j], r)
    ensures d.govern[i].step.Text? && d.govern[i].step.s in steps && exists q :: q >= 1 && IsRound(d.govern[i], q)
  {
    assert GovernEntryOk(d.govern[i], steps) && GovernEntryOk(d.govern[j], steps);
    RoundNumbers(d.govern[i], RoundNo(d.govern[i]));
    assert IsRound(d.govern[i], RoundNo(d.govern[i]));
    if d.govern[i].step == d.govern[j].step {
      RoundsApart(d, kind, steps, required, i, j);
      RoundNumbers(d.govern[i], r);
      RoundNumbers(d.govern[j], r);
    }
  }

  lemma RoundsApart(d: Document, kind: Kind, steps: seq<string>, required: seq<string>, i: nat, j: nat)
    requires DocumentOk(d, kind, steps, required) && i < j < |d.govern| && SameStep(d.govern[i], d.govern[j])
    ensures RoundNo(d.govern[i]) != RoundNo(d.govern[j])
  {
    assert GovernEntryOk(d.govern[i], steps) && GovernEntryOk(d.govern[j], steps);
    var name := d.govern[i].step.s;
    StepEntriesHoldTheStep(d, kind, steps, required, name);
    var p, q := StepPositions(d.govern, name, i, j);
    assert KeysOf(StepEntries(d.govern, name), RoundNo)[p] != KeysOf(StepEntries(d.govern, name), RoundNo)[q];
  }

  // ---- delays add up ---------------------------------------------------------------------------------------

  predicate WholeSeconds(e: Entry) {
    && (e.scheduleTime.Some? ==> e.scheduleTime.value == e.scheduleTime.value.Floor as real)
    && (e.executeTime.Some? ==> e.executeTime.value == e.executeTime.value.Floor as real)
  }

  predicate AllGapsOk(s: seq<Entry>, floor: nat) { forall e | e in s :: GapOk(e, floor) }

  lemma StepGapsOk(d: Document, kind: Kind, steps: seq<string>, required: seq<string>, name: string)
    requires DocumentOk(d, kind, steps, required)
    ensures AllGapsOk(StepEntries(d.govern, name), DelayFloor(kind))
  {
    StepEntriesAre(d.govern, name);
    forall e | e in StepEntries(d.govern, name) ensures GapOk(e, DelayFloor(kind)) {
      var i :| 0 <= i < |d.govern| && d.govern[i] == e;
      var ops := Operations(d, kind);
      assert ops[i] == Plain(d.govern)[i];
      assert OperationOk(ops[i], DelayFloor(kind));
    }
  }

  /** Rounds do not overlap: a later round is scheduled after every earlier one executed. */
  lemma {:induction false} RoundsDoNotOverlap(s: seq<Entry>, floor: nat, a: Entry, b: Entry)
    requires RoundsOk(s) && AllGapsOk(s, floor) && a in s && b in s && RoundNo(a) < RoundNo(b)
    ensures ScheduledAfter(b, a)
    decreases RoundNo(b)
  {
    if RoundNo(a) + 1 < RoundNo(b) {
      RoundExists(s, RoundNo(b) - 1);
      var c :| c in s && RoundNo(c) == RoundNo(b) - 1;
      RoundsDoNotOverlap(s, floor, a, c);
      assert GapOk(c, floor) && ScheduledAfter(b, c);
    }
  }

  function Waited(a: Entry, b: Entry): real
    requires a.scheduleTime.Some? && b.executeTime.Some?
  {
    b.executeTime.value - a.scheduleTime.value
  }

  /** The floors of k + 1 rounds in a row, and a second between each two when times are whole. */
  function Floors(k: nat, floor: nat, whole: bool): real {
    floor as real + if k == 0 then 0.0 else Floors(k - 1, floor, whole) + if whole then 1.0 else 0.0
  }

  lemma {:induction false} FloorsTotal(k: nat, floor: nat)
    ensures Floors(k, floor, true) == ((k + 1) * floor + k) as real
  {
    if k > 0 {
      FloorsTotal(k - 1, floor);
      assert (k + 1) * floor + k == (k * floor + (k - 1)) + floor + 1;
    }
  }

  lemma NextRoundAddsAFloor(a: Entry, c: Entry, b: Entry, floor: nat, k: nat, whole: bool)
    requires a.scheduleTime.Some? && c.executeTime.Some? && Waited(a, c) >= Floors(k, floor, whole)
    requires GapOk(b, floor) && ScheduledAfter(b, c) && (whole ==> WholeSeconds(b) && WholeSeconds(c))
    ensures Waited(a, b) >= Floors(k + 1, floor, whole)
  {
    if whole {
      assert b.scheduleTime.value.Floor > c.executeTime.value.Floor;
      assert b.scheduleTime.value >= c.executeTime.value + 1.0;
    }
  }

  lemma {:induction false} RoundsTakeTheirTime(s: seq<Entry>, floor: nat, a: Entry, b: Entry, k: nat, whole: bool)
    requires RoundsOk(s) && AllGapsOk(s, floor) && a in s && b in s && RoundNo(b) == RoundNo(a) + k
    requires whole ==> forall e | e in s :: WholeSeconds(e)
    ensures a.scheduleTime.Some? && b.executeTime.Some?
    ensures Waited(a, b) >= Floors(k, floor, whole)
    decreases k
  {
    assert GapOk(a, floor) && GapOk(b, floor);
    if k == 0 {
      SameRoundSameEntry(s, a, b);
    } else {
      RoundExists(s, RoundNo(b) - 1);
      var c :| c in s && RoundNo(c) == RoundNo(b) - 1;
      RoundsTakeTheirTime(s, floor, a, c, k - 1, whole);
      assert ScheduledAfter(b, c);
      NextRoundAddsAFloor(a, c, b, floor, k - 1, whole);
    }
  }

  lemma SameRoundSameEntry(s: seq<Entry>, a: Entry, b: Entry)
    requires RoundsOk(s) && a in s && b in s && RoundNo(a) == RoundNo(b)
    ensures a == b
  {
    var i :| 0 <= i < |s| && s[i] == a;
    var j :| 0 <= j < |s| && s[j] == b;
    assert KeysOf(s, RoundNo)[i] == KeysOf(s, RoundNo)[j];
  }

  /** Two entries of one step by round: each takes its delay, and the later is scheduled after the earlier executed. */
  lemma IntervalsAreOrdered(d: Document, kind: Kind, steps: seq<string>, required: seq<string>, a: Entry, b: Entry,
                            r: int, q: int)
    requires DocumentOk(d, kind, steps, required) && a in d.govern && b in d.govern && a.step == b.step
    requires IsRound(a, r) && IsRound(b, q) && r < q
    ensures a.scheduleTime.Some? && a.executeTime.Some? && b.scheduleTime.Some? && b.executeTime.Some?
    ensures var floor := if kind.Rehearsal? then 900.0 else 172800.0;
            && a.executeTime.value >= a.scheduleTime.value + floor
            && b.scheduleTime.value > a.executeTime.value
            && b.executeTime.value >= b.scheduleTime.value + floor
  {
    assert GovernEntryOk(a, steps);
    RoundNumbers(a, r);
    RoundNumbers(b, q);
    var name := a.step.s;
    StepEntriesHoldTheStep(d, kind, steps, required, name);
    StepGapsOk(d, kind, steps, required, name);
    RoundsDoNotOverlap(StepEntries(d.govern, name), DelayFloor(kind), a, b);
    assert GapOk(a, DelayFloor(kind)) && GapOk(b, DelayFloor(kind));
  }

  /**
   The accumulated delay of a step that went through n rounds: with block times in whole seconds the last execute is at
   least n floors and n - 1 seconds after the first schedule.
   */
  lemma AccumulatedDelay(d: Document, kind: Kind, steps: seq<string>, required: seq<string>, name: string, n: nat,
                         first: Entry, last: Entry)
    requires DocumentOk(d, kind, steps, required) && name in steps && n >= 1
    requires first in d.govern && last in d.govern && first.step == last.step == Text(name)
    requires IsRound(first, 1) && IsRound(last, n)
    requires forall e | e in d.govern :: WholeSeconds(e)
    ensures first.scheduleTime.Some? && last.executeTime.Some?
    ensures last.executeTime.value - first.scheduleTime.value >=
            (n * (if kind.Rehearsal? then 900 else 172800) + (n - 1)) as real
  {
    StepEntriesHoldTheStep(d, kind, steps, required, name);
    StepGapsOk(d, kind, steps, required, name);
    RoundNumbers(first, 1);
    RoundNumbers(last, n);
    var k := n - 1;
    StepTakesItsTime(StepEntries(d.govern, name), DelayFloor(kind), first, last, k);
  }

  lemma StepTakesItsTime(s: seq<Entry>, floor: nat, a: Entry, b: Entry, k: nat)
    requires RoundsOk(s) && AllGapsOk(s, floor) && a in s && b in s && RoundNo(b) == RoundNo(a) + k
    requires forall e | e in s :: WholeSeconds(e)
    ensures a.scheduleTime.Some? && b.executeTime.Some?
    ensures Waited(a, b) >= ((k + 1) * floor + k) as real
  {
    RoundsTakeTheirTime(s, floor, a, b, k, true);
    FloorsTotal(k, floor);
  }
}
