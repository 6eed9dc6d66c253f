/**
 The governance part of the evidence check: the operations of one evidence document, the rounds of its unpause
 steps, and what an empty problem list says about all of them together.
 */
module Evidence {
  import opened Basics
  import opened KeySort

  /** A JSON field that should be text. `Coerced` is any other JSON value, with the text a pattern match reads it as. */
  datatype Field = Undefined | Text(s: string) | Coerced(s: string)

  datatype Status = NoStatus | Code(n: int) | OtherStatus

  datatype Round = NoRound | Whole(n: int) | OtherRound

  /** One entry as the document has it. A time is the number its field converts to, none when it is not a number. */
  datatype Entry = Entry(
    step: Field, round: Round, operationId: Field,
    scheduleTx: Field, scheduleStatus: Status, scheduleTime: Option<real>,
    executeTx: Field, executeStatus: Status, executeTime: Option<real>,
    cancelled: Field, cancelTx: Field, cancelStatus: Status)

  /** What the checks run on. `internalCancel` is identity, not content: no entry carries it. */
  datatype Operation = Operation(entry: Entry, internalCancel: bool)

  datatype Kind = Production | Rehearsal

  /** The lists of the document. `redeploys` and `rehearsalRows` are for rehearsals only. */
  datatype Document = Document(
    govern: seq<Entry>, releases: seq<Entry>, applications: seq<Entry>, clears: seq<Entry>, retirements: seq<Entry>,
    redeploys: seq<Entry>, rehearsalRows: seq<Entry>, registrations: seq<Entry>)

  datatype FieldName = ScheduleTx | ExecuteTx | OperationId

  datatype Problem =
    | Shared(field: FieldName, at: nat, first: nat)
    | BadOperation(at: nat)
    | UnderFloor(at: nat)
    | MissingStep(name: string)
    | NotAnUnpause(at: nat)
    | BadRound(at: nat)
    | RepeatedRound(name: string, at: nat)
    | RoundOutOfPlace(name: string, at: nat)
    | RoundTooEarly(name: string, at: nat)
    | CancelField(at: nat)
    | RowsInProduction
    | UnknownRow(at: nat)
    | RepeatedRow(at: nat)
    | BadCancelRow(at: nat)
    | Other(message: string)

  const MAINNET_DELAY_FLOOR: nat := 172800
  const REHEARSAL_DELAY_FLOOR: nat := 900

  function DelayFloor(kind: Kind): nat { if kind.Rehearsal? then REHEARSAL_DELAY_FLOOR else MAINNET_DELAY_FLOOR }

  predicate IsHex(c: char) { '0' <= c <= '9' || 'a' <= c <= 'f' || 'A' <= c <= 'F' }

  predicate IsTx(s: string) { |s| == 66 && s[0] == '0' && s[1] == 'x' && forall i | 2 <= i < 66 :: IsHex(s[i]) }

  /** The text a pattern match reads a field as: nothing for an absent one. */
  function Form(f: Field): string { if f.Undefined? then "" else f.s }

  // ---- operationProblems -----------------------------------------------------------------------------

  function Get(op: Operation, field: FieldName): Field {
    match field
    case ScheduleTx => op.entry.scheduleTx
    case ExecuteTx => op.entry.executeTx
    case OperationId => op.entry.operationId
  }

  /** The folded text a field takes part in the comparison with, if it does. */
  function Compared(op: Operation, field: FieldName): Option<string> {
    var f := Get(op, field);
    var h := if f.Text? then Lower(f.s) else "";
    if if field.OperationId? then h != "" else IsTx(h) then Some(h) else None
  }

  predicate Clash(a: Operation, b: Operation, field: FieldName) {
    Compared(a, field).Some? && Compared(a, field) == Compared(b, field)
  }

  predicate Unshared(ops: seq<Operation>, field: FieldName) {
    forall i, j | 0 <= i < j < |ops| :: !Clash(ops[i], ops[j], field)
  }

  predicate ShapeOk(op: Operation) {
    var e := op.entry;
    && IsTx(Form(e.scheduleTx)) && e.scheduleStatus == Code(1)
    && IsTx(Form(e.executeTx)) && e.executeStatus == Code(1)
    && !(e.scheduleTx.Text? && e.executeTx.Text? && Lower(e.scheduleTx.s) == Lower(e.executeTx.s))
  }

  predicate GapOk(e: Entry, floor: nat) {
    e.scheduleTime.Some? && e.executeTime.Some? && e.executeTime.value - e.scheduleTime.value >= floor as real
  }

  predicate OperationOk(op: Operation, floor: nat) { ShapeOk(op) && (op.internalCancel || GapOk(op.entry, floor)) }

  predicate OperationsOk(ops: seq<Operation>, floor: nat) {
    && (forall field :: Unshared(ops, field))
    && forall i | 0 <= i < |ops| :: OperationOk(ops[i], floor)
  }

  function Keys(ops: seq<Operation>, field: FieldName): (r: seq<Option<string>>)
    ensures |r| == |ops| && forall i | 0 <= i < |r| :: r[i] == Compared(ops[i], field)
  {
    seq(|ops|, i requires 0 <= i < |ops| => Compared(ops[i], field))
  }

  predicate NoRepeat(keys: seq<Option<string>>, n: nat)
    requires n <= |keys|
  {
    forall i, j | 0 <= i < j < n :: keys[i].Some? ==> keys[i] != keys[j]
  }

  /** The map of the values seen, after the first n. */
  predicate Seen(seen: map<string, nat>, keys: seq<Option<string>>, n: nat)
    requires n <= |keys|
  {
    && (forall h | h in seen :: seen[h] < n && keys[seen[h]] == Some(h))
    && (forall j | 0 <= j < n && keys[j].Some? :: keys[j].value in seen)
  }

  lemma SeenStep(seen: map<string, nat>, keys: seq<Option<string>>, i: nat)
    requires i < |keys| && Seen(seen, keys, i)
    ensures keys[i].None? ==> Seen(seen, keys, i + 1) && (NoRepeat(keys, i + 1) <==> NoRepeat(keys, i))
    ensures keys[i].Some? && keys[i].value in seen ==> Seen(seen, keys, i + 1) && !NoRepeat(keys, i + 1)
    ensures keys[i].Some? && keys[i].value !in seen ==>
      Seen(seen[keys[i].value := i], keys, i + 1) && (NoRepeat(keys, i + 1) <==> NoRepeat(keys, i))
  {
  }

  lemma UnsharedIsNoRepeat(ops: seq<Operation>, field: FieldName)
    ensures Unshared(ops, field) <==> NoRepeat(Keys(ops, field), |ops|)
  {
    var keys := Keys(ops, field);
    assert forall i, j | 0 <= i < j < |ops| :: Clash(ops[i], ops[j], field) <==> keys[i].Some? && keys[i] == keys[j];
  }

  /** One pass with a map of the values seen: silent exactly when no two operations share the field. */
  method SharedProblems(ops: seq<Operation>, field: FieldName) returns (problems: seq<Problem>)
    ensures problems == [] <==> Unshared(ops, field)
  {
    problems := [];
    ghost var keys := Keys(ops, field);
    var seen: map<string, nat> := map[];
    for i := 0 to |ops|
      invariant Seen(seen, keys, i)
      invariant problems == [] <==> NoRepeat(keys, i)
    {
      SeenStep(seen, keys, i);
      var h := Compared(ops[i], field);
      if h.None? { continue; }
      if h.value in seen {
        problems := problems + [Shared(field, i, seen[h.value])];
      } else {
        seen := seen[h.value := i];
      }
    }
    UnsharedIsNoRepeat(ops, field);
  }

  method OperationProblems(ops: seq<Operation>, floor: nat) returns (problems: seq<Problem>)
    ensures problems == [] <==> OperationsOk(ops, floor)
  {
    var a := SharedProblems(ops, ScheduleTx);
    var b := SharedProblems(ops, ExecuteTx);
    var c := SharedProblems(ops, OperationId);
    problems := a + b + c;
    var shared := problems;
    for i := 0 to |ops|
      invariant problems == [] <==> shared == [] && forall k | 0 <= k < i :: OperationOk(ops[k], floor)
    {
      if !ShapeOk(ops[i]) { problems := problems + [BadOperation(i)]; }
      if ops[i].internalCancel { continue; }
      if !GapOk(ops[i].entry, floor) { problems := problems + [UnderFloor(i)]; }
    }
    forall field: FieldName ensures shared == [] ==> Unshared(ops, field) {
      match field { case ScheduleTx => case ExecuteTx => case OperationId => }
    }
  }

  // ---- the rehearsal rows ------------------------------------------------------------------------------

  const ROW_NAMES: seq<string> := ["update-delay", "batch", "cancel"]

  predicate IsRow(e: Entry) { e.step.Text? && e.step.s in ROW_NAMES }

  predicate IsCancel(e: Entry) { e.step == Text("cancel") }

  predicate CancelRowOk(e: Entry) { IsTx(Form(e.cancelTx)) && e.cancelStatus == Code(1) && e.executeTx.Undefined? }

  predicate SameStep(a: Entry, b: Entry) { a.step == b.step }

  predicate RowOk(e: Entry) { IsRow(e) && (IsCancel(e) ==> CancelRowOk(e)) }

  predicate RowsOk(rows: seq<Entry>, n: nat)
    requires n <= |rows|
  {
    && (forall i | 0 <= i < n :: RowOk(rows[i]))
    && forall i, j | 0 <= i < j < n :: !SameStep(rows[i], rows[j])
  }

  method RehearsalRowProblems(rows: seq<Entry>, kind: Kind) returns (problems: seq<Problem>, kept: seq<Entry>)
    ensures problems == [] <==> if kind.Rehearsal? then RowsOk(rows, |rows|) else rows == []
    ensures kept == if kind.Rehearsal? then rows else []
  {
    problems := [];
    if !kind.Rehearsal? {
      if |rows| > 0 { problems := [RowsInProduction]; }
      return problems, [];
    }
    kept := rows;
    var seen: set<string> := {};
    for i := 0 to |rows|
      invariant forall s | s in seen :: exists j | 0 <= j < i :: rows[j].step == Text(s)
      invariant forall j | 0 <= j < i && IsRow(rows[j]) :: rows[j].step.s in seen
      invariant problems == [] <==> RowsOk(rows, i)
    {
      var r := rows[i];
      if !IsRow(r) {
        problems := problems + [UnknownRow(i)];
      } else if r.step.s in seen {
        assert exists j | 0 <= j < i :: SameStep(rows[j], r);
        problems := problems + [RepeatedRow(i)];
      } else {
        seen := seen + {r.step.s};
      }
      if IsCancel(r) && !CancelRowOk(r) { problems := problems + [BadCancelRow(i)]; }
    }
  }

  /** The rows as operations: the cancel transaction stands for the execute, and only here is the mark set. */
  function RowOperation(r: Entry): Operation {
    if IsCancel(r) then Operation(r.(executeTx := r.cancelTx, executeStatus := r.cancelStatus), true)
      else Operation(r, false)
  }

  function RowOperations(rows: seq<Entry>): (r: seq<Operation>)
    ensures |r| == |rows| && forall i | 0 <= i < |r| :: r[i] == RowOperation(rows[i])
  {
    seq(|rows|, i requires 0 <= i < |rows| => RowOperation(rows[i]))
  }

  function Plain(entries: seq<Entry>): (r: seq<Operation>)
    ensures |r| == |entries| && forall i | 0 <= i < |r| :: r[i] == Operation(entries[i], false)
  {
    seq(|entries|, i requires 0 <= i < |entries| => Operation(entries[i], false))
  }

  // ---- the rounds ----------------------------------------------------------------------------------------

  /** The round of an entry, 1 when it names none, 0 when it names something else than an integer. */
  function RoundNo(e: Entry): int {
    match e.round
    case NoRound => 1
    case Whole(n) => n
    case OtherRound => 0
  }

  predicate OfStep(e: Entry, name: string) { e.step == Text(name) && RoundNo(e) >= 1 }

  function StepEntries(govern: seq<Entry>, name: string): seq<Entry> {
    if govern == [] then [] else
    if OfStep(govern[0], name) then [govern[0]] + StepEntries(govern[1..], name) else StepEntries(govern[1..], name)
  }

  lemma {:induction false} StepEntriesAre(govern: seq<Entry>, name: string)
    ensures forall e :: e in StepEntries(govern, name) <==> e in govern && OfStep(e, name)
  {
    if govern != [] {
      StepEntriesAre(govern[1..], name);
      assert govern == [govern[0]] + govern[1..];
    }
  }

  /** `.sort((x, y) => roundOf(x) - roundOf(y))` */
  function SortByRound(s: seq<Entry>): seq<Entry> { SortBy(s, RoundNo) }

  predicate ScheduledAfter(later: Entry, earlier: Entry) {
    later.scheduleTime.Some? && earlier.executeTime.Some? && later.scheduleTime.value > earlier.executeTime.value
  }

  ghost predicate EachAfterTheLast(s: seq<Entry>) {
    forall a, b | a in s && b in s && RoundNo(b) == RoundNo(a) + 1 :: ScheduledAfter(b, a)
  }

  /** The rounds of a step are 1 to n, none twice, and each round is scheduled after the one before it executed. */
  ghost predicate RoundsOk(s: seq<Entry>) {
    Numbered(s, RoundNo) && EachAfterTheLast(s)
  }

  /** The same at one place of the sorted list. */
  predicate InOrder(s: seq<Entry>, i: nat)
    requires i < |s|
  {
    RoundNo(s[i]) == i + 1 && (i > 0 ==> ScheduledAfter(s[i], s[i - 1]))
  }

  predicate InOrderTo(s: seq<Entry>, n: nat)
    requires n <= |s|
  {
    forall k | 0 <= k < n :: InOrder(s, k)
  }

  method StepRoundProblems(govern: seq<Entry>, name: string) returns (problems: seq<Problem>)
    ensures problems == [] <==> RoundsOk(StepEntries(govern, name))
  {
    problems := [];
    var s := SortByRound(StepEntries(govern, name));
    for i := 0 to |s|
      invariant problems == [] <==> InOrderTo(s, i)
    {
      if i > 0 && RoundNo(s[i - 1]) == RoundNo(s[i]) {
        assert !InOrder(s, i) || !InOrder(s, i - 1);
        problems := problems + [RepeatedRound(name, i)];
        continue;
      }
      if RoundNo(s[i]) != i + 1 { problems := problems + [RoundOutOfPlace(name, i)]; }
      if i > 0 && !ScheduledAfter(s[i], s[i - 1]) { problems := problems + [RoundTooEarly(name, i)]; }
      assert InOrderTo(s, i + 1) <==> InOrderTo(s, i) && InOrder(s, i);
    }
    SortedIsInOrder(StepEntries(govern, name));
  }

  /** In an ordered list the entry of round k is the one at place k - 1. */
  lemma InOrderPlaces(s: seq<Entry>, e: Entry)
    requires e in s && InOrderTo(s, |s|)
    ensures 1 <= RoundNo(e) <= |s| && s[RoundNo(e) - 1] == e
  {
    var k :| 0 <= k < |s| && s[k] == e;
    assert InOrder(s, k);
  }

  lemma SortedIsInOrder(entries: seq<Entry>)
    ensures InOrderTo(SortByRound(entries), |SortByRound(entries)|) <==> RoundsOk(entries)
  {
    var s := SortByRound(entries);
    SortHolds(entries, RoundNo);
    SortFills(entries, RoundNo);
    if RoundsOk(entries) {
      forall k | 0 <= k < |s| ensures InOrder(s, k) { assert s[k] in s && (k > 0 ==> s[k - 1] in s); }
    }
    if InOrderTo(s, |s|) {
      forall k | 0 <= k < |s| ensures RoundNo(s[k]) == k + 1 { assert InOrder(s, k); }
      forall a, b | a in entries && b in entries && RoundNo(b) == RoundNo(a) + 1 ensures ScheduledAfter(b, a) {
        InOrderPlaces(s, a);
        InOrderPlaces(s, b);
        assert InOrder(s, RoundNo(b) - 1);
      }
    }
  }

  // ---- checkEvidence ---------------------------------------------------------------------------------------

  predicate HasCancelField(e: Entry) { !e.cancelled.Undefined? || !e.cancelTx.Undefined? || !e.cancelStatus.NoStatus? }

  function Executed(d: Document): seq<Entry> {
    d.govern + d.releases + d.applications + d.clears + d.redeploys + d.retirements + d.registrations
  }

  /** Every operation of the document, as the shared checks see them. */
  function Operations(d: Document, kind: Kind): seq<Operation> {
    Plain(d.govern) + Plain(d.releases) + Plain(d.applications) + Plain(d.clears) + Plain(d.retirements)
    + Plain(if kind.Rehearsal? then d.redeploys else [])
    + RowOperations(if kind.Rehearsal? then d.rehearsalRows else []) + Plain(d.registrations)
  }

  predicate HasStep(govern: seq<Entry>, name: string) { exists k | 0 <= k < |govern| :: govern[k].step == Text(name) }

  predicate GovernEntryOk(e: Entry, steps: seq<string>) { e.step.Text? && e.step.s in steps && RoundNo(e) >= 1 }

  ghost predicate GovernOk(govern: seq<Entry>, steps: seq<string>, required: seq<string>) {
    && (forall i | 0 <= i < |required| :: HasStep(govern, required[i]))
    && (forall i | 0 <= i < |govern| :: GovernEntryOk(govern[i], steps))
    && (forall i | 0 <= i < |steps| :: RoundsOk(StepEntries(govern, steps[i])))
  }

  ghost predicate DocumentOk(d: Document, kind: Kind, steps: seq<string>, required: seq<string>) {
    && GovernOk(d.govern, steps, required)
    && (kind.Production? ==> d.redeploys == [] && d.rehearsalRows == [])
    && (forall e | e in Executed(d) :: !HasCancelField(e))
    && (kind.Rehearsal? ==> RowsOk(d.rehearsalRows, |d.rehearsalRows|))
    && OperationsOk(Operations(d, kind), DelayFloor(kind))
  }

  method GovernEntryProblems(govern: seq<Entry>, steps: seq<string>) returns (problems: seq<Problem>)
    ensures problems == [] <==> forall i | 0 <= i < |govern| :: GovernEntryOk(govern[i], steps)
  {
    problems := [];
    for i := 0 to |govern|
      invariant problems == [] <==> forall k | 0 <= k < i :: GovernEntryOk(govern[k], steps)
    {
      if !(govern[i].step.Text? && govern[i].step.s in steps) { problems := problems + [NotAnUnpause(i)]; }
      if !govern[i].round.NoRound? && RoundNo(govern[i]) < 1 { problems := problems + [BadRound(i)]; }
    }
  }

  method GovernProblems(govern: seq<Entry>, steps: seq<string>, required: seq<string>) returns (problems: seq<Problem>)
    ensures problems == [] <==> GovernOk(govern, steps, required)
  {
    problems := GovernEntryProblems(govern, steps);
    ghost var first := problems;
    for i := 0 to |required|
      invariant problems == [] <==> first == [] && forall k | 0 <= k < i :: HasStep(govern, required[k])
    {
      if !HasStep(govern, required[i]) { problems := problems + [MissingStep(required[i])]; }
    }
    var more := RoundProblems(govern, steps);
    problems := problems + more;
  }

  method RoundProblems(govern: seq<Entry>, steps: seq<string>) returns (problems: seq<Problem>)
    ensures problems == [] <==> forall i | 0 <= i < |steps| :: RoundsOk(StepEntries(govern, steps[i]))
  {
    problems := [];
    for i := 0 to |steps|
      invariant problems == [] <==> forall k | 0 <= k < i :: RoundsOk(StepEntries(govern, steps[k]))
    {
      var more := StepRoundProblems(govern, steps[i]);
      problems := problems + more;
    }
  }

  method ForbidCancelFields(entries: seq<Entry>) returns (problems: seq<Problem>)
    ensures problems == [] <==> forall e | e in entries :: !HasCancelField(e)
  {
    problems := [];
    for i := 0 to |entries|
      invariant problems == [] <==> forall k | 0 <= k < i :: !HasCancelField(entries[k])
    {
      if !entries[i].cancelled.Undefined? { problems := problems + [CancelField(i)]; }
      if !entries[i].cancelTx.Undefined? { problems := problems + [CancelField(i)]; }
      if !entries[i].cancelStatus.NoStatus? { problems := problems + [CancelField(i)]; }
    }
  }

  /** The check: `rest` is what its other parts report (stages, addresses, nonces, the shapes of the other lists). */
  method CheckEvidence(d: Document, kind: Kind, steps: seq<string>, required: seq<string>, rest: seq<Problem>)
    returns (problems: seq<Problem>)
    ensures problems == [] <==> rest == [] && DocumentOk(d, kind, steps, required)
  {
    var a := GovernProblems(d.govern, steps, required);
    var redeploys := if kind.Rehearsal? then d.redeploys else [];
    var b: seq<Problem> := if kind.Production? && |d.redeploys| > 0 then [RowsInProduction] else [];
    var c := ForbidCancelFields(d.govern + d.releases + d.applications + d.clears + redeploys + d.retirements +
      d.registrations);
    var e, rows := RehearsalRowProblems(d.rehearsalRows, kind);
    var ops := Plain(d.govern) + Plain(d.releases) + Plain(d.applications) + Plain(d.clears) + Plain(d.retirements)
      + Plain(redeploys) + RowOperations(rows) + Plain(d.registrations);
    assert ops == Operations(d, kind);
    var f := OperationProblems(ops, DelayFloor(kind));
    assert kind.Rehearsal? || d.redeploys == [] ==> redeploys == d.redeploys;
    problems := rest + a + b + c + e + f;
  }
}
