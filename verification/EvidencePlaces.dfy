/** What a silent evidence check says of every entry of the document, by the list it stands in. */
module EvidencePlaces {
  import opened Basics
  import opened Evidence
  import opened EvidenceTheorems

  datatype ListName =
    | Govern | Releases | Applications | Clears | Retirements | Redeploys | RehearsalRows | Registrations

  /** An entry of the document: the list it stands in and where. */
  datatype Place = Place(list: ListName, at: nat)

  function EntriesIn(d: Document, list: ListName): seq<Entry> {
    match list
    case Govern => d.govern
    case Releases => d.releases
    case Applications => d.applications
    case Clears => d.clears
    case Retirements => d.retirements
    case Redeploys => d.redeploys
    case RehearsalRows => d.rehearsalRows
    case Registrations => d.registrations
  }

  predicate Present(d: Document, p: Place) { p.at < |EntriesIn(d, p.list)| }

  function EntryAt(d: Document, p: Place): Entry
    requires Present(d, p)
  {
    EntriesIn(d, p.list)[p.at]
  }

  /** The cancel row of a rehearsal: the one entry that stands for a cancel and not an execute. */
  predicate IsCancelRow(d: Document, p: Place)
    requires Present(d, p)
  {
    p.list.RehearsalRows? && EntryAt(d, p).step == Text("cancel")
  }

  /** The transaction that ends the operation: the cancel of a cancel row, the execute of any other. */
  function EndTx(d: Document, p: Place): Field
    requires Present(d, p)
  {
    if IsCancelRow(d, p) then EntryAt(d, p).cancelTx else EntryAt(d, p).executeTx
  }

  function EndStatus(d: Document, p: Place): Status
    requires Present(d, p)
  {
    if IsCancelRow(d, p) then EntryAt(d, p).cancelStatus else EntryAt(d, p).executeStatus
  }

  // ---- every entry is an operation -----------------------------------------------------------------

  function Offset(d: Document, list: ListName): nat {
    match list
    case Govern => 0
    case Releases => |d.govern|
    case Applications => |d.govern| + |d.releases|
    case Clears => |d.govern| + |d.releases| + |d.applications|
    case Retirements => |d.govern| + |d.releases| + |d.applications| + |d.clears|
    case Redeploys => |d.govern| + |d.releases| + |d.applications| + |d.clears| + |d.retirements|
    case RehearsalRows => |d.govern| + |d.releases| + |d.applications| + |d.clears| + |d.retirements| + |d.redeploys|
    case Registrations =>
      |d.govern| + |d.releases| + |d.applications| + |d.clears| + |d.retirements| + |d.redeploys| + |d.rehearsalRows|
  }

  function IndexOf(d: Document, p: Place): nat { Offset(d, p.list) + p.at }

  predicate NoRehearsalParts(d: Document, kind: Kind) { kind.Production? ==>
    d.redeploys == [] && d.rehearsalRows == [] }

  function OperationOf(d: Document, p: Place): Operation
    requires Present(d, p)
  {
    if p.list.RehearsalRows? then RowOperation(EntryAt(d, p)) else Operation(EntryAt(d, p), false)
  }

  function Front(d: Document): seq<Operation> {
    Plain(d.govern) + Plain(d.releases) + Plain(d.applications) + Plain(d.clears) }

  function Middle(d: Document): seq<Operation> { Plain(d.retirements) + Plain(d.redeploys) }

  function Back(d: Document): seq<Operation> { RowOperations(d.rehearsalRows) + Plain(d.registrations) }

  lemma FrontAt(d: Document, p: Place)
    requires Present(d, p) && (p.list.Govern? || p.list.Releases? || p.list.Applications? || p.list.Clears?)
    ensures IndexOf(d, p) < |Front(d)| && Front(d)[IndexOf(d, p)] == OperationOf(d, p)
  {
  }

  lemma MiddleAt(d: Document, p: Place)
    requires Present(d, p) && (p.list.Retirements? || p.list.Redeploys?)
    ensures |Front(d)| <= IndexOf(d, p) < |Front(d)| + |Middle(d)|
    ensures Middle(d)[IndexOf(d, p) - |Front(d)|] == OperationOf(d, p)
  {
  }

  lemma BackAt(d: Document, p: Place)
    requires Present(d, p) && (p.list.RehearsalRows? || p.list.Registrations?)
    ensures |Front(d)| + |Middle(d)| <= IndexOf(d, p) < |Front(d)| + |Middle(d)| + |Back(d)|
    ensures Back(d)[IndexOf(d, p) - |Front(d)| - |Middle(d)|] == OperationOf(d, p)
  {
  }

  lemma InThreeParts(d: Document, kind: Kind)
    requires NoRehearsalParts(d, kind)
    ensures Operations(d, kind) == Front(d) + Middle(d) + Back(d)
  {
    assert (if kind.Rehearsal? then d.redeploys else []) == d.redeploys;
    assert (if kind.Rehearsal? then d.rehearsalRows else []) == d.rehearsalRows;
  }

  lemma OperationIs(d: Document, kind: Kind, p: Place)
    requires NoRehearsalParts(d, kind) && Present(d, p)
    ensures IndexOf(d, p) < |Operations(d, kind)| && Operations(d, kind)[IndexOf(d, p)] == OperationOf(d, p)
  {
    InThreeParts(d, kind);
    if p.list.Govern? || p.list.Releases? || p.list.Applications? || p.list.Clears? {
      FrontAt(d, p);
    } else if p.list.Retirements? || p.list.Redeploys? {
      MiddleAt(d, p);
    } else {
      BackAt(d, p);
    }
  }

  /** The operations are the entries of the eight lists, none dropped, each with its own fields. */
  lemma OperationAt(d: Document, kind: Kind, p: Place)
    requires NoRehearsalParts(d, kind) && Present(d, p)
    ensures IndexOf(d, p) < |Operations(d, kind)|
    ensures var op := Operations(d, kind)[IndexOf(d, p)];
            && op.internalCancel == IsCancelRow(d, p)
            && Get(op, ScheduleTx) == EntryAt(d, p).scheduleTx && Get(op, ExecuteTx) == EndTx(d, p)
            && Get(op, OperationId) == EntryAt(d, p).operationId
            && op.entry.scheduleStatus == EntryAt(d, p).scheduleStatus && op.entry.executeStatus == EndStatus(d, p)
            && op.entry.scheduleTime == EntryAt(d, p).scheduleTime && op.entry.executeTime == EntryAt(d, p).executeTime
  {
    OperationIs(d, kind, p);
  }

  lemma PlacesDiffer(d: Document, p: Place, q: Place)
    requires Present(d, p) && Present(d, q) && p != q
    ensures IndexOf(d, p) != IndexOf(d, q)
  {
  }

  // ---- uniqueness ------------------------------------------------------------------------------------

  /** Two fields hold one non-empty text, and both as JSON text. */
  predicate SharedText(a: Field, b: Field) { a.Text? && b.Text? && a.s != "" && Lower(a.s) == Lower(b.s) }

  /**
   No schedule transaction, no execute transaction and no operation id serves two entries of the document, whatever
   lists they stand in. The cancel transaction of a rehearsal cancel row counts as its execute.
   */
  lemma NothingIsShared(d: Document, kind: Kind, steps: seq<string>, required: seq<string>, p: Place, q: Place)
    requires DocumentOk(d, kind, steps, required) && Present(d, p) && Present(d, q) && p != q
    ensures !SharedText(EntryAt(d, p).scheduleTx, EntryAt(d, q).scheduleTx)
    ensures !SharedText(EndTx(d, p), EndTx(d, q))
    ensures !SharedText(EntryAt(d, p).operationId, EntryAt(d, q).operationId)
  {
    OperationAt(d, kind, p);
    OperationAt(d, kind, q);
    PlacesDiffer(d, p, q);
    var i, j := IndexOf(d, p), IndexOf(d, q);
    var a, b := if i < j then i else j, if i < j then j else i;
    OperationsShareNothing(d, kind, steps, required, a, b, ScheduleTx);
    OperationsShareNothing(d, kind, steps, required, a, b, ExecuteTx);
    OperationsShareNothing(d, kind, steps, required, a, b, OperationId);
  }

  // ---- what each entry shows -------------------------------------------------------------------------

  /**
   Every entry of every list shows a mined schedule and a mined end, two different transactions. Only the rehearsal rows
   may carry a cancel, and a cancel row no execute.
   */
  lemma EveryEntrySucceeded(d: Document, kind: Kind, steps: seq<string>, required: seq<string>, p: Place)
    requires DocumentOk(d, kind, steps, required) && Present(d, p)
    ensures IsTx(Form(EntryAt(d, p).scheduleTx)) && EntryAt(d, p).scheduleStatus == Code(1)
    ensures IsTx(Form(EndTx(d, p))) && EndStatus(d, p) == Code(1)
    ensures !SharedText(EntryAt(d, p).scheduleTx, EndTx(d, p))
    ensures !p.list.RehearsalRows? ==>
      var e := EntryAt(d, p); e.cancelled.Undefined? && e.cancelTx.Undefined? && e.cancelStatus.NoStatus?
    ensures IsCancelRow(d, p) ==> EntryAt(d, p).executeTx.Undefined?
  {
    OperationAt(d, kind, p);
    assert OperationOk(Operations(d, kind)[IndexOf(d, p)], DelayFloor(kind));
    if p.list.RehearsalRows? {
      assert RowOk(d.rehearsalRows[p.at]);
    } else {
      assert EntryAt(d, p) in Executed(d);
    }
  }

  /**
   Every entry keeps the delay floor, 172800 s in production and 900 s in a rehearsal, except the cancel row of a
   rehearsal. There is at most one such row, and none in production.
   */
  lemma FloorHasOneException(d: Document, kind: Kind, steps: seq<string>, required: seq<string>, p: Place, q: Place)
    requires DocumentOk(d, kind, steps, required) && Present(d, p) && Present(d, q)
    ensures !IsCancelRow(d, p) ==>
      var e := EntryAt(d, p);
      && e.scheduleTime.Some? && e.executeTime.Some?
      && e.executeTime.value - e.scheduleTime.value >= if kind.Rehearsal? then 900.0 else 172800.0
    ensures IsCancelRow(d, p) ==> kind.Rehearsal? && (IsCancelRow(d, q) ==> p == q)
  {
    OperationAt(d, kind, p);
    assert OperationOk(Operations(d, kind)[IndexOf(d, p)], DelayFloor(kind));
    if IsCancelRow(d, p) && IsCancelRow(d, q) {
      assert p.at < q.at ==> !SameStep(d.rehearsalRows[p.at], d.rehearsalRows[q.at]);
      assert q.at < p.at ==> !SameStep(d.rehearsalRows[q.at], d.rehearsalRows[p.at]);
    }
  }
}
