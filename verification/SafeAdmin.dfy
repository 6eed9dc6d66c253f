/**
 Safe self-administration: the tool reads the owner list, decides whether a change is in effect, must be
 refused or is sent, and picks the linked-list predecessor. The contract side is the `OwnerManager` of Safe
 1.4.1, whose owners are a singly linked list in a mapping.
 */
module SafeAdmin {
  import opened Basics

  /** An address as the chain compares it. Text case is folded before it gets here. */
  type Address = nat

  const ZERO: Address := 0
  const SENTINEL: Address := 1

  /** A parsed threshold argument: a positive integer. */
  type Threshold = t: nat | t >= 1 witness 1

  // ---- the contract --------------------------------------------------------------------------------

  /** A mapping entry: zero when it was never written. */
  function Pointer(owners: map<Address, Address>, a: Address): Address {
    if a in owners then owners[a] else ZERO
  }

  datatype OwnerManager = OwnerManager(owners: map<Address, Address>, ownerCount: nat, threshold: nat, self: Address) {
    function Next(a: Address): Address { Pointer(owners, a) }
  }

  datatype Revert = GS201 | GS202 | GS203 | GS204 | GS205

  function ChangeThreshold(m: OwnerManager, t: nat): Result<OwnerManager, Revert> {
    if t > m.ownerCount then Err(GS201) else
    if t < 1 then Err(GS202) else
      Ok(m.(threshold := t))
  }

  function WithThreshold(m: OwnerManager, t: nat): Result<OwnerManager, Revert> {
    if m.threshold != t then ChangeThreshold(m, t) else Ok(m)
  }

  predicate NeverOwner(m: OwnerManager, a: Address) { a == ZERO || a == SENTINEL || a == m.self }

  function AddOwnerWithThreshold(m: OwnerManager, owner: Address, t: nat): Result<OwnerManager, Revert> {
    if NeverOwner(m, owner) then Err(GS203) else
    if m.Next(owner) != ZERO then Err(GS204) else
      WithThreshold(m.(owners := m.owners[owner := m.Next(SENTINEL)][SENTINEL := owner], ownerCount := m.ownerCount +
        1), t)
  }

  function RemoveOwner(m: OwnerManager, prev: Address, owner: Address, t: nat): Result<OwnerManager, Revert> {
    if m.ownerCount < t + 1 then Err(GS201) else
    if owner == ZERO || owner == SENTINEL then Err(GS203) else
    if m.Next(prev) != owner then Err(GS205) else
      WithThreshold(m.(owners := m.owners[prev := m.Next(owner)][owner := ZERO], ownerCount := m.ownerCount - 1), t)
  }

  function SwapOwner(m: OwnerManager, prev: Address, old_: Address, new_: Address): Result<OwnerManager, Revert> {
    if NeverOwner(m, new_) then Err(GS203) else
    if m.Next(new_) != ZERO then Err(GS204) else
    if old_ == ZERO || old_ == SENTINEL then Err(GS203) else
    if m.Next(prev) != old_ then Err(GS205) else
      Ok(m.(owners := m.owners[new_ := m.Next(old_)][prev := new_][old_ := ZERO]))
  }

  /**
   The mapping is the linked list of `list`: sentinel to the first owner, each owner to the next, the last to the
   sentinel.
   */
  ghost predicate Linked(owners: map<Address, Address>, list: seq<Address>) {
    && Pointer(owners, SENTINEL) == First(list)
    && (forall i {:trigger Follower(list, i)} {:trigger Pointer(owners, list[i])} | 0 <= i < |list| ::
      Pointer(owners, list[i]) == Follower(list, i))
    && (forall a {:trigger Pointer(owners, a)} | a !in list && a != SENTINEL :: Pointer(owners, a) == ZERO)
  }

  function First(list: seq<Address>): Address { if list == [] then SENTINEL else list[0] }

  function Follower(list: seq<Address>, i: nat): Address
    requires i < |list|
  {
    if i + 1 < |list| then list[i + 1] else SENTINEL
  }

  /** Distinct owners, none of them the zero address, the sentinel or the Safe itself. */
  ghost predicate RealOwners(self: Address, list: seq<Address>) {
    Distinct(list) && forall i | 0 <= i < |list| :: list[i] != ZERO && list[i] != SENTINEL && list[i] != self
  }

  /** A well-formed roster: distinct real owners, linked, counted, and a reachable threshold. */
  ghost predicate WellFormed(m: OwnerManager, list: seq<Address>) {
    RealOwners(m.self, list) && Linked(m.owners, list) && m.ownerCount == |list| && 1 <= m.threshold <= |list|
  }

  /** getOwners: the walk from the sentinel back to the sentinel returns the list. */
  method GetOwners(m: OwnerManager, ghost list: seq<Address>) returns (r: seq<Address>)
    requires WellFormed(m, list)
    ensures r == list
  {
    r := [];
    var cur := m.Next(SENTINEL);
    while cur != SENTINEL
      invariant |r| <= |list| && r == list[..|r|]
      invariant cur == if |r| < |list| then list[|r|] else SENTINEL
      decreases |list| - |r|
    {
      assert cur == list[|r|];
      r := r + [cur];
      cur := m.Next(cur);
    }
  }

  // ---- the tool ------------------------------------------------------------------------------------

  datatype Want =
    | AddWant(owner: Address, threshold: Threshold)
    | RemoveWant(owner: Address, threshold: Threshold)
    | SwapWant(oldOwner: Address, newOwner: Address)
    | ThresholdWant(threshold: Threshold)

  datatype Call =
    | AddCall(owner: Address, threshold: nat)
    | RemoveCall(prev: Address, owner: Address, threshold: nat)
    | SwapCall(prev: Address, oldOwner: Address, newOwner: Address)
    | ThresholdCall(threshold: nat)

  datatype Roster = Roster(owners: seq<Address>, threshold: nat)

  datatype Effect = Effect(owner: bool, threshold: bool)

  /** What the live roster says about the change: both true means it is in effect. */
  function AdminEffect(want: Want, live: Roster): Effect {
    var owner := match want
      case AddWant(o, _) => o in live.owners
      case RemoveWant(o, _) => o !in live.owners
      case SwapWant(o, n) => o !in live.owners && n in live.owners
      case ThresholdWant(_) => true;
    Effect(owner, !want.SwapWant? ==> live.threshold == want.threshold)
  }

  /** The OwnerManager rules the tool checks itself. */
  function RuleProblem(want: Want, live: Roster, safe: Address): Option<Revert> {
    var n := |live.owners|;
    match want
    case AddWant(o, t) =>
      if o == ZERO || o == SENTINEL || o == safe then Some(GS203) else
      if o in live.owners then Some(GS204) else
      if t > n + 1 then Some(GS201) else None
    case RemoveWant(_, t) => if t > n - 1 then Some(GS201) else None
    case SwapWant(_, o) =>
      if o == ZERO || o == SENTINEL || o == safe then Some(GS203) else
      if o in live.owners then Some(GS204) else None
    case ThresholdWant(t) => if t > n then Some(GS201) else None
  }

  function IndexOf(list: seq<Address>, o: Address): (i: nat)
    requires o in list
    ensures i < |list| && list[i] == o && o !in list[..i]
  {
    if list[0] == o then 0 else 1 + IndexOf(list[1..], o)
  }

  /** The predecessor of an owner in the list, the sentinel for the first. None: not an owner. */
  function PrevOf(owners: seq<Address>, o: Address): Option<Address> {
    if o !in owners then None else
      var i := IndexOf(owners, o);
      Some(if i == 0 then SENTINEL else owners[i - 1])
  }

  datatype Decision = InEffect | OnlyThresholdDiffers | BreaksRule(rule: Revert) | NotAnOwner | Send(call: Call)

  /** What a self-administration row does with the roster it read. */
  function Decide(want: Want, live: Roster, safe: Address): Decision {
    var before := AdminEffect(want, live);
    if before.owner && before.threshold then InEffect else
    if before.owner && !want.ThresholdWant? then OnlyThresholdDiffers else
    match RuleProblem(want, live, safe)
    case Some(rule) => BreaksRule(rule)
    case None =>
      match want
      case AddWant(o, t) => Send(AddCall(o, t))
      case ThresholdWant(t) => Send(ThresholdCall(t))
      case RemoveWant(o, t) =>
        (match PrevOf(live.owners, o) case None => NotAnOwner case Some(p) => Send(RemoveCall(p, o, t)))
      case SwapWant(o, n) =>
        (match PrevOf(live.owners, o) case None => NotAnOwner case Some(p) => Send(SwapCall(p, o, n)))
  }

  function Execute(m: OwnerManager, c: Call): Result<OwnerManager, Revert> {
    match c
    case AddCall(o, t) => AddOwnerWithThreshold(m, o, t)
    case RemoveCall(p, o, t) => RemoveOwner(m, p, o, t)
    case SwapCall(p, o, n) => SwapOwner(m, p, o, n)
    case ThresholdCall(t) => ChangeThreshold(m, t)
  }

  // ---- what holds ----------------------------------------------------------------------------------

  /** The roster already is what the change asks for, case by case. */
  predicate InPlace(want: Want, live: Roster) {
    match want
    case AddWant(o, t) => o in live.owners && live.threshold == t
    case RemoveWant(o, t) => o !in live.owners && live.threshold == t
    case SwapWant(o, n) => o !in live.owners && n in live.owners
    case ThresholdWant(t) => live.threshold == t
  }

  /** A row sends nothing because it is in effect exactly when the roster already is what it asks for. */
  lemma InEffectExactlyWhen(want: Want, live: Roster, safe: Address)
    ensures Decide(want, live, safe).InEffect? <==> InPlace(want, live)
    ensures AdminEffect(want, live) == Effect(true, true) <==> InPlace(want, live)
    ensures Decide(want, live, safe).OnlyThresholdDiffers? <==>
      || (want.AddWant? && want.owner in live.owners && live.threshold != want.threshold)
      || (want.RemoveWant? && want.owner !in live.owners && live.threshold != want.threshold)
  {
  }

  /** The owner list a change leaves behind. */
  function After(want: Want, list: seq<Address>): seq<Address> {
    match want
    case AddWant(o, _) => [o] + list
    case RemoveWant(o, _) => if o in list then list[..IndexOf(list, o)] + list[IndexOf(list, o) + 1..] else list
    case SwapWant(o, n) => if o in list then list[IndexOf(list, o) := n] else list
    case ThresholdWant(_) => list
  }

  lemma AddLinks(owners: map<Address, Address>, self: Address, list: seq<Address>, o: Address)
    requires RealOwners(self, list) && Linked(owners, list) && o != SENTINEL && o !in list
    ensures Linked(owners[o := Pointer(owners, SENTINEL)][SENTINEL := o], [o] + list)
  {
    var after, links := [o] + list, owners[o := Pointer(owners, SENTINEL)][SENTINEL := o];
    forall i | 0 <= i < |after| ensures Pointer(links, after[i]) == Follower(after, i) {
      if i > 0 {
        assert after[i] == list[i - 1];
        assert Pointer(owners, list[i - 1]) == Follower(list, i - 1);
      }
    }
    forall a | a !in after && a != SENTINEL ensures Pointer(links, a) == ZERO {
      assert a != after[0];
      assert list == after[1..];
      assert Pointer(owners, a) == ZERO;
    }
  }

  lemma SplitAt(list: seq<Address>, i: nat, a: Address)
    requires i < |list| && a != list[i]
    ensures a in list <==> a in list[..i] + list[i + 1..]
  {
    assert list == list[..i] + [list[i]] + list[i + 1..];
  }

  lemma RemoveLinks(owners: map<Address, Address>, self: Address, list: seq<Address>, i: nat)
    requires RealOwners(self, list) && Linked(owners, list) && i < |list|
    ensures var prev := if i == 0 then SENTINEL else list[i - 1];
            Linked(owners[prev := Pointer(owners, list[i])][list[i] := ZERO], list[..i] + list[i + 1..])
  {
    var prev := if i == 0 then SENTINEL else list[i - 1];
    var after, links := list[..i] + list[i + 1..], owners[prev := Pointer(owners, list[i])][list[i] := ZERO];
    assert Pointer(owners, list[i]) == Follower(list, i);
    forall j | 0 <= j < |after| ensures Pointer(links, after[j]) == Follower(after, j) {
      var k := if j < i then j else j + 1;
      assert after[j] == list[k] && list[k] != list[i];
      assert Pointer(owners, list[k]) == Follower(list, k);
    }
    forall a | a !in after && a != SENTINEL ensures Pointer(links, a) == ZERO {
      if a != list[i] {
        assert a !in list by { SplitAt(list, i, a); }
        assert Pointer(owners, a) == ZERO;
        if i > 0 { SplitAt(list, i, list[i - 1]); }
      }
    }
  }

  /** The three writes of a swap, at each address. */
  lemma SwapWrites(owners: map<Address, Address>, prev: Address, old_: Address, n: Address, a: Address)
    requires prev != old_ && n != prev && n != old_
    ensures var links := owners[n := Pointer(owners, old_)][prev := n][old_ := ZERO];
            Pointer(links, a) ==
            if a == old_ then ZERO else if a == prev then n
            else if a == n then Pointer(owners, old_) else Pointer(owners, a)
  {
  }

  lemma SwapLinks(owners: map<Address, Address>, self: Address, list: seq<Address>, i: nat, n: Address)
    requires RealOwners(self, list) && Linked(owners, list) && i < |list| && n != SENTINEL && n !in list
    ensures var prev := if i == 0 then SENTINEL else list[i - 1];
            Linked(owners[n := Pointer(owners, list[i])][prev := n][list[i] := ZERO], list[i := n])
  {
    var prev := if i == 0 then SENTINEL else list[i - 1];
    var after, links := list[i := n], owners[n := Pointer(owners, list[i])][prev := n][list[i] := ZERO];
    SwapWrites(owners, prev, list[i], n, SENTINEL);
    forall j | 0 <= j < |after| ensures Pointer(links, after[j]) == Follower(after, j) {
      SwapWrites(owners, prev, list[i], n, after[j]);
      SwapFollows(owners, self, list, i, n, j);
    }
    forall a | a !in after && a != SENTINEL ensures Pointer(links, a) == ZERO {
      SwapWrites(owners, prev, list[i], n, a);
      SwapOutsiders(list, i, n, a);
    }
  }

  lemma SwapFollows(owners: map<Address, Address>, self: Address, list: seq<Address>, i: nat, n: Address, j: nat)
    requires RealOwners(self, list) && Linked(owners, list) && i < |list| && n != SENTINEL && n !in list && j < |list|
    ensures var prev := if i == 0 then SENTINEL else list[i - 1];
            var a := list[i := n][j];
            Follower(list[i := n], j) ==
            if a == list[i] then ZERO else if a == prev then n
            else if a == n then Pointer(owners, list[i]) else Pointer(owners, a)
  {
    assert Pointer(owners, list[j]) == Follower(list, j);
    if j == i {
      assert list[i := n][j] == n;
    } else {
      assert list[i := n][j] == list[j] != list[i];
    }
  }

  lemma SwapOutsiders(list: seq<Address>, i: nat, n: Address, a: Address)
    requires i < |list| && a !in list[i := n]
    ensures a != n && (a in list ==> a == list[i]) && (i > 0 ==> a != list[i - 1] || list[i - 1] == list[i])
  {
    var after := list[i := n];
    assert after[i] == n && forall k | 0 <= k < |list| && k != i :: after[k] == list[k];
  }

  lemma OwnersStayReal(self: Address, list: seq<Address>, i: nat, n: Address)
    requires RealOwners(self, list)
    ensures i < |list| ==> RealOwners(self, list[..i] + list[i + 1..])
    ensures n != ZERO && n != SENTINEL && n != self && n !in list ==> RealOwners(self, [n] + list)
    ensures n != ZERO && n != SENTINEL && n != self && n !in list && i < |list| ==> RealOwners(self, list[i := n])
  {
  }

  /** The read-back of a change passes on a roster. */
  ghost predicate Leaves(m: OwnerManager, list: seq<Address>, want: Want) {
    WellFormed(m, list) && InPlace(want, Roster(list, m.threshold))
  }

  lemma AddAccepted(m: OwnerManager, list: seq<Address>, o: Address, t: Threshold)
    requires WellFormed(m, list) && !NeverOwner(m, o) && o !in list && t <= |list| + 1
    ensures var r := AddOwnerWithThreshold(m, o, t); r.Ok? && Leaves(r.value, [o] + list, AddWant(o, t))
  {
    AddLinks(m.owners, m.self, list, o);
    OwnersStayReal(m.self, list, 0, o);
    assert ([o] + list)[0] == o;
    assert Pointer(m.owners, o) == ZERO;
  }

  lemma RemoveAccepted(m: OwnerManager, list: seq<Address>, i: nat, t: Threshold)
    requires WellFormed(m, list) && i < |list| && t <= |list| - 1
    ensures var r := RemoveOwner(m, if i == 0 then SENTINEL else list[i - 1], list[i], t);
            r.Ok? && Leaves(r.value, list[..i] + list[i + 1..], RemoveWant(list[i], t))
  {
    PointsTo(m, list, i);
    RemoveLinks(m.owners, m.self, list, i);
    OwnersStayReal(m.self, list, i, ZERO);
    assert forall j | 0 <= j < |list| && j != i :: list[j] != list[i];
  }

  lemma SwapAccepted(m: OwnerManager, list: seq<Address>, i: nat, n: Address)
    requires WellFormed(m, list) && i < |list| && !NeverOwner(m, n) && n !in list
    ensures var r := SwapOwner(m, if i == 0 then SENTINEL else list[i - 1], list[i], n);
            r.Ok? && Leaves(r.value, list[i := n], SwapWant(list[i], n))
  {
    PointsTo(m, list, i);
    SwapLinks(m.owners, m.self, list, i, n);
    OwnersStayReal(m.self, list, i, n);
    assert Pointer(m.owners, n) == ZERO;
    assert list[i := n][i] == n;
    assert forall j | 0 <= j < |list| && j != i :: list[j] != list[i];
  }

  /**
   What the tool sends, the Safe accepts: with the predecessor taken from the owner list, the call does not
   revert, the roster stays well formed with exactly the intended list, and the read-back reports no problem.
   */
  lemma SentIsAccepted(m: OwnerManager, list: seq<Address>, want: Want)
    requires WellFormed(m, list) && Decide(want, Roster(list, m.threshold), m.self).Send?
    ensures var r := Execute(m, Decide(want, Roster(list, m.threshold), m.self).call);
            && r.Ok? && WellFormed(r.value, After(want, list))
            && InPlace(want, Roster(After(want, list), r.value.threshold))
            && AdminEffect(want, Roster(After(want, list), r.value.threshold)) == Effect(true, true)
            && (want.SwapWant? ==> r.value.threshold == m.threshold)
  {
    if want.AddWant? {
      AddAccepted(m, list, want.owner, want.threshold);
    } else if want.RemoveWant? {
      RemoveAccepted(m, list, IndexOf(list, want.owner), want.threshold);
    } else if want.SwapWant? {
      SwapAccepted(m, list, IndexOf(list, want.oldOwner), want.newOwner);
    }
  }

  lemma PointsTo(m: OwnerManager, list: seq<Address>, i: nat)
    requires WellFormed(m, list) && i < |list|
    ensures m.Next(if i == 0 then SENTINEL else list[i - 1]) == list[i]
  {
    if i > 0 { assert Pointer(m.owners, list[i - 1]) == Follower(list, i - 1); }
  }

  /** The call a row makes when it is free to choose the predecessor. */
  function CallWith(want: Want, prev: Address): Call {
    match want
    case AddWant(o, t) => AddCall(o, t)
    case RemoveWant(o, t) => RemoveCall(prev, o, t)
    case SwapWant(o, n) => SwapCall(prev, o, n)
    case ThresholdWant(t) => ThresholdCall(t)
  }

  /**
   The tool's rules are the contract's: a change that is not in effect is sent exactly when some predecessor
   makes the Safe accept it. A refused row could not have gone through whatever predecessor it named.
   */
  lemma SendsExactlyTheAcceptable(m: OwnerManager, list: seq<Address>, want: Want)
    requires WellFormed(m, list) && !InPlace(want, Roster(list, m.threshold))
    ensures Decide(want, Roster(list, m.threshold), m.self).Send? <==>
      exists prev :: Execute(m, CallWith(want, prev)).Ok?
  {
    var d := Decide(want, Roster(list, m.threshold), m.self);
    if d.Send? {
      SentIsAccepted(m, list, want);
      var prev := if d.call.RemoveCall? || d.call.SwapCall? then d.call.prev else ZERO;
      assert d.call == CallWith(want, prev);
    } else {
      forall prev ensures Execute(m, CallWith(want, prev)).Err? {
        NextIsOwner(m, list, prev);
        if want.AddWant? && want.owner in list { NextOfOwner(m, list, want.owner); }
        if want.SwapWant? && want.newOwner in list { NextOfOwner(m, list, want.newOwner); }
      }
    }
  }

  lemma NextIsOwner(m: OwnerManager, list: seq<Address>, a: Address)
    requires WellFormed(m, list)
    ensures m.Next(a) == ZERO || m.Next(a) == SENTINEL || m.Next(a) in list
  {
    if a in list {
      var i :| 0 <= i < |list| && list[i] == a;
      assert m.Next(list[i]) == Follower(list, i);
    }
  }

  lemma NextOfOwner(m: OwnerManager, list: seq<Address>, a: Address)
    requires WellFormed(m, list) && a in list
    ensures m.Next(a) != ZERO
  {
    var i :| 0 <= i < |list| && list[i] == a;
    assert m.Next(list[i]) == Follower(list, i);
  }

  /** A sequence of rows, each decided on the roster the ones before it left. */
  function Administer(m: OwnerManager, list: seq<Address>, wants: seq<Want>): (OwnerManager, seq<Address>)
    decreases |wants|
  {
    if wants == [] then (m, list) else
      match Decide(wants[0], Roster(list, m.threshold), m.self)
      case Send(call) =>
        (match Execute(m, call)
         case Ok(n) => Administer(n, After(wants[0], list), wants[1..])
         case Err(_) => (m, list))
      case _ => Administer(m, list, wants[1..])
  }

  /** Every call the rows send on the way is accepted. */
  ghost predicate AllAccepted(m: OwnerManager, list: seq<Address>, wants: seq<Want>)
    decreases |wants|
  {
    wants == [] ||
    match Decide(wants[0], Roster(list, m.threshold), m.self)
    case Send(call) => Execute(m, call).Ok? && AllAccepted(Execute(m, call).value, After(wants[0], list), wants[1..])
    case _ => AllAccepted(m, list, wants[1..])
  }

  /** Whatever rows are run in whatever order, the Safe keeps a well-formed roster and never reverts one of them. */
  lemma {:induction false} RosterStaysWellFormed(m: OwnerManager, list: seq<Address>, wants: seq<Want>)
    requires WellFormed(m, list)
    ensures WellFormed(Administer(m, list, wants).0, Administer(m, list, wants).1) && AllAccepted(m, list, wants)
    decreases |wants|
  {
    if wants == [] {
    } else {
      var d := Decide(wants[0], Roster(list, m.threshold), m.self);
      if d.Send? {
        SentIsAccepted(m, list, wants[0]);
        RosterStaysWellFormed(Execute(m, d.call).value, After(wants[0], list), wants[1..]);
      } else {
        RosterStaysWellFormed(m, list, wants[1..]);
      }
    }
  }
}
