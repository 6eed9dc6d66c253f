/**
 The manifest keys and salt labels as text. The round machine names a record by row, round and archive number;
 this is why the text of two such names is never the same.
 */
module KeyText {
  import opened Basics
  import opened Decimals
  import opened GovernModel

  const ROUND := ":round-"
  const CANCELLED := ":cancelled-"

  /** The label of a round, which salts its operation id, and the key of its archive. */
  function RoundKey(name: string, round: nat): string { name + ROUND + Digits(round) }

  function TextOf(key: Key, nameOf: Row -> string): string {
    match key
    case Current(row) => nameOf(row)
    case Archived(row, n) => RoundKey(nameOf(row), n)
    case Cancelled(row, n, k) => RoundKey(nameOf(row), n) + CANCELLED + Digits(k)
  }

  predicate NoColon(s: string) { forall i | 0 <= i < |s| :: s[i] != ':' }

  /** The two rows' names hold no colon, and tell the rows apart. */
  predicate ToldApart(nameOf: Row -> string, a: Row, b: Row) {
    NoColon(nameOf(a)) && NoColon(nameOf(b)) && (nameOf(a) == nameOf(b) ==> a == b)
  }

  const UNPAUSE := "unpause-"

  /** The tool's names of its rows. */
  function RowName(row: Row): string {
    match row
    case Unpause(vault) => UNPAUSE + vault
    case Single(name) => name
    case CancelRow => "cancel"
  }

  /** A row as the tool names them: no colon, and a one-round row is not called like an unpause or the cancel row. */
  predicate InUse(row: Row) {
    match row
    case Unpause(vault) => NoColon(vault)
    case Single(name) => NoColon(name) && !(UNPAUSE <= name) && name != "cancel"
    case CancelRow => true
  }

  lemma RowNamesTellApart(a: Row, b: Row)
    requires InUse(a) && InUse(b)
    ensures ToldApart(RowName, a, b)
  {
    assert "cancel"[0] != UNPAUSE[0];
    if a.Unpause? { assert RowName(a)[|UNPAUSE|..] == a.vault && UNPAUSE <= RowName(a); }
    if b.Unpause? { assert RowName(b)[|UNPAUSE|..] == b.vault && UNPAUSE <= RowName(b); }
  }

  lemma NameIsNotLonger(a: string, x: string, b: string, y: string)
    requires NoColon(b) && a + x == b + y && (x == "" || x[0] == ':')
    ensures |b| <= |a|
  {
    assert forall i | 0 <= i < |b| :: (a + x)[i] == b[i];
    assert x != "" ==> (a + x)[|a|] == ':';
    assert |a + x| == |b + y|;
  }

  /** Text up to the first colon is decided by the text. */
  lemma FirstColonDecides(a: string, x: string, b: string, y: string)
    requires NoColon(a) && NoColon(b) && a + x == b + y
    requires (x == "" || x[0] == ':') && (y == "" || y[0] == ':')
    ensures a == b && x == y
  {
    NameIsNotLonger(a, x, b, y);
    NameIsNotLonger(b, y, a, x);
    assert a == (a + x)[..|a|] && b == (b + y)[..|b|];
    assert x == (a + x)[|a|..] && y == (b + y)[|b|..];
  }

  lemma DigitsHaveNoColon(n: nat)
    ensures NoColon(Digits(n))
  {
  }

  lemma DigitsDecide(n: nat, m: nat)
    requires Digits(n) == Digits(m)
    ensures n == m
  {
    DigitsReadBack(n);
    DigitsReadBack(m);
  }

  /** What follows the row name, and what follows the round number. */
  function AfterName(key: Key): string {
    match key
    case Current(_) => ""
    case Archived(_, n) => ROUND + Digits(n)
    case Cancelled(_, n, k) => ROUND + Digits(n) + CANCELLED + Digits(k)
  }

  function AfterRound(key: Key): string { if key.Cancelled? then CANCELLED + Digits(key.k) else "" }

  lemma Regroup(a: string, b: string, c: string)
    ensures a + b + c == a + (b + c)
  {
  }

  lemma TextSplits(key: Key, nameOf: Row -> string)
    ensures TextOf(key, nameOf) == nameOf(key.row) + AfterName(key)
    ensures !key.Current? ==> AfterName(key) == ROUND + (Digits(key.round) + AfterRound(key))
    ensures AfterName(key) == "" || AfterName(key)[0] == ':'
    ensures AfterRound(key) == "" || AfterRound(key)[0] == ':'
  {
    match key
    case Current(row) => assert nameOf(row) + "" == nameOf(row);
    case Archived(row, n) =>
      Regroup(nameOf(row), ROUND, Digits(n));
      assert Digits(n) + "" == Digits(n);
    case Cancelled(row, n, k) =>
      Regroup(nameOf(row), ROUND, Digits(n));
      Regroup(ROUND + Digits(n), CANCELLED, Digits(k));
      Regroup(nameOf(row), ROUND + Digits(n), CANCELLED + Digits(k));
      Regroup(nameOf(row) + (ROUND + Digits(n)), CANCELLED, Digits(k));
      Regroup(ROUND, Digits(n), CANCELLED + Digits(k));
  }

  /** No two records of the manifest share a key text: no archive lands on another, nor on a live record. */
  lemma KeysNeverCollide(a: Key, b: Key, nameOf: Row -> string)
    requires ToldApart(nameOf, a.row, b.row) && TextOf(a, nameOf) == TextOf(b, nameOf)
    ensures a == b
  {
    TextSplits(a, nameOf);
    TextSplits(b, nameOf);
    FirstColonDecides(nameOf(a.row), AfterName(a), nameOf(b.row), AfterName(b));
    assert a.row == b.row;
    if !a.Current? && !b.Current? {
      var x, y := Digits(a.round) + AfterRound(a), Digits(b.round) + AfterRound(b);
      assert x == (ROUND + x)[|ROUND|..] && y == (ROUND + y)[|ROUND|..];
      DigitsHaveNoColon(a.round);
      DigitsHaveNoColon(b.round);
      FirstColonDecides(Digits(a.round), AfterRound(a), Digits(b.round), AfterRound(b));
      DigitsDecide(a.round, b.round);
      if a.Cancelled? && b.Cancelled? {
        assert Digits(a.k) == AfterRound(a)[|CANCELLED|..] && Digits(b.k) == AfterRound(b)[|CANCELLED|..];
        DigitsDecide(a.k, b.k);
      }
    }
  }

  /** Two rounds never share a salt label, so their operation ids differ. */
  lemma RoundsHaveTheirOwnLabels(p: OpId, q: OpId, nameOf: Row -> string)
    requires ToldApart(nameOf, p.row, q.row) && RoundKey(nameOf(p.row), p.round) == RoundKey(nameOf(q.row), q.round)
    ensures p == q
  {
    KeysNeverCollide(Archived(p.row, p.round), Archived(q.row, q.round), nameOf);
  }

  /** Both for the tool's own names: its rows' keys and labels never collide. */
  lemma ToolKeysNeverCollide(a: Key, b: Key)
    requires InUse(a.row) && InUse(b.row) && TextOf(a, RowName) == TextOf(b, RowName)
    ensures a == b
  {
    RowNamesTellApart(a.row, b.row);
    KeysNeverCollide(a, b, RowName);
  }

  /** The texts of an unpause row: its record, an executed round, a cancelled schedule of a round. */
  lemma KeyForms(vault: string, n: nat, k: nat)
    ensures TextOf(Current(Unpause(vault)), RowName) == "unpause-" + vault
    ensures TextOf(Archived(Unpause(vault), n), RowName) == "unpause-" + vault + ":round-" + Digits(n)
    ensures TextOf(Cancelled(Unpause(vault), n, k), RowName)
      == "unpause-" + vault + ":round-" + Digits(n) + ":cancelled-" + Digits(k)
  {
  }
}
