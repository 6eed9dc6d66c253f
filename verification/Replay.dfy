/**
 The chain reads of the evidence check, recorded once against a live chain and replayed offline from the
 fixture. A read the fixture lacks is an error, never a guess.
 */
module Replay {
  import opened Basics
  import opened Decimals

  datatype Receipt = Receipt(status: string, blockNumber: int, rest: string)

  datatype Query =
    | ChainId
    | Nonce(address: string)
    | ReceiptOf(hash: string)
    | Block(number: int)
    | Code(address: string)
    | Storage(address: string, slot: string)
    | Read(address: string, fn: string)

  /** `Missing` is the undefined a reader answers for no code or no storage. */
  datatype Value =
    | Number(n: int) | Big(b: int) | Text(s: string) | Flag(f: bool) | Texts(list: seq<string>) | Rcpt(r: Receipt)
    | Missing

  type Reader = Query -> Option<Value>

  datatype Entry = Entry(hash: string, receipt: Receipt)

  /** The recorded answers. Receipts are a list with a hash field, the rest is keyed by folded text. */
  datatype Fixture = Fixture(
    chainId: int, nonces: map<string, int>, receipts: seq<Entry>, blocks: map<int, int>,
    codes: map<string, string>, storage: map<(string, string), string>, calls: map<(string, string), Value>)

  const EMPTY_FIXTURE := Fixture(0, map[], [], map[], map[], map[], map[])

  /** The queries one recorded answer serves: address, hash and slot case is folded. */
  function Key(q: Query): Query {
    match q
    case Nonce(a) => Nonce(Lower(a))
    case ReceiptOf(h) => ReceiptOf(Lower(h))
    case Code(a) => Code(Lower(a))
    case Storage(a, s) => Storage(Lower(a), Lower(s))
    case Read(a, fn) => Read(Lower(a), fn)
    case _ => q
  }

  /** One address or hash in any letter case. */
  predicate SameText(a: string, b: string) { Lower(a) == Lower(b) }

  /** Two queries are answered as one exactly when they ask the same of one address, hash or slot in any letter case. */
  lemma OneAnswerExactlyWhen(p: Query, q: Query)
    ensures Key(p) == Key(q) <==>
      match (p, q)
      case (Nonce(a), Nonce(b)) => SameText(a, b)
      case (ReceiptOf(a), ReceiptOf(b)) => SameText(a, b)
      case (Code(a), Code(b)) => SameText(a, b)
      case (Storage(a, s), Storage(b, t)) => SameText(a, b) && SameText(s, t)
      case (Read(a, f), Read(b, g)) => SameText(a, b) && f == g
      case _ => p == q
  {
  }

  /** What an answer reads back as: a bigint contract read as decimal text, no code and no storage as 0x. */
  function ReadBack(q: Query, v: Value): Value {
    match q
    case Read(_, _) => if v.Big? then Text(Decimal(v.b)) else v
    case Code(_) => if v.Missing? then Text("0x") else v
    case Storage(_, _) => if v.Missing? then Text("0x") else v
    case _ => v
  }

  /** A text stands for a number when it is a numeral that reads as it. */
  predicate StandsFor(v: Value, n: int) { v.Text? && IsNumeral(v.s) && NumberIn(v.s) == n }

  /** A replayed answer stands in for a live one: a numeral for a bigint of a read, 0x for no code or storage. */
  predicate StandsIn(q: Query, live: Value, replayed: Value) {
    match q
    case Read(_, _) => if live.Big? then StandsFor(replayed, live.b) else replayed == live
    case Code(_) => if live.Missing? then replayed == Text("0x") else replayed == live
    case Storage(_, _) => if live.Missing? then replayed == Text("0x") else replayed == live
    case _ => replayed == live
  }

  lemma ReadBackStandsIn(q: Query, v: Value)
    ensures StandsIn(q, v, ReadBack(q, v))
  {
    if q.Read? && v.Big? { DecimalReadsBack(v.b); }
  }

  /** Two bigints with one stand-in are one number. */
  lemma StandInTellsNumbers(q: Query, a: int, b: int, x: Value)
    requires q.Read? && StandsIn(q, Big(a), x) && StandsIn(q, Big(b), x)
    ensures a == b
  {
  }

  /** The answer types of the reader interface. */
  predicate Typed(q: Query, v: Value) {
    match q
    case ChainId => v.Number?
    case Nonce(_) => v.Number?
    case ReceiptOf(_) => v.Rcpt?
    case Block(_) => v.Big?
    case Code(_) => v.Text? || v.Missing?
    case Storage(_, _) => v.Text? || v.Missing?
    case Read(_, _) => !v.Missing?
  }

  /** A live chain: typed answers, one answer per key, and a chain id that can be read. */
  ghost predicate Consistent(live: Reader) {
    && live(ChainId).Some?
    && (forall q :: live(q).Some? ==> Typed(q, live(q).value))
    && (forall p, q | Key(p) == Key(q) :: live(p) == live(q))
  }

  // ---- the recorder --------------------------------------------------------------------------------

  function Without(receipts: seq<Entry>, hash: string): seq<Entry> {
    if receipts == [] then []
      else (if Lower(receipts[0].hash) == hash then [] else [receipts[0]]) + Without(receipts[1..], hash)
  }

  function Find(receipts: seq<Entry>, hash: string): Option<Receipt> {
    if receipts == [] then None else if Lower(receipts[0].hash) == hash then Some(receipts[0].receipt)
      else Find(receipts[1..], hash)
  }

  function TextOf(v: Value): string { if v.Text? then v.s else "0x" }

  /** The fixture with one more answer. */
  function Recorded(fx: Fixture, q: Query, v: Value): Fixture
    requires Typed(q, v)
  {
    match q
    case ChainId => fx.(chainId := v.n)
    case Nonce(a) => fx.(nonces := fx.nonces[Lower(a) := v.n])
    case ReceiptOf(h) => fx.(receipts := Without(fx.receipts, Lower(h)) + [Entry(Lower(h), v.r)])
    case Block(n) => fx.(blocks := fx.blocks[n := v.b])
    case Code(a) => fx.(codes := fx.codes[Lower(a) := TextOf(v)])
    case Storage(a, s) => fx.(storage := fx.storage[(Lower(a), Lower(s)) := TextOf(v)])
    case Read(a, fn) => fx.(calls := fx.calls[(Lower(a), fn) := ReadBack(q, v)])
  }

  /** chainReaderFromFixture: none is the thrown "the chain fixture has no ...". */
  function FromFixture(fx: Fixture, q: Query): Option<Value> {
    match q
    case ChainId => Some(Number(fx.chainId))
    case Nonce(a) => if Lower(a) in fx.nonces then Some(Number(fx.nonces[Lower(a)])) else None
    case ReceiptOf(h) => (match Find(fx.receipts, Lower(h)) case None => None case Some(r) => Some(Rcpt(r)))
    case Block(n) => if n in fx.blocks then Some(Big(fx.blocks[n])) else None
    case Code(a) => if Lower(a) in fx.codes then Some(Text(fx.codes[Lower(a)])) else None
    case Storage(a, s) => if (Lower(a), Lower(s)) in fx.storage then Some(Text(fx.storage[(Lower(a), Lower(s))]))
      else None
    case Read(a, fn) => if (Lower(a), fn) in fx.calls then Some(fx.calls[(Lower(a), fn)]) else None
  }

  lemma {:induction false} FindAfterPush(receipts: seq<Entry>, hash: string, r: Receipt, other: string)
    requires Lower(hash) == hash
    ensures Find(Without(receipts, hash) + [Entry(hash, r)], other) == if other == hash then Some(r)
      else Find(receipts, other)
  {
    var tail := [Entry(hash, r)];
    if receipts == [] {
      assert Without(receipts, hash) + tail == tail;
    } else {
      FindAfterPush(receipts[1..], hash, r, other);
      var rest := Without(receipts[1..], hash);
      if Lower(receipts[0].hash) == hash {
        assert Without(receipts, hash) + tail == rest + tail;
      } else {
        assert Without(receipts, hash) + tail == [receipts[0]] + (rest + tail);
      }
    }
  }

  lemma RecordedForm(fx: Fixture, q: Query, v: Value, p: Query)
    requires Typed(q, v)
    ensures FromFixture(Recorded(fx, q, v), p) == if Key(p) == Key(q) then Some(ReadBack(q, v)) else FromFixture(fx, p)
  {
    if q.ReceiptOf? && p.ReceiptOf? {
      LowerIdempotent(q.hash);
      FindAfterPush(fx.receipts, Lower(q.hash), v.r, Lower(p.hash));
    }
  }

  /** Recording an answer makes exactly the queries of its key answer what stands in for it, and moves no other. */
  lemma RecordedReadsBack(fx: Fixture, q: Query, v: Value, p: Query)
    requires Typed(q, v)
    ensures var answer := FromFixture(Recorded(fx, q, v), p);
            if Key(p) == Key(q) then answer.Some? && StandsIn(q, v, answer.value) else answer == FromFixture(fx, p)
  {
    RecordedForm(fx, q, v, p);
    ReadBackStandsIn(q, v);
  }

  class Recorder {
    const live: Reader
    var fixture: Fixture

    constructor (live: Reader)
      ensures this.live == live && fixture == EMPTY_FIXTURE
    {
      this.live, fixture := live, EMPTY_FIXTURE;
    }

    /** Passes the live answer through and records it. A read that throws records nothing. */
    method Ask(q: Query) returns (a: Option<Value>)
      requires live(q).Some? ==> Typed(q, live(q).value)
      modifies this`fixture
      ensures a == live(q)
      ensures fixture == if live(q).Some? then Recorded(old(fixture), q, live(q).value) else old(fixture)
    {
      a := live(q);
      if a.Some? { fixture := Recorded(fixture, q, a.value); }
    }
  }

  // ---- checks ----------------------------------------------------------------------------------------

  datatype Next = AskFor(q: Query) | Finish(problems: seq<string>)

  /**
   A check that reads as it goes: from the answers so far, the next read or the problems found. It makes at most `bound`
   reads.
   */
  datatype Check = Check(next: seq<Option<Value>> -> Next, bound: nat)

  ghost predicate Bounded(c: Check) { forall h: seq<Option<Value>> | |h| >= c.bound :: c.next(h).Finish? }

  /** All the answers one run of the check gets, after those of the history. */
  ghost function Trace(c: Check, reader: Reader, h: seq<Option<Value>>): (t: seq<Option<Value>>)
    requires Bounded(c)
    ensures c.next(t).Finish?
    decreases c.bound - |h|
  {
    match c.next(h)
    case Finish(_) => h
    case AskFor(q) => Trace(c, reader, h + [reader(q)])
  }

  ghost function Problems(c: Check, reader: Reader): seq<string>
    requires Bounded(c)
  {
    c.next(Trace(c, reader, [])).problems
  }

  /** The fixture left by running the check through the recorder from a history on. */
  ghost function Recording(c: Check, live: Reader, h: seq<Option<Value>>, fx: Fixture): Fixture
    requires Bounded(c) && Consistent(live)
    decreases c.bound - |h|
  {
    match c.next(h)
    case Finish(_) => fx
    case AskFor(q) => Recording(c, live, h + [live(q)], if live(q).Some? then Recorded(fx, q, live(q).value) else fx)
  }

  method RunRecorded(c: Check, rec: Recorder) returns (problems: seq<string>)
    requires Bounded(c) && Consistent(rec.live) && rec.fixture == EMPTY_FIXTURE
    modifies rec
    ensures problems == Problems(c, rec.live) && rec.fixture == Recording(c, rec.live, [], EMPTY_FIXTURE)
  {
    var h := [];
    while c.next(h).AskFor?
      invariant Trace(c, rec.live, h) == Trace(c, rec.live, [])
      invariant Recording(c, rec.live, h, rec.fixture) == Recording(c, rec.live, [], EMPTY_FIXTURE)
      decreases c.bound - |h|
    {
      var a := rec.Ask(c.next(h).q);
      h := h + [a];
    }
    problems := c.next(h).problems;
  }

  // ---- replay ------------------------------------------------------------------------------------------

  /** A live answer and one a check may not tell from it: both throw, or the second stands in for the first. */
  predicate Alike(q: Query, a: Option<Value>, b: Option<Value>) {
    if a.None? || b.None? then a == b else StandsIn(q, a.value, b.value)
  }

  /** A live history of a check and one whose answers stand in for its answers. */
  ghost predicate SameStory(c: Check, h: seq<Option<Value>>, g: seq<Option<Value>>)
    decreases |h|
  {
    |h| == |g| && (h == [] ||
      var n := |h| - 1;
      SameStory(c, h[..n], g[..n]) && c.next(h[..n]).AskFor? && Alike(c.next(h[..n]).q, h[n], g[n]))
  }

  /**
   The check compares numbers by value and treats no code as empty code: it goes on the same way on such histories.
   */
  ghost predicate Insensitive(c: Check) { forall h, g | SameStory(c, h, g) :: c.next(h) == c.next(g) }

  /** Every answer in the fixture is the live answer as it reads back. */
  ghost predicate Sound(fx: Fixture, live: Reader) {
    forall q | q != ChainId && FromFixture(fx, q).Some? ::
      live(q).Some? && FromFixture(fx, q) == Some(ReadBack(q, live(q).value))
  }

  lemma SameKeySameForm(p: Query, q: Query, v: Value)
    requires Key(p) == Key(q)
    ensures ReadBack(p, v) == ReadBack(q, v)
  {
  }

  lemma RecordedStaysSound(fx: Fixture, live: Reader, q: Query)
    requires Consistent(live) && Sound(fx, live) && live(q).Some?
    ensures Sound(Recorded(fx, q, live(q).value), live)
  {
    var after := Recorded(fx, q, live(q).value);
    forall p | p != ChainId && FromFixture(after, p).Some? ensures live(p).Some? &&
      FromFixture(after, p) == Some(ReadBack(p, live(p).value)) {
      RecordedForm(fx, q, live(q).value, p);
      if Key(p) == Key(q) { SameKeySameForm(p, q, live(q).value); }
    }
  }

  /** The final fixture is sound, and what an earlier fixture answered it still answers. */
  lemma {:induction false} RecordingIsSound(c: Check, live: Reader, h: seq<Option<Value>>, fx: Fixture)
    requires Bounded(c) && Consistent(live) && Sound(fx, live)
    ensures Sound(Recording(c, live, h, fx), live)
    ensures forall p | p != ChainId && FromFixture(fx, p).Some? :: FromFixture(Recording(c, live, h, fx), p).Some?
    ensures (fx.chainId == live(ChainId).value.n) ==> Recording(c, live, h, fx).chainId == live(ChainId).value.n
    decreases c.bound - |h|
  {
    if c.next(h).AskFor? {
      var q := c.next(h).q;
      var then_ := if live(q).Some? then Recorded(fx, q, live(q).value) else fx;
      if live(q).Some? {
        RecordedStaysSound(fx, live, q);
        forall p | p != ChainId && FromFixture(fx, p).Some? ensures FromFixture(then_, p).Some? {
          RecordedForm(fx, q, live(q).value, p);
        }
        RecordedForm(fx, q, live(q).value, ChainId);
      }
      RecordingIsSound(c, live, h + [live(q)], then_);
    }
  }

  /** A read the live run made answers from the fixture, in its read-back form, or throws as it threw. */
  lemma AskedIsAnswered(c: Check, live: Reader, h: seq<Option<Value>>, fx: Fixture)
    requires Bounded(c) && Consistent(live) && Sound(fx, live) && c.next(h).AskFor?
    ensures var q := c.next(h).q;
            FromFixture(Recording(c, live, h, fx), q) == if live(q).Some? then Some(ReadBack(q, live(q).value))
              else None
  {
    var q := c.next(h).q;
    if live(q).Some? {
      var then_ := Recorded(fx, q, live(q).value);
      RecordedForm(fx, q, live(q).value, q);
      RecordedStaysSound(fx, live, q);
      RecordingIsSound(c, live, h + [live(q)], then_);
    } else {
      RecordingIsSound(c, live, h, fx);
    }
  }

  ghost function Replayer(fx: Fixture): Reader { q => FromFixture(fx, q) }

  lemma SameStoryExtends(c: Check, h: seq<Option<Value>>, g: seq<Option<Value>>, a: Option<Value>, b: Option<Value>)
    requires SameStory(c, h, g) && c.next(h).AskFor? && Alike(c.next(h).q, a, b)
    ensures SameStory(c, h + [a], g + [b])
  {
    assert (h + [a])[..|h|] == h && (g + [b])[..|g|] == g;
  }

  /** The replayed answer to a read of the live run stands in for it. */
  lemma AskedIsAlike(c: Check, live: Reader, h: seq<Option<Value>>, fx: Fixture)
    requires Bounded(c) && Consistent(live) && Sound(fx, live) && c.next(h).AskFor?
    ensures var q := c.next(h).q; Alike(q, live(q), FromFixture(Recording(c, live, h, fx), q))
  {
    var q := c.next(h).q;
    AskedIsAnswered(c, live, h, fx);
    if live(q).Some? { ReadBackStandsIn(q, live(q).value); }
  }

  lemma {:induction false} ReplayFollows(c: Check, live: Reader, h: seq<Option<Value>>, g: seq<Option<Value>>,
                                         fx: Fixture)
    requires Bounded(c) && Consistent(live) && Sound(fx, live) && Insensitive(c) && SameStory(c, h, g)
    ensures SameStory(c, Trace(c, live, h), Trace(c, Replayer(Recording(c, live, h, fx)), g))
    decreases c.bound - |h|
  {
    assert c.next(h) == c.next(g);
    if c.next(h).AskFor? {
      var q := c.next(h).q;
      var end := Recording(c, live, h, fx);
      AskedIsAlike(c, live, h, fx);
      SameStoryExtends(c, h, g, live(q), FromFixture(end, q));
      var next := if live(q).Some? then Recorded(fx, q, live(q).value) else fx;
      if live(q).Some? { RecordedStaysSound(fx, live, q); }
      assert end == Recording(c, live, h + [live(q)], next);
      ReplayFollows(c, live, h + [live(q)], g + [FromFixture(end, q)], next);
    }
  }

  /**
   Record then replay: for any check that does not tell an answer from what stands in for it, over any live chain
   that answers each key consistently, the replay over the fixture makes the reads of the recorded run one by one,
   each answered by what stands in for the live answer (a bigint by the numeral of the same number) or refused as it
   was refused live, and finds exactly the same problems.
   */
  lemma RecordThenReplay(c: Check, live: Reader)
    requires Bounded(c) && Consistent(live) && Insensitive(c)
    ensures var replay := Replayer(Recording(c, live, [], EMPTY_FIXTURE));
            && Problems(c, replay) == Problems(c, live)
            && SameStory(c, Trace(c, live, []), Trace(c, replay, []))
  {
    ReplayFollows(c, live, [], [], EMPTY_FIXTURE);
  }

  lemma {:induction false} SameStoryMissesTogether(c: Check, h: seq<Option<Value>>, g: seq<Option<Value>>, i: nat)
    requires SameStory(c, h, g) && i < |h|
    ensures |g| == |h| && (h[i].None? <==> g[i].None?)
    decreases |h|
  {
    var n := |h| - 1;
    if i < n { SameStoryMissesTogether(c, h[..n], g[..n], i); }
  }

  /** When the live chain answered every read of the recorded run, the replay never misses one. */
  lemma ReplayNeverMisses(c: Check, live: Reader)
    requires Bounded(c) && Consistent(live) && Insensitive(c)
    requires forall i | 0 <= i < |Trace(c, live, [])| :: Trace(c, live, [])[i].Some?
    ensures var replayed := Trace(c, Replayer(Recording(c, live, [], EMPTY_FIXTURE)), []);
            |replayed| == |Trace(c, live, [])| && forall i | 0 <= i < |replayed| :: replayed[i].Some?
  {
    RecordThenReplay(c, live);
    var t := Trace(c, live, []);
    var replayed := Trace(c, Replayer(Recording(c, live, [], EMPTY_FIXTURE)), []);
    forall i | 0 <= i < |t| ensures |replayed| == |t| && replayed[i].Some? {
      SameStoryMissesTogether(c, t, replayed, i);
    }
  }

  /** A check that refuses text where the chain gave a bigint. */
  function StrictNext(h: seq<Option<Value>>): Next {
    if h == [] then AskFor(Read("0xa", "totalSupply")) else
    if h[0] == Some(Big(1)) then Finish([]) else Finish(["not a bigint"])
  }

  lemma StrictReadsOnce(reader: Reader)
    ensures var c := Check(StrictNext, 1);
            Bounded(c) && Problems(c, reader) == StrictNext([reader(Read("0xa", "totalSupply"))]).problems
  {
    var c := Check(StrictNext, 1);
    var q := Read("0xa", "totalSupply");
    assert c.next([]) == AskFor(q);
    assert [] + [reader(q)] == [reader(q)];
    assert Trace(c, reader, []) == Trace(c, reader, [reader(q)]);
  }

  /** The condition is needed: a check that tells a bigint from its text passes live and fails on its own fixture. */
  lemma SensitiveCheckDoesNotReplay(live: Reader)
    requires Consistent(live) && live(Read("0xa", "totalSupply")) == Some(Big(1))
    ensures var c := Check(StrictNext, 1);
            Bounded(c) && Problems(c, live) == [] && Problems(c, Replayer(Recording(c, live, [], EMPTY_FIXTURE))) != []
  {
    var c := Check(StrictNext, 1);
    StrictReadsOnce(live);
    AskedIsAnswered(c, live, [], EMPTY_FIXTURE);
    StrictReadsOnce(Replayer(Recording(c, live, [], EMPTY_FIXTURE)));
  }
}
