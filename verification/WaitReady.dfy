/**
 One wait for a whole set of scheduled operations: a polling loop over the timelock that warps the clock on a
 Twin fork, gives up with a "pending" exit when the wait is too long, and otherwise sleeps.
 */
module WaitReady {
  import opened Basics
  import opened GovernModel

  const BASE_CHAIN_ID := 8453
  const MAX_WAIT := 3600

  /** One sleep of the poll: the seconds that passed and the timelock it woke up to. */
  datatype Change = Change(seconds: nat, timelock: map<OpId, nat>)

  datatype Outcome = AllReady | NotPending(id: OpId) | ExitPending(latest: nat, remaining: int)

  /** The longest wait the process accepts: what was asked for, and on Base never above an hour. */
  function AcceptedWait(chainId: int, asked: Option<nat>): (r: nat)
    ensures chainId == BASE_CHAIN_ID ==> r <= MAX_WAIT
    ensures asked.None? ==> r == MAX_WAIT
    ensures asked.Some? && (chainId != BASE_CHAIN_ID || asked.value <= MAX_WAIT) ==> r == asked.value
  {
    var wanted := if asked.Some? then asked.value else MAX_WAIT;
    if chainId == BASE_CHAIN_ID && wanted > MAX_WAIT then MAX_WAIT else wanted
  }

  /** Base never warps, whatever the caller injects. */
  predicate Warps(chainId: int, fork: bool) { chainId != BASE_CHAIN_ID && fork }

  predicate Settled(timelock: map<OpId, nat>, now: nat, id: OpId) { Ready(timelock, id, now) || IsDone(timelock, id) }

  /** The latest ready time among the operations that still wait, 0 when none does. */
  function Latest(timelock: map<OpId, nat>, now: nat, ops: seq<OpId>): nat {
    if ops == [] then 0 else
      var front, last := Latest(timelock, now, ops[..|ops| - 1]), ops[|ops| - 1];
      if !Settled(timelock, now, last) && Stamp(timelock, last) > front then Stamp(timelock, last) else front
  }

  /** It bounds every operation that waits, and it is one of theirs. */
  lemma {:induction false} LatestIs(timelock: map<OpId, nat>, now: nat, ops: seq<OpId>)
    ensures forall id | id in ops && !Settled(timelock, now, id) :: Stamp(timelock, id) <= Latest(timelock, now, ops)
    ensures Latest(timelock, now, ops) == 0 || exists id ::
      id in ops && !Settled(timelock, now, id) && Stamp(timelock, id) == Latest(timelock, now, ops)
  {
    if ops != [] {
      var n := |ops| - 1;
      LatestIs(timelock, now, ops[..n]);
      assert ops == ops[..n] + [ops[n]];
    }
  }

  /** Every sleep of the script leaves the timelock as it is. */
  predicate Quiet(timelock: map<OpId, nat>, script: seq<Change>) {
    forall i | 0 <= i < |script| :: script[i].timelock == timelock
  }

  /** One pass over the operations: the first one that is neither settled nor pending, or the latest ready time. */
  method Poll(timelock: map<OpId, nat>, now: nat, ops: seq<OpId>) returns (gone: Option<OpId>, latest: nat)
    ensures gone.Some? ==> gone.value in ops && !Exists(timelock, gone.value)
    ensures gone.None? ==> latest == Latest(timelock, now, ops) && AllExist(timelock, ops)
    ensures gone.None? && latest == 0 ==> AllSettled(timelock, now, ops)
  {
    latest := 0;
    for i := 0 to |ops|
      invariant latest == Latest(timelock, now, ops[..i])
      invariant forall id | id in ops[..i] :: Exists(timelock, id)
    {
      assert ops[..i + 1][..i] == ops[..i] && ops[..i + 1][i] == ops[i];
      if !Settled(timelock, now, ops[i]) {
        if !Pending(timelock, ops[i]) { return Some(ops[i]), latest; }
        if Stamp(timelock, ops[i]) > latest { latest := Stamp(timelock, ops[i]); }
      }
    }
    assert ops[..|ops|] == ops;
    LatestIs(timelock, now, ops);
    gone := None;
  }

  /** Every operation is on the timelock. */
  predicate AllExist(timelock: map<OpId, nat>, ops: seq<OpId>) { forall id | id in ops :: Exists(timelock, id) }

  predicate AllSettled(timelock: map<OpId, nat>, now: nat, ops: seq<OpId>) {
    forall id | id in ops :: Settled(timelock, now, id)
  }

  /** The seconds of the first `n` sleeps of a script. */
  function Asleep(script: seq<Change>, n: nat): nat {
    if n == 0 then 0 else Asleep(script, n - 1) + (if n <= |script| then script[n - 1].seconds else 1)
  }

  /** The timelock and the time of one look. */
  datatype Look = Look(timelock: map<OpId, nat>, now: nat)

  /** Something still waits, nothing is gone, and it takes no longer than accepted. */
  predicate WorthASleep(l: Look, ops: seq<OpId>, accepted: nat) {
    AllExist(l.timelock, ops) && 0 < Latest(l.timelock, l.now, ops) - l.now <= accepted
  }

  /** Nothing is gone, and the wait is longer than accepted. */
  predicate TooLong(timelock: map<OpId, nat>, now: nat, ops: seq<OpId>, accepted: nat) {
    AllExist(timelock, ops) && Latest(timelock, now, ops) - now > accepted
  }

  predicate AllWorth(slept: seq<Look>, ops: seq<OpId>, accepted: nat) {
    forall k | 0 <= k < |slept| :: WorthASleep(slept[k], ops, accepted)
  }

  lemma OneMoreWorth(slept: seq<Look>, l: Look, ops: seq<OpId>, accepted: nat)
    requires AllWorth(slept, ops, accepted) && WorthASleep(l, ops, accepted)
    ensures AllWorth(slept + [l], ops, accepted)
  {
  }

  class Clock {
    var timelock: map<OpId, nat>
    var now: nat
    /** What the coming sleeps bring. Past its end a sleep is one second and the timelock rests. */
    var script: seq<Change>
    var warps: nat
    /** What each look saw that ended in a sleep. */
    ghost var slept: seq<Look>

    constructor (timelock: map<OpId, nat>, now: nat, script: seq<Change>)
      ensures this.timelock == timelock && this.now == now && this.script == script && warps == 0 && slept == []
    {
      this.timelock, this.now, this.script, warps, slept := timelock, now, script, 0, [];
    }

    method Sleep()
      modifies this`timelock, this`now, this`script
      ensures old(script) == [] ==> script == [] && now == old(now) + 1 && timelock == old(timelock)
      ensures old(script) != [] ==>
        script == old(script)[1..] && now == old(now) + old(script)[0].seconds && timelock == old(script)[0].timelock
    {
      if script == [] {
        now := now + 1;
      } else {
        now, timelock, script := now + script[0].seconds, script[0].timelock, script[1..];
      }
    }

    /** One turn of the loop: an outcome, a warp, or a sleep. */
    method Turn(accepted: nat, warp: bool, ops: seq<OpId>) returns (o: Option<Outcome>)
      modifies this
      ensures o.Some? || warp ==> slept == old(slept)
      ensures o.None? && !warp ==>
        slept == old(slept) + [Look(old(timelock), old(now))] &&
          WorthASleep(Look(old(timelock), old(now)), ops, accepted)
      ensures o.Some? ==> timelock == old(timelock) && now == old(now) && script == old(script) && warps == old(warps)
      ensures o == Some(AllReady) ==> AllSettled(timelock, now, ops) && Latest(timelock, now, ops) == 0
      ensures o.Some? && o.value.NotPending? ==> o.value.id in ops && !Exists(timelock, o.value.id)
      ensures o.Some? && o.value.ExitPending? ==>
        !warp && o.value.latest == Latest(timelock, now, ops) && o.value.remaining == o.value.latest - now > accepted
      ensures o.None? ==> old(AllExist(timelock, ops) && Latest(timelock, now, ops) > now)
      ensures o.None? && warp ==>
        && warps == old(warps) + 1 && timelock == old(timelock) && script == old(script)
        && now == old(Latest(timelock, now, ops)) + 1 && AllSettled(timelock, now, ops) &&
          Latest(timelock, now, ops) == 0
      ensures o.None? && !warp ==> warps == old(warps) && old(Latest(timelock, now, ops) - now) <= accepted
      ensures o.None? && !warp && old(script) == [] ==>
        script == [] && timelock == old(timelock) && now == old(now) + 1 &&
          Latest(timelock, now, ops) <= old(Latest(timelock, now, ops))
      ensures o.None? && !warp && old(script) != [] ==>
        && script == old(script)[1..] && timelock == old(script)[0].timelock
        && now == old(now) + old(script)[0].seconds
    {
      var gone, latest := Poll(timelock, now, ops);
      if gone.Some? { return Some(NotPending(gone.value)); }
      if latest == 0 { return Some(AllReady); }
      LatestIsAhead(timelock, now, ops);
      var remaining := latest - now;
      if warp {
        WarpSettles(timelock, now, ops);
        now := now + remaining + 1;
        warps := warps + 1;
      } else {
        if remaining > accepted { return Some(ExitPending(latest, remaining)); }
        LatestShrinks(timelock, now, now + 1, ops);
        slept := slept + [Look(timelock, now)];
        Sleep();
      }
      o := None;
    }

    method Wait(chainId: int, asked: Option<nat>, fork: bool, ops: seq<OpId>) returns (outcome: Outcome)
      requires warps == 0 && slept == []
      modifies this
      // it returns only when every operation is ready or done, on the timelock it sees then
      ensures outcome.AllReady? ==> forall id | id in ops :: Ready(timelock, id, now) || IsDone(timelock, id)
      ensures outcome.NotPending? ==> outcome.id in ops && !Exists(timelock, outcome.id)
      // a pending exit names a remaining time above what the process accepts, and there was no warp to use
      ensures outcome.ExitPending? ==>
        && !(chainId != BASE_CHAIN_ID && fork) && outcome.remaining > AcceptedWait(chainId, asked)
        && outcome.remaining == outcome.latest - now && outcome.latest == Latest(timelock, now, ops)
      // a wait that is too long at the first look exits pending at once
      ensures !(chainId != BASE_CHAIN_ID && fork) && old(TooLong(timelock, now, ops, AcceptedWait(chainId, asked))) ==>
        && outcome == ExitPending(old(Latest(timelock, now, ops)), old(Latest(timelock, now, ops) - now))
        && now == old(now)
      // and so at every later look: it never sleeps on a longer wait than it accepts, and never sleeps where it can
      // warp
      ensures AllWorth(slept, ops, AcceptedWait(chainId, asked))
      ensures chainId != BASE_CHAIN_ID && fork ==> slept == []
      // on Base the clock never warps, whatever the caller injects: time passes only by the sleeps
      ensures chainId == BASE_CHAIN_ID ==> warps == 0 && now == old(now) + Asleep(old(script), |slept|)
      // with nothing cancelled it never reports a lost operation
      ensures old(Quiet(timelock, script) && AllExist(timelock, ops)) ==> !outcome.NotPending?
      // on a quiet Twin fork: at most one warp, which lands one second past the latest ready time
      ensures chainId != BASE_CHAIN_ID && fork && old(Quiet(timelock, script) && AllExist(timelock, ops)) ==>
        && outcome.AllReady? && timelock == old(timelock)
        && warps == (if old(Latest(timelock, now, ops)) > 0 then 1 else 0)
        && now == old(if Latest(timelock, now, ops) > 0 then Latest(timelock, now, ops) + 1 else now)
    {
      outcome := WaitOn(AcceptedWait(chainId, asked), Warps(chainId, fork), ops);
    }

    /** The loop. */
    method WaitOn(accepted: nat, warp: bool, ops: seq<OpId>) returns (outcome: Outcome)
      requires warps == 0 && slept == []
      modifies this
      ensures outcome.AllReady? ==> AllSettled(timelock, now, ops) && Latest(timelock, now, ops) == 0
      ensures outcome.NotPending? ==> outcome.id in ops && !Exists(timelock, outcome.id)
      ensures outcome.ExitPending? ==>
        !warp && outcome.remaining > accepted && outcome.remaining == outcome.latest - now &&
          outcome.latest == Latest(timelock, now, ops)
      ensures AllWorth(slept, ops, accepted) && (warp ==> slept == [])
      ensures slept != [] ==> slept[0] == Look(old(timelock), old(now))
      ensures !warp ==> warps == 0 && now == old(now) + Asleep(old(script), |slept|)
      ensures !warp && slept == [] ==> timelock == old(timelock) && now == old(now)
      ensures old(Quiet(timelock, script) && AllExist(timelock, ops)) ==> timelock == old(timelock)
      ensures warp && old(Quiet(timelock, script) && AllExist(timelock, ops)) ==>
        if warps == 0 then now == old(now) else warps == 1 && 0 < old(Latest(timelock, now, ops)) == now - 1
    {
      ghost var calm := Quiet(timelock, script) && AllExist(timelock, ops);
      while true
        invariant AllWorth(slept, ops, accepted) && (warp ==> slept == []) && (!warp ==> warps == 0)
        invariant slept != [] ==> slept[0] == Look(old(timelock), old(now))
        invariant slept == [] && warps == 0 ==> timelock == old(timelock) && now == old(now) && script == old(script)
        invariant !warp ==> now == old(now) + Asleep(old(script), |slept|)
        invariant !warp ==> script == if |slept| <= |old(script)| then old(script)[|slept|..] else []
        invariant calm ==> timelock == old(timelock) && Quiet(timelock, script)
        invariant warp && calm && warps > 0 ==>
          warps == 1 && 0 < old(Latest(timelock, now, ops)) == now - 1 && Latest(timelock, now, ops) == 0
        decreases |script|, Latest(timelock, now, ops), Latest(timelock, now, ops) - now
      {
        ghost var before, look := slept, Look(timelock, now);
        var o := Turn(accepted, warp, ops);
        if o.Some? { return o.value; }
        if !warp { OneMoreWorth(before, look, ops, accepted); }
      }
    }
  }

  lemma LatestIsAhead(timelock: map<OpId, nat>, now: nat, ops: seq<OpId>)
    requires AllExist(timelock, ops) && Latest(timelock, now, ops) > 0
    ensures Latest(timelock, now, ops) > now
  {
    LatestIs(timelock, now, ops);
  }

  /** One second past the latest ready time everything is settled. */
  lemma WarpSettles(timelock: map<OpId, nat>, now: nat, ops: seq<OpId>)
    requires AllExist(timelock, ops) && Latest(timelock, now, ops) > now
    ensures AllSettled(timelock, Latest(timelock, now, ops) + 1, ops)
    ensures Latest(timelock, Latest(timelock, now, ops) + 1, ops) == 0
  {
    LatestIs(timelock, now, ops);
    LatestIs(timelock, Latest(timelock, now, ops) + 1, ops);
    forall id | id in ops ensures Settled(timelock, Latest(timelock, now, ops) + 1, id) {
      assert Exists(timelock, id);
    }
  }

  /** As time passes over a resting timelock the latest ready time does not grow. */
  lemma {:induction false} LatestShrinks(timelock: map<OpId, nat>, now: nat, later: nat, ops: seq<OpId>)
    requires now <= later
    ensures Latest(timelock, later, ops) <= Latest(timelock, now, ops)
  {
    if ops == [] {
    } else {
      LatestShrinks(timelock, now, later, ops[..|ops| - 1]);
    }
  }
}
