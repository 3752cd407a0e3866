/**
 * Ownership of the buffers: every buffer is in exactly one place, a consumer's
 * in-flight count is the number of its buffers in flight, and every queued
 * buffer is handed back exactly once. `hand` are buffers an operation has taken
 * from one place and not yet put in another.
 */
module Delivery {
  import opened Basics
  import opened ZeroCopy
  import opened Protocol
  import opened Frames

  type Hand = multiset<Id>

  function Places(z: Zc, p: Pool, hand: Hand, b: Id): nat {
    Occurs(z, b) + multiset(p.frameBufs)[b] + multiset(p.Of(p.Owner(b)).queue)[b]
    + (if b in p.app then 1 else 0) + hand[b]
  }

  /** A consumer's buffers in flight. */
  ghost function InFlight(z: Zc, p: Pool, hand: Hand, c: Cid): set<Id> {
    set b | b in p.owner && p.owner[b] == c && (z.Held(b) || b in p.frameBufs || b in hand)
  }

  function Completions(log: seq<Completion>, b: Id): nat {
    if log == [] then 0 else
    Completions(log[..|log| - 1], b) + (if log[|log| - 1].buf == b then 1 else 0)
  }

  ghost predicate OnePlace(z: Zc, p: Pool, hand: Hand) {
    && (forall b: Id :: Places(z, p, hand, b) == (if b in p.owner then 1 else 0))
    && (forall c: Cid, b: Id :: b in p.Of(c).queue ==> p.Owner(b) == c)
  }

  ghost predicate Counted(z: Zc, p: Pool, hand: Hand) {
    forall c: Cid :: p.Of(c).inflight == |InFlight(z, p, hand, c)|
  }

  /** A consumer holds at most one buffer, and the frame's buffers are the held ones. */
  ghost predicate HeldOnce(p: Pool) {
    && (forall c: Cid :: p.Of(c).held.Some? ==>
          p.Of(c).held.value in p.frameBufs && p.Owner(p.Of(c).held.value) == c)
    && (forall b: Id :: b in p.frameBufs ==> p.Of(p.Owner(b)).held == Some(b))
  }

  /** A buffer was handed back once for every time it was queued, unless it is still with the driver. */
  ghost predicate HandedBackOnce(owner: map<Id, Cid>, queued: multiset<Id>, log: seq<Completion>, app: set<Id>) {
    forall b: Id :: queued[b] == Completions(log, b) + (if b in owner && b !in app then 1 else 0)
  }

  ghost predicate Sound(z: Zc, p: Pool, hand: Hand) {
    OnePlace(z, p, hand) && Counted(z, p, hand) && HeldOnce(p) && HandedBackOnce(p.owner, p.queued, p.log, p.app)
  }

  lemma CompletionsAppend(log: seq<Completion>, e: Completion, b: Id)
    ensures Completions(log + [e], b) == Completions(log, b) + (if e.buf == b then 1 else 0)
  {
    assert (log + [e])[..|log|] == log;
  }

  lemma InPlace(z: Zc, p: Pool, hand: Hand, b: Id)
    requires OnePlace(z, p, hand) && hand[b] > 0
    ensures b in p.owner && hand[b] == 1 && !z.Held(b) && b !in p.frameBufs && b !in p.app
    ensures b !in p.Of(p.Owner(b)).queue
  {
    assert Places(z, p, hand, b) <= 1;
    HeldOccurs(z, b);
  }

  lemma CompletePlace(z: Zc, p: Pool, hand: Hand, b: Id, state: VbState, seqno: nat, size: nat, x: Id)
    requires OnePlace(z, p, hand + multiset{b})
    ensures Places(z, Complete(p, b, state, seqno, size), hand, x) == Places(z, p, hand + multiset{b}, x)
  {
    InPlace(z, p, hand + multiset{b}, b);
    assert Complete(p, b, state, seqno, size).Owner(x) == p.Owner(x);
  }

  lemma CompleteOnePlace(z: Zc, p: Pool, hand: Hand, b: Id, state: VbState, seqno: nat, size: nat)
    requires OnePlace(z, p, hand + multiset{b})
    ensures OnePlace(z, Complete(p, b, state, seqno, size), hand)
  {
    var p' := Complete(p, b, state, seqno, size);
    forall x: Id ensures Places(z, p', hand, x) == Places(z, p, hand + multiset{b}, x) {
      CompletePlace(z, p, hand, b, state, seqno, size, x);
    }
    SamePlacesOnePlace(z, z, p, p', hand + multiset{b}, hand);
  }

  lemma CompleteInFlight(z: Zc, p: Pool, hand: Hand, b: Id, state: VbState, seqno: nat, size: nat, c: Cid)
    requires OnePlace(z, p, hand + multiset{b})
    ensures var before, after := InFlight(z, p, hand + multiset{b}, c),
              InFlight(z, Complete(p, b, state, seqno, size), hand, c);
            if c == p.Owner(b) then before == after + {b} && b !in after else before == after
  {
    InPlace(z, p, hand + multiset{b}, b);
  }

  lemma CompleteCounted(z: Zc, p: Pool, hand: Hand, b: Id, state: VbState, seqno: nat, size: nat)
    requires OnePlace(z, p, hand + multiset{b}) && Counted(z, p, hand + multiset{b})
    ensures Counted(z, Complete(p, b, state, seqno, size), hand)
  {
    var p' := Complete(p, b, state, seqno, size);
    forall c: Cid ensures p'.Of(c).inflight == |InFlight(z, p', hand, c)| {
      assert p.Of(c).inflight == |InFlight(z, p, hand + multiset{b}, c)|;
      CompleteInFlight(z, p, hand, b, state, seqno, size, c);
    }
  }

  lemma CompleteKeeps(z: Zc, p: Pool, hand: Hand, b: Id, state: VbState, seqno: nat, size: nat)
    requires Sound(z, p, hand + multiset{b})
    ensures Sound(z, Complete(p, b, state, seqno, size), hand)
  {
    CompleteOnePlace(z, p, hand, b, state, seqno, size);
    CompleteCounted(z, p, hand, b, state, seqno, size);
    InPlace(z, p, hand + multiset{b}, b);
    CompleteRest(p, b, state, seqno, size);
  }

  lemma CompleteRest(p: Pool, b: Id, state: VbState, seqno: nat, size: nat)
    requires HeldOnce(p) && HandedBackOnce(p.owner, p.queued, p.log, p.app) && b in p.owner && b !in p.app
    ensures var p' := Complete(p, b, state, seqno, size);
            HeldOnce(p') && HandedBackOnce(p'.owner, p'.queued, p'.log, p'.app)
  {
    var p' := Complete(p, b, state, seqno, size);
    assert forall c: Cid :: p'.Of(c).held == p.Of(c).held;
    assert forall x: Id :: p'.Owner(x) == p.Owner(x);
    forall x: Id
      ensures p'.queued[x] == Completions(p'.log, x) + (if x in p'.owner && x !in p'.app then 1 else 0)
    {
      CompletionsAppend(p.log, p'.log[|p.log|], x);
    }
  }

  lemma {:induction false} CompleteErrorsKeeps(z: Zc, p: Pool, hand: Hand, s: seq<Id>)
    requires Sound(z, p, hand + multiset(s))
    ensures Sound(z, CompleteErrors(p, s), hand)
    decreases |s|
  {
    if s == [] {
      assert hand + multiset(s) == hand;
    } else {
      var t, b := s[..|s| - 1], s[|s| - 1];
      assert s == t + [b];
      assert hand + multiset(s) == (hand + multiset{b}) + multiset(t);
      CompleteErrorsKeeps(z, p, hand + multiset{b}, t);
      CompleteKeeps(z, CompleteErrors(p, t), hand, b, Error, 0, 0);
    }
  }

  lemma {:induction false} CompleteFreedKeeps(z: Zc, p: Pool, hand: Hand, zs: Zc, s: seq<Id>, size: nat)
    requires Sound(z, p, hand + multiset(s))
    ensures Sound(z, CompleteFreed(p, zs, s, size), hand)
    decreases |s|
  {
    if s == [] {
      assert hand + multiset(s) == hand;
    } else {
      var t, b := s[..|s| - 1], s[|s| - 1];
      assert s == t + [b];
      assert hand + multiset(s) == (hand + multiset{b}) + multiset(t);
      CompleteFreedKeeps(z, p, hand + multiset{b}, zs, t, size);
      CompleteKeeps(z, CompleteFreed(p, zs, t, size), hand, b, zs.Rec(b).state, zs.Rec(b).seqno, size);
    }
  }

  // ---- the zero-copy list ----

  /** Moving buffers around within the zero-copy state changes nothing here. */
  lemma SamePlaces(z: Zc, z': Zc, p: Pool, hand: Hand)
    requires Sound(z, p, hand)
    requires forall b: Id :: Occurs(z', b) == Occurs(z, b)
    ensures Sound(z', p, hand)
  {
    forall b: Id ensures z'.Held(b) <==> z.Held(b) {
      HeldOccurs(z, b);
      HeldOccurs(z', b);
    }
    forall b: Id ensures Places(z', p, hand, b) == (if b in p.owner then 1 else 0) {
      assert Places(z, p, hand, b) == (if b in p.owner then 1 else 0);
    }
    forall c: Cid ensures p.Of(c).inflight == |InFlight(z', p, hand, c)| {
      assert InFlight(z', p, hand, c) == InFlight(z, p, hand, c);
    }
  }

  lemma ReleaseMoves(z: Zc, p: Pool, hand: Hand, b: Id)
    ensures var z', h' := Release(z), hand + multiset(Freed(z, z.release));
            Places(z', p, h', b) == Places(z, p, hand, b) && ((z'.Held(b) || b in h') <==> (z.Held(b) || b in hand))
  {
    KeptPartition(z, z.release);
    HeldOccurs(z, b);
    HeldOccurs(Release(z), b);
    assert multiset(z.release)[b] == multiset(Release(z).release)[b] + multiset(Freed(z, z.release))[b];
  }

  /** hws_zc_release() takes the freed buffers in hand. */
  lemma ReleaseToHand(z: Zc, p: Pool, hand: Hand)
    requires Sound(z, p, hand)
    ensures Sound(Release(z), p, hand + multiset(Freed(z, z.release)))
  {
    var z', h' := Release(z), hand + multiset(Freed(z, z.release));
    forall b: Id ensures Places(z', p, h', b) == (if b in p.owner then 1 else 0) {
      ReleaseMoves(z, p, hand, b);
      assert Places(z, p, hand, b) == (if b in p.owner then 1 else 0);
    }
    forall c: Cid ensures p.Of(c).inflight == |InFlight(z', p, h', c)| {
      forall b: Id ensures b in InFlight(z', p, h', c) <==> b in InFlight(z, p, hand, c) {
        ReleaseMoves(z, p, hand, b);
      }
      assert InFlight(z', p, h', c) == InFlight(z, p, hand, c);
    }
  }

  lemma ReleaseKeeps(z: Zc, p: Pool, hand: Hand, size: nat)
    requires Sound(z, p, hand)
    ensures Sound(Release(z), CompleteFreed(p, z, Freed(z, z.release), size), hand)
  {
    ReleaseToHand(z, p, hand);
    CompleteFreedKeeps(Release(z), p, hand, z, Freed(z, z.release), size);
  }

  // ---- holding and finishing ----

  lemma FinishOneKeeps(z: Zc, p: Pool, hand: Hand, state: VbState, seqno: nat, size: nat)
    requires Sound(z, p, hand) && p.frameBufs != []
    ensures Sound(z, FinishOne(p, state, seqno, size), hand)
  {
    var b := p.frameBufs[0];
    var c := p.Owner(b);
    var p1 := p.(frameBufs := p.frameBufs[1..]).PutCtx(c, p.Of(c).(held := None));
    assert p.frameBufs == [b] + p.frameBufs[1..];
    assert multiset(p.frameBufs) == multiset{b} + multiset(p1.frameBufs);
    assert b in p.frameBufs;
    LeaveFrame(z, p, p1, hand, b);
    CompleteKeeps(z, p1, hand, b, state, seqno, size);
  }

  /** `p1` differs from `p` in the frame's list and in what one consumer holds. */
  ghost predicate LeavesFrame(p: Pool, p1: Pool, b: Id) {
    && b in p.frameBufs
    && multiset(p.frameBufs) == multiset{b} + multiset(p1.frameBufs)
    && p1 == p.(frameBufs := p1.frameBufs).PutCtx(p.Owner(b), p.Of(p.Owner(b)).(held := None))
  }

  lemma LeavesFrameList(p: Pool, p1: Pool, b: Id, x: Id)
    requires LeavesFrame(p, p1, b)
    ensures multiset(p1.frameBufs)[x] == multiset(p.frameBufs)[x] - (if x == b then 1 else 0)
    ensures x in p.frameBufs <==> x in p1.frameBufs || x == b
    ensures p1.Owner(x) == p.Owner(x)
  {
    assert multiset(p.frameBufs)[x] == multiset{b}[x] + multiset(p1.frameBufs)[x];
  }

  lemma LeavePlace(z: Zc, p: Pool, p1: Pool, hand: Hand, b: Id, x: Id)
    requires LeavesFrame(p, p1, b)
    ensures Places(z, p1, hand + multiset{b}, x) == Places(z, p, hand, x)
  {
    LeavesFrameList(p, p1, b, x);
  }

  lemma LeaveOnePlace(z: Zc, p: Pool, p1: Pool, hand: Hand, b: Id)
    requires OnePlace(z, p, hand) && LeavesFrame(p, p1, b)
    ensures OnePlace(z, p1, hand + multiset{b})
    ensures b !in p1.frameBufs && b in p.owner
  {
    forall x: Id ensures Places(z, p1, hand + multiset{b}, x) == Places(z, p, hand, x) {
      LeavePlace(z, p, p1, hand, b, x);
    }
    SamePlacesOnePlace(z, z, p, p1, hand, hand + multiset{b});
    InPlace(z, p1, hand + multiset{b}, b);
  }

  /** The places are the same ones, and the queues hold what they held or less. */
  lemma SamePlacesOnePlace(z: Zc, z1: Zc, p: Pool, p1: Pool, hand: Hand, hand1: Hand)
    requires OnePlace(z, p, hand) && p1.owner == p.owner
    requires forall x: Id :: Places(z1, p1, hand1, x) == Places(z, p, hand, x)
    requires forall d: Cid, x: Id :: x in p1.Of(d).queue ==> x in p.Of(d).queue
    ensures OnePlace(z1, p1, hand1)
  {
    forall x: Id ensures Places(z1, p1, hand1, x) == (if x in p1.owner then 1 else 0) {
      assert Places(z, p, hand, x) == (if x in p.owner then 1 else 0);
    }
    assert forall x: Id :: p1.Owner(x) == p.Owner(x);
  }

  lemma LeaveCounted(z: Zc, p: Pool, p1: Pool, hand: Hand, b: Id)
    requires Counted(z, p, hand) && LeavesFrame(p, p1, b)
    ensures Counted(z, p1, hand + multiset{b})
  {
    forall c: Cid ensures p1.Of(c).inflight == |InFlight(z, p1, hand + multiset{b}, c)| {
      assert p.Of(c).inflight == |InFlight(z, p, hand, c)|;
      forall x: Id ensures x in p.frameBufs <==> x in p1.frameBufs || x == b {
        LeavesFrameList(p, p1, b, x);
      }
      assert InFlight(z, p1, hand + multiset{b}, c) == InFlight(z, p, hand, c);
    }
  }

  /** A held buffer leaves the frame's list and its consumer, and is in hand. */
  lemma LeaveFrame(z: Zc, p: Pool, p1: Pool, hand: Hand, b: Id)
    requires Sound(z, p, hand) && LeavesFrame(p, p1, b)
    ensures Sound(z, p1, hand + multiset{b})
  {
    LeaveOnePlace(z, p, p1, hand, b);
    LeaveCounted(z, p, p1, hand, b);
    LeaveHeld(p, p1, b);
  }

  lemma LeaveHeld(p: Pool, p1: Pool, b: Id)
    requires HeldOnce(p) && LeavesFrame(p, p1, b) && b !in p1.frameBufs
    ensures HeldOnce(p1)
  {
    forall x: Id | x in p1.frameBufs ensures p1.Of(p1.Owner(x)).held == Some(x) {
      LeavesFrameList(p, p1, b, x);
      assert p.Of(p.Owner(x)).held == Some(x);
    }
    forall c: Cid | p1.Of(c).held.Some?
      ensures p1.Of(c).held.value in p1.frameBufs && p1.Owner(p1.Of(c).held.value) == c
    {
      assert p.Of(c).held.Some?;
      LeavesFrameList(p, p1, b, p.Of(c).held.value);
    }
  }

  lemma {:induction false} FinishKeeps(z: Zc, p: Pool, hand: Hand, state: VbState, seqno: nat, size: nat)
    requires Sound(z, p, hand)
    ensures Sound(z, Finish(p, state, seqno, size), hand)
    ensures Finish(p, state, seqno, size).frameBufs == []
    decreases |p.frameBufs|
  {
    if p.frameBufs != [] {
      FinishOneKeeps(z, p, hand, state, seqno, size);
      FinishKeeps(z, FinishOne(p, state, seqno, size), hand, state, seqno, size);
    }
  }

  lemma {:induction false} WithoutOnce(s: seq<Id>, b: Id)
    requires multiset(s)[b] == 1
    ensures multiset(s) == multiset{b} + multiset(Without(s, b))
  {
    var t, x := s[..|s| - 1], s[|s| - 1];
    assert s == t + [x];
    if x == b {
      WithoutNone(t, b);
    } else {
      WithoutOnce(t, b);
    }
  }

  lemma {:induction false} WithoutNone(s: seq<Id>, b: Id)
    requires multiset(s)[b] == 0
    ensures Without(s, b) == s
  {
    if s != [] {
      assert s == s[..|s| - 1] + [s[|s| - 1]];
      WithoutNone(s[..|s| - 1], b);
    }
  }

  lemma FailHeldKeeps(z: Zc, p: Pool, hand: Hand, c: Cid)
    requires Sound(z, p, hand)
    ensures Sound(z, FailHeld(p, c), hand)
    ensures FailHeld(p, c).Of(c).held.None?
  {
    if p.Of(c).held.Some? {
      var b := p.Of(c).held.value;
      var p1 := p.(frameBufs := Without(p.frameBufs, b)).PutCtx(c, p.Of(c).(held := None));
      assert Places(z, p, hand, b) <= 1;
      WithoutOnce(p.frameBufs, b);
      LeaveFrame(z, p, p1, hand, b);
      CompleteKeeps(z, p1, hand, b, Error, 0, 0);
    }
  }

  /** `p1` differs from `p` in one consumer, whose first queued buffer was taken. */
  ghost predicate TakesFirst(p: Pool, p1: Pool, c: Cid) {
    && p.Of(c).queue != []
    && p1 == p.PutCtx(c, p1.Of(c))
    && p1.Of(c).queue == p.Of(c).queue[1..]
    && p1.Of(c).inflight == p.Of(c).inflight + 1
    && p1.Of(c).held == p.Of(c).held
  }

  lemma TakesFirstQueue(p: Pool, p1: Pool, c: Cid, d: Cid, x: Id)
    requires TakesFirst(p, p1, c)
    ensures multiset(p1.Of(d).queue)[x]
              == multiset(p.Of(d).queue)[x] - (if d == c && x == p.Of(c).queue[0] then 1 else 0)
    ensures x in p1.Of(d).queue ==> x in p.Of(d).queue
    ensures p.Of(c).queue[0] in p.Of(c).queue
  {
    var q := p.Of(c).queue;
    assert q == [q[0]] + q[1..];
    assert multiset(q)[x] == multiset{q[0]}[x] + multiset(q[1..])[x];
  }

  lemma TakeOnePlace(z: Zc, p: Pool, p1: Pool, hand: Hand, c: Cid)
    requires OnePlace(z, p, hand) && TakesFirst(p, p1, c)
    ensures OnePlace(z, p1, hand + multiset{p.Of(c).queue[0]})
  {
    var b := p.Of(c).queue[0];
    forall x: Id ensures Places(z, p1, hand + multiset{b}, x) == Places(z, p, hand, x) {
      TakePlace(z, p, p1, hand, c, x);
    }
    forall d: Cid, x: Id | x in p1.Of(d).queue ensures x in p.Of(d).queue {
      TakesFirstQueue(p, p1, c, d, x);
    }
    SamePlacesOnePlace(z, z, p, p1, hand, hand + multiset{b});
  }

  lemma TakePlace(z: Zc, p: Pool, p1: Pool, hand: Hand, c: Cid, x: Id)
    requires OnePlace(z, p, hand) && TakesFirst(p, p1, c)
    ensures Places(z, p1, hand + multiset{p.Of(c).queue[0]}, x) == Places(z, p, hand, x)
  {
    TakesFirstQueue(p, p1, c, p.Owner(x), x);
    assert p.Of(c).queue[0] in p.Of(c).queue;
  }

  lemma TakeInFlight(z: Zc, p: Pool, p1: Pool, hand: Hand, c: Cid, d: Cid)
    requires OnePlace(z, p, hand) && TakesFirst(p, p1, c)
    ensures var b := p.Of(c).queue[0];
            && (d == c ==> InFlight(z, p1, hand + multiset{b}, d) == InFlight(z, p, hand, d) + {b}
                           && b !in InFlight(z, p, hand, d))
            && (d != c ==> InFlight(z, p1, hand + multiset{b}, d) == InFlight(z, p, hand, d))
  {
    var b := p.Of(c).queue[0];
    TakesFirstQueue(p, p1, c, c, b);
    assert p.Owner(b) == c;
    assert Places(z, p, hand, b) == (if b in p.owner then 1 else 0);
    HeldOccurs(z, b);
    assert b in p.owner && p.owner[b] == c;
    assert !z.Held(b) && b !in p.frameBufs && b !in hand;
  }

  lemma TakeCounted(z: Zc, p: Pool, p1: Pool, hand: Hand, c: Cid)
    requires OnePlace(z, p, hand) && Counted(z, p, hand) && TakesFirst(p, p1, c)
    ensures Counted(z, p1, hand + multiset{p.Of(c).queue[0]})
  {
    var b := p.Of(c).queue[0];
    forall d: Cid ensures p1.Of(d).inflight == |InFlight(z, p1, hand + multiset{b}, d)| {
      assert p.Of(d).inflight == |InFlight(z, p, hand, d)|;
      TakeInFlight(z, p, p1, hand, c, d);
    }
  }

  lemma SameHeld(p: Pool, p1: Pool)
    requires HeldOnce(p) && p1.frameBufs == p.frameBufs && p1.owner == p.owner
    requires forall c: Cid :: p1.Of(c).held == p.Of(c).held
    ensures HeldOnce(p1)
  {
    assert forall b: Id :: p1.Owner(b) == p.Owner(b);
    forall c: Cid | p1.Of(c).held.Some?
      ensures p1.Of(c).held.value in p1.frameBufs && p1.Owner(p1.Of(c).held.value) == c
    {
      assert p.Of(c).held.Some?;
    }
  }

  /** The first buffer of a queue is taken in hand; the consumer may change in other ways. */
  lemma TakeFirst(z: Zc, p: Pool, p1: Pool, hand: Hand, c: Cid)
    requires Sound(z, p, hand) && TakesFirst(p, p1, c)
    ensures Sound(z, p1, hand + multiset{p.Of(c).queue[0]})
  {
    TakeOnePlace(z, p, p1, hand, c);
    TakeCounted(z, p, p1, hand, c);
    assert forall d: Cid :: p1.Of(d).held == p.Of(d).held;
    SameHeld(p, p1);
  }

  ghost predicate EntersFrame(p: Pool, p1: Pool, b: Id) {
    && p.Of(p.Owner(b)).held.None?
    && p1 == p.PutCtx(p.Owner(b), p.Of(p.Owner(b)).(held := Some(b))).(frameBufs := p.frameBufs + [b])
  }

  lemma EnterPlaces(z: Zc, p: Pool, p1: Pool, hand: Hand, b: Id, x: Id)
    requires EntersFrame(p, p1, b)
    ensures Places(z, p1, hand, x) == Places(z, p, hand + multiset{b}, x)
    ensures p1.owner == p.owner
  {
    assert p1.Of(p.Owner(x)).queue == p.Of(p.Owner(x)).queue;
    assert multiset(p1.frameBufs) == multiset(p.frameBufs) + multiset{b};
  }

  lemma EnterOnePlace(z: Zc, p: Pool, p1: Pool, hand: Hand, b: Id)
    requires OnePlace(z, p, hand + multiset{b}) && EntersFrame(p, p1, b)
    ensures OnePlace(z, p1, hand)
  {
    forall x: Id ensures Places(z, p1, hand, x) == (if x in p1.owner then 1 else 0) {
      EnterPlaces(z, p, p1, hand, b, x);
      assert Places(z, p, hand + multiset{b}, x) == (if x in p.owner then 1 else 0);
    }
    EnterQueues(p, p1, b);
  }

  lemma EnterQueues(p: Pool, p1: Pool, b: Id)
    requires EntersFrame(p, p1, b)
    requires forall c: Cid, x: Id :: x in p.Of(c).queue ==> p.Owner(x) == c
    ensures forall c: Cid, x: Id :: x in p1.Of(c).queue ==> p1.Owner(x) == c
  {
    forall c: Cid, x: Id | x in p1.Of(c).queue ensures p1.Owner(x) == c {
      assert p1.Of(c).queue == p.Of(c).queue && p1.Owner(x) == p.Owner(x);
    }
  }

  lemma EnterCounted(z: Zc, p: Pool, p1: Pool, hand: Hand, b: Id)
    requires Counted(z, p, hand + multiset{b}) && EntersFrame(p, p1, b)
    ensures Counted(z, p1, hand)
  {
    forall c: Cid ensures p1.Of(c).inflight == |InFlight(z, p1, hand, c)| {
      assert p.Of(c).inflight == |InFlight(z, p, hand + multiset{b}, c)|;
      assert InFlight(z, p1, hand, c) == InFlight(z, p, hand + multiset{b}, c);
    }
  }

  lemma EnterHeld(p: Pool, p1: Pool, b: Id)
    requires HeldOnce(p) && EntersFrame(p, p1, b) && b !in p.frameBufs
    ensures HeldOnce(p1)
  {
    assert forall x: Id :: p1.Owner(x) == p.Owner(x);
    forall x: Id | x in p1.frameBufs ensures p1.Of(p1.Owner(x)).held == Some(x) {
      if x != b {
        assert p.Of(p.Owner(x)).held == Some(x);
      }
    }
    forall c: Cid | p1.Of(c).held.Some?
      ensures p1.Of(c).held.value in p1.frameBufs && p1.Owner(p1.Of(c).held.value) == c
    {
      assert c != p.Owner(b) ==> p.Of(c).held.Some?;
    }
  }

  /** A buffer in hand becomes the one its consumer holds. */
  lemma EnterFrame(z: Zc, p: Pool, p1: Pool, hand: Hand, b: Id)
    requires Sound(z, p, hand + multiset{b}) && EntersFrame(p, p1, b)
    ensures Sound(z, p1, hand)
  {
    InPlace(z, p, hand + multiset{b}, b);
    EnterOnePlace(z, p, p1, hand, b);
    EnterCounted(z, p, p1, hand, b);
    EnterHeld(p, p1, b);
  }

  function TakenCtx(r: Consumer, seqno: nat): Consumer
    requires r.queue != []
  {
    r.(queue := r.queue[1..], inflight := r.inflight + 1, nextSeq := seqno + r.decimate)
  }

  /** What hws_hold_buffers() does for one consumer that takes part, by case. */
  lemma HoldOneCases(h: Hold, c: Cid, seqno: nat, size: nat, skip: Option<Cid>)
    ensures var p, r, h' := h.pool, h.pool.Of(c), HoldOne(h, c, seqno, size, skip);
            if !Wants(r, c, seqno, skip) then h' == h
            else if r.queue == [] then h' == h.(pool := p.PutCtx(c, r.(missed := r.missed + 1)))
            else if r.queue[0] !in p.mapped || |p.Mem(r.queue[0])| < size then
              h' == Hold(p.PutCtx(c, TakenCtx(r, seqno)), h.small + [r.queue[0]])
            else
              h' == Hold(p.PutCtx(c, TakenCtx(r, seqno).(held := Some(r.queue[0])))
                          .(frameBufs := p.frameBufs + [r.queue[0]]), h.small)
  {
  }

  ghost predicate HoldSound(z: Zc, h: Hold, hand: Hand) {
    Sound(z, h.pool, hand + multiset(h.small))
  }

  lemma HoldOneKeeps(z: Zc, h: Hold, hand: Hand, c: Cid, seqno: nat, size: nat, skip: Option<Cid>)
    requires HoldSound(z, h, hand)
    ensures HoldSound(z, HoldOne(h, c, seqno, size, skip), hand)
  {
    HoldOneCases(h, c, seqno, size, skip);
    var p, r := h.pool, h.pool.Of(c);
    if !Wants(r, c, seqno, skip) {
    } else if r.queue == [] {
      HoldMissed(z, h, hand, c);
    } else if r.queue[0] !in p.mapped || |p.Mem(r.queue[0])| < size {
      HoldSmall(z, h, hand, c, seqno);
    } else {
      HoldGood(z, h, hand, c, seqno);
    }
  }

  lemma HoldMissed(z: Zc, h: Hold, hand: Hand, c: Cid)
    requires HoldSound(z, h, hand)
    ensures HoldSound(z, h.(pool := h.pool.PutCtx(c, h.pool.Of(c).(missed := h.pool.Of(c).missed + 1))), hand)
  {
    SameConsumers(z, h.pool, h.pool.PutCtx(c, h.pool.Of(c).(missed := h.pool.Of(c).missed + 1)),
        hand + multiset(h.small), c);
  }

  lemma HoldSmall(z: Zc, h: Hold, hand: Hand, c: Cid, seqno: nat)
    requires HoldSound(z, h, hand) && h.pool.Of(c).queue != []
    ensures var r := h.pool.Of(c);
            HoldSound(z, Hold(h.pool.PutCtx(c, TakenCtx(r, seqno)), h.small + [r.queue[0]]), hand)
  {
    var b := h.pool.Of(c).queue[0];
    TakeForFrame(z, h.pool, hand + multiset(h.small), c, seqno);
    assert hand + multiset(h.small + [b]) == hand + multiset(h.small) + multiset{b};
  }

  lemma HoldGood(z: Zc, h: Hold, hand: Hand, c: Cid, seqno: nat)
    requires HoldSound(z, h, hand) && h.pool.Of(c).queue != [] && h.pool.Of(c).held.None?
    ensures var p, r := h.pool, h.pool.Of(c);
            HoldSound(z, Hold(p.PutCtx(c, TakenCtx(r, seqno).(held := Some(r.queue[0])))
                               .(frameBufs := p.frameBufs + [r.queue[0]]), h.small), hand)
  {
    QueueOwned(z, h.pool, hand + multiset(h.small), c);
    TakeForFrame(z, h.pool, hand + multiset(h.small), c, seqno);
    HoldTaken(z, h.pool, hand + multiset(h.small), c, seqno);
  }

  lemma QueueOwned(z: Zc, p: Pool, hand: Hand, c: Cid)
    requires Sound(z, p, hand) && p.Of(c).queue != []
    ensures p.Owner(p.Of(c).queue[0]) == c
  {
    assert p.Of(c).queue[0] in p.Of(c).queue;
  }

  lemma TakeForFrame(z: Zc, p: Pool, hand: Hand, c: Cid, seqno: nat)
    requires Sound(z, p, hand) && p.Of(c).queue != []
    ensures Sound(z, p.PutCtx(c, TakenCtx(p.Of(c), seqno)), hand + multiset{p.Of(c).queue[0]})
  {
    TakeFirst(z, p, p.PutCtx(c, TakenCtx(p.Of(c), seqno)), hand, c);
  }

  lemma HoldTaken(z: Zc, p: Pool, hand: Hand, c: Cid, seqno: nat)
    requires p.Of(c).queue != [] && p.Of(c).held.None? && p.Owner(p.Of(c).queue[0]) == c
    requires Sound(z, p.PutCtx(c, TakenCtx(p.Of(c), seqno)), hand + multiset{p.Of(c).queue[0]})
    ensures var b := p.Of(c).queue[0];
            Sound(z, p.PutCtx(c, TakenCtx(p.Of(c), seqno).(held := Some(b))).(frameBufs := p.frameBufs + [b]), hand)
  {
    var b := p.Of(c).queue[0];
    HoldEnters(p, c, TakenCtx(p.Of(c), seqno), b);
    EnterFrame(z, p.PutCtx(c, TakenCtx(p.Of(c), seqno)),
               p.PutCtx(c, TakenCtx(p.Of(c), seqno).(held := Some(b))).(frameBufs := p.frameBufs + [b]), hand, b);
  }

  lemma HoldEnters(p: Pool, c: Cid, r: Consumer, b: Id)
    requires p.Owner(b) == c && r.held.None?
    ensures EntersFrame(p.PutCtx(c, r), p.PutCtx(c, r.(held := Some(b))).(frameBufs := p.frameBufs + [b]), b)
  {
    HoldTwice(p, c, r, b);
  }

  lemma HoldTwice(p: Pool, c: Cid, r: Consumer, b: Id)
    ensures var p1 := p.PutCtx(c, r);
            p.PutCtx(c, r.(held := Some(b))).(frameBufs := p.frameBufs + [b])
            == p1.PutCtx(c, p1.Of(c).(held := Some(b))).(frameBufs := p1.frameBufs + [b])
  {
    assert p.PutCtx(c, r).Of(c) == r;
    assert p.ctx[c := r][c := r.(held := Some(b))] == p.ctx[c := r.(held := Some(b))];
  }

  lemma SameQueues(z: Zc, p: Pool, p1: Pool, hand: Hand)
    requires OnePlace(z, p, hand) && Counted(z, p, hand)
    requires p1.owner == p.owner && p1.frameBufs == p.frameBufs && p1.app == p.app
    requires forall c: Cid :: p1.Of(c).queue == p.Of(c).queue && p1.Of(c).inflight == p.Of(c).inflight
    ensures OnePlace(z, p1, hand) && Counted(z, p1, hand)
  {
    forall x: Id ensures Places(z, p1, hand, x) == Places(z, p, hand, x) {
      PlacesUnmoved(z, p, p1, hand, x);
    }
    forall d: Cid ensures InFlight(z, p1, hand, d) == InFlight(z, p, hand, d) {
    }
  }

  lemma PlacesUnmoved(z: Zc, p: Pool, p1: Pool, hand: Hand, x: Id)
    requires p1.owner == p.owner && p1.frameBufs == p.frameBufs && p1.app == p.app
    requires p1.Of(p.Owner(x)).queue == p.Of(p.Owner(x)).queue
    ensures Places(z, p1, hand, x) == Places(z, p, hand, x)
  {
    assert p1.Owner(x) == p.Owner(x);
  }

  /** Changing a consumer's counters or flags moves no buffer. */
  lemma SameConsumers(z: Zc, p: Pool, p1: Pool, hand: Hand, c: Cid)
    requires Sound(z, p, hand)
    requires p1 == p.PutCtx(c, p1.Of(c)) && p1.Of(c).queue == p.Of(c).queue
    requires p1.Of(c).inflight == p.Of(c).inflight && p1.Of(c).held == p.Of(c).held
    ensures Sound(z, p1, hand)
  {
    assert forall d: Cid :: p1.Of(d).queue == p.Of(d).queue && p1.Of(d).inflight == p.Of(d).inflight
                            && p1.Of(d).held == p.Of(d).held;
    SameQueues(z, p, p1, hand);
    SameHeld(p, p1);
  }

  lemma {:induction false} HoldAllKeeps(z: Zc, p: Pool, hand: Hand, cs: seq<Cid>, seqno: nat, size: nat,
                                        skip: Option<Cid>)
    requires Sound(z, p, hand)
    ensures HoldSound(z, HoldAll(p, cs, seqno, size, skip), hand)
  {
    if cs == [] {
      assert hand + multiset([]) == hand;
    } else {
      HoldAllKeeps(z, p, hand, cs[..|cs| - 1], seqno, size, skip);
      HoldOneKeeps(z, HoldAll(p, cs[..|cs| - 1], seqno, size, skip), hand, cs[|cs| - 1], seqno, size, skip);
    }
  }

  lemma HoldBuffersKeeps(z: Zc, p: Pool, hand: Hand, seqno: nat, size: nat, skip: Option<Cid>)
    requires Sound(z, p, hand)
    ensures Sound(z, HoldBuffers(p, seqno, size, skip), hand)
  {
    HoldAllKeeps(z, p, hand, p.consumers, seqno, size, skip);
    var h := HoldAll(p, p.consumers, seqno, size, skip);
    CompleteErrorsKeeps(z, h.pool, hand, h.small);
  }

  /** Writing into buffers moves none of them. */
  lemma BlitKeeps(z: Zc, p: Pool, hand: Hand, bs: seq<Id>, off: nat, s: seq<byte>)
    requires Sound(z, p, hand)
    ensures Sound(z, BlitAll(p, bs, off, s), hand)
  {
    var p1 := BlitAll(p, bs, off, s);
    assert forall c: Cid :: p1.Of(c) == p.Of(c);
    SameQueues(z, p, p1, hand);
    SameHeld(p, p1);
  }

  // ---- which consumers take part ----

  /** `c` is the first eligible consumer of the list. */
  ghost predicate FirstEligible(p: Pool, cs: seq<Cid>, c: Cid) {
    exists i :: 0 <= i < |cs| && cs[i] == c && Eligible(p.Of(c)) && forall j :: 0 <= j < i ==> !Eligible(p.Of(cs[j]))
  }

  /**
   * Zero-copy stays with the consumer it serves while that is eligible, and
   * else goes to the first eligible one, if there is any.
   */
  lemma {:induction false} FoundIs(p: Pool, cs: seq<Cid>, now: Option<Cid>)
    ensures match FindZc(p, cs, now)
            case None => forall c :: c in cs ==> !Eligible(p.Of(c))
            case Some(c) =>
              && c in cs && Eligible(p.Of(c))
              && (if now.Some? && now.value in cs && Eligible(p.Of(now.value)) then c == now.value
                  else FirstEligible(p, cs, c))
  {
    if cs != [] {
      var t, c := cs[..|cs| - 1], cs[|cs| - 1];
      FoundIs(p, t, now);
      assert cs == t + [c];
      var found := FindZc(p, cs, now);
      if found.Some? && !(now.Some? && now.value in cs && Eligible(p.Of(now.value))) {
        FirstStays(p, t, c, found.value);
      }
    }
  }

  lemma FirstStays(p: Pool, t: seq<Cid>, last: Cid, c: Cid)
    requires FirstEligible(p, t, c) || ((forall d :: d in t ==> !Eligible(p.Of(d))) && c == last && Eligible(p.Of(c)))
    ensures FirstEligible(p, t + [last], c)
  {
    var cs := t + [last];
    if FirstEligible(p, t, c) {
      var i :| 0 <= i < |t| && t[i] == c && Eligible(p.Of(c)) && forall j :: 0 <= j < i ==> !Eligible(p.Of(t[j]));
      assert cs[i] == c && forall j :: 0 <= j < i ==> cs[j] == t[j];
    } else {
      assert cs[|t|] == c && forall j :: 0 <= j < |t| ==> cs[j] == t[j] && t[j] in t;
    }
  }

  /** The consumer's next buffer can take a frame of `size` bytes. */
  predicate Usable(p: Pool, r: Consumer, size: nat) {
    r.queue != [] && r.queue[0] in p.mapped && |p.Mem(r.queue[0])| >= size
  }

  /** What a frame does to a consumer: `r` before and `r'` after buffers were taken for it. */
  predicate Served(p: Pool, r: Consumer, r': Consumer, wants: bool, size: nat) {
    && r'.held == (if wants && Usable(p, r, size) then Some(r.queue[0]) else r.held)
    && r'.queue == (if wants && r.queue != [] then r.queue[1..] else r.queue)
    && r'.missed == (if wants && r.queue == [] then r.missed + 1 else r.missed)
  }

  /**
   * Who gives a buffer for frame `seqno`: exactly the consumers that want it
   * and have one, each the first of its queue; one that has none misses the
   * frame, and one whose buffer cannot take it gets that back and holds none.
   */
  lemma HoldGives(p: Pool, seqno: nat, size: nat, skip: Option<Cid>, c: Cid)
    requires multiset(p.consumers)[c] <= 1
    ensures var p' := HoldBuffers(p, seqno, size, skip);
            && Served(p, p.Of(c), p'.Of(c), c in p.consumers && Wants(p.Of(c), c, seqno, skip), size)
            && (p'.Of(c).held != p.Of(c).held ==> p'.Of(c).held.value in p'.frameBufs)
  {
    var h := HoldAll(p, p.consumers, seqno, size, skip);
    HoldServes(p, p.consumers, seqno, size, skip, c);
    ErrorsServe(h.pool, h.small, c);
  }

  lemma {:induction false} ErrorsServe(p: Pool, s: seq<Id>, c: Cid)
    ensures var p' := CompleteErrors(p, s);
            && p'.frameBufs == p.frameBufs
            && p'.Of(c).held == p.Of(c).held && p'.Of(c).queue == p.Of(c).queue && p'.Of(c).missed == p.Of(c).missed
  {
    if s != [] {
      ErrorsServe(p, s[..|s| - 1], c);
    }
  }

  lemma {:induction false} HoldServes(p: Pool, cs: seq<Cid>, seqno: nat, size: nat, skip: Option<Cid>, c: Cid)
    requires multiset(cs)[c] <= 1
    ensures var p' := HoldAll(p, cs, seqno, size, skip).pool;
            && p'.mem == p.mem && p'.mapped == p.mapped
            && (c !in cs ==> p'.Of(c) == p.Of(c))
            && Served(p, p.Of(c), p'.Of(c), c in cs && Wants(p.Of(c), c, seqno, skip), size)
            && (p'.Of(c).held != p.Of(c).held ==> p'.Of(c).held.value in p'.frameBufs)
  {
    if cs != [] {
      var t, d := cs[..|cs| - 1], cs[|cs| - 1];
      assert cs == t + [d];
      HoldServes(p, t, seqno, size, skip, c);
      OneServes(HoldAll(p, t, seqno, size, skip), d, seqno, size, skip, c);
    }
  }

  lemma OneServes(h: Hold, d: Cid, seqno: nat, size: nat, skip: Option<Cid>, c: Cid)
    ensures var p, p' := h.pool, HoldOne(h, d, seqno, size, skip).pool;
            && p'.mem == p.mem && p'.mapped == p.mapped
            && (forall b: Id :: b in p.frameBufs ==> b in p'.frameBufs)
            && (c != d ==> p'.Of(c) == p.Of(c))
            && (c == d ==> Served(p, p.Of(c), p'.Of(c), Wants(p.Of(c), c, seqno, skip), size))
            && (p'.Of(c).held != p.Of(c).held ==> p'.Of(c).held.Some? && p'.Of(c).held.value in p'.frameBufs)
  {
    if c == d { SelfServes(h, c, seqno, size, skip); }
  }

  lemma SelfServes(h: Hold, c: Cid, seqno: nat, size: nat, skip: Option<Cid>)
    ensures var p, p' := h.pool, HoldOne(h, c, seqno, size, skip).pool;
            && Served(p, p.Of(c), p'.Of(c), Wants(p.Of(c), c, seqno, skip), size)
            && (p'.Of(c).held != p.Of(c).held ==> p'.Of(c).held.Some? && p'.Of(c).held.value in p'.frameBufs)
  {
  }

  // ---- lower rates ----

  /**
   * A consumer that gave a buffer for frame `s` gives none for the frames up to
   * N - 1 after it, and one for every other number once it holds none: later
   * ones, and the lower ones after the engine starts over.
   */
  lemma EveryNth(h: Hold, c: Cid, s: nat, size: nat, skip: Option<Cid>, t: nat)
    requires Wants(h.pool.Of(c), c, s, skip) && h.pool.Of(c).queue != []
    ensures var r, r' := h.pool.Of(c), HoldOne(h, c, s, size, skip).pool.Of(c);
            && r'.inflight == r.inflight + 1 && r'.queue == r.queue[1..]
            && (Wants(r'.(held := None), c, t, None) <==> !(s <= t < s + r.decimate))
  {
  }
}
