/**
 * The queue of 8 audio packets between the interrupt, which stores them, and
 * the work that delivers them. Each side keeps its own place in the queue.
 */
module AudioQueue {
  import opened Basics

  const SLOTS: nat := 8

  type Packet = seq<int>

  type Slot = Option<Packet>

  // ---- the two searches ----

  function FirstUsed(s: seq<Slot>, from: nat, end: nat): Option<nat>
    requires from <= end <= |s|
    decreases end as int - from
  {
    if from == end then None else if s[from].Some? then Some(from) else FirstUsed(s, from + 1, end)
  }

  function FirstFree(s: seq<Slot>, from: nat, end: nat): Option<nat>
    requires from <= end <= |s|
    decreases end as int - from
  {
    if from == end then None else if s[from].None? then Some(from) else FirstFree(s, from + 1, end)
  }

  /** From a side's place to the end, then from the start. */
  function NextUsed(s: seq<Slot>, r: nat): Option<nat>
    requires r <= |s|
  {
    var i := FirstUsed(s, r, |s|);
    if i.Some? then i else FirstUsed(s, 0, r)
  }

  function NextFree(s: seq<Slot>, w: nat): Option<nat>
    requires w <= |s|
  {
    var i := FirstFree(s, w, |s|);
    if i.Some? then i else FirstFree(s, 0, w)
  }

  predicate AllFree(s: seq<Slot>, from: nat, end: nat)
    requires from <= end <= |s|
  {
    forall k :: from <= k < end ==> s[k] == None
  }

  predicate AllUsed(s: seq<Slot>, from: nat, end: nat)
    requires from <= end <= |s|
  {
    forall k :: from <= k < end ==> s[k].Some?
  }

  lemma {:induction false} FirstUsedIs(s: seq<Slot>, from: nat, end: nat)
    requires from <= end <= |s|
    ensures match FirstUsed(s, from, end)
            case None => AllFree(s, from, end)
            case Some(i) => from <= i < end && s[i].Some? && AllFree(s, from, i)
    decreases end as int - from
  {
    if from < end && s[from].None? {
      FirstUsedIs(s, from + 1, end);
    }
  }

  lemma {:induction false} FirstFreeIs(s: seq<Slot>, from: nat, end: nat)
    requires from <= end <= |s|
    ensures match FirstFree(s, from, end)
            case None => AllUsed(s, from, end)
            case Some(i) => from <= i < end && s[i] == None && AllUsed(s, from, i)
    decreases end as int - from
  {
    if from < end && s[from].Some? {
      FirstFreeIs(s, from + 1, end);
    }
  }

  /** The packets in the slots of a list, in order. */
  function Used(s: seq<Slot>): seq<Packet> {
    if s == [] then [] else (if s[0].Some? then [s[0].value] else []) + Used(s[1..])
  }

  /** The packets in the order the delivering side takes them: from its place on, then from the start. */
  function InOrder(s: seq<Slot>, r: nat): seq<Packet>
    requires r <= |s|
  {
    Used(s[r..]) + Used(s[..r])
  }

  function Wrap(i: nat): nat {
    if i >= SLOTS then i - SLOTS else i
  }

  function Nth(s: seq<Slot>, r: nat, k: nat): Slot
    requires |s| == SLOTS && r < SLOTS && k < SLOTS
  {
    s[Wrap(r + k)]
  }

  /** Slots `r`, `r + 1`, ... hold the packets of `q`, around the end, and the others are free. */
  predicate Holds(s: seq<Slot>, r: nat, q: seq<Packet>) {
    && |s| == SLOTS && r < SLOTS && |q| <= SLOTS
    && (forall k :: 0 <= k < |q| ==> Nth(s, r, k) == Some(q[k]))
    && (forall k :: |q| <= k < SLOTS ==> Nth(s, r, k) == None)
  }

  lemma {:induction false} UsedAppend(s: seq<Slot>, t: seq<Slot>)
    ensures Used(s + t) == Used(s) + Used(t)
  {
    if s == [] {
      assert s + t == t;
    } else {
      assert (s + t)[1..] == s[1..] + t;
      UsedAppend(s[1..], t);
    }
  }

  lemma {:induction false} UsedIs(s: seq<Slot>, q: seq<Packet>)
    requires |q| <= |s|
    requires forall k :: 0 <= k < |q| ==> s[k] == Some(q[k])
    requires forall k :: |q| <= k < |s| ==> s[k] == None
    ensures Used(s) == q
  {
    if s != [] {
      if q == [] {
        UsedIs(s[1..], []);
      } else {
        UsedIs(s[1..], q[1..]);
      }
    }
  }

  lemma HeldInOrder(s: seq<Slot>, r: nat, q: seq<Packet>)
    requires Holds(s, r, q)
    ensures InOrder(s, r) == q
  {
    var t := s[r..] + s[..r];
    UsedAppend(s[r..], s[..r]);
    forall k | 0 <= k < SLOTS ensures t[k] == Nth(s, r, k) {
    }
    UsedIs(t, q);
  }

  /** Where the two sides find what they look for when they agree on the places. */
  lemma NextAre(s: seq<Slot>, r: nat, q: seq<Packet>)
    requires Holds(s, r, q)
    ensures NextFree(s, Wrap(r + |q|)) == if |q| == SLOTS then None else Some(Wrap(r + |q|))
  {
    var w := Wrap(r + |q|);
    FirstFreeIs(s, w, SLOTS);
    FirstFreeIs(s, 0, w);
    if |q| == SLOTS {
      forall i | 0 <= i < SLOTS ensures s[i].Some? {
        var k := if i >= r then i - r else i + SLOTS - r;
        assert Nth(s, r, k) == Some(q[k]);
      }
    } else {
      assert Nth(s, r, |q|) == None;
    }
  }

  /** There is a next free slot exactly when one is free. */
  lemma NextFreeIs(s: seq<Slot>, w: nat)
    requires w <= |s|
    ensures match NextFree(s, w)
            case None => None !in s
            case Some(i) => i < |s| && s[i] == None && None in s
  {
    FirstFreeIs(s, w, |s|);
    FirstFreeIs(s, 0, w);
  }

  /** The packet went into the next free slot, and the writing side's place is behind it. */
  predicate StoredAt(s: seq<Slot>, w: nat, p: Packet, s': seq<Slot>, w': nat)
    requires w <= |s|
  {
    var i := NextFree(s, w);
    i.Some? && i.value < |s| && s' == s[i.value := Some(p)] && w' == Wrap(i.value + 1)
  }

  /** A writing side that is right behind the packets from place `k` on stores the next one there. */
  lemma StoreFrom(s: seq<Slot>, k: nat, q: seq<Packet>, p: Packet)
    requires Holds(s, k, q)
    ensures None in s <==> |q| < SLOTS
    ensures |q| < SLOTS ==>
              var w := Wrap(k + |q|);
              && StoredAt(s, w, p, s[w := Some(p)], Wrap(k + |q + [p]|))
              && Holds(s[w := Some(p)], k, q + [p])
  {
    NextAre(s, k, q);
    NextFreeIs(s, Wrap(k + |q|));
    if |q| < SLOTS { StoreHolds(s, k, q, p); }
  }

  /** A free slot is left exactly while fewer than 8 packets wait. */
  lemma FullOrStored(s: seq<Slot>, r: nat, w: nat)
    requires |s| == SLOTS && r < SLOTS && Holds(s, r, InOrder(s, r)) && w == Wrap(r + |InOrder(s, r)|)
    ensures None in s <==> |InOrder(s, r)| < SLOTS
  {
    StoreFrom(s, r, InOrder(s, r), []);
  }

  /** Sides that agree still do, and the packet is the last one waiting. */
  lemma StoreInOrder(s: seq<Slot>, r: nat, w: nat, p: Packet, s': seq<Slot>, w': nat)
    requires |s| == SLOTS && r < SLOTS && Holds(s, r, InOrder(s, r)) && w == Wrap(r + |InOrder(s, r)|)
    requires |InOrder(s, r)| < SLOTS && StoredAt(s, w, p, s', w')
    ensures Holds(s', r, InOrder(s, r) + [p]) && InOrder(s', r) == InOrder(s, r) + [p]
    ensures w' == Wrap(r + |InOrder(s', r)|)
  {
    var q := InOrder(s, r);
    StoreFrom(s, r, q, p);
    HeldInOrder(s', r, q + [p]);
  }

  lemma StoreHolds(s: seq<Slot>, r: nat, q: seq<Packet>, p: Packet)
    requires Holds(s, r, q) && |q| < SLOTS
    ensures Holds(s[Wrap(r + |q|) := Some(p)], r, q + [p])
  {
    var t := s[Wrap(r + |q|) := Some(p)];
    forall k | 0 <= k < SLOTS && k != |q| ensures Nth(t, r, k) == Nth(s, r, k) {
    }
  }

  lemma TakeHolds(s: seq<Slot>, r: nat, q: seq<Packet>)
    requires Holds(s, r, q) && q != []
    ensures NextUsed(s, r) == Some(r) && Holds(s[r := None], Wrap(r + 1), q[1..])
  {
    assert Nth(s, r, 0) == Some(q[0]);
    FirstUsedIs(s, r, SLOTS);
    var t, r' := s[r := None], Wrap(r + 1);
    forall k | 0 <= k < |q| - 1 ensures Nth(t, r', k) == Some(q[1..][k]) {
      assert Nth(s, r, k + 1) == Some(q[k + 1]);
    }
    forall k | |q| - 1 <= k < SLOTS ensures Nth(t, r', k) == None {
      if k < SLOTS - 1 { assert Nth(s, r, k + 1) == None; }
    }
  }

  lemma {:induction false} UsedNone(s: seq<Slot>)
    requires AllFree(s, 0, |s|)
    ensures Used(s) == []
  {
    UsedIs(s, []);
  }

  /** Free slots and then a used one. */
  lemma UsedFirst(s: seq<Slot>, i: nat)
    requires i < |s| && s[i].Some? && AllFree(s, 0, i)
    ensures Used(s) == [s[i].value] + Used(s[i + 1..])
  {
    UsedNone(s[..i]);
    UsedAppend(s[..i], s[i..]);
    assert s == s[..i] + s[i..];
    assert s[i..][1..] == s[i + 1..];
  }

  /** Taking the next packet leaves the others in their order, whatever the two places are. */
  lemma TakeInOrder(s: seq<Slot>, r: nat)
    requires |s| == SLOTS && r < SLOTS
    ensures match NextUsed(s, r)
            case None => InOrder(s, r) == []
            case Some(i) =>
              && i < SLOTS && s[i].Some? && InOrder(s, r) != [] && InOrder(s, r)[0] == s[i].value
              && InOrder(s[i := None], Wrap(i + 1)) == InOrder(s, r)[1..]
  {
    FirstUsedIs(s, r, SLOTS);
    FirstUsedIs(s, 0, r);
    match NextUsed(s, r)
    case None =>
      UsedNone(s[r..]);
      UsedNone(s[..r]);
    case Some(i) =>
      if i >= r { TakeHere(s, r, i); } else { TakeAround(s, r, i); }
  }

  /** The order once more for a place at the end, which counts as the start. */
  lemma OrderAtEnd(s: seq<Slot>, i: nat)
    requires |s| == SLOTS && i < SLOTS
    ensures InOrder(s, Wrap(i + 1)) == Used(s[i + 1..]) + Used(s[..i + 1])
  {
    if i + 1 == SLOTS {
      assert s[i + 1..] == [] && s[..i + 1] == s && s[0..] == s && s[..0] == [];
    }
  }

  lemma TakeHere(s: seq<Slot>, r: nat, i: nat)
    requires |s| == SLOTS && r <= i < SLOTS && s[i].Some? && AllFree(s, r, i)
    ensures InOrder(s, r) == [s[i].value] + InOrder(s[i := None], Wrap(i + 1))
  {
    var t := s[i := None];
    FirstFrom(s, r, i);
    OrderAtEnd(t, i);
    assert t[i + 1..] == s[i + 1..];
    NoneSince(s, t, r, i);
  }

  lemma FirstFrom(s: seq<Slot>, r: nat, i: nat)
    requires r <= i < |s| && s[i].Some? && AllFree(s, r, i)
    ensures Used(s[r..]) == [s[i].value] + Used(s[i + 1..])
  {
    UsedFirst(s[r..], i - r);
    assert s[r..][i - r + 1..] == s[i + 1..];
  }

  lemma NoneSince(s: seq<Slot>, t: seq<Slot>, r: nat, i: nat)
    requires r <= i < |s| && t == s[i := None] && AllFree(s, r, i)
    ensures Used(t[..i + 1]) == Used(s[..r])
  {
    assert t[..i + 1] == s[..r] + t[r..i + 1];
    UsedAppend(s[..r], t[r..i + 1]);
    UsedNone(t[r..i + 1]);
  }

  lemma TakeAround(s: seq<Slot>, r: nat, i: nat)
    requires |s| == SLOTS && i < r < SLOTS && s[i].Some? && AllFree(s, 0, i) && AllFree(s, r, SLOTS)
    ensures InOrder(s, r) == [s[i].value] + InOrder(s[i := None], Wrap(i + 1))
  {
    var t := s[i := None];
    UsedNone(s[r..]);
    UsedFirst(s[..r], i);
    assert s[..r][i + 1..] == s[i + 1..r];
    OrderAtEnd(t, i);
    assert t[i + 1..] == s[i + 1..r] + s[r..];
    UsedAppend(s[i + 1..r], s[r..]);
    UsedNone(t[..i + 1]);
  }

  lemma OneMoreOut(out: seq<Packet>, packet: Packet, rest: seq<Packet>)
    ensures out + ([packet] + rest) == (out + [packet]) + rest
  {
  }

  // ---- the queue ----

  /** `written` and `read` are the places of the two sides. */
  class Queue {
    const slots: array<Slot>
    var written: nat
    var read: nat
    ghost var accepted: seq<Packet>
    ghost var delivered: seq<Packet>

    ghost predicate Shape()
      reads this, slots
    {
      slots.Length == SLOTS && written < SLOTS && read < SLOTS
    }

    /** The packets waiting, in the order they will be delivered. */
    ghost function Pending(): seq<Packet>
      reads this, slots
      requires Shape()
    {
      InOrder(slots[..], read)
    }

    /** Both sides agree on the places. */
    ghost predicate Agree()
      reads this, slots
      requires Shape()
    {
      Holds(slots[..], read, Pending()) && written == Wrap(read + |Pending()|)
    }

    /** They do, and what was accepted is what was delivered and then what waits. */
    ghost predicate Valid()
      reads this, slots
    {
      Shape() && Agree() && accepted == delivered + Pending()
    }

    /** A queue as the driver allocates it: everything free, both places 0. */
    constructor ()
      ensures Valid() && Pending() == [] && accepted == [] && fresh(slots)
    {
      slots := new Slot[SLOTS](_ => None);
      written, read, accepted, delivered := 0, 0, [], [];
      new;
      HeldInOrder(slots[..], 0, []);
    }

    method FindUsed(from: nat, to: nat) returns (at: Option<nat>)
      requires from <= to <= slots.Length
      ensures at == FirstUsed(slots[..], from, to)
    {
      var i := from;
      while i < to
        invariant from <= i <= to && FirstUsed(slots[..], from, to) == FirstUsed(slots[..], i, to)
      {
        if slots[i].Some? {
          return Some(i);
        }
        i := i + 1;
      }
      at := None;
    }

    method FindFree(from: nat, to: nat) returns (at: Option<nat>)
      requires from <= to <= slots.Length
      ensures at == FirstFree(slots[..], from, to)
    {
      var i := from;
      while i < to
        invariant from <= i <= to && FirstFree(slots[..], from, to) == FirstFree(slots[..], i, to)
      {
        if slots[i].None? {
          return Some(i);
        }
        i := i + 1;
      }
      at := None;
    }

    /**
     * MemCopyAudioToSteam(): the packet goes into the next free slot from the
     * writing side's place on, or is refused when there is none. When the
     * sides agree it goes behind the packets that wait.
     */
    method Store(p: Packet) returns (stored: bool)
      requires Shape()
      modifies this`written, this`accepted, slots
      ensures Shape() && delivered == old(delivered)
      ensures stored == (None in old(slots[..]))
      ensures stored ==> StoredAt(old(slots[..]), old(written), p, slots[..], written)
      ensures !stored ==> slots[..] == old(slots[..]) && written == old(written)
      ensures accepted == if stored then old(accepted) + [p] else old(accepted)
      ensures old(Valid()) ==>
                && Valid() && stored == (|old(Pending())| < SLOTS)
                && Pending() == if stored then old(Pending()) + [p] else old(Pending())
    {
      ghost var s, w, q := slots[..], written, Pending();
      NextFreeIs(s, w);
      var at := FindNextFree();
      if at.None? {
        if Agree() { FullOrStored(s, read, w); }
        return false;
      }
      slots[at.value] := Some(p);
      assert slots[..] == s[at.value := Some(p)];
      written := Wrap(at.value + 1);
      accepted := accepted + [p];
      if Holds(s, read, q) && w == Wrap(read + |q|) {
        FullOrStored(s, read, w);
        StoreInOrder(s, read, w, p, slots[..], written);
      }
      stored := true;
    }

    method FindNextFree() returns (at: Option<nat>)
      requires Shape()
      ensures at == NextFree(slots[..], written)
    {
      at := FindFree(written, SLOTS);
      if at.None? {
        at := FindFree(0, written);
      }
    }

    /** audio_data_process(): every packet there is, in order, from whatever places the two sides have. */
    method Drain() returns (out: seq<Packet>)
      requires Shape()
      modifies this`read, this`delivered, slots
      ensures Shape() && Pending() == [] && out == old(Pending()) && delivered == old(delivered) + out
      ensures old(Valid()) ==> Valid()
    {
      out := [];
      ghost var all := Pending();
      var at := FindNext();
      while at.Some?
        invariant Shape() && out + Pending() == all && delivered == old(delivered) + out
        invariant at == NextUsed(slots[..], read)
        invariant old(Agree()) ==> Agree()
        decreases |Pending()|
      {
        var packet := Take(at.value);
        OneMoreOut(out, packet, Pending());
        out := out + [packet];
        at := FindNext();
      }
      TakeInOrder(slots[..], read);
    }

    method FindNext() returns (at: Option<nat>)
      requires Shape()
      ensures at == NextUsed(slots[..], read)
    {
      at := FindUsed(read, SLOTS);
      if at.None? {
        at := FindUsed(0, read);
      }
    }

    /** One packet is delivered: its slot is free, and the reading side moves behind it. */
    method Take(i: nat) returns (packet: Packet)
      requires Shape() && NextUsed(slots[..], read) == Some(i)
      modifies this`read, this`delivered, slots
      ensures Shape() && old(Pending()) == [packet] + Pending() && delivered == old(delivered) + [packet]
      ensures old(Agree()) ==> Agree()
    {
      ghost var s, r, q := slots[..], read, Pending();
      TakeInOrder(s, r);
      if Holds(s, r, q) { TakeHolds(s, r, q); }
      packet := slots[i].value;
      slots[i] := None;
      assert slots[..] == s[i := None];
      read := Wrap(i + 1);
      delivered := delivered + [packet];
    }

    /** StartAudioCapture(): every slot is free and the reading side starts over; the writing side does not. */
    method Start()
      requires Shape()
      modifies this`read, this`accepted, this`delivered, slots
      ensures Shape() && Pending() == [] && written == old(written) && read == 0
      ensures forall k :: 0 <= k < SLOTS ==> slots[k] == None
      ensures Valid() <==> written == 0
    {
      read, accepted, delivered := 0, [], [];
      forall k | 0 <= k < SLOTS {
        slots[k] := None;
      }
      HeldInOrder(slots[..], 0, []);
    }
  }

  // ---- what the writing side's place does after a start ----

  /** Packets stored from place `k` on, and delivered from place 0. */
  lemma OrderFromStart(s: seq<Slot>, k: nat, q: seq<Packet>)
    requires Holds(s, k, q)
    ensures InOrder(s, 0) == if k + |q| <= SLOTS then q else q[SLOTS - k..] + q[..SLOTS - k]
  {
    assert s[0..] == s && s[..0] == [];
    if k + |q| <= SLOTS {
      forall i | 0 <= i < k ensures s[i] == None {
        assert Nth(s, k, i + SLOTS - k) == s[i];
      }
      forall i | 0 <= i < |q| ensures s[k..][i] == Some(q[i]) {
        assert Nth(s, k, i) == Some(q[i]);
      }
      forall i | |q| <= i < SLOTS - k ensures s[k..][i] == None {
        assert Nth(s, k, i) == None;
      }
      UsedNone(s[..k]);
      UsedIs(s[k..], q);
      UsedAppend(s[..k], s[k..]);
      assert s == s[..k] + s[k..];
    } else {
      OrderAround(s, k, q);
    }
  }

  lemma OrderAround(s: seq<Slot>, k: nat, q: seq<Packet>)
    requires Holds(s, k, q) && k + |q| > SLOTS
    ensures Used(s) == q[SLOTS - k..] + q[..SLOTS - k]
  {
    var n := SLOTS - k;
    forall i | 0 <= i < n ensures s[k..][i] == Some(q[..n][i]) {
      assert Nth(s, k, i) == Some(q[i]);
    }
    forall i | 0 <= i < |q| - n ensures s[..k][i] == Some(q[n..][i]) {
      assert Nth(s, k, n + i) == Some(q[n + i]);
    }
    forall i | |q| - n <= i < k ensures s[..k][i] == None {
      assert Nth(s, k, n + i) == None;
    }
    UsedIs(s[k..], q[..n]);
    UsedIs(s[..k], q[n..]);
    UsedAppend(s[..k], s[k..]);
    assert s == s[..k] + s[k..];
  }

  /** The packets of a list the queue has room for. */
  function Accepted(ps: seq<Packet>): seq<Packet> {
    if |ps| <= SLOTS then ps else ps[..SLOTS]
  }

  /** What a start with the writing side at place `k`, the packets `ps`, and then the delivering work hand on. */
  function Restarted(k: nat, ps: seq<Packet>): seq<Packet>
    requires k < SLOTS
  {
    var q := Accepted(ps);
    if k + |q| <= SLOTS then q else q[SLOTS - k..] + q[..SLOTS - k]
  }

  /** One packet more behind those that lie from place `k` on. */
  method StoreNext(queue: Queue, p: Packet, ghost k: nat, ghost q: seq<Packet>) returns (ghost q': seq<Packet>)
    requires queue.Shape() && Holds(queue.slots[..], k, q) && queue.written == Wrap(k + |q|)
    modifies queue`written, queue`accepted, queue.slots
    ensures q' == if |q| < SLOTS then q + [p] else q
    ensures queue.Shape() && Holds(queue.slots[..], k, q') && queue.written == Wrap(k + |q'|)
  {
    StoreFrom(queue.slots[..], k, q, p);
    var stored := queue.Store(p);
    q' := if stored then q + [p] else q;
  }

  /** Capture starts again, packets arrive, and then the work delivers them. */
  method RestartAndDeliver(queue: Queue, ps: seq<Packet>) returns (out: seq<Packet>)
    requires queue.Shape()
    modifies queue, queue.slots
    ensures out == Restarted(old(queue.written), ps)
  {
    ghost var k, q := queue.written, [];
    queue.Start();
    HeldFrom(queue.slots[..], k);
    for i := 0 to |ps|
      invariant queue.Shape() && queue.read == 0 && q == Accepted(ps[..i])
      invariant Holds(queue.slots[..], k, q) && queue.written == Wrap(k + |q|)
    {
      q := StoreNext(queue, ps[i], k, q);
      AcceptedMore(ps, i);
    }
    assert ps[..|ps|] == ps;
    OrderFromStart(queue.slots[..], k, q);
    out := queue.Drain();
  }

  lemma HeldFrom(s: seq<Slot>, k: nat)
    requires |s| == SLOTS && k < SLOTS && AllFree(s, 0, SLOTS)
    ensures Holds(s, k, [])
  {
  }

  lemma AcceptedMore(ps: seq<Packet>, i: nat)
    requires i < |ps|
    ensures Accepted(ps[..i + 1]) == (if i < SLOTS then Accepted(ps[..i]) + [ps[i]] else Accepted(ps[..i]))
    ensures |Accepted(ps[..i])| < SLOTS <==> i < SLOTS
  {
  }

  /**
   * After a start with the writing side at place `k`, the packets accepted are
   * delivered in the order they were stored if and only if they reach no
   * further than the last slot: StartAudioCapture() leaves `k` as it was.
   */
  lemma StartKeepsOrderExactly(k: nat, n: nat)
    requires k < SLOTS
    ensures (forall ps: seq<Packet> :: |ps| == n ==> Restarted(k, ps) == Accepted(ps))
            <==> k + (if n < SLOTS then n else SLOTS) <= SLOTS
  {
    if k + (if n < SLOTS then n else SLOTS) > SLOTS {
      var ps := seq(n, i => [i]);
      assert Restarted(k, ps)[0] == [SLOTS - k] && Accepted(ps)[0] == [0];
    }
  }
}
