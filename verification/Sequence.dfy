/**
 * The completions handed out since the engine last started: every frame
 * number stands for one payload, and a consumer sees the numbers rise.
 */
module Sequence {
  import opened Basics
  import opened ZeroCopy
  import opened Frames
  import opened Delivery
  import opened Effects

  /** Every complete buffer of this engine run holds what its frame number was shown as. */
  ghost predicate Delivered(a: Assembly, log: seq<Completion>) {
    && a.runStart <= |log|
    && (forall n: nat :: n in a.shown ==> n < a.seqno)
    && (forall i :: a.runStart <= i < |log| && log[i].state == Done ==>
          log[i].seqno in a.shown && log[i].payload == a.shown[log[i].seqno])
  }

  ghost predicate Rises(from: nat, log: seq<Completion>) {
    forall i, j :: from <= i < j < |log| && log[i].state == Done && log[j].state == Done ==>
      log[i].owner == log[j].owner ==> log[i].seqno < log[j].seqno
  }

  ghost predicate Logged(a: Assembly, log: seq<Completion>) {
    Delivered(a, log) && Rises(a.runStart, log)
  }

  /** A frame number is used up by each frame lost and each frame finished. */
  ghost predicate Numbered(a: Assembly) {
    a.droppedAtStart <= a.dropped && a.seqno == a.dropped - a.droppedAtStart + a.finished
  }

  /** The complete ones of `made` are all of frame `n`, hold `content`, and go to different consumers. */
  ghost predicate OneFrame(made: seq<Completion>, n: nat, content: seq<byte>) {
    && (forall e :: e in made && e.state == Done ==> e.seqno == n && e.payload == content)
    && (forall i, j :: 0 <= i < j < |made| && made[i].state == Done && made[j].state == Done ==>
        made[i].owner != made[j].owner)
  }

  lemma FailedLogged(a: Assembly, a': Assembly, log: seq<Completion>, made: seq<Completion>)
    requires Logged(a, log) && AllFailed(made)
    requires a'.runStart == a.runStart && a'.shown == a.shown && a'.seqno >= a.seqno
    ensures Logged(a', log + made)
  {
    var log' := log + made;
    assert forall i :: |log| <= i < |log'| ==> log'[i] == made[i - |log|] && log'[i] in made;
  }

  lemma FailsLogged(a: Assembly, a': Assembly, p: Pool, p': Pool)
    requires Logged(a, p.log) && FailsOnly(p, p')
    requires a'.runStart == a.runStart && a'.shown == a.shown && a'.seqno >= a.seqno
    ensures Logged(a', p'.log)
  {
    var made :| Moves(p, p', made) && AllFailed(made);
    FailedLogged(a, a', p.log, made);
  }

  /** A frame's completions extend the log by one more frame number. */
  lemma FrameLogged(a: Assembly, a': Assembly, log: seq<Completion>, made: seq<Completion>, content: seq<byte>)
    requires Logged(a, log) && OneFrame(made, a.seqno, content)
    requires a'.runStart == a.runStart && a'.shown == a.shown[a.seqno := content] && a'.seqno == a.seqno + 1
    ensures Logged(a', log + made)
  {
    var log' := log + made;
    forall i | a.runStart <= i < |log'| && log'[i].state == Done
      ensures log'[i].seqno in a'.shown && log'[i].payload == a'.shown[log'[i].seqno]
      ensures i < |log| ==> log'[i].seqno < a.seqno
      ensures i >= |log| ==> log'[i].seqno == a.seqno
    {
      if i < |log| { assert log'[i] == log[i]; } else { assert log'[i] in made; }
    }
    forall i, j | a.runStart <= i < j < |log'| && log'[i].state == Done && log'[j].state == Done
      ensures log'[i].owner == log'[j].owner ==> log'[i].seqno < log'[j].seqno
    {
      if j < |log| {
        assert log'[i] == log[i] && log'[j] == log[j];
      } else if i >= |log| {
        assert made[i - |log|].owner != made[j - |log|].owner;
      }
    }
  }

  /** What hws_finish_frame() makes of buffers of different consumers that all hold the same frame. */
  lemma FinishedFrame(p: Pool, state: VbState, n: nat, size: nat, content: seq<byte>)
    requires HeldOnce(p) && forall b: Id :: multiset(p.frameBufs)[b] <= 1
    requires forall b: Id :: b in p.frameBufs && state == Done ==> Frames.Take(p.Mem(b), size) == content
    ensures OneFrame(MadeAll(p, p.frameBufs, state, n, size), n, content)
    ensures forall e :: e in MadeAll(p, p.frameBufs, state, n, size) ==>
              e.buf in p.frameBufs && e.owner == p.Owner(e.buf)
  {
    var bs := p.frameBufs;
    var made := MadeAll(p, bs, state, n, size);
    MadeAllAt(p, bs, state, n, size);
    forall i, j | 0 <= i < j < |made| && made[i].state == Done && made[j].state == Done
      ensures made[i].owner != made[j].owner
    {
      NoRepeat(bs, i, j);
      assert p.Of(p.Owner(bs[i])).held == Some(bs[i]) && p.Of(p.Owner(bs[j])).held == Some(bs[j]);
    }
  }

  lemma NoRepeat(s: seq<Id>, i: nat, j: nat)
    requires i < j < |s| && forall b: Id :: multiset(s)[b] <= 1
    ensures s[i] != s[j]
  {
    assert s == s[..j] + [s[j]] + s[j + 1..];
    assert multiset(s) == multiset(s[..j]) + multiset{s[j]} + multiset(s[j + 1..]);
    assert s[i] in s[..j];
    assert multiset(s)[s[i]] <= 1;
  }

  lemma Joined(x: seq<Completion>, y: seq<Completion>, n: nat, content: seq<byte>)
    requires OneFrame(x, n, content) && OneFrame(y, n, content)
    requires forall e, f :: e in x && f in y && e.state == Done && f.state == Done ==> e.owner != f.owner
    ensures OneFrame(x + y, n, content)
  {
    var z := x + y;
    forall i, j | 0 <= i < j < |z| && z[i].state == Done && z[j].state == Done ensures z[i].owner != z[j].owner {
      if j < |x| {
        assert z[i] == x[i] && z[j] == x[j];
      } else if i >= |x| {
        assert z[i] == y[i - |x|] && z[j] == y[j - |x|];
      } else {
        assert z[i] in x && z[j] in y;
      }
    }
  }
}
