/**
 The live events of the sweep runner (sweeprunner.py:47-149, 503-549): every frame is stamped
 with the number of finished runs and put into each subscriber's bounded queue. A subscriber
 whose queue is full is cut off rather than left with a hole.

 `emitted`, `joined` and `taken` are what happened, for the specification.
 */
module SweepEvents {
  import opened Wrappers

  type SubId = int

  datatype Event = Progress(line: int) | Done | Failed(message: int)
  datatype Frame = Frame(event: Event, finished: nat)
  datatype Sub = Sub(queue: seq<Frame>, overflow: bool)

  predicate Terminal(e: Event) {
    e.Done? || e.Failed?
  }

  function Terminals(frames: seq<Frame>): nat {
    if frames == [] then 0
    else Terminals(frames[..|frames| - 1]) + (if Terminal(frames[|frames| - 1].event) then 1 else 0)
  }

  /** Each frame carries the number of runs that had finished when it was sent, its own included. */
  ghost predicate Stamped(frames: seq<Frame>) {
    forall i :: 0 <= i < |frames| ==> frames[i].finished == Terminals(frames[..i + 1])
  }

  lemma {:induction false} TerminalsJoin(a: seq<Frame>, b: seq<Frame>)
    ensures Terminals(a + b) == Terminals(a) + Terminals(b)
  {
    if b == [] {
      assert a + b == a;
    } else {
      assert (a + b)[..|a + b| - 1] == a + b[..|b| - 1];
      TerminalsJoin(a, b[..|b| - 1]);
    }
  }

  /**
   What a client can tell from two counters: their difference is the number of runs that
   ended between the two frames, whether or not it was there to see them.
   */
  lemma CountersTellWhatWasMissed(frames: seq<Frame>, i: nat, j: nat)
    requires Stamped(frames) && i <= j < |frames|
    ensures frames[j].finished - frames[i].finished == Terminals(frames[i + 1..j + 1])
  {
    assert frames[..j + 1] == frames[..i + 1] + frames[i + 1..j + 1];
    TerminalsJoin(frames[..i + 1], frames[i + 1..j + 1]);
  }

  /** What a subscriber has got and will get: all since it joined, or a beginning of that. */
  ghost predicate Served(emitted: seq<Frame>, joined: nat, taken: seq<Frame>, sub: Sub, queueMax: nat) {
    && joined <= |emitted|
    && |sub.queue| <= queueMax
    && taken + sub.queue <= emitted[joined..]
    && (!sub.overflow ==> taken + sub.queue == emitted[joined..])
  }

  class Broadcaster {
    const queueMax: nat
    var finished: nat
    var lastError: Option<int>
    var subs: map<SubId, Sub>
    ghost var emitted: seq<Frame>
    ghost var joined: map<SubId, nat>
    ghost var taken: map<SubId, seq<Frame>>

    ghost predicate Valid()
      reads this
    {
      && subs.Keys <= joined.Keys && subs.Keys <= taken.Keys
      && Stamped(emitted) && finished == Terminals(emitted)
      && forall s :: s in subs ==> Served(emitted, joined[s], taken[s], subs[s], queueMax)
    }

    constructor (queueMax: nat)
      ensures Valid() && subs == map[] && finished == 0 && this.queueMax == queueMax
    {
      this.queueMax := queueMax;
      finished, lastError, subs := 0, None, map[];
      emitted, joined, taken := [], map[], map[];
    }

    /** `_emit`: one frame to every subscriber that still keeps up. */
    method Emit(e: Event)
      requires Valid()
      modifies this
      ensures Valid()
      ensures finished == old(finished) + if Terminal(e) then 1 else 0
      ensures lastError == if e.Failed? then Some(e.message) else if e.Done? then None else old(lastError)
      ensures emitted == old(emitted) + [Frame(e, finished)]
      ensures joined == old(joined) && taken == old(taken) && subs.Keys == old(subs.Keys)
      ensures forall s :: s in subs ==> subs[s] == Offered(old(subs)[s], Frame(e, finished), queueMax)
    {
      hide Served, Stamped, Terminals, Offered;
      if Terminal(e) {
        finished := finished + 1;
        lastError := if e.Failed? then Some(e.message) else None;
      }
      var frame := Frame(e, finished);
      ghost var before := subs;
      var rest := subs.Keys;
      while rest != {}
        invariant rest <= before.Keys == subs.Keys
        invariant forall s :: s in rest ==> subs[s] == before[s]
        invariant forall s :: s in before.Keys - rest ==> subs[s] == Offered(before[s], frame, queueMax)
        invariant finished == old(finished) + if Terminal(e) then 1 else 0
        invariant lastError == if e.Failed? then Some(e.message) else if e.Done? then None else old(lastError)
        invariant emitted == old(emitted) && joined == old(joined) && taken == old(taken)
        decreases rest
      {
        ghost var some: SubId := SomeMember(rest);
        assert some in rest;
        var s: SubId :| s in rest;
        var sub := subs[s];
        OfferedIs(sub, frame, queueMax);
        if !sub.overflow {
          if |sub.queue| < queueMax {
            subs := subs[s := sub.(queue := sub.queue + [frame])];
          } else {
            subs := subs[s := sub.(overflow := true)];
          }
        }
        rest := rest - {s};
      }
      emitted := emitted + [frame];
      StampedMore(old(emitted), frame);
      forall s | s in subs ensures Served(emitted, joined[s], taken[s], subs[s], queueMax) {
        OfferedServes(old(emitted), frame, joined[s], taken[s], before[s], queueMax);
      }
    }

    /** `subscribe`: registering and taking the counters are one turn of the loop. */
    method Subscribe(s: SubId) returns (sync: nat)
      requires Valid() && s !in joined
      modifies this
      ensures Valid() && s in subs && !subs[s].overflow && subs[s].queue == []
      ensures sync == finished == old(finished)
      ensures joined == old(joined)[s := |emitted|] && taken == old(taken)[s := []]
      ensures emitted == old(emitted) && subs.Keys == old(subs.Keys) + {s}
    {
      hide Served, Stamped, Terminals;
      sync := finished;
      subs := subs[s := Sub([], false)];
      joined, taken := joined[s := |emitted|], taken[s := []];
      Newcomer(emitted, queueMax);
    }

    method Unsubscribe(s: SubId)
      requires Valid()
      modifies this`subs
      ensures Valid() && subs.Keys == old(subs.Keys) - {s}
      ensures forall x :: x in subs ==> subs[x] == old(subs[x])
    {
      hide Served, Stamped, Terminals;
      subs := subs - {s};
    }

    /** The stream's next frame; the top of its loop ends it on overflow first. */
    method Next(s: SubId) returns (frame: Option<Frame>, bye: bool)
      requires Valid() && s in subs
      modifies this`subs, this`taken
      ensures Valid()
      ensures bye == old(subs[s].overflow)
      ensures frame.Some? <==> !bye && old(subs[s].queue) != []
      ensures frame.Some? ==>
                && frame.value == old(subs[s].queue)[0]
                && taken == old(taken)[s := old(taken[s]) + [frame.value]]
      ensures frame.None? ==> taken == old(taken) && subs == old(subs)
    {
      hide Served, Stamped, Terminals;
      var sub := subs[s];
      bye, frame := sub.overflow, None;
      if bye || sub.queue == [] {
        return;
      }
      frame := Some(sub.queue[0]);
      HandedOut(emitted, joined[s], taken[s], sub, queueMax);
      subs := subs[s := sub.(queue := sub.queue[1..])];
      taken := taken[s := taken[s] + [frame.value]];
    }

    /** No silent hole: a subscriber that is not cut off and has drained its queue has seen everything. */
    lemma NothingMissed(s: SubId)
      requires Valid() && s in subs && !subs[s].overflow && subs[s].queue == []
      ensures taken[s] == emitted[joined[s]..]
      ensures finished == Terminals(emitted[..joined[s]]) + Terminals(taken[s])
    {
      assert taken[s] + [] == taken[s];
      assert emitted == emitted[..joined[s]] + emitted[joined[s]..];
      TerminalsJoin(emitted[..joined[s]], emitted[joined[s]..]);
    }
  }

  /** A subscriber after one more frame. */
  function Offered(sub: Sub, frame: Frame, queueMax: nat): Sub {
    if sub.overflow then sub
    else if |sub.queue| < queueMax then sub.(queue := sub.queue + [frame])
    else sub.(overflow := true)
  }

  lemma OfferedIs(sub: Sub, frame: Frame, queueMax: nat)
    ensures Offered(sub, frame, queueMax) ==
            if sub.overflow then sub
            else if |sub.queue| < queueMax then sub.(queue := sub.queue + [frame])
            else sub.(overflow := true)
  {
  }

  lemma OfferedServes(emitted: seq<Frame>, frame: Frame, joined: nat, taken: seq<Frame>, sub: Sub, queueMax: nat)
    requires Served(emitted, joined, taken, sub, queueMax)
    ensures Served(emitted + [frame], joined, taken, Offered(sub, frame, queueMax), queueMax)
  {
    assert (emitted + [frame])[joined..] == emitted[joined..] + [frame];
    assert taken + (sub.queue + [frame]) == (taken + sub.queue) + [frame];
  }

  lemma Newcomer(emitted: seq<Frame>, queueMax: nat)
    ensures Served(emitted, |emitted|, [], Sub([], false), queueMax)
  {
  }

  lemma HandedOut(emitted: seq<Frame>, joined: nat, taken: seq<Frame>, sub: Sub, queueMax: nat)
    requires Served(emitted, joined, taken, sub, queueMax) && sub.queue != []
    ensures Served(emitted, joined, taken + [sub.queue[0]], sub.(queue := sub.queue[1..]), queueMax)
  {
    assert taken + sub.queue == (taken + [sub.queue[0]]) + sub.queue[1..];
  }

  lemma StampedMore(emitted: seq<Frame>, frame: Frame)
    requires Stamped(emitted)
    requires frame.finished == Terminals(emitted) + if Terminal(frame.event) then 1 else 0
    ensures Stamped(emitted + [frame]) && Terminals(emitted + [frame]) == frame.finished
  {
    var more := emitted + [frame];
    assert more[..|emitted|] == emitted;
    forall i | 0 <= i < |more| ensures more[i].finished == Terminals(more[..i + 1]) {
      if i < |emitted| {
        assert more[..i + 1] == emitted[..i + 1];
      } else {
        assert more[..i + 1] == more;
      }
    }
  }
}
