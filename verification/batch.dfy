/**
  How a datagram's messages are processed: one after the other, each either continuing with a
  new state (and perhaps an event) or stopping the rest of the datagram. Generic in the state,
  the message and the event, so the sequencing laws are proved once, independent of what a
  single step does.
 */
module Batches {
  import opened Wrappers

  /** What one message does to the batch. */
  datatype Outcome<S, E> = Continue(state: S, event: Option<E>) | Stop

  /** The result of a batch: the final state, the events emitted in order, and whether a
      message stopped the batch early. */
  datatype Batch<S, E> = Batch(state: S, events: seq<E>, stopped: bool)

  /** The events one outcome contributes, in order. */
  function Emitted<E>(e: Option<E>): (r: seq<E>)
    ensures |r| <= 1
    ensures r == [] <==> e.None?
    ensures e.Some? ==> r == [e.value]
  {
    if e.Some? then [e.value] else []
  }

  /** The messages, in order, until one of them stops the batch; the state reached before the
      stopping message is kept. */
  function Run<S, M, E>(step: (S, M) -> Outcome<S, E>, h: S, msgs: seq<M>): (r: Batch<S, E>)
    ensures |r.events| <= |msgs|
    ensures r.stopped ==> msgs != []
    ensures msgs == [] ==> r == Batch(h, [], false)
    decreases |msgs|
  {
    if msgs == [] then Batch(h, [], false)
    else
      var o := step(h, msgs[0]);
      if o.Stop? then Batch(h, [], true)
      else
        var rest := Run(step, o.state, msgs[1..]);
        Batch(rest.state, Emitted(o.event) + rest.events, rest.stopped)
  }

  /** A batch that runs to completion can be split anywhere: running a ++ b is running a,
      then b from the state a left. */
  lemma {:induction false} RunAppend<S, M, E>(step: (S, M) -> Outcome<S, E>, h: S,
                                              a: seq<M>, b: seq<M>)
    requires !Run(step, h, a).stopped
    ensures var p := Run(step, h, a);
            var q := Run(step, p.state, b);
            Run(step, h, a + b) == Batch(q.state, p.events + q.events, q.stopped)
    decreases |a|
  {
    if a == [] {
      assert a + b == b;
    } else {
      var o := step(h, a[0]);
      assert (a + b)[0] == a[0];
      assert (a + b)[1..] == a[1..] + b;
      RunAppend(step, o.state, a[1..], b);
      var p' := Run(step, o.state, a[1..]);
      var q := Run(step, p'.state, b);
      var ev := Emitted(o.event);
      assert ev + (p'.events + q.events) == (ev + p'.events) + q.events;
    }
  }

  /** A single message: a stopping one leaves the state as it was and emits nothing; a
      continuing one carries its new state and its event, if any, into the batch. */
  lemma RunOne<S, M, E>(step: (S, M) -> Outcome<S, E>, h: S, m: M)
    ensures var o := step(h, m);
            Run(step, h, [m]) == if o.Stop? then Batch(h, [], true)
                                 else Batch(o.state, Emitted(o.event), false)
  {
    assert [m][1..] == [];
  }

  /** One more message after a batch that ran to completion: it is applied to the state the
      batch reached, and its event, if any, is appended after the batch's events. */
  lemma RunExtend<S, M, E>(step: (S, M) -> Outcome<S, E>, h: S, msgs: seq<M>, m: M)
    requires !Run(step, h, msgs).stopped
    ensures var p := Run(step, h, msgs);
            var o := step(p.state, m);
            Run(step, h, msgs + [m]) == if o.Stop? then p.(stopped := true)
                                        else Batch(o.state, p.events + Emitted(o.event), false)
  {
    RunAppend(step, h, msgs, [m]);
    RunOne(step, Run(step, h, msgs).state, m);
  }

  /** A stopping message ends the batch: nothing after it is applied, and the state and events
      are those of the messages before it. */
  lemma StopsAtFirstBad<S, M, E>(step: (S, M) -> Outcome<S, E>, h: S, msgs: seq<M>, i: nat)
    requires i < |msgs|
    requires !Run(step, h, msgs[..i]).stopped
    requires step(Run(step, h, msgs[..i]).state, msgs[i]).Stop?
    ensures Run(step, h, msgs) == Run(step, h, msgs[..i]).(stopped := true)
  {
    RunAppend(step, h, msgs[..i], msgs[i..]);
    assert msgs[..i] + msgs[i..] == msgs;
    assert msgs[i..][0] == msgs[i];
  }

  /** A property every continuing step keeps holds of the state a batch ends in. */
  lemma {:induction false} RunPreserves<S, M, E>(step: (S, M) -> Outcome<S, E>,
                                                 inv: S -> bool, h: S, msgs: seq<M>)
    requires inv(h)
    requires forall s, m :: inv(s) && step(s, m).Continue? ==> inv(step(s, m).state)
    ensures inv(Run(step, h, msgs).state)
    decreases |msgs|
  {
    if msgs != [] && step(h, msgs[0]).Continue? {
      RunPreserves(step, inv, step(h, msgs[0]).state, msgs[1..]);
    }
  }
}
