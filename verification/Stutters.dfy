/** Traces without their stutters. */
module Stutters {
  import opened Wrappers

  datatype Trace<S, E> = Trace(states: seq<S>, events: seq<E>)

  /** The steps that have an event. */
  ghost function Drop<S, E>(states: seq<S>, events: seq<Option<E>>): Trace<S, E>
    requires |states| == |events| + 1
  {
    if events == [] then Trace(states, [])
    else
      var n := |events| - 1;
      var t := Drop(states[..n + 1], events[..n]);
      match events[n]
      case None => t
      case Some(e) => Trace(t.states + [states[n + 1]], t.events + [e])
  }

  lemma DropLast<S, E>(states: seq<S>, events: seq<Option<E>>)
    requires |states| == |events| + 1 && events != []
    ensures var n := |events| - 1;
            var t := Drop(states[..n + 1], events[..n]);
            Drop(states, events) == match events[n]
                                    case None => t
                                    case Some(e) => Trace(t.states + [states[n + 1]], t.events + [e])
  {
  }

  ghost predicate IsStuttering<S(!new), E(!new)>(states: seq<S>, events: seq<Option<E>>) {
    && |states| == |events| + 1
    && forall i :: 0 <= i < |events| && events[i].None? ==> states[i + 1] == states[i]
  }

  /** t goes on from u by steps that are as P says. */
  ghost predicate GoesOn<S(!new), E(!new)>(t: Trace<S, E>, u: Trace<S, E>, P: (S, E, S) -> bool) {
    && |t.states| == |t.events| + 1 && |u.states| == |u.events| + 1
    && u.states <= t.states && u.events <= t.events
    && forall x :: |u.events| <= x < |t.events| ==> P(t.states[x], t.events[x], t.states[x + 1])
  }

  lemma GoesOnOneMore<S(!new), E(!new)>(t: Trace<S, E>, u: Trace<S, E>, e: E, s: S, P: (S, E, S) -> bool)
    requires GoesOn(t, u, P) && P(t.states[|t.events|], e, s)
    ensures GoesOn(Trace(t.states + [s], t.events + [e]), u, P)
  {
    var t' := Trace(t.states + [s], t.events + [e]);
    forall x | |u.events| <= x < |t'.events|
      ensures P(t'.states[x], t'.events[x], t'.states[x + 1])
    {
      assert x < |t.events| ==> P(t.states[x], t.events[x], t.states[x + 1]);
    }
  }

  /** What steps from i on have in common is kept, and so is what came before. */
  lemma {:induction false} StepsFrom<S(!new), E(!new)>(states: seq<S>, events: seq<Option<E>>, i: nat,
                                                       P: (S, E, S) -> bool)
    requires IsStuttering(states, events) && i <= |events|
    requires forall m :: i <= m < |events| && events[m].Some? ==> P(states[m], events[m].value, states[m + 1])
    ensures var t := Drop(states, events);
            && GoesOn(t, Drop(states[..i + 1], events[..i]), P)
            && t.states[0] == states[0] && t.states[|t.events|] == states[|events|]
    decreases |events|
  {
    if events == [] {
      assert states[..i + 1] == states && events[..i] == events;
    } else {
      var n := |events| - 1;
      var states', events' := states[..n + 1], events[..n];
      DropLast(states, events);
      hide Drop;
      if i <= n {
        StepsFrom(states', events', i, P);
        assert states'[..i + 1] == states[..i + 1] && events'[..i] == events[..i];
        if events[n].Some? {
          GoesOnOneMore(Drop(states', events'), Drop(states[..i + 1], events[..i]), events[n].value, states[n + 1], P);
        }
      } else {
        StepsFrom(states', events', n, P);
        assert states[..i + 1] == states && events[..i] == events;
      }
    }
  }
}
