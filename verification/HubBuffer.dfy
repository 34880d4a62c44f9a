/** One subscriber's channel: a dispatcher that never blocks and a consumer, interleaved at channel operations. */
module HubBuffer {
  import opened Wrappers

  const CAPACITY: nat := 256

  /** An event for a tenant. */
  datatype Event = Event(tenant: nat, body: string)

  /** How far the dispatcher is with an event; waiting is the buffer's length at its first try. */
  datatype Phase = Ready | Offering(event: Event) | Draining(event: Event, waiting: nat) | Retrying(event: Event)

  /** How an event left the buffer: taken by the consumer, or dropped when so many were waiting. */
  datatype Exit = Taken(event: Event) | Dropped(event: Event, waiting: nat)

  /** The channel and the dispatcher; beside them what was offered, what left the buffer, what was lost. */
  datatype State = State(buffer: seq<Event>, phase: Phase, offered: seq<Event>, left: seq<Exit>, lost: seq<Event>)

  const INIT: State := State([], Ready, [], [], [])

  datatype Action = Offer(event: Event) | Try | Drain | Retry | Receive

  predicate Enabled(s: State, a: Action) {
    match a
    case Offer(_) => s.phase.Ready?
    case Try => s.phase.Offering?
    case Drain => s.phase.Draining?
    case Retry => s.phase.Retrying?
    case Receive => s.buffer != []
  }

  function Do(s: State, a: Action): State
    requires Enabled(s, a)
  {
    match a
    case Offer(event) => s.(phase := Offering(event), offered := s.offered + [event])
    case Try =>
      if |s.buffer| < CAPACITY then s.(buffer := s.buffer + [s.phase.event], phase := Ready)
      else s.(phase := Draining(s.phase.event, |s.buffer|))
    case Drain =>
      if s.buffer == [] then s.(phase := Retrying(s.phase.event))
      else s.(buffer := s.buffer[1..], left := s.left + [Dropped(s.buffer[0], s.phase.waiting)],
              phase := Retrying(s.phase.event))
    case Retry =>
      if |s.buffer| < CAPACITY then s.(buffer := s.buffer + [s.phase.event], phase := Ready)
      else s.(lost := s.lost + [s.phase.event], phase := Ready)
    case Receive => s.(buffer := s.buffer[1..], left := s.left + [Taken(s.buffer[0])])
  }

  function Run(s: State, actions: seq<Action>): Option<State>
    decreases |actions|
  {
    if actions == [] then Some(s)
    else if Enabled(s, actions[0]) then Run(Do(s, actions[0]), actions[1..])
    else None
  }

  function EventsOf(left: seq<Exit>): (r: seq<Event>)
    ensures |r| == |left| && forall i :: 0 <= i < |left| ==> r[i] == left[i].event
  {
    seq(|left|, i requires 0 <= i < |left| => left[i].event)
  }

  /** The event the dispatcher holds. */
  function InHand(s: State): seq<Event> {
    if s.phase.Ready? then [] else [s.phase.event]
  }

  /** Nothing is duplicated, reordered or lost: what left, what is buffered and what is in hand is what was offered. */
  predicate Inv(s: State) {
    && EventsOf(s.left) + (s.buffer + InHand(s)) == s.offered
    && s.lost == [] && |s.buffer| <= CAPACITY
    && (s.phase.Retrying? ==> |s.buffer| < CAPACITY)
    && (s.phase.Draining? ==> s.phase.waiting == CAPACITY)
    && forall i :: 0 <= i < |s.left| && s.left[i].Dropped? ==> s.left[i].waiting == CAPACITY
  }

  lemma MoveOut(left: seq<Exit>, e: Exit, buffer: seq<Event>, hand: seq<Event>)
    requires buffer != [] && e.event == buffer[0]
    ensures EventsOf(left + [e]) + (buffer[1..] + hand) == EventsOf(left) + (buffer + hand)
  {
    assert EventsOf(left + [e]) == EventsOf(left) + [e.event];
    assert buffer == [buffer[0]] + buffer[1..];
  }

  lemma StepKeeps(s: State, a: Action)
    requires Inv(s) && Enabled(s, a)
    ensures Inv(Do(s, a))
  {
    match a {
      case Offer(event) =>
        assert EventsOf(s.left) + (s.buffer + [event]) == (EventsOf(s.left) + (s.buffer + [])) + [event];
      case Receive =>
        MoveOut(s.left, Taken(s.buffer[0]), s.buffer, InHand(s));
      case Drain =>
        if s.buffer != [] {
          MoveOut(s.left, Dropped(s.buffer[0], s.phase.waiting), s.buffer, InHand(s));
        }
      case _ =>
        assert s.buffer + [s.phase.event] == (s.buffer + [s.phase.event]) + [];
    }
  }

  lemma {:induction false} RunKeeps(s: State, actions: seq<Action>)
    requires Inv(s)
    ensures Run(s, actions).Some? ==> Inv(Run(s, actions).value)
    decreases |actions|
  {
    if actions != [] && Enabled(s, actions[0]) {
      StepKeeps(s, actions[0]);
      RunKeeps(Do(s, actions[0]), actions[1..]);
    }
  }

  /**
   * In every interleaving: whenever no event is in hand the buffer is a contiguous suffix of the events
   * offered; no offered event is lost on the retry; events leave in the order offered; and each dropped one
   * was dropped for an event that found 256 waiting at its first try.
   */
  lemma BufferIsSuffix(actions: seq<Action>)
    requires Run(INIT, actions).Some?
    ensures var s := Run(INIT, actions).value;
            && |s.left| + |s.buffer| + |InHand(s)| == |s.offered|
            && s.buffer == s.offered[|s.left|..|s.left| + |s.buffer|]
            && (s.phase.Ready? ==> s.buffer == s.offered[|s.left|..])
            && s.lost == []
            && (forall i :: 0 <= i < |s.left| ==> s.left[i].event == s.offered[i])
            && forall i :: 0 <= i < |s.left| && s.left[i].Dropped? ==> s.left[i].waiting == CAPACITY
  {
    RunKeeps(INIT, actions);
    var s := Run(INIT, actions).value;
    assert Inv(s);
    var all := EventsOf(s.left) + (s.buffer + InHand(s));
    assert all[|s.left|..|s.left| + |s.buffer|] == s.buffer;
    forall i | 0 <= i < |s.left| ensures s.left[i].event == s.offered[i] {
      assert all[i] == EventsOf(s.left)[i];
    }
  }

  /** The newest event is never the one dropped: while an event is the newest offered, it does not leave as dropped. */
  lemma NewestIsKept(actions: seq<Action>, last: Action)
    requires Run(INIT, actions).Some? && Enabled(Run(INIT, actions).value, last)
    ensures var s := Run(INIT, actions).value;
            var s' := Do(s, last);
            |s'.left| > |s.left| && s'.left[|s.left|].Dropped? ==> |s.left| < |s.offered| - 1
  {
    BufferIsSuffix(actions);
  }

  /** A drop may find the buffer no longer full: the consumer can act between the first try and the drain. */
  lemma DropWithRoom(s: State)
    requires Inv(s) && s.phase.Offering? && |s.buffer| == CAPACITY
    ensures var actions := [Try, Receive, Drain];
            && Run(s, actions).Some? && |Run(s, actions).value.buffer| == CAPACITY - 2
            && Run(s, actions).value.left[|s.left| + 1] == Dropped(s.buffer[1], CAPACITY)
  {
    var s1 := Do(s, Try);
    var s2 := Do(s1, Receive);
    var s3 := Do(s2, Drain);
    assert [Try, Receive, Drain][1..] == [Receive, Drain] && [Receive, Drain][1..] == [Drain] && [Drain][1..] == [];
    assert Run(s3, []) == Some(s3) && Run(s2, [Drain]) == Some(s3) && Run(s1, [Receive, Drain]) == Some(s3);
  }
}
