/** A node's bounded event channel: data events leave room for control events. */
module NodeChannel {
  const NODE_EVENT_CHANNEL_CAPACITY: nat := 1000
  const CONTROL_EVENT_HEADROOM: nat := 50

  datatype Event = Input(payload: string) | Control(kind: string)

  datatype Outcome = Delivered | Dropped | Closed

  datatype State = State(queue: seq<Event>, closed: bool)

  datatype Step = Send(event: Event) | Receive | Close

  function Free(s: State): int { NODE_EVENT_CHANNEL_CAPACITY - |s.queue| }

  function Answer(s: State, e: Event): Outcome {
    if e.Input? && Free(s) < CONTROL_EVENT_HEADROOM then Dropped
    else if s.closed then Closed
    else if Free(s) <= 0 then Dropped
    else Delivered
  }

  function Do(s: State, step: Step): State {
    match step
    case Send(e) => if Answer(s, e).Delivered? then s.(queue := s.queue + [e]) else s
    case Receive => if s.queue == [] then s else s.(queue := s.queue[1..])
    case Close => s.(closed := true)
  }

  function Exec(steps: seq<Step>): State {
    if steps == [] then State([], false) else Do(Exec(steps[..|steps| - 1]), steps[|steps| - 1])
  }

  class Channel {
    var queue: seq<Event>
    var closed: bool

    function Now(): State reads this { State(queue, closed) }

    constructor ()
      ensures Now() == State([], false)
    {
      queue, closed := [], false;
    }

    method SendWithTimestamp(event: Event) returns (outcome: Outcome)
      requires |queue| <= NODE_EVENT_CHANNEL_CAPACITY
      modifies this
      ensures outcome == Answer(old(Now()), event) && Now() == Do(old(Now()), Send(event))
    {
      var capacity := NODE_EVENT_CHANNEL_CAPACITY - |queue|;
      if event.Input? && capacity < CONTROL_EVENT_HEADROOM {
        return Dropped;
      }
      if closed {
        return Closed;
      }
      if capacity == 0 {
        return Dropped;
      }
      queue := queue + [event];
      outcome := Delivered;
    }
  }

  /** No data event is ever queued past the reserved slots. A data event is let
      in while 50 slots are free and then takes one of them, so 49 remain. */
  ghost predicate Inv(s: State) {
    && |s.queue| <= NODE_EVENT_CHANNEL_CAPACITY
    && forall i :: 0 <= i < |s.queue| && s.queue[i].Input? ==> i <= NODE_EVENT_CHANNEL_CAPACITY - CONTROL_EVENT_HEADROOM
  }

  lemma {:induction false} EveryRun(steps: seq<Step>)
    ensures Inv(Exec(steps))
  {
    if steps != [] {
      EveryRun(steps[..|steps| - 1]);
    }
  }

  /** Over every interleaving of sends and receives: a control event on an open
      channel is refused exactly when the channel is full, and then the 49
      events queued last are all control events. */
  lemma ControlRefusedOnlyBehindControl(steps: seq<Step>, e: Event)
    requires e.Control? && !Exec(steps).closed
    ensures var s := Exec(steps);
      && (Answer(s, e).Dropped? <==> |s.queue| == NODE_EVENT_CHANNEL_CAPACITY)
      && (Answer(s, e).Dropped? ==>
            forall i :: NODE_EVENT_CHANNEL_CAPACITY - (CONTROL_EVENT_HEADROOM - 1) <= i < |s.queue| ==> s.queue[i].Control?)
  {
    EveryRun(steps);
  }

  /** In every run: an event is delivered if and only if the channel was not
      closed and it finds room, 50 free slots for data and one for control. A
      closed channel says so, except to data it would have dropped anyway. */
  lemma OutcomeExact(steps: seq<Step>, e: Event)
    ensures var queued := |Exec(steps).queue|;
      && (Answer(Exec(steps), e).Delivered? <==> Close !in steps && (if e.Input? then queued <= 950 else queued <= 999))
      && (Answer(Exec(steps), e).Closed? <==> Close in steps && (e.Input? ==> queued <= 950))
  {
    ClosedExact(steps);
    EveryRun(steps);
  }

  lemma {:induction false} ClosedExact(steps: seq<Step>)
    ensures Exec(steps).closed <==> Close in steps
  {
    if steps != [] {
      var n := |steps| - 1;
      assert steps == steps[..n] + [steps[n]];
      ClosedExact(steps[..n]);
    }
  }

  /** The events delivered in the run, in order. */
  function Sent(steps: seq<Step>): seq<Event> {
    if steps == [] then []
    else
      var n := |steps| - 1;
      if steps[n].Send? && Answer(Exec(steps[..n]), steps[n].event).Delivered?
      then Sent(steps[..n]) + [steps[n].event] else Sent(steps[..n])
  }

  /** How many of them were received. */
  function Taken(steps: seq<Step>): nat {
    if steps == [] then 0
    else
      var n := |steps| - 1;
      if steps[n].Receive? && Taken(steps[..n]) < |Sent(steps[..n])| then Taken(steps[..n]) + 1 else Taken(steps[..n])
  }

  /** In every run the queue holds what was delivered and not received yet, in
      the order of delivery. */
  lemma {:induction false} FirstInFirstOut(steps: seq<Step>)
    ensures Taken(steps) <= |Sent(steps)| && Exec(steps).queue == Sent(steps)[Taken(steps)..]
  {
    if steps != [] {
      FirstInFirstOut(steps[..|steps| - 1]);
    }
  }

  function Repeat(e: Event, n: nat): (steps: seq<Step>)
    ensures |steps| == n && forall i :: 0 <= i < n ==> steps[i] == Send(e)
  {
    seq(n, _ => Send(e))
  }

  lemma {:induction false} FillBoth(inputs: nat, controls: nat)
    requires inputs <= NODE_EVENT_CHANNEL_CAPACITY - CONTROL_EVENT_HEADROOM + 1
    requires inputs + controls <= NODE_EVENT_CHANNEL_CAPACITY
    ensures var s := Exec(Repeat(Input(""), inputs) + Repeat(Control(""), controls));
      && !s.closed && |s.queue| == inputs + controls
      && (inputs > 0 ==> s.queue[inputs - 1].Input?)
    decreases controls, inputs
  {
    var steps := Repeat(Input(""), inputs) + Repeat(Control(""), controls);
    if controls > 0 {
      FillBoth(inputs, controls - 1);
      assert steps[..|steps| - 1] == Repeat(Input(""), inputs) + Repeat(Control(""), controls - 1);
    } else if inputs > 0 {
      FillBoth(inputs - 1, 0);
      assert steps[..|steps| - 1] == Repeat(Input(""), inputs - 1) + Repeat(Control(""), 0);
    }
  }

  /** 50 would be wrong: after 951 data events the 50th control event is
      refused. */
  lemma HeadroomIsFortyNine()
    ensures var steps := Repeat(Input(""), 951) + Repeat(Control(""), 49);
      && Answer(Exec(steps), Control("")).Dropped? && !Exec(steps).closed
      && |Exec(steps).queue| == NODE_EVENT_CHANNEL_CAPACITY && Exec(steps).queue[950].Input?
  {
    FillBoth(951, 49);
  }
}
