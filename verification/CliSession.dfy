/** The CLI's WebSocket session: requests and subscriptions are matched with
    their answers by identifier. */
module CliSession {
  import opened Common

  type Id = nat
  type SubscriptionId = nat

  datatype Kind = Request | SubscribeLogs | SubscribeTopics

  /** What a result means to whoever asked for a topic subscription. */
  datatype Reading = TopicSubscribed(subscription: SubscriptionId) | ErrorReply(text: string) | OtherReply

  /** The coordinator's result: its text, and what the text parses to. */
  datatype Result = Result(raw: string, reading: Reading)

  datatype Answer =
    | Raw(text: string)        // result of a request, passed on untouched
    | WrappedError(text: string) // error of a request, as an error reply
    | Acknowledged
    | TopicAcknowledged(subscription: SubscriptionId)
    | Failure(text: string)

  type Answers = map<Id, seq<Answer>>

  /** `issued` records every command's identifier and kind, `answers` all
      answers each identifier was given. */
  datatype State = State(
    requests: set<Id>,
    logSubscribes: set<Id>,
    topicSubscribes: set<Id>,
    logSubscribers: seq<Id>,
    topicSubscribers: map<SubscriptionId, Id>,
    open: bool,
    issued: map<Id, Kind>,
    answers: Answers)

  /** `parsed`: the command's payload is well formed; `sent`: the socket took
      the frame. A failed send ends the session. */
  datatype Step =
    | Command(id: Id, kind: Kind, parsed: bool, sent: bool)
    | Frame(id: Id, result: Option<Result>, error: Option<string>)
    | Disconnect

  const NEW := State({}, {}, {}, [], map[], true, map[], map[])

  function RequestAnswer(result: Option<Result>, error: Option<string>): Answer {
    match (error, result)
    case (Some(text), _) => WrappedError(text)
    case (None, Some(r)) => Raw(r.raw)
    case (None, None) => Failure("empty WS response")
  }

  function TopicAnswer(result: Option<Result>, error: Option<string>): Answer {
    match (error, result)
    case (Some(text), _) => Failure(text)
    case (None, Some(Result(_, TopicSubscribed(sub)))) => TopicAcknowledged(sub)
    case (None, Some(Result(_, ErrorReply(text)))) => Failure(text)
    case (None, Some(Result(_, OtherReply))) => Failure("unexpected topic subscribe reply")
    case (None, None) => Failure("empty topic subscribe reply")
  }

  function LogAnswer(error: Option<string>): Answer {
    match error
    case Some(text) => Failure(text)
    case None => Acknowledged
  }

  function AnswersTo(answers: Answers, id: Id): seq<Answer> {
    if id in answers then answers[id] else []
  }

  function Give(answers: Answers, id: Id, a: Answer): Answers {
    answers[id := AnswersTo(answers, id) + [a]]
  }

  predicate Waits(s: State, kind: Kind, id: Id) {
    match kind
    case Request => id in s.requests
    case SubscribeLogs => id in s.logSubscribes
    case SubscribeTopics => id in s.topicSubscribes
  }

  /** The identifier is found waiting in the map of `kind`. */
  function HandledAs(s: State, kind: Kind, id: Id, result: Option<Result>, error: Option<string>): State {
    match kind
    case Request => s.(requests := s.requests - {id}, answers := Give(s.answers, id, RequestAnswer(result, error)))
    case SubscribeLogs =>
      var a := LogAnswer(error);
      s.(logSubscribes := s.logSubscribes - {id}, answers := Give(s.answers, id, a),
         logSubscribers := if a.Acknowledged? then s.logSubscribers + [id] else s.logSubscribers)
    case SubscribeTopics =>
      var a := TopicAnswer(result, error);
      s.(topicSubscribes := s.topicSubscribes - {id}, answers := Give(s.answers, id, a),
         topicSubscribers := if a.TopicAcknowledged? then s.topicSubscribers[a.subscription := id] else s.topicSubscribers)
  }

  /** The maps are tried in the given order; nothing happens if none matches. */
  function HandledIn(order: seq<Kind>, s: State, id: Id, result: Option<Result>, error: Option<string>): State {
    if order == [] then s
    else if Waits(s, order[0], id) then HandledAs(s, order[0], id, result, error)
    else HandledIn(order[1..], s, id, result, error)
  }

  /** The order the session uses. */
  function Handled(s: State, id: Id, result: Option<Result>, error: Option<string>): State {
    if Waits(s, SubscribeLogs, id) then HandledAs(s, SubscribeLogs, id, result, error)
    else if Waits(s, SubscribeTopics, id) then HandledAs(s, SubscribeTopics, id, result, error)
    else if Waits(s, Request, id) then HandledAs(s, Request, id, result, error)
    else s
  }

  /** Every identifier in `ids` is given one more answer. */
  function GiveAll(answers: Answers, ids: set<Id>, a: Answer): Answers {
    map id | id in answers.Keys + ids :: if id in ids then AnswersTo(answers, id) + [a] else answers[id]
  }

  const HUNG_UP := Failure("WS connection closed")

  function Closed(s: State): State {
    s.(open := false, requests := {}, logSubscribes := {}, topicSubscribes := {},
       answers := GiveAll(GiveAll(GiveAll(s.answers, s.requests, HUNG_UP), s.logSubscribes, HUNG_UP), s.topicSubscribes, HUNG_UP))
  }

  function Queued(s: State, id: Id, kind: Kind): State {
    match kind
    case Request => s.(requests := s.requests + {id})
    case SubscribeLogs => s.(logSubscribes := s.logSubscribes + {id})
    case SubscribeTopics => s.(topicSubscribes := s.topicSubscribes + {id})
  }

  function Do(s: State, step: Step): State {
    if !s.open then s
    else match step
      case Command(id, kind, parsed, sent) =>
        var t := s.(issued := s.issued[id := kind]);
        if !parsed then t.(answers := Give(t.answers, id, Failure("failed to parse")))
        else if sent then Queued(t, id, kind)
        else Closed(Queued(t, id, kind))
      case Frame(id, result, error) => Handled(s, id, result, error)
      case Disconnect => Closed(s)
  }

  function Exec(steps: seq<Step>): State {
    if steps == [] then NEW else Do(Exec(steps[..|steps| - 1]), steps[|steps| - 1])
  }

  /** Identifiers are random; each is used for one command. */
  ghost predicate FreshIds(steps: seq<Step>) {
    forall i, j :: 0 <= i < j < |steps| && steps[i].Command? && steps[j].Command? ==> steps[i].id != steps[j].id
  }

  // ---- Exactly one answer ----

  /** Pending in the map for its kind, and in that one only. */
  predicate PendingOnlyAs(s: State, id: Id, kind: Kind) {
    && (id in s.requests <==> kind.Request?)
    && (id in s.logSubscribes <==> kind.SubscribeLogs?)
    && (id in s.topicSubscribes <==> kind.SubscribeTopics?)
  }

  predicate NotPending(s: State, id: Id) {
    id !in s.requests && id !in s.logSubscribes && id !in s.topicSubscribes
  }

  /** An answer fits what was asked. */
  predicate Fits(kind: Kind, a: Answer) {
    match kind
    case Request => a.Raw? || a.WrappedError? || a.Failure?
    case SubscribeLogs => a.Acknowledged? || a.Failure?
    case SubscribeTopics => a.TopicAcknowledged? || a.Failure?
  }

  /** A command waits in the map of its kind, unanswered, or has been answered
      once, with an answer of its kind; no identifier without a command waits
      or is answered; and nobody waits once the session is over. */
  predicate Accounted(s: State, id: Id) {
    var answers := AnswersTo(s.answers, id);
    if id in s.issued then
      || (s.open && PendingOnlyAs(s, id, s.issued[id]) && answers == [])
      || (NotPending(s, id) && |answers| == 1 && Fits(s.issued[id], answers[0]))
    else NotPending(s, id) && answers == []
  }

  /** Closing gives one answer for every map the identifier waits in. */
  lemma ClosedAnswers(s: State, id: Id)
    ensures AnswersTo(Closed(s).answers, id) == AnswersTo(s.answers, id)
      + (if id in s.requests then [HUNG_UP] else [])
      + (if id in s.logSubscribes then [HUNG_UP] else [])
      + (if id in s.topicSubscribes then [HUNG_UP] else [])
  {
    var once := GiveAll(s.answers, s.requests, HUNG_UP);
    var twice := GiveAll(once, s.logSubscribes, HUNG_UP);
    assert AnswersTo(once, id) == AnswersTo(s.answers, id) + if id in s.requests then [HUNG_UP] else [];
    assert AnswersTo(twice, id) == AnswersTo(once, id) + if id in s.logSubscribes then [HUNG_UP] else [];
  }

  lemma ClosedKeeps(s: State, id: Id)
    requires Accounted(s, id)
    ensures Accounted(Closed(s), id)
  {
    ClosedAnswers(s, id);
    hide GiveAll;
  }

  lemma HandledAsKeeps(s: State, kind: Kind, other: Id, result: Option<Result>, error: Option<string>, id: Id)
    requires Accounted(s, id) && Waits(s, kind, other)
    ensures Accounted(HandledAs(s, kind, other, result, error), id)
  {
  }

  lemma HandledKeeps(s: State, other: Id, result: Option<Result>, error: Option<string>, id: Id)
    requires Accounted(s, id)
    ensures Accounted(Handled(s, other, result, error), id)
  {
    hide Accounted, HandledAs;
    forall kind | Waits(s, kind, other) ensures Accounted(HandledAs(s, kind, other, result, error), id) {
      HandledAsKeeps(s, kind, other, result, error, id);
    }
  }

  lemma StepKeeps(s: State, step: Step, id: Id)
    requires Accounted(s, id) && (step.Command? && step.id == id ==> id !in s.issued)
    ensures Accounted(Do(s, step), id)
  {
    hide Closed, Handled;
    if s.open {
      match step
      case Command(other, kind, parsed, sent) =>
        var queued := Queued(s.(issued := s.issued[other := kind]), other, kind);
        assert Accounted(queued, id);
        ClosedKeeps(queued, id);
      case Frame(other, result, error) => HandledKeeps(s, other, result, error, id);
      case Disconnect => ClosedKeeps(s, id);
    }
  }

  lemma IssuedOnlyByCommand(s: State, step: Step, id: Id)
    requires id !in s.issued && !(step.Command? && step.id == id)
    ensures id !in Do(s, step).issued
  {
  }

  lemma {:induction false} IssuedByCommand(steps: seq<Step>, id: Id)
    requires forall i :: 0 <= i < |steps| && steps[i].Command? ==> steps[i].id != id
    ensures id !in Exec(steps).issued
  {
    if steps != [] {
      assert forall i :: 0 <= i < |steps| - 1 ==> steps[..|steps| - 1][i] == steps[i];
      IssuedByCommand(steps[..|steps| - 1], id);
      IssuedOnlyByCommand(Exec(steps[..|steps| - 1]), steps[|steps| - 1], id);
      hide Do;
    }
  }

  /** In every run, every request and subscription is answered at most once,
      with an answer of its kind, waits in exactly one of the three maps until
      then, and has its answer when the session is over. */
  lemma {:induction false} ExactlyOneAnswer(steps: seq<Step>, id: Id)
    requires FreshIds(steps)
    ensures Accounted(Exec(steps), id)
  {
    if steps != [] {
      var n := |steps| - 1;
      assert forall i :: 0 <= i < n ==> steps[..n][i] == steps[i];
      ExactlyOneAnswer(steps[..n], id);
      if steps[n].Command? && steps[n].id == id {
        IssuedByCommand(steps[..n], id);
      }
      StepKeeps(Exec(steps[..n]), steps[n], id);
    }
  }

  /** A frame for an identifier that never asked or was answered already
      changes nothing. */
  lemma UnknownIdChangesNothing(steps: seq<Step>, id: Id, result: Option<Result>, error: Option<string>)
    requires FreshIds(steps) && (id !in Exec(steps).issued || AnswersTo(Exec(steps).answers, id) != [])
    ensures Do(Exec(steps), Frame(id, result, error)) == Exec(steps)
  {
    ExactlyOneAnswer(steps, id);
  }

  /** An identifier waits in at most one map, so what is handled is decided by
      any map it waits in. */
  lemma {:induction false} HandledInAny(order: seq<Kind>, s: State, id: Id, kind: Kind, result: Option<Result>, error: Option<string>)
    requires Waits(s, kind, id) && forall other :: Waits(s, other, id) ==> other == kind
    ensures HandledIn(order, s, id, result, error) == if kind in order then HandledAs(s, kind, id, result, error) else s
  {
    if order != [] && order[0] != kind {
      HandledInAny(order[1..], s, id, kind, result, error);
    }
  }

  lemma {:induction false} HandledInNone(order: seq<Kind>, s: State, id: Id, result: Option<Result>, error: Option<string>)
    requires forall kind :: !Waits(s, kind, id)
    ensures HandledIn(order, s, id, result, error) == s
  {
    if order != [] {
      HandledInNone(order[1..], s, id, result, error);
    }
  }

  /** In every run, trying the three maps in any order gives the same result. */
  lemma OrderDoesNotMatter(steps: seq<Step>, order: seq<Kind>, id: Id, result: Option<Result>, error: Option<string>)
    requires FreshIds(steps) && forall kind: Kind :: kind in order
    ensures HandledIn(order, Exec(steps), id, result, error) == Handled(Exec(steps), id, result, error)
  {
    ExactlyOneAnswer(steps, id);
    var s := Exec(steps);
    hide Exec, HandledIn, HandledAs, FreshIds;
    if kind :| Waits(s, kind, id) {
      assert kind in order;
      HandledInAny(order, s, id, kind, result, error);
    } else {
      HandledInNone(order, s, id, result, error);
    }
  }

  // ---- Which answer, told from the steps ----

  predicate Closes(step: Step) {
    step.Disconnect? || (step.Command? && step.parsed && !step.sent)
  }

  /** In every run the session is open if and only if the connection has not been
      lost and no send has failed. */
  lemma {:induction false} OpenExact(steps: seq<Step>)
    ensures Exec(steps).open <==> forall i :: 0 <= i < |steps| ==> !Closes(steps[i])
  {
    if steps != [] {
      var n := |steps| - 1;
      OpenExact(steps[..n]);
      assert forall i :: 0 <= i < n ==> steps[..n][i] == steps[i];
    }
  }

  /** What the caller is owed for a frame with this result and error. */
  predicate Owed(kind: Kind, result: Option<Result>, error: Option<string>, a: Answer) {
    match kind
    case Request =>
      if error.Some? then a == WrappedError(error.value)
      else if result.Some? then a == Raw(result.value.raw) else a.Failure?
    case SubscribeLogs => if error.Some? then a == Failure(error.value) else a == Acknowledged
    case SubscribeTopics =>
      if error.Some? then a == Failure(error.value)
      else if result.None? then a.Failure?
      else match result.value.reading
        case TopicSubscribed(subscription) => a == TopicAcknowledged(subscription)
        case ErrorReply(text) => a == Failure(text)
        case OtherReply => a.Failure?
  }

  lemma WaitsAfterCommand(s: State, id: Id, kind: Kind)
    requires s.open
    ensures Waits(Do(s, Command(id, kind, true, true)), kind, id) && Do(s, Command(id, kind, true, true)).open
  {
  }

  lemma WaitsOn(s: State, step: Step, id: Id, kind: Kind)
    requires s.open && Waits(s, kind, id) && !Closes(step) && !(step.Frame? && step.id == id)
    ensures Waits(Do(s, step), kind, id) && Do(s, step).open
  {
  }

  /** A command that was sent waits until a frame for it comes. */
  lemma {:induction false} WaitsUntil(steps: seq<Step>, i: nat)
    requires i < |steps| && steps[i].Command? && steps[i].parsed
    requires forall k :: 0 <= k < |steps| ==> !Closes(steps[k])
    requires forall k :: i < k < |steps| ==> !(steps[k].Frame? && steps[k].id == steps[i].id)
    ensures Exec(steps).open && Waits(Exec(steps), steps[i].kind, steps[i].id)
  {
    var n := |steps| - 1;
    assert forall k :: 0 <= k < n ==> steps[..n][k] == steps[k];
    OpenExact(steps[..n]);
    if i == n {
      WaitsAfterCommand(Exec(steps[..n]), steps[i].id, steps[i].kind);
    } else {
      WaitsUntil(steps[..n], i);
      WaitsOn(Exec(steps[..n]), steps[n], steps[i].id, steps[i].kind);
    }
  }

  lemma FrameAnswers(s: State, id: Id, kind: Kind, result: Option<Result>, error: Option<string>)
    requires Accounted(s, id) && s.open && Waits(s, kind, id)
    ensures var given := AnswersTo(Do(s, Frame(id, result, error)).answers, id);
      |given| == 1 && Owed(kind, result, error, given[0])
  {
  }

  lemma AnswersStand(s: State, step: Step, id: Id)
    ensures AnswersTo(s.answers, id) <= AnswersTo(Do(s, step).answers, id)
  {
    hide GiveAll;
    ClosedAnswers(s, id);
    if step.Command? {
      ClosedAnswers(Queued(s.(issued := s.issued[step.id := step.kind]), step.id, step.kind), id);
    }
  }

  /** In every run: the first frame for a command that was sent, if it comes
      before the session is over, is its one answer, and the answer is what the
      frame owes a command of its kind. */
  lemma {:induction false} AnswerExact(steps: seq<Step>, i: nat, j: nat)
    requires FreshIds(steps) && i < j < |steps| && steps[i].Command? && steps[i].parsed
    requires steps[j].Frame? && steps[j].id == steps[i].id
    requires forall k :: 0 <= k < j ==> !Closes(steps[k])
    requires forall k :: i < k < j ==> !(steps[k].Frame? && steps[k].id == steps[i].id)
    ensures var given := AnswersTo(Exec(steps).answers, steps[i].id);
      |given| == 1 && Owed(steps[i].kind, steps[j].result, steps[j].error, given[0])
  {
    var n, id := |steps| - 1, steps[i].id;
    var before := steps[..n];
    assert forall k :: 0 <= k < n ==> before[k] == steps[k];
    ExactlyOneAnswer(before, id);
    hide Accounted, Do, Closes, Owed;
    if j == n {
      WaitsUntil(before, i);
      FrameAnswers(Exec(before), id, steps[i].kind, steps[j].result, steps[j].error);
    } else {
      AnswerExact(before, i, j);
      AnswersStand(Exec(before), steps[n], id);
      ExactlyOneAnswer(steps, id);
      OneAnswerAtMost(Exec(steps), id);
    }
  }

  lemma OneAnswerAtMost(s: State, id: Id)
    requires Accounted(s, id)
    ensures |AnswersTo(s.answers, id)| <= 1
  {
  }

  lemma FailureStep(s: State, step: Step, id: Id)
    requires Accounted(s, id) && s.open && (step.Command? && step.id == id ==> id !in s.issued)
    ensures Closes(step) && (!NotPending(s, id) || (step.Command? && step.id == id)) ==>
      AnswersTo(Do(s, step).answers, id) == [Failure("WS connection closed")]
    ensures step.Command? && step.id == id && !step.parsed ==>
      |AnswersTo(Do(s, step).answers, id)| == 1 && AnswersTo(Do(s, step).answers, id)[0].Failure?
  {
    hide GiveAll, Handled;
    ClosedAnswers(s, id);
    if step.Command? {
      ClosedAnswers(Queued(s.(issued := s.issued[step.id := step.kind]), step.id, step.kind), id);
    }
  }

  /** A command that still waits when the session ends is told so; one that could
      not be parsed is told at once. */
  lemma FailureExact(steps: seq<Step>, step: Step, id: Id)
    requires FreshIds(steps + [step]) && Exec(steps).open
    ensures var s, t := Exec(steps), Exec(steps + [step]);
      && (Closes(step) && (!NotPending(s, id) || (step.Command? && step.id == id)) ==>
            AnswersTo(t.answers, id) == [Failure("WS connection closed")])
      && (step.Command? && step.id == id && !step.parsed ==>
            |AnswersTo(t.answers, id)| == 1 && AnswersTo(t.answers, id)[0].Failure?)
  {
    assert (steps + [step])[..|steps|] == steps;
    assert forall i :: 0 <= i < |steps| ==> (steps + [step])[i] == steps[i];
    ExactlyOneAnswer(steps, id);
    if step.Command? && step.id == id {
      assert (steps + [step])[|steps|] == step;
      IssuedByCommand(steps, id);
    }
    hide Do, Accounted, Closes, NotPending;
    FailureStep(Exec(steps), step, id);
  }

  /** Log lines go to whoever was acknowledged, and a topic subscription belongs
      to somebody who was told its identifier. */
  ghost predicate Registered(s: State, id: Id) {
    && (id in s.logSubscribers <==> Acknowledged in AnswersTo(s.answers, id))
    && (forall sub :: sub in s.topicSubscribers && s.topicSubscribers[sub] == id ==>
          TopicAcknowledged(sub) in AnswersTo(s.answers, id))
    && (forall sub :: TopicAcknowledged(sub) in AnswersTo(s.answers, id) ==> sub in s.topicSubscribers)
  }

  lemma RegisteredClosed(s: State, id: Id)
    requires Accounted(s, id) && Registered(s, id)
    ensures Registered(Closed(s), id)
  {
    ClosedAnswers(s, id);
    hide GiveAll;
  }

  lemma RegisteredHandled(s: State, kind: Kind, other: Id, result: Option<Result>, error: Option<string>, id: Id)
    requires Accounted(s, id) && Registered(s, id) && Waits(s, kind, other)
    ensures Registered(HandledAs(s, kind, other, result, error), id)
  {
  }

  lemma RegisteredStep(s: State, step: Step, id: Id)
    requires Accounted(s, id) && Registered(s, id) && (step.Command? && step.id == id ==> id !in s.issued)
    ensures Registered(Do(s, step), id)
  {
    hide Closed, HandledAs;
    if s.open {
      match step
      case Command(other, kind, parsed, sent) =>
        var queued := Queued(s.(issued := s.issued[other := kind]), other, kind);
        assert Accounted(queued, id) && Registered(queued, id);
        RegisteredClosed(queued, id);
      case Frame(other, result, error) =>
        forall kind | Waits(s, kind, other) ensures Registered(HandledAs(s, kind, other, result, error), id) {
          RegisteredHandled(s, kind, other, result, error, id);
        }
      case Disconnect => RegisteredClosed(s, id);
    }
  }

  /** In every run those who get log lines are exactly those whose subscription
      was acknowledged, and a topic subscription is registered for somebody who
      was told its identifier. */
  lemma {:induction false} SubscribersExact(steps: seq<Step>, id: Id)
    requires FreshIds(steps)
    ensures Registered(Exec(steps), id)
  {
    if steps != [] {
      var n := |steps| - 1;
      assert forall k :: 0 <= k < n ==> steps[..n][k] == steps[k];
      SubscribersExact(steps[..n], id);
      ExactlyOneAnswer(steps[..n], id);
      if steps[n].Command? && steps[n].id == id {
        IssuedByCommand(steps[..n], id);
      }
      hide Do, Accounted, Registered;
      RegisteredStep(Exec(steps[..n]), steps[n], id);
    }
  }

  // ---- The session's own loops ----

  class Session {
    var requests: set<Id>
    var logSubscribes: set<Id>
    var topicSubscribes: set<Id>
    var logSubscribers: seq<Id>
    var topicSubscribers: map<SubscriptionId, Id>
    var open: bool
    var issued: map<Id, Kind>
    var answers: Answers

    function Now(): State
      reads this
    {
      State(requests, logSubscribes, topicSubscribes, logSubscribers, topicSubscribers, open, issued, answers)
    }

    constructor ()
      ensures Now() == NEW
    {
      requests, logSubscribes, topicSubscribes, logSubscribers, topicSubscribers := {}, {}, {}, [], map[];
      open, issued, answers := true, map[], map[];
    }

    method HandleResponse(id: Id, result: Option<Result>, error: Option<string>)
      modifies this
      ensures Now() == Handled(old(Now()), id, result, error)
    {
      if id in logSubscribes {
        logSubscribes := logSubscribes - {id};
        if error.None? {
          logSubscribers := logSubscribers + [id];
        }
        answers := Give(answers, id, LogAnswer(error));
        return;
      }
      if id in topicSubscribes {
        topicSubscribes := topicSubscribes - {id};
        if error.None? && result.Some? && result.value.reading.TopicSubscribed? {
          topicSubscribers := topicSubscribers[result.value.reading.subscription := id];
        }
        answers := Give(answers, id, TopicAnswer(result, error));
        return;
      }
      if id in requests {
        requests := requests - {id};
        answers := Give(answers, id, RequestAnswer(result, error));
      }
    }

    method FailAll(ids: set<Id>)
      modifies this`answers
      ensures answers == GiveAll(old(answers), ids, HUNG_UP)
    {
      var rest := ids;
      while rest != {}
        invariant rest <= ids
        invariant answers == GiveAll(old(answers), ids - rest, HUNG_UP)
      {
        var id :| id in rest;
        answers := Give(answers, id, HUNG_UP);
        rest := rest - {id};
      }
    }

    /** Leaving the loop: everyone still waiting is told. */
    method CloseDown()
      modifies this
      ensures Now() == Closed(old(Now()))
    {
      FailAll(requests);
      FailAll(logSubscribes);
      FailAll(topicSubscribes);
      requests, logSubscribes, topicSubscribes, open := {}, {}, {}, false;
    }
  }
}
