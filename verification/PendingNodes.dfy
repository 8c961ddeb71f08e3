/** A daemon's list of nodes still to start: it holds the replies to early
    subscribers back until every local node has subscribed or exited, then
    either answers them or reports to the coordinator. */
module PendingNodes {
  import opened Common

  /** The reply channel of one subscribe request. */
  type Sender = nat

  datatype Verdict = Started | Failed(cause: NodeId)

  datatype Answer = Answer(node: NodeId, sender: Sender, verdict: Verdict)

  datatype Pending = Pending(
    localNodes: set<NodeId>,
    external: bool,
    waiting: map<NodeId, Sender>,
    exited: seq<NodeId>,
    reported: bool)

  /** What a call leaves behind: the new state, the replies sent to
      subscribers, and the list reported to the coordinator, if any. */
  datatype Effect = Effect(after: Pending, answers: set<Answer>, report: Option<seq<NodeId>>)

  /** A local early exit is blamed before one reported from elsewhere. */
  function VerdictFor(own: seq<NodeId>, elsewhere: seq<NodeId>): Verdict {
    if own != [] then Failed(own[0])
    else if elsewhere != [] then Failed(elsewhere[0])
    else Started
  }

  function Answers(waiting: map<NodeId, Sender>, verdict: Verdict): set<Answer> {
    AnswersTo(waiting, waiting.Keys, verdict)
  }

  function AnswersTo(waiting: map<NodeId, Sender>, nodes: set<NodeId>, verdict: Verdict): set<Answer>
    requires nodes <= waiting.Keys
  {
    set n | n in nodes :: Answer(n, waiting[n], verdict)
  }

  function AnswerAll(p: Pending, elsewhere: seq<NodeId>): Effect {
    Effect(p.(waiting := map[]), Answers(p.waiting, VerdictFor(p.exited, elsewhere)), None)
  }

  /** `canReport`: the message to the coordinator goes out. */
  function Update(p: Pending, canReport: bool): Effect {
    if p.localNodes != {} then Effect(p, {}, None)
    else if !p.external then AnswerAll(p, [])
    else if p.reported || !canReport then Effect(p, {}, None)
    else Effect(p.(reported := true), {}, Some(p.exited))
  }

  function NodeSubscribed(p: Pending, node: NodeId, sender: Sender, canReport: bool): Effect {
    Update(p.(waiting := p.waiting[node := sender], localNodes := p.localNodes - {node}), canReport)
  }

  function NodeStopped(p: Pending, node: NodeId, canReport: bool): Effect {
    if node in p.localNodes
    then Update(p.(localNodes := p.localNodes - {node}, exited := p.exited + [node]), canReport)
    else Effect(p, {}, None)
  }

  /** Stopping the dataflow withdraws the listed nodes that have not started. */
  function Withdrawn(p: Pending, dynamicNodes: set<NodeId>, canReport: bool): Effect {
    if p.localNodes !! dynamicNodes then Effect(p, {}, None)
    else Update(p.(localNodes := p.localNodes - dynamicNodes), canReport)
  }

  /** Causes are recorded once per affected node; the first one stays. */
  function Recorded(causes: map<NodeId, NodeId>, affected: set<NodeId>, verdict: Verdict): map<NodeId, NodeId> {
    match verdict
    case Started => causes
    case Failed(cause) => (map n | n in affected :: cause) + causes
  }

  /** `after` extends `before` by the causes named in `answers`, and no more. */
  ghost predicate CausesFollow(before: map<NodeId, NodeId>, after: map<NodeId, NodeId>, answers: set<Answer>) {
    && (forall n :: n in before ==> n in after && after[n] == before[n])
    && (forall a :: a in answers && a.verdict.Failed? ==>
          a.node in after && (a.node !in before ==> after[a.node] == a.verdict.cause))
    && (forall n :: n in after && n !in before ==> exists a :: a in answers && a.node == n && a.verdict.Failed?)
  }

  lemma RecordedFollows(causes: map<NodeId, NodeId>, waiting: map<NodeId, Sender>, verdict: Verdict)
    ensures CausesFollow(causes, Recorded(causes, waiting.Keys, verdict), Answers(waiting, verdict))
  {
    var after := Recorded(causes, waiting.Keys, verdict);
    forall n | n in after && n !in causes
      ensures exists a :: a in Answers(waiting, verdict) && a.node == n && a.verdict.Failed?
    {
      assert Answer(n, waiting[n], verdict) in Answers(waiting, verdict);
    }
  }

  lemma NothingToRecord(causes: map<NodeId, NodeId>)
    ensures CausesFollow(causes, causes, {})
  {
  }

  lemma OneMoreAnswer(waiting: map<NodeId, Sender>, nodes: set<NodeId>, node: NodeId, verdict: Verdict)
    requires nodes <= waiting.Keys && node in waiting
    ensures AnswersTo(waiting, nodes + {node}, verdict) == AnswersTo(waiting, nodes, verdict) + {Answer(node, waiting[node], verdict)}
  {
  }

  lemma OneMoreCause(causes: map<NodeId, NodeId>, affected: set<NodeId>, node: NodeId, cause: NodeId)
    ensures var before := Recorded(causes, affected, Failed(cause));
      Recorded(causes, affected + {node}, Failed(cause)) == if node in before then before else before[node := cause]
  {
  }

  class CascadingErrorCauses {
    var causedBy: map<NodeId, NodeId>

    constructor ()
      ensures causedBy == map[]
    {
      causedBy := map[];
    }

    method ReportCascadingError(cause: NodeId, affected: NodeId)
      modifies this
      ensures causedBy == if affected in old(causedBy) then old(causedBy) else old(causedBy)[affected := cause]
    {
      if affected !in causedBy {
        causedBy := causedBy[affected := cause];
      }
    }
  }

  class PendingNodes {
    var localNodes: set<NodeId>
    var externalNodes: bool
    var waitingSubscribers: map<NodeId, Sender>
    var exitedBeforeSubscribe: seq<NodeId>
    var reportedInit: bool

    function State(): Pending
      reads this
    {
      Pending(localNodes, externalNodes, waitingSubscribers, exitedBeforeSubscribe, reportedInit)
    }

    constructor ()
      ensures State() == Pending({}, false, map[], [], false)
    {
      localNodes, externalNodes, waitingSubscribers := {}, false, map[];
      exitedBeforeSubscribe, reportedInit := [], false;
    }

    /** Answers every waiting subscriber, in whatever order the map is walked. */
    method AnswerSubscribeRequests(elsewhere: seq<NodeId>, causes: CascadingErrorCauses) returns (answers: set<Answer>)
      modifies this, causes
      ensures State() == AnswerAll(old(State()), elsewhere).after
      ensures answers == AnswerAll(old(State()), elsewhere).answers
      ensures CausesFollow(old(causes.causedBy), causes.causedBy, answers)
    {
      var verdict := VerdictFor(exitedBeforeSubscribe, elsewhere);
      var replies := waitingSubscribers;
      waitingSubscribers := map[];
      answers := {};
      var rest := replies.Keys;
      ghost var done: set<NodeId> := {};
      while rest != {}
        invariant rest + done == replies.Keys && rest !! done
        invariant State() == old(State()).(waiting := map[])
        invariant answers == AnswersTo(replies, done, verdict)
        invariant causes.causedBy == Recorded(old(causes.causedBy), done, verdict)
      {
        var node :| node in rest;
        OneMoreAnswer(replies, done, node, verdict);
        if verdict.Failed? {
          OneMoreCause(old(causes.causedBy), done, node, verdict.cause);
          causes.ReportCascadingError(verdict.cause, node);
        }
        answers := answers + {Answer(node, replies[node], verdict)};
        rest := rest - {node};
        done := done + {node};
      }
      assert done == replies.Keys;
      RecordedFollows(old(causes.causedBy), replies, verdict);
    }

    method UpdateDataflowStatus(canReport: bool, causes: CascadingErrorCauses)
      returns (answers: set<Answer>, report: Option<seq<NodeId>>)
      modifies this, causes
      ensures Effect(State(), answers, report) == Update(old(State()), canReport)
      ensures CausesFollow(old(causes.causedBy), causes.causedBy, answers)
    {
      answers, report := {}, None;
      if localNodes == {} {
        if externalNodes {
          if !reportedInit && canReport {
            report := Some(exitedBeforeSubscribe);
            reportedInit := true;
          }
        } else {
          answers := AnswerSubscribeRequests([], causes);
        }
      }
    }

    method HandleNodeSubscription(node: NodeId, sender: Sender, canReport: bool, causes: CascadingErrorCauses)
      returns (answers: set<Answer>, report: Option<seq<NodeId>>)
      modifies this, causes
      ensures Effect(State(), answers, report) == NodeSubscribed(old(State()), node, sender, canReport)
      ensures CausesFollow(old(causes.causedBy), causes.causedBy, answers)
    {
      waitingSubscribers := waitingSubscribers[node := sender];
      localNodes := localNodes - {node};
      answers, report := UpdateDataflowStatus(canReport, causes);
    }

    method HandleNodeStop(node: NodeId, canReport: bool, causes: CascadingErrorCauses)
      returns (answers: set<Answer>, report: Option<seq<NodeId>>)
      modifies this, causes
      ensures Effect(State(), answers, report) == NodeStopped(old(State()), node, canReport)
      ensures CausesFollow(old(causes.causedBy), causes.causedBy, answers)
    {
      answers, report := {}, None;
      if node in localNodes {
        localNodes := localNodes - {node};
        exitedBeforeSubscribe := exitedBeforeSubscribe + [node];
        answers, report := UpdateDataflowStatus(canReport, causes);
      }
    }

    /** The loop runs an update after each removal; all but the one that
        empties the local nodes do nothing, so it acts as one withdrawal. */
    method HandleDataflowStop(dynamicNodes: seq<NodeId>, canReport: bool, causes: CascadingErrorCauses)
      returns (answers: set<Answer>, report: Option<seq<NodeId>>)
      modifies this, causes
      ensures Effect(State(), answers, report) == Withdrawn(old(State()), Members(dynamicNodes), canReport)
      ensures localNodes == old(localNodes) - Members(dynamicNodes) && exitedBeforeSubscribe == old(exitedBeforeSubscribe)
      ensures CausesFollow(old(causes.causedBy), causes.causedBy, answers)
    {
      hide CausesFollow;
      NothingToRecord(causes.causedBy);
      answers, report := {}, None;
      for i := 0 to |dynamicNodes|
        invariant Effect(State(), answers, report) == Withdrawn(old(State()), Members(dynamicNodes[..i]), canReport)
        invariant localNodes != {} ==> causes.causedBy == old(causes.causedBy)
        invariant CausesFollow(old(causes.causedBy), causes.causedBy, answers)
      {
        MembersGrow(dynamicNodes, i);
        if dynamicNodes[i] in localNodes {
          localNodes := localNodes - {dynamicNodes[i]};
          answers, report := UpdateDataflowStatus(canReport, causes);
        }
      }
      assert dynamicNodes[..|dynamicNodes|] == dynamicNodes;
    }

    method HandleExternalAllNodesReady(elsewhere: seq<NodeId>, causes: CascadingErrorCauses) returns (answers: set<Answer>)
      modifies this, causes
      ensures State() == AnswerAll(old(State()), elsewhere).after
      ensures answers == AnswerAll(old(State()), elsewhere).answers
      ensures CausesFollow(old(causes.causedBy), causes.causedBy, answers)
    {
      answers := AnswerSubscribeRequests(elsewhere, causes);
    }
  }
}
