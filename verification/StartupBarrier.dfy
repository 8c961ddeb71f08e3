/** The two-level startup barrier: daemons report to the coordinator when their
    local nodes are ready, and the coordinator releases all daemons once no
    report is outstanding. Channels are first-in first-out; messages may be
    lost; the watchdog may drop daemons at any time. The node set is fixed. */
module StartupBarrier {
  import opened Common
  import opened PendingNodes

  datatype Up = Report(exited: seq<NodeId>) | Finished

  /** `release` numbers the releases for the proof; it is not on the wire. */
  datatype Down = AllReady(release: nat, exited: seq<NodeId>)

  /** A reply a node received, and the release it came from; None when the
      daemon answered without the coordinator. */
  datatype Given = Given(answer: Answer, release: Option<nat>)

  datatype Daemon = Daemon(p: Pending, up: seq<Up>, down: seq<Down>, given: set<Given>, done: bool)

  /** The coordinator's part. `releases` keeps the list sent with each release. */
  datatype Board = Board(
    members: set<DaemonId>,
    pending: set<DaemonId>,
    exited: seq<NodeId>,
    releases: seq<seq<NodeId>>,
    running: bool)

  datatype System = System(
    nodeOf: map<NodeId, DaemonId>,
    dynamicNodes: set<NodeId>,
    board: Board,
    daemons: map<DaemonId, Daemon>)

  datatype Step =
    | Subscribe(d: DaemonId, node: NodeId, sender: Sender, canReport: bool)
    | NodeStop(d: DaemonId, node: NodeId, canReport: bool)
    | StopDataflow(d: DaemonId, canReport: bool)
    | Finish(d: DaemonId)
    | CoordinatorReceives(d: DaemonId, connected: set<DaemonId>)
    | DaemonReceives(d: DaemonId)
    | Watchdog(gone: set<DaemonId>)
    | LoseUp(d: DaemonId, i: nat)
    | LoseDown(d: DaemonId, i: nat)

  predicate Distributed(nodeOf: map<NodeId, DaemonId>) { |nodeOf.Values| > 1 }

  /** Each daemon is told of the whole dataflow: its own static nodes are
      pending, and any node elsewhere makes it wait for the coordinator. */
  function InitialDaemon(nodeOf: map<NodeId, DaemonId>, dynamicNodes: set<NodeId>, d: DaemonId): Daemon {
    var localNodes := set n | n in nodeOf && nodeOf[n] == d && n !in dynamicNodes;
    Daemon(Pending(localNodes, exists n :: n in nodeOf && nodeOf[n] != d, map[], [], false), [], [], {}, false)
  }

  function Start(nodeOf: map<NodeId, DaemonId>, dynamicNodes: set<NodeId>): System {
    var all := nodeOf.Values;
    System(nodeOf, dynamicNodes,
           Board(all, if Distributed(nodeOf) then all else {}, [], [], true),
           map d | d in all :: InitialDaemon(nodeOf, dynamicNodes, d))
  }

  function Tagged(answers: set<Answer>, release: Option<nat>): set<Given> {
    set a | a in answers :: Given(a, release)
  }

  function WithEffect(dm: Daemon, e: Effect): Daemon {
    dm.(p := e.after, given := dm.given + Tagged(e.answers, None),
        up := match e.report case None => dm.up case Some(exited) => dm.up + [Report(exited)])
  }

  /** A dataflow the daemon no longer runs ignores the release. */
  function TakeRelease(dm: Daemon): Daemon
    requires dm.down != []
  {
    var rest := dm.(down := dm.down[1..]);
    if dm.done then rest
    else
      var e := AnswerAll(dm.p, dm.down[0].exited);
      rest.(p := e.after, given := dm.given + Tagged(e.answers, Some(dm.down[0].release)))
  }

  function ReportCounted(b: Board, d: DaemonId, exited: seq<NodeId>): Board {
    b.(pending := b.pending - {d}, exited := b.exited + exited,
       releases := if b.pending - {d} == {} then b.releases + [b.exited + exited] else b.releases)
  }

  function FinishCounted(b: Board, d: DaemonId): Board {
    b.(members := b.members - {d}, running := b.running && b.members - {d} != {})
  }

  /** The newest release reaches the members that are connected. */
  function Broadcast(daemons: map<DaemonId, Daemon>, b: Board, connected: set<DaemonId>): map<DaemonId, Daemon>
    requires b.releases != []
  {
    var message := AllReady(|b.releases| - 1, b.releases[|b.releases| - 1]);
    map e | e in daemons ::
      if e in b.members && e in connected then daemons[e].(down := daemons[e].down + [message]) else daemons[e]
  }

  predicate Enabled(s: System, step: Step) {
    match step
    case Subscribe(d, node, sender, canReport) =>
      d in s.daemons && !s.daemons[d].done && node in s.nodeOf && s.nodeOf[node] == d
    case NodeStop(d, node, canReport) => d in s.daemons && !s.daemons[d].done
    case StopDataflow(d, canReport) => d in s.daemons && !s.daemons[d].done
    case Finish(d) => d in s.daemons && !s.daemons[d].done && s.daemons[d].p.localNodes == {}
    case CoordinatorReceives(d, connected) => d in s.daemons && s.daemons[d].up != []
    case DaemonReceives(d) => d in s.daemons && s.daemons[d].down != []
    case Watchdog(gone) => true
    case LoseUp(d, i) => d in s.daemons && i < |s.daemons[d].up|
    case LoseDown(d, i) => d in s.daemons && i < |s.daemons[d].down|
  }

  function AtCoordinator(s: System, d: DaemonId, connected: set<DaemonId>): System
    requires d in s.daemons && s.daemons[d].up != []
  {
    var rest := s.daemons[d := s.daemons[d].(up := s.daemons[d].up[1..])];
    if !s.board.running then s.(daemons := rest)
    else match s.daemons[d].up[0]
      case Finished => s.(board := FinishCounted(s.board, d), daemons := rest)
      case Report(exited) =>
        var board := ReportCounted(s.board, d, exited);
        s.(board := board,
           daemons := if |board.releases| > |s.board.releases| then Broadcast(rest, board, connected) else rest)
  }

  function Do(s: System, step: Step): System
    requires Enabled(s, step)
  {
    match step
    case Subscribe(d, node, sender, canReport) =>
      s.(daemons := s.daemons[d := WithEffect(s.daemons[d], NodeSubscribed(s.daemons[d].p, node, sender, canReport))])
    case NodeStop(d, node, canReport) =>
      s.(daemons := s.daemons[d := WithEffect(s.daemons[d], NodeStopped(s.daemons[d].p, node, canReport))])
    case StopDataflow(d, canReport) =>
      s.(daemons := s.daemons[d := WithEffect(s.daemons[d], Withdrawn(s.daemons[d].p, s.dynamicNodes, canReport))])
    case Finish(d) => s.(daemons := s.daemons[d := s.daemons[d].(done := true, up := s.daemons[d].up + [Finished])])
    case CoordinatorReceives(d, connected) => AtCoordinator(s, d, connected)
    case DaemonReceives(d) => s.(daemons := s.daemons[d := TakeRelease(s.daemons[d])])
    case Watchdog(gone) => s.(board := s.board.(members := s.board.members - gone, pending := s.board.pending - gone))
    case LoseUp(d, i) => s.(daemons := s.daemons[d := s.daemons[d].(up := Without(s.daemons[d].up, i))])
    case LoseDown(d, i) => s.(daemons := s.daemons[d := s.daemons[d].(down := Without(s.daemons[d].down, i))])
  }

  predicate Runs(s: System, steps: seq<Step>)
    decreases |steps|
  {
    steps == [] || (Enabled(s, steps[0]) && Runs(Do(s, steps[0]), steps[1..]))
  }

  function Exec(s: System, steps: seq<Step>): System
    requires Runs(s, steps)
    decreases |steps|
  {
    if steps == [] then s else Exec(Do(s, steps[0]), steps[1..])
  }

  // ---- Invariant ----

  ghost predicate Covers(xs: seq<NodeId>, ys: seq<NodeId>) {
    forall n :: n in ys ==> n in xs
  }

  /** The nodes may start if the list is empty; else the first node on the
      daemon's own list is blamed, or the first on the list at all. */
  function Blame(own: seq<NodeId>, list: seq<NodeId>): Verdict {
    if list == [] then Started else if own != [] then Failed(own[0]) else Failed(list[0])
  }

  ghost predicate GivenOk(b: Board, p: Pending, g: Given) {
    var verdict := g.answer.verdict;
    match g.release
    case None => !p.external && verdict == Blame(p.exited, p.exited)
    case Some(r) =>
      && r < |b.releases|
      && verdict == Blame(p.exited, b.releases[r])
      && (verdict.Failed? ==> verdict.cause in b.releases[r])
  }

  ghost predicate DownOk(b: Board, p: Pending, m: Down) {
    m.release < |b.releases| && m.exited == b.releases[m.release] && Covers(m.exited, p.exited)
  }

  ghost predicate UpOk(p: Pending, m: Up) {
    m.Report? ==> p.external && m.exited == p.exited
  }

  ghost predicate DaemonOk(b: Board, d: DaemonId, dm: Daemon) {
    && (dm.p.localNodes != {} ==>
          !dm.p.reported && dm.up == [] && dm.down == [] && dm.given == {} && !dm.done)
    && (dm.p.localNodes != {} && dm.p.external && d in b.members ==> d in b.pending)
    && (forall i :: 0 <= i < |dm.up| ==> UpOk(dm.p, dm.up[i]))
    && (forall i :: 0 <= i < |dm.down| ==> DownOk(b, dm.p, dm.down[i]))
    && (forall g :: g in dm.given ==> GivenOk(b, dm.p, g))
    && (dm.p.external && d in b.members && d !in b.pending ==> Covers(b.exited, dm.p.exited))
    && (d in b.members ==> forall r :: 0 <= r < |b.releases| ==> Covers(b.releases[r], dm.p.exited))
  }

  ghost predicate BoardOk(b: Board, external: bool) {
    && (b.releases != [] ==> b.pending == {} && external)
    && (forall r :: 0 <= r < |b.releases| ==> Covers(b.exited, b.releases[r]))
  }

  /** Before its Update, a local event leaves `q`: fewer pending nodes, more
      subscribers, and more early exits only while nodes were pending. */
  lemma AfterUpdate(b: Board, d: DaemonId, dm: Daemon, q: Pending, canReport: bool)
    requires DaemonOk(b, d, dm) && BoardOk(b, dm.p.external)
    requires q.external == dm.p.external && q.reported == dm.p.reported && q.localNodes <= dm.p.localNodes
    requires dm.p.localNodes == {} ==> q.exited == dm.p.exited
    ensures DaemonOk(b, d, WithEffect(dm, Update(q, canReport)))
  {
    var e := Update(q, canReport);
    if dm.p.localNodes == {} {
      forall g | g in Tagged(e.answers, None) ensures GivenOk(b, q, g) {}
    } else {
      assert WithEffect(dm, e).given == Tagged(e.answers, None);
    }
  }

  lemma AfterLocalEvent(s: System, step: Step)
    requires Enabled(s, step) && (step.Subscribe? || step.NodeStop? || step.StopDataflow?)
    requires DaemonOk(s.board, step.d, s.daemons[step.d]) && BoardOk(s.board, s.daemons[step.d].p.external)
    ensures DaemonOk(s.board, step.d, Do(s, step).daemons[step.d])
  {
    var dm := s.daemons[step.d];
    var p := dm.p;
    assert dm.given + Tagged({}, None) == dm.given;
    match step
    case Subscribe(d, node, sender, canReport) =>
      AfterUpdate(s.board, d, dm, p.(waiting := p.waiting[node := sender], localNodes := p.localNodes - {node}), canReport);
    case NodeStop(d, node, canReport) =>
      if node in p.localNodes {
        AfterUpdate(s.board, d, dm, p.(localNodes := p.localNodes - {node}, exited := p.exited + [node]), canReport);
      }
    case StopDataflow(d, canReport) =>
      if !(p.localNodes !! s.dynamicNodes) {
        AfterUpdate(s.board, d, dm, p.(localNodes := p.localNodes - s.dynamicNodes), canReport);
      }
  }

  lemma AfterRelease(b: Board, d: DaemonId, dm: Daemon)
    requires DaemonOk(b, d, dm) && dm.down != []
    ensures DaemonOk(b, d, TakeRelease(dm))
  {
    assert DownOk(b, dm.p, dm.down[0]);
    var elsewhere := dm.down[0].exited;
    assert elsewhere == [] ==> dm.p.exited == [] by {
      if dm.p.exited != [] { assert dm.p.exited[0] in elsewhere; }
    }
  }

  lemma AfterLoss(b: Board, d: DaemonId, dm: Daemon, i: nat)
    requires DaemonOk(b, d, dm)
    ensures i < |dm.up| ==> DaemonOk(b, d, dm.(up := Without(dm.up, i)))
    ensures i < |dm.down| ==> DaemonOk(b, d, dm.(down := Without(dm.down, i)))
  {
  }

  /** The coordinator counts the report of `d`; `e` is any daemon. */
  lemma AfterReportCounted(b: Board, d: DaemonId, exited: seq<NodeId>, e: DaemonId, dm: Daemon)
    requires DaemonOk(b, e, dm) && BoardOk(b, dm.p.external) && dm.p.external
    requires e == d ==> dm.p.localNodes == {} && exited == dm.p.exited
    ensures BoardOk(ReportCounted(b, d, exited), true)
    ensures DaemonOk(ReportCounted(b, d, exited), e, dm)
    ensures var c := ReportCounted(b, d, exited);
      |c.releases| > |b.releases| && e in c.members ==>
        DaemonOk(c, e, dm.(down := dm.down + [AllReady(|b.releases|, c.releases[|b.releases|])]))
  {
    var c := ReportCounted(b, d, exited);
    assert Covers(c.exited, b.exited);
    assert forall g :: g in dm.given ==> GivenOk(c, dm.p, g);
    assert forall i :: 0 <= i < |dm.down| ==> DownOk(c, dm.p, dm.down[i]);
  }

  lemma AfterMembersShrink(b: Board, c: Board, d: DaemonId, dm: Daemon)
    requires DaemonOk(b, d, dm) && BoardOk(b, dm.p.external)
    requires c.members <= b.members && c.exited == b.exited && c.releases == b.releases
    requires c.pending <= b.pending && (d in c.members && d in b.pending ==> d in c.pending)
    ensures DaemonOk(c, d, dm) && BoardOk(c, dm.p.external)
  {
  }
}
