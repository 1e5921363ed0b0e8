/** The complaint workflow graph: its table of nodes and edges, and what every run through it keeps. */
module WorkflowGraph {
  import opened Options

  datatype Node =
    | CaseIntake
    | ExtractInfo
    | MissingInfoHandler
    | FetchEvidence
    | DetectConflict
    | RouteWorkflow
    | ApplyRules
    | RecommendAction
    | GenerateResponse
    | ApprovalGate
    | CreateDraft
    | AuditAndClose
    | ManualReview
    | RetryOrDeadLetter

  datatype Status =
    | New
    | Extracting
    | MissingInfo
    | FetchingEvidence
    | ConflictDetected
    | Routed
    | RuleDecision
    | Recommending
    | WaitingApproval
    | DraftCreated
    | InManualReview
    | DeadLetter
    | Closed
    | Reopened

  datatype Approval = NotRequired | Pending | Approved | Rejected | TimedOut

  /** What the edges and the retry node read of the agent state. */
  datatype State = State(
    missing: bool, status: Status, transactionFailed: bool, walletLedgerFailed: bool, hasConflict: bool,
    approval: Option<Approval>, retryCount: int, maxRetries: int)

  /** A state with missing information, with the evidence fetched and with both critical tools failed. */
  const FINE := State(true, New, false, false, false, None, 0, 0)
  const FAILED := State(true, New, true, true, false, None, 0, 0)

  // ---- Edge functions ----

  function AfterExtractInfo(s: State): Node {
    if s.missing then MissingInfoHandler else FetchEvidence
  }

  function AfterMissingInfo(s: State): Node {
    if s.status == DeadLetter then AuditAndClose else FetchEvidence
  }

  function AfterFetchEvidence(s: State): Node {
    if s.transactionFailed && s.walletLedgerFailed then RetryOrDeadLetter else DetectConflict
  }

  function AfterDetectConflict(s: State): Node {
    if s.hasConflict then ManualReview else RouteWorkflow
  }

  function AfterRouteWorkflow(s: State): Node {
    if s.status == InManualReview then ManualReview else ApplyRules
  }

  function AfterGenerateResponse(s: State): Node {
    if s.status == WaitingApproval then ApprovalGate else CreateDraft
  }

  function AfterApprovalGate(s: State): Node {
    if s.approval == Some(Approved) || s.approval == Some(NotRequired) then CreateDraft else AuditAndClose
  }

  function AfterRetry(s: State): Node {
    if s.status == DeadLetter then AuditAndClose else FetchEvidence
  }

  /** The node that follows a node in the state it left, or none at the end. */
  function Next(n: Node, s: State): Option<Node> {
    match n
    case CaseIntake => Some(ExtractInfo)
    case ExtractInfo => Some(AfterExtractInfo(s))
    case MissingInfoHandler => Some(AfterMissingInfo(s))
    case FetchEvidence => Some(AfterFetchEvidence(s))
    case RetryOrDeadLetter => Some(AfterRetry(s))
    case DetectConflict => Some(AfterDetectConflict(s))
    case RouteWorkflow => Some(AfterRouteWorkflow(s))
    case ApplyRules => Some(RecommendAction)
    case RecommendAction => Some(GenerateResponse)
    case GenerateResponse => Some(AfterGenerateResponse(s))
    case ApprovalGate => Some(AfterApprovalGate(s))
    case CreateDraft | ManualReview => Some(AuditAndClose)
    case AuditAndClose => None
  }

  // ---- The builder ----

  class StateGraph {
    var nodes: set<Node>
    var start: Option<Node>
    var edges: map<Node, Option<Node>>
    var routers: map<Node, State -> Node>

    constructor ()
      ensures nodes == {} && start == None && edges == map[] && routers == map[]
    {
      nodes, start, edges, routers := {}, None, map[], map[];
    }

    /** Where the graph goes from a node; an edge to nothing is the end. */
    function NextOf(n: Node, s: State): Option<Node>
      requires n in edges || n in routers
      reads this
    {
      if n in routers then Some(routers[n](s)) else edges[n]
    }

    method AddNode(n: Node)
      modifies this`nodes
      ensures nodes == old(nodes) + {n}
    {
      nodes := nodes + {n};
    }

    method SetEntry(n: Node)
      modifies this`start
      ensures start == Some(n)
    {
      start := Some(n);
    }

    method AddEdge(n: Node, target: Option<Node>)
      modifies this`edges
      ensures edges == old(edges)[n := target]
    {
      edges := edges[n := target];
    }

    method AddConditionalEdges(n: Node, router: State -> Node)
      modifies this`routers
      ensures routers == old(routers)[n := router]
    {
      routers := routers[n := router];
    }
  }

  method RegisterNodes(g: StateGraph)
    modifies g`nodes
    ensures forall n: Node :: n in g.nodes
  {
    g.AddNode(CaseIntake);
    g.AddNode(ExtractInfo);
    g.AddNode(MissingInfoHandler);
    g.AddNode(FetchEvidence);
    g.AddNode(DetectConflict);
    g.AddNode(RouteWorkflow);
    g.AddNode(ApplyRules);
    g.AddNode(RecommendAction);
    g.AddNode(GenerateResponse);
    g.AddNode(ApprovalGate);
    g.AddNode(CreateDraft);
    g.AddNode(AuditAndClose);
    g.AddNode(ManualReview);
    g.AddNode(RetryOrDeadLetter);
    forall n: Node
      ensures n in g.nodes
    {
      match n
      case CaseIntake =>
      case ExtractInfo =>
      case MissingInfoHandler =>
      case FetchEvidence =>
      case DetectConflict =>
      case RouteWorkflow =>
      case ApplyRules =>
      case RecommendAction =>
      case GenerateResponse =>
      case ApprovalGate =>
      case CreateDraft =>
      case AuditAndClose =>
      case ManualReview =>
      case RetryOrDeadLetter =>
    }
  }

  const FIXED_EDGES: map<Node, Option<Node>> := map[
    CaseIntake := Some(ExtractInfo), ApplyRules := Some(RecommendAction), RecommendAction := Some(GenerateResponse),
    CreateDraft := Some(AuditAndClose), ManualReview := Some(AuditAndClose), AuditAndClose := None]

  method RegisterEdges(g: StateGraph)
    requires g.edges == map[]
    modifies g`start, g`edges
    ensures g.start == Some(CaseIntake) && g.edges == FIXED_EDGES
  {
    g.SetEntry(CaseIntake);
    g.AddEdge(CaseIntake, Some(ExtractInfo));
    g.AddEdge(ApplyRules, Some(RecommendAction));
    g.AddEdge(RecommendAction, Some(GenerateResponse));
    g.AddEdge(CreateDraft, Some(AuditAndClose));
    g.AddEdge(ManualReview, Some(AuditAndClose));
    g.AddEdge(AuditAndClose, None);
  }

  const CONDITIONAL_EDGES: map<Node, State -> Node> := map[
    ExtractInfo := AfterExtractInfo, MissingInfoHandler := AfterMissingInfo, FetchEvidence := AfterFetchEvidence,
    RetryOrDeadLetter := AfterRetry, DetectConflict := AfterDetectConflict, RouteWorkflow := AfterRouteWorkflow,
    GenerateResponse := AfterGenerateResponse, ApprovalGate := AfterApprovalGate]

  method RegisterConditionalEdges(g: StateGraph)
    requires g.routers == map[]
    modifies g`routers
    ensures g.routers == CONDITIONAL_EDGES
  {
    g.AddConditionalEdges(ExtractInfo, AfterExtractInfo);
    g.AddConditionalEdges(MissingInfoHandler, AfterMissingInfo);
    g.AddConditionalEdges(FetchEvidence, AfterFetchEvidence);
    g.AddConditionalEdges(RetryOrDeadLetter, AfterRetry);
    g.AddConditionalEdges(DetectConflict, AfterDetectConflict);
    g.AddConditionalEdges(RouteWorkflow, AfterRouteWorkflow);
    g.AddConditionalEdges(GenerateResponse, AfterGenerateResponse);
    g.AddConditionalEdges(ApprovalGate, AfterApprovalGate);
  }

  lemma TableIsNext(n: Node, s: State)
    ensures (n in FIXED_EDGES) != (n in CONDITIONAL_EDGES)
    ensures Next(n, s) == if n in CONDITIONAL_EDGES then Some(CONDITIONAL_EDGES[n](s)) else FIXED_EDGES[n]
  {
  }

  /** The built table: every node is registered and has its edge, and each goes where Next says. */
  method BuildGraph() returns (g: StateGraph)
    ensures fresh(g) && g.start == Some(CaseIntake)
    ensures forall n: Node :: n in g.nodes && (n in g.edges || n in g.routers)
    ensures forall n: Node, s: State :: g.NextOf(n, s) == Next(n, s)
  {
    g := new StateGraph();
    RegisterNodes(g);
    RegisterEdges(g);
    RegisterConditionalEdges(g);
    forall n: Node, s: State
      ensures (n in g.edges || n in g.routers) && g.NextOf(n, s) == Next(n, s)
    {
      TableIsNext(n, s);
    }
    assert forall n: Node :: n in g.edges || n in g.routers by {
      forall n: Node
        ensures n in g.edges || n in g.routers
      {
        TableIsNext(n, FINE);
      }
    }
  }

  // ---- Runs with arbitrary nodes ----

  /** A visited node and the state it left, whatever it did. */
  datatype Visit = Visit(node: Node, after: State)

  /** Each visit is where the graph goes from the one before. */
  ghost predicate Linked(run: seq<Visit>) {
    forall i :: 0 < i < |run| ==> Next(run[i - 1].node, run[i - 1].after) == Some(run[i].node)
  }

  ghost predicate IsRun(run: seq<Visit>) {
    run != [] && run[0].node == CaseIntake && Linked(run)
  }

  predicate IsComplete(run: seq<Visit>)
    requires run != []
  {
    Next(run[|run| - 1].node, run[|run| - 1].after) == None
  }

  function Retries(run: seq<Visit>): nat {
    if run == [] then 0
    else Retries(run[..|run| - 1]) + if run[|run| - 1].node == RetryOrDeadLetter then 1 else 0
  }

  /** How late a node can come, not counting two visits for each retry. */
  function Latest(n: Node): nat {
    match n
    case CaseIntake => 1
    case ExtractInfo => 2
    case MissingInfoHandler => 3
    case RetryOrDeadLetter => 3
    case FetchEvidence => 4
    case DetectConflict => 5
    case RouteWorkflow => 6
    case ApplyRules => 7
    case ManualReview => 7
    case RecommendAction => 8
    case GenerateResponse => 9
    case ApprovalGate => 10
    case CreateDraft => 11
    case AuditAndClose => 12
  }

  lemma {:induction false} LengthAtNode(run: seq<Visit>)
    requires IsRun(run)
    ensures |run| <= Latest(run[|run| - 1].node) + 2 * Retries(run)
  {
    if |run| == 1 {
      assert run[..0] == [];
    } else {
      var before := run[..|run| - 1];
      LengthAtNode(before);
      assert before[|before| - 1] == run[|run| - 2];
    }
  }

  /** A run is at most twelve visits long and two more for each retry, and it stops exactly at
      audit_and_close. */
  lemma RunIsBounded(run: seq<Visit>)
    requires IsRun(run)
    ensures |run| <= 12 + 2 * Retries(run)
    ensures IsComplete(run) <==> run[|run| - 1].node == AuditAndClose
  {
    LengthAtNode(run);
  }

  const SLOW_RETRY := [Visit(FetchEvidence, FAILED), Visit(RetryOrDeadLetter, FAILED)]

  const SLOW_DECISION := [
    Visit(FetchEvidence, FINE), Visit(DetectConflict, FINE), Visit(RouteWorkflow, FINE), Visit(ApplyRules, FINE),
    Visit(RecommendAction, FINE)]

  const SLOW_CLOSE := [
    Visit(GenerateResponse, FINE.(status := WaitingApproval)), Visit(ApprovalGate, FINE.(approval := Some(Approved))),
    Visit(CreateDraft, FINE), Visit(AuditAndClose, FINE)]

  /** The slowest run with k retries, from the first fetch on. */
  function SlowTail(k: nat): seq<Visit> {
    if k > 0 then SLOW_RETRY + SlowTail(k - 1)
    else SLOW_DECISION + SLOW_CLOSE
  }

  const SLOW_START := [Visit(CaseIntake, FINE), Visit(ExtractInfo, FINE), Visit(MissingInfoHandler, FINE)]

  lemma StartsLinked()
    ensures Linked(SLOW_START)
  {
  }

  function SlowRun(k: nat): seq<Visit> {
    SLOW_START + SlowTail(k)
  }

  lemma {:induction false} RetriesConcat(a: seq<Visit>, b: seq<Visit>)
    ensures Retries(a + b) == Retries(a) + Retries(b)
  {
    if b == [] {
      assert a + b == a;
    } else {
      RetriesConcat(a, b[..|b| - 1]);
      assert (a + b)[..|a + b| - 1] == a + b[..|b| - 1];
    }
  }

  lemma NoRetries(run: seq<Visit>)
    requires forall i :: 0 <= i < |run| ==> run[i].node != RetryOrDeadLetter
    ensures Retries(run) == 0
  {
    if run != [] {
      NoRetries(run[..|run| - 1]);
    }
  }

  lemma OneRetry(a: Visit, b: Visit)
    requires a.node != RetryOrDeadLetter && b.node == RetryOrDeadLetter
    ensures Retries([a, b]) == 1
  {
    NoRetries([a]);
    assert [a, b][..1] == [a];
  }

  lemma LinkedConcat(a: seq<Visit>, b: seq<Visit>)
    requires Linked(a) && Linked(b) && a != [] && b != []
    requires Next(a[|a| - 1].node, a[|a| - 1].after) == Some(b[0].node)
    ensures Linked(a + b)
  {
    var run := a + b;
    forall i | 0 < i < |run|
      ensures Next(run[i - 1].node, run[i - 1].after) == Some(run[i].node)
    {
      if i > |a| {
        assert run[i - 1] == b[i - 1 - |a|] && run[i] == b[i - |a|];
      }
    }
  }

  /** A run from a fetch to the close with k retries. */
  ghost predicate IsSlowTail(t: seq<Visit>, k: nat) {
    |t| == 9 + 2 * k && Retries(t) == k && t[0].node == FetchEvidence && t[|t| - 1].node == AuditAndClose && Linked(t)
  }

  lemma DecisionLinked()
    ensures Linked(SLOW_DECISION)
  {
  }

  lemma CloseLinked()
    ensures Linked(SLOW_CLOSE)
  {
  }

  lemma SlowEnd()
    ensures IsSlowTail(SlowTail(0), 0)
  {
    DecisionLinked();
    CloseLinked();
    LinkedConcat(SLOW_DECISION, SLOW_CLOSE);
    NoRetries(SlowTail(0));
  }

  ghost predicate IsRound(r: seq<Visit>) {
    && |r| == 2 && Retries(r) == 1 && Linked(r) && r[0].node == FetchEvidence
    && Next(r[1].node, r[1].after) == Some(FetchEvidence)
  }

  lemma SlowRound()
    ensures IsRound(SLOW_RETRY)
  {
    OneRetry(SLOW_RETRY[0], SLOW_RETRY[1]);
  }

  lemma OneMoreRound(r: seq<Visit>, t: seq<Visit>, k: nat)
    requires IsRound(r) && IsSlowTail(t, k)
    ensures IsSlowTail(r + t, k + 1)
  {
    RetriesConcat(r, t);
    LinkedConcat(r, t);
  }

  lemma {:induction false} SlowTailIsRun(k: nat)
    ensures IsSlowTail(SlowTail(k), k)
  {
    if k == 0 {
      SlowEnd();
    } else {
      SlowTailIsRun(k - 1);
      SlowRound();
      OneMoreRound(SLOW_RETRY, SlowTail(k - 1), k - 1);
    }
  }

  lemma StartThenTail(start: seq<Visit>, t: seq<Visit>, k: nat)
    requires |start| == 3 && Linked(start) && Retries(start) == 0 && start[0].node == CaseIntake
    requires Next(start[2].node, start[2].after) == Some(FetchEvidence) && IsSlowTail(t, k)
    ensures IsRun(start + t) && IsComplete(start + t) && Retries(start + t) == k && |start + t| == 12 + 2 * k
  {
    RetriesConcat(start, t);
    LinkedConcat(start, t);
    assert (start + t)[|start + t| - 1] == t[|t| - 1];
  }

  /** The bound is reached for every number of retries. */
  lemma BoundIsReached(k: nat)
    ensures IsRun(SlowRun(k)) && IsComplete(SlowRun(k)) && Retries(SlowRun(k)) == k && |SlowRun(k)| == 12 + 2 * k
  {
    SlowTailIsRun(k);
    NoRetries(SLOW_START);
    StartsLinked();
    StartThenTail(SLOW_START, SlowTail(k), k);
  }

  // ---- How a draft is reached ----

  /** The visit before position i, which had to lead to it. */
  lemma Before(run: seq<Visit>, i: nat)
    requires IsRun(run) && 0 <= i < |run| && run[i].node != CaseIntake
    ensures i > 0 && Next(run[i - 1].node, run[i - 1].after) == Some(run[i].node)
  {
  }

  /** From evidence that did not fail as a whole to the response: no conflict, and routed. */
  ghost predicate IsCleared(run: seq<Visit>, d: nat) {
    && 0 < d && d + 4 < |run|
    && run[d - 1].node == FetchEvidence && !(run[d - 1].after.transactionFailed && run[d - 1].after.walletLedgerFailed)
    && run[d].node == DetectConflict && !run[d].after.hasConflict
    && run[d + 1].node == RouteWorkflow && run[d + 1].after.status != InManualReview
    && run[d + 2].node == ApplyRules && run[d + 3].node == RecommendAction && run[d + 4].node == GenerateResponse
  }

  lemma ResponseIsCleared(run: seq<Visit>, i: nat)
    requires IsRun(run) && i < |run| && run[i].node == GenerateResponse
    ensures i >= 4 && IsCleared(run, i - 4)
  {
    Before(run, i);
    Before(run, i - 1);
    Before(run, i - 2);
    Before(run, i - 3);
    Before(run, i - 4);
  }

  /** A draft is made only right after a response to a cleared case: directly when no approval is
      awaited, and otherwise through the gate with an approval given or not required. */
  lemma DraftIsCleared(run: seq<Visit>, i: nat)
    requires IsRun(run) && i < |run| && run[i].node == CreateDraft
    ensures
      || (i >= 5 && IsCleared(run, i - 5) && run[i - 1].after.status != WaitingApproval)
      || (&& i >= 6 && IsCleared(run, i - 6) && run[i - 2].after.status == WaitingApproval
          && run[i - 1].node == ApprovalGate && run[i - 1].after.approval in {Some(Approved), Some(NotRequired)})
  {
    Before(run, i);
    if run[i - 1].node == ApprovalGate {
      Before(run, i - 1);
      ResponseIsCleared(run, i - 2);
    } else {
      ResponseIsCleared(run, i - 1);
    }
  }

  /** Manual review is entered only on a conflict or from routing, and only closing follows: a rejected
      approval closes the case without it. */
  lemma ManualReviewExactlyWhen(run: seq<Visit>, i: nat)
    requires IsRun(run) && 0 < i < |run|
    ensures run[i].node == ManualReview <==>
              || (run[i - 1].node == DetectConflict && run[i - 1].after.hasConflict)
              || (run[i - 1].node == RouteWorkflow && run[i - 1].after.status == InManualReview)
    ensures run[i - 1].node == ApprovalGate ==>
              run[i].node == if run[i - 1].after.approval in {Some(Approved), Some(NotRequired)}
                             then CreateDraft else AuditAndClose
  {
  }

  // ---- What each visit follows ----

  /** A run visits each node exactly after these: information is asked for exactly when some is missing, and evidence is
      fetched again exactly when both critical lookups failed. */
  lemma VisitedExactlyWhen(run: seq<Visit>, i: nat)
    requires IsRun(run) && 0 < i < |run|
    ensures
      var n, before, s := run[i].node, run[i - 1].node, run[i - 1].after;
      && n != CaseIntake
      && (n == ExtractInfo <==> before == CaseIntake)
      && (n == MissingInfoHandler <==> before == ExtractInfo && s.missing)
      && (n == FetchEvidence <==>
          || (before == ExtractInfo && !s.missing)
          || (before in {MissingInfoHandler, RetryOrDeadLetter} && s.status != DeadLetter))
      && (n == RetryOrDeadLetter <==> before == FetchEvidence && s.transactionFailed && s.walletLedgerFailed)
      && (n == DetectConflict <==> before == FetchEvidence && !(s.transactionFailed && s.walletLedgerFailed))
      && (n == RouteWorkflow <==> before == DetectConflict && !s.hasConflict)
      && (n == ApplyRules <==> before == RouteWorkflow && s.status != InManualReview)
      && (n == RecommendAction <==> before == ApplyRules)
      && (n == GenerateResponse <==> before == RecommendAction)
      && (n == ApprovalGate <==> before == GenerateResponse && s.status == WaitingApproval)
      && (n == CreateDraft <==>
          || (before == GenerateResponse && s.status != WaitingApproval)
          || (before == ApprovalGate && (s.approval == Some(Approved) || s.approval == Some(NotRequired))))
      && (n == AuditAndClose <==>
          || before in {CreateDraft, ManualReview}
          || (before in {MissingInfoHandler, RetryOrDeadLetter} && s.status == DeadLetter)
          || (before == ApprovalGate && s.approval != Some(Approved) && s.approval != Some(NotRequired)))
  {
  }

  /** Information is asked for at most once, right after the extraction, exactly when some is missing then. */
  lemma AsksForInfoExactlyWhen(run: seq<Visit>, i: nat)
    requires IsRun(run) && 2 < |run| && i < |run|
    ensures run[i].node == MissingInfoHandler <==> i == 2 && run[1].after.missing
  {
    VisitedExactlyWhen(run, 1);
    VisitedExactlyWhen(run, 2);
    if i > 0 {
      VisitedExactlyWhen(run, i);
      if run[i].node == MissingInfoHandler && i > 1 {
        VisitedExactlyWhen(run, i - 1);
        if i > 2 {
          VisitedExactlyWhen(run, i - 2);
        }
      }
    }
  }

  // ---- Runs with the real retry node ----

  function RetryNode(s: State): State {
    if s.retryCount < s.maxRetries then s.(retryCount := s.retryCount + 1, status := FetchingEvidence)
    else s.(status := DeadLetter)
  }

  /** The retry node does what it does; the other nodes leave its counters alone. */
  ghost predicate CountsRetries(run: seq<Visit>) {
    forall i :: 0 < i < |run| ==>
      if run[i].node == RetryOrDeadLetter then run[i].after == RetryNode(run[i - 1].after)
      else run[i].after.retryCount == run[i - 1].after.retryCount && run[i].after.maxRetries == run[i - 1].after.maxRetries
  }

  function Allowed(run: seq<Visit>): nat
    requires run != []
  {
    if run[0].after.retryCount < run[0].after.maxRetries then run[0].after.maxRetries - run[0].after.retryCount else 0
  }

  /** A retry that gave up comes one visit later than one that goes on. */
  function LatestVisit(v: Visit): nat {
    if v.node == RetryOrDeadLetter && v.after.status == DeadLetter then 5 else Latest(v.node)
  }

  lemma {:induction false} LengthByCount(run: seq<Visit>)
    requires IsRun(run) && CountsRetries(run)
    ensures
      var last := run[|run| - 1];
      var done := last.after.retryCount - run[0].after.retryCount;
      && last.after.maxRetries == run[0].after.maxRetries
      && 0 <= done <= Allowed(run)
      && |run| <= LatestVisit(last) + 2 * done
  {
    if |run| > 1 {
      var before := run[..|run| - 1];
      assert before[|before| - 1] == run[|run| - 2];
      LengthByCount(before);
    }
  }

  /** With the retry node as it is, every run is at most twelve visits and two for each allowed retry
      long: eighteen with the default of three. */
  lemma RetriesAreBounded(run: seq<Visit>)
    requires IsRun(run) && CountsRetries(run)
    ensures |run| <= 12 + 2 * Allowed(run)
  {
    LengthByCount(run);
  }

  /** The visit gave up retrying. */
  predicate GaveUp(v: Visit) {
    v.node == RetryOrDeadLetter && v.after.status == DeadLetter
  }

  /** Until a run gives up or closes, every retry was counted. */
  lemma {:induction false} CountIsRetries(run: seq<Visit>)
    requires IsRun(run) && CountsRetries(run)
    requires run[|run| - 1].node != AuditAndClose && !GaveUp(run[|run| - 1])
    ensures run[|run| - 1].after.retryCount == run[0].after.retryCount + Retries(run)
    ensures run[|run| - 1].after.maxRetries == run[0].after.maxRetries
  {
    if |run| == 1 {
      assert run[..0] == [];
    } else {
      var before := run[..|run| - 1];
      assert before[|before| - 1] == run[|run| - 2];
      VisitedExactlyWhen(run, |run| - 1);
      CountIsRetries(before);
    }
  }

  /** With the retry node as it is, a failed fetch is retried exactly while fewer retries were made than the run began
      with allowance for; then the case is given up and closed. */
  lemma RetriesExactlyWhen(run: seq<Visit>, i: nat)
    requires IsRun(run) && CountsRetries(run) && 0 < i < |run| && run[i].node == RetryOrDeadLetter
    ensures GaveUp(run[i]) <==> Retries(run[..i]) >= Allowed(run)
    ensures i + 1 < |run| ==> run[i + 1].node == if Retries(run[..i]) < Allowed(run) then FetchEvidence else AuditAndClose
  {
    VisitedExactlyWhen(run, i);
    var before := run[..i];
    assert before[|before| - 1] == run[i - 1];
    CountIsRetries(before);
    if i + 1 < |run| {
      VisitedExactlyWhen(run, i + 1);
    }
  }
}
