/** The mock hub's chunk protocol on values: what each request does to the hub and what it answers.
    What the lever store would answer is an argument of the request it steers. */
module HubModel {
  import opened Options
  import opened Sequences
  import opened Numbers
  import opened Matching
  import opened Lexical
  import opened Sorting

  // ----- chunks

  datatype Status = NotReady | Ready | Paused | Running | Delivering | NeedsHuman | Done | Stopped

  predicate EndedStatus(s: Status)
  {
    s == Done || s == Stopped
  }

  predicate Pausable(s: Status)
  {
    !EndedStatus(s) && s != Delivering
  }

  function StatusIfPaused(s: Status): Status
  {
    if !Pausable(s) || s == NeedsHuman then s else Paused
  }

  datatype Outcome = Next | HubNodeTaken | ParkedAtGate | ReachedEnd | Failure

  datatype Envelope = Envelope(chunk: string, node: string, epoch: int)

  datatype Response = Response(outcome: Outcome, next: Option<Envelope>)

  datatype ReleaseRecord = ReleaseRecord(runner: string, epoch: int, reason: string)

  datatype Chunk = Chunk(
    graph: Graph,
    project: string,
    current: Option<string>,
    status: Status,
    beforePause: Option<Status>,
    latestEpoch: int,
    claimed: bool,
    holder: Option<string>,
    workspace: Option<string>,
    environments: seq<string>,
    rekeys: nat,
    routeToken: Option<string>,
    applied: map<string, Outcome>,
    lastResponse: Option<Response>,
    escalated: Option<int>,
    releases: seq<ReleaseRecord>)
  {
    predicate Ended()
    {
      EndedStatus(status)
    }

    /** The node a claim or an envelope read stands at: the current node unless unset or empty, else the entry. */
    function WorkNode(): string
    {
      if current.Some? && current.value != "" then current.value else graph.entry
    }

    predicate HeldBy(runner: string)
    {
      claimed && holder == Some(runner)
    }
  }

  datatype ChunkSpec = ChunkSpec(graph: Graph, project: string, status: Status)

  function Seeded(spec: ChunkSpec): Chunk
  {
    Chunk(spec.graph, spec.project, None, spec.status, None, 0, false, None, None, [], 0, None, map[], None, None, [])
  }

  // ----- the rest of the hub

  datatype ServedEntry = ServedEntry(entry: string, project: Option<string>)

  datatype Binding = Binding(project: string, workspace: string)

  datatype RunnerRow = RunnerRow(
    tenant: string,
    registered: bool,
    paused: bool,
    retired: bool,
    capabilities: seq<Capability>,
    projects: seq<ServedEntry>,
    bindings: Option<seq<Binding>>,
    subscription: Option<string>,
    host: Option<string>)

  datatype HostRow = HostRow(registered: bool, workspaces: seq<string>, subscriptions: seq<string>)

  datatype Question = Question(chunk: string, epoch: int, runner: string, answered: bool, delivered: bool)

  datatype Reported = Reported(locallyPaused: bool, pausedBy: Option<string>,
                               usage: map<string, string>, misses: map<string, string>)

  const UNREPORTED := Reported(false, None, map[], map[])

  /** `order` lists the chunk ids as they were first seeded; `epochOwners` is keyed by tenant, chunk and epoch. */
  datatype HubState = HubState(
    order: seq<string>,
    chunks: map<string, Chunk>,
    projects: set<string>,
    runners: map<string, RunnerRow>,
    hosts: map<string, HostRow>,
    questions: map<string, Question>,
    reported: map<string, Reported>,
    epochOwners: map<(string, string, int), string>,
    factMarks: map<string, int>)

  const EMPTY_HUB := HubState([], map[], {}, map[], map[], map[], map[], map[], map[])

  ghost function WithChunk(s: HubState, id: string, c: Chunk): HubState
  {
    s.(chunks := s.chunks[id := c])
  }

  lemma WithChunkAt(s: HubState, x: string, c: Chunk, id: string)
    requires id in s.chunks
    ensures id in WithChunk(s, x, c).chunks
    ensures WithChunk(s, x, c).chunks[id] == if x == id then c else s.chunks[id]
  {
  }

  // ----- seeding

  predicate SeedAdmitted(s: HubState, spec: ChunkSpec)
  {
    spec.graph.entry in spec.graph.nodes && spec.project in s.projects && spec.status != Running
  }

  ghost function SeedStep(s: HubState, id: string, spec: ChunkSpec): HubState
  {
    if !SeedAdmitted(s, spec) then s
    else
      WithChunk(s, id, Seeded(spec)).(order := if id in s.chunks then s.order else s.order + [id])
  }

  // ----- claim

  datatype ClaimLevers = ClaimLevers(graphMissing: bool, runnerRefused: bool, dependencyUnmet: bool)

  const NO_LEVERS := ClaimLevers(false, false, false)

  datatype ClaimReply =
    | ClaimGranted(envelope: Envelope, token: string)
    | ClaimChunkUnknown
    | ClaimGraphMissing
    | ClaimRunnerRetired
    | ClaimLeverRefused
    | ClaimUnregistered
    | ClaimRunnerPaused
    | ClaimTerminal
    | ClaimConflict(heldBy: string)
    | ClaimNotReady
    | ClaimDependencyUnmet
    | ClaimProjectDenied
    | ClaimCapabilityDenied
    | ClaimNodeMissing

  function ServedProjects(row: RunnerRow): set<string>
  {
    set i | 0 <= i < |row.projects| && row.projects[i].project.Some? :: row.projects[i].project.value
  }

  /** Why the chunk cannot be claimed by anyone: ended, held, then any status but ready. */
  function ChunkRefusal(c: Chunk): Option<ClaimReply>
  {
    if c.Ended() then Some(ClaimTerminal)
    else if c.claimed then
      Some(ClaimConflict(if c.holder.Some? && c.holder.value != "" then c.holder.value else "unknown"))
    else if c.status != Ready then Some(ClaimNotReady)
    else None
  }

  /** The refusal a claim meets, checks in the hub's order; `None` when it is granted. */
  ghost function ClaimRefusal(s: HubState, id: string, runner: string, levers: ClaimLevers): Option<ClaimReply>
  {
    if id !in s.chunks then Some(ClaimChunkUnknown)
    else if levers.graphMissing then Some(ClaimGraphMissing)
    else if runner in s.runners && s.runners[runner].retired then Some(ClaimRunnerRetired)
    else if levers.runnerRefused then Some(ClaimLeverRefused)
    else if runner !in s.runners || !s.runners[runner].registered then Some(ClaimUnregistered)
    else if s.runners[runner].paused then Some(ClaimRunnerPaused)
    else if ChunkRefusal(s.chunks[id]).Some? then ChunkRefusal(s.chunks[id])
    else if levers.dependencyUnmet then Some(ClaimDependencyUnmet)
    else if s.chunks[id].project !in ServedProjects(s.runners[runner]) then Some(ClaimProjectDenied)
    else if !Eligible(s.chunks[id].graph, s.chunks[id].WorkNode(), s.runners[runner].capabilities) then
      Some(ClaimCapabilityDenied)
    else None
  }

  function RouteToken(id: string, epoch: int): string
  {
    "mock-route-token-" + id + "-" + Decimal(epoch)
  }

  function Granted(c: Chunk, id: string, runner: string, workspace: string, environments: seq<string>): Chunk
  {
    c.(claimed := true,
       holder := Some(runner),
       workspace := Some(workspace),
       environments := environments,
       current := Some(c.WorkNode()),
       status := Running,
       routeToken := Some(RouteToken(id, c.latestEpoch)))
  }

  /** The grant is recorded before its envelope is built, so a missing node would leave the claim standing. */
  ghost function ClaimStep(s: HubState, id: string, runner: string, workspace: string, environments: seq<string>,
                           levers: ClaimLevers): (HubState, ClaimReply)
  {
    match ClaimRefusal(s, id, runner, levers)
    case Some(refusal) => (s, refusal)
    case None =>
      var c := Granted(s.chunks[id], id, runner, workspace, environments);
      (WithChunk(s, id, c),
       if c.current.value in c.graph.nodes then
         ClaimGranted(Envelope(id, c.current.value, c.latestEpoch), c.routeToken.value)
       else
         ClaimNodeMissing)
  }

  // ----- re-key and release

  datatype RekeyReply = Rekeyed(token: string) | RekeyNoRoute | RekeyNotHolder | RekeyTerminal

  function WithNewToken(c: Chunk, id: string): Chunk
  {
    c.(rekeys := c.rekeys + 1,
       routeToken := Some(RouteToken(id, c.latestEpoch) + "-rekey" + Decimal(c.rekeys + 1)))
  }

  ghost function RekeyStep(s: HubState, id: string, runner: string): (HubState, RekeyReply)
  {
    if id !in s.chunks || !s.chunks[id].claimed then (s, RekeyNoRoute)
    else if s.chunks[id].holder != Some(runner) then (s, RekeyNotHolder)
    else if s.chunks[id].Ended() then (s, RekeyTerminal)
    else (WithChunk(s, id, WithNewToken(s.chunks[id], id)), Rekeyed(WithNewToken(s.chunks[id], id).routeToken.value))
  }

  datatype ReleaseReply = ReleaseAccepted(id: nat) | ReleaseChunkUnknown | ReleaseNotHolder
                        | ReleaseNotRunning | ReleaseStale

  /** The route-token lever's extra check, then: holder, running, latest epoch. */
  function ReleaseRefusal(c: Chunk, runner: string, epoch: int, token: Option<string>, enforceToken: bool)
    : Option<ReleaseReply>
  {
    if enforceToken && (!c.claimed || c.routeToken.None? || token != c.routeToken || c.holder != Some(runner)) then
      Some(ReleaseNotHolder)
    else if c.Ended() then Some(ReleaseNotHolder)
    else if !c.HeldBy(runner) then Some(ReleaseNotHolder)
    else if c.status != Running then Some(ReleaseNotRunning)
    else if epoch != c.latestEpoch then Some(ReleaseStale)
    else None
  }

  function GivenBack(c: Chunk, runner: string, epoch: int, reason: string): Chunk
  {
    c.(claimed := false,
       holder := None,
       workspace := None,
       environments := [],
       status := Ready,
       releases := c.releases + [ReleaseRecord(runner, epoch, reason)],
       routeToken := None)
  }

  ghost function ReleaseStep(s: HubState, id: string, runner: string, epoch: int, reason: string,
                             token: Option<string>, enforceToken: bool): (HubState, ReleaseReply)
  {
    if id !in s.chunks then (s, ReleaseChunkUnknown)
    else
      match ReleaseRefusal(s.chunks[id], runner, epoch, token, enforceToken)
      case Some(refusal) => (s, refusal)
      case None =>
        (WithChunk(s, id, GivenBack(s.chunks[id], runner, epoch, reason)), ReleaseAccepted(|s.chunks[id].releases| + 1))
  }

  // ----- pause, resume, stop

  function PausedChunk(c: Chunk): Chunk
  {
    if !Pausable(c.status) || c.status == Paused then c
    else c.(beforePause := Some(c.status), status := StatusIfPaused(c.status))
  }

  function ResumedChunk(c: Chunk): Chunk
  {
    c.(status := if c.status == Paused then (if c.beforePause.Some? then c.beforePause.value else Ready) else c.status,
       beforePause := None)
  }

  function StoppedChunk(c: Chunk): Chunk
  {
    c.(status := Stopped, claimed := false)
  }

  ghost function PauseStep(s: HubState, id: string): HubState
  {
    if id !in s.chunks then s else WithChunk(s, id, PausedChunk(s.chunks[id]))
  }

  ghost function ResumeStep(s: HubState, id: string): HubState
  {
    if id !in s.chunks then s else WithChunk(s, id, ResumedChunk(s.chunks[id]))
  }

  ghost function StopStep(s: HubState, id: string): HubState
  {
    if id !in s.chunks then s else WithChunk(s, id, StoppedChunk(s.chunks[id]))
  }

  // ----- fact intake

  /** A usage fact whose slug is absent, empty or no text carries `""`. */
  datatype FactBody =
    | LeaseMinted(chunk: string, epoch: int)
    | EscalationRecorded(chunk: string, epoch: int)
    | QuestionAsked(question: string, chunk: string, epoch: int)
    | AnswerDelivered(question: string, chunk: string)
    | LocallyPaused(operator: string)
    | LocallyResumed
    | UsageSampled(slug: string, sample: string)
    | UsageMissed(slug: string, miss: string)
    | UsageRecorded
    | EventRecorded
    | UnknownKind

  datatype Fact = Fact(seqNo: int, body: FactBody)

  predicate FenceRefuses(c: Chunk, epoch: int)
  {
    c.Ended() || (c.latestEpoch != 0 && epoch < c.latestEpoch)
  }

  function ReportedBy(s: HubState, runner: string): Reported
  {
    if runner in s.reported then s.reported[runner] else UNREPORTED
  }

  function WithReport(s: HubState, runner: string, r: Reported): HubState
  {
    s.(reported := s.reported[runner := r])
  }

  /** Whether a fact is applied; a known kind naming an unknown chunk still is. */
  predicate FactAdmitted(s: HubState, body: FactBody)
  {
    match body
    case EscalationRecorded(id, epoch) => id in s.chunks ==> !FenceRefuses(s.chunks[id], epoch)
    case QuestionAsked(q, id, epoch) =>
      q != "" && id != "" && !(id in s.chunks && q !in s.questions && FenceRefuses(s.chunks[id], epoch))
    case AnswerDelivered(q, id) => q in s.questions && s.questions[q].chunk == id && s.questions[q].answered
    case UsageSampled(slug, _) => slug != ""
    case UsageMissed(slug, _) => slug != ""
    case UnknownKind => false
    case _ => true
  }

  /** What an applied fact does. The first runner to mint an epoch owns it. */
  ghost function FactEffect(s: HubState, runner: string, body: FactBody): HubState
  {
    match body
    case LeaseMinted(id, epoch) =>
      if id !in s.chunks then s
      else
        var key := (if runner in s.runners then s.runners[runner].tenant else "", id, epoch);
        WithChunk(s, id, s.chunks[id].(latestEpoch := Max(s.chunks[id].latestEpoch, epoch)))
        .(epochOwners := if key in s.epochOwners then s.epochOwners else s.epochOwners[key := runner])
    case EscalationRecorded(id, epoch) =>
      if id !in s.chunks then s else WithChunk(s, id, s.chunks[id].(escalated := Some(epoch)))
    case QuestionAsked(q, id, epoch) =>
      s.(questions := s.questions[q := Question(id, epoch, runner, false, false)])
    case AnswerDelivered(q, _) =>
      if q !in s.questions then s else s.(questions := s.questions[q := s.questions[q].(delivered := true)])
    case LocallyPaused(operator) =>
      WithReport(s, runner, ReportedBy(s, runner).(locallyPaused := true, pausedBy := Some(operator)))
    case LocallyResumed =>
      WithReport(s, runner, ReportedBy(s, runner).(locallyPaused := false, pausedBy := None))
    case UsageSampled(slug, sample) =>
      var r := ReportedBy(s, runner);
      WithReport(s, runner, r.(usage := r.usage[slug := sample]))
    case UsageMissed(slug, miss) =>
      var r := ReportedBy(s, runner);
      WithReport(s, runner, r.(misses := r.misses[slug := miss]))
    case _ => s
  }

  /** A batch under way: the hub, the runner's mark and the acknowledgement lists so far. */
  datatype Intake = Intake(hub: HubState, mark: int, applied: seq<int>, already: seq<int>, rejected: seq<int>)

  ghost function TakeFact(i: Intake, runner: string, f: Fact): Intake
  {
    if f.seqNo <= i.mark then i.(already := i.already + [f.seqNo])
    else if FactAdmitted(i.hub, f.body) then
      i.(hub := FactEffect(i.hub, runner, f.body), mark := Max(i.mark, f.seqNo), applied := i.applied + [f.seqNo])
    else i.(rejected := i.rejected + [f.seqNo])
  }

  ghost function TakeFacts(i: Intake, runner: string, facts: seq<Fact>): Intake
  {
    if facts == [] then i
    else TakeFact(TakeFacts(i, runner, facts[..|facts| - 1]), runner, facts[|facts| - 1])
  }

  const BY_SEQ: (Fact, Fact) -> bool := (f: Fact, g: Fact) => f.seqNo <= g.seqNo

  function MarkOf(s: HubState, runner: string): int
  {
    if runner in s.factMarks then s.factMarks[runner] else 0
  }

  /** The intake at the end of a push, before the mark is stored. */
  ghost function Pushed(s: HubState, runner: string, facts: seq<Fact>): Intake
  {
    TakeFacts(Intake(s, MarkOf(s, runner), [], [], []), runner, Sort(facts, BY_SEQ))
  }

  /** A push by a principal the registry does not hold is refused before its batch is read. */
  ghost function PushStep(s: HubState, runner: string, facts: seq<Fact>): HubState
  {
    if runner !in s.runners then s
    else
      var i := Pushed(s, runner, facts);
      i.hub.(factMarks := i.hub.factMarks[runner := i.mark])
  }

  // ----- completion, decision, hub advance, answers

  datatype ApplyReply = Answered(response: Response) | ApplyNotFound | ApplyGraphMissing

  const FAILED := Answered(Response(Failure, None))

  function CompletionKey(fromNode: string, epoch: int): string
  {
    fromNode + "#" + Decimal(epoch)
  }

  /** Why an attempt cannot report: off the current node, escalated, or one of its questions is open. */
  ghost predicate Incoherent(s: HubState, id: string, fromNode: string, epoch: int)
    requires id in s.chunks
  {
    || (s.chunks[id].current.Some? && fromNode != s.chunks[id].current.value)
    || s.chunks[id].escalated == Some(epoch)
    || exists q :: q in s.questions && s.questions[q].chunk == id && s.questions[q].epoch == epoch
                   && !s.questions[q].answered
  }

  function ResolveChoice(choices: seq<Choice>, name: string): (r: Option<string>)
    ensures r.Some? ==> exists i :: 0 <= i < |choices| && choices[i] == Choice(name, r.value)
  {
    if choices == [] then None
    else if choices[0].name == name then Some(choices[0].to)
    else ResolveChoice(choices[1..], name)
  }

  /** Moving to a choice's target; a target that is neither known nor terminal fails and moves nothing. */
  function Advance(c: Chunk, id: string, target: string): (Chunk, Response)
  {
    if target == TERMINAL then
      (c.(status := Done, current := Some(TERMINAL)), Response(ReachedEnd, None))
    else if target !in c.graph.nodes then (c, Response(Failure, None))
    else if c.graph.nodes[target].executor == HubExecuted then
      (c.(status := Done, current := Some(target)), Response(HubNodeTaken, None))
    else
      (c.(status := Running, current := Some(target)), Response(Next, Some(Envelope(id, target, c.latestEpoch))))
  }

  function Completed(c: Chunk, id: string, fromNode: string, epoch: int, target: string): Chunk
  {
    var (moved, response) := Advance(c, id, target);
    moved.(applied := c.applied[CompletionKey(fromNode, epoch) := response.outcome], lastResponse := Some(response))
  }

  /** A recorded outcome answered again; a NEXT one rebuilds its envelope at the node the chunk now stands at. */
  function Rebuild(c: Chunk, id: string, outcome: Outcome): ApplyReply
  {
    if outcome == Next && c.current.Some? then
      if c.current.value in c.graph.nodes then
        Answered(Response(outcome, Some(Envelope(id, c.current.value, c.latestEpoch))))
      else ApplyNotFound
    else Answered(Response(outcome, None))
  }

  datatype ApplyLevers = ApplyLevers(graphMissing: bool, replay: bool)

  /** The target of a completion the hub takes, `None` for one it fails. */
  ghost function CompletionTarget(s: HubState, id: string, epoch: int, fromNode: string, choice: string): Option<string>
    requires id in s.chunks
  {
    var c := s.chunks[id];
    if epoch < c.latestEpoch || Incoherent(s, id, fromNode, epoch) || fromNode !in c.graph.nodes then None
    else if c.graph.nodes[fromNode].executor == HubExecuted then None
    else ResolveChoice(c.graph.nodes[fromNode].choices, choice)
  }

  ghost function CompleteStep(s: HubState, id: string, epoch: int, fromNode: string, choice: string,
                              levers: ApplyLevers): (HubState, ApplyReply)
  {
    if id !in s.chunks then (s, ApplyNotFound)
    else if levers.graphMissing then (s, ApplyGraphMissing)
    else
      var c := s.chunks[id];
      var key := CompletionKey(fromNode, epoch);
      if levers.replay && c.lastResponse.Some? then (s, Answered(c.lastResponse.value))
      else if key in c.applied then (s, Rebuild(c, id, c.applied[key]))
      else
        match CompletionTarget(s, id, epoch, fromNode, choice)
        case None => (s, FAILED)
        case Some(target) =>
          (WithChunk(s, id, Completed(c, id, fromNode, epoch, target)), Answered(Advance(c, id, target).1))
  }

  ghost function DecideStep(s: HubState, id: string, epoch: int, fromNode: string, graphMissing: bool)
    : (HubState, ApplyReply)
  {
    if id !in s.chunks then (s, ApplyNotFound)
    else if graphMissing then (s, ApplyGraphMissing)
    else if epoch < s.chunks[id].latestEpoch || Incoherent(s, id, fromNode, epoch) then (s, FAILED)
    else (WithChunk(s, id, s.chunks[id].(status := NeedsHuman)), Answered(Response(ParkedAtGate, None)))
  }

  predicate ParkedAtHubNode(c: Chunk)
  {
    && c.current.Some? && c.current.value in c.graph.nodes
    && c.graph.nodes[c.current.value].executor == HubExecuted && c.status != Done
  }

  ghost function HubAdvanceStep(s: HubState, id: string, graphMissing: bool): HubState
  {
    if id !in s.chunks || graphMissing || !ParkedAtHubNode(s.chunks[id]) then s
    else WithChunk(s, id, s.chunks[id].(status := Done))
  }

  ghost function AnswerStep(s: HubState, question: string): HubState
  {
    if question !in s.questions then s
    else s.(questions := s.questions[question := s.questions[question].(answered := true)])
  }

  // ----- retirement under a host

  datatype RetireReply = Retired(released: seq<string>) | RetireUnknownRunner | RetireHoldsRoutes
                       | RetireConflict | RetireInterrupted

  /** A route taken from its runner; a running chunk goes back to the queue at its current node. */
  function Freed(c: Chunk): Chunk
  {
    c.(claimed := false, holder := None, workspace := None, environments := [],
       status := if c.status == Running then Ready else c.status)
  }

  ghost function FreedAll(chunks: map<string, Chunk>, held: seq<string>): map<string, Chunk>
  {
    map id | id in chunks :: if id in held then Freed(chunks[id]) else chunks[id]
  }

  function HeldIn(chunks: map<string, Chunk>, runner: string): string -> bool
  {
    id => id in chunks && chunks[id].HeldBy(runner)
  }

  /** The chunks a runner holds, in seeded order. */
  function HeldIds(order: seq<string>, chunks: map<string, Chunk>, runner: string): (held: seq<string>)
    ensures forall id :: id in held <==> id in order && id in chunks && chunks[id].HeldBy(runner)
  {
    Filter(order, HeldIn(chunks, runner))
  }

  /** `conflict` is the lifecycle lever: absent, or armed as a refusal (`false`) or an interruption (`true`). */
  ghost function RetireStep(s: HubState, host: string, runner: string, force: bool, conflict: Option<bool>)
    : (HubState, RetireReply)
  {
    if runner !in s.runners || s.runners[runner].host != Some(host) then (s, RetireUnknownRunner)
    else
      var held := HeldIds(s.order, s.chunks, runner);
      var retired := s.(runners := s.runners[runner := s.runners[runner].(retired := true)]);
      if held != [] && !force && !s.runners[runner].retired then (s, RetireHoldsRoutes)
      else if conflict == Some(false) then (s, RetireConflict)
      else if conflict == Some(true) && held != [] then (retired, RetireInterrupted)
      else
        (retired.(chunks := FreedAll(s.chunks, held)), Retired(held))
  }

  // ----- runs

  /** Everything that can happen to the hub. Adding, registering, pausing and retiring runners and reporting
      hosts are registry writes of any row. */
  datatype Event =
    | SeedChunk(id: string, spec: ChunkSpec)
    | Claim(id: string, runner: string, ws: string, envs: seq<string>, claimLevers: ClaimLevers)
    | Rekey(id: string, runner: string)
    | Release(id: string, runner: string, epoch: int, reason: string, token: Option<string>, enforceToken: bool)
    | PauseChunk(id: string)
    | ResumeChunk(id: string)
    | StopChunk(id: string)
    | PushFacts(runner: string, facts: seq<Fact>)
    | Complete(id: string, epoch: int, fromNode: string, choice: string, applyLevers: ApplyLevers)
    | Decide(id: string, epoch: int, fromNode: string, graphMissing: bool)
    | HubAdvance(id: string, graphMissing: bool)
    | AnswerQuestion(question: string)
    | RetireHosted(host: string, runner: string, force: bool, conflict: Option<bool>)
    | PutRunner(runner: string, row: RunnerRow)
    | PutHost(host: string, hostRow: HostRow)
    | PutProject(project: string)

  ghost function Step(s: HubState, e: Event): HubState
  {
    match e
    case SeedChunk(id, spec) => SeedStep(s, id, spec)
    case Claim(id, runner, ws, envs, levers) => ClaimStep(s, id, runner, ws, envs, levers).0
    case Rekey(id, runner) => RekeyStep(s, id, runner).0
    case Release(id, runner, epoch, reason, token, enforce) =>
      ReleaseStep(s, id, runner, epoch, reason, token, enforce).0
    case PauseChunk(id) => PauseStep(s, id)
    case ResumeChunk(id) => ResumeStep(s, id)
    case StopChunk(id) => StopStep(s, id)
    case PushFacts(runner, facts) => PushStep(s, runner, facts)
    case Complete(id, epoch, fromNode, choice, levers) => CompleteStep(s, id, epoch, fromNode, choice, levers).0
    case Decide(id, epoch, fromNode, graphMissing) => DecideStep(s, id, epoch, fromNode, graphMissing).0
    case HubAdvance(id, graphMissing) => HubAdvanceStep(s, id, graphMissing)
    case AnswerQuestion(q) => AnswerStep(s, q)
    case RetireHosted(host, runner, force, conflict) => RetireStep(s, host, runner, force, conflict).0
    case PutRunner(runner, row) => s.(runners := s.runners[runner := row])
    case PutHost(host, row) => s.(hosts := s.hosts[host := row])
    case PutProject(project) => s.(projects := s.projects + {project})
  }

  /** The hub after the first `k` events of a run from `s`. */
  ghost function At(s: HubState, run: seq<Event>, k: nat): HubState
    requires k <= |run|
  {
    if k == 0 then s else Step(At(s, run, k - 1), run[k - 1])
  }
}
