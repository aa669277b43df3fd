/** Capability-matched selection: a chunk's scripted graph, what is reachable in it, and which
    runner capabilities can work it from a node onwards. */
module Matching {
  import opened Options

  /** The reserved node id a choice points at to end the chunk. */
  const TERMINAL: string := "done"

  datatype Executor = RunnerExecuted | HubExecuted

  datatype Choice = Choice(name: string, to: string)

  datatype Node = Node(executor: Executor, harnesses: seq<string>, model: seq<string>, choices: seq<Choice>)

  datatype Graph = Graph(entry: string, nodes: map<string, Node>, harnesses: seq<string>, model: seq<string>)

  /** A reported harness binding. `matches` stands for the reported model patterns, as the names they match. */
  datatype Capability = Capability(harness: string, tiers: seq<string>, matches: string -> bool,
                                   isDefault: bool, available: bool)

  // ----- reachability

  /** A known node's choice leads on to a node other than the terminal marker. */
  ghost predicate Edge(g: Graph, a: string, b: string)
  {
    a in g.nodes && b in Onward(g.nodes[a].choices)
  }

  /** The targets a search moves on to, in choice order. */
  function Onward(choices: seq<Choice>): (r: seq<string>)
    ensures forall b :: b in r <==> b != TERMINAL && exists i :: 0 <= i < |choices| && choices[i].to == b
  {
    if choices == [] then []
    else
      var rest := Onward(choices[..|choices| - 1]);
      var last := choices[|choices| - 1].to;
      assert forall i :: 0 <= i < |choices| - 1 ==> choices[i] == choices[..|choices| - 1][i];
      if last == TERMINAL then rest else rest + [last]
  }

  ghost predicate IsPath(g: Graph, p: seq<string>)
  {
    p != [] && forall i :: 0 <= i < |p| - 1 ==> Edge(g, p[i], p[i + 1])
  }

  ghost predicate Reach(g: Graph, a: string, b: string)
  {
    exists p: seq<string> :: IsPath(g, p) && p[0] == a && p[|p| - 1] == b
  }

  lemma ReachSelf(g: Graph, a: string)
    ensures Reach(g, a, a)
  {
    assert IsPath(g, [a]);
  }

  lemma ReachOnward(g: Graph, a: string, b: string, c: string)
    requires Reach(g, a, b) && Edge(g, b, c)
    ensures Reach(g, a, c)
  {
    var p: seq<string> :| IsPath(g, p) && p[0] == a && p[|p| - 1] == b;
    var q := p + [c];
    assert IsPath(g, q) by {
      forall i | 0 <= i < |q| - 1
        ensures Edge(g, q[i], q[i + 1])
      {
        if i < |p| - 1 {
          assert Edge(g, p[i], p[i + 1]);
        }
      }
    }
    assert q[0] == a && q[|q| - 1] == c;
  }

  lemma ReachThrough(g: Graph, a: string, b: string, c: string)
    requires Reach(g, a, b) && Reach(g, b, c)
    ensures Reach(g, a, c)
  {
    var p: seq<string> :| IsPath(g, p) && p[0] == b && p[|p| - 1] == c;
    ReachAlong(g, a, p, |p| - 1);
  }

  lemma {:induction false} ReachAlong(g: Graph, a: string, p: seq<string>, k: nat)
    requires IsPath(g, p) && k < |p| && Reach(g, a, p[0])
    ensures Reach(g, a, p[k])
  {
    if k > 0 {
      ReachAlong(g, a, p, k - 1);
      assert Edge(g, p[k - 1], p[k - 1 + 1]);
      ReachOnward(g, a, p[k - 1], p[k]);
    }
  }

  /** A set closed under edges holds everything reachable from any of its members. */
  lemma ClosedHoldsReach(g: Graph, s: set<string>, a: string, b: string)
    requires a in s && Reach(g, a, b)
    requires forall x, y :: x in s && Edge(g, x, y) ==> y in s
    ensures b in s
  {
    var p: seq<string> :| IsPath(g, p) && p[0] == a && p[|p| - 1] == b;
    ClosedHoldsPath(g, s, p, |p| - 1);
  }

  lemma {:induction false} ClosedHoldsPath(g: Graph, s: set<string>, p: seq<string>, k: nat)
    requires IsPath(g, p) && k < |p| && p[0] in s
    requires forall x, y :: x in s && Edge(g, x, y) ==> y in s
    ensures p[k] in s
  {
    if k > 0 {
      ClosedHoldsPath(g, s, p, k - 1);
      assert Edge(g, p[k - 1], p[k - 1 + 1]);
    }
  }

  ghost predicate ReachableRunnerNode(g: Graph, start: string, n: string)
  {
    Reach(g, start, n) && n in g.nodes && g.nodes[n].executor == RunnerExecuted
  }

  ghost predicate Distinct<T>(s: seq<T>)
  {
    forall i, j :: 0 <= i < j < |s| ==> s[i] != s[j]
  }

  /** Every id a search from `start` can ever hold. */
  ghost function Universe(g: Graph, start: string): set<string>
  {
    {start} + set n, i | n in g.nodes && 0 <= i < |g.nodes[n].choices| :: g.nodes[n].choices[i].to
  }

  /** The depth-first worklist search: it ends on every graph, cyclic or with dangling choices, and lists
      exactly the runner-executed nodes reachable from `start`, each once. */
  method ReachableRunnerNodes(g: Graph, start: string) returns (ids: seq<string>)
    ensures Distinct(ids)
    ensures forall n :: n in ids <==> ReachableRunnerNode(g, start, n)
  {
    var seen: set<string> := {};
    ids := [];
    var stack := [start];
    ReachSelf(g, start);
    while stack != []
      invariant Distinct(ids)
      invariant forall n :: n in ids <==> n in seen && n in g.nodes && g.nodes[n].executor == RunnerExecuted
      invariant forall n :: n in seen || n in stack ==> Reach(g, start, n) && n in Universe(g, start)
      invariant start in seen || start in stack
      invariant forall a, b :: a in seen && Edge(g, a, b) ==> b in seen || b in stack
      decreases Universe(g, start) - seen, |stack|
    {
      var id := stack[|stack| - 1];
      ghost var before := stack;
      stack := stack[..|stack| - 1];
      assert forall n :: n in before <==> n == id || n in stack;
      if id in seen {
        continue;
      }
      seen := seen + {id};
      if id !in g.nodes {
        continue;
      }
      var node := g.nodes[id];
      if node.executor == RunnerExecuted {
        ids := ids + [id];
      }
      ghost var kept := stack;
      for k := 0 to |node.choices|
        invariant stack == kept + Onward(node.choices[..k])
      {
        assert node.choices[..k + 1][..k] == node.choices[..k];
        if node.choices[k].to != TERMINAL {
          stack := stack + [node.choices[k].to];
        }
      }
      assert node.choices[..|node.choices|] == node.choices;
      forall b | b in Onward(node.choices)
        ensures Reach(g, start, b) && b in Universe(g, start)
      {
        assert Edge(g, id, b);
        ReachOnward(g, start, id, b);
      }
    }
    forall n | Reach(g, start, n)
      ensures n in seen
    {
      ClosedHoldsReach(g, seen, start, n);
    }
  }

  // ----- eligibility

  /** A node's own declared list when it has one, else the chunk's default. */
  function Effective(own: seq<string>, fallback: seq<string>): seq<string>
  {
    if own != [] then own else fallback
  }

  predicate Supported(entry: string, c: Capability)
  {
    !("blizzard:" <= entry) && c.matches(entry)
  }

  /** The first available capability reported for a harness. */
  function FirstAvailable(caps: seq<Capability>, harness: string): Option<Capability>
  {
    if caps == [] then None
    else if caps[0].available && caps[0].harness == harness then Some(caps[0])
    else FirstAvailable(caps[1..], harness)
  }

  predicate Serves(caps: seq<Capability>, harness: string, strict: bool, model: seq<string>)
  {
    match FirstAvailable(caps, harness)
    case None => false
    case Some(c) => strict ==> exists j :: 0 <= j < |model| && (model[j] in c.tiers || Supported(model[j], c))
  }

  /** Whether some reported capability could serve the node's effective session. */
  predicate LineageSatisfied(g: Graph, n: string, caps: seq<Capability>)
  {
    n in g.nodes ==>
      var node := g.nodes[n];
      var harnesses := Effective(node.harnesses, g.harnesses);
      if harnesses == [] then
        exists i :: 0 <= i < |caps| && caps[i].available && caps[i].isDefault
      else
        var model := Effective(node.model, g.model);
        var strict := |harnesses| > 1 && model != [];
        exists i :: 0 <= i < |harnesses| && Serves(caps, harnesses[i], strict, model)
  }

  /** Capabilities that can work a chunk from `n` on: some are reported, and every runner-executed node the
      chunk could still reach is served. */
  ghost predicate Eligible(g: Graph, n: string, caps: seq<Capability>)
  {
    caps != [] && forall m :: ReachableRunnerNode(g, n, m) ==> LineageSatisfied(g, m, caps)
  }

  method CapabilityIneligible(g: Graph, n: string, caps: seq<Capability>) returns (ineligible: bool)
    ensures ineligible <==> !Eligible(g, n, caps)
  {
    if caps == [] {
      return true;
    }
    var ids := ReachableRunnerNodes(g, n);
    ineligible := false;
    for k := 0 to |ids|
      invariant !ineligible <==> forall i :: 0 <= i < k ==> LineageSatisfied(g, ids[i], caps)
    {
      if !LineageSatisfied(g, ids[k], caps) {
        ineligible := true;
      }
    }
    assert forall m :: m in ids <==> exists i :: 0 <= i < |ids| && ids[i] == m;
  }

  /** Eligibility at a node carries over to every node reachable from it. */
  lemma EligibilityCarriesOver(g: Graph, a: string, b: string, caps: seq<Capability>)
    requires Eligible(g, a, caps) && Reach(g, a, b)
    ensures Eligible(g, b, caps)
  {
    forall m | ReachableRunnerNode(g, b, m)
      ensures LineageSatisfied(g, m, caps)
    {
      ReachThrough(g, a, b, m);
      assert ReachableRunnerNode(g, a, m);
    }
  }

  /** A withdrawn capability serves nothing: dropping it from the report changes no verdict on a lineage. */
  lemma {:induction false} WithdrawnServesNothing(g: Graph, n: string, caps: seq<Capability>, k: nat)
    requires k < |caps| && !caps[k].available
    ensures LineageSatisfied(g, n, caps) <==> LineageSatisfied(g, n, caps[..k] + caps[k + 1..])
  {
    var fewer := caps[..k] + caps[k + 1..];
    forall h: string
      ensures FirstAvailable(caps, h) == FirstAvailable(fewer, h)
    {
      FirstAvailableSkips(caps, k, h);
    }
    assert forall h, strict, model :: Serves(caps, h, strict, model) == Serves(fewer, h, strict, model);
    assert forall i :: 0 <= i < |fewer| ==> fewer[i] == if i < k then caps[i] else caps[i + 1];
    assert forall i :: 0 <= i < |caps| && i != k ==> caps[i] == fewer[if i < k then i else i - 1];
  }

  lemma {:induction false} FirstAvailableSkips(caps: seq<Capability>, k: nat, h: string)
    requires k < |caps| && !caps[k].available
    ensures FirstAvailable(caps, h) == FirstAvailable(caps[..k] + caps[k + 1..], h)
  {
    var fewer := caps[..k] + caps[k + 1..];
    if k == 0 {
      assert fewer == caps[1..];
    } else {
      assert fewer[1..] == caps[1..][..k - 1] + caps[1..][k..];
      FirstAvailableSkips(caps[1..], k - 1, h);
    }
  }

  // ----- what a lineage asks, from the declarations alone

  lemma {:induction false} FirstAvailableIs(caps: seq<Capability>, h: string)
    ensures
      match FirstAvailable(caps, h)
      case None => forall i :: 0 <= i < |caps| ==> !(caps[i].available && caps[i].harness == h)
      case Some(c) => exists i :: IsFirstFor(caps, h, i) && caps[i] == c
  {
    if caps != [] && !(caps[0].available && caps[0].harness == h) {
      FirstAvailableIs(caps[1..], h);
      match FirstAvailable(caps, h)
      case None =>
        assert forall i :: 0 < i < |caps| ==> caps[i] == caps[1..][i - 1];
      case Some(c) =>
        var i :| IsFirstFor(caps[1..], h, i) && caps[1..][i] == c;
        assert IsFirstFor(caps, h, i + 1) by {
          assert forall j :: 0 < j < i + 1 ==> caps[j] == caps[1..][j - 1];
        }
    } else if caps != [] {
      assert IsFirstFor(caps, h, 0);
    }
  }

  /** Position `i` is the first available report of the harness. */
  ghost predicate IsFirstFor(caps: seq<Capability>, h: string, i: int)
  {
    && 0 <= i < |caps| && caps[i].available && caps[i].harness == h
    && forall j :: 0 <= j < i ==> !(caps[j].available && caps[j].harness == h)
  }

  lemma FirstIsUnique(caps: seq<Capability>, h: string, i: int, j: int)
    requires IsFirstFor(caps, h, i) && IsFirstFor(caps, h, j)
    ensures i == j
  {
  }

  /** One of the preferred models is a tier the capability carries, or a native name, not a tier's, it matches. */
  ghost predicate Offers(c: Capability, model: seq<string>)
  {
    exists k :: 0 <= k < |model| && (model[k] in c.tiers || (!("blizzard:" <= model[k]) && c.matches(model[k])))
  }

  /** What some of `harnesses` must find among the capabilities when `model` is preferred. */
  ghost predicate SomeServes(harnesses: seq<string>, model: seq<string>, caps: seq<Capability>)
  {
    if |harnesses| == 1 || model == [] then
      exists h, i :: h in harnesses && 0 <= i < |caps| && caps[i].available && caps[i].harness == h
    else
      exists h, i :: h in harnesses && IsFirstFor(caps, h, i) && Offers(caps[i], model)
  }

  lemma ServesMeans(caps: seq<Capability>, h: string, strict: bool, model: seq<string>)
    ensures Serves(caps, h, strict, model) <==>
              if strict then exists i :: IsFirstFor(caps, h, i) && Offers(caps[i], model)
              else exists i :: 0 <= i < |caps| && caps[i].available && caps[i].harness == h
  {
    FirstAvailableIs(caps, h);
    if FirstAvailable(caps, h).Some? {
      var i :| IsFirstFor(caps, h, i) && caps[i] == FirstAvailable(caps, h).value;
      forall j | IsFirstFor(caps, h, j)
        ensures j == i
      {
        FirstIsUnique(caps, h, i, j);
      }
    }
  }

  lemma SomeServesMeans(harnesses: seq<string>, model: seq<string>, caps: seq<Capability>)
    requires harnesses != []
    ensures
      var strict := |harnesses| > 1 && model != [];
      (exists i :: 0 <= i < |harnesses| && Serves(caps, harnesses[i], strict, model)) <==>
      SomeServes(harnesses, model, caps)
  {
    var strict := |harnesses| > 1 && model != [];
    forall h
      ensures Serves(caps, h, strict, model) <==>
              if strict then exists i :: IsFirstFor(caps, h, i) && Offers(caps[i], model)
              else exists i :: 0 <= i < |caps| && caps[i].available && caps[i].harness == h
    {
      ServesMeans(caps, h, strict, model);
    }
    if i :| 0 <= i < |harnesses| && Serves(caps, harnesses[i], strict, model) {
      assert harnesses[i] in harnesses;
    }
    if SomeServes(harnesses, model, caps) {
      var h :| h in harnesses && Serves(caps, h, strict, model);
      var i :| 0 <= i < |harnesses| && harnesses[i] == h;
      assert Serves(caps, harnesses[i], strict, model);
    }
  }

  /** The verdict on a known node. Its own harnesses and its own model, where it declares any, and the chunk's
      defaults only where it does not. No harness at all: some available capability is a default. One harness, or no
      preferred model: some available capability is of a wanted harness. Several and a model: for one of them the
      first available capability offers a preferred model. */
  lemma LineageExactly(g: Graph, n: string, caps: seq<Capability>)
    requires n in g.nodes
    ensures
      var own, model := g.nodes[n].harnesses, if g.nodes[n].model == [] then g.model else g.nodes[n].model;
      LineageSatisfied(g, n, caps) <==>
        if own == [] && g.harnesses == [] then exists i :: 0 <= i < |caps| && caps[i].available && caps[i].isDefault
        else SomeServes(if own == [] then g.harnesses else own, model, caps)
  {
    var own, model := g.nodes[n].harnesses, if g.nodes[n].model == [] then g.model else g.nodes[n].model;
    var harnesses := if own == [] then g.harnesses else own;
    if harnesses != [] {
      SomeServesMeans(harnesses, model, caps);
    }
  }

  /** A node's own declaration is proof against every chunk default, and a default stands in for a missing one exactly
      as if the node had declared it. */
  lemma OwnDeclarationDecides(g: Graph, n: string, caps: seq<Capability>, harnesses: seq<string>, model: seq<string>)
    requires n in g.nodes
    ensures g.nodes[n].harnesses != [] && g.nodes[n].model != [] ==>
              LineageSatisfied(g.(harnesses := harnesses, model := model), n, caps) == LineageSatisfied(g, n, caps)
    ensures
      var node := g.nodes[n].(harnesses := if g.nodes[n].harnesses == [] then g.harnesses else g.nodes[n].harnesses,
                              model := if g.nodes[n].model == [] then g.model else g.nodes[n].model);
      LineageSatisfied(g.(nodes := g.nodes[n := node]), n, caps) == LineageSatisfied(g, n, caps)
  {
  }

  /** Who reports nothing is eligible for nothing, were it only hub nodes that lie ahead. */
  lemma NothingReportedNothingEligible(g: Graph, n: string)
    ensures !Eligible(g, n, [])
  {
  }

  /** The graph with one node's harness and model declarations replaced. */
  function Redeclared(g: Graph, h: string, harnesses: seq<string>, model: seq<string>): Graph
    requires h in g.nodes
  {
    g.(nodes := g.nodes[h := g.nodes[h].(harnesses := harnesses, model := model)])
  }

  lemma RedeclaringKeepsReach(g: Graph, h: string, harnesses: seq<string>, model: seq<string>, a: string, b: string)
    requires h in g.nodes
    ensures Reach(Redeclared(g, h, harnesses, model), a, b) <==> Reach(g, a, b)
  {
    var g' := Redeclared(g, h, harnesses, model);
    assert forall x, y :: Edge(g', x, y) == Edge(g, x, y);
    assert forall p :: IsPath(g', p) == IsPath(g, p);
  }

  /** A hub node is passed through but asks nothing of a runner: what it declares changes no verdict. */
  lemma HubNodesAskNothing(g: Graph, h: string, harnesses: seq<string>, model: seq<string>, n: string,
                           caps: seq<Capability>)
    requires h in g.nodes && g.nodes[h].executor == HubExecuted
    ensures Eligible(Redeclared(g, h, harnesses, model), n, caps) <==> Eligible(g, n, caps)
  {
    var g' := Redeclared(g, h, harnesses, model);
    forall m
      ensures ReachableRunnerNode(g', n, m) <==> ReachableRunnerNode(g, n, m)
      ensures m != h ==> LineageSatisfied(g', m, caps) == LineageSatisfied(g, m, caps)
    {
      RedeclaringKeepsReach(g, h, harnesses, model, n, m);
    }
  }
}
