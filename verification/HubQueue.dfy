/** The ready queue and the matched peek, and how an offer relates to the claim that follows it. */
module HubQueue {
  import opened Options
  import opened Sequences
  import opened Matching
  import opened HubModel
  import opened HubInvariants

  predicate IsReady(c: Chunk)
  {
    !c.claimed && c.status == Ready
  }

  function ReadyIn(chunks: map<string, Chunk>): string -> bool
  {
    id => id in chunks && IsReady(chunks[id])
  }

  /** The ready order: seeded order, restricted to unclaimed ready chunks. */
  function ReadyIds(order: seq<string>, chunks: map<string, Chunk>): (ready: seq<string>)
    ensures forall id :: id in ready <==> id in order && id in chunks && IsReady(chunks[id])
  {
    Filter(order, ReadyIn(chunks))
  }

  // ----- the projects a runner is offered work from

  predicate Withheld(hosts: map<string, HostRow>, row: RunnerRow, b: Binding)
  {
    row.host.Some? && row.host.value in hosts && hosts[row.host.value].registered &&
    var h := hosts[row.host.value];
    b.workspace !in h.workspaces || (row.subscription.Some? && row.subscription.value !in h.subscriptions)
  }

  /** An entry reached through a binding no host report withholds; every entry when no bindings were sent. */
  predicate Reachable(hosts: map<string, HostRow>, row: RunnerRow, e: ServedEntry)
  {
    row.bindings.Some? ==>
      exists i :: 0 <= i < |row.bindings.value| && row.bindings.value[i].project == e.entry
                  && !Withheld(hosts, row, row.bindings.value[i])
  }

  /** A project one of the wanted entries names, by the entry as declared or by the id it resolved to. */
  predicate Named(row: RunnerRow, wanted: seq<string>, project: string)
  {
    exists i :: 0 <= i < |row.projects| && row.projects[i].project == Some(project)
                && (row.projects[i].entry in wanted || project in wanted)
  }

  function OfferedProjects(hosts: map<string, HostRow>, row: RunnerRow, named: Option<seq<string>>): set<string>
  {
    set i | 0 <= i < |row.projects| && row.projects[i].project.Some? && Reachable(hosts, row, row.projects[i])
            && (named.Some? ==> Named(row, named.value, row.projects[i].project.value))
          :: row.projects[i].project.value
  }

  /** No report of the runner's host speaks against work through the binding. */
  predicate Unopposed(hosts: map<string, HostRow>, row: RunnerRow, b: Binding)
  {
    || row.host.None? || row.host.value !in hosts || !hosts[row.host.value].registered
    || (b.workspace in hosts[row.host.value].workspaces
        && (row.subscription.None? || row.subscription.value in hosts[row.host.value].subscriptions))
  }

  /** A project is offered by an entry that resolved to it, reached by an unopposed binding if the runner sent any, and
      named, as declared or by id, by some entry for it if the caller named any. */
  ghost predicate OfferedTo(hosts: map<string, HostRow>, row: RunnerRow, named: Option<seq<string>>, project: string)
  {
    && (exists i :: 0 <= i < |row.projects| && row.projects[i].project == Some(project)
          && (row.bindings.None?
              || exists j :: 0 <= j < |row.bindings.value| && row.bindings.value[j].project == row.projects[i].entry
                   && Unopposed(hosts, row, row.bindings.value[j])))
    && (named.None?
        || exists i :: 0 <= i < |row.projects| && row.projects[i].project == Some(project)
             && (row.projects[i].entry in named.value || project in named.value))
  }

  lemma OfferedExactly(hosts: map<string, HostRow>, row: RunnerRow, named: Option<seq<string>>, project: string)
    ensures project in OfferedProjects(hosts, row, named) <==> OfferedTo(hosts, row, named, project)
  {
    forall i | 0 <= i < |row.projects|
      ensures Reachable(hosts, row, row.projects[i]) <==>
              (row.bindings.None?
               || exists j :: 0 <= j < |row.bindings.value| && row.bindings.value[j].project == row.projects[i].entry
                    && Unopposed(hosts, row, row.bindings.value[j]))
    {
    }
    if OfferedTo(hosts, row, named, project) {
      var i :| 0 <= i < |row.projects| && row.projects[i].project == Some(project)
        && (row.bindings.None?
            || exists j :: 0 <= j < |row.bindings.value| && row.bindings.value[j].project == row.projects[i].entry
                 && Unopposed(hosts, row, row.bindings.value[j]));
      assert Reachable(hosts, row, row.projects[i]);
      assert named.Some? ==> Named(row, named.value, project);
    }
  }

  lemma OfferedAreServed(hosts: map<string, HostRow>, row: RunnerRow, named: Option<seq<string>>)
    ensures OfferedProjects(hosts, row, named) <= ServedProjects(row)
  {
  }

  lemma AllServedAreOffered(hosts: map<string, HostRow>, row: RunnerRow)
    requires row.bindings.None?
    ensures OfferedProjects(hosts, row, None) == ServedProjects(row)
  {
  }

  // ----- the declarative choice

  datatype PeekReply = PeekUnknownRunner | PeekNothing | PeekOffer(chunk: string, position: nat)

  /** An unrecognized policy reads as pass-over. */
  predicate Holds(policy: string)
  {
    policy == "hold"
  }

  /** What a matched peek asks: the caller's capabilities, the policy, the projects it names, the blocked chunks. */
  datatype Query = Query(caps: seq<Capability>, policy: string, named: Option<seq<string>>, blocked: set<string>)

  ghost predicate Usable(s: HubState, id: string, q: Query)
    requires id in s.chunks
  {
    id !in q.blocked && Eligible(s.chunks[id].graph, s.chunks[id].WorkNode(), q.caps)
  }

  /** Position `i` of the ready order may be offered: served, usable, and under hold nothing ahead of it, in its
      project when projects are named and among all served chunks when not. */
  ghost predicate Offerable(s: HubState, row: RunnerRow, q: Query, ready: seq<string>, i: nat)
    requires i < |ready| && forall id :: id in ready ==> id in s.chunks
  {
    var served := OfferedProjects(s.hosts, row, q.named);
    && s.chunks[ready[i]].project in served
    && Usable(s, ready[i], q)
    && (Holds(q.policy) ==>
        forall j :: 0 <= j < i && s.chunks[ready[j]].project in served ==>
                    q.named.Some? && s.chunks[ready[j]].project != s.chunks[ready[i]].project)
  }

  /** The reply is the first offerable position, or nothing when there is none. */
  ghost predicate IsChoice(s: HubState, row: RunnerRow, q: Query, reply: PeekReply)
  {
    var ready := ReadyIds(s.order, s.chunks);
    match reply
    case PeekUnknownRunner => false
    case PeekNothing => forall i :: 0 <= i < |ready| ==> !Offerable(s, row, q, ready, i)
    case PeekOffer(id, position) =>
      && position < |ready| && ready[position] == id
      && Offerable(s, row, q, ready, position)
      && forall i :: 0 <= i < position ==> !Offerable(s, row, q, ready, i)
  }

  // ----- the scan

  /** The first `k` positions have been passed: none was offerable, and under hold the projects of the served ones
      have stopped. */
  ghost predicate Scanned(s: HubState, row: RunnerRow, q: Query, ready: seq<string>, k: nat, stopped: set<string>)
    requires k <= |ready| && forall id :: id in ready ==> id in s.chunks
  {
    var served := OfferedProjects(s.hosts, row, q.named);
    && (forall i :: 0 <= i < k ==> !Offerable(s, row, q, ready, i))
    && (Holds(q.policy) ==>
        forall i :: 0 <= i < k && s.chunks[ready[i]].project in served ==>
                    q.named.Some? && s.chunks[ready[i]].project in stopped)
    && forall p :: p in stopped ==>
         Holds(q.policy) && exists i :: 0 <= i < k && s.chunks[ready[i]].project == p && p in served
  }

  lemma ScanPasses(s: HubState, row: RunnerRow, q: Query, ready: seq<string>, k: nat, stopped: set<string>)
    requires k < |ready| && forall id :: id in ready ==> id in s.chunks
    requires Scanned(s, row, q, ready, k, stopped)
    requires s.chunks[ready[k]].project !in OfferedProjects(s.hosts, row, q.named)
             || s.chunks[ready[k]].project in stopped
    ensures Scanned(s, row, q, ready, k + 1, stopped)
  {
  }

  lemma ScanStops(s: HubState, row: RunnerRow, q: Query, ready: seq<string>, k: nat, stopped: set<string>)
    requires k < |ready| && forall id :: id in ready ==> id in s.chunks
    requires Scanned(s, row, q, ready, k, stopped) && !Usable(s, ready[k], q)
    requires s.chunks[ready[k]].project in OfferedProjects(s.hosts, row, q.named)
    requires Holds(q.policy) ==> q.named.Some?
    ensures
      var stopped' := if Holds(q.policy) then stopped + {s.chunks[ready[k]].project} else stopped;
      Scanned(s, row, q, ready, k + 1, stopped')
  {
  }

  lemma ScanHolds(s: HubState, row: RunnerRow, q: Query, ready: seq<string>, k: nat, stopped: set<string>)
    requires ready == ReadyIds(s.order, s.chunks) && k < |ready|
    requires Scanned(s, row, q, ready, k, stopped) && !Usable(s, ready[k], q)
    requires s.chunks[ready[k]].project in OfferedProjects(s.hosts, row, q.named)
    requires Holds(q.policy) && q.named.None?
    ensures IsChoice(s, row, q, PeekNothing)
  {
    forall i | k <= i < |ready|
      ensures !Offerable(s, row, q, ready, i)
    {
    }
  }

  lemma ScanOffers(s: HubState, row: RunnerRow, q: Query, ready: seq<string>, k: nat, stopped: set<string>)
    requires ready == ReadyIds(s.order, s.chunks) && k < |ready|
    requires Scanned(s, row, q, ready, k, stopped) && Usable(s, ready[k], q)
    requires s.chunks[ready[k]].project in OfferedProjects(s.hosts, row, q.named)
    requires s.chunks[ready[k]].project !in stopped
    ensures IsChoice(s, row, q, PeekOffer(ready[k], k))
  {
  }

  // ----- the choice in terms of the seeded order

  ghost predicate ReadyAt(s: HubState, i: int)
  {
    && 0 <= i < |s.order| && s.order[i] in s.chunks
    && !s.chunks[s.order[i]].claimed && s.chunks[s.order[i]].status == Ready
  }

  /** Ready, and of a project the runner may be offered work from. */
  ghost predicate ServedAt(s: HubState, row: RunnerRow, q: Query, i: int)
  {
    ReadyAt(s, i) && OfferedTo(s.hosts, row, q.named, s.chunks[s.order[i]].project)
  }

  /** Index `i` of the seeded order may be offered. Under hold nothing ready and served stands before it, in its own
      project when projects are named. */
  ghost predicate QualifiesAt(s: HubState, row: RunnerRow, q: Query, i: int)
  {
    && ServedAt(s, row, q, i) && s.order[i] !in q.blocked
    && Eligible(s.chunks[s.order[i]].graph, s.chunks[s.order[i]].WorkNode(), q.caps)
    && (q.policy == "hold" ==>
        forall j :: 0 <= j < i && ServedAt(s, row, q, j) ==>
          q.named.Some? && s.chunks[s.order[j]].project != s.chunks[s.order[i]].project)
  }

  /** The number of ready ids before index `n` of the seeded order. */
  ghost function ReadyBefore(s: HubState, n: nat): nat
    requires n <= |s.order|
  {
    if n == 0 then 0 else ReadyBefore(s, n - 1) + if ReadyAt(s, n - 1) then 1 else 0
  }

  /** The oldest id that qualifies is offered, at the number of ready ids before it; nothing exactly when none does. */
  ghost predicate OldestQualifying(s: HubState, row: RunnerRow, q: Query, reply: PeekReply)
  {
    match reply
    case PeekUnknownRunner => false
    case PeekNothing => forall i :: 0 <= i < |s.order| ==> !QualifiesAt(s, row, q, i)
    case PeekOffer(id, position) =>
      exists i :: 0 <= i < |s.order| && QualifiesAt(s, row, q, i) && s.order[i] == id
                  && position == ReadyBefore(s, i) && forall j :: 0 <= j < i ==> !QualifiesAt(s, row, q, j)
  }

  lemma {:induction false} ReadyBeforeCounts(s: HubState, n: nat)
    requires n <= |s.order|
    ensures ReadyBefore(s, n) == KeptBefore(s.order, ReadyIn(s.chunks), n)
  {
    if n > 0 {
      ReadyBeforeCounts(s, n - 1);
    }
  }

  /** A ready index has its place in the ready order, behind the places of those before it. */
  lemma PlaceOf(s: HubState, i: nat)
    requires ReadyAt(s, i)
    ensures ReadyBefore(s, i) < |ReadyIds(s.order, s.chunks)|
    ensures ReadyIds(s.order, s.chunks)[ReadyBefore(s, i)] == s.order[i]
    ensures forall j :: 0 <= j < i && ReadyAt(s, j) ==> ReadyBefore(s, j) < ReadyBefore(s, i)
  {
    FilterPlaces(s.order, ReadyIn(s.chunks));
    ReadyBeforeCounts(s, i);
    assert ReadyIn(s.chunks)(s.order[i]);
    forall j | 0 <= j < i && ReadyAt(s, j)
      ensures ReadyBefore(s, j) < ReadyBefore(s, i)
    {
      ReadyBeforeCounts(s, j);
      assert ReadyIn(s.chunks)(s.order[j]);
      KeptBeforeGrows(s.order, ReadyIn(s.chunks), j, i);
    }
  }

  /** Every place of the ready order is some ready index's. */
  lemma SourceOf(s: HubState, p: nat) returns (i: nat)
    requires p < |ReadyIds(s.order, s.chunks)|
    ensures i < |s.order| && ReadyAt(s, i) && ReadyBefore(s, i) == p
    ensures ReadyIds(s.order, s.chunks)[p] == s.order[i]
  {
    i := FilterSource(s.order, ReadyIn(s.chunks), p);
    ReadyBeforeCounts(s, i);
  }

  lemma ServedAtPlace(s: HubState, row: RunnerRow, q: Query, i: nat)
    requires ReadyAt(s, i)
    ensures ServedAt(s, row, q, i) <==> s.chunks[s.order[i]].project in OfferedProjects(s.hosts, row, q.named)
  {
    OfferedExactly(s.hosts, row, q.named, s.chunks[s.order[i]].project);
  }

  /** Under hold: what stands before index `i` is what stands before its place. */
  lemma AheadInOrder(s: HubState, row: RunnerRow, q: Query, i: nat)
    requires ReadyAt(s, i)
    ensures
      var ready, served := ReadyIds(s.order, s.chunks), OfferedProjects(s.hosts, row, q.named);
      && ReadyBefore(s, i) < |ready|
      && ((forall p :: 0 <= p < ReadyBefore(s, i) && s.chunks[ready[p]].project in served ==>
             q.named.Some? && s.chunks[ready[p]].project != s.chunks[s.order[i]].project) <==>
          (forall j :: 0 <= j < i && ServedAt(s, row, q, j) ==>
             q.named.Some? && s.chunks[s.order[j]].project != s.chunks[s.order[i]].project))
  {
    var ready, served := ReadyIds(s.order, s.chunks), OfferedProjects(s.hosts, row, q.named);
    PlaceOf(s, i);
    forall j | 0 <= j < i && ServedAt(s, row, q, j)
      ensures 0 <= ReadyBefore(s, j) < ReadyBefore(s, i) && ready[ReadyBefore(s, j)] == s.order[j]
      ensures s.chunks[s.order[j]].project in served
    {
      PlaceOf(s, j);
      ServedAtPlace(s, row, q, j);
    }
    forall p | 0 <= p < ReadyBefore(s, i) && s.chunks[ready[p]].project in served
      ensures exists j :: 0 <= j < i && ServedAt(s, row, q, j) && s.order[j] == ready[p]
    {
      var j := SourceOf(s, p);
      ServedAtPlace(s, row, q, j);
      if j >= i {
        ReadyBeforeCounts(s, i);
        ReadyBeforeCounts(s, j);
        KeptBeforeGrows(s.order, ReadyIn(s.chunks), i, j);
      }
      assert j < i;
    }
  }

  lemma OfferableMeansQualifies(s: HubState, row: RunnerRow, q: Query, i: nat)
    requires ReadyAt(s, i)
    ensures ReadyBefore(s, i) < |ReadyIds(s.order, s.chunks)|
    ensures Offerable(s, row, q, ReadyIds(s.order, s.chunks), ReadyBefore(s, i)) <==> QualifiesAt(s, row, q, i)
  {
    PlaceOf(s, i);
    ServedAtPlace(s, row, q, i);
    AheadInOrder(s, row, q, i);
  }

  /** The declarative choice is the oldest qualifying id, first in, first out. */
  lemma ChoiceIsOldest(s: HubState, row: RunnerRow, q: Query, reply: PeekReply)
    requires IsChoice(s, row, q, reply)
    ensures OldestQualifying(s, row, q, reply)
  {
    if reply.PeekOffer? {
      var i := SourceOf(s, reply.position);
      OfferableMeansQualifies(s, row, q, i);
      PlaceOf(s, i);
      forall j | 0 <= j < i
        ensures !QualifiesAt(s, row, q, j)
      {
        if ReadyAt(s, j) {
          OfferableMeansQualifies(s, row, q, j);
        }
      }
    } else {
      forall i | 0 <= i < |s.order|
        ensures !QualifiesAt(s, row, q, i)
      {
        if ReadyAt(s, i) {
          OfferableMeansQualifies(s, row, q, i);
        }
      }
    }
  }

  /** Any two correct replies to one query agree. */
  lemma ChoiceIsUnique(s: HubState, row: RunnerRow, q: Query, r1: PeekReply, r2: PeekReply)
    requires IsChoice(s, row, q, r1) && IsChoice(s, row, q, r2)
    ensures r1 == r2
  {
  }

  /** A runner can claim what it was offered: active, registered and storing the capabilities it asserted. */
  lemma OfferCanBeClaimed(s: HubState, runner: string, q: Query, reply: PeekReply, ws: string, envs: seq<string>)
    requires HubSound(s) && runner in s.runners
    requires IsChoice(s, s.runners[runner], q, reply) && reply.PeekOffer?
    requires s.runners[runner].registered && !s.runners[runner].paused && !s.runners[runner].retired
    requires s.runners[runner].capabilities == q.caps
    ensures
      var levers := ClaimLevers(false, false, reply.chunk in q.blocked);
      ClaimStep(s, reply.chunk, runner, ws, envs, levers).1.ClaimGranted?
  {
    OfferedAreServed(s.hosts, s.runners[runner], q.named);
    ClaimGrantedExactly(s, reply.chunk, runner, ws, envs, NO_LEVERS);
  }

  /** Under pass-over, a runner without bindings that is offered nothing could claim nothing either. */
  lemma NothingOfferedNothingClaimable(s: HubState, runner: string, q: Query, id: string, ws: string, envs: seq<string>)
    requires HubSound(s) && runner in s.runners
    requires IsChoice(s, s.runners[runner], q, PeekNothing) && !Holds(q.policy) && q.named.None?
    requires s.runners[runner].capabilities == q.caps && s.runners[runner].bindings.None?
    ensures !ClaimStep(s, id, runner, ws, envs, ClaimLevers(false, false, id in q.blocked)).1.ClaimGranted?
  {
    var ready := ReadyIds(s.order, s.chunks);
    AllServedAreOffered(s.hosts, s.runners[runner]);
    if id in ready {
      var i :| 0 <= i < |ready| && ready[i] == id;
      assert !Offerable(s, s.runners[runner], q, ready, i);
    }
  }
}
