/** The transcript lane: batches of records against a per-runner mark, a natural key decided once, a byte budget
    per chunk, and the read-back of one lease. */
module Transcripts {
  import opened Options
  import opened Numbers
  import opened Sorting

  const RECORD_MAX_BYTES: nat := 10 * 1024 * 1024
  const CHUNK_BUDGET_BYTES: nat := 64 * 1024 * 1024

  /** Tenant, segment and first turn: what identifies a record. */
  type Key = (string, string, int)

  /** Tenant, chunk, node and epoch. */
  type Lease = (string, string, string, int)

  /** A shipped record; `size` is the encoded size of its turns. */
  datatype Record = Record(seqNo: int, segment: string, turnStart: int, chunk: string, node: string, epoch: int,
                           generation: int, supersedes: Option<string>, truncated: bool,
                           turns: seq<string>, size: nat)

  datatype Verdict = Accepted | Rejected

  /** `segments` lists each lease's retained records in the order they were retained. */
  datatype Ledger = Ledger(
    marks: map<string, int>,
    owners: map<Key, (Lease, string)>,
    bytes: map<(string, string), nat>,
    state: map<Key, Verdict>,
    rejected: map<Key, Record>,
    segments: map<Lease, seq<Record>>)

  const EMPTY_LEDGER := Ledger(map[], map[], map[], map[], map[], map[])

  type EpochOwners = map<(string, string, int), string>

  function KeyOf(tenant: string, r: Record): Key
  {
    (tenant, r.segment, r.turnStart)
  }

  function LeaseOf(tenant: string, r: Record): Lease
  {
    (tenant, r.chunk, r.node, r.epoch)
  }

  function StoredBytes(bytes: map<(string, string), nat>, tenant: string, chunk: string): nat
  {
    if (tenant, chunk) in bytes then bytes[(tenant, chunk)] else 0
  }

  /** A record of an epoch another runner owns is refused; an epoch nobody owns yet admits it. */
  predicate ShipsFromHolder(owners: EpochOwners, tenant: string, runner: string, r: Record)
  {
    (tenant, r.chunk, r.epoch) in owners ==> owners[(tenant, r.chunk, r.epoch)] == runner
  }

  /** Storing under a key already present replaces in place, else appends. */
  function Filed(records: seq<Record>, r: Record): seq<Record>
  {
    if records == [] then [r]
    else if records[0].segment == r.segment && records[0].turnStart == r.turnStart then [r] + records[1..]
    else [records[0]] + Filed(records[1..], r)
  }

  function RetainedIn(segments: map<Lease, seq<Record>>, lease: Lease): seq<Record>
  {
    if lease in segments then segments[lease] else []
  }

  predicate OverCap(l: Ledger, tenant: string, r: Record)
  {
    r.size > RECORD_MAX_BYTES || StoredBytes(l.bytes, tenant, r.chunk) + r.size > CHUNK_BUDGET_BYTES
  }

  /** What a capped record leaves: its identity, without the turns and their size. */
  function Bare(r: Record): Record
  {
    r.(turns := [], size := 0)
  }

  function Cap(l: Ledger, tenant: string, runner: string, r: Record): Ledger
  {
    var key := KeyOf(tenant, r);
    l.(owners := l.owners[key := (LeaseOf(tenant, r), runner)],
       state := l.state[key := Rejected],
       rejected := l.rejected[key := Bare(r)])
  }

  function Accept(l: Ledger, tenant: string, runner: string, r: Record): Ledger
  {
    var key := KeyOf(tenant, r);
    var lease := LeaseOf(tenant, r);
    l.(owners := l.owners[key := (lease, runner)],
       state := l.state[key := Accepted],
       rejected := l.rejected - {key},
       bytes := l.bytes[(tenant, r.chunk) := StoredBytes(l.bytes, tenant, r.chunk) + r.size],
       segments := l.segments[lease := Filed(RetainedIn(l.segments, lease), r)])
  }

  datatype List = Applied | Already | Capped | Refused

  datatype Acks = Acks(applied: seq<int>, already: seq<int>, capped: seq<int>, refused: seq<int>)

  const NO_ACKS := Acks([], [], [], [])

  function AckIn(a: Acks, list: List, seqNo: int): Acks
  {
    match list
    case Applied => a.(applied := a.applied + [seqNo])
    case Already => a.(already := a.already + [seqNo])
    case Capped => a.(capped := a.capped + [seqNo])
    case Refused => a.(refused := a.refused + [seqNo])
  }

  /** A batch under way: the ledger, the runner's mark and the acknowledgement lists so far. */
  datatype Batch = Batch(ledger: Ledger, mark: int, acks: Acks)

  predicate Decided(l: Ledger, key: Key, verdict: Verdict)
  {
    key in l.state && l.state[key] == verdict
  }

  /** Where a record is acknowledged: refused, replayed, accepted before, over a cap, or newly accepted. */
  function Destination(b: Batch, tenant: string, runner: string, owners: EpochOwners, r: Record): List
  {
    if !ShipsFromHolder(owners, tenant, runner, r) then Refused
    else if r.seqNo <= b.mark then (if Decided(b.ledger, KeyOf(tenant, r), Rejected) then Capped else Already)
    else if Decided(b.ledger, KeyOf(tenant, r), Accepted) then Applied
    else if OverCap(b.ledger, tenant, r) then Capped
    else Applied
  }

  /** The ledger changes only for a fresh seq from the epoch's holder under a key not accepted before. */
  function Decide(b: Batch, tenant: string, runner: string, owners: EpochOwners, r: Record): Ledger
  {
    if !ShipsFromHolder(owners, tenant, runner, r) || r.seqNo <= b.mark
       || Decided(b.ledger, KeyOf(tenant, r), Accepted) then b.ledger
    else if OverCap(b.ledger, tenant, r) then Cap(b.ledger, tenant, runner, r)
    else Accept(b.ledger, tenant, runner, r)
  }

  function TakeRecord(b: Batch, tenant: string, runner: string, owners: EpochOwners, r: Record): Batch
  {
    Batch(Decide(b, tenant, runner, owners, r),
          Max(b.mark, r.seqNo),
          AckIn(b.acks, Destination(b, tenant, runner, owners, r), r.seqNo))
  }

  function TakeRecords(b: Batch, tenant: string, runner: string, owners: EpochOwners, records: seq<Record>): Batch
  {
    if records == [] then b
    else TakeRecord(TakeRecords(b, tenant, runner, owners, records[..|records| - 1]),
                    tenant, runner, owners, records[|records| - 1])
  }

  const BY_SEQ: (Record, Record) -> bool := (r: Record, s: Record) => r.seqNo <= s.seqNo

  function MarkOf(l: Ledger, runner: string): int
  {
    if runner in l.marks then l.marks[runner] else 0
  }

  function Start(l: Ledger, runner: string): Batch
  {
    Batch(l, MarkOf(l, runner), NO_ACKS)
  }

  function Shipped(l: Ledger, tenant: string, runner: string, owners: EpochOwners, records: seq<Record>): Batch
  {
    TakeRecords(Start(l, runner), tenant, runner, owners, Sort(records, BY_SEQ))
  }

  function Ingested(l: Ledger, tenant: string, runner: string, owners: EpochOwners, records: seq<Record>): Ledger
  {
    var b := Shipped(l, tenant, runner, owners, records);
    b.ledger.(marks := b.ledger.marks[runner := b.mark])
  }

  // ----- conservation

  function Bytes(records: seq<Record>): nat
  {
    if records == [] then 0 else Bytes(records[..|records| - 1]) + records[|records| - 1].size
  }

  /** The leases of one chunk that hold records. */
  ghost function LeasesOf(l: Ledger, tenant: string, chunk: string): set<Lease>
  {
    set lease | lease in l.segments && lease.0 == tenant && lease.1 == chunk
  }

  ghost function BytesOver(segments: map<Lease, seq<Record>>, leases: set<Lease>): nat
    requires leases <= segments.Keys
  {
    if leases == {} then 0
    else
      var lease :| lease in leases;
      Bytes(segments[lease]) + BytesOver(segments, leases - {lease})
  }

  /** The summed sizes of everything retained for a chunk. */
  ghost function RetainedBytes(l: Ledger, tenant: string, chunk: string): nat
  {
    BytesOver(l.segments, LeasesOf(l, tenant, chunk))
  }

  ghost predicate SameKey(r: Record, s: Record)
  {
    r.segment == s.segment && r.turnStart == s.turnStart
  }

  /** No two positions hold the same natural key. */
  ghost predicate KeysDistinct(records: seq<Record>)
  {
    forall i, j :: 0 <= i < j < |records| ==> !SameKey(records[i], records[j])
  }

  /** A lease retains exactly accepted records of its own, under keys it owns. */
  ghost predicate LeaseFiled(l: Ledger, lease: Lease)
    requires lease in l.segments
  {
    && KeysDistinct(l.segments[lease])
    && forall r :: r in l.segments[lease] ==>
         && LeaseOf(lease.0, r) == lease
         && Decided(l, KeyOf(lease.0, r), Accepted)
         && KeyOf(lease.0, r) in l.owners && l.owners[KeyOf(lease.0, r)].0 == lease
  }

  /** The key tables describe the same keys: every decided key has an owner, exactly the rejected ones are kept
      as rejections, and an accepted one is retained by the lease that owns it. */
  ghost predicate KeysAgree(l: Ledger)
  {
    && l.owners.Keys == l.state.Keys
    && (forall k :: k in l.rejected <==> Decided(l, k, Rejected))
    && (forall k :: k in l.rejected ==> KeyOf(k.0, l.rejected[k]) == k && Bare(l.rejected[k]) == l.rejected[k])
    && (forall k :: Decided(l, k, Accepted) ==>
          exists r :: r in RetainedIn(l.segments, l.owners[k].0) && KeyOf(k.0, r) == k)
    && (forall k :: k in l.owners ==> l.owners[k].0.0 == k.0)
  }

  ghost predicate Balanced(l: Ledger)
  {
    && KeysAgree(l)
    && (forall lease :: lease in l.segments ==> LeaseFiled(l, lease))
    && forall tenant, chunk ::
         StoredBytes(l.bytes, tenant, chunk) == RetainedBytes(l, tenant, chunk) &&
         StoredBytes(l.bytes, tenant, chunk) <= CHUNK_BUDGET_BYTES
  }

  /** The sum does not depend on which lease is counted first. */
  lemma {:induction false} BytesOverSplit(segments: map<Lease, seq<Record>>, leases: set<Lease>, lease: Lease)
    requires leases <= segments.Keys && lease in leases
    ensures BytesOver(segments, leases) == Bytes(segments[lease]) + BytesOver(segments, leases - {lease})
    decreases leases
  {
    var first :| first in leases
      && BytesOver(segments, leases) == Bytes(segments[first]) + BytesOver(segments, leases - {first});
    if first != lease {
      BytesOverSplit(segments, leases - {first}, lease);
      BytesOverSplit(segments, leases - {lease}, first);
      assert leases - {first} - {lease} == leases - {lease} - {first};
    }
  }

  /** Leases that hold the same records sum to the same bytes. */
  lemma {:induction false} BytesOverSame(a: map<Lease, seq<Record>>, b: map<Lease, seq<Record>>, leases: set<Lease>)
    requires leases <= a.Keys && leases <= b.Keys
    requires forall lease :: lease in leases ==> a[lease] == b[lease]
    ensures BytesOver(a, leases) == BytesOver(b, leases)
    decreases leases
  {
    if leases != {} {
      var lease :| lease in leases;
      BytesOverSplit(a, leases, lease);
      BytesOverSplit(b, leases, lease);
      BytesOverSame(a, b, leases - {lease});
    }
  }

  /** Changing one lease leaves the sum over any others. */
  lemma OthersSumSame(segments: map<Lease, seq<Record>>, lease: Lease, grown: seq<Record>, leases: set<Lease>)
    requires leases <= segments.Keys && lease !in leases
    ensures BytesOver(segments[lease := grown], leases) == BytesOver(segments, leases)
  {
    BytesOverSame(segments, segments[lease := grown], leases);
  }

  lemma BytesOfOneMore(records: seq<Record>, r: Record)
    ensures Bytes(records + [r]) == Bytes(records) + r.size
  {
    assert (records + [r])[..|records|] == records;
  }

  /** Growing one lease grows the sum of every set that holds it by the same amount. */
  lemma GrownSum(segments: map<Lease, seq<Record>>, lease: Lease, r: Record, leases: set<Lease>)
    requires leases <= segments.Keys && lease in leases
    ensures BytesOver(segments[lease := segments[lease] + [r]], leases) == BytesOver(segments, leases) + r.size
  {
    var grown := segments[lease] + [r];
    BytesOfOneMore(segments[lease], r);
    BytesOverSplit(segments, leases, lease);
    BytesOverSplit(segments[lease := grown], leases, lease);
    OthersSumSame(segments, lease, grown, leases - {lease});
  }

  /** So does a lease that is new. */
  lemma NewSum(segments: map<Lease, seq<Record>>, lease: Lease, r: Record, leases: set<Lease>)
    requires leases <= segments.Keys && lease !in leases
    ensures BytesOver(segments[lease := [r]], leases + {lease}) == BytesOver(segments, leases) + r.size
  {
    BytesOfOneMore([], r);
    assert [] + [r] == [r];
    BytesOverSplit(segments[lease := [r]], leases + {lease}, lease);
    assert leases + {lease} - {lease} == leases;
    OthersSumSame(segments, lease, [r], leases);
  }

  lemma AcceptAddsBytes(l: Ledger, lease: Lease, r: Record, tenant: string, chunk: string)
    ensures
      var l' := l.(segments := l.segments[lease := RetainedIn(l.segments, lease) + [r]]);
      RetainedBytes(l', tenant, chunk) ==
      RetainedBytes(l, tenant, chunk) + if (lease.0, lease.1) == (tenant, chunk) then r.size else 0
  {
    var grown := RetainedIn(l.segments, lease) + [r];
    var l' := l.(segments := l.segments[lease := grown]);
    var before, after := LeasesOf(l, tenant, chunk), LeasesOf(l', tenant, chunk);
    if (lease.0, lease.1) != (tenant, chunk) {
      assert after == before;
      OthersSumSame(l.segments, lease, grown, before);
    } else if lease in l.segments {
      assert after == before;
      GrownSum(l.segments, lease, r, before);
    } else {
      assert after == before + {lease} && grown == [r];
      NewSum(l.segments, lease, r, before);
    }
  }

  /** A key that no record holds yet is appended. */
  lemma {:induction false} FiledAppends(records: seq<Record>, r: Record)
    requires forall s :: s in records ==> !SameKey(s, r)
    ensures Filed(records, r) == records + [r]
  {
    if records != [] {
      assert records[0] in records;
      FiledAppends(records[1..], r);
      assert records == [records[0]] + records[1..];
    }
  }

  lemma UndecidedIsNotRetained(l: Ledger, tenant: string, r: Record)
    requires Balanced(l) && !Decided(l, KeyOf(tenant, r), Accepted)
    ensures forall s :: s in RetainedIn(l.segments, LeaseOf(tenant, r)) ==> !SameKey(s, r)
    ensures Accept(l, tenant, "", r).segments ==
            l.segments[LeaseOf(tenant, r) := RetainedIn(l.segments, LeaseOf(tenant, r)) + [r]]
  {
    var lease := LeaseOf(tenant, r);
    if lease in l.segments {
      assert LeaseFiled(l, lease);
    }
    FiledAppends(RetainedIn(l.segments, lease), r);
  }

  lemma CapKeepsKeys(l: Ledger, tenant: string, runner: string, r: Record)
    requires KeysAgree(l) && !Decided(l, KeyOf(tenant, r), Accepted)
    ensures KeysAgree(Cap(l, tenant, runner, r))
  {
    var l', key := Cap(l, tenant, runner, r), KeyOf(tenant, r);
    forall k: Key
      ensures k in l'.rejected <==> Decided(l', k, Rejected)
      ensures k in l'.rejected ==> KeyOf(k.0, l'.rejected[k]) == k && Bare(l'.rejected[k]) == l'.rejected[k]
    {
    }
    forall k | Decided(l', k, Accepted)
      ensures exists s :: s in RetainedIn(l'.segments, l'.owners[k].0) && KeyOf(k.0, s) == k
    {
      assert Decided(l, k, Accepted) && l'.owners[k] == l.owners[k];
    }
  }

  lemma CapKeepsBalance(l: Ledger, tenant: string, runner: string, r: Record)
    requires Balanced(l) && !Decided(l, KeyOf(tenant, r), Accepted)
    ensures Balanced(Cap(l, tenant, runner, r))
  {
    var l' := Cap(l, tenant, runner, r);
    CapKeepsKeys(l, tenant, runner, r);
    forall lease | lease in l'.segments
      ensures LeaseFiled(l', lease)
    {
      assert LeaseFiled(l, lease);
    }
    forall t, c
      ensures StoredBytes(l'.bytes, t, c) == RetainedBytes(l', t, c) <= CHUNK_BUDGET_BYTES
    {
      assert LeasesOf(l', t, c) == LeasesOf(l, t, c);
    }
  }

  lemma AcceptKeepsBytes(l: Ledger, tenant: string, runner: string, r: Record, t: string, c: string)
    requires Balanced(l) && !Decided(l, KeyOf(tenant, r), Accepted) && !OverCap(l, tenant, r)
    ensures
      var l' := Accept(l, tenant, runner, r);
      StoredBytes(l'.bytes, t, c) == RetainedBytes(l', t, c) <= CHUNK_BUDGET_BYTES
  {
    var lease := LeaseOf(tenant, r);
    UndecidedIsNotRetained(l, tenant, r);
    AcceptAddsBytes(l, lease, r, t, c);
    var grown := l.(segments := l.segments[lease := RetainedIn(l.segments, lease) + [r]]);
    var l' := Accept(l, tenant, runner, r);
    assert l'.segments == grown.segments;
    assert LeasesOf(l', t, c) == LeasesOf(grown, t, c);
    assert StoredBytes(l.bytes, t, c) == RetainedBytes(l, t, c);
  }

  lemma AcceptFilesLease(l: Ledger, tenant: string, runner: string, r: Record, lease: Lease)
    requires Balanced(l) && !Decided(l, KeyOf(tenant, r), Accepted)
    requires lease in Accept(l, tenant, runner, r).segments
    ensures LeaseFiled(Accept(l, tenant, runner, r), lease)
  {
    UndecidedIsNotRetained(l, tenant, r);
    if lease in l.segments {
      assert LeaseFiled(l, lease);
    }
  }

  lemma AcceptRetains(l: Ledger, tenant: string, runner: string, r: Record, k: Key)
    requires Balanced(l) && !Decided(l, KeyOf(tenant, r), Accepted)
    requires Decided(Accept(l, tenant, runner, r), k, Accepted)
    ensures
      var l' := Accept(l, tenant, runner, r);
      k in l'.owners && exists s :: s in RetainedIn(l'.segments, l'.owners[k].0) && KeyOf(k.0, s) == k
  {
    var l' := Accept(l, tenant, runner, r);
    UndecidedIsNotRetained(l, tenant, r);
    if k == KeyOf(tenant, r) {
      assert r in RetainedIn(l'.segments, l'.owners[k].0);
    } else {
      var s :| s in RetainedIn(l.segments, l.owners[k].0) && KeyOf(k.0, s) == k;
      assert s in RetainedIn(l'.segments, l'.owners[k].0);
    }
  }

  lemma AcceptKeepsKeys(l: Ledger, tenant: string, runner: string, r: Record)
    requires Balanced(l) && !Decided(l, KeyOf(tenant, r), Accepted)
    ensures KeysAgree(Accept(l, tenant, runner, r))
  {
    var l' := Accept(l, tenant, runner, r);
    forall k | Decided(l', k, Accepted)
      ensures exists s :: s in RetainedIn(l'.segments, l'.owners[k].0) && KeyOf(k.0, s) == k
    {
      AcceptRetains(l, tenant, runner, r, k);
    }
  }

  lemma AcceptKeepsBalance(l: Ledger, tenant: string, runner: string, r: Record)
    requires Balanced(l) && !Decided(l, KeyOf(tenant, r), Accepted) && !OverCap(l, tenant, r)
    ensures Balanced(Accept(l, tenant, runner, r))
  {
    var l' := Accept(l, tenant, runner, r);
    AcceptKeepsKeys(l, tenant, runner, r);
    forall lease | lease in l'.segments
      ensures LeaseFiled(l', lease)
    {
      AcceptFilesLease(l, tenant, runner, r, lease);
    }
    forall t, c
      ensures StoredBytes(l'.bytes, t, c) == RetainedBytes(l', t, c) <= CHUNK_BUDGET_BYTES
    {
      AcceptKeepsBytes(l, tenant, runner, r, t, c);
    }
  }

  /** Everything retained stays, unaltered and in place. */
  ghost predicate Grows(l: Ledger, l': Ledger)
  {
    forall lease :: RetainedIn(l.segments, lease) <= RetainedIn(l'.segments, lease)
  }

  lemma TakeRecordKeepsBalance(b: Batch, tenant: string, runner: string, owners: EpochOwners, r: Record)
    requires Balanced(b.ledger)
    ensures Balanced(TakeRecord(b, tenant, runner, owners, r).ledger)
    ensures Grows(b.ledger, TakeRecord(b, tenant, runner, owners, r).ledger)
  {
    if !Decided(b.ledger, KeyOf(tenant, r), Accepted) {
      CapKeepsBalance(b.ledger, tenant, runner, r);
      UndecidedIsNotRetained(b.ledger, tenant, r);
      if !OverCap(b.ledger, tenant, r) {
        AcceptKeepsBalance(b.ledger, tenant, runner, r);
      }
    }
  }

  lemma {:induction false} BatchKeepsBalance(b: Batch, tenant: string, runner: string, owners: EpochOwners,
                                             records: seq<Record>)
    requires Balanced(b.ledger)
    ensures Balanced(TakeRecords(b, tenant, runner, owners, records).ledger)
    ensures Grows(b.ledger, TakeRecords(b, tenant, runner, owners, records).ledger)
  {
    if records != [] {
      var some, last := records[..|records| - 1], records[|records| - 1];
      BatchKeepsBalance(b, tenant, runner, owners, some);
      TakeRecordKeepsBalance(TakeRecords(b, tenant, runner, owners, some), tenant, runner, owners, last);
    }
  }

  lemma MarksDoNotMatter(l: Ledger, marks: map<string, int>)
    requires Balanced(l)
    ensures Balanced(l.(marks := marks)) && Grows(l, l.(marks := marks))
  {
    var l' := l.(marks := marks);
    forall lease | lease in l'.segments
      ensures LeaseFiled(l', lease)
    {
      assert LeaseFiled(l, lease);
    }
    forall t, c
      ensures StoredBytes(l'.bytes, t, c) == RetainedBytes(l', t, c) <= CHUNK_BUDGET_BYTES
    {
      assert LeasesOf(l', t, c) == LeasesOf(l, t, c);
    }
  }

  lemma IngestKeepsBalance(l: Ledger, tenant: string, runner: string, owners: EpochOwners, records: seq<Record>)
    requires Balanced(l)
    ensures Balanced(Ingested(l, tenant, runner, owners, records))
    ensures Grows(l, Ingested(l, tenant, runner, owners, records))
  {
    BatchKeepsBalance(Start(l, runner), tenant, runner, owners, Sort(records, BY_SEQ));
    var b := Shipped(l, tenant, runner, owners, records);
    MarksDoNotMatter(b.ledger, b.ledger.marks[runner := b.mark]);
  }

  // ----- runs

  /** One push, with the epoch owners as the fact lane has them at that moment. */
  datatype Push = Push(tenant: string, runner: string, owners: EpochOwners, records: seq<Record>)

  function AfterPush(l: Ledger, p: Push): Ledger
  {
    Ingested(l, p.tenant, p.runner, p.owners, p.records)
  }

  function LedgerAt(pushes: seq<Push>, k: nat): Ledger
    requires k <= |pushes|
  {
    if k == 0 then EMPTY_LEDGER else AfterPush(LedgerAt(pushes, k - 1), pushes[k - 1])
  }

  /** The ledgers of a run, from the empty one on. */
  ghost function LedgersOver(pushes: seq<Push>): seq<Ledger>
  {
    seq(|pushes| + 1, i requires 0 <= i <= |pushes| => LedgerAt(pushes, i))
  }

  lemma EmptyIsBalanced()
    ensures Balanced(EMPTY_LEDGER)
  {
    forall t, c
      ensures RetainedBytes(EMPTY_LEDGER, t, c) == 0
    {
      assert LeasesOf(EMPTY_LEDGER, t, c) == {};
    }
  }

  /** Conservation: after any pushes by any runners under any epoch owners, a chunk's recorded bytes are the summed
      sizes of what is retained for it and within budget, and the key tables agree. */
  lemma EveryLedgerIsBalanced(pushes: seq<Push>, k: nat)
    requires k <= |pushes|
    ensures Balanced(LedgerAt(pushes, k))
  {
    EmptyIsBalanced();
    BalancedAlong(LedgersOver(pushes), pushes, k);
  }

  lemma {:induction false} BalancedAlong(ledgers: seq<Ledger>, pushes: seq<Push>, k: nat)
    requires |ledgers| == |pushes| + 1 && k <= |pushes| && Balanced(ledgers[0])
    requires forall i :: 0 <= i < |pushes| ==> ledgers[i + 1] == AfterPush(ledgers[i], pushes[i])
    ensures Balanced(ledgers[k])
  {
    if k > 0 {
      BalancedAlong(ledgers, pushes, k - 1);
      PushKeepsBalance(ledgers[k - 1], pushes[k - 1]);
      assert ledgers[k - 1 + 1] == AfterPush(ledgers[k - 1], pushes[k - 1]);
    }
  }

  lemma PushKeepsBalance(l: Ledger, p: Push)
    requires Balanced(l)
    ensures Balanced(AfterPush(l, p)) && Grows(l, AfterPush(l, p))
  {
    IngestKeepsBalance(l, p.tenant, p.runner, p.owners, p.records);
  }

  lemma EachPushGrows(pushes: seq<Push>, i: nat)
    requires i < |pushes|
    ensures Grows(LedgersOver(pushes)[i], LedgersOver(pushes)[i + 1])
  {
    EveryLedgerIsBalanced(pushes, i);
    PushKeepsBalance(LedgerAt(pushes, i), pushes[i]);
  }

  /** Over every run nothing retained is ever lost, altered or moved. */
  lemma RetainedForever(pushes: seq<Push>, j: nat, k: nat)
    requires j <= k <= |pushes|
    ensures Grows(LedgerAt(pushes, j), LedgerAt(pushes, k))
  {
    var ledgers := LedgersOver(pushes);
    forall i | 0 <= i < |ledgers| - 1
      ensures Grows(ledgers[i], ledgers[i + 1])
    {
      EachPushGrows(pushes, i);
    }
    GrowsAlong(ledgers, j, k);
  }

  lemma {:induction false} GrowsAlong(ledgers: seq<Ledger>, j: nat, k: nat)
    requires j <= k < |ledgers|
    requires forall i :: 0 <= i < |ledgers| - 1 ==> Grows(ledgers[i], ledgers[i + 1])
    ensures Grows(ledgers[j], ledgers[k])
    decreases k
  {
    if j < k {
      GrowsAlong(ledgers, j, k - 1);
      assert Grows(ledgers[k - 1], ledgers[k - 1 + 1]);
      GrowthComposes(ledgers[j], ledgers[k - 1], ledgers[k]);
    } else {
      NothingLost(ledgers[j]);
    }
  }

  lemma NothingLost(l: Ledger)
    ensures Grows(l, l)
  {
  }

  lemma GrowthComposes(a: Ledger, b: Ledger, c: Ledger)
    requires Grows(a, b) && Grows(b, c)
    ensures Grows(a, c)
  {
    forall lease: Lease
      ensures RetainedIn(a.segments, lease) <= RetainedIn(c.segments, lease)
    {
      assert RetainedIn(a.segments, lease) <= RetainedIn(b.segments, lease) <= RetainedIn(c.segments, lease);
    }
  }

  /** Each natural key is retained in one place only, whatever lease or position it is looked for under. */
  lemma KeyIsRetainedOnce(l: Ledger, a: Lease, i: nat, b: Lease, j: nat)
    requires Balanced(l) && a in l.segments && b in l.segments && i < |l.segments[a]| && j < |l.segments[b]|
    requires KeyOf(a.0, l.segments[a][i]) == KeyOf(b.0, l.segments[b][j])
    ensures a == b && i == j
  {
    assert LeaseFiled(l, a) && LeaseFiled(l, b);
    assert l.segments[a][i] in l.segments[a] && l.segments[b][j] in l.segments[b];
  }

  // ----- what a batch acknowledges

  const SEQ_OF: Record -> int := (r: Record) => r.seqNo

  /** How often a list names `n`. */
  function Occurrences(s: seq<int>, n: int): nat
  {
    if s == [] then 0 else Occurrences(s[..|s| - 1], n) + if s[|s| - 1] == n then 1 else 0
  }

  lemma OneMore(s: seq<int>, x: int, n: int)
    ensures Occurrences(s + [x], n) == Occurrences(s, n) + if x == n then 1 else 0
  {
    assert (s + [x])[..|s|] == s;
  }

  /** How often the acknowledgement lists together name a seq. */
  function Acknowledged(a: Acks, n: int): nat
  {
    Occurrences(a.applied, n) + Occurrences(a.already, n) + Occurrences(a.capped, n) + Occurrences(a.refused, n)
  }

  lemma AckedOnce(a: Acks, list: List, seqNo: int, n: int)
    ensures Acknowledged(AckIn(a, list, seqNo), n) == Acknowledged(a, n) + if n == seqNo then 1 else 0
  {
    OneMore(a.applied, seqNo, n);
    OneMore(a.already, seqNo, n);
    OneMore(a.capped, seqNo, n);
    OneMore(a.refused, seqNo, n);
  }

  ghost predicate IsMaximum(m: int, start: int, seqs: seq<int>)
  {
    start <= m && (forall n :: n in seqs ==> n <= m) && (m == start || m in seqs)
  }

  /** Every record of a batch lands in exactly one list: the lists name each seq as often as the batch does. */
  lemma {:induction false} BatchIsAcknowledged(b: Batch, tenant: string, runner: string, owners: EpochOwners,
                                               records: seq<Record>, n: int)
    ensures Acknowledged(TakeRecords(b, tenant, runner, owners, records).acks, n) ==
            Acknowledged(b.acks, n) + Occurrences(Each(records, SEQ_OF), n)
  {
    if records == [] {
      assert Each(records, SEQ_OF) == [];
    } else {
      var some, last := records[..|records| - 1], records[|records| - 1];
      BatchIsAcknowledged(b, tenant, runner, owners, some, n);
      var b' := TakeRecords(b, tenant, runner, owners, some);
      AckedOnce(b'.acks, Destination(b', tenant, runner, owners, last), last.seqNo, n);
      assert Each(records, SEQ_OF)[..|some|] == Each(some, SEQ_OF);
    }
  }

  /** So a push as a whole names every seq in its lists as often as it carries it. */
  lemma PushIsAcknowledged(l: Ledger, tenant: string, runner: string, owners: EpochOwners, records: seq<Record>, n: int)
    ensures Acknowledged(Shipped(l, tenant, runner, owners, records).acks, n) == Occurrences(Each(records, SEQ_OF), n)
  {
    BatchIsAcknowledged(Start(l, runner), tenant, runner, owners, Sort(records, BY_SEQ), n);
    SortKeepsOccurrences(records, n);
  }

  /** The mark ends at the greatest seq seen, refused and capped ones included. */
  lemma {:induction false} MarkEndsAtMaximum(b: Batch, tenant: string, runner: string, owners: EpochOwners,
                                             records: seq<Record>)
    ensures IsMaximum(TakeRecords(b, tenant, runner, owners, records).mark, b.mark, Each(records, SEQ_OF))
  {
    if records != [] {
      var some, last := records[..|records| - 1], records[|records| - 1];
      MarkEndsAtMaximum(b, tenant, runner, owners, some);
      assert Each(records, SEQ_OF) == Each(some, SEQ_OF) + [last.seqNo];
    }
  }

  /** A record under the key is retained by the lease that owns it. */
  ghost predicate RetainedUnder(l: Ledger, key: Key)
  {
    key in l.owners && exists s :: s in RetainedIn(l.segments, l.owners[key].0) && KeyOf(key.0, s) == key
  }

  /** No table knows the key and no lease holds a record under it. */
  ghost predicate NowhereHeld(l: Ledger, key: Key)
  {
    && key !in l.state && key !in l.owners && key !in l.rejected
    && forall lease :: lease in l.segments ==> forall s :: s in l.segments[lease] ==> KeyOf(lease.0, s) != key
  }

  lemma UndecidedIsNowhere(l: Ledger, key: Key)
    requires Balanced(l)
    ensures key in l.state && !Decided(l, key, Rejected) ==> RetainedUnder(l, key)
    ensures key !in l.state ==> NowhereHeld(l, key)
  {
    forall lease | lease in l.segments
      ensures key !in l.state ==> forall s :: s in l.segments[lease] ==> KeyOf(lease.0, s) != key
    {
      assert LeaseFiled(l, lease);
    }
    if key in l.state && !Decided(l, key, Rejected) {
      assert Decided(l, key, Accepted);
    }
  }

  /** What each list says of a record's key. Applied: accepted and retained. Capped: rejected and kept bare. Already:
      nothing has changed, and the record is accepted and retained exactly if its key was ever decided; if not, no
      table holds it and it is lost. Refused: nothing has changed and another runner owns the epoch. */
  lemma ListReportsVerdict(b: Batch, tenant: string, runner: string, owners: EpochOwners, r: Record)
    requires Balanced(b.ledger)
    ensures
      var l', key := TakeRecord(b, tenant, runner, owners, r).ledger, KeyOf(tenant, r);
      match Destination(b, tenant, runner, owners, r)
      case Applied => Decided(l', key, Accepted) && RetainedUnder(l', key)
      case Capped => Decided(l', key, Rejected) && key in l'.rejected
      case Already =>
        && l' == b.ledger
        && (key in l'.state <==> RetainedUnder(l', key)) && (key !in l'.state <==> NowhereHeld(l', key))
      case Refused => l' == b.ledger && !ShipsFromHolder(owners, tenant, runner, r)
  {
    TakeRecordKeepsBalance(b, tenant, runner, owners, r);
    UndecidedIsNowhere(TakeRecord(b, tenant, runner, owners, r).ledger, KeyOf(tenant, r));
  }

  function SmallRecord(seqNo: int, segment: string): Record
  {
    Record(seqNo, segment, 0, "c", "n", 1, 0, None, false, [], 2)
  }

  /** Such a loss: a record that arrives under a lower seq than one already seen is acknowledged as applied before and
      stored nowhere. */
  lemma LateRecordIsLost()
    ensures
      var pushes := [Push("t", "r", map[], [SmallRecord(5, "a")]), Push("t", "r", map[], [SmallRecord(3, "b")])];
      && Shipped(LedgerAt(pushes, 1), "t", "r", map[], pushes[1].records).acks == NO_ACKS.(already := [3])
      && NowhereHeld(LedgerAt(pushes, 2), KeyOf("t", SmallRecord(3, "b")))
  {
    var pushes := [Push("t", "r", map[], [SmallRecord(5, "a")]), Push("t", "r", map[], [SmallRecord(3, "b")])];
    var first, late := SmallRecord(5, "a"), SmallRecord(3, "b");
    OneRecordShips(EMPTY_LEDGER, "t", "r", map[], first);
    var l1 := LedgerAt(pushes, 1);
    assert LedgerAt(pushes, 0) == EMPTY_LEDGER;
    assert KeyOf("t", first) != KeyOf("t", late);
    assert MarkOf(l1, "r") == 5 && l1.state == map[KeyOf("t", first) := Accepted];
    OneRecordShips(l1, "t", "r", map[], late);
    EveryLedgerIsBalanced(pushes, 2);
    assert LedgerAt(pushes, 2).state == l1.state;
    UndecidedIsNowhere(LedgerAt(pushes, 2), KeyOf("t", late));
  }

  lemma OneRecordShips(l: Ledger, tenant: string, runner: string, owners: EpochOwners, r: Record)
    ensures Shipped(l, tenant, runner, owners, [r]) == TakeRecord(Start(l, runner), tenant, runner, owners, r)
  {
    var one := [r];
    assert one[1..] == [] && Sort(one[1..], BY_SEQ) == [];
    assert Sort(one, BY_SEQ) == one;
    assert one[..0] == [] && TakeRecords(Start(l, runner), tenant, runner, owners, one[..0]) == Start(l, runner);
  }

  /** A record from the epoch's holder, under a fresh seq and a key not accepted before, is retained, as it came and
      behind what its lease already has, exactly if it is at most 10 MiB and fits, with all that is retained for its
      chunk, into 64 MiB. Else everything retained stays and the record is kept without its turns. */
  lemma FreshRecordExactly(b: Batch, tenant: string, runner: string, owners: EpochOwners, r: Record)
    requires Balanced(b.ledger) && b.mark < r.seqNo && !Decided(b.ledger, KeyOf(tenant, r), Accepted)
    requires (tenant, r.chunk, r.epoch) in owners ==> owners[(tenant, r.chunk, r.epoch)] == runner
    ensures
      var l, b' := b.ledger, TakeRecord(b, tenant, runner, owners, r);
      var key, lease := (tenant, r.segment, r.turnStart), (tenant, r.chunk, r.node, r.epoch);
      && key in b'.ledger.owners && b'.ledger.owners[key] == (lease, runner)
      && if r.size <= 10_485_760 && RetainedBytes(l, tenant, r.chunk) + r.size <= 67_108_864 then
           && b'.ledger.segments == l.segments[lease := RetainedIn(l.segments, lease) + [r]]
           && RetainedBytes(b'.ledger, tenant, r.chunk) == RetainedBytes(l, tenant, r.chunk) + r.size
           && b'.acks == b.acks.(applied := b.acks.applied + [r.seqNo]) && key !in b'.ledger.rejected
         else
           && b'.ledger.segments == l.segments && b'.acks == b.acks.(capped := b.acks.capped + [r.seqNo])
           && key in b'.ledger.rejected && b'.ledger.rejected[key] == r.(turns := [], size := 0)
  {
    var l := b.ledger;
    UndecidedIsNotRetained(l, tenant, r);
    assert StoredBytes(l.bytes, tenant, r.chunk) == RetainedBytes(l, tenant, r.chunk);
    TakeRecordKeepsBalance(b, tenant, runner, owners, r);
    var l' := TakeRecord(b, tenant, runner, owners, r).ledger;
    assert StoredBytes(l'.bytes, tenant, r.chunk) == RetainedBytes(l', tenant, r.chunk);
  }

  /** Every other record leaves the ledger: another runner's epoch is refused, an old seq is acknowledged as capped if
      its key stands rejected and else as old, and a fresh seq under an accepted key as applied. */
  lemma OtherRecordsExactly(b: Batch, tenant: string, runner: string, owners: EpochOwners, r: Record)
    ensures
      var b', key := TakeRecord(b, tenant, runner, owners, r), (tenant, r.segment, r.turnStart);
      var refused := (tenant, r.chunk, r.epoch) in owners && owners[(tenant, r.chunk, r.epoch)] != runner;
      && (refused ==> b'.ledger == b.ledger && b'.acks == b.acks.(refused := b.acks.refused + [r.seqNo]))
      && (!refused && r.seqNo <= b.mark && key in b.ledger.state && b.ledger.state[key] == Rejected ==>
          b'.ledger == b.ledger && b'.acks == b.acks.(capped := b.acks.capped + [r.seqNo]))
      && (!refused && r.seqNo <= b.mark && !(key in b.ledger.state && b.ledger.state[key] == Rejected) ==>
          b'.ledger == b.ledger && b'.acks == b.acks.(already := b.acks.already + [r.seqNo]))
      && (!refused && r.seqNo > b.mark && key in b.ledger.state && b.ledger.state[key] == Accepted ==>
          b'.ledger == b.ledger && b'.acks == b.acks.(applied := b.acks.applied + [r.seqNo]))
  {
  }

  /** Within a batch nothing is overtaken: a seq is acknowledged as old only if the mark had passed it before the batch,
      or the batch carries it more than once. */
  lemma BatchOvertakesNothing(l: Ledger, tenant: string, runner: string, owners: EpochOwners, records: seq<Record>,
                              n: int)
    requires n in Shipped(l, tenant, runner, owners, records).acks.already
    ensures n <= MarkOf(l, runner) || Occurrences(Each(records, SEQ_OF), n) >= 2
  {
    assert TotalPreorder(BY_SEQ);
    SortSorts(records, BY_SEQ);
    AlreadyIsOldOrTwice(Start(l, runner), tenant, runner, owners, Sort(records, BY_SEQ), n);
    SortKeepsOccurrences(records, n);
  }

  lemma OneAheadOf(r: Record, s: seq<Record>, n: int)
    ensures Occurrences(Each([r] + s, SEQ_OF), n) == Occurrences(Each(s, SEQ_OF), n) + if r.seqNo == n then 1 else 0
  {
    assert Each([r] + s, SEQ_OF) == [r.seqNo] + Each(s, SEQ_OF);
    OneAhead(r.seqNo, Each(s, SEQ_OF), n);
  }

  lemma {:induction false} InsertKeepsOccurrences(x: Record, s: seq<Record>, n: int)
    ensures Occurrences(Each(Insert(x, s, BY_SEQ), SEQ_OF), n) ==
            Occurrences(Each(s, SEQ_OF), n) + if x.seqNo == n then 1 else 0
  {
    OneAheadOf(x, s, n);
    if s != [] {
      InsertKeepsOccurrences(x, s[1..], n);
      assert s == [s[0]] + s[1..];
      OneAheadOf(s[0], s[1..], n);
      OneAheadOf(s[0], Insert(x, s[1..], BY_SEQ), n);
    } else {
      assert [x] + s == [x];
    }
  }

  lemma {:induction false} OneAhead(x: int, s: seq<int>, n: int)
    ensures Occurrences([x] + s, n) == Occurrences(s, n) + if x == n then 1 else 0
  {
    if s == [] {
      assert [x] + s == [] + [x];
      OneMore([], x, n);
    } else {
      OneAhead(x, s[..|s| - 1], n);
      assert ([x] + s)[..|s|] == [x] + s[..|s| - 1];
    }
  }

  lemma {:induction false} SortKeepsOccurrences(s: seq<Record>, n: int)
    ensures Occurrences(Each(Sort(s, BY_SEQ), SEQ_OF), n) == Occurrences(Each(s, SEQ_OF), n)
  {
    if s != [] {
      SortKeepsOccurrences(s[1..], n);
      InsertKeepsOccurrences(s[0], Sort(s[1..], BY_SEQ), n);
      assert s == [s[0]] + s[1..];
      OneAheadOf(s[0], s[1..], n);
    }
  }

  lemma {:induction false} AlreadyIsOldOrTwice(b: Batch, tenant: string, runner: string, owners: EpochOwners,
                                               records: seq<Record>, n: int)
    requires SortedBy(BY_SEQ, records) && b.acks.already == []
    requires n in TakeRecords(b, tenant, runner, owners, records).acks.already
    ensures n <= b.mark || Occurrences(Each(records, SEQ_OF), n) >= 2
  {
    if records != [] {
      var some, last := records[..|records| - 1], records[|records| - 1];
      var taken := TakeRecords(b, tenant, runner, owners, some);
      assert Each(records, SEQ_OF)[..|some|] == Each(some, SEQ_OF);
      if n in taken.acks.already {
        AlreadyIsOldOrTwice(b, tenant, runner, owners, some, n);
      } else {
        MarkEndsAtMaximum(b, tenant, runner, owners, some);
        if taken.mark != b.mark {
          SeenBefore(some, last, taken.mark);
          SomeOccurrence(Each(some, SEQ_OF), n);
        }
      }
    }
  }

  lemma SeenBefore(some: seq<Record>, last: Record, m: int)
    requires SortedBy(BY_SEQ, some + [last]) && m in Each(some, SEQ_OF)
    ensures m <= last.seqNo
  {
    var i :| 0 <= i < |some| && some[i].seqNo == m;
    assert BY_SEQ((some + [last])[i], (some + [last])[|some|]);
  }

  lemma {:induction false} SomeOccurrence(s: seq<int>, n: int)
    ensures n in s <==> Occurrences(s, n) >= 1
  {
    if s != [] {
      SomeOccurrence(s[..|s| - 1], n);
    }
  }

  lemma {:induction false} OldSeqsChangeNothing(b: Batch, tenant: string, runner: string, owners: EpochOwners,
                                                records: seq<Record>)
    requires forall r :: r in records ==> r.seqNo <= b.mark
    ensures
      var b' := TakeRecords(b, tenant, runner, owners, records);
      b'.ledger == b.ledger && b'.mark == b.mark && b'.acks.applied == b.acks.applied
  {
    if records != [] {
      OldSeqsChangeNothing(b, tenant, runner, owners, records[..|records| - 1]);
    }
  }

  /** Shipping a batch again, its acknowledgement lost, changes nothing and applies nothing. */
  lemma ReshippingIsInert(l: Ledger, tenant: string, runner: string, owners: EpochOwners, records: seq<Record>)
    ensures
      var l' := Ingested(l, tenant, runner, owners, records);
      && Ingested(l', tenant, runner, owners, records) == l'
      && Shipped(l', tenant, runner, owners, records).acks.applied == []
  {
    var sorted := Sort(records, BY_SEQ);
    var l' := Ingested(l, tenant, runner, owners, records);
    NoneAboveTheMark(Start(l, runner), tenant, runner, owners, sorted);
    OldSeqsChangeNothing(Start(l', runner), tenant, runner, owners, sorted);
    assert l'.marks[runner := MarkOf(l', runner)] == l'.marks;
  }

  lemma NoneAboveTheMark(b: Batch, tenant: string, runner: string, owners: EpochOwners, records: seq<Record>)
    ensures forall r :: r in records ==> r.seqNo <= TakeRecords(b, tenant, runner, owners, records).mark
  {
    MarkEndsAtMaximum(b, tenant, runner, owners, records);
    forall r | r in records
      ensures r.seqNo in Each(records, SEQ_OF)
    {
      var i :| 0 <= i < |records| && records[i] == r;
      assert Each(records, SEQ_OF)[i] == r.seqNo;
    }
  }
}
