/** Reading a lease's transcript back: the same turns whatever order the records arrived in. */
module LeaseRead {
  import opened Options
  import opened Lexical
  import opened Sorting
  import opened Transcripts

  datatype IndexedTurn = IndexedTurn(index: nat, turn: string)

  datatype LeaseView = LeaseView(truncated: bool, turns: seq<IndexedTurn>)

  /** Strictly earlier by (generation, segment, first turn). */
  predicate Earlier(r: Record, s: Record)
  {
    || r.generation < s.generation
    || (r.generation == s.generation && Less(r.segment, s.segment))
    || (r.generation == s.generation && r.segment == s.segment && r.turnStart < s.turnStart)
  }

  const READ_ORDER: (Record, Record) -> bool := (r: Record, s: Record) => !Earlier(s, r)

  /** The capped records of a lease, identities only. */
  function CappedOf(l: Ledger, lease: Lease): set<Record>
  {
    set k | k in l.rejected && k in l.owners && l.owners[k].0 == lease :: l.rejected[k]
  }

  /** A segment some retained or capped record of the lease supersedes. */
  predicate Superseded(l: Ledger, lease: Lease, segment: string)
  {
    var retained := RetainedIn(l.segments, lease);
    || (exists i :: 0 <= i < |retained| && retained[i].supersedes == Some(segment))
    || (exists r :: r in CappedOf(l, lease) && r.supersedes == Some(segment))
  }

  function Visible(l: Ledger, lease: Lease, records: seq<Record>): (v: seq<Record>)
    ensures forall r :: r in v <==> r in records && !Superseded(l, lease, r.segment)
  {
    if records == [] then []
    else
      var rest, last := Visible(l, lease, records[..|records| - 1]), records[|records| - 1];
      if Superseded(l, lease, last.segment) then rest else rest + [last]
  }

  /** The visible records of a lease in reading order. */
  function Ordered(l: Ledger, lease: Lease): seq<Record>
  {
    Sort(Visible(l, lease, RetainedIn(l.segments, lease)), READ_ORDER)
  }

  function Turns(records: seq<Record>): seq<string>
  {
    if records == [] then [] else Turns(records[..|records| - 1]) + records[|records| - 1].turns
  }

  function Numbered(turns: seq<string>): (r: seq<IndexedTurn>)
    ensures |r| == |turns| && forall i :: 0 <= i < |r| ==> r[i] == IndexedTurn(i, turns[i])
  {
    seq(|turns|, i requires 0 <= i < |turns| => IndexedTurn(i, turns[i]))
  }

  /** Something of the lease is missing: a capped record not superseded, or a visible one cut short. */
  predicate Truncated(l: Ledger, lease: Lease)
  {
    || (exists r :: r in CappedOf(l, lease) && !Superseded(l, lease, r.segment))
    || (exists i :: 0 <= i < |Ordered(l, lease)| && Ordered(l, lease)[i].truncated)
  }

  function View(l: Ledger, lease: Lease): LeaseView
  {
    LeaseView(Truncated(l, lease), Numbered(Turns(Ordered(l, lease))))
  }

  /** The read-back's loop: the turns of the ordered records, joined and then renumbered. */
  method ReadLease(l: Ledger, lease: Lease) returns (view: LeaseView)
    ensures view == View(l, lease)
  {
    var records := Ordered(l, lease);
    var turns: seq<string> := [];
    for k := 0 to |records|
      invariant turns == Turns(records[..k])
    {
      assert records[..k + 1][..k] == records[..k];
      turns := turns + records[k].turns;
    }
    assert records[..|records|] == records;
    view := LeaseView(Truncated(l, lease), Numbered(turns));
  }

  // ----- the order has no ties

  lemma ReadOrderIsPreorder()
    ensures TotalPreorder(READ_ORDER)
  {
    forall r: Record, s: Record
      ensures READ_ORDER(r, s) || READ_ORDER(s, r)
    {
      LessIsStrict(r.segment, s.segment);
    }
    forall r: Record, s: Record, t: Record | READ_ORDER(r, s) && READ_ORDER(s, t)
      ensures READ_ORDER(r, t)
    {
      NotEarlierComposes(r, s, t);
    }
  }

  lemma NotEarlierComposes(r: Record, s: Record, t: Record)
    requires !Earlier(s, r) && !Earlier(t, s)
    ensures !Earlier(t, r)
  {
    LessIsTotal(r.segment, s.segment);
    LessIsTotal(s.segment, t.segment);
    if Less(r.segment, s.segment) && Less(s.segment, t.segment) {
      LessIsTransitive(r.segment, s.segment, t.segment);
    }
    LessIsStrict(r.segment, t.segment);
    LessIsStrict(t.segment, t.segment);
  }

  /** Records neither of which is earlier agree in segment and first turn: they have one natural key. */
  lemma TiesShareKey(r: Record, s: Record)
    requires !Earlier(r, s) && !Earlier(s, r)
    ensures SameKey(r, s)
  {
    LessIsTotal(r.segment, s.segment);
  }

  lemma LeaseHasNoTies(l: Ledger, lease: Lease, records: seq<Record>)
    requires Balanced(l) && forall r :: r in records ==> r in RetainedIn(l.segments, lease)
    ensures NoTies(READ_ORDER, records)
  {
    forall r, s | r in records && s in records && READ_ORDER(r, s) && READ_ORDER(s, r)
      ensures r == s
    {
      TiesShareKey(r, s);
      var retained := RetainedIn(l.segments, lease);
      assert LeaseFiled(l, lease);
      var i :| 0 <= i < |retained| && retained[i] == r;
      var j :| 0 <= j < |retained| && retained[j] == s;
      assert i == j;
    }
  }

  lemma {:induction false} VisibleKeepsDistinct(l: Ledger, lease: Lease, records: seq<Record>)
    requires KeysDistinct(records)
    ensures KeysDistinct(Visible(l, lease, records))
  {
    if records != [] {
      var some, last := records[..|records| - 1], records[|records| - 1];
      VisibleKeepsDistinct(l, lease, some);
      forall r | r in some
        ensures !SameKey(r, last)
      {
        var i :| 0 <= i < |some| && some[i] == r;
        assert !SameKey(records[i], last);
      }
    }
  }

  /** Distinct keys and the same members make the same multiset. */
  lemma {:induction false} DistinctCounts(records: seq<Record>, r: Record)
    requires KeysDistinct(records)
    ensures multiset(records)[r] == if r in records then 1 else 0
  {
    if records != [] {
      var some, last := records[..|records| - 1], records[|records| - 1];
      DistinctCounts(some, r);
      assert records == some + [last];
      if r in some {
        var i :| 0 <= i < |some| && some[i] == r;
        assert !SameKey(records[i], last);
      }
    }
  }

  // ----- the two main results

  /** The shape of a read: strictly ordered, exactly the retained records of segments nothing supersedes, each once,
      and turns numbered from zero. */
  lemma ReadIsOrdered(l: Ledger, lease: Lease)
    requires Balanced(l)
    ensures
      var records, view := Ordered(l, lease), View(l, lease);
      && (forall i, j :: 0 <= i < j < |records| ==> Earlier(records[i], records[j]))
      && (forall r :: r in records <==> r in RetainedIn(l.segments, lease) && !Superseded(l, lease, r.segment))
      && |view.turns| == |Turns(records)|
      && (forall i :: 0 <= i < |view.turns| ==> view.turns[i] == IndexedTurn(i, Turns(records)[i]))
  {
    var retained := RetainedIn(l.segments, lease);
    var visible, records := Visible(l, lease, retained), Ordered(l, lease);
    if lease in l.segments {
      assert LeaseFiled(l, lease);
    }
    ReadOrderIsPreorder();
    SortSorts(visible, READ_ORDER);
    forall r
      ensures r in records <==> r in visible
    {
      SameElements(records, visible, r);
    }
    LeaseHasNoTies(l, lease, records);
    VisibleKeepsDistinct(l, lease, retained);
    forall i, j | 0 <= i < j < |records|
      ensures Earlier(records[i], records[j])
    {
      StrictlyAscends(visible, records, i, j);
    }
  }

  lemma StrictlyAscends(visible: seq<Record>, records: seq<Record>, i: nat, j: nat)
    requires KeysDistinct(visible) && multiset(records) == multiset(visible) && SortedBy(READ_ORDER, records)
    requires NoTies(READ_ORDER, records) && i < j < |records|
    ensures Earlier(records[i], records[j])
  {
    DistinctCounts(visible, records[i]);
    if records[i] == records[j] {
      RepeatedCounts(records, i, j);
    }
  }

  lemma RepeatedCounts(records: seq<Record>, i: nat, j: nat)
    requires i < j < |records| && records[i] == records[j]
    ensures multiset(records)[records[i]] >= 2
  {
    var head := records[..j];
    assert records == head + [records[j]] + records[j + 1..];
    assert head[i] in multiset(head);
  }

  /** Two hubs that retain the same records and the same rejections for a lease serve the same transcript. */
  lemma ReadIgnoresArrivalOrder(l: Ledger, m: Ledger, lease: Lease)
    requires Balanced(l) && Balanced(m)
    requires forall r :: r in RetainedIn(l.segments, lease) <==> r in RetainedIn(m.segments, lease)
    requires CappedOf(l, lease) == CappedOf(m, lease)
    ensures View(l, lease) == View(m, lease)
  {
    SameSupersessions(l, m, lease);
    var a, b := Visible(l, lease, RetainedIn(l.segments, lease)), Visible(m, lease, RetainedIn(m.segments, lease));
    DistinctVisible(l, lease);
    DistinctVisible(m, lease);
    forall r
      ensures multiset(a)[r] == multiset(b)[r]
    {
      DistinctCounts(a, r);
      DistinctCounts(b, r);
    }
    assert multiset(a) == multiset(b);
    ReadOrderIsPreorder();
    SortSorts(a, READ_ORDER);
    SortSorts(b, READ_ORDER);
    forall r
      ensures r in Ordered(l, lease) ==> r in RetainedIn(l.segments, lease)
    {
      SameElements(Ordered(l, lease), a, r);
    }
    LeaseHasNoTies(l, lease, Ordered(l, lease));
    SortedIsUnique(Ordered(l, lease), Ordered(m, lease), READ_ORDER);
  }

  lemma SameSupersessions(l: Ledger, m: Ledger, lease: Lease)
    requires forall r :: r in RetainedIn(l.segments, lease) <==> r in RetainedIn(m.segments, lease)
    requires CappedOf(l, lease) == CappedOf(m, lease)
    ensures forall segment :: Superseded(l, lease, segment) == Superseded(m, lease, segment)
  {
    var a, b := RetainedIn(l.segments, lease), RetainedIn(m.segments, lease);
    forall i | 0 <= i < |a|
      ensures exists j :: 0 <= j < |b| && b[j] == a[i]
    {
      assert a[i] in b;
    }
    forall j | 0 <= j < |b|
      ensures exists i :: 0 <= i < |a| && a[i] == b[j]
    {
      assert b[j] in a;
    }
  }

  lemma DistinctVisible(l: Ledger, lease: Lease)
    requires Balanced(l)
    ensures KeysDistinct(Visible(l, lease, RetainedIn(l.segments, lease)))
  {
    if lease in l.segments {
      assert LeaseFiled(l, lease);
    }
    VisibleKeepsDistinct(l, lease, RetainedIn(l.segments, lease));
  }

  // ----- the read, turn by turn

  /** The turns of the first `n` records together. */
  function TurnsBefore(records: seq<Record>, n: nat): nat
    requires n <= |records|
  {
    if n == 0 then 0 else TurnsBefore(records, n - 1) + |records[n - 1].turns|
  }

  lemma {:induction false} TurnsBeforePrefix(records: seq<Record>, m: nat, n: nat)
    requires n <= m <= |records|
    ensures TurnsBefore(records[..m], n) == TurnsBefore(records, n)
  {
    if n > 0 {
      TurnsBeforePrefix(records, m, n - 1);
    }
  }

  /** Turn `t` of record `i` is turn number (all turns of the records before it) + t, and there is no other turn. */
  ghost predicate OneAfterAnother(turns: seq<string>, records: seq<Record>)
  {
    && |turns| == TurnsBefore(records, |records|)
    && forall i, t :: 0 <= i < |records| && 0 <= t < |records[i].turns| ==> TurnIs(turns, records, i, t)
  }

  ghost predicate TurnIs(turns: seq<string>, records: seq<Record>, i: int, t: int)
    requires 0 <= i < |records| && 0 <= t < |records[i].turns|
  {
    TurnsBefore(records, i) + t < |turns| && turns[TurnsBefore(records, i) + t] == records[i].turns[t]
  }

  lemma {:induction false} TurnsAreOneAfterAnother(records: seq<Record>)
    ensures OneAfterAnother(Turns(records), records)
  {
    if records != [] {
      var some, n := records[..|records| - 1], |records| - 1;
      TurnsAreOneAfterAnother(some);
      TurnsBeforePrefix(records, n, n);
      assert TurnsBefore(records, n + 1) == TurnsBefore(records, n) + |records[n].turns|;
      forall i, t | 0 <= i < |records| && 0 <= t < |records[i].turns|
        ensures TurnIs(Turns(records), records, i, t)
      {
        if i < n {
          TurnsBeforePrefix(records, n, i);
          assert some[i] == records[i] && TurnIs(Turns(some), some, i, t);
        }
      }
    }
  }

  /** Some retained record of the lease, or some capped one on record for it, names the segment as superseded. */
  ghost predicate Replaced(l: Ledger, lease: Lease, segment: string)
  {
    || (exists r :: r in RetainedIn(l.segments, lease) && r.supersedes == Some(segment))
    || (exists k :: k in l.rejected && k in l.owners && l.owners[k].0 == lease
                    && l.rejected[k].supersedes == Some(segment))
  }

  lemma ReplacedIsSuperseded(l: Ledger, lease: Lease, segment: string)
    ensures Superseded(l, lease, segment) <==> Replaced(l, lease, segment)
  {
    var retained := RetainedIn(l.segments, lease);
    assert forall r :: r in retained <==> exists i :: 0 <= i < |retained| && retained[i] == r;
    forall k | k in l.rejected && k in l.owners && l.owners[k].0 == lease
      ensures l.rejected[k] in CappedOf(l, lease)
    {
    }
  }

  /** One record comes strictly before another: an earlier generation, then an earlier segment, then earlier turns. */
  ghost predicate ReadsBefore(r: Record, s: Record)
  {
    && r.generation <= s.generation
    && (r.generation == s.generation ==> r.segment == s.segment || Less(r.segment, s.segment))
    && (r.generation == s.generation && r.segment == s.segment ==> r.turnStart < s.turnStart)
  }

  ghost function Texts(turns: seq<IndexedTurn>): (r: seq<string>)
    ensures |r| == |turns| && forall i :: 0 <= i < |r| ==> r[i] == turns[i].turn
  {
    seq(|turns|, i requires 0 <= i < |turns| => turns[i].turn)
  }

  /** What a read serves, without its own terms: of the retained records exactly those whose segment nothing replaced,
      each once in reading order, their turns one after another, numbered from zero; truncated exactly if a capped
      record was not replaced or a served one was cut short. */
  lemma ReadServesExactly(l: Ledger, lease: Lease) returns (records: seq<Record>)
    requires Balanced(l)
    ensures forall r :: r in records <==> r in RetainedIn(l.segments, lease) && !Replaced(l, lease, r.segment)
    ensures forall i, j :: 0 <= i < j < |records| ==> ReadsBefore(records[i], records[j])
    ensures OneAfterAnother(Texts(View(l, lease).turns), records)
    ensures forall x :: 0 <= x < |View(l, lease).turns| ==> View(l, lease).turns[x].index == x
    ensures View(l, lease).truncated <==>
              || (exists r :: r in records && r.truncated)
              || exists k :: k in l.rejected && k in l.owners && l.owners[k].0 == lease
                             && !Replaced(l, lease, l.rejected[k].segment)
  {
    records := Ordered(l, lease);
    ServedRecords(l, lease);
    TruncatedExactly(l, lease);
    TurnsAreOneAfterAnother(records);
    assert Texts(View(l, lease).turns) == Turns(records);
  }

  lemma ServedRecords(l: Ledger, lease: Lease)
    requires Balanced(l)
    ensures
      var records := Ordered(l, lease);
      && (forall r :: r in records <==> r in RetainedIn(l.segments, lease) && !Replaced(l, lease, r.segment))
      && forall i, j :: 0 <= i < j < |records| ==> ReadsBefore(records[i], records[j])
  {
    var records := Ordered(l, lease);
    ReadIsOrdered(l, lease);
    forall r: Record
      ensures Superseded(l, lease, r.segment) <==> Replaced(l, lease, r.segment)
    {
      ReplacedIsSuperseded(l, lease, r.segment);
    }
    forall i, j | 0 <= i < j < |records|
      ensures ReadsBefore(records[i], records[j])
    {
      EarlierReadsBefore(records[i], records[j]);
    }
  }

  lemma EarlierReadsBefore(r: Record, s: Record)
    requires Earlier(r, s)
    ensures ReadsBefore(r, s)
  {
    LessIsStrict(r.segment, s.segment);
  }

  lemma TruncatedExactly(l: Ledger, lease: Lease)
    ensures Truncated(l, lease) <==>
              || (exists r :: r in Ordered(l, lease) && r.truncated)
              || exists k :: k in l.rejected && k in l.owners && l.owners[k].0 == lease
                             && !Replaced(l, lease, l.rejected[k].segment)
  {
    CutShort(Ordered(l, lease));
    UnreplacedCaps(l, lease);
  }

  lemma CutShort(records: seq<Record>)
    ensures (exists i :: 0 <= i < |records| && records[i].truncated) <==> exists r :: r in records && r.truncated
  {
  }

  lemma UnreplacedCaps(l: Ledger, lease: Lease)
    ensures (exists r :: r in CappedOf(l, lease) && !Superseded(l, lease, r.segment)) <==>
            exists k :: k in l.rejected && k in l.owners && l.owners[k].0 == lease
                        && !Replaced(l, lease, l.rejected[k].segment)
  {
    if r :| r in CappedOf(l, lease) && !Superseded(l, lease, r.segment) {
      var k :| k in l.rejected && k in l.owners && l.owners[k].0 == lease && l.rejected[k] == r;
      ReplacedIsSuperseded(l, lease, l.rejected[k].segment);
    }
    if k :| k in l.rejected && k in l.owners && l.owners[k].0 == lease
            && !Replaced(l, lease, l.rejected[k].segment) {
      ReplacedIsSuperseded(l, lease, l.rejected[k].segment);
      assert l.rejected[k] in CappedOf(l, lease);
    }
  }
}
