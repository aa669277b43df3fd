/** The outbox sequence allocator: each (runner, lane) counts on from the greater of its counter and its highest
    seq held, inside one all-or-nothing write. */
module Outbox {
  import opened Options
  import opened Numbers

  datatype Lane = Outbound | TranscriptLane

  type Key = (string, Lane)

  /** A composed row: its table, its runner, and the seq a composer supplied, if any. */
  datatype Row = Row(table: string, runner: Option<string>, seqNo: Option<int>)

  function LaneOf(table: string): Option<Lane>
  {
    if table == "outbound_buffer" then Some(Outbound)
    else if table == "transcript_outbound_buffer" then Some(TranscriptLane)
    else None
  }

  /** The lane a row counts on; a row of no outbox, or with no runner, is passed through. */
  function KeyOf(row: Row): Option<Key>
  {
    if LaneOf(row.table).Some? && row.runner.Some? then Some((row.runner.value, LaneOf(row.table).value)) else None
  }

  // ----- assigning within one write

  datatype Assignment = Assignment(rows: seq<Row>, issued: map<Key, int>)

  function LastOf(a: Assignment, last: Key -> int, k: Key): int
  {
    if k in a.issued then a.issued[k] else last(k)
  }

  function AssignOne(a: Assignment, last: Key -> int, row: Row): Assignment
  {
    match KeyOf(row)
    case None => a.(rows := a.rows + [row])
    case Some(k) =>
      var top := LastOf(a, last, k);
      match row.seqNo
      case Some(supplied) => Assignment(a.rows + [row], a.issued[k := Max(top, supplied)])
      case None => Assignment(a.rows + [row.(seqNo := Some(top + 1))], a.issued[k := top + 1])
  }

  function Assign(rows: seq<Row>, last: Key -> int): Assignment
  {
    if rows == [] then Assignment([], map[])
    else AssignOne(Assign(rows[..|rows| - 1], last), last, rows[|rows| - 1])
  }

  /** The allocator's loop over the rows. */
  method AssignOutboxSeqs(rows: seq<Row>, last: Key -> int) returns (stamped: seq<Row>, issued: map<Key, int>)
    ensures Assignment(stamped, issued) == Assign(rows, last)
  {
    stamped, issued := [], map[];
    for i := 0 to |rows|
      invariant Assignment(stamped, issued) == Assign(rows[..i], last)
    {
      assert rows[..i + 1][..i] == rows[..i];
      var row := rows[i];
      var key := KeyOf(row);
      if key.None? {
        stamped := stamped + [row];
        continue;
      }
      var top := if key.value in issued then issued[key.value] else last(key.value);
      if row.seqNo.Some? {
        issued := issued[key.value := Max(top, row.seqNo.value)];
        stamped := stamped + [row];
        continue;
      }
      issued := issued[key.value := top + 1];
      stamped := stamped + [row.(seqNo := Some(top + 1))];
    }
    assert rows[..|rows|] == rows;
  }

  /** Row `i` of a write is an outbox row on lane `k`. */
  predicate OnLane(rows: seq<Row>, i: int, k: Key)
  {
    0 <= i < |rows| && KeyOf(rows[i]) == Some(k)
  }

  lemma {:induction false} AssignShape(rows: seq<Row>, last: Key -> int)
    ensures
      var a := Assign(rows, last);
      && |a.rows| == |rows|
      && (forall i :: 0 <= i < |rows| ==> a.rows[i] == rows[i].(seqNo := a.rows[i].seqNo))
      && (forall i :: 0 <= i < |rows| && rows[i].seqNo.Some? ==> a.rows[i] == rows[i])
      && (forall i :: 0 <= i < |rows| && KeyOf(rows[i]).Some? ==> a.rows[i].seqNo.Some?)
  {
    if rows != [] {
      AssignShape(rows[..|rows| - 1], last);
    }
  }

  /** Every touched lane ends at or above where it started and at or above each seq the write holds on it. */
  lemma {:induction false} IssuedBounds(rows: seq<Row>, last: Key -> int, k: Key)
    ensures
      var a := Assign(rows, last);
      && (k in a.issued <==> exists i :: OnLane(rows, i, k))
      && (k in a.issued ==> last(k) <= a.issued[k])
      && |a.rows| == |rows|
      && (forall i :: OnLane(rows, i, k) ==> a.rows[i].seqNo.Some? && a.rows[i].seqNo.value <= a.issued[k])
  {
    if rows != [] {
      var some, n := rows[..|rows| - 1], |rows| - 1;
      IssuedBounds(some, last, k);
      var b, a := Assign(some, last), Assign(rows, last);
      assert forall i :: OnLane(some, i, k) <==> OnLane(rows, i, k) && i < n;
      assert k in a.issued <==> k in b.issued || OnLane(rows, n, k);
      forall i | OnLane(rows, i, k)
        ensures a.rows[i].seqNo.Some? && a.rows[i].seqNo.value <= a.issued[k]
      {
        if i < n {
          assert OnLane(some, i, k) && a.rows[i] == b.rows[i];
        }
      }
      if OnLane(rows, n, k) {
        assert exists i :: OnLane(rows, i, k);
      }
    }
  }

  /** A seq the allocator assigns exceeds where its lane stood and every seq earlier in the same write. */
  lemma {:induction false} AssignedExceedsEarlier(rows: seq<Row>, last: Key -> int, k: Key, i: int)
    requires OnLane(rows, i, k) && rows[i].seqNo.None?
    ensures
      var a := Assign(rows, last);
      && |a.rows| == |rows| && a.rows[i].seqNo.Some? && last(k) < a.rows[i].seqNo.value
      && forall j :: j < i && OnLane(rows, j, k) ==>
           a.rows[j].seqNo.Some? && a.rows[j].seqNo.value < a.rows[i].seqNo.value
  {
    var some, n := rows[..|rows| - 1], |rows| - 1;
    IssuedBounds(some, last, k);
    AssignShape(rows, last);
    var b, a := Assign(some, last), Assign(rows, last);
    assert forall j :: 0 <= j < n ==> a.rows[j] == b.rows[j];
    assert forall j :: OnLane(some, j, k) <==> OnLane(rows, j, k) && j < n;
    if i < n {
      AssignedExceedsEarlier(some, last, k, i);
    }
  }

  // ----- the store

  /** `held` lists the seqs each lane's table holds. */
  datatype Store = Store(counters: map<Key, int>, held: map<Key, seq<int>>)

  function Greatest(s: seq<int>): int
    requires s != []
  {
    if |s| == 1 then s[0] else Max(Greatest(s[..|s| - 1]), s[|s| - 1])
  }

  lemma {:induction false} GreatestIsMaximum(s: seq<int>)
    requires s != []
    ensures Greatest(s) in s && forall n :: n in s ==> n <= Greatest(s)
  {
    if |s| > 1 {
      GreatestIsMaximum(s[..|s| - 1]);
      assert s == s[..|s| - 1] + [s[|s| - 1]];
    }
  }

  function HeldIn(s: Store, k: Key): seq<int>
  {
    if k in s.held then s.held[k] else []
  }

  /** Where a lane's count resumes. */
  function LastIssued(s: Store, k: Key): int
  {
    Max(if k in s.counters then s.counters[k] else 0, if HeldIn(s, k) != [] then Greatest(HeldIn(s, k)) else 0)
  }

  lemma LastIssuedBounds(s: Store, k: Key)
    ensures k in s.counters ==> s.counters[k] <= LastIssued(s, k)
    ensures forall n :: n in HeldIn(s, k) ==> n <= LastIssued(s, k)
  {
    if HeldIn(s, k) != [] {
      GreatestIsMaximum(HeldIn(s, k));
    }
  }

  function LanesSeqs(rows: seq<Row>, k: Key): (seqs: seq<int>)
    ensures forall n :: n in seqs <==> exists i :: OnLane(rows, i, k) && rows[i].seqNo == Some(n)
  {
    if rows == [] then []
    else
      var some, last := rows[..|rows| - 1], rows[|rows| - 1];
      var rest := LanesSeqs(some, k);
      assert forall i :: OnLane(some, i, k) <==> OnLane(rows, i, k) && i < |rows| - 1;
      assert OnLane(rows, |rows| - 1, k) <==> KeyOf(last) == Some(k);
      if KeyOf(last) == Some(k) && last.seqNo.Some? then rest + [last.seqNo.value] else rest
  }

  function AllocateIn(s: Store, rows: seq<Row>): Assignment
  {
    Assign(rows, (k: Key) => LastIssued(s, k))
  }

  /** The tables after inserting one row. */
  function InsertedRow(held: map<Key, seq<int>>, row: Row): map<Key, seq<int>>
  {
    if KeyOf(row).Some? && row.seqNo.Some? then
      var k := KeyOf(row).value;
      held[k := (if k in held then held[k] else []) + [row.seqNo.value]]
    else held
  }

  function Inserted(held: map<Key, seq<int>>, rows: seq<Row>): map<Key, seq<int>>
  {
    if rows == [] then held else InsertedRow(Inserted(held, rows[..|rows| - 1]), rows[|rows| - 1])
  }

  lemma {:induction false} InsertedHolds(s: Store, rows: seq<Row>, k: Key)
    ensures HeldIn(s.(held := Inserted(s.held, rows)), k) == HeldIn(s, k) + LanesSeqs(rows, k)
  {
    if rows != [] {
      InsertedHolds(s, rows[..|rows| - 1], k);
    }
  }

  /** A committed write: rows land under their seqs and the touched counters move to the last seq issued. */
  function Written(s: Store, rows: seq<Row>): Store
  {
    var a := AllocateIn(s, rows);
    Store(s.counters + a.issued, Inserted(s.held, a.rows))
  }

  /** `Outside` is anything else that touches a lane: rows drained or inserted, the counter raised. */
  datatype Event = Write(rows: seq<Row>) | Abort(rows: seq<Row>) | Outside(key: Key, nowHeld: seq<int>, raise: nat)

  function Step(s: Store, e: Event): Store
  {
    match e
    case Write(rows) => Written(s, rows)
    case Abort(_) => s
    case Outside(k, nowHeld, raise) =>
      Store(if raise > 0 then s.counters[k := (if k in s.counters then s.counters[k] else 0) + raise] else s.counters,
            s.held[k := nowHeld])
  }

  function At(s0: Store, run: seq<Event>, n: nat): Store
    requires n <= |run|
  {
    if n == 0 then s0 else Step(At(s0, run, n - 1), run[n - 1])
  }

  // ----- main results

  /** One write: each assigned seq exceeds everything its lane held and everything earlier in the write; afterwards a
      touched lane's counter is at least every seq the lane holds. */
  lemma WriteAllocatesAbove(s: Store, rows: seq<Row>, k: Key)
    ensures
      var a, s' := AllocateIn(s, rows), Written(s, rows);
      && |a.rows| == |rows|
      && (forall i :: OnLane(rows, i, k) && rows[i].seqNo.None? ==>
            && a.rows[i].seqNo.Some?
            && (forall n :: n in HeldIn(s, k) ==> n < a.rows[i].seqNo.value)
            && (k in s.counters ==> s.counters[k] < a.rows[i].seqNo.value)
            && (forall j :: j < i && OnLane(rows, j, k) ==>
                  a.rows[j].seqNo.Some? && a.rows[j].seqNo.value < a.rows[i].seqNo.value))
      && ((exists i :: OnLane(rows, i, k)) ==>
            k in s'.counters && forall n :: n in HeldIn(s', k) ==> n <= s'.counters[k])
  {
    var last := (key: Key) => LastIssued(s, key);
    var a, s' := AllocateIn(s, rows), Written(s, rows);
    assert a == Assign(rows, last);
    LastIssuedBounds(s, k);
    IssuedBounds(rows, last, k);
    forall i | OnLane(rows, i, k) && rows[i].seqNo.None?
      ensures a.rows[i].seqNo.Some? && LastIssued(s, k) < a.rows[i].seqNo.value
      ensures forall j :: j < i && OnLane(rows, j, k) ==>
                a.rows[j].seqNo.Some? && a.rows[j].seqNo.value < a.rows[i].seqNo.value
    {
      AssignedExceedsEarlier(rows, last, k, i);
    }
    AssignedKeys(rows, last);
    InsertedHolds(s, a.rows, k);
    forall n | n in HeldIn(s', k) && k in a.issued
      ensures n <= s'.counters[k]
    {
      if n !in HeldIn(s, k) {
        var i :| OnLane(a.rows, i, k) && a.rows[i].seqNo == Some(n);
        assert OnLane(rows, i, k);
      }
    }
  }

  lemma AssignedKeys(rows: seq<Row>, last: Key -> int)
    ensures
      var a := Assign(rows, last);
      |a.rows| == |rows| && forall i, k :: OnLane(a.rows, i, k) <==> OnLane(rows, i, k)
  {
    AssignShape(rows, last);
  }

  /** The greatest of a lane's start and the seqs the first `n` rows of a write have on it. */
  function TopOf(start: int, rows: seq<Row>, k: Key, n: nat): int
    requires n <= |rows|
  {
    if n == 0 then start
    else
      var top := TopOf(start, rows, k, n - 1);
      if OnLane(rows, n - 1, k) && rows[n - 1].seqNo.Some? && top < rows[n - 1].seqNo.value then rows[n - 1].seqNo.value
      else top
  }

  lemma {:induction false} TopOfPrefix(start: int, rows: seq<Row>, more: seq<Row>, k: Key, n: nat)
    requires n <= |rows| <= |more| && rows == more[..|rows|]
    ensures TopOf(start, rows, k, n) == TopOf(start, more, k, n)
  {
    if n > 0 {
      TopOfPrefix(start, rows, more, k, n - 1);
      assert rows[n - 1] == more[n - 1];
    }
  }

  /** Where a lane stands within a write is the greatest of its start and the seqs on it so far. */
  lemma {:induction false} LaneStandsAtTop(rows: seq<Row>, last: Key -> int, k: Key)
    ensures |Assign(rows, last).rows| == |rows|
    ensures LastOf(Assign(rows, last), last, k) == TopOf(last(k), Assign(rows, last).rows, k, |rows|)
  {
    if rows != [] {
      var some, n := rows[..|rows| - 1], |rows| - 1;
      LaneStandsAtTop(some, last, k);
      OneMoreRow(Assign(some, last), last, rows[n], k);
    }
  }

  lemma OneMoreRow(a: Assignment, last: Key -> int, row: Row, k: Key)
    requires LastOf(a, last, k) == TopOf(last(k), a.rows, k, |a.rows|)
    ensures
      var a' := AssignOne(a, last, row);
      |a'.rows| == |a.rows| + 1 && LastOf(a', last, k) == TopOf(last(k), a'.rows, k, |a'.rows|)
  {
    var a' := AssignOne(a, last, row);
    assert a'.rows[..|a.rows|] == a.rows;
    TopOfPrefix(last(k), a.rows, a'.rows, k, |a.rows|);
    assert KeyOf(a'.rows[|a.rows|]) == KeyOf(row);
  }

  /** What becomes of a row of a write: on lane `k` without a seq it takes the one after `top`; of no outbox, or with a
      seq of its own, it is passed through. */
  ghost predicate NumberedAfter(row: Row, row': Row, k: Key, top: int)
  {
    && (KeyOf(row) == Some(k) && row.seqNo == None ==> row' == row.(seqNo := Some(top + 1)))
    && (KeyOf(row) == None || row.seqNo != None ==> row' == row)
  }

  lemma RowIsNumbered(a: Assignment, last: Key -> int, row: Row, k: Key)
    ensures |AssignOne(a, last, row).rows| == |a.rows| + 1
    ensures AssignOne(a, last, row).rows[..|a.rows|] == a.rows
    ensures NumberedAfter(row, AssignOne(a, last, row).rows[|a.rows|], k, LastOf(a, last, k))
  {
  }

  /** Each lane is numbered without gaps: a seq the allocator assigns is one above the greatest of where its lane stood
      and what stands on it earlier in the write. */
  lemma {:induction false} AssignedIsNext(rows: seq<Row>, last: Key -> int, k: Key, i: int)
    requires 0 <= i < |rows|
    ensures |Assign(rows, last).rows| == |rows|
    ensures
      var after := Assign(rows, last).rows;
      NumberedAfter(rows[i], after[i], k, TopOf(last(k), after, k, i))
  {
    var some, n := rows[..|rows| - 1], |rows| - 1;
    var a, after := Assign(some, last), Assign(rows, last).rows;
    LaneStandsAtTop(some, last, k);
    RowIsNumbered(a, last, rows[n], k);
    TopOfPrefix(last(k), a.rows, after, k, i);
    if i < n {
      AssignedIsNext(some, last, k, i);
      assert after[i] == after[..n][i];
    }
  }

  /** An outbox row is one of the two buffers' with a runner; its lane is the buffer's. */
  lemma OutboxRowsAre(row: Row)
    ensures KeyOf(row) ==
            if row.runner == None then None
            else if row.table == "outbound_buffer" then Some((row.runner.value, Outbound))
            else if row.table == "transcript_outbound_buffer" then Some((row.runner.value, TranscriptLane))
            else None
  {
  }

  /** The count resumes from the greatest of the counter and the seqs held, a missing one being zero. */
  lemma ResumesFromGreatest(s: Store, k: Key)
    ensures k in s.counters ==> s.counters[k] <= LastIssued(s, k)
    ensures forall n :: n in HeldIn(s, k) ==> n <= LastIssued(s, k)
    ensures k !in s.counters || HeldIn(s, k) == [] ==> 0 <= LastIssued(s, k)
    ensures || (k in s.counters && s.counters[k] == LastIssued(s, k)) || LastIssued(s, k) in HeldIn(s, k)
            || (LastIssued(s, k) == 0 && (k !in s.counters || HeldIn(s, k) == []))
  {
    if HeldIn(s, k) != [] {
      GreatestIsMaximum(HeldIn(s, k));
    }
  }

  /** On every lane the rows' seqs come in order behind what it held, and its counter moves to the greatest of them and
      where it stood; a lane no row of the write is on keeps its counter and its seqs. */
  lemma WriteLeaves(s: Store, rows: seq<Row>, k: Key)
    ensures
      var after, s' := AllocateIn(s, rows).rows, Written(s, rows);
      && HeldIn(s', k) == HeldIn(s, k) + LanesSeqs(after, k)
      && if exists i :: OnLane(rows, i, k) then
           k in s'.counters && s'.counters[k] == TopOf(LastIssued(s, k), after, k, |after|)
         else
           HeldIn(s', k) == HeldIn(s, k) && (k in s'.counters <==> k in s.counters)
           && (k in s.counters ==> s'.counters[k] == s.counters[k])
  {
    var last := (key: Key) => LastIssued(s, key);
    var a := AllocateIn(s, rows);
    assert a == Assign(rows, last);
    IssuedBounds(rows, last, k);
    LaneStandsAtTop(rows, last, k);
    InsertedHolds(s, a.rows, k);
    AssignedKeys(rows, last);
    if !exists i :: OnLane(rows, i, k) {
      NoSeqsOff(a.rows, k);
    }
  }

  lemma {:induction false} NoSeqsOff(rows: seq<Row>, k: Key)
    requires forall i :: !OnLane(rows, i, k)
    ensures LanesSeqs(rows, k) == []
  {
    if rows != [] {
      var some, n := rows[..|rows| - 1], |rows| - 1;
      forall i
        ensures !OnLane(some, i, k)
      {
        assert !OnLane(rows, i, k);
      }
      NoSeqsOff(some, k);
      assert !OnLane(rows, n, k);
    }
  }

  /** A counter never falls, whatever happens. */
  lemma {:induction false} CountersNeverFall(s0: Store, run: seq<Event>, m: nat, n: nat, k: Key)
    requires m <= n <= |run| && k in At(s0, run, m).counters
    ensures k in At(s0, run, n).counters && At(s0, run, m).counters[k] <= At(s0, run, n).counters[k]
    decreases n
  {
    if m < n {
      CountersNeverFall(s0, run, m, n - 1, k);
      CounterAfterStep(At(s0, run, n - 1), run[n - 1], k);
    }
  }

  lemma CounterAfterStep(s: Store, e: Event, k: Key)
    requires k in s.counters
    ensures k in Step(s, e).counters && s.counters[k] <= Step(s, e).counters[k]
  {
    if e.Write? {
      LastIssuedBounds(s, k);
      IssuedBounds(e.rows, (key: Key) => LastIssued(s, key), k);
    }
  }

  /** The seq a write gives row `i`. */
  function SeqGiven(s: Store, rows: seq<Row>, i: int): Option<int>
  {
    var a := AllocateIn(s, rows);
    if 0 <= i < |a.rows| then a.rows[i].seqNo else None
  }

  /** Over every run, drained and outside rows notwithstanding, a seq the allocator assigns exceeds every seq an
      earlier write gave the same lane, supplied seqs included. */
  lemma AssignedSeqsClimb(s0: Store, run: seq<Event>, m: nat, i: int, n: nat, j: int, k: Key)
    requires m < n < |run| && run[m].Write? && run[n].Write?
    requires OnLane(run[m].rows, i, k) && OnLane(run[n].rows, j, k) && run[n].rows[j].seqNo.None?
    ensures
      var earlier, later := SeqGiven(At(s0, run, m), run[m].rows, i), SeqGiven(At(s0, run, n), run[n].rows, j);
      earlier.Some? && later.Some? && earlier.value < later.value
  {
    WriteCountsAt(s0, run, m, i, k);
    CountersNeverFall(s0, run, m + 1, n, k);
    GivenAboveCounter(At(s0, run, n), run[n].rows, j, k);
  }

  lemma WriteCountsAt(s0: Store, run: seq<Event>, m: nat, i: int, k: Key)
    requires m < |run| && run[m].Write? && OnLane(run[m].rows, i, k)
    ensures SeqGiven(At(s0, run, m), run[m].rows, i).Some? && k in At(s0, run, m + 1).counters
    ensures SeqGiven(At(s0, run, m), run[m].rows, i).value <= At(s0, run, m + 1).counters[k]
  {
    IssuedBounds(run[m].rows, (key: Key) => LastIssued(At(s0, run, m), key), k);
  }

  lemma GivenAboveCounter(s: Store, rows: seq<Row>, j: int, k: Key)
    requires OnLane(rows, j, k) && rows[j].seqNo.None? && k in s.counters
    ensures SeqGiven(s, rows, j).Some? && s.counters[k] < SeqGiven(s, rows, j).value
  {
    WriteAllocatesAbove(s, rows, k);
  }

  /** No other hand touches lane `k` in a stretch of a run. */
  ghost predicate Untouched(run: seq<Event>, k: Key, from: nat, upto: nat)
  {
    from <= upto <= |run| && forall i :: from <= i < upto ==> !(run[i].Outside? && run[i].key == k)
  }

  lemma HeldAfterStep(s: Store, e: Event, k: Key, x: int)
    requires x in HeldIn(s, k) && !(e.Outside? && e.key == k)
    ensures x in HeldIn(Step(s, e), k)
  {
    if e.Write? {
      InsertedHolds(s, AllocateIn(s, e.rows).rows, k);
    }
  }

  lemma {:induction false} HeldStays(s0: Store, run: seq<Event>, m: nat, n: nat, k: Key, x: int)
    requires Untouched(run, k, m, n) && x in HeldIn(At(s0, run, m), k)
    ensures x in HeldIn(At(s0, run, n), k)
    decreases n
  {
    if m < n {
      HeldStays(s0, run, m, n - 1, k, x);
      HeldAfterStep(At(s0, run, n - 1), run[n - 1], k, x);
    }
  }

  /** And while only writes touch the lane, it exceeds every seq the lane has held at any point, however it got
      there. */
  lemma AssignedSeqsExceedHeld(s0: Store, run: seq<Event>, m: nat, n: nat, j: int, k: Key, x: int)
    requires n < |run| && Untouched(run, k, m, n) && x in HeldIn(At(s0, run, m), k)
    requires run[n].Write? && OnLane(run[n].rows, j, k) && run[n].rows[j].seqNo.None?
    ensures SeqGiven(At(s0, run, n), run[n].rows, j).Some? && x < SeqGiven(At(s0, run, n), run[n].rows, j).value
  {
    HeldStays(s0, run, m, n, k, x);
    WriteAllocatesAbove(At(s0, run, n), run[n].rows, k);
  }

  /** A run without its failed writes. */
  function Committed(run: seq<Event>): (r: seq<Event>)
    ensures forall e :: e in r <==> e in run && !e.Abort?
  {
    if run == [] then []
    else if run[|run| - 1].Abort? then Committed(run[..|run| - 1])
    else Committed(run[..|run| - 1]) + [run[|run| - 1]]
  }

  /** Runs that agree on their first `n` events are at the same store there. */
  lemma {:induction false} AtAgrees(s0: Store, a: seq<Event>, b: seq<Event>, n: nat)
    requires n <= |a| && n <= |b| && forall i :: 0 <= i < n ==> a[i] == b[i]
    ensures At(s0, a, n) == At(s0, b, n)
  {
    if n > 0 {
      AtAgrees(s0, a, b, n - 1);
    }
  }

  /** Failed writes leave no trace: a run without them ends at the same store, so later writes draw the same seqs. */
  lemma {:induction false} FailedWritesCanBeDropped(s0: Store, run: seq<Event>, rows: seq<Row>, i: int)
    ensures At(s0, Committed(run), |Committed(run)|) == At(s0, run, |run|)
    ensures SeqGiven(At(s0, Committed(run), |Committed(run)|), rows, i) == SeqGiven(At(s0, run, |run|), rows, i)
  {
    if run != [] {
      var some, last := run[..|run| - 1], run[|run| - 1];
      FailedWritesCanBeDropped(s0, some, rows, i);
      AtAgrees(s0, run, some, |some|);
      if !last.Abort? {
        AtAgrees(s0, Committed(run), Committed(some), |Committed(some)|);
      }
    }
  }

  // ----- in place

  class OutboxStore {
    var counters: map<Key, int>
    var held: map<Key, seq<int>>

    function Value(): Store
      reads this
    {
      Store(counters, held)
    }

    constructor ()
      ensures Value() == Store(map[], map[])
    {
      counters, held := map[], map[];
    }

    /** One transaction: seqs drawn, counters updated or inserted key by key, rows inserted. Should inserting row
        `failure` violate a constraint, the rows and counters written before it are rolled back. */
    method Write(rows: seq<Row>, failure: Option<nat>) returns (committed: bool, stamped: seq<Row>)
      modifies this
      ensures committed <==> failure.None? || failure.value >= |rows|
      ensures Value() == Step(old(Value()), if committed then Event.Write(rows) else Abort(rows))
      ensures stamped == AllocateIn(old(Value()), rows).rows
    {
      var before := Value();
      var issued;
      stamped, issued := AssignOutboxSeqs(rows, (k: Key) => LastIssued(before, k));
      AssignShape(rows, (k: Key) => LastIssued(before, k));
      AdvanceCounters(issued);
      if failure.Some? && failure.value < |stamped| {
        InsertRows(stamped[..failure.value]);
        counters, held := before.counters, before.held;
        return false, stamped;
      }
      InsertRows(stamped);
      return true, stamped;
    }

    method AdvanceCounters(issued: map<Key, int>)
      modifies this`counters
      ensures counters == old(counters) + issued
    {
      var keys := issued.Keys;
      while keys != {}
        invariant keys <= issued.Keys
        invariant counters == old(counters) + (issued - keys)
      {
        var key :| key in keys;
        counters := counters[key := issued[key]];
        keys := keys - {key};
      }
      assert issued - {} == issued;
    }

    method InsertRows(rows: seq<Row>)
      modifies this`held
      ensures held == Inserted(old(held), rows)
    {
      for i := 0 to |rows|
        invariant held == Inserted(old(held), rows[..i])
      {
        assert rows[..i + 1][..i] == rows[..i];
        var key := KeyOf(rows[i]);
        if key.Some? && rows[i].seqNo.Some? {
          held := held[key.value := (if key.value in held then held[key.value] else []) + [rows[i].seqNo.value]];
        }
      }
      assert rows[..|rows|] == rows;
    }
  }
}
