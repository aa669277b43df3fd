/** Page walks: following `next` through a pull listing, or `next_cursor` through a proposal docket. */
module Paging {
  import opened Options
  import opened Lexical
  import opened Sorting

  /** Python's `s[lo:hi]` for bounds that are not negative. */
  function Slice<T>(s: seq<T>, lo: nat, hi: nat): seq<T>
  {
    var from := if lo < |s| then lo else |s|;
    var upto := if hi < |s| then hi else |s|;
    if from <= upto then s[from..upto] else []
  }

  // ----- the listing

  datatype Listed = Listed(number: int, head: string, base: string, open: bool, createdAt: int, updatedAt: int)

  datatype SortKey = Created | Updated

  /** A listing request; `keep` is what its state, base and head filters let through. */
  datatype ListQuery = ListQuery(keep: Listed -> bool, sort: Option<SortKey>, descending: Option<bool>)

  function KeyTime(q: ListQuery, p: Listed): int
  {
    if q.sort == Some(Updated) then p.updatedAt else p.createdAt
  }

  /** Newest first by default, unless the sort is by update time. */
  predicate Descends(q: ListQuery)
  {
    if q.descending.Some? then q.descending.value else q.sort != Some(Updated)
  }

  /** Strictly ahead in the listing: by time, then by number, in the query's direction. */
  predicate Ahead(q: ListQuery, p: Listed, r: Listed)
  {
    var lower := KeyTime(q, p) < KeyTime(q, r) || (KeyTime(q, p) == KeyTime(q, r) && p.number < r.number);
    var higher := KeyTime(q, p) > KeyTime(q, r) || (KeyTime(q, p) == KeyTime(q, r) && p.number > r.number);
    if Descends(q) then higher else lower
  }

  function Kept(q: ListQuery, pulls: seq<Listed>): (kept: seq<Listed>)
    ensures forall p :: p in kept <==> p in pulls && q.keep(p)
  {
    if pulls == [] then []
    else
      var rest, last := Kept(q, pulls[..|pulls| - 1]), pulls[|pulls| - 1];
      if q.keep(last) then rest + [last] else rest
  }

  function Listing(q: ListQuery, pulls: seq<Listed>): seq<Listed>
  {
    Sort(Kept(q, pulls), (p: Listed, r: Listed) => !Ahead(q, r, p))
  }

  ghost predicate NumbersDistinct(pulls: seq<Listed>)
  {
    forall i, j :: 0 <= i < j < |pulls| ==> pulls[i].number != pulls[j].number
  }

  lemma {:induction false} KeptNumbersDistinct(q: ListQuery, pulls: seq<Listed>)
    requires NumbersDistinct(pulls)
    ensures NumbersDistinct(Kept(q, pulls))
  {
    if pulls != [] {
      var some, last := pulls[..|pulls| - 1], pulls[|pulls| - 1];
      KeptNumbersDistinct(q, some);
      forall p | p in some
        ensures p.number != last.number
      {
        var i :| 0 <= i < |some| && some[i] == p;
        assert pulls[i].number != pulls[|pulls| - 1].number;
      }
    }
  }

  lemma {:induction false} DistinctNumberCounts(pulls: seq<Listed>, p: Listed)
    requires NumbersDistinct(pulls)
    ensures multiset(pulls)[p] <= 1
  {
    if pulls != [] {
      var some, last := pulls[..|pulls| - 1], pulls[|pulls| - 1];
      DistinctNumberCounts(some, p);
      assert pulls == some + [last];
      if p in some {
        var i :| 0 <= i < |some| && some[i] == p;
        assert pulls[i].number != pulls[|pulls| - 1].number;
      } else {
        assert multiset(some)[p] == 0;
      }
    }
  }

  /** A listing holds exactly the kept pulls, each once, in strict order: no ties, whatever order they are stored in. */
  lemma ListingIsOrdered(q: ListQuery, pulls: seq<Listed>)
    requires NumbersDistinct(pulls)
    ensures
      var listing := Listing(q, pulls);
      && multiset(listing) == multiset(Kept(q, pulls))
      && forall i, j :: 0 <= i < j < |listing| ==> Ahead(q, listing[i], listing[j])
  {
    var kept, listing := Kept(q, pulls), Listing(q, pulls);
    var le := (p: Listed, r: Listed) => !Ahead(q, r, p);
    assert TotalPreorder(le);
    SortSorts(kept, le);
    KeptNumbersDistinct(q, pulls);
    forall i, j | 0 <= i < j < |listing|
      ensures Ahead(q, listing[i], listing[j])
    {
      assert le(listing[i], listing[j]);
      DistinctNumberCounts(kept, listing[i]);
      NumbersDiffer(kept, listing, i, j);
    }
  }

  lemma NumbersDiffer(kept: seq<Listed>, listing: seq<Listed>, i: nat, j: nat)
    requires NumbersDistinct(kept) && multiset(kept) == multiset(listing) && i < j < |listing|
    ensures listing[i].number != listing[j].number
  {
    var p, r := listing[i], listing[j];
    SameElements(listing, kept, p);
    SameElements(listing, kept, r);
    DistinctNumberCounts(kept, p);
    var a :| 0 <= a < |kept| && kept[a] == p;
    var b :| 0 <= b < |kept| && kept[b] == r;
    assert listing == listing[..j] + [r] + listing[j + 1..];
    assert p == listing[..j][i];
    assert a != b;
  }

  /** One pull stands before another: by the time asked for, newest first unless the sort is by update or the direction
      says otherwise, equal times by number in the same direction. */
  ghost predicate StandsBefore(q: ListQuery, p: Listed, r: Listed)
  {
    var byUpdate := q.sort == Some(Updated);
    var newestFirst := q.descending == Some(true) || (q.descending == None && !byUpdate);
    var a, b := if byUpdate then p.updatedAt else p.createdAt, if byUpdate then r.updatedAt else r.createdAt;
    if newestFirst then a > b || (a == b && p.number > r.number) else a < b || (a == b && p.number < r.number)
  }

  lemma ListingStands(q: ListQuery, pulls: seq<Listed>)
    requires NumbersDistinct(pulls)
    ensures
      var listing := Listing(q, pulls);
      && (forall p :: p in listing <==> p in pulls && q.keep(p))
      && forall i, j :: 0 <= i < j < |listing| ==> StandsBefore(q, listing[i], listing[j])
  {
    var listing := Listing(q, pulls);
    ListingIsOrdered(q, pulls);
    forall p
      ensures p in listing <==> p in pulls && q.keep(p)
    {
      SameElements(listing, Kept(q, pulls), p);
    }
    forall i, j | 0 <= i < j < |listing|
      ensures StandsBefore(q, listing[i], listing[j])
    {
      assert Ahead(q, listing[i], listing[j]);
    }
  }

  // ----- pages of a listing

  const MAX_PER_PAGE: int := 100

  /** One page; `perPage` is absent when the request named none, and then nothing is paged. */
  datatype Page<T> = Page(items: seq<T>, page: int, perPage: Option<int>, total: nat)

  function Clamped(perPage: int): (n: int)
    ensures 1 <= n <= MAX_PER_PAGE
  {
    var atLeast := if perPage < 1 then 1 else perPage;
    if atLeast < MAX_PER_PAGE then atLeast else MAX_PER_PAGE
  }

  function PageOf<T>(list: seq<T>, page: int, perPage: Option<int>): Page<T>
  {
    var p: int := if page < 1 then 1 else page;
    match perPage
    case None => Page(if p == 1 then list else [], p, None, |list|)
    case Some(n) =>
      var size := Clamped(n);
      Page(Slice(list, (p - 1) * size, p * size), p, Some(size), |list|)
  }

  /** `-(-total // size)`: the quotient rounded up. */
  function Ceiling(total: int, size: int): int
    requires size >= 1
  {
    -((-total) / size)
  }

  /** The last page's number: the total divided by the page size, rounded up, and at least one. */
  function LastPage<T>(p: Page<T>): int
  {
    if p.perPage.None? || p.perPage.value <= 0 then 1
    else
      var ceiling := Ceiling(p.total, p.perPage.value);
      if ceiling < 1 then 1 else ceiling
  }

  /** The page the link header's `next` names. */
  function NextPage<T>(p: Page<T>): Option<int>
  {
    if p.perPage.None? || p.page >= LastPage(p) then None else Some(p.page + 1)
  }

  lemma CeilingBounds(total: int, size: int)
    requires total >= 0 && size >= 1
    ensures Ceiling(total, size) >= 0
    ensures total <= Ceiling(total, size) * size && (Ceiling(total, size) - 1) * size < total
  {
    var q, r := (-total) / size, (-total) % size;
    assert -total == q * size + r && 0 <= r < size;
    assert (-q) * size == total + r;
    OneMoreTime(-q - 1, size);
  }

  /** One page holds, in order, the items from (page - 1) times the size on, at most the size of them; the size is the
      one named, brought within 1 and 100; a `next` is named exactly while items are left. */
  lemma PageHolds<T>(list: seq<T>, page: int, perPage: int)
    requires page >= 1
    ensures
      var p := PageOf(list, page, Some(perPage));
      var size := if perPage < 1 then 1 else if perPage > 100 then 100 else perPage;
      var from := (page - 1) * size;
      && p.page == page && p.perPage == Some(size) && p.total == |list| && from >= 0
      && |p.items| == (if from + size <= |list| then size else if from <= |list| then |list| - from else 0)
      && (forall i :: 0 <= i < |p.items| ==> from + i < |list| && p.items[i] == list[from + i])
      && (NextPage(p) == (if from + size < |list| then Some(page + 1) else None))
  {
    var size := Clamped(perPage);
    OneMoreTime(page - 1, size);
    ProductIsMonotone(1, page, size);
    CeilingBounds(|list|, size);
    var last := LastPage(PageOf(list, page, Some(perPage)));
    if page < last {
      ProductIsMonotone(page, last, size);
    } else {
      ProductIsMonotone(last, page, size);
      OneMoreTime(last - 1, size);
    }
  }

  /** Everything a client collects by following `next` from a page on. */
  function Walk<T>(list: seq<T>, page: int, perPage: Option<int>): seq<T>
    decreases LastPage(PageOf(list, page, perPage)) - (if page < 1 then 1 else page)
  {
    var p := PageOf(list, page, perPage);
    match NextPage(p)
    case None => p.items
    case Some(next) =>
      assert Clamped(p.perPage.value) == p.perPage.value;
      p.items + Walk(list, next, p.perPage)
  }

  lemma {:induction false} WalkCollectsTheRest<T>(list: seq<T>, page: int, size: int)
    requires page >= 1 && 1 <= size <= MAX_PER_PAGE
    requires page <= LastPage(PageOf(list, page, Some(size)))
    ensures (page - 1) * size <= |list|
    ensures Walk(list, page, Some(size)) == list[(page - 1) * size..]
    decreases LastPage(PageOf(list, page, Some(size))) - page
  {
    var p := PageOf(list, page, Some(size));
    var last := LastPage(p);
    CeilingBounds(|list|, size);
    ProductIsMonotone(page, last, size);
    var from, upto := (page - 1) * size, page * size;
    if page < last {
      WalkCollectsTheRest(list, page + 1, size);
      assert p.items == list[from..upto];
      assert list[from..upto] + list[upto..] == list[from..];
    } else {
      assert p.items == list[from..];
    }
  }

  lemma {:induction false} ProductIsMonotone(page: int, last: int, size: int)
    requires 1 <= page <= last && size >= 1
    ensures 0 <= (page - 1) * size <= (last - 1) * size
    ensures page * size == (page - 1) * size + size
    ensures page < last ==> page * size <= (last - 1) * size
    decreases last
  {
    OneMoreTime(page - 1, size);
    if page < last {
      ProductIsMonotone(page, last - 1, size);
      OneMoreTime(last - 2, size);
    } else if page > 1 {
      ProductIsMonotone(page - 1, last - 1, size);
      OneMoreTime(page - 2, size);
    }
  }

  lemma OneMoreTime(n: int, size: int)
    ensures (n + 1) * size == n * size + size
  {
  }

  /** Following `next` from page 1 collects the whole list in order, for every page size a request may name. */
  lemma PullWalkIsExact<T>(list: seq<T>, perPage: Option<int>)
    ensures Walk(list, 1, perPage) == list
  {
    if perPage.Some? {
      var size := Clamped(perPage.value);
      assert PageOf(list, 1, perPage) == PageOf(list, 1, Some(size));
      assert Walk(list, 1, perPage) == Walk(list, 1, Some(size));
      WalkCollectsTheRest(list, 1, size);
    }
  }

  // ----- the proposal docket

  const CURSOR_MARK: string := "o:"

  datatype DocketPage<T> = MalformedCursor | DocketPage(items: seq<T>, next: Option<string>)

  /** The offset a cursor names, absent for one the docket did not issue. */
  function Offset(cursor: Option<string>): Option<nat>
  {
    match cursor
    case None => Some(0)
    case Some(c) =>
      if |c| > 2 && c[..2] == CURSOR_MARK && IsDigits(c[2..]) then Some(NumeralValue(c[2..])) else None
  }

  function CursorAt(offset: nat): string
  {
    CURSOR_MARK + Decimal(offset)
  }

  function DocketPageOf<T>(docket: seq<T>, cursor: Option<string>, limit: nat): DocketPage<T>
  {
    match Offset(cursor)
    case None => MalformedCursor
    case Some(offset) =>
      var end := offset + limit;
      DocketPage(Slice(docket, offset, end), if end < |docket| then Some(CursorAt(end)) else None)
  }

  /** A cursor the docket issued reads back as the offset it was issued for. */
  lemma CursorRoundTrip(offset: nat)
    ensures Offset(Some(CursorAt(offset))) == Some(offset)
  {
    var c := CursorAt(offset);
    assert c[2..] == Numeral(offset) && c[..2] == CURSOR_MARK;
    NumeralRoundTrip(offset);
  }

  /** A cursor is accepted exactly if it is the mark and digits. */
  lemma CursorExactly(c: string)
    ensures Offset(Some(c)).Some? <==> exists digits :: digits != "" && IsDigits(digits) && c == "o:" + digits
  {
    if Offset(Some(c)).Some? {
      assert c == "o:" + c[2..] && IsDigits(c[2..]);
    }
    if digits :| digits != "" && IsDigits(digits) && c == "o:" + digits {
      assert c[..2] == "o:" && c[2..] == digits;
    }
  }

  /** A docket page holds the items from its offset on, at most the limit of them, and names the offset behind them
      exactly while items are left; without a cursor the offset is zero. */
  lemma DocketPageHolds<T>(docket: seq<T>, offset: nat, limit: nat)
    ensures
      var page := DocketPageOf(docket, Some("o:" + Decimal(offset)), limit);
      page.DocketPage? && HoldsFrom(page, docket, offset, limit)
    ensures
      var page := DocketPageOf(docket, None, limit);
      page.DocketPage? && HoldsFrom(page, docket, 0, limit)
  {
    CursorRoundTrip(offset);
  }

  ghost predicate HoldsFrom<T>(page: DocketPage<T>, docket: seq<T>, offset: nat, limit: nat)
    requires page.DocketPage?
  {
    && |page.items| == (if offset + limit <= |docket| then limit
                        else if offset <= |docket| then |docket| - offset else 0)
    && (forall i :: 0 <= i < |page.items| ==> offset + i < |docket| && page.items[i] == docket[offset + i])
    && page.next == (if offset + limit < |docket| then Some("o:" + Decimal(offset + limit)) else None)
  }

  /** Everything a client collects by following `next_cursor` from a cursor on. */
  function DocketWalk<T>(docket: seq<T>, cursor: Option<string>, limit: nat): seq<T>
    requires limit >= 1 && Offset(cursor).Some?
    decreases if Offset(cursor).value < |docket| then |docket| - Offset(cursor).value else 0
  {
    var page := DocketPageOf(docket, cursor, limit);
    match page.next
    case None => page.items
    case Some(next) =>
      CursorRoundTrip(Offset(cursor).value + limit);
      page.items + DocketWalk(docket, Some(next), limit)
  }

  /** What lies at or past an offset. */
  function Rest<T>(s: seq<T>, offset: nat): seq<T>
  {
    if offset <= |s| then s[offset..] else []
  }

  lemma SliceThenRest<T>(s: seq<T>, offset: nat, limit: nat)
    ensures offset + limit < |s| ==> Slice(s, offset, offset + limit) + Rest(s, offset + limit) == Rest(s, offset)
    ensures offset + limit >= |s| ==> Slice(s, offset, offset + limit) == Rest(s, offset)
  {
  }

  lemma {:induction false} DocketWalkCollectsTheRest<T>(docket: seq<T>, cursor: Option<string>, offset: nat, limit: nat)
    requires limit >= 1 && Offset(cursor) == Some(offset)
    ensures DocketWalk(docket, cursor, limit) == Rest(docket, offset)
    decreases if offset < |docket| then |docket| - offset else 0
  {
    SliceThenRest(docket, offset, limit);
    if offset + limit < |docket| {
      CursorRoundTrip(offset + limit);
      DocketWalkCollectsTheRest(docket, Some(CursorAt(offset + limit)), offset + limit, limit);
    }
  }

  /** Following `next_cursor` from the start collects the whole docket in order, for every limit of at least one. */
  lemma DocketWalkIsExact<T>(docket: seq<T>, limit: nat)
    requires limit >= 1
    ensures DocketWalk(docket, None, limit) == docket
  {
    DocketWalkCollectsTheRest(docket, None, 0, limit);
  }

  /** A limit of zero is why the route demands one: the page hands back the cursor it was asked for. */
  lemma ZeroLimitStalls<T>(docket: seq<T>, offset: nat)
    requires offset < |docket|
    ensures DocketPageOf(docket, Some(CursorAt(offset)), 0) == DocketPage([], Some(CursorAt(offset)))
  {
    CursorRoundTrip(offset);
  }
}
