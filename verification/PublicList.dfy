/**
 The public listing: which pastes it shows, in which order, and how it is cut into pages.

 Rows with equal creation times may come in any order, and in another one for every query,
 so an answer is a relation.
 */
module PublicList {
  import opened Options
  import opened Lists
  import opened GoText
  import opened Arithmetic
  import opened PasteTable

  predicate Shown(rows: Rows, id: PasteId, now: int) {
    id in rows && rows[id].paste.visibility == 0
    && (rows[id].paste.expiresAt.None? || rows[id].paste.expiresAt.value > now)
  }

  ghost predicate NewestFirst(list: seq<PasteId>, rows: Rows)
    requires forall id :: id in list ==> id in rows
  {
    Descending(list, CreationTimes(rows))
  }

  function CreationTimes(rows: Rows): map<PasteId, int> {
    map id | id in rows :: rows[id].paste.createdAt
  }

  /** A complete answer to the query without LIMIT. */
  ghost predicate Listing(list: seq<PasteId>, rows: Rows, now: int) {
    && (forall id :: id in list <==> Shown(rows, id, now))
    && NoRepeats(list) && NewestFirst(list, rows)
  }

  function Min(a: int, b: int): int { if a <= b then a else b }

  /** (page - 1) * limit on an int64; a negative OFFSET counts as none. */
  function OffsetOf(page: int, limit: int): nat {
    var offset := Wrap64((page - 1) * limit);
    if offset < 0 then 0 else offset
  }

  /** The entries of a list that LIMIT limit OFFSET (page - 1) * limit leaves. */
  function PageOf(list: seq<PasteId>, page: int, limit: int): seq<PasteId>
    requires page >= 1 && limit >= 1
  {
    var lo := Min(OffsetOf(page, limit), |list|);
    list[lo..Min(lo + limit, |list|)]
  }

  function ClampPage(page: int): int { if page < 1 then 1 else page }

  function ClampLimit(limit: int): int { if limit < 1 then 1 else limit }

  /** The items of a page of some listing. */
  ghost predicate PageAnswer(rows: Rows, page: int, limit: int, now: int, items: seq<PasteId>) {
    exists list :: Listing(list, rows, now) && items == PageOf(list, ClampPage(page), ClampLimit(limit))
  }

  function ShownIds(rows: Rows, now: int): set<PasteId> {
    set id | id in rows && Shown(rows, id, now)
  }

  /** An answer of GetPublicPastes: the total of the table when counted, and a page of the table when listed. */
  ghost predicate Answer(counted: Rows, rows: Rows, page: int, limit: int, now: int, items: seq<PasteId>, total: int) {
    total == |ShownIds(counted, now)| && PageAnswer(rows, page, limit, now, items)
  }

  function PageCount(total: nat, limit: int): nat
    requires limit >= 1
  {
    (total + limit - 1) / limit
  }

  // --- Answering the query ---

  /** Two queries at one clock reading; the table may change between them. */
  method GetPublicPastes(counted: Rows, rows: Rows, page: int, limit: int, now: int) returns (items: seq<PasteId>, total: int)
    ensures Answer(counted, rows, page, limit, now, items, total)
    ensures forall i :: 0 <= i < |items| ==>
              && items[i] in rows && rows[items[i]].paste.visibility == 0
              && (rows[items[i]].paste.expiresAt.None? || now < rows[items[i]].paste.expiresAt.value)
    ensures forall i, j :: 0 <= i < j < |items| ==>
              items[i] in rows && items[j] in rows && rows[items[j]].paste.createdAt <= rows[items[i]].paste.createdAt
    ensures |items| <= ClampLimit(limit)
  {
    total := |ShownIds(counted, now)|;
    var list := SortDescending(map id | id in rows && Shown(rows, id, now) :: rows[id].paste.createdAt);
    items := PageOf(list, ClampPage(page), ClampLimit(limit));
    assert Listing(list, rows, now);
    hide Listing, PageOf;
    PageItems(list, rows, ClampPage(page), ClampLimit(limit), now);
  }

  /** What a page holds is visible and newest first. */
  lemma PageItems(list: seq<PasteId>, rows: Rows, page: int, limit: int, now: int)
    requires Listing(list, rows, now) && page >= 1 && limit >= 1
    ensures var items := PageOf(list, page, limit);
            && |items| <= limit
            && (forall i :: 0 <= i < |items| ==>
                  && items[i] in rows && rows[items[i]].paste.visibility == 0
                  && (rows[items[i]].paste.expiresAt.None? || now < rows[items[i]].paste.expiresAt.value))
            && (forall i, j :: 0 <= i < j < |items| ==>
                  items[i] in rows && items[j] in rows && rows[items[j]].paste.createdAt <= rows[items[i]].paste.createdAt)
  {
    hide Wrap64, NoRepeats;
    var items, lo := PageOf(list, page, limit), Min(OffsetOf(page, limit), |list|);
    forall i | 0 <= i < |items|
      ensures items[i] in rows && rows[items[i]].paste.visibility == 0
      ensures rows[items[i]].paste.expiresAt.None? || now < rows[items[i]].paste.expiresAt.value
      ensures items[i] == list[lo + i]
    {
      assert items[i] == list[lo + i] && list[lo + i] in list;
    }
  }

  /** A listing holds every public paste that has not expired, and nothing else; so does the count. */
  lemma ListedIff(list: seq<PasteId>, rows: Rows, now: int, id: PasteId)
    requires Listing(list, rows, now)
    ensures id in list <==>
            && id in rows && rows[id].paste.visibility == 0
            && (rows[id].paste.expiresAt.None? || now < rows[id].paste.expiresAt.value)
    ensures id in list <==> id in ShownIds(rows, now)
  {
    hide NewestFirst;
  }

  /** A page below 1 is page 1, a limit below 1 is 1. */
  lemma ClampedAnswer(rows: Rows, page: int, limit: int, now: int, items: seq<PasteId>)
    ensures PageAnswer(rows, page, limit, now, items)
            <==> PageAnswer(rows, if page < 1 then 1 else page, if limit < 1 then 1 else limit, now, items)
  {
    hide Listing, PageOf;
  }

  /** Counted on the table that is listed, the total is the length of every listing. */
  lemma TotalIsLength(list: seq<PasteId>, rows: Rows, now: int)
    requires Listing(list, rows, now)
    ensures |ShownIds(rows, now)| == |list|
  {
    hide Shown, NewestFirst;
    DistinctCount(list);
    forall id ensures id in Elements(list) <==> id in ShownIds(rows, now) {
      ShownIsThere(rows, id, now);
    }
    assert Elements(list) == ShownIds(rows, now);
  }

  // --- The handler ---

  datatype PageResponse = PageResponse(items: seq<PasteId>, page: int, limit: int, total: int, pages: int)

  /** ListPastes: a page from 1, a limit from 1 to 250 that is 250 unless a smaller one is asked for. */
  method ListPastes(counted: Rows, rows: Rows, pageParam: string, limitParam: string, now: int) returns (r: PageResponse)
    ensures r.page >= 1 && 1 <= r.limit <= 250
    ensures AtoiValue(pageParam) >= 1 ==> r.page == AtoiValue(pageParam)
    ensures AtoiValue(pageParam) < 1 ==> r.page == 1
    ensures 1 <= AtoiValue(limitParam) <= 250 ==> r.limit == AtoiValue(limitParam)
    ensures !(1 <= AtoiValue(limitParam) <= 250) ==> r.limit == 250
    ensures Answer(counted, rows, r.page, r.limit, now, r.items, r.total)
    ensures r.pages * r.limit >= r.total && (r.pages - 1) * r.limit < r.total
  {
    hide Answer, AtoiValue;
    var page := AtoiValue(pageParam);
    if page < 1 {
      page := 1;
    }
    var limit := AtoiValue(limitParam);
    if limit < 1 {
      limit := 250;
    }
    if limit > 250 {
      limit := 250;
    }
    var items, total := GetPublicPastes(counted, rows, page, limit, now);
    TotalIsCount(counted, rows, page, limit, now, items, total);
    PageCountCovers(total, limit);
    r := PageResponse(items, page, limit, total, PageCount(total, limit));
  }

  lemma TotalIsCount(counted: Rows, rows: Rows, page: int, limit: int, now: int, items: seq<PasteId>, total: int)
    requires Answer(counted, rows, page, limit, now, items, total)
    ensures total >= 0
  {
  }

  // --- The sweep is invisible ---

  lemma SweptShown(rows: Rows, at: int, now: int, id: PasteId)
    requires at <= now
    ensures Shown(WithoutExpired(rows, at), id, now) == Shown(rows, id, now)
    ensures Shown(rows, id, now) ==> WithoutExpired(rows, at)[id] == rows[id]
  {
  }

  lemma SweptListing(rows: Rows, at: int, now: int, list: seq<PasteId>)
    requires at <= now
    ensures Listing(list, WithoutExpired(rows, at), now) <==> Listing(list, rows, now)
  {
    hide Shown, WithoutExpired, NoRepeats;
    forall id
      ensures Shown(WithoutExpired(rows, at), id, now) == Shown(rows, id, now)
      ensures Shown(rows, id, now) ==> id in rows && id in WithoutExpired(rows, at) && WithoutExpired(rows, at)[id] == rows[id]
    {
      SweptShown(rows, at, now, id);
      ShownIsThere(rows, id, now);
      ShownIsThere(WithoutExpired(rows, at), id, now);
    }
  }

  lemma ShownIsThere(rows: Rows, id: PasteId, now: int)
    ensures Shown(rows, id, now) ==> id in rows
  {
  }

  /**
   Sweeping expired pastes at one time changes neither the total nor any page at any later
   time, nor any row they show; so it may also fall between the two queries of an answer.
   */
  lemma SweepIsInvisible(rows: Rows, at: int, page: int, limit: int, now: int, items: seq<PasteId>)
    requires at <= now
    ensures PageAnswer(WithoutExpired(rows, at), page, limit, now, items) <==> PageAnswer(rows, page, limit, now, items)
    ensures ShownIds(WithoutExpired(rows, at), now) == ShownIds(rows, now)
    ensures forall id :: Shown(rows, id, now) ==> id in WithoutExpired(rows, at) && WithoutExpired(rows, at)[id] == rows[id]
  {
    hide Listing, PageOf;
    forall list ensures Listing(list, WithoutExpired(rows, at), now) <==> Listing(list, rows, now) {
      SweptListing(rows, at, now, list);
    }
  }

  // --- A page number past the int64 range ---

  /** The entries of page number page, whatever its size. */
  function TruePage(list: seq<PasteId>, page: int, limit: int): seq<PasteId>
    requires page >= 1 && limit >= 1
  {
    var lo := Min(MaxZero((page - 1) * limit), |list|);
    list[lo..Min(lo + limit, |list|)]
  }

  function MaxZero(x: int): nat { if x < 0 then 0 else x }

  /**
   An answer holds the page that was asked for if and only if the offset fits an int64 or
   what it wraps to still lies past the end.
   */
  lemma PageIsTrueIff(list: seq<PasteId>, page: int, limit: int)
    requires page >= 1 && limit >= 1 && |list| <= MAX_INT64
    ensures PageOf(list, page, limit) == TruePage(list, page, limit)
            <==> (page - 1) * limit <= MAX_INT64 || |list| <= OffsetOf(page, limit)
  {
    hide Wrap64;
    Multiples(page - 1, limit);
    var offset := (page - 1) * limit;
    if offset > MAX_INT64 {
      assert TruePage(list, page, limit) == [];
      assert |PageOf(list, page, limit)| == Min(Min(OffsetOf(page, limit), |list|) + limit, |list|) - Min(OffsetOf(page, limit), |list|);
    }
  }

  /** The largest page number at the default limit shows the first page again. */
  lemma LargestPageShowsFirst(list: seq<PasteId>)
    ensures PageOf(list, MAX_INT64, 250) == PageOf(list, 1, 250)
  {
    assert Wrap64((MAX_INT64 - 1) * 250) == -500;
    assert OffsetOf(MAX_INT64, 250) == 0 && OffsetOf(1, 250) == 0;
  }

  // --- Pages ---

  function TimeOf(rows: Rows, id: PasteId): int
    requires id in rows
  {
    rows[id].paste.createdAt
  }

  lemma ListedInRows(list: seq<PasteId>, rows: Rows, now: int)
    requires Listing(list, rows, now)
    ensures forall i :: 0 <= i < |list| ==> list[i] in rows && Shown(rows, list[i], now)
    ensures forall i, j :: 0 <= i < j < |list| ==> list[i] != list[j]
    ensures forall i, j :: 0 <= i <= j < |list| ==> TimeOf(rows, list[j]) <= TimeOf(rows, list[i])
  {
    forall i | 0 <= i < |list| ensures list[i] in rows && Shown(rows, list[i], now) {
      assert list[i] in list;
    }
  }

  lemma SameLength(a: seq<PasteId>, b: seq<PasteId>, rows: Rows, now: int)
    requires Listing(a, rows, now) && Listing(b, rows, now)
    ensures |a| == |b|
  {
    DistinctCount(a);
    DistinctCount(b);
    assert Elements(a) == Elements(b);
  }

  /** A list cannot hold i + 1 different pastes among i. */
  lemma TooMany(a: seq<PasteId>, b: seq<PasteId>)
    requires NoRepeats(a) && NoRepeats(b) && |a| > |b|
    ensures exists i :: 0 <= i < |a| && a[i] !in b
  {
    hide NoRepeats;
    if forall i :: 0 <= i < |a| ==> a[i] in b {
      DistinctCount(a);
      DistinctCount(b);
      SubsetCount(Elements(a), Elements(b));
      assert false;
    }
  }

  /** So what stands at position i of one listing is not newer than what stands there in another. */
  lemma NotEarlier(a: seq<PasteId>, b: seq<PasteId>, rows: Rows, now: int, i: nat)
    requires Listing(a, rows, now) && Listing(b, rows, now) && i < |a| && i < |b|
    requires a[i] in rows && b[i] in rows
    ensures TimeOf(rows, a[i]) <= TimeOf(rows, b[i])
  {
    ListedInRows(a, rows, now);
    ListedInRows(b, rows, now);
    TooMany(a[..i + 1], b[..i]);
    hide NoRepeats, NewestFirst, Shown;
    var j :| 0 <= j < i + 1 && a[..i + 1][j] !in b[..i];
    assert a[j] in a && a[j] in b;
    assert forall m :: 0 <= m < i ==> b[m] == b[..i][m];
    var k :| 0 <= k < |b| && b[k] == a[j];
    assert k >= i;
  }

  /** All listings show the same creation times in the same places. */
  lemma SameTimes(a: seq<PasteId>, b: seq<PasteId>, rows: Rows, now: int)
    requires Listing(a, rows, now) && Listing(b, rows, now)
    ensures |a| == |b|
    ensures forall i :: 0 <= i < |a| ==> a[i] in rows && b[i] in rows && TimeOf(rows, a[i]) == TimeOf(rows, b[i])
  {
    hide Listing;
    SameLength(a, b, rows, now);
    ListedInRows(a, rows, now);
    ListedInRows(b, rows, now);
    forall i | 0 <= i < |a| ensures a[i] in rows && b[i] in rows && TimeOf(rows, a[i]) == TimeOf(rows, b[i]) {
      NotEarlier(a, b, rows, now, i);
      NotEarlier(b, a, rows, now, i);
    }
  }

  /** Two pastes of one creation time on either side of the end of a page. */
  ghost predicate TieAt(list: seq<PasteId>, rows: Rows, k: int) {
    0 < k < |list| && list[k - 1] in rows && list[k] in rows && TimeOf(rows, list[k - 1]) == TimeOf(rows, list[k])
  }

  ghost predicate TieAcrossPages(list: seq<PasteId>, rows: Rows, limit: int) {
    exists p: nat :: TieAt(list, rows, PageEnd(p, limit))
  }

  function PageEnd(p: nat, limit: int): int { p * limit }

  function Concat(pages: seq<seq<PasteId>>): seq<PasteId> {
    if pages == [] then [] else Concat(pages[..|pages| - 1]) + pages[|pages| - 1]
  }

  lemma Multiples(p: nat, limit: int)
    requires limit >= 1
    ensures (p + 1) * limit == p * limit + limit && p * limit >= 0
  {
  }

  lemma PageCountCovers(total: nat, limit: int)
    requires limit >= 1
    ensures var n := PageCount(total, limit); n >= 0 && total <= n * limit && (n - 1) * limit < total
  {
    var x := total + limit - 1;
    var n := x / limit;
    assert x == n * limit + x % limit;
    assert n >= 0;
    assert (n - 1) * limit == n * limit - limit;
  }

  /** Within an int64, page p + 1 is the stretch from p * limit. */
  lemma PageIsStretch(list: seq<PasteId>, p: nat, limit: int)
    requires limit >= 1 && PageEnd(p, limit) <= |list| <= MAX_INT64
    ensures PageEnd(p, limit) >= 0
    ensures PageOf(list, p + 1, limit) == list[PageEnd(p, limit)..Min(PageEnd(p, limit) + limit, |list|)]
  {
    Multiples(p, limit);
  }

  /** The page that position i is on. */
  lemma PageOfPosition(i: nat, limit: int, n: nat, total: nat)
    requires limit >= 1 && i < total && n == PageCount(total, limit)
    ensures var p := i / limit; 0 <= p < n && PageEnd(p, limit) <= i < PageEnd(p, limit) + limit
  {
    var p := i / limit;
    assert i == p * limit + i % limit;
    PageCountCovers(total, limit);
    if p >= n { MulMonotone(n, p, limit); }
  }

  /** Pages cut from listings of this length fill up, position by position. */
  ghost predicate CutFrom(pages: seq<seq<PasteId>>, lists: seq<seq<PasteId>>, limit: int, total: nat) {
    && |lists| == |pages| && limit >= 1 && total <= MAX_INT64 && |pages| <= PageCount(total, limit)
    && forall p :: 0 <= p < |pages| ==> |lists[p]| == total && pages[p] == PageOf(lists[p], p + 1, limit)
  }

  lemma PageStartsInside(p: nat, n: nat, limit: int, total: nat)
    requires limit >= 1 && p < n <= PageCount(total, limit)
    ensures 0 <= PageEnd(p, limit) < total && PageEnd(p + 1, limit) == PageEnd(p, limit) + limit
    ensures p + 1 < PageCount(total, limit) ==> PageEnd(p, limit) + limit < total
  {
    Multiples(p, limit);
    PageCountCovers(total, limit);
    MulMonotone(p, PageCount(total, limit) - 1, limit);
    MulMonotone(p + 1, PageCount(total, limit) - 1, limit);
  }

  /** On page p + 1 the concatenation shows what list shows there. */
  ghost predicate FilledFrom(c: seq<PasteId>, list: seq<PasteId>, limit: int, p: nat) {
    SameStretch(c, list, PageEnd(p, limit), PageEnd(p, limit) + limit)
  }

  /** The two lists agree from lo up to hi, as far as the first goes. */
  ghost predicate SameStretch(c: seq<PasteId>, list: seq<PasteId>, lo: int, hi: int) {
    |c| <= |list| && forall i :: 0 <= i < |c| && lo <= i < hi ==> c[i] == list[i]
  }

  lemma StretchLonger(c: seq<PasteId>, more: seq<PasteId>, list: seq<PasteId>, lo: int, hi: int)
    requires SameStretch(c, list, lo, hi) && hi <= |c| && |c + more| <= |list|
    ensures SameStretch(c + more, list, lo, hi)
  {
  }

  lemma FilledLonger(c: seq<PasteId>, more: seq<PasteId>, list: seq<PasteId>, limit: int, p: nat)
    requires FilledFrom(c, list, limit, p) && PageEnd(p, limit) + limit <= |c| && |c + more| <= |list|
    ensures FilledFrom(c + more, list, limit, p)
  {
    StretchLonger(c, more, list, PageEnd(p, limit), PageEnd(p, limit) + limit);
  }

  lemma FilledLast(c: seq<PasteId>, list: seq<PasteId>, limit: int, p: nat)
    requires |c| == PageEnd(p, limit) <= |list| && limit >= 1
    ensures FilledFrom(c + list[|c|..Min(|c| + limit, |list|)], list, limit, p)
  {
    hide PageEnd;
  }

  lemma {:induction false} ConcatPositions(pages: seq<seq<PasteId>>, lists: seq<seq<PasteId>>, limit: int, total: nat)
    requires CutFrom(pages, lists, limit, total)
    ensures |Concat(pages)| == Min(MaxZero(PageEnd(|pages|, limit)), total)
    ensures forall p :: 0 <= p < |pages| ==> FilledFrom(Concat(pages), lists[p], limit, p)
    decreases |pages|
  {
    hide PageCount, PageOf, PageEnd, FilledFrom;
    if pages == [] {
      assert PageEnd(0, limit) == 0 by { NoPages(limit); }
    } else {
      var n := |pages| - 1;
      var front := Concat(pages[..n]);
      ConcatPositions(pages[..n], lists[..n], limit, total);
      PageStartsInside(n, |pages|, limit, total);
      PageIsStretch(lists[n], n, limit);
      FilledLast(front, lists[n], limit, n);
      forall p | 0 <= p < n ensures FilledFrom(Concat(pages), lists[p], limit, p) {
        assert FilledFrom(front, lists[..n][p], limit, p);
        PageEndsInOrder(p, n, limit);
        FilledLonger(front, pages[n], lists[p], limit, p);
      }
    }
  }

  lemma PageEndsInOrder(p: nat, n: nat, limit: int)
    requires p < n && limit >= 1
    ensures 0 <= PageEnd(p, limit) && PageEnd(p, limit) + limit <= PageEnd(n, limit)
  {
    Multiples(p, limit);
    MulMonotone(p + 1, n, limit);
  }

  lemma NoPages(limit: int)
    ensures PageEnd(0, limit) == 0
  {
  }

  /** Answers of the listing for pages 1 to n, each taken on its own. */
  ghost predicate Answers(rows: Rows, limit: int, now: int, pages: seq<seq<PasteId>>, n: nat) {
    |pages| == n && forall p :: 0 <= p < n ==> PageAnswer(rows, p + 1, limit, now, pages[p])
  }

  ghost predicate AllListings(lists: seq<seq<PasteId>>, rows: Rows, now: int) {
    forall p :: 0 <= p < |lists| ==> Listing(lists[p], rows, now)
  }

  /** The listings that answers were cut from. */
  lemma {:induction false} ListsBehind(rows: Rows, limit: int, now: int, pages: seq<seq<PasteId>>, n: nat) returns (lists: seq<seq<PasteId>>)
    requires limit >= 1 && Answers(rows, limit, now, pages, n)
    ensures |lists| == n && AllListings(lists, rows, now)
    ensures forall p :: 0 <= p < n ==> pages[p] == PageOf(lists[p], p + 1, limit)
    decreases n
  {
    hide Listing, PageOf;
    if n == 0 {
      lists := [];
    } else {
      var front := ListsBehind(rows, limit, now, pages[..n - 1], n - 1);
      assert PageAnswer(rows, n, limit, now, pages[n - 1]);
      var list :| Listing(list, rows, now) && pages[n - 1] == PageOf(list, ClampPage(n), ClampLimit(limit));
      lists := front + [list];
    }
  }

  lemma ListsCut(list: seq<PasteId>, rows: Rows, limit: int, now: int, pages: seq<seq<PasteId>>, lists: seq<seq<PasteId>>)
    requires limit >= 1 && |list| <= MAX_INT64 && Listing(list, rows, now) && AllListings(lists, rows, now)
    requires |pages| == |lists| == PageCount(|list|, limit)
    requires forall p :: 0 <= p < |pages| ==> pages[p] == PageOf(lists[p], p + 1, limit)
    ensures CutFrom(pages, lists, limit, |list|)
    ensures |Concat(pages)| == |list|
    ensures forall p :: 0 <= p < |pages| ==> FilledFrom(Concat(pages), lists[p], limit, p)
  {
    hide Listing, PageCount, PageOf, Concat, FilledFrom;
    forall p | 0 <= p < |lists| ensures |lists[p]| == |list| {
      SameLength(list, lists[p], rows, now);
    }
    ConcatPositions(pages, lists, limit, |list|);
    PageCountCovers(|list|, limit);
  }

  /** Position i of the concatenation comes from the listing behind its page, and has the time it has in any listing. */
  lemma Position(list: seq<PasteId>, rows: Rows, limit: int, now: int, c: seq<PasteId>, lists: seq<seq<PasteId>>, i: nat)
    requires limit >= 1 && Listing(list, rows, now) && AllListings(lists, rows, now) && |lists| == PageCount(|list|, limit)
    requires |c| == |list| && i < |c| && forall p :: 0 <= p < |lists| ==> FilledFrom(c, lists[p], limit, p)
    ensures var p := i / limit;
            && 0 <= p < |lists| && PageEnd(p, limit) <= i < PageEnd(p, limit) + limit
            && i < |lists[p]| && c[i] == lists[p][i]
    ensures i < |list| && c[i] in rows && list[i] in rows && Shown(rows, c[i], now) && TimeOf(rows, c[i]) == TimeOf(rows, list[i])
  {
    hide Listing, PageCount, PageEnd, Shown;
    var p := i / limit;
    PageOfPosition(i, limit, |lists|, |list|);
    assert FilledFrom(c, lists[p], limit, p);
    SameTimes(list, lists[p], rows, now);
    ListedInRows(lists[p], rows, now);
  }

  /** Two positions of the concatenation hold one paste only if they lie on different pages, and then a tie lies between. */
  lemma RepeatIsTie(list: seq<PasteId>, rows: Rows, limit: int, now: int, c: seq<PasteId>, lists: seq<seq<PasteId>>, i: nat, j: nat)
    requires limit >= 1 && Listing(list, rows, now) && AllListings(lists, rows, now) && |lists| == PageCount(|list|, limit)
    requires |c| == |list| && i < j < |c| && forall p :: 0 <= p < |lists| ==> FilledFrom(c, lists[p], limit, p)
    requires c[i] == c[j]
    ensures TieAcrossPages(list, rows, limit)
  {
    hide Listing, PageCount, FilledFrom, AllListings, PageEnd, Shown;
    Position(list, rows, limit, now, c, lists, i);
    Position(list, rows, limit, now, c, lists, j);
    var p, q := i / limit, j / limit;
    assert Listing(lists[p], rows, now) by { ListingAt(lists, rows, now, p); }
    ListedInRows(lists[p], rows, now);
    assert p != q;
    if q < p { PageEndsInOrder(q, p, limit); }
    PageEndsInOrder(p, q, limit);
    ListedInRows(list, rows, now);
    assert TieAt(list, rows, PageEnd(q, limit));
  }

  lemma ListingAt(lists: seq<seq<PasteId>>, rows: Rows, now: int, p: nat)
    requires AllListings(lists, rows, now) && p < |lists|
    ensures Listing(lists[p], rows, now)
  {
  }

  /** As many different shown pastes as there are is all of them. */
  lemma AllShown(list: seq<PasteId>, rows: Rows, now: int, c: seq<PasteId>)
    requires Listing(list, rows, now) && |c| == |list| && NoRepeats(c)
    requires forall i :: 0 <= i < |c| ==> Shown(rows, c[i], now)
    ensures forall x :: x in c <==> Shown(rows, x, now)
  {
    hide Shown, NoRepeats, NewestFirst;
    forall x | x in c ensures x in list {
      var i :| 0 <= i < |c| && c[i] == x;
    }
    DistinctCount(c);
    DistinctCount(list);
    SubsetCount(Elements(c), Elements(list));
    forall x ensures x in c <==> x in list { assert x in Elements(c) <==> x in Elements(list); }
  }

  lemma DescendingByTimes(list: seq<PasteId>, rows: Rows, now: int, c: seq<PasteId>)
    requires Listing(list, rows, now) && |c| == |list|
    requires forall i :: 0 <= i < |c| ==> c[i] in rows && list[i] in rows && Shown(rows, c[i], now) && TimeOf(rows, c[i]) == TimeOf(rows, list[i])
    requires NoRepeats(c)
    ensures Listing(c, rows, now)
  {
    AllShown(list, rows, now, c);
    ListedInRows(list, rows, now);
    hide Shown, NoRepeats;
    assert forall x :: x in c ==> x in rows;
    forall i, j | 0 <= i < j < |c| ensures CreationTimes(rows)[c[j]] <= CreationTimes(rows)[c[i]] {
      assert TimeOf(rows, list[j]) <= TimeOf(rows, list[i]);
    }
    assert NewestFirst(c, rows);
  }

  lemma CoverWithoutTies(list: seq<PasteId>, rows: Rows, limit: int, now: int, pages: seq<seq<PasteId>>)
    requires limit >= 1 && |list| <= MAX_INT64 && Listing(list, rows, now) && !TieAcrossPages(list, rows, limit)
    requires Answers(rows, limit, now, pages, PageCount(|list|, limit))
    ensures Listing(Concat(pages), rows, now)
  {
    hide Listing, PageCount, PageOf, TieAcrossPages, FilledFrom, Concat, AllListings, Shown, CutFrom;
    var lists := ListsBehind(rows, limit, now, pages, PageCount(|list|, limit));
    ListsCut(list, rows, limit, now, pages, lists);
    var c := Concat(pages);
    forall i, j | 0 <= i < j < |c| ensures c[i] != c[j] {
      if c[i] == c[j] {
        RepeatIsTie(list, rows, limit, now, c, lists, i, j);
        assert false;
      }
    }
    forall i | 0 <= i < |c| ensures c[i] in rows && list[i] in rows && Shown(rows, c[i], now) && TimeOf(rows, c[i]) == TimeOf(rows, list[i]) {
      Position(list, rows, limit, now, c, lists, i);
    }
    DescendingByTimes(list, rows, now, c);
  }

  /** The other order of two pastes of one creation time. */
  lemma SwappedListing(list: seq<PasteId>, rows: Rows, now: int, k: int)
    requires Listing(list, rows, now) && TieAt(list, rows, k)
    ensures Listing(list[k - 1 := list[k]][k := list[k - 1]], rows, now)
  {
    var c := list[k - 1 := list[k]][k := list[k - 1]];
    ListedInRows(list, rows, now);
    forall i, j | 0 <= i < j < |c| ensures c[i] != c[j] {
    }
    DescendingByTimes(list, rows, now, c);
  }

  /** The answers cut from one listing, but for page p + 1, which is cut from another. */
  function Chosen(list: seq<PasteId>, other: seq<PasteId>, p: nat, i: nat): seq<PasteId> {
    if i == p then other else list
  }

  function MixedPages(list: seq<PasteId>, other: seq<PasteId>, p: nat, n: nat, limit: int): seq<seq<PasteId>>
    requires limit >= 1
  {
    seq(n, i requires 0 <= i < n => PageOf(Chosen(list, other, p, i), i + 1, limit))
  }

  lemma MixedAnswers(list: seq<PasteId>, other: seq<PasteId>, rows: Rows, p: nat, n: nat, limit: int, now: int)
    requires limit >= 1 && Listing(list, rows, now) && Listing(other, rows, now)
    ensures Answers(rows, limit, now, MixedPages(list, other, p, n, limit), n)
  {
    hide Listing, PageOf;
    var pages := MixedPages(list, other, p, n, limit);
    forall i | 0 <= i < n ensures PageAnswer(rows, i + 1, limit, now, pages[i]) {
      assert Listing(Chosen(list, other, p, i), rows, now) && pages[i] == PageOf(Chosen(list, other, p, i), ClampPage(i + 1), ClampLimit(limit));
    }
  }

  lemma MixedFilled(list: seq<PasteId>, other: seq<PasteId>, rows: Rows, p: nat, limit: int, now: int)
    requires limit >= 1 && |list| <= MAX_INT64 && Listing(list, rows, now) && Listing(other, rows, now)
    ensures var n := PageCount(|list|, limit);
            var c := Concat(MixedPages(list, other, p, n, limit));
            && |c| == |list|
            && forall i :: 0 <= i < n ==> FilledFrom(c, Chosen(list, other, p, i), limit, i)
  {
    hide Listing, PageOf, PageCount, Concat, FilledFrom, CutFrom;
    var n := PageCount(|list|, limit);
    var lists := seq(n, i requires 0 <= i < n => Chosen(list, other, p, i));
    var pages := MixedPages(list, other, p, n, limit);
    ListsCut(list, rows, limit, now, pages, lists);
    forall i | 0 <= i < n ensures FilledFrom(Concat(pages), Chosen(list, other, p, i), limit, i) {
      assert FilledFrom(Concat(pages), lists[i], limit, i);
    }
  }

  /** The last of page p and the first of page p + 1, which shows the swapped order, are the same paste. */
  lemma BothSides(c: seq<PasteId>, list: seq<PasteId>, swapped: seq<PasteId>, p: nat, limit: int)
    requires limit >= 1 && 0 < PageEnd(p, limit) < |list| == |c| == |swapped|
    requires swapped[PageEnd(p, limit)] == list[PageEnd(p, limit) - 1]
    requires forall i :: 0 <= i < PageCount(|list|, limit) ==> FilledFrom(c, Chosen(list, swapped, p, i), limit, i)
    ensures c[PageEnd(p, limit) - 1] == c[PageEnd(p, limit)]
  {
    hide PageCount, FilledFrom, PageEnd;
    var k, n := PageEnd(p, limit), PageCount(|list|, limit);
    PageOfPosition(k - 1, limit, n, |list|);
    PageOfPosition(k, limit, n, |list|);
    OnPageStart(p, limit);
    var q := (k - 1) / limit;
    assert FilledFrom(c, Chosen(list, swapped, p, q), limit, q) && FilledFrom(c, Chosen(list, swapped, p, p), limit, p);
    FilledAt(c, list, limit, q, k - 1);
    FilledAt(c, swapped, limit, p, k);
  }

  /** A tie across the end of a page: answers in which the same paste is on both sides. */
  lemma TieRepeats(list: seq<PasteId>, rows: Rows, limit: int, now: int) returns (pages: seq<seq<PasteId>>)
    requires limit >= 1 && |list| <= MAX_INT64 && Listing(list, rows, now) && TieAcrossPages(list, rows, limit)
    ensures Answers(rows, limit, now, pages, PageCount(|list|, limit))
    ensures !Listing(Concat(pages), rows, now)
  {
    var p: nat :| TieAt(list, rows, PageEnd(p, limit));
    var k := PageEnd(p, limit);
    SwappedListing(list, rows, now, k);
    var swapped := list[k - 1 := list[k]][k := list[k - 1]];
    hide Listing, PageCount, PageOf, FilledFrom, Concat, PageEnd, MixedPages, Answers, TieAt, TieAcrossPages, Chosen;
    pages := MixedPages(list, swapped, p, PageCount(|list|, limit), limit);
    MixedAnswers(list, swapped, rows, p, PageCount(|list|, limit), limit, now);
    MixedFilled(list, swapped, rows, p, limit, now);
    BothSides(Concat(pages), list, swapped, p, limit);
    RepeatedNoListing(Concat(pages), rows, now, k);
  }

  lemma OnPageStart(p: nat, limit: int)
    requires limit >= 1
    ensures PageEnd(p, limit) / limit == p && (p > 0 ==> (PageEnd(p, limit) - 1) / limit != p)
  {
    DivUnique(p * limit, limit, p, 0);
  }

  lemma FilledAt(c: seq<PasteId>, list: seq<PasteId>, limit: int, p: nat, i: nat)
    requires FilledFrom(c, list, limit, p) && i < |c| && PageEnd(p, limit) <= i < PageEnd(p, limit) + limit
    ensures i < |list| && c[i] == list[i]
  {
  }

  lemma RepeatedNoListing(c: seq<PasteId>, rows: Rows, now: int, k: nat)
    requires 0 < k < |c| && c[k - 1] == c[k]
    ensures !Listing(c, rows, now)
  {
    assert !NoRepeats(c);
  }

  /**
   On a fixed table, whatever order the database gives to ties in each query, the answers for
   pages 1 to ceil(total / limit) concatenate to the whole listing if and only if no two
   pastes of one creation time stand on either side of the end of a page.
   */
  lemma PagesCoverIff(rows: Rows, limit: int, now: int, list: seq<PasteId>)
    requires limit >= 1 && |list| <= MAX_INT64 && Listing(list, rows, now)
    ensures (forall pages :: Answers(rows, limit, now, pages, PageCount(|ShownIds(rows, now)|, limit)) ==> Listing(Concat(pages), rows, now))
            <==> !TieAcrossPages(list, rows, limit)
  {
    hide Listing, PageCount, TieAcrossPages, Concat, Answers, ShownIds;
    TotalIsLength(list, rows, now);
    if TieAcrossPages(list, rows, limit) {
      var pages := TieRepeats(list, rows, limit, now);
    } else {
      forall pages | Answers(rows, limit, now, pages, PageCount(|list|, limit)) ensures Listing(Concat(pages), rows, now) {
        CoverWithoutTies(list, rows, limit, now, pages);
      }
    }
  }

  /** And every page but the last is full, ties or not. */
  lemma PagesFull(rows: Rows, limit: int, now: int, list: seq<PasteId>, pages: seq<seq<PasteId>>)
    requires limit >= 1 && |list| <= MAX_INT64 && Listing(list, rows, now)
    requires Answers(rows, limit, now, pages, PageCount(|ShownIds(rows, now)|, limit))
    ensures forall p :: 0 <= p < |pages| - 1 ==> |pages[p]| == limit
  {
    hide Listing, PageCount, PageOf, ShownIds;
    TotalIsLength(list, rows, now);
    var lists := ListsBehind(rows, limit, now, pages, PageCount(|list|, limit));
    forall p | 0 <= p < |pages| - 1 ensures |pages[p]| == limit {
      SameLength(list, lists[p], rows, now);
      PageStartsInside(p, |pages|, limit, |list|);
      PageIsStretch(lists[p], p, limit);
    }
  }
}
