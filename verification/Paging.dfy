/** Filtered pagination over the quality index. Nothing else writes between the pages. */
module Paging {
  import opened SortedSets
  import opened Pool

  const LAST_OFFSET := 10000

  datatype Request = Request(minScore: int, maxScore: int, limit: int, health: Option<Health>, source: Option<string>)

  datatype Page = Page(items: seq<Endpoint>, offset: nat, next: Option<nat>)

  predicate ValidRequest(r: Request, offset: int) {
    && 1 <= r.limit <= 200 && 0 <= offset <= LAST_OFFSET
    && 0 <= r.minScore <= r.maxScore <= 100
    && (r.source.Some? ==> 1 <= |r.source.value| <= 64)
  }

  /** What ZREVRANGEBYSCORE lists, of which every read is a slice. */
  ghost predicate IsRanking(quality: map<Endpoint, int>, r: Request, ranking: seq<Endpoint>) {
    && NoDuplicates(ranking)
    && (forall e :: e in ranking <==> e in quality && r.minScore <= quality[e] <= r.maxScore)
    && (forall i, j :: 0 <= i < j < |ranking| ==> quality[ranking[i]] >= quality[ranking[j]])
  }

  predicate Matches(records: map<Endpoint, Record>, r: Request, e: Endpoint) {
    && e in records
    && (r.health.Some? ==> records[e].health == r.health.value)
    && (r.source.Some? ==> r.source.value in records[e].sources)
  }

  /** The listing that the pages cut up: the matches among the given members, in order. */
  function Filtered(records: map<Endpoint, Record>, r: Request, names: seq<Endpoint>): seq<Endpoint> {
    if names == [] then []
    else
      var n := |names| - 1;
      Filtered(records, r, names[..n]) + if Matches(records, r, names[n]) then [names[n]] else []
  }

  /** No offset reaches beyond the first 10001 members. */
  function Window(ranking: seq<Endpoint>): seq<Endpoint> {
    if |ranking| <= LAST_OFFSET + 1 then ranking else ranking[..LAST_OFFSET + 1]
  }

  function Stretch(names: seq<Endpoint>, from: nat, to: nat): seq<Endpoint> {
    if from <= to <= |names| then names[from..to] else []
  }

  /** A page with a successor is full and holds all matches up to where the successor starts;
      a page without one holds all that are left. */
  predicate IsPage(records: map<Endpoint, Record>, r: Request, ranking: seq<Endpoint>, p: Page) {
    var window := Window(ranking);
    && |p.items| <= r.limit
    && (p.next.Some? ==>
          && p.offset < p.next.value <= |window| && p.next.value <= LAST_OFFSET && |p.items| == r.limit
          && p.items == Filtered(records, r, Stretch(window, p.offset, p.next.value)))
    && (p.next.None? ==> p.items == Filtered(records, r, Stretch(window, p.offset, |window|)))
  }

  /** What one read returns: a slice of the ranking, short at its end. */
  function Read(ranking: seq<Endpoint>, from: nat, count: nat): (r: seq<Endpoint>)
    ensures |r| <= count
  {
    if from >= |ranking| then [] else ranking[from..Min(from + count, |ranking|)]
  }

  /** Filter one read until the page is full. */
  method FillFrom(records: map<Endpoint, Record>, r: Request, ghost before: seq<Endpoint>, items0: seq<Endpoint>,
                  members: seq<Endpoint>)
    returns (items: seq<Endpoint>, consumed: nat)
    requires |items0| < r.limit && items0 == Filtered(records, r, before) && members != []
    ensures 0 < consumed <= |members| && |items| <= r.limit && (|items| == r.limit || consumed == |members|)
    ensures items == Filtered(records, r, before + members[..consumed])
  {
    items, consumed := items0, 0;
    ghost var seen := before;
    while consumed < |members| && |items| < r.limit
      invariant consumed <= |members| && |items| <= r.limit && (consumed == 0 ==> |items| < r.limit)
      invariant seen == before + members[..consumed] && items == Filtered(records, r, seen)
    {
      var e := members[consumed];
      consumed := consumed + 1;
      assert (seen + [e])[..|seen|] == seen;
      seen := seen + [e];
      if e !in records {
        continue;
      }
      if r.health.Some? && records[e].health != r.health.value {
        continue;
      }
      if r.source.Some? && r.source.value !in records[e].sources {
        continue;
      }
      items := items + [e];
    }
  }

  /** A read from within the window continues the stretch. */
  lemma ReadContinues(ranking: seq<Endpoint>, from: nat, current: nat, count: nat, consumed: nat)
    requires from <= current && current + count <= LAST_OFFSET + 1 && consumed <= |Read(ranking, current, count)|
    requires Read(ranking, current, count) != []
    ensures current + consumed <= |Window(ranking)|
    ensures Stretch(Window(ranking), from, current) + Read(ranking, current, count)[..consumed]
            == Stretch(Window(ranking), from, current + consumed)
  {
  }

  /** A short read leaves nothing of the window. */
  lemma ShortRead(ranking: seq<Endpoint>, from: nat, current: nat, count: nat)
    requires from <= current && 0 < count && current + count <= LAST_OFFSET + 1
    requires |Read(ranking, current, count)| < count && (from < current ==> current <= |Window(ranking)|)
    ensures Stretch(Window(ranking), from, current + |Read(ranking, current, count)|)
            == Stretch(Window(ranking), from, |Window(ranking)|)
  {
  }

  lemma FullPage(records: map<Endpoint, Record>, r: Request, ranking: seq<Endpoint>, p: Page)
    requires p.next.Some? && p.offset < p.next.value <= |Window(ranking)| && p.next.value <= LAST_OFFSET
    requires |p.items| == r.limit
    requires p.items == Filtered(records, r, Stretch(Window(ranking), p.offset, p.next.value))
    ensures IsPage(records, r, ranking, p)
  {
  }

  lemma LastPage(records: map<Endpoint, Record>, r: Request, ranking: seq<Endpoint>, p: Page, current: nat)
    requires p.next.None? && |p.items| <= r.limit
    requires p.items == Filtered(records, r, Stretch(Window(ranking), p.offset, current))
    requires Stretch(Window(ranking), p.offset, current) == Stretch(Window(ranking), p.offset, |Window(ranking)|)
    ensures IsPage(records, r, ranking, p)
  {
  }

  /** Where a page stands before its next read. */
  ghost predicate Underway(records: map<Endpoint, Record>, r: Request, ranking: seq<Endpoint>, offset: nat,
                           current: nat, items: seq<Endpoint>)
  {
    && offset <= current <= LAST_OFFSET + 1 && (offset < current ==> current <= |Window(ranking)|)
    && |items| < r.limit && items == Filtered(records, r, Stretch(Window(ranking), offset, current))
  }

  /** After a read of `members` of which `consumed` were looked at: the page, if it is complete. */
  method Conclude(records: map<Endpoint, Record>, r: Request, ranking: seq<Endpoint>, offset: nat, current: nat,
                  fetchCount: nat, consumed: nat, items: seq<Endpoint>)
    returns (page: Option<Page>)
    requires offset <= current && 0 < fetchCount && current + fetchCount <= LAST_OFFSET + 1
    requires 0 < consumed <= |Read(ranking, current, fetchCount)| && current + consumed <= |Window(ranking)|
    requires |items| <= r.limit && (|items| == r.limit || consumed == |Read(ranking, current, fetchCount)|)
    requires items == Filtered(records, r, Stretch(Window(ranking), offset, current + consumed))
    ensures page.Some? ==> page.value.offset == offset && IsPage(records, r, ranking, page.value)
    ensures page.None? ==> |items| < r.limit
  {
    var members := Read(ranking, current, fetchCount);
    var hasMore := consumed < |members| || |members| == fetchCount;
    if !hasMore {
      ShortRead(ranking, offset, current, fetchCount);
      LastPage(records, r, ranking, Page(items, offset, None), current + consumed);
      return Some(Page(items, offset, None));
    }
    if |items| == r.limit {
      if current + consumed <= LAST_OFFSET {
        FullPage(records, r, ranking, Page(items, offset, Some(current + consumed)));
        return Some(Page(items, offset, Some(current + consumed)));
      }
      LastPage(records, r, ranking, Page(items, offset, None), current + consumed);
      return Some(Page(items, offset, None));
    }
    page := None;
  }

  function FetchCount(limit: int, current: nat): (n: nat)
    requires current <= LAST_OFFSET
    ensures 0 < n <= LAST_OFFSET + 1 - current
  {
    Min(Min(if limit * 5 >= 50 then limit * 5 else 50, 1001), LAST_OFFSET + 1 - current)
  }

  lemma NothingLeft(records: map<Endpoint, Record>, r: Request, ranking: seq<Endpoint>, offset: nat, current: nat,
                    items: seq<Endpoint>, fetchCount: nat)
    requires Underway(records, r, ranking, offset, current, items)
    requires 0 < fetchCount && current + fetchCount <= LAST_OFFSET + 1 && Read(ranking, current, fetchCount) == []
    ensures IsPage(records, r, ranking, Page(items, offset, None))
  {
    ShortRead(ranking, offset, current, fetchCount);
    LastPage(records, r, ranking, Page(items, offset, None), current);
  }

  /** One read, filtered until the page is full. */
  method FillNext(records: map<Endpoint, Record>, r: Request, ranking: seq<Endpoint>, offset: nat, current: nat,
                  fetchCount: nat, items0: seq<Endpoint>)
    returns (items: seq<Endpoint>, consumed: nat)
    requires Underway(records, r, ranking, offset, current, items0)
    requires current + fetchCount <= LAST_OFFSET + 1 && Read(ranking, current, fetchCount) != []
    ensures 0 < consumed <= |Read(ranking, current, fetchCount)| && current + consumed <= |Window(ranking)|
    ensures |items| <= r.limit && (|items| == r.limit || consumed == |Read(ranking, current, fetchCount)|)
    ensures items == Filtered(records, r, Stretch(Window(ranking), offset, current + consumed))
  {
    ghost var before := Stretch(Window(ranking), offset, current);
    var members := Read(ranking, current, fetchCount);
    items, consumed := FillFrom(records, r, before, items0, members);
    ReadContinues(ranking, offset, current, fetchCount, consumed);
  }

  /** One read, which may complete the page. */
  method FetchOnce(records: map<Endpoint, Record>, r: Request, ranking: seq<Endpoint>, offset: nat, current0: nat,
                   items0: seq<Endpoint>)
    returns (page: Option<Page>, current: nat, items: seq<Endpoint>)
    requires Underway(records, r, ranking, offset, current0, items0) && current0 <= LAST_OFFSET
    ensures page.Some? ==> page.value.offset == offset && IsPage(records, r, ranking, page.value)
    ensures page.None? ==> current0 < current && Underway(records, r, ranking, offset, current, items)
  {
    current, items := current0, items0;
    var fetchCount := FetchCount(r.limit, current);
    var members := Read(ranking, current, fetchCount);
    if |members| == 0 {
      NothingLeft(records, r, ranking, offset, current, items, fetchCount);
      return Some(Page(items, offset, None)), current, items;
    }
    var consumed;
    items, consumed := FillNext(records, r, ranking, offset, current, fetchCount, items);
    page := Conclude(records, r, ranking, offset, current, fetchCount, consumed, items);
    current := current + consumed;
  }

  method ListProxies(records: map<Endpoint, Record>, r: Request, ranking: seq<Endpoint>, offset: int)
    returns (page: Option<Page>)
    ensures page.Some? <==>
              && 1 <= r.limit <= 200 && 0 <= offset <= 10000 && 0 <= r.minScore <= r.maxScore <= 100
              && (r.source.Some? ==> 1 <= |r.source.value| <= 64)
    ensures page.Some? ==> page.value.offset == offset && IsPage(records, r, ranking, page.value)
  {
    if !ValidRequest(r, offset) {
      return None;
    }
    var items: seq<Endpoint> := [];
    var current: nat := offset;
    while current <= LAST_OFFSET
      invariant Underway(records, r, ranking, offset, current, items)
    {
      page, current, items := FetchOnce(records, r, ranking, offset, current, items);
      if page.Some? {
        return;
      }
    }
    LastPage(records, r, ranking, Page(items, offset, None), current);
    page := Some(Page(items, offset, None));
  }

  // ---------- Following the pages ----------

  /** Pages that start at 0 and each continue where the one before says. */
  predicate IsChain(records: map<Endpoint, Record>, r: Request, ranking: seq<Endpoint>, pages: seq<Page>) {
    && pages != [] && pages[0].offset == 0
    && (forall i :: 0 <= i < |pages| ==> IsPage(records, r, ranking, pages[i]))
    && (forall i :: 0 <= i < |pages| - 1 ==> pages[i].next == Some(pages[i + 1].offset))
  }

  /** The items of the first n pages. */
  function Items(pages: seq<Page>, n: nat): seq<Endpoint>
    requires n <= |pages|
  {
    if n == 0 then [] else Items(pages, n - 1) + pages[n - 1].items
  }

  lemma {:induction false} FilteredAppend(records: map<Endpoint, Record>, r: Request, a: seq<Endpoint>,
                                          b: seq<Endpoint>)
    ensures Filtered(records, r, a + b) == Filtered(records, r, a) + Filtered(records, r, b)
    decreases |b|
  {
    if b == [] {
      assert a + b == a;
    } else {
      var n := |b| - 1;
      FilteredAppend(records, r, a, b[..n]);
      assert (a + b)[..|a| + n] == a + b[..n];
    }
  }

  lemma FilteredUpTo(records: map<Endpoint, Record>, r: Request, window: seq<Endpoint>, from: nat, to: nat)
    requires from <= to <= |window|
    ensures Filtered(records, r, window[..to])
            == Filtered(records, r, window[..from]) + Filtered(records, r, Stretch(window, from, to))
  {
    assert window[..to] == window[..from] + window[from..to];
    FilteredAppend(records, r, window[..from], window[from..to]);
  }

  /** The first n pages hold the matches up to where the next one starts ... */
  lemma {:induction false} PagesSoFar(records: map<Endpoint, Record>, r: Request, ranking: seq<Endpoint>,
                                      pages: seq<Page>, n: nat)
    requires IsChain(records, r, ranking, pages) && n < |pages|
    ensures pages[n].offset <= |Window(ranking)|
    ensures Items(pages, n) == Filtered(records, r, Window(ranking)[..pages[n].offset])
  {
    if n == 0 {
    } else {
      PagesSoFar(records, r, ranking, pages, n - 1);
      assert IsPage(records, r, ranking, pages[n - 1]);
      FilteredUpTo(records, r, Window(ranking), pages[n - 1].offset, pages[n].offset);
    }
  }

  /** ... and are full. */
  lemma {:induction false} PagesAreFull(records: map<Endpoint, Record>, r: Request, ranking: seq<Endpoint>,
                                        pages: seq<Page>, n: nat)
    requires IsChain(records, r, ranking, pages) && n < |pages|
    ensures |Items(pages, n)| == n * r.limit
  {
    if n > 0 {
      PagesAreFull(records, r, ranking, pages, n - 1);
      assert IsPage(records, r, ranking, pages[n - 1]);
      assert pages[n - 1].next == Some(pages[n].offset) && |pages[n - 1].items| == r.limit;
      assert |Items(pages, n)| == |Items(pages, n - 1)| + r.limit;
      assert n * r.limit == (n - 1) * r.limit + r.limit;
    } else {
      assert n * r.limit == 0;
    }
  }

  /** Followed from 0 to the end, the pages hold exactly the matches among the first 10001
      members, in order, nothing lost or repeated. Every page but the last is full, so there
      are no more than one page per `limit` matches, and one. */
  lemma PagesAreTheListing(records: map<Endpoint, Record>, r: Request, ranking: seq<Endpoint>, pages: seq<Page>)
    requires IsChain(records, r, ranking, pages) && pages[|pages| - 1].next.None?
    ensures Items(pages, |pages|) == Filtered(records, r, Window(ranking))
    ensures (|pages| - 1) * r.limit <= |Filtered(records, r, Window(ranking))|
  {
    var n, window := |pages| - 1, Window(ranking);
    PagesSoFar(records, r, ranking, pages, n);
    PagesAreFull(records, r, ranking, pages, n);
    assert IsPage(records, r, ranking, pages[n]);
    FilteredUpTo(records, r, window, pages[n].offset, |window|);
    assert window[..|window|] == window;
  }

  /** Following the pages ends: the offsets go up and stay within the window. */
  method ListAll(records: map<Endpoint, Record>, r: Request, ranking: seq<Endpoint>) returns (items: seq<Endpoint>)
    requires ValidRequest(r, 0)
    ensures items == Filtered(records, r, Window(ranking))
  {
    ghost var window := Window(ranking);
    var first := ListProxies(records, r, ranking, 0);
    var page := first.value;
    items := page.items;
    FilteredUpTo(records, r, window, 0, 0);
    while page.next.Some?
      invariant IsPage(records, r, ranking, page) && page.offset <= |window|
      invariant items == Filtered(records, r, window[..page.offset]) + page.items
      decreases if page.next.Some? then LAST_OFFSET + 1 - page.next.value else 0
    {
      FilteredUpTo(records, r, window, page.offset, page.next.value);
      var more := ListProxies(records, r, ranking, page.next.value);
      page := more.value;
      items := items + page.items;
    }
    FilteredUpTo(records, r, window, page.offset, |window|);
    assert window[..|window|] == window;
  }

  /** When the quality index agrees with the records, the listing is every record in the range
      of scores and of the health and source asked for that is among the first 10001 of the
      range, once each, best score first. With no more than 10001 in the range that is all of
      them; else none left out has a better score than one listed. */
  lemma ListingIsComplete(records: map<Endpoint, Record>, quality: map<Endpoint, int>, r: Request,
                          ranking: seq<Endpoint>, e: Endpoint)
    requires IsRanking(quality, r, ranking)
    requires forall x :: x in quality <==> x in records
    requires forall x :: x in records ==> quality[x] == records[x].score
    ensures var listing := Filtered(records, r, Window(ranking));
            && NoDuplicates(listing) && IsDescending(records, listing)
            && (e in listing ==> e in records && IsAskedFor(r, records[e]))
            && (e in records && IsAskedFor(r, records[e]) && e !in listing ==>
                  |ranking| > 10001 && forall x :: x in listing ==> records[x].score >= records[e].score)
  {
    var window := Window(ranking);
    var listing := Filtered(records, r, window);
    FilteredDistinct(records, r, window);
    forall i, j | 0 <= i < j < |window| ensures IsAtLeast(records, window[i], window[j]) {
      assert window[i] == ranking[i] && window[j] == ranking[j];
    }
    FilteredDescends(records, r, window);
    FilteredMembers(records, r, window, e);
    if e in records && IsAskedFor(r, records[e]) && e !in listing {
      assert e in ranking && e !in window;
      forall x | x in listing ensures records[x].score >= records[e].score {
        FilteredMembers(records, r, window, x);
        BeyondTheWindow(quality, r, ranking, x, e);
      }
    }
  }

  /** A record of the range of scores, and of the health and source if one is asked for. */
  predicate IsAskedFor(r: Request, record: Record) {
    && r.minScore <= record.score && record.score <= r.maxScore
    && (r.health == None || r.health == Some(record.health))
    && (r.source == None || r.source.value in record.sources)
  }

  predicate IsAtLeast(records: map<Endpoint, Record>, a: Endpoint, b: Endpoint) {
    a in records && b in records ==> records[a].score >= records[b].score
  }

  predicate IsDescending(records: map<Endpoint, Record>, names: seq<Endpoint>) {
    && (forall e :: e in names ==> e in records)
    && forall i, j :: 0 <= i < j < |names| ==> records[names[i]].score >= records[names[j]].score
  }

  lemma BeyondTheWindow(quality: map<Endpoint, int>, r: Request, ranking: seq<Endpoint>, x: Endpoint, e: Endpoint)
    requires IsRanking(quality, r, ranking) && x in Window(ranking) && e in ranking && e !in Window(ranking)
    ensures quality[x] >= quality[e]
  {
    var i :| 0 <= i < |Window(ranking)| && Window(ranking)[i] == x;
    var j :| 0 <= j < |ranking| && ranking[j] == e;
    assert forall k :: 0 <= k < |Window(ranking)| ==> Window(ranking)[k] == ranking[k];
    assert i < |Window(ranking)| <= j;
  }

  lemma {:induction false} FilteredDescends(records: map<Endpoint, Record>, r: Request, names: seq<Endpoint>)
    requires forall i, j :: 0 <= i < j < |names| ==> IsAtLeast(records, names[i], names[j])
    ensures IsDescending(records, Filtered(records, r, names))
  {
    if names == [] {
    } else {
      var n := |names| - 1;
      FilteredDescends(records, r, names[..n]);
      var f := Filtered(records, r, names[..n]);
      forall i | 0 <= i < |f| ensures IsAtLeast(records, f[i], names[n]) {
        FilteredMembers(records, r, names[..n], f[i]);
        var k :| 0 <= k < n && names[..n][k] == f[i];
        assert IsAtLeast(records, names[k], names[n]);
      }
    }
  }

  lemma {:induction false} FilteredMembers(records: map<Endpoint, Record>, r: Request, names: seq<Endpoint>,
                                           e: Endpoint)
    ensures e in Filtered(records, r, names) <==> e in names && Matches(records, r, e)
  {
    if names == [] {
    } else {
      var n := |names| - 1;
      FilteredMembers(records, r, names[..n], e);
      assert e in names <==> e in names[..n] || e == names[n];
    }
  }

  lemma {:induction false} FilteredDistinct(records: map<Endpoint, Record>, r: Request, names: seq<Endpoint>)
    requires NoDuplicates(names)
    ensures NoDuplicates(Filtered(records, r, names))
  {
    if names == [] {
    } else {
      var n := |names| - 1;
      FilteredDistinct(records, r, names[..n]);
      FilteredMembers(records, r, names[..n], names[n]);
    }
  }
}
