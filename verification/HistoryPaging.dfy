/** Paging through the cached history (GetHistory in
    internal/usecase/history/usecase.go over ListByAddress and CountByAddress). */
module HistoryPaging {
  import opened Text
  import opened HistoryTable
  import opened SwapMerge

  // ----------------------------------------------------------- the SQL listing

  /** ORDER BY timestamp DESC, unique_id ASC. */
  predicate Before(a: Tx, b: Tx) {
    a.timestamp > b.timestamp || (a.timestamp == b.timestamp && Less(a.uniqueId, b.uniqueId))
  }

  ghost function RowsOf(t: Table, address: Address): set<Tx> {
    set u | u in t && (t[u].from == address || t[u].to == address) :: t[u]
  }

  /** `xs` is the ordered result of the WHERE clause, before LIMIT and OFFSET. */
  ghost predicate IsListing(t: Table, address: Address, xs: seq<Tx>) {
    StrictlySorted(xs, (a, b) => Before(a, b)) && Elems(xs) == RowsOf(t, address)
  }

  ghost predicate KeyedTable(t: Table) {
    forall u :: u in t ==> t[u].uniqueId == u
  }

  lemma {:induction false} BeforeOrder(a: Tx, b: Tx, c: Tx)
    ensures !(Before(a, b) && Before(b, a))
    ensures a.uniqueId != b.uniqueId ==> Before(a, b) || Before(b, a)
    ensures Before(a, b) && Before(b, c) ==> Before(a, c)
  {
    LessTotal(a.uniqueId, b.uniqueId);
    if Less(a.uniqueId, b.uniqueId) && Less(b.uniqueId, c.uniqueId) {
      LessTransitive(a.uniqueId, b.uniqueId, c.uniqueId);
    }
  }

  /** The listing exists and the order makes it unique, so page boundaries do not
      depend on anything but the table. */
  lemma {:induction false} ListingIsDetermined(t: Table, address: Address, xs: seq<Tx>, ys: seq<Tx>)
    requires IsListing(t, address, xs) && IsListing(t, address, ys)
    ensures xs == ys && NewestFirst(xs)
  {
    var less := (a, b) => Before(a, b);
    forall a, b ensures !(less(a, b) && less(b, a)) {
      BeforeOrder(a, b, a);
    }
    SortedIsUnique(xs, ys, less);
  }

  /** Newest first, rows of one time in the order of their UniqueIDs, none twice. */
  predicate InPageOrder(rows: seq<Tx>) {
    forall i, j :: 0 <= i < j < |rows| ==>
      && rows[i].uniqueId != rows[j].uniqueId && rows[i].timestamp >= rows[j].timestamp
      && (rows[i].timestamp == rows[j].timestamp ==> Less(rows[i].uniqueId, rows[j].uniqueId))
  }

  /** The listing holds the rows the address sent or received and no others. */
  lemma {:induction false} ListingIs(t: Table, address: Address, xs: seq<Tx>)
    requires KeyedTable(t) && IsListing(t, address, xs)
    ensures forall u :: u in t ==> (t[u] in xs <==> t[u].from == address || t[u].to == address)
    ensures forall row :: row in xs ==> row.uniqueId in t && t[row.uniqueId] == row
    ensures InPageOrder(xs)
  {
    assert forall row :: row in xs <==> row in Elems(xs);
    forall i, j | 0 <= i < j < |xs| ensures xs[i].uniqueId != xs[j].uniqueId && Before(xs[i], xs[j]) {
      assert xs[i] in Elems(xs) && xs[j] in Elems(xs);
      BeforeOrder(xs[i], xs[j], xs[i]);
      LessTotal(xs[i].uniqueId, xs[i].uniqueId);
    }
  }

  lemma {:induction false} ListingExists(t: Table, address: Address) returns (xs: seq<Tx>)
    requires KeyedTable(t)
    ensures IsListing(t, address, xs)
  {
    var less := (a, b) => Before(a, b);
    var rows := RowsOf(t, address);
    forall a, b, c | a in rows && b in rows && c in rows
      ensures a == b || less(a, b) || less(b, a)
      ensures less(a, b) && less(b, c) ==> less(a, c)
    {
      BeforeOrder(a, b, c);
    }
    xs := SortedExists(rows, less);
  }

  // ---------------------------------------------------------------- GetHistory

  /** SQL LIMIT/OFFSET; a negative limit means none. */
  function Slice(xs: seq<Tx>, limit: int, offset: nat): seq<Tx> {
    if offset >= |xs| then []
    else if limit < 0 || limit >= |xs| - offset then xs[offset..]
    else xs[offset..offset + limit]
  }

  /** strconv.Atoi. */
  function Atoi(s: string): Option<int> {
    match ParseInt(s)
    case None => None
    case Some(n) => if -0x8000_0000_0000_0000 <= n <= I64_MAX then Some(n) else None
  }

  /** Anything but a positive number starts from the top. */
  function OffsetOf(cursor: string): nat {
    match Atoi(cursor)
    case None => 0
    case Some(n) => if n > 0 then n else 0
  }

  datatype Page = Page(raw: seq<Tx>, transactions: seq<Tx>, total: nat, nextCursor: string, hasMore: bool)

  function Effective(limit: int): int { if limit == 0 then 20 else limit }

  /** How a page presents its rows, the total beside them, and the cursor it prints
      for the row after them. */
  datatype View = View(show: seq<Tx> -> seq<Tx>, total: nat, cursor: nat -> string)

  /** One page of `listing`. */
  function PageAt(listing: seq<Tx>, view: View, lim: int, offset: nat): Page {
    var raw := Slice(listing, lim, offset);
    Page(raw, view.show(raw), view.total, if |raw| == lim then view.cursor(offset + |raw|) else "", |raw| == lim)
  }

  function Merging(wallet: Address): seq<Tx> -> seq<Tx> {
    raw => Merge(raw, wallet)
  }

  function ViewOf(listing: seq<Tx>, wallet: Address): View {
    View(Merging(wallet), |Hashes(listing)|, n => PrintInt(n))
  }

  /** `listing` is what the database orders for the wallet's address. */
  function GetHistory(listing: seq<Tx>, wallet: Address, limit: int, cursor: string): Page {
    PageAt(listing, ViewOf(listing, wallet), Effective(limit), OffsetOf(cursor))
  }

  /** A cursor that prints a positive 64-bit number leads to that offset; any other
      number, the empty cursor and text that is no number lead to the top. */
  lemma {:induction false} CursorRoundTrip(n: int)
    ensures OffsetOf(PrintInt(n)) == if 0 < n <= I64_MAX then n else 0
  {
    ParsePrintInt(n);
  }

  lemma {:induction false} BadCursorStartsOver(cursor: string, i: nat)
    requires cursor == "" || (i < |cursor| && !('0' <= cursor[i] <= '9') && (i > 0 || cursor[0] != '+'))
    ensures OffsetOf(cursor) == 0
  {
    ParseIntAccepts(cursor);
    if cursor != "" && i > 0 && (cursor[0] == '-' || cursor[0] == '+') {
      assert cursor[1..][i - 1] == cursor[i];
    }
  }

  /** What GetHistory answers, for any limit and cursor: the rows from the offset on, at
      most `limit` of them (20 when it is 0, all when it is negative); more is announced
      exactly when the page is full, with a cursor to the row after it; the total
      counts the distinct hashes of the whole listing, whatever the page. */
  lemma {:induction false} OnePage(listing: seq<Tx>, wallet: Address, limit: int, cursor: string)
    ensures
      var page, start := GetHistory(listing, wallet, limit, cursor), OffsetOf(cursor);
      var lim := if limit == 0 then 20 else limit;
      var left := if start < |listing| then |listing| - start else 0;
      && |page.raw| == (if 0 <= lim <= left then lim else left)
      && (forall i :: 0 <= i < |page.raw| ==> page.raw[i] == listing[start + i])
      && page.transactions == Merge(page.raw, wallet)
      && (page.hasMore <==> 0 < lim <= left)
      && page.nextCursor == (if page.hasMore then PrintInt(start + lim) else "")
      && page.total == |set row | row in listing :: row.hash|
  {
    TotalCountsHashes(listing);
  }

  lemma {:induction false} HashesAre(listing: seq<Tx>)
    ensures NoDup(Hashes(listing)) && Elems(Hashes(listing)) == set row | row in listing :: row.hash
  {
    if listing != [] {
      var init, last := listing[..|listing| - 1], listing[|listing| - 1];
      HashesAre(init);
      assert listing == init + [last];
      assert last.hash in Elems(Hashes(init)) <==> last.hash in Hashes(init);
      assert Elems(Hashes(listing)) == Elems(Hashes(init)) + {last.hash};
    }
  }

  lemma {:induction false} TotalCountsHashes(listing: seq<Tx>)
    ensures |Hashes(listing)| == |set row | row in listing :: row.hash|
  {
    HashesAre(listing);
    NoDupCard(Hashes(listing));
  }

  function Raws(pages: seq<Page>): seq<Tx> {
    if pages == [] then [] else pages[0].raw + Raws(pages[1..])
  }

  /** The pages seen from `offset` on, as long as each says there is more. */
  function PagesFrom(listing: seq<Tx>, view: View, lim: nat, offset: nat): (pages: seq<Page>)
    requires 0 < lim && offset <= |listing|
    decreases |listing| - offset
  {
    [PageAt(listing, view, lim, offset)] +
    if offset + lim <= |listing| then PagesFrom(listing, view, lim, offset + lim) else []
  }

  /** Full pages that announce more, then one short page that does not. */
  predicate FullButLast(pages: seq<Page>, lim: nat) {
    && pages != []
    && pages[0].hasMore == (|pages| > 1) == (|pages[0].raw| == lim)
    && |pages[0].raw| <= lim
    && (|pages| > 1 ==> FullButLast(pages[1..], lim))
  }

  lemma {:induction false} PagesStep(listing: seq<Tx>, view: View, lim: nat, offset: nat)
    requires 0 < lim && offset <= |listing|
    ensures
      var page, pages := PageAt(listing, view, lim, offset), PagesFrom(listing, view, lim, offset);
      && (page.hasMore <==> offset + lim <= |listing|)
      && page.raw == (if page.hasMore then listing[offset..offset + lim] else listing[offset..])
      && (page.hasMore ==> |page.raw| == lim && page.nextCursor == view.cursor(offset + lim)
                           && pages == [page] + PagesFrom(listing, view, lim, offset + lim))
      && (!page.hasMore ==> |page.raw| < lim && pages == [page])
  {
  }

  lemma {:induction false} PagesCover(listing: seq<Tx>, view: View, lim: nat, offset: nat)
    requires 0 < lim && offset <= |listing|
    ensures Raws(PagesFrom(listing, view, lim, offset)) == listing[offset..]
    decreases |listing| - offset
  {
    var page := PageAt(listing, view, lim, offset);
    if offset + lim <= |listing| {
      var rest := PagesFrom(listing, view, lim, offset + lim);
      calc {
        Raws(PagesFrom(listing, view, lim, offset));
      == { PagesStep(listing, view, lim, offset); }
        Raws([page] + rest);
      == { RawsCons(page, rest); PagesCover(listing, view, lim, offset + lim); }
        page.raw + listing[offset + lim..];
      == { PagesStep(listing, view, lim, offset); }
        listing[offset..offset + lim] + listing[offset + lim..];
      ==
        listing[offset..];
      }
    } else {
      PagesStep(listing, view, lim, offset);
      CoverLast(listing, page, offset);
    }
  }

  lemma {:induction false} CoverLast(listing: seq<Tx>, page: Page, from: nat)
    requires from <= |listing| && page.raw == listing[from..]
    ensures Raws([page]) == listing[from..]
  {
    RawsCons(page, []);
    assert [page] + [] == [page];
  }

  lemma {:induction false} PagesFull(listing: seq<Tx>, view: View, lim: nat, offset: nat)
    requires 0 < lim && offset <= |listing|
    ensures FullButLast(PagesFrom(listing, view, lim, offset), lim)
    decreases |listing| - offset
  {
    var page := PageAt(listing, view, lim, offset);
    if offset + lim <= |listing| {
      var rest := PagesFrom(listing, view, lim, offset + lim);
      calc ==> {
        true;
      ==> { PagesFull(listing, view, lim, offset + lim); }
        FullButLast(rest, lim);
      ==> { PagesStep(listing, view, lim, offset); FullCons(page, rest, lim); }
        FullButLast([page] + rest, lim);
      ==> { PagesStep(listing, view, lim, offset); }
        FullButLast(PagesFrom(listing, view, lim, offset), lim);
      }
    } else {
      PagesStep(listing, view, lim, offset);
    }
  }

  lemma {:induction false} FullCons(page: Page, rest: seq<Page>, lim: nat)
    requires page.hasMore && |page.raw| == lim && FullButLast(rest, lim)
    ensures FullButLast([page] + rest, lim)
  {
    assert ([page] + rest)[1..] == rest;
  }

  lemma {:induction false} RawsCons(page: Page, pages: seq<Page>)
    ensures Raws([page] + pages) == page.raw + Raws(pages)
  {
    assert ([page] + pages)[1..] == pages;
  }

  /** The empty cursor leads to the top, and the cursor a page hands out to the page
      right after it. */
  method Ask(listing: seq<Tx>, ghost view: View, ghost ask: string -> Page, wallet: Address, limit: nat,
             cursor: string, ghost offset: nat) returns (page: Page)
    requires view == ViewOf(listing, wallet) && ask == Asking(listing, wallet, limit)
    requires offset <= I64_MAX && cursor == if offset == 0 then "" else view.cursor(offset)
    ensures page == ask(cursor) == PageAt(listing, view, Effective(limit), offset)
  {
    if cursor != "" {
      CursorRoundTrip(offset);
    }
    page := GetHistory(listing, wallet, limit, cursor);
  }

  // ------------------------------------------------------- what the pages show

  function ShownBy(pages: seq<Page>): seq<Tx> {
    if pages == [] then [] else pages[0].transactions + ShownBy(pages[1..])
  }

  /** No page boundary from `offset` on cuts a hash. */
  ghost predicate CleanFrom(listing: seq<Tx>, lim: nat, offset: nat)
    requires 0 < lim
    decreases |listing| - offset
  {
    offset + lim <= |listing| ==>
      NoSharedHash(listing[..offset + lim], listing[offset + lim..]) && CleanFrom(listing, lim, offset + lim)
  }

  /** From `offset` on, what each page shows and what the rest shows make the whole. */
  predicate Splits(listing: seq<Tx>, show: seq<Tx> -> seq<Tx>, lim: nat, offset: nat)
    requires 0 < lim
    decreases |listing| - offset
  {
    offset + lim <= |listing| ==>
      && show(listing[offset..]) == show(listing[offset..offset + lim]) + show(listing[offset + lim..])
      && Splits(listing, show, lim, offset + lim)
  }

  lemma {:induction false} ShownCons(page: Page, rest: seq<Page>)
    ensures ShownBy([page] + rest) == page.transactions + ShownBy(rest)
  {
    assert ([page] + rest)[1..] == rest;
  }

  lemma {:induction false} CutMerges(listing: seq<Tx>, wallet: Address, from: nat, to: nat)
    requires from <= to <= |listing| && NoSharedHash(listing[..to], listing[to..])
    ensures Merging(wallet)(listing[from..]) == Merging(wallet)(listing[from..to]) + Merging(wallet)(listing[to..])
  {
    assert forall i :: 0 <= i < to - from ==> listing[from..to][i] == listing[..to][from + i];
    assert listing[from..] == listing[from..to] + listing[to..];
    MergeAdd(listing[from..to], listing[to..], wallet);
  }

  lemma {:induction false} CleanSplits(listing: seq<Tx>, wallet: Address, lim: nat, offset: nat)
    requires 0 < lim && CleanFrom(listing, lim, offset)
    ensures Splits(listing, Merging(wallet), lim, offset)
    decreases |listing| - offset
  {
    if offset + lim <= |listing| {
      CleanSplits(listing, wallet, lim, offset + lim);
      CutMerges(listing, wallet, offset, offset + lim);
      SplitsStep(listing, Merging(wallet), lim, offset);
    }
  }

  lemma {:induction false} SplitsStep(listing: seq<Tx>, show: seq<Tx> -> seq<Tx>, lim: nat, offset: nat)
    requires 0 < lim && offset + lim <= |listing| && Splits(listing, show, lim, offset + lim)
    requires show(listing[offset..]) == show(listing[offset..offset + lim]) + show(listing[offset + lim..])
    ensures Splits(listing, show, lim, offset)
  {
  }

  lemma {:induction false} PageShows(listing: seq<Tx>, view: View, lim: nat, offset: nat)
    requires 0 < lim && offset <= |listing|
    ensures PageAt(listing, view, lim, offset).transactions ==
      view.show(if offset + lim <= |listing| then listing[offset..offset + lim] else listing[offset..])
  {
    PagesStep(listing, view, lim, offset);
  }

  lemma {:induction false} PagesShow(listing: seq<Tx>, view: View, lim: nat, offset: nat)
    requires 0 < lim && offset <= |listing| && Splits(listing, view.show, lim, offset)
    ensures ShownBy(PagesFrom(listing, view, lim, offset)) == view.show(listing[offset..])
    decreases |listing| - offset
  {
    var page := PageAt(listing, view, lim, offset);
    if offset + lim <= |listing| {
      var rest := PagesFrom(listing, view, lim, offset + lim);
      calc {
        ShownBy(PagesFrom(listing, view, lim, offset));
      == { PagesStep(listing, view, lim, offset); }
        ShownBy([page] + rest);
      == { ShownCons(page, rest); PagesShow(listing, view, lim, offset + lim); }
        page.transactions + view.show(listing[offset + lim..]);
      == { PageShows(listing, view, lim, offset); }
        view.show(listing[offset..offset + lim]) + view.show(listing[offset + lim..]);
      ==
        view.show(listing[offset..]);
      }
    } else {
      calc {
        ShownBy(PagesFrom(listing, view, lim, offset));
      == { PagesStep(listing, view, lim, offset); }
        ShownBy([page]);
      == { ShownCons(page, []); assert [page] + [] == [page]; }
        page.transactions;
      == { PageShows(listing, view, lim, offset); }
        view.show(listing[offset..]);
      }
    }
  }

  /** Each page is GetHistory's answer to the cursor of the page before it. */
  predicate Follows(pages: seq<Page>, ask: string -> Page, cursor: string) {
    pages != [] ==> pages[0] == ask(cursor) && Follows(pages[1..], ask, pages[0].nextCursor)
  }

  function Asking(listing: seq<Tx>, wallet: Address, limit: int): string -> Page {
    cursor => GetHistory(listing, wallet, limit, cursor)
  }

  /** Following NextCursor from the empty cursor until a page says it is the last
      terminates and visits every row exactly once, in order; when no page boundary
      cuts a hash, the pages together show the merge of the whole history.  The rows
      are those of the table that the wallet sent or received, each once, newest first,
      and every page gives the number of their hashes as the total. */
  method WalkHistory(ghost t: Table, listing: seq<Tx>, wallet: Address, limit: nat) returns (pages: seq<Page>)
    requires |listing| <= I64_MAX && KeyedTable(t) && IsListing(t, wallet, listing)
    ensures forall u :: u in t ==> (t[u] in Raws(pages) <==> t[u].from == wallet || t[u].to == wallet)
    ensures forall row :: row in Raws(pages) ==> row.uniqueId in t && t[row.uniqueId] == row
    ensures InPageOrder(Raws(pages))
    ensures forall page :: page in pages ==> page.total == |set row | row in Raws(pages) :: row.hash|
    ensures Follows(pages, Asking(listing, wallet, limit), "")
    ensures Raws(pages) == listing && FullButLast(pages, Effective(limit))
    ensures CleanFrom(listing, Effective(limit), 0) ==> ShownBy(pages) == Merge(listing, wallet)
  {
    ghost var view := ViewOf(listing, wallet);
    ghost var ask := Asking(listing, wallet, limit);
    ListingIs(t, wallet, listing);
    TotalCountsHashes(listing);
    PagesTotal(listing, view, Effective(limit), 0);
    pages := WalkFrom(listing, view, ask, wallet, limit, "", 0);
    PagesCover(listing, view, Effective(limit), 0);
    PagesFull(listing, view, Effective(limit), 0);
    if CleanFrom(listing, Effective(limit), 0) {
      CleanSplits(listing, wallet, Effective(limit), 0);
      PagesShow(listing, view, Effective(limit), 0);
      assert listing[0..] == listing;
    }
  }

  predicate AllTotal(pages: seq<Page>, total: nat) {
    forall i :: 0 <= i < |pages| ==> pages[i].total == total
  }

  lemma {:induction false} TotalCons(page: Page, rest: seq<Page>, total: nat)
    requires page.total == total && AllTotal(rest, total)
    ensures AllTotal([page] + rest, total)
  {
  }

  lemma {:induction false} PagesTotal(listing: seq<Tx>, view: View, lim: nat, offset: nat)
    requires 0 < lim && offset <= |listing|
    ensures AllTotal(PagesFrom(listing, view, lim, offset), view.total)
    decreases |listing| - offset
  {
    var page := PageAt(listing, view, lim, offset);
    if offset + lim <= |listing| {
      var rest := PagesFrom(listing, view, lim, offset + lim);
      calc ==> {
        true;
      ==> { PagesTotal(listing, view, lim, offset + lim); }
        AllTotal(rest, view.total);
      ==> { TotalCons(page, rest, view.total); }
        AllTotal([page] + rest, view.total);
      ==> { PagesStep(listing, view, lim, offset); }
        AllTotal(PagesFrom(listing, view, lim, offset), view.total);
      }
    } else {
      PagesStep(listing, view, lim, offset);
    }
  }

  method WalkFrom(listing: seq<Tx>, ghost view: View, ghost ask: string -> Page, wallet: Address, limit: nat,
    cursor: string, ghost offset: nat)
    returns (pages: seq<Page>)
    requires offset <= |listing| <= I64_MAX && view == ViewOf(listing, wallet) && ask == Asking(listing, wallet, limit)
    requires cursor == if offset == 0 then "" else view.cursor(offset)
    ensures pages == PagesFrom(listing, view, Effective(limit), offset)
    ensures Follows(pages, ask, cursor)
    decreases |listing| - offset
  {
    var page := Ask(listing, view, ask, wallet, limit, cursor, offset);
    PagesStep(listing, view, Effective(limit), offset);
    pages := [page];
    if page.hasMore {
      var rest := WalkFrom(listing, view, ask, wallet, limit, page.nextCursor, offset + Effective(limit));
      FollowsOneMore(page, rest, ask, cursor);
      pages := pages + rest;
    }
  }

  lemma {:induction false} FollowsOneMore(page: Page, rest: seq<Page>, ask: string -> Page, cursor: string)
    requires page == ask(cursor) && Follows(rest, ask, page.nextCursor)
    ensures Follows([page] + rest, ask, cursor)
  {
    assert ([page] + rest)[1..] == rest;
  }

  /** A hash whose rows all lie on the page at `offset` is shown there exactly as the
      merge of the whole history shows it. */
  lemma {:induction false} PageShowsWholeHash(listing: seq<Tx>, wallet: Address, limit: int, offset: nat, h: string)
    requires 0 < limit && offset <= |listing|
    requires forall i :: 0 <= i < |listing| && listing[i].hash == h ==> offset <= i < offset + limit
    ensures LegsOf(Merge(Slice(listing, limit, offset), wallet), h) == LegsOf(Merge(listing, wallet), h)
  {
    var page := Slice(listing, limit, offset);
    var before, after := listing[..offset], listing[offset + |page|..];
    assert listing == before + page + after;
    assert forall i :: 0 <= i < |after| ==> after[i] == listing[offset + |page| + i];
    MergeOfPart(before, page, after, h, wallet);
  }

  /** The pages put together show what the merge of the whole shows whenever no hash
      is cut by the page boundary. */
  lemma {:induction false} CleanCut(listing: seq<Tx>, wallet: Address, offset: nat)
    requires offset <= |listing| && NoSharedHash(listing[..offset], listing[offset..])
    ensures Merge(listing, wallet) == Merge(listing[..offset], wallet) + Merge(listing[offset..], wallet)
  {
    assert listing == listing[..offset] + listing[offset..];
    MergeAdd(listing[..offset], listing[offset..], wallet);
  }
}
