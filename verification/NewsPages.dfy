/** Browsing the news table page by page, newest first, with a cursor that names the last item seen. */
module NewsPages {
  import opened Prelude
  import opened Ordering
  import opened Calendar
  import opened CursorCodec

  datatype Row = Row(at: Instant, market: string, source: string, sentiment: string)

  type Table = map<nat, Row>

  /** The values of the filters; an absent or empty one does not filter. */
  datatype Filter = Filter(market: Option<string>, source: Option<string>, sentiment: Option<string>)

  /** What a page says of a row: its instant and its id. */
  datatype Item = Item(at: Instant, id: nat)

  predicate Passes(wanted: Option<string>, value: string) {
    wanted.None? || wanted.value == "" || wanted.value == value
  }

  predicate Matches(f: Filter, r: Row) {
    Passes(f.market, r.market) && Passes(f.source, r.source) && Passes(f.sentiment, r.sentiment)
  }

  /** A filter that is missing or empty lets everything through, any other one its own value. */
  lemma MatchesIff(f: Filter, r: Row)
    ensures Matches(f, r) <==>
      f.market in {None, Some(""), Some(r.market)} && f.source in {None, Some(""), Some(r.source)}
      && f.sentiment in {None, Some(""), Some(r.sentiment)}
  {
  }

  /** `a` is listed no later than `b`: the later instant first, the higher id among equal ones. */
  predicate ListedLe(a: Item, b: Item) {
    Stamp(a.at) > Stamp(b.at) || (Stamp(a.at) == Stamp(b.at) && a.id >= b.id)
  }

  /** The cursor's condition: strictly after the position in the listing. */
  predicate Behind(p: Option<Position>, i: Item) {
    match p
    case None => true
    case Some(Position(None, id)) => i.id < id
    case Some(Position(Some(at), id)) => Stamp(i.at) < Stamp(at) || (i.at == at && i.id < id)
  }

  function Selected(t: Table, f: Filter, p: Option<Position>, ids: seq<nat>): seq<Item>
    requires forall id :: id in ids ==> id in t
  {
    if ids == [] then [] else
      assert forall id :: id in ids[..|ids| - 1] ==> id in ids;
      var id := ids[|ids| - 1];
      assert id in ids;
      Selected(t, f, p, ids[..|ids| - 1])
      + if Matches(f, t[id]) && Behind(p, Item(t[id].at, id)) then [Item(t[id].at, id)] else []
  }

  /** SELECT ... WHERE filters AND cursor ORDER BY effective_at DESC, id DESC */
  function Listing(t: Table, f: Filter, p: Option<Position>): seq<Item> {
    SortedIdsFacts(t.Keys);
    Sort(ListedLe, Selected(t, f, p, SortedIds(t.Keys)))
  }

  /** The rows of one page, and whether the query returned more than the page takes. */
  datatype Slice = Slice(items: seq<Item>, more: bool)

  /** `limit + 1` rows are fetched and `limit` shown; an empty page never has a successor. */
  function Cut(rows: seq<Item>, limit: nat): (s: Slice)
    ensures s.more ==> s.items != []
  {
    var fetched := if limit + 1 < |rows| then rows[..limit + 1] else rows;
    var items := if limit < |fetched| then fetched[..limit] else fetched;
    Slice(items, |fetched| > limit && items != [])
  }

  datatype Page = Page(items: seq<Item>, next: Option<string>)

  function CursorOf(i: Item): string {
    EncodeCursor(Some(i.at), i.id)
  }

  function WithCursor(s: Slice): Page
    requires s.more ==> s.items != []
  {
    Page(s.items, if s.more then Some(CursorOf(s.items[|s.items| - 1])) else None)
  }

  /** `list_recent_page` without a text query. */
  function ListRecentPage(t: Table, f: Filter, limit: nat, cursor: Option<string>): Result<Page, CursorError> {
    if cursor.None? || cursor.value == "" then Ok(WithCursor(Cut(Listing(t, f, None), limit)))
    else match DecodeCursor(cursor.value)
      case Err(e) => Err(e)
      case Ok(p) => Ok(WithCursor(Cut(Listing(t, f, Some(p)), limit)))
  }

  /** The row of item `i` is in the table and passes the filter. */
  ghost predicate Shows(t: Table, f: Filter, i: Item) {
    i.id in t && t[i.id].at == i.at && Matches(f, t[i.id])
  }

  /** `a` is listed strictly before `b`. */
  predicate Precedes(a: Item, b: Item) {
    Stamp(a.at) > Stamp(b.at) || (Stamp(a.at) == Stamp(b.at) && a.id > b.id)
  }

  /** Newest first, no item twice. */
  ghost predicate Strict(s: seq<Item>) {
    forall i, j :: 0 <= i < j < |s| ==> Precedes(s[i], s[j])
  }

  /** The walk starts at the top, or behind an item. */
  ghost predicate Beyond(start: Option<Item>, i: Item) {
    start.None? || Precedes(start.value, i)
  }

  function PositionOf(start: Option<Item>): Option<Position> {
    if start.None? then None else Some(Position(Some(start.value.at), start.value.id))
  }

  lemma BehindIsBeyond(start: Option<Item>, i: Item)
    ensures Behind(PositionOf(start), i) <==> Beyond(start, i)
  {
    if start.Some? && Stamp(i.at) == Stamp(start.value.at) { StampInjective(i.at, start.value.at); }
  }

  lemma {:induction false} SelectedFacts(t: Table, f: Filter, p: Option<Position>, ids: seq<nat>)
    requires forall id :: id in ids ==> id in t
    requires forall i, j :: 0 <= i < j < |ids| ==> ids[i] < ids[j]
    ensures forall i :: i in Selected(t, f, p, ids) <==> i.id in ids && Shows(t, f, i) && Behind(p, i)
    ensures IdsAscend(Selected(t, f, p, ids))
  {
    if ids != [] {
      var n := |ids| - 1;
      assert ids == ids[..n] + [ids[n]];
      SelectedFacts(t, f, p, ids[..n]);
      var s := Selected(t, f, p, ids[..n]);
      forall i | 0 <= i < |s| ensures s[i].id < ids[n] {
        assert s[i] in s;
      }
    }
  }

  ghost predicate IdsAscend(s: seq<Item>) {
    forall i, j :: 0 <= i < j < |s| ==> s[i].id < s[j].id
  }

  lemma ListedOrder()
    ensures TotalPreorder(ListedLe)
  {
  }

  lemma SortedIsStrict(raw: seq<Item>)
    requires IdsAscend(raw)
    ensures Strict(Sort(ListedLe, raw)) && forall i :: i in Sort(ListedLe, raw) <==> i in raw
  {
    var s := Sort(ListedLe, raw);
    ListedOrder();
    SortFacts(ListedLe, raw);
    assert Distinct(raw) by {
      forall i, j | 0 <= i < j < |raw| ensures raw[i] != raw[j] {
        assert raw[i].id != raw[j].id;
      }
    }
    DistinctByCount(raw, s);
    forall i, j | 0 <= i < j < |s| ensures Precedes(s[i], s[j]) {
      assert s[i] in raw && s[j] in raw;
      var a :| 0 <= a < |raw| && raw[a] == s[i];
      var b :| 0 <= b < |raw| && raw[b] == s[j];
    }
  }

  /** A cursor without an instant stands for all rows with smaller ids. */
  lemma ListingById(t: Table, f: Filter, id: nat)
    ensures var s := Listing(t, f, Some(Position(None, id)));
            Strict(s) && forall i :: i in s <==> Shows(t, f, i) && i.id < id
  {
    var p := Some(Position(None, id));
    SortedIdsFacts(t.Keys);
    SelectedFacts(t, f, p, SortedIds(t.Keys));
    SortedIsStrict(Selected(t, f, p, SortedIds(t.Keys)));
  }

  /** An empty cursor text asks for the first page, and one that does not decode is refused. */
  lemma OddCursors(t: Table, f: Filter, limit: nat, cursor: string)
    ensures ListRecentPage(t, f, limit, Some("")) == ListRecentPage(t, f, limit, None)
    ensures cursor != "" ==> (DecodeCursor(cursor).Err? <==> ListRecentPage(t, f, limit, Some(cursor)).Err?)
  {
  }

  /** The listing holds exactly the rows that pass, each once, newest first. */
  lemma ListingFacts(t: Table, f: Filter, start: Option<Item>)
    ensures var s := Listing(t, f, PositionOf(start));
            Strict(s) && forall i :: i in s <==> Shows(t, f, i) && Beyond(start, i)
  {
    var p := PositionOf(start);
    SortedIdsFacts(t.Keys);
    SelectedFacts(t, f, p, SortedIds(t.Keys));
    SortedIsStrict(Selected(t, f, p, SortedIds(t.Keys)));
    forall i ensures Behind(p, i) <==> Beyond(start, i) {
      BehindIsBeyond(start, i);
    }
  }

  ghost function Last(page: Slice): Item
    requires page.items != []
  {
    page.items[|page.items| - 1]
  }

  /** Everything from the start up to the last item shown is shown. */
  ghost predicate PageOk(t: Table, f: Filter, start: Option<Item>, page: Slice) {
    && Strict(page.items)
    && (forall i :: i in page.items ==> Shows(t, f, i) && Beyond(start, i))
    && (!page.more ==> forall i :: Shows(t, f, i) && Beyond(start, i) ==> i in page.items)
    && (page.more ==> Continues(t, f, start, page))
  }

  ghost predicate Continues(t: Table, f: Filter, start: Option<Item>, page: Slice) {
    && page.items != []
    && forall i :: Shows(t, f, i) && Beyond(start, i) && !Precedes(Last(page), i) ==> i in page.items
  }

  lemma CutShape(rows: seq<Item>, limit: nat)
    requires limit >= 1
    ensures Cut(rows, limit) == if |rows| <= limit then Slice(rows, false) else Slice(rows[..limit], true)
  {
    if limit < |rows| { assert rows[..limit + 1][..limit] == rows[..limit]; }
  }

  lemma CutIsOk(t: Table, f: Filter, start: Option<Item>, limit: nat)
    requires limit >= 1
    ensures PageOk(t, f, start, Cut(Listing(t, f, PositionOf(start)), limit))
  {
    var rows := Listing(t, f, PositionOf(start));
    var page := Cut(rows, limit);
    ListingFacts(t, f, start);
    CutShape(rows, limit);
    if page.more {
      forall i | i in rows && !Precedes(rows[limit - 1], i) ensures i in page.items {
        var k :| 0 <= k < |rows| && rows[k] == i;
        assert page.items[if k < limit then k else 0] == rows[if k < limit then k else 0];
      }
    }
  }

  datatype Walk = Walk(items: seq<Item>, done: bool)

  /** Following `next` from page to page; the table may be another one at each page. The walk is done when a
      page names no successor. */
  function Follow(ts: seq<Table>, f: Filter, limit: nat, cursor: Option<string>): Walk {
    if ts == [] then Walk([], false) else
      match ListRecentPage(ts[0], f, limit, cursor)
      case Err(_) => Walk([], false)
      case Ok(page) =>
        if page.next.None? then Walk(page.items, true) else
          var rest := Follow(ts[1..], f, limit, page.next);
          Walk(page.items + rest.items, rest.done)
  }

  /** The same walk with the last item seen in place of the cursor text. */
  ghost function Browse(ts: seq<Table>, f: Filter, limit: nat, start: Option<Item>): Walk {
    if ts == [] then Walk([], false) else
      var page := Cut(Listing(ts[0], f, PositionOf(start)), limit);
      if !page.more then Walk(page.items, true) else
        var rest := Browse(ts[1..], f, limit, Some(Last(page)));
        Walk(page.items + rest.items, rest.done)
  }

  /** The cursor text that stands for a start. */
  ghost predicate Denotes(cursor: Option<string>, start: Option<Item>) {
    if start.None? then cursor.None?
    else cursor == Some(CursorOf(start.value))
  }

  /** Following a cursor means starting behind the item it was made from. */
  lemma CursorMeansBehind(t: Table, f: Filter, limit: nat, cursor: Option<string>, start: Option<Item>)
    requires Denotes(cursor, start)
    ensures ListRecentPage(t, f, limit, cursor) == Ok(WithCursor(Cut(Listing(t, f, PositionOf(start)), limit)))
  {
    if start.Some? { CursorRoundTrip(Some(start.value.at), start.value.id); }
  }

  lemma NextDenotes(t: Table, f: Filter, limit: nat, start: Option<Item>)
    ensures var page := Cut(Listing(t, f, PositionOf(start)), limit);
            page.more ==> WithCursor(page).next.Some? && Denotes(WithCursor(page).next, Some(Last(page)))
  {
  }

  /** The cursor text carries the walk. */
  lemma {:induction false} FollowIsBrowse(ts: seq<Table>, f: Filter, limit: nat, cursor: Option<string>, start: Option<Item>)
    requires Denotes(cursor, start)
    ensures Follow(ts, f, limit, cursor) == Browse(ts, f, limit, start)
    decreases |ts|
  {
    if ts != [] {
      CursorMeansBehind(ts[0], f, limit, cursor, start);
      NextDenotes(ts[0], f, limit, start);
      var page := Cut(Listing(ts[0], f, PositionOf(start)), limit);
      if page.more {
        FollowIsBrowse(ts[1..], f, limit, WithCursor(page).next, Some(Last(page)));
      }
    }
  }

  /** The item's row is there, unchanged, at every page. */
  ghost predicate AlwaysShows(ts: seq<Table>, f: Filter, i: Item) {
    forall k :: 0 <= k < |ts| ==> Shows(ts[k], f, i)
  }

  /** What a walk that begins at `start` guarantees. */
  ghost predicate WalkOk(ts: seq<Table>, f: Filter, start: Option<Item>, w: Walk) {
    && Strict(w.items) && (forall i :: i in w.items ==> Beyond(start, i))
    && (w.done ==> forall i :: AlwaysShows(ts, f, i) && Beyond(start, i) ==> i in w.items)
  }

  lemma WalkStep(ts: seq<Table>, f: Filter, start: Option<Item>, page: Slice, rest: Walk)
    requires ts != [] && PageOk(ts[0], f, start, page) && page.more
    requires WalkOk(ts[1..], f, Some(Last(page)), rest)
    ensures WalkOk(ts, f, start, Walk(page.items + rest.items, rest.done))
  {
    var all := page.items + rest.items;
    var n := |page.items|;
    assert Last(page) in page.items && Beyond(start, Last(page));
    forall i, j | 0 <= i < j < |all| ensures Precedes(all[i], all[j]) {
      if i < n <= j {
        assert rest.items[j - n] in rest.items && Precedes(Last(page), all[j]);
        assert i < n - 1 ==> Precedes(page.items[i], page.items[n - 1]);
      }
    }
    forall i | i in rest.items ensures Beyond(start, i) {
      assert Precedes(Last(page), i);
    }
    forall i | rest.done && AlwaysShows(ts, f, i) && Beyond(start, i) ensures i in all {
      StillShows(ts, f, i);
      assert Continues(ts[0], f, start, page);
      assert Beyond(Some(Last(page)), i) <==> Precedes(Last(page), i);
    }
  }

  lemma StillShows(ts: seq<Table>, f: Filter, i: Item)
    requires ts != [] && AlwaysShows(ts, f, i)
    ensures Shows(ts[0], f, i) && AlwaysShows(ts[1..], f, i)
  {
    forall k | 0 <= k < |ts[1..]| ensures Shows(ts[1..][k], f, i) {
      assert Shows(ts[k + 1], f, i);
    }
  }

  lemma {:induction false} BrowseIsSound(ts: seq<Table>, f: Filter, limit: nat, start: Option<Item>)
    requires limit >= 1
    ensures WalkOk(ts, f, start, Browse(ts, f, limit, start))
    decreases |ts|
  {
    if ts != [] {
      CutIsOk(ts[0], f, start, limit);
      var page := Cut(Listing(ts[0], f, PositionOf(start)), limit);
      if page.more {
        BrowseIsSound(ts[1..], f, limit, Some(Last(page)));
        WalkStep(ts, f, start, page, Browse(ts[1..], f, limit, Some(Last(page))));
      } else {
        forall i | AlwaysShows(ts, f, i) ensures Shows(ts[0], f, i) {
          StillShows(ts, f, i);
        }
      }
    }
  }

  /** Over tables that change between pages: no row is shown twice at one instant, and a row that is there with
      the same instant at every page, and passes the filter, is shown by a walk that ends. */
  lemma WalkIsSound(ts: seq<Table>, f: Filter, limit: nat)
    requires limit >= 1
    ensures var w := Follow(ts, f, limit, None);
            Strict(w.items) && (w.done ==> forall i :: AlwaysShows(ts, f, i) ==> i in w.items)
  {
    FollowIsBrowse(ts, f, limit, None, None);
    BrowseIsSound(ts, f, limit, None);
  }

  // ---------------------------------------------------------------- rows whose instant changes

  /** From page to page the row's instant stays or rises, whenever the row is there. */
  ghost predicate NeverFalls(ts: seq<Table>, id: nat) {
    forall k, l :: 0 <= k < l < |ts| && id in ts[k] && id in ts[l] ==> Stamp(ts[k][id].at) <= Stamp(ts[l][id].at)
  }

  ghost predicate NeverRises(ts: seq<Table>, id: nat) {
    forall k, l :: 0 <= k < l < |ts| && id in ts[k] && id in ts[l] ==> Stamp(ts[k][id].at) >= Stamp(ts[l][id].at)
  }

  /** The row is there at every page and passes the filter. */
  ghost predicate StaysIn(ts: seq<Table>, f: Filter, id: nat) {
    forall k :: 0 <= k < |ts| ==> id in ts[k] && Matches(f, ts[k][id])
  }

  ghost predicate AtMostOnce(items: seq<Item>, id: nat) {
    forall i, j :: 0 <= i < j < |items| ==> items[i].id != id || items[j].id != id
  }

  ghost predicate ShowsId(items: seq<Item>, id: nat) {
    exists i :: 0 <= i < |items| && items[i].id == id
  }

  /** What a walk shows was in the table of some page. */
  lemma {:induction false} ShownFromSome(ts: seq<Table>, f: Filter, limit: nat, start: Option<Item>, i: Item) returns (k: nat)
    requires limit >= 1 && i in Browse(ts, f, limit, start).items
    ensures k < |ts| && Shows(ts[k], f, i)
    decreases |ts|
  {
    var page := Cut(Listing(ts[0], f, PositionOf(start)), limit);
    if i in page.items {
      ShownOnPage(ts[0], f, limit, start, i);
      k := 0;
    } else {
      ShownLater(ts, f, limit, start, i);
      var m := ShownFromSome(ts[1..], f, limit, Some(Last(page)), i);
      assert ts[1..][m] == ts[m + 1];
      k := m + 1;
    }
  }

  lemma ShownOnPage(t: Table, f: Filter, limit: nat, start: Option<Item>, i: Item)
    requires limit >= 1 && i in Cut(Listing(t, f, PositionOf(start)), limit).items
    ensures Shows(t, f, i)
  {
    CutIsOk(t, f, start, limit);
  }

  lemma {:induction false} ShownLater(ts: seq<Table>, f: Filter, limit: nat, start: Option<Item>, i: Item)
    requires ts != [] && i in Browse(ts, f, limit, start).items
    requires i !in Cut(Listing(ts[0], f, PositionOf(start)), limit).items
    ensures var page := Cut(Listing(ts[0], f, PositionOf(start)), limit);
            page.more && i in Browse(ts[1..], f, limit, Some(Last(page))).items
  {
  }

  lemma NotShownAgain(ts: seq<Table>, f: Filter, limit: nat, start: Option<Item>, it: Item, r: Item)
    requires limit >= 1 && ts != [] && NeverFalls(ts, it.id)
    requires var page := Cut(Listing(ts[0], f, PositionOf(start)), limit);
             page.more && it in page.items && r in Browse(ts[1..], f, limit, Some(Last(page))).items
    ensures r.id != it.id
  {
    var page := Cut(Listing(ts[0], f, PositionOf(start)), limit);
    CutIsOk(ts[0], f, start, limit);
    BrowseIsSound(ts[1..], f, limit, Some(Last(page)));
    var k := ShownFromSome(ts[1..], f, limit, Some(Last(page)), r);
    assert ts[1..][k] == ts[k + 1];
    assert Beyond(Some(Last(page)), r);
    assert Shows(ts[0], f, it);
    NotBehindLast(page, it);
  }

  lemma NotBehindLast(page: Slice, it: Item)
    requires Strict(page.items) && it in page.items
    ensures !Precedes(Last(page), it)
  {
    var m :| 0 <= m < |page.items| && page.items[m] == it;
  }

  lemma {:induction false} BrowseShowsOnce(ts: seq<Table>, f: Filter, limit: nat, start: Option<Item>, id: nat)
    requires limit >= 1 && NeverFalls(ts, id)
    ensures AtMostOnce(Browse(ts, f, limit, start).items, id)
    decreases |ts|
  {
    if ts != [] {
      var page := Cut(Listing(ts[0], f, PositionOf(start)), limit);
      CutIsOk(ts[0], f, start, limit);
      OncePerPage(ts[0], f, page.items, id);
      if page.more {
        BrowseShowsOnce(ts[1..], f, limit, Some(Last(page)), id);
        var rest := Browse(ts[1..], f, limit, Some(Last(page))).items;
        var all := page.items + rest;
        forall i, j | 0 <= i < j < |all| && all[i].id == id ensures all[j].id != id {
          if i < |page.items| <= j {
            assert rest[j - |page.items|] in rest;
            NotShownAgain(ts, f, limit, start, all[i], all[j]);
          }
        }
      }
    }
  }

  lemma OncePerPage(t: Table, f: Filter, items: seq<Item>, id: nat)
    requires Strict(items) && forall i :: i in items ==> Shows(t, f, i)
    ensures AtMostOnce(items, id)
  {
    forall i, j | 0 <= i < j < |items| ensures items[i].id != id || items[j].id != id {
      assert items[i] in items && items[j] in items;
    }
  }

  lemma {:induction false} BrowseShowsAll(ts: seq<Table>, f: Filter, limit: nat, start: Option<Item>, id: nat)
    requires limit >= 1 && NeverRises(ts, id)
    requires StaysIn(ts, f, id)
    requires ts != [] ==> Beyond(start, Item(ts[0][id].at, id))
    ensures Browse(ts, f, limit, start).done ==> ShowsId(Browse(ts, f, limit, start).items, id)
    decreases |ts|
  {
    if ts != [] {
      var page := Cut(Listing(ts[0], f, PositionOf(start)), limit);
      var it := Item(ts[0][id].at, id);
      CutIsOk(ts[0], f, start, limit);
      assert Shows(ts[0], f, it);
      if it in page.items {
        var m :| 0 <= m < |page.items| && page.items[m] == it;
        assert Browse(ts, f, limit, start).items[m].id == id;
      } else if page.more {
        assert Precedes(Last(page), it);
        if |ts| > 1 { assert Beyond(Some(Last(page)), Item(ts[1][id].at, id)); }
        BrowseShowsAll(ts[1..], f, limit, Some(Last(page)), id);
        ShownInRest(page.items, Browse(ts[1..], f, limit, Some(Last(page))).items, id);
      }
    }
  }

  lemma ShownInRest(a: seq<Item>, b: seq<Item>, id: nat)
    ensures ShowsId(b, id) ==> ShowsId(a + b, id)
  {
    if i :| 0 <= i < |b| && b[i].id == id { assert (a + b)[|a| + i].id == id; }
  }

  /** A row whose instant never falls is shown at most once; one that is there at every page, passes the filter
      and whose instant never rises is shown by a walk that ends. */
  lemma {:induction false} MovingRows(ts: seq<Table>, f: Filter, limit: nat, id: nat)
    requires limit >= 1
    ensures NeverFalls(ts, id) ==> AtMostOnce(Follow(ts, f, limit, None).items, id)
    ensures NeverRises(ts, id) && StaysIn(ts, f, id) && Follow(ts, f, limit, None).done ==>
      ShowsId(Follow(ts, f, limit, None).items, id)
  {
    FollowIsBrowse(ts, f, limit, None, None);
    if NeverFalls(ts, id) { BrowseShowsOnce(ts, f, limit, None, id); }
    if NeverRises(ts, id) && StaysIn(ts, f, id) {
      BrowseShowsAll(ts, f, limit, None, id);
    }
  }

  /** A listing is the only list in order with the right items. */
  lemma {:induction false} ListingIs(t: Table, f: Filter, start: Option<Item>, s: seq<Item>)
    requires Strict(s) && forall i :: i in s <==> Shows(t, f, i) && Beyond(start, i)
    ensures Listing(t, f, PositionOf(start)) == s
  {
    ListingFacts(t, f, start);
    SameListing(Listing(t, f, PositionOf(start)), s);
  }

  const ALL := Filter(None, None, None)

  function SomeRow(at: Instant): Row {
    Row(at, "m", "s", "n")
  }

  function One(a: nat, p: Instant): Table {
    map[a := SomeRow(p)]
  }

  function Two(a: nat, p: Instant, b: nat, q: Instant): Table {
    map[a := SomeRow(p), b := SomeRow(q)]
  }

  /** The last page of a walk, from a table that shows at most one more item. */
  lemma {:induction false} LastPage(t: Table, start: Item, s: seq<Item>)
    requires |s| <= 1 && forall i :: i in s <==> Shows(t, ALL, i) && Precedes(start, i)
    ensures Browse([t], ALL, 1, Some(start)) == Walk(s, true)
  {
    forall i ensures Beyond(Some(start), i) <==> Precedes(start, i) {
    }
    ListingIs(t, ALL, Some(start), s);
    CutShape(s, 1);
  }

  lemma {:induction false} LastOfOne(a: nat, p: Instant, start: Item)
    ensures Browse([One(a, p)], ALL, 1, Some(start)) == Walk(if Precedes(start, Item(p, a)) then [Item(p, a)] else [], true)
  {
    var s := if Precedes(start, Item(p, a)) then [Item(p, a)] else [];
    forall i ensures i in s <==> Shows(One(a, p), ALL, i) && Precedes(start, i) {
    }
    LastPage(One(a, p), start, s);
  }

  lemma TwoShown(a: nat, p: Instant, b: nat, q: Instant, i: Item)
    requires a != b
    ensures Shows(Two(a, p, b, q), ALL, i) <==> i == Item(p, a) || i == Item(q, b)
  {
  }

  lemma {:induction false} LastOfTwo(a: nat, p: Instant, b: nat, q: Instant)
    requires a != b
    ensures Browse([Two(a, p, b, q)], ALL, 1, Some(Item(p, a)))
         == Walk(if Precedes(Item(p, a), Item(q, b)) then [Item(q, b)] else [], true)
  {
    var s := if Precedes(Item(p, a), Item(q, b)) then [Item(q, b)] else [];
    forall i ensures i in s <==> Shows(Two(a, p, b, q), ALL, i) && Precedes(Item(p, a), i) {
      TwoShown(a, p, b, q, i);
    }
    LastPage(Two(a, p, b, q), Item(p, a), s);
  }

  /** A first page of one item, with another one behind it. */
  lemma {:induction false} FirstPage(a: nat, p: Instant, b: nat, q: Instant, t: Table)
    requires a != b && Precedes(Item(p, a), Item(q, b))
    ensures var rest := Browse([t], ALL, 1, Some(Item(p, a)));
            Follow([Two(a, p, b, q), t], ALL, 1, None) == Walk([Item(p, a)] + rest.items, rest.done)
  {
    var s := [Item(p, a), Item(q, b)];
    forall i ensures i in s <==> Shows(Two(a, p, b, q), ALL, i) && Beyond(None, i) {
      TwoShown(a, p, b, q, i);
    }
    ListingIs(Two(a, p, b, q), ALL, None, s);
    FollowIsBrowse([Two(a, p, b, q), t], ALL, 1, None, None);
    BrowseOn([Two(a, p, b, q), t], ALL, 1, None, s);
  }

  lemma LastOfCut(rows: seq<Item>, limit: nat)
    requires 1 <= limit < |rows|
    ensures Cut(rows, limit) == Slice(rows[..limit], true) && Last(Slice(rows[..limit], true)) == rows[limit - 1]
  {
    CutShape(rows, limit);
  }

  /** One page of a walk that goes on. */
  lemma {:induction false} BrowseOn(ts: seq<Table>, f: Filter, limit: nat, start: Option<Item>, rows: seq<Item>)
    requires ts != [] && rows == Listing(ts[0], f, PositionOf(start)) && 1 <= limit < |rows|
    ensures var rest := Browse(ts[1..], f, limit, Some(rows[limit - 1]));
            Browse(ts, f, limit, start) == Walk(rows[..limit] + rest.items, rest.done)
  {
    LastOfCut(rows, limit);
  }

  /** A row that has been shown is shown again exactly if its instant falls: two pages of one item, the row's
      instant `p` at the first and `q` at the second. */
  lemma {:induction false} FallingRowShownTwice(p: Instant, q: Instant)
    ensures Follow([Two(1, p, 0, p), One(1, q)], ALL, 1, None)
         == Walk(if Stamp(q) < Stamp(p) then [Item(p, 1), Item(q, 1)] else [Item(p, 1)], true)
  {
    FirstPage(1, p, 0, p, One(1, q));
    LastOfOne(1, q, Item(p, 1));
  }

  /** A row that is there all the time is missed exactly if its instant rises past the cursor before it has been
      shown: `p` is the instant of the item shown first, `q` and `r` those of the row at the two pages. */
  lemma {:induction false} RisingRowMissed(p: Instant, q: Instant, r: Instant)
    requires Stamp(q) < Stamp(p)
    ensures Follow([Two(2, p, 1, q), Two(2, p, 1, r)], ALL, 1, None)
         == Walk(if Stamp(r) > Stamp(p) then [Item(p, 2)] else [Item(p, 2), Item(r, 1)], true)
  {
    FirstPage(2, p, 1, q, Two(2, p, 1, r));
    LastOfTwo(2, p, 1, r);
  }

  lemma RestOfListing(t: Table, f: Filter, start: Option<Item>, limit: nat)
    requires 1 <= limit < |Listing(t, f, PositionOf(start))|
    ensures var rows := Listing(t, f, PositionOf(start));
            Listing(t, f, PositionOf(Some(rows[limit - 1]))) == rows[limit..]
  {
    var rows := Listing(t, f, PositionOf(start));
    var last := rows[limit - 1];
    var a, b := Listing(t, f, PositionOf(Some(last))), rows[limit..];
    ListingFacts(t, f, start);
    ListingFacts(t, f, Some(last));
    assert last in rows;
    forall i ensures i in a <==> i in b {
      BehindLast(rows, limit - 1, i);
      assert i in a <==> Shows(t, f, i) && Precedes(last, i);
    }
    SameListing(a, b);
  }

  /** What stands behind entry `k` of a listing. */
  lemma BehindLast(rows: seq<Item>, k: nat, i: Item)
    requires Strict(rows) && k < |rows|
    ensures i in rows[k + 1..] <==> i in rows && Precedes(rows[k], i)
  {
    if i in rows && Precedes(rows[k], i) {
      var m :| 0 <= m < |rows| && rows[m] == i;
      assert rows[k + 1..][m - k - 1] == i;
    }
  }

  lemma {:induction false} SameListing(a: seq<Item>, b: seq<Item>)
    requires Strict(a) && Strict(b) && forall i :: i in a <==> i in b
    ensures a == b
  {
    assert a != [] ==> a[0] in b;
    assert b != [] ==> b[0] in a;
    if a != [] {
      assert a[0] == b[0];
      StrictTail(a);
      StrictTail(b);
      SameListing(a[1..], b[1..]);
      assert a == [a[0]] + a[1..] && b == [b[0]] + b[1..];
    }
  }

  lemma StrictTail(a: seq<Item>)
    requires Strict(a) && a != []
    ensures Strict(a[1..]) && forall i :: i in a[1..] <==> i in a && i != a[0]
  {
    assert a == [a[0]] + a[1..];
    forall i | i in a[1..] ensures i != a[0] {
      var k :| 0 <= k < |a| - 1 && a[1..][k] == i;
      assert a[k + 1] == i;
    }
  }

  /** Every page is taken from one and the same table. */
  ghost predicate Unchanging(ts: seq<Table>, t: Table) {
    forall k :: 0 <= k < |ts| ==> ts[k] == t
  }

  /** On a table that stays as it is, the walk ends and concatenates to the whole listing. */
  lemma {:induction false} BrowseIsComplete(ts: seq<Table>, t: Table, f: Filter, limit: nat, start: Option<Item>)
    requires limit >= 1 && Unchanging(ts, t) && |ts| > |Listing(t, f, PositionOf(start))|
    ensures Browse(ts, f, limit, start) == Walk(Listing(t, f, PositionOf(start)), true)
    decreases |ts|
  {
    var rows := Listing(t, f, PositionOf(start));
    assert ts[0] == t;
    if |rows| > limit {
      UnchangedRest(ts, t, f, limit, start);
      BrowseIsComplete(ts[1..], t, f, limit, Some(rows[limit - 1]));
      BrowseOn(ts, f, limit, start, rows);
      assert rows == rows[..limit] + rows[limit..];
    } else {
      BrowseEnds(ts, f, limit, start);
    }
  }

  lemma UnchangedRest(ts: seq<Table>, t: Table, f: Filter, limit: nat, start: Option<Item>)
    requires Unchanging(ts, t) && |ts| > |Listing(t, f, PositionOf(start))| > limit >= 1
    ensures var rows := Listing(t, f, PositionOf(start));
            && Unchanging(ts[1..], t) && |ts[1..]| > |rows[limit..]|
            && Listing(t, f, PositionOf(Some(rows[limit - 1]))) == rows[limit..]
  {
    RestOfListing(t, f, start, limit);
  }

  lemma {:induction false} BrowseEnds(ts: seq<Table>, f: Filter, limit: nat, start: Option<Item>)
    requires ts != [] && limit >= 1 && |Listing(ts[0], f, PositionOf(start))| <= limit
    ensures Browse(ts, f, limit, start) == Walk(Listing(ts[0], f, PositionOf(start)), true)
  {
    CutShape(Listing(ts[0], f, PositionOf(start)), limit);
  }

  /** From the first page on: the walk over an unchanged table shows everything, in order, exactly when the
      limit is at least one or there is nothing to show. */
  lemma BrowsingIsCompleteIff(ts: seq<Table>, t: Table, f: Filter, limit: nat)
    requires Unchanging(ts, t) && |ts| > |Listing(t, f, None)|
    ensures Follow(ts, f, limit, None) == Walk(Listing(t, f, None), true) <==> limit >= 1 || Listing(t, f, None) == []
  {
    FollowIsBrowse(ts, f, limit, None, None);
    if limit >= 1 {
      BrowseIsComplete(ts, t, f, limit, None);
    } else {
      assert ts[0] == t && Cut(Listing(t, f, None), 0).items == [];
    }
  }
}
