/** Keyset pagination of tasks by (createdAt, id) descending, on a table that may change between pages. */
module Listing {
  import opened Common

  /** `id` stands for the position of the row's id in the column's collation. */
  datatype TaskRow = TaskRow(id: nat, createdAt: int, kind: string, status: string, rewardMicros: int, lat: real,
      lng: real)

  datatype Box = Box(swLat: real, swLng: real, neLat: real, neLng: real)

  datatype Filters = Filters(
    kind: Option<string>,
    status: Option<string>,
    minReward: Option<int>,
    maxReward: Option<int>,
    box: Option<Box>)

  datatype Cursor = NoCursor | Composite(createdAt: int, id: nat) | LegacyDate(createdAt: int)

  /** A box whose west edge lies east of its east edge crosses the antimeridian. */
  predicate Inside(b: Box, lat: real, lng: real) {
    && b.swLat <= lat <= b.neLat
    && (if b.swLng <= b.neLng then b.swLng <= lng <= b.neLng else b.swLng <= lng || lng <= b.neLng)
  }

  predicate Matches(f: Filters, r: TaskRow) {
    && (f.kind.None? || f.kind.value == "" || r.kind == f.kind.value)
    && (f.status.None? || f.status.value == "" || r.status == f.status.value)
    && (f.minReward.None? || f.minReward.value <= r.rewardMicros)
    && (f.maxReward.None? || r.rewardMicros <= f.maxReward.value)
    && (f.box.None? || Inside(f.box.value, r.lat, r.lng))
  }

  /** The keyset condition added to the query for a page. */
  predicate After(c: Cursor, r: TaskRow) {
    match c
    case NoCursor => true
    case Composite(t, id) => r.createdAt < t || (r.createdAt == t && r.id < id)
    case LegacyDate(t) => r.createdAt < t
  }

  /** `a` is listed before `b`: newer, or equally old with the larger id. */
  predicate Before(a: TaskRow, b: TaskRow) {
    a.createdAt > b.createdAt || (a.createdAt == b.createdAt && a.id > b.id)
  }

  predicate SameKey(a: TaskRow, b: TaskRow) {
    a.createdAt == b.createdAt && a.id == b.id
  }

  function Key(r: TaskRow): Cursor {
    Composite(r.createdAt, r.id)
  }

  /** The primary key. */
  ghost predicate UniqueIds(rows: set<TaskRow>) {
    forall a, b :: a in rows && b in rows && a.id == b.id ==> a == b
  }

  ghost predicate Descending(s: seq<TaskRow>) {
    forall i, j :: 0 <= i < j < |s| ==> Before(s[i], s[j])
  }

  /** The rows of a set in list order. */
  ghost predicate Ordered(s: seq<TaskRow>, rows: set<TaskRow>) {
    && Descending(s)
    && (forall r :: r in s ==> r in rows)
    && (forall r :: r in rows ==> r in s)
  }

  lemma {:induction false} OrderedUnique(s: seq<TaskRow>, t: seq<TaskRow>, rows: set<TaskRow>)
    requires Ordered(s, rows) && Ordered(t, rows)
    ensures s == t
    decreases |s|
  {
    ListsLength(s, rows);
    ListsLength(t, rows);
    if s != [] {
      assert s[0] in t;
      assert t[0] in s;
      assert s[0] == t[0] by {
        var i :| 0 <= i < |t| && t[i] == s[0];
        var j :| 0 <= j < |s| && s[j] == t[0];
      }
      Rest(s, rows);
      Rest(t, rows);
      OrderedUnique(s[1..], t[1..], rows - {s[0]});
    }
  }

  lemma Rest(s: seq<TaskRow>, rows: set<TaskRow>)
    requires s != [] && Ordered(s, rows)
    ensures Ordered(s[1..], rows - {s[0]})
  {
    forall r | r in rows - {s[0]}
      ensures r in s[1..]
    {
      var i :| 0 <= i < |s| && s[i] == r;
      assert s[1..][i - 1] == r;
    }
  }

  // ---- one page ----

  ghost function Matching(rows: set<TaskRow>, f: Filters, c: Cursor): set<TaskRow> {
    set r | r in rows && Matches(f, r) && After(c, r)
  }

  datatype Page = Page(items: seq<TaskRow>, nextCursor: Option<Cursor>)

  /** At most `limit` rows from the front, with a cursor to the last one exactly if more are left. */
  function Cut(sorted: seq<TaskRow>, limit: nat): Page
    requires limit >= 1
  {
    if |sorted| > limit then Page(sorted[..limit], Some(Key(sorted[limit - 1])))
    else Page(sorted, None)
  }

  ghost predicate IsPage(p: Page, rows: set<TaskRow>, f: Filters, c: Cursor, limit: nat) {
    limit >= 1 && exists s :: Ordered(s, Matching(rows, f, c)) && p == Cut(s, limit)
  }

  method Newest(rows: set<TaskRow>) returns (first: TaskRow)
    requires rows != {} && UniqueIds(rows)
    ensures first in rows && forall r :: r in rows && r != first ==> Before(first, r)
  {
    first :| first in rows;
    var rest := rows - {first};
    while rest != {}
      invariant rest <= rows && first in rows - rest
      invariant forall r :: r in rows ==> r in rest || r == first || Before(first, r)
      decreases rest
    {
      var r :| r in rest;
      rest := rest - {r};
      assert r.id != first.id;
      if Before(r, first) {
        first := r;
      }
    }
  }

  /** The first `take` of the rows in list order, or all of them. */
  ghost predicate IsFront(front: seq<TaskRow>, rows: set<TaskRow>, take: nat) {
    exists sorted :: Ordered(sorted, rows) && front == sorted[..if |sorted| < take then |sorted| else take]
  }

  /** `orderBy [createdAt desc, id desc], take`: the front of the ordered matching rows. */
  method FindMany(rows: set<TaskRow>, take: nat) returns (front: seq<TaskRow>)
    requires UniqueIds(rows)
    ensures IsFront(front, rows, take)
  {
    front := [];
    var rest := rows;
    while rest != {} && |front| < take
      invariant rest <= rows && |front| <= take
      invariant Descending(front)
      invariant forall r :: r in front ==> r in rows
      invariant forall r :: r in rows ==> r in rest || r in front
      invariant forall i, r :: 0 <= i < |front| && r in rest ==> Before(front[i], r)
      decreases rest
    {
      var first := Newest(rest);
      rest := rest - {first};
      front := front + [first];
    }
    ghost var tail := OrderedExists(rest);
    ghost var sorted := front + tail;
    assert Ordered(sorted, rows) && sorted[..|front|] == front;
  }

  lemma OrderedExists(rows: set<TaskRow>) returns (s: seq<TaskRow>)
    requires UniqueIds(rows)
    ensures Ordered(s, rows) && |s| == |rows|
  {
    if rows == {} {
      s := [];
    } else {
      var m := NewestExists(rows);
      var t := OrderedExists(rows - {m});
      s := [m] + t;
    }
  }

  lemma NewestExists(rows: set<TaskRow>) returns (m: TaskRow)
    requires rows != {} && UniqueIds(rows)
    ensures m in rows && forall r :: r in rows && r != m ==> Before(m, r)
  {
    var x :| x in rows;
    if rows == {x} {
      m := x;
    } else {
      var y := NewestExists(rows - {x});
      assert x.id != y.id;
      m := if Before(x, y) then x else y;
      forall r | r in rows && r != m
        ensures Before(m, r)
      {
        assert r == x || r in rows - {x};
      }
    }
  }

  /** One row more than the limit is enough to cut the page. */
  lemma FrontGivesPage(front: seq<TaskRow>, where: set<TaskRow>, n: nat)
    requires IsFront(front, where, n + 1) && n >= 1
    ensures exists s :: Ordered(s, where) && Cut(s, n) == Cut(front, n)
  {
    var s :| Ordered(s, where) && front == s[..if |s| < n + 1 then |s| else n + 1];
    if |s| > n { assert front[..n] == s[..n]; } else { assert front == s; }
    assert Cut(s, n) == Cut(front, n);
  }

  /** listTasks: `limit || 20`, one row more than asked for to see whether a next page exists. */
  method ListTasks(rows: set<TaskRow>, f: Filters, c: Cursor, limit: nat) returns (p: Page)
    requires UniqueIds(rows)
    ensures IsPage(p, rows, f, c, if limit == 0 then 20 else limit)
  {
    var n := if limit == 0 then 20 else limit;
    var where := set r | r in rows && Matches(f, r) && After(c, r);
    var tasks := FindMany(where, n + 1);
    assert where == Matching(rows, f, c);
    var hasMore := |tasks| > n;
    var items := if hasMore then tasks[..n] else tasks;
    p := Page(items, if hasMore then Some(Key(items[|items| - 1])) else None);
    FrontGivesPage(tasks, where, n);
  }

  // ---- a walk over pages, on a table that changes between them ----

  /** Following nextCursor from `c` to null; `tables[i]` is the table as page i finds it. */
  ghost predicate Walk(tables: seq<set<TaskRow>>, f: Filters, c: Cursor, limit: nat, pages: seq<Page>)
    decreases |tables|
  {
    && |tables| == |pages| > 0
    && IsPage(pages[0], tables[0], f, c, limit)
    && (if pages[0].nextCursor.None? then |pages| == 1
        else Walk(tables[1..], f, pages[0].nextCursor.value, limit, pages[1..]))
  }

  function Listed(pages: seq<Page>): seq<TaskRow> {
    if pages == [] then [] else pages[0].items + Listed(pages[1..])
  }

  lemma PageFacts(p: Page, rows: set<TaskRow>, f: Filters, c: Cursor, limit: nat)
    requires IsPage(p, rows, f, c, limit)
    ensures Descending(p.items)
    ensures forall r :: r in p.items ==> r in Matching(rows, f, c)
    ensures p.nextCursor.None? ==> forall r :: r in Matching(rows, f, c) ==> r in p.items
    ensures p.nextCursor.Some? ==>
              && |p.items| == limit
              && p.nextCursor.value == Key(p.items[limit - 1])
              && forall r :: r in Matching(rows, f, c) ==> r in p.items || After(p.nextCursor.value, r)
  {
    var s :| Ordered(s, Matching(rows, f, c)) && p == Cut(s, limit);
    if |s| > limit {
      forall r | r in Matching(rows, f, c)
        ensures r in p.items || After(Key(s[limit - 1]), r)
      {
        var i :| 0 <= i < |s| && s[i] == r;
        if i < limit { assert p.items[i] == r; }
      }
    }
  }

  /**
   * What the filters mean: an empty one is none, reward bounds include their ends, and a box includes its edges. A box
   * across the antimeridian is the two boxes on either side of it.
   */
  lemma FiltersMean(f: Filters, r: TaskRow)
    ensures Matches(f, r) <==>
              && (f.kind != None && f.kind != Some("") ==> Some(r.kind) == f.kind)
              && (f.status != None && f.status != Some("") ==> Some(r.status) == f.status)
              && (f.minReward != None ==> r.rewardMicros >= f.minReward.value)
              && (f.maxReward != None ==> r.rewardMicros <= f.maxReward.value)
              && (f.box != None ==> Inside(f.box.value, r.lat, r.lng))
    ensures f.box != None && f.box.value.swLng <= f.box.value.neLng ==>
              var b := f.box.value;
              (Inside(b, r.lat, r.lng) <==> b.swLat <= r.lat <= b.neLat && b.swLng <= r.lng <= b.neLng)
    ensures f.box != None && f.box.value.swLng > f.box.value.neLng && -180.0 <= r.lng <= 180.0
            && f.box.value.swLng <= 180.0 && -180.0 <= f.box.value.neLng ==>
              var b := f.box.value;
              (Inside(b, r.lat, r.lng) <==> Inside(Box(b.swLat, b.swLng, b.neLat, 180.0), r.lat, r.lng)
                                            || Inside(Box(b.swLat, -180.0, b.neLat, b.neLng), r.lat, r.lng))
  {}

  /** One page: its rows are of the table, pass every filter that is given, and come after the cursor. */
  lemma PagePasses(p: Page, rows: set<TaskRow>, f: Filters, createdAt: int, id: nat, limit: nat, i: nat)
    requires IsPage(p, rows, f, Composite(createdAt, id), limit) && i < |p.items|
    ensures var r := p.items[i];
            && r in rows
            && (r.createdAt < createdAt || (r.createdAt == createdAt && r.id < id))
            && (f.kind.Some? && f.kind.value != "" ==> r.kind == f.kind.value)
            && (f.status.Some? && f.status.value != "" ==> r.status == f.status.value)
            && (f.minReward.Some? ==> f.minReward.value <= r.rewardMicros)
            && (f.maxReward.Some? ==> r.rewardMicros <= f.maxReward.value)
    ensures |p.items| <= limit
    ensures i > 0 ==> var q, r := p.items[i - 1], p.items[i];
                      q.createdAt > r.createdAt || (q.createdAt == r.createdAt && q.id > r.id)
  {
    PageFacts(p, rows, f, Composite(createdAt, id), limit);
    assert p.items[i] in p.items;
    FiltersMean(f, p.items[i]);
    if i > 0 { assert Before(p.items[i - 1], p.items[i]); }
  }

  /** Whatever is inserted or deleted between pages, the listed rows are strictly descending: none repeats. */
  lemma {:induction false} NoRepeats(tables: seq<set<TaskRow>>, f: Filters, c: Cursor, limit: nat, pages: seq<Page>)
    requires Walk(tables, f, c, limit, pages)
    ensures Descending(Listed(pages))
    ensures forall r :: r in Listed(pages) ==> After(c, r) && Matches(f, r)
    decreases |tables|
  {
    PageFacts(pages[0], tables[0], f, c, limit);
    if pages[0].nextCursor.Some? {
      var next := pages[0].nextCursor.value;
      NoRepeats(tables[1..], f, next, limit, pages[1..]);
      var items, rest := pages[0].items, Listed(pages[1..]);
      forall i, j | 0 <= i < |items| && 0 <= j < |rest|
        ensures Before(items[i], rest[j])
      {
        assert rest[j] in rest && After(next, rest[j]);
        if i < limit - 1 { assert Before(items[i], items[limit - 1]); }
      }
      forall r | r in rest
        ensures After(c, r)
      {
        assert items[limit - 1] in items && After(c, items[limit - 1]) && After(next, r);
      }
    } else {
      assert pages[1..] == [];
    }
  }

  /** A key that matches in the table of every page is listed. */
  lemma {:induction false} NothingSkipped(tables: seq<set<TaskRow>>, f: Filters, c: Cursor, limit: nat,
                                          pages: seq<Page>, key: TaskRow)
    requires Walk(tables, f, c, limit, pages) && After(c, key)
    requires forall i :: 0 <= i < |tables| ==> exists r :: r in tables[i] && SameKey(r, key) && Matches(f, r)
    ensures exists r :: r in Listed(pages) && SameKey(r, key)
    decreases |tables|
  {
    PageFacts(pages[0], tables[0], f, c, limit);
    var r :| r in tables[0] && SameKey(r, key) && Matches(f, r);
    assert r in Matching(tables[0], f, c);
    if r in pages[0].items {
      assert r in Listed(pages);
    } else {
      NothingSkipped(tables[1..], f, pages[0].nextCursor.value, limit, pages[1..], key);
      var q :| q in Listed(pages[1..]) && SameKey(q, key);
      assert q in Listed(pages);
    }
  }

  /** A row present and matching throughout a walk from the first page appears exactly once. */
  lemma ExactlyOnce(tables: seq<set<TaskRow>>, f: Filters, limit: nat, pages: seq<Page>, key: TaskRow)
    requires Walk(tables, f, NoCursor, limit, pages)
    requires forall i :: 0 <= i < |tables| ==> exists r :: r in tables[i] && SameKey(r, key) && Matches(f, r)
    ensures exists i :: 0 <= i < |Listed(pages)| && SameKey(Listed(pages)[i], key)
                        && forall j :: 0 <= j < |Listed(pages)| && SameKey(Listed(pages)[j], key) ==> j == i
  {
    NothingSkipped(tables, f, NoCursor, limit, pages, key);
    NoRepeats(tables, f, NoCursor, limit, pages);
    var r :| r in Listed(pages) && SameKey(r, key);
    var i :| 0 <= i < |Listed(pages)| && Listed(pages)[i] == r;
    forall j | 0 <= j < |Listed(pages)| && SameKey(Listed(pages)[j], key)
      ensures j == i
    {
      assert !(j < i) && !(i < j);
    }
  }

  /** On a table that does not change, the walk lists exactly the matching rows, in order. */
  lemma StaticWalk(rows: set<TaskRow>, f: Filters, limit: nat, tables: seq<set<TaskRow>>, pages: seq<Page>)
    requires Walk(tables, f, NoCursor, limit, pages)
    requires forall i :: 0 <= i < |tables| ==> tables[i] == rows
    requires UniqueIds(rows)
    ensures Ordered(Listed(pages), Matching(rows, f, NoCursor))
  {
    NoRepeats(tables, f, NoCursor, limit, pages);
    ListedFromTable(rows, tables, f, NoCursor, limit, pages);
    forall r | r in Matching(rows, f, NoCursor)
      ensures r in Listed(pages)
    {
      forall i | 0 <= i < |tables|
        ensures exists q :: q in tables[i] && SameKey(q, r) && Matches(f, q)
      {
        assert r in tables[i] && SameKey(r, r) && Matches(f, r);
      }
      NothingSkipped(tables, f, NoCursor, limit, pages, r);
      var q :| q in Listed(pages) && SameKey(q, r);
      assert q in rows;
    }
  }

  lemma {:induction false} ListedFromTable(rows: set<TaskRow>, tables: seq<set<TaskRow>>, f: Filters, c: Cursor,
                                           limit: nat, pages: seq<Page>)
    requires Walk(tables, f, c, limit, pages)
    requires forall i :: 0 <= i < |tables| ==> tables[i] == rows
    ensures forall r :: r in Listed(pages) ==> r in rows
    decreases |tables|
  {
    PageFacts(pages[0], tables[0], f, c, limit);
    if pages[0].nextCursor.Some? {
      ListedFromTable(rows, tables[1..], f, pages[0].nextCursor.value, limit, pages[1..]);
    } else {
      assert pages[1..] == [];
    }
  }

  /** The pages of a walk that has not come to its end: each but the last has a cursor, which the next one follows. */
  ghost predicate PartialWalk(rows: set<TaskRow>, f: Filters, c: Cursor, limit: nat, pages: seq<Page>)
    decreases |pages|
  {
    pages != [] ==>
      && IsPage(pages[0], rows, f, c, limit)
      && (|pages| > 1 ==>
            pages[0].nextCursor.Some? && PartialWalk(rows, f, pages[0].nextCursor.value, limit, pages[1..]))
  }

  /** No walk on an unchanging table goes on for more pages than there are matching rows, and one. */
  lemma {:induction false} WalkBounded(rows: set<TaskRow>, f: Filters, c: Cursor, limit: nat, pages: seq<Page>)
    requires PartialWalk(rows, f, c, limit, pages)
    ensures |pages| <= 1 + |Matching(rows, f, c)|
    decreases |pages|
  {
    if |pages| > 1 {
      var next := pages[0].nextCursor.value;
      var last := pages[0].items[limit - 1];
      WalkBounded(rows, f, next, limit, pages[1..]);
      PageFacts(pages[0], rows, f, c, limit);
      assert last in pages[0].items && last in Matching(rows, f, c) && last !in Matching(rows, f, next);
      forall r | r in Matching(rows, f, next)
        ensures r in Matching(rows, f, c)
      {
        assert After(next, r) && After(c, last);
      }
      SubsetSize(Matching(rows, f, next), Matching(rows, f, c) - {last});
    }
  }

  /** Every walk on an unchanging table comes to an end: a full walk exists, from any cursor and for any limit. */
  lemma {:induction false} WalkTerminates(rows: set<TaskRow>, f: Filters, c: Cursor, limit: nat)
    returns (tables: seq<set<TaskRow>>, pages: seq<Page>)
    requires UniqueIds(rows) && limit >= 1
    ensures Walk(tables, f, c, limit, pages) && forall i :: 0 <= i < |tables| ==> tables[i] == rows
    ensures |pages| <= 1 + |Matching(rows, f, c)|
    decreases |Matching(rows, f, c)|
  {
    var s := OrderedExists(Matching(rows, f, c));
    var p := Cut(s, limit);
    assert IsPage(p, rows, f, c, limit);
    if p.nextCursor.None? {
      tables, pages := [rows], [p];
    } else {
      var next := p.nextCursor.value;
      PageFacts(p, rows, f, c, limit);
      var last := s[limit - 1];
      assert last in p.items && last in Matching(rows, f, c) && last !in Matching(rows, f, next);
      SubsetSize(Matching(rows, f, next), Matching(rows, f, c) - {s[limit - 1]});
      var ts, ps := WalkTerminates(rows, f, next, limit);
      tables, pages := [rows] + ts, [p] + ps;
      assert tables[1..] == ts && pages[1..] == ps;
    }
  }

  /** A legacy date cursor continues like the composite cursor of the same row exactly when no older-id tie is left. */
  lemma LegacyAgreesIff(rows: set<TaskRow>, f: Filters, t: int, id: nat)
    ensures Matching(rows, f, LegacyDate(t)) == Matching(rows, f, Composite(t, id))
            <==> !exists r :: r in rows && Matches(f, r) && r.createdAt == t && r.id < id
  {
    if exists r :: r in rows && Matches(f, r) && r.createdAt == t && r.id < id {
      var r :| r in rows && Matches(f, r) && r.createdAt == t && r.id < id;
      assert r in Matching(rows, f, Composite(t, id)) && r !in Matching(rows, f, LegacyDate(t));
    }
  }
}
