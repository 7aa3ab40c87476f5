/** Descending pages over a set of message ids: ORDER BY id DESC, LIMIT limit + 1, and a cursor taken
    from the last row of the page (app/messages/service.py). */
module Paging {
  import opened Prelude

  function MaxOf(s: set<nat>): (m: nat)
    requires s != {}
    ensures m in s && forall x | x in s :: x <= m
  {
    MaxExists(s);
    var m :| m in s && forall x | x in s :: x <= m;
    m
  }

  lemma {:induction false} MaxExists(s: set<nat>)
    requires s != {}
    ensures exists m :: m in s && forall x | x in s :: x <= m
    decreases |s|
  {
    var y :| y in s;
    if s != {y} {
      assert s - {y} != {};
      MaxExists(s - {y});
      var m :| m in s - {y} && forall x | x in s - {y} :: x <= m;
      var top := if m < y then y else m;
      forall x | x in s ensures x <= top { assert x == y || x in s - {y}; }
      assert top in s;
    }
  }

  /** The ids in descending order. */
  function Desc(s: set<nat>): (q: seq<nat>)
    decreases |s|
  {
    if s == {} then [] else var m := MaxOf(s); [m] + Desc(s - {m})
  }

  ghost predicate Decreasing(q: seq<nat>) {
    forall i, j | 0 <= i < j < |q| :: q[i] > q[j]
  }

  lemma Prepend(m: nat, rest: seq<nat>)
    requires Decreasing(rest) && forall i | 0 <= i < |rest| :: rest[i] < m
    ensures Decreasing([m] + rest) && Elements([m] + rest) == {m} + Elements(rest)
  {
  }

  lemma AllAreLess(s: set<nat>, m: nat, rest: seq<nat>)
    requires (forall x | x in s :: x <= m) && Elements(rest) == s - {m}
    ensures forall i | 0 <= i < |rest| :: rest[i] < m
  {
    forall i | 0 <= i < |rest| ensures rest[i] < m { assert rest[i] in Elements(rest); }
  }

  lemma DescStep(s: set<nat>)
    requires s != {}
    ensures Desc(s) == [MaxOf(s)] + Desc(s - {MaxOf(s)})
  {
  }

  lemma {:induction false} DescLists(s: set<nat>)
    ensures Elements(Desc(s)) == s && Decreasing(Desc(s)) && |Desc(s)| == |s|
    decreases |s|
  {
    if s == {} {
    } else {
      var m := MaxOf(s);
      DescStep(s);
      hide Desc, MaxOf, Decreasing, Elements;
      DescLists(s - {m});
      AllAreLess(s, m, Desc(s - {m}));
      Prepend(m, Desc(s - {m}));
    }
  }

  /** A decreasing listing is unique. */
  lemma {:induction false} DescIsUnique(q: seq<nat>)
    requires Decreasing(q)
    ensures Desc(Elements(q)) == q
  {
    if q == [] {
    } else {
      var s := Elements(q);
      assert q[0] in s;
      assert forall x | x in s :: x <= q[0];
      assert MaxOf(s) == q[0];
      assert s - {q[0]} == Elements(q[1..]);
      DescIsUnique(q[1..]);
    }
  }

  function Below(s: set<nat>, before: Option<nat>): set<nat> {
    set x | x in s && (before.Some? ==> x < before.value)
  }

  datatype Page = Page(ids: seq<nat>, next: Option<nat>)

  function Take(q: seq<nat>, n: nat): seq<nat> {
    if |q| <= n then q else q[..n]
  }

  function PageOf(s: set<nat>, before: Option<nat>, limit: nat): Page {
    var rows := Take(Desc(Below(s, before)), limit + 1);
    var hasMore := |rows| > limit;
    var page := Take(rows, limit);
    Page(page, if hasMore && page != [] then Some(page[|page| - 1]) else None)
  }

  lemma PageCuts(s: set<nat>, before: Option<nat>, limit: nat)
    ensures var all, p := Desc(Below(s, before)), PageOf(s, before, limit);
      && p.ids == Take(all, limit)
      && (p.next.Some? <==> |all| > limit >= 1)
      && (p.next.Some? ==> p.next == Some(all[limit - 1]))
  {
  }

  /** What lies below the n-th element of a decreasing listing is the rest of it. */
  lemma RestOfListing(all: seq<nat>, n: nat)
    requires Decreasing(all) && 1 <= n <= |all|
    ensures (set x | x in Elements(all) && x < all[n - 1]) == Elements(all[n..])
    ensures Decreasing(all[n..])
  {
    forall x | x in Elements(all) && x < all[n - 1]
      ensures x in all[n..]
    {
      var i :| 0 <= i < |all| && all[i] == x;
      assert all[n..][i - n] == x;
    }
    assert all == all[..n] + all[n..];
  }

  lemma BelowCursor(s: set<nat>, before: Option<nat>, n: nat)
    requires 1 <= n <= |Desc(Below(s, before))|
    ensures var all := Desc(Below(s, before));
      Below(s, Some(all[n - 1])) == Elements(all[n..]) && Desc(Elements(all[n..])) == all[n..]
          && all[n - 1] in Below(s, before)
  {
    var all := Desc(Below(s, before));
    DescLists(Below(s, before));
    RestOfListing(all, n);
    DescIsUnique(all[n..]);
    assert all[n - 1] in Elements(all);
  }

  /** A page and what lies below its cursor make up everything below the cursor before it. */
  lemma PageSplits(s: set<nat>, before: Option<nat>, limit: nat)
    requires limit >= 1
    ensures var all, p := Desc(Below(s, before)), PageOf(s, before, limit);
      && (p.next.None? ==> p.ids == all && |all| <= limit)
      && (p.next.Some? ==> && |p.ids| == limit < |all|
                           && p.ids + Desc(Below(s, p.next)) == all
                           && p.next.value in Below(s, before))
  {
    hide PageOf, Desc, Below;
    PageCuts(s, before, limit);
    if PageOf(s, before, limit).next.Some? {
      BelowCursor(s, before, limit);
    }
  }

  /** What was collected, the cursor that is left, and whether a null cursor was reached. */
  type Walked = (seq<nat>, Option<nat>, bool)

  /** Following `next` over the successive contents of the table, one per page. */
  function Walk(tables: seq<set<nat>>, before: Option<nat>, limit: nat): Walked
    decreases |tables|
  {
    if tables == [] then ([], before, false)
    else
      var p := PageOf(tables[0], before, limit);
      if p.next.None? then (p.ids, None, true)
      else var (ids, cursor, done) := Walk(tables[1..], p.next, limit); (p.ids + ids, cursor, done)
  }

  lemma BelowBelow(s: set<nat>, base: set<nat>, bound: nat, before: nat)
    requires Below(s, Some(bound)) == base && before <= bound
    ensures Below(s, Some(before)) == Below(base, Some(before))
  {
    forall x ensures x in Below(s, Some(before)) <==> x in Below(base, Some(before)) {
      assert x in Below(s, Some(bound)) <==> x in base;
    }
  }

  /** What a walk from the cursor `before` collects is a prefix of what lies below it: all of it once
      a null cursor is reached, and `limit` ids a page until then. */
  lemma {:induction false} WalkFrom(tables: seq<set<nat>>, base: set<nat>, bound: nat, before: nat, limit: nat)
    requires limit >= 1 && before <= bound
    requires forall t | t in tables :: Below(t, Some(bound)) == base
    ensures WalkIs(Walk(tables, Some(before), limit), Desc(Below(base, Some(before))), limit, |tables|)
    decreases |tables|
  {
    if tables == [] {
    } else {
      hide Desc, PageOf, Below;
      BelowBelow(tables[0], base, bound, before);
      PageSplits(tables[0], Some(before), limit);
      var p := PageOf(tables[0], Some(before), limit);
      if p.next.Some? {
        var c := p.next.value;
        BelowMeans(tables[0], before, c);
        BelowBelow(tables[0], base, bound, c);
        WalkFrom(tables[1..], base, bound, c, limit);
        WalkJoins(p.ids, Walk(tables[1..], Some(c), limit), Desc(Below(base, Some(c))), limit, |tables| - 1);
      } else {
        WalkEnds(p.ids, limit, |tables|);
      }
    }
  }

  ghost predicate WalkIs(w: Walked, all: seq<nat>, limit: nat, pages: nat) {
    var (ids, cursor, done) := w;
    && ids <= all && |ids| <= limit * pages
    && (done ==> ids == all)
    && (!done ==> |ids| == limit * pages && (pages >= 1 ==> |ids| < |all|))
  }

  lemma WalkEnds(ids: seq<nat>, limit: nat, pages: nat)
    requires |ids| <= limit && pages >= 1
    ensures WalkIs((ids, None, true), ids, limit, pages)
  {
  }

  lemma WalkIsMeans(w: Walked, all: seq<nat>, limit: nat, pages: nat)
    requires WalkIs(w, all, limit, pages) && pages >= 1
    ensures w.0 == Take(all, limit * pages)
    ensures w.2 <==> limit * pages >= |all|
  {
  }

  lemma BelowNothing(s: set<nat>)
    ensures Below(s, None) == s
  {
  }

  lemma BelowMeans(s: set<nat>, before: nat, x: nat)
    requires x in Below(s, Some(before))
    ensures x < before
  {
  }

  lemma WalkJoins(first: seq<nat>, w: Walked, rest: seq<nat>, limit: nat, pages: nat)
    requires WalkIs(w, rest, limit, pages) && |first| == limit
    requires pages == 0 ==> rest != []
    ensures WalkIs((first + w.0, w.1, w.2), first + rest, limit, pages + 1)
  {
  }

  lemma WalkStart(tables: seq<set<nat>>, base: set<nat>, bound: nat, limit: nat)
    requires limit >= 1 && tables != [] && tables[0] == base
    requires Below(base, None) == base && forall x | x in base :: x < bound
    requires forall t | t in tables :: Below(t, Some(bound)) == base
    ensures WalkIs(Walk(tables, None, limit), Desc(base), limit, |tables|)
  {
    hide Desc, PageOf, Below;
    PageSplits(base, None, limit);
    var p := PageOf(base, None, limit);
    if p.next.Some? {
      var c := p.next.value;
      WalkFrom(tables[1..], base, bound, c, limit);
      WalkJoins(p.ids, Walk(tables[1..], Some(c), limit), Desc(Below(base, Some(c))), limit, |tables| - 1);
    } else {
      WalkEnds(p.ids, limit, |tables|);
    }
  }

  /** The walk from the start over a table that only gains larger ids between pages lists exactly what
      the table held at the first page, each id once and in decreasing order, and needs one page per
      `limit` of them. */
  lemma WalkListsAll(tables: seq<set<nat>>, bound: nat, limit: nat)
    requires limit >= 1 && tables != []
    requires forall x | x in tables[0] :: x < bound
    requires forall t | t in tables :: Below(t, Some(bound)) == tables[0]
    ensures Walk(tables, None, limit).0 == Take(Desc(tables[0]), limit * |tables|)
    ensures Walk(tables, None, limit).2 <==> limit * |tables| >= |tables[0]|
  {
    hide Walk;
    assert Below(tables[0], None) == tables[0];
    DescLists(tables[0]);
    WalkStart(tables, tables[0], bound, limit);
    WalkIsMeans(Walk(tables, None, limit), Desc(tables[0]), limit, |tables|);
  }

  /** Between one page and the next, ids below the bound only go away. */
  ghost predicate Shrinking(tables: seq<set<nat>>, bound: nat) {
    forall i | 0 <= i < |tables| - 1 :: Below(tables[i + 1], Some(bound)) <= Below(tables[i], Some(bound))
  }

  /** What was collected is decreasing and from the first table, misses nothing that was there all
      along, and is finished after one page per `limit` ids. */
  ghost predicate WalkKeeps(w: Walked, tables: seq<set<nat>>, before: Option<nat>, limit: nat) {
    var (ids, _, done) := w;
    && Decreasing(ids)
    && (forall x | x in ids :: tables != [] && x in Below(tables[0], before))
    && (done ==> forall x | ThroughoutBelow(tables, before, x) :: x in ids)
    && (tables != [] && limit * |tables| >= |Below(tables[0], before)| ==> done)
  }

  ghost predicate ThroughoutBelow(tables: seq<set<nat>>, before: Option<nat>, x: nat) {
    forall t | t in tables :: x in Below(t, before)
  }

  lemma {:induction false} WalkUnderRemovals(tables: seq<set<nat>>, bound: nat, before: Option<nat>, limit: nat)
    requires limit >= 1 && Shrinking(tables, bound)
    requires before.Some? ==> before.value <= bound
    requires before.None? && tables != [] ==> forall x | x in tables[0] :: x < bound
    ensures WalkKeeps(Walk(tables, before, limit), tables, before, limit)
    decreases |tables|
  {
    if tables == [] {
    } else {
      var p := PageOf(tables[0], before, limit);
      PageSplits(tables[0], before, limit);
      DescLists(Below(tables[0], before));
      if p.next.Some? {
        assert Shrinking(tables[1..], bound);
        WalkUnderRemovals(tables[1..], bound, p.next, limit);
        PageIsCut(tables[0], before, limit);
        PageThenWalk(tables, bound, before, limit, p.ids, p.next.value, Walk(tables[1..], p.next, limit));
      } else {
        LastPage(tables, before, limit, p.ids);
      }
    }
  }

  lemma LastPage(tables: seq<set<nat>>, before: Option<nat>, limit: nat, ids: seq<nat>)
    requires tables != [] && Decreasing(ids) && Elements(ids) == Below(tables[0], before)
    ensures WalkKeeps((ids, None, true), tables, before, limit)
  {
    hide Below;
    assert tables[0] in tables;
    forall x | x in ids ensures x in Below(tables[0], before) { assert x in Elements(ids); }
    forall x | ThroughoutBelow(tables, before, x) ensures x in ids { assert x in Elements(ids); }
  }

  /** A page joined with what is collected below its last id. */
  lemma JoinDecreases(first: seq<nat>, rest: seq<nat>)
    requires first != [] && Decreasing(first) && Decreasing(rest)
    requires forall x | x in rest :: x < first[|first| - 1]
    ensures Decreasing(first + rest)
  {
    forall i | 0 <= i < |rest| ensures rest[i] < first[|first| - 1] { assert rest[i] in rest; }
  }

  /** What lies below the cursor, now and one page later. */
  lemma LaterIsLess(tables: seq<set<nat>>, bound: nat, before: Option<nat>, cursor: nat)
    requires |tables| >= 2 && Shrinking(tables, bound) && cursor < bound && (before.Some? ==> cursor < before.value)
    ensures Below(tables[1], Some(cursor)) <= Below(tables[0], Some(cursor)) <= Below(tables[0], before)
    ensures |Below(tables[1], Some(cursor))| <= |Below(tables[0], Some(cursor))|
  {
    assert forall x | x in Below(tables[1], Some(cursor)) :: x in Below(tables[1], Some(bound));
    SubsetSize(Below(tables[1], Some(cursor)), Below(tables[0], Some(cursor)));
  }

  /** A page with a cursor: what follows lies below it, and what lies below it is `limit` less. */
  ghost predicate CutAt(s: set<nat>, before: Option<nat>, ids: seq<nat>, cursor: nat, limit: nat) {
    && Decreasing(ids) && |ids| == limit >= 1 && ids[limit - 1] == cursor
    && (before.Some? ==> cursor < before.value)
    && (forall x :: x in Below(s, before) <==> x in ids || x in Below(s, Some(cursor)))
    && |Below(s, before)| == limit + |Below(s, Some(cursor))| > limit
  }

  lemma CutListing(front: seq<nat>, rest: seq<nat>)
    requires Decreasing(front + rest)
    ensures Decreasing(front)
    ensures forall x :: x in Elements(front + rest) <==> x in front || x in Elements(rest)
  {
    assert forall i | 0 <= i < |front| :: (front + rest)[i] == front[i];
  }

  lemma PageIsCut(s: set<nat>, before: Option<nat>, limit: nat)
    requires limit >= 1 && PageOf(s, before, limit).next.Some?
    ensures var p := PageOf(s, before, limit); CutAt(s, before, p.ids, p.next.value, limit)
  {
    hide PageOf, Desc, Below, Elements, Decreasing;
    var p := PageOf(s, before, limit);
    PageSplits(s, before, limit);
    PageCuts(s, before, limit);
    DescLists(Below(s, before));
    DescLists(Below(s, p.next));
    CutListing(p.ids, Desc(Below(s, p.next)));
    if before.Some? { BelowMeans(s, before.value, p.next.value); }
  }

  lemma PageThenWalk(tables: seq<set<nat>>, bound: nat, before: Option<nat>, limit: nat, ids: seq<nat>, cursor: nat,
                     w: Walked)
    requires tables != [] && Shrinking(tables, bound) && cursor < bound && CutAt(tables[0], before, ids, cursor, limit)
    requires WalkKeeps(w, tables[1..], Some(cursor), limit)
    ensures WalkKeeps((ids + w.0, w.1, w.2), tables, before, limit)
  {
    forall x | x in w.0 ensures x < cursor && x in Below(tables[0], Some(cursor)) {
      BelowMeans(tables[1], cursor, x);
      LaterIsLess(tables, bound, before, cursor);
    }
    JoinDecreases(ids, w.0);
    if w.2 {
      forall x | ThroughoutBelow(tables, before, x) ensures x in ids + w.0 {
        assert tables[0] in tables;
        if x !in ids {
          BelowMeans(tables[0], cursor, x);
          forall t | t in tables[1..] ensures x in Below(t, Some(cursor)) {
            assert t in tables && x in Below(t, before);
          }
          assert ThroughoutBelow(tables[1..], Some(cursor), x);
        }
      }
    }
    if limit * |tables| >= |Below(tables[0], before)| {
      assert limit * |tables| == limit + limit * (|tables| - 1);
      if |tables| >= 2 { LaterIsLess(tables, bound, before, cursor); }
    }
  }

  /** A page size of 0 ends the walk at once with nothing, so a walk that ended has listed the table if
      and only if the size was positive or there was nothing to list. */
  lemma EndedWalkIsCompleteIff(table: set<nat>, pages: nat, limit: nat)
    requires pages >= 1 && Walk(seq(pages, _ => table), None, limit).2
    ensures Walk(seq(pages, _ => table), None, limit).0 == Desc(table) <==> limit >= 1 || table == {}
  {
    var tables := seq(pages, _ => table);
    var bound := if table == {} then 0 else MaxOf(table) + 1;
    assert forall t | t in tables :: Below(t, Some(bound)) == table;
    DescLists(table);
    if limit >= 1 {
      WalkListsAll(tables, bound, limit);
    } else {
      PageCuts(table, None, limit);
    }
  }
}
