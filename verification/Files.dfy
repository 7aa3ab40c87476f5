/** The files of a group, page by page (app/messages/service.py). */
module Files {
  import opened Prelude
  import opened Store
  import opened Groups
  import opened Runs
  import opened Guarantees
  import opened Permissions
  import opened Paging
  import opened History

  predicate IsFile(m: Message) {
    m.contentType == File || m.contentType == Audio
  }

  /** The rows the query selects; hidden rows are not left out here. */
  function FileRows(db: Db, g: nat): set<nat> {
    set id | id in db.messages && InGroup(db.messages[id], g) && IsFile(db.messages[id])
  }

  /** What is shown of them: attached and not withdrawn. */
  predicate IsLive(db: Db, id: nat) {
    id in db.messages && db.messages[id].attachment.Some? && db.messages[id].deletedAt.None?
  }

  function KeepLive(db: Db, ids: seq<nat>): seq<nat> {
    if ids == [] then []
    else KeepLive(db, ids[..|ids| - 1]) + (if IsLive(db, ids[|ids| - 1]) then [ids[|ids| - 1]] else [])
  }

  /** group_files: the filter runs after the page and its cursor have been chosen. */
  function GroupFiles(db: Db, me: Sub, g: nat, before: Option<nat>, limit: nat): Option<Page> {
    if !IsMember(db, g, me) then None
    else
      var p := PageOf(FileRows(db, g), before, limit);
      Some(Page(KeepLive(db, p.ids), p.next))
  }

  /** Following the cursor from page to page; None if some page answers 404. */
  function FollowFiles(dbs: seq<Db>, me: Sub, g: nat, before: Option<nat>, limit: nat): Option<Walked>
    decreases |dbs|
  {
    if dbs == [] then Some(([], before, false))
    else
      match GroupFiles(dbs[0], me, g, before, limit)
      case None => None
      case Some(p) =>
        if p.next.None? then Some((p.ids, None, true))
        else
          match FollowFiles(dbs[1..], me, g, p.next, limit)
          case None => None
          case Some((ids, cursor, done)) => Some((p.ids + ids, cursor, done))
  }

  // ---------------------------------------------------------------------------------------------
  // The rows stay as long as the group does

  lemma DissolvedIsGone(db: Db, op: Op)
    requires op.call.Dissolve?
    ensures Apply(db, op).0 == db || op.call.g !in Apply(db, op).0.groups
  {
    hide Apply, RequireRole, WithoutGroup;
    if op.me in db.users {
      UnsteadyCalls(db, op);
      WithoutGroupFrame(db, op.call.g);
    } else {
      StrangersChangeNothing(db, op);
    }
  }

  lemma KeptFileRows(db: Db, t: Db, op: Op, g: nat, bound: nat)
    requires MessagesKept(db, t, op) && bound <= db.nextMessage
    requires op.call.Dissolve? && op.call.g == g ==> t == db
    ensures Below(FileRows(t, g), Some(bound)) == Below(FileRows(db, g), Some(bound))
  {
  }

  lemma {:induction false} FileRowsStay(db: Db, ops: seq<Op>, g: nat, bound: nat)
    requires Inv(db) && bound <= db.nextMessage && g in db.groups && g in Run(db, ops).groups
    ensures Below(FileRows(Run(db, ops), g), Some(bound)) == Below(FileRows(db, g), Some(bound))
    decreases |ops|
  {
    hide Inv, Apply, FileRows, Below, MessagesKept, GroupsGrow;
    if ops == [] {
    } else {
      var before, op := ops[..|ops| - 1], ops[|ops| - 1];
      var mid := Run(db, before);
      GrowInRun(db, before);
      StillThere(db, mid, Apply(mid, op).0, op, g);
      FileRowsStay(db, before, g, bound);
      CallsKeepMessages(mid, op);
      if op.call.Dissolve? { DissolvedIsGone(mid, op); }
      KeptFileRows(mid, Apply(mid, op).0, op, g, bound);
    }
  }

  lemma {:induction false} GrowInRun(db: Db, ops: seq<Op>)
    requires Inv(db)
    ensures Inv(Run(db, ops)) && db.nextGroup <= Run(db, ops).nextGroup && db.nextMessage <= Run(db, ops).nextMessage
    decreases |ops|
  {
    hide Inv, Apply, MessagesKept;
    if ops == [] {
    } else {
      var mid, op := Run(db, ops[..|ops| - 1]), ops[|ops| - 1];
      GrowInRun(db, ops[..|ops| - 1]);
      GroupsNeverReturn(mid, op);
      CallsKeepMessages(mid, op);
      IdsOnlyGrow(mid, op);
      ApplyKeepsInv(mid, op);
    }
  }

  lemma StillThere(db: Db, mid: Db, t: Db, op: Op, g: nat)
    requires Inv(db) && Inv(mid) && db.nextGroup <= mid.nextGroup
    requires t == Apply(mid, op).0 && g in db.groups && g in t.groups
    ensures g in mid.groups
  {
    hide Apply, MessagesOk, HiddenOk, DmReadsOk, GroupReadsOk, CapacityOk, RefsOk, PollsOk, FriendsOk;
    GroupsNeverReturn(mid, op);
  }

  // ---------------------------------------------------------------------------------------------
  // What the walk shows

  /** The rows, `limit` of them a page, each page filtered as its own state has it. */
  function ShownOf(dbs: seq<Db>, rows: seq<nat>, limit: nat): seq<nat>
    decreases |dbs|
  {
    if dbs == [] || rows == [] then []
    else KeepLive(dbs[0], Take(rows, limit)) + ShownOf(dbs[1..], rows[|Take(rows, limit)|..], limit)
  }

  lemma MemberHasGroupRow(db: Db, me: Sub, g: nat)
    requires Inv(db) && IsMember(db, g, me)
    ensures g in db.groups
  {
  }

  lemma FollowStep(dbs: seq<Db>, me: Sub, g: nat, before: Option<nat>, limit: nat)
    requires dbs != [] && FollowFiles(dbs, me, g, before, limit).Some?
    ensures IsMember(dbs[0], g, me)
    ensures var p, w := PageOf(FileRows(dbs[0], g), before, limit), FollowFiles(dbs, me, g, before, limit).value;
      if p.next.None? then w == (KeepLive(dbs[0], p.ids), None, true)
      else
        var rest := FollowFiles(dbs[1..], me, g, p.next, limit);
        rest.Some? && w == (KeepLive(dbs[0], p.ids) + rest.value.0, rest.value.1, rest.value.2)
  {
    hide FileRows, PageOf, KeepLive;
  }

  lemma StatesStep(db: Db, between: seq<seq<Op>>)
    ensures States(db, between) != [] && States(db, between)[0] == db
    ensures States(db, between)[1..] == if between == [] then [] else States(Run(db, between[0]), between[1..])
  {
    hide Run;
  }

  lemma {:induction false} FilesWalkFrom(db: Db, between: seq<seq<Op>>, me: Sub, g: nat, before: Option<nat>,
                                         limit: nat)
    requires Inv(db) && limit >= 1 && (before.Some? ==> before.value <= db.nextMessage)
    requires FollowFiles(States(db, between), me, g, before, limit).Some?
    ensures var rows := Desc(Below(FileRows(db, g), before));
            var (shown, _, done) := FollowFiles(States(db, between), me, g, before, limit).value;
      shown == ShownOf(States(db, between), rows, limit) && (done <==> limit * (|between| + 1) >= |rows|)
    decreases |between|
  {
    hide Inv, FileRows, Desc, PageOf, Below, KeepLive, Run, States, FollowFiles, IsMember, ShownOf;
    var dbs := States(db, between);
    StatesStep(db, between);
    FollowStep(dbs, me, g, before, limit);
    var p := PageOf(FileRows(db, g), before, limit);
    PageSplits(FileRows(db, g), before, limit);
    if p.next.None? {
      LastPageShows(dbs, p.ids, limit);
      assert limit * (|between| + 1) >= limit * 1;
    } else {
      CursorIsOld(db, g, before, p.next.value);
      FirstPageShows(dbs, p.ids, Desc(Below(FileRows(db, g), p.next)), limit);
      if between == [] {
        NoStatesLeft(Desc(Below(FileRows(db, g), p.next)), me, g, p.next, limit);
      } else {
        LaterRows(db, between, me, g, p.next.value, limit);
        FilesWalkFrom(Run(db, between[0]), between[1..], me, g, p.next, limit);
        assert limit * (|between| + 1) == limit + limit * |between|;
      }
    }
  }

  lemma NoStatesLeft(rows: seq<nat>, me: Sub, g: nat, before: Option<nat>, limit: nat)
    ensures ShownOf([], rows, limit) == [] && FollowFiles([], me, g, before, limit) == Some(([], before, false))
  {
  }

  /** If the next page is answered, the group is still there, and so are its rows. */
  lemma LaterRows(db: Db, between: seq<seq<Op>>, me: Sub, g: nat, cursor: nat, limit: nat)
    requires Inv(db) && between != [] && IsMember(db, g, me) && cursor < db.nextMessage
    requires FollowFiles(States(Run(db, between[0]), between[1..]), me, g, Some(cursor), limit).Some?
    ensures Inv(Run(db, between[0])) && cursor < Run(db, between[0]).nextMessage
    ensures Below(FileRows(Run(db, between[0]), g), Some(cursor)) == Below(FileRows(db, g), Some(cursor))
  {
    hide Inv, FileRows, PageOf, Below, Run, States, FollowFiles, IsMember;
    var next := Run(db, between[0]);
    GrowInRun(db, between[0]);
    StatesStep(next, between[1..]);
    FollowStep(States(next, between[1..]), me, g, Some(cursor), limit);
    MemberHasGroupRow(db, me, g);
    MemberHasGroupRow(next, me, g);
    FileRowsStay(db, between[0], g, cursor);
  }

  lemma CursorIsOld(db: Db, g: nat, before: Option<nat>, cursor: nat)
    requires Inv(db) && cursor in Below(FileRows(db, g), before)
    ensures cursor < db.nextMessage
  {
  }

  lemma LastPageShows(dbs: seq<Db>, ids: seq<nat>, limit: nat)
    requires dbs != [] && |ids| <= limit
    ensures ShownOf(dbs, ids, limit) == KeepLive(dbs[0], ids)
  {
  }

  lemma FirstPageShows(dbs: seq<Db>, ids: seq<nat>, rest: seq<nat>, limit: nat)
    requires dbs != [] && |ids| == limit >= 1
    ensures ShownOf(dbs, ids + rest, limit) == KeepLive(dbs[0], ids) + ShownOf(dbs[1..], rest, limit)
  {
    assert Take(ids + rest, limit) == ids && (ids + rest)[limit..] == rest;
  }

  /** The page, from 0, on which the j-th row comes. */
  function PageNumber(j: nat, limit: nat): nat
    requires limit >= 1
  {
    if j < limit then 0 else 1 + PageNumber(j - limit, limit)
  }

  /** Two parts of a decreasing listing are decreasing and apart. */
  lemma PartsOfListing(page: seq<nat>, rest: seq<nat>)
    requires Decreasing(page + rest)
    ensures Decreasing(page) && Decreasing(rest)
    ensures forall x, y | x in page && y in rest :: x > y
  {
    forall x, y | x in page && y in rest ensures x > y {
      var i, j :| 0 <= i < |page| && page[i] == x && 0 <= j < |rest| && rest[j] == y;
      assert (page + rest)[i] == x && (page + rest)[|page| + j] == y;
    }
    assert forall i | 0 <= i < |page| :: (page + rest)[i] == page[i];
    assert forall i | 0 <= i < |rest| :: (page + rest)[|page| + i] == rest[i];
  }

  lemma JoinListings(first: seq<nat>, later: seq<nat>)
    requires Decreasing(first) && Decreasing(later) && forall x, y | x in first && y in later :: x > y
    ensures Decreasing(first + later)
  {
    forall i, j | 0 <= i < |first| && 0 <= j < |later| ensures first[i] > later[j] {
      assert first[i] in first && later[j] in later;
    }
  }

  /** The filter keeps the order and exactly what is live. */
  lemma {:induction false} KeepLiveKeepsOrder(db: Db, q: seq<nat>)
    requires Decreasing(q)
    ensures Decreasing(KeepLive(db, q))
    ensures forall x :: x in KeepLive(db, q) <==> x in q && IsLive(db, x)
  {
    if q == [] {
    } else {
      var front, last := q[..|q| - 1], q[|q| - 1];
      hide IsLive, Decreasing;
      assert q == front + [last];
      PartsOfListing(front, [last]);
      KeepLiveKeepsOrder(db, front);
      if IsLive(db, last) { JoinListings(KeepLive(db, front), [last]); }
    }
  }

  /** A row is shown exactly if it is live in the state that served its page. */
  lemma {:induction false} ShownIffLive(dbs: seq<Db>, rows: seq<nat>, limit: nat)
    requires limit >= 1 && Decreasing(rows)
    ensures Decreasing(ShownOf(dbs, rows, limit))
    ensures forall x | x in ShownOf(dbs, rows, limit) :: x in rows
    ensures forall j | 0 <= j < |rows| && PageNumber(j, limit) < |dbs| ::
              rows[j] in ShownOf(dbs, rows, limit) <==> IsLive(dbs[PageNumber(j, limit)], rows[j])
    decreases |dbs|
  {
    if dbs == [] || rows == [] {
    } else {
      var page := Take(rows, limit);
      var rest := rows[|page|..];
      var first, later := KeepLive(dbs[0], page), ShownOf(dbs[1..], rest, limit);
      assert ShownOf(dbs, rows, limit) == first + later;
      assert page + rest == rows;
      hide KeepLive, IsLive, ShownOf, Decreasing;
      PartsOfListing(page, rest);
      ShownIffLive(dbs[1..], rest, limit);
      KeepLiveKeepsOrder(dbs[0], page);
      JoinListings(first, later);
      forall j | 0 <= j < |rows| && PageNumber(j, limit) < |dbs|
        ensures rows[j] in first + later <==> IsLive(dbs[PageNumber(j, limit)], rows[j])
      {
        if j < limit {
          assert rows[j] == page[j];
        } else {
          assert rows[j] == rest[j - limit] && dbs[PageNumber(j, limit)] == dbs[1..][PageNumber(j - limit, limit)];
        }
      }
    }
  }

  /** Walking the pages while other calls are served in between: as long as the viewer may see the pages
      at all, the rows visited are those of the first page's table, newest first and `limit` a page, and
      each of them is shown exactly if it is live when its page is fetched. */
  lemma FilesWalkUnderTraffic(db: Db, between: seq<seq<Op>>, me: Sub, g: nat, limit: nat)
    requires Inv(db) && limit >= 1
    requires FollowFiles(States(db, between), me, g, None, limit).Some?
    ensures |States(db, between)| == |between| + 1
    ensures var rows := Desc(FileRows(db, g));
            var (shown, _, done) := FollowFiles(States(db, between), me, g, None, limit).value;
      && (done <==> limit * (|between| + 1) >= |rows|)
      && Decreasing(shown) && (forall x | x in shown :: x in FileRows(db, g))
      && forall j | 0 <= j < |rows| && PageNumber(j, limit) <= |between| ::
           rows[j] in shown <==> IsLive(States(db, between)[PageNumber(j, limit)], rows[j])
  {
    var rows := Desc(FileRows(db, g));
    BelowNothing(FileRows(db, g));
    DescLists(FileRows(db, g));
    StatesStart(db, between);
    hide Inv, FileRows, Desc, States, FollowFiles, IsLive, ShownOf, Decreasing;
    assert forall x | x in rows :: x in Elements(rows);
    FilesWalkFrom(db, between, me, g, None, limit);
    ShownIffLive(States(db, between), rows, limit);
  }

  /** Nothing is served between the pages. */
  function Quietly(pages: nat): seq<seq<Op>> {
    seq(pages, _ => [])
  }

  lemma {:induction false} QuietStates(db: Db, pages: nat)
    ensures States(db, Quietly(pages)) == seq(pages + 1, _ => db)
  {
    if pages == 0 {
    } else {
      QuietStates(db, pages - 1);
      assert Quietly(pages)[0] == [] && Quietly(pages)[1..] == Quietly(pages - 1);
      assert Run(db, []) == db;
    }
  }

  lemma {:induction false} MemberIsAnswered(db: Db, pages: nat, me: Sub, g: nat, before: Option<nat>, limit: nat)
    requires IsMember(db, g, me)
    ensures FollowFiles(seq(pages, _ => db), me, g, before, limit).Some?
    decreases pages
  {
    hide FileRows, PageOf, KeepLive;
    if pages == 0 {
    } else {
      assert seq(pages, _ => db)[1..] == seq(pages - 1, _ => db);
      var p := PageOf(FileRows(db, g), before, limit);
      if p.next.Some? { MemberIsAnswered(db, pages - 1, me, g, p.next, limit); }
    }
  }

  /** The files and audio messages of the group that are attached and not withdrawn. */
  function LiveFiles(db: Db, g: nat): set<nat> {
    set id | id in db.messages && db.messages[id].groupId == Some(g) && db.messages[id].contentType in {File, Audio}
             && db.messages[id].attachment.Some? && db.messages[id].deletedAt.None?
  }

  lemma GroupMessagesByGroup(db: Db, id: nat)
    requires Inv(db) && id in db.messages
    ensures db.messages[id].groupId.Some? <==> db.messages[id].kind == GroupChat
  {
    hide Inv;
    ShapeOfStored(db, id);
  }

  lemma LiveFilesAreLiveRows(db: Db, g: nat)
    requires Inv(db)
    ensures LiveFiles(db, g) == set id | id in FileRows(db, g) && IsLive(db, id)
  {
    hide Inv, ShapeOk;
    forall id: nat ensures id in LiveFiles(db, g) <==> id in FileRows(db, g) && IsLive(db, id) {
      if id in db.messages { GroupMessagesByGroup(db, id); }
    }
  }

  /** With nothing in between, all pages together are exactly the group's live files in descending id,
      whatever the pages that came back short or empty. */
  lemma FilesWalkListsLiveFiles(db: Db, me: Sub, g: nat, limit: nat, pages: nat)
    requires Inv(db) && IsMember(db, g, me) && limit >= 1 && pages >= 1 && |FileRows(db, g)| <= limit * pages
    ensures FollowFiles(seq(pages, _ => db), me, g, None, limit).Some?
    ensures var (shown, _, done) := FollowFiles(seq(pages, _ => db), me, g, None, limit).value;
      done && shown == Desc(LiveFiles(db, g))
  {
    var rows, live := Desc(FileRows(db, g)), set id | id in FileRows(db, g) && IsLive(db, id);
    DescLists(FileRows(db, g));
    hide Inv, FileRows, Desc, FollowFiles, IsLive, Decreasing, LiveFiles;
    QuietStates(db, pages - 1);
    MemberIsAnswered(db, pages, me, g, None, limit);
    FilesWalkUnderTraffic(db, Quietly(pages - 1), me, g, limit);
    var shown := FollowFiles(seq(pages, _ => db), me, g, None, limit).value.0;
    forall x ensures x in shown <==> x in live {
      if x in FileRows(db, g) {
        assert x in Elements(rows);
        var j :| 0 <= j < |rows| && rows[j] == x;
        PageBelow(j, limit, pages);
      }
    }
    assert Elements(shown) == live;
    LiveFilesAreLiveRows(db, g);
    DescIsUnique(shown);
  }

  lemma {:induction false} PageBelow(j: nat, limit: nat, pages: nat)
    requires limit >= 1 && j < limit * pages
    ensures PageNumber(j, limit) < pages
  {
    if j < limit {
    } else {
      assert limit * pages == limit + limit * (pages - 1);
      PageBelow(j - limit, limit, pages - 1);
    }
  }
}
