/** Conversation history, group files, export and read receipts (app/messages/service.py,
    app/api/users.py). */
module History {
  import opened Prelude
  import opened Store
  import opened Groups
  import opened Messages
  import opened MessagesInv
  import opened Runs
  import opened Guarantees
  import opened Paging

  /** The ids of the conversation that the viewer has not hidden. */
  function Visible(db: Db, me: Sub, at: Where): set<nat> {
    match at
    case With(other) => set id | id in db.messages && InDm(db.messages[id], me, other) && (me, id) !in db.hidden
    case In(g) => set id | id in db.messages && InGroup(db.messages[id], g) && (me, id) !in db.hidden
  }

  /** history and group_history; None is the 404 for a group the viewer is not in. */
  function HistoryPage(db: Db, me: Sub, at: Where, before: Option<nat>, limit: nat): Option<Page> {
    if at.In? && !IsMember(db, at.group, me) then None else Some(PageOf(Visible(db, me, at), before, limit))
  }

  /** The call succeeds in taking one of the seen messages out of the viewer's sight: the viewer hides
      it, or the group is dissolved. */
  predicate Conceals(db: Db, op: Op, me: Sub, at: Where, seen: set<nat>) {
    && Apply(db, op).1 == Done
    && ((op.call.Hide? && op.me == me && op.call.id in seen)
        || (op.call.Dissolve? && at == In(op.call.g) && seen != {}))
  }

  /** No call of the run conceals any of the seen messages. */
  predicate Undisturbed(db: Db, ops: seq<Op>, me: Sub, at: Where, seen: set<nat>)
    decreases |ops|
  {
    ops == [] ||
    var before, op := ops[..|ops| - 1], ops[|ops| - 1];
    Undisturbed(db, before, me, at, seen) && !Conceals(Run(db, before), op, me, at, seen)
  }

  /** What the viewer sees of the ids below the bound. */
  function OldOf(db: Db, me: Sub, at: Where, bound: nat): set<nat> {
    Below(Visible(db, me, at), Some(bound))
  }

  lemma KeptMessagesStayOld(db: Db, t: Db, op: Op, me: Sub, at: Where, bound: nat)
    requires MessagesKept(db, t, op) && bound <= db.nextMessage
    ensures OldOf(t, me, at, bound) <= OldOf(db, me, at, bound)
    ensures forall id | id in OldOf(db, me, at, bound) && id in t.messages && (me, id) !in t.hidden ::
              id in OldOf(t, me, at, bound)
  {
    hide PairKey;
  }

  /** A message that goes out of sight was hidden by the viewer or went with its group, which is then
      the conversation, by a call that succeeded. */
  lemma OnlyConcealingHides(db: Db, op: Op, me: Sub, at: Where, bound: nat)
    requires Inv(db) && bound <= db.nextMessage && !Conceals(db, op, me, at, OldOf(db, me, at, bound))
    ensures OldOf(Apply(db, op).0, me, at, bound) == OldOf(db, me, at, bound)
  {
    hide Inv, Apply, MessagesKept, Visible, Below;
    var t := Apply(db, op).0;
    CallsKeepMessages(db, op);
    KeptMessagesStayOld(db, t, op, me, at, bound);
    if op.call.Hide? || op.call.Dissolve? {
      FailureChangesNothing(db, op);
    }
    if t != db {
      forall id | id in OldOf(db, me, at, bound) ensures id in t.messages && (me, id) !in t.hidden {
        SeenStays(db, t, op, me, at, bound, id);
      }
    }
  }

  lemma SeenStays(db: Db, t: Db, op: Op, me: Sub, at: Where, bound: nat, id: nat)
    requires Inv(db) && MessagesKept(db, t, op) && id in OldOf(db, me, at, bound)
    requires !(op.call.Hide? && op.me == me && op.call.id == id) && !(op.call.Dissolve? && at == In(op.call.g))
    ensures id in t.messages && (me, id) !in t.hidden
  {
    hide RefsOk, HiddenOk, DmReadsOk, GroupReadsOk, CapacityOk, PollsOk, FriendsOk, RolesOk, SamePlace;
    assert MessageOk(db.messages, id, db.groups, db.polls);
    if at.With? { ConversationsAreApart(db.messages[id], me, at.other); }
  }

  /** A refused hide or dissolve leaves everything as it was. */
  lemma FailureChangesNothing(db: Db, op: Op)
    requires (op.call.Hide? || op.call.Dissolve?)
    ensures Apply(db, op).1 == Done || Apply(db, op).0 == db
  {
    hide Apply, WithoutGroup, RequireRole, InDm, InGroup;
    if op.me in db.users { UnsteadyCalls(db, op); } else { StrangersChangeNothing(db, op); }
  }

  lemma HidingTakesAway(db: Db, me: Sub, place: Where, id: nat, at: Where, bound: nat)
    requires HideMessage(db, me, place, id).1 == Done && id in OldOf(db, me, at, bound)
    ensures id !in OldOf(HideMessage(db, me, place, id).0, me, at, bound)
  {
    hide InDm, InGroup;
  }

  lemma DissolvingTakesAway(db: Db, owner: Sub, g: nat, me: Sub, bound: nat)
    requires DissolveGroup(db, owner, g).1 == Done
    ensures OldOf(DissolveGroup(db, owner, g).0, me, In(g), bound) == {}
  {
    hide RequireRole, WithoutGroup;
    WithoutGroupFrame(db, g);
  }

  /** A concealing call does take something away. */
  lemma ConcealingHides(db: Db, op: Op, me: Sub, at: Where, bound: nat)
    requires Inv(db) && bound <= db.nextMessage && Conceals(db, op, me, at, OldOf(db, me, at, bound))
    ensures OldOf(Apply(db, op).0, me, at, bound) != OldOf(db, me, at, bound)
  {
    hide Inv, Apply, OldOf, HideMessage, DissolveGroup;
    StrangersAreRefused(db, op);
    UnsteadyCalls(db, op);
    if op.call.Hide? {
      HidingTakesAway(db, me, op.call.at, op.call.id, at, bound);
    } else {
      DissolvingTakesAway(db, op.me, op.call.g, me, bound);
    }
  }

  lemma StrangersAreRefused(db: Db, op: Op)
    requires op.call.Hide? || op.call.Dissolve?
    ensures Apply(db, op).1 == Done ==> op.me in db.users
  {
    hide HideMessage, DissolveGroup;
  }

  /** The messages seen at first are still all in sight if and only if no call of the run concealed one
      of them; whatever else happens, nothing old comes into sight. */
  lemma {:induction false} OldMessagesStayVisibleIff(db: Db, ops: seq<Op>, me: Sub, at: Where, bound: nat)
    requires Inv(db) && bound <= db.nextMessage
    ensures Inv(Run(db, ops)) && db.nextMessage <= Run(db, ops).nextMessage
    ensures OldOf(Run(db, ops), me, at, bound) <= OldOf(db, me, at, bound)
    ensures OldOf(Run(db, ops), me, at, bound) == OldOf(db, me, at, bound)
       <==> Undisturbed(db, ops, me, at, OldOf(db, me, at, bound))
    decreases |ops|
  {
    hide Inv, Apply, OldOf, Conceals, MessagesKept;
    if ops == [] {
    } else {
      var before, op := ops[..|ops| - 1], ops[|ops| - 1];
      OldMessagesStayVisibleIff(db, before, me, at, bound);
      var mid := Run(db, before);
      CallsKeepMessages(mid, op);
      IdsOnlyGrow(mid, op);
      ApplyKeepsInv(mid, op);
      KeptMessagesStayOld(mid, Apply(mid, op).0, op, me, at, bound);
      if OldOf(mid, me, at, bound) == OldOf(db, me, at, bound) {
        if Conceals(mid, op, me, at, OldOf(mid, me, at, bound)) {
          ConcealingHides(mid, op, me, at, bound);
        } else {
          OnlyConcealingHides(mid, op, me, at, bound);
        }
      }
    }
  }

  lemma IdsOnlyGrow(db: Db, op: Op)
    requires MessagesKept(db, Apply(db, op).0, op)
    ensures db.nextMessage <= Apply(db, op).0.nextMessage
  {
    hide Apply, SamePlace;
  }

  /** No call between the pages conceals any of the seen messages. */
  predicate Calm(db: Db, between: seq<seq<Op>>, me: Sub, at: Where, seen: set<nat>)
    decreases |between|
  {
    between == [] ||
    (Undisturbed(db, between[0], me, at, seen) && Calm(Run(db, between[0]), between[1..], me, at, seen))
  }

  /** The states at which the pages are fetched: calls run between one page and the next. */
  function States(db: Db, between: seq<seq<Op>>): seq<Db>
    decreases |between|
  {
    [db] + (if between == [] then [] else States(Run(db, between[0]), between[1..]))
  }

  /** Following next_before from page to page; None if some page answers 404. */
  function Follow(dbs: seq<Db>, me: Sub, at: Where, before: Option<nat>, limit: nat): Option<Walked>
    decreases |dbs|
  {
    if dbs == [] then Some(([], before, false))
    else
      match HistoryPage(dbs[0], me, at, before, limit)
      case None => None
      case Some(p) =>
        if p.next.None? then Some((p.ids, None, true))
        else
          match Follow(dbs[1..], me, at, p.next, limit)
          case None => None
          case Some((ids, cursor, done)) => Some((p.ids + ids, cursor, done))
  }

  function Tables(dbs: seq<Db>, me: Sub, at: Where): (tables: seq<set<nat>>)
    ensures |tables| == |dbs|
    ensures forall i | 0 <= i < |dbs| :: tables[i] == Visible(dbs[i], me, at)
  {
    seq(|dbs|, i requires 0 <= i < |dbs| => Visible(dbs[i], me, at))
  }

  lemma {:induction false} FollowWalks(dbs: seq<Db>, me: Sub, at: Where, before: Option<nat>, limit: nat)
    requires Follow(dbs, me, at, before, limit).Some?
    ensures Follow(dbs, me, at, before, limit).value == Walk(Tables(dbs, me, at), before, limit)
    decreases |dbs|
  {
    hide Visible, PageOf;
    if dbs == [] {
    } else {
      var p := PageOf(Visible(dbs[0], me, at), before, limit);
      assert HistoryPage(dbs[0], me, at, before, limit) == Some(p);
      assert Tables(dbs, me, at)[1..] == Tables(dbs[1..], me, at);
      if p.next.Some? {
        FollowWalks(dbs[1..], me, at, p.next, limit);
      }
    }
  }

  lemma {:induction false} StatesAgreeBelow(db: Db, between: seq<seq<Op>>, me: Sub, at: Where, bound: nat)
    requires Inv(db) && bound <= db.nextMessage && Calm(db, between, me, at, OldOf(db, me, at, bound))
    ensures forall s | s in States(db, between) :: OldOf(s, me, at, bound) == OldOf(db, me, at, bound)
    decreases |between|
  {
    hide Inv, OldOf, Run, Undisturbed;
    if between == [] {
    } else {
      OldMessagesStayVisibleIff(db, between[0], me, at, bound);
      StatesAgreeBelow(Run(db, between[0]), between[1..], me, at, bound);
    }
  }

  /** If every page is answered: the first `budget` of the messages, newest first and each once; a null
      cursor exactly once these are all; and then all of them. */
  ghost predicate CollectsInOrder(walk: Option<Walked>, visible: set<nat>, budget: nat) {
    walk.Some? ==>
      var (ids, _, done) := walk.value;
      && Collects(walk.value, visible, budget)
      && Decreasing(ids) && Elements(ids) <= visible
      && (done ==> Elements(ids) == visible)
  }

  lemma CollectedInOrder(walk: Walked, visible: set<nat>, budget: nat)
    requires Collects(walk, visible, budget)
    ensures CollectsInOrder(Some(walk), visible, budget)
  {
    DescLists(visible);
    hide Desc;
    assert forall x | x in walk.0 :: x in Elements(Desc(visible));
  }

  /** Fetching page after page while other calls are served in between yields every message that was
      visible at the first page, exactly once and in decreasing id, and reaches a null cursor, as long as
      nothing conceals one of them. */
  lemma HistoryWalkUnderTraffic(db: Db, between: seq<seq<Op>>, me: Sub, at: Where, limit: nat)
    requires Inv(db) && limit >= 1
    requires Calm(db, between, me, at, Visible(db, me, at))
    ensures CollectsInOrder(Follow(States(db, between), me, at, None, limit), Visible(db, me, at),
                            limit * (|between| + 1))
  {
    hide Inv, Follow, Walk, States, Visible, Calm, Collects;
    var walk := Follow(States(db, between), me, at, None, limit);
    if walk.Some? {
      FollowWalks(States(db, between), me, at, None, limit);
      WalkOverStates(db, between, me, at, limit);
      hide CollectsInOrder;
      CollectedInOrder(walk.value, Visible(db, me, at), limit * (|between| + 1));
    }
  }

  /** The tables of the successive pages only lose old messages. */
  lemma {:induction false} StatesShrink(db: Db, between: seq<seq<Op>>, me: Sub, at: Where, bound: nat)
    requires Inv(db) && bound <= db.nextMessage
    ensures Shrinking(Tables(States(db, between), me, at), bound)
    decreases |between|
  {
    hide Inv, Visible, Below, Run, Undisturbed;
    if between == [] {
    } else {
      var next := Run(db, between[0]);
      OldMessagesStayVisibleIff(db, between[0], me, at, bound);
      StatesShrink(next, between[1..], me, at, bound);
      StatesStart(next, between[1..]);
      var tables, rest := Tables(States(db, between), me, at), Tables(States(next, between[1..]), me, at);
      assert tables == [Visible(db, me, at)] + rest;
      assert rest[0] == Visible(next, me, at);
    }
  }

  /** Visible at every page. */
  ghost predicate SeenThroughout(dbs: seq<Db>, me: Sub, at: Where, id: nat) {
    forall s | s in dbs :: id in Visible(s, me, at)
  }

  /** Whatever is served between the pages, hides and dissolving included: what is fetched was visible
      at the first page and comes in decreasing id, each once; one page per `limit` of those messages
      leads to a null cursor; and then nothing is missing that was visible throughout. */
  lemma HistoryWalkUnderAnyTraffic(db: Db, between: seq<seq<Op>>, me: Sub, at: Where, limit: nat)
    requires Inv(db) && limit >= 1
    requires Follow(States(db, between), me, at, None, limit).Some?
    ensures var (ids, _, done) := Follow(States(db, between), me, at, None, limit).value;
      && Decreasing(ids) && (forall id | id in ids :: id in Visible(db, me, at))
      && (limit * (|between| + 1) >= |Visible(db, me, at)| ==> done)
      && (done ==> forall id | SeenThroughout(States(db, between), me, at, id) :: id in ids)
  {
    hide Inv, Follow, Walk, States, Visible, Below, Shrinking;
    var dbs := States(db, between);
    var tables := Tables(dbs, me, at);
    FollowWalks(dbs, me, at, None, limit);
    StatesStart(db, between);
    VisibleBelowNext(db, me, at);
    StatesShrink(db, between, me, at, db.nextMessage);
    WalkUnderRemovals(tables, db.nextMessage, None, limit);
    BelowNothing(tables[0]);
    forall id | SeenThroughout(dbs, me, at, id) ensures ThroughoutBelow(tables, None, id) {
      forall t | t in tables ensures id in Below(t, None) {
        var i :| 0 <= i < |tables| && tables[i] == t;
        assert dbs[i] in dbs;
        BelowNothing(t);
      }
    }
  }

  /** The first `budget` of the messages, newest first; and a null cursor once these are all. */
  ghost predicate Collects(walk: Walked, visible: set<nat>, budget: nat) {
    walk.0 == Take(Desc(visible), budget) && (walk.2 <==> budget >= |visible|)
  }

  lemma WalkOverStates(db: Db, between: seq<seq<Op>>, me: Sub, at: Where, limit: nat)
    requires Inv(db) && limit >= 1
    requires Calm(db, between, me, at, Visible(db, me, at))
    ensures Collects(Walk(Tables(States(db, between), me, at), None, limit), Visible(db, me, at),
                     limit * (|between| + 1))
  {
    hide Inv, Walk, Desc, States, Visible, Calm, Below;
    var tables := Tables(States(db, between), me, at);
    StatesStart(db, between);
    VisibleBelowNext(db, me, at);
    AllBelow(Visible(db, me, at), db.nextMessage);
    StatesAgreeBelow(db, between, me, at, db.nextMessage);
    forall t | t in tables ensures Below(t, Some(db.nextMessage)) == tables[0] {
      var i :| 0 <= i < |tables| && tables[i] == t;
      assert OldOf(States(db, between)[i], me, at, db.nextMessage) == OldOf(db, me, at, db.nextMessage);
    }
    WalkListsAll(tables, db.nextMessage, limit);
  }

  lemma AllBelow(s: set<nat>, bound: nat)
    requires forall x | x in s :: x < bound
    ensures Below(s, Some(bound)) == s
  {
  }

  lemma {:induction false} StatesStart(db: Db, between: seq<seq<Op>>)
    ensures |States(db, between)| == |between| + 1 && States(db, between)[0] == db
    decreases |between|
  {
    if between == [] {
    } else {
      StatesStart(Run(db, between[0]), between[1..]);
    }
  }

  lemma VisibleBelowNext(db: Db, me: Sub, at: Where)
    requires Inv(db)
    ensures forall id | id in Visible(db, me, at) :: id < db.nextMessage
  {
  }

  // ---------------------------------------------------------------------------------------------
  // Export

  /** The newest messages of a conversation, at most 100 a page and max_pages pages; None if a page
      answers 404. */
  method CollectHistory(db: Db, me: Sub, at: Where, maxPages: nat) returns (items: Option<seq<nat>>)
    ensures items.None? <==> at.In? && !IsMember(db, at.group, me) && maxPages > 0
    ensures items.Some? ==> items.value == Take(Desc(Visible(db, me, at)), 100 * maxPages)
  {
    hide Visible, Desc, Below, PageOf;
    ghost var visible := Visible(db, me, at);
    BelowNothing(visible);
    var collected := [];
    var before: Option<nat> := None;
    for page := 0 to maxPages
      invariant |collected| == 100 * page
      invariant collected + Desc(Below(visible, before)) == Desc(visible)
      invariant page > 0 ==> !(at.In? && !IsMember(db, at.group, me))
    {
      var p := HistoryPage(db, me, at, before, 100);
      if p.None? {
        return None;
      }
      PageSplits(visible, before, 100);
      collected := collected + p.value.ids;
      if p.value.next.None? {
        return Some(collected);
      }
      before := p.value.next;
    }
    return Some(collected);
  }

  // ---------------------------------------------------------------------------------------------
  // Read receipts

  /** The cursors that have reached a message. */
  function ReaderRows(db: Db, g: nat, id: nat): set<(Sub, nat)> {
    set k | k in db.groupReads && k.1 == g && db.groupReads[k] >= id
  }

  function AsMembers(rows: set<(Sub, nat)>): set<(nat, Sub)> {
    set k | k in rows :: (k.1, k.0)
  }

  lemma {:induction false} AsMembersSize(rows: set<(Sub, nat)>)
    ensures |AsMembers(rows)| == |rows|
    decreases |rows|
  {
    if rows == {} {
    } else {
      var k :| k in rows;
      AsMembersSize(rows - {k});
      assert AsMembers(rows) == AsMembers(rows - {k}) + {(k.1, k.0)};
    }
  }

  /** Readers are members, so never more than them; and whoever has read a message has read every
      earlier one. */
  lemma ReadersAreMembers(db: Db, g: nat, id: nat, later: nat)
    requires Inv(db) && id <= later
    ensures |ReaderRows(db, g, id)| <= |MemberRows(db.members, g)|
    ensures forall k | k in ReaderRows(db, g, id) :: IsMember(db, g, k.0)
    ensures ReaderRows(db, g, later) <= ReaderRows(db, g, id)
  {
    hide MessagesOk, RefsOk, HiddenOk, DmReadsOk, CapacityOk, PollsOk, FriendsOk, RolesOk;
    var rows := ReaderRows(db, g, id);
    AsMembersSize(rows);
    assert AsMembers(rows) <= MemberRows(db.members, g);
    SubsetSize(AsMembers(rows), MemberRows(db.members, g));
  }

  /** group_message_readers: who has read the message, how many they are, and how many members. */
  method GroupMessageReaders(db: Db, me: Sub, g: nat, id: nat) returns (result: Option<(set<Sub>, nat, nat)>)
    requires Inv(db)
    ensures result.Some? <==>
              && (g, me) in db.members && id in db.messages && db.messages[id].kind == GroupChat
              && db.messages[id].groupId == Some(g) && db.messages[id].deletedAt.None?
    ensures result.Some? ==>
              var (readers, count, total) := result.value;
              && (forall u :: u in readers <==> (u, g) in db.groupReads && db.groupReads[(u, g)] >= id)
              && count == |readers| <= total == |MemberRows(db.members, g)|
  {
    hide Inv;
    if !IsMember(db, g, me) {
      return None;
    }
    if id !in db.messages || !InGroup(db.messages[id], g) || db.messages[id].deletedAt.Some? {
      return None;
    }
    var rows := ReaderRows(db, g, id);
    ReadersAreMembers(db, g, id, id);
    var readers := ReadersOf(db, g, rows);
    return Some((readers, |rows|, |MemberRows(db.members, g)|));
  }

  /** Looks the readers up among the users; every one of them is found. */
  method ReadersOf(db: Db, g: nat, rows: set<(Sub, nat)>) returns (readers: set<Sub>)
    requires Inv(db) && forall k | k in rows :: k in db.groupReads && k.1 == g
    ensures forall u :: u in readers <==> (u, g) in rows
    ensures |readers| == |rows|
  {
    hide Inv;
    readers := {};
    var todo := rows;
    while todo != {}
      invariant todo <= rows
      invariant forall u :: u in readers <==> (u, g) in rows - todo
      invariant |readers| + |todo| == |rows|
      decreases todo
    {
      var k :| k in todo;
      assert k == (k.0, g);
      ReaderIsUser(db, g, k.0);
      todo := todo - {k};
      if k.0 in db.users {
        readers := readers + {k.0};
      }
    }
  }

  lemma ReaderIsUser(db: Db, g: nat, u: Sub)
    requires Inv(db)
    ensures (u, g) in db.groupReads ==> u in db.users
  {
  }
}
