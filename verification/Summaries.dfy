/** The conversation list (app/messages/service.py, app/friends/service.py): the fast route over
    grouped maxima against what a scan of each conversation shows. */
module Summaries {
  import opened Prelude
  import opened Text
  import opened Store
  import opened Friends
  import opened Groups
  import opened Messages
  import opened MessagesInv
  import opened Paging
  import opened History
  import opened Permissions

  datatype Summary = Summary(conv: Where, last: Option<nat>, unread: nat, lastRead: nat, memberCount: nat,
                             setting: Setting)

  // ---------------------------------------------------------------------------------------------
  // The naive scan of one conversation

  /** The first message of a history page. */
  function NewestOf(db: Db, me: Sub, at: Where): Option<nat> {
    var p := PageOf(Visible(db, me, at), None, 1);
    if p.ids == [] then None else Some(p.ids[0])
  }

  function CursorOf(db: Db, me: Sub, at: Where): nat {
    match at
    case With(other) =>
      var (lo, hi) := PairKey(me, other);
      if (me, lo, hi) in db.dmReads then db.dmReads[(me, lo, hi)] else 0
    case In(g) => if (me, g) in db.groupReads then db.groupReads[(me, g)] else 0
  }

  /** The visible messages of others above the viewer's cursor, withdrawn ones included. */
  function UnreadIn(db: Db, me: Sub, at: Where): set<nat> {
    set id | id in Visible(db, me, at) && db.messages[id].sender != me && id > CursorOf(db, me, at)
  }

  function SettingOf(db: Db, me: Sub, at: Where): Setting {
    var k := match at
      case With(other) => (me, DmSetting, DmKey(me, other))
      case In(g) => (me, GroupSetting, Decimal(g));
    if k in db.settings then db.settings[k] else Setting(false, false, false)
  }

  function MembersIn(db: Db, at: Where): nat {
    match at
    case With(_) => 0
    case In(g) => |MemberRows(db.members, g)|
  }

  function Scan(db: Db, me: Sub, at: Where): Summary {
    Summary(at, NewestOf(db, me, at), |UnreadIn(db, me, at)|, CursorOf(db, me, at), MembersIn(db, at),
            SettingOf(db, me, at))
  }

  /** The newest visible message heads the first page whatever the page size. */
  lemma NewestHeadsHistory(db: Db, me: Sub, at: Where, limit: nat)
    requires limit >= 1
    ensures var p := PageOf(Visible(db, me, at), None, limit);
      NewestOf(db, me, at) == if p.ids == [] then None else Some(p.ids[0])
    ensures NewestOf(db, me, at).None? <==> Visible(db, me, at) == {}
    ensures NewestOf(db, me, at).Some? ==>
              NewestOf(db, me, at).value in Visible(db, me, at)
              && forall id | id in Visible(db, me, at) :: id <= NewestOf(db, me, at).value
  {
    BelowNothing(Visible(db, me, at));
    PageCuts(Visible(db, me, at), None, limit);
    PageCuts(Visible(db, me, at), None, 1);
  }

  /** The viewer takes part in the conversation that the message is in, and has not hidden it. */
  predicate Seen(db: Db, me: Sub, at: Where, id: nat) {
    && id in db.messages && (me, id) !in db.hidden
    && match at
       case With(other) => Between(db.messages[id], me, other)
       case In(g) => db.messages[id].groupId == Some(g)
  }

  lemma SeenIsVisible(db: Db, me: Sub, at: Where, id: nat)
    requires Inv(db)
    ensures id in Visible(db, me, at) <==> Seen(db, me, at, id)
  {
    hide Inv;
    if id in db.messages {
      ShapeOfStored(db, id);
      if at.With? { ConversationsAreApart(db.messages[id], me, at.other); }
    }
  }

  ghost predicate IsNewestSeen(db: Db, me: Sub, at: Where, last: Option<nat>) {
    match last
    case None => forall id: nat :: !Seen(db, me, at, id)
    case Some(newest) => Seen(db, me, at, newest) && forall id: nat | Seen(db, me, at, id) :: id <= newest
  }

  /** What others wrote that the viewer sees there and has not read. */
  function UnreadSeen(db: Db, me: Sub, at: Where, lastRead: nat): set<nat> {
    set id | id in db.messages && Seen(db, me, at, id) && db.messages[id].sender != me && id > lastRead
  }

  lemma UnreadInWords(db: Db, me: Sub, at: Where)
    requires Inv(db)
    ensures UnreadIn(db, me, at) == UnreadSeen(db, me, at, CursorOf(db, me, at))
  {
    forall id ensures id in Visible(db, me, at) <==> Seen(db, me, at, id) { SeenIsVisible(db, me, at, id); }
    hide Inv, Visible, CursorOf;
  }

  lemma NewestInWords(db: Db, me: Sub, at: Where)
    requires Inv(db)
    ensures IsNewestSeen(db, me, at, NewestOf(db, me, at))
  {
    hide Inv, Visible, NewestOf, PageOf, Seen;
    forall id: nat ensures id in Visible(db, me, at) <==> Seen(db, me, at, id) { SeenIsVisible(db, me, at, id); }
    NewestHeadsHistory(db, me, at, 1);
  }

  lemma MembersInWords(db: Db, at: Where)
    ensures MembersIn(db, at) == if at.In? then |MembersOf(db, at.group)| else 0
  {
    if at.In? {
      UnionIsRows(db, at.group, {});
      assert MemberRows(db.members, at.group) + NewRows(at.group, {}) == MemberRows(db.members, at.group);
      assert MembersOf(db, at.group) + {} == MembersOf(db, at.group);
    }
  }

  /** What an entry says: the newest message the viewer sees there, how many of the others' messages lie
      above the cursor, and how many members there are. */
  lemma EntryInWords(db: Db, me: Sub, at: Where)
    requires Inv(db)
    ensures var s := Scan(db, me, at);
      && s.conv == at && IsNewestSeen(db, me, at, s.last) && s.unread == |UnreadSeen(db, me, at, s.lastRead)|
      && s.memberCount == if at.In? then |MembersOf(db, at.group)| else 0
  {
    hide Inv, NewestOf, CursorOf, UnreadIn, MembersIn, SettingOf, MembersOf, UnreadSeen, IsNewestSeen;
    NewestInWords(db, me, at);
    UnreadInWords(db, me, at);
    MembersInWords(db, at);
  }

  lemma OwnPostClearsUnread(db: Db, me: Sub, at: Where, m: Message, mentions: set<Sub>)
    requires Inv(db) && m.sender == me
    ensures at.With? && OwnCursor(m) == (me, PairKey(me, at.other).0, PairKey(me, at.other).1) ==>
              UnreadIn(PostDm(db, m, mentions), me, at) == {}
    ensures at.In? ==> UnreadIn(PostGroup(db, at.group, m, mentions), me, at) == {}
  {
    hide RefsOk, HiddenOk, CapacityOk, PollsOk, FriendsOk, RolesOk, NewRows, MessageOk;
  }

  /** Right after sending or forwarding into a conversation nothing there is unread for the sender. */
  lemma NothingUnreadAfterOwnMessage(db: Db, me: Sub, at: Where, d: Draft, poll: Option<PollDraft>, id: nat, now: real)
    requires Inv(db)
    ensures at.With? && SendDm(db, me, at.other, d, now).1.Created? ==>
              UnreadIn(SendDm(db, me, at.other, d, now).0, me, at) == {}
    ensures at.In? && SendGroup(db, me, at.group, d, poll, now).1.Created? ==>
              UnreadIn(SendGroup(db, me, at.group, d, poll, now).0, me, at) == {}
    ensures Forward(db, me, id, at, now).1.Created? ==> UnreadIn(Forward(db, me, id, at, now).0, me, at) == {}
  {
    hide Inv, UnreadIn, PostDm, PostGroup, SendDmError, ForwardError, GroupMarker, NewPoll, PollError, Attached;
    if at.With? {
      OwnPostClearsUnread(db, me, at,
                          DirectMessage(me, at.other, d.content, d.contentType, false, Attached(db, d.attachment),
                                        d.replyTo, now), Elements(d.mentions));
    } else if SendGroupError(db, me, at.group, d, poll).None? {
      if poll.Some? {
        NewPollKeepsInv(db, me, at.group, poll.value);
        OwnPostClearsUnread(NewPoll(db, me, at.group, poll.value), me, at,
                            GroupMessage(me, at.group, d.content, PollCard, false, None, None, Some(db.nextPoll), now),
                            Elements(d.mentions));
      } else {
        OwnPostClearsUnread(db, me, at,
                            GroupMessage(me, at.group, d.content, d.contentType, false, Attached(db, d.attachment),
                                         d.replyTo, None, now), Elements(d.mentions));
      }
    }
    ForwardClearsUnread(db, me, at, id, now);
  }

  lemma ForwardClearsUnread(db: Db, me: Sub, at: Where, id: nat, now: real)
    requires Inv(db)
    ensures Forward(db, me, id, at, now).1.Created? ==> UnreadIn(Forward(db, me, id, at, now).0, me, at) == {}
  {
    hide Inv, UnreadIn, PostDm, PostGroup, GroupMarker;
    if ForwardError(db, me, id, at).Some? { return; }
    var src := db.messages[id];
    if at.With? {
      OwnPostClearsUnread(db, me, at,
          DirectMessage(me, at.other, src.content, src.contentType, true, src.attachment, None, now), {});
    } else {
      OwnPostClearsUnread(db, me, at,
          GroupMessage(me, at.group, src.content, src.contentType, true, src.attachment, None, None, now), {});
    }
  }

  // ---------------------------------------------------------------------------------------------
  // The queries of the fast route

  /** SELECT key, max(id) ... GROUP BY key over some rows. */
  method MaxPer<K(==)>(keyOf: map<nat, K>) returns (newest: map<K, nat>)
    ensures forall k | k in newest :: newest[k] in keyOf && keyOf[newest[k]] == k
    ensures forall id | id in keyOf :: keyOf[id] in newest && id <= newest[keyOf[id]]
  {
    newest := map[];
    var todo := keyOf.Keys;
    while todo != {}
      invariant todo <= keyOf.Keys
      invariant forall k | k in newest :: newest[k] in keyOf && keyOf[newest[k]] == k
      invariant forall id | id in keyOf && id !in todo :: keyOf[id] in newest && id <= newest[keyOf[id]]
      decreases todo
    {
      var id :| id in todo;
      todo := todo - {id};
      var k := keyOf[id];
      if k !in newest || newest[k] < id {
        newest := newest[k := id];
      }
    }
  }

  /** The friends in some order, each once. */
  method ListFriends(db: Db, me: Sub) returns (friends: seq<Sub>)
    requires Inv(db)
    ensures Elements(friends) == FriendSet(db, me)
    ensures forall i, j | 0 <= i < j < |friends| :: friends[i] != friends[j]
  {
    hide Inv;
    friends := [];
    var rows := set k | k in db.friendships && db.friendships[k].accepted && (k.0 == me || k.1 == me);
    var todo := rows;
    while todo != {}
      invariant todo <= rows
      invariant forall u :: u in friends <==> exists k :: k in rows - todo && u == OtherOf(k, me)
      invariant forall i, j | 0 <= i < j < |friends| :: friends[i] != friends[j]
      decreases todo
    {
      var k :| k in todo;
      OneRowPerFriend(db, me, k);
      assert OtherOf(k, me) !in friends;
      todo := todo - {k};
      if OtherOf(k, me) in db.users {
        friends := friends + [OtherOf(k, me)];
      }
    }
    FriendsAreOthers(db, me, rows, friends);
  }

  function OtherOf(k: (Sub, Sub), me: Sub): Sub {
    if k.0 == me then k.1 else k.0
  }

  lemma OneRowPerFriend(db: Db, me: Sub, k: (Sub, Sub))
    requires Inv(db) && k in db.friendships && (k.0 == me || k.1 == me)
    ensures OtherOf(k, me) in db.users
    ensures forall j | j in db.friendships && (j.0 == me || j.1 == me) && OtherOf(j, me) == OtherOf(k, me) :: j == k
  {
    hide MessagesOk, RefsOk, HiddenOk, DmReadsOk, GroupReadsOk, CapacityOk, PollsOk, RolesOk;
  }

  lemma FriendsAreOthers(db: Db, me: Sub, rows: set<(Sub, Sub)>, friends: seq<Sub>)
    requires Inv(db)
    requires rows == set k | k in db.friendships && db.friendships[k].accepted && (k.0 == me || k.1 == me)
    requires forall u :: u in friends <==> exists k :: k in rows && u == OtherOf(k, me)
    ensures Elements(friends) == FriendSet(db, me)
  {
    forall u ensures u in friends <==> u in FriendSet(db, me) {
      PairRowIsUnique(db, me, u);
      var row := PairRow(db.friendships, me, u);
      if u in FriendSet(db, me) {
        assert row.value in rows && u == OtherOf(row.value, me);
      }
      if u in friends {
        var k :| k in rows && u == OtherOf(k, me);
        assert k == (me, u) || k == (u, me);
      }
    }
  }

  /** Each of the conversations once, as a scan shows it. */
  ghost predicate ListsOnce(list: seq<Summary>, db: Db, me: Sub, convs: set<Where>) {
    && (forall i | 0 <= i < |list| :: list[i] == Scan(db, me, list[i].conv) && list[i].conv in convs)
    && (forall c | c in convs :: Scan(db, me, c) in list)
    && (forall i, j | 0 <= i < j < |list| :: list[i].conv != list[j].conv)
  }

  lemma ScansInOrder(list: seq<Summary>, db: Db, me: Sub, order: seq<Where>)
    requires |list| == |order| && forall i | 0 <= i < |list| :: list[i] == Scan(db, me, order[i])
    requires forall i, j | 0 <= i < j < |order| :: order[i] != order[j]
    ensures ListsOnce(list, db, me, Elements(order))
  {
    forall i | 0 <= i < |list| ensures list[i].conv == order[i] { }
    hide Scan;
    forall c | c in order ensures Scan(db, me, c) in list {
      var i :| 0 <= i < |order| && order[i] == c;
      assert list[i] == Scan(db, me, c);
    }
  }

  // ---------------------------------------------------------------------------------------------
  // Direct conversations

  /** The pair of a direct message as the query groups by it. */
  function PairOf(m: Message): (string, string) {
    (m.lo, m.hi)
  }

  /** The other side of a message the viewer sent or received. */
  function PeerOf(m: Message, me: Sub): string {
    if m.sender == me then m.recipient else m.sender
  }

  /** The visible messages between the viewer and any of some friends, with their pairs. */
  function PairRows(db: Db, me: Sub, friends: set<Sub>): map<nat, (string, string)> {
    map id | id in db.messages && (me, id) !in db.hidden && exists u :: u in friends && InDm(db.messages[id], me, u)
      :: PairOf(db.messages[id])
  }

  lemma DirectMessageIsBetween(db: Db, me: Sub, u: Sub, id: nat)
    requires Inv(db)
    ensures id in db.messages && InDm(db.messages[id], me, u) ==>
              PeerOf(db.messages[id], me) == u && (db.messages[id].sender == me || db.messages[id].sender == u)
                  && me != u
  {
    hide RefsOk, HiddenOk, DmReadsOk, GroupReadsOk, CapacityOk, PollsOk, FriendsOk, RolesOk;
    if id in db.messages && InDm(db.messages[id], me, u) {
      assert MessageOk(db.messages, id, db.groups, db.polls);
      ConversationsAreApart(db.messages[id], me, u);
    }
  }

  /** The newest message per friend, found through the maximum per pair and the peer of its row. */
  method NewestPerFriend(db: Db, me: Sub, friends: set<Sub>) returns (newest: map<string, nat>)
    requires Inv(db)
    ensures forall u | u in friends ::
              NewestOf(db, me, With(u)) == if u in newest then Some(newest[u]) else None
  {
    hide Inv, NewestOf, PeerOf, PairKey;
    var rows := PairRows(db, me, friends);
    var grouped := MaxPer(rows);
    newest := map[];
    var todo := grouped.Keys;
    while todo != {}
      invariant todo <= grouped.Keys
      invariant forall u | u in friends ::
                  if PairKey(me, u) in grouped && PairKey(me, u) !in todo
                  then u in newest && newest[u] == grouped[PairKey(me, u)] else u !in newest
      decreases todo
    {
      var k :| k in todo;
      todo := todo - {k};
      var id := grouped[k];
      var friend :| friend in friends && InDm(db.messages[id], me, friend);
      DirectMessageIsBetween(db, me, friend, id);
      SamePairSameFriend(db, me, friends, friend);
      newest := newest[PeerOf(db.messages[id], me) := id];
    }
    forall u | u in friends
      ensures NewestOf(db, me, With(u)) == if u in newest then Some(newest[u]) else None
    {
      MaximumIsNewest(db, me, friends, u, rows, grouped);
    }
  }

  lemma SamePairSameFriend(db: Db, me: Sub, friends: set<Sub>, friend: Sub)
    ensures forall u | u in friends :: PairKey(me, u) == PairKey(me, friend) <==> u == friend
  {
    forall u | u in friends ensures PairKey(me, u) == PairKey(me, friend) <==> u == friend {
      PairKeyIdentifiesPair(me, u, me, friend);
    }
  }

  lemma MaximumIsNewest(db: Db, me: Sub, friends: set<Sub>, u: Sub, rows: map<nat, (string, string)>,
                        grouped: map<(string, string), nat>)
    requires u in friends && rows == PairRows(db, me, friends)
    requires forall k | k in grouped :: grouped[k] in rows && rows[grouped[k]] == k
    requires forall id | id in rows :: rows[id] in grouped && id <= grouped[rows[id]]
    ensures NewestOf(db, me, With(u)) == if PairKey(me, u) in grouped then Some(grouped[PairKey(me, u)]) else None
  {
    NewestHeadsHistory(db, me, With(u), 1);
    hide PageOf, NewestOf;
    var visible := Visible(db, me, With(u));
    assert forall id | id in visible :: id in rows && rows[id] == PairKey(me, u);
    if PairKey(me, u) in grouped {
      assert grouped[PairKey(me, u)] in visible;
    }
  }

  /** One count query per friend. */
  function UnreadFrom(db: Db, me: Sub, u: Sub, cursor: nat): set<nat> {
    set id | id in db.messages && InDm(db.messages[id], me, u) && db.messages[id].sender == u && id > cursor
        && (me, id) !in db.hidden
  }

  lemma UnreadFromIsUnread(db: Db, me: Sub, u: Sub)
    requires Inv(db)
    ensures UnreadFrom(db, me, u, CursorOf(db, me, With(u))) == UnreadIn(db, me, With(u))
  {
    hide Inv;
    forall id | id in db.messages && InDm(db.messages[id], me, u)
      ensures db.messages[id].sender == u <==> db.messages[id].sender != me
    {
      DirectMessageIsBetween(db, me, u, id);
    }
  }

  /** A cursor row with the viewer on one side is that of the viewer and the other side. */
  lemma CursorRowIsPair(db: Db, me: Sub, k: (Sub, string, string))
    requires Inv(db)
    ensures k in db.dmReads && k.0 == me ==>
              && (me == k.1 || me == k.2)
              && var other := if k.1 == me then k.2 else k.1; ':' !in other && (k.1, k.2) == PairKey(me, other)
  {
    hide RefsOk, HiddenOk, GroupReadsOk, CapacityOk, PollsOk, FriendsOk, RolesOk;
    if k !in db.dmReads || k.0 != me { return; }
    assert DmCursorOk(db.messages, k, db.dmReads[k]);
    var m := db.messages[db.dmReads[k]];
    assert MessageOk(db.messages, db.dmReads[k], db.groups, db.polls);
    PairKeyIdentifiesPair(m.sender, m.recipient, m.recipient, m.sender);
  }

  /** The viewer's cursor rows with some friends. */
  function CursorRows(db: Db, me: Sub, friends: set<Sub>): set<(Sub, string, string)> {
    set k | k in db.dmReads && k.0 == me
            && exists u :: u in friends && ((k.1 == me && k.2 == u) || (k.2 == me && k.1 == u))
  }

  /** The viewer's cursors, keyed by the side of the row that is not the viewer. */
  method CursorsByFriend(db: Db, me: Sub, friends: set<Sub>) returns (cursors: map<string, nat>)
    requires Inv(db)
    ensures forall u | u in friends :: CursorOf(db, me, With(u)) == if u in cursors then cursors[u] else 0
  {
    hide Inv;
    cursors := map[];
    var todo := CursorRows(db, me, friends);
    ghost var rows := todo;
    while todo != {}
      invariant todo <= rows
      invariant forall u | u in friends ::
                  var k := (me, PairKey(me, u).0, PairKey(me, u).1);
                  if k in rows && k !in todo then u in cursors && cursors[u] == db.dmReads[k] else u !in cursors
      decreases todo
    {
      var k :| k in todo;
      CursorRowIsPair(db, me, k);
      todo := todo - {k};
      var other := if k.1 == me then k.2 else k.1;
      SamePairSameFriend(db, me, friends, other);
      cursors := cursors[other := db.dmReads[k]];
    }
    forall u | u in friends && (me, PairKey(me, u).0, PairKey(me, u).1) in db.dmReads
      ensures (me, PairKey(me, u).0, PairKey(me, u).1) in rows
    {
    }
  }

  /** _dm_conversation_summaries: one entry per friend, each what a scan of that conversation shows. */
  method DmSummaries(db: Db, me: Sub) returns (list: seq<Summary>)
    requires Inv(db)
    ensures ListsOnce(list, db, me, set u | u in FriendSet(db, me) :: With(u))
  {
    hide Inv, FriendSet, Scan, Elements;
    var friends := ListFriends(db, me);
    var subs := Elements(friends);
    EntriesAreElements(friends);
    var cursors := CursorsByFriend(db, me, subs);
    var newest := NewestPerFriend(db, me, subs);
    list := [];
    for n := 0 to |friends|
      invariant |list| == n
      invariant forall i | 0 <= i < n :: list[i] == Scan(db, me, With(friends[i]))
    {
      var u := friends[n];
      var cursor := if u in cursors then cursors[u] else 0;
      var last := if u in newest then Some(newest[u]) else None;
      var entry := DmEntry(db, me, u, cursor, last);
      list := list + [entry];
    }
    var order := seq(|friends|, i requires 0 <= i < |friends| => With(friends[i]));
    ScansInOrder(list, db, me, order);
    AsPeers(friends, order);
  }

  method DmEntry(db: Db, me: Sub, u: Sub, cursor: nat, last: Option<nat>) returns (entry: Summary)
    requires Inv(db)
    requires cursor == CursorOf(db, me, With(u)) && last == NewestOf(db, me, With(u))
    ensures entry == Scan(db, me, With(u))
  {
    hide Inv, NewestOf, UnreadFrom, UnreadIn, CursorOf;
    UnreadFromIsUnread(db, me, u);
    entry := Summary(With(u), last, |UnreadFrom(db, me, u, cursor)|, cursor, 0, SettingOf(db, me, With(u)));
  }

  lemma AsPeers(friends: seq<Sub>, order: seq<Where>)
    requires |order| == |friends| && forall i | 0 <= i < |friends| :: order[i] == With(friends[i])
    ensures Elements(order) == set u | u in Elements(friends) :: With(u)
  {
    forall c ensures c in Elements(order) <==> c in (set u | u in Elements(friends) :: With(u)) {
      if c in order {
        var i :| 0 <= i < |order| && order[i] == c;
        assert friends[i] in friends;
      }
    }
  }

  // ---------------------------------------------------------------------------------------------
  // Groups

  /** The groups of a user. */
  function JoinedGroups(db: Db, me: Sub): set<nat> {
    set g | g in db.groups && IsMember(db, g, me)
  }

  /** The visible messages of any of some groups, with their groups. */
  function GroupRows(db: Db, me: Sub, groups: set<nat>): map<nat, nat> {
    map id | id in db.messages && (me, id) !in db.hidden && db.messages[id].kind == GroupChat
             && db.messages[id].groupId.Some? && db.messages[id].groupId.value in groups
      :: db.messages[id].groupId.value
  }

  lemma MaximumIsNewestInGroup(db: Db, me: Sub, groups: set<nat>, g: nat, rows: map<nat, nat>, grouped: map<nat, nat>)
    requires g in groups && rows == GroupRows(db, me, groups)
    requires forall k | k in grouped :: grouped[k] in rows && rows[grouped[k]] == k
    requires forall id | id in rows :: rows[id] in grouped && id <= grouped[rows[id]]
    ensures NewestOf(db, me, In(g)) == if g in grouped then Some(grouped[g]) else None
  {
    NewestHeadsHistory(db, me, In(g), 1);
    hide PageOf, NewestOf;
    var visible := Visible(db, me, In(g));
    assert forall id | id in visible :: id in rows && rows[id] == g;
    if g in grouped {
      assert grouped[g] in visible;
    }
  }

  /** A group message in the range of the count query, by another sender. */
  function UnreadOfOthers(db: Db, me: Sub, g: nat, cursor: nat): set<nat> {
    set id | id in db.messages && InGroup(db.messages[id], g) && db.messages[id].sender != me && id > cursor
        && (me, id) !in db.hidden
  }

  /** The rows of a query in some order, each once. */
  method InSomeOrder(s: set<nat>) returns (q: seq<nat>)
    ensures Elements(q) == s
    ensures forall i, j | 0 <= i < j < |q| :: q[i] != q[j]
  {
    q := [];
    var todo := s;
    while todo != {}
      invariant todo <= s && Elements(q) == s - todo
      invariant forall i, j | 0 <= i < j < |q| :: q[i] != q[j]
      decreases todo
    {
      var x :| x in todo;
      assert x !in Elements(q);
      todo := todo - {x};
      assert Elements(q + [x]) == Elements(q) + {x};
      q := q + [x];
    }
  }

  /** _group_conversation_summaries: one entry per joined group, each what a scan shows. */
  method GroupSummaries(db: Db, me: Sub) returns (list: seq<Summary>)
    ensures ListsOnce(list, db, me, set g | g in JoinedGroups(db, me) :: In(g))
  {
    var groups := InSomeOrder(JoinedGroups(db, me));
    hide JoinedGroups, Scan, NewestOf, GroupRows, Elements;
    var ids := Elements(groups);
    EntriesAreElements(groups);
    var rows := GroupRows(db, me, ids);
    var grouped := MaxPer(rows);
    list := [];
    for n := 0 to |groups|
      invariant |list| == n
      invariant forall i | 0 <= i < n :: list[i] == Scan(db, me, In(groups[i]))
    {
      var g := groups[n];
      MaximumIsNewestInGroup(db, me, ids, g, rows, grouped);
      var entry := GroupEntry(db, me, g, if g in grouped then Some(grouped[g]) else None);
      list := list + [entry];
    }
    var order := seq(|groups|, i requires 0 <= i < |groups| => In(groups[i]));
    ScansInOrder(list, db, me, order);
    AsGroups(groups, order);
  }

  lemma AsGroups(groups: seq<nat>, order: seq<Where>)
    requires |order| == |groups| && forall i | 0 <= i < |groups| :: order[i] == In(groups[i])
    ensures Elements(order) == set g | g in Elements(groups) :: In(g)
  {
    forall c ensures c in Elements(order) <==> c in (set g | g in Elements(groups) :: In(g)) {
      if c in order {
        var i :| 0 <= i < |order| && order[i] == c;
        assert groups[i] in groups;
      }
    }
  }

  method GroupEntry(db: Db, me: Sub, g: nat, last: Option<nat>) returns (entry: Summary)
    requires last == NewestOf(db, me, In(g))
    ensures entry == Scan(db, me, In(g))
  {
    var cursor := if (me, g) in db.groupReads then db.groupReads[(me, g)] else 0;
    entry := Summary(In(g), last, |UnreadOfOthers(db, me, g, cursor)|, cursor, |MemberRows(db.members, g)|,
                     SettingOf(db, me, In(g)));
    assert UnreadOfOthers(db, me, g, cursor) == UnreadIn(db, me, In(g));
  }

  // ---------------------------------------------------------------------------------------------
  // The list

  /** The conversations a user's list is about: accepted friends and joined groups. */
  function Conversations(db: Db, me: Sub): set<Where> {
    (set u | u in FriendSet(db, me) :: With(u)) + (set g | g in JoinedGroups(db, me) :: In(g))
  }

  /** Friends and groups: nobody else and no other group is listed. */
  lemma ConversationsInWords(db: Db, me: Sub, c: Where)
    requires Inv(db)
    ensures c in Conversations(db, me) <==>
              match c
              case With(u) => u in db.users && Accepted(db.friendships, me, u)
              case In(g) => (g, me) in db.members
  {
    match c
    case With(u) => FriendsMeansAccepted(db, me, u);
    case In(g) => OwnerMeansOwns(db, g, me);
  }

  /** -id of the newest message, or 1 without one. */
  function Age(s: Summary): int {
    if s.last.Some? then -(s.last.value as int) else 1
  }

  /** Pinned first, then by newest message, conversations without one last. */
  predicate NotAfter(s: Summary, t: Summary) {
    if s.setting.pinned == t.setting.pinned then Age(s) <= Age(t) else s.setting.pinned
  }

  predicate Ordered(list: seq<Summary>) {
    forall i, j | 0 <= i < j < |list| :: NotAfter(list[i], list[j])
  }

  /** Puts an entry behind all that are not after it, so that equal entries keep their order. */
  function InsertSorted(list: seq<Summary>, s: Summary): seq<Summary> {
    if list == [] || NotAfter(list[|list| - 1], s) then list + [s]
    else InsertSorted(list[..|list| - 1], s) + [list[|list| - 1]]
  }

  function SortList(list: seq<Summary>): seq<Summary> {
    if list == [] then [] else InsertSorted(SortList(list[..|list| - 1]), list[|list| - 1])
  }

  lemma NotAfterIsOrder(a: Summary, b: Summary, c: Summary)
    ensures NotAfter(a, b) || NotAfter(b, a)
    ensures NotAfter(a, b) && NotAfter(b, c) ==> NotAfter(a, c)
  {
  }

  lemma AppendKeepsOrder(list: seq<Summary>, s: Summary)
    requires Ordered(list) && (list != [] ==> NotAfter(list[|list| - 1], s))
    ensures Ordered(list + [s])
  {
    hide NotAfter;
    forall i | 0 <= i < |list| ensures NotAfter(list[i], s) {
      NotAfterIsOrder(list[i], list[|list| - 1], s);
    }
  }

  lemma {:induction false} InsertSortedProps(list: seq<Summary>, s: Summary)
    requires Ordered(list)
    ensures Ordered(InsertSorted(list, s))
    ensures multiset(InsertSorted(list, s)) == multiset(list) + multiset{s}
  {
    hide NotAfter;
    if list == [] || NotAfter(list[|list| - 1], s) {
      AppendKeepsOrder(list, s);
    } else {
      var front, last := list[..|list| - 1], list[|list| - 1];
      InsertSortedProps(front, s);
      assert list == front + [last];
      NotAfterIsOrder(s, last, last);
      var out := InsertSorted(front, s);
      assert out[|out| - 1] in multiset(out);
      AppendKeepsOrder(out, last);
    }
  }

  /** Pinned conversations first; among equally pinned ones the newer message first, and conversations
      without a message last. */
  ghost predicate PinnedThenNewest(list: seq<Summary>) {
    forall i, j | 0 <= i < j < |list| ::
      && (list[j].setting.pinned ==> list[i].setting.pinned)
      && (list[i].setting.pinned == list[j].setting.pinned && list[j].last.Some? ==>
            list[i].last.Some? && list[i].last.value >= list[j].last.value)
  }

  /** The sort key puts the list into that order. */
  lemma OrderedMeansPinnedThenNewest(list: seq<Summary>)
    ensures Ordered(list) <==> PinnedThenNewest(list)
  {
    assert forall i, j | 0 <= i < j < |list| :: NotAfter(list[i], list[j]) ==>
      (list[j].setting.pinned ==> list[i].setting.pinned);
  }

  lemma {:induction false} SortListProps(list: seq<Summary>)
    ensures PinnedThenNewest(SortList(list)) && multiset(SortList(list)) == multiset(list)
  {
    OrderedMeansPinnedThenNewest(SortList(list));
    if list == [] {
    } else {
      SortListProps(list[..|list| - 1]);
      OrderedMeansPinnedThenNewest(SortList(list[..|list| - 1]));
      hide NotAfter, PinnedThenNewest;
      InsertSortedProps(SortList(list[..|list| - 1]), list[|list| - 1]);
      assert list == list[..|list| - 1] + [list[|list| - 1]];
    }
  }

  predicate Wanted(s: Setting, archived: Option<bool>) {
    archived.None? || s.archived == archived.value
  }

  /** Every friend and joined group that the filter asks for exactly once, as a scan shows it. */
  ghost predicate ListsWanted(list: seq<Summary>, db: Db, me: Sub, archived: Option<bool>) {
    && (forall s | s in list :: s == Scan(db, me, s.conv) && s.conv in Conversations(db, me))
    && (forall s | s in list && archived.Some? :: s.setting.archived == archived.value)
    && (forall c | c in Conversations(db, me) && (archived.Some? ==> SettingOf(db, me, c).archived == archived.value) ::
          multiset(list)[Scan(db, me, c)] == 1)
  }

  ghost predicate IsList(list: seq<Summary>, db: Db, me: Sub, archived: Option<bool>) {
    PinnedThenNewest(list) && ListsWanted(list, db, me, archived)
  }

  method ConversationSummaries(db: Db, me: Sub, archived: Option<bool>) returns (list: seq<Summary>)
    requires Inv(db)
    ensures IsList(list, db, me, archived)
  {
    hide Inv, Scan, NotAfter, FriendSet, JoinedGroups;
    var direct := DmSummaries(db, me);
    var groups := GroupSummaries(db, me);
    AllConversationsOnce(db, me, direct, groups);
    var kept := KeepWanted(direct + groups, archived);
    list := SortList(kept);
    ListIsComplete(db, me, direct + groups, archived);
  }

  lemma ListIsComplete(db: Db, me: Sub, all: seq<Summary>, archived: Option<bool>)
    requires forall s | s in all :: s == Scan(db, me, s.conv) && s.conv in Conversations(db, me)
    requires forall c | c in Conversations(db, me) :: multiset(all)[Scan(db, me, c)] == 1
    ensures IsList(SortList(KeepWanted(all, archived)), db, me, archived)
  {
    hide NotAfter, Conversations, NewestOf, UnreadIn, CursorOf, MembersIn, SettingOf, KeepWanted, SortList,
         PinnedThenNewest;
    var kept := KeepWanted(all, archived);
    SortListProps(kept);
    forall s | s in SortList(kept) ensures s in kept {
      assert s in multiset(SortList(kept));
      assert s in multiset(kept);
    }
  }

  lemma {:induction false} DistinctCountsOnce(list: seq<Summary>, s: Summary)
    requires forall i, j | 0 <= i < j < |list| :: list[i].conv != list[j].conv
    requires s in list
    ensures multiset(list)[s] == 1
  {
    var front, last := list[..|list| - 1], list[|list| - 1];
    assert list == front + [last];
    if s in front {
      DistinctCountsOnce(front, s);
    }
  }

  /** The filter of the list. */
  function KeepWanted(list: seq<Summary>, archived: Option<bool>): (kept: seq<Summary>)
    ensures forall s | s in kept :: s in list && Wanted(s.setting, archived)
    ensures forall s: Summary | Wanted(s.setting, archived) :: multiset(kept)[s] == multiset(list)[s]
  {
    if list == [] then []
    else
      var front, last := list[..|list| - 1], list[|list| - 1];
      assert list == front + [last];
      KeepWanted(front, archived) + (if Wanted(last.setting, archived) then [last] else [])
  }

  lemma AllConversationsOnce(db: Db, me: Sub, direct: seq<Summary>, groups: seq<Summary>)
    requires ListsOnce(direct, db, me, set u | u in FriendSet(db, me) :: With(u))
    requires ListsOnce(groups, db, me, set g | g in JoinedGroups(db, me) :: In(g))
    ensures ListsOnce(direct + groups, db, me, Conversations(db, me))
    ensures forall c | c in Conversations(db, me) :: multiset(direct + groups)[Scan(db, me, c)] == 1
  {
    hide Scan, FriendSet, JoinedGroups;
    var all := direct + groups;
    assert forall i | 0 <= i < |direct| :: direct[i].conv.With?;
    assert forall i | 0 <= i < |groups| :: groups[i].conv.In?;
    forall c | c in Conversations(db, me) ensures multiset(all)[Scan(db, me, c)] == 1 {
      assert Scan(db, me, c) in all;
      DistinctCountsOnce(all, Scan(db, me, c));
    }
  }

  /** The archived and the unarchived list together hold every conversation exactly once. */
  lemma ArchivedListsPartition(db: Db, me: Sub, shown: seq<Summary>, archived: seq<Summary>, c: Where)
    requires IsList(shown, db, me, Some(false)) && IsList(archived, db, me, Some(true))
    ensures c in Conversations(db, me) ==> multiset(shown + archived)[Scan(db, me, c)] == 1
    ensures forall s | s in shown + archived :: s.conv in Conversations(db, me) && s == Scan(db, me, s.conv)
  {
  }
}
