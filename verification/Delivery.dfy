/** What a write does to what everybody sees (app/messages/service.py): a message arrives in its own
    conversation and nowhere else, a cursor clears what it passes, hiding concerns the hider alone. */
module Delivery {
  import opened Prelude
  import opened Text
  import opened Store
  import opened Friends
  import opened Groups
  import opened Messages
  import opened MessagesInv
  import opened Paging
  import opened History
  import opened Summaries
  import opened Effects

  /** The conversation of a direct message as one of the two sees it. */
  predicate IsDmOf(at: Where, viewer: Sub, m: Message) {
    at.With? && PairKey(viewer, at.other) == (m.lo, m.hi)
  }

  /** The newest of a set of ids heads the first page. */
  lemma LargestIsNewest(db: Db, viewer: Sub, at: Where, id: nat)
    requires id in Visible(db, viewer, at) && forall i | i in Visible(db, viewer, at) :: i <= id
    ensures NewestOf(db, viewer, at) == Some(id)
  {
    NewestHeadsHistory(db, viewer, at, 1);
  }

  lemma DmBecomesVisible(db: Db, m: Message, mentions: set<Sub>, viewer: Sub, at: Where)
    requires Inv(db) && IsDmOf(at, viewer, m)
    ensures Visible(PostDm(db, m, mentions), viewer, at) == Visible(db, viewer, at) + {db.nextMessage}
  {
    hide RefsOk, DmReadsOk, GroupReadsOk, CapacityOk, PollsOk, FriendsOk, RolesOk, MessageOk, NewRows, Raise, PairKey;
  }

  /** A direct message is the newest for both sides and one more unread for its recipient. */
  lemma DmArrives(db: Db, m: Message, mentions: set<Sub>, from: Sub, to: Sub)
    requires Inv(db) && ShapeOk(m) && m.kind == Dm && m.sender == from && m.recipient == to
    ensures var t := PostDm(db, m, mentions);
      && NewestOf(t, from, With(to)) == NewestOf(t, to, With(from)) == Some(db.nextMessage)
      && UnreadIn(t, to, With(from)) == UnreadIn(db, to, With(from)) + {db.nextMessage}
  {
    PairKeyIdentifiesPair(from, to, to, from);
    DmBecomesVisible(db, m, mentions, from, With(to));
    DmBecomesVisible(db, m, mentions, to, With(from));
    VisibleBelowNext(db, from, With(to));
    VisibleBelowNext(db, to, With(from));
    var t := PostDm(db, m, mentions);
    CursorBelowNext(db, to, With(from));
    hide Inv, Visible, NewestOf, ShapeOk, PairKey, NewRows;
    LargestIsNewest(t, from, With(to), db.nextMessage);
    LargestIsNewest(t, to, With(from), db.nextMessage);
    UnreadAfterDm(db, m, mentions, to, With(from));
  }

  lemma CursorBelowNext(db: Db, viewer: Sub, at: Where)
    requires Inv(db)
    ensures CursorOf(db, viewer, at) < db.nextMessage
  {
    hide RefsOk, HiddenOk, CapacityOk, PollsOk, FriendsOk, RolesOk, MessageOk, PairKey;
  }

  lemma UnreadAfterDm(db: Db, m: Message, mentions: set<Sub>, viewer: Sub, at: Where)
    requires db.nextMessage !in Visible(db, viewer, at) && m.sender != viewer
              && CursorOf(db, viewer, at) < db.nextMessage
    requires Visible(PostDm(db, m, mentions), viewer, at) == Visible(db, viewer, at) + {db.nextMessage}
    ensures UnreadIn(PostDm(db, m, mentions), viewer, at) == UnreadIn(db, viewer, at) + {db.nextMessage}
  {
    hide Visible, NewRows, PairKey;
    var t := PostDm(db, m, mentions);
    assert CursorOf(t, viewer, at) == CursorOf(db, viewer, at);
  }

  /** Nobody's other conversations show a trace of it. */
  lemma DmLeavesRestAlone(db: Db, m: Message, mentions: set<Sub>, viewer: Sub, at: Where)
    requires Inv(db) && ShapeOk(m) && m.kind == Dm && !IsDmOf(at, viewer, m)
    ensures Scan(PostDm(db, m, mentions), viewer, at) == Scan(db, viewer, at)
  {
    hide RefsOk, HiddenOk, DmReadsOk, GroupReadsOk, CapacityOk, PollsOk, FriendsOk, RolesOk, MessageOk, NewRows, PageOf,
         PairKey;
    var t := PostDm(db, m, mentions);
    assert Visible(t, viewer, at) == Visible(db, viewer, at);
    assert CursorOf(t, viewer, at) == CursorOf(db, viewer, at);
    assert UnreadIn(t, viewer, at) == UnreadIn(db, viewer, at);
  }

  // ---------------------------------------------------------------------------------------------
  // Group messages

  lemma GroupMessageBecomesVisible(db: Db, g: nat, m: Message, mentions: set<Sub>, viewer: Sub)
    requires Inv(db) && InGroup(m, g)
    ensures Visible(PostGroup(db, g, m, mentions), viewer, In(g)) == Visible(db, viewer, In(g)) + {db.nextMessage}
  {
    hide RefsOk, DmReadsOk, GroupReadsOk, CapacityOk, PollsOk, FriendsOk, RolesOk, MessageOk, NewRows, Raise;
  }

  /** A group message is the newest for everybody and one more unread for everybody but its sender. */
  lemma GroupMessageArrives(db: Db, g: nat, m: Message, mentions: set<Sub>, viewer: Sub)
    requires Inv(db) && InGroup(m, g)
    ensures var t := PostGroup(db, g, m, mentions);
      && NewestOf(t, viewer, In(g)) == Some(db.nextMessage)
      && UnreadIn(t, viewer, In(g)) == if viewer == m.sender then {} else UnreadIn(db, viewer, In(g)) + {db.nextMessage}
  {
    hide Inv, Visible, NewestOf, UnreadIn, PostGroup, CursorOf;
    GroupMessageBecomesVisible(db, g, m, mentions, viewer);
    VisibleBelowNext(db, viewer, In(g));
    LargestIsNewest(PostGroup(db, g, m, mentions), viewer, In(g), db.nextMessage);
    CursorBelowNext(db, viewer, In(g));
    if viewer == m.sender {
      OwnPostClearsUnread(db, viewer, In(g), m, mentions);
    } else {
      UnreadAfterGroupMessage(db, g, m, mentions, viewer);
    }
  }

  lemma UnreadAfterGroupMessage(db: Db, g: nat, m: Message, mentions: set<Sub>, viewer: Sub)
    requires db.nextMessage !in Visible(db, viewer, In(g)) && m.sender != viewer
              && CursorOf(db, viewer, In(g)) < db.nextMessage
    requires Visible(PostGroup(db, g, m, mentions), viewer, In(g)) == Visible(db, viewer, In(g)) + {db.nextMessage}
    ensures UnreadIn(PostGroup(db, g, m, mentions), viewer, In(g)) == UnreadIn(db, viewer, In(g)) + {db.nextMessage}
  {
    hide Visible, NewRows;
    assert CursorOf(PostGroup(db, g, m, mentions), viewer, In(g)) == CursorOf(db, viewer, In(g));
  }

  lemma GroupMessageLeavesRestAlone(db: Db, g: nat, m: Message, mentions: set<Sub>, viewer: Sub, at: Where)
    requires Inv(db) && ShapeOk(m) && InGroup(m, g) && at != In(g)
    ensures Scan(PostGroup(db, g, m, mentions), viewer, at) == Scan(db, viewer, at)
  {
    hide RefsOk, HiddenOk, DmReadsOk, GroupReadsOk, CapacityOk, PollsOk, FriendsOk, RolesOk, MessageOk, NewRows, PageOf,
         PairKey;
    var t := PostGroup(db, g, m, mentions);
    if at.With? { NotInDm(m, viewer, at.other); }
    assert Visible(t, viewer, at) == Visible(db, viewer, at);
    assert CursorOf(t, viewer, at) == CursorOf(db, viewer, at);
    assert UnreadIn(t, viewer, at) == UnreadIn(db, viewer, at);
  }

  lemma NotInDm(m: Message, a: Sub, b: Sub)
    requires ShapeOk(m) && m.kind == GroupChat
    ensures !InDm(m, a, b)
  {
  }

  // ---------------------------------------------------------------------------------------------
  // The calls

  /** The newest for both sides, one more unread for the recipient, and no change in any other
      conversation of anybody. */
  ghost predicate ArrivedBetween(db: Db, t: Db, me: Sub, other: Sub, id: nat) {
    && NewestOf(t, me, With(other)) == NewestOf(t, other, With(me)) == Some(id)
    && UnreadIn(t, other, With(me)) == UnreadIn(db, other, With(me)) + {id}
    && forall viewer: Sub, at: Where | !(at.With? && PairKey(viewer, at.other) == PairKey(me, other)) ::
         Scan(t, viewer, at) == Scan(db, viewer, at)
  }

  /** The newest for everybody, one more unread for everybody but the sender, and no change elsewhere. */
  ghost predicate ArrivedInGroup(db: Db, t: Db, me: Sub, g: nat, id: nat) {
    && (forall u :: NewestOf(t, u, In(g)) == Some(id)
                    && UnreadIn(t, u, In(g)) == if u == me then {} else UnreadIn(db, u, In(g)) + {id})
    && forall viewer: Sub, at: Where | at != In(g) :: Scan(t, viewer, at) == Scan(db, viewer, at)
  }

  ghost predicate Arrived(db: Db, t: Db, me: Sub, to: Where, id: nat) {
    match to
    case With(other) => ArrivedBetween(db, t, me, other, id)
    case In(g) => ArrivedInGroup(db, t, me, g, id)
  }

  lemma PostedDmArrives(db: Db, m: Message, mentions: set<Sub>, me: Sub, other: Sub)
    requires Inv(db) && ShapeOk(m) && m.kind == Dm && m.sender == me && m.recipient == other
    ensures ArrivedBetween(db, PostDm(db, m, mentions), me, other, db.nextMessage)
  {
    assert (m.lo, m.hi) == PairKey(me, other);
    hide Inv, PostDm, Scan, NewestOf, UnreadIn, PairKey, ShapeOk;
    DmArrives(db, m, mentions, me, other);
    forall viewer: Sub, at: Where | !(at.With? && PairKey(viewer, at.other) == PairKey(me, other))
      ensures Scan(PostDm(db, m, mentions), viewer, at) == Scan(db, viewer, at)
    {
      DmLeavesRestAlone(db, m, mentions, viewer, at);
    }
  }

  lemma PostedGroupMessageArrives(db: Db, g: nat, m: Message, mentions: set<Sub>)
    requires Inv(db) && ShapeOk(m) && InGroup(m, g)
    ensures ArrivedInGroup(db, PostGroup(db, g, m, mentions), m.sender, g, db.nextMessage)
  {
    hide Inv, PostGroup, Scan, NewestOf, UnreadIn, ShapeOk, InGroup;
    var t := PostGroup(db, g, m, mentions);
    forall u
      ensures NewestOf(t, u, In(g)) == Some(db.nextMessage)
      ensures UnreadIn(t, u, In(g)) == if u == m.sender then {} else UnreadIn(db, u, In(g)) + {db.nextMessage}
    {
      GroupMessageArrives(db, g, m, mentions, u);
    }
    forall viewer: Sub, at: Where | at != In(g) ensures Scan(t, viewer, at) == Scan(db, viewer, at) {
      GroupMessageLeavesRestAlone(db, g, m, mentions, viewer, at);
    }
  }

  /** The stored row says what was handed in. */
  predicate Carries(m: Message, me: Sub, content: string, contentType: ContentType, forwarded: bool,
                    attachment: Option<Attachment>, replyTo: Option<nat>) {
    && m.sender == me && m.content == content && m.contentType == contentType && m.forwarded == forwarded
    && m.attachment == attachment && m.replyTo == replyTo && m.editedAt.None? && m.deletedAt.None?
  }

  /** A message that was sent is stored as handed in, mentions whom it should, and arrives. */
  lemma SentMessageArrives(db: Db, me: Sub, other: Sub, d: Draft, now: real)
    requires Inv(db) && SendDm(db, me, other, d, now).1.Created?
    ensures var (t, reply) := SendDm(db, me, other, d, now);
      && reply.id in t.messages
      && Carries(t.messages[reply.id], me, d.content, d.contentType, false, Attached(db, d.attachment), d.replyTo)
      && t.mentions == db.mentions + NewRows(reply.id, Elements(d.mentions))
      && Arrived(db, t, me, With(other), reply.id)
  {
    var m := DirectMessage(me, other, d.content, d.contentType, false, Attached(db, d.attachment), d.replyTo, now);
    SendDmPosts(db, me, other, d, now);
    PostDmStores(db, m, Elements(d.mentions));
    hide Inv, SendDm, PostDm, PairKey, ArrivedBetween;
    PostedDmArrives(db, m, Elements(d.mentions), me, other);
  }

  lemma SendDmPosts(db: Db, me: Sub, other: Sub, d: Draft, now: real)
    requires SendDm(db, me, other, d, now).1.Created?
    ensures me != other
    ensures var m := DirectMessage(me, other, d.content, d.contentType, false, Attached(db, d.attachment), d.replyTo,
                                   now);
      SendDm(db, me, other, d, now) == (PostDm(db, m, Elements(d.mentions)), Created(db.nextMessage))
  {
    hide PostDm, AreFriends, Attached, AttachmentError;
  }

  lemma PostDmStores(db: Db, m: Message, mentions: set<Sub>)
    ensures db.nextMessage in PostDm(db, m, mentions).messages && PostDm(db, m, mentions).messages[db.nextMessage] == m
    ensures PostDm(db, m, mentions).mentions == db.mentions + NewRows(db.nextMessage, mentions)
  {
    hide NewRows, Raise;
  }

  /** The same in a group; a poll's message names the poll stored with it. */
  lemma SentGroupMessageArrives(db: Db, me: Sub, g: nat, d: Draft, poll: Option<PollDraft>, now: real)
    requires Inv(db) && SendGroup(db, me, g, d, poll, now).1.Created?
    ensures var (t, reply) := SendGroup(db, me, g, d, poll, now);
      && reply.id in t.messages
      && Carries(t.messages[reply.id], me, d.content, d.contentType, false,
                 if poll.Some? then None else Attached(db, d.attachment), d.replyTo)
      && (poll.Some? ==> t.messages[reply.id].pollId == Some(db.nextPoll))
      && t.mentions == db.mentions + NewRows(reply.id, Elements(d.mentions))
      && Arrived(db, t, me, In(g), reply.id)
  {
    var base, m := SendGroupPosts(db, me, g, d, poll, now);
    PostGroupStores(base, g, m, Elements(d.mentions));
    hide Inv, SendGroup, PostGroup, ArrivedInGroup, ShapeOk, InGroup;
    PostedGroupMessageArrives(base, g, m, Elements(d.mentions));
    ArrivedFromBase(db, base, SendGroup(db, me, g, d, poll, now).0, me, g, db.nextMessage);
  }

  lemma ArrivedFromBase(db: Db, base: Db, t: Db, me: Sub, g: nat, id: nat)
    requires base == db.(polls := base.polls, nextPoll := base.nextPoll) && ArrivedInGroup(base, t, me, g, id)
    ensures ArrivedInGroup(db, t, me, g, id)
  {
    hide Scan, NewestOf, UnreadIn;
    forall viewer: Sub, at: Where
      ensures Scan(base, viewer, at) == Scan(db, viewer, at) && UnreadIn(base, viewer, at) == UnreadIn(db, viewer, at)
    {
      NewPollShowsNothing(db, base, viewer, at);
    }
  }

  /** A group send is a post, after the poll row if there is one. */
  lemma SendGroupPosts(db: Db, me: Sub, g: nat, d: Draft, poll: Option<PollDraft>, now: real)
    returns (base: Db, m: Message)
    requires Inv(db) && SendGroup(db, me, g, d, poll, now).1.Created?
    ensures Inv(base) && base == db.(polls := base.polls, nextPoll := base.nextPoll)
    ensures SendGroup(db, me, g, d, poll, now) == (PostGroup(base, g, m, Elements(d.mentions)), Created(db.nextMessage))
    ensures ShapeOk(m) && InGroup(m, g) && m.sender == me
    ensures Carries(m, me, d.content, d.contentType, false, if poll.Some? then None else Attached(db, d.attachment),
                    d.replyTo)
    ensures poll.Some? ==> m.pollId == Some(db.nextPoll)
  {
    hide Inv, AttachmentError, Attached, MentionErrorGroup, ReplyErrorGroup, Strip, CleanOptions, NewRows, Raise;
    if poll.Some? {
      MemberHasGroup(db, g, me);
      NewPollKeepsInv(db, me, g, poll.value);
      base := NewPoll(db, me, g, poll.value);
      m := GroupMessage(me, g, d.content, PollCard, false, None, None, Some(db.nextPoll), now);
    } else {
      base := db;
      m := GroupMessage(me, g, d.content, d.contentType, false, Attached(db, d.attachment), d.replyTo, None, now);
    }
  }

  lemma NewPollShowsNothing(db: Db, base: Db, viewer: Sub, at: Where)
    requires base == db.(polls := base.polls, nextPoll := base.nextPoll)
    ensures Scan(base, viewer, at) == Scan(db, viewer, at) && UnreadIn(base, viewer, at) == UnreadIn(db, viewer, at)
  {
    hide PageOf, PairKey;
    assert Visible(base, viewer, at) == Visible(db, viewer, at);
    assert UnreadIn(base, viewer, at) == UnreadIn(db, viewer, at);
  }

  ghost predicate CopyArrived(db: Db, t: Db, me: Sub, id: nat, to: Where, copy: nat) {
    && id in db.messages && copy in t.messages && t.mentions == db.mentions
    && Carries(t.messages[copy], me, db.messages[id].content, db.messages[id].contentType, true,
               db.messages[id].attachment, None)
    && Arrived(db, t, me, to, copy)
  }

  lemma CopyArrives(db: Db, me: Sub, id: nat, to: Where, now: real)
    requires Inv(db) && Forward(db, me, id, to, now).1.Created?
    ensures CopyArrived(db, Forward(db, me, id, to, now).0, me, id, to, Forward(db, me, id, to, now).1.id)
  {
    var m := ForwardPosts(db, me, id, to, now);
    hide Inv, Forward, PostDm, PostGroup, ArrivedBetween, ArrivedInGroup, ShapeOk, Carries;
    match to
    case With(other) => PostedDmArrives(db, m, {}, me, other);
    case In(g) => PostedGroupMessageArrives(db, g, m, {});
  }

  /** A forwarded copy carries the content and the attachment, but no reply and no mention, and arrives
      like a message that was sent. */
  lemma ForwardedMessageArrives(db: Db, me: Sub, id: nat, to: Where, now: real)
    requires Inv(db)
    ensures var (t, reply) := Forward(db, me, id, to, now);
      reply.Created? ==> CopyArrived(db, t, me, id, to, reply.id)
  {
    hide Inv, Forward, CopyArrived;
    if Forward(db, me, id, to, now).1.Created? { CopyArrives(db, me, id, to, now); }
  }

  function Posted(db: Db, to: Where, m: Message): Db {
    match to
    case With(_) => PostDm(db, m, {})
    case In(g) => PostGroup(db, g, m, {})
  }

  lemma ForwardPosts(db: Db, me: Sub, id: nat, to: Where, now: real) returns (m: Message)
    requires Forward(db, me, id, to, now).1.Created?
    ensures Forward(db, me, id, to, now) == (Posted(db, to, m), Created(db.nextMessage))
    ensures id in db.messages && m.sender == me && ShapeOk(m)
    ensures Carries(m, me, db.messages[id].content, db.messages[id].contentType, true, db.messages[id].attachment, None)
    ensures to.With? ==> m.kind == Dm && m.recipient == to.other
    ensures to.In? ==> InGroup(m, to.group)
    ensures var t := Posted(db, to, m);
      db.nextMessage in t.messages && t.messages[db.nextMessage] == m && t.mentions == db.mentions
  {
    ForwardedIsOwn(db, me, id, to);
    hide ForwardError, PostDm, PostGroup, NewRows, PairKey;
    var src := db.messages[id];
    m := match to
      case With(other) => DirectMessage(me, other, src.content, src.contentType, true, src.attachment, None, now)
      case In(g) => GroupMessage(me, g, src.content, src.contentType, true, src.attachment, None, None, now);
    match to {
      case With(_) => PostDmStores(db, m, {});
      case In(g) => PostGroupStores(db, g, m, {});
    }
    NoNewRows(db.nextMessage);
  }

  lemma NoNewRows(id: nat)
    ensures NewRows(id, {}) == {}
  {
  }

  lemma ForwardedIsOwn(db: Db, me: Sub, id: nat, to: Where)
    requires ForwardError(db, me, id, to).None?
    ensures id in db.messages && (to.With? ==> to.other != me)
  {
  }

  lemma PostGroupStores(db: Db, g: nat, m: Message, mentions: set<Sub>)
    ensures db.nextMessage in PostGroup(db, g, m, mentions).messages
              && PostGroup(db, g, m, mentions).messages[db.nextMessage] == m
    ensures PostGroup(db, g, m, mentions).mentions == db.mentions + NewRows(db.nextMessage, mentions)
  {
    hide NewRows, Raise;
  }

  // ---------------------------------------------------------------------------------------------
  // Reading, hiding, withdrawing

  /** Reading up to a message clears exactly the unread messages up to it. */
  lemma ReadingClearsUpTo(db: Db, me: Sub, other: Sub, id: nat)
    requires MarkRead(db, me, other, id).1 == Done
    ensures var t := MarkRead(db, me, other, id).0;
      UnreadIn(t, me, With(other)) == set i | i in UnreadIn(db, me, With(other)) && i > id
    ensures forall viewer: Sub, at: Where
              | viewer != me || !(at.With? && PairKey(me, at.other) == PairKey(me, other)) ::
              Scan(MarkRead(db, me, other, id).0, viewer, at) == Scan(db, viewer, at)
  {
    hide AreFriends, InDm, Scan;
    var t := MarkRead(db, me, other, id).0;
    assert Visible(t, me, With(other)) == Visible(db, me, With(other));
    forall viewer: Sub, at: Where | viewer != me || !(at.With? && PairKey(me, at.other) == PairKey(me, other))
      ensures Scan(t, viewer, at) == Scan(db, viewer, at)
    {
      OnlyCursorMoves(db, t, viewer, at);
    }
  }

  lemma ReadingGroupClearsUpTo(db: Db, me: Sub, g: nat, id: nat)
    requires MarkGroupRead(db, me, g, id).1 == Done
    ensures var t := MarkGroupRead(db, me, g, id).0;
      UnreadIn(t, me, In(g)) == set i | i in UnreadIn(db, me, In(g)) && i > id
    ensures forall viewer: Sub, at: Where | viewer != me || at != In(g) ::
              Scan(MarkGroupRead(db, me, g, id).0, viewer, at) == Scan(db, viewer, at)
  {
    hide InGroup, Scan, PairKey;
    var t := MarkGroupRead(db, me, g, id).0;
    assert Visible(t, me, In(g)) == Visible(db, me, In(g));
    forall viewer: Sub, at: Where | viewer != me || at != In(g)
      ensures Scan(t, viewer, at) == Scan(db, viewer, at)
    {
      OnlyCursorMoves(db, t, viewer, at);
    }
  }

  lemma OnlyCursorMoves(db: Db, t: Db, viewer: Sub, at: Where)
    requires t == db.(dmReads := t.dmReads, groupReads := t.groupReads)
              && CursorOf(t, viewer, at) == CursorOf(db, viewer, at)
    ensures Scan(t, viewer, at) == Scan(db, viewer, at)
  {
    hide PageOf, PairKey, CursorOf;
    assert Visible(t, viewer, at) == Visible(db, viewer, at);
    assert UnreadIn(t, viewer, at) == UnreadIn(db, viewer, at);
  }

  /** Hiding takes the message out of the hider's sight and out of nobody else's. */
  lemma HidingConcernsHiderOnly(db: Db, me: Sub, at: Where, id: nat, viewer: Sub, place: Where)
    requires HideMessage(db, me, at, id).1 == Done
    ensures Visible(HideMessage(db, me, at, id).0, viewer, place)
              == Visible(db, viewer, place) - (if viewer == me then {id} else {})
  {
    hide InDm, InGroup;
  }

  /** A withdrawn or edited message stays the newest where it was, and stays unread where it was. */
  lemma WithdrawnStillCounts(db: Db, me: Sub, at: Where, id: nat, content: string, now: real, viewer: Sub, place: Where)
    ensures Scan(WithdrawMessage(db, me, at, id, now).0, viewer, place) == Scan(db, viewer, place)
    ensures Scan(EditMessage(db, me, at, id, content, now).0, viewer, place) == Scan(db, viewer, place)
  {
    hide Scan, EditError;
    if EditError(db, me, at, id, now).None? {
      EditableIsStored(db, me, at, id, now);
      RewriteShowsNothing(db, id, db.messages[id].(content := content, editedAt := Some(now)), viewer, place);
      RewriteShowsNothing(db, id, db.messages[id].(content := "", deletedAt := Some(now)), viewer, place);
    }
  }

  lemma EditableIsStored(db: Db, me: Sub, at: Where, id: nat, now: real)
    requires EditError(db, me, at, id, now).None?
    ensures id in db.messages
  {
  }

  lemma RewriteShowsNothing(db: Db, id: nat, m: Message, viewer: Sub, at: Where)
    requires id in db.messages && SamePlace(m, db.messages[id])
    ensures Scan(db.(messages := db.messages[id := m]), viewer, at) == Scan(db, viewer, at)
  {
    hide PageOf, PairKey;
    var t := db.(messages := db.messages[id := m]);
    assert Visible(t, viewer, at) == Visible(db, viewer, at);
    assert UnreadIn(t, viewer, at) == UnreadIn(db, viewer, at);
  }

  // ---------------------------------------------------------------------------------------------
  // Settings

  function KindOf(at: Where): SettingKind {
    if at.With? then DmSetting else GroupSetting
  }

  function KeyOf(me: Sub, at: Where): string {
    match at
    case With(other) => DmKey(me, other)
    case In(g) => Decimal(g)
  }

  lemma KeyNamesConversation(me: Sub, a: Where, b: Where)
    ensures KindOf(a) == KindOf(b) && KeyOf(me, a) == KeyOf(me, b) <==> a == b
  {
    if a.With? && b.With? {
      DmKeyIdentifiesPair(me, a.other, me, b.other);
      PairKeyIdentifiesPair(me, a.other, me, b.other);
    } else if a.In? && b.In? && KeyOf(me, a) == KeyOf(me, b) {
      DecimalInjective(a.group, b.group);
    }
  }

  /** What is set for a conversation is what its entry shows; a flag that is not given stays as it is,
      and so does every other entry of anybody. */
  lemma SettingIsShown(db: Db, me: Sub, at: Where, pinned: Option<bool>, muted: Option<bool>, archived: Option<bool>,
                       viewer: Sub, place: Where)
    requires SetSetting(db, me, KindOf(at), KeyOf(me, at), pinned, muted, archived).1 == Done
    ensures var t := SetSetting(db, me, KindOf(at), KeyOf(me, at), pinned, muted, archived).0;
      && Flags(SettingOf(t, me, at), SettingOf(db, me, at), pinned, muted, archived)
      && ((viewer, place) != (me, at) ==> SettingOf(t, viewer, place) == SettingOf(db, viewer, place))
  {
    if viewer == me { KeyNamesConversation(me, at, place); }
    hide DmKey, Decimal, SettingError, Quiet;
  }

  lemma SettableConversations(db: Db, me: Sub, at: Where, pinned: Option<bool>, muted: Option<bool>,
                              archived: Option<bool>)
    ensures SetSetting(db, me, KindOf(at), KeyOf(me, at), pinned, muted, archived).1 == Done <==>
              && (pinned.Some? || muted.Some? || archived.Some?)
              && match at
                 case With(other) => other != me
                 case In(g) => (g, me) in db.members
  {
    match at
    case With(other) =>
      LessIsStrictTotal(me, other);
      SplitsAtFirst(PairKey(me, other).0, PairKey(me, other).1);
      hide Less, SplitKey, Quiet;
    case In(g) =>
      DecimalRoundTrip(g);
      hide Decimal, ParseDecimal, Quiet;
  }
}
