/** Every message, poll and setting operation keeps the invariant. */
module MessagesInv {
  import opened Prelude
  import opened Text
  import opened Store
  import opened Friends
  import opened Groups
  import opened Messages

  /** A new row with a fresh id fits among the stored ones. */
  ghost predicate Fits(db: Db, m: Message) {
    && ShapeOk(m)
    && (m.contentType == PollCard <==> m.pollId.Some?)
    && (m.groupId.Some? ==> m.groupId.value in db.groups && (m.groupId.value, m.sender) in db.members)
    && (m.replyTo.Some? ==> m.replyTo.value in db.messages && SameConversation(db.messages[m.replyTo.value], m))
    && (m.pollId.Some? ==> m.pollId.value in db.polls && Some(db.polls[m.pollId.value].groupId) == m.groupId)
  }

  lemma PostKeepsMessages(db: Db, m: Message)
    requires MessagesOk(db.messages, db.nextMessage, db.groups, db.polls) && Fits(db, m) && 1 <= db.nextMessage
    ensures MessagesOk(db.messages[db.nextMessage := m], db.nextMessage + 1, db.groups, db.polls)
  {
    var next := db.messages[db.nextMessage := m];
    forall id | id in db.messages
      ensures 1 <= id < db.nextMessage && MessageOk(next, id, db.groups, db.polls)
    {
      assert MessageOk(db.messages, id, db.groups, db.polls);
    }
    assert MessageOk(next, db.nextMessage, db.groups, db.polls);
  }

  lemma PostKeepsRefs(db: Db, m: Message, mentions: set<Sub>)
    requires RefsOk(db.messages, db.mentions, db.reactions, db.stars)
    ensures RefsOk(db.messages[db.nextMessage := m], db.mentions + NewRows(db.nextMessage, mentions), db.reactions,
                   db.stars)
  {
  }

  /** Raising a cursor to an id of its pair keeps all cursors in order. */
  lemma RaiseKeepsDmReads(messages: map<nat, Message>, dmReads: map<(Sub, string, string), nat>,
                          k: (Sub, string, string), id: nat)
    requires DmReadsOk(messages, dmReads) && DmCursorOk(messages, k, id)
    ensures DmReadsOk(messages, Raise(dmReads, k, id))
  {
    var raised := Raise(dmReads, k, id);
    forall i | i in messages && messages[i].kind == Dm
      ensures CursorCovers(raised, messages[i], i)
    {
      assert CursorCovers(dmReads, messages[i], i);
    }
  }

  /** The cursor rows stay rows of their pairs. */
  lemma PostKeepsCursorRows(db: Db, m: Message)
    requires m.kind == Dm && ShapeOk(m) && db.nextMessage !in db.messages
    requires forall k | k in db.dmReads :: DmCursorOk(db.messages, k, db.dmReads[k])
    ensures var raised := Raise(db.dmReads, OwnCursor(m), db.nextMessage);
      forall k | k in raised :: DmCursorOk(db.messages[db.nextMessage := m], k, raised[k])
  {
    var messages := db.messages[db.nextMessage := m];
    var raised := Raise(db.dmReads, OwnCursor(m), db.nextMessage);
    forall k | k in raised ensures DmCursorOk(messages, k, raised[k]) {
      if raised[k] != db.nextMessage { assert DmCursorOk(db.messages, k, db.dmReads[k]); }
    }
  }

  lemma PostKeepsDmReads(db: Db, m: Message)
    requires DmReadsOk(db.messages, db.dmReads) && m.kind == Dm && ShapeOk(m)
    requires forall id | id in db.messages :: id < db.nextMessage
    ensures DmReadsOk(db.messages[db.nextMessage := m], Raise(db.dmReads, OwnCursor(m), db.nextMessage))
  {
    var messages := db.messages[db.nextMessage := m];
    var raised := Raise(db.dmReads, OwnCursor(m), db.nextMessage);
    hide DmCursorOk, ShapeOk;
    PostKeepsCursorRows(db, m);
    forall i | i in messages && messages[i].kind == Dm
      ensures CursorCovers(raised, messages[i], i)
    {
      if i != db.nextMessage { assert CursorCovers(db.dmReads, messages[i], i); }
    }
  }

  lemma PostKeepsOthersDmReads(db: Db, m: Message)
    requires DmReadsOk(db.messages, db.dmReads) && m.kind == GroupChat
    requires forall id | id in db.messages :: id < db.nextMessage
    ensures DmReadsOk(db.messages[db.nextMessage := m], db.dmReads)
  {
    var messages := db.messages[db.nextMessage := m];
    forall k | k in db.dmReads ensures DmCursorOk(messages, k, db.dmReads[k]) {
      assert DmCursorOk(db.messages, k, db.dmReads[k]);
    }
  }

  lemma PostKeepsGroupReads(db: Db, m: Message)
    requires GroupReadsOk(db.messages, db.groupReads, db.members)
    requires forall id | id in db.messages :: id < db.nextMessage
    ensures GroupReadsOk(db.messages[db.nextMessage := m], db.groupReads, db.members)
    ensures m.kind == GroupChat && m.groupId.Some? && (m.groupId.value, m.sender) in db.members ==>
              GroupReadsOk(db.messages[db.nextMessage := m],
                           Raise(db.groupReads, (m.sender, m.groupId.value), db.nextMessage), db.members)
  {
  }

  lemma NextIsAbove(db: Db)
    requires Inv(db)
    ensures forall id | id in db.messages :: id < db.nextMessage
    ensures HiddenOk(db.hidden, db.nextMessage + 1)
  {
    hide RefsOk, DmReadsOk, GroupReadsOk, RolesOk, CapacityOk, PollsOk, FriendsOk, MessageOk;
  }

  lemma PostDmKeepsInv(db: Db, m: Message, mentions: set<Sub>)
    requires Inv(db) && Fits(db, m) && m.kind == Dm
    ensures Inv(PostDm(db, m, mentions))
  {
    hide MessagesOk, RefsOk, HiddenOk, DmReadsOk, GroupReadsOk, RolesOk, CapacityOk, PollsOk, FriendsOk, Raise,
         OwnCursor, NewRows, Fits, ShapeOk;
    NextIsAbove(db);
    PostKeepsMessages(db, m);
    PostKeepsRefs(db, m, mentions);
    FitsShape(db, m);
    PostKeepsDmReads(db, m);
    PostKeepsGroupReads(db, m);
  }

  lemma FitsShape(db: Db, m: Message)
    requires Fits(db, m)
    ensures ShapeOk(m)
    ensures m.kind == GroupChat ==> m.groupId.Some? && (m.groupId.value, m.sender) in db.members
  {
  }

  lemma PostGroupKeepsInv(db: Db, g: nat, m: Message, mentions: set<Sub>)
    requires Inv(db) && Fits(db, m) && InGroup(m, g)
    ensures Inv(PostGroup(db, g, m, mentions))
  {
    hide MessagesOk, RefsOk, HiddenOk, DmReadsOk, GroupReadsOk, RolesOk, CapacityOk, PollsOk, FriendsOk, Raise, NewRows,
         Fits, ShapeOk, GroupMarker;
    NextIsAbove(db);
    PostKeepsMessages(db, m);
    PostKeepsRefs(db, m, mentions);
    FitsShape(db, m);
    PostKeepsOthersDmReads(db, m);
    PostKeepsGroupReads(db, m);
  }

  lemma SendDmKeepsInv(db: Db, me: Sub, other: Sub, d: Draft, now: real)
    requires Inv(db)
    ensures Inv(SendDm(db, me, other, d, now).0)
  {
    hide Inv, PostDm, AreFriends, AttachmentError, MentionErrorDm, Attached;
    if SendDmError(db, me, other, d).None? {
      var m := DirectMessage(me, other, d.content, d.contentType, false, Attached(db, d.attachment), d.replyTo, now);
      if d.replyTo.Some? { ReplyShape(db, d.replyTo.value); }
      assert Fits(db, m);
      PostDmKeepsInv(db, m, Elements(d.mentions));
    }
  }

  lemma ReplyShape(db: Db, id: nat)
    requires Inv(db) && id in db.messages
    ensures ShapeOk(db.messages[id])
  {
  }

  lemma MemberHasGroup(db: Db, g: nat, u: Sub)
    requires Inv(db) && IsMember(db, g, u)
    ensures g in db.groups && u in db.users
  {
  }

  lemma ForwardKeepsInv(db: Db, me: Sub, id: nat, to: Where, now: real)
    requires Inv(db)
    ensures Inv(Forward(db, me, id, to, now).0)
  {
    hide Inv, PostDm, PostGroup, AreFriends, GroupMarker, CanView;
    if ForwardError(db, me, id, to).None? {
      var src := db.messages[id];
      NoPollOutsideCards(db, id);
      match to
      case In(g) =>
        MemberHasGroup(db, g, me);
        PostGroupKeepsInv(
          db, g, GroupMessage(me, g, src.content, src.contentType, true, src.attachment, None, None, now), {});
      case With(other) =>
        PostDmKeepsInv(db, DirectMessage(me, other, src.content, src.contentType, true, src.attachment, None, now), {});
    }
  }

  lemma NoPollOutsideCards(db: Db, id: nat)
    requires Inv(db) && id in db.messages
    ensures db.messages[id].contentType == PollCard <==> db.messages[id].pollId.Some?
  {
  }

  /** Cleaned options are distinct and of a proper length. */
  lemma {:induction false} CleanOptionsAreClean(options: seq<string>)
    requires CleanOptions(options).Some?
    ensures var clean := CleanOptions(options).value;
      && (forall o | o in clean :: 1 <= |o| <= 60)
      && (forall i, j | 0 <= i < j < |clean| :: clean[i] != clean[j])
      && (forall s | s in options :: Strip(s) in clean)
  {
    if options == [] {
    } else {
      var n := |options| - 1;
      CleanOptionsAreClean(options[..n]);
      assert options == options[..n] + [options[n]];
    }
  }

  lemma NewPollKeepsInv(db: Db, me: Sub, g: nat, p: PollDraft)
    requires Inv(db) && g in db.groups && PollError(p).None?
    ensures Inv(NewPoll(db, me, g, p))
    ensures db.nextPoll in NewPoll(db, me, g, p).polls && NewPoll(db, me, g, p).polls[db.nextPoll].groupId == g
  {
    hide RefsOk, HiddenOk, DmReadsOk, GroupReadsOk, RolesOk, CapacityOk, FriendsOk, CleanOptions;
    CleanOptionsAreClean(p.options);
    var t := NewPoll(db, me, g, p);
    assert MessagesOk(t.messages, t.nextMessage, t.groups, t.polls) by {
      assert forall id | id in db.messages :: MessageOk(db.messages, id, db.groups, db.polls);
    }
  }

  lemma SendGroupKeepsInv(db: Db, me: Sub, g: nat, d: Draft, poll: Option<PollDraft>, now: real)
    requires Inv(db)
    ensures Inv(SendGroup(db, me, g, d, poll, now).0)
  {
    hide Inv, PostGroup, AttachmentError, MentionErrorGroup, Attached, NewPoll, PollError, GroupMarker;
    if SendGroupError(db, me, g, d, poll).None? {
      if poll.Some? {
        NewPollKeepsInv(db, me, g, poll.value);
        NewPollFrame(db, me, g, poll.value);
        PostGroupKeepsInv(NewPoll(db, me, g, poll.value), g,
                          GroupMessage(me, g, d.content, PollCard, false, None, None, Some(db.nextPoll), now),
                          Elements(d.mentions));
      } else {
        if d.replyTo.Some? { ReplyShape(db, d.replyTo.value); }
        PostGroupKeepsInv(db, g, GroupMessage(me, g, d.content, d.contentType, false, Attached(db, d.attachment),
                                              d.replyTo, None, now), Elements(d.mentions));
      }
    }
  }

  lemma NewPollFrame(db: Db, me: Sub, g: nat, p: PollDraft)
    requires PollError(p).None?
    ensures var t := NewPoll(db, me, g, p);
      t.groups == db.groups && t.members == db.members && t.messages == db.messages && t.nextMessage == db.nextMessage
  {
  }

  lemma MarkReadKeepsInv(db: Db, me: Sub, other: Sub, id: nat)
    requires Inv(db)
    ensures Inv(MarkRead(db, me, other, id).0)
  {
    hide RefsOk, HiddenOk, GroupReadsOk, RolesOk, CapacityOk, PollsOk, FriendsOk, AreFriends, MessagesOk, DmReadsOk,
         Raise;
    if MarkRead(db, me, other, id).1 == Done {
      ReplyShape(db, id);
      ConversationsAreApart(db.messages[id], me, other);
      RaiseKeepsDmReads(db.messages, db.dmReads, (me, PairKey(me, other).0, PairKey(me, other).1), id);
    }
  }

  lemma MarkGroupReadKeepsInv(db: Db, me: Sub, g: nat, id: nat)
    requires Inv(db)
    ensures Inv(MarkGroupRead(db, me, g, id).0)
  {
    hide RefsOk, HiddenOk, MessagesOk, DmReadsOk, RolesOk, CapacityOk, PollsOk, FriendsOk;
  }

  lemma HideKeepsInv(db: Db, me: Sub, at: Where, id: nat)
    requires Inv(db)
    ensures Inv(HideMessage(db, me, at, id).0)
  {
    hide RefsOk, DmReadsOk, GroupReadsOk, RolesOk, CapacityOk, PollsOk, FriendsOk, MessageOk;
  }

  /** Rewriting content and times leaves a message where it is. */
  predicate SamePlace(m: Message, n: Message) {
    && m.sender == n.sender && m.recipient == n.recipient && m.lo == n.lo && m.hi == n.hi && m.kind == n.kind
    && m.groupId == n.groupId && m.replyTo == n.replyTo && m.contentType == n.contentType && m.pollId == n.pollId
  }

  lemma RewriteKeepsMessages(db: Db, id: nat, m: Message)
    requires MessagesOk(db.messages, db.nextMessage, db.groups, db.polls) && id in db.messages
              && SamePlace(m, db.messages[id])
    ensures MessagesOk(db.messages[id := m], db.nextMessage, db.groups, db.polls)
  {
    var next := db.messages[id := m];
    forall i | i in next
      ensures 1 <= i < db.nextMessage && MessageOk(next, i, db.groups, db.polls)
    {
      assert MessageOk(db.messages, i, db.groups, db.polls);
    }
  }

  lemma RewriteKeepsCursors(db: Db, id: nat, m: Message)
    requires id in db.messages && SamePlace(m, db.messages[id])
    requires forall k | k in db.dmReads :: DmCursorOk(db.messages, k, db.dmReads[k])
    ensures forall k | k in db.dmReads :: DmCursorOk(db.messages[id := m], k, db.dmReads[k])
  {
  }

  lemma RewriteKeepsDmReads(db: Db, id: nat, m: Message)
    requires id in db.messages && SamePlace(m, db.messages[id]) && DmReadsOk(db.messages, db.dmReads)
    ensures DmReadsOk(db.messages[id := m], db.dmReads)
  {
    hide DmCursorOk;
    RewriteKeepsCursors(db, id, m);
    var messages := db.messages[id := m];
    forall i | i in messages && messages[i].kind == Dm ensures CursorCovers(db.dmReads, messages[i], i) {
      assert CursorCovers(db.dmReads, db.messages[i], i);
    }
  }

  lemma RewriteKeepsGroupReads(db: Db, id: nat, m: Message)
    requires id in db.messages && SamePlace(m, db.messages[id]) && GroupReadsOk(db.messages, db.groupReads, db.members)
    ensures GroupReadsOk(db.messages[id := m], db.groupReads, db.members)
  {
  }

  lemma RewriteKeepsRefs(db: Db, id: nat, m: Message)
    requires id in db.messages && RefsOk(db.messages, db.mentions, db.reactions, db.stars)
    ensures RefsOk(db.messages[id := m], db.mentions, db.reactions, db.stars)
  {
  }

  lemma RewriteKeepsInv(db: Db, id: nat, m: Message)
    requires Inv(db) && id in db.messages && SamePlace(m, db.messages[id])
    ensures Inv(db.(messages := db.messages[id := m]))
  {
    hide RefsOk, HiddenOk, DmReadsOk, GroupReadsOk, RolesOk, CapacityOk, PollsOk, FriendsOk, MessagesOk;
    RewriteKeepsMessages(db, id, m);
    RewriteKeepsDmReads(db, id, m);
    RewriteKeepsGroupReads(db, id, m);
    RewriteKeepsRefs(db, id, m);
  }

  lemma EditKeepsInv(db: Db, me: Sub, at: Where, id: nat, content: string, now: real)
    requires Inv(db)
    ensures Inv(EditMessage(db, me, at, id, content, now).0)
    ensures Inv(WithdrawMessage(db, me, at, id, now).0)
  {
    hide Inv;
    if EditError(db, me, at, id, now).None? {
      RewriteKeepsInv(db, id, db.messages[id].(content := content, editedAt := Some(now)));
      RewriteKeepsInv(db, id, db.messages[id].(content := "", deletedAt := Some(now)));
    }
  }

  lemma ReactKeepsInv(db: Db, me: Sub, at: Where, id: nat, emoji: string, add: bool)
    requires Inv(db)
    ensures Inv(SetReaction(db, me, at, id, emoji, add).0)
  {
    hide MessagesOk, HiddenOk, DmReadsOk, GroupReadsOk, RolesOk, CapacityOk, PollsOk, FriendsOk;
  }

  lemma StarKeepsInv(db: Db, me: Sub, id: nat, starred: bool)
    requires Inv(db)
    ensures Inv(SetStar(db, me, id, starred).0)
  {
    hide MessagesOk, HiddenOk, DmReadsOk, GroupReadsOk, RolesOk, CapacityOk, PollsOk, FriendsOk, CanView;
  }

  lemma VoteKeepsInv(db: Db, me: Sub, g: nat, p: nat, indexes: seq<int>)
    requires Inv(db)
    ensures Inv(Vote(db, me, g, p, indexes).0)
  {
    hide MessagesOk, HiddenOk, DmReadsOk, GroupReadsOk, RolesOk, CapacityOk, RefsOk, FriendsOk;
  }

  lemma ClosePollKeepsInv(db: Db, me: Sub, g: nat, p: nat)
    requires Inv(db)
    ensures Inv(ClosePoll(db, me, g, p).0)
  {
    hide HiddenOk, DmReadsOk, GroupReadsOk, RolesOk, CapacityOk, RefsOk, FriendsOk;
    var t := ClosePoll(db, me, g, p).0;
    assert MessagesOk(t.messages, t.nextMessage, t.groups, t.polls) by {
      assert forall id | id in db.messages :: MessageOk(db.messages, id, db.groups, db.polls);
    }
  }

  lemma SettingKeepsInv(db: Db, me: Sub, kind: SettingKind, key: string,
                        pinned: Option<bool>, muted: Option<bool>, archived: Option<bool>)
    requires Inv(db)
    ensures Inv(SetSetting(db, me, kind, key, pinned, muted, archived).0)
  {
    hide MessagesOk, HiddenOk, DmReadsOk, GroupReadsOk, RolesOk, CapacityOk, RefsOk, FriendsOk, PollsOk, SettingError;
  }
}
