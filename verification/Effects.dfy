/** What a successful call changes, told row by row, and what it leaves alone
    (app/friends, app/groups, app/messages, app/polls: service.py). */
module Effects {
  import opened Prelude
  import opened Text
  import opened Store
  import opened Friends
  import opened Groups
  import opened Messages
  import opened MessagesInv
  import opened Runs
  import opened Permissions

  // ---------------------------------------------------------------------------------------------
  // Changes of one table

  /** Afterwards the row is there, and every other row is as before. */
  predicate Puts<K(==), V(==)>(before: map<K, V>, after: map<K, V>, k: K) {
    k in after && after - {k} == before - {k}
  }

  /** The cursor is the larger of the id and its old value. */
  predicate Reaches<K(==)>(before: map<K, nat>, after: map<K, nat>, k: K, id: nat) {
    Puts(before, after, k) && after[k] == if k in before && before[k] > id then before[k] else id
  }

  /** Exactly the users join, as plain members who may speak; everybody else's row is as before. */
  ghost predicate Join(before: map<(nat, Sub), MemberRow>, after: map<(nat, Sub), MemberRow>, g: nat, subs: seq<Sub>) {
    && (forall k | k in before :: k in after && after[k] == before[k])
    && (forall u | u in subs :: (g, u) in after)
    && (forall k | k in after && k !in before :: k.0 == g && k.1 in subs && after[k] == MemberRow(Member, false))
  }

  /** Whoever leaves is no member any more, and their cursor and setting for the group go with the row. */
  predicate Departs(db: Db, t: Db, g: nat, u: Sub) {
    && t.members == db.members - {(g, u)}
    && t.groupReads == db.groupReads - {(u, g)}
    && t.settings == db.settings - {(u, GroupSetting, Decimal(g))}
  }

  /** A new message of the caller under an id that no message had. */
  ghost predicate Writes(db: Db, t: Db, me: Sub, now: real, reply: Reply) {
    && reply == Created(db.nextMessage) && db.nextMessage !in db.messages
    && Puts(db.messages, t.messages, db.nextMessage) && t.nextMessage == db.nextMessage + 1
    && var m := t.messages[db.nextMessage];
       m.sender == me && m.createdAt == now && m.editedAt.None? && m.deletedAt.None?
  }

  predicate Says(m: Message, d: Draft) {
    m.content == d.content && m.contentType == d.contentType && !m.forwarded && m.replyTo == d.replyTo
  }

  predicate Copies(m: Message, src: Message) {
    && m.content == src.content && m.contentType == src.contentType && m.attachment == src.attachment
    && m.forwarded && m.replyTo.None? && m.pollId.None?
  }

  predicate CarriesUpload(db: Db, m: Message, url: Option<string>) {
    match url
    case None => m.attachment.None?
    case Some(u) =>
      u in db.uploads && m.attachment == Some(Attachment(db.uploads[u].name, db.uploads[u].size, db.uploads[u].mime, u))
  }

  predicate Mentions(db: Db, t: Db, id: nat, subs: seq<Sub>) {
    && (forall r | r in db.mentions :: r in t.mentions)
    && (forall u | u in subs :: (id, u) in t.mentions)
    && (forall r | r in t.mentions && r !in db.mentions :: r.0 == id && r.1 in subs)
  }

  /** An open poll with the stripped question and the different stripped options in the order in which
      they were first given. */
  ghost predicate PollIs(poll: Poll, g: nat, me: Sub, p: PollDraft) {
    && poll.groupId == g && poll.creator == me && poll.question == Strip(p.question)
    && poll.multiple == p.multiple && !poll.closed
    && Elements(poll.options) == Stripped(p.options)
    && (forall i, j | 0 <= i < j < |poll.options| :: poll.options[i] != poll.options[j])
    && FirstGivenFirst(poll.options, p.options)
  }

  /** Wherever an option is given, all that stand before it in the list were given earlier. */
  ghost predicate FirstGivenFirst(list: seq<string>, given: seq<string>) {
    forall i, j, k | 0 <= i < j < |list| && 0 <= k < |given| && Strip(given[k]) == list[j] ::
      GivenBefore(given, k, list[i])
  }

  ghost predicate GivenBefore(given: seq<string>, k: nat, option: string) {
    exists l :: 0 <= l < k && l < |given| && Strip(given[l]) == option
  }

  predicate Flags(row: Setting, was: Setting, pinned: Option<bool>, muted: Option<bool>, archived: Option<bool>) {
    && (if pinned.Some? then row.pinned == pinned.value else row.pinned == was.pinned)
    && (if muted.Some? then row.muted == muted.value else row.muted == was.muted)
    && (if archived.Some? then row.archived == archived.value else row.archived == was.archived)
  }

  // ---------------------------------------------------------------------------------------------
  // The effect of each call

  ghost predicate PeopleEffect(db: Db, me: Sub, c: Call, t: Db) {
    match c
    case AddUser => t.users == db.users + {me}
    case AddUpload(url, name, size, mime) =>
      Puts(db.uploads, t.uploads, url) && url !in db.uploads && t.uploads[url] == Upload(me, name, size, mime)
    case RequestFriend(to, reason) =>
      && Puts(db.friendships, t.friendships, (me, to)) && Pending(t.friendships, me, to)
      && t.friendships[(me, to)].reason == if Strip(reason) == [] then None else Some(Strip(reason))
    case Accept(asker) =>
      && Pending(db.friendships, asker, me) && Puts(db.friendships, t.friendships, (asker, me))
      && t.friendships[(asker, me)] == Friendship(true, db.friendships[(asker, me)].reason)
    case Refuse(asker) =>
      Pending(db.friendships, asker, me) && t.friendships == db.friendships - {(asker, me)}
    case Unfriend(other) => t.friendships == db.friendships - {(me, other), (other, me)}
    case _ => true
  }

  ghost predicate GroupEffect(db: Db, me: Sub, c: Call, t: Db, reply: Reply) {
    match c
    case NewGroup(name, invitees) =>
      var g := db.nextGroup;
      && reply == Created(g) && g !in db.groups && t.nextGroup == g + 1
      && Puts(db.groups, t.groups, g) && t.groups[g] == Group(Strip(name), me)
      && (forall u :: (g, u) !in db.members)
      && Join(db.members[(g, me) := MemberRow(Owner, false)], t.members, g, invitees)
    case Invite(g, invitees) => Join(db.members, t.members, g, invitees)
    case Remove(g, target) => Departs(db, t, g, target)
    case Leave(g) => Departs(db, t, g, me)
    case SetRole(g, target, role) =>
      && (g, target) in db.members && Puts(db.members, t.members, (g, target))
      && t.members[(g, target)] == MemberRow(role, db.members[(g, target)].muted)
    case Mute(g, target, on) =>
      && (g, target) in db.members && Puts(db.members, t.members, (g, target))
      && t.members[(g, target)] == MemberRow(Member, on)
    case Transfer(g, target) =>
      && g in db.groups && (g, me) in db.members && (g, target) in db.members
      && t.groups == db.groups[g := Group(db.groups[g].name, target)] && t.nextGroup == db.nextGroup
      && (g, target) in t.members && t.members[(g, target)] == MemberRow(Owner, db.members[(g, target)].muted)
      && (me != target ==>
            (g, me) in t.members && t.members[(g, me)] == MemberRow(Member, db.members[(g, me)].muted))
      && t.members - {(g, me), (g, target)} == db.members - {(g, me), (g, target)}
    case Dissolve(g) =>
      NothingNew(t, db) && NoTrace(t, db, g) && RestUntouched(t, db, g) && OtherSettingsUntouched(t, db, g)
    case _ => true
  }

  ghost predicate SendToEffect(db: Db, me: Sub, g: nat, d: Draft, poll: Option<PollDraft>, now: real, t: Db,
                               reply: Reply)
  {
    && Writes(db, t, me, now, reply)
    && var m := t.messages[reply.id];
    && InGroup(m, g) && Says(m, d) && CarriesUpload(db, m, d.attachment) && Mentions(db, t, reply.id, d.mentions)
    && Puts(db.groupReads, t.groupReads, (me, g)) && t.groupReads[(me, g)] == reply.id
    && match poll
       case None => m.pollId.None? && t.polls == db.polls && t.nextPoll == db.nextPoll
       case Some(p) =>
         && m.pollId == Some(db.nextPoll) && db.nextPoll !in db.polls && t.nextPoll == db.nextPoll + 1
         && Puts(db.polls, t.polls, db.nextPoll) && PollIs(t.polls[db.nextPoll], g, me, p)
  }

  ghost predicate SendEffect(db: Db, me: Sub, c: Call, now: real, t: Db, reply: Reply) {
    match c
    case Send(other, d) =>
      && Writes(db, t, me, now, reply)
      && var m := t.messages[reply.id];
      && Between(m, me, other) && m.recipient == other && Says(m, d) && m.pollId.None?
      && CarriesUpload(db, m, d.attachment) && Mentions(db, t, reply.id, d.mentions)
      && Puts(db.dmReads, t.dmReads, OwnCursor(m)) && t.dmReads[OwnCursor(m)] == reply.id
    case SendTo(g, d, poll) => SendToEffect(db, me, g, d, poll, now, t, reply)
    case ForwardTo(id, dest) =>
      && Writes(db, t, me, now, reply)
      && var m := t.messages[reply.id];
      && id in db.messages && Copies(m, db.messages[id])
      && (match dest
          case With(other) =>
            && Between(m, me, other) && t.groupReads == db.groupReads
            && Puts(db.dmReads, t.dmReads, OwnCursor(m)) && t.dmReads[OwnCursor(m)] == reply.id
          case In(g) =>
            && InGroup(m, g) && t.dmReads == db.dmReads
            && Puts(db.groupReads, t.groupReads, (me, g)) && t.groupReads[(me, g)] == reply.id)
    case _ => true
  }

  ghost predicate MessageEffect(db: Db, me: Sub, c: Call, now: real, t: Db) {
    match c
    case Read(other, id) => Reaches(db.dmReads, t.dmReads, (me, PairKey(me, other).0, PairKey(me, other).1), id)
    case ReadGroup(g, id) => Reaches(db.groupReads, t.groupReads, (me, g), id)
    case Hide(_, id) => t.hidden == db.hidden + {(me, id)}
    case Edit(_, id, content) =>
      && id in db.messages && Puts(db.messages, t.messages, id) && t.nextMessage == db.nextMessage
      && t.messages[id] == db.messages[id].(content := content, editedAt := Some(now))
    case Withdraw(_, id) =>
      && id in db.messages && Puts(db.messages, t.messages, id) && t.nextMessage == db.nextMessage
      && t.messages[id] == db.messages[id].(content := [], deletedAt := Some(now))
    case React(_, id, emoji, add) =>
      ((id, me, emoji) in t.reactions <==> add) && t.reactions - {(id, me, emoji)} == db.reactions - {(id, me, emoji)}
    case Star(id, starred) => ((me, id) in t.stars <==> starred) && t.stars - {(me, id)} == db.stars - {(me, id)}
    case Cast(_, p, indexes) =>
      Puts(db.votes, t.votes, (p, me)) && forall i :: i in t.votes[(p, me)] <==> i in indexes
    case Close(_, p) =>
      && p in db.polls && Puts(db.polls, t.polls, p) && t.polls[p] == db.polls[p].(closed := true)
      && t.nextPoll == db.nextPoll
    case Configure(kind, key, pinned, muted, archived) =>
      var was := if (me, kind, key) in db.settings then db.settings[(me, kind, key)] else Setting(false, false, false);
      Puts(db.settings, t.settings, (me, kind, key)) && Flags(t.settings[(me, kind, key)], was, pinned, muted, archived)
    case _ => true
  }

  /** Each table is changed by a few kinds of call only. */
  ghost predicate OnlyByItsCalls(db: Db, t: Db, c: Call) {
    && (t.users != db.users ==> c.AddUser?)
    && (t.uploads != db.uploads ==> c.AddUpload?)
    && (t.friendships != db.friendships ==> c.RequestFriend? || c.Accept? || c.Refuse? || c.Unfriend?)
    && ((t.messages, t.nextMessage) != (db.messages, db.nextMessage) ==>
          c.Send? || c.SendTo? || c.ForwardTo? || c.Edit? || c.Withdraw? || c.Dissolve?)
    && (t.hidden != db.hidden ==> c.Hide?)
    && (t.dmReads != db.dmReads ==> c.Send? || c.ForwardTo? || c.Read?)
    && ((t.groups, t.nextGroup) != (db.groups, db.nextGroup) ==> c.NewGroup? || c.Transfer? || c.Dissolve?)
    && (t.members != db.members ==> OnGroups(c))
    && (t.groupReads != db.groupReads ==>
          c.SendTo? || c.ForwardTo? || c.ReadGroup? || c.Remove? || c.Leave? || c.Dissolve?)
    && ((t.polls, t.nextPoll) != (db.polls, db.nextPoll) ==> c.SendTo? || c.Close? || c.Dissolve?)
    && (t.votes != db.votes ==> c.Cast? || c.Dissolve?)
    && (t.reactions != db.reactions ==> c.React? || c.Dissolve?)
    && (t.stars != db.stars ==> c.Star? || c.Dissolve?)
    && (t.mentions != db.mentions ==> c.Send? || c.SendTo? || c.Dissolve?)
    && (t.settings != db.settings ==> c.Configure? || c.Remove? || c.Leave? || c.Dissolve?)
  }

  // ---------------------------------------------------------------------------------------------
  // Friends and groups

  /** The effect and the tables touched, for a call that succeeded. */
  ghost predicate Does(db: Db, me: Sub, c: Call, now: real, r: (Db, Reply)) {
    r.1.Fail? ||
    (&& PeopleEffect(db, me, c, r.0) && GroupEffect(db, me, c, r.0, r.1) && SendEffect(db, me, c, now, r.0, r.1)
     && MessageEffect(db, me, c, now, r.0) && OnlyByItsCalls(db, r.0, c))
  }

  lemma StoringPuts<K, V>(rows: map<K, V>, k: K, v: V)
    ensures Puts(rows, rows[k := v], k) && rows[k := v][k] == v
  {
    assert rows[k := v] - {k} == rows - {k};
  }

  lemma RaisingReaches<K>(cursors: map<K, nat>, k: K, id: nat)
    ensures Reaches(cursors, Raise(cursors, k, id), k, id)
    ensures (forall j | j in cursors :: cursors[j] < id) ==> Raise(cursors, k, id)[k] == id
  {
    StoringPuts(cursors, k, id);
  }

  lemma RequestDoes(db: Db, me: Sub, to: Sub, reason: string, now: real)
    ensures Does(db, me, RequestFriend(to, reason), now, SendRequest(db, me, to, reason))
  {
    hide Strip;
  }

  lemma AnswersDo(db: Db, me: Sub, asker: Sub, now: real)
    ensures Does(db, me, Accept(asker), now, AcceptRequest(db, me, asker))
    ensures Does(db, me, Refuse(asker), now, RejectRequest(db, me, asker))
  {
  }

  lemma NoRowOfPairLeft(rows: map<(Sub, Sub), Friendship>, a: Sub, b: Sub)
    requires !((a, b) in rows && (b, a) in rows)
    ensures match PairRow(rows, a, b)
            case None => rows == rows - {(a, b), (b, a)}
            case Some(k) => rows - {k} == rows - {(a, b), (b, a)}
  {
  }

  lemma UnfriendTouches(db: Db, me: Sub, other: Sub)
    ensures OnlyByItsCalls(db, RemoveRelationship(db, me, other).0, Unfriend(other))
    ensures RemoveRelationship(db, me, other).1 == Done
    ensures RemoveRelationship(db, me, other).0.friendships ==
              match PairRow(db.friendships, me, other)
              case None => db.friendships
              case Some(row) => db.friendships - {row}
  {
    hide PairRow, Quiet;
  }

  lemma UnfriendDoes(db: Db, me: Sub, other: Sub, now: real)
    requires Inv(db)
    ensures Does(db, me, Unfriend(other), now, RemoveRelationship(db, me, other))
  {
    PairRowIsUnique(db, me, other);
    PairRowIsUnique(db, other, me);
    NoRowOfPairLeft(db.friendships, me, other);
    hide Inv, PairRow, RemoveRelationship, OnlyByItsCalls, Quiet;
    UnfriendTouches(db, me, other);
  }

  lemma EnrolJoins(members: map<(nat, Sub), MemberRow>, g: nat, subs: seq<Sub>)
    ensures Join(members, Enrol(members, g, Elements(subs)), g, subs)
  {
    var after := Enrol(members, g, Elements(subs));
    forall u | u in subs ensures (g, u) in after { assert (g, u) in NewRows(g, Elements(subs)); }
  }

  lemma CreateTouches(db: Db, me: Sub, name: string, invitees: seq<Sub>)
    requires CreateGroup(db, me, name, invitees).1.Created?
    ensures OnlyByItsCalls(db, CreateGroup(db, me, name, invitees).0, NewGroup(name, invitees))
  {
    hide InviteError, Strip, Enrol, Elements, OnlyByItsCalls;
    var t := CreateGroup(db, me, name, invitees).0;
    GroupTablesOnly(db, t.groups, t.nextGroup, t.members, NewGroup(name, invitees));
  }

  lemma GroupTablesOnly(db: Db, groups: map<nat, Group>, next: nat, members: map<(nat, Sub), MemberRow>, c: Call)
    requires c.NewGroup?
    ensures OnlyByItsCalls(db, db.(groups := groups, nextGroup := next, members := members), c)
  {
  }

  lemma CreateMakesGroup(db: Db, me: Sub, name: string, invitees: seq<Sub>)
    requires Inv(db) && CreateGroup(db, me, name, invitees).1.Created?
    ensures var (t, reply) := CreateGroup(db, me, name, invitees);
      GroupEffect(db, me, NewGroup(name, invitees), t, reply)
  {
    NextGroupIsFree(db);
    hide Inv, InviteError, Strip, Enrol, Join, Puts;
    StoringPuts(db.groups, db.nextGroup, Group(Strip(name), me));
    EnrolJoins(db.members[(db.nextGroup, me) := MemberRow(Owner, false)], db.nextGroup, invitees);
  }

  lemma CreateDoes(db: Db, me: Sub, name: string, invitees: seq<Sub>, now: real)
    requires Inv(db)
    ensures Does(db, me, NewGroup(name, invitees), now, CreateGroup(db, me, name, invitees))
  {
    hide Inv, GroupEffect, OnlyByItsCalls;
    CreateReplies(db, me, name, invitees);
    hide CreateGroup;
    if CreateGroup(db, me, name, invitees).1.Created? {
      CreateMakesGroup(db, me, name, invitees);
      CreateTouches(db, me, name, invitees);
    }
  }

  lemma CreateReplies(db: Db, me: Sub, name: string, invitees: seq<Sub>)
    ensures CreateGroup(db, me, name, invitees).1 != Done
  {
    hide InviteError, Strip, Enrol, Elements;
  }

  lemma NextGroupIsFree(db: Db)
    requires Inv(db)
    ensures db.nextGroup !in db.groups && forall u :: (db.nextGroup, u) !in db.members
  {
    hide MessagesOk, RefsOk, HiddenOk, DmReadsOk, GroupReadsOk, CapacityOk, PollsOk, FriendsOk;
  }

  lemma InviteDoes(db: Db, me: Sub, g: nat, invitees: seq<Sub>, now: real)
    ensures Does(db, me, Invite(g, invitees), now, AddMembers(db, me, g, invitees))
  {
    hide InviteError, Enrol, Join, MemberRows, NewRows;
    EnrolJoins(db.members, g, invitees);
  }

  lemma DeparturesDo(db: Db, me: Sub, g: nat, target: Sub, now: real)
    ensures Does(db, me, Remove(g, target), now, RemoveMember(db, me, g, target))
    ensures Does(db, me, Leave(g), now, LeaveGroup(db, me, g))
  {
  }

  lemma SetRoleDoes(db: Db, me: Sub, g: nat, target: Sub, role: Role, now: real)
    ensures Does(db, me, SetRole(g, target, role), now, SetMemberRole(db, me, g, target, role))
  {
    hide RequireRole;
  }

  lemma MuteDoes(db: Db, me: Sub, g: nat, target: Sub, on: bool, now: real)
    ensures Does(db, me, Mute(g, target, on), now, SetMemberMute(db, me, g, target, on))
  {
    hide RequireRole;
  }

  lemma TransferDoes(db: Db, me: Sub, g: nat, target: Sub, now: real)
    ensures Does(db, me, Transfer(g, target), now, TransferOwnership(db, me, g, target))
  {
  }

  lemma DissolveTouches(db: Db, t: Db, g: nat)
    requires RestUntouched(t, db, g)
    ensures OnlyByItsCalls(db, t, Dissolve(g))
  {
  }

  lemma DissolveDoes(db: Db, me: Sub, g: nat, now: real)
    ensures Does(db, me, Dissolve(g), now, DissolveGroup(db, me, g))
  {
    hide NoTrace, RestUntouched, OtherSettingsUntouched, NothingNew, OnlyByItsCalls, WithoutGroup;
    if DissolveGroup(db, me, g).1 == Done {
      DissolveRemovesExactlyGroup(db, me, g);
      DissolveTouches(db, DissolveGroup(db, me, g).0, g);
    }
  }

  /** Who leaves is no member any more; their cursor and setting go, nothing else does. */
  lemma LeaverIsGone(db: Db, me: Sub, g: nat)
    requires LeaveGroup(db, me, g).1 == Done
    ensures var t := LeaveGroup(db, me, g).0;
      && t == db.(members := t.members, groupReads := t.groupReads, settings := t.settings)
      && Departs(db, t, g, me) && (g, me) !in t.members
  {
    hide Quiet;
  }

  /** The same for who is removed, while the remover stays. */
  lemma RemovedIsGone(db: Db, me: Sub, g: nat, target: Sub)
    requires RemoveMember(db, me, g, target).1 == Done
    ensures var t := RemoveMember(db, me, g, target).0;
      && t == db.(members := t.members, groupReads := t.groupReads, settings := t.settings)
      && Departs(db, t, g, target) && (g, target) !in t.members && (g, me) in t.members
  {
    hide Quiet;
  }

  // ---------------------------------------------------------------------------------------------
  // Messages

  lemma NextIdsAreFree(db: Db)
    requires Inv(db)
    ensures db.nextMessage !in db.messages && db.nextPoll !in db.polls
    ensures forall k | k in db.dmReads :: db.dmReads[k] < db.nextMessage
    ensures forall k | k in db.groupReads :: db.groupReads[k] < db.nextMessage
  {
    hide RefsOk, HiddenOk, CapacityOk, FriendsOk, RolesOk, MessageOk;
  }

  lemma MentionRows(db: Db, t: Db, id: nat, subs: seq<Sub>)
    requires t.mentions == db.mentions + NewRows(id, Elements(subs))
    ensures Mentions(db, t, id, subs)
    ensures subs == [] ==> t.mentions == db.mentions
  {
    forall u | u in subs ensures (id, u) in t.mentions { assert u in Elements(subs); }
  }

  lemma NewRowIsWritten(db: Db, t: Db, m: Message)
    requires Inv(db)
    requires t.messages == db.messages[db.nextMessage := m] && t.nextMessage == db.nextMessage + 1
    ensures m.editedAt.None? && m.deletedAt.None? ==> Writes(db, t, m.sender, m.createdAt, Created(db.nextMessage))
  {
    NextIdsAreFree(db);
    hide Inv;
    StoringPuts(db.messages, db.nextMessage, m);
  }

  lemma PostDmWrites(db: Db, m: Message, mentions: seq<Sub>)
    requires Inv(db)
    ensures var t := PostDm(db, m, Elements(mentions));
      && t == db.(messages := t.messages, nextMessage := t.nextMessage, mentions := t.mentions, dmReads := t.dmReads)
      && db.nextMessage in t.messages && t.messages[db.nextMessage] == m
      && (m.editedAt.None? && m.deletedAt.None? ==> Writes(db, t, m.sender, m.createdAt, Created(db.nextMessage)))
      && Mentions(db, t, db.nextMessage, mentions) && (mentions == [] ==> t.mentions == db.mentions)
      && Puts(db.dmReads, t.dmReads, OwnCursor(m)) && t.dmReads[OwnCursor(m)] == db.nextMessage
  {
    NextIdsAreFree(db);
    NewRowIsWritten(db, PostDm(db, m, Elements(mentions)), m);
    RaisingReaches(db.dmReads, OwnCursor(m), db.nextMessage);
    MentionRows(db, PostDm(db, m, Elements(mentions)), db.nextMessage, mentions);
    hide Inv, Raise, NewRows, Elements, Mentions, OwnCursor, Puts, Writes;
  }

  lemma PostGroupWrites(db: Db, g: nat, m: Message, mentions: seq<Sub>)
    requires Inv(db)
    ensures var t := PostGroup(db, g, m, Elements(mentions));
      && t == db.(messages := t.messages, nextMessage := t.nextMessage, mentions := t.mentions,
                  groupReads := t.groupReads)
      && db.nextMessage in t.messages && t.messages[db.nextMessage] == m
      && (m.editedAt.None? && m.deletedAt.None? ==> Writes(db, t, m.sender, m.createdAt, Created(db.nextMessage)))
      && Mentions(db, t, db.nextMessage, mentions) && (mentions == [] ==> t.mentions == db.mentions)
      && Puts(db.groupReads, t.groupReads, (m.sender, g)) && t.groupReads[(m.sender, g)] == db.nextMessage
  {
    NextIdsAreFree(db);
    NewRowIsWritten(db, PostGroup(db, g, m, Elements(mentions)), m);
    RaisingReaches(db.groupReads, (m.sender, g), db.nextMessage);
    MentionRows(db, PostGroup(db, g, m, Elements(mentions)), db.nextMessage, mentions);
    hide Inv, Raise, NewRows, Elements, Mentions, Puts, Writes;
  }

  lemma UploadIsCarried(db: Db, me: Sub, contentType: ContentType, url: Option<string>, m: Message)
    requires AttachmentError(db, me, contentType, url).None? && m.attachment == Attached(db, url)
    ensures CarriesUpload(db, m, url)
  {
  }

  lemma CheckedDm(db: Db, me: Sub, other: Sub, d: Draft)
    requires SendDmError(db, me, other, d).None?
    ensures me != other && AttachmentError(db, me, d.contentType, d.attachment).None?
  {
    hide AreFriends, ReplyErrorDm, MentionErrorDm, AttachmentError;
  }

  lemma SendDoes(db: Db, me: Sub, other: Sub, d: Draft, now: real)
    requires Inv(db)
    ensures Does(db, me, Send(other, d), now, SendDm(db, me, other, d, now))
  {
    hide Inv, SendDmError, PostDm, Mentions, Puts, Writes, CarriesUpload, Attached, AttachmentError, OwnCursor,
         Elements, PairKey, PeopleEffect, GroupEffect, MessageEffect;
    NoOtherEffect(db, me, Send(other, d), now, SendDm(db, me, other, d, now));
    if SendDmError(db, me, other, d).None? {
      var m := DirectMessage(me, other, d.content, d.contentType, false, Attached(db, d.attachment), d.replyTo, now);
      CheckedDm(db, me, other, d);
      PostDmWrites(db, m, d.mentions);
      UploadIsCarried(db, me, d.contentType, d.attachment, m);
    }
  }

  lemma NoOtherEffect(db: Db, me: Sub, c: Call, now: real, r: (Db, Reply))
    ensures c.Send? || c.SendTo? || c.ForwardTo? ==>
              PeopleEffect(db, me, c, r.0) && GroupEffect(db, me, c, r.0, r.1) && MessageEffect(db, me, c, now, r.0)
  {
  }

  lemma CheckedForward(db: Db, me: Sub, id: nat, to: Where)
    requires ForwardError(db, me, id, to).None?
    ensures id in db.messages && (to.With? ==> to.other != me)
  {
    hide AreFriends, CanView;
  }

  lemma ForwardDoes(db: Db, me: Sub, id: nat, to: Where, now: real)
    requires Inv(db)
    ensures Does(db, me, ForwardTo(id, to), now, Forward(db, me, id, to, now))
  {
    hide Inv, ForwardError, PostDm, PostGroup, Mentions, Puts, Writes, OwnCursor, Elements, PairKey, GroupMarker,
         PeopleEffect, GroupEffect, MessageEffect;
    NoOtherEffect(db, me, ForwardTo(id, to), now, Forward(db, me, id, to, now));
    if ForwardError(db, me, id, to).None? {
      CheckedForward(db, me, id, to);
      NobodyMentioned();
      var src := db.messages[id];
      match to {
        case With(other) =>
          var m := DirectMessage(me, other, src.content, src.contentType, true, src.attachment, None, now);
          PostDmWrites(db, m, []);
        case In(g) =>
          var m := GroupMessage(me, g, src.content, src.contentType, true, src.attachment, None, None, now);
          PostGroupWrites(db, g, m, []);
      }
    }
  }

  lemma NobodyMentioned()
    ensures Elements<Sub>([]) == {}
  {
  }

  /** One more option given at the end: it is new and goes last, or it was given before. */
  lemma OneMoreGiven(list: seq<string>, given: seq<string>, last: string)
    requires FirstGivenFirst(list, given) && Elements(list) == Stripped(given)
    ensures FirstGivenFirst(list, given + [last])
    ensures Strip(last) !in list ==> FirstGivenFirst(list + [Strip(last)], given + [last])
  {
    hide Strip;
    var more := given + [last];
    forall i | 0 <= i < |list| ensures GivenBefore(more, |given|, list[i]) {
      assert list[i] in Elements(list);
      var o :| o in given && Strip(o) == list[i];
      var l :| 0 <= l < |given| && given[l] == o;
      assert more[l] == given[l];
    }
    forall i, j, k | 0 <= i < j < |list| && 0 <= k < |given| && Strip(given[k]) == list[j]
      ensures GivenBefore(more, k, list[i])
    {
      assert GivenBefore(given, k, list[i]);
      var l :| 0 <= l < k && Strip(given[l]) == list[i];
      assert more[l] == given[l];
    }
    if Strip(last) !in list {
      forall k | 0 <= k < |given| ensures Strip(given[k]) != Strip(last) {
        assert Strip(given[k]) in Elements(list);
      }
    }
  }

  lemma {:induction false} CleanedInOrder(options: seq<string>)
    requires CleanOptions(options).Some?
    ensures FirstGivenFirst(CleanOptions(options).value, options)
  {
    hide Strip, FirstGivenFirst, Stripped;
    if options == [] {
      NothingGiven();
    } else {
      var front, last := options[..|options| - 1], options[|options| - 1];
      CleanedInOrder(front);
      CleanedOptions(front);
      OneMoreGiven(CleanOptions(front).value, front, last);
      assert options == front + [last];
    }
  }

  lemma NothingGiven()
    ensures FirstGivenFirst([], [])
  {
  }

  lemma NewPollIs(db: Db, me: Sub, g: nat, p: PollDraft)
    requires PollError(p).None?
    ensures PollIs(NewPoll(db, me, g, p).polls[db.nextPoll], g, me, p)
  {
    CleanedOptions(p.options);
    CleanOptionsAreClean(p.options);
    CleanedInOrder(p.options);
    hide Strip, CleanOptions, FirstGivenFirst, Stripped;
  }

  lemma CheckedGroup(db: Db, me: Sub, g: nat, d: Draft, poll: Option<PollDraft>)
    requires SendGroupError(db, me, g, d, poll).None?
    ensures match poll
            case None => d.contentType != PollCard && AttachmentError(db, me, d.contentType, d.attachment).None?
            case Some(p) =>
              d.contentType == PollCard && d.attachment.None? && d.replyTo.None? && PollError(p).None?
    ensures g in db.groups
  {
    hide ReplyErrorGroup, MentionErrorGroup, AttachmentError, PollError;
  }

  lemma SendToDoes(db: Db, me: Sub, g: nat, d: Draft, poll: Option<PollDraft>, now: real)
    requires Inv(db)
    ensures Does(db, me, SendTo(g, d, poll), now, SendGroup(db, me, g, d, poll, now))
  {
    hide Inv, SendGroupError, PostGroup, Mentions, Puts, Writes, CarriesUpload, Attached, AttachmentError, Elements,
         GroupMarker, NewPoll, PollError, PollIs, PeopleEffect, GroupEffect, MessageEffect;
    NoOtherEffect(db, me, SendTo(g, d, poll), now, SendGroup(db, me, g, d, poll, now));
    if SendGroupError(db, me, g, d, poll).None? {
      CheckedGroup(db, me, g, d, poll);
      match poll {
        case None =>
          var m := GroupMessage(me, g, d.content, d.contentType, false, Attached(db, d.attachment), d.replyTo, None,
                                now);
          PostGroupWrites(db, g, m, d.mentions);
          UploadIsCarried(db, me, d.contentType, d.attachment, m);
        case Some(p) => SendPollDoes(db, me, g, d, p, now);
      }
    }
  }

  lemma SendPollIsPost(db: Db, me: Sub, g: nat, d: Draft, p: PollDraft, now: real) returns (base: Db, m: Message)
    requires SendGroupError(db, me, g, d, Some(p)).None?
    ensures PollError(p).None? && base == NewPoll(db, me, g, p)
    ensures InGroup(m, g) && Says(m, d) && CarriesUpload(db, m, d.attachment) && m.pollId == Some(db.nextPoll)
    ensures m.sender == me && m.createdAt == now && m.editedAt.None? && m.deletedAt.None?
    ensures SendGroup(db, me, g, d, Some(p), now)
              == (PostGroup(base, g, m, Elements(d.mentions)), Created(db.nextMessage))
  {
    CheckedGroup(db, me, g, d, Some(p));
    hide SendGroupError, PostGroup, NewPoll, PollError, GroupMarker;
    base := NewPoll(db, me, g, p);
    m := GroupMessage(me, g, d.content, PollCard, false, None, None, Some(db.nextPoll), now);
  }

  lemma PollPostWrites(db: Db, me: Sub, g: nat, p: PollDraft, m: Message, mentions: seq<Sub>)
    requires Inv(db) && g in db.groups && PollError(p).None? && m.editedAt.None? && m.deletedAt.None?
    ensures var t := PostGroup(NewPoll(db, me, g, p), g, m, Elements(mentions));
      && db.nextMessage in t.messages && t.messages[db.nextMessage] == m
      && Writes(db, t, m.sender, m.createdAt, Created(db.nextMessage)) && Mentions(db, t, db.nextMessage, mentions)
      && Puts(db.groupReads, t.groupReads, (m.sender, g)) && t.groupReads[(m.sender, g)] == db.nextMessage
      && t.nextPoll == db.nextPoll + 1
      && db.nextPoll !in db.polls && Puts(db.polls, t.polls, db.nextPoll) && PollIs(t.polls[db.nextPoll], g, me, p)
  {
    NewPollStands(db, me, g, p);
    hide Inv, PostGroup, Mentions, Puts, Writes, Elements, NewPoll, PollError, PollIs, OnlyByItsCalls;
    NewPollKeepsInv(db, me, g, p);
    var base := NewPoll(db, me, g, p);
    PostGroupWrites(base, g, m, mentions);
    SameFrom(db, base, PostGroup(base, g, m, Elements(mentions)), m.sender, m.createdAt, mentions);
  }

  lemma PollPostTouches(db: Db, me: Sub, g: nat, p: PollDraft, m: Message, mentions: seq<Sub>, c: Call)
    requires PollError(p).None? && c.SendTo?
    ensures OnlyByItsCalls(db, PostGroup(NewPoll(db, me, g, p), g, m, Elements(mentions)), c)
  {
    hide PollError, Raise, NewRows, Elements, Strip, CleanOptions;
  }

  lemma SendPollDoes(db: Db, me: Sub, g: nat, d: Draft, p: PollDraft, now: real)
    requires Inv(db) && SendGroupError(db, me, g, d, Some(p)).None?
    ensures var (t, reply) := SendGroup(db, me, g, d, Some(p), now);
      SendToEffect(db, me, g, d, Some(p), now, t, reply) && OnlyByItsCalls(db, t, SendTo(g, d, Some(p)))
  {
    CheckedGroup(db, me, g, d, Some(p));
    var base, m := SendPollIsPost(db, me, g, d, p, now);
    hide Inv, SendGroupError, SendGroup, PostGroup, Mentions, Puts, Writes, Elements, NewPoll, PollError, PollIs, Says,
         CarriesUpload, InGroup, OnlyByItsCalls;
    PollPostWrites(db, me, g, p, m, d.mentions);
    PollPostTouches(db, me, g, p, m, d.mentions, SendTo(g, d, Some(p)));
  }

  lemma NewPollStands(db: Db, me: Sub, g: nat, p: PollDraft)
    requires Inv(db) && PollError(p).None?
    ensures var base := NewPoll(db, me, g, p);
      && base == db.(polls := base.polls, nextPoll := db.nextPoll + 1)
      && db.nextPoll !in db.polls && Puts(db.polls, base.polls, db.nextPoll)
      && PollIs(base.polls[db.nextPoll], g, me, p)
  {
    NextIdsAreFree(db);
    NewPollIs(db, me, g, p);
    StoringPuts(db.polls, db.nextPoll, NewPoll(db, me, g, p).polls[db.nextPoll]);
    hide Inv, PollIs, Puts, Strip, CleanOptions;
  }

  lemma SameFrom(db: Db, base: Db, t: Db, me: Sub, now: real, mentions: seq<Sub>)
    requires base == db.(polls := base.polls, nextPoll := base.nextPoll)
    ensures Writes(base, t, me, now, Created(base.nextMessage)) ==> Writes(db, t, me, now, Created(db.nextMessage))
    ensures Mentions(base, t, base.nextMessage, mentions) ==> Mentions(db, t, db.nextMessage, mentions)
  {
  }

  lemma ReadDoes(db: Db, me: Sub, other: Sub, id: nat, now: real)
    ensures Does(db, me, Read(other, id), now, MarkRead(db, me, other, id))
  {
    RaisingReaches(db.dmReads, (me, PairKey(me, other).0, PairKey(me, other).1), id);
    hide AreFriends, InDm, Raise, Reaches, PairKey;
  }

  lemma ReadGroupDoes(db: Db, me: Sub, g: nat, id: nat, now: real)
    ensures Does(db, me, ReadGroup(g, id), now, MarkGroupRead(db, me, g, id))
  {
    RaisingReaches(db.groupReads, (me, g), id);
    hide InGroup, Raise, Reaches;
  }

  lemma EditDoes(db: Db, me: Sub, at: Where, id: nat, content: string, now: real)
    ensures Does(db, me, Edit(at, id, content), now, EditMessage(db, me, at, id, content, now))
  {
    hide InDm, InGroup;
  }

  lemma WithdrawDoes(db: Db, me: Sub, at: Where, id: nat, now: real)
    ensures Does(db, me, Withdraw(at, id), now, WithdrawMessage(db, me, at, id, now))
  {
    hide InDm, InGroup;
  }

  lemma HideDoes(db: Db, me: Sub, at: Where, id: nat, now: real)
    ensures Does(db, me, Hide(at, id), now, HideMessage(db, me, at, id))
  {
    hide InDm, InGroup;
  }

  lemma ReactDoes(db: Db, me: Sub, at: Where, id: nat, emoji: string, add: bool, now: real)
    ensures Does(db, me, React(at, id, emoji, add), now, SetReaction(db, me, at, id, emoji, add))
  {
    hide ReactError;
    var r := (id, me, emoji);
    assert ApplyReaction(db.reactions, id, me, emoji, add) - {r} == db.reactions - {r};
  }

  lemma StarDoes(db: Db, me: Sub, id: nat, starred: bool, now: real)
    ensures Does(db, me, Star(id, starred), now, SetStar(db, me, id, starred))
  {
    hide CanView;
    assert ApplyStar(db.stars, me, id, starred) - {(me, id)} == db.stars - {(me, id)};
  }

  lemma VoteDoes(db: Db, me: Sub, g: nat, p: nat, indexes: seq<int>, now: real)
    ensures Does(db, me, Cast(g, p, indexes), now, Vote(db, me, g, p, indexes))
  {
    StoringPuts(db.votes, (p, me), Elements(indexes));
    hide VoteError, Puts;
  }

  lemma CloseDoes(db: Db, me: Sub, g: nat, p: nat, now: real)
    ensures Does(db, me, Close(g, p), now, ClosePoll(db, me, g, p))
  {
    if p in db.polls { StoringPuts(db.polls, p, db.polls[p].(closed := true)); }
    hide Puts;
  }

  lemma ConfigureDoes(db: Db, me: Sub, kind: SettingKind, key: string, pinned: Option<bool>, muted: Option<bool>,
                      archived: Option<bool>, now: real)
    ensures Does(db, me, Configure(kind, key, pinned, muted, archived), now,
                 SetSetting(db, me, kind, key, pinned, muted, archived))
  {
    hide SettingError;
  }

  // ---------------------------------------------------------------------------------------------
  // Every call

  lemma SigningInDoes(db: Db, me: Sub, now: real)
    ensures Does(db, me, AddUser, now, (db.(users := db.users + {me}), Done))
  {
  }

  lemma UploadDoes(db: Db, me: Sub, url: string, name: string, size: nat, mime: string, now: real)
    ensures Does(db, me, AddUpload(url, name, size, mime), now,
                 if url in db.uploads then (db, Fail(409))
                 else (db.(uploads := db.uploads[url := Upload(me, name, size, mime)]), Done))
  {
    StoringPuts(db.uploads, url, Upload(me, name, size, mime));
    hide Puts;
  }

  lemma PeopleDo(db: Db, op: Op)
    requires Inv(db) && op.me in db.users && OnPeople(op.call)
    ensures Does(db, op.me, op.call, op.now, Apply(db, op))
  {
    hide Inv, Does, SendRequest, AcceptRequest, RejectRequest, RemoveRelationship, CreateGroup, AddMembers,
         RemoveMember, SetMemberRole, SetMemberMute, LeaveGroup, TransferOwnership, DissolveGroup, SendDm, SendGroup,
         Forward, MarkRead, MarkGroupRead, HideMessage, EditMessage, WithdrawMessage, SetReaction, SetStar, Vote,
         ClosePoll, SetSetting;
    var me := op.me;
    match op.call
    case AddUpload(url, name, size, mime) => UploadDoes(db, me, url, name, size, mime, op.now);
    case RequestFriend(to, reason) => RequestDoes(db, me, to, reason, op.now);
    case Accept(from) => AnswersDo(db, me, from, op.now);
    case Refuse(from) => AnswersDo(db, me, from, op.now);
    case Unfriend(other) => UnfriendDoes(db, me, other, op.now);
    case Configure(kind, key, pinned, muted, archived) =>
      ConfigureDoes(db, me, kind, key, pinned, muted, archived, op.now);
  }

  lemma GroupsDo(db: Db, op: Op)
    requires Inv(db) && op.me in db.users && OnGroups(op.call)
    ensures Does(db, op.me, op.call, op.now, Apply(db, op))
  {
    hide Inv, Does, SendRequest, AcceptRequest, RejectRequest, RemoveRelationship, CreateGroup, AddMembers,
         RemoveMember, SetMemberRole, SetMemberMute, LeaveGroup, TransferOwnership, DissolveGroup, SendDm, SendGroup,
         Forward, MarkRead, MarkGroupRead, HideMessage, EditMessage, WithdrawMessage, SetReaction, SetStar, Vote,
         ClosePoll, SetSetting;
    var me := op.me;
    match op.call
    case NewGroup(name, invitees) => CreateDoes(db, me, name, invitees, op.now);
    case Invite(g, invitees) => InviteDoes(db, me, g, invitees, op.now);
    case Remove(g, target) => DeparturesDo(db, me, g, target, op.now);
    case SetRole(g, target, role) => SetRoleDoes(db, me, g, target, role, op.now);
    case Mute(g, target, on) => MuteDoes(db, me, g, target, on, op.now);
    case Leave(g) => DeparturesDo(db, me, g, me, op.now);
    case Transfer(g, target) => TransferDoes(db, me, g, target, op.now);
    case Dissolve(g) => DissolveDoes(db, me, g, op.now);
  }

  lemma MessagesDo(db: Db, op: Op)
    requires Inv(db) && op.me in db.users && op.call != AddUser && !OnPeople(op.call) && !OnGroups(op.call)
    ensures Does(db, op.me, op.call, op.now, Apply(db, op))
  {
    hide Inv, Does, SendRequest, AcceptRequest, RejectRequest, RemoveRelationship, CreateGroup, AddMembers,
         RemoveMember, SetMemberRole, SetMemberMute, LeaveGroup, TransferOwnership, DissolveGroup, SendDm, SendGroup,
         Forward, MarkRead, MarkGroupRead, HideMessage, EditMessage, WithdrawMessage, SetReaction, SetStar, Vote,
         ClosePoll, SetSetting;
    var me := op.me;
    match op.call
    case Send(other, draft) => SendDoes(db, me, other, draft, op.now);
    case SendTo(g, draft, poll) => SendToDoes(db, me, g, draft, poll, op.now);
    case ForwardTo(id, dest) => ForwardDoes(db, me, id, dest, op.now);
    case Read(other, id) => ReadDoes(db, me, other, id, op.now);
    case ReadGroup(g, id) => ReadGroupDoes(db, me, g, id, op.now);
    case Hide(at, id) => HideDoes(db, me, at, id, op.now);
    case Edit(at, id, content) => EditDoes(db, me, at, id, content, op.now);
    case Withdraw(at, id) => WithdrawDoes(db, me, at, id, op.now);
    case React(at, id, emoji, add) => ReactDoes(db, me, at, id, emoji, add, op.now);
    case Star(id, starred) => StarDoes(db, me, id, starred, op.now);
    case Cast(g, p, indexes) => VoteDoes(db, me, g, p, indexes, op.now);
    case Close(g, p) => CloseDoes(db, me, g, p, op.now);
  }

  /** Every call that succeeds has its effect, on its own tables only. */
  lemma SucceedingCallsDo(db: Db, op: Op)
    requires Inv(db) && !Apply(db, op).1.Fail?
    ensures var (t, reply) := Apply(db, op);
      && PeopleEffect(db, op.me, op.call, t) && GroupEffect(db, op.me, op.call, t, reply)
      && SendEffect(db, op.me, op.call, op.now, t, reply) && MessageEffect(db, op.me, op.call, op.now, t)
      && OnlyByItsCalls(db, t, op.call)
  {
    hide Inv, Apply, PeopleEffect, GroupEffect, SendEffect, MessageEffect, OnlyByItsCalls;
    EdgesOfApply(db, op);
    if op.call == AddUser {
      SigningInDoes(db, op.me, op.now);
    } else if OnPeople(op.call) {
      PeopleDo(db, op);
    } else if OnGroups(op.call) {
      GroupsDo(db, op);
    } else {
      MessagesDo(db, op);
    }
  }
}
