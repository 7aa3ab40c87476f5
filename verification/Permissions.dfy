/** Who may make which call, told by the tables alone: the rules that the checks of every service
    function come down to (app/friends, app/groups, app/messages, app/polls: service.py). */
module Permissions {
  import opened Prelude
  import opened Text
  import opened Store
  import opened Friends
  import opened Groups
  import opened Messages
  import opened MessagesInv
  import opened Runs

  // ---------------------------------------------------------------------------------------------
  // The vocabulary of the rules

  /** One of the two asked and the other accepted. */
  predicate Accepted(friendships: map<(Sub, Sub), Friendship>, a: Sub, b: Sub) {
    || ((a, b) in friendships && friendships[(a, b)].accepted)
    || ((b, a) in friendships && friendships[(b, a)].accepted)
  }

  predicate Pending(friendships: map<(Sub, Sub), Friendship>, asker: Sub, asked: Sub) {
    (asker, asked) in friendships && !friendships[(asker, asked)].accepted
  }

  predicate Owns(db: Db, g: nat, u: Sub) {
    g in db.groups && db.groups[g].owner == u
  }

  predicate HasRole(db: Db, g: nat, u: Sub, role: Role) {
    (g, u) in db.members && db.members[(g, u)].role == role
  }

  predicate Manages(db: Db, g: nat, u: Sub) {
    Owns(db, g, u) || HasRole(db, g, u, Admin)
  }

  function MembersOf(db: Db, g: nat): set<Sub> {
    set k | k in db.members && k.0 == g :: k.1
  }

  /** At most 20 different users, all of them friends of the inviter. */
  predicate MayInvite(db: Db, me: Sub, invitees: seq<Sub>) {
    |Elements(invitees)| <= 20 && forall u | u in invitees :: u in db.users && Accepted(db.friendships, me, u)
  }

  /** The message is where the caller says it is, and the caller takes part in that conversation. */
  predicate Found(db: Db, me: Sub, at: Where, id: nat) {
    && id in db.messages
    && match at
       case With(other) => Between(db.messages[id], me, other)
       case In(g) => (g, me) in db.members && db.messages[id].groupId == Some(g)
  }

  /** The caller takes part in the conversation of the message, whichever it is. */
  predicate MaySee(db: Db, me: Sub, id: nat) {
    && id in db.messages
    && match db.messages[id].groupId
       case None => me == db.messages[id].sender || me == db.messages[id].recipient
       case Some(g) => (g, me) in db.members
  }

  /** Texts carry no attachment; anything else carries an upload of the sender's own. */
  predicate MayAttach(db: Db, me: Sub, contentType: ContentType, attachment: Option<string>) {
    match attachment
    case None => contentType == Plain
    case Some(url) =>
      contentType != Plain && "/api/uploads/" <= url && url in db.uploads && db.uploads[url].owner == me
  }

  predicate MayMention(mentions: seq<Sub>, others: set<Sub>) {
    |mentions| <= 50 && forall u | u in mentions :: u in others
  }

  /** A question of 1 to 120 characters and 2 to 10 different options of 1 to 60, all without the white
      space around them. */
  predicate ProperPoll(p: PollDraft) {
    && 1 <= |Strip(p.question)| <= 120
    && (forall o | o in p.options :: 1 <= |Strip(o)| <= 60)
    && 2 <= |Stripped(p.options)| <= 10
  }

  function Stripped(options: seq<string>): set<string> {
    set o | o in options :: Strip(o)
  }

  // ---------------------------------------------------------------------------------------------
  // The rules

  predicate MaySend(db: Db, me: Sub, other: Sub, d: Draft) {
    && other in db.users && other != me && Accepted(db.friendships, me, other)
    && d.contentType != PollCard
    && (d.replyTo.Some? ==> Found(db, me, With(other), d.replyTo.value))
    && MayMention(d.mentions, {other})
    && MayAttach(db, me, d.contentType, d.attachment)
  }

  predicate MaySendTo(db: Db, me: Sub, g: nat, d: Draft, poll: Option<PollDraft>) {
    && (g, me) in db.members && !db.members[(g, me)].muted
    && (d.replyTo.Some? ==> Found(db, me, In(g), d.replyTo.value))
    && MayMention(d.mentions, MembersOf(db, g))
    && match poll
       case None => d.contentType != PollCard && MayAttach(db, me, d.contentType, d.attachment)
       case Some(p) => d.contentType == PollCard && d.attachment.None? && d.replyTo.None? && ProperPoll(p)
  }

  predicate MayForward(db: Db, me: Sub, id: nat, to: Where) {
    && MaySee(db, me, id) && db.messages[id].deletedAt.None? && db.messages[id].contentType != PollCard
    && match to
       case With(other) => other in db.users && other != me && Accepted(db.friendships, me, other)
       case In(g) => (g, me) in db.members
  }

  /** Only the sender, only while it is not withdrawn, and only for five minutes. */
  predicate MayRewrite(db: Db, me: Sub, at: Where, id: nat, now: real) {
    && Found(db, me, at, id) && db.messages[id].sender == me
    && db.messages[id].deletedAt.None? && now - db.messages[id].createdAt <= 300.0
  }

  predicate MayVote(db: Db, me: Sub, g: nat, p: nat, indexes: seq<int>) {
    && (g, me) in db.members && p in db.polls && db.polls[p].groupId == g && !db.polls[p].closed
    && indexes != [] && (forall i | i in indexes :: 0 <= i < |db.polls[p].options|)
    && (!db.polls[p].multiple ==> forall i, j | i in indexes && j in indexes :: i == j)
  }

  predicate MayClose(db: Db, me: Sub, g: nat, p: nat) {
    && (g, me) in db.members && p in db.polls && db.polls[p].groupId == g
    && (db.polls[p].creator == me || Manages(db, g, me))
  }

  /** The canonical key of a direct conversation of the caller, or the number of a group they are in. */
  ghost predicate IsOwnKey(db: Db, me: Sub, kind: SettingKind, key: string) {
    match kind
    case DmSetting =>
      exists other: string ::
        || (Less(me, other) && key == me + ":" + other)
        || (Less(other, me) && ':' !in other && key == other + ":" + me)
    case GroupSetting => IsDigits(key) && (ParseDecimal(key), me) in db.members
  }

  ghost predicate MayCall(db: Db, me: Sub, c: Call, now: real) {
    match c
    case AddUser => true
    case AddUpload(url, _, _, _) => url !in db.uploads
    case RequestFriend(to, reason) =>
      && to in db.users && to != me && |Strip(reason)| <= 200
      && (me, to) !in db.friendships && (to, me) !in db.friendships
    case Accept(asker) => Pending(db.friendships, asker, me)
    case Refuse(asker) => Pending(db.friendships, asker, me)
    case Unfriend(_) => true
    case NewGroup(name, invitees) => 1 <= |Strip(name)| <= 64 && me !in invitees && MayInvite(db, me, invitees)
    case Invite(g, invitees) =>
      Manages(db, g, me) && MayInvite(db, me, invitees) && |MembersOf(db, g) + Elements(invitees)| <= 200
    case Remove(g, target) =>
      || (Owns(db, g, me) && (g, target) in db.members && target != me)
      || (HasRole(db, g, me, Admin) && HasRole(db, g, target, Member))
    case SetRole(g, target, role) => Owns(db, g, me) && (g, target) in db.members && target != me && role != Owner
    case Mute(g, target, _) => Manages(db, g, me) && HasRole(db, g, target, Member)
    case Leave(g) => (g, me) in db.members && !Owns(db, g, me)
    case Transfer(g, target) => Owns(db, g, me) && (g, target) in db.members
    case Dissolve(g) => Owns(db, g, me)
    case Send(other, draft) => MaySend(db, me, other, draft)
    case SendTo(g, draft, poll) => MaySendTo(db, me, g, draft, poll)
    case ForwardTo(id, dest) => MayForward(db, me, id, dest)
    case Read(other, id) => Accepted(db.friendships, me, other) && Found(db, me, With(other), id)
    case ReadGroup(g, id) => Found(db, me, In(g), id)
    case Hide(at, id) => Found(db, me, at, id)
    case Edit(at, id, _) => MayRewrite(db, me, at, id, now)
    case Withdraw(at, id) => MayRewrite(db, me, at, id, now)
    case React(at, id, _, _) => Found(db, me, at, id) && db.messages[id].deletedAt.None?
    case Star(id, _) => MaySee(db, me, id)
    case Cast(g, p, indexes) => MayVote(db, me, g, p, indexes)
    case Close(g, p) => MayClose(db, me, g, p)
    case Configure(kind, key, pinned, muted, archived) =>
      (pinned.Some? || muted.Some? || archived.Some?) && IsOwnKey(db, me, kind, key)
  }

  /** A caller has to be signed in, except to sign in. */
  ghost predicate Allowed(db: Db, op: Op) {
    op.call.AddUser? || (op.me in db.users && MayCall(db, op.me, op.call, op.now))
  }

  // ---------------------------------------------------------------------------------------------
  // What a refusal says

  /** The first invitee who is no user or no friend decides. */
  predicate NotAllFriends(db: Db, me: Sub, invitees: seq<Sub>, status: nat) {
    exists i :: 0 <= i < |invitees| && FirstStranger(db, me, invitees, i)
                && status == if invitees[i] in db.users then 403 else 404
  }

  predicate FirstStranger(db: Db, me: Sub, invitees: seq<Sub>, i: nat)
    requires i < |invitees|
  {
    && !(invitees[i] in db.users && Accepted(db.friendships, me, invitees[i]))
    && forall j | 0 <= j < i :: invitees[j] in db.users && Accepted(db.friendships, me, invitees[j])
  }

  predicate BadAttachment(db: Db, me: Sub, contentType: ContentType, attachment: Option<string>, status: nat) {
    match attachment
    case None => status == 422
    case Some(url) =>
      status == if contentType == Plain || !("/api/uploads/" <= url) then 422
                else if url !in db.uploads then 404
                else 403
  }

  predicate WhyNotSend(db: Db, me: Sub, other: Sub, d: Draft, status: nat) {
    if other == me then status == 400
    else if d.contentType == PollCard then status == 422
    else if other !in db.users then status == 404
    else if !Accepted(db.friendships, me, other) then status == 403
    else if d.replyTo.Some? && !Found(db, me, With(other), d.replyTo.value) then status == 404
    else if !MayMention(d.mentions, {other}) then status == 422
    else BadAttachment(db, me, d.contentType, d.attachment, status)
  }

  predicate WhyNotSendTo(db: Db, me: Sub, g: nat, d: Draft, poll: Option<PollDraft>, status: nat) {
    if (g, me) !in db.members || db.members[(g, me)].muted then status == 403
    else if (d.contentType == PollCard) != poll.Some? then status == 422
    else if poll.Some? && (d.attachment.Some? || d.replyTo.Some?) then status == 422
    else if d.replyTo.Some? && !Found(db, me, In(g), d.replyTo.value) then status == 404
    else if poll.Some? || !MayMention(d.mentions, MembersOf(db, g)) then status == 422
    else BadAttachment(db, me, d.contentType, d.attachment, status)
  }

  /** A message out of sight is answered like one that does not exist, whatever else is wrong. */
  predicate WhyNotForward(db: Db, me: Sub, id: nat, to: Where, status: nat) {
    if !MaySee(db, me, id) then status == 404
    else if db.messages[id].deletedAt.Some? then status == 409
    else if db.messages[id].contentType == PollCard then status == 422
    else
      match to
      case In(g) => status == 403
      case With(other) => status == if other == me then 400 else if other !in db.users then 404 else 403
  }

  predicate WhyNotRewrite(db: Db, me: Sub, at: Where, id: nat, now: real, status: nat) {
    if !Found(db, me, at, id) then status == 404
    else if db.messages[id].sender != me then status == 403
    else status == 409 && (db.messages[id].deletedAt.Some? || now - db.messages[id].createdAt > 300.0)
  }

  predicate WhyNotVote(db: Db, me: Sub, g: nat, p: nat, status: nat) {
    if (g, me) !in db.members || p !in db.polls || db.polls[p].groupId != g then status == 404
    else status == if db.polls[p].closed then 409 else 422
  }

  predicate WhyNotConfigure(db: Db, me: Sub, kind: SettingKind, key: string, anything: bool, status: nat) {
    match kind
    case GroupSetting => status == if anything && IsDigits(key) then 404 else 422
    case DmSetting =>
      status == match SplitKey(key)
                case None => 422
                case Some((a, b)) => if !anything || a == b || me == a || me == b then 422 else 404
  }

  /** Among the calls on a group: the caller's place in it comes first, then the target's. */
  predicate WhyNotManage(db: Db, me: Sub, g: nat, target: Sub, manages: bool, status: nat, otherwise: nat) {
    status == if (g, me) !in db.members then 404
              else if !manages then 403
              else if (g, target) !in db.members then 404
              else otherwise
  }

  ghost predicate Why(db: Db, me: Sub, c: Call, now: real, status: nat) {
    match c
    case AddUser => false
    case AddUpload(url, _, _, _) => status == 409
    case RequestFriend(to, reason) =>
      status == if to == me then 400 else if to !in db.users then 404 else if |Strip(reason)| > 200 then 422 else 409
    case Accept(_) => status == 404
    case Refuse(_) => status == 404
    case Unfriend(_) => false
    case NewGroup(name, invitees) =>
      if Strip(name) == [] || |Strip(name)| > 64 then status == 422
      else if me in invitees then status == 400
      else if |Elements(invitees)| > 20 then status == 422
      else NotAllFriends(db, me, invitees, status)
    case Invite(g, invitees) =>
      if !Manages(db, g, me) then status == if (g, me) in db.members then 403 else 404
      else if |Elements(invitees)| > 20 then status == 422
      else if !MayInvite(db, me, invitees) then NotAllFriends(db, me, invitees, status)
      else status == 409
    case Remove(g, target) => WhyNotManage(db, me, g, target, Manages(db, g, me), status, 403)
    case SetRole(g, target, role) =>
      if role == Owner then status == 422
      else if Owns(db, g, me) && target == me then status == 400
      else WhyNotManage(db, me, g, target, Owns(db, g, me), status, 404)
    case Mute(g, target, _) =>
      WhyNotManage(db, me, g, target, Manages(db, g, me), status, if target == me then 400 else 403)
    case Leave(g) => status == if (g, me) in db.members then 409 else 404
    case Transfer(g, target) => WhyNotManage(db, me, g, target, Owns(db, g, me), status, 404)
    case Dissolve(g) => status == if (g, me) in db.members then 403 else 404
    case Send(other, draft) => WhyNotSend(db, me, other, draft, status)
    case SendTo(g, draft, poll) => WhyNotSendTo(db, me, g, draft, poll, status)
    case ForwardTo(id, dest) => WhyNotForward(db, me, id, dest, status)
    case Read(other, _) => status == if Accepted(db.friendships, me, other) then 404 else 403
    case ReadGroup(_, _) => status == 404
    case Hide(_, _) => status == 404
    case Edit(at, id, _) => WhyNotRewrite(db, me, at, id, now, status)
    case Withdraw(at, id) => WhyNotRewrite(db, me, at, id, now, status)
    case React(at, id, _, _) => status == if Found(db, me, at, id) then 409 else 404
    case Star(_, _) => status == 404
    case Cast(g, p, _) => WhyNotVote(db, me, g, p, status)
    case Close(g, p) =>
      status == if (g, me) in db.members && p in db.polls && db.polls[p].groupId == g then 403 else 404
    case Configure(kind, key, pinned, muted, archived) =>
      WhyNotConfigure(db, me, kind, key, pinned.Some? || muted.Some? || archived.Some?, status)
  }

  /** The call succeeds if it is allowed; otherwise it changes nothing and its status says why. */
  ghost predicate Obeys(db: Db, me: Sub, c: Call, now: real, r: (Db, Reply)) {
    if MayCall(db, me, c, now) then !r.1.Fail?
    else r.1.Fail? && r.0 == db && Why(db, me, c, now, r.1.status)
  }

  // ---------------------------------------------------------------------------------------------
  // The checks of the code come down to the vocabulary

  lemma FriendsMeansAccepted(db: Db, a: Sub, b: Sub)
    requires Inv(db)
    ensures AreFriends(db, a, b) <==> Accepted(db.friendships, a, b)
  {
    hide MessagesOk, RefsOk, HiddenOk, DmReadsOk, GroupReadsOk, RolesOk, CapacityOk, PollsOk;
  }

  lemma OwnerMeansOwns(db: Db, g: nat, u: Sub)
    requires Inv(db)
    ensures HasRole(db, g, u, Owner) <==> Owns(db, g, u)
    ensures (g, u) in db.members ==> g in db.groups
  {
    hide MessagesOk, RefsOk, HiddenOk, DmReadsOk, GroupReadsOk, CapacityOk, PollsOk, FriendsOk;
  }

  lemma ShapeOfStored(db: Db, id: nat)
    requires Inv(db) && id in db.messages
    ensures ShapeOk(db.messages[id])
  {
    hide RefsOk, HiddenOk, DmReadsOk, GroupReadsOk, RolesOk, CapacityOk, PollsOk, FriendsOk;
  }

  lemma FoundDirectly(db: Db, me: Sub, other: Sub, id: nat)
    requires Inv(db)
    ensures Found(db, me, With(other), id) <==> id in db.messages && InDm(db.messages[id], me, other)
    ensures Found(db, me, With(other), id) ==> db.messages[id].kind == Dm
  {
    hide Inv;
    if id in db.messages {
      ShapeOfStored(db, id);
      ConversationsAreApart(db.messages[id], me, other);
    }
  }

  lemma FoundInGroup(db: Db, me: Sub, g: nat, id: nat)
    requires Inv(db)
    ensures Found(db, me, In(g), id) <==>
              IsMember(db, g, me) && id in db.messages && InGroup(db.messages[id], g)
  {
    hide Inv;
    if id in db.messages { ShapeOfStored(db, id); }
  }

  lemma SeeingMeansViewing(db: Db, me: Sub, id: nat)
    requires Inv(db)
    ensures MaySee(db, me, id) <==> id in db.messages && CanView(db, me, db.messages[id])
  {
    hide Inv;
    if id in db.messages { ShapeOfStored(db, id); }
  }

  lemma AttachmentRule(db: Db, me: Sub, contentType: ContentType, attachment: Option<string>)
    ensures AttachmentError(db, me, contentType, attachment).None? <==> MayAttach(db, me, contentType, attachment)
  {
  }

  lemma MentionRules(db: Db, g: nat, other: Sub, mentions: seq<Sub>)
    ensures MentionErrorDm(other, mentions).None? <==> MayMention(mentions, {other})
    ensures MentionErrorGroup(db, g, mentions).None? <==> MayMention(mentions, MembersOf(db, g))
  {
    forall u ensures u in MembersOf(db, g) <==> IsMember(db, g, u) {
      if IsMember(db, g, u) { assert (g, u) in db.members && (g, u).1 == u; }
    }
  }

  // ---------------------------------------------------------------------------------------------
  // Friends and groups

  lemma FriendCallsObey(db: Db, me: Sub, u: Sub, reason: string, now: real)
    requires Inv(db)
    ensures Obeys(db, me, RequestFriend(u, reason), now, SendRequest(db, me, u, reason))
    ensures Obeys(db, me, Accept(u), now, AcceptRequest(db, me, u))
    ensures Obeys(db, me, Refuse(u), now, RejectRequest(db, me, u))
    ensures Obeys(db, me, Unfriend(u), now, RemoveRelationship(db, me, u))
  {
    hide MessagesOk, RefsOk, HiddenOk, DmReadsOk, GroupReadsOk, RolesOk, CapacityOk, PollsOk, Strip;
  }

  lemma InviteeRule(db: Db, me: Sub, invitees: seq<Sub>)
    requires Inv(db)
    ensures InviteError(db, me, invitees).None? <==>
              forall u | u in invitees :: u in db.users && Accepted(db.friendships, me, u)
  {
    hide Inv, AreFriends, Accepted;
    InviteesAreFriends(db, me, invitees);
    forall u | u in invitees ensures AreFriends(db, me, u) <==> Accepted(db.friendships, me, u) {
      FriendsMeansAccepted(db, me, u);
    }
  }

  lemma {:induction false} InviteStatus(db: Db, me: Sub, invitees: seq<Sub>)
    requires Inv(db) && InviteError(db, me, invitees).Some?
    ensures NotAllFriends(db, me, invitees, InviteError(db, me, invitees).value)
  {
    hide Inv, AreFriends, Accepted;
    var status := InviteError(db, me, invitees).value;
    FriendsMeansAccepted(db, me, invitees[0]);
    if invitees[0] in db.users && AreFriends(db, me, invitees[0]) {
      InviteStatus(db, me, invitees[1..]);
      var i :| 0 <= i < |invitees| - 1 && FirstStranger(db, me, invitees[1..], i)
               && status == if invitees[1..][i] in db.users then 403 else 404;
      assert forall j | 0 < j <= i :: invitees[j] == invitees[1..][j - 1];
      assert FirstStranger(db, me, invitees, i + 1);
    } else {
      assert FirstStranger(db, me, invitees, 0);
    }
  }

  lemma CreateObeys(db: Db, me: Sub, name: string, invitees: seq<Sub>, now: real)
    requires Inv(db)
    ensures Obeys(db, me, NewGroup(name, invitees), now, CreateGroup(db, me, name, invitees))
  {
    hide Inv, Accepted, Strip, InviteError, NotAllFriends, Enrol;
    InviteeRule(db, me, invitees);
    if InviteError(db, me, invitees).Some? { InviteStatus(db, me, invitees); }
  }

  lemma {:induction false} UnionIsRows(db: Db, g: nat, subs: set<Sub>)
    ensures |MemberRows(db.members, g) + NewRows(g, subs)| == |MembersOf(db, g) + subs|
  {
    var all := MembersOf(db, g) + subs;
    NewRowsSize(g, all);
    assert NewRows(g, all) == MemberRows(db.members, g) + NewRows(g, subs) by {
      forall k | k in MemberRows(db.members, g) ensures k in NewRows(g, all) {
        assert k.1 in MembersOf(db, g) && k == (g, k.1);
      }
      forall u | u in MembersOf(db, g) ensures (g, u) in MemberRows(db.members, g) {
        var k :| k in db.members && k.0 == g && k.1 == u;
        assert k == (g, u);
      }
    }
  }

  lemma InviteObeys(db: Db, me: Sub, g: nat, invitees: seq<Sub>, now: real)
    requires Inv(db)
    ensures Obeys(db, me, Invite(g, invitees), now, AddMembers(db, me, g, invitees))
  {
    hide Inv, Accepted, InviteError, NotAllFriends, MemberRows, NewRows, MembersOf, Enrol;
    InviteeRule(db, me, invitees);
    if InviteError(db, me, invitees).Some? { InviteStatus(db, me, invitees); }
    OwnerMeansOwns(db, g, me);
    UnionIsRows(db, g, Elements(invitees));
  }

  lemma RemoveObeys(db: Db, me: Sub, g: nat, target: Sub, now: real)
    requires Inv(db)
    ensures Obeys(db, me, Remove(g, target), now, RemoveMember(db, me, g, target))
  {
    hide Inv, DropMember;
    OwnerMeansOwns(db, g, me);
    OwnerMeansOwns(db, g, target);
  }

  lemma SetRoleObeys(db: Db, me: Sub, g: nat, target: Sub, role: Role, now: real)
    requires Inv(db)
    ensures Obeys(db, me, SetRole(g, target, role), now, SetMemberRole(db, me, g, target, role))
  {
    hide Inv;
    OwnerMeansOwns(db, g, me);
    OwnerMeansOwns(db, g, target);
  }

  lemma MuteObeys(db: Db, me: Sub, g: nat, target: Sub, on: bool, now: real)
    requires Inv(db)
    ensures Obeys(db, me, Mute(g, target, on), now, SetMemberMute(db, me, g, target, on))
  {
    hide Inv;
    OwnerMeansOwns(db, g, me);
  }

  lemma TransferObeys(db: Db, me: Sub, g: nat, target: Sub, now: real)
    requires Inv(db)
    ensures Obeys(db, me, Transfer(g, target), now, TransferOwnership(db, me, g, target))
  {
    hide Inv;
    OwnerMeansOwns(db, g, me);
  }

  lemma GroupEndsObey(db: Db, me: Sub, g: nat, now: real)
    requires Inv(db)
    ensures Obeys(db, me, Leave(g), now, LeaveGroup(db, me, g))
    ensures Obeys(db, me, Dissolve(g), now, DissolveGroup(db, me, g))
  {
    hide Inv, DropMember, WithoutGroup;
    OwnerMeansOwns(db, g, me);
  }

  // ---------------------------------------------------------------------------------------------
  // Messages

  lemma AttachmentStatus(db: Db, me: Sub, contentType: ContentType, attachment: Option<string>)
    ensures match AttachmentError(db, me, contentType, attachment)
            case None => MayAttach(db, me, contentType, attachment)
            case Some(status) =>
              !MayAttach(db, me, contentType, attachment) && BadAttachment(db, me, contentType, attachment, status)
  {
  }

  lemma SendObeys(db: Db, me: Sub, other: Sub, d: Draft, now: real)
    requires Inv(db)
    ensures SendDmError(db, me, other, d).None? <==> MaySend(db, me, other, d)
    ensures SendDm(db, me, other, d, now).1.Created? <==> MaySend(db, me, other, d)
    ensures Obeys(db, me, Send(other, d), now, SendDm(db, me, other, d, now))
  {
    hide Inv, Accepted, AreFriends, Found, MayMention, MayAttach, BadAttachment, AttachmentError, MentionErrorDm, InDm,
         PostDm, Attached;
    FriendsMeansAccepted(db, me, other);
    if d.replyTo.Some? { FoundDirectly(db, me, other, d.replyTo.value); }
    MentionRules(db, 0, other, d.mentions);
    AttachmentStatus(db, me, d.contentType, d.attachment);
  }

  lemma {:induction false} CleanedOptions(options: seq<string>)
    ensures CleanOptions(options).Some? <==> forall o | o in options :: 1 <= |Strip(o)| <= 60
    ensures CleanOptions(options).Some? ==> Elements(CleanOptions(options).value) == Stripped(options)
  {
    hide Strip;
    if options == [] {
    } else {
      var front, last := options[..|options| - 1], options[|options| - 1];
      CleanedOptions(front);
      assert options == front + [last];
      assert forall o :: o in options <==> o in front || o == last;
      assert Stripped(options) == Stripped(front) + {Strip(last)};
      if CleanOptions(options).Some? { OneMoreElement(CleanOptions(front).value, Strip(last)); }
    }
  }

  lemma {:induction false} DistinctSize(s: seq<string>)
    requires forall i, j | 0 <= i < j < |s| :: s[i] != s[j]
    ensures |Elements(s)| == |s|
  {
    if s == [] {
    } else {
      var n := |s| - 1;
      DistinctSize(s[..n]);
      assert s == s[..n] + [s[n]];
      assert Elements(s) == Elements(s[..n]) + {s[n]};
    }
  }

  lemma PollRule(p: PollDraft)
    ensures PollError(p) == if ProperPoll(p) then None else Some(422)
  {
    CleanedOptions(p.options);
    if CleanOptions(p.options).Some? {
      CleanOptionsAreClean(p.options);
      DistinctSize(CleanOptions(p.options).value);
    }
    hide Strip, CleanOptions, Stripped;
  }

  lemma SendToObeys(db: Db, me: Sub, g: nat, d: Draft, poll: Option<PollDraft>, now: real)
    requires Inv(db)
    ensures SendGroup(db, me, g, d, poll, now).1.Created? <==> MaySendTo(db, me, g, d, poll)
    ensures Obeys(db, me, SendTo(g, d, poll), now, SendGroup(db, me, g, d, poll, now))
  {
    hide Inv, Found, MayMention, MayAttach, BadAttachment, AttachmentError, MentionErrorGroup, InGroup, MembersOf,
         PollError, ProperPoll, PostGroup, GroupMarker, NewPoll, Attached;
    OwnerMeansOwns(db, g, me);
    if d.replyTo.Some? { FoundInGroup(db, me, g, d.replyTo.value); }
    MentionRules(db, g, me, d.mentions);
    AttachmentStatus(db, me, d.contentType, d.attachment);
    if poll.Some? { PollRule(poll.value); }
  }

  lemma ForwardObeys(db: Db, me: Sub, id: nat, to: Where, now: real)
    requires Inv(db)
    ensures Forward(db, me, id, to, now).1.Created? <==> MayForward(db, me, id, to)
    ensures Obeys(db, me, ForwardTo(id, to), now, Forward(db, me, id, to, now))
  {
    hide Inv, Accepted, AreFriends, MaySee, CanView, PostDm, PostGroup, GroupMarker;
    SeeingMeansViewing(db, me, id);
    SeenIsStored(db, me, id);
    if to.With? { FriendsMeansAccepted(db, me, to.other); }
  }

  lemma SeenIsStored(db: Db, me: Sub, id: nat)
    ensures MaySee(db, me, id) ==> id in db.messages
  {
  }

  lemma ReadingObeys(db: Db, me: Sub, other: Sub, g: nat, id: nat, now: real)
    requires Inv(db)
    ensures Obeys(db, me, Read(other, id), now, MarkRead(db, me, other, id))
    ensures Obeys(db, me, ReadGroup(g, id), now, MarkGroupRead(db, me, g, id))
  {
    hide Inv, Accepted, AreFriends, Found, InDm, InGroup, Raise;
    FriendsMeansAccepted(db, me, other);
    FoundDirectly(db, me, other, id);
    FoundInGroup(db, me, g, id);
  }

  lemma FoundIsStored(db: Db, me: Sub, at: Where, id: nat)
    requires Inv(db)
    ensures Found(db, me, at, id) <==> id in db.messages && match at
              case With(other) => InDm(db.messages[id], me, other) && db.messages[id].kind == Dm
              case In(g) => IsMember(db, g, me) && InGroup(db.messages[id], g)
    ensures at.With? && id in db.messages && InDm(db.messages[id], me, at.other) ==> db.messages[id].kind == Dm
  {
    hide Inv, Found, InDm, InGroup;
    match at
    case With(other) => FoundDirectly(db, me, other, id);
    case In(g) => FoundInGroup(db, me, g, id);
  }

  lemma RewritingObeys(db: Db, me: Sub, at: Where, id: nat, content: string, now: real)
    requires Inv(db)
    ensures Obeys(db, me, Edit(at, id, content), now, EditMessage(db, me, at, id, content, now))
    ensures Obeys(db, me, Withdraw(at, id), now, WithdrawMessage(db, me, at, id, now))
  {
    hide Inv, Found, InDm, InGroup;
    FoundIsStored(db, me, at, id);
  }

  lemma HideObeys(db: Db, me: Sub, at: Where, id: nat, now: real)
    requires Inv(db)
    ensures Obeys(db, me, Hide(at, id), now, HideMessage(db, me, at, id))
  {
    hide Inv, Found, InDm, InGroup;
    FoundIsStored(db, me, at, id);
  }

  lemma ReactObeys(db: Db, me: Sub, at: Where, id: nat, emoji: string, on: bool, now: real)
    requires Inv(db)
    ensures Obeys(db, me, React(at, id, emoji, on), now, SetReaction(db, me, at, id, emoji, on))
  {
    hide Inv, Found, InDm, InGroup;
    FoundIsStored(db, me, at, id);
  }

  lemma StarObeys(db: Db, me: Sub, id: nat, on: bool, now: real)
    requires Inv(db)
    ensures Obeys(db, me, Star(id, on), now, SetStar(db, me, id, on))
  {
    hide Inv, CanView, MaySee;
    SeeingMeansViewing(db, me, id);
  }

  // ---------------------------------------------------------------------------------------------
  // Polls and settings

  lemma SingleChoice(indexes: seq<int>)
    ensures indexes != [] ==>
              (|Elements(indexes)| == 1 <==> forall i, j | i in indexes && j in indexes :: i == j)
    ensures indexes == [] <==> Elements(indexes) == {}
  {
    if indexes != [] {
      var i := indexes[0];
      assert i in Elements(indexes);
      if |Elements(indexes)| == 1 {
        SingletonSet(Elements(indexes), i);
        forall j | j in indexes ensures j == i { assert j in Elements(indexes); }
      }
      if forall j | j in indexes :: j == i {
        assert Elements(indexes) == {i};
      }
    }
  }

  lemma SingletonSet(s: set<int>, i: int)
    requires |s| == 1 && i in s
    ensures s == {i}
  {
    assert |s - {i}| == 0;
  }

  lemma ChoiceRule(p: Poll, indexes: seq<int>)
    ensures ChoiceOk(Elements(indexes), p) <==>
              && indexes != [] && (forall i | i in indexes :: 0 <= i < |p.options|)
              && (!p.multiple ==> forall i, j | i in indexes && j in indexes :: i == j)
  {
    SingleChoice(indexes);
    assert forall i :: i in Elements(indexes) <==> i in indexes;
  }

  lemma CloseObeys(db: Db, me: Sub, g: nat, p: nat, now: real)
    requires Inv(db)
    ensures Obeys(db, me, Close(g, p), now, ClosePoll(db, me, g, p))
  {
    hide Inv;
    OwnerMeansOwns(db, g, me);
  }

  lemma VoteObeys(db: Db, me: Sub, g: nat, p: nat, indexes: seq<int>, now: real)
    requires Inv(db)
    ensures Obeys(db, me, Cast(g, p, indexes), now, Vote(db, me, g, p, indexes))
  {
    hide Inv, Elements, ChoiceOk;
    if p in db.polls { ChoiceRule(db.polls[p], indexes); }
  }

  lemma KeyRule(me: Sub, key: string)
    ensures IsOwnKey(EMPTY, me, DmSetting, key) <==>
              && SplitKey(key).Some?
              && var (a, b) := SplitKey(key).value;
                 (me == a || me == b) && Less(a, b)
  {
    hide Less;
    if exists other: string :: Less(me, other) && key == me + ":" + other {
      var other: string :| Less(me, other) && key == me + ":" + other;
      SplitsAtFirst(me, other);
    } else if exists other: string :: Less(other, me) && ':' !in other && key == other + ":" + me {
      var other: string :| Less(other, me) && ':' !in other && key == other + ":" + me;
      SplitsAtFirst(other, me);
    }
  }

  lemma ConfigureObeys(db: Db, me: Sub, kind: SettingKind, key: string, pinned: Option<bool>, muted: Option<bool>,
                       archived: Option<bool>, now: real)
    requires Inv(db)
    ensures Obeys(db, me, Configure(kind, key, pinned, muted, archived), now,
                  SetSetting(db, me, kind, key, pinned, muted, archived))
  {
    hide Inv, Less, SplitKey, ParseDecimal;
    KeyRule(me, key);
    if SplitKey(key).Some? {
      LessIsStrictTotal(SplitKey(key).value.0, SplitKey(key).value.1);
    }
  }

  // ---------------------------------------------------------------------------------------------
  // Every call

  lemma SigningInObeys(db: Db, me: Sub, url: string, name: string, size: nat, mime: string, now: real)
    ensures Obeys(db, me, AddUser, now, (db.(users := db.users + {me}), Done))
    ensures Obeys(db, me, AddUpload(url, name, size, mime), now,
                  if url in db.uploads then (db, Fail(409))
                  else (db.(uploads := db.uploads[url := Upload(me, name, size, mime)]), Done))
  {
  }

  lemma PeopleObey(db: Db, op: Op)
    requires Inv(db) && op.me in db.users && OnPeople(op.call)
    ensures Obeys(db, op.me, op.call, op.now, Apply(db, op))
  {
    hide Inv, Obeys, SendRequest, AcceptRequest, RejectRequest, RemoveRelationship, CreateGroup, AddMembers,
         RemoveMember, SetMemberRole, SetMemberMute, LeaveGroup, TransferOwnership, DissolveGroup, SendDm, SendGroup,
         Forward, MarkRead, MarkGroupRead, HideMessage, EditMessage, WithdrawMessage, SetReaction, SetStar, Vote,
         ClosePoll, SetSetting;
    var me := op.me;
    match op.call
    case AddUpload(url, name, size, mime) => SigningInObeys(db, me, url, name, size, mime, op.now);
    case RequestFriend(to, reason) => FriendCallsObey(db, me, to, reason, op.now);
    case Accept(from) => FriendCallsObey(db, me, from, "", op.now);
    case Refuse(from) => FriendCallsObey(db, me, from, "", op.now);
    case Unfriend(other) => FriendCallsObey(db, me, other, "", op.now);
    case Configure(kind, key, pinned, muted, archived) =>
      ConfigureObeys(db, me, kind, key, pinned, muted, archived, op.now);
  }

  lemma GroupsObey(db: Db, op: Op)
    requires Inv(db) && op.me in db.users && OnGroups(op.call)
    ensures Obeys(db, op.me, op.call, op.now, Apply(db, op))
  {
    hide Inv, Obeys, SendRequest, AcceptRequest, RejectRequest, RemoveRelationship, CreateGroup, AddMembers,
         RemoveMember, SetMemberRole, SetMemberMute, LeaveGroup, TransferOwnership, DissolveGroup, SendDm, SendGroup,
         Forward, MarkRead, MarkGroupRead, HideMessage, EditMessage, WithdrawMessage, SetReaction, SetStar, Vote,
         ClosePoll, SetSetting;
    var me := op.me;
    match op.call
    case NewGroup(name, invitees) => CreateObeys(db, me, name, invitees, op.now);
    case Invite(g, invitees) => InviteObeys(db, me, g, invitees, op.now);
    case Remove(g, target) => RemoveObeys(db, me, g, target, op.now);
    case SetRole(g, target, role) => SetRoleObeys(db, me, g, target, role, op.now);
    case Mute(g, target, on) => MuteObeys(db, me, g, target, on, op.now);
    case Leave(g) => GroupEndsObey(db, me, g, op.now);
    case Transfer(g, target) => TransferObeys(db, me, g, target, op.now);
    case Dissolve(g) => GroupEndsObey(db, me, g, op.now);
  }

  lemma MessagesObey(db: Db, op: Op)
    requires Inv(db) && op.me in db.users && op.call != AddUser && !OnPeople(op.call) && !OnGroups(op.call)
    ensures Obeys(db, op.me, op.call, op.now, Apply(db, op))
  {
    hide Inv, Obeys, SendRequest, AcceptRequest, RejectRequest, RemoveRelationship, CreateGroup, AddMembers,
         RemoveMember, SetMemberRole, SetMemberMute, LeaveGroup, TransferOwnership, DissolveGroup, SendDm, SendGroup,
         Forward, MarkRead, MarkGroupRead, HideMessage, EditMessage, WithdrawMessage, SetReaction, SetStar, Vote,
         ClosePoll, SetSetting;
    var me := op.me;
    match op.call
    case Send(other, draft) => SendObeys(db, me, other, draft, op.now);
    case SendTo(g, draft, poll) => SendToObeys(db, me, g, draft, poll, op.now);
    case ForwardTo(id, dest) => ForwardObeys(db, me, id, dest, op.now);
    case Read(other, id) => ReadingObeys(db, me, other, 0, id, op.now);
    case ReadGroup(g, id) => ReadingObeys(db, me, me, g, id, op.now);
    case Hide(at, id) => HideObeys(db, me, at, id, op.now);
    case Edit(at, id, content) => RewritingObeys(db, me, at, id, content, op.now);
    case Withdraw(at, id) => RewritingObeys(db, me, at, id, "", op.now);
    case React(at, id, emoji, add) => ReactObeys(db, me, at, id, emoji, add, op.now);
    case Star(id, starred) => StarObeys(db, me, id, starred, op.now);
    case Cast(g, p, indexes) => VoteObeys(db, me, g, p, indexes, op.now);
    case Close(g, p) => CloseObeys(db, me, g, p, op.now);
  }

  lemma SignedInCallsObey(db: Db, op: Op)
    requires Inv(db) && (op.me in db.users || op.call.AddUser?)
    ensures Obeys(db, op.me, op.call, op.now, Apply(db, op))
  {
    hide Inv, Apply, Obeys;
    EdgesOfApply(db, op);
    if op.call == AddUser {
      SigningInObeys(db, op.me, "", "", 0, "", op.now);
    } else if OnPeople(op.call) {
      PeopleObey(db, op);
    } else if OnGroups(op.call) {
      GroupsObey(db, op);
    } else {
      MessagesObey(db, op);
    }
  }

  /** A call succeeds if and only if the rules allow it. A refused call changes nothing and answers with
      the status of the first rule it breaks. */
  lemma SucceedsIffAllowed(db: Db, op: Op)
    requires Inv(db)
    ensures !Apply(db, op).1.Fail? <==> Allowed(db, op)
    ensures !Allowed(db, op) ==>
              && Apply(db, op).0 == db
              && if op.me in db.users then Why(db, op.me, op.call, op.now, Apply(db, op).1.status)
                 else Apply(db, op).1 == Fail(401)
  {
    hide Inv, Apply, MayCall, Why;
    if op.me in db.users || op.call.AddUser? {
      SignedInCallsObey(db, op);
      SigningInIsAllowed(db, op.me, op.now);
    } else {
      EdgesOfApply(db, op);
    }
  }

  lemma SigningInIsAllowed(db: Db, me: Sub, now: real)
    ensures MayCall(db, me, AddUser, now)
  {
  }

  /** The call is about message `id`. A direct read is left out: it asks for the friendship first. */
  predicate Names(c: Call, id: nat) {
    match c
    case ForwardTo(i, _) => i == id
    case ReadGroup(_, i) => i == id
    case Hide(_, i) => i == id
    case Edit(_, i, _) => i == id
    case Withdraw(_, i) => i == id
    case React(_, i, _, _) => i == id
    case Star(i, _) => i == id
    case _ => false
  }

  lemma FoundIsSeen(db: Db, me: Sub, at: Where, id: nat)
    requires Inv(db)
    ensures Found(db, me, at, id) ==> MaySee(db, me, id)
  {
    hide Inv;
    if id in db.messages { ShapeOfStored(db, id); }
  }

  /** Nobody learns from an answer whether a message exists that is none of their business: every call
      about a message out of the caller's sight is answered like one about a missing message. */
  lemma OutOfSightLooksMissing(db: Db, op: Op, id: nat)
    requires Inv(db) && op.me in db.users && Names(op.call, id) && !MaySee(db, op.me, id)
    ensures Apply(db, op) == (db, Fail(404))
  {
    hide Inv, Apply, Found, MaySee;
    SucceedsIffAllowed(db, op);
    forall at ensures !Found(db, op.me, at, id) { FoundIsSeen(db, op.me, at, id); }
  }
}
