/** The tables (app/models.py), and the invariant that every service call keeps. */
module Store {
  import opened Prelude

  datatype Friendship = Friendship(accepted: bool, reason: Option<string>)

  datatype ConvKind = Dm | GroupChat
  datatype ContentType = Plain | Image | File | Audio | PollCard

  datatype Upload = Upload(owner: Sub, name: string, size: nat, mime: string)
  datatype Attachment = Attachment(name: string, size: nat, mime: string, url: string)

  datatype Message = Message(
    sender: Sub, recipient: string, lo: string, hi: string, content: string,
    kind: ConvKind, groupId: Option<nat>, replyTo: Option<nat>, contentType: ContentType, forwarded: bool,
    attachment: Option<Attachment>, pollId: Option<nat>,
    createdAt: real, editedAt: Option<real>, deletedAt: Option<real>)

  datatype Group = Group(name: string, owner: Sub)
  datatype Role = Owner | Admin | Member
  datatype MemberRow = MemberRow(role: Role, muted: bool)

  /** Votes are kept as the set that the stored sorted list of distinct indexes stands for. */
  datatype Poll = Poll(groupId: nat, creator: Sub, question: string, options: seq<string>, multiple: bool, closed: bool)

  datatype SettingKind = DmSetting | GroupSetting
  datatype Setting = Setting(pinned: bool, muted: bool, archived: bool)

  datatype Db = Db(
    users: set<Sub>,
    uploads: map<string, Upload>,
    friendships: map<(Sub, Sub), Friendship>,
    messages: map<nat, Message>, nextMessage: nat,
    hidden: set<(Sub, nat)>,
    dmReads: map<(Sub, string, string), nat>,
    groups: map<nat, Group>, nextGroup: nat,
    members: map<(nat, Sub), MemberRow>,
    groupReads: map<(Sub, nat), nat>,
    polls: map<nat, Poll>, nextPoll: nat,
    votes: map<(nat, Sub), set<int>>,
    reactions: set<(nat, Sub, string)>,
    stars: set<(Sub, nat)>,
    mentions: set<(nat, Sub)>,
    settings: map<(Sub, SettingKind, string), Setting>)

  const EMPTY := Db({}, map[], map[], map[], 1, {}, map[], map[], 1, map[], map[], map[], 1, map[], {}, {}, {}, map[])

  /** What a service call answers: nothing, a new row's id, or an HTTP error. */
  datatype Reply = Done | Created(id: nat) | Fail(status: nat)

  /** A direct conversation or a group. */
  datatype Where = With(other: Sub) | In(group: nat)

  const GROUP_MEMBERS_MAX := 200
  const INVITE_BATCH_MAX := 20

  function GroupMarker(g: nat): string {
    "group:" + Decimal(g)
  }

  predicate InDm(m: Message, a: Sub, b: Sub) {
    (m.lo, m.hi) == PairKey(a, b)
  }

  predicate InGroup(m: Message, g: nat) {
    m.kind == GroupChat && m.groupId == Some(g)
  }

  predicate SameConversation(m: Message, n: Message) {
    m.kind == n.kind && m.lo == n.lo && m.hi == n.hi && m.groupId == n.groupId
  }

  // ---------------------------------------------------------------------------------------------
  // The invariant, one predicate per group of tables

  /** At most one row per unordered pair, none with oneself, none with a stranger. */
  ghost predicate FriendsOk(friendships: map<(Sub, Sub), Friendship>, users: set<Sub>) {
    forall k | k in friendships ::
      k.0 != k.1 && k.0 in users && k.1 in users && (k.1, k.0) !in friendships
  }

  /** A direct message lies between its sender and its recipient; a group message carries the group's
      sentinel in both participant columns. */
  predicate ShapeOk(m: Message) {
    match m.kind
    case Dm =>
      && m.groupId.None? && m.pollId.None? && m.sender != m.recipient
      && ':' !in m.recipient && (m.lo, m.hi) == PairKey(m.sender, m.recipient)
    case GroupChat =>
      && m.groupId.Some? && m.recipient == m.lo == GroupMarker(m.groupId.value) && m.hi == m.lo + ":end"
  }

  ghost predicate MessageOk(messages: map<nat, Message>, id: nat, groups: map<nat, Group>, polls: map<nat, Poll>)
    requires id in messages
  {
    var m := messages[id];
    && ShapeOk(m)
    && (m.contentType == PollCard <==> m.pollId.Some?)
    && (m.groupId.Some? ==> m.groupId.value in groups)
    && (m.replyTo.Some? ==>
          m.replyTo.value < id && m.replyTo.value in messages && SameConversation(messages[m.replyTo.value], m))
    && (m.pollId.Some? ==> m.pollId.value in polls && Some(polls[m.pollId.value].groupId) == m.groupId)
  }

  ghost predicate MessagesOk(messages: map<nat, Message>, next: nat, groups: map<nat, Group>, polls: map<nat, Poll>) {
    forall id | id in messages :: 1 <= id < next && MessageOk(messages, id, groups, polls)
  }

  /** Mentions, reactions and stars name stored messages; hidden rows name ids already given out. */
  ghost predicate RefsOk(messages: map<nat, Message>, mentions: set<(nat, Sub)>,
                         reactions: set<(nat, Sub, string)>, stars: set<(Sub, nat)>) {
    && (forall r | r in mentions :: r.0 in messages)
    && (forall r | r in reactions :: r.0 in messages)
    && (forall r | r in stars :: r.1 in messages)
  }

  ghost predicate HiddenOk(hidden: set<(Sub, nat)>, next: nat) {
    forall r | r in hidden :: r.1 < next
  }

  ghost predicate DmCursorOk(messages: map<nat, Message>, k: (Sub, string, string), id: nat) {
    && (k.0 == k.1 || k.0 == k.2)
    && id in messages
    && messages[id].kind == Dm && messages[id].lo == k.1 && messages[id].hi == k.2
  }

  ghost predicate CursorCovers(dmReads: map<(Sub, string, string), nat>, m: Message, id: nat) {
    OwnCursor(m) in dmReads && id <= dmReads[OwnCursor(m)]
  }

  /** A DM cursor belongs to one of the pair and names a message of the pair, and nobody's cursor is
      behind a direct message of their own. */
  ghost predicate DmReadsOk(messages: map<nat, Message>, dmReads: map<(Sub, string, string), nat>) {
    && (forall k | k in dmReads :: DmCursorOk(messages, k, dmReads[k]))
    && (forall id | id in messages && messages[id].kind == Dm :: CursorCovers(dmReads, messages[id], id))
  }

  function OwnCursor(m: Message): (Sub, string, string) {
    (m.sender, m.lo, m.hi)
  }

  /** A group cursor belongs to a current member and names a message of the group. */
  ghost predicate GroupReadsOk(messages: map<nat, Message>, groupReads: map<(Sub, nat), nat>,
                               members: map<(nat, Sub), MemberRow>) {
    forall k | k in groupReads ::
      && (k.1, k.0) in members
      && groupReads[k] in messages && InGroup(messages[groupReads[k]], k.1)
  }

  /** Every group has one owner, the member row of `owner_sub`, and members are users. */
  ghost predicate RolesOk(groups: map<nat, Group>, next: nat, members: map<(nat, Sub), MemberRow>, users: set<Sub>) {
    && (forall g | g in groups ::
          1 <= g < next && (g, groups[g].owner) in members && members[(g, groups[g].owner)].role == Owner)
    && (forall k | k in members ::
          k.0 in groups && k.1 in users && (members[k].role == Owner ==> k.1 == groups[k.0].owner))
  }

  function MemberRows(members: map<(nat, Sub), MemberRow>, g: nat): set<(nat, Sub)> {
    set k | k in members && k.0 == g
  }

  ghost predicate CapacityOk(groups: map<nat, Group>, members: map<(nat, Sub), MemberRow>) {
    forall g | g in groups :: |MemberRows(members, g)| <= GROUP_MEMBERS_MAX
  }

  predicate OptionsOk(options: seq<string>) {
    && 2 <= |options| <= 10
    && (forall o | o in options :: 1 <= |o| <= 60)
    && forall i, j | 0 <= i < j < |options| :: options[i] != options[j]
  }

  predicate ChoiceOk(choice: set<int>, p: Poll) {
    && choice != {}
    && (forall i | i in choice :: 0 <= i < |p.options|)
    && (p.multiple || |choice| == 1)
  }

  ghost predicate PollsOk(polls: map<nat, Poll>, next: nat, votes: map<(nat, Sub), set<int>>, groups: map<nat, Group>) {
    && (forall p | p in polls :: 1 <= p < next && polls[p].groupId in groups && OptionsOk(polls[p].options))
    && (forall v | v in votes :: v.0 in polls && ChoiceOk(votes[v], polls[v.0]))
  }

  ghost predicate Inv(db: Db) {
    && FriendsOk(db.friendships, db.users)
    && MessagesOk(db.messages, db.nextMessage, db.groups, db.polls)
    && RefsOk(db.messages, db.mentions, db.reactions, db.stars)
    && HiddenOk(db.hidden, db.nextMessage)
    && DmReadsOk(db.messages, db.dmReads)
    && GroupReadsOk(db.messages, db.groupReads, db.members)
    && RolesOk(db.groups, db.nextGroup, db.members, db.users)
    && CapacityOk(db.groups, db.members)
    && PollsOk(db.polls, db.nextPoll, db.votes, db.groups)
    && 1 <= db.nextMessage && 1 <= db.nextPoll && 1 <= db.nextGroup
  }

  lemma MarkerIsNoSub(g: nat)
    ensures ':' in GroupMarker(g)
  {
  }

  /** Nothing about messages, who sees them, DM cursors or group rows differs. */
  ghost predicate Quiet(db: Db, t: Db) {
    && t.messages == db.messages && t.nextMessage == db.nextMessage && t.hidden == db.hidden
    && t.dmReads == db.dmReads && t.groups == db.groups && t.nextGroup == db.nextGroup
  }

  /** A direct message from one of the two to the other. */
  predicate Between(m: Message, a: Sub, b: Sub) {
    && m.kind == Dm && m.sender != m.recipient
    && ((m.sender == a && m.recipient == b) || (m.sender == b && m.recipient == a))
  }

  /** The participant columns find exactly the direct messages between two users: a group's sentinels
      never get in the way. */
  lemma ConversationsAreApart(m: Message, a: Sub, b: Sub)
    requires ShapeOk(m)
    ensures InDm(m, a, b) <==> Between(m, a, b)
  {
    if m.kind == Dm {
      PairKeyIdentifiesPair(m.sender, m.recipient, a, b);
    } else {
      assert ':' in m.lo;
    }
  }
}
