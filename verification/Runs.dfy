/** Runs of service calls over the tables: what every call keeps and what only some calls change. */
module Runs {
  import opened Prelude
  import opened Store
  import opened Friends
  import opened Groups
  import opened Messages
  import opened MessagesInv

  datatype Call =
    | AddUser
    | AddUpload(url: string, name: string, size: nat, mime: string)
    | RequestFriend(to: Sub, reason: string)
    | Accept(from: Sub)
    | Refuse(from: Sub)
    | Unfriend(other: Sub)
    | NewGroup(name: string, invitees: seq<Sub>)
    | Invite(g: nat, invitees: seq<Sub>)
    | Remove(g: nat, target: Sub)
    | SetRole(g: nat, target: Sub, role: Role)
    | Mute(g: nat, target: Sub, on: bool)
    | Leave(g: nat)
    | Transfer(g: nat, target: Sub)
    | Dissolve(g: nat)
    | Send(other: Sub, draft: Draft)
    | SendTo(g: nat, draft: Draft, poll: Option<PollDraft>)
    | ForwardTo(id: nat, dest: Where)
    | Read(other: Sub, id: nat)
    | ReadGroup(g: nat, id: nat)
    | Hide(at: Where, id: nat)
    | Edit(at: Where, id: nat, content: string)
    | Withdraw(at: Where, id: nat)
    | React(at: Where, id: nat, emoji: string, add: bool)
    | Star(id: nat, starred: bool)
    | Cast(g: nat, p: nat, indexes: seq<int>)
    | Close(g: nat, p: nat)
    | Configure(kind: SettingKind, key: string, pinned: Option<bool>, muted: Option<bool>, archived: Option<bool>)

  /** A call with its authenticated caller and the time at which it is served. */
  datatype Op = Op(me: Sub, call: Call, now: real)

  /** One call. Only AddUser (the sign-in that stores the caller) works for an unknown caller. */
  function Apply(db: Db, op: Op): (Db, Reply) {
    var me := op.me;
    if op.call == AddUser then (db.(users := db.users + {me}), Done)
    else if me !in db.users then (db, Fail(401))
    else
      match op.call
      case AddUser => (db, Done)
      case AddUpload(url, name, size, mime) =>
        if url in db.uploads then (db, Fail(409))
        else (db.(uploads := db.uploads[url := Upload(me, name, size, mime)]), Done)
      case RequestFriend(to, reason) => SendRequest(db, me, to, reason)
      case Accept(from) => AcceptRequest(db, me, from)
      case Refuse(from) => RejectRequest(db, me, from)
      case Unfriend(other) => RemoveRelationship(db, me, other)
      case NewGroup(name, invitees) => CreateGroup(db, me, name, invitees)
      case Invite(g, invitees) => AddMembers(db, me, g, invitees)
      case Remove(g, target) => RemoveMember(db, me, g, target)
      case SetRole(g, target, role) => SetMemberRole(db, me, g, target, role)
      case Mute(g, target, on) => SetMemberMute(db, me, g, target, on)
      case Leave(g) => LeaveGroup(db, me, g)
      case Transfer(g, target) => TransferOwnership(db, me, g, target)
      case Dissolve(g) => DissolveGroup(db, me, g)
      case Send(other, draft) => SendDm(db, me, other, draft, op.now)
      case SendTo(g, draft, poll) => SendGroup(db, me, g, draft, poll, op.now)
      case ForwardTo(id, dest) => Forward(db, me, id, dest, op.now)
      case Read(other, id) => MarkRead(db, me, other, id)
      case ReadGroup(g, id) => MarkGroupRead(db, me, g, id)
      case Hide(at, id) => HideMessage(db, me, at, id)
      case Edit(at, id, content) => EditMessage(db, me, at, id, content, op.now)
      case Withdraw(at, id) => WithdrawMessage(db, me, at, id, op.now)
      case React(at, id, emoji, add) => SetReaction(db, me, at, id, emoji, add)
      case Star(id, starred) => SetStar(db, me, id, starred)
      case Cast(g, p, indexes) => Vote(db, me, g, p, indexes)
      case Close(g, p) => ClosePoll(db, me, g, p)
      case Configure(kind, key, pinned, muted, archived) => SetSetting(db, me, kind, key, pinned, muted, archived)
  }

  function Run(db: Db, ops: seq<Op>): Db
    decreases |ops|
  {
    if ops == [] then db else Apply(Run(db, ops[..|ops| - 1]), ops[|ops| - 1]).0
  }

  lemma MoreUsersKeepInv(db: Db, u: Sub)
    requires Inv(db)
    ensures Inv(db.(users := db.users + {u}))
  {
    hide MessagesOk, HiddenOk, DmReadsOk, GroupReadsOk, CapacityOk, RefsOk, PollsOk;
  }

  lemma MoreUploadsKeepInv(db: Db, uploads: map<string, Upload>)
    requires Inv(db)
    ensures Inv(db.(uploads := uploads))
  {
    hide MessagesOk, HiddenOk, DmReadsOk, GroupReadsOk, CapacityOk, RefsOk, PollsOk, FriendsOk, RolesOk;
  }

  predicate OnPeople(c: Call) {
    c.AddUpload? || c.RequestFriend? || c.Accept? || c.Refuse? || c.Unfriend? || c.Configure?
  }

  predicate OnRoles(c: Call) {
    c.Remove? || c.SetRole? || c.Mute? || c.Transfer?
  }

  predicate OnGroups(c: Call) {
    || c.NewGroup? || c.Invite? || c.Remove? || c.SetRole? || c.Mute? || c.Leave? || c.Transfer? || c.Dissolve?
  }

  lemma EdgesOfApply(db: Db, op: Op)
    ensures op.call == AddUser ==> Apply(db, op) == (db.(users := db.users + {op.me}), Done)
    ensures op.call != AddUser && op.me !in db.users ==> Apply(db, op) == (db, Fail(401))
  {
    hide SendRequest, AcceptRequest, RejectRequest, RemoveRelationship, CreateGroup, AddMembers, RemoveMember,
         SetMemberRole, SetMemberMute, LeaveGroup, TransferOwnership, DissolveGroup, SendDm, SendGroup, Forward,
         MarkRead, MarkGroupRead, HideMessage, EditMessage, WithdrawMessage, SetReaction, SetStar, Vote, ClosePoll,
         SetSetting;
  }

  lemma PeopleKeepInv(db: Db, op: Op)
    requires Inv(db) && op.me in db.users && OnPeople(op.call)
    ensures Inv(Apply(db, op).0)
  {
    hide Inv, SendRequest, AcceptRequest, RejectRequest, RemoveRelationship, CreateGroup, AddMembers, RemoveMember,
         SetMemberRole, SetMemberMute, LeaveGroup, TransferOwnership, DissolveGroup, SendDm, SendGroup, Forward,
         MarkRead, MarkGroupRead, HideMessage, EditMessage, WithdrawMessage, SetReaction, SetStar, Vote, ClosePoll,
         SetSetting;
    var me := op.me;
    match op.call
    case AddUpload(url, name, size, mime) => MoreUploadsKeepInv(db, db.uploads[url := Upload(me, name, size, mime)]);
    case RequestFriend(to, reason) => SendRequestKeepsInv(db, me, to, reason);
    case Accept(from) => AcceptRequestKeepsInv(db, me, from);
    case Refuse(from) => RejectRequestKeepsInv(db, me, from);
    case Unfriend(other) => RemoveRelationshipKeepsInv(db, me, other);
    case Configure(kind, key, pinned, muted, archived) => SettingKeepsInv(db, me, kind, key, pinned, muted, archived);
  }

  lemma GroupsKeepInv(db: Db, op: Op)
    requires Inv(db) && op.me in db.users && OnGroups(op.call)
    ensures Inv(Apply(db, op).0)
  {
    hide Inv, SendRequest, AcceptRequest, RejectRequest, RemoveRelationship, CreateGroup, AddMembers, RemoveMember,
         SetMemberRole, SetMemberMute, LeaveGroup, TransferOwnership, DissolveGroup, SendDm, SendGroup, Forward,
         MarkRead, MarkGroupRead, HideMessage, EditMessage, WithdrawMessage, SetReaction, SetStar, Vote, ClosePoll,
         SetSetting;
    var me := op.me;
    match op.call
    case NewGroup(name, invitees) => CreateGroupKeepsInv(db, me, name, invitees);
    case Invite(g, invitees) => AddMembersKeepsInv(db, me, g, invitees);
    case Remove(g, target) => RemoveMemberKeepsInv(db, me, g, target);
    case SetRole(g, target, role) => SetMemberRoleKeepsInv(db, me, g, target, role);
    case Mute(g, target, on) => SetMemberMuteKeepsInv(db, me, g, target, on);
    case Leave(g) => LeaveGroupKeepsInv(db, me, g);
    case Transfer(g, target) => TransferKeepsInv(db, me, g, target);
    case Dissolve(g) => DissolveKeepsInv(db, me, g);
  }

  lemma MessagesKeepInv(db: Db, op: Op)
    requires Inv(db) && op.me in db.users && op.call != AddUser && !OnPeople(op.call) && !OnGroups(op.call)
    ensures Inv(Apply(db, op).0)
  {
    hide Inv, SendRequest, AcceptRequest, RejectRequest, RemoveRelationship, CreateGroup, AddMembers, RemoveMember,
         SetMemberRole, SetMemberMute, LeaveGroup, TransferOwnership, DissolveGroup, SendDm, SendGroup, Forward,
         MarkRead, MarkGroupRead, HideMessage, EditMessage, WithdrawMessage, SetReaction, SetStar, Vote, ClosePoll,
         SetSetting;
    var me := op.me;
    match op.call
    case Send(other, draft) => SendDmKeepsInv(db, me, other, draft, op.now);
    case SendTo(g, draft, poll) => SendGroupKeepsInv(db, me, g, draft, poll, op.now);
    case ForwardTo(id, dest) => ForwardKeepsInv(db, me, id, dest, op.now);
    case Read(other, id) => MarkReadKeepsInv(db, me, other, id);
    case ReadGroup(g, id) => MarkGroupReadKeepsInv(db, me, g, id);
    case Hide(at, id) => HideKeepsInv(db, me, at, id);
    case Edit(at, id, content) => EditKeepsInv(db, me, at, id, content, op.now);
    case Withdraw(at, id) => EditKeepsInv(db, me, at, id, "", op.now);
    case React(at, id, emoji, add) => ReactKeepsInv(db, me, at, id, emoji, add);
    case Star(id, starred) => StarKeepsInv(db, me, id, starred);
    case Cast(g, p, indexes) => VoteKeepsInv(db, me, g, p, indexes);
    case Close(g, p) => ClosePollKeepsInv(db, me, g, p);
  }

  /** Every call keeps the invariant. */
  lemma ApplyKeepsInv(db: Db, op: Op)
    requires Inv(db)
    ensures Inv(Apply(db, op).0)
  {
    hide Inv, Apply;
    EdgesOfApply(db, op);
    if op.call == AddUser {
      MoreUsersKeepInv(db, op.me);
    } else if op.me in db.users {
      if OnPeople(op.call) {
        PeopleKeepInv(db, op);
      } else if OnGroups(op.call) {
        GroupsKeepInv(db, op);
      } else {
        MessagesKeepInv(db, op);
      }
    }
  }

  lemma EmptyIsInv()
    ensures Inv(EMPTY)
  {
  }

  /** The invariant holds in every reachable state. */
  lemma {:induction false} RunKeepsInv(ops: seq<Op>)
    ensures Inv(Run(EMPTY, ops))
  {
    hide Inv, Apply;
    if ops == [] {
      EmptyIsInv();
    } else {
      RunKeepsInv(ops[..|ops| - 1]);
      ApplyKeepsInv(Run(EMPTY, ops[..|ops| - 1]), ops[|ops| - 1]);
    }
  }
}
