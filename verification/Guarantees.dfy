/** What follows for every reachable state and every single call: ownership, capacity, cursors, and
    which messages a call can make appear or disappear. */
module Guarantees {
  import opened Prelude
  import opened Text
  import opened Store
  import opened Friends
  import opened Groups
  import opened Messages
  import opened MessagesInv
  import opened Runs

  /** A call leaves group rows and hidden rows alone, moves DM cursors only forward, keeps every
      message in its place, and gives a new one an id above all earlier ones. */
  ghost predicate Steady(db: Db, t: Db) {
    && t.groups == db.groups && t.nextGroup == db.nextGroup && t.hidden == db.hidden
    && CursorsGrow(db.dmReads, t.dmReads)
    && MessagesGrow(db, t)
  }

  ghost predicate CursorsGrow(before: map<(Sub, string, string), nat>, after: map<(Sub, string, string), nat>) {
    forall k | k in before :: k in after && before[k] <= after[k]
  }

  ghost predicate MessagesGrow(db: Db, t: Db) {
    && (forall id | id in db.messages :: id in t.messages && SamePlace(t.messages[id], db.messages[id]))
    && (forall id | id in t.messages && id !in db.messages :: id == db.nextMessage < t.nextMessage)
    && db.nextMessage <= t.nextMessage
  }

  predicate IsSteady(c: Call) {
    !(c.NewGroup? || c.Transfer? || c.Dissolve? || c.Hide?)
  }

  lemma QuietIsSteady(db: Db, t: Db)
    requires Quiet(db, t)
    ensures Steady(db, t)
  {
  }

  lemma RewriteIsSteady(db: Db, id: nat, m: Message)
    requires id in db.messages && SamePlace(m, db.messages[id])
    ensures Steady(db, db.(messages := db.messages[id := m]))
  {
  }

  lemma PostDmIsSteady(db: Db, m: Message, mentions: set<Sub>)
    requires db.nextMessage !in db.messages
    ensures Steady(db, PostDm(db, m, mentions))
  {
    hide NewRows, OwnCursor;
  }

  lemma PostGroupIsSteady(db: Db, g: nat, m: Message, mentions: set<Sub>)
    requires db.nextMessage !in db.messages
    ensures Steady(db, PostGroup(db, g, m, mentions))
  {
    hide NewRows, Raise;
  }

  lemma SendIsSteady(db: Db, me: Sub, other: Sub, d: Draft, now: real)
    requires db.nextMessage !in db.messages
    ensures Steady(db, SendDm(db, me, other, d, now).0)
  {
    hide Steady, PostDm, SendDmError, DirectMessage, Attached;
    QuietIsSteady(db, db);
    PostDmIsSteady(db, DirectMessage(me, other, d.content, d.contentType, false, Attached(db, d.attachment),
                                     d.replyTo, now),
                   Elements(d.mentions));
  }

  lemma QuietThenSteady(db: Db, mid: Db, t: Db)
    requires Quiet(db, mid) && Steady(mid, t)
    ensures Steady(db, t)
  {
  }

  lemma SendToIsSteady(db: Db, me: Sub, g: nat, d: Draft, poll: Option<PollDraft>, now: real)
    requires db.nextMessage !in db.messages
    ensures Steady(db, SendGroup(db, me, g, d, poll, now).0)
  {
    hide Steady, PostGroup, GroupMessage, Attached, PollError, Strip, CleanOptions;
    QuietIsSteady(db, db);
    if SendGroupError(db, me, g, d, poll).None? {
      if poll.Some? {
        var mid := NewPoll(db, me, g, poll.value);
        var t := SendGroup(db, me, g, d, poll, now).0;
        PostGroupIsSteady(mid, g, GroupMessage(me, g, d.content, PollCard, false, None, None, Some(db.nextPoll), now),
                          Elements(d.mentions));
        QuietThenSteady(db, mid, t);
      } else {
        PostGroupIsSteady(db, g, GroupMessage(me, g, d.content, d.contentType, false, Attached(db, d.attachment),
                                              d.replyTo, None, now), Elements(d.mentions));
      }
    }
  }

  lemma ForwardIsSteady(db: Db, me: Sub, id: nat, to: Where, now: real)
    requires db.nextMessage !in db.messages
    ensures Steady(db, Forward(db, me, id, to, now).0)
  {
    hide Steady, PostDm, PostGroup, ForwardError, DirectMessage, GroupMessage;
    QuietIsSteady(db, db);
    if ForwardError(db, me, id, to).None? {
      ForwardedIsStored(db, me, id, to);
      var src := db.messages[id];
      match to
      case In(g) =>
        PostGroupIsSteady(
          db, g, GroupMessage(me, g, src.content, src.contentType, true, src.attachment, None, None, now), {});
      case With(other) =>
        PostDmIsSteady(db, DirectMessage(me, other, src.content, src.contentType, true, src.attachment, None, now), {});
    }
  }

  lemma ForwardedIsStored(db: Db, me: Sub, id: nat, to: Where)
    requires ForwardError(db, me, id, to).None?
    ensures id in db.messages
  {
  }

  lemma RaiseIsSteady(db: Db, k: (Sub, string, string), id: nat)
    ensures Steady(db, db.(dmReads := Raise(db.dmReads, k, id)))
  {
  }

  lemma ReadIsSteady(db: Db, me: Sub, other: Sub, id: nat)
    ensures Steady(db, MarkRead(db, me, other, id).0)
  {
    hide Steady, AreFriends, Raise, InDm;
    QuietIsSteady(db, db);
    RaiseIsSteady(db, (me, PairKey(me, other).0, PairKey(me, other).1), id);
  }

  lemma EditIsSteady(db: Db, me: Sub, at: Where, id: nat, content: string, now: real)
    ensures Steady(db, EditMessage(db, me, at, id, content, now).0)
    ensures Steady(db, WithdrawMessage(db, me, at, id, now).0)
  {
    hide Steady;
    QuietIsSteady(db, db);
    if EditError(db, me, at, id, now).None? {
      RewriteIsSteady(db, id, db.messages[id].(content := content, editedAt := Some(now)));
      RewriteIsSteady(db, id, db.messages[id].(content := "", deletedAt := Some(now)));
    }
  }

  predicate IsQuiet(c: Call) {
    IsSteady(c) && !(c.Send? || c.SendTo? || c.ForwardTo? || c.Read? || c.Edit? || c.Withdraw?)
  }

  lemma NewRowsAreQuiet(db: Db, users: set<Sub>, uploads: map<string, Upload>)
    ensures Quiet(db, db) && Quiet(db, db.(users := users)) && Quiet(db, db.(uploads := uploads))
  {
  }

  lemma QuietCalls(db: Db, op: Op)
    requires IsQuiet(op.call)
    ensures Quiet(db, Apply(db, op).0)
  {
    NewRowsAreQuiet(db, db.users + {op.me}, Apply(db, op).0.uploads);
    hide Quiet, SendRequest, AcceptRequest, RejectRequest, RemoveRelationship, CreateGroup, AddMembers, RemoveMember,
         SetMemberRole, SetMemberMute, LeaveGroup, TransferOwnership, DissolveGroup, SendDm, SendGroup, Forward,
         MarkRead, MarkGroupRead, HideMessage, EditMessage, WithdrawMessage, SetReaction, SetStar, Vote, ClosePoll,
         SetSetting;
  }

  /** The calls that are steady without being quiet, by name. */
  lemma MessageCalls(db: Db, op: Op)
    requires IsSteady(op.call) && !IsQuiet(op.call) && op.me in db.users
    ensures op.call.Send? ==> Apply(db, op) == SendDm(db, op.me, op.call.other, op.call.draft, op.now)
    ensures op.call.SendTo? ==> Apply(db, op) == SendGroup(db, op.me, op.call.g, op.call.draft, op.call.poll, op.now)
    ensures op.call.ForwardTo? ==> Apply(db, op) == Forward(db, op.me, op.call.id, op.call.dest, op.now)
    ensures op.call.Read? ==> Apply(db, op) == MarkRead(db, op.me, op.call.other, op.call.id)
    ensures op.call.Edit? ==> Apply(db, op) == EditMessage(db, op.me, op.call.at, op.call.id, op.call.content, op.now)
    ensures op.call.Withdraw? ==> Apply(db, op) == WithdrawMessage(db, op.me, op.call.at, op.call.id, op.now)
  {
    hide SendRequest, AcceptRequest, RejectRequest, RemoveRelationship, CreateGroup, AddMembers, RemoveMember,
         SetMemberRole, SetMemberMute, LeaveGroup, TransferOwnership, DissolveGroup, SendDm, SendGroup, Forward,
         MarkRead, MarkGroupRead, HideMessage, EditMessage, WithdrawMessage, SetReaction, SetStar, Vote, ClosePoll,
         SetSetting;
  }

  lemma SteadyCalls(db: Db, op: Op)
    requires IsSteady(op.call) && db.nextMessage !in db.messages
    ensures Steady(db, Apply(db, op).0)
  {
    hide Steady, Apply, SendDm, SendGroup, Forward, MarkRead, EditMessage, WithdrawMessage;
    if IsQuiet(op.call) {
      QuietCalls(db, op);
      QuietIsSteady(db, Apply(db, op).0);
    } else if op.me !in db.users {
      StrangersChangeNothing(db, op);
      QuietIsSteady(db, db);
    } else {
      MessageCalls(db, op);
      match op.call
      case Send(other, draft) => SendIsSteady(db, op.me, other, draft, op.now);
      case SendTo(g, draft, poll) => SendToIsSteady(db, op.me, g, draft, poll, op.now);
      case ForwardTo(id, dest) => ForwardIsSteady(db, op.me, id, dest, op.now);
      case Read(other, id) => ReadIsSteady(db, op.me, other, id);
      case Edit(at, id, content) => EditIsSteady(db, op.me, at, id, content, op.now);
      case Withdraw(at, id) => EditIsSteady(db, op.me, at, id, "", op.now);
    }
  }

  lemma NextIsFree(db: Db)
    requires Inv(db)
    ensures db.nextMessage !in db.messages && db.nextGroup !in db.groups
  {
  }

  /** The four calls that are not steady, by name. */
  lemma UnsteadyCalls(db: Db, op: Op)
    requires !IsSteady(op.call) && op.me in db.users
    ensures op.call.NewGroup? ==> Apply(db, op) == CreateGroup(db, op.me, op.call.name, op.call.invitees)
    ensures op.call.Transfer? ==> Apply(db, op) == TransferOwnership(db, op.me, op.call.g, op.call.target)
    ensures op.call.Dissolve? ==> Apply(db, op) == DissolveGroup(db, op.me, op.call.g)
    ensures op.call.Hide? ==> Apply(db, op) == HideMessage(db, op.me, op.call.at, op.call.id)
  {
    hide SendRequest, AcceptRequest, RejectRequest, RemoveRelationship, CreateGroup, AddMembers, RemoveMember,
         SetMemberRole, SetMemberMute, LeaveGroup, TransferOwnership, DissolveGroup, SendDm, SendGroup, Forward,
         MarkRead, MarkGroupRead, HideMessage, EditMessage, WithdrawMessage, SetReaction, SetStar, Vote, ClosePoll,
         SetSetting;
  }

  lemma StrangersChangeNothing(db: Db, op: Op)
    requires op.me !in db.users && op.call != AddUser
    ensures Apply(db, op).0 == db
  {
    hide SendRequest, AcceptRequest, RejectRequest, RemoveRelationship, CreateGroup, AddMembers, RemoveMember,
         SetMemberRole, SetMemberMute, LeaveGroup, TransferOwnership, DissolveGroup, SendDm, SendGroup, Forward,
         MarkRead, MarkGroupRead, HideMessage, EditMessage, WithdrawMessage, SetReaction, SetStar, Vote, ClosePoll,
         SetSetting;
  }

  // ---------------------------------------------------------------------------------------------
  // Ownership and capacity

  /** A reachable group has exactly one owner row, that of `owner_sub`, and at most 200 members. */
  lemma OneOwnerAndCapacity(ops: seq<Op>, g: nat)
    requires g in Run(EMPTY, ops).groups
    ensures var db := Run(EMPTY, ops);
      && (forall u: Sub :: (g, u) in db.members && db.members[(g, u)].role == Owner <==> u == db.groups[g].owner)
      && |MemberRows(db.members, g)| <= GROUP_MEMBERS_MAX
  {
    RunKeepsInv(ops);
  }

  lemma HideOnlyHides(db: Db, me: Sub, at: Where, id: nat)
    ensures var t := HideMessage(db, me, at, id).0;
      && t.groups == db.groups && t.nextGroup == db.nextGroup && t.dmReads == db.dmReads
      && t.messages == db.messages && t.nextMessage == db.nextMessage
      && (t.hidden == db.hidden || t.hidden == db.hidden + {(me, id)})
  {
    hide InGroup, InDm;
  }

  lemma CreateAddsGroup(db: Db, me: Sub, name: string, invitees: seq<Sub>)
    ensures var t := CreateGroup(db, me, name, invitees).0;
      t == db || t == db.(groups := db.groups[db.nextGroup := Group(Strip(name), me)], nextGroup := db.nextGroup + 1,
                          members := t.members)
  {
    hide Enrol, InviteError, Strip, Elements;
  }

  lemma TransferTouchesRoles(db: Db, me: Sub, g: nat, target: Sub)
    ensures var t := TransferOwnership(db, me, g, target).0; t == db.(members := t.members, groups := t.groups)
  {
    hide RequireRole;
  }

  lemma WithoutGroupFrame(db: Db, g: nat)
    ensures var t := WithoutGroup(db, g);
      && t.dmReads == db.dmReads && t.hidden == db.hidden && t.nextMessage == db.nextMessage
      && t.messages == MessagesWithout(db.messages, g) && t.groups == db.groups - {g} && t.nextGroup == db.nextGroup
  {
    hide VotesWithout, PollsWithout, MentionsWithout, ReactionsWithout, StarsWithout, MessagesWithout, ReadsWithout,
         MembersWithout, SettingsWithout;
  }

  lemma DissolveKeepsCursors(db: Db, me: Sub, g: nat)
    ensures var t := DissolveGroup(db, me, g).0;
      && t.dmReads == db.dmReads && t.hidden == db.hidden && t.nextMessage == db.nextMessage
      && (t.messages == db.messages || t.messages == MessagesWithout(db.messages, g))
      && (t.groups == db.groups || t.groups == db.groups - {g}) && t.nextGroup == db.nextGroup
  {
    hide RequireRole, WithoutGroup;
    WithoutGroupFrame(db, g);
  }

  lemma CreateKeepsOwners(db: Db, me: Sub, name: string, invitees: seq<Sub>, h: nat)
    requires h in db.groups && h != db.nextGroup
    ensures var t := CreateGroup(db, me, name, invitees).0; h in t.groups && t.groups[h] == db.groups[h]
  {
    hide CreateGroup;
    CreateAddsGroup(db, me, name, invitees);
  }

  lemma DissolveKeepsOwners(db: Db, me: Sub, g: nat, h: nat)
    ensures var t := DissolveGroup(db, me, g).0; h in t.groups ==> h in db.groups && t.groups[h] == db.groups[h]
  {
    hide OfGroup, PollOfGroup, RequireRole;
  }

  lemma TransferMovesOwner(db: Db, me: Sub, g: nat, target: Sub, h: nat)
    requires RolesOk(db.groups, db.nextGroup, db.members, db.users) && h in db.groups
    ensures var t := TransferOwnership(db, me, g, target).0;
      && h in t.groups
      && (t.groups[h].owner != db.groups[h].owner ==> h == g && me == db.groups[h].owner && t.groups[h].owner == target)
  {
  }

  predicate OwnerKept(db: Db, t: Db, op: Op, g: nat)
    requires g in db.groups && g in t.groups
  {
    || t.groups[g].owner == db.groups[g].owner
    || (op.call.Transfer? && op.call.g == g && op.me == db.groups[g].owner && t.groups[g].owner == op.call.target)
  }

  lemma OwnerStays(db: Db, op: Op, g: nat)
    requires Inv(db) && g in db.groups && g in Apply(db, op).0.groups
    ensures OwnerKept(db, Apply(db, op).0, op, g)
  {
    hide Apply, MessagesGrow, CursorsGrow, CreateGroup, DissolveGroup, HideMessage, TransferOwnership, MessagesOk,
         HiddenOk, DmReadsOk, GroupReadsOk, CapacityOk, RefsOk, PollsOk, FriendsOk, RolesOk;
    NextIsFree(db);
    if IsSteady(op.call) {
      SteadyCalls(db, op);
    } else if op.me !in db.users {
      StrangersChangeNothing(db, op);
    } else {
      UnsteadyCalls(db, op);
      match op.call
      case NewGroup(name, invitees) => CreateKeepsOwners(db, op.me, name, invitees, g);
      case Transfer(h, target) => TransferMovesOwner(db, op.me, h, target, g);
      case Dissolve(h) => DissolveKeepsOwners(db, op.me, h, g);
      case Hide(at, id) => HideOnlyHides(db, op.me, at, id);
    }
  }

  /** The owner changes only by the owner's own transfer, and then to its target. */
  lemma OwnerChangesOnlyByTransfer(db: Db, op: Op)
    requires Inv(db)
    ensures forall g | g in db.groups && g in Apply(db, op).0.groups :: OwnerKept(db, Apply(db, op).0, op, g)
  {
    hide Apply, Inv, OwnerKept;
    forall g | g in db.groups && g in Apply(db, op).0.groups ensures OwnerKept(db, Apply(db, op).0, op, g) {
      OwnerStays(db, op, g);
    }
  }

  /** No group appears but one with the next id. */
  ghost predicate GroupsGrow(db: Db, t: Db) {
    && (forall g | g in t.groups :: g in db.groups || g == db.nextGroup)
    && db.nextGroup <= t.nextGroup
  }

  lemma CreateGrowsGroups(db: Db, me: Sub, name: string, invitees: seq<Sub>)
    ensures GroupsGrow(db, CreateGroup(db, me, name, invitees).0)
  {
    hide CreateGroup;
    CreateAddsGroup(db, me, name, invitees);
  }

  lemma TransferGrowsGroups(db: Db, me: Sub, g: nat, target: Sub)
    ensures GroupsGrow(db, TransferOwnership(db, me, g, target).0)
  {
    hide RequireRole;
  }

  lemma DissolveGrowsGroups(db: Db, me: Sub, g: nat)
    ensures GroupsGrow(db, DissolveGroup(db, me, g).0)
  {
    hide DissolveGroup;
    DissolveKeepsCursors(db, me, g);
  }

  lemma SameGroupsGrow(db: Db, t: Db)
    requires t.groups == db.groups && t.nextGroup == db.nextGroup
    ensures GroupsGrow(db, t)
  {
  }

  lemma SteadyGroupsGrow(db: Db, t: Db)
    requires Steady(db, t)
    ensures GroupsGrow(db, t)
  {
    hide CursorsGrow, MessagesGrow;
  }

  /** No call makes a group appear but one with the next id: ids are not given out again. */
  lemma GroupsNeverReturn(db: Db, op: Op)
    requires Inv(db)
    ensures GroupsGrow(db, Apply(db, op).0)
  {
    hide Inv, Apply, Steady, GroupsGrow, CreateGroup, TransferOwnership, DissolveGroup, HideMessage;
    NextIsFree(db);
    if IsSteady(op.call) {
      SteadyCalls(db, op);
      SteadyGroupsGrow(db, Apply(db, op).0);
    } else if op.me !in db.users {
      StrangersChangeNothing(db, op);
      SameGroupsGrow(db, db);
    } else {
      UnsteadyCalls(db, op);
      match op.call
      case NewGroup(name, invitees) => CreateGrowsGroups(db, op.me, name, invitees);
      case Transfer(h, target) => TransferGrowsGroups(db, op.me, h, target);
      case Dissolve(h) => DissolveGrowsGroups(db, op.me, h);
      case Hide(at, id) =>
        HideOnlyHides(db, op.me, at, id);
        SameGroupsGrow(db, Apply(db, op).0);
    }
  }

  /** Nor does it come back over any run. */
  lemma {:induction false} GroupStaysGone(db: Db, ops: seq<Op>, g: nat)
    requires Inv(db) && g < db.nextGroup && g !in db.groups
    ensures Inv(Run(db, ops)) && g < Run(db, ops).nextGroup && g !in Run(db, ops).groups
  {
    hide Inv, Apply;
    if ops == [] {
    } else {
      var before, op := ops[..|ops| - 1], ops[|ops| - 1];
      GroupStaysGone(db, before, g);
      GroupsNeverReturn(Run(db, before), op);
      ApplyKeepsInv(Run(db, before), op);
    }
  }

  /** Handing the group to oneself changes nothing, although both assignments hit one row. */
  lemma SelfTransferIsIdentity(db: Db, me: Sub, g: nat)
    requires Inv(db) && TransferOwnership(db, me, g, me).1 == Done
    ensures TransferOwnership(db, me, g, me).0 == db
  {
    hide MessagesOk, HiddenOk, DmReadsOk, GroupReadsOk, CapacityOk, RefsOk, PollsOk, FriendsOk;
  }

  // ---------------------------------------------------------------------------------------------
  // References

  /** Everything that names a message, a poll, a group or a member names one that is stored, and a
      reply answers an earlier message of its own conversation. */
  ghost predicate ReferencesResolve(db: Db) {
    && (forall r | r in db.mentions :: r.0 in db.messages)
    && (forall r | r in db.reactions :: r.0 in db.messages)
    && (forall r | r in db.stars :: r.1 in db.messages)
    && (forall v | v in db.votes :: v.0 in db.polls)
    && (forall p | p in db.polls :: db.polls[p].groupId in db.groups)
    && (forall k | k in db.members :: k.0 in db.groups && k.1 in db.users)
    && (forall k | k in db.groupReads :: (k.1, k.0) in db.members && db.groupReads[k] in db.messages)
    && (forall id | id in db.messages :: MessageResolves(db, db.messages[id], id))
  }

  ghost predicate MessageResolves(db: Db, m: Message, id: nat) {
    && (m.groupId.Some? ==> m.groupId.value in db.groups)
    && (m.contentType == PollCard <==> m.pollId.Some?)
    && (m.pollId.Some? ==> m.pollId.value in db.polls && Some(db.polls[m.pollId.value].groupId) == m.groupId)
    && (m.replyTo.Some? ==> m.replyTo.value < id && m.replyTo.value in db.messages
                            && SameConversation(db.messages[m.replyTo.value], m))
  }

  /** No dangling reference in any reachable state, whatever was dissolved, left or withdrawn on the way. */
  lemma NoDanglingReferences(ops: seq<Op>)
    ensures ReferencesResolve(Run(EMPTY, ops))
  {
    hide Run, Apply, HiddenOk, DmReadsOk, CapacityOk, FriendsOk, ShapeOk, SameConversation;
    RunKeepsInv(ops);
    var db := Run(EMPTY, ops);
    forall id | id in db.messages ensures MessageResolves(db, db.messages[id], id) {
      assert MessageOk(db.messages, id, db.groups, db.polls);
    }
  }

  // ---------------------------------------------------------------------------------------------
  // DM cursors

  lemma SteadyGrowsCursors(db: Db, t: Db)
    requires Steady(db, t)
    ensures CursorsGrow(db.dmReads, t.dmReads)
  {
    hide CursorsGrow, MessagesGrow;
  }

  lemma SameCursorsGrow(db: Db, t: Db)
    requires t.dmReads == db.dmReads
    ensures CursorsGrow(db.dmReads, t.dmReads)
  {
  }

  /** No call moves a DM cursor back or removes it. */
  lemma CursorNeverDecreases(db: Db, op: Op)
    requires Inv(db)
    ensures CursorsGrow(db.dmReads, Apply(db, op).0.dmReads)
  {
    hide Inv, Apply, Steady, CursorsGrow, CreateGroup, TransferOwnership, DissolveGroup, HideMessage;
    var t := Apply(db, op).0;
    NextIsFree(db);
    if IsSteady(op.call) {
      SteadyCalls(db, op);
      SteadyGrowsCursors(db, t);
    } else {
      if op.me !in db.users {
        StrangersChangeNothing(db, op);
      } else {
        UnsteadyCalls(db, op);
        match op.call
        case NewGroup(name, invitees) => CreateAddsGroup(db, op.me, name, invitees);
        case Transfer(g, target) => TransferTouchesRoles(db, op.me, g, target);
        case Dissolve(g) => DissolveKeepsCursors(db, op.me, g);
        case Hide(at, id) => HideOnlyHides(db, op.me, at, id);
      }
      SameCursorsGrow(db, t);
    }
  }

  lemma {:induction false} CursorNeverDecreasesInRun(db: Db, ops: seq<Op>)
    requires Inv(db)
    ensures CursorsGrow(db.dmReads, Run(db, ops).dmReads) && Inv(Run(db, ops))
  {
    hide Apply, Inv;
    if ops == [] {
    } else {
      CursorNeverDecreasesInRun(db, ops[..|ops| - 1]);
      CursorNeverDecreases(Run(db, ops[..|ops| - 1]), ops[|ops| - 1]);
      ApplyKeepsInv(Run(db, ops[..|ops| - 1]), ops[|ops| - 1]);
    }
  }

  /** In every reachable state a DM cursor names a message of its pair, belongs to one of the two, and
      has passed every message that its user sent or forwarded there. */
  lemma DmCursorsInEveryRun(ops: seq<Op>, id: nat)
    ensures var db := Run(EMPTY, ops);
      && (forall k | k in db.dmReads ::
            && (k.0 == k.1 || k.0 == k.2)
            && db.dmReads[k] in db.messages
            && (db.messages[db.dmReads[k]].lo, db.messages[db.dmReads[k]].hi) == (k.1, k.2))
      && (id in db.messages && db.messages[id].kind == Dm ==>
            OwnCursor(db.messages[id]) in db.dmReads && id <= db.dmReads[OwnCursor(db.messages[id])])
  {
    hide MessagesOk, HiddenOk, GroupReadsOk, CapacityOk, RefsOk, PollsOk, FriendsOk, RolesOk, Apply, Run;
    RunKeepsInv(ops);
    var db := Run(EMPTY, ops);
    if id in db.messages && db.messages[id].kind == Dm { assert CursorCovers(db.dmReads, db.messages[id], id); }
    assert forall k | k in db.dmReads :: DmCursorOk(db.messages, k, db.dmReads[k]);
  }

  // ---------------------------------------------------------------------------------------------
  // Messages

  /** Only dissolving a group removes messages, and only that group's; only a caller's own Hide hides
      one, and only from the caller; a call keeps every other stored message in its place. */
  ghost predicate MessagesKept(db: Db, t: Db, op: Op) {
    && (forall id | id in db.messages ::
          if id in t.messages then SamePlace(t.messages[id], db.messages[id])
          else op.call.Dissolve? && db.messages[id].groupId == Some(op.call.g))
    && (forall id | id in t.messages && id !in db.messages :: id == db.nextMessage < t.nextMessage)
    && db.nextMessage <= t.nextMessage
    && db.hidden <= t.hidden
    && (forall r | r in t.hidden && r !in db.hidden :: op.call.Hide? && r == (op.me, op.call.id))
  }

  lemma SteadyKeepsMessages(db: Db, op: Op)
    requires Steady(db, Apply(db, op).0)
    ensures MessagesKept(db, Apply(db, op).0, op)
  {
    hide Apply, CursorsGrow, SamePlace;
  }

  lemma HideKeepsMessages(db: Db, op: Op)
    requires op.call.Hide? && op.me in db.users
    ensures MessagesKept(db, Apply(db, op).0, op)
  {
    hide Apply, HideMessage;
    UnsteadyCalls(db, op);
    HideOnlyHides(db, op.me, op.call.at, op.call.id);
  }

  lemma DissolveKeepsOtherMessages(db: Db, op: Op)
    requires op.call.Dissolve? && op.me in db.users
    ensures MessagesKept(db, Apply(db, op).0, op)
  {
    hide Apply, DissolveGroup;
    UnsteadyCalls(db, op);
    DissolveKeepsCursors(db, op.me, op.call.g);
  }

  lemma NewGroupKeepsMessages(db: Db, op: Op)
    requires op.call.NewGroup? && op.me in db.users
    ensures MessagesKept(db, Apply(db, op).0, op)
  {
    hide Apply, CreateGroup;
    UnsteadyCalls(db, op);
    CreateAddsGroup(db, op.me, op.call.name, op.call.invitees);
  }

  lemma TransferKeepsMessages(db: Db, op: Op)
    requires op.call.Transfer? && op.me in db.users
    ensures MessagesKept(db, Apply(db, op).0, op)
  {
    hide Apply, TransferOwnership;
    UnsteadyCalls(db, op);
    TransferTouchesRoles(db, op.me, op.call.g, op.call.target);
  }

  lemma CallsKeepMessages(db: Db, op: Op)
    requires Inv(db)
    ensures MessagesKept(db, Apply(db, op).0, op)
  {
    hide Inv, Apply, Steady;
    NextIsFree(db);
    if IsSteady(op.call) {
      SteadyCalls(db, op);
      SteadyKeepsMessages(db, op);
    } else if op.me !in db.users {
      StrangersChangeNothing(db, op);
    } else {
      if op.call.Hide? { HideKeepsMessages(db, op); }
      else if op.call.Dissolve? { DissolveKeepsOtherMessages(db, op); }
      else if op.call.NewGroup? { NewGroupKeepsMessages(db, op); }
      else { TransferKeepsMessages(db, op); }
    }
  }

  // ---------------------------------------------------------------------------------------------
  // Muted members

  /** A message of the group is stored that was not there before. */
  ghost predicate Adds(db: Db, t: Db, g: nat) {
    exists id :: id in t.messages && id !in db.messages && t.messages[id].groupId == Some(g)
  }

  lemma NoNewIdsNoAdds(db: Db, t: Db, g: nat)
    requires t.messages.Keys <= db.messages.Keys
    ensures !Adds(db, t, g)
  {
  }

  lemma PostAddsThere(db: Db, t: Db, m: Message, g: nat)
    requires db.nextMessage !in db.messages && t.messages == db.messages[db.nextMessage := m]
    ensures Adds(db, t, g) <==> m.groupId == Some(g)
  {
    assert db.nextMessage in t.messages;
  }

  lemma SendAddsNothing(db: Db, me: Sub, other: Sub, d: Draft, now: real, g: nat)
    requires db.nextMessage !in db.messages
    ensures !Adds(db, SendDm(db, me, other, d, now).0, g)
  {
    hide Adds, SendDmError, Attached, PairKey, NewRows, Raise;
    NoNewIdsNoAdds(db, db, g);
    if SendDmError(db, me, other, d).None? {
      var m := DirectMessage(me, other, d.content, d.contentType, false, Attached(db, d.attachment), d.replyTo, now);
      PostAddsThere(db, PostDm(db, m, Elements(d.mentions)), m, g);
    }
  }

  lemma MutedSendAddsNothing(db: Db, me: Sub, h: nat, d: Draft, poll: Option<PollDraft>, now: real, g: nat)
    requires db.nextMessage !in db.messages && IsMember(db, g, me) && db.members[(g, me)].muted
    ensures !Adds(db, SendGroup(db, me, h, d, poll, now).0, g)
  {
    hide Adds, PollError, AttachmentError, Attached, ReplyErrorGroup, MentionErrorGroup, GroupMarker, NewRows, Raise,
         Strip, CleanOptions;
    NoNewIdsNoAdds(db, db, g);
    if SendGroupError(db, me, h, d, poll).None? {
      var t := SendGroup(db, me, h, d, poll, now).0;
      PostAddsThere(db, t, t.messages[db.nextMessage], g);
    }
  }

  lemma ForwardAddsThere(db: Db, me: Sub, id: nat, to: Where, now: real, g: nat)
    requires db.nextMessage !in db.messages
    ensures Adds(db, Forward(db, me, id, to, now).0, g) <==> ForwardError(db, me, id, to).None? && to == In(g)
  {
    hide Adds, ForwardError, GroupMarker, PairKey, NewRows, Raise;
    NoNewIdsNoAdds(db, db, g);
    if ForwardError(db, me, id, to).None? {
      ForwardedIsStored(db, me, id, to);
      var t := Forward(db, me, id, to, now).0;
      PostAddsThere(db, t, t.messages[db.nextMessage], g);
    }
  }

  lemma ChangeAddsNothing(db: Db, op: Op, g: nat)
    requires op.me in db.users && (op.call.Read? || op.call.Edit? || op.call.Withdraw?)
    ensures !Adds(db, Apply(db, op).0, g)
  {
    hide Apply, Adds, AreFriends, Raise, InDm, InGroup;
    MessageCalls(db, op);
    NoNewIdsNoAdds(db, Apply(db, op).0, g);
  }

  lemma DissolveAddsNothing(db: Db, me: Sub, h: nat, g: nat)
    ensures !Adds(db, DissolveGroup(db, me, h).0, g)
  {
    hide DissolveGroup;
    DissolveKeepsCursors(db, me, h);
  }

  lemma SameMessagesAddNothing(db: Db, t: Db, g: nat)
    requires t.messages == db.messages
    ensures !Adds(db, t, g)
  {
  }

  lemma UnsteadyAddsNothing(db: Db, op: Op, g: nat)
    requires op.me in db.users && !IsSteady(op.call)
    ensures !Adds(db, Apply(db, op).0, g)
  {
    hide Apply, Adds, CreateGroup, TransferOwnership, DissolveGroup, HideMessage;
    UnsteadyCalls(db, op);
    var t := Apply(db, op).0;
    match op.call
    case NewGroup(name, invitees) =>
      CreateAddsGroup(db, op.me, name, invitees);
      SameMessagesAddNothing(db, t, g);
    case Transfer(h, target) =>
      TransferTouchesRoles(db, op.me, h, target);
      SameMessagesAddNothing(db, t, g);
    case Dissolve(h) => DissolveAddsNothing(db, op.me, h, g);
    case Hide(at, id) =>
      HideOnlyHides(db, op.me, at, id);
      SameMessagesAddNothing(db, t, g);
  }

  /** A call of a muted member adds a message to the group if and only if it is an admissible forward
      into it: only `send_group_message` looks at the mute flag. */
  lemma MutedMemberOnlyForwards(db: Db, op: Op, g: nat)
    requires Inv(db) && IsMember(db, g, op.me) && db.members[(g, op.me)].muted
    ensures Adds(db, Apply(db, op).0, g)
       <==> op.call.ForwardTo? && op.call.dest == In(g) && ForwardError(db, op.me, op.call.id, In(g)).None?
  {
    NextIsFree(db);
    MemberHasGroup(db, g, op.me);
    hide Inv, Apply, Adds, Quiet, SendDm, SendGroup, Forward, MarkRead, EditMessage, WithdrawMessage, ForwardError;
    if IsQuiet(op.call) {
      QuietCalls(db, op);
      QuietAddsNothing(db, Apply(db, op).0, g);
    } else if !IsSteady(op.call) {
      UnsteadyAddsNothing(db, op, g);
    } else {
      MessageCalls(db, op);
      match op.call
      case Send(other, draft) => SendAddsNothing(db, op.me, other, draft, op.now, g);
      case SendTo(h, draft, poll) => MutedSendAddsNothing(db, op.me, h, draft, poll, op.now, g);
      case ForwardTo(id, dest) => ForwardAddsThere(db, op.me, id, dest, op.now, g);
      case _ => ChangeAddsNothing(db, op, g);
    }
  }

  lemma QuietAddsNothing(db: Db, t: Db, g: nat)
    requires Quiet(db, t)
    ensures !Adds(db, t, g)
  {
    hide Adds;
    NoNewIdsNoAdds(db, t, g);
  }

  /** Any message of the group itself will do, unless it was withdrawn or shows a poll. */
  lemma MutedForwardIsAdmissible(db: Db, me: Sub, id: nat, g: nat)
    requires IsMember(db, g, me) && id in db.messages && InGroup(db.messages[id], g)
    ensures ForwardError(db, me, id, In(g)).None?
       <==> db.messages[id].deletedAt.None? && db.messages[id].contentType != PollCard
  {
  }
}
