/** Groups and their members (app/groups/service.py). */
module Groups {
  import opened Prelude
  import opened Text
  import opened Store
  import opened Friends

  const GROUP_NAME_MAX := 64

  predicate IsMember(db: Db, g: nat, u: Sub) {
    (g, u) in db.members
  }

  /** 404 for a stranger, 403 for a member without one of the roles. */
  function RequireRole(db: Db, g: nat, u: Sub, roles: set<Role>): Option<nat> {
    if (g, u) !in db.members then Some(404)
    else if db.members[(g, u)].role !in roles then Some(403)
    else None
  }

  /** The first invitee who is unknown (404) or no friend of the inviter (403). */
  function InviteError(db: Db, actor: Sub, invitees: seq<Sub>): Option<nat> {
    if invitees == [] then None
    else if invitees[0] !in db.users then Some(404)
    else if !AreFriends(db, actor, invitees[0]) then Some(403)
    else InviteError(db, actor, invitees[1..])
  }

  lemma {:induction false} InviteesAreFriends(db: Db, actor: Sub, invitees: seq<Sub>)
    ensures InviteError(db, actor, invitees) == None <==>
              forall u | u in invitees :: u in db.users && AreFriends(db, actor, u)
  {
    if invitees == [] {
    } else {
      assert invitees == [invitees[0]] + invitees[1..];
      InviteesAreFriends(db, actor, invitees[1..]);
    }
  }

  function NewRows(g: nat, subs: set<Sub>): set<(nat, Sub)> {
    set u | u in subs :: (g, u)
  }

  /** The table with a plain member row for everybody in `subs` who had none. */
  function Enrol(members: map<(nat, Sub), MemberRow>, g: nat, subs: set<Sub>): map<(nat, Sub), MemberRow> {
    map k | k in members.Keys + NewRows(g, subs) :: if k in members then members[k] else MemberRow(Member, false)
  }

  function CreateGroup(db: Db, me: Sub, name: string, invitees: seq<Sub>): (Db, Reply) {
    var clean := Strip(name);
    var subs := Elements(invitees);
    if clean == [] || |clean| > GROUP_NAME_MAX then (db, Fail(422))
    else if me in subs then (db, Fail(400))
    else if |subs| > INVITE_BATCH_MAX then (db, Fail(422))
    else if InviteError(db, me, invitees).Some? then (db, Fail(InviteError(db, me, invitees).value))
    else   // 20 invitees at most, so the source's capacity test cannot fail here
      var g := db.nextGroup;
      (db.(groups := db.groups[g := Group(clean, me)],
           nextGroup := g + 1,
           members := Enrol(db.members[(g, me) := MemberRow(Owner, false)], g, subs)),
       Created(g))
  }

  function AddMembers(db: Db, me: Sub, g: nat, invitees: seq<Sub>): (r: (Db, Reply))
    ensures Quiet(db, r.0)
  {
    var denied := RequireRole(db, g, me, {Owner, Admin});
    var subs := Elements(invitees);
    if denied.Some? then (db, Fail(denied.value))
    else if |subs| > INVITE_BATCH_MAX then (db, Fail(422))
    else if InviteError(db, me, invitees).Some? then (db, Fail(InviteError(db, me, invitees).value))
    else if |MemberRows(db.members, g) + NewRows(g, subs)| > GROUP_MEMBERS_MAX then (db, Fail(409))
    else (db.(members := Enrol(db.members, g, subs)), Done)
  }

  /** Drops the member row with the cursor and the setting that go with it. */
  function DropMember(db: Db, g: nat, u: Sub): Db {
    db.(members := db.members - {(g, u)},
        groupReads := db.groupReads - {(u, g)},
        settings := db.settings - {(u, GroupSetting, Decimal(g))})
  }

  function RemoveMember(db: Db, me: Sub, g: nat, target: Sub): (r: (Db, Reply))
    ensures Quiet(db, r.0)
  {
    var denied := RequireRole(db, g, me, {Owner, Admin});
    if denied.Some? then (db, Fail(denied.value))
    else if (g, target) !in db.members then (db, Fail(404))
    else if db.members[(g, target)].role == Owner then (db, Fail(403))
    else if db.members[(g, me)].role == Admin && db.members[(g, target)].role == Admin then (db, Fail(403))
    else if target == me then (db, Fail(400))
    else (DropMember(db, g, target), Done)
  }

  /** The request model admits only the roles admin and member. */
  function SetMemberRole(db: Db, me: Sub, g: nat, target: Sub, role: Role): (r: (Db, Reply))
    ensures Quiet(db, r.0)
  {
    var denied := RequireRole(db, g, me, {Owner});
    if role == Owner then (db, Fail(422))
    else if denied.Some? then (db, Fail(denied.value))
    else if target == me then (db, Fail(400))
    else if (g, target) !in db.members then (db, Fail(404))
    else if db.members[(g, target)].role == Owner then (db, Fail(403))
    else (db.(members := db.members[(g, target) := db.members[(g, target)].(role := role)]), Done)
  }

  function SetMemberMute(db: Db, me: Sub, g: nat, target: Sub, muted: bool): (r: (Db, Reply))
    ensures Quiet(db, r.0)
  {
    var denied := RequireRole(db, g, me, {Owner, Admin});
    if denied.Some? then (db, Fail(denied.value))
    else if (g, target) !in db.members then (db, Fail(404))
    else if target == me then (db, Fail(400))
    else if db.members[(g, target)].role != Member then (db, Fail(403))
    else (db.(members := db.members[(g, target) := db.members[(g, target)].(muted := muted)]), Done)
  }

  function LeaveGroup(db: Db, me: Sub, g: nat): (r: (Db, Reply))
    ensures Quiet(db, r.0)
  {
    if (g, me) !in db.members then (db, Fail(404))
    else if db.members[(g, me)].role == Owner then (db, Fail(409))
    else (DropMember(db, g, me), Done)
  }

  /** The old owner becomes a member and then the target the owner; they may be one row. */
  function TransferOwnership(db: Db, me: Sub, g: nat, target: Sub): (Db, Reply) {
    var denied := RequireRole(db, g, me, {Owner});
    if denied.Some? then (db, Fail(denied.value))
    else if (g, target) !in db.members then (db, Fail(404))
    else if g !in db.groups then (db, Fail(404))
    else
      var demoted := db.members[(g, me) := db.members[(g, me)].(role := Member)];
      (db.(members := demoted[(g, target) := demoted[(g, target)].(role := Owner)],
           groups := db.groups[g := db.groups[g].(owner := target)]),
       Done)
  }

  predicate OfGroup(db: Db, id: nat, g: nat) {
    Within(db.messages, id, g)
  }

  predicate PollOfGroup(db: Db, p: nat, g: nat) {
    p in db.polls && db.polls[p].groupId == g
  }

  // One DELETE statement of the cascade each. A subquery looks at the messages or polls handed in.

  predicate Within(messages: map<nat, Message>, id: nat, g: nat) {
    id in messages && messages[id].groupId == Some(g)
  }

  function VotesWithout(votes: map<(nat, Sub), set<int>>, polls: map<nat, Poll>, g: nat): map<(nat, Sub), set<int>> {
    map v | v in votes && !(v.0 in polls && polls[v.0].groupId == g) :: votes[v]
  }

  function PollsWithout(polls: map<nat, Poll>, g: nat): map<nat, Poll> {
    map p | p in polls && polls[p].groupId != g :: polls[p]
  }

  function MentionsWithout(mentions: set<(nat, Sub)>, messages: map<nat, Message>, g: nat): set<(nat, Sub)> {
    set r | r in mentions && !Within(messages, r.0, g)
  }

  function ReactionsWithout(reactions: set<(nat, Sub, string)>, messages: map<nat, Message>, g: nat)
    : set<(nat, Sub, string)>
  {
    set r | r in reactions && !Within(messages, r.0, g)
  }

  function StarsWithout(stars: set<(Sub, nat)>, messages: map<nat, Message>, g: nat): set<(Sub, nat)> {
    set r | r in stars && !Within(messages, r.1, g)
  }

  function MessagesWithout(messages: map<nat, Message>, g: nat): map<nat, Message> {
    map id | id in messages && messages[id].groupId != Some(g) :: messages[id]
  }

  function ReadsWithout(groupReads: map<(Sub, nat), nat>, g: nat): map<(Sub, nat), nat> {
    map k | k in groupReads && k.1 != g :: groupReads[k]
  }

  function MembersWithout(members: map<(nat, Sub), MemberRow>, g: nat): map<(nat, Sub), MemberRow> {
    map k | k in members && k.0 != g :: members[k]
  }

  function SettingsWithout(settings: map<(Sub, SettingKind, string), Setting>, g: nat)
    : map<(Sub, SettingKind, string), Setting>
  {
    map k | k in settings && !(k.1 == GroupSetting && k.2 == Decimal(g)) :: settings[k]
  }

  /** Votes go before the polls that name their group. */
  function ClearPolls(db: Db, g: nat): Db {
    db.(votes := VotesWithout(db.votes, db.polls, g), polls := PollsWithout(db.polls, g))
  }

  /** Mentions, reactions and stars go before the messages that name their group. */
  function ClearMessages(db: Db, g: nat): Db {
    db.(mentions := MentionsWithout(db.mentions, db.messages, g),
        reactions := ReactionsWithout(db.reactions, db.messages, g),
        stars := StarsWithout(db.stars, db.messages, g),
        messages := MessagesWithout(db.messages, g))
  }

  function ClearMembers(db: Db, g: nat): Db {
    db.(groupReads := ReadsWithout(db.groupReads, g),
        members := MembersWithout(db.members, g),
        settings := SettingsWithout(db.settings, g),
        groups := db.groups - {g})
  }

  /** The whole cascade. Hidden-for-me rows are not among the tables it clears. */
  function WithoutGroup(db: Db, g: nat): Db {
    ClearMembers(ClearMessages(ClearPolls(db, g), g), g)
  }

  function DissolveGroup(db: Db, me: Sub, g: nat): (Db, Reply) {
    var denied := RequireRole(db, g, me, {Owner});
    if denied.Some? then (db, Fail(denied.value))
    else if g !in db.groups then (db, Fail(404))
    else (WithoutGroup(db, g), Done)
  }

  function Rank(role: Role): nat {
    match role
    case Owner => 2
    case Admin => 1
    case Member => 0
  }

  predicate Outranks(members: map<(nat, Sub), MemberRow>, g: nat, me: Sub, target: Sub) {
    && (g, me) in members && (g, target) in members
    && Rank(members[(g, me)].role) > Rank(members[(g, target)].role)
  }

  /** The sequences of role checks come down to rank: a member is removed only by a higher rank, muted
      only as a plain member, and promoted or demoted only by the owner. */
  lemma RankDecides(db: Db, me: Sub, g: nat, target: Sub, role: Role, muted: bool)
    ensures RemoveMember(db, me, g, target).1 == Done <==> Outranks(db.members, g, me, target)
    ensures SetMemberMute(db, me, g, target, muted).1 == Done
       <==> Outranks(db.members, g, me, target) && db.members[(g, target)].role == Member
    ensures SetMemberRole(db, me, g, target, role).1 == Done
       <==> role != Owner && Outranks(db.members, g, me, target) && db.members[(g, me)].role == Owner
  {
    hide DropMember;
  }

  /** Leaving is for everybody but the owner, who has to hand the group over first and then may leave. */
  lemma OwnerLeavesAfterTransfer(db: Db, me: Sub, g: nat, target: Sub)
    requires TransferOwnership(db, me, g, target).1 == Done
    ensures LeaveGroup(db, me, g).1 == Fail(409)
    ensures LeaveGroup(TransferOwnership(db, me, g, target).0, me, g).1 == Done <==> target != me
  {
    hide DropMember;
  }

  // ---------------------------------------------------------------------------------------------

  lemma EnrolKeepsRoles(db: Db, g: nat, subs: set<Sub>)
    requires RolesOk(db.groups, db.nextGroup, db.members, db.users)
    requires g in db.groups && subs <= db.users
    ensures RolesOk(db.groups, db.nextGroup, Enrol(db.members, g, subs), db.users)
  {
  }

  lemma EnrolGrows(members: map<(nat, Sub), MemberRow>, g: nat, subs: set<Sub>)
    ensures MemberRows(Enrol(members, g, subs), g) == MemberRows(members, g) + NewRows(g, subs)
    ensures forall h | h != g :: MemberRows(Enrol(members, g, subs), h) == MemberRows(members, h)
  {
  }

  lemma EnrolKeepsReads(db: Db, g: nat, subs: set<Sub>)
    requires GroupReadsOk(db.messages, db.groupReads, db.members)
    ensures GroupReadsOk(db.messages, db.groupReads, Enrol(db.members, g, subs))
  {
  }

  lemma {:induction false} NewRowsSize(g: nat, subs: set<Sub>)
    ensures |NewRows(g, subs)| == |subs|
    decreases |subs|
  {
    if subs == {} {
    } else {
      var u :| u in subs;
      NewRowsSize(g, subs - {u});
      assert NewRows(g, subs) == NewRows(g, subs - {u}) + {(g, u)};
    }
  }

  /** Member tables may be replaced as long as roles, capacity and cursors stay in order. */
  lemma MembersKeepInv(db: Db, members: map<(nat, Sub), MemberRow>)
    requires Inv(db)
    requires RolesOk(db.groups, db.nextGroup, members, db.users)
    requires CapacityOk(db.groups, members)
    requires GroupReadsOk(db.messages, db.groupReads, members)
    ensures Inv(db.(members := members))
  {
    hide MessagesOk, RefsOk, HiddenOk, DmReadsOk, GroupReadsOk, RolesOk, CapacityOk, PollsOk, FriendsOk;
  }

  lemma AddMembersKeepsInv(db: Db, me: Sub, g: nat, invitees: seq<Sub>)
    requires Inv(db)
    ensures Inv(AddMembers(db, me, g, invitees).0)
  {
    hide MessagesOk, RefsOk, HiddenOk, DmReadsOk, GroupReadsOk, PollsOk, FriendsOk, Enrol, MemberRows, AreFriends;
    if AddMembers(db, me, g, invitees).1 == Done {
      var subs := Elements(invitees);
      InviteesAreFriends(db, me, invitees);
      EnrolKeepsRoles(db, g, subs);
      EnrolKeepsReads(db, g, subs);
      EnrolGrows(db.members, g, subs);
      MembersKeepInv(db, Enrol(db.members, g, subs));
    }
  }

  lemma NewGroupKeepsRoles(db: Db, name: string, owner: Sub)
    requires RolesOk(db.groups, db.nextGroup, db.members, db.users) && owner in db.users && 1 <= db.nextGroup
    ensures var g := db.nextGroup;
      RolesOk(db.groups[g := Group(name, owner)], g + 1, db.members[(g, owner) := MemberRow(Owner, false)], db.users)
  {
  }

  lemma NewGroupIsSmall(db: Db, name: string, owner: Sub)
    requires RolesOk(db.groups, db.nextGroup, db.members, db.users) && CapacityOk(db.groups, db.members)
    ensures var g := db.nextGroup; var members := db.members[(g, owner) := MemberRow(Owner, false)];
      MemberRows(members, g) == {(g, owner)} && CapacityOk(db.groups[g := Group(name, owner)], members)
  {
    var g := db.nextGroup;
    var members := db.members[(g, owner) := MemberRow(Owner, false)];
    assert MemberRows(members, g) == {(g, owner)};
    forall h | h in db.groups ensures MemberRows(members, h) == MemberRows(db.members, h) { }
  }

  lemma NewGroupKeepsInv(db: Db, name: string, owner: Sub)
    requires Inv(db) && owner in db.users
    ensures var g := db.nextGroup;
      Inv(db.(groups := db.groups[g := Group(name, owner)], nextGroup := g + 1,
              members := db.members[(g, owner) := MemberRow(Owner, false)]))
    ensures MemberRows(db.members[(db.nextGroup, owner) := MemberRow(Owner, false)], db.nextGroup)
              == {(db.nextGroup, owner)}
  {
    hide FriendsOk, RefsOk, HiddenOk, DmReadsOk, GroupReadsOk, MessagesOk, PollsOk, RolesOk, CapacityOk;
    var g := db.nextGroup;
    var groups := db.groups[g := Group(name, owner)];
    var members := db.members[(g, owner) := MemberRow(Owner, false)];
    MoreGroupsSameRest(db, groups);
    NewGroupKeepsRoles(db, name, owner);
    NewGroupIsSmall(db, name, owner);
    AddRowKeepsReads(db, (g, owner), MemberRow(Owner, false));
  }

  lemma MoreGroupsSameRest(db: Db, groups: map<nat, Group>)
    requires db.groups.Keys <= groups.Keys
    requires MessagesOk(db.messages, db.nextMessage, db.groups, db.polls)
              && PollsOk(db.polls, db.nextPoll, db.votes, db.groups)
    ensures MessagesOk(db.messages, db.nextMessage, groups, db.polls)
              && PollsOk(db.polls, db.nextPoll, db.votes, groups)
  {
  }

  lemma AddRowKeepsReads(db: Db, k: (nat, Sub), row: MemberRow)
    requires GroupReadsOk(db.messages, db.groupReads, db.members)
    ensures GroupReadsOk(db.messages, db.groupReads, db.members[k := row])
  {
  }

  lemma NewGroupHasRoom(t: Db, g: nat, me: Sub, subs: set<Sub>)
    requires CapacityOk(t.groups, t.members) && MemberRows(t.members, g) == {(g, me)}
    requires |NewRows(g, subs)| <= INVITE_BATCH_MAX
    ensures CapacityOk(t.groups, Enrol(t.members, g, subs))
  {
    EnrolGrows(t.members, g, subs);
    hide Enrol, MemberRows, NewRows;
    UnionSize({(g, me)}, NewRows(g, subs));
  }

  lemma UnionSize<T>(a: set<T>, b: set<T>)
    ensures |a + b| <= |a| + |b|
  {
    assert a + b == a + (b - a);
    assert |b - a| <= |b| by { SubsetSize(b - a, b); }
  }

  lemma CreateGroupKeepsInv(db: Db, me: Sub, name: string, invitees: seq<Sub>)
    requires Inv(db) && me in db.users
    ensures Inv(CreateGroup(db, me, name, invitees).0)
  {
    hide MessagesOk, RefsOk, HiddenOk, DmReadsOk, GroupReadsOk, PollsOk, FriendsOk, RolesOk, CapacityOk, Enrol,
         MemberRows, AreFriends, InviteError, Strip;
    if CreateGroup(db, me, name, invitees).1.Created? {
      var g, subs, clean := db.nextGroup, Elements(invitees), Strip(name);
      InviteesAreFriends(db, me, invitees);
      NewGroupKeepsInv(db, clean, me);
      var t := db.(groups := db.groups[g := Group(clean, me)], nextGroup := g + 1,
                   members := db.members[(g, me) := MemberRow(Owner, false)]);
      EnrolKeepsRoles(t, g, subs);
      EnrolKeepsReads(t, g, subs);
      EnrolGrows(t.members, g, subs);
      NewRowsSize(g, subs);
      NewGroupHasRoom(t, g, me, subs);
      MembersKeepInv(t, Enrol(t.members, g, subs));
    }
  }

  lemma DropKeepsCapacity(db: Db, k: (nat, Sub))
    requires CapacityOk(db.groups, db.members)
    ensures CapacityOk(db.groups, db.members - {k})
  {
    forall h | h in db.groups
      ensures |MemberRows(db.members - {k}, h)| <= GROUP_MEMBERS_MAX
    {
      assert MemberRows(db.members - {k}, h) == MemberRows(db.members, h) - {k};
    }
  }

  lemma DropKeepsReads(db: Db, g: nat, u: Sub)
    requires GroupReadsOk(db.messages, db.groupReads, db.members)
    ensures GroupReadsOk(db.messages, db.groupReads - {(u, g)}, db.members - {(g, u)})
  {
  }

  lemma DropMemberKeepsInv(db: Db, g: nat, u: Sub)
    requires Inv(db) && (g, u) in db.members && db.members[(g, u)].role != Owner
    ensures Inv(DropMember(db, g, u))
  {
    hide MessagesOk, RefsOk, HiddenOk, DmReadsOk, PollsOk, FriendsOk, GroupReadsOk, CapacityOk;
    DropKeepsCapacity(db, (g, u));
    DropKeepsReads(db, g, u);
    assert RolesOk(db.groups, db.nextGroup, db.members - {(g, u)}, db.users);
  }

  lemma RemoveMemberKeepsInv(db: Db, me: Sub, g: nat, target: Sub)
    requires Inv(db)
    ensures Inv(RemoveMember(db, me, g, target).0)
  {
    hide Inv, DropMember;
    if RemoveMember(db, me, g, target).1 == Done { DropMemberKeepsInv(db, g, target); }
  }

  lemma LeaveGroupKeepsInv(db: Db, me: Sub, g: nat)
    requires Inv(db)
    ensures Inv(LeaveGroup(db, me, g).0)
  {
    hide Inv, DropMember;
    if LeaveGroup(db, me, g).1 == Done { DropMemberKeepsInv(db, g, me); }
  }

  /** Rewriting rows in place changes nobody's membership. */
  lemma SameRowsSameCapacity(db: Db, members: map<(nat, Sub), MemberRow>)
    requires members.Keys == db.members.Keys && CapacityOk(db.groups, db.members)
    requires GroupReadsOk(db.messages, db.groupReads, db.members)
    ensures CapacityOk(db.groups, members) && GroupReadsOk(db.messages, db.groupReads, members)
  {
  }

  lemma SetMemberRoleKeepsInv(db: Db, me: Sub, g: nat, target: Sub, role: Role)
    requires Inv(db)
    ensures Inv(SetMemberRole(db, me, g, target, role).0)
  {
    hide MessagesOk, RefsOk, HiddenOk, DmReadsOk, GroupReadsOk, PollsOk, FriendsOk, CapacityOk;
    if SetMemberRole(db, me, g, target, role).1 == Done {
      var members := db.members[(g, target) := db.members[(g, target)].(role := role)];
      SameRowsSameCapacity(db, members);
      MembersKeepInv(db, members);
    }
  }

  lemma SetMemberMuteKeepsInv(db: Db, me: Sub, g: nat, target: Sub, muted: bool)
    requires Inv(db)
    ensures Inv(SetMemberMute(db, me, g, target, muted).0)
  {
    hide MessagesOk, RefsOk, HiddenOk, DmReadsOk, GroupReadsOk, PollsOk, FriendsOk, CapacityOk;
    if SetMemberMute(db, me, g, target, muted).1 == Done {
      var members := db.members[(g, target) := db.members[(g, target)].(muted := muted)];
      SameRowsSameCapacity(db, members);
      MembersKeepInv(db, members);
    }
  }

  lemma TransferKeepsRoles(db: Db, me: Sub, g: nat, target: Sub)
    requires RolesOk(db.groups, db.nextGroup, db.members, db.users)
    ensures var t := TransferOwnership(db, me, g, target).0;
      && RolesOk(t.groups, t.nextGroup, t.members, t.users)
      && t.groups.Keys == db.groups.Keys && t.members.Keys == db.members.Keys
      && t == db.(members := t.members, groups := t.groups)
  {
    hide RolesOk;
    if TransferOwnership(db, me, g, target).1 == Done { RolesMove(db, me, g, target); }
  }

  /** The owner's row is the one that loses the role, and `owner_sub` follows the row that gains it. */
  lemma RolesMove(db: Db, me: Sub, g: nat, target: Sub)
    requires RolesOk(db.groups, db.nextGroup, db.members, db.users)
    requires (g, me) in db.members && db.members[(g, me)].role == Owner && (g, target) in db.members && g in db.groups
    ensures var demoted := db.members[(g, me) := db.members[(g, me)].(role := Member)];
      RolesOk(db.groups[g := db.groups[g].(owner := target)], db.nextGroup,
              demoted[(g, target) := demoted[(g, target)].(role := Owner)], db.users)
  {
    assert db.groups[g].owner == me;
    var demoted := db.members[(g, me) := db.members[(g, me)].(role := Member)];
    var members := demoted[(g, target) := demoted[(g, target)].(role := Owner)];
    var groups := db.groups[g := db.groups[g].(owner := target)];
    RolesMoved(db, groups, members, g, me, target);
  }

  lemma RolesMoved(db: Db, groups: map<nat, Group>, members: map<(nat, Sub), MemberRow>, g: nat, me: Sub, target: Sub)
    requires RolesOk(db.groups, db.nextGroup, db.members, db.users) && g in db.groups && db.groups[g].owner == me
    requires groups.Keys == db.groups.Keys && members.Keys == db.members.Keys && (g, target) in members
    requires groups[g].owner == target && forall h | h in groups && h != g :: groups[h] == db.groups[h]
    requires members[(g, target)].role == Owner && (target != me ==> members[(g, me)].role == Member)
    requires forall k | k in members && k != (g, target) && k != (g, me) :: members[k] == db.members[k]
    ensures RolesOk(groups, db.nextGroup, members, db.users)
  {
  }

  lemma TransferKeepsInv(db: Db, me: Sub, g: nat, target: Sub)
    requires Inv(db)
    ensures Inv(TransferOwnership(db, me, g, target).0)
  {
    hide MessagesOk, RefsOk, HiddenOk, DmReadsOk, GroupReadsOk, RolesOk, CapacityOk, PollsOk, FriendsOk,
         TransferOwnership;
    var t := TransferOwnership(db, me, g, target).0;
    TransferKeepsRoles(db, me, g, target);
    SameRowsSameCapacity(db, t.members);
    MoreGroupsSameRest(db, t.groups);
    CapacityOfKeys(db, t.groups, t.members);
  }

  lemma CapacityOfKeys(db: Db, groups: map<nat, Group>, members: map<(nat, Sub), MemberRow>)
    requires groups.Keys == db.groups.Keys && CapacityOk(db.groups, members)
    ensures CapacityOk(groups, members)
  {
  }

  // ---------------------------------------------------------------------------------------------
  // Dissolving a group

  lemma DissolveKeepsMessages(db: Db, g: nat)
    requires MessagesOk(db.messages, db.nextMessage, db.groups, db.polls)
    ensures var t := WithoutGroup(db, g); MessagesOk(t.messages, t.nextMessage, t.groups, t.polls)
  {
    var t := WithoutGroup(db, g);
    forall id | id in t.messages
      ensures 1 <= id < t.nextMessage && MessageOk(t.messages, id, t.groups, t.polls)
    {
      assert MessageOk(db.messages, id, db.groups, db.polls);
    }
  }

  lemma DissolveKeepsRefs(db: Db, g: nat)
    requires RefsOk(db.messages, db.mentions, db.reactions, db.stars)
    ensures var t := WithoutGroup(db, g); RefsOk(t.messages, t.mentions, t.reactions, t.stars)
  {
  }

  lemma DissolveKeepsDmReads(db: Db, g: nat)
    requires DmReadsOk(db.messages, db.dmReads) && MessagesOk(db.messages, db.nextMessage, db.groups, db.polls)
    ensures DmReadsOk(WithoutGroup(db, g).messages, db.dmReads)
  {
    var t := WithoutGroup(db, g);
    forall k | k in db.dmReads ensures DmCursorOk(t.messages, k, db.dmReads[k]) {
      assert DmCursorOk(db.messages, k, db.dmReads[k]);
      assert MessageOk(db.messages, db.dmReads[k], db.groups, db.polls);
    }
  }

  lemma DissolveKeepsGroupReads(db: Db, g: nat)
    requires GroupReadsOk(db.messages, db.groupReads, db.members)
    ensures var t := WithoutGroup(db, g); GroupReadsOk(t.messages, t.groupReads, t.members)
  {
  }

  lemma DissolveKeepsRoles(db: Db, g: nat)
    requires RolesOk(db.groups, db.nextGroup, db.members, db.users)
    ensures var t := WithoutGroup(db, g); RolesOk(t.groups, t.nextGroup, t.members, t.users)
  {
  }

  lemma DissolveKeepsCapacity(db: Db, g: nat)
    requires CapacityOk(db.groups, db.members)
    ensures var t := WithoutGroup(db, g); CapacityOk(t.groups, t.members)
  {
    var t := WithoutGroup(db, g);
    forall h | h in t.groups ensures |MemberRows(t.members, h)| <= GROUP_MEMBERS_MAX {
      assert MemberRows(t.members, h) == MemberRows(db.members, h);
    }
  }

  lemma DissolveKeepsPolls(db: Db, g: nat)
    requires PollsOk(db.polls, db.nextPoll, db.votes, db.groups)
    ensures var t := WithoutGroup(db, g); PollsOk(t.polls, t.nextPoll, t.votes, t.groups)
  {
  }

  lemma WithoutGroupKeepsInv(db: Db, g: nat)
    requires Inv(db)
    ensures Inv(WithoutGroup(db, g))
  {
    hide MessagesOk, RefsOk, HiddenOk, DmReadsOk, GroupReadsOk, RolesOk, CapacityOk, PollsOk, FriendsOk;
    DissolveKeepsMessages(db, g);
    DissolveKeepsRefs(db, g);
    DissolveKeepsDmReads(db, g);
    DissolveKeepsGroupReads(db, g);
    DissolveKeepsRoles(db, g);
    DissolveKeepsCapacity(db, g);
    DissolveKeepsPolls(db, g);
  }

  lemma DissolveKeepsInv(db: Db, me: Sub, g: nat)
    requires Inv(db)
    ensures Inv(DissolveGroup(db, me, g).0)
  {
    hide Inv, WithoutGroup;
    WithoutGroupKeepsInv(db, g);
  }

  /** No row of any table that the cascade covers names the group, or a message or poll of it. */
  ghost predicate NoTrace(db: Db, before: Db, g: nat) {
    && g !in db.groups
    && (forall id | id in db.messages :: !OfGroup(before, id, g) && db.messages[id].groupId != Some(g))
    && (forall k | k in db.members :: k.0 != g)
    && (forall k | k in db.groupReads :: k.1 != g)
    && (forall p | p in db.polls :: db.polls[p].groupId != g)
    && (forall v | v in db.votes :: !PollOfGroup(before, v.0, g))
    && (forall r | r in db.mentions :: !OfGroup(before, r.0, g))
    && (forall r | r in db.reactions :: !OfGroup(before, r.0, g))
    && (forall r | r in db.stars :: !OfGroup(before, r.1, g))
    && (forall k | k in db.settings :: k.1 == GroupSetting ==> k.2 != Decimal(g))
  }

  /** Every row that belongs to a direct conversation, to another group or to nobody is untouched. */
  ghost predicate RestUntouched(db: Db, before: Db, g: nat) {
    GroupRowsUntouched(db, before, g) && MessageRowsUntouched(db, before, g)
  }

  ghost predicate GroupRowsUntouched(db: Db, before: Db, g: nat) {
    && db.users == before.users && db.friendships == before.friendships && db.uploads == before.uploads
    && (forall h | h in before.groups && h != g :: h in db.groups && db.groups[h] == before.groups[h])
    && (forall k | k in before.members && k.0 != g :: k in db.members && db.members[k] == before.members[k])
    && (forall k | k in before.groupReads && k.1 != g :: k in db.groupReads && db.groupReads[k] == before.groupReads[k])
    && (forall p | p in before.polls && !PollOfGroup(before, p, g) :: p in db.polls && db.polls[p] == before.polls[p])
    && (forall v | v in before.votes && !PollOfGroup(before, v.0, g) :: v in db.votes && db.votes[v] == before.votes[v])
  }

  ghost predicate MessageRowsUntouched(db: Db, before: Db, g: nat) {
    && db.dmReads == before.dmReads && db.hidden == before.hidden
    && (forall id | id in before.messages && !OfGroup(before, id, g) ::
          id in db.messages && db.messages[id] == before.messages[id])
    && (forall r | r in before.mentions && !OfGroup(before, r.0, g) :: r in db.mentions)
    && (forall r | r in before.reactions && !OfGroup(before, r.0, g) :: r in db.reactions)
    && (forall r | r in before.stars && !OfGroup(before, r.1, g) :: r in db.stars)
  }

  ghost predicate OtherSettingsUntouched(db: Db, before: Db, g: nat) {
    && (forall k | k in before.settings && k.1 == DmSetting :: k in db.settings && db.settings[k] == before.settings[k])
    && (forall u, h: nat | (u, GroupSetting, Decimal(h)) in before.settings && h != g ::
          (u, GroupSetting, Decimal(h)) in db.settings
          && db.settings[(u, GroupSetting, Decimal(h))] == before.settings[(u, GroupSetting, Decimal(h))])
  }

  predicate PartOf<K, V(==)>(rows: map<K, V>, all: map<K, V>) {
    forall k | k in rows :: k in all && rows[k] == all[k]
  }

  /** No row appears or is rewritten. */
  ghost predicate NothingNew(db: Db, before: Db) {
    && PartOf(db.messages, before.messages) && db.nextMessage == before.nextMessage
    && PartOf(db.groups, before.groups) && db.nextGroup == before.nextGroup
    && PartOf(db.polls, before.polls) && db.nextPoll == before.nextPoll
    && PartOf(db.votes, before.votes) && PartOf(db.members, before.members)
    && PartOf(db.groupReads, before.groupReads) && PartOf(db.settings, before.settings)
    && db.mentions <= before.mentions && db.reactions <= before.reactions && db.stars <= before.stars
  }

  lemma WithoutGroupAddsNothing(db: Db, g: nat)
    ensures NothingNew(WithoutGroup(db, g), db)
  {
  }

  lemma WithoutGroupLeavesNoTrace(db: Db, g: nat)
    ensures NoTrace(WithoutGroup(db, g), db, g)
  {
  }

  lemma WithoutGroupKeepsGroupRows(db: Db, g: nat)
    ensures GroupRowsUntouched(WithoutGroup(db, g), db, g)
  {
    hide MentionsWithout, ReactionsWithout, StarsWithout, MessagesWithout, SettingsWithout;
  }

  lemma WithoutGroupKeepsMessageRows(db: Db, g: nat)
    ensures MessageRowsUntouched(WithoutGroup(db, g), db, g)
  {
    hide VotesWithout, PollsWithout, ReadsWithout, MembersWithout, SettingsWithout;
  }

  lemma WithoutGroupKeepsRest(db: Db, g: nat)
    ensures RestUntouched(WithoutGroup(db, g), db, g)
  {
    hide WithoutGroup, GroupRowsUntouched, MessageRowsUntouched;
    WithoutGroupKeepsGroupRows(db, g);
    WithoutGroupKeepsMessageRows(db, g);
  }

  lemma WithoutGroupKeepsSettings(db: Db, g: nat)
    ensures OtherSettingsUntouched(WithoutGroup(db, g), db, g)
  {
    var t := WithoutGroup(db, g);
    forall u, h: nat | (u, GroupSetting, Decimal(h)) in db.settings && h != g
      ensures (u, GroupSetting, Decimal(h)) in t.settings
    {
      if Decimal(h) == Decimal(g) { DecimalInjective(h, g); }
    }
  }

  /** The cascade removes exactly the group. */
  lemma DissolveRemovesExactlyGroup(db: Db, me: Sub, g: nat)
    requires DissolveGroup(db, me, g).1 == Done
    ensures NoTrace(DissolveGroup(db, me, g).0, db, g)
    ensures RestUntouched(DissolveGroup(db, me, g).0, db, g)
    ensures OtherSettingsUntouched(DissolveGroup(db, me, g).0, db, g)
    ensures NothingNew(DissolveGroup(db, me, g).0, db)
  {
    hide NoTrace, RestUntouched, OtherSettingsUntouched, NothingNew, WithoutGroup;
    WithoutGroupAddsNothing(db, g);
    WithoutGroupLeavesNoTrace(db, g);
    WithoutGroupKeepsRest(db, g);
    WithoutGroupKeepsSettings(db, g);
  }

  /** What would be left of the reactions if the group's messages were deleted before them: all. */
  lemma MessagesFirstKeepsReactions(db: Db, g: nat)
    ensures var early := db.(messages := WithoutGroup(db, g).messages);
      WithoutGroup(early, g).reactions == db.reactions
  {
  }
}
