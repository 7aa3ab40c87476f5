/** Friendships (app/friends/service.py). */
module Friends {
  import opened Prelude
  import opened Text
  import opened Store

  const REQUEST_REASON_MAX := 200

  /** The row of an unordered pair, whoever asked. */
  function PairRow(friendships: map<(Sub, Sub), Friendship>, a: Sub, b: Sub): Option<(Sub, Sub)> {
    if (a, b) in friendships then Some((a, b))
    else if (b, a) in friendships then Some((b, a))
    else None
  }

  predicate AreFriends(db: Db, a: Sub, b: Sub) {
    var row := PairRow(db.friendships, a, b);
    row.Some? && db.friendships[row.value].accepted
  }

  /** There is never a second row to choose from, so the lookup does not depend on who asks. */
  lemma PairRowIsUnique(db: Db, a: Sub, b: Sub)
    requires Inv(db)
    ensures PairRow(db.friendships, a, b) == PairRow(db.friendships, b, a)
    ensures PairRow(db.friendships, a, b) == Some((a, b)) <==> (a, b) in db.friendships
    ensures PairRow(db.friendships, a, b).Some? ==> a != b && a in db.users && b in db.users
  {
  }

  /** The stripped reason; an empty one is stored as none. */
  function ReasonOf(reason: string): (stored: Option<string>)
    ensures stored.Some? ==> stored.value != []
  {
    if Strip(reason) == [] then None else Some(Strip(reason))
  }

  function SendRequest(db: Db, me: Sub, to: Sub, reason: string): (r: (Db, Reply))
    ensures Quiet(db, r.0)
  {
    if me == to then (db, Fail(400))
    else if to !in db.users then (db, Fail(404))
    else if |Strip(reason)| > REQUEST_REASON_MAX then (db, Fail(422))
    else if PairRow(db.friendships, me, to).Some? then (db, Fail(409))
    else (db.(friendships := db.friendships[(me, to) := Friendship(false, ReasonOf(reason))]), Done)
  }

  /** Only a pending request that `from` made can be answered. */
  predicate Answerable(db: Db, me: Sub, from: Sub) {
    PairRow(db.friendships, from, me) == Some((from, me)) && !db.friendships[(from, me)].accepted
  }

  function AcceptRequest(db: Db, me: Sub, from: Sub): (r: (Db, Reply))
    ensures Quiet(db, r.0)
  {
    if !Answerable(db, me, from) then (db, Fail(404))
    else (db.(friendships := db.friendships[(from, me) := db.friendships[(from, me)].(accepted := true)]), Done)
  }

  function RejectRequest(db: Db, me: Sub, from: Sub): (r: (Db, Reply))
    ensures Quiet(db, r.0)
  {
    if !Answerable(db, me, from) then (db, Fail(404))
    else (db.(friendships := db.friendships - {(from, me)}), Done)
  }

  function RemoveRelationship(db: Db, me: Sub, other: Sub): (r: (Db, Reply))
    ensures Quiet(db, r.0)
  {
    match PairRow(db.friendships, me, other)
    case None => (db, Done)
    case Some(row) => (db.(friendships := db.friendships - {row}), Done)
  }

  /** A request makes nobody friends, only its addressee can accept it, accepting makes both friends of
      each other and keeps the reason, and refusing or removing it restores the state before it. */
  lemma RequestLifeCycle(db: Db, me: Sub, to: Sub, reason: string)
    requires SendRequest(db, me, to, reason).1 == Done
    ensures var t := SendRequest(db, me, to, reason).0;
      && !AreFriends(t, me, to) && !AreFriends(t, to, me)
      && AcceptRequest(t, me, to).1 == Fail(404) && AcceptRequest(t, to, me).1 == Done
      && AreFriends(AcceptRequest(t, to, me).0, me, to) && AreFriends(AcceptRequest(t, to, me).0, to, me)
      && AcceptRequest(t, to, me).0.friendships == db.friendships[(me, to) := Friendship(true, ReasonOf(reason))]
    ensures var t := SendRequest(db, me, to, reason).0;
      && RejectRequest(t, to, me) == (db, Done)
      && RemoveRelationship(t, me, to) == RemoveRelationship(t, to, me) == (db, Done)
      && RemoveRelationship(AcceptRequest(t, to, me).0, me, to) == (db, Done)
  {
    hide Strip, ReasonOf;
    var asked := db.friendships[(me, to) := Friendship(false, ReasonOf(reason))];
    var accepted := asked[(me, to) := Friendship(true, ReasonOf(reason))];
    assert asked - {(me, to)} == db.friendships && accepted - {(me, to)} == db.friendships;
  }

  lemma FriendshipsKeepInv(db: Db, friendships: map<(Sub, Sub), Friendship>)
    requires Inv(db) && FriendsOk(friendships, db.users)
    ensures Inv(db.(friendships := friendships))
  {
    hide MessagesOk, RefsOk, HiddenOk, DmReadsOk, GroupReadsOk, RolesOk, CapacityOk, PollsOk, FriendsOk;
  }

  lemma NewRequestIsOk(friendships: map<(Sub, Sub), Friendship>, users: set<Sub>, me: Sub, to: Sub, row: Friendship)
    requires FriendsOk(friendships, users) && me in users && to in users && me != to
              && PairRow(friendships, me, to).None?
    ensures FriendsOk(friendships[(me, to) := row], users)
  {
  }

  lemma SendRequestKeepsInv(db: Db, me: Sub, other: Sub, reason: string)
    requires Inv(db) && me in db.users
    ensures Inv(SendRequest(db, me, other, reason).0)
  {
    hide MessagesOk, RefsOk, HiddenOk, DmReadsOk, GroupReadsOk, RolesOk, CapacityOk, PollsOk, FriendsOk, PairRow, Strip,
         ReasonOf;
    if SendRequest(db, me, other, reason).1 == Done {
      NewRequestIsOk(db.friendships, db.users, me, other, Friendship(false, ReasonOf(reason)));
      FriendshipsKeepInv(db, db.friendships[(me, other) := Friendship(false, ReasonOf(reason))]);
    }
  }

  lemma AcceptRequestKeepsInv(db: Db, me: Sub, other: Sub)
    requires Inv(db)
    ensures Inv(AcceptRequest(db, me, other).0)
  {
    hide MessagesOk, RefsOk, HiddenOk, DmReadsOk, GroupReadsOk, RolesOk, CapacityOk, PollsOk;
    FriendshipsKeepInv(db, AcceptRequest(db, me, other).0.friendships);
  }

  lemma RejectRequestKeepsInv(db: Db, me: Sub, other: Sub)
    requires Inv(db)
    ensures Inv(RejectRequest(db, me, other).0)
  {
    hide MessagesOk, RefsOk, HiddenOk, DmReadsOk, GroupReadsOk, RolesOk, CapacityOk, PollsOk;
    FriendshipsKeepInv(db, RejectRequest(db, me, other).0.friendships);
  }

  lemma RemoveRelationshipKeepsInv(db: Db, me: Sub, other: Sub)
    requires Inv(db)
    ensures Inv(RemoveRelationship(db, me, other).0)
  {
    hide MessagesOk, RefsOk, HiddenOk, DmReadsOk, GroupReadsOk, RolesOk, CapacityOk, PollsOk;
    FriendshipsKeepInv(db, RemoveRelationship(db, me, other).0.friendships);
  }

  /** The accepted friends of a user. */
  function FriendSet(db: Db, me: Sub): set<Sub> {
    set u | u in db.users && AreFriends(db, me, u)
  }
}
