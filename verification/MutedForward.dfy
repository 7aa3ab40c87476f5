/** A run in which a muted member adds a message to a group (app/messages/service.py). */
module MutedForward {
  import opened Prelude
  import opened Text
  import opened Store
  import opened Friends
  import opened Groups
  import opened Messages
  import opened Runs
  import opened Guarantees

  const HELLO := Draft("hello", Plain, None, None, [])

  /** Two users become friends, one founds a group with the other, who writes a message and is muted. */
  function MutedRun(a: Sub, b: Sub): seq<Op> {
    [Op(a, AddUser, 0.0)] + [Op(b, AddUser, 0.0)] + [Op(a, RequestFriend(b, ""), 0.0)] + [Op(b, Accept(a), 0.0)]
    + [Op(a, NewGroup("g", [b]), 0.0)] + [Op(b, SendTo(1, HELLO, None), 0.0)] + [Op(a, Mute(1, b, true), 0.0)]
  }

  lemma RunSnoc(ops: seq<Op>, op: Op)
    ensures Run(EMPTY, ops + [op]) == Apply(Run(EMPTY, ops), op).0
  {
    assert (ops + [op])[..|ops + [op]| - 1] == ops;
  }

  /** Both are signed in; nothing else is stored but perhaps friendships. */
  predicate Fresh(db: Db, a: Sub, b: Sub) {
    && db.users == {a, b} && db.messages == map[] && db.groups == map[] && db.members == map[]
    && db.nextMessage == db.nextGroup == 1
  }

  lemma SignedIn(a: Sub, b: Sub)
    ensures var db := Run(EMPTY, [Op(a, AddUser, 0.0)] + [Op(b, AddUser, 0.0)]);
      Fresh(db, a, b) && db.friendships == map[]
  {
    var first, second := Op(a, AddUser, 0.0), Op(b, AddUser, 0.0);
    RunSnoc([], first);
    assert [] + [first] == [first];
    RunSnoc([first], second);
    EdgesOfApply(EMPTY, first);
    EdgesOfApply(Run(EMPTY, [first]), second);
    hide Apply, Run;
    assert {} + {a} + {b} == {a, b};
  }

  lemma Asked(db: Db, a: Sub, b: Sub)
    requires Fresh(db, a, b) && db.friendships == map[] && a != b
    ensures SendRequest(db, a, b, "").1 == Done
    ensures Apply(db, Op(a, RequestFriend(b, ""), 0.0)) == SendRequest(db, a, b, "")
  {
    hide SendRequest;
    AskIsAdmitted(db, a, b);
  }

  lemma AskIsAdmitted(db: Db, a: Sub, b: Sub)
    requires Fresh(db, a, b) && db.friendships == map[] && a != b
    ensures SendRequest(db, a, b, "").1 == Done
  {
    assert Strip("") == "";
  }

  lemma BecomeFriends(db: Db, a: Sub, b: Sub)
    requires Fresh(db, a, b) && db.friendships == map[] && a != b
    ensures var t := Apply(Apply(db, Op(a, RequestFriend(b, ""), 0.0)).0, Op(b, Accept(a), 0.0)).0;
      Fresh(t, a, b) && AreFriends(t, a, b)
  {
    Asked(db, a, b);
    RequestLifeCycle(db, a, b, "");
    var asked := SendRequest(db, a, b, "").0;
    AskKeepsFresh(db, a, b);
    AcceptIsCall(asked, a, b);
    AcceptKeepsFresh(asked, a, b);
    hide Apply, SendRequest, AcceptRequest, AreFriends;
  }

  lemma AcceptIsCall(db: Db, a: Sub, b: Sub)
    requires b in db.users
    ensures Apply(db, Op(b, Accept(a), 0.0)) == AcceptRequest(db, b, a)
  {
    hide AcceptRequest;
  }

  lemma AskKeepsFresh(db: Db, a: Sub, b: Sub)
    requires Fresh(db, a, b)
    ensures Fresh(SendRequest(db, a, b, "").0, a, b)
  {
    hide Strip, ReasonOf, PairRow;
  }

  lemma AcceptKeepsFresh(db: Db, a: Sub, b: Sub)
    requires Fresh(db, a, b)
    ensures Fresh(AcceptRequest(db, b, a).0, a, b)
  {
    hide Answerable;
  }

  /** The group exists, founded by a, and b is in it, muted or not; the message, if any, is b's. */
  predicate Founded(db: Db, a: Sub, b: Sub, muted: bool) {
    && db.users == {a, b} && 1 in db.groups
    && (1, a) in db.members && db.members[(1, a)].role == Owner
    && (1, b) in db.members && db.members[(1, b)] == MemberRow(Member, muted)
  }

  lemma Found(db: Db, a: Sub, b: Sub)
    requires Fresh(db, a, b) && AreFriends(db, a, b) && a != b
    ensures var t := CreateGroup(db, a, "g", [b]).0;
      Founded(t, a, b, false) && t.messages == map[] && t.nextMessage == 1
  {
    assert Strip("g") == "g";
    assert Elements([b]) == {b};
    InviteesAreFriends(db, a, [b]);
    hide Strip, AreFriends, InviteError, Elements;
    assert (1, b) in NewRows(1, {b});
  }

  lemma Write(db: Db, a: Sub, b: Sub)
    requires Founded(db, a, b, false) && db.messages == map[] && db.nextMessage == 1
    ensures var t := SendGroup(db, b, 1, HELLO, None, 0.0).0;
      && Founded(t, a, b, false) && 1 in t.messages && InGroup(t.messages[1], 1)
      && t.messages[1].deletedAt.None? && t.messages[1].contentType == Plain
  {
    hide GroupMarker, Raise, NewRows, Elements;
    assert SendGroupError(db, b, 1, HELLO, None).None?;
  }

  lemma Silence(db: Db, a: Sub, b: Sub)
    requires Founded(db, a, b, false) && a != b
    ensures var t := SetMemberMute(db, a, 1, b, true).0; Founded(t, a, b, true) && t.messages == db.messages
  {
  }

  lemma FounderCalls(db: Db, a: Sub, b: Sub)
    requires db.users == {a, b}
    ensures Apply(db, Op(a, NewGroup("g", [b]), 0.0)) == CreateGroup(db, a, "g", [b])
    ensures Apply(db, Op(b, SendTo(1, HELLO, None), 0.0)) == SendGroup(db, b, 1, HELLO, None, 0.0)
    ensures Apply(db, Op(a, Mute(1, b, true), 0.0)) == SetMemberMute(db, a, 1, b, true)
  {
    hide CreateGroup, SendGroup, SetMemberMute;
  }

  lemma FoundWriteSilence(db: Db, a: Sub, b: Sub)
    requires Fresh(db, a, b) && AreFriends(db, a, b) && a != b
    ensures var d1 := Apply(db, Op(a, NewGroup("g", [b]), 0.0)).0;
            var d2 := Apply(d1, Op(b, SendTo(1, HELLO, None), 0.0)).0;
            var t := Apply(d2, Op(a, Mute(1, b, true), 0.0)).0;
      && Founded(t, a, b, true) && 1 in t.messages && InGroup(t.messages[1], 1)
      && t.messages[1].deletedAt.None? && t.messages[1].contentType == Plain
  {
    var d1 := CreateGroup(db, a, "g", [b]).0;
    var d2 := SendGroup(d1, b, 1, HELLO, None, 0.0).0;
    FounderCalls(db, a, b);
    Found(db, a, b);
    hide Apply, CreateGroup, SendGroup, SetMemberMute, AreFriends, InGroup;
    FounderCalls(d1, a, b);
    Write(d1, a, b);
    FounderCalls(d2, a, b);
    Silence(d2, a, b);
  }

  lemma MutedRunEndsMuted(a: Sub, b: Sub)
    requires a != b
    ensures var db := Run(EMPTY, MutedRun(a, b));
      && Founded(db, a, b, true) && 1 in db.messages && InGroup(db.messages[1], 1)
      && db.messages[1].deletedAt.None? && db.messages[1].contentType == Plain
  {
    hide Run, Apply, AreFriends, InGroup;
    var s2 := [Op(a, AddUser, 0.0)] + [Op(b, AddUser, 0.0)];
    var s3 := s2 + [Op(a, RequestFriend(b, ""), 0.0)];
    var s4 := s3 + [Op(b, Accept(a), 0.0)];
    var s5 := s4 + [Op(a, NewGroup("g", [b]), 0.0)];
    var s6 := s5 + [Op(b, SendTo(1, HELLO, None), 0.0)];
    SignedIn(a, b);
    RunSnoc(s2, Op(a, RequestFriend(b, ""), 0.0));
    RunSnoc(s3, Op(b, Accept(a), 0.0));
    BecomeFriends(Run(EMPTY, s2), a, b);
    RunSnoc(s4, Op(a, NewGroup("g", [b]), 0.0));
    RunSnoc(s5, Op(b, SendTo(1, HELLO, None), 0.0));
    RunSnoc(s6, Op(a, Mute(1, b, true), 0.0));
    FoundWriteSilence(Run(EMPTY, s4), a, b);
  }

  /** From empty tables a muted member is reached whose forward of an earlier message adds one to the
      group, while a message of the same text is refused. */
  lemma MutedForwardReachable(a: Sub, b: Sub, now: real)
    requires a != b
    ensures var db := Run(EMPTY, MutedRun(a, b));
      && IsMember(db, 1, b) && db.members[(1, b)].muted
      && Adds(db, Apply(db, Op(b, ForwardTo(1, In(1)), now)).0, 1)
      && Apply(db, Op(b, SendTo(1, HELLO, None), now)) == (db, Fail(403))
  {
    var db := Run(EMPTY, MutedRun(a, b));
    MutedRunEndsMuted(a, b);
    RunKeepsInv(MutedRun(a, b));
    MutedForwardIsAdmissible(db, b, 1, 1);
    hide Run, Inv, Adds, ForwardError, MutedRun, InGroup;
    MutedMemberOnlyForwards(db, Op(b, ForwardTo(1, In(1)), now), 1);
    MutedSendRefused(db, b, now);
  }

  lemma MutedSendRefused(db: Db, b: Sub, now: real)
    requires b in db.users && IsMember(db, 1, b) && db.members[(1, b)].muted
    ensures Apply(db, Op(b, SendTo(1, HELLO, None), now)) == (db, Fail(403))
  {
    hide ReplyErrorGroup, MentionErrorGroup, AttachmentError, PollError;
  }
}
