/** What a whole run keeps: who wrote a message was allowed to, a closed poll and a withdrawn message
    stay as they are, and what belongs to a user is changed by that user's calls alone. */
module Lifetimes {
  import opened Prelude
  import opened Text
  import opened Store
  import opened Groups
  import opened MessagesInv
  import opened Runs
  import opened Guarantees
  import opened Permissions
  import opened Effects

  predicate SameRow<K(==), V(==)>(before: map<K, V>, after: map<K, V>, k: K) {
    (k in before <==> k in after) && (k in before && k in after ==> before[k] == after[k])
  }

  predicate Sends(c: Call) {
    c.Send? || c.SendTo? || c.ForwardTo?
  }

  lemma PutsElsewhere<K, V>(before: map<K, V>, after: map<K, V>, k: K, j: K)
    requires Puts(before, after, k) && j != k
    ensures SameRow(before, after, j)
  {
    if j in before { assert j in before - {k}; }
    if j in after { assert j in after - {k}; }
  }

  // ---------------------------------------------------------------------------------------------
  // Authors

  /** The call puts a message by its caller where the message is. */
  predicate WritesTo(op: Op, m: Message) {
    && m.sender == op.me
    && match op.call
       case Send(other, _) => Between(m, op.me, other)
       case SendTo(g, _, _) => InGroup(m, g)
       case ForwardTo(_, With(other)) => Between(m, op.me, other)
       case ForwardTo(_, In(g)) => InGroup(m, g)
       case _ => false
  }

  /** The i-th call of the run wrote message `id`, and was allowed to at that moment. */
  ghost predicate WrittenAt(ops: seq<Op>, i: nat, id: nat, m: Message)
    requires i < |ops|
  {
    && Allowed(Run(EMPTY, ops[..i]), ops[i]) && WritesTo(ops[i], m)
    && Run(EMPTY, ops[..i]).nextMessage == id
  }

  lemma SendingWrites(db: Db, op: Op, t: Db, reply: Reply, id: nat)
    requires Sends(op.call)
    requires SendEffect(db, op.me, op.call, op.now, t, reply) && id in t.messages && id !in db.messages
    ensures WritesTo(op, t.messages[id]) && id == db.nextMessage
  {
    hide Mentions, CarriesUpload, Says, Copies, Between, InGroup, PollIs, Puts;
    NewKeyIsPut(db.messages, t.messages, db.nextMessage, id);
  }

  lemma OtherCallsWriteNothing(db: Db, op: Op, t: Db, reply: Reply, id: nat)
    requires !Sends(op.call)
    requires GroupEffect(db, op.me, op.call, t, reply) && MessageEffect(db, op.me, op.call, op.now, t)
    requires OnlyByItsCalls(db, t, op.call)
    ensures id in t.messages ==> id in db.messages
  {
    hide Puts, NoTrace, RestUntouched, OtherSettingsUntouched;
    if id in t.messages && id !in db.messages {
      match op.call
      case Edit(_, i, _) => NewKeyIsPut(db.messages, t.messages, i, id);
      case Withdraw(_, i) => NewKeyIsPut(db.messages, t.messages, i, id);
      case _ =>
    }
  }

  lemma NewMessageIsWritten(db: Db, op: Op, id: nat)
    requires Inv(db) && id in Apply(db, op).0.messages && id !in db.messages
    ensures Allowed(db, op) && WritesTo(op, Apply(db, op).0.messages[id]) && id == db.nextMessage
  {
    hide Inv, Apply, Allowed, Why, WritesTo, PeopleEffect, GroupEffect, SendEffect, MessageEffect, OnlyByItsCalls;
    SucceedsIffAllowed(db, op);
    SucceedingCallsDo(db, op);
    var (t, reply) := Apply(db, op);
    if Sends(op.call) {
      SendingWrites(db, op, t, reply, id);
    } else {
      OtherCallsWriteNothing(db, op, t, reply, id);
    }
  }

  lemma NewKeyIsPut<K, V>(before: map<K, V>, after: map<K, V>, k: K, j: K)
    requires Puts(before, after, k) && j in after && j !in before
    ensures j == k
  {
    if j != k { PutsElsewhere(before, after, k, j); }
  }

  lemma PlaceKeepsAuthor(op: Op, m: Message, n: Message)
    requires SamePlace(n, m)
    ensures WritesTo(op, m) <==> WritesTo(op, n)
  {
  }

  /** Every message that a run leaves was written by an allowed call of its sender: a direct message when
      the two were friends, a group message when the sender was in the group. */
  lemma {:induction false} MessagesHaveAllowedAuthors(ops: seq<Op>, id: nat)
    requires id in Run(EMPTY, ops).messages
    ensures exists i: nat :: i < |ops| && WrittenAt(ops, i, id, Run(EMPTY, ops).messages[id])
    decreases |ops|
  {
    hide Inv, Apply, Allowed, WritesTo, MessagesKept, SamePlace;
    if ops == [] {
    } else {
      var n := |ops| - 1;
      var db, m := Run(EMPTY, ops[..n]), Run(EMPTY, ops).messages[id];
      RunKeepsInv(ops[..n]);
      if id in db.messages {
        MessagesHaveAllowedAuthors(ops[..n], id);
        var i: nat :| i < n && WrittenAt(ops[..n], i, id, db.messages[id]);
        assert ops[..n][..i] == ops[..i];
        KeptInPlace(db, ops[n], id);
        PlaceKeepsAuthor(ops[i], db.messages[id], m);
        assert WrittenAt(ops, i, id, m);
      } else {
        NewMessageIsWritten(db, ops[n], id);
        assert WrittenAt(ops, n, id, m);
      }
    }
  }

  lemma KeptInPlace(db: Db, op: Op, id: nat)
    requires Inv(db) && id in db.messages && id in Apply(db, op).0.messages
    ensures SamePlace(Apply(db, op).0.messages[id], db.messages[id])
  {
    hide Inv, Apply, SamePlace;
    CallsKeepMessages(db, op);
  }

  // ---------------------------------------------------------------------------------------------
  // Closed polls

  ghost predicate PollFrozen(db: Db, t: Db, p: nat) {
    p in db.polls && p in t.polls ==>
      t.polls[p] == db.polls[p] && forall u: Sub :: SameRow(db.votes, t.votes, (p, u))
  }

  lemma DissolveFreezesPolls(db: Db, t: Db, g: nat, p: nat)
    requires NothingNew(t, db) && RestUntouched(t, db, g) && NoTrace(t, db, g)
    ensures PollFrozen(db, t, p)
  {
    hide MessageRowsUntouched;
  }

  lemma SameTablesFreeze(db: Db, t: Db, p: nat)
    requires t.polls == db.polls && t.votes == db.votes
    ensures PollFrozen(db, t, p)
  {
  }

  lemma PutFreezesOthers(db: Db, t: Db, q: nat, p: nat)
    requires Puts(db.polls, t.polls, q) && t.votes == db.votes
    requires p in db.polls && (p == q ==> t.polls[p] == db.polls[p])
    ensures PollFrozen(db, t, p)
  {
    if p != q { PutsElsewhere(db.polls, t.polls, q, p); }
  }

  lemma VoteFreezesOthers(db: Db, t: Db, q: nat, me: Sub, p: nat)
    requires Puts(db.votes, t.votes, (q, me)) && t.polls == db.polls && p != q
    ensures PollFrozen(db, t, p)
  {
    forall u: Sub ensures SameRow(db.votes, t.votes, (p, u)) { PutsElsewhere(db.votes, t.votes, (q, me), (p, u)); }
  }

  lemma SendingPutsPoll(db: Db, op: Op, t: Db, reply: Reply)
    requires op.call.SendTo? && SendEffect(db, op.me, op.call, op.now, t, reply)
    ensures if op.call.poll.None? then t.polls == db.polls
            else Puts(db.polls, t.polls, db.nextPoll) && db.nextPoll !in db.polls
  {
    hide Mentions, CarriesUpload, Says, InGroup, PollIs, Puts, Writes;
  }

  lemma EffectFreezesPoll(db: Db, op: Op, t: Db, reply: Reply, p: nat)
    requires GroupEffect(db, op.me, op.call, t, reply) && SendEffect(db, op.me, op.call, op.now, t, reply)
    requires MessageEffect(db, op.me, op.call, op.now, t) && OnlyByItsCalls(db, t, op.call)
    requires p in db.polls && db.polls[p].closed && !(op.call.Cast? && op.call.p == p)
    ensures PollFrozen(db, t, p)
  {
    hide PollFrozen, Puts, SendEffect;
    if op.call.SendTo? { SendingPutsPoll(db, op, t, reply); }
    match op.call
    case Cast(g, q, _) => VoteFreezesOthers(db, t, q, op.me, p);
    case Close(g, q) => PutFreezesOthers(db, t, q, p);
    case SendTo(_, _, Some(_)) => PutFreezesOthers(db, t, db.nextPoll, p);
    case Dissolve(g) => DissolveFreezesPolls(db, t, g, p);
    case _ => SameTablesFreeze(db, t, p);
  }

  lemma ClosedPollStays(db: Db, op: Op, p: nat)
    requires Inv(db) && p in db.polls && db.polls[p].closed
    ensures PollFrozen(db, Apply(db, op).0, p)
  {
    hide Inv, Apply, PollFrozen, Why, PeopleEffect, GroupEffect, SendEffect, MessageEffect, OnlyByItsCalls;
    var (t, reply) := Apply(db, op);
    SameTablesFreeze(db, db, p);
    SucceedsIffAllowed(db, op);
    if !reply.Fail? {
      SucceedingCallsDo(db, op);
      EffectFreezesPoll(db, op, t, reply, p);
    }
  }

  lemma PutsBelow<V>(before: map<nat, V>, after: map<nat, V>, k: nat, p: nat)
    requires Puts(before, after, k) && p !in before && p != k
    ensures p !in after
  {
    if p in after { NewKeyIsPut(before, after, k, p); }
  }

  lemma PollTableGrows(db: Db, op: Op, t: Db, reply: Reply, p: nat)
    requires GroupEffect(db, op.me, op.call, t, reply) && SendEffect(db, op.me, op.call, op.now, t, reply)
    requires MessageEffect(db, op.me, op.call, op.now, t) && OnlyByItsCalls(db, t, op.call)
    ensures db.nextPoll <= t.nextPoll
    ensures p < db.nextPoll && p !in db.polls ==> p !in t.polls
  {
    hide Puts, NoTrace, RestUntouched, OtherSettingsUntouched, PollIs, Writes, Mentions, CarriesUpload, Says, Copies,
         Between, InGroup;
    if p < db.nextPoll && p !in db.polls {
      match op.call
      case SendTo(_, _, Some(_)) => PutsBelow(db.polls, t.polls, db.nextPoll, p);
      case Close(_, q) => PutsBelow(db.polls, t.polls, q, p);
      case _ =>
    }
  }

  /** Poll ids are given out once. */
  lemma PollsNeverReturn(db: Db, op: Op, p: nat)
    requires Inv(db) && p < db.nextPoll
    ensures p !in db.polls ==> p !in Apply(db, op).0.polls
    ensures p < Apply(db, op).0.nextPoll
  {
    hide Inv, Apply, Allowed, Why, PeopleEffect, GroupEffect, SendEffect, MessageEffect, OnlyByItsCalls;
    var (t, reply) := Apply(db, op);
    SucceedsIffAllowed(db, op);
    if !reply.Fail? {
      SucceedingCallsDo(db, op);
      PollTableGrows(db, op, t, reply, p);
    }
  }

  lemma StoredPollIsBelow(db: Db, p: nat)
    requires Inv(db) && p in db.polls
    ensures p < db.nextPoll
  {
    hide MessagesOk, RefsOk, HiddenOk, DmReadsOk, GroupReadsOk, RolesOk, CapacityOk, FriendsOk;
  }

  /** Over any run a closed poll stays closed, with the same votes, for as long as it is stored. */
  lemma {:induction false} ClosedPollIsFrozen(db: Db, ops: seq<Op>, p: nat)
    requires Inv(db) && p in db.polls && db.polls[p].closed
    ensures Inv(Run(db, ops)) && p < Run(db, ops).nextPoll
    ensures PollFrozen(db, Run(db, ops), p)
    decreases |ops|
  {
    hide Inv, Apply;
    if ops == [] {
      StoredPollIsBelow(db, p);
    } else {
      var mid, op := Run(db, ops[..|ops| - 1]), ops[|ops| - 1];
      ClosedPollIsFrozen(db, ops[..|ops| - 1], p);
      ApplyKeepsInv(mid, op);
      PollsNeverReturn(mid, op, p);
      if p in mid.polls { ClosedPollStays(mid, op, p); }
    }
  }

  // ---------------------------------------------------------------------------------------------
  // Withdrawn messages

  /** The message and its reactions are as before, if it is still stored. */
  ghost predicate MessageFrozen(db: Db, t: Db, id: nat) {
    id in db.messages && id in t.messages ==>
      && t.messages[id] == db.messages[id]
      && forall u: Sub, emoji: string :: (id, u, emoji) in t.reactions <==> (id, u, emoji) in db.reactions
  }

  lemma SameMessagesFreeze(db: Db, t: Db, id: nat)
    requires t.messages == db.messages && t.reactions == db.reactions
    ensures MessageFrozen(db, t, id)
  {
  }

  lemma PutFreezesOtherMessages(db: Db, t: Db, k: nat, id: nat)
    requires Puts(db.messages, t.messages, k) && t.reactions == db.reactions && id != k
    ensures MessageFrozen(db, t, id)
  {
    PutsElsewhere(db.messages, t.messages, k, id);
  }

  lemma ReactionFreezesOthers(db: Db, t: Db, r: (nat, Sub, string), id: nat)
    requires t.messages == db.messages && t.reactions - {r} == db.reactions - {r} && id != r.0
    ensures MessageFrozen(db, t, id)
  {
    forall u: Sub, emoji: string ensures (id, u, emoji) in t.reactions <==> (id, u, emoji) in db.reactions {
      assert (id, u, emoji) in t.reactions - {r} <==> (id, u, emoji) in db.reactions - {r};
    }
  }

  lemma DissolveFreezesMessages(db: Db, t: Db, g: nat, id: nat)
    requires NothingNew(t, db) && RestUntouched(t, db, g) && NoTrace(t, db, g)
    ensures MessageFrozen(db, t, id)
  {
    hide GroupRowsUntouched;
  }

  lemma SendingPuts(db: Db, op: Op, t: Db, reply: Reply)
    requires Sends(op.call) && SendEffect(db, op.me, op.call, op.now, t, reply)
    ensures Puts(db.messages, t.messages, db.nextMessage) && db.nextMessage !in db.messages
  {
    hide Mentions, CarriesUpload, Says, Copies, Between, InGroup, PollIs, Puts;
  }

  lemma EffectFreezesMessage(db: Db, op: Op, t: Db, reply: Reply, id: nat)
    requires GroupEffect(db, op.me, op.call, t, reply) && SendEffect(db, op.me, op.call, op.now, t, reply)
    requires MessageEffect(db, op.me, op.call, op.now, t) && OnlyByItsCalls(db, t, op.call)
    requires id in db.messages && !((op.call.Edit? || op.call.Withdraw? || op.call.React?) && op.call.id == id)
    ensures MessageFrozen(db, t, id)
  {
    hide MessageFrozen, SendEffect, Puts;
    if Sends(op.call) { SendingPuts(db, op, t, reply); }
    match op.call
    case Send(_, _) => PutFreezesOtherMessages(db, t, db.nextMessage, id);
    case SendTo(_, _, _) => PutFreezesOtherMessages(db, t, db.nextMessage, id);
    case ForwardTo(_, _) => PutFreezesOtherMessages(db, t, db.nextMessage, id);
    case Edit(_, i, _) => PutFreezesOtherMessages(db, t, i, id);
    case Withdraw(_, i) => PutFreezesOtherMessages(db, t, i, id);
    case React(_, i, emoji, _) => ReactionFreezesOthers(db, t, (i, op.me, emoji), id);
    case Dissolve(g) => DissolveFreezesMessages(db, t, g, id);
    case _ => SameMessagesFreeze(db, t, id);
  }

  lemma WithdrawnMessageStays(db: Db, op: Op, id: nat)
    requires Inv(db) && id in db.messages && db.messages[id].deletedAt.Some?
    ensures MessageFrozen(db, Apply(db, op).0, id)
  {
    hide Inv, Apply, MessageFrozen, Why, Found, PeopleEffect, GroupEffect, SendEffect, MessageEffect, OnlyByItsCalls;
    var (t, reply) := Apply(db, op);
    SameMessagesFreeze(db, db, id);
    SucceedsIffAllowed(db, op);
    if !reply.Fail? {
      SucceedingCallsDo(db, op);
      EffectFreezesMessage(db, op, t, reply, id);
    }
  }

  lemma StoredMessageIsBelow(db: Db, id: nat)
    requires Inv(db) && id in db.messages
    ensures id < db.nextMessage
  {
    hide RefsOk, HiddenOk, DmReadsOk, GroupReadsOk, RolesOk, CapacityOk, PollsOk, FriendsOk, MessageOk;
  }

  lemma MessagesNeverReturn(db: Db, op: Op, id: nat)
    requires Inv(db) && id < db.nextMessage
    ensures id !in db.messages ==> id !in Apply(db, op).0.messages
    ensures id < Apply(db, op).0.nextMessage
  {
    hide Inv, Apply, SamePlace;
    CallsKeepMessages(db, op);
  }

  /** Over any run a withdrawn message stays blank, and its reactions stay as they are, for as long as it
      is stored. */
  lemma {:induction false} WithdrawnMessageIsFrozen(db: Db, ops: seq<Op>, id: nat)
    requires Inv(db) && id in db.messages && db.messages[id].deletedAt.Some?
    ensures Inv(Run(db, ops)) && id < Run(db, ops).nextMessage
    ensures MessageFrozen(db, Run(db, ops), id)
    decreases |ops|
  {
    hide Inv, Apply;
    if ops == [] {
      StoredMessageIsBelow(db, id);
    } else {
      var mid, op := Run(db, ops[..|ops| - 1]), ops[|ops| - 1];
      WithdrawnMessageIsFrozen(db, ops[..|ops| - 1], id);
      ApplyKeepsInv(mid, op);
      MessagesNeverReturn(mid, op, id);
      if id in mid.messages { WithdrawnMessageStays(mid, op, id); }
    }
  }

  // ---------------------------------------------------------------------------------------------
  // What belongs to a user

  /** The user's hidden messages, cursors and settings of direct conversations. */
  ghost predicate PrivateKept(db: Db, t: Db, u: Sub) {
    && (forall id :: (u, id) in t.hidden <==> (u, id) in db.hidden)
    && (forall lo, hi :: SameRow(db.dmReads, t.dmReads, (u, lo, hi)))
    && (forall key :: SameRow(db.settings, t.settings, (u, DmSetting, key)))
  }

  /** The user's stars, reactions, votes and own messages, as far as the messages and polls that they are
      about are still stored. */
  ghost predicate MarksKept(db: Db, t: Db, u: Sub) {
    StarsKept(db, t, u) && ReactionsKept(db, t, u) && VotesKept(db, t, u) && TextsKept(db, t, u)
  }

  ghost predicate StarsKept(db: Db, t: Db, u: Sub) {
    forall id | id in t.messages :: (u, id) in t.stars <==> (u, id) in db.stars
  }

  ghost predicate ReactionsKept(db: Db, t: Db, u: Sub) {
    forall id, emoji | id in t.messages :: (id, u, emoji) in t.reactions <==> (id, u, emoji) in db.reactions
  }

  ghost predicate VotesKept(db: Db, t: Db, u: Sub) {
    forall p | p in t.polls :: SameRow(db.votes, t.votes, (p, u))
  }

  ghost predicate TextsKept(db: Db, t: Db, u: Sub) {
    forall id | id in t.messages && id in db.messages && db.messages[id].sender == u ::
      t.messages[id] == db.messages[id]
  }

  lemma NothingMovesPrivate(db: Db, t: Db, u: Sub)
    requires t.hidden == db.hidden && t.dmReads == db.dmReads
    requires forall key :: SameRow(db.settings, t.settings, (u, DmSetting, key))
    ensures PrivateKept(db, t, u)
  {
  }

  lemma CursorElsewhere(db: Db, t: Db, k: (Sub, string, string), u: Sub)
    requires Puts(db.dmReads, t.dmReads, k) && k.0 != u && t.hidden == db.hidden && t.settings == db.settings
    ensures PrivateKept(db, t, u)
  {
    forall lo, hi ensures SameRow(db.dmReads, t.dmReads, (u, lo, hi)) {
      PutsElsewhere(db.dmReads, t.dmReads, k, (u, lo, hi));
    }
  }

  lemma SettingElsewhere(db: Db, t: Db, k: (Sub, SettingKind, string), u: Sub)
    requires Puts(db.settings, t.settings, k) && k.0 != u && t.hidden == db.hidden && t.dmReads == db.dmReads
    ensures PrivateKept(db, t, u)
  {
    forall key ensures SameRow(db.settings, t.settings, (u, DmSetting, key)) {
      PutsElsewhere(db.settings, t.settings, k, (u, DmSetting, key));
    }
  }

  lemma DissolveKeepsPrivate(db: Db, t: Db, g: nat, u: Sub)
    requires NothingNew(t, db) && RestUntouched(t, db, g) && OtherSettingsUntouched(t, db, g)
    ensures PrivateKept(db, t, u)
  {
    hide GroupRowsUntouched;
  }

  lemma SendingKeepsPrivate(db: Db, op: Op, t: Db, reply: Reply, u: Sub)
    requires Sends(op.call)
    requires SendEffect(db, op.me, op.call, op.now, t, reply) && OnlyByItsCalls(db, t, op.call)
    requires op.me != u
    ensures PrivateKept(db, t, u)
  {
    hide PrivateKept, Mentions, CarriesUpload, Says, Copies, Between, InGroup, PollIs;
    if t.dmReads == db.dmReads {
      NothingMovesPrivate(db, t, u);
    } else {
      CursorElsewhere(db, t, OwnCursor(t.messages[reply.id]), u);
    }
  }

  lemma EffectKeepsPrivate(db: Db, op: Op, t: Db, reply: Reply, u: Sub)
    requires GroupEffect(db, op.me, op.call, t, reply) && MessageEffect(db, op.me, op.call, op.now, t)
    requires OnlyByItsCalls(db, t, op.call)
    requires op.me != u && !Sends(op.call)
    ensures PrivateKept(db, t, u)
  {
    hide PrivateKept, Puts, Join, Flags, PairKey, NoTrace;
    match op.call
    case Read(other, _) => CursorElsewhere(db, t, (op.me, PairKey(op.me, other).0, PairKey(op.me, other).1), u);
    case Configure(kind, key, _, _, _) => SettingElsewhere(db, t, (op.me, kind, key), u);
    case Dissolve(g) => DissolveKeepsPrivate(db, t, g, u);
    case Hide(_, id) => HiddenElsewhere(db, t, (op.me, id), u);
    case Remove(g, target) => DepartureKeepsPrivate(db, t, g, target, u);
    case Leave(g) => DepartureKeepsPrivate(db, t, g, op.me, u);
    case _ => NothingMovesPrivate(db, t, u);
  }

  lemma DepartureKeepsPrivate(db: Db, t: Db, g: nat, leaver: Sub, u: Sub)
    requires Departs(db, t, g, leaver) && t.hidden == db.hidden && t.dmReads == db.dmReads
    ensures PrivateKept(db, t, u)
  {
  }

  lemma HiddenElsewhere(db: Db, t: Db, r: (Sub, nat), u: Sub)
    requires t.hidden == db.hidden + {r} && r.0 != u && t.dmReads == db.dmReads && t.settings == db.settings
    ensures PrivateKept(db, t, u)
  {
  }

  // ---------------------------------------------------------------------------------------------

  lemma MarksStay(db: Db, t: Db, u: Sub)
    requires t.stars == db.stars && t.reactions == db.reactions && t.votes == db.votes
    requires TextsKept(db, t, u)
    ensures MarksKept(db, t, u)
  {
  }

  lemma SameTexts(db: Db, t: Db, u: Sub)
    requires t.messages == db.messages
    ensures TextsKept(db, t, u)
  {
  }

  lemma RewriteOfOthers(db: Db, t: Db, k: nat, u: Sub)
    requires Puts(db.messages, t.messages, k) && (k in db.messages ==> db.messages[k].sender != u)
    requires t.stars == db.stars && t.reactions == db.reactions && t.votes == db.votes
    ensures MarksKept(db, t, u)
  {
    forall id | id in t.messages && id in db.messages && db.messages[id].sender == u
      ensures t.messages[id] == db.messages[id]
    {
      PutsElsewhere(db.messages, t.messages, k, id);
    }
  }

  lemma ReactionOfOthers(db: Db, t: Db, r: (nat, Sub, string), u: Sub)
    requires t.reactions - {r} == db.reactions - {r} && r.1 != u
    requires t.messages == db.messages && t.stars == db.stars && t.votes == db.votes
    ensures MarksKept(db, t, u)
  {
    forall id, emoji ensures (id, u, emoji) in t.reactions <==> (id, u, emoji) in db.reactions {
      assert (id, u, emoji) in t.reactions - {r} <==> (id, u, emoji) in db.reactions - {r};
    }
  }

  lemma StarOfOthers(db: Db, t: Db, r: (Sub, nat), u: Sub)
    requires t.stars - {r} == db.stars - {r} && r.0 != u
    requires t.messages == db.messages && t.reactions == db.reactions && t.votes == db.votes
    ensures MarksKept(db, t, u)
  {
    forall id ensures (u, id) in t.stars <==> (u, id) in db.stars {
      assert (u, id) in t.stars - {r} <==> (u, id) in db.stars - {r};
    }
  }

  lemma VoteOfOthers(db: Db, t: Db, k: (nat, Sub), u: Sub)
    requires Puts(db.votes, t.votes, k) && k.1 != u
    requires t.messages == db.messages && t.reactions == db.reactions && t.stars == db.stars
    ensures MarksKept(db, t, u)
  {
    forall p ensures SameRow(db.votes, t.votes, (p, u)) { PutsElsewhere(db.votes, t.votes, k, (p, u)); }
  }

  lemma DissolveKeepsMarks(db: Db, op: Op, t: Db, reply: Reply, u: Sub)
    requires op.call.Dissolve? && GroupEffect(db, op.me, op.call, t, reply)
    ensures MarksKept(db, t, u)
  {
    hide OtherSettingsUntouched;
  }

  lemma EffectKeepsMarks(db: Db, op: Op, t: Db, reply: Reply, u: Sub)
    requires SendEffect(db, op.me, op.call, op.now, t, reply) && MessageEffect(db, op.me, op.call, op.now, t)
    requires OnlyByItsCalls(db, t, op.call)
    requires op.me != u && !op.call.Dissolve?
    requires op.call.Edit? || op.call.Withdraw? ==> db.messages[op.call.id].sender == op.me
    ensures MarksKept(db, t, u)
  {
    hide MarksKept, SendEffect, Puts, Flags, TextsKept;
    if t.messages == db.messages { SameTexts(db, t, u); }
    if Sends(op.call) { SendingPuts(db, op, t, reply); }
    match op.call
    case Send(_, _) => RewriteOfOthers(db, t, db.nextMessage, u);
    case SendTo(_, _, _) => RewriteOfOthers(db, t, db.nextMessage, u);
    case ForwardTo(_, _) => RewriteOfOthers(db, t, db.nextMessage, u);
    case Edit(_, id, _) => RewriteOfOthers(db, t, id, u);
    case Withdraw(_, id) => RewriteOfOthers(db, t, id, u);
    case React(_, id, emoji, _) => ReactionOfOthers(db, t, (id, op.me, emoji), u);
    case Star(id, _) => StarOfOthers(db, t, (op.me, id), u);
    case Cast(_, p, _) => VoteOfOthers(db, t, (p, op.me), u);
    case _ => MarksStay(db, t, u);
  }

  lemma OthersKeepMarks(db: Db, op: Op, u: Sub)
    requires Inv(db) && op.me != u
    ensures MarksKept(db, Apply(db, op).0, u)
  {
    var (t, reply) := Apply(db, op);
    hide Inv, Apply, MarksKept, Why, Found, PeopleEffect, GroupEffect, SendEffect, MessageEffect, OnlyByItsCalls;
    MarksStay(db, db, u);
    SucceedsIffAllowed(db, op);
    if !reply.Fail? {
      SucceedingCallsDo(db, op);
      if op.call.Dissolve? { DissolveKeepsMarks(db, op, t, reply, u); } else { EffectKeepsMarks(db, op, t, reply, u); }
    }
  }

  lemma OthersKeepPrivate(db: Db, op: Op, u: Sub)
    requires Inv(db) && op.me != u
    ensures PrivateKept(db, Apply(db, op).0, u)
  {
    hide Inv, Apply, PrivateKept, Allowed, Why, PeopleEffect, GroupEffect, SendEffect, MessageEffect, OnlyByItsCalls;
    var (t, reply) := Apply(db, op);
    NothingMovesPrivate(db, db, u);
    SucceedsIffAllowed(db, op);
    if !reply.Fail? {
      SucceedingCallsDo(db, op);
      if Sends(op.call) {
        SendingKeepsPrivate(db, op, t, reply, u);
      } else {
        EffectKeepsPrivate(db, op, t, reply, u);
      }
    }
  }

  lemma PrivateStaysKept(db: Db, mid: Db, t: Db, u: Sub)
    requires PrivateKept(db, mid, u) && PrivateKept(mid, t, u)
    ensures PrivateKept(db, t, u)
  {
    forall lo, hi ensures SameRow(db.dmReads, t.dmReads, (u, lo, hi)) {
      assert SameRow(db.dmReads, mid.dmReads, (u, lo, hi)) && SameRow(mid.dmReads, t.dmReads, (u, lo, hi));
    }
    forall key ensures SameRow(db.settings, t.settings, (u, DmSetting, key)) {
      assert SameRow(db.settings, mid.settings, (u, DmSetting, key));
      assert SameRow(mid.settings, t.settings, (u, DmSetting, key));
    }
  }

  lemma StarsStayKept(db: Db, mid: Db, t: Db, u: Sub)
    requires StarsKept(db, mid, u) && StarsKept(mid, t, u)
    requires forall id | id in t.messages && id !in mid.messages :: (u, id) !in mid.stars && (u, id) !in db.stars
    ensures StarsKept(db, t, u)
  {
  }

  lemma ReactionsStayKept(db: Db, mid: Db, t: Db, u: Sub)
    requires ReactionsKept(db, mid, u) && ReactionsKept(mid, t, u)
    requires forall id, emoji | id in t.messages && id !in mid.messages ::
               (id, u, emoji) !in mid.reactions && (id, u, emoji) !in db.reactions
    ensures ReactionsKept(db, t, u)
  {
  }

  lemma VotesStayKept(db: Db, mid: Db, t: Db, u: Sub)
    requires VotesKept(db, mid, u) && VotesKept(mid, t, u)
    requires forall p | p in t.polls && p !in mid.polls :: (p, u) !in mid.votes && (p, u) !in db.votes
    ensures VotesKept(db, t, u)
  {
    forall p | p in t.polls ensures SameRow(db.votes, t.votes, (p, u)) {
      assert SameRow(mid.votes, t.votes, (p, u));
      if p in mid.polls { assert SameRow(db.votes, mid.votes, (p, u)); }
    }
  }

  lemma TextsStayKept(db: Db, mid: Db, t: Db, u: Sub)
    requires TextsKept(db, mid, u) && TextsKept(mid, t, u)
    requires forall id | id in t.messages && id in db.messages :: id in mid.messages
    ensures TextsKept(db, t, u)
  {
  }

  /** What appears anew carries no marks yet. */
  lemma MarksStayKept(db: Db, mid: Db, t: Db, u: Sub)
    requires Inv(db) && Inv(mid) && MarksKept(db, mid, u) && MarksKept(mid, t, u)
    requires db.nextMessage <= mid.nextMessage && db.nextPoll <= mid.nextPoll
    requires forall id | id in t.messages && id !in mid.messages :: id >= mid.nextMessage
    requires forall p | p in t.polls && p !in mid.polls :: p >= mid.nextPoll
    ensures MarksKept(db, t, u)
  {
    MarksNameStored(db);
    MarksNameStored(mid);
    hide Inv, StarsKept, ReactionsKept, VotesKept, TextsKept;
    StarsStayKept(db, mid, t, u);
    ReactionsStayKept(db, mid, t, u);
    VotesStayKept(db, mid, t, u);
    TextsStayKept(db, mid, t, u);
  }

  lemma MarksNameStored(db: Db)
    requires Inv(db)
    ensures forall r | r in db.reactions :: r.0 in db.messages && r.0 < db.nextMessage
    ensures forall r | r in db.stars :: r.1 in db.messages && r.1 < db.nextMessage
    ensures forall v | v in db.votes :: v.0 in db.polls && v.0 < db.nextPoll
    ensures forall id | id in db.messages :: id < db.nextMessage
  {
    hide HiddenOk, DmReadsOk, GroupReadsOk, RolesOk, CapacityOk, FriendsOk, MessageOk;
  }

  lemma IdsMoveOn(db: Db, op: Op)
    requires Inv(db)
    ensures var t := Apply(db, op).0;
      && db.nextMessage <= t.nextMessage && db.nextPoll <= t.nextPoll
      && (forall id | id in t.messages && id !in db.messages :: id >= db.nextMessage)
      && (forall p | p in t.polls && p !in db.polls :: p >= db.nextPoll)
  {
    var t := Apply(db, op).0;
    if db.nextPoll > 0 { PollsNeverReturn(db, op, db.nextPoll - 1); }
    hide Inv, Apply, SamePlace;
    CallsKeepMessages(db, op);
    forall p | p in t.polls && p !in db.polls ensures p >= db.nextPoll {
      if p < db.nextPoll { PollsNeverReturn(db, op, p); }
    }
  }

  /** Over any run in which a user makes no call, their hidden messages, cursors and settings of direct
      conversations stay as they are, and so do their messages, stars, reactions and votes for as long as
      what these are about is stored. */
  lemma {:induction false} OwnRowsChangeByOwnCalls(db: Db, ops: seq<Op>, u: Sub)
    requires Inv(db) && forall op | op in ops :: op.me != u
    ensures var t := Run(db, ops);
      && Inv(t) && db.nextMessage <= t.nextMessage && db.nextPoll <= t.nextPoll
      && PrivateKept(db, t, u) && MarksKept(db, t, u)
    decreases |ops|
  {
    hide Inv, Apply, PrivateKept, MarksKept;
    if ops == [] {
      NothingMovesPrivate(db, db, u);
      MarksStay(db, db, u);
    } else {
      var mid, op := Run(db, ops[..|ops| - 1]), ops[|ops| - 1];
      OwnRowsChangeByOwnCalls(db, ops[..|ops| - 1], u);
      ApplyKeepsInv(mid, op);
      IdsMoveOn(mid, op);
      OthersKeepPrivate(mid, op, u);
      OthersKeepMarks(mid, op, u);
      PrivateStaysKept(db, mid, Apply(mid, op).0, u);
      MarksStayKept(db, mid, Apply(mid, op).0, u);
    }
  }

  // ---------------------------------------------------------------------------------------------
  // Friendships and memberships

  lemma PeopleEffectOnPair(db: Db, op: Op, t: Db, a: Sub, b: Sub)
    requires PeopleEffect(db, op.me, op.call, t) && OnlyByItsCalls(db, t, op.call)
    requires op.call.RequestFriend? ==> (op.me, op.call.to) !in db.friendships
    ensures Accepted(t.friendships, a, b) && !Accepted(db.friendships, a, b) ==>
              (op.call == Accept(a) && op.me == b) || (op.call == Accept(b) && op.me == a)
    ensures !Accepted(t.friendships, a, b) && Accepted(db.friendships, a, b) ==>
              (op.call == Unfriend(a) && op.me == b) || (op.call == Unfriend(b) && op.me == a)
  {
    hide Puts, Strip;
    match op.call
    case RequestFriend(to, _) => PairsElsewhere(db, t, (op.me, to), a, b);
    case Accept(asker) => PairsElsewhere(db, t, (asker, op.me), a, b);
    case _ =>
  }

  lemma PairsElsewhere(db: Db, t: Db, k: (Sub, Sub), a: Sub, b: Sub)
    requires Puts(db.friendships, t.friendships, k)
    ensures (a, b) != k ==> SameRow(db.friendships, t.friendships, (a, b))
    ensures (b, a) != k ==> SameRow(db.friendships, t.friendships, (b, a))
    ensures k in t.friendships
  {
    if (a, b) != k { PutsElsewhere(db.friendships, t.friendships, k, (a, b)); }
    if (b, a) != k { PutsElsewhere(db.friendships, t.friendships, k, (b, a)); }
  }

  /** Two users become friends only when one accepts the request of the other, and cease to be only when
      one of them ends it. */
  lemma FriendshipsNeedConsent(db: Db, op: Op, a: Sub, b: Sub)
    requires Inv(db)
    ensures var t := Apply(db, op).0;
      Accepted(t.friendships, a, b) && !Accepted(db.friendships, a, b) ==>
        || (op.call == Accept(a) && op.me == b && Pending(db.friendships, a, b))
        || (op.call == Accept(b) && op.me == a && Pending(db.friendships, b, a))
    ensures var t := Apply(db, op).0;
      !Accepted(t.friendships, a, b) && Accepted(db.friendships, a, b) ==>
        (op.call == Unfriend(a) && op.me == b) || (op.call == Unfriend(b) && op.me == a)
  {
    hide Inv, Apply, Accepted, Why, PeopleEffect, GroupEffect, SendEffect, MessageEffect, OnlyByItsCalls;
    SucceedsIffAllowed(db, op);
    if !Apply(db, op).1.Fail? {
      SucceedingCallsDo(db, op);
      PeopleEffectOnPair(db, op, Apply(db, op).0, a, b);
    }
  }

  lemma GroupEffectOnMember(db: Db, op: Op, t: Db, reply: Reply, g: nat, u: Sub)
    requires GroupEffect(db, op.me, op.call, t, reply) && OnlyByItsCalls(db, t, op.call)
    requires (g, u) in db.members && (g, u) !in t.members
    ensures (op.call == Leave(g) && op.me == u) || op.call == Remove(g, u) || op.call == Dissolve(g)
  {
    hide Puts, NoTrace, OtherSettingsUntouched, MessageRowsUntouched, Mentions;
    match op.call
    case SetRole(h, target, _) => MemberElsewhere(db, t, (h, target), (g, u));
    case Mute(h, target, _) => MemberElsewhere(db, t, (h, target), (g, u));
    case Transfer(h, target) => RoleSwapKeepsMember(db, t, (h, op.me), (h, target), (g, u));
    case _ =>
  }

  lemma RoleSwapKeepsMember(db: Db, t: Db, k: (nat, Sub), l: (nat, Sub), j: (nat, Sub))
    requires t.members - {k, l} == db.members - {k, l} && j in db.members
    ensures j in t.members || j == k || j == l
  {
    if j != k && j != l { assert j in db.members - {k, l}; }
  }

  lemma MemberElsewhere(db: Db, t: Db, k: (nat, Sub), j: (nat, Sub))
    requires Puts(db.members, t.members, k)
    ensures j != k ==> SameRow(db.members, t.members, j)
    ensures k in t.members
  {
    if j != k { PutsElsewhere(db.members, t.members, k, j); }
  }

  /** A member stops being one only by leaving, by being removed by a manager of higher rank, or with the
      group when its owner dissolves it. */
  lemma MembershipEnds(db: Db, op: Op, g: nat, u: Sub)
    requires Inv(db) && (g, u) in db.members
    ensures (g, u) !in Apply(db, op).0.members <==>
              || (op.call == Leave(g) && op.me == u && op.me in db.users && !Owns(db, g, u))
              || (op.call == Remove(g, u) && op.me in db.users && Outranks(db.members, g, op.me, u))
              || (op.call == Dissolve(g) && op.me in db.users && Owns(db, g, op.me))
  {
    hide Inv, Apply, Why, Outranks, Owns, PeopleEffect, GroupEffect, SendEffect, MessageEffect, OnlyByItsCalls;
    var (t, reply) := Apply(db, op);
    SucceedsIffAllowed(db, op);
    RemovalNeedsRank(db, op.me, g, u);
    if !reply.Fail? {
      SucceedingCallsDo(db, op);
      if (g, u) !in t.members { GroupEffectOnMember(db, op, t, reply, g, u); }
      if (op.call == Leave(g) && op.me == u) || op.call == Remove(g, u) || op.call == Dissolve(g) {
        DepartedIsGone(db, op, t, reply, g, u);
      }
    }
  }

  lemma RemovalNeedsRank(db: Db, me: Sub, g: nat, u: Sub)
    requires Inv(db)
    ensures MayCall(db, me, Remove(g, u), 0.0) <==> Outranks(db.members, g, me, u)
  {
    hide Inv;
    OwnerMeansOwns(db, g, me);
    OwnerMeansOwns(db, g, u);
  }

  lemma DepartedIsGone(db: Db, op: Op, t: Db, reply: Reply, g: nat, u: Sub)
    requires GroupEffect(db, op.me, op.call, t, reply)
    requires (op.call == Leave(g) && op.me == u) || op.call == Remove(g, u) || op.call == Dissolve(g)
    ensures (g, u) !in t.members
  {
    hide RestUntouched, OtherSettingsUntouched, NothingNew;
  }
}
