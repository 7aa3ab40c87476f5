/** The service functions as they change the tables in place, each proved to be one step of the model
    (app/messages/service.py, app/groups/service.py, app/polls/service.py, app/friends/service.py). */
module Database {
  import opened Prelude
  import opened Text
  import opened Store
  import opened Friends
  import opened Groups
  import opened Messages
  import opened Runs
  import opened Permissions

  /** Where an entry first occurs. */
  function FirstIndex(subs: seq<Sub>, u: Sub): (i: nat)
    requires u in subs
    ensures i < |subs|
  {
    if subs[0] == u then 0 else 1 + FirstIndex(subs[1..], u)
  }

  lemma {:induction false} FirstIndexIs(subs: seq<Sub>, u: Sub, i: nat)
    requires u in subs
    ensures FirstIndex(subs, u) == i <==> i < |subs| && subs[i] == u && u !in subs[..i]
  {
    if subs[0] == u {
      assert i > 0 && i < |subs| ==> subs[..i][0] == u;
    } else {
      assert subs == [subs[0]] + subs[1..];
      if i > 0 {
        FirstIndexIs(subs[1..], u, i - 1);
        if i < |subs| { assert subs[..i] == [subs[0]] + subs[1..][..i - 1]; }
      }
    }
  }

  /** The entries stem from the first n, in the order in which they first occur. */
  ghost predicate ByFirstOccurrence(distinct: seq<Sub>, subs: seq<Sub>, n: nat) {
    && (forall a | 0 <= a < |distinct| :: distinct[a] in subs && FirstIndex(subs, distinct[a]) < n)
    && forall a, b | 0 <= a < b < |distinct| :: FirstIndex(subs, distinct[a]) < FirstIndex(subs, distinct[b])
  }

  lemma NothingYet(subs: seq<Sub>)
    ensures ByFirstOccurrence([], subs, 0) && Elements<Sub>([]) == {}
  {
  }

  lemma NewOccursNow(distinct: seq<Sub>, subs: seq<Sub>, i: nat)
    requires i < |subs| && Elements(distinct) == Elements(subs[..i]) && subs[i] !in distinct
    ensures FirstIndex(subs, subs[i]) == i
  {
    assert subs[i] !in Elements(distinct);
    FirstIndexIs(subs, subs[i], i);
  }

  lemma NextOccurrence(distinct: seq<Sub>, subs: seq<Sub>, i: nat)
    requires i < |subs| && ByFirstOccurrence(distinct, subs, i) && Elements(distinct) == Elements(subs[..i])
    ensures ByFirstOccurrence(if subs[i] in distinct then distinct else distinct + [subs[i]], subs, i + 1)
  {
    hide FirstIndex, Elements;
    if subs[i] !in distinct {
      NewOccursNow(distinct, subs, i);
    }
  }

  /** dict.fromkeys: the distinct entries in order of first occurrence. */
  method Distinct(subs: seq<Sub>) returns (distinct: seq<Sub>)
    ensures Elements(distinct) == Elements(subs) && |distinct| == |Elements(subs)|
    ensures ByFirstOccurrence(distinct, subs, |subs|)
  {
    hide FirstIndex, ByFirstOccurrence, Elements;
    distinct := [];
    NothingYet(subs);
    for i := 0 to |subs|
      invariant Elements(distinct) == Elements(subs[..i]) && |distinct| == |Elements(distinct)|
      invariant ByFirstOccurrence(distinct, subs, i)
    {
      NextOccurrence(distinct, subs, i);
      assert subs[..i + 1] == subs[..i] + [subs[i]];
      OneMoreElement(subs[..i], subs[i]);
      OneMoreElement(distinct, subs[i]);
      if subs[i] !in distinct {
        distinct := distinct + [subs[i]];
      }
    }
    assert subs[..|subs|] == subs;
  }

  /** The checks of _validate_poll_input: the cleaned options, or nothing for a 422. */
  method ValidatePollInput(p: PollDraft) returns (clean: Option<seq<string>>)
    ensures clean == if PollError(p).Some? then None else CleanOptions(p.options)
  {
    var question := Strip(p.question);
    if question == [] || |question| > 120 {
      return None;
    }
    var options: seq<string> := [];
    for i := 0 to |p.options|
      invariant CleanOptions(p.options[..i]) == Some(options)
    {
      assert p.options[..i + 1][..i] == p.options[..i];
      var stripped := Strip(p.options[i]);
      if stripped == [] || |stripped| > 60 {
        OneBadOption(p.options, i + 1);
        return None;
      }
      if stripped !in options {
        options := options + [stripped];
      }
    }
    assert p.options[..|p.options|] == p.options;
    if |options| < 2 || |options| > 10 {
      return None;
    }
    return Some(options);
  }

  lemma {:induction false} OneBadOption(options: seq<string>, n: nat)
    requires n <= |options| && CleanOptions(options[..n]).None?
    ensures CleanOptions(options).None?
    decreases |options|
  {
    if n < |options| {
      assert options[..|options| - 1][..n] == options[..n];
      OneBadOption(options[..|options| - 1], n);
    } else {
      assert options[..n] == options;
    }
  }

  class Tables {
    var users: set<Sub>
    var uploads: map<string, Upload>
    var friendships: map<(Sub, Sub), Friendship>
    var messages: map<nat, Message>
    var nextMessage: nat
    var hidden: set<(Sub, nat)>
    var dmReads: map<(Sub, string, string), nat>
    var groups: map<nat, Group>
    var nextGroup: nat
    var members: map<(nat, Sub), MemberRow>
    var groupReads: map<(Sub, nat), nat>
    var polls: map<nat, Poll>
    var nextPoll: nat
    var votes: map<(nat, Sub), set<int>>
    var reactions: set<(nat, Sub, string)>
    var stars: set<(Sub, nat)>
    var mentions: set<(nat, Sub)>
    var settings: map<(Sub, SettingKind, string), Setting>

    function State(): Db
      reads this
    {
      Db(users, uploads, friendships, messages, nextMessage, hidden, dmReads, groups, nextGroup, members, groupReads,
         polls, nextPoll, votes, reactions, stars, mentions, settings)
    }

    constructor ()
      ensures State() == EMPTY
    {
      users, uploads, friendships, messages, nextMessage, hidden := {}, map[], map[], map[], 1, {};
      dmReads, groups, nextGroup, members, groupReads := map[], map[], 1, map[], map[];
      polls, nextPoll, votes, reactions, stars, mentions, settings := map[], 1, map[], {}, {}, {}, map[];
    }

    // -------------------------------------------------------------------------------------------
    // Messages

    method AdvanceRead(me: Sub, lo: string, hi: string, id: nat)
      modifies this`dmReads
      ensures dmReads == Raise(old(dmReads), (me, lo, hi), id)
    {
      if (me, lo, hi) !in dmReads {
        dmReads := dmReads[(me, lo, hi) := id];
      } else if id > dmReads[(me, lo, hi)] {
        dmReads := dmReads[(me, lo, hi) := id];
      }
    }

    method AdvanceGroupRead(me: Sub, g: nat, id: nat)
      modifies this`groupReads
      ensures groupReads == Raise(old(groupReads), (me, g), id)
    {
      if (me, g) !in groupReads {
        groupReads := groupReads[(me, g) := id];
      } else if id > groupReads[(me, g)] {
        groupReads := groupReads[(me, g) := id];
      }
    }

    /** Adds a message row; its id is fresh. */
    method AddMessage(m: Message, mentioned: seq<Sub>) returns (id: nat)
      modifies this`messages, this`nextMessage, this`mentions
      ensures id == old(nextMessage) && nextMessage == id + 1
      ensures messages == old(messages)[id := m]
      ensures mentions == old(mentions) + NewRows(id, Elements(mentioned))
    {
      id := nextMessage;
      messages := messages[id := m];
      nextMessage := id + 1;
      ghost var before := mentions;
      var subs := Distinct(mentioned);
      for i := 0 to |subs|
        modifies this`mentions
        invariant mentions == before + NewRows(id, Elements(subs[..i]))
      {
        assert subs[..i + 1] == subs[..i] + [subs[i]];
        assert NewRows(id, Elements(subs[..i + 1])) == NewRows(id, Elements(subs[..i])) + {(id, subs[i])};
        mentions := mentions + {(id, subs[i])};
      }
      assert subs[..|subs|] == subs;
    }

    /** The row, its mentions, and the sender's own cursor. */
    method PostDirect(m: Message, mentioned: seq<Sub>) returns (id: nat)
      modifies this`messages, this`nextMessage, this`mentions, this`dmReads
      ensures id == old(nextMessage) && State() == PostDm(old(State()), m, Elements(mentioned))
    {
      hide Raise, NewRows;
      id := AddMessage(m, mentioned);
      AdvanceRead(m.sender, m.lo, m.hi, id);
    }

    method PostToGroup(g: nat, m: Message, mentioned: seq<Sub>) returns (id: nat)
      modifies this`messages, this`nextMessage, this`mentions, this`groupReads
      ensures id == old(nextMessage) && State() == PostGroup(old(State()), g, m, Elements(mentioned))
    {
      hide Raise, NewRows;
      id := AddMessage(m, mentioned);
      AdvanceGroupRead(m.sender, g, id);
    }

    // -------------------------------------------------------------------------------------------
    // Checks, made on the tables

    method FindPairRow(a: Sub, b: Sub) returns (row: Option<(Sub, Sub)>)
      ensures row == PairRow(friendships, a, b)
    {
      if (a, b) in friendships {
        return Some((a, b));
      }
      return if (b, a) in friendships then Some((b, a)) else None;
    }

    method Befriended(a: Sub, b: Sub) returns (yes: bool)
      ensures yes == AreFriends(State(), a, b)
    {
      var row := FindPairRow(a, b);
      return row.Some? && friendships[row.value].accepted;
    }

    method ValidateReply(me: Sub, at: Where, id: nat) returns (denied: Option<nat>)
      ensures denied == match at
                        case With(other) => ReplyErrorDm(State(), me, other, id)
                        case In(g) => ReplyErrorGroup(State(), g, id)
    {
      if id !in messages {
        return Some(404);
      }
      var target := messages[id];
      match at {
        case In(g) =>
          if target.kind != GroupChat || target.groupId != Some(g) {
            return Some(404);
          }
        case With(other) =>
          if target.kind != Dm || (target.lo, target.hi) != PairKey(me, other) {
            return Some(404);
          }
      }
      return None;
    }

    method ValidateMentions(at: Where, mentioned: seq<Sub>) returns (denied: Option<nat>)
      ensures denied == match at
                        case With(other) => MentionErrorDm(other, mentioned)
                        case In(g) => MentionErrorGroup(State(), g, mentioned)
    {
      if |mentioned| > MAX_MENTIONS {
        return Some(422);
      }
      match at {
        case In(g) =>
          for i := 0 to |mentioned|
            invariant forall j | 0 <= j < i :: (g, mentioned[j]) in members
          {
            if (g, mentioned[i]) !in members {
              assert mentioned[i] in mentioned && !IsMember(State(), g, mentioned[i]);
              return Some(422);
            }
          }
        case With(other) =>
          if Elements(mentioned) - {other} != {} {
            assert exists u :: u in Elements(mentioned) - {other};
            return Some(422);
          }
          assert forall u | u in mentioned :: u !in Elements(mentioned) - {other};
      }
      return None;
    }

    /** What the message is to carry, or why not. */
    method ResolveAttachment(sender: Sub, contentType: ContentType, attachment: Option<string>)
      returns (denied: Option<nat>, fields: Option<Attachment>)
      ensures denied == AttachmentError(State(), sender, contentType, attachment)
      ensures denied.None? ==> fields == Attached(State(), attachment)
    {
      fields := None;
      if contentType == Plain {
        return if attachment.Some? then Some(422) else None, fields;
      }
      if attachment.None? || !(UPLOAD_PREFIX <= attachment.value) {
        return Some(422), fields;
      }
      if attachment.value !in uploads {
        return Some(404), fields;
      }
      var upload := uploads[attachment.value];
      if upload.owner != sender {
        return Some(403), fields;
      }
      return None, Some(Attachment(upload.name, upload.size, upload.mime, attachment.value));
    }

    method MayView(me: Sub, m: Message) returns (yes: bool)
      ensures yes == CanView(State(), me, m)
    {
      if m.kind == Dm {
        return me == m.lo || me == m.hi;
      }
      return m.groupId.Some? && (m.groupId.value, me) in members;
    }

    method CheckRole(g: nat, me: Sub, roles: set<Role>) returns (denied: Option<nat>)
      ensures denied == RequireRole(State(), g, me, roles)
    {
      if (g, me) !in members {
        return Some(404);
      }
      return if members[(g, me)].role !in roles then Some(403) else None;
    }

    // -------------------------------------------------------------------------------------------
    // Sending

    /** The checks before a direct message, in order. */
    method CheckDm(me: Sub, other: Sub, d: Draft) returns (denied: Option<nat>, fields: Option<Attachment>)
      ensures denied == SendDmError(State(), me, other, d)
      ensures denied.None? ==> fields == Attached(State(), d.attachment)
    {
      hide AreFriends, ReplyErrorDm, MentionErrorDm, AttachmentError, Attached;
      fields := None;
      if me == other {
        return Some(400), fields;
      }
      if d.contentType == PollCard {
        return Some(422), fields;
      }
      if other !in users {
        return Some(404), fields;
      }
      var friends := Befriended(me, other);
      if !friends {
        return Some(403), fields;
      }
      if d.replyTo.Some? {
        denied := ValidateReply(me, With(other), d.replyTo.value);
        if denied.Some? {
          return Some(404), fields;
        }
      }
      denied := ValidateMentions(With(other), d.mentions);
      if denied.Some? {
        return Some(422), fields;
      }
      denied, fields := ResolveAttachment(me, d.contentType, d.attachment);
    }

    method SendMessage(me: Sub, other: Sub, d: Draft, now: real) returns (reply: Reply)
      modifies this
      ensures State() == SendDm(old(State()), me, other, d, now).0
      ensures reply == SendDm(old(State()), me, other, d, now).1
      ensures Inv(old(State())) ==> (reply.Created? <==> MaySend(old(State()), me, other, d))
    {
      SendIff(State(), me, other, d, now);
      hide Inv, PostDm, SendDmError, Attached, MaySend;
      var denied, fields := CheckDm(me, other, d);
      if denied.Some? {
        return Fail(denied.value);
      }
      var m := DirectMessage(me, other, d.content, d.contentType, false, fields, d.replyTo, now);
      var id := PostDirect(m, d.mentions);
      return Created(id);
    }

    /** The checks before a group message, in order, up to those of its poll or attachment. */
    method CheckGroup(me: Sub, g: nat, d: Draft, poll: Option<PollDraft>) returns (denied: Option<nat>)
      ensures denied.Some? ==> denied == SendGroupError(State(), me, g, d, poll)
      ensures denied.None? ==>
                && IsMember(State(), g, me)
                && SendGroupError(State(), me, g, d, poll)
                   == if poll.Some? then PollError(poll.value)
                       else AttachmentError(State(), me, d.contentType, d.attachment)
    {
      hide ReplyErrorGroup, MentionErrorGroup, AttachmentError, PollError;
      if (g, me) !in members || members[(g, me)].muted {
        return Some(403);
      }
      if g !in groups {
        return Some(404);
      }
      if d.contentType == PollCard {
        if poll.None? || d.attachment.Some? || d.replyTo.Some? {
          return Some(422);
        }
      } else if poll.Some? {
        return Some(422);
      }
      if d.replyTo.Some? {
        denied := ValidateReply(me, In(g), d.replyTo.value);
        if denied.Some? {
          return Some(404);
        }
      }
      denied := ValidateMentions(In(g), d.mentions);
      return if denied.Some? then Some(422) else None;
    }

    method SendGroupMessage(me: Sub, g: nat, d: Draft, poll: Option<PollDraft>, now: real) returns (reply: Reply)
      modifies this
      ensures State() == SendGroup(old(State()), me, g, d, poll, now).0
      ensures reply == SendGroup(old(State()), me, g, d, poll, now).1
      ensures Inv(old(State())) ==> (reply.Created? <==> MaySendTo(old(State()), me, g, d, poll))
    {
      SendToIff(State(), me, g, d, poll, now);
      hide Inv, MaySendTo, PostGroup, SendGroupError, AttachmentError, Attached, PollError, NewPoll, GroupMarker;
      var denied := CheckGroup(me, g, d, poll);
      if denied.Some? {
        return Fail(denied.value);
      }
      if poll.Some? {
        reply := SendPoll(me, g, d, poll.value, now);
        return;
      }
      var fields;
      denied, fields := ResolveAttachment(me, d.contentType, d.attachment);
      if denied.Some? {
        return Fail(denied.value);
      }
      var m := GroupMessage(me, g, d.content, d.contentType, false, fields, d.replyTo, None, now);
      var id := PostToGroup(g, m, d.mentions);
      return Created(id);
    }

    /** A poll is stored first, and then the message that shows it. */
    method SendPoll(me: Sub, g: nat, d: Draft, poll: PollDraft, now: real) returns (reply: Reply)
      requires IsMember(State(), g, me) && SendGroupError(State(), me, g, d, Some(poll)) == PollError(poll)
      modifies this
      ensures State() == SendGroup(old(State()), me, g, d, Some(poll), now).0
      ensures reply == SendGroup(old(State()), me, g, d, Some(poll), now).1
    {
      hide PostGroup, SendGroupError, PollError, GroupMarker, Strip, CleanOptions;
      PollErrorIs422(poll);
      var created := AddPoll(me, g, poll);
      if created.Fail? {
        return created;
      }
      var m := GroupMessage(me, g, d.content, PollCard, false, None, None, Some(created.id), now);
      var id := PostToGroup(g, m, d.mentions);
      return Created(id);
    }

    /** create_poll: only a member's, and only with valid input. */
    method AddPoll(me: Sub, g: nat, p: PollDraft) returns (created: Reply)
      modifies this`polls, this`nextPoll
      ensures created == if !IsMember(old(State()), g, me) then Fail(403)
                         else if PollError(p).Some? then Fail(422)
                         else Created(old(nextPoll))
      ensures State() == if created.Fail? || PollError(p).Some? then old(State()) else NewPoll(old(State()), me, g, p)
    {
      if (g, me) !in members {
        return Fail(403);
      }
      var clean := ValidatePollInput(p);
      if clean.None? {
        return Fail(422);
      }
      polls := polls[nextPoll := Poll(g, me, Strip(p.question), clean.value, p.multiple, false)];
      nextPoll := nextPoll + 1;
      return Created(nextPoll - 1);
    }

    /** The checks before forwarding, in order. */
    method CheckForward(me: Sub, id: nat, to: Where) returns (denied: Option<nat>)
      ensures denied == ForwardError(State(), me, id, to)
    {
      hide CanView, AreFriends;
      if id !in messages {
        return Some(404);
      }
      var visible := MayView(me, messages[id]);
      if !visible {
        return Some(404);
      }
      if messages[id].deletedAt.Some? {
        return Some(409);
      }
      if messages[id].contentType == PollCard {
        return Some(422);
      }
      match to {
        case In(g) => return if (g, me) !in members then Some(403) else None;
        case With(other) =>
          if me == other {
            return Some(400);
          }
          if other !in users {
            return Some(404);
          }
          var friends := Befriended(me, other);
          return if friends then None else Some(403);
      }
    }

    method ForwardMessage(me: Sub, id: nat, to: Where, now: real) returns (reply: Reply)
      modifies this
      ensures State() == Forward(old(State()), me, id, to, now).0
      ensures reply == Forward(old(State()), me, id, to, now).1
      ensures Inv(old(State())) ==> (reply.Created? <==> MayForward(old(State()), me, id, to))
    {
      ForwardIff(State(), me, id, to, now);
      hide Inv, MayForward, PostDm, PostGroup, GroupMarker, ForwardError;
      ForwardedExists(State(), me, id, to);
      var denied := CheckForward(me, id, to);
      if denied.Some? {
        return Fail(denied.value);
      }
      var src := messages[id];
      var copy;
      match to {
        case In(g) =>
          var m := GroupMessage(me, g, src.content, src.contentType, true, src.attachment, None, None, now);
          copy := PostToGroup(g, m, []);
        case With(other) =>
          var m := DirectMessage(me, other, src.content, src.contentType, true, src.attachment, None, now);
          copy := PostDirect(m, []);
      }
      assert Elements<Sub>([]) == {};
      return Created(copy);
    }

    method MarkDmRead(me: Sub, other: Sub, id: nat) returns (reply: Reply)
      modifies this`dmReads
      ensures State() == MarkRead(old(State()), me, other, id).0
      ensures reply == MarkRead(old(State()), me, other, id).1
    {
      var friends := Befriended(me, other);
      if !friends {
        return Fail(403);
      }
      var (lo, hi) := PairKey(me, other);
      if id !in messages || (messages[id].lo, messages[id].hi) != (lo, hi) {
        return Fail(404);
      }
      AdvanceRead(me, lo, hi, id);
      return Done;
    }

    method MarkReadInGroup(me: Sub, g: nat, id: nat) returns (reply: Reply)
      modifies this`groupReads
      ensures State() == MarkGroupRead(old(State()), me, g, id).0
      ensures reply == MarkGroupRead(old(State()), me, g, id).1
    {
      if (g, me) !in members {
        return Fail(404);
      }
      if id !in messages || !InGroup(messages[id], g) {
        return Fail(404);
      }
      AdvanceGroupRead(me, g, id);
      return Done;
    }

    method HideForSelf(me: Sub, at: Where, id: nat) returns (reply: Reply)
      modifies this`hidden
      ensures State() == HideMessage(old(State()), me, at, id).0
      ensures reply == HideMessage(old(State()), me, at, id).1
    {
      if id !in messages {
        return Fail(404);
      }
      match at {
        case In(g) =>
          if !InGroup(messages[id], g) || (g, me) !in members {
            return Fail(404);
          }
        case With(other) =>
          if messages[id].kind != Dm || !InDm(messages[id], me, other) {
            return Fail(404);
          }
      }
      if (me, id) !in hidden {
        hidden := hidden + {(me, id)};
      }
      assert hidden == old(hidden) + {(me, id)};
      return Done;
    }

    /** The checks before editing or withdrawing, in order. */
    method CheckEdit(me: Sub, at: Where, id: nat, now: real) returns (denied: Option<nat>)
      ensures denied == EditError(State(), me, at, id, now)
    {
      match at {
        case In(g) =>
          if (g, me) !in members || id !in messages || !InGroup(messages[id], g) {
            return Some(404);
          }
        case With(other) =>
          if id !in messages || !InDm(messages[id], me, other) {
            return Some(404);
          }
      }
      if messages[id].sender != me {
        return Some(403);
      }
      if messages[id].deletedAt.Some? || now - messages[id].createdAt > EDIT_WINDOW {
        return Some(409);
      }
      return None;
    }

    method Edit(me: Sub, at: Where, id: nat, content: string, now: real) returns (reply: Reply)
      modifies this`messages
      ensures State() == EditMessage(old(State()), me, at, id, content, now).0
      ensures reply == EditMessage(old(State()), me, at, id, content, now).1
    {
      EditableExists(State(), me, at, id, now);
      hide EditError;
      var denied := CheckEdit(me, at, id, now);
      if denied.Some? {
        return Fail(denied.value);
      }
      messages := messages[id := messages[id].(content := content)];
      messages := messages[id := messages[id].(editedAt := Some(now))];
      return Done;
    }

    method Withdraw(me: Sub, at: Where, id: nat, now: real) returns (reply: Reply)
      modifies this`messages
      ensures State() == WithdrawMessage(old(State()), me, at, id, now).0
      ensures reply == WithdrawMessage(old(State()), me, at, id, now).1
    {
      EditableExists(State(), me, at, id, now);
      hide EditError;
      var denied := CheckEdit(me, at, id, now);
      if denied.Some? {
        return Fail(denied.value);
      }
      messages := messages[id := messages[id].(content := "")];
      messages := messages[id := messages[id].(deletedAt := Some(now))];
      return Done;
    }

    method StarMessage(me: Sub, id: nat, starred: bool) returns (reply: Reply)
      modifies this`stars
      ensures State() == SetStar(old(State()), me, id, starred).0
      ensures reply == SetStar(old(State()), me, id, starred).1
    {
      hide CanView;
      if id !in messages {
        return Fail(404);
      }
      var visible := MayView(me, messages[id]);
      if !visible {
        return Fail(404);
      }
      StoreStar(me, id, starred);
      return Done;
    }

    method StoreStar(me: Sub, id: nat, starred: bool)
      modifies this`stars
      ensures stars == ApplyStar(old(stars), me, id, starred)
      ensures (me, id) in stars <==> starred
    {
      if starred && (me, id) !in stars {
        stars := stars + {(me, id)};
      } else if !starred && (me, id) in stars {
        stars := stars - {(me, id)};
      }
    }

    /** The key must name a conversation of the caller. */
    method CheckSetting(me: Sub, kind: SettingKind, key: string) returns (denied: Option<nat>)
      ensures denied == SettingError(State(), me, kind, key)
    {
      match kind {
        case DmSetting =>
          var parts := SplitKey(key);
          if parts.None? || parts.value.0 == parts.value.1 {
            return Some(422);
          }
          if me != parts.value.0 && me != parts.value.1 {
            return Some(404);
          }
          return if Less(parts.value.0, parts.value.1) then None else Some(422);
        case GroupSetting =>
          if !IsDigits(key) {
            return Some(422);
          }
          return if (ParseDecimal(key), me) in members then None else Some(404);
      }
    }

    method Configure(me: Sub, kind: SettingKind, key: string, pinned: Option<bool>, muted: Option<bool>,
                     archived: Option<bool>)
      returns (reply: Reply)
      modifies this`settings
      ensures State() == SetSetting(old(State()), me, kind, key, pinned, muted, archived).0
      ensures reply == SetSetting(old(State()), me, kind, key, pinned, muted, archived).1
    {
      hide SettingError;
      if pinned.None? && muted.None? && archived.None? {
        return Fail(422);
      }
      var denied := CheckSetting(me, kind, key);
      if denied.Some? {
        return Fail(denied.value);
      }
      var row := if (me, kind, key) in settings then settings[(me, kind, key)] else Setting(false, false, false);
      if pinned.Some? {
        row := row.(pinned := pinned.value);
      }
      if muted.Some? {
        row := row.(muted := muted.value);
      }
      if archived.Some? {
        row := row.(archived := archived.value);
      }
      settings := settings[(me, kind, key) := row];
      return Done;
    }

    /** The checks before a reaction, in order. */
    method CheckReaction(me: Sub, at: Where, id: nat) returns (denied: Option<nat>)
      ensures denied == ReactError(State(), me, at, id)
    {
      match at {
        case In(g) =>
          if (g, me) !in members || id !in messages || !InGroup(messages[id], g) {
            return Some(404);
          }
        case With(other) =>
          if id !in messages || (messages[id].lo, messages[id].hi) != PairKey(me, other) {
            return Some(404);
          }
      }
      return if messages[id].deletedAt.Some? then Some(409) else None;
    }

    method ReactTo(me: Sub, at: Where, id: nat, emoji: string, add: bool) returns (reply: Reply)
      modifies this`reactions
      ensures State() == SetReaction(old(State()), me, at, id, emoji, add).0
      ensures reply == SetReaction(old(State()), me, at, id, emoji, add).1
    {
      hide ReactError;
      var denied := CheckReaction(me, at, id);
      if denied.Some? {
        return Fail(denied.value);
      }
      StoreReaction(me, id, emoji, add);
      return Done;
    }

    /** Adds the row if it is missing, or deletes it if it is there. */
    method StoreReaction(me: Sub, id: nat, emoji: string, add: bool)
      modifies this`reactions
      ensures reactions == ApplyReaction(old(reactions), id, me, emoji, add)
    {
      if add && (id, me, emoji) !in reactions {
        reactions := reactions + {(id, me, emoji)};
      } else if !add && (id, me, emoji) in reactions {
        reactions := reactions - {(id, me, emoji)};
      }
    }

    method CastVote(me: Sub, g: nat, p: nat, indexes: seq<int>) returns (reply: Reply)
      modifies this`votes
      ensures State() == Vote(old(State()), me, g, p, indexes).0
      ensures reply == Vote(old(State()), me, g, p, indexes).1
    {
      if (g, me) !in members || p !in polls || polls[p].groupId != g {
        return Fail(404);
      }
      if polls[p].closed {
        return Fail(409);
      }
      var choice := Elements(indexes);
      if exists i | i in choice :: !(0 <= i < |polls[p].options|) {
        return Fail(422);
      }
      if choice == {} || (!polls[p].multiple && |choice| > 1) {
        return Fail(422);
      }
      votes := votes[(p, me) := choice];
      return Done;
    }

    method CloseThePoll(me: Sub, g: nat, p: nat) returns (reply: Reply)
      modifies this`polls
      ensures State() == ClosePoll(old(State()), me, g, p).0
      ensures reply == ClosePoll(old(State()), me, g, p).1
    {
      if (g, me) !in members || p !in polls || polls[p].groupId != g {
        return Fail(404);
      }
      if polls[p].creator != me && members[(g, me)].role !in {Owner, Admin} {
        return Fail(403);
      }
      polls := polls[p := polls[p].(closed := true)];
      return Done;
    }

    // -------------------------------------------------------------------------------------------
    // Groups

    /** Checks the invitees one by one. */
    method CheckInvitees(me: Sub, invitees: seq<Sub>) returns (denied: Option<nat>)
      ensures denied == InviteError(State(), me, invitees)
    {
      var i := 0;
      while i < |invitees|
        invariant 0 <= i <= |invitees| && InviteError(State(), me, invitees) == InviteError(State(), me, invitees[i..])
      {
        if invitees[i] !in users {
          return Some(404);
        }
        var friends := Befriended(me, invitees[i]);
        if !friends {
          return Some(403);
        }
        assert invitees[i..][1..] == invitees[i + 1..];
        i := i + 1;
      }
      return None;
    }

    /** Adds a member row for each of them who has none. */
    method AddRows(g: nat, subs: seq<Sub>)
      modifies this`members
      ensures members == Enrol(old(members), g, Elements(subs))
    {
      ghost var before := members;
      for i := 0 to |subs|
        invariant members == Enrol(before, g, Elements(subs[..i]))
      {
        EnrolOne(before, g, subs[..i], subs[i]);
        assert subs[..i + 1] == subs[..i] + [subs[i]];
        if (g, subs[i]) !in members {
          members := members[(g, subs[i]) := MemberRow(Member, false)];
        }
      }
      assert subs[..|subs|] == subs;
    }

    method CreateNewGroup(me: Sub, name: string, invitees: seq<Sub>) returns (reply: Reply)
      modifies this
      ensures State() == CreateGroup(old(State()), me, name, invitees).0
      ensures reply == CreateGroup(old(State()), me, name, invitees).1
    {
      hide Enrol, InviteError, Strip;
      var clean := Strip(name);
      if clean == [] || |clean| > GROUP_NAME_MAX {
        return Fail(422);
      }
      var subs := Distinct(invitees);
      assert me in Elements(subs) <==> me in subs;
      if me in subs {
        return Fail(400);
      }
      if |subs| > INVITE_BATCH_MAX {
        return Fail(422);
      }
      var denied := CheckInvitees(me, invitees);
      if denied.Some? {
        return Fail(denied.value);
      }
      var g := AddGroup(me, clean, subs);
      return Created(g);
    }

    /** The group, the creator's row and those of the invitees. */
    method AddGroup(me: Sub, name: string, subs: seq<Sub>) returns (g: nat)
      modifies this`groups, this`nextGroup, this`members
      ensures g == old(nextGroup) && nextGroup == g + 1
      ensures groups == old(groups)[g := Group(name, me)]
      ensures members == Enrol(old(members)[(g, me) := MemberRow(Owner, false)], g, Elements(subs))
    {
      hide Enrol;
      g := nextGroup;
      groups := groups[g := Group(name, me)];
      nextGroup := g + 1;
      members := members[(g, me) := MemberRow(Owner, false)];
      AddRows(g, subs);
    }

    method InviteMembers(me: Sub, g: nat, invitees: seq<Sub>) returns (reply: Reply)
      modifies this`members
      ensures State() == AddMembers(old(State()), me, g, invitees).0
      ensures reply == AddMembers(old(State()), me, g, invitees).1
    {
      hide Enrol, InviteError, MemberRows, NewRows, RequireRole, Elements;
      var denied := CheckRole(g, me, {Owner, Admin});
      if denied.Some? {
        return Fail(denied.value);
      }
      var subs := Distinct(invitees);
      if |subs| > INVITE_BATCH_MAX {
        return Fail(422);
      }
      denied := CheckInvitees(me, invitees);
      if denied.Some? {
        return Fail(denied.value);
      }
      if |MemberRows(members, g) + NewRows(g, Elements(subs))| > GROUP_MEMBERS_MAX {
        return Fail(409);
      }
      AddRows(g, subs);
      return Done;
    }

    /** Deletes the member row, and then the cursor and the setting. */
    method DeleteMember(g: nat, u: Sub)
      modifies this`members, this`groupReads, this`settings
      ensures State() == DropMember(old(State()), g, u)
      ensures members == old(members) - {(g, u)}
      ensures groupReads == old(groupReads) - {(u, g)} && settings == old(settings) - {(u, GroupSetting, Decimal(g))}
    {
      members := members - {(g, u)};
      groupReads := groupReads - {(u, g)};
      settings := settings - {(u, GroupSetting, Decimal(g))};
    }

    method RemoveFromGroup(me: Sub, g: nat, target: Sub) returns (reply: Reply)
      modifies this`members, this`groupReads, this`settings
      ensures State() == RemoveMember(old(State()), me, g, target).0
      ensures reply == RemoveMember(old(State()), me, g, target).1
      ensures reply == Done ==>
                && members == old(members) - {(g, target)}
                && groupReads == old(groupReads) - {(target, g)}
                && settings == old(settings) - {(target, GroupSetting, Decimal(g))}
    {
      hide DropMember;
      var denied := CheckRole(g, me, {Owner, Admin});
      if denied.Some? {
        return Fail(denied.value);
      }
      if (g, target) !in members {
        return Fail(404);
      }
      if members[(g, target)].role == Owner {
        return Fail(403);
      }
      if members[(g, me)].role == Admin && members[(g, target)].role == Admin {
        return Fail(403);
      }
      if target == me {
        return Fail(400);
      }
      DeleteMember(g, target);
      return Done;
    }

    method ChangeRole(me: Sub, g: nat, target: Sub, role: Role) returns (reply: Reply)
      modifies this`members
      ensures State() == SetMemberRole(old(State()), me, g, target, role).0
      ensures reply == SetMemberRole(old(State()), me, g, target, role).1
    {
      if role == Owner {
        return Fail(422);
      }
      var denied := CheckRole(g, me, {Owner});
      if denied.Some? {
        return Fail(denied.value);
      }
      if target == me {
        return Fail(400);
      }
      if (g, target) !in members {
        return Fail(404);
      }
      if members[(g, target)].role == Owner {
        return Fail(403);
      }
      members := members[(g, target) := members[(g, target)].(role := role)];
      return Done;
    }

    method MuteMember(me: Sub, g: nat, target: Sub, muted: bool) returns (reply: Reply)
      modifies this`members
      ensures State() == SetMemberMute(old(State()), me, g, target, muted).0
      ensures reply == SetMemberMute(old(State()), me, g, target, muted).1
    {
      var denied := CheckRole(g, me, {Owner, Admin});
      if denied.Some? {
        return Fail(denied.value);
      }
      if (g, target) !in members {
        return Fail(404);
      }
      if target == me {
        return Fail(400);
      }
      if members[(g, target)].role in {Owner, Admin} {
        return Fail(403);
      }
      members := members[(g, target) := members[(g, target)].(muted := muted)];
      return Done;
    }

    method Leave(me: Sub, g: nat) returns (reply: Reply)
      modifies this`members, this`groupReads, this`settings
      ensures State() == LeaveGroup(old(State()), me, g).0
      ensures reply == LeaveGroup(old(State()), me, g).1
      ensures reply == Done ==>
                && members == old(members) - {(g, me)}
                && groupReads == old(groupReads) - {(me, g)}
                && settings == old(settings) - {(me, GroupSetting, Decimal(g))}
    {
      hide DropMember;
      if (g, me) !in members {
        return Fail(404);
      }
      if members[(g, me)].role == Owner {
        return Fail(409);
      }
      DeleteMember(g, me);
      return Done;
    }

    method Transfer(me: Sub, g: nat, target: Sub) returns (reply: Reply)
      modifies this`members, this`groups
      ensures State() == TransferOwnership(old(State()), me, g, target).0
      ensures reply == TransferOwnership(old(State()), me, g, target).1
    {
      var denied := CheckRole(g, me, {Owner});
      if denied.Some? {
        return Fail(denied.value);
      }
      if (g, target) !in members || g !in groups {
        return Fail(404);
      }
      members := members[(g, me) := members[(g, me)].(role := Member)];
      members := members[(g, target) := members[(g, target)].(role := Owner)];
      groups := groups[g := groups[g].(owner := target)];
      return Done;
    }

    method Dissolve(me: Sub, g: nat) returns (reply: Reply)
      modifies this
      ensures State() == DissolveGroup(old(State()), me, g).0
      ensures reply == DissolveGroup(old(State()), me, g).1
    {
      hide WithoutGroup, RequireRole;
      var denied := CheckRole(g, me, {Owner});
      if denied.Some? {
        return Fail(denied.value);
      }
      if g !in groups {
        return Fail(404);
      }
      Cascade(g);
      return Done;
    }

    /** The deletes in the order of the source; each subquery looks at the tables as they are by then. */
    method Cascade(g: nat)
      modifies this`votes, this`polls, this`mentions, this`reactions, this`stars, this`messages, this`groupReads,
               this`members, this`settings, this`groups
      ensures State() == WithoutGroup(old(State()), g)
    {
      hide ClearPolls, ClearMessages, ClearMembers;
      DeletePolls(g);
      DeleteMessages(g);
      DeleteMembers(g);
    }

    method DeletePolls(g: nat)
      modifies this`votes, this`polls
      ensures State() == ClearPolls(old(State()), g)
    {
      hide VotesWithout, PollsWithout;
      votes := VotesWithout(votes, polls, g);
      polls := PollsWithout(polls, g);
    }

    method DeleteMessages(g: nat)
      modifies this`mentions, this`reactions, this`stars, this`messages
      ensures State() == ClearMessages(old(State()), g)
    {
      hide MentionsWithout, ReactionsWithout, StarsWithout, MessagesWithout;
      mentions := MentionsWithout(mentions, messages, g);
      reactions := ReactionsWithout(reactions, messages, g);
      stars := StarsWithout(stars, messages, g);
      messages := MessagesWithout(messages, g);
    }

    method DeleteMembers(g: nat)
      modifies this`groupReads, this`members, this`settings, this`groups
      ensures State() == ClearMembers(old(State()), g)
    {
      hide ReadsWithout, MembersWithout, SettingsWithout;
      groupReads := ReadsWithout(groupReads, g);
      members := MembersWithout(members, g);
      settings := SettingsWithout(settings, g);
      groups := groups - {g};
    }

    // -------------------------------------------------------------------------------------------
    // Friends

    method AskFriend(me: Sub, to: Sub, reason: string) returns (reply: Reply)
      modifies this`friendships
      ensures State() == SendRequest(old(State()), me, to, reason).0
      ensures reply == SendRequest(old(State()), me, to, reason).1
    {
      if me == to {
        return Fail(400);
      }
      if to !in users {
        return Fail(404);
      }
      var stripped := Strip(reason);
      var stored: Option<string> := None;
      if stripped != [] {
        if |stripped| > REQUEST_REASON_MAX {
          return Fail(422);
        }
        stored := Some(stripped);
      }
      var existing := FindPairRow(me, to);
      if existing.Some? {
        return Fail(409);
      }
      friendships := friendships[(me, to) := Friendship(false, stored)];
      return Done;
    }

    method AcceptFriend(me: Sub, from: Sub) returns (reply: Reply)
      modifies this`friendships
      ensures State() == AcceptRequest(old(State()), me, from).0
      ensures reply == AcceptRequest(old(State()), me, from).1
    {
      var row := FindPairRow(from, me);
      if row.None? || friendships[row.value].accepted || row.value.0 != from {
        return Fail(404);
      }
      friendships := friendships[row.value := friendships[row.value].(accepted := true)];
      return Done;
    }

    method RefuseFriend(me: Sub, from: Sub) returns (reply: Reply)
      modifies this`friendships
      ensures State() == RejectRequest(old(State()), me, from).0
      ensures reply == RejectRequest(old(State()), me, from).1
    {
      var row := FindPairRow(from, me);
      if row.None? || friendships[row.value].accepted || row.value.0 != from {
        return Fail(404);
      }
      friendships := friendships - {row.value};
      return Done;
    }

    method EndFriendship(me: Sub, other: Sub) returns (reply: Reply)
      modifies this`friendships
      ensures State() == RemoveRelationship(old(State()), me, other).0
      ensures reply == RemoveRelationship(old(State()), me, other).1
    {
      var row := FindPairRow(me, other);
      if row.Some? {
        friendships := friendships - {row.value};
      }
      return Done;
    }

    // -------------------------------------------------------------------------------------------
    // Serving a call

    method ServePerson(op: Op) returns (reply: Reply)
      requires op.me in users && OnPeople(op.call)
      modifies this
      ensures State() == Apply(old(State()), op).0
      ensures reply == Apply(old(State()), op).1
    {
      hide SendRequest, AcceptRequest, RejectRequest, RemoveRelationship, CreateGroup, AddMembers, RemoveMember,
           SetMemberRole, SetMemberMute, LeaveGroup, TransferOwnership, DissolveGroup, SendDm, SendGroup, Forward,
           MarkRead, MarkGroupRead, HideMessage, EditMessage, WithdrawMessage, SetReaction, SetStar, Vote, ClosePoll,
           SetSetting;
      var me := op.me;
      match op.call {
        case AddUpload(url, name, size, mime) =>
          if url in uploads {
            return Fail(409);
          }
          uploads := uploads[url := Upload(me, name, size, mime)];
          reply := Done;
        case RequestFriend(to, reason) => reply := AskFriend(me, to, reason);
        case Accept(from) => reply := AcceptFriend(me, from);
        case Refuse(from) => reply := RefuseFriend(me, from);
        case Unfriend(other) => reply := EndFriendship(me, other);
        case Configure(kind, key, pinned, muted, archived) =>
          reply := this.Configure(me, kind, key, pinned, muted, archived);
        case _ =>
          assert false;
      }
    }

    method ServeRole(op: Op) returns (reply: Reply)
      requires op.me in users && OnGroups(op.call) && OnRoles(op.call)
      modifies this
      ensures State() == Apply(old(State()), op).0
      ensures reply == Apply(old(State()), op).1
    {
      hide SendRequest, AcceptRequest, RejectRequest, RemoveRelationship, CreateGroup, AddMembers, RemoveMember,
           SetMemberRole, SetMemberMute, LeaveGroup, TransferOwnership, DissolveGroup, SendDm, SendGroup, Forward,
           MarkRead, MarkGroupRead, HideMessage, EditMessage, WithdrawMessage, SetReaction, SetStar, Vote, ClosePoll,
           SetSetting;
      var me := op.me;
      match op.call {
        case Remove(g, target) => reply := RemoveFromGroup(me, g, target);
        case SetRole(g, target, role) => reply := ChangeRole(me, g, target, role);
        case Mute(g, target, on) => reply := MuteMember(me, g, target, on);
        case Transfer(g, target) => reply := this.Transfer(me, g, target);
        case _ =>
          assert false;
      }
    }

    method ServeGroup(op: Op) returns (reply: Reply)
      requires op.me in users && OnGroups(op.call) && !OnRoles(op.call)
      modifies this
      ensures State() == Apply(old(State()), op).0
      ensures reply == Apply(old(State()), op).1
    {
      hide SendRequest, AcceptRequest, RejectRequest, RemoveRelationship, CreateGroup, AddMembers, RemoveMember,
           SetMemberRole, SetMemberMute, LeaveGroup, TransferOwnership, DissolveGroup, SendDm, SendGroup, Forward,
           MarkRead, MarkGroupRead, HideMessage, EditMessage, WithdrawMessage, SetReaction, SetStar, Vote, ClosePoll,
           SetSetting;
      var me := op.me;
      match op.call {
        case NewGroup(name, invitees) => reply := CreateNewGroup(me, name, invitees);
        case Invite(g, invitees) => reply := InviteMembers(me, g, invitees);
        case Leave(g) => reply := this.Leave(me, g);
        case Dissolve(g) => reply := this.Dissolve(me, g);
        case _ =>
          assert false;
      }
    }

    method ServeMessage(op: Op) returns (reply: Reply)
      requires op.me in users && op.call != AddUser && !OnPeople(op.call) && !OnGroups(op.call)
      modifies this
      ensures State() == Apply(old(State()), op).0
      ensures reply == Apply(old(State()), op).1
    {
      hide SendRequest, AcceptRequest, RejectRequest, RemoveRelationship, CreateGroup, AddMembers, RemoveMember,
           SetMemberRole, SetMemberMute, LeaveGroup, TransferOwnership, DissolveGroup, SendDm, SendGroup, Forward,
           MarkRead, MarkGroupRead, HideMessage, EditMessage, WithdrawMessage, SetReaction, SetStar, Vote, ClosePoll,
           SetSetting, Inv, MaySend, MaySendTo, MayForward;
      var me := op.me;
      match op.call {
        case Send(other, draft) => reply := SendMessage(me, other, draft, op.now);
        case SendTo(g, draft, poll) => reply := SendGroupMessage(me, g, draft, poll, op.now);
        case ForwardTo(id, dest) => reply := ForwardMessage(me, id, dest, op.now);
        case Read(other, id) => reply := MarkDmRead(me, other, id);
        case ReadGroup(g, id) => reply := MarkReadInGroup(me, g, id);
        case Hide(at, id) => reply := HideForSelf(me, at, id);
        case Edit(at, id, content) => reply := this.Edit(me, at, id, content, op.now);
        case Withdraw(at, id) => reply := this.Withdraw(me, at, id, op.now);
        case React(at, id, emoji, add) => reply := ReactTo(me, at, id, emoji, add);
        case Star(id, starred) => reply := StarMessage(me, id, starred);
        case Cast(g, p, indexes) => reply := CastVote(me, g, p, indexes);
        case Close(g, p) => reply := CloseThePoll(me, g, p);
        case _ =>
          assert false;
      }
    }

    /** Any call, from any state, is one step of the run model. */
    method Dispatch(op: Op) returns (reply: Reply)
      modifies this
      ensures State() == Apply(old(State()), op).0
      ensures reply == Apply(old(State()), op).1
    {
      EdgesOfApply(State(), op);
      hide Apply;
      if op.call == AddUser {
        users := users + {op.me};
        return Done;
      }
      if op.me !in users {
        return Fail(401);
      }
      if OnPeople(op.call) {
        reply := ServePerson(op);
      } else if OnGroups(op.call) && OnRoles(op.call) {
        reply := ServeRole(op);
      } else if OnGroups(op.call) {
        reply := ServeGroup(op);
      } else {
        reply := ServeMessage(op);
      }
    }

    /** Whatever is proved of all calls and runs holds of these methods. From a state with the invariant
        a call succeeds exactly if the rules allow it, and a refused call changes nothing. */
    method Serve(op: Op) returns (reply: Reply)
      modifies this
      ensures State() == Apply(old(State()), op).0
      ensures reply == Apply(old(State()), op).1
      ensures Inv(old(State())) ==> Inv(State())
      ensures Inv(old(State())) ==> (!reply.Fail? <==> Allowed(old(State()), op))
      ensures Inv(old(State())) && reply.Fail? ==> State() == old(State())
    {
      hide Inv, Apply, Allowed, MayCall, Why;
      ghost var before := State();
      if Inv(before) {
        ApplyKeepsInv(before, op);
        SucceedsIffAllowed(before, op);
      }
      reply := Dispatch(op);
    }

    /** Any run of calls served from empty tables ends in the state of the run model. */
    static method ServeAll(ops: seq<Op>) returns (tables: Tables)
      ensures fresh(tables) && tables.State() == Run(EMPTY, ops) && Inv(tables.State())
    {
      hide Inv, Apply;
      tables := new Tables();
      EmptyIsInv();
      for i := 0 to |ops|
        invariant fresh(tables) && tables.State() == Run(EMPTY, ops[..i]) && Inv(tables.State())
      {
        assert ops[..i + 1][..i] == ops[..i];
        var _ := tables.Serve(ops[i]);
      }
      assert ops[..|ops|] == ops;
    }
  }

  lemma SendIff(db: Db, me: Sub, other: Sub, d: Draft, now: real)
    ensures Inv(db) ==> (SendDm(db, me, other, d, now).1.Created? <==> MaySend(db, me, other, d))
  {
    if Inv(db) { SendObeys(db, me, other, d, now); }
  }

  lemma SendToIff(db: Db, me: Sub, g: nat, d: Draft, poll: Option<PollDraft>, now: real)
    ensures Inv(db) ==> (SendGroup(db, me, g, d, poll, now).1.Created? <==> MaySendTo(db, me, g, d, poll))
  {
    if Inv(db) { SendToObeys(db, me, g, d, poll, now); }
  }

  lemma ForwardIff(db: Db, me: Sub, id: nat, to: Where, now: real)
    ensures Inv(db) ==> (Forward(db, me, id, to, now).1.Created? <==> MayForward(db, me, id, to))
  {
    if Inv(db) { ForwardObeys(db, me, id, to, now); }
  }

  lemma PollErrorIs422(p: PollDraft)
    ensures PollError(p).Some? ==> PollError(p) == Some(422)
  {
  }

  lemma EditableExists(db: Db, me: Sub, at: Where, id: nat, now: real)
    ensures EditError(db, me, at, id, now).None? ==> id in db.messages
  {
  }

  lemma ForwardedExists(db: Db, me: Sub, id: nat, to: Where)
    ensures ForwardError(db, me, id, to).None? ==> id in db.messages
  {
  }

  lemma EnrolOne(members: map<(nat, Sub), MemberRow>, g: nat, subs: seq<Sub>, u: Sub)
    ensures var before := Enrol(members, g, Elements(subs));
      Enrol(members, g, Elements(subs + [u]))
        == if (g, u) in before then before else before[(g, u) := MemberRow(Member, false)]
  {
  }
}
