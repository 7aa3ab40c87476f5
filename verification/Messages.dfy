/** Sending, forwarding, reading and changing messages (app/messages/service.py), and the polls that
    messages carry (app/polls/service.py). */
module Messages {
  import opened Prelude
  import opened Text
  import opened Store
  import opened Friends
  import opened Groups

  const MAX_MENTIONS := 50
  const EDIT_WINDOW := 300.0
  const UPLOAD_PREFIX := "/api/uploads/"

  /** What a sender hands in; the attachment is named by its url. */
  datatype Draft = Draft(content: string, contentType: ContentType, attachment: Option<string>,
                         replyTo: Option<nat>, mentions: seq<Sub>)

  datatype PollDraft = PollDraft(question: string, options: seq<string>, multiple: bool)

  // ---------------------------------------------------------------------------------------------
  // Checks

  function ReplyErrorDm(db: Db, me: Sub, other: Sub, id: nat): Option<nat> {
    if id !in db.messages then Some(404)
    else if db.messages[id].kind != Dm || !InDm(db.messages[id], me, other) then Some(404)
    else None
  }

  function ReplyErrorGroup(db: Db, g: nat, id: nat): Option<nat> {
    if id !in db.messages then Some(404)
    else if !InGroup(db.messages[id], g) then Some(404)
    else None
  }

  function MentionErrorDm(other: Sub, mentions: seq<Sub>): Option<nat> {
    if |mentions| > MAX_MENTIONS then Some(422)
    else if exists u :: u in mentions && u != other then Some(422)
    else None
  }

  function MentionErrorGroup(db: Db, g: nat, mentions: seq<Sub>): Option<nat> {
    if |mentions| > MAX_MENTIONS then Some(422)
    else if exists u :: u in mentions && !IsMember(db, g, u) then Some(422)
    else None
  }

  predicate IsUploadUrl(url: string) {
    UPLOAD_PREFIX <= url
  }

  function AttachmentError(db: Db, sender: Sub, contentType: ContentType, attachment: Option<string>): Option<nat> {
    if contentType == Plain then (if attachment.Some? then Some(422) else None)
    else if attachment.None? || !IsUploadUrl(attachment.value) then Some(422)
    else if attachment.value !in db.uploads then Some(404)
    else if db.uploads[attachment.value].owner != sender then Some(403)
    else None
  }

  function Attached(db: Db, attachment: Option<string>): Option<Attachment> {
    if attachment.Some? && attachment.value in db.uploads then
      var u := db.uploads[attachment.value];
      Some(Attachment(u.name, u.size, u.mime, attachment.value))
    else None
  }

  // ---------------------------------------------------------------------------------------------
  // Rows

  function DirectMessage(me: Sub, other: Sub, content: string, contentType: ContentType, forwarded: bool,
                         attachment: Option<Attachment>, replyTo: Option<nat>, now: real): Message {
    Message(me, other, PairKey(me, other).0, PairKey(me, other).1, content, Dm, None, replyTo, contentType, forwarded,
            attachment, None, now, None, None)
  }

  function GroupMessage(me: Sub, g: nat, content: string, contentType: ContentType, forwarded: bool,
                        attachment: Option<Attachment>, replyTo: Option<nat>, pollId: Option<nat>, now: real): Message {
    Message(me, GroupMarker(g), GroupMarker(g), GroupMarker(g) + ":end", content, GroupChat, Some(g), replyTo,
            contentType, forwarded, attachment, pollId, now, None, None)
  }

  /** A cursor only ever moves forward. */
  function Raise<K>(cursors: map<K, nat>, k: K, id: nat): map<K, nat> {
    if k in cursors && id <= cursors[k] then cursors else cursors[k := id]
  }

  /** Adds a direct message with its mentions, and moves the sender's cursor up to it. */
  function PostDm(db: Db, m: Message, mentions: set<Sub>): Db {
    var id := db.nextMessage;
    db.(messages := db.messages[id := m], nextMessage := id + 1,
        mentions := db.mentions + NewRows(id, mentions),
        dmReads := Raise(db.dmReads, OwnCursor(m), id))
  }

  function PostGroup(db: Db, g: nat, m: Message, mentions: set<Sub>): Db {
    var id := db.nextMessage;
    db.(messages := db.messages[id := m], nextMessage := id + 1,
        mentions := db.mentions + NewRows(id, mentions),
        groupReads := Raise(db.groupReads, (m.sender, g), id))
  }

  // ---------------------------------------------------------------------------------------------
  // Sending and forwarding

  function SendDmError(db: Db, me: Sub, other: Sub, d: Draft): Option<nat> {
    if me == other then Some(400)
    else if d.contentType == PollCard then Some(422)
    else if other !in db.users then Some(404)
    else if !AreFriends(db, me, other) then Some(403)
    else if d.replyTo.Some? && ReplyErrorDm(db, me, other, d.replyTo.value).Some? then Some(404)
    else if MentionErrorDm(other, d.mentions).Some? then Some(422)
    else AttachmentError(db, me, d.contentType, d.attachment)
  }

  function SendDm(db: Db, me: Sub, other: Sub, d: Draft, now: real): (Db, Reply) {
    var denied := SendDmError(db, me, other, d);
    if denied.Some? then (db, Fail(denied.value))
    else
      var m := DirectMessage(me, other, d.content, d.contentType, false, Attached(db, d.attachment), d.replyTo, now);
      (PostDm(db, m, Elements(d.mentions)), Created(db.nextMessage))
  }

  /** The stripped distinct options in order of first occurrence, or nothing if one has a bad length. */
  function CleanOptions(options: seq<string>): Option<seq<string>> {
    if options == [] then Some([])
    else
      var before := CleanOptions(options[..|options| - 1]);
      var last := Strip(options[|options| - 1]);
      if before.None? || last == [] || |last| > 60 then None
      else if last in before.value then before
      else Some(before.value + [last])
  }

  function PollError(p: PollDraft): Option<nat> {
    var question, options := Strip(p.question), CleanOptions(p.options);
    if question == [] || |question| > 120 then Some(422)
    else if options.None? || |options.value| < 2 || |options.value| > 10 then Some(422)
    else None
  }

  function NewPoll(db: Db, me: Sub, g: nat, p: PollDraft): Db
    requires PollError(p).None?
  {
    var poll := Poll(g, me, Strip(p.question), CleanOptions(p.options).value, p.multiple, false);
    db.(polls := db.polls[db.nextPoll := poll],
        nextPoll := db.nextPoll + 1)
  }

  function SendGroupError(db: Db, me: Sub, g: nat, d: Draft, poll: Option<PollDraft>): Option<nat> {
    if !IsMember(db, g, me) then Some(403)
    else if db.members[(g, me)].muted then Some(403)
    else if g !in db.groups then Some(404)
    else if (d.contentType == PollCard) != poll.Some? then Some(422)
    else if poll.Some? && (d.attachment.Some? || d.replyTo.Some?) then Some(422)
    else if d.replyTo.Some? && ReplyErrorGroup(db, g, d.replyTo.value).Some? then Some(404)
    else if MentionErrorGroup(db, g, d.mentions).Some? then Some(422)
    else if poll.Some? then PollError(poll.value)
    else AttachmentError(db, me, d.contentType, d.attachment)
  }

  function SendGroup(db: Db, me: Sub, g: nat, d: Draft, poll: Option<PollDraft>, now: real): (Db, Reply) {
    var denied := SendGroupError(db, me, g, d, poll);
    if denied.Some? then (db, Fail(denied.value))
    else if poll.Some? then
      var m := GroupMessage(me, g, d.content, PollCard, false, None, None, Some(db.nextPoll), now);
      (PostGroup(NewPoll(db, me, g, poll.value), g, m, Elements(d.mentions)), Created(db.nextMessage))
    else
      var m := GroupMessage(me, g, d.content, d.contentType, false, Attached(db, d.attachment), d.replyTo, None, now);
      (PostGroup(db, g, m, Elements(d.mentions)), Created(db.nextMessage))
  }

  predicate CanView(db: Db, me: Sub, m: Message) {
    if m.kind == Dm then me == m.lo || me == m.hi
    else m.groupId.Some? && IsMember(db, m.groupId.value, me)
  }

  /** Forwarding to a group does not look at the sender's mute flag. */
  function ForwardError(db: Db, me: Sub, id: nat, to: Where): Option<nat> {
    if id !in db.messages || !CanView(db, me, db.messages[id]) then Some(404)
    else if db.messages[id].deletedAt.Some? then Some(409)
    else if db.messages[id].contentType == PollCard then Some(422)
    else
      match to
      case In(g) => if !IsMember(db, g, me) then Some(403) else None
      case With(other) =>
        if me == other then Some(400)
        else if other !in db.users then Some(404)
        else if !AreFriends(db, me, other) then Some(403)
        else None
  }

  function Forward(db: Db, me: Sub, id: nat, to: Where, now: real): (Db, Reply) {
    var denied := ForwardError(db, me, id, to);
    if denied.Some? then (db, Fail(denied.value))
    else
      var src := db.messages[id];
      match to
      case In(g) =>
        (PostGroup(db, g, GroupMessage(me, g, src.content, src.contentType, true, src.attachment, None, None, now), {}),
         Created(db.nextMessage))
      case With(other) =>
        (PostDm(db, DirectMessage(me, other, src.content, src.contentType, true, src.attachment, None, now), {}),
         Created(db.nextMessage))
  }

  // ---------------------------------------------------------------------------------------------
  // Cursors, hiding, editing, reactions, stars

  function MarkRead(db: Db, me: Sub, other: Sub, id: nat): (Db, Reply) {
    if !AreFriends(db, me, other) then (db, Fail(403))
    else if id !in db.messages || !InDm(db.messages[id], me, other) then (db, Fail(404))
    else
      var (lo, hi) := PairKey(me, other);
      (db.(dmReads := Raise(db.dmReads, (me, lo, hi), id)), Done)
  }

  function MarkGroupRead(db: Db, me: Sub, g: nat, id: nat): (r: (Db, Reply))
    ensures Quiet(db, r.0)
  {
    if !IsMember(db, g, me) then (db, Fail(404))
    else if id !in db.messages || !InGroup(db.messages[id], g) then (db, Fail(404))
    else (db.(groupReads := Raise(db.groupReads, (me, g), id)), Done)
  }

  function HideMessage(db: Db, me: Sub, at: Where, id: nat): (Db, Reply) {
    if id !in db.messages then (db, Fail(404))
    else
      var found := match at
        case In(g) => InGroup(db.messages[id], g) && IsMember(db, g, me)
        case With(other) => db.messages[id].kind == Dm && InDm(db.messages[id], me, other);
      if !found then (db, Fail(404)) else (db.(hidden := db.hidden + {(me, id)}), Done)
  }

  /** Only the sender, only once per deletion, and only within five minutes. */
  function EditError(db: Db, me: Sub, at: Where, id: nat, now: real): Option<nat> {
    var found := match at
      case In(g) => IsMember(db, g, me) && id in db.messages && InGroup(db.messages[id], g)
      case With(other) => id in db.messages && InDm(db.messages[id], me, other);
    if !found then Some(404)
    else if db.messages[id].sender != me then Some(403)
    else if db.messages[id].deletedAt.Some? then Some(409)
    else if now - db.messages[id].createdAt > EDIT_WINDOW then Some(409)
    else None
  }

  function EditMessage(db: Db, me: Sub, at: Where, id: nat, content: string, now: real): (Db, Reply) {
    var denied := EditError(db, me, at, id, now);
    if denied.Some? then (db, Fail(denied.value))
    else (db.(messages := db.messages[id := db.messages[id].(content := content, editedAt := Some(now))]), Done)
  }

  /** Withdrawing keeps the row and blanks its content. */
  function WithdrawMessage(db: Db, me: Sub, at: Where, id: nat, now: real): (Db, Reply) {
    var denied := EditError(db, me, at, id, now);
    if denied.Some? then (db, Fail(denied.value))
    else (db.(messages := db.messages[id := db.messages[id].(content := "", deletedAt := Some(now))]), Done)
  }

  function ReactError(db: Db, me: Sub, at: Where, id: nat): Option<nat> {
    var found := match at
      case In(g) => IsMember(db, g, me) && id in db.messages && InGroup(db.messages[id], g)
      case With(other) => id in db.messages && InDm(db.messages[id], me, other);
    if !found then Some(404)
    else if db.messages[id].deletedAt.Some? then Some(409)
    else None
  }

  function ApplyReaction(reactions: set<(nat, Sub, string)>, id: nat, me: Sub, emoji: string, add: bool)
    : set<(nat, Sub, string)>
  {
    if add then reactions + {(id, me, emoji)} else reactions - {(id, me, emoji)}
  }

  function SetReaction(db: Db, me: Sub, at: Where, id: nat, emoji: string, add: bool): (r: (Db, Reply))
    ensures Quiet(db, r.0)
  {
    var denied := ReactError(db, me, at, id);
    if denied.Some? then (db, Fail(denied.value))
    else (db.(reactions := ApplyReaction(db.reactions, id, me, emoji, add)), Done)
  }

  function ApplyStar(stars: set<(Sub, nat)>, me: Sub, id: nat, starred: bool): set<(Sub, nat)> {
    if starred then stars + {(me, id)} else stars - {(me, id)}
  }

  function SetStar(db: Db, me: Sub, id: nat, starred: bool): (r: (Db, Reply))
    ensures Quiet(db, r.0)
  {
    if id !in db.messages || !CanView(db, me, db.messages[id]) then (db, Fail(404))
    else (db.(stars := ApplyStar(db.stars, me, id, starred)), Done)
  }

  // ---------------------------------------------------------------------------------------------
  // Votes and conversation settings

  function VoteError(db: Db, me: Sub, g: nat, p: nat, choice: set<int>): Option<nat> {
    if !IsMember(db, g, me) then Some(404)
    else if !PollOfGroup(db, p, g) then Some(404)
    else if db.polls[p].closed then Some(409)
    else if !ChoiceOk(choice, db.polls[p]) then Some(422)
    else None
  }

  /** A second vote replaces the first. */
  function Vote(db: Db, me: Sub, g: nat, p: nat, indexes: seq<int>): (r: (Db, Reply))
    ensures Quiet(db, r.0)
  {
    var choice := Elements(indexes);
    var denied := VoteError(db, me, g, p, choice);
    if denied.Some? then (db, Fail(denied.value))
    else (db.(votes := db.votes[(p, me) := choice]), Done)
  }

  function ClosePoll(db: Db, me: Sub, g: nat, p: nat): (r: (Db, Reply))
    ensures Quiet(db, r.0)
  {
    if !IsMember(db, g, me) then (db, Fail(404))
    else if !PollOfGroup(db, p, g) then (db, Fail(404))
    else if db.polls[p].creator != me && db.members[(g, me)].role == Member then (db, Fail(403))
    else (db.(polls := db.polls[p := db.polls[p].(closed := true)]), Done)
  }

  predicate IsDigits(s: string) {
    s != [] && forall i | 0 <= i < |s| :: '0' <= s[i] <= '9'
  }

  function SettingError(db: Db, me: Sub, kind: SettingKind, key: string): Option<nat> {
    match kind
    case DmSetting =>
      var parts := SplitKey(key);
      if parts.None? || parts.value.0 == parts.value.1 then Some(422)
      else if me != parts.value.0 && me != parts.value.1 then Some(404)
      else if !Less(parts.value.0, parts.value.1) then Some(422)
      else None
    case GroupSetting =>
      if !IsDigits(key) then Some(422)
      else if !IsMember(db, ParseDecimal(key), me) then Some(404)
      else None
  }

  function Choose(o: Option<bool>, default: bool): bool {
    if o.Some? then o.value else default
  }

  function SetSetting(db: Db, me: Sub, kind: SettingKind, key: string,
                      pinned: Option<bool>, muted: Option<bool>, archived: Option<bool>): (r: (Db, Reply))
    ensures Quiet(db, r.0)
  {
    if pinned.None? && muted.None? && archived.None? then (db, Fail(422))
    else if SettingError(db, me, kind, key).Some? then (db, Fail(SettingError(db, me, kind, key).value))
    else
      var row := if (me, kind, key) in db.settings then db.settings[(me, kind, key)] else Setting(false, false, false);
      (db.(settings := db.settings[(me, kind, key) :=
             Setting(Choose(pinned, row.pinned), Choose(muted, row.muted), Choose(archived, row.archived))]),
       Done)
  }
}
