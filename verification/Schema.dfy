/** The tables of the history database and the row-level statements run on them. */
module Schema {
  import opened Prelude

  type Jid = string
  type Id = string

  // ------------------------------------------------------------------- media

  datatype PollOption = PollOption(name: string, votes: nat, selectedByMe: bool, voterJids: seq<Jid>)

  /** `MessageMedia`; kinds the store never looks into share `Other`. */
  datatype Media =
    | Poll(question: string, options: seq<PollOption>, selectable: nat, totalVoters: nat, endTimestamp: int)
    | Location(place: string, thumbnail: Option<string>, duration: nat)
    | Video(file: string, gif: bool)
    | Other(file: string)

  // -------------------------------------------------------------------- rows

  /** One row of `messages` within its chat; its key there is (sender, id). */
  datatype Row = Row(
    sender: Jid, id: Id, senderName: string, text: string, timestamp: int,
    fromMe: bool, read: bool, receipt: int,
    deliveredAt: Option<int>, readAt: Option<int>,
    media: Option<Media>, download: Option<string>, quote: Option<string>)

  datatype Chat = Chat(
    name: string, nameSource: int, phone: Option<string>,
    lastMessage: string, lastTimestamp: int, unread: nat, isGroup: bool)

  datatype Contact = Contact(name: string, source: int)

  /** `chat_settings`; a NULL `read_boundary_ids` is the empty list. */
  datatype Settings = Settings(
    readState: Option<bool>, readStateUpdatedAt: int, explicitUnread: bool,
    deleted: bool, clearedAt: int, readBoundary: int, boundaryIds: seq<Id>)

  const DefaultSettings := Settings(None, 0, false, false, 0, 0, [])

  datatype Vote = Vote(selected: seq<string>, fromMe: bool, timestamp: int)

  /** `message_reads`: a time that is not positive means "not yet". */
  datatype ReaderTimes = ReaderTimes(readAt: int, deliveredAt: int)

  datatype Reaction = Reaction(emoji: string, fromMe: bool, timestamp: int)

  datatype ReactionKey = ReactionKey(chat: Jid, message: Id, reactor: Jid)

  datatype UnreadReceipt = UnreadReceipt(messageId: Id, sender: Jid, isGroup: bool)

  datatype PendingRead = PendingRead(chat: Jid, receipt: UnreadReceipt)

  /** `messages` holds each chat's rows in rowid order and only chats with rows;
      `votes` and `readers` (`message_reads`) hold, per (chat, message id), the rows by voter and reader.
      `keep` is the retention bound of `prune_chat_history`. */
  datatype Tables = Tables(
    keep: nat,
    messages: map<Jid, seq<Row>>,
    chats: map<Jid, Chat>,
    contacts: map<Jid, Contact>,
    settings: map<Jid, Settings>,
    tombstones: set<(Jid, Id)>,
    votes: map<(Jid, Id), map<Jid, Vote>>,
    readers: map<(Jid, Id), map<Jid, ReaderTimes>>,
    reactions: map<ReactionKey, Reaction>,
    reactionTombstones: map<ReactionKey, int>,
    readChats: map<Jid, int>,
    readMessages: seq<PendingRead>)

  function Get<V>(m: map<Jid, V>, k: Jid): (o: Option<V>) {
    if k in m then Some(m[k]) else None
  }

  function Rows(messages: map<Jid, seq<Row>>, c: Jid): seq<Row> {
    if c in messages then messages[c] else []
  }

  function WithRows(messages: map<Jid, seq<Row>>, c: Jid, rows: seq<Row>): (m: map<Jid, seq<Row>>)
    ensures Rows(m, c) == rows
    ensures forall d :: d != c ==> Rows(m, d) == Rows(messages, d)
  {
    if rows == [] then messages - {c} else messages[c := rows]
  }

  function SettingsOf(settings: map<Jid, Settings>, c: Jid): Settings {
    if c in settings then settings[c] else DefaultSettings
  }

  function Inner<V>(m: map<(Jid, Id), map<Jid, V>>, c: Jid, id: Id): map<Jid, V> {
    if (c, id) in m then m[(c, id)] else map[]
  }

  // -------------------------------------------------------------------- keys

  predicate HasKey(rows: seq<Row>, sender: Jid, id: Id) {
    exists i :: 0 <= i < |rows| && rows[i].sender == sender && rows[i].id == id
  }

  predicate HasId(rows: seq<Row>, id: Id) {
    exists i :: 0 <= i < |rows| && rows[i].id == id
  }

  /** PRIMARY KEY (chat_jid, sender_jid, id). */
  predicate UniqueKeys(rows: seq<Row>) {
    forall i, j :: 0 <= i < j < |rows| ==> rows[i].sender != rows[j].sender || rows[i].id != rows[j].id
  }

  /** The row `WHERE chat_jid = ? AND id = ?` yields first. */
  function FindId(rows: seq<Row>, id: Id): (o: Option<Row>)
    ensures o.Some? <==> HasId(rows, id)
    ensures o.Some? ==> o.value in rows && o.value.id == id
  {
    if rows == [] then None
    else if rows[0].id == id then Some(rows[0])
    else FindId(rows[1..], id)
  }

  /** No earlier row has the id. */
  lemma {:induction false} FindIdIsFirst(rows: seq<Row>, id: Id) returns (i: nat)
    requires HasId(rows, id)
    ensures i < |rows| && FindId(rows, id) == Some(rows[i]) && rows[i].id == id
    ensures forall j :: 0 <= j < i ==> rows[j].id != id
  {
    i := 0;
    if rows[0].id != id {
      i := FindIdIsFirst(rows[1..], id);
      assert forall j :: 0 <= j < i + 1 ==> rows[j] == if j == 0 then rows[0] else rows[1..][j - 1];
      i := i + 1;
    }
  }

  predicate Unread(r: Row) {
    !r.fromMe && !r.read
  }

  /** `COUNT(*) ... WHERE from_me = 0 AND read = 0`. */
  function UnreadCount(rows: seq<Row>): nat {
    if rows == [] then 0
    else UnreadCount(rows[..|rows| - 1]) + if Unread(rows[|rows| - 1]) then 1 else 0
  }

  /** `ORDER BY timestamp DESC LIMIT 1`; ties go to the earlier rowid, or with
      `rowid DESC` to the later one. */
  function Newest(rows: seq<Row>, latest: bool): (o: Option<Row>)
    ensures o.None? <==> rows == []
    ensures o.Some? ==> o.value in rows && forall r :: r in rows ==> r.timestamp <= o.value.timestamp
  {
    if rows == [] then None
    else
      var last := rows[|rows| - 1];
      assert rows == rows[..|rows| - 1] + [last];
      match Newest(rows[..|rows| - 1], latest)
      case None => Some(last)
      case Some(r) =>
        if last.timestamp > r.timestamp || (latest && last.timestamp == r.timestamp) then Some(last) else Some(r)
  }

  // ------------------------------------------------- UPDATE messages SET ...

  datatype Edit =
    | Rename(sender: Jid, name: string)
    | SetMedia(id: Id, media: Media, gif: bool)
    | ReadThrough(upTo: int)
    | ReadOne(id: Id)
    | Receive(id: Id, level: int, at: int)

  /** The smaller of a stored time and a positive new one. */
  function Earliest(stored: Option<int>, at: int): Option<int> {
    if at > 0 && (stored.None? || at < stored.value) then Some(at) else stored
  }

  function EditRow(e: Edit, r: Row): (s: Row)
    ensures s.sender == r.sender && s.id == r.id && s.timestamp == r.timestamp && s.fromMe == r.fromMe
    ensures r.read ==> s.read
  {
    match e
    case Rename(sender, name) =>
      if r.sender == sender then r.(senderName := name) else r
    case SetMedia(id, media, gif) =>
      if r.id == id then r.(media := Some(media), text := if gif && r.text == "[Video]" then "[GIF]" else r.text) else r
    case ReadThrough(upTo) =>
      if !r.fromMe && r.timestamp <= upTo then r.(read := true) else r
    case ReadOne(id) =>
      if !r.fromMe && r.id == id then r.(read := true) else r
    case Receive(id, level, at) =>
      if r.fromMe && r.id == id then
        r.(receipt := Max(r.receipt, level),
           deliveredAt := if level == 2 then Earliest(r.deliveredAt, at) else r.deliveredAt,
           readAt := if level >= 3 then Earliest(r.readAt, at) else r.readAt)
      else r
  }

  function EditRows(e: Edit, rows: seq<Row>): (out: seq<Row>)
    ensures |out| == |rows|
    ensures forall i :: 0 <= i < |rows| ==> out[i] == EditRow(e, rows[i])
  {
    seq(|rows|, i requires 0 <= i < |rows| => EditRow(e, rows[i]))
  }

  lemma EditKeepsKeys(e: Edit, rows: seq<Row>)
    ensures UniqueKeys(rows) ==> UniqueKeys(EditRows(e, rows))
    ensures forall s, id :: HasKey(EditRows(e, rows), s, id) <==> HasKey(rows, s, id)
    ensures forall id :: HasId(EditRows(e, rows), id) <==> HasId(rows, id)
  {
    var out := EditRows(e, rows);
    forall s, id ensures HasKey(out, s, id) <==> HasKey(rows, s, id) {
      if i :| 0 <= i < |rows| && rows[i].sender == s && rows[i].id == id {
        assert out[i].sender == s && out[i].id == id;
      }
    }
    forall id ensures HasId(out, id) <==> HasId(rows, id) {
      if i :| 0 <= i < |rows| && rows[i].id == id { assert out[i].id == id; }
    }
  }

  // ------------------------------------------------- DELETE FROM messages ...

  datatype Cut = WithId(id: Id) | Through(upTo: int) | OfSender(sender: Jid)

  predicate Cuts(d: Cut, r: Row) {
    match d
    case WithId(id) => r.id == id
    case Through(upTo) => r.timestamp <= upTo
    case OfSender(sender) => r.sender == sender
  }

  function CutRows(d: Cut, rows: seq<Row>): (out: seq<Row>)
    ensures |out| <= |rows|
    ensures forall r :: r in out <==> r in rows && !Cuts(d, r)
    ensures UnreadCount(out) <= UnreadCount(rows)
  {
    if rows == [] then []
    else
      var front, last := rows[..|rows| - 1], rows[|rows| - 1];
      var out := CutRows(d, front);
      assert rows == front + [last];
      assert (out + [last])[..|out|] == out;
      if Cuts(d, last) then out else out + [last]
  }

  lemma {:induction false} CutKeepsKeys(d: Cut, rows: seq<Row>)
    requires UniqueKeys(rows)
    ensures UniqueKeys(CutRows(d, rows))
  {
    if rows != [] {
      var front, last := rows[..|rows| - 1], rows[|rows| - 1];
      CutKeepsKeys(d, front);
      var out := CutRows(d, front);
      forall i | 0 <= i < |out| ensures out[i].sender != last.sender || out[i].id != last.id {
        assert out[i] in front;
      }
    }
  }

  lemma {:induction false} UnreadCountAppend(rows: seq<Row>, r: Row)
    ensures UnreadCount(rows + [r]) == UnreadCount(rows) + if Unread(r) then 1 else 0
  {
    assert (rows + [r])[..|rows|] == rows;
  }

  lemma {:induction false} SameUnread(a: seq<Row>, b: seq<Row>)
    requires |a| == |b| && forall i :: 0 <= i < |a| ==> Unread(a[i]) == Unread(b[i])
    ensures UnreadCount(a) == UnreadCount(b)
  {
    if a != [] { SameUnread(a[..|a| - 1], b[..|b| - 1]); }
  }
}
