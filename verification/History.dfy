/** Storing messages: live inserts, replayed conversations, names, media and pruning. */
module History {
  import opened Prelude
  import opened Schema
  import opened Retention
  import opened Tallies

  const NAME_UNKNOWN := 0
  const NAME_HISTORY := 10
  const NAME_MESSAGE := 20
  const NAME_ADDRESS_BOOK := 40

  datatype Message = Message(
    sender: Jid, id: Id, senderName: string, text: string, timestamp: int, fromMe: bool, receipt: int,
    deliveredAt: Option<int>, readAt: Option<int>, media: Option<Media>, quote: Option<string>)

  datatype Insert = Insert(
    message: Message, chatName: string, isGroup: bool,
    incrementUnread: bool, fromHistory: bool, readIntent: Option<UnreadReceipt>)

  /** The `Chat` a history sync replays. */
  datatype HistoryChat = HistoryChat(
    jid: Jid, name: string, lastMessage: string, lastTimestamp: int, unread: nat, isGroup: bool)

  /** A chat title, and how much it is worth; an identifier is never a title. */
  function Candidate(name: string, c: Jid, source: int): (string, int) {
    var trimmed := Trim(name);
    if trimmed == "" || trimmed == c then ("", NAME_UNKNOWN) else (trimmed, source)
  }

  // --------------------------------------------------- insert_message_into

  /** Tombstoned, or inside a cleared window. */
  predicate Suppressed(t: Tables, c: Jid, m: Message) {
    (c, m.id) in t.tombstones || (c in t.settings && m.timestamp <= t.settings[c].clearedAt)
  }

  /** Covered by the read boundary of its chat. */
  predicate Covered(s: Settings, id: Id, timestamp: int) {
    timestamp <= s.readBoundary || id in s.boundaryIds
  }

  function NewRow(t: Tables, c: Jid, ins: Insert): Row {
    var m := ins.message;
    var saved := if m.sender in t.contacts && t.contacts[m.sender].source == 1
                 then t.contacts[m.sender].name else m.senderName;
    var unread := ins.incrementUnread && !Covered(SettingsOf(t.settings, c), m.id, m.timestamp);
    Row(m.sender, m.id, saved, m.text, m.timestamp, m.fromMe, !unread, m.receipt,
        m.deliveredAt, m.readAt, m.media, None, m.quote)
  }

  function PreviewedChat(chat: Option<Chat>, c: Jid, ins: Insert): Chat {
    var m := ins.message;
    match chat
    case None =>
      var (name, source) := Candidate(ins.chatName, c, if ins.fromHistory then NAME_HISTORY else NAME_MESSAGE);
      Chat(name, source, None, m.text, m.timestamp, 0, ins.isGroup)
    case Some(was) =>
      was.(lastMessage := if m.timestamp >= was.lastTimestamp then m.text else was.lastMessage,
           lastTimestamp := Max(was.lastTimestamp, m.timestamp),
           isGroup := ins.isGroup)
  }

  function QueueChat(readChats: map<Jid, int>, c: Jid, createdAt: int): map<Jid, int> {
    readChats[c := if c in readChats then Min(readChats[c], createdAt) else createdAt]
  }

  predicate IsPending(queue: seq<PendingRead>, c: Jid, sender: Jid, id: Id) {
    exists i :: 0 <= i < |queue| && queue[i].chat == c && queue[i].receipt.sender == sender &&
      queue[i].receipt.messageId == id
  }

  function QueueMessage(queue: seq<PendingRead>, c: Jid, r: UnreadReceipt): seq<PendingRead> {
    if IsPending(queue, c, r.sender, r.messageId) then queue else queue + [PendingRead(c, r)]
  }

  predicate Stores(t: Tables, c: Jid, ins: Insert) {
    !Suppressed(t, c, ins.message) && !HasKey(Rows(t.messages, c), ins.message.sender, ins.message.id)
  }

  function InsertMessage(t: Tables, c: Jid, ins: Insert): Tables {
    if Suppressed(t, c, ins.message) then t
    else
      var row := NewRow(t, c, ins);
      var isNew := Stores(t, c, ins);
      var chat := PreviewedChat(Get(t.chats, c), c, ins);
      t.(settings := if ins.fromHistory then t.settings
                     else t.settings[c := SettingsOf(t.settings, c).(deleted := false)],
         chats := t.chats[c := if isNew && !row.read then chat.(unread := chat.unread + 1) else chat],
         messages := if isNew then WithRows(t.messages, c, Rows(t.messages, c) + [row]) else t.messages,
         readChats := if ins.readIntent.Some? then QueueChat(t.readChats, c, ins.message.timestamp) else t.readChats,
         readMessages := if ins.readIntent.Some? then QueueMessage(t.readMessages, c, ins.readIntent.value)
                         else t.readMessages)
  }

  // --------------------------------------------------- prune_chat_history

  function WithStored<V>(m: map<(Jid, Id), V>, c: Jid, rows: seq<Row>): map<(Jid, Id), V> {
    map p | p in m && (p.0 != c || HasId(rows, p.1)) :: m[p]
  }

  function Prune(t: Tables, c: Jid): Tables {
    var rows := Retain(Rows(t.messages, c), t.keep);
    t.(messages := WithRows(t.messages, c, rows),
       votes := WithStored(t.votes, c, rows),
       readers := WithStored(t.readers, c, rows))
  }

  /** `insert_message`: one message, then its chat's retention. */
  function InsertAndPrune(t: Tables, c: Jid, ins: Insert): Tables {
    Prune(InsertMessage(t, c, ins), c)
  }

  // --------------------------------------------------- names

  function RenameIn(messages: map<Jid, seq<Row>>, jid: Jid, name: string): map<Jid, seq<Row>> {
    map c | c in messages :: EditRows(Rename(jid, name), messages[c])
  }

  predicate NameApplies(t: Tables, jid: Jid, name: string, source: int) {
    Trim(name) != "" && (jid in t.contacts ==> t.contacts[jid].source <= source)
  }

  function UpdateContactName(t: Tables, jid: Jid, name: string, source: int): Tables {
    if !NameApplies(t, jid, name, source) then t
    else
      var rank := if source > 0 then NAME_ADDRESS_BOOK else NAME_MESSAGE;
      t.(contacts := t.contacts[jid := Contact(Trim(name), source)],
         chats := if jid in t.chats && !t.chats[jid].isGroup && t.chats[jid].nameSource <= rank
                  then t.chats[jid := t.chats[jid].(name := Trim(name), nameSource := rank)] else t.chats,
         messages := RenameIn(t.messages, jid, Trim(name)))
  }

  // --------------------------------------------------- media

  /** A location refresh keeps the preview and the duration it does not carry. */
  function Carried(media: Media, previous: Option<Media>): Media {
    if media.Location? && previous.Some? && previous.value.Location? then
      media.(thumbnail := if media.thumbnail.None? then previous.value.thumbnail else media.thumbnail,
             duration := if media.duration == 0 then previous.value.duration else media.duration)
    else media
  }

  function StoredMedia(rows: seq<Row>, id: Id): Option<Media> {
    var row := FindId(rows, id);
    if row.Some? then row.value.media else None
  }

  predicate IsGif(media: Media) {
    media.Video? && media.gif
  }

  ghost function FinalMedia(t: Tables, c: Jid, id: Id, media: Media): Media {
    Tally(Carried(media, StoredMedia(Rows(t.messages, c), id)), Inner(t.votes, c, id))
  }

  function RelabelledChats(chats: map<Jid, Chat>, c: Jid, rows: seq<Row>, id: Id, gif: bool): map<Jid, Chat> {
    var top := Newest(rows, false);
    if gif && c in chats && chats[c].lastMessage == "[Video]" && top.Some? && top.value.id == id
    then chats[c := chats[c].(lastMessage := "[GIF]")] else chats
  }

  ghost function UpdateMedia(t: Tables, c: Jid, id: Id, media: Media): Tables {
    var rows := EditRows(SetMedia(id, FinalMedia(t, c, id, media), IsGif(media)), Rows(t.messages, c));
    t.(messages := WithRows(t.messages, c, rows),
       chats := RelabelledChats(t.chats, c, rows, id, IsGif(media)))
  }

  /** The flag `update_message_media` returns: some row changed. */
  ghost predicate MediaChanges(t: Tables, c: Jid, id: Id, media: Media) {
    Rows(UpdateMedia(t, c, id, media).messages, c) != Rows(t.messages, c)
  }

  // --------------------------------------------------- replayed conversations

  function InsertChat(t: Tables, h: HistoryChat): Tables {
    if h.jid in t.settings && t.settings[h.jid].deleted then t
    else
      var (name, source) := Candidate(h.name, h.jid, NAME_HISTORY);
      t.(chats := t.chats[h.jid :=
           match Get(t.chats, h.jid)
           case None => Chat(name, source, None, h.lastMessage, h.lastTimestamp, h.unread, h.isGroup)
           case Some(was) =>
             was.(name := if was.nameSource == NAME_UNKNOWN && source > NAME_UNKNOWN then name else was.name,
                  nameSource := Max(was.nameSource, source),
                  lastTimestamp := Max(was.lastTimestamp, h.lastTimestamp),
                  isGroup := h.isGroup)])
  }

  function HistoryInsert(h: HistoryChat, m: Message): Insert {
    Insert(m, h.name, h.isGroup, false, true, None)
  }

  function LearnName(t: Tables, m: Message): Tables {
    if !m.fromMe && m.senderName != m.sender then UpdateContactName(t, m.sender, m.senderName, 0) else t
  }

  /** `insert_history_message_into`: name, message, otherwise its media. */
  ghost function HistoryMessage(t: Tables, h: HistoryChat, m: Message): (Tables, bool) {
    var named := LearnName(t, m);
    var stored := InsertMessage(named, h.jid, HistoryInsert(h, m));
    if Stores(named, h.jid, HistoryInsert(h, m)) then (stored, true)
    else if m.media.Some? then
      (UpdateMedia(stored, h.jid, m.id, m.media.value), MediaChanges(stored, h.jid, m.id, m.media.value))
    else (stored, false)
  }

  ghost function HistoryMessages(t: Tables, h: HistoryChat, ms: seq<Message>): (Tables, bool) {
    if ms == [] then (t, false)
    else
      var (before, changed) := HistoryMessages(t, h, ms[..|ms| - 1]);
      var (after, last) := HistoryMessage(before, h, ms[|ms| - 1]);
      (after, changed || last)
  }

  /** `insert_history_conversation`: retention runs once, at the end. */
  ghost function Batch(t: Tables, h: HistoryChat, ms: seq<Message>): (Tables, bool) {
    var (after, changed) := HistoryMessages(InsertChat(t, h), h, ms);
    (Prune(after, h.jid), changed)
  }

  /** The three public calls the batch replaces, for one message. */
  ghost function SequentialMessage(t: Tables, h: HistoryChat, m: Message): (Tables, bool) {
    var named := LearnName(t, m);
    var stored := InsertAndPrune(named, h.jid, HistoryInsert(h, m));
    if Stores(named, h.jid, HistoryInsert(h, m)) then (stored, true)
    else if m.media.Some? then
      (UpdateMedia(stored, h.jid, m.id, m.media.value), MediaChanges(stored, h.jid, m.id, m.media.value))
    else (stored, false)
  }

  ghost function SequentialMessages(t: Tables, h: HistoryChat, ms: seq<Message>): (Tables, bool) {
    if ms == [] then (t, false)
    else
      var (before, changed) := SequentialMessages(t, h, ms[..|ms| - 1]);
      var (after, last) := SequentialMessage(before, h, ms[|ms| - 1]);
      (after, changed || last)
  }

  ghost function Sequential(t: Tables, h: HistoryChat, ms: seq<Message>): (Tables, bool) {
    SequentialMessages(InsertChat(t, h), h, ms)
  }
}
