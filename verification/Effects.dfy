/** What a message, a name, a media refresh and a replayed chat leave in each table, column
    by column. */
module Effects {
  import opened Prelude
  import opened Schema
  import opened Retention
  import opened Tallies
  import opened History
  import opened Batching
  import opened Sweeps

  // --------------------------------------------------- one message

  /** Where the chat was read up to: nothing, without a settings row. */
  function ReadUpTo(t: Tables, c: Jid): (int, seq<Id>) {
    if c in t.settings then (t.settings[c].readBoundary, t.settings[c].boundaryIds) else (0, [])
  }

  /** Neither deleted nor within a cleared window, and no row has its key. */
  predicate IsNew(t: Tables, c: Jid, m: Message) {
    && (c, m.id) !in t.tombstones && (c in t.settings ==> m.timestamp > t.settings[c].clearedAt)
    && forall r :: r in Rows(t.messages, c) ==> r.sender != m.sender || r.id != m.id
  }

  predicate Holds(r: Row, m: Message) {
    && r.sender == m.sender && r.id == m.id && r.text == m.text && r.timestamp == m.timestamp
    && r.fromMe == m.fromMe && r.receipt == m.receipt && r.deliveredAt == m.deliveredAt && r.readAt == m.readAt
    && r.media == m.media && r.quote == m.quote && r.download == None
  }

  /** A new message appends one row that holds it, under the address-book name if there is
      one. It is unread exactly if it counts and lies beyond the read boundary, and then the
      badge shows one more. */
  lemma NewMessage(t: Tables, c: Jid, ins: Insert)
    requires IsNew(t, c, ins.message)
    ensures var m, u := ins.message, InsertMessage(t, c, ins);
      var rows := Rows(u.messages, c);
      && |rows| == |Rows(t.messages, c)| + 1 && rows[..|rows| - 1] == Rows(t.messages, c)
      && var r := rows[|rows| - 1];
      && Holds(r, m)
      && (!r.read <==> ins.incrementUnread && m.timestamp > ReadUpTo(t, c).0 && m.id !in ReadUpTo(t, c).1)
      && (m.sender in t.contacts && t.contacts[m.sender].source == 1 ==> r.senderName == t.contacts[m.sender].name)
      && (m.sender in t.contacts ==> t.contacts[m.sender].source != 1 ==> r.senderName == m.senderName)
      && (m.sender !in t.contacts ==> r.senderName == m.senderName)
      && c in u.chats && u.chats[c].unread == (if c in t.chats then t.chats[c].unread else 0) + if r.read then 0 else 1
  {
    var rows := Rows(t.messages, c) + [NewRow(t, c, ins)];
    assert rows[..|rows| - 1] == Rows(t.messages, c);
    StoresIff(t, c, ins);
    InsertShape(t, c, ins);
    StoredChat(t, c, ins);
    hide InsertMessage, Stores, IsNew;
  }

  lemma StoredChat(t: Tables, c: Jid, ins: Insert)
    requires Stores(t, c, ins)
    ensures var u := InsertMessage(t, c, ins);
      c in u.chats && u.chats[c].unread ==
        (if c in t.chats then t.chats[c].unread else 0) + if NewRow(t, c, ins).read then 0 else 1
  {
    hide NewRow, HasKey, QueueChat, QueueMessage;
  }

  lemma StoresIff(t: Tables, c: Jid, ins: Insert)
    ensures Stores(t, c, ins) <==> IsNew(t, c, ins.message)
  {
    var rows, m := Rows(t.messages, c), ins.message;
    if HasKey(rows, m.sender, m.id) {
      var i :| 0 <= i < |rows| && rows[i].sender == m.sender && rows[i].id == m.id;
      assert rows[i] in rows;
    }
    assert forall r :: r in rows ==> exists i :: 0 <= i < |rows| && rows[i] == r;
  }

  lemma StoredAlready(t: Tables, c: Jid, ins: Insert)
    requires !Stores(t, c, ins)
    ensures var u := InsertMessage(t, c, ins);
      && u.messages == t.messages && u.votes == t.votes && u.readers == t.readers && u.keep == t.keep
      && (forall d :: d in t.chats ==> d in u.chats && u.chats[d].unread == t.chats[d].unread)
      && (c !in t.chats && c in u.chats ==> u.chats[c].unread == 0)
      && (Suppressed(t, c, ins.message) ==> u == t)
  {
  }

  /** Only a new message adds a row or raises the badge. */
  lemma OldMessage(t: Tables, c: Jid, ins: Insert)
    requires !IsNew(t, c, ins.message)
    ensures var u := InsertMessage(t, c, ins);
      && u.messages == t.messages && (c in t.chats ==> c in u.chats && u.chats[c].unread == t.chats[c].unread)
      && (c !in t.chats && c in u.chats ==> u.chats[c].unread == 0)
      && ((c, ins.message.id) in t.tombstones || (c in t.settings && ins.message.timestamp <= t.settings[c].clearedAt)
          ==> u == t)
  {
    StoresIff(t, c, ins);
    StoredAlready(t, c, ins);
    hide InsertMessage, IsNew, Stores;
  }

  predicate IsTitle(name: string, c: Jid) {
    Trim(name) != "" && Trim(name) != c
  }

  /** Any message that is not suppressed moves its chat's preview forward in time, makes the
      chat row if there is none, and takes back a deletion unless it comes from history. */
  lemma MessagePreviewed(t: Tables, c: Jid, ins: Insert)
    requires (c, ins.message.id) !in t.tombstones
    requires c in t.settings ==> ins.message.timestamp > t.settings[c].clearedAt
    ensures var m, u := ins.message, InsertMessage(t, c, ins);
      && c in u.chats && u.chats[c].isGroup == ins.isGroup
      && (c in t.chats ==>
          && u.chats[c].name == t.chats[c].name && u.chats[c].nameSource == t.chats[c].nameSource
          && u.chats[c].phone == t.chats[c].phone
          && (m.timestamp >= t.chats[c].lastTimestamp ==>
              u.chats[c].lastMessage == m.text && u.chats[c].lastTimestamp == m.timestamp)
          && (m.timestamp < t.chats[c].lastTimestamp ==>
              u.chats[c].lastMessage == t.chats[c].lastMessage && u.chats[c].lastTimestamp == t.chats[c].lastTimestamp))
      && (c !in t.chats ==>
          && u.chats[c].lastMessage == m.text && u.chats[c].lastTimestamp == m.timestamp && u.chats[c].phone == None
          && (IsTitle(ins.chatName, c) ==>
              u.chats[c].name == Trim(ins.chatName) && u.chats[c].nameSource == if ins.fromHistory then 10 else 20)
          && (!IsTitle(ins.chatName, c) ==> u.chats[c].name == "" && u.chats[c].nameSource == 0))
      && (ins.fromHistory ==> u.settings == t.settings)
      && (!ins.fromHistory ==> c in u.settings && !u.settings[c].deleted)
      && (!ins.fromHistory && c in t.settings ==>
          u.settings[c] == t.settings[c].(deleted := false))
      && (!ins.fromHistory && c !in t.settings ==> u.settings[c] == Settings(None, 0, false, false, 0, 0, []))
  {
  }

  /** A read intent makes the chat pending since the earliest intent, and queues the receipt
      unless it is queued already. */
  lemma IntentQueued(t: Tables, c: Jid, ins: Insert)
    requires (c, ins.message.id) !in t.tombstones
    requires c in t.settings ==> ins.message.timestamp > t.settings[c].clearedAt
    ensures var u := InsertMessage(t, c, ins);
      && (ins.readIntent.None? ==> u.readChats == t.readChats && u.readMessages == t.readMessages)
      && (ins.readIntent.Some? ==>
          && c in u.readChats && u.readChats[c] <= ins.message.timestamp
          && (c in t.readChats ==> u.readChats[c] <= t.readChats[c])
          && (u.readChats[c] == ins.message.timestamp || (c in t.readChats && u.readChats[c] == t.readChats[c]))
          && (forall d :: d != c ==> Get(u.readChats, d) == Get(t.readChats, d))
          && u.readMessages == t.readMessages +
             if IsPending(t.readMessages, c, ins.readIntent.value.sender, ins.readIntent.value.messageId)
             then [] else [PendingRead(c, ins.readIntent.value)])
  {
  }

  /** Nothing but the chat, its rows, its settings and its queue entries is touched. */
  lemma MessageTouches(t: Tables, c: Jid, ins: Insert)
    ensures var u := InsertMessage(t, c, ins);
      && u == t.(settings := u.settings, chats := u.chats, messages := u.messages,
                 readChats := u.readChats, readMessages := u.readMessages)
      && (forall d :: d != c ==> Rows(u.messages, d) == Rows(t.messages, d))
      && (forall d :: d != c ==> Get(u.chats, d) == Get(t.chats, d) && Get(u.settings, d) == Get(t.settings, d))
  {
    hide NewRow, PreviewedChat, QueueChat, QueueMessage, Stores;
  }

  // --------------------------------------------------- a name

  predicate Outranked(t: Tables, jid: Jid, source: int) {
    jid in t.contacts && t.contacts[jid].source > source
  }

  /** A blank or outranked name changes nothing. */
  lemma NameRefused(t: Tables, jid: Jid, name: string, source: int)
    requires Trim(name) == "" || Outranked(t, jid, source)
    ensures UpdateContactName(t, jid, name, source) == t
  {
  }

  /** Any other name is the contact's, stands on every message of the sender in every chat,
      and titles a direct chat whose title does not outrank it. */
  lemma NameTaken(t: Tables, jid: Jid, name: string, source: int)
    requires Trim(name) != "" && !Outranked(t, jid, source)
    ensures var u := UpdateContactName(t, jid, name, source);
      var rank := if source > 0 then 40 else 20;
      && Get(u.contacts, jid) == Some(Contact(Trim(name), source))
      && (forall d :: d != jid ==> Get(u.contacts, d) == Get(t.contacts, d) && Get(u.chats, d) == Get(t.chats, d))
      && (forall d :: |Rows(u.messages, d)| == |Rows(t.messages, d)|)
      && (forall d, i :: 0 <= i < |Rows(t.messages, d)| ==>
           && (Rows(t.messages, d)[i].sender == jid ==>
               Rows(u.messages, d)[i] == Rows(t.messages, d)[i].(senderName := Trim(name)))
           && (Rows(t.messages, d)[i].sender != jid ==> Rows(u.messages, d)[i] == Rows(t.messages, d)[i]))
      && (jid in t.chats ==>
          && jid in u.chats
          && (!t.chats[jid].isGroup && t.chats[jid].nameSource <= rank ==>
              u.chats[jid] == t.chats[jid].(name := Trim(name), nameSource := rank))
          && (t.chats[jid].isGroup || t.chats[jid].nameSource > rank ==> u.chats[jid] == t.chats[jid]))
      && (jid !in t.chats ==> jid !in u.chats)
      && u == t.(contacts := u.contacts, chats := u.chats, messages := u.messages)
  {
    var u := UpdateContactName(t, jid, name, source);
    forall d ensures Rows(u.messages, d) == EditRows(Rename(jid, Trim(name)), Rows(t.messages, d)) {}
  }

  // --------------------------------------------------- media

  /** The media a refresh leaves for an id: a poll keeps its question and options and has its
      tallies counted; a location keeps the preview and duration it had unless it brings its
      own; anything else is taken as it comes. */
  ghost predicate Filed(t: Tables, c: Jid, id: Id, media: Media, out: Media) {
    match media
    case Poll(question, options, selectable, totalVoters, endTimestamp) =>
      && out.Poll? && out.question == question && out.selectable == selectable && out.endTimestamp == endTimestamp
      && |out.options| == |options| && (forall i :: 0 <= i < |options| ==> out.options[i].name == options[i].name)
      && Tally(out, Inner(t.votes, c, id)) == out
    case Location(place, thumbnail, duration) =>
      var was := FindId(Rows(t.messages, c), id);
      && out.Location? && out.place == place
      && (thumbnail.Some? ==> out.thumbnail == thumbnail) && (duration != 0 ==> out.duration == duration)
      && (was.Some? && was.value.media.Some? && was.value.media.value.Location? ==>
          && (thumbnail.None? ==> out.thumbnail == was.value.media.value.thumbnail)
          && (duration == 0 ==> out.duration == was.value.media.value.duration))
      && (was.None? || was.value.media.None? || !was.value.media.value.Location? ==> out == media)
    case _ => out == media
  }

  /** Every row under the id takes the media, a GIF also relabels its text, and nothing else
      of any row moves. */
  lemma MediaFiled(t: Tables, c: Jid, id: Id, media: Media) returns (out: Media)
    ensures Filed(t, c, id, media, out)
    ensures var rows, after := Rows(t.messages, c), Rows(UpdateMedia(t, c, id, media).messages, c);
      && |after| == |rows|
      && (forall i :: 0 <= i < |rows| && rows[i].id != id ==> after[i] == rows[i])
      && (forall i :: 0 <= i < |rows| && rows[i].id == id ==>
           after[i] == rows[i].(media := Some(out),
                                text := if media.Video? && media.gif && rows[i].text == "[Video]" then "[GIF]"
                                  else rows[i].text))
  {
    out := FinalMedia(t, c, id, media);
    FinalFiled(t, c, id, media);
  }

  lemma FinalFiled(t: Tables, c: Jid, id: Id, media: Media)
    ensures Filed(t, c, id, media, FinalMedia(t, c, id, media))
  {
    TallyTwice(Carried(media, StoredMedia(Rows(t.messages, c), id)), Inner(t.votes, c, id));
  }

  predicate NewestHasId(rows: seq<Row>, id: Id) {
    exists i :: 0 <= i < |rows| && rows[i].id == id && IsHead(rows, i)
  }

  predicate LabelsPreview(t: Tables, c: Jid, id: Id, media: Media) {
    && media.Video? && media.gif && c in t.chats && t.chats[c].lastMessage == "[Video]"
    && NewestHasId(Rows(t.messages, c), id)
  }

  /** A GIF relabels the chat's preview exactly if that says "[Video]" and the newest message
      has the id; no other chat and no other column moves. */
  lemma MediaPreviewed(t: Tables, c: Jid, id: Id, media: Media)
    ensures var u := UpdateMedia(t, c, id, media);
      && u == t.(messages := u.messages, chats := u.chats)
      && (forall d :: d != c ==> Rows(u.messages, d) == Rows(t.messages, d) && Get(u.chats, d) == Get(t.chats, d))
      && (c !in t.chats ==> c !in u.chats)
      && (c in t.chats ==>
          c in u.chats && u.chats[c] ==
          t.chats[c].(lastMessage := if LabelsPreview(t, c, id, media) then "[GIF]" else t.chats[c].lastMessage))
  {
    hide FinalMedia, Newest, EditRow, IsHead;
    var rows, after := Rows(t.messages, c), Rows(UpdateMedia(t, c, id, media).messages, c);
    if rows != [] {
      var i := FindHead(after);
      SameNewest(rows, after, i);
    }
  }

  lemma SameNewest(rows: seq<Row>, after: seq<Row>, i: nat)
    requires |rows| == |after| && IsHead(after, i)
    requires forall j :: 0 <= j < |rows| ==> rows[j].id == after[j].id && rows[j].timestamp == after[j].timestamp
    ensures IsHead(rows, i) && forall j: nat :: IsHead(rows, j) ==> j == i
  {
    forall j: nat | IsHead(rows, j) ensures j == i {
      assert rows[i].timestamp <= rows[j].timestamp <= rows[i].timestamp;
    }
  }

  // --------------------------------------------------- a replayed chat

  predicate IsDeleted(t: Tables, c: Jid) {
    c in t.settings && t.settings[c].deleted
  }

  /** A deleted chat stays away, and a chat that is not there is inserted as it comes. */
  lemma HistoryChatInserted(t: Tables, h: HistoryChat)
    ensures IsDeleted(t, h.jid) ==> InsertChat(t, h) == t
    ensures !IsDeleted(t, h.jid) && h.jid !in t.chats ==>
      InsertChat(t, h) == t.(chats := t.chats[h.jid :=
        Chat(if IsTitle(h.name, h.jid) then Trim(h.name) else "", if IsTitle(h.name, h.jid) then 10 else 0,
             None, h.lastMessage, h.lastTimestamp, h.unread, h.isGroup)])
  {
  }

  /** A chat that is there keeps its preview, badge and phone number; it is titled only if it
      had no title, and its time only moves forward. */
  lemma HistoryChatUpdated(t: Tables, h: HistoryChat)
    requires !IsDeleted(t, h.jid) && h.jid in t.chats
    ensures var u, was := InsertChat(t, h), t.chats[h.jid];
      && h.jid in u.chats && u == t.(chats := t.chats[h.jid := u.chats[h.jid]])
      && var now := u.chats[h.jid];
      && now.lastMessage == was.lastMessage && now.unread == was.unread && now.phone == was.phone
      && now.isGroup == h.isGroup
      && now.lastTimestamp >= was.lastTimestamp && now.lastTimestamp >= h.lastTimestamp
      && (now.lastTimestamp == was.lastTimestamp || now.lastTimestamp == h.lastTimestamp)
      && (was.nameSource == 0 && IsTitle(h.name, h.jid) ==> now.name == Trim(h.name) && now.nameSource == 10)
      && (was.nameSource >= 10 ==> now.name == was.name && now.nameSource == was.nameSource)
      && (!IsTitle(h.name, h.jid) ==> now.name == was.name)
  {
  }

  // --------------------------------------------------- the flag of a replayed message

  /** The flag of a replayed message says exactly whether, beyond the sender's name, some row
      of the chat was stored or rewritten. */
  lemma ReplayFlagExact(t: Tables, h: HistoryChat, m: Message)
    ensures HistoryMessage(t, h, m).1 <==>
      Rows(HistoryMessage(t, h, m).0.messages, h.jid) != Rows(LearnName(t, m).messages, h.jid)
  {
    var named, ins := LearnName(t, m), HistoryInsert(h, m);
    hide LearnName, UpdateMedia;
    InsertShape(named, h.jid, ins);
  }

  // --------------------------------------------------- storing, pruning, replaying

  /** Retention keeps votes and reader entries exactly of the messages that are left, and
      touches no other chat and no other table. */
  lemma PrunedTables(t: Tables, c: Jid)
    ensures var u := Prune(t, c);
      && (forall p :: p in u.votes <==>
           p in t.votes && (p.0 != c || exists r :: r in Rows(u.messages, c) && r.id == p.1))
      && (forall p :: p in u.votes ==> u.votes[p] == t.votes[p])
      && (forall p :: p in u.readers <==>
           p in t.readers && (p.0 != c || exists r :: r in Rows(u.messages, c) && r.id == p.1))
      && (forall p :: p in u.readers ==> u.readers[p] == t.readers[p])
      && (forall d :: d != c ==> Rows(u.messages, d) == Rows(t.messages, d))
      && u == t.(messages := u.messages, votes := u.votes, readers := u.readers)
  {
    var rows := Rows(Prune(t, c).messages, c);
    hide Retain;
    forall id ensures HasId(rows, id) <==> exists r :: r in rows && r.id == id {
      if HasId(rows, id) {
        var i :| 0 <= i < |rows| && rows[i].id == id;
        assert rows[i] in rows;
      }
      if r :| r in rows && r.id == id { var i :| 0 <= i < |rows| && rows[i] == r; }
    }
  }

  /** A replayed message that is new is stored read: it never counts; and it titles its chat
      with the conversation's name if there is no chat row yet. */
  lemma ReplayedIsRead(t: Tables, h: HistoryChat, m: Message)
    requires IsNew(LearnName(t, m), h.jid, m)
    ensures var named, u := LearnName(t, m), HistoryMessage(t, h, m).0;
      var rows := Rows(u.messages, h.jid);
      && HistoryMessage(t, h, m).1 && rows != [] && rows[..|rows| - 1] == Rows(named.messages, h.jid)
      && Holds(rows[|rows| - 1], m) && rows[|rows| - 1].read
      && u.settings == t.settings && u.readChats == t.readChats && u.readMessages == t.readMessages
      && h.jid in u.chats && u.chats[h.jid].isGroup == h.isGroup
      && (h.jid in named.chats ==> u.chats[h.jid].unread == named.chats[h.jid].unread)
      && (h.jid !in named.chats ==>
          u.chats[h.jid].unread == 0 && u.chats[h.jid].name == if IsTitle(h.name, h.jid) then Trim(h.name) else "")
  {
    var named, ins := LearnName(t, m), HistoryInsert(h, m);
    LearnShape(t, h.jid, m);
    StoresIff(named, h.jid, ins);
    hide LearnName, InsertMessage, Stores, NoOrphans, SameShape;
    NewMessage(named, h.jid, ins);
    MessagePreviewed(named, h.jid, ins);
    IntentQueued(named, h.jid, ins);
  }
}
