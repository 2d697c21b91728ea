/** One call of the batched replay: what it always shares with the message-by-message
    replay, and exactly when they end alike. */
module Calls {
  import opened Prelude
  import opened Schema
  import opened Retention
  import opened History
  import opened Batching
  import opened Replays

  // --------------------------------------------------- the flag

  lemma OfferedGrows(t: Tables, c: Jid, ms: seq<Message>)
    requires ms != []
    ensures |Offered(t, c, ms[..|ms| - 1])| <= |Offered(t, c, ms)|
  {
  }

  lemma {:induction false} OfferedSize(t: Tables, c: Jid, ms: seq<Message>)
    ensures |Offered(t, c, ms)| <= |Rows(t.messages, c)| + |ms|
  {
    if ms != [] { OfferedSize(t, c, ms[..|ms| - 1]); }
  }

  /** Until something overflows the two replays are one. */
  lemma {:induction false} WithinSame(t: Tables, h: HistoryChat, ms: seq<Message>)
    requires Replayable(t, h.jid) && |Offered(t, h.jid, ms)| <= t.keep
    ensures SequentialMessages(InsertChat(t, h), h, ms) == HistoryMessages(InsertChat(t, h), h, ms)
  {
    hide HistoryMessage, SequentialMessage, InsertChat, Offered, Replayable, SameShape;
    if ms != [] {
      var n := |ms| - 1;
      OfferedGrows(t, h.jid, ms);
      WithinSame(t, h, ms[..n]);
      var u := HistoryMessages(InsertChat(t, h), h, ms[..n]).0;
      Within(t, h, ms[..n]);
      Within(t, h, ms);
      SequentialIsPruned(u, h, ms[n]);
      PruneIdle(HistoryMessage(u, h, ms[n]).0, h.jid);
    }
  }

  /** The chat before the batch's pruning holds what was offered. */
  lemma Within(t: Tables, h: HistoryChat, ms: seq<Message>)
    requires Replayable(t, h.jid)
    ensures var u := HistoryMessages(InsertChat(t, h), h, ms).0;
      |Rows(u.messages, h.jid)| == |Offered(t, h.jid, ms)| && u.keep == t.keep && NoOrphans(u, h.jid)
  {
    ReplayedChatKeeps(t, h);
    OfferedShape(t, h, ms);
    MessagesKeep(InsertChat(t, h), h, ms);
  }

  /** The changed flag is the same whatever the messages are: until one is stored the two
      replays are one, and then it is up in both. */
  lemma {:induction false} FlagsAgree(t: Tables, h: HistoryChat, ms: seq<Message>)
    requires Replayable(t, h.jid)
    ensures SequentialMessages(InsertChat(t, h), h, ms).1 == HistoryMessages(InsertChat(t, h), h, ms).1
  {
    hide HistoryMessage, SequentialMessage, InsertChat, NoOrphans, UniqueKeys;
    if ms != [] {
      var n := |ms| - 1;
      var front := ms[..n];
      FlagsAgree(t, h, front);
      var u := HistoryMessages(InsertChat(t, h), h, front).0;
      if !HistoryMessages(InsertChat(t, h), h, front).1 {
        ReplayedChatKeeps(t, h);
        MessagesKeep(InsertChat(t, h), h, front);
        Within(t, h, front);
        WithinSame(t, h, front);
        SequentialIsPruned(u, h, ms[n]);
      }
    }
  }

  // --------------------------------------------------- everything but the chat

  function Unlabelled(chat: Option<Chat>): Option<Chat> {
    if chat.None? then None else Some(chat.value.(lastMessage := ""))
  }

  /** Two tables by chat agree everywhere else. */
  ghost predicate Elsewhere<V>(a: map<Jid, V>, b: map<Jid, V>, c: Jid) {
    forall d :: d != c ==> Get(a, d) == Get(b, d)
  }

  ghost predicate FiledElsewhere<V>(a: map<(Jid, Id), V>, b: map<(Jid, Id), V>, c: Jid) {
    forall p: (Jid, Id) :: p.0 != c ==> SameEntry(a, b, p)
  }

  /** Outside the chat all tables agree, and so does its row in the chat list but for the
      preview text. */
  ghost predicate Abreast(u: Tables, s: Tables, c: Jid) {
    && s == u.(messages := s.messages, chats := s.chats, votes := s.votes, readers := s.readers)
    && Elsewhere(u.messages, s.messages, c) && Elsewhere(u.chats, s.chats, c)
    && Unlabelled(Get(s.chats, c)) == Unlabelled(Get(u.chats, c))
    && FiledElsewhere(u.votes, s.votes, c) && FiledElsewhere(u.readers, s.readers, c)
  }

  /** What moves only at the chat stays beside. */
  lemma StillElsewhere<V>(a: map<Jid, V>, b: map<Jid, V>, x: map<Jid, V>, y: map<Jid, V>, c: Jid)
    requires Elsewhere(a, b, c) && Elsewhere(a, x, c) && Elsewhere(b, y, c)
    ensures Elsewhere(x, y, c)
  {
    forall d | d != c ensures Get(x, d) == Get(y, d) { assert Get(a, d) == Get(b, d); }
  }

  lemma StillFiled<V>(a: map<(Jid, Id), V>, b: map<(Jid, Id), V>, c: Jid, rows: seq<Row>)
    requires FiledElsewhere(a, b, c)
    ensures FiledElsewhere(a, WithStored(b, c, rows), c) && FiledElsewhere(WithStored(a, c, rows), b, c)
  {
    forall p: (Jid, Id) | p.0 != c
      ensures SameEntry(a, WithStored(b, c, rows), p) && SameEntry(WithStored(a, c, rows), b, p)
    {
      assert SameEntry(a, b, p);
    }
  }

  lemma RenamedElsewhere(a: map<Jid, seq<Row>>, b: map<Jid, seq<Row>>, c: Jid, jid: Jid, name: string)
    requires Elsewhere(a, b, c)
    ensures Elsewhere(RenameIn(a, jid, name), RenameIn(b, jid, name), c)
  {
    forall d | d != c ensures Get(RenameIn(a, jid, name), d) == Get(RenameIn(b, jid, name), d) {
      assert Get(a, d) == Get(b, d);
    }
  }

  function TitledFor(chats: map<Jid, Chat>, jid: Jid, name: string): map<Jid, Chat> {
    if jid in chats && !chats[jid].isGroup && chats[jid].nameSource <= NAME_MESSAGE
    then chats[jid := chats[jid].(name := name, nameSource := NAME_MESSAGE)] else chats
  }

  lemma TitledElsewhere(a: map<Jid, Chat>, b: map<Jid, Chat>, c: Jid, jid: Jid, name: string)
    requires Elsewhere(a, b, c) && Unlabelled(Get(b, c)) == Unlabelled(Get(a, c))
    ensures Elsewhere(TitledFor(a, jid, name), TitledFor(b, jid, name), c)
    ensures Unlabelled(Get(TitledFor(b, jid, name), c)) == Unlabelled(Get(TitledFor(a, jid, name), c))
  {
    assert jid != c ==> Get(a, jid) == Get(b, jid);
    forall d | d != c ensures Get(TitledFor(a, jid, name), d) == Get(TitledFor(b, jid, name), d) {
      assert Get(a, d) == Get(b, d);
    }
  }

  lemma AbreastName(u: Tables, s: Tables, c: Jid, jid: Jid, name: string)
    requires Abreast(u, s, c)
    ensures Abreast(UpdateContactName(u, jid, name, 0), UpdateContactName(s, jid, name, 0), c)
  {
    hide RenameIn, Elsewhere, FiledElsewhere, Unlabelled;
    RenamedElsewhere(u.messages, s.messages, c, jid, Trim(name));
    TitledElsewhere(u.chats, s.chats, c, jid, Trim(name));
    NamedChats(u, jid, name);
    NamedChats(s, jid, name);
  }

  lemma NamedChats(t: Tables, jid: Jid, name: string)
    ensures NameApplies(t, jid, name, 0) ==>
      UpdateContactName(t, jid, name, 0).chats == TitledFor(t.chats, jid, Trim(name))
  {
  }

  lemma AbreastInsert(u: Tables, s: Tables, c: Jid, ins: Insert)
    requires Abreast(u, s, c) && IsReplay(ins)
    ensures Abreast(InsertMessage(u, c, ins), InsertMessage(s, c, ins), c)
  {
    hide FiledElsewhere;
    if !Suppressed(u, c, ins.message) {
      InsertMoves(u, c, ins);
      InsertMoves(s, c, ins);
      hide Elsewhere, NewRow;
      StillElsewhere(u.messages, s.messages, InsertMessage(u, c, ins).messages, InsertMessage(s, c, ins).messages, c);
      StillElsewhere(u.chats, s.chats, InsertMessage(u, c, ins).chats, InsertMessage(s, c, ins).chats, c);
    }
  }

  lemma InsertMoves(t: Tables, c: Jid, ins: Insert)
    requires IsReplay(ins)
    ensures Elsewhere(t.messages, InsertMessage(t, c, ins).messages, c) &&
      Elsewhere(t.chats, InsertMessage(t, c, ins).chats, c)
    ensures !Suppressed(t, c, ins.message) ==>
      InsertMessage(t, c, ins).chats == t.chats[c := PreviewedChat(Get(t.chats, c), c, ins)]
  {
  }

  lemma AbreastComplete(u: Tables, s: Tables, c: Jid, m: Message)
    requires Abreast(u, s, c)
    ensures Abreast(Complete(u, c, m), Complete(s, c, m), c)
    ensures Abreast(Complete(u, c, m), s, c) && Abreast(u, Complete(s, c, m), c)
  {
    CompleteMoves(u, c, m);
    CompleteMoves(s, c, m);
    var v, w := Complete(u, c, m), Complete(s, c, m);
    hide Complete, Elsewhere, FiledElsewhere;
    StillElsewhere(u.messages, s.messages, v.messages, w.messages, c);
    StillElsewhere(u.chats, s.chats, v.chats, w.chats, c);
    ElsewhereSelf(s.messages, c);
    ElsewhereSelf(s.chats, c);
    StillElsewhere(u.messages, s.messages, v.messages, s.messages, c);
    StillElsewhere(u.chats, s.chats, v.chats, s.chats, c);
    ElsewhereSelf(u.messages, c);
    ElsewhereSelf(u.chats, c);
    StillElsewhere(u.messages, s.messages, u.messages, w.messages, c);
    StillElsewhere(u.chats, s.chats, u.chats, w.chats, c);
  }

  lemma ElsewhereSelf<V>(a: map<Jid, V>, c: Jid)
    ensures Elsewhere(a, a, c)
  {
  }

  lemma CompleteMoves(t: Tables, c: Jid, m: Message)
    ensures var u := Complete(t, c, m);
      && u == t.(messages := u.messages, chats := u.chats)
      && Elsewhere(t.messages, u.messages, c) && Elsewhere(t.chats, u.chats, c)
      && Unlabelled(Get(u.chats, c)) == Unlabelled(Get(t.chats, c))
  {
    if m.media.Some? {
      var rows := Rows(UpdateMedia(t, c, m.id, m.media.value).messages, c);
      hide FinalMedia, EditRows, Newest;
      WithRowsElsewhere(t.messages, c, rows);
      RelabelMoves(t.chats, c, rows, m.id, IsGif(m.media.value));
    }
  }

  lemma WithRowsElsewhere(messages: map<Jid, seq<Row>>, c: Jid, rows: seq<Row>)
    ensures Elsewhere(messages, WithRows(messages, c, rows), c)
  {
  }

  lemma RelabelMoves(chats: map<Jid, Chat>, c: Jid, rows: seq<Row>, id: Id, gif: bool)
    ensures var out := RelabelledChats(chats, c, rows, id, gif);
      Elsewhere(chats, out, c) && Unlabelled(Get(out, c)) == Unlabelled(Get(chats, c))
  {
  }

  lemma AbreastPruned(u: Tables, s: Tables, c: Jid)
    requires Abreast(u, s, c)
    ensures Abreast(u, Prune(s, c), c)
  {
    PruneMoves(s, c);
    hide Elsewhere, FiledElsewhere, Prune, WithStored;
    ElsewhereSelf(u.messages, c);
    StillElsewhere(u.messages, s.messages, u.messages, Prune(s, c).messages, c);
    StillFiled(u.votes, s.votes, c, Retain(Rows(s.messages, c), s.keep));
    StillFiled(u.readers, s.readers, c, Retain(Rows(s.messages, c), s.keep));
  }

  lemma PruneMoves(t: Tables, c: Jid)
    ensures var u := Prune(t, c); var rows := Retain(Rows(t.messages, c), t.keep);
      && u == t.(messages := u.messages, votes := WithStored(t.votes, c, rows),
                 readers := WithStored(t.readers, c, rows))
      && Elsewhere(t.messages, u.messages, c)
  {
    hide Retain;
  }

  lemma AbreastStore(u: Tables, s: Tables, h: HistoryChat, m: Message)
    requires Abreast(u, s, h.jid)
    ensures Abreast(StoreOrComplete(u, h, m), StoreOrComplete(s, h, m), h.jid)
  {
    hide Abreast, InsertMessage, Complete, Stores;
    AbreastInsert(u, s, h.jid, HistoryInsert(h, m));
    AbreastComplete(InsertMessage(u, h.jid, HistoryInsert(h, m)), InsertMessage(s, h.jid, HistoryInsert(h, m)),
                    h.jid, m);
  }

  lemma AbreastMessage(u: Tables, s: Tables, h: HistoryChat, m: Message)
    requires Abreast(u, s, h.jid)
    ensures Abreast(HistoryMessage(u, h, m).0, HistoryMessage(s, h, m).0, h.jid)
  {
    hide Abreast, UpdateContactName, StoreOrComplete, HistoryMessage;
    AbreastName(u, s, h.jid, m.sender, m.senderName);
    AbreastStore(LearnName(u, m), LearnName(s, m), h, m);
    HistoryIsStore(u, h, m);
    HistoryIsStore(s, h, m);
  }

  lemma {:induction false} AbreastReplays(t: Tables, h: HistoryChat, ms: seq<Message>)
    requires Replayable(t, h.jid)
    ensures Abreast(HistoryMessages(InsertChat(t, h), h, ms).0, Replayed(t, h, ms), h.jid)
  {
    if ms != [] {
      hide Abreast, HistoryMessage, SequentialMessage, InsertChat, Trickled, SameShape, NoOrphans;
      var n := |ms| - 1;
      var u, s := HistoryMessages(InsertChat(t, h), h, ms[..n]).0, Replayed(t, h, ms[..n]);
      AbreastReplays(t, h, ms[..n]);
      TrickledShape(t, h, ms[..n]);
      SequentialIsPruned(s, h, ms[n]);
      AbreastMessage(u, s, h, ms[n]);
      AbreastPruned(HistoryMessage(u, h, ms[n]).0, HistoryMessage(s, h, ms[n]).0, h.jid);
    }
  }

  // --------------------------------------------------- the preview

  datatype Preview = Preview(text: string, timestamp: int)

  function PreviewOf(chat: Option<Chat>): Option<Preview> {
    if chat.None? then None else Some(Preview(chat.value.lastMessage, chat.value.lastTimestamp))
  }

  function Shown(p: Option<Preview>, m: Message): Preview {
    if p.None? then Preview(m.text, m.timestamp)
    else Preview(if m.timestamp >= p.value.timestamp then m.text else p.value.text, Max(p.value.timestamp, m.timestamp))
  }

  predicate CarriesGif(m: Message) {
    m.media.Some? && IsGif(m.media.value)
  }

  /** A GIF relabels the preview if it is the newest message. */
  function Labelled(p: Option<Preview>, rows: seq<Row>, m: Message): Option<Preview> {
    var top := Newest(rows, false);
    if CarriesGif(m) && p.Some? && p.value.text == "[Video]" && top.Some? && top.value.id == m.id
    then Some(p.value.(text := "[GIF]")) else p
  }

  function PreviewStep(p: Option<Preview>, rows: seq<Row>, m: Message, suppressed: bool): Option<Preview> {
    if suppressed then Labelled(p, rows, m)
    else if HasKey(rows, m.sender, m.id) then Labelled(Some(Shown(p, m)), rows, m)
    else Some(Shown(p, m))
  }

  /** The chat's preview after the batch, or after the pruned replay, read off the call's
      arguments and the tables before it. */
  function PreviewAfter(t: Tables, h: HistoryChat, ms: seq<Message>, pruned: bool): Option<Preview> {
    if ms == [] then PreviewOf(Get(InsertChat(t, h).chats, h.jid))
    else
      var front, m := ms[..|ms| - 1], ms[|ms| - 1];
      var rows := if pruned then Trickled(t, h.jid, front) else Offered(t, h.jid, front);
      PreviewStep(PreviewAfter(t, h, front, pruned), rows, m, Suppressed(t, h.jid, m))
  }

  lemma {:induction false} NewestShape(a: seq<Row>, b: seq<Row>)
    requires SameShape(a, b)
    ensures Newest(a, false).Some? <==> Newest(b, false).Some?
    ensures Newest(a, false).Some? ==> SameMessage(Newest(a, false).value, Newest(b, false).value)
  {
    if a != [] { NewestShape(a[..|a| - 1], b[..|b| - 1]); }
  }

  lemma StepShape(p: Option<Preview>, a: seq<Row>, b: seq<Row>, m: Message, suppressed: bool)
    requires SameShape(a, b)
    ensures PreviewStep(p, a, m, suppressed) == PreviewStep(p, b, m, suppressed)
  {
    hide SameShape, HasKey, Newest;
    NewestShape(a, b);
    ShapeKeeps(a, b, m);
  }

  lemma LearnPreview(t: Tables, c: Jid, m: Message)
    ensures PreviewOf(Get(LearnName(t, m).chats, c)) == PreviewOf(Get(t.chats, c))
  {
  }

  lemma InsertPreview(t: Tables, c: Jid, ins: Insert)
    requires IsReplay(ins)
    ensures PreviewOf(Get(InsertMessage(t, c, ins).chats, c))
         == if Suppressed(t, c, ins.message) then PreviewOf(Get(t.chats, c))
            else Some(Shown(PreviewOf(Get(t.chats, c)), ins.message))
  {
    hide Suppressed, NewRow;
    InsertMoves(t, c, ins);
    if Suppressed(t, c, ins.message) { IgnoredInsert(t, c, ins); }
  }

  lemma CompletePreview(t: Tables, c: Jid, m: Message)
    ensures PreviewOf(Get(Complete(t, c, m).chats, c)) == Labelled(PreviewOf(Get(t.chats, c)), Rows(t.messages, c), m)
  {
    hide FinalMedia, Newest;
    if m.media.Some? {
      hide SameShape;
      MediaShape(t, c, m.id, m.media.value);
      NewestShape(Rows(UpdateMedia(t, c, m.id, m.media.value).messages, c), Rows(t.messages, c));
    }
  }

  lemma StorePreview(t: Tables, h: HistoryChat, m: Message)
    ensures PreviewOf(Get(StoreOrComplete(t, h, m).chats, h.jid))
         == PreviewStep(PreviewOf(Get(t.chats, h.jid)), Rows(t.messages, h.jid), m, Suppressed(t, h.jid, m))
  {
    var ins := HistoryInsert(h, m);
    hide InsertMessage, Complete, Labelled, Shown, PreviewOf, Suppressed, HasKey;
    InsertPreview(t, h.jid, ins);
    InsertShape(t, h.jid, ins);
    CompletePreview(InsertMessage(t, h.jid, ins), h.jid, m);
  }

  lemma MessagePreview(t: Tables, h: HistoryChat, m: Message)
    ensures PreviewOf(Get(HistoryMessage(t, h, m).0.chats, h.jid))
         == PreviewStep(PreviewOf(Get(t.chats, h.jid)), Rows(t.messages, h.jid), m, Suppressed(t, h.jid, m))
  {
    hide LearnName, StoreOrComplete, PreviewOf, PreviewStep, HistoryMessage, SameShape;
    HistoryIsStore(t, h, m);
    StorePreview(LearnName(t, m), h, m);
    LearnPreview(t, h.jid, m);
    LearnShape(t, h.jid, m);
    LearnSettings(t, m);
    StepShape(PreviewOf(Get(t.chats, h.jid)), Rows(LearnName(t, m).messages, h.jid), Rows(t.messages, h.jid), m,
              Suppressed(t, h.jid, m));
  }

  /** Both previews are what the arguments tell. */
  lemma {:induction false} PreviewsTold(t: Tables, h: HistoryChat, ms: seq<Message>)
    requires Replayable(t, h.jid)
    ensures PreviewOf(Get(HistoryMessages(InsertChat(t, h), h, ms).0.chats, h.jid)) == PreviewAfter(t, h, ms, false)
    ensures PreviewOf(Get(Replayed(t, h, ms).chats, h.jid)) == PreviewAfter(t, h, ms, true)
  {
    if ms != [] {
      hide HistoryMessage, SequentialMessage, InsertChat, Offered, Trickled;
      hide SameShape, NoOrphans, PreviewOf, PreviewStep, Suppressed;
      var n := |ms| - 1;
      var front, m := ms[..n], ms[n];
      var u, s := HistoryMessages(InsertChat(t, h), h, front).0, Replayed(t, h, front);
      PreviewsTold(t, h, front);
      OfferedShape(t, h, front);
      TrickledShape(t, h, front);
      SequentialIsPruned(s, h, m);
      MessagePreview(u, h, m);
      MessagePreview(s, h, m);
      SuppressedBySettings(t, u, h.jid, m);
      SuppressedBySettings(t, s, h.jid, m);
      StepShape(PreviewAfter(t, h, front, false), Offered(t, h.jid, front), Rows(u.messages, h.jid), m,
                Suppressed(t, h.jid, m));
      StepShape(PreviewAfter(t, h, front, true), Trickled(t, h.jid, front), Rows(s.messages, h.jid), m,
                Suppressed(t, h.jid, m));
    }
  }

  lemma SuppressedBySettings(t: Tables, u: Tables, c: Jid, m: Message)
    requires u.settings == t.settings && u.tombstones == t.tombstones
    ensures Suppressed(u, c, m) == Suppressed(t, c, m)
  {
  }

  // --------------------------------------------------- the one call

  /** The newest of what is offered are what stays when every message is pruned for. */
  predicate SameKept(t: Tables, c: Jid, ms: seq<Message>) {
    SameShape(Retain(Offered(t, c, ms), t.keep), Trickled(t, c, ms))
  }

  predicate SamePreview(t: Tables, h: HistoryChat, ms: seq<Message>) {
    PreviewAfter(t, h, ms, false) == PreviewAfter(t, h, ms, true)
  }

  /** Whatever the messages are, one call leaves the changed flag, the contacts, the settings,
      the tombstones, the queues, every other chat and all of the chat's own row but its preview text
      as the message-by-message replay does; and the chat list agrees if and only if the
      previews do. */
  lemma CallAgrees(t: Tables, h: HistoryChat, ms: seq<Message>)
    requires Replayable(t, h.jid)
    ensures Batch(t, h, ms).1 == Sequential(t, h, ms).1
    ensures Abreast(Batch(t, h, ms).0, Sequential(t, h, ms).0, h.jid)
    ensures Batch(t, h, ms).0.chats == Sequential(t, h, ms).0.chats <==> SamePreview(t, h, ms)
  {
    hide Abreast, HistoryMessages, SequentialMessages, InsertChat, PreviewAfter, Prune;
    var u, s := HistoryMessages(InsertChat(t, h), h, ms).0, Replayed(t, h, ms);
    FlagsAgree(t, h, ms);
    AbreastReplays(t, h, ms);
    PreviewsTold(t, h, ms);
    AbreastBoth(u, s, h.jid);
    PruneMoves(u, h.jid);
    ChatsAgreeIff(Prune(u, h.jid), s, h.jid);
  }

  lemma AbreastBoth(u: Tables, s: Tables, c: Jid)
    requires Abreast(u, s, c)
    ensures Abreast(Prune(u, c), s, c)
  {
    PruneMoves(u, c);
    hide Elsewhere, FiledElsewhere, Prune, WithStored;
    ElsewhereSelf(s.messages, c);
    StillElsewhere(u.messages, s.messages, Prune(u, c).messages, s.messages, c);
    StillFiled(u.votes, s.votes, c, Retain(Rows(u.messages, c), u.keep));
    StillFiled(u.readers, s.readers, c, Retain(Rows(u.messages, c), u.keep));
  }

  lemma ChatsAgreeIff(u: Tables, s: Tables, c: Jid)
    requires Abreast(u, s, c)
    ensures u.chats == s.chats <==> PreviewOf(Get(u.chats, c)) == PreviewOf(Get(s.chats, c))
  {
    if PreviewOf(Get(u.chats, c)) == PreviewOf(Get(s.chats, c)) {
      forall d ensures Get(u.chats, d) == Get(s.chats, d) {}
      SameTable(u.chats, s.chats);
    }
  }

  lemma SameTable<V>(a: map<Jid, V>, b: map<Jid, V>)
    requires forall d :: Get(a, d) == Get(b, d)
    ensures a == b
  {
    forall d ensures d in a <==> d in b { assert Get(a, d) == Get(b, d); }
    forall d | d in a ensures a[d] == b[d] { assert Get(a, d) == Get(b, d); }
  }

  /** Rows that agree bring their votes and readers with them. */
  lemma TiedFiles(u: Tables, s: Tables, c: Jid)
    requires Tied(u, s, c) && Abreast(u, s, c) && Retain(Rows(u.messages, c), u.keep) == Rows(s.messages, c)
    ensures Prune(u, c).votes == s.votes && Prune(u, c).readers == s.readers && Prune(u, c).messages == s.messages
  {
    hide Outlived, InOrder, UniqueKeys, Elsewhere, FiledElsewhere, Follows, WithStored;
    var ss := Rows(s.messages, c);
    forall id | HasId(ss, id) ensures SameEntry(u.votes, s.votes, (c, id)) && SameEntry(u.readers, s.readers, (c, id)) {
      FilesTied(u, s, c, id);
    }
    StoredAlike(u.votes, s.votes, c, ss);
    StoredAlike(u.readers, s.readers, c, ss);
    SameMessages(u, s, c);
  }

  lemma StoredAlike<V>(a: map<(Jid, Id), V>, b: map<(Jid, Id), V>, c: Jid, rows: seq<Row>)
    requires FiledElsewhere(a, b, c) && (forall p :: p in b && p.0 == c ==> HasId(rows, p.1))
    requires forall id :: HasId(rows, id) ==> SameEntry(a, b, (c, id))
    ensures WithStored(a, c, rows) == b
  {
    hide HasId;
    forall p: (Jid, Id) ensures SameEntry(WithStored(a, c, rows), b, p) {
      if p.0 == c {
        assert p == (c, p.1);
        if HasId(rows, p.1) { assert SameEntry(a, b, (c, p.1)); }
      } else {
        assert SameEntry(a, b, p);
      }
    }
    SameFiled(WithStored(a, c, rows), b);
  }

  lemma SameFiled<V>(a: map<(Jid, Id), V>, b: map<(Jid, Id), V>)
    requires forall p: (Jid, Id) :: SameEntry(a, b, p)
    ensures a == b
  {
    forall p ensures p in a <==> p in b { assert SameEntry(a, b, p); }
    forall p | p in a ensures a[p] == b[p] { assert SameEntry(a, b, p); }
  }

  lemma SameMessages(u: Tables, s: Tables, c: Jid)
    requires Elsewhere(u.messages, s.messages, c) && NoOrphans(s, c)
    requires Retain(Rows(u.messages, c), u.keep) == Rows(s.messages, c)
    ensures Prune(u, c).messages == s.messages
  {
    PruneMoves(u, c);
    var v := Prune(u, c);
    hide Retain;
    forall d ensures Get(v.messages, d) == Get(s.messages, d) {
      if d != c { assert Get(u.messages, d) == Get(s.messages, d) && Get(u.messages, d) == Get(v.messages, d); }
    }
    SameTable(v.messages, s.messages);
  }

  lemma FilesTied(u: Tables, s: Tables, c: Jid, id: Id)
    requires Tied(u, s, c) && Retain(Rows(u.messages, c), u.keep) == Rows(s.messages, c)
    requires HasId(Rows(s.messages, c), id)
    ensures SameFiles(FilesOf(u), FilesOf(s), c, id)
  {
    hide Outlived, InOrder, Follows;
    var us, ss := Rows(u.messages, c), Rows(s.messages, c);
    var k :| 0 <= k < |ss| && ss[k].id == id;
    assert ss[k] in Retain(us, u.keep) && ss[k] in us;
    var j :| 0 <= j < |us| && us[j] == ss[k];
    HeldIsSame(us, ss, j, k, c, FilesOf(u), FilesOf(s));
  }

  /** Two replays, tied and abreast, end in the same tables if their rows and previews do. */
  lemma TiedEqual(u: Tables, s: Tables, c: Jid)
    requires Tied(u, s, c) && Abreast(u, s, c)
    requires SameShape(Retain(Rows(u.messages, c), u.keep), Rows(s.messages, c))
    requires PreviewOf(Get(u.chats, c)) == PreviewOf(Get(s.chats, c))
    ensures Prune(u, c) == s
  {
    TiedSame(u, s, c);
    TiedFiles(u, s, c);
    PruneMoves(u, c);
    ChatsAgreeIff(u, s, c);
  }

  /** With every id undivided: the messages of the one call, and the votes and reader entries
      with them, are those of the message-by-message replay if and only if the same are kept;
      and all tables and the flag are if and only if the previews agree as well. */
  lemma CallIsSequentialIff(t: Tables, h: HistoryChat, ms: seq<Message>)
    requires Replayable(t, h.jid) && Settled(t, h.jid, ms)
    ensures Batch(t, h, ms).0.messages == Sequential(t, h, ms).0.messages <==> SameKept(t, h.jid, ms)
    ensures SameKept(t, h.jid, ms) ==>
      && Batch(t, h, ms).0.votes == Sequential(t, h, ms).0.votes
      && Batch(t, h, ms).0.readers == Sequential(t, h, ms).0.readers
    ensures Batch(t, h, ms) == Sequential(t, h, ms) <==> SameKept(t, h.jid, ms) && SamePreview(t, h, ms)
  {
    hide Tied, Abreast, HistoryMessages, SequentialMessages, InsertChat, Offered, Trickled;
    hide SamePreview, SameShape, Settled, Prune;
    var u, s := HistoryMessages(InsertChat(t, h), h, ms).0, Replayed(t, h, ms);
    assert ms[..|ms|] == ms;
    CallAgrees(t, h, ms);
    ReplaysTied(t, h, ms);
    AbreastReplays(t, h, ms);
    PreviewsTold(t, h, ms);
    KeptIsTold(t, h, ms);
    PrunedRows(u, h.jid);
    if SameKept(t, h.jid, ms) {
      TiedSame(u, s, h.jid);
      TiedFiles(u, s, h.jid);
      if SamePreview(t, h, ms) { PreviewTold(t, h, ms); TiedEqual(u, s, h.jid); }
    } else if Prune(u, h.jid).messages == s.messages {
      ShapeSelf(Rows(s.messages, h.jid));
    }
  }

  lemma PreviewTold(t: Tables, h: HistoryChat, ms: seq<Message>)
    requires Replayable(t, h.jid) && SamePreview(t, h, ms)
    ensures PreviewOf(Get(HistoryMessages(InsertChat(t, h), h, ms).0.chats, h.jid))
      == PreviewOf(Get(Replayed(t, h, ms).chats, h.jid))
  {
    hide PreviewAfter;
    PreviewsTold(t, h, ms);
  }

  lemma ShapeSelf(rows: seq<Row>)
    ensures SameShape(rows, rows)
  {
  }

  /** What is kept, told by the arguments. */
  lemma KeptIsTold(t: Tables, h: HistoryChat, ms: seq<Message>)
    requires Replayable(t, h.jid)
    ensures var u := HistoryMessages(InsertChat(t, h), h, ms).0;
      && u.keep == t.keep
      && (SameKept(t, h.jid, ms) <==>
          SameShape(Retain(Rows(u.messages, h.jid), u.keep), Rows(Replayed(t, h, ms).messages, h.jid)))
  {
    hide HistoryMessages, SequentialMessages, InsertChat, Offered, Trickled;
    var u, s := HistoryMessages(InsertChat(t, h), h, ms).0, Replayed(t, h, ms);
    OfferedShape(t, h, ms);
    TrickledShape(t, h, ms);
    Within(t, h, ms);
    RetainShape(Offered(t, h.jid, ms), Rows(u.messages, h.jid), t.keep);
    SameShapeTwice(Retain(Offered(t, h.jid, ms), t.keep), Trickled(t, h.jid, ms),
                   Retain(Rows(u.messages, h.jid), t.keep), Rows(s.messages, h.jid));
  }

  /** Without a GIF among the messages the previews agree, and so the chat list. */
  lemma {:induction false} NoGifSamePreview(t: Tables, h: HistoryChat, ms: seq<Message>)
    requires forall i :: 0 <= i < |ms| ==> !CarriesGif(ms[i])
    ensures SamePreview(t, h, ms)
  {
    if ms != [] { NoGifSamePreview(t, h, ms[..|ms| - 1]); }
  }

  // --------------------------------------------------- while no copy returns

  ghost predicate AgreeAt(t: Tables, h: HistoryChat, ms: seq<Message>, n: nat)
    requires n <= |ms|
  {
    Batch(t, h, ms[..n]) == Sequential(t, h, ms[..n])
  }

  /** The rows a message leaves of those there are, pruned or not. */
  function Taking(rows: seq<Row>, m: Message, suppressed: bool): seq<Row> {
    if suppressed || HasKey(rows, m.sender, m.id) then rows else rows + [Bare(m)]
  }

  lemma RetainStep(rows: seq<Row>, keep: nat, m: Message, suppressed: bool)
    requires keep > 0 && (suppressed || !Returns(rows, keep, m))
    ensures Retain(Taking(Retain(rows, keep), m, suppressed), keep) == Retain(Taking(rows, m, suppressed), keep)
  {
    var kept := Retain(rows, keep);
    KeySurvives(rows, keep, m.sender, m.id);
    if !suppressed && !HasKey(kept, m.sender, m.id) {
      if HasKey(rows, m.sender, m.id) {
        RetainOldest(kept, Bare(m), keep);
      } else {
        RetainAppend(rows, Bare(m), keep);
      }
    }
  }

  lemma TrickledTakes(t: Tables, c: Jid, ms: seq<Message>)
    requires ms != [] && |Trickled(t, c, ms[..|ms| - 1])| <= t.keep
    ensures var m := ms[|ms| - 1];
      && Trickled(t, c, ms) == Retain(Taking(Trickled(t, c, ms[..|ms| - 1]), m, Suppressed(t, c, m)), t.keep)
      && Offered(t, c, ms) == Taking(Offered(t, c, ms[..|ms| - 1]), m, Suppressed(t, c, m))
  {
  }

  predicate NoneReturns(t: Tables, c: Jid, ms: seq<Message>) {
    forall n :: 0 <= n < |ms| ==> !CopyReturns(t, c, ms, n)
  }

  lemma NoneReturnsFront(t: Tables, c: Jid, ms: seq<Message>, k: nat)
    requires NoneReturns(t, c, ms) && k <= |ms|
    ensures NoneReturns(t, c, ms[..k])
  {
    forall n | 0 <= n < k ensures !CopyReturns(t, c, ms[..k], n) {
      assert ms[..k][..n] == ms[..n];
      assert !CopyReturns(t, c, ms, n);
    }
  }

  lemma {:induction false} TrickledIsRetained(t: Tables, c: Jid, ms: seq<Message>)
    requires t.keep > 0 && |Rows(t.messages, c)| <= t.keep && NoneReturns(t, c, ms)
    ensures Trickled(t, c, ms) == Retain(Offered(t, c, ms), t.keep)
  {
    if ms != [] {
      hide Returns, Taking, Offered, Trickled;
      var n := |ms| - 1;
      NoneReturnsFront(t, c, ms, n);
      TrickledIsRetained(t, c, ms[..n]);
      assert !CopyReturns(t, c, ms, n);
      TrickledTakes(t, c, ms);
      RetainStep(Offered(t, c, ms[..n]), t.keep, ms[n], Suppressed(t, c, ms[n]));
    }
  }

  /** A message no copy of which returns is shown and labelled alike. */
  lemma RetainedPreview(p: Option<Preview>, rows: seq<Row>, keep: nat, m: Message, suppressed: bool)
    requires keep > 0 && (m.media.Some? ==> !Parted(rows, Retain(rows, keep), m.id))
    ensures PreviewStep(p, rows, m, suppressed) == PreviewStep(p, Retain(rows, keep), m, suppressed)
  {
    hide Parted;
    var kept := Retain(rows, keep);
    NewestRetained(rows, keep);
    KeySurvives(rows, keep, m.sender, m.id);
    if m.media.Some? && HasKey(rows, m.sender, m.id) && !HasKey(kept, m.sender, m.id) {
      var top := Newest(rows, false);
      if top.Some? && top.value.id == m.id { PartedByTop(rows, kept, m, top.value); }
    }
  }

  lemma PartedByTop(rows: seq<Row>, kept: seq<Row>, m: Message, r: Row)
    requires r in rows && r in kept && r.id == m.id && HasKey(rows, m.sender, m.id) && !HasKey(kept, m.sender, m.id)
    ensures Parted(rows, kept, m.id)
  {
    OwnIsLost(rows, kept, m);
    HasBoth(rows, kept, r);
  }

  lemma {:induction false} PreviewsStay(t: Tables, h: HistoryChat, ms: seq<Message>)
    requires Replayable(t, h.jid) && Settled(t, h.jid, ms) && NoneReturns(t, h.jid, ms)
    ensures SamePreview(t, h, ms)
  {
    if ms != [] {
      hide Offered, Trickled, Parted, NoneReturns, Settled, PreviewStep;
      var n := |ms| - 1;
      NoneReturnsFront(t, h.jid, ms, n);
      SettledFront(t, h.jid, ms);
      PreviewsStay(t, h, ms[..n]);
      TrickledIsRetained(t, h.jid, ms[..n]);
      RetainedPreview(PreviewAfter(t, h, ms[..n], false), Offered(t, h.jid, ms[..n]), t.keep, ms[n],
                      Suppressed(t, h.jid, ms[n]));
    }
  }

  /** The batched replay refines the message-by-message one, tables and flag, while no
      copy returns. */
  lemma BatchIsSequential(t: Tables, h: HistoryChat, ms: seq<Message>)
    requires Replayable(t, h.jid) && Settled(t, h.jid, ms)
    requires forall n :: 0 <= n < |ms| ==> !CopyReturns(t, h.jid, ms, n)
    ensures Batch(t, h, ms) == Sequential(t, h, ms)
  {
    hide Offered, Trickled, SamePreview, Batch, Sequential;
    TrickledIsRetained(t, h.jid, ms);
    ShapeSelf(Trickled(t, h.jid, ms));
    PreviewsStay(t, h, ms);
    CallIsSequentialIff(t, h, ms);
  }

  /** They agree on every prefix of a conversation exactly when no copy returns. */
  lemma BatchIsSequentialIff(t: Tables, h: HistoryChat, ms: seq<Message>)
    requires Replayable(t, h.jid) && Settled(t, h.jid, ms)
    ensures (forall n :: 0 <= n <= |ms| ==> AgreeAt(t, h, ms, n)) <==>
      (forall n :: 0 <= n < |ms| ==> !CopyReturns(t, h.jid, ms, n))
  {
    hide AgreeAt, CopyReturns, Settled, Replayable;
    if forall n :: 0 <= n < |ms| ==> !CopyReturns(t, h.jid, ms, n) {
      forall n | 0 <= n <= |ms| ensures AgreeAt(t, h, ms, n) { PrefixAgrees(t, h, ms, n); }
    } else {
      var n :| 0 <= n < |ms| && CopyReturns(t, h.jid, ms, n);
      PrefixSettled(t, h.jid, ms, n);
      PrefixSettled(t, h.jid, ms, n + 1);
      if AgreeAt(t, h, ms, n) { ReturnDiverges(t, h, ms, n); }
    }
  }

  lemma PrefixSettled(t: Tables, c: Jid, ms: seq<Message>, k: nat)
    requires Settled(t, c, ms) && k <= |ms|
    ensures Settled(t, c, ms[..k])
  {
    forall i | 0 <= i < k ensures SettledAt(t, c, ms[..k], i) {
      assert ms[..k][..i] == ms[..i];
      assert SettledAt(t, c, ms, i);
    }
  }

  lemma PrefixAgrees(t: Tables, h: HistoryChat, ms: seq<Message>, n: nat)
    requires Replayable(t, h.jid) && Settled(t, h.jid, ms) && n <= |ms| && NoneReturns(t, h.jid, ms)
    ensures AgreeAt(t, h, ms, n)
  {
    PrefixSettled(t, h.jid, ms, n);
    NoneReturnsFront(t, h.jid, ms, n);
    BatchIsSequential(t, h, ms[..n]);
  }

  /** The copy that returns is kept by the one replay only. */
  lemma ReturnDiverges(t: Tables, h: HistoryChat, ms: seq<Message>, n: nat)
    requires Replayable(t, h.jid) && n < |ms| && Settled(t, h.jid, ms[..n]) && Settled(t, h.jid, ms[..n + 1])
    requires CopyReturns(t, h.jid, ms, n) && AgreeAt(t, h, ms, n)
    ensures !AgreeAt(t, h, ms, n + 1)
  {
    hide Settled, SamePreview, Batch, Sequential, Replayable;
    var c, m := h.jid, ms[n];
    CallIsSequentialIff(t, h, ms[..n]);
    CallIsSequentialIff(t, h, ms[..n + 1]);
    assert ms[..n + 1][..n] == ms[..n] && ms[..n + 1][n] == m;
    ReplayableParts(t, c);
    ReturnedIsKept(Offered(t, c, ms[..n]), Trickled(t, c, ms[..n]), t.keep, m);
  }

  lemma ReturnedIsKept(us: seq<Row>, ss: seq<Row>, keep: nat, m: Message)
    requires Returns(us, keep, m) && SameShape(Retain(us, keep), ss)
    ensures !HasKey(ss, m.sender, m.id) && !SameShape(Retain(us, keep), Retain(ss + [Bare(m)], keep))
  {
    ShapeKeeps(Retain(us, keep), ss, m);
    NewerIsKept(ss, Bare(m), keep);
    if SameShape(Retain(us, keep), Retain(ss + [Bare(m)], keep)) {
      ShapeKeeps(Retain(us, keep), Retain(ss + [Bare(m)], keep), m);
    }
  }

  /** `Prune` absorbs an earlier `Prune` across one replayed message. */
  lemma HistoryMessagePrunes(t: Tables, h: HistoryChat, m: Message)
    requires t.keep > 0 && UniqueKeys(Rows(t.messages, h.jid)) && NoOrphans(t, h.jid)
    requires Settles(t, Prune(t, h.jid), h.jid, m) && !Resurfaces(t, h.jid, m)
    ensures Prune(HistoryMessage(Prune(t, h.jid), h, m).0, h.jid) == Prune(HistoryMessage(t, h, m).0, h.jid)
  {
    hide Tied, Abreast, HistoryMessage, SequentialMessage, Settles, Resurfaces, Prune, SameShape, PreviewOf;
    var c, s := h.jid, Prune(t, h.jid);
    PrunedIsTied(t, c);
    PrunedRows(t, c);
    PruneKeepsNoOrphans(t, c);
    MessageTied(t, s, h, m);
    SequentialIsPruned(s, h, m);
    AbreastSelf(t, c);
    AbreastPruned(t, t, c);
    AbreastMessage(t, s, h, m);
    AbreastPruned(HistoryMessage(t, h, m).0, HistoryMessage(s, h, m).0, c);
    MessageShapeEnds(t, h, m);
    MessagePreviewEnds(t, h, m);
    TiedEqual(HistoryMessage(t, h, m).0, SequentialMessage(s, h, m).0, c);
  }

  lemma AbreastSelf(t: Tables, c: Jid)
    ensures Abreast(t, t, c)
  {
  }

  lemma MessagePreviewEnds(t: Tables, h: HistoryChat, m: Message)
    requires t.keep > 0 && NoOrphans(t, h.jid) && Settles(t, Prune(t, h.jid), h.jid, m)
    ensures PreviewOf(Get(HistoryMessage(t, h, m).0.chats, h.jid))
      == PreviewOf(Get(SequentialMessage(Prune(t, h.jid), h, m).0.chats, h.jid))
  {
    var c, s, rows := h.jid, Prune(t, h.jid), Rows(t.messages, h.jid);
    PrunedRows(t, c);
    PruneKeepsNoOrphans(t, c);
    SequentialIsPruned(s, h, m);
    hide HistoryMessage, SequentialMessage, PreviewOf, PreviewStep, Parted, NoOrphans;
    MessagePreview(t, h, m);
    MessagePreview(s, h, m);
    RetainedPreview(PreviewOf(Get(t.chats, c)), rows, t.keep, m, Suppressed(t, c, m));
  }

  lemma MessageShapeEnds(t: Tables, h: HistoryChat, m: Message)
    requires t.keep > 0 && NoOrphans(t, h.jid) && !Resurfaces(t, h.jid, m)
    ensures var u, v := HistoryMessage(t, h, m).0, SequentialMessage(Prune(t, h.jid), h, m).0;
      SameShape(Retain(Rows(u.messages, h.jid), u.keep), Rows(v.messages, h.jid))
  {
    var c, s, rows := h.jid, Prune(t, h.jid), Rows(t.messages, h.jid);
    PrunedRows(t, c);
    PruneKeepsNoOrphans(t, c);
    hide HistoryMessage, SequentialMessage, Prune, SameShape, Returns, NoOrphans;
    var u, v := HistoryMessage(t, h, m).0, SequentialMessage(s, h, m).0;
    ShapeSelf(rows);
    ShapeSelf(Retain(rows, t.keep));
    OfferedStep(t, t, rows, h, m);
    HistoryMessageShape(t, h, m);
    TrickledStep(s, h, m, Retain(rows, t.keep));
    RetainStep(rows, t.keep, m, Suppressed(t, c, m));
    RetainShape(Taking(rows, m, Suppressed(t, c, m)), Rows(u.messages, c), t.keep);
    ShapeSwap(Retain(Taking(rows, m, Suppressed(t, c, m)), t.keep), Retain(Rows(u.messages, c), t.keep),
              Rows(v.messages, c));
  }

  lemma ShapeSwap(a: seq<Row>, x: seq<Row>, y: seq<Row>)
    requires SameShape(a, x) && SameShape(a, y)
    ensures SameShape(x, y)
  {
  }

  // --------------------------------------------------- replays that always agree

  /** Within the bound the two agree, whatever the senders, copies and media. */
  lemma BatchWithinBound(t: Tables, h: HistoryChat, ms: seq<Message>)
    requires Replayable(t, h.jid) && (|Rows(t.messages, h.jid)| + |ms| <= t.keep || |Offered(t, h.jid, ms)| <= t.keep)
    ensures Batch(t, h, ms) == Sequential(t, h, ms)
  {
    hide HistoryMessages, SequentialMessages, InsertChat, Offered, Replayable;
    OfferedSize(t, h.jid, ms);
    WithinSame(t, h, ms);
    Within(t, h, ms);
    PruneIdle(HistoryMessages(InsertChat(t, h), h, ms).0, h.jid);
  }

  /** Message n is no newer than any row it is a copy of. */
  predicate SteadyAt(t: Tables, c: Jid, ms: seq<Message>, n: nat)
    requires n < |ms|
  {
    var rows := Offered(t, c, ms[..n]);
    forall i :: 0 <= i < |rows| && rows[i].sender == ms[n].sender && rows[i].id == ms[n].id ==>
      ms[n].timestamp <= rows[i].timestamp
  }

  /** A replay whose copies never turn newer is the sequential one. */
  lemma SteadyBatchIsSequential(t: Tables, h: HistoryChat, ms: seq<Message>)
    requires Replayable(t, h.jid) && Settled(t, h.jid, ms)
    requires forall n :: 0 <= n < |ms| ==> SteadyAt(t, h.jid, ms, n)
    ensures Batch(t, h, ms) == Sequential(t, h, ms)
  {
    forall n | 0 <= n < |ms| ensures !CopyReturns(t, h.jid, ms, n) {
      assert SteadyAt(t, h.jid, ms, n);
      SteadyStays(Offered(t, h.jid, ms[..n]), t.keep, ms[n]);
    }
    BatchIsSequential(t, h, ms);
  }

  lemma SteadyStays(rows: seq<Row>, keep: nat, m: Message)
    requires forall i :: 0 <= i < |rows| && rows[i].sender == m.sender && rows[i].id == m.id ==>
      m.timestamp <= rows[i].timestamp
    ensures !Returns(rows, keep, m)
  {
    var kept := Retain(rows, keep);
    if HasKey(rows, m.sender, m.id) && !HasKey(kept, m.sender, m.id) {
      var g :| 0 <= g < |rows| && rows[g].sender == m.sender && rows[g].id == m.id;
      forall i | 0 <= i < |kept| ensures m.timestamp <= kept[i].timestamp {
        EvictedIsOlder(rows, keep, kept[i], rows[g]);
      }
    }
  }

  /** With one sender to each id, stored or replayed, no id is ever divided. */
  lemma {:induction false} OneSenderSettles(t: Tables, c: Jid, ms: seq<Message>, owner: Id -> Jid)
    requires UniqueKeys(Rows(t.messages, c))
    requires forall i :: 0 <= i < |Rows(t.messages, c)| ==>
      Rows(t.messages, c)[i].sender == owner(Rows(t.messages, c)[i].id)
    requires forall i :: 0 <= i < |ms| ==> ms[i].sender == owner(ms[i].id)
    ensures Settled(t, c, ms) && UniqueKeys(Offered(t, c, ms))
    ensures forall i :: 0 <= i < |Offered(t, c, ms)| ==> Offered(t, c, ms)[i].sender == owner(Offered(t, c, ms)[i].id)
  {
    if ms != [] {
      hide Divided;
      var front := ms[..|ms| - 1];
      OneSenderSettles(t, c, front, owner);
      OneSenderWhole(Offered(t, c, front), Trickled(t, c, front), ms[|ms| - 1], Suppressed(t, c, ms[|ms| - 1]));
      forall n | 0 <= n < |ms| ensures SettledAt(t, c, ms, n) {
        if n < |front| {
          assert front[..n] == ms[..n];
          assert SettledAt(t, c, front, n);
        } else {
          assert ms[..n] == front;
        }
      }
    }
  }

  lemma OneSenderWhole(us: seq<Row>, ss: seq<Row>, m: Message, suppressed: bool)
    requires UniqueKeys(us) && OneSender(us, m)
    ensures !Divided(us, ss, m, suppressed)
  {
    hide Held;
    if Lost(us, ss, m.id) {
      var i :| 0 <= i < |us| && us[i].id == m.id && !Held(ss, us[i]);
      assert us[i].sender == m.sender;
    }
  }
}
