/** The history database itself: its tables as fields, its transactions as methods. */
module Store {
  import opened Prelude
  import opened Schema
  import opened Retention
  import opened Tallies
  import opened History
  import opened ReadState
  import opened Clearing
  import Merging
  import Receipts
  import Reactions
  import Polls
  import ReadOutbox
  import Soundness
  import Runs

  // --------------------------------------------------- statements over rows

  /** One `UPDATE messages` over the rows of a chat; the flag says whether any row moved. */
  method EditEach(e: Edit, was: seq<Row>) returns (rows: seq<Row>, changed: bool)
    ensures rows == EditRows(e, was) && changed == (rows != was)
  {
    rows, changed := was, false;
    var i := 0;
    while i < |rows|
      invariant i <= |rows| == |was|
      invariant forall j :: 0 <= j < |rows| ==> rows[j] == if j < i then EditRow(e, was[j]) else was[j]
      invariant changed <==> exists j :: 0 <= j < i && rows[j] != was[j]
    {
      var row := EditRow(e, rows[i]);
      changed := changed || row != rows[i];
      rows := rows[i := row];
      i := i + 1;
    }
  }

  /** One `DELETE FROM messages`. */
  method CutEach(d: Cut, rows: seq<Row>) returns (kept: seq<Row>)
    ensures kept == CutRows(d, rows)
  {
    kept := [];
    var i := 0;
    while i < |rows|
      invariant i <= |rows| && kept == CutRows(d, rows[..i])
    {
      assert rows[..i + 1][..i] == rows[..i];
      if !Cuts(d, rows[i]) {
        kept := kept + [rows[i]];
      }
      i := i + 1;
    }
    assert rows[..i] == rows;
  }

  method FindWorst(rows: seq<Row>) returns (w: nat)
    requires rows != []
    ensures w == Worst(rows)
  {
    w := 0;
    var i := 1;
    while i < |rows|
      invariant w < i <= |rows|
      invariant forall j :: 0 <= j < i ==> rows[w].timestamp <= rows[j].timestamp
      invariant forall j :: w < j < i ==> rows[w].timestamp < rows[j].timestamp
    {
      if rows[i].timestamp <= rows[w].timestamp {
        w := i;
      }
      i := i + 1;
    }
    WorstIsUnique(rows, w);
  }

  /** Evict the worst row while there are too many. */
  method RetainNewest(rows: seq<Row>, keep: nat) returns (kept: seq<Row>)
    ensures kept == Retain(rows, keep)
  {
    kept := rows;
    while |kept| > keep
      invariant Retain(kept, keep) == Retain(rows, keep)
    {
      var w := FindWorst(kept);
      kept := kept[..w] + kept[w + 1..];
    }
  }

  /** A refreshed poll keeps the counts it had; reconciling replaces them all. */
  method CarryCounts(media: Media, previous: Media) returns (out: Media)
    requires media.Poll? && previous.Poll?
    ensures forall votes :: Tally(out, votes) == Tally(media, votes)
  {
    var options := media.options;
    var i := 0;
    while i < |options|
      invariant i <= |options| == |media.options|
      invariant forall j :: 0 <= j < |options| ==> options[j].name == media.options[j].name
    {
      var k := 0;
      while k < |previous.options| && previous.options[k].name != options[i].name
        invariant k <= |previous.options|
      {
        k := k + 1;
      }
      if k < |previous.options| {
        options := options[i := options[i].(votes := previous.options[k].votes,
                                            selectedByMe := previous.options[k].selectedByMe)];
      }
      i := i + 1;
    }
    out := media.(totalVoters := previous.totalVoters, options := options);
    forall votes ensures Tally(out, votes) == Tally(media, votes) {
      assert TalliedOptions(options, votes) == TalliedOptions(media.options, votes);
    }
  }

  /** What a media refresh keeps of the stored media before the tallies are reconciled. */
  method CarryOver(media: Media, previous: Option<Media>) returns (out: Media)
    ensures forall votes :: Tally(out, votes) == Tally(Carried(media, previous), votes)
    ensures IsGif(out) == IsGif(media)
  {
    out := media;
    if media.Location? && previous.Some? && previous.value.Location? {
      if media.thumbnail.None? {
        out := out.(thumbnail := previous.value.thumbnail);
      }
      if media.duration == 0 {
        out := out.(duration := previous.value.duration);
      }
    }
    if media.Poll? && previous.Some? && previous.value.Poll? {
      out := CarryCounts(media, previous.value);
      TallyKind(out, media);
    }
  }

  lemma TallyKind(a: Media, b: Media)
    requires Tally(a, map[]) == Tally(b, map[])
    ensures a.Video? <==> b.Video?
    ensures a.Poll? <==> b.Poll?
    ensures IsGif(a) == IsGif(b)
  {
  }

  /** One more named message never unmarks a row, so the flag can be accumulated. */
  lemma MarksOnlyAdd(was: seq<Row>, boundary: int, ids: seq<Id>, id: Id)
    ensures var before, after := MarkRows(was, boundary, ids), MarkRows(was, boundary, ids + [id]);
      && after == EditRows(ReadOne(id), before)
      && (after != was <==> before != was || after != before)
  {
    assert (ids + [id])[..|ids|] == ids;
    var before, after := MarkRows(was, boundary, ids), MarkRows(was, boundary, ids + [id]);
    MarkRowsExact(was, boundary, ids);
    MarkRowsExact(was, boundary, ids + [id]);
    if before != was {
      var i :| 0 <= i < |was| && before[i] != was[i];
      assert after[i] == before[i];
    }
  }

  lemma Overwritten<V>(m: map<Jid, V>, k: Jid, v: V, w: V)
    ensures m[k := v][k := w] == m[k := w]
  {
  }

  lemma SameRow(t: Tables, u: Tables, c: Jid, ins: Insert)
    requires t.contacts == u.contacts
    requires SettingsOf(t.settings, c).readBoundary == SettingsOf(u.settings, c).readBoundary
    requires SettingsOf(t.settings, c).boundaryIds == SettingsOf(u.settings, c).boundaryIds
    ensures NewRow(t, c, ins) == NewRow(u, c, ins)
  {
  }

  /** The stored ids, then those not among them yet. */
  method MergeIds(stored: seq<Id>, ids: seq<Id>) returns (covered: seq<Id>)
    ensures covered == MergedIds(stored, ids)
  {
    covered := stored;
    var i := 0;
    while i < |ids|
      invariant i <= |ids| && covered == MergedIds(stored, ids[..i])
    {
      assert ids[..i + 1][..i] == ids[..i];
      if ids[i] !in covered {
        covered := covered + [ids[i]];
      }
      i := i + 1;
    }
    assert ids[..i] == ids;
  }

  /** The ids the boundary does not cover yet, the newest of them within the cap. */
  method KeepExtra(rows: seq<Row>, covered: seq<Id>, boundary: int) returns (extra: seq<Id>)
    ensures extra == Capped(ExtraIds(rows, covered, boundary))
  {
    extra := [];
    var i := 0;
    while i < |covered|
      invariant i <= |covered| && extra == ExtraIds(rows, covered[..i], boundary)
    {
      assert covered[..i + 1][..i] == covered[..i];
      if Extra(rows, covered[i], boundary) {
        extra := extra + [covered[i]];
      }
      i := i + 1;
    }
    assert covered[..i] == covered;
    extra := CapIds(extra);
  }

  method CapIds(ids: seq<Id>) returns (extra: seq<Id>)
    ensures extra == Capped(ids)
  {
    extra := ids;
    if |extra| > READ_BOUNDARY_IDS_CAP {
      extra := extra[|extra| - READ_BOUNDARY_IDS_CAP..];
    }
  }

  /** Mark what the boundary covers, then each named message. */
  method MarkCovered(was: seq<Row>, boundary: int, ids: seq<Id>) returns (rows: seq<Row>, marked: bool)
    ensures rows == MarkRows(was, boundary, ids) && marked == (rows != was)
  {
    rows, marked := EditEach(ReadThrough(boundary), was);
    var i := 0;
    while i < |ids|
      invariant i <= |ids| && rows == MarkRows(was, boundary, ids[..i]) && marked == (rows != was)
    {
      assert ids[..i + 1] == ids[..i] + [ids[i]];
      MarksOnlyAdd(was, boundary, ids[..i], ids[i]);
      var moved;
      rows, moved := EditEach(ReadOne(ids[i]), rows);
      marked := marked || moved;
      i := i + 1;
    }
    assert ids[..i] == ids;
  }

  lemma ReaderMoved(was: map<(Jid, Id), map<Jid, ReaderTimes>>, e: Receipts.Receipt, reader: Jid, after: ReaderTimes,
                    changed: bool)
    requires changed <==> reader !in Inner(was, e.chat, e.id) || after != Inner(was, e.chat, e.id)[reader]
    ensures changed == (was[(e.chat, e.id) := Inner(was, e.chat, e.id)[reader := after]] != was)
  {
    var now := was[(e.chat, e.id) := Inner(was, e.chat, e.id)[reader := after]];
    var k := (e.chat, e.id);
    assert now[k][reader] == after;
    if !changed {
      assert now[k] == was[k];
    } else if k in was {
      assert reader !in was[k] || was[k][reader] != after;
    }
  }

  /** A receipt leaves a message own or not. */
  lemma OwnStays(a: seq<Row>, b: seq<Row>, e: Receipts.Receipt)
    requires b == EditRows(Receive(e.id, e.level, e.at), a)
    ensures Receipts.HasOwn(a, e.id) <==> Receipts.HasOwn(b, e.id)
  {
    if i :| 0 <= i < |a| && a[i].id == e.id && a[i].fromMe { assert b[i].id == e.id; }
  }

  ghost function Repair(t: Tables, c: Jid): seq<Row>
    requires c in t.messages
  {
    Polls.RepairRows(t, c, t.messages[c], t.messages[c])
  }

  lemma {:induction false} RepairReadsVotes(t: Tables, u: Tables, c: Jid, targets: seq<Row>, rows: seq<Row>)
    requires t.votes == u.votes
    ensures Polls.RepairRows(t, c, targets, rows) == Polls.RepairRows(u, c, targets, rows)
  {
    if targets != [] { RepairReadsVotes(t, u, c, targets[..|targets| - 1], rows); }
  }

  /** The selected options the card offers, each once. */
  method Normalize(options: seq<PollOption>, selected: seq<string>) returns (out: seq<string>)
    ensures out == Polls.Normalized(options, selected)
  {
    out := [];
    var i := 0;
    while i < |selected|
      invariant i <= |selected| && out == Polls.Normalized(options, selected[..i])
    {
      assert selected[..i + 1][..i] == selected[..i];
      if Polls.NamesOption(options, selected[i]) && selected[i] !in out {
        out := out + [selected[i]];
      }
      i := i + 1;
    }
    assert selected[..i] == selected;
  }

  /** One `DELETE` per receipt of the batch. */
  method DropReceipts(queue: seq<PendingRead>, c: Jid, receipts: seq<UnreadReceipt>) returns (left: seq<PendingRead>)
    ensures left == ReadOutbox.Remaining(queue, c, receipts)
  {
    left := queue;
    NoneDropped(queue, c);
    var i := 0;
    while i < |receipts|
      invariant i <= |receipts| && left == ReadOutbox.Remaining(queue, c, receipts[..i])
    {
      left := DropReceipt(left, c, receipts[i]);
      DropOneMore(queue, c, receipts[..i], receipts[i]);
      assert receipts[..i + 1] == receipts[..i] + [receipts[i]];
      i := i + 1;
    }
    assert receipts[..i] == receipts;
  }

  method DropReceipt(queue: seq<PendingRead>, c: Jid, r: UnreadReceipt) returns (left: seq<PendingRead>)
    ensures left == ReadOutbox.Remaining(queue, c, [r])
  {
    left := [];
    var i := 0;
    while i < |queue|
      invariant i <= |queue| && left == ReadOutbox.Remaining(queue[..i], c, [r])
    {
      assert queue[..i + 1][..i] == queue[..i];
      assert ReadOutbox.InBatch([r], queue[i].receipt.sender, queue[i].receipt.messageId) <==>
        [r][0].sender == queue[i].receipt.sender && [r][0].messageId == queue[i].receipt.messageId;
      if !(queue[i].chat == c && queue[i].receipt.sender == r.sender && queue[i].receipt.messageId == r.messageId) {
        left := left + [queue[i]];
      }
      i := i + 1;
    }
    assert queue[..i] == queue;
  }

  lemma {:induction false} NoneDropped(queue: seq<PendingRead>, c: Jid)
    ensures ReadOutbox.Remaining(queue, c, []) == queue
  {
    if queue != [] {
      NoneDropped(queue[..|queue| - 1], c);
      assert queue == queue[..|queue| - 1] + [queue[|queue| - 1]];
    }
  }

  lemma {:induction false} DropOneMore(queue: seq<PendingRead>, c: Jid, receipts: seq<UnreadReceipt>, r: UnreadReceipt)
    ensures ReadOutbox.Remaining(ReadOutbox.Remaining(queue, c, receipts), c, [r])
      == ReadOutbox.Remaining(queue, c, receipts + [r])
  {
    if queue != [] {
      var front, last := queue[..|queue| - 1], queue[|queue| - 1];
      DropOneMore(front, c, receipts, r);
      InOneMore(receipts, r, last.receipt.sender, last.receipt.messageId);
      var kept := ReadOutbox.Remaining(front, c, receipts);
      assert (kept + [last])[..|kept|] == kept;
      assert kept + [] == kept;
    }
  }

  lemma InOneMore(receipts: seq<UnreadReceipt>, r: UnreadReceipt, sender: Jid, id: Id)
    ensures ReadOutbox.InBatch(receipts + [r], sender, id) <==>
      ReadOutbox.InBatch(receipts, sender, id) || ReadOutbox.InBatch([r], sender, id)
  {
    var all := receipts + [r];
    if i :| 0 <= i < |receipts| && receipts[i].sender == sender && receipts[i].messageId == id {
      assert all[i] == receipts[i];
    }
    if [r][0].sender == sender && [r][0].messageId == id { assert all[|receipts|] == r; }
  }

  ghost predicate PartlyCounted(now: map<Jid, Chat>, was: map<Jid, Chat>, messages: map<Jid, seq<Row>>,
                                left: set<Jid>) {
    && now.Keys == was.Keys && left <= was.Keys
    && forall c :: c in now ==>
         now[c] == if c in left then was[c] else was[c].(unread := UnreadCount(Rows(messages, c)))
  }

  lemma PartlyNext(now: map<Jid, Chat>, was: map<Jid, Chat>, messages: map<Jid, seq<Row>>, left: set<Jid>, c: Jid)
    requires PartlyCounted(now, was, messages, left) && c in left
    ensures PartlyCounted(now[c := now[c].(unread := UnreadCount(Rows(messages, c)))], was, messages, left - {c})
  {
  }

  lemma AllCounted(now: map<Jid, Chat>, was: map<Jid, Chat>, messages: map<Jid, seq<Row>>)
    requires PartlyCounted(now, was, messages, {})
    ensures now == Recounted(was, messages)
  {
  }

  // --------------------------------------------------- rows of a merged contact

  method UpsertEach(k: Merging.Clause, rows: seq<Row>, xs: seq<Row>) returns (out: seq<Row>)
    ensures out == Merging.UpsertRows(k, rows, xs)
  {
    out := rows;
    var i := 0;
    while i < |xs|
      invariant i <= |xs| && out == Merging.UpsertRows(k, rows, xs[..i])
    {
      assert xs[..i + 1][..i] == xs[..i];
      if HasKey(out, xs[i].sender, xs[i].id) {
        var at := Merging.KeyIndex(out, xs[i].sender, xs[i].id);
        out := out[at := Merging.MergedRow(k, out[at], xs[i])];
      } else {
        out := out + [xs[i]];
      }
      i := i + 1;
    }
    assert xs[..i] == xs;
  }

  method TakeSender(rows: seq<Row>, from: Jid, to: Jid) returns (taken: seq<Row>)
    ensures taken == Merging.Taken(rows, from, to)
  {
    taken := [];
    var i := 0;
    while i < |rows|
      invariant i <= |rows| && taken == Merging.Taken(rows[..i], from, to)
    {
      assert rows[..i + 1][..i] == rows[..i];
      if rows[i].sender == from {
        taken := taken + [rows[i].(sender := to)];
      }
      i := i + 1;
    }
    assert rows[..i] == rows;
  }

  method MergeSender(rows: seq<Row>, from: Jid, to: Jid) returns (out: seq<Row>)
    ensures out == Merging.SenderMerged(rows, from, to)
  {
    var taken := TakeSender(rows, from, to);
    out := UpsertEach(Merging.BySender, rows, taken);
    out := CutEach(OfSender(from), out);
  }

  ghost predicate PartlyMerged(m: map<Jid, seq<Row>>, was: map<Jid, seq<Row>>, left: set<Jid>, from: Jid, to: Jid) {
    && (forall c :: Rows(m, c) == if c in left then Rows(was, c) else Merging.SenderMerged(Rows(was, c), from, to))
    && (forall c :: c in m && c !in left ==> m[c] != [])
  }

  lemma MergeNext(m: map<Jid, seq<Row>>, was: map<Jid, seq<Row>>, left: set<Jid>, c: Jid, from: Jid, to: Jid)
    requires PartlyMerged(m, was, left, from, to) && c in left
    ensures PartlyMerged(WithRows(m, c, Merging.SenderMerged(Rows(m, c), from, to)), was, left - {c}, from, to)
  {
  }

  ghost predicate SendersMerged(m: map<Jid, seq<Row>>, was: map<Jid, seq<Row>>, from: Jid, to: Jid) {
    && (forall c :: Rows(m, c) == Merging.SenderMerged(Rows(was, c), from, to))
    && (forall c :: c in m ==> m[c] != [])
  }

  lemma NobodyToMerge(from: Jid, to: Jid)
    ensures Merging.SenderMerged([], from, to) == []
  {
  }

  /** Sender and chat merged, and retention run, but the contact not yet renamed. */
  ghost predicate RowsMerged(m: map<Jid, seq<Row>>, was: map<Jid, seq<Row>>, keep: nat, from: Jid, to: Jid) {
    && (forall c :: c != from && c != to ==> Rows(m, c) == Merging.MergedRows(was, from, to, c))
    && Rows(m, to) == Retain(Merging.MergedRows(was, from, to, to), keep)
    && from !in m && (forall c :: c in m ==> m[c] != [])
  }

  function Titled(m: map<Jid, seq<Row>>, to: Jid, contact: Option<Contact>): map<Jid, seq<Row>> {
    if contact.Some? then RenameIn(m, to, contact.value.name) else m
  }

  lemma Assembled(t: Tables, merged: map<Jid, seq<Row>>, from: Jid, to: Jid)
    requires from != to && RowsMerged(merged, t.messages, t.keep, from, to)
    ensures Titled(merged, to, Merging.MergedContact(t.contacts, from, to)) == Merging.FinalMessages(t, from, to)
  {
    var m := Titled(merged, to, Merging.MergedContact(t.contacts, from, to));
    var out := Merging.FinalMessages(t, from, to);
    forall c ensures (c in m <==> c in out) && (c in m ==> m[c] == out[c]) {
      Merging.FinalMessagesRows(t, from, to, c);
      AssembledAt(t, merged, from, to, c);
    }
  }

  lemma AssembledAt(t: Tables, merged: map<Jid, seq<Row>>, from: Jid, to: Jid, c: Jid)
    requires from != to && RowsMerged(merged, t.messages, t.keep, from, to)
    ensures var m := Titled(merged, to, Merging.MergedContact(t.contacts, from, to));
      (c != from ==> Rows(m, c) == Merging.FinalRows(t, from, to, c)) && (c in m ==> m[c] != [] && c != from)
  {
  }

  lemma MigrateIs(t: Tables, u: Tables, from: Jid, to: Jid)
    requires Merging.Migrates(t, from, to)
    requires u == t.(messages := u.messages, chats := u.chats, contacts := u.contacts, settings := u.settings,
                     tombstones := u.tombstones, readers := u.readers, votes := u.votes, reactions := u.reactions)
    requires u.messages == Merging.FinalMessages(t, from, to)
    requires var contact := Merging.MergedContact(t.contacts, from, to);
      && u.chats == Merging.Moved(t.chats, from, to, Merging.TitledChat(Merging.MergedChat(t.chats, from, to), contact))
      && u.contacts == Merging.Moved(t.contacts, from, to, contact)
    requires u.settings == Merging.Moved(t.settings, from, to, Merging.MergedSettings(t.settings, from, to))
    requires u.tombstones == Merging.TombstonesMoved(t.tombstones, from, to)
    requires u.readers == Merging.ReadersMoved(Merging.PeopleMoved(t.readers, from, to), from, to)
    requires u.votes == Merging.VotesMoved(Merging.PeopleMoved(t.votes, from, to), from, to)
    requires u.reactions == Merging.ReactionChatMoved(Merging.ReactorMoved(t.reactions, from, to), from, to)
    ensures u == Merging.Migrate(t, from, to)
  {
  }

  lemma MovedIs<V>(m: map<Jid, V>, out: map<Jid, V>, from: Jid, to: Jid, value: Option<V>)
    requires from != to && from !in out && Get(out, to) == value
    requires forall k :: k != from && k != to ==> Get(out, k) == Get(m, k)
    ensures out == Merging.Moved(m, from, to, value)
  {
    var moved := Merging.Moved(m, from, to, value);
    forall k ensures (k in out <==> k in moved) && (k in out ==> out[k] == moved[k]) {
      assert Get(out, k) == Get(moved, k);
    }
  }

  class Database {
    const keep: nat
    var messages: map<Jid, seq<Row>>
    var chats: map<Jid, Chat>
    var contacts: map<Jid, Contact>
    var settings: map<Jid, Settings>
    var tombstones: set<(Jid, Id)>
    var votes: map<(Jid, Id), map<Jid, Vote>>
    var readers: map<(Jid, Id), map<Jid, ReaderTimes>>
    var reactions: map<ReactionKey, Reaction>
    var reactionTombstones: map<ReactionKey, int>
    var readChats: map<Jid, int>
    var readMessages: seq<PendingRead>

    function State(): Tables
      reads this
    {
      Tables(keep, messages, chats, contacts, settings, tombstones, votes, readers, reactions,
             reactionTombstones, readChats, readMessages)
    }

    constructor (keep: nat)
      ensures State() == Runs.Fresh(keep)
    {
      this.keep := keep;
      messages, chats, contacts, settings, tombstones := map[], map[], map[], map[], {};
      votes, readers, reactions, reactionTombstones := map[], map[], map[], map[];
      readChats, readMessages := map[], [];
    }

    method UpdateRows(c: Jid, e: Edit) returns (changed: bool)
      modifies this`messages
      ensures messages == WithRows(old(messages), c, EditRows(e, Rows(old(messages), c)))
      ensures changed == (Rows(messages, c) != Rows(old(messages), c))
    {
      var rows;
      rows, changed := EditEach(e, Rows(messages, c));
      messages := WithRows(messages, c, rows);
    }

    // --------------------------------------------------- storing messages

    method PruneChatHistory(c: Jid)
      modifies this`messages, this`votes, this`readers
      ensures State() == Prune(old(State()), c)
    {
      var rows := RetainNewest(Rows(messages, c), keep);
      messages := WithRows(messages, c, rows);
      votes := WithStored(votes, c, rows);
      readers := WithStored(readers, c, rows);
    }

    method ClearDeleted(c: Jid, at: int)
      requires c in settings ==> at > settings[c].clearedAt
      modifies this`settings
      ensures settings == old(settings)[c := SettingsOf(old(settings), c).(deleted := false)]
    {
      if c !in settings {
        settings := settings[c := DefaultSettings];
      } else if at > settings[c].clearedAt {
        settings := settings[c := settings[c].(deleted := false)];
      }
    }

    method UpsertPreview(c: Jid, ins: Insert)
      modifies this`chats
      ensures chats == old(chats)[c := PreviewedChat(Get(old(chats), c), c, ins)]
    {
      var m := ins.message;
      var name, source := Trim(ins.chatName), NAME_MESSAGE;
      if name == "" || name == c {
        name, source := "", NAME_UNKNOWN;
      } else if ins.fromHistory {
        source := NAME_HISTORY;
      }
      if c !in chats {
        chats := chats[c := Chat(name, source, None, m.text, m.timestamp, 0, ins.isGroup)];
      } else {
        var was := chats[c];
        chats := chats[c := was.(lastMessage := if m.timestamp >= was.lastTimestamp then m.text else was.lastMessage,
                                 lastTimestamp := Max(was.lastTimestamp, m.timestamp),
                                 isGroup := ins.isGroup)];
      }
    }

    /** The row `INSERT OR IGNORE` offers; whether it is unread depends on the boundary. */
    method ProposeRow(c: Jid, ins: Insert) returns (row: Row)
      ensures row == NewRow(State(), c, ins)
    {
      var m := ins.message;
      var boundary, ids := 0, [];
      if c in settings {
        boundary, ids := settings[c].readBoundary, settings[c].boundaryIds;
      }
      var unread := ins.incrementUnread && !(m.timestamp <= boundary || m.id in ids);
      var sender := m.senderName;
      if m.sender in contacts && contacts[m.sender].source == 1 {
        sender := contacts[m.sender].name;
      }
      row := Row(m.sender, m.id, sender, m.text, m.timestamp, m.fromMe, !unread, m.receipt,
                 m.deliveredAt, m.readAt, m.media, None, m.quote);
    }

    /** A message that is not suppressed: one upsert per table. */
    method StoreMessage(c: Jid, ins: Insert) returns (inserted: bool)
      requires !Suppressed(State(), c, ins.message)
      modifies this`settings, this`chats, this`messages, this`readChats, this`readMessages
      ensures inserted == Stores(old(State()), c, ins)
      ensures settings == if ins.fromHistory then old(settings)
                          else old(settings)[c := SettingsOf(old(settings), c).(deleted := false)]
      ensures messages == if inserted
                          then WithRows(old(messages), c, Rows(old(messages), c) + [NewRow(old(State()), c, ins)])
                          else old(messages)
      ensures var chat := PreviewedChat(Get(old(chats), c), c, ins);
        chats == old(chats)[c := if inserted && !NewRow(old(State()), c, ins).read
                                 then chat.(unread := chat.unread + 1) else chat]
      ensures readChats == if ins.readIntent.Some? then QueueChat(old(readChats), c, ins.message.timestamp)
        else old(readChats)
      ensures readMessages == if ins.readIntent.Some? then QueueMessage(old(readMessages), c, ins.readIntent.value)
                              else old(readMessages)
    {
      if !ins.fromHistory {
        ClearDeleted(c, ins.message.timestamp);
      }
      UpsertPreview(c, ins);
      var row := ProposeRow(c, ins);
      SameRow(old(State()), State(), c, ins);
      inserted := InsertRow(c, row);
      ghost var preview := chats[c];
      CountUnread(c, inserted && !row.read);
      Overwritten(old(chats), c, preview, chats[c]);
      if ins.readIntent.Some? {
        QueueRead(c, ins.readIntent.value, ins.message.timestamp);
      }
    }

    method CountUnread(c: Jid, unread: bool)
      requires c in chats
      modifies this`chats
      ensures chats
        == old(chats)[c := if unread then old(chats)[c].(unread := old(chats)[c].unread + 1) else old(chats)[c]]
    {
      if unread {
        chats := chats[c := chats[c].(unread := chats[c].unread + 1)];
      }
    }

    method InsertMessageInto(c: Jid, ins: Insert) returns (inserted: bool)
      modifies this
      ensures State() == InsertMessage(old(State()), c, ins)
      ensures inserted == Stores(old(State()), c, ins)
    {
      var tombstoned := (c, ins.message.id) in tombstones;
      var cleared := c in settings && ins.message.timestamp <= settings[c].clearedAt;
      if tombstoned || cleared {
        return false;
      }
      inserted := StoreMessage(c, ins);
    }

    method InsertRow(c: Jid, row: Row) returns (inserted: bool)
      modifies this`messages
      ensures inserted == !HasKey(Rows(old(messages), c), row.sender, row.id)
      ensures messages == if inserted then WithRows(old(messages), c, Rows(old(messages), c) + [row]) else old(messages)
    {
      inserted := !HasKey(Rows(messages, c), row.sender, row.id);
      if inserted {
        messages := messages[c := Rows(messages, c) + [row]];
      }
    }

    method QueueRead(c: Jid, receipt: UnreadReceipt, at: int)
      modifies this`readChats, this`readMessages
      ensures readChats == QueueChat(old(readChats), c, at)
      ensures readMessages == QueueMessage(old(readMessages), c, receipt)
    {
      QueueReadChat(c, at);
      QueueReadMessage(c, receipt);
    }

    method QueueReadChat(c: Jid, at: int)
      modifies this`readChats
      ensures readChats == QueueChat(old(readChats), c, at)
    {
      if c !in readChats || at < readChats[c] {
        readChats := readChats[c := at];
      }
      assert c in old(readChats) ==> readChats.Keys == old(readChats).Keys;
    }

    method QueueReadMessage(c: Jid, receipt: UnreadReceipt)
      modifies this`readMessages
      ensures readMessages == QueueMessage(old(readMessages), c, receipt)
    {
      if !IsPending(readMessages, c, receipt.sender, receipt.messageId) {
        readMessages := readMessages + [PendingRead(c, receipt)];
      }
    }

    method InsertAndPruneMessage(c: Jid, ins: Insert) returns (inserted: bool)
      modifies this
      ensures State() == InsertAndPrune(old(State()), c, ins)
      ensures inserted == Stores(old(State()), c, ins)
    {
      inserted := InsertMessageInto(c, ins);
      PruneChatHistory(c);
    }

    // --------------------------------------------------- names and media

    /** The rename runs over every chat. */
    method RenameSender(jid: Jid, name: string)
      modifies this`messages
      ensures messages == RenameIn(old(messages), jid, name)
    {
      var left := messages.Keys;
      while left != {}
        invariant messages.Keys == old(messages).Keys && left <= messages.Keys
        invariant forall c :: c in messages ==>
          messages[c] == if c in left then old(messages)[c] else EditRows(Rename(jid, name), old(messages)[c])
      {
        var c :| c in left;
        var rows, _ := EditEach(Rename(jid, name), messages[c]);
        messages := messages[c := rows];
        left := left - {c};
      }
    }

    method UpdateContactNameInto(jid: Jid, name: string, source: int) returns (updated: bool)
      modifies this
      ensures State() == UpdateContactName(old(State()), jid, name, source)
      ensures updated == NameApplies(old(State()), jid, name, source)
    {
      if Trim(name) == "" {
        return false;
      }
      if jid in contacts && contacts[jid].source > source {
        return false;
      }
      contacts := contacts[jid := Contact(Trim(name), source)];
      var rank := if source > 0 then NAME_ADDRESS_BOOK else NAME_MESSAGE;
      if jid in chats && !chats[jid].isGroup && chats[jid].nameSource <= rank {
        chats := chats[jid := chats[jid].(name := Trim(name), nameSource := rank)];
      }
      RenameSender(jid, Trim(name));
      updated := true;
    }

    method UpdateMessageMediaInto(c: Jid, id: Id, media: Media) returns (updated: bool)
      modifies this`messages, this`chats
      ensures State() == UpdateMedia(old(State()), c, id, media)
      ensures updated == MediaChanges(old(State()), c, id, media)
    {
      hide Tally, EditRows, EditRow, Carried;
      var merged := CarryOver(media, StoredMedia(Rows(messages, c), id));
      var gif := IsGif(merged);
      var final, _ := ReconcilePollTallies(merged, Inner(votes, c, id));
      assert final == FinalMedia(State(), c, id, media);
      updated := UpdateRows(c, SetMedia(id, final, gif));
      if gif && c in chats && chats[c].lastMessage == "[Video]" {
        var top := Newest(Rows(messages, c), false);
        if top.Some? && top.value.id == id {
          chats := chats[c := chats[c].(lastMessage := "[GIF]")];
        }
      }
    }

    // --------------------------------------------------- replayed conversations

    method InsertHistoryChatInto(h: HistoryChat)
      modifies this`chats
      ensures State() == InsertChat(old(State()), h)
    {
      var name, source := Trim(h.name), NAME_HISTORY;
      if name == "" || name == h.jid {
        name, source := "", NAME_UNKNOWN;
      }
      if h.jid in settings && settings[h.jid].deleted {
        return;
      }
      if h.jid !in chats {
        chats := chats[h.jid := Chat(name, source, None, h.lastMessage, h.lastTimestamp, h.unread, h.isGroup)];
      } else {
        var was := chats[h.jid];
        chats := chats[h.jid := was.(
          name := if was.nameSource == NAME_UNKNOWN && source > NAME_UNKNOWN then name else was.name,
          nameSource := Max(was.nameSource, source),
          lastTimestamp := Max(was.lastTimestamp, h.lastTimestamp),
          isGroup := h.isGroup)];
      }
    }

    method InsertHistoryMessageInto(h: HistoryChat, m: Message) returns (changed: bool)
      modifies this
      ensures (State(), changed) == HistoryMessage(old(State()), h, m)
    {
      if !m.fromMe && m.senderName != m.sender {
        var _ := UpdateContactNameInto(m.sender, m.senderName, 0);
      }
      assert State() == LearnName(old(State()), m);
      var inserted := InsertMessageInto(h.jid, HistoryInsert(h, m));
      if inserted {
        return true;
      }
      if m.media.None? {
        return false;
      }
      changed := UpdateMessageMediaInto(h.jid, m.id, m.media.value);
    }

    method InsertHistoryConversation(h: HistoryChat, ms: seq<Message>) returns (changed: bool)
      modifies this
      ensures (State(), changed) == Batch(old(State()), h, ms)
    {
      InsertHistoryChatInto(h);
      ghost var start := State();
      changed := false;
      var i := 0;
      while i < |ms|
        invariant i <= |ms|
        invariant (State(), changed) == HistoryMessages(start, h, ms[..i])
      {
        assert ms[..i + 1][..i] == ms[..i];
        var moved := InsertHistoryMessageInto(h, ms[i]);
        changed := changed || moved;
        i := i + 1;
      }
      assert ms[..i] == ms;
      PruneChatHistory(h.jid);
    }

    // --------------------------------------------------- read boundaries

    /** A first settings row, then the boundary on it; the result is what was there. */
    method SetBoundary(c: Jid, timestamp: int, ids: seq<Id>) returns (was: Settings, boundary: int)
      modifies this`settings
      ensures was == SettingsOf(old(settings), c) && boundary == NewBoundary(was, timestamp, ids)
      ensures settings == old(settings)[c := was.(
        readBoundary := boundary,
        boundaryIds := Capped(ExtraIds(Rows(messages, c), MergedIds(was.boundaryIds, ids), boundary)),
        readState := Some(true), explicitUnread := false)]
    {
      if c !in settings {
        settings := settings[c := DefaultSettings];
      }
      was := settings[c];
      boundary := Max(was.readBoundary, CandidateBoundary(timestamp, ids));
      var covered := MergeIds(was.boundaryIds, ids);
      var extra := KeepExtra(Rows(messages, c), covered, boundary);
      settings := settings[c := was.(readBoundary := boundary, boundaryIds := extra,
                                     readState := Some(true), explicitUnread := false)];
      Overwritten(old(settings), c, DefaultSettings, settings[c]);
    }

    method SetUnread(c: Jid) returns (moved: bool)
      modifies this`chats
      ensures chats == Counted(old(chats), c, Rows(messages, c))
      ensures moved <==> c in chats && chats[c].unread != old(chats)[c].unread
    {
      var unread := UnreadCount(Rows(messages, c));
      moved := c in chats && chats[c].unread != unread;
      if c in chats {
        chats := chats[c := chats[c].(unread := unread)];
      }
    }

    method WriteBoundary(c: Jid, timestamp: int, ids: seq<Id>)
      returns (was: Settings, boundary: int, marked: bool, moved: bool)
      modifies this`settings, this`messages, this`chats
      ensures was == SettingsOf(old(settings), c) && boundary == NewBoundary(was, timestamp, ids)
      ensures settings == old(settings)[c := was.(
        readBoundary := boundary,
        boundaryIds := Capped(ExtraIds(Rows(old(messages), c), MergedIds(was.boundaryIds, ids), boundary)),
        readState := Some(true), explicitUnread := false)]
      ensures var rows := MarkRows(Rows(old(messages), c), boundary, ids);
        && messages == WithRows(old(messages), c, rows) && chats == Counted(old(chats), c, rows)
        && marked == (rows != Rows(old(messages), c))
      ensures moved <==> c in chats && chats[c].unread != old(chats)[c].unread
    {
      was, boundary := SetBoundary(c, timestamp, ids);
      var rows;
      rows, marked := MarkCovered(Rows(messages, c), boundary, ids);
      messages := WithRows(messages, c, rows);
      moved := SetUnread(c);
    }

    method ApplyReadBoundary(c: Jid, timestamp: int, ids: seq<Id>) returns (changed: bool)
      modifies this`settings, this`messages, this`chats
      ensures State() == ApplyBoundary(old(State()), c, timestamp, ids)
      ensures changed == BoundaryChanges(old(State()), c, timestamp, ids)
    {
      BoundaryChangesWhen(State(), c, timestamp, ids);
      var was, boundary, marked, moved := WriteBoundary(c, timestamp, ids);
      changed := marked || was.explicitUnread || boundary != was.readBoundary || moved;
    }

    method MarkRead(c: Jid)
      modifies this`settings, this`messages, this`chats
      ensures State() == ReadStateSet(old(State()), c, true) && AllRead(State(), c)
    {
      MarkedAllRead(State(), c);
      var _ := ApplyReadBoundary(c, MaxTimestamp(Rows(messages, c)).GetOr(0), []);
    }

    method ApplyReadState(c: Jid, read: bool) returns (changed: bool)
      modifies this`settings, this`messages, this`chats
      ensures State() == ReadStateSet(old(State()), c, read)
      ensures changed == ReadStateChanges(old(State()), c, read)
    {
      if read {
        changed := ApplyReadBoundary(c, MaxTimestamp(Rows(messages, c)).GetOr(0), []);
        return;
      }
      var was := SettingsOf(settings, c);
      settings := settings[c := was.(readState := Some(false), explicitUnread := true)];
      changed := !was.explicitUnread;
    }

    /** The newest stored timestamp among the named messages. */
    method NewestCovered(c: Jid, ids: seq<Id>) returns (newest: Option<int>)
      ensures newest == NewestNamed(Rows(messages, c), ids)
    {
      newest := None;
      var i := 0;
      while i < |ids|
        invariant i <= |ids| && newest == NewestNamed(Rows(messages, c), ids[..i])
      {
        assert ids[..i + 1][..i] == ids[..i];
        var row := FindId(Rows(messages, c), ids[i]);
        if row.Some? && (newest.None? || row.value.timestamp > newest.value) {
          newest := Some(row.value.timestamp);
        }
        i := i + 1;
      }
      assert ids[..i] == ids;
    }

    method ApplySyncedReadState(c: Jid, read: bool, at: Option<int>, ids: seq<Id>, eventAt: int) returns (changed: bool)
      modifies this`settings, this`messages, this`chats
      ensures State() == SyncedReadState(old(State()), c, read, at, ids, eventAt)
      ensures changed == SyncedChanges(old(State()), c, read, at, ids, eventAt)
    {
      if eventAt < SettingsOf(settings, c).readStateUpdatedAt {
        return false;
      }
      if !read {
        changed := ApplyReadState(c, false);
      } else {
        var boundary: int;
        if at.Some? {
          boundary := at.value;
        } else if ids == [] {
          boundary := MaxTimestamp(Rows(messages, c)).GetOr(eventAt);
        } else {
          var newest := NewestCovered(c, ids);
          boundary := newest.GetOr(eventAt);
        }
        changed := ApplyReadBoundary(c, boundary, ids);
      }
      settings := settings[c := settings[c].(readStateUpdatedAt := eventAt)];
    }

    method ApplySelfReadReceipt(c: Jid, ids: seq<Id>, receiptAt: int) returns (changed: bool)
      modifies this`settings, this`messages, this`chats
      ensures State() == SelfReadReceipt(old(State()), c, ids, receiptAt)
      ensures changed == SelfReadChanges(old(State()), c, ids, receiptAt)
    {
      if ids == [] {
        return false;
      }
      var newest := NewestCovered(c, ids);
      changed := ApplyReadBoundary(c, newest.GetOr(receiptAt), ids);
    }

    method ReconcileUnreadCounts() returns (count: nat)
      modifies this`chats
      ensures State() == ReconcileUnread(old(State()))
      ensures count == |Miscounted(old(chats), messages)|
    {
      var left := Miscounted(chats, messages);
      count := |left|;
      ghost var was := chats;
      while left != {}
        invariant PartlyCounted(chats, was, messages, left)
      {
        var c :| c in left;
        PartlyNext(chats, was, messages, left, c);
        chats := chats[c := chats[c].(unread := UnreadCount(Rows(messages, c)))];
        left := left - {c};
      }
      AllCounted(chats, was, messages);
    }

    // --------------------------------------------------- clears and deletes

    method DeleteMessagesThrough(c: Jid, upTo: int)
      modifies this`messages, this`votes, this`readers, this`reactions
      ensures State() == DeleteThrough(old(State()), c, upTo)
    {
      var rows := Rows(messages, c);
      votes := WithoutThrough(votes, c, rows, upTo);
      readers := WithoutThrough(readers, c, rows, upTo);
      reactions := WithoutReactions(reactions, c, rows, upTo);
      var kept := CutEach(Through(upTo), rows);
      messages := WithRows(messages, c, kept);
    }

    method RefreshChatTail(c: Jid)
      modifies this`chats
      ensures chats == RefreshTail(old(chats), c, Rows(messages, c))
    {
      if c in chats {
        var rows := Rows(messages, c);
        var top := Newest(rows, true);
        chats := chats[c := chats[c].(lastMessage := if top.Some? then top.value.text else "",
                                      lastTimestamp := if top.Some? then top.value.timestamp else 0,
                                      unread := UnreadCount(rows))];
      }
    }

    method ClearChatThrough(c: Jid, at: int)
      modifies this
      ensures State() == ClearChat(old(State()), c, at)
    {
      if at < SettingsOf(settings, c).clearedAt {
        return;
      }
      DeleteMessagesThrough(c, at);
      RefreshChatTail(c);
      if c !in settings {
        settings := settings[c := DefaultSettings.(readState := Some(true), clearedAt := at)];
      } else {
        var was := settings[c];
        settings := settings[c := was.(readState := Some(true), explicitUnread := false,
                                       clearedAt := Max(was.clearedAt, at))];
      }
    }

    method DeleteChatThrough(c: Jid, at: int)
      modifies this
      ensures State() == DeleteChat(old(State()), c, at)
    {
      if at < SettingsOf(settings, c).clearedAt {
        return;
      }
      DeleteMessagesThrough(c, at);
      var newer := Rows(messages, c) != [];
      if newer {
        RefreshChatTail(c);
      } else {
        chats := chats - {c};
      }
      if c !in settings {
        settings := settings[c := DefaultSettings.(deleted := true, clearedAt := at)];
      } else {
        settings := settings[c := settings[c].(deleted := !newer, clearedAt := Max(settings[c].clearedAt, at))];
      }
    }

    method DeleteOneMessage(c: Jid, id: Id)
      modifies this
      ensures State() == DeleteMessage(old(State()), c, id)
    {
      hide CutRows, WithPreview, WithoutReactionsTo;
      DropMessage(c, id);
      RefreshPreview(c);
    }

    /** The rows of one message in every table, and its tombstone. */
    method DropMessage(c: Jid, id: Id)
      modifies this`votes, this`readers, this`messages, this`reactions, this`tombstones
      ensures votes == old(votes) - {(c, id)} && readers == old(readers) - {(c, id)}
      ensures messages == WithRows(old(messages), c, CutRows(WithId(id), Rows(old(messages), c)))
      ensures reactions == WithoutReactionsTo(old(reactions), c, id) && tombstones == old(tombstones) + {(c, id)}
    {
      votes := votes - {(c, id)};
      readers := readers - {(c, id)};
      var kept := CutEach(WithId(id), Rows(messages, c));
      messages := WithRows(messages, c, kept);
      reactions := WithoutReactionsTo(reactions, c, id);
      tombstones := tombstones + {(c, id)};
    }

    method RefreshPreview(c: Jid)
      modifies this`chats
      ensures State() == old(State()).(chats := chats)
      ensures chats == WithPreview(old(chats), c, Rows(messages, c))
    {
      if c in chats {
        var top := Newest(Rows(messages, c), false);
        chats := chats[c := chats[c].(lastMessage := if top.Some? then top.value.text else "",
                                      lastTimestamp := if top.Some? then top.value.timestamp
                                        else chats[c].lastTimestamp)];
      }
    }

    // --------------------------------------------------- receipts

    /** The reader entry of one receipt, if it names a reader of an own message. */
    method UpsertReader(e: Receipts.Receipt) returns (changed: bool)
      modifies this`readers
      ensures readers == Receipts.ReadersAfter(old(readers), Rows(messages, e.chat), e)
      ensures changed == (readers != old(readers))
    {
      if e.recipient.None? || e.recipient.value == "" || e.level < 2 || !Receipts.HasOwn(Rows(messages, e.chat), e.id) {
        return false;
      }
      var reader, seen := e.recipient.value, Inner(readers, e.chat, e.id);
      var after: ReaderTimes;
      if reader !in seen {
        after := if e.level == 2 then ReaderTimes(0, e.at) else ReaderTimes(e.at, 0);
      } else {
        after := seen[reader];
        if e.level == 2 {
          if e.at > 0 && (after.deliveredAt <= 0 || e.at < after.deliveredAt) {
            after := after.(deliveredAt := e.at);
          }
        } else if e.at > 0 && (after.readAt <= 0 || e.at < after.readAt) {
          after := after.(readAt := e.at);
        }
      }
      changed := reader !in seen || after != seen[reader];
      readers := readers[(e.chat, e.id) := seen[reader := after]];
      ReaderMoved(old(readers), e, reader, after, changed);
    }

    method UpdateReceipt(e: Receipts.Receipt) returns (changed: bool)
      modifies this`messages, this`readers
      ensures State() == Receipts.ReceiveOne(old(State()), e)
      ensures changed == Receipts.Differs(old(State()), State(), e.chat)
    {
      ghost var rows := Rows(messages, e.chat);
      changed := UpdateRows(e.chat, Receive(e.id, e.level, e.at));
      OwnStays(rows, Rows(messages, e.chat), e);
      var moved := UpsertReader(e);
      changed := changed || moved;
    }

    method UpdateReceipts(c: Jid, ids: seq<Id>, level: int, recipient: Option<Jid>, at: int) returns (changed: bool)
      modifies this`messages, this`readers
      ensures State() == Receipts.ReceiveAll(old(State()), Receipts.Batch(c, ids, level, recipient, at))
      ensures changed == Receipts.Differs(old(State()), State(), c)
    {
      ghost var es := Receipts.Batch(c, ids, level, recipient, at);
      changed := false;
      var i := 0;
      while i < |ids|
        invariant i <= |ids| && State() == Receipts.ReceiveAll(old(State()), es[..i])
        invariant changed == Receipts.AnyStatementChanged(old(State()), c, es[..i])
      {
        Receipts.ReceiveNext(old(State()), c, es, i);
        var moved := UpdateReceipt(Receipts.Receipt(c, ids[i], level, recipient, at));
        changed := changed || moved;
        i := i + 1;
      }
      assert es[..i] == es;
      Receipts.ReceiptFlagExact(old(State()), c, es);
    }

    // --------------------------------------------------- reactions

    method RemoveReaction(k: ReactionKey, at: int) returns (changed: bool)
      modifies this`reactions, this`reactionTombstones
      ensures reactions == if k in old(reactions) && old(reactions)[k].timestamp <= at then old(reactions) - {k}
        else old(reactions)
      ensures reactionTombstones == if k !in old(reactionTombstones) || at > old(reactionTombstones)[k]
                                    then old(reactionTombstones)[k := at] else old(reactionTombstones)
      ensures changed <==> reactions != old(reactions) || reactionTombstones != old(reactionTombstones)
    {
      changed := false;
      if k !in reactionTombstones || at > reactionTombstones[k] {
        reactionTombstones := reactionTombstones[k := at];
        changed := true;
      }
      if k in reactions && reactions[k].timestamp <= at {
        reactions := reactions - {k};
        changed := true;
      }
    }

    method AddReaction(k: ReactionKey, r: Reaction) returns (changed: bool)
      modifies this`reactions, this`reactionTombstones
      ensures var blocked := k in old(reactionTombstones) && old(reactionTombstones)[k] >= r.timestamp;
        && (reactions == if !blocked && (k !in old(reactions) || r.timestamp >= old(reactions)[k].timestamp)
                         then old(reactions)[k := r] else old(reactions))
        && (reactionTombstones == if blocked then old(reactionTombstones) else old(reactionTombstones) - {k})
      ensures changed <==> reactions != old(reactions)
    {
      if k in reactionTombstones && reactionTombstones[k] >= r.timestamp {
        return false;
      }
      changed := k !in reactions || (r.timestamp >= reactions[k].timestamp && reactions[k] != r);
      if changed {
        reactions := reactions[k := r];
        assert reactions[k] == r;
      }
      if k in reactionTombstones && reactionTombstones[k] < r.timestamp {
        reactionTombstones := reactionTombstones - {k};
      }
    }

    method ApplyReactionEvent(k: ReactionKey, e: Reactions.Event) returns (changed: bool)
      modifies this`reactions, this`reactionTombstones
      ensures State() == Reactions.ApplyReaction(old(State()), k, e)
      ensures changed == Reactions.ReactionChanges(old(State()), k, e)
    {
      if e.emoji == "" {
        changed := RemoveReaction(k, e.timestamp);
      } else {
        changed := AddReaction(k, Reaction(e.emoji, e.fromMe, e.timestamp));
      }
    }

    // --------------------------------------------------- polls

    method UpsertVote(v: Polls.VoteCall, vote: Vote) returns (changed: bool)
      modifies this`votes
      ensures var was := Inner(old(votes), v.chat, v.id);
        && votes == old(votes)[(v.chat, v.id) := was[v.voter := Polls.VoteAfter(Get(was, v.voter), vote)]]
        && changed == (Get(was, v.voter) != Some(Polls.VoteAfter(Get(was, v.voter), vote)))
    {
      var was := Inner(votes, v.chat, v.id);
      changed := v.voter !in was || (vote.timestamp >= was[v.voter].timestamp && was[v.voter] != vote);
      if changed {
        votes := votes[(v.chat, v.id) := was[v.voter := vote]];
      } else {
        assert was[v.voter := was[v.voter]] == was;
        votes := votes[(v.chat, v.id) := was];
      }
    }

    method ApplyPollVote(v: Polls.VoteCall) returns (r: Result<bool, Polls.VoteError>)
      modifies this`votes, this`messages
      ensures State() == Polls.ApplyVote(old(State()), v)
      ensures r == Polls.VoteOutcome(old(State()), v)
    {
      var card := StoredMedia(Rows(messages, v.chat), v.id);
      if card.None? || !card.value.Poll? {
        return Ok(false);
      }
      var selected := Normalize(card.value.options, v.selected);
      if |selected| > card.value.selectable {
        return Err(Polls.TooManyOptions);
      }
      var changed := UpsertVote(v, Vote(selected, v.fromMe, v.timestamp));
      assert Inner(votes, v.chat, v.id) == Polls.VotesAfter(old(State()), v);
      var media, moved := ReconcilePollTallies(card.value, Inner(votes, v.chat, v.id));
      if moved {
        var _ := UpdateRows(v.chat, SetMedia(v.id, media, false));
      }
      r := Ok(changed || moved);
    }

    /** The repair of one chat, from the cards as they stood. */
    method RepairChat(c: Jid) returns (rows: seq<Row>)
      ensures rows == Polls.RepairRows(State(), c, Rows(messages, c), Rows(messages, c))
    {
      var targets := Rows(messages, c);
      rows := targets;
      var i := 0;
      while i < |targets|
        invariant i <= |targets| && rows == Polls.RepairRows(State(), c, targets[..i], targets)
      {
        assert targets[..i + 1][..i] == targets[..i];
        var r := targets[i];
        if (c, r.id) in votes && r.media.Some? {
          var media, moved := ReconcilePollTallies(r.media.value, votes[(c, r.id)]);
          if moved {
            var repaired, _ := EditEach(SetMedia(r.id, media, false), rows);
            rows := repaired;
          }
        }
        i := i + 1;
      }
      assert targets[..i] == targets;
    }

    method ReconcileAllPollTallies()
      modifies this`messages
      ensures State() == Polls.Reopen(old(State()))
    {
      hide Polls.RepairRows;
      ghost var start := State();
      var left := messages.Keys;
      while left != {}
        invariant messages.Keys == start.messages.Keys && left <= messages.Keys
        invariant forall c :: c in messages ==>
          messages[c] == if c in left then start.messages[c] else Repair(start, c)
      {
        var c :| c in left;
        var rows := RepairChat(c);
        RepairReadsVotes(start, State(), c, messages[c], messages[c]);
        assert rows == Repair(start, c);
        messages := messages[c := rows];
        left := left - {c};
      }
    }

    // --------------------------------------------------- the read outbox

    method QueueReadReceipts(c: Jid, receipts: seq<UnreadReceipt>, at: int)
      modifies this`readChats, this`readMessages
      ensures State() == ReadOutbox.QueueReads(old(State()), c, receipts, at)
    {
      QueueReadChat(c, at);
      var i := 0;
      while i < |receipts|
        invariant i <= |receipts| && readMessages == ReadOutbox.QueueAll(old(readMessages), c, receipts[..i])
        invariant readChats == QueueChat(old(readChats), c, at)
      {
        assert receipts[..i + 1][..i] == receipts[..i];
        QueueReadMessage(c, receipts[i]);
        i := i + 1;
      }
      assert receipts[..i] == receipts;
    }

    method NextReadBatch() returns (batch: Option<ReadOutbox.Batch>)
      ensures batch == ReadOutbox.NextBatch(State())
    {
      if readChats == map[] {
        return None;
      }
      var c := SelectFirst(readChats);
      batch := Some(ReadOutbox.Batch(c, ReadOutbox.ReceiptsOf(readMessages, c)));
    }

    method FinishReadBatch(b: ReadOutbox.Batch) returns (removed: bool)
      modifies this`readChats, this`readMessages
      ensures State() == ReadOutbox.FinishBatch(old(State()), b)
      ensures removed == ReadOutbox.FinishRemoves(old(State()), b)
    {
      readMessages := DropReceipts(readMessages, b.chat, b.receipts);
      removed := b.chat in readChats && !ReadOutbox.ChatWaits(readMessages, b.chat);
      if removed {
        readChats := readChats - {b.chat};
      }
    }

    /** Send and finish batches until none is left. */
    method DrainReadOutbox()
      requires ReadOutbox.Queued(State())
      modifies this`readChats, this`readMessages
      ensures State() == old(State()).(readChats := map[], readMessages := [])
    {
      ghost var start := State();
      var batch := NextReadBatch();
      while batch.Some?
        invariant ReadOutbox.Queued(State()) && batch == ReadOutbox.NextBatch(State())
        invariant ReadOutbox.Drain(State()) == ReadOutbox.Drain(start)
        invariant State() == start.(readChats := readChats, readMessages := readMessages)
        decreases |readChats|
      {
        ReadOutbox.NextBatchRetiresChat(State());
        ReadOutbox.FinishKeeps(State(), batch.value);
        var _ := FinishReadBatch(batch.value);
        batch := NextReadBatch();
      }
      ReadOutbox.DrainEmpties(start);
    }

    // --------------------------------------------------- merging an alias

    method MergeContact(from: Jid, to: Jid)
      requires from != to
      modifies this`contacts
      ensures Get(contacts, to) == Merging.MergedContact(old(contacts), from, to)
      ensures forall k :: k != to ==> Get(contacts, k) == Get(old(contacts), k)
    {
      if from in contacts {
        var x := contacts[from];
        if to !in contacts {
          contacts := contacts[to := x];
        } else {
          var y := contacts[to];
          contacts := contacts[to := Contact(if x.source >= y.source then x.name else y.name, Max(y.source, x.source))];
        }
      }
    }

    method MergeChatRow(from: Jid, to: Jid)
      requires from != to
      modifies this`chats
      ensures Get(chats, to) == Merging.MergedChat(old(chats), from, to)
      ensures forall k :: k != to ==> Get(chats, k) == Get(old(chats), k)
    {
      if from in chats {
        var x := chats[from];
        if to !in chats {
          chats := chats[to := x];
        } else {
          var y := chats[to];
          chats := chats[to := Chat(
            if x.nameSource > y.nameSource then x.name else y.name, Max(y.nameSource, x.nameSource),
            Coalesce(y.phone, x.phone),
            if x.lastTimestamp >= y.lastTimestamp then x.lastMessage else y.lastMessage,
            Max(y.lastTimestamp, x.lastTimestamp), Max(y.unread, x.unread), y.isGroup || x.isGroup)];
        }
      }
    }

    method MergeSettingsRow(from: Jid, to: Jid)
      requires from != to
      modifies this`settings
      ensures Get(settings, to) == Merging.MergedSettings(old(settings), from, to)
      ensures from !in settings && forall k :: k != from && k != to ==> Get(settings, k) == Get(old(settings), k)
    {
      if from in settings {
        var x := settings[from];
        if to !in settings {
          settings := settings[to := x.(readStateUpdatedAt := 0)];
        } else {
          var y := settings[to];
          settings := settings[to := Settings(
            Coalesce(x.readState, y.readState), y.readStateUpdatedAt, y.explicitUnread || x.explicitUnread,
            y.deleted || x.deleted, Max(y.clearedAt, x.clearedAt), Max(y.readBoundary, x.readBoundary),
            if x.readBoundary > y.readBoundary then x.boundaryIds else y.boundaryIds)];
        }
      }
      settings := settings - {from};
    }

    /** The contact's name titles its direct chat, and the old chat goes. */
    method TitleChat(from: Jid, to: Jid)
      requires from != to
      modifies this`chats
      ensures chats == Merging.Moved(old(chats), from, to, Merging.TitledChat(Get(old(chats), to), Get(contacts, to)))
    {
      if to in chats && !chats[to].isGroup && to in contacts {
        chats := chats[to := chats[to].(name := contacts[to].name,
                                        nameSource := if contacts[to].source == 1 then NAME_ADDRESS_BOOK
                                          else NAME_MESSAGE)];
      }
      chats := chats - {from};
      MovedIs(old(chats), chats, from, to, Merging.TitledChat(Get(old(chats), to), Get(contacts, to)));
    }

    method MergeChatTable(from: Jid, to: Jid)
      requires from != to
      modifies this`chats
      ensures chats == Merging.Moved(old(chats), from, to,
        Merging.TitledChat(Merging.MergedChat(old(chats), from, to), Get(contacts, to)))
    {
      MergeChatRow(from, to);
      TitleChat(from, to);
      MovedIs(old(chats), chats, from, to,
              Merging.TitledChat(Merging.MergedChat(old(chats), from, to), Get(contacts, to)));
    }

    method MergeSettingsTable(from: Jid, to: Jid)
      requires from != to
      modifies this`settings
      ensures settings == Merging.Moved(old(settings), from, to, Merging.MergedSettings(old(settings), from, to))
    {
      MergeSettingsRow(from, to);
      MovedIs(old(settings), settings, from, to, Merging.MergedSettings(old(settings), from, to));
    }

    /** The messages of the old sender, in every chat. */
    method MergeSenders(from: Jid, to: Jid)
      modifies this`messages
      ensures SendersMerged(messages, old(messages), from, to)
    {
      ghost var was := messages;
      var left := messages.Keys;
      NobodyToMerge(from, to);
      while left != {}
        invariant PartlyMerged(messages, was, left, from, to)
      {
        var c :| c in left;
        var rows := MergeSender(Rows(messages, c), from, to);
        MergeNext(messages, was, left, c, from, to);
        messages := WithRows(messages, c, rows);
        left := left - {c};
      }
    }

    /** The old chat's messages, into the new chat, which then keeps the newest. */
    method MergeChatMessages(from: Jid, to: Jid)
      requires from != to && forall c :: c in messages ==> messages[c] != []
      modifies this`messages
      ensures Rows(messages, to) ==
        Retain(Merging.UpsertRows(Merging.ByChat, Rows(old(messages), to), Rows(old(messages), from)), keep)
      ensures forall c :: c != from && c != to ==> Rows(messages, c) == Rows(old(messages), c)
      ensures from !in messages && forall c :: c in messages ==> messages[c] != []
    {
      var rows := UpsertEach(Merging.ByChat, Rows(messages, to), Rows(messages, from));
      rows := RetainNewest(rows, keep);
      messages := WithRows(messages, to, rows);
      messages := messages - {from};
    }

    /** Readers, reactors and voters under the old identifier, then the rows of its chat. */
    method MergePeople(from: Jid, to: Jid)
      requires from != to
      modifies this`readers, this`reactions, this`votes, this`tombstones
      ensures Merging.VotesJoined(votes, old(votes), from, to) && Merging.ReadersJoined(readers, old(readers), from, to)
      ensures Merging.ReactionsJoined(reactions, old(reactions), from, to)
      ensures Merging.TombstonesJoined(tombstones, old(tombstones), from, to)
      ensures readers == Merging.ReadersMoved(Merging.PeopleMoved(old(readers), from, to), from, to)
      ensures votes == Merging.VotesMoved(Merging.PeopleMoved(old(votes), from, to), from, to)
      ensures reactions == Merging.ReactionChatMoved(Merging.ReactorMoved(old(reactions), from, to), from, to)
      ensures tombstones == Merging.TombstonesMoved(old(tombstones), from, to)
    {
      Merging.PeopleJoin(votes, readers, from, to);
      Merging.ReactionsJoin(reactions, from, to);
      Merging.TombstonesJoin(tombstones, from, to);
      readers := Merging.PeopleMoved(readers, from, to);
      reactions := Merging.ReactorMoved(reactions, from, to);
      votes := Merging.PeopleMoved(votes, from, to);
      readers := Merging.ReadersMoved(readers, from, to);
      reactions := Merging.ReactionChatMoved(reactions, from, to);
      votes := Merging.VotesMoved(votes, from, to);
      tombstones := Merging.TombstonesMoved(tombstones, from, to);
    }

    /** Merged, cut to the newest, and under the contact's name. */
    method MergeMessages(from: Jid, to: Jid)
      requires from != to
      modifies this`messages
      ensures exists merged ::
        RowsMerged(merged, old(messages), keep, from, to) && messages == Titled(merged, to, Get(contacts, to))
    {
      MergeSenders(from, to);
      MergeChatMessages(from, to);
      assert RowsMerged(messages, old(messages), keep, from, to);
      if to in contacts {
        RenameSender(to, contacts[to].name);
      }
    }

    method DropContact(ghost was: map<Jid, Contact>, from: Jid, to: Jid)
      requires from != to && Get(contacts, to) == Merging.MergedContact(was, from, to)
      requires forall k :: k != to ==> Get(contacts, k) == Get(was, k)
      modifies this`contacts
      ensures contacts == Merging.Moved(was, from, to, Merging.MergedContact(was, from, to))
    {
      contacts := contacts - {from};
      MovedIs(was, contacts, from, to, Merging.MergedContact(was, from, to));
    }

    method MigrateContactJid(from: Jid, to: Jid) returns (migrated: bool)
      modifies this
      ensures State() == Merging.Migrate(old(State()), from, to)
      ensures migrated == Merging.Migrates(old(State()), from, to)
    {
      if from == to || !Merging.SourceExists(State(), from) {
        return false;
      }
      MergeTables(from, to);
      migrated := true;
    }

    method MergeTables(from: Jid, to: Jid)
      requires Merging.Migrates(State(), from, to)
      modifies this
      ensures State() == Merging.Migrate(old(State()), from, to)
    {
      hide Merging.FinalMessages, Merging.MergedContact, Merging.MergedChat, Merging.MergedSettings, Merging.TitledChat;
      hide Merging.SourceExists, Merging.Migrate;
      ghost var t := State();
      MergeContactAndMessages(from, to);
      MergeRest(t.contacts, from, to);
      MigrateIs(t, State(), from, to);
    }

    method MergeRest(ghost was: map<Jid, Contact>, from: Jid, to: Jid)
      requires from != to && Get(contacts, to) == Merging.MergedContact(was, from, to)
      requires forall k :: k != to ==> Get(contacts, k) == Get(was, k)
      modifies this`chats, this`settings, this`contacts, this`readers, this`reactions, this`votes, this`tombstones
      ensures readers == Merging.ReadersMoved(Merging.PeopleMoved(old(readers), from, to), from, to)
      ensures votes == Merging.VotesMoved(Merging.PeopleMoved(old(votes), from, to), from, to)
      ensures reactions == Merging.ReactionChatMoved(Merging.ReactorMoved(old(reactions), from, to), from, to)
      ensures tombstones == Merging.TombstonesMoved(old(tombstones), from, to)
      ensures var contact := Merging.MergedContact(was, from, to);
        && chats == Merging.Moved(old(chats), from, to,
                                  Merging.TitledChat(Merging.MergedChat(old(chats), from, to), contact))
        && contacts == Merging.Moved(was, from, to, contact)
      ensures settings == Merging.Moved(old(settings), from, to, Merging.MergedSettings(old(settings), from, to))
    {
      MergePeople(from, to);
      MergeChatTable(from, to);
      MergeSettingsTable(from, to);
      DropContact(was, from, to);
    }

    method MergeContactAndMessages(from: Jid, to: Jid)
      requires from != to
      modifies this`contacts, this`messages
      ensures messages == Merging.FinalMessages(old(State()), from, to)
      ensures Get(contacts, to) == Merging.MergedContact(old(contacts), from, to)
      ensures forall k :: k != to ==> Get(contacts, k) == Get(old(contacts), k)
    {
      ghost var t := State();
      MergeContact(from, to);
      MergeMessages(from, to);
      ghost var merged :| RowsMerged(merged, t.messages, keep, from, to) &&
        messages == Titled(merged, to, Get(contacts, to));
      Assembled(t, merged, from, to);
    }

    // --------------------------------------------------- whole runs

    method Deliver(es: seq<Receipts.Receipt>)
      modifies this`messages, this`readers
      ensures State() == Receipts.ReceiveAll(old(State()), es)
    {
      var i := 0;
      while i < |es|
        invariant i <= |es| && State() == Receipts.ReceiveAll(old(State()), es[..i])
      {
        assert es[..i + 1][..i] == es[..i];
        var _ := UpdateReceipt(es[i]);
        i := i + 1;
      }
      assert es[..i] == es;
    }

    method StampRead(c: Jid, at: int)
      modifies this`settings
      ensures State() == StampReadState(old(State()), c, at)
    {
      if c in settings {
        settings := settings[c := settings[c].(readStateUpdatedAt := at)];
      }
    }

    /** One transaction of a run, by the method that performs it. */
    method Handle(e: Runs.Event)
      modifies this
      ensures State() == Runs.Apply(old(State()), e)
    {
      if e.Arrive? || e.Replay? || e.Name? || e.Complete? || e.Deliver? {
        HandleMessages(e);
      } else if e.Boundary? || e.MarkUnread? || e.StampRead? || e.Reconcile? {
        HandleReadState(e);
      } else if e.Clear? || e.Delete? || e.DeleteOne? {
        HandleDeletes(e);
      } else if e.Cast? || e.Reopened? {
        HandlePolls(e);
      } else {
        HandleRest(e);
      }
    }

    method HandleMessages(e: Runs.Event)
      requires e.Arrive? || e.Replay? || e.Name? || e.Complete? || e.Deliver?
      modifies this
      ensures State() == Runs.Apply(old(State()), e)
    {
      ghost var goal := Runs.Apply(State(), e);
      match e
      case Arrive(c, ins) =>
        assert goal == InsertAndPrune(State(), c, ins);
        var _ := InsertAndPruneMessage(c, ins);
      case Replay(h, ms) =>
        assert goal == Batch(State(), h, ms).0;
        var _ := InsertHistoryConversation(h, ms);
      case Name(jid, name, source) =>
        assert goal == UpdateContactName(State(), jid, name, source);
        var _ := UpdateContactNameInto(jid, name, source);
      case Complete(c, id, media) =>
        assert goal == UpdateMedia(State(), c, id, media);
        var _ := UpdateMessageMediaInto(c, id, media);
      case Deliver(rs) =>
        assert goal == Receipts.ReceiveAll(State(), rs);
        Deliver(rs);
    }

    method HandleReadState(e: Runs.Event)
      requires e.Boundary? || e.MarkUnread? || e.StampRead? || e.Reconcile?
      modifies this
      ensures State() == Runs.Apply(old(State()), e)
    {
      ghost var goal := Runs.Apply(State(), e);
      match e
      case Boundary(c, at, ids) =>
        assert goal == ApplyBoundary(State(), c, at, ids);
        var _ := ApplyReadBoundary(c, at, ids);
      case MarkUnread(c) =>
        assert goal == ReadStateSet(State(), c, false);
        var _ := ApplyReadState(c, false);
      case StampRead(c, at) =>
        assert goal == StampReadState(State(), c, at);
        StampRead(c, at);
      case Reconcile =>
        assert goal == ReconcileUnread(State());
        var _ := ReconcileUnreadCounts();
    }

    method HandleDeletes(e: Runs.Event)
      requires e.Clear? || e.Delete? || e.DeleteOne?
      modifies this
      ensures State() == Runs.Apply(old(State()), e)
    {
      ghost var goal := Runs.Apply(State(), e);
      match e
      case Clear(c, at) =>
        assert goal == ClearChat(State(), c, at);
        ClearChatThrough(c, at);
      case Delete(c, at) =>
        assert goal == DeleteChat(State(), c, at);
        DeleteChatThrough(c, at);
      case DeleteOne(c, id) =>
        assert goal == DeleteMessage(State(), c, id);
        DeleteOneMessage(c, id);
    }

    method HandlePolls(e: Runs.Event)
      requires e.Cast? || e.Reopened?
      modifies this
      ensures State() == Runs.Apply(old(State()), e)
    {
      ghost var goal := Runs.Apply(State(), e);
      match e
      case Cast(v) =>
        assert goal == Polls.ApplyVote(State(), v);
        var _ := ApplyPollVote(v);
      case Reopened =>
        assert goal == Polls.Reopen(State());
        ReconcileAllPollTallies();
    }

    method HandleRest(e: Runs.Event)
      requires e.React? || e.QueueReads? || e.FinishReads?
      modifies this
      ensures State() == Runs.Apply(old(State()), e)
    {
      ghost var goal := Runs.Apply(State(), e);
      match e
      case React(k, r) =>
        assert goal == Reactions.ApplyReaction(State(), k, r);
        var _ := ApplyReactionEvent(k, r);
      case QueueReads(c, due, at) =>
        assert goal == ReadOutbox.QueueReads(State(), c, due, at);
        QueueReadReceipts(c, due, at);
      case FinishReads(b) =>
        assert goal == ReadOutbox.FinishBatch(State(), b);
        var _ := FinishReadBatch(b);
    }
  }

  /** However its transactions are interleaved, a database that started empty holds what the
      run says, and every chat of it is sound. */
  method RunFromEmpty(keep: nat, es: seq<Runs.Event>) returns (db: Database)
    requires keep > 0
    ensures fresh(db) && db.State() == Runs.Run(Runs.Fresh(keep), es)
    ensures forall c :: Soundness.Sound(db.State(), c)
  {
    db := new Database(keep);
    var i := 0;
    while i < |es|
      invariant i <= |es| && fresh(db) && db.State() == Runs.Run(Runs.Fresh(keep), es[..i])
    {
      assert es[..i + 1][..i] == es[..i];
      db.Handle(es[i]);
      i := i + 1;
    }
    assert es[..i] == es;
    forall c ensures Soundness.Sound(db.State(), c) {
      Runs.ReachableIsSound(keep, es, c);
    }
  }
}
