/** What clears and deletes leave in each table, row by row. */
module Sweeps {
  import opened Prelude
  import opened Schema
  import opened Clearing

  // --------------------------------------------------- the newest row that is left

  /** No row is newer, and of equally old ones this is the last. */
  predicate IsTail(rows: seq<Row>, i: nat) {
    && i < |rows| && (forall j :: 0 <= j < |rows| ==> rows[j].timestamp <= rows[i].timestamp)
    && (forall j :: i < j < |rows| ==> rows[j].timestamp < rows[i].timestamp)
  }

  lemma {:induction false} FindTail(rows: seq<Row>) returns (i: nat)
    requires rows != []
    ensures IsTail(rows, i) && Newest(rows, true) == Some(rows[i])
  {
    var n := |rows| - 1;
    i := n;
    if n > 0 {
      var j := FindTail(rows[..n]);
      assert rows[..n][j] == rows[j];
      assert forall k :: 0 <= k < n ==> rows[..n][k] == rows[k];
      if rows[n].timestamp < rows[j].timestamp { i := j; }
    }
  }

  predicate CountsUnread(r: Row) {
    !r.fromMe && !r.read
  }

  /** The badge counts the incoming rows that are not read. */
  lemma {:induction false} UnreadIsCount(rows: seq<Row>)
    ensures UnreadCount(rows) == |set i | 0 <= i < |rows| && CountsUnread(rows[i])|
  {
    if rows != [] {
      var n := |rows| - 1;
      UnreadIsCount(rows[..n]);
      var front, all := set i | 0 <= i < n && CountsUnread(rows[..n][i]), set i | 0 <= i < |rows| &&
        CountsUnread(rows[i]);
      assert forall i :: 0 <= i < n ==> rows[..n][i] == rows[i];
      if CountsUnread(rows[n]) {
        assert all == front + {n};
      } else {
        assert all == front;
      }
    }
  }

  /** The chat shows the newest row that is left, the later one on ties, or nothing, and its
      badge counts what is left unread. */
  ghost predicate ShowsTail(chat: Chat, rows: seq<Row>) {
    && (rows == [] ==> chat.lastMessage == "" && chat.lastTimestamp == 0)
    && (rows != [] ==>
        exists i: nat ::
          IsTail(rows, i) && chat.lastMessage == rows[i].text && chat.lastTimestamp == rows[i].timestamp)
    && chat.unread == |set i | 0 <= i < |rows| && CountsUnread(rows[i])|
  }

  lemma RefreshedShowsTail(chat: Chat, rows: seq<Row>)
    ensures ShowsTail(RefreshedChat(chat, rows), rows)
    ensures var now := RefreshedChat(chat, rows);
      now.name == chat.name && now.nameSource == chat.nameSource && now.phone == chat.phone &&
        now.isGroup == chat.isGroup
  {
    UnreadIsCount(rows);
    if rows != [] { var i := FindTail(rows); }
  }

  // --------------------------------------------------- the rows that go

  /** A row through that time carries the id. */
  predicate FallsWithin(rows: seq<Row>, id: Id, upTo: int) {
    exists r :: r in rows && r.id == id && r.timestamp <= upTo
  }

  lemma WithinIsThrough(rows: seq<Row>, id: Id, upTo: int)
    ensures FallsWithin(rows, id, upTo) <==> HasIdThrough(rows, id, upTo)
  {
    if r :| r in rows && r.id == id && r.timestamp <= upTo { var i :| 0 <= i < |rows| && rows[i] == r; }
    if i :| 0 <= i < |rows| && rows[i].id == id && rows[i].timestamp <= upTo { assert rows[i] in rows; }
  }

  /** What is left of the rows: those a test keeps, in their order. */
  function Sifted(rows: seq<Row>, keeps: Row -> bool): seq<Row> {
    if rows == [] then [] else (if keeps(rows[0]) then [rows[0]] else []) + Sifted(rows[1..], keeps)
  }

  lemma {:induction false} SiftedAppend(rows: seq<Row>, r: Row, keeps: Row -> bool)
    ensures Sifted(rows + [r], keeps) == Sifted(rows, keeps) + if keeps(r) then [r] else []
  {
    if rows != [] {
      assert (rows + [r])[1..] == rows[1..] + [r];
      SiftedAppend(rows[1..], r, keeps);
    } else {
      assert [r][1..] == [];
    }
  }

  lemma {:induction false} CutIsSifted(d: Cut, rows: seq<Row>, keeps: Row -> bool)
    requires forall r :: keeps(r) <==> !Cuts(d, r)
    ensures CutRows(d, rows) == Sifted(rows, keeps)
  {
    if rows != [] {
      hide CutRows, Sifted;
      var n := |rows| - 1;
      assert rows == rows[..n] + [rows[n]];
      CutIsSifted(d, rows[..n], keeps);
      CutAppend(d, rows[..n], rows[n]);
      SiftedAppend(rows[..n], rows[n], keeps);
    }
  }

  lemma CutAppend(d: Cut, rows: seq<Row>, r: Row)
    ensures CutRows(d, rows + [r]) == CutRows(d, rows) + if Cuts(d, r) then [] else [r]
  {
    assert (rows + [r])[..|rows|] == rows;
  }

  ghost predicate SameBut<V>(a: map<(Jid, Id), V>, b: map<(Jid, Id), V>, gone: set<(Jid, Id)>) {
    && (forall p :: p in b <==> p in a && p !in gone) && (forall p :: p in b ==> b[p] == a[p])
  }

  function GoneThrough(t: Tables, c: Jid, upTo: int): set<(Jid, Id)> {
    set r | r in Rows(t.messages, c) && r.timestamp <= upTo :: (c, r.id)
  }

  /** The rows through a time go, with the votes, reader entries and reactions under their
      ids; everything else stays. */
  ghost predicate SweptThrough(t: Tables, u: Tables, c: Jid, upTo: int) {
    && Rows(u.messages, c) == Sifted(Rows(t.messages, c), (r: Row) => r.timestamp > upTo)
    && (forall d :: d != c ==> Rows(u.messages, d) == Rows(t.messages, d))
    && SameBut(t.votes, u.votes, GoneThrough(t, c, upTo)) && SameBut(t.readers, u.readers, GoneThrough(t, c, upTo))
    && (forall k :: k in u.reactions <==> k in t.reactions && (k.chat, k.message) !in GoneThrough(t, c, upTo))
    && (forall k :: k in u.reactions ==> u.reactions[k] == t.reactions[k])
    && (forall d :: d != c ==> Get(u.chats, d) == Get(t.chats, d) && Get(u.settings, d) == Get(t.settings, d))
    && u == t.(messages := u.messages, votes := u.votes, readers := u.readers, reactions := u.reactions,
               chats := u.chats, settings := u.settings)
  }

  lemma DeleteThroughSweeps(t: Tables, c: Jid, upTo: int)
    ensures SweptThrough(t, DeleteThrough(t, c, upTo), c, upTo)
    ensures var u := DeleteThrough(t, c, upTo); u.chats == t.chats && u.settings == t.settings
  {
    var rows := Rows(t.messages, c);
    CutIsSifted(Through(upTo), rows, (r: Row) => r.timestamp > upTo);
    forall id ensures (c, id) in GoneThrough(t, c, upTo) <==> HasIdThrough(rows, id, upTo) {
      WithinIsThrough(rows, id, upTo);
      if r :| r in rows && r.id == id && r.timestamp <= upTo { assert (c, r.id) in GoneThrough(t, c, upTo); }
      if (c, id) in GoneThrough(t, c, upTo) {
        var r :| r in rows && r.timestamp <= upTo && (c, id) == (c, r.id);
      }
    }
    GoneInChat(t, c, upTo);
  }

  lemma GoneInChat(t: Tables, c: Jid, upTo: int)
    ensures forall p :: p in GoneThrough(t, c, upTo) ==> p.0 == c
  {
  }

  lemma SweptStill(t: Tables, u: Tables, v: Tables, c: Jid, upTo: int)
    requires SweptThrough(t, u, c, upTo) && v == u.(chats := v.chats, settings := v.settings)
    requires forall d :: d != c ==> Get(v.chats, d) == Get(u.chats, d) && Get(v.settings, d) == Get(u.settings, d)
    ensures SweptThrough(t, v, c, upTo)
  {
  }

  /** A clear sweeps the chat up to its time; the chat, if it is listed, shows what is left,
      and is read, not marked unread, and cleared up to the later of the two times. */
  lemma ChatCleared(t: Tables, c: Jid, at: int)
    requires c in t.settings ==> at >= t.settings[c].clearedAt
    requires c !in t.settings ==> at >= 0
    ensures var u := ClearChat(t, c, at);
      && SweptThrough(t, u, c, at)
      && (c in u.chats <==> c in t.chats)
      && (c in t.chats ==>
          && ShowsTail(u.chats[c], Rows(u.messages, c))
          && u.chats[c].name == t.chats[c].name && u.chats[c].nameSource == t.chats[c].nameSource
          && u.chats[c].phone == t.chats[c].phone && u.chats[c].isGroup == t.chats[c].isGroup)
      && (c in t.settings ==>
          Get(u.settings, c) == Some(t.settings[c].(readState := Some(true), explicitUnread := false, clearedAt := at)))
      && (c !in t.settings ==> Get(u.settings, c) == Some(Settings(Some(true), 0, false, false, at, 0, [])))
  {
    hide DeleteThrough, RefreshedChat, ShowsTail, SweptThrough;
    DeleteThroughSweeps(t, c, at);
    SweptStill(t, DeleteThrough(t, c, at), ClearChat(t, c, at), c, at);
    if c in t.chats { RefreshedShowsTail(t.chats[c], Rows(ClearChat(t, c, at).messages, c)); }
  }

  /** A delete sweeps the chat up to its time. With newer rows left the chat stays and shows
      them, and counts as deleted only if it had no settings yet; with none it goes. */
  lemma ChatDeleted(t: Tables, c: Jid, at: int)
    requires c in t.settings ==> at >= t.settings[c].clearedAt
    requires c !in t.settings ==> at >= 0
    ensures var u := DeleteChat(t, c, at);
      var left := Rows(u.messages, c);
      && SweptThrough(t, u, c, at)
      && (left == [] ==> c !in u.chats)
      && (left != [] ==> (c in u.chats <==> c in t.chats))
      && (left != [] && c in t.chats ==>
          && ShowsTail(u.chats[c], left)
          && u.chats[c].name == t.chats[c].name && u.chats[c].nameSource == t.chats[c].nameSource
          && u.chats[c].phone == t.chats[c].phone && u.chats[c].isGroup == t.chats[c].isGroup)
      && (c in t.settings ==> Get(u.settings, c) == Some(t.settings[c].(deleted := left == [], clearedAt := at)))
      && (c !in t.settings ==> Get(u.settings, c) == Some(Settings(None, 0, false, true, at, 0, [])))
  {
    hide DeleteThrough, RefreshedChat, ShowsTail, SweptThrough;
    DeleteThroughSweeps(t, c, at);
    SweptStill(t, DeleteThrough(t, c, at), DeleteChat(t, c, at), c, at);
    if c in t.chats { RefreshedShowsTail(t.chats[c], Rows(DeleteThrough(t, c, at).messages, c)); }
  }

  /** A clear or delete older than the last one changes nothing. */
  lemma StaleSweep(t: Tables, c: Jid, at: int)
    requires c in t.settings && at < t.settings[c].clearedAt
    ensures ClearChat(t, c, at) == t && DeleteChat(t, c, at) == t
  {
  }

  // --------------------------------------------------- one message

  /** No row of equal age comes before it, and none is newer. */
  predicate IsHead(rows: seq<Row>, i: nat) {
    && i < |rows| && (forall j :: 0 <= j < |rows| ==> rows[j].timestamp <= rows[i].timestamp)
    && (forall j :: 0 <= j < i ==> rows[j].timestamp < rows[i].timestamp)
  }

  lemma {:induction false} FindHead(rows: seq<Row>) returns (i: nat)
    requires rows != []
    ensures IsHead(rows, i) && Newest(rows, false) == Some(rows[i])
  {
    var n := |rows| - 1;
    i := n;
    if n > 0 {
      var j := FindHead(rows[..n]);
      assert rows[..n][j] == rows[j];
      assert forall k :: 0 <= k < n ==> rows[..n][k] == rows[k];
      if rows[n].timestamp <= rows[j].timestamp { i := j; }
    }
  }

  /** The chat shows the newest row, the earlier one on ties; with none it keeps its time. */
  ghost predicate ShowsHead(was: Chat, now: Chat, rows: seq<Row>) {
    && now == was.(lastMessage := now.lastMessage, lastTimestamp := now.lastTimestamp)
    && (rows == [] ==> now.lastMessage == "" && now.lastTimestamp == was.lastTimestamp)
    && (rows != [] ==>
        exists i: nat ::
          IsHead(rows, i) && now.lastMessage == rows[i].text && now.lastTimestamp == rows[i].timestamp)
  }

  lemma PreviewShowsHead(chats: map<Jid, Chat>, c: Jid, rows: seq<Row>)
    requires c in chats
    ensures c in WithPreview(chats, c, rows) && ShowsHead(chats[c], WithPreview(chats, c, rows)[c], rows)
  {
    if rows != [] { var i := FindHead(rows); }
  }

  lemma PreviewElsewhere(chats: map<Jid, Chat>, c: Jid, rows: seq<Row>)
    ensures forall d :: d != c ==> Get(WithPreview(chats, c, rows), d) == Get(chats, d)
    ensures c in WithPreview(chats, c, rows) <==> c in chats
  {
    hide Newest;
  }

  lemma SameButOne<V>(m: map<(Jid, Id), V>, p: (Jid, Id))
    ensures SameBut(m, m - {p}, {p})
  {
  }

  /** Deleting a message removes its rows, its votes, reader entries and every reaction to it,
      and nothing else; it leaves a tombstone, and the badge as it was. */
  lemma MessageDeleted(t: Tables, c: Jid, id: Id)
    ensures var u := DeleteMessage(t, c, id);
      && Rows(u.messages, c) == Sifted(Rows(t.messages, c), (r: Row) => r.id != id)
      && (forall d :: d != c ==> Rows(u.messages, d) == Rows(t.messages, d) && Get(u.chats, d) == Get(t.chats, d))
      && SameBut(t.votes, u.votes, {(c, id)}) && SameBut(t.readers, u.readers, {(c, id)})
      && (forall k :: k in u.reactions <==> k in t.reactions && !(k.chat == c && k.message == id))
      && (forall k :: k in u.reactions ==> u.reactions[k] == t.reactions[k])
      && u.tombstones == t.tombstones + {(c, id)}
      && (c in u.chats <==> c in t.chats)
      && (c in t.chats ==> ShowsHead(t.chats[c], u.chats[c], Rows(u.messages, c)))
      && u == t.(messages := u.messages, votes := u.votes, readers := u.readers, reactions := u.reactions,
                 tombstones := u.tombstones, chats := u.chats)
  {
    hide ShowsHead, CutRows, Sifted, WithPreview, SameBut;
    SameButOne(t.votes, (c, id));
    SameButOne(t.readers, (c, id));
    CutIsSifted(WithId(id), Rows(t.messages, c), (r: Row) => r.id != id);
    PreviewElsewhere(t.chats, c, CutRows(WithId(id), Rows(t.messages, c)));
    if c in t.chats { PreviewShowsHead(t.chats, c, CutRows(WithId(id), Rows(t.messages, c))); }
  }
}
