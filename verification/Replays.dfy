/** The batched replay, before its pruning, side by side with the message-by-message one. */
module Replays {
  import opened Prelude
  import opened Schema
  import opened Retention
  import opened History
  import opened Batching

  // --------------------------------------------------- the two replays side by side

  /** What is filed under a chat and a message id, without its sender. */
  datatype Files = Files(votes: map<(Jid, Id), map<Jid, Vote>>, readers: map<(Jid, Id), map<Jid, ReaderTimes>>)

  function FilesOf(t: Tables): Files {
    Files(t.votes, t.readers)
  }

  function StoredFiles(f: Files, c: Jid, rows: seq<Row>): Files {
    Files(WithStored(f.votes, c, rows), WithStored(f.readers, c, rows))
  }

  predicate SameEntry<V(==)>(a: map<(Jid, Id), V>, b: map<(Jid, Id), V>, p: (Jid, Id)) {
    (p in a <==> p in b) && (p in a ==> a[p] == b[p])
  }

  predicate SameFiles(a: Files, b: Files, c: Jid, id: Id) {
    SameEntry(a.votes, b.votes, (c, id)) && SameEntry(a.readers, b.readers, (c, id))
  }

  /** Row r of the pruned chat against row q of the unpruned one: the same message, perhaps
      a newer copy; of the same time it is the same row, with the same votes and readers. */
  predicate TiedTo(q: Row, r: Row, c: Jid, uf: Files, sf: Files) {
    && q.sender == r.sender && q.id == r.id && q.timestamp <= r.timestamp
    && (q.timestamp == r.timestamp ==> q == r && SameFiles(uf, sf, c, r.id))
  }

  predicate FollowsRow(us: seq<Row>, r: Row, c: Jid, uf: Files, sf: Files) {
    exists j :: 0 <= j < |us| && TiedTo(us[j], r, c, uf, sf)
  }

  predicate Follows(us: seq<Row>, ss: seq<Row>, c: Jid, uf: Files, sf: Files) {
    forall i :: 0 <= i < |ss| ==> FollowsRow(us, ss[i], c, uf, sf)
  }

  predicate NoOlder(ss: seq<Row>, timestamp: int) {
    forall i :: 0 <= i < |ss| ==> timestamp <= ss[i].timestamp
  }

  /** Whatever the pruned chat lacks is no newer than anything it holds, and it is full. */
  predicate Outlived(us: seq<Row>, ss: seq<Row>, keep: nat) {
    forall j :: 0 <= j < |us| && !HasKey(ss, us[j].sender, us[j].id) ==> |ss| == keep && NoOlder(ss, us[j].timestamp)
  }

  /** Messages both chats hold come in the same order. */
  predicate InOrder(us: seq<Row>, ss: seq<Row>) {
    forall i, k, j, l :: 0 <= i < k < |ss| && 0 <= j < |us| && 0 <= l < |us| ==>
      SameMessage(us[j], ss[i]) && SameMessage(us[l], ss[k]) ==> j < l
  }

  predicate Alike(u: Tables, s: Tables, c: Jid) {
    && s.keep == u.keep > 0 && s.contacts == u.contacts && s.settings == u.settings && s.tombstones == u.tombstones
    && (forall p :: p in s.votes && p.0 == c ==> p in u.votes)
    && (forall p :: p in s.readers && p.0 == c ==> p in u.readers)
    && UniqueKeys(Rows(u.messages, c)) && UniqueKeys(Rows(s.messages, c)) && |Rows(s.messages, c)| <= s.keep
    && NoOrphans(u, c) && NoOrphans(s, c)
  }

  /** u is the state of the batch before its pruning, s that of the sequential replay. */
  predicate Tied(u: Tables, s: Tables, c: Jid) {
    && Alike(u, s, c)
    && Follows(Rows(u.messages, c), Rows(s.messages, c), c, FilesOf(u), FilesOf(s))
    && Outlived(Rows(u.messages, c), Rows(s.messages, c), s.keep)
    && InOrder(Rows(u.messages, c), Rows(s.messages, c))
  }

  /** The message finds what is under its id undivided, or brings nothing filed by id. */
  predicate Settles(u: Tables, s: Tables, c: Jid, m: Message) {
    Plain(u, c, m) || !Divided(Rows(u.messages, c), Rows(s.messages, c), m, Suppressed(u, c, m))
  }

  // --------------------------------------------------- order

  lemma OrderedShape(us: seq<Row>, ss: seq<Row>, us': seq<Row>, ss': seq<Row>)
    requires SameShape(us, us') && SameShape(ss, ss') && InOrder(us, ss)
    ensures InOrder(us', ss')
  {
    forall i, k, j, l | 0 <= i < k < |ss'| && 0 <= j < |us'| && 0 <= l < |us'|
      && SameMessage(us'[j], ss'[i]) && SameMessage(us'[l], ss'[k])
      ensures j < l
    {
      assert SameMessage(us[j], ss[i]) && SameMessage(us[l], ss[k]);
    }
  }

  lemma OrderedSelf(us: seq<Row>)
    requires UniqueKeys(us)
    ensures InOrder(us, us)
  {
    forall i, k, j, l | 0 <= i < k < |us| && 0 <= j < |us| && 0 <= l < |us|
      && SameMessage(us[j], us[i]) && SameMessage(us[l], us[k])
      ensures j < l
    {
      assert i == j && l == k;
    }
  }

  lemma OrderedWithout(us: seq<Row>, ss: seq<Row>, w: nat)
    requires w < |ss| && InOrder(us, ss)
    ensures InOrder(us, RemoveAt(ss, w))
  {
    var out := RemoveAt(ss, w);
    forall i, k, j, l | 0 <= i < k < |out| && 0 <= j < |us| && 0 <= l < |us|
      && SameMessage(us[j], out[i]) && SameMessage(us[l], out[k])
      ensures j < l
    {
      var i', k' := if i < w then i else i + 1, if k < w then k else k + 1;
      assert out[i] == ss[i'] && out[k] == ss[k'];
    }
  }

  lemma {:induction false} OrderedRetained(us: seq<Row>, ss: seq<Row>, keep: nat)
    requires InOrder(us, ss)
    ensures InOrder(us, Retain(ss, keep))
    decreases |ss|
  {
    hide InOrder;
    if |ss| > keep {
      OrderedWithout(us, ss, Worst(ss));
      OrderedRetained(us, RemoveAt(ss, Worst(ss)), keep);
    }
  }

  /** A message that is new to both goes last in both. */
  lemma OrderedBoth(us: seq<Row>, ss: seq<Row>, row: Row)
    requires InOrder(us, ss) && !HasKey(us, row.sender, row.id) && !HasKey(ss, row.sender, row.id)
    ensures InOrder(us + [row], ss + [row])
  {
    var us', ss' := us + [row], ss + [row];
    forall i, k, j, l | 0 <= i < k < |ss'| && 0 <= j < |us'| && 0 <= l < |us'|
      && SameMessage(us'[j], ss'[i]) && SameMessage(us'[l], ss'[k])
      ensures j < l
    {
      assert ss'[i] == ss[i] && j < |us| && us'[j] == us[j];
      if k < |ss| { assert ss'[k] == ss[k] && us'[l] == us[l]; } else { assert l == |us|; }
    }
  }

  /** A message the unpruned chat has from another time has no place to keep. */
  lemma OrderedNewer(us: seq<Row>, ss: seq<Row>, row: Row)
    requires InOrder(us, ss) && forall j :: 0 <= j < |us| ==> !SameMessage(us[j], row)
    ensures InOrder(us, ss + [row])
  {
    var ss' := ss + [row];
    forall i, k, j, l | 0 <= i < k < |ss'| && 0 <= j < |us| && 0 <= l < |us|
      && SameMessage(us[j], ss'[i]) && SameMessage(us[l], ss'[k])
      ensures j < l
    {
      assert ss'[i] == ss[i];
      if k < |ss| { assert ss'[k] == ss[k]; }
    }
  }

  lemma EditOrdered(us: seq<Row>, ss: seq<Row>, e: Edit)
    requires InOrder(us, ss)
    ensures InOrder(EditRows(e, us), ss)
  {
    OrderedShape(us, ss, EditRows(e, us), ss);
  }

  // --------------------------------------------------- what an id stands for

  lemma HeldShape(ss: seq<Row>, ss': seq<Row>, q: Row, q': Row)
    requires SameShape(ss, ss') && SameMessage(q, q')
    ensures Held(ss, q) <==> Held(ss', q')
  {
    if i :| 0 <= i < |ss| && SameMessage(q, ss[i]) { assert SameMessage(q', ss'[i]); }
    if i :| 0 <= i < |ss'| && SameMessage(q', ss'[i]) { assert SameMessage(q, ss[i]); }
  }

  lemma DividedShape(us: seq<Row>, ss: seq<Row>, us': seq<Row>, ss': seq<Row>, m: Message, suppressed: bool)
    requires SameShape(us, us') && SameShape(ss, ss')
    ensures Divided(us, ss, m, suppressed) <==> Divided(us', ss', m, suppressed)
  {
    hide Held;
    forall i | 0 <= i < |us| ensures us[i].id == us'[i].id && (Held(ss, us[i]) <==> Held(ss', us'[i])) {
      HeldShape(ss, ss', us[i], us'[i]);
    }
    ShapeKeeps(us, us', m);
    SharedShape(us, ss, us', ss', m.id);
  }

  lemma SharedShape(us: seq<Row>, ss: seq<Row>, us': seq<Row>, ss': seq<Row>, id: Id)
    requires |us| == |us'|
    requires forall i :: 0 <= i < |us| ==>
      us[i].id == us'[i].id && (Held(ss, us[i]) <==> Held(ss', us'[i]))
    ensures Shared(us, ss, id) <==> Shared(us', ss', id)
    ensures Lost(us, ss, id) <==> Lost(us', ss', id)
  {
    hide Held;
    if i :| 0 <= i < |us| && us[i].id == id && Held(ss, us[i]) { assert us'[i].id == id && Held(ss', us'[i]); }
    if i :| 0 <= i < |us'| && us'[i].id == id && Held(ss', us'[i]) { assert us[i].id == id && Held(ss, us[i]); }
    if i :| 0 <= i < |us| && us[i].id == id && !Held(ss, us[i]) { assert us'[i].id == id && !Held(ss', us'[i]); }
    if i :| 0 <= i < |us'| && us'[i].id == id && !Held(ss', us'[i]) { assert us[i].id == id && !Held(ss, us[i]); }
  }

  /** A message both hold, of one time, is one row with one set of votes and readers. */
  lemma HeldIsSame(us: seq<Row>, ss: seq<Row>, j: nat, k: nat, c: Jid, uf: Files, sf: Files)
    requires UniqueKeys(us) && Follows(us, ss, c, uf, sf)
    requires j < |us| && k < |ss| && SameMessage(us[j], ss[k])
    ensures us[j] == ss[k] && SameFiles(uf, sf, c, us[j].id)
  {
    assert FollowsRow(us, ss[k], c, uf, sf);
    var i :| 0 <= i < |us| && TiedTo(us[i], ss[k], c, uf, sf);
    assert i == j;
  }

  /** With nothing lost under an id, both chats have the same rows there. */
  lemma SameUnder(us: seq<Row>, ss: seq<Row>, c: Jid, uf: Files, sf: Files, id: Id)
    requires UniqueKeys(us) && UniqueKeys(ss) && Follows(us, ss, c, uf, sf) && !Lost(us, ss, id)
    ensures forall j :: 0 <= j < |us| && us[j].id == id ==> us[j] in ss
    ensures forall k :: 0 <= k < |ss| && ss[k].id == id ==> ss[k] in us
  {
    hide SameFiles;
    forall j | 0 <= j < |us| && us[j].id == id ensures us[j] in ss {
      assert Held(ss, us[j]);
      var k :| 0 <= k < |ss| && SameMessage(us[j], ss[k]);
      HeldIsSame(us, ss, j, k, c, uf, sf);
    }
    forall k | 0 <= k < |ss| && ss[k].id == id ensures ss[k] in us {
      assert FollowsRow(us, ss[k], c, uf, sf);
      var j :| 0 <= j < |us| && TiedTo(us[j], ss[k], c, uf, sf);
      assert us[j] in ss;
      var i :| 0 <= i < |ss| && ss[i] == us[j];
      assert i == k;
    }
  }

  lemma {:induction false} FirstId(rows: seq<Row>, id: Id) returns (i: nat)
    requires HasId(rows, id)
    ensures i < |rows| && rows[i].id == id && FindId(rows, id) == Some(rows[i])
    ensures forall k :: 0 <= k < i ==> rows[k].id != id
  {
    if rows[0].id == id {
      i := 0;
    } else {
      var k :| 0 <= k < |rows| && rows[k].id == id;
      assert rows[1..][k - 1].id == id;
      i := FirstId(rows[1..], id);
      i := i + 1;
    }
  }

  /** The same rows under an id, in the same order, have the same first. */
  lemma SameFirst(us: seq<Row>, ss: seq<Row>, id: Id)
    requires InOrder(us, ss) && HasId(us, id)
    requires forall j :: 0 <= j < |us| && us[j].id == id ==> us[j] in ss
    requires forall k :: 0 <= k < |ss| && ss[k].id == id ==> ss[k] in us
    ensures FindId(us, id) == FindId(ss, id)
  {
    hide InOrder, FindId;
    var i := FirstId(us, id);
    assert us[i] in ss;
    var k :| 0 <= k < |ss| && ss[k] == us[i];
    var e := FirstId(ss, id);
    assert ss[e] in us;
    var l :| 0 <= l < |us| && us[l] == ss[e];
    if e != k { OrderedAt(us, ss, e, k, l, i); }
  }

  lemma OrderedAt(us: seq<Row>, ss: seq<Row>, i: nat, k: nat, j: nat, l: nat)
    requires InOrder(us, ss) && i < k < |ss| && j < |us| && l < |us| && us[j] == ss[i] && us[l] == ss[k]
    ensures j < l
  {
    assert SameMessage(us[j], ss[i]) && SameMessage(us[l], ss[k]);
  }

  // --------------------------------------------------- updates

  lemma EditFollows(us: seq<Row>, ss: seq<Row>, eu: Edit, es: Edit, c: Jid, uf: Files, sf: Files)
    requires Follows(us, ss, c, uf, sf)
    requires forall i :: 0 <= i < |ss| && ss[i] in us && SameFiles(uf, sf, c, ss[i].id) ==>
      EditRow(eu, ss[i]) == EditRow(es, ss[i])
    ensures Follows(EditRows(eu, us), EditRows(es, ss), c, uf, sf)
  {
    forall i | 0 <= i < |ss| ensures FollowsRow(EditRows(eu, us), EditRows(es, ss)[i], c, uf, sf) {
      assert FollowsRow(us, ss[i], c, uf, sf);
      var j :| 0 <= j < |us| && TiedTo(us[j], ss[i], c, uf, sf);
      assert us[j] in us;
      assert TiedTo(EditRows(eu, us)[j], EditRows(es, ss)[i], c, uf, sf);
    }
  }

  lemma EditOutlived(us: seq<Row>, ss: seq<Row>, eu: Edit, es: Edit, keep: nat)
    requires Outlived(us, ss, keep)
    ensures Outlived(EditRows(eu, us), EditRows(es, ss), keep)
  {
    EditKeepsKeys(es, ss);
    forall j | 0 <= j < |us| && !HasKey(EditRows(es, ss), us[j].sender, us[j].id)
      ensures |ss| == keep && NoOlder(EditRows(es, ss), us[j].timestamp)
    {
      assert NoOlder(ss, us[j].timestamp);
    }
  }

  /** The name a replayed message teaches. */
  predicate Teaches(contacts: map<Jid, Contact>, m: Message) {
    !m.fromMe && m.senderName != m.sender && Trim(m.senderName) != "" &&
      (m.sender in contacts ==> contacts[m.sender].source <= 0)
  }

  lemma LearnedRows(t: Tables, c: Jid, m: Message)
    ensures var u := LearnName(t, m);
      && Rows(u.messages, c) == (if Teaches(t.contacts, m)
                                 then EditRows(Rename(m.sender, Trim(m.senderName)), Rows(t.messages, c))
                                 else Rows(t.messages, c))
      && u.contacts == (if Teaches(t.contacts, m)
                        then t.contacts[m.sender := Contact(Trim(m.senderName), 0)] else t.contacts)
  {
  }

  lemma LearnTied(u: Tables, s: Tables, c: Jid, m: Message)
    requires Tied(u, s, c)
    ensures Tied(LearnName(u, m), LearnName(s, m), c)
  {
    hide LearnName;
    var e := Rename(m.sender, Trim(m.senderName));
    LearnedRows(u, c, m);
    LearnedRows(s, c, m);
    LearnAlike(u, s, c, m);
    if Teaches(u.contacts, m) {
      EditFollows(Rows(u.messages, c), Rows(s.messages, c), e, e, c, FilesOf(u), FilesOf(s));
      EditOutlived(Rows(u.messages, c), Rows(s.messages, c), e, e, s.keep);
    }
    LearnSettings(u, m);
    LearnSettings(s, m);
    EditShape(e, Rows(u.messages, c));
    EditShape(e, Rows(s.messages, c));
    if Teaches(u.contacts, m) {
      OrderedShape(Rows(u.messages, c), Rows(s.messages, c), EditRows(e, Rows(u.messages, c)),
                   EditRows(e, Rows(s.messages, c)));
    }
  }

  lemma EditShape(e: Edit, rows: seq<Row>)
    ensures SameShape(rows, EditRows(e, rows))
  {
  }

  lemma LearnAlike(u: Tables, s: Tables, c: Jid, m: Message)
    requires Alike(u, s, c)
    ensures Alike(LearnName(u, m), LearnName(s, m), c)
  {
    hide LearnName, UniqueKeys, NoOrphans;
    LearnShape(u, c, m);
    LearnShape(s, c, m);
    LearnedRows(u, c, m);
    LearnedRows(s, c, m);
    LearnSettings(u, m);
    LearnSettings(s, m);
    ShapeKeeps(Rows(u.messages, c), Rows(LearnName(u, m).messages, c), m);
    ShapeKeeps(Rows(s.messages, c), Rows(LearnName(s, m).messages, c), m);
  }

  // --------------------------------------------------- media

  lemma FollowsKey(us: seq<Row>, ss: seq<Row>, c: Jid, uf: Files, sf: Files, m: Message)
    requires Follows(us, ss, c, uf, sf)
    ensures HasKey(ss, m.sender, m.id) ==> HasKey(us, m.sender, m.id)
  {
    forall i | 0 <= i < |ss| ensures exists j :: 0 <= j < |us| && us[j].sender == ss[i].sender && us[j].id == ss[i].id {
      assert FollowsRow(us, ss[i], c, uf, sf);
      var j :| 0 <= j < |us| && TiedTo(us[j], ss[i], c, uf, sf);
    }
  }

  /** A row both chats hold gets the same media in both. */
  lemma SameMedia(u: Tables, s: Tables, c: Jid, m: Message, media: Media, r: Row)
    requires Tied(u, s, c) && !Parted(Rows(u.messages, c), Rows(s.messages, c), m.id)
    requires r in Rows(u.messages, c) && r in Rows(s.messages, c) && SameFiles(FilesOf(u), FilesOf(s), c, r.id)
    ensures EditRow(SetMedia(m.id, FinalMedia(u, c, m.id, media), IsGif(media)), r)
         == EditRow(SetMedia(m.id, FinalMedia(s, c, m.id, media), IsGif(media)), r)
  {
    hide Follows, InOrder, Outlived, Lost, Shared, UniqueKeys, Carried, FindId;
    if r.id == m.id {
      var us, ss := Rows(u.messages, c), Rows(s.messages, c);
      HasBoth(us, ss, r);
      SameUnder(us, ss, c, FilesOf(u), FilesOf(s), m.id);
      SameFirst(us, ss, m.id);
      assert Inner(u.votes, c, m.id) == Inner(s.votes, c, m.id);
    }
  }

  lemma HasBoth(us: seq<Row>, ss: seq<Row>, r: Row)
    requires r in us && r in ss
    ensures Shared(us, ss, r.id) && HasId(us, r.id)
  {
    var j :| 0 <= j < |us| && us[j] == r;
    var k :| 0 <= k < |ss| && ss[k] == r;
    assert SameMessage(us[j], ss[k]);
    assert Held(ss, us[j]);
  }

  lemma MediaTied(u: Tables, s: Tables, c: Jid, m: Message, media: Media)
    requires Tied(u, s, c) && !Parted(Rows(u.messages, c), Rows(s.messages, c), m.id)
    ensures Tied(UpdateMedia(u, c, m.id, media), UpdateMedia(s, c, m.id, media), c)
  {
    hide FinalMedia, InOrder, Parted;
    var us, ss := Rows(u.messages, c), Rows(s.messages, c);
    var eu := SetMedia(m.id, FinalMedia(u, c, m.id, media), IsGif(media));
    var es := SetMedia(m.id, FinalMedia(s, c, m.id, media), IsGif(media));
    forall i | 0 <= i < |ss| && ss[i] in us && SameFiles(FilesOf(u), FilesOf(s), c, ss[i].id)
      ensures EditRow(eu, ss[i]) == EditRow(es, ss[i])
    {
      SameMedia(u, s, c, m, media, ss[i]);
    }
    EditFollows(us, ss, eu, es, c, FilesOf(u), FilesOf(s));
    EditOutlived(us, ss, eu, es, s.keep);
    EditShape(eu, us);
    EditShape(es, ss);
    OrderedShape(us, ss, EditRows(eu, us), EditRows(es, ss));
    MediaAlike(u, s, c, m, media);
  }

  lemma MediaAlike(u: Tables, s: Tables, c: Jid, m: Message, media: Media)
    requires Alike(u, s, c)
    ensures Alike(UpdateMedia(u, c, m.id, media), UpdateMedia(s, c, m.id, media), c)
  {
    hide FinalMedia, UniqueKeys, NoOrphans;
    MediaShape(u, c, m.id, media);
    MediaShape(s, c, m.id, media);
    ShapeKeeps(Rows(u.messages, c), Rows(UpdateMedia(u, c, m.id, media).messages, c), m);
    ShapeKeeps(Rows(s.messages, c), Rows(UpdateMedia(s, c, m.id, media).messages, c), m);
  }

  lemma CompleteTied(u: Tables, s: Tables, c: Jid, m: Message)
    requires Tied(u, s, c) && (m.media.Some? ==> !Parted(Rows(u.messages, c), Rows(s.messages, c), m.id))
    ensures Tied(Complete(u, c, m), Complete(s, c, m), c)
  {
    hide UpdateMedia, Tied, Parted;
    if m.media.Some? { MediaTied(u, s, c, m, m.media.value); }
  }

  // --------------------------------------------------- a row more

  /** What a full chat is left with after one more row. */
  lemma RetainOneMore(ss: seq<Row>, row: Row, keep: nat)
    requires keep > 0 && |ss| <= keep
    ensures var all := ss + [row]; var w := Worst(all);
      && (|ss| < keep ==> Retain(all, keep) == all)
      && (|ss| == keep ==> Retain(all, keep) == RemoveAt(all, w))
      && (|ss| == keep && w == |ss| ==> Retain(all, keep) == ss)
  {
    var all := ss + [row];
    if |ss| == keep {
      assert Retain(all, keep) == Retain(RemoveAt(all, Worst(all)), keep);
      if Worst(all) == |ss| { assert RemoveAt(all, |ss|) == ss; }
    }
  }

  lemma FollowsStored(us: seq<Row>, out: seq<Row>, i: nat, c: Jid, uf: Files, sf: Files)
    requires i < |out| && FollowsRow(us, out[i], c, uf, sf)
    ensures FollowsRow(us, out[i], c, uf, StoredFiles(sf, c, out))
  {
    var j :| 0 <= j < |us| && TiedTo(us[j], out[i], c, uf, sf);
    assert HasId(out, out[i].id);
    assert TiedTo(us[j], out[i], c, uf, StoredFiles(sf, c, out));
  }

  lemma FollowsMember(us: seq<Row>, ss: seq<Row>, r: Row, c: Jid, uf: Files, sf: Files)
    requires Follows(us, ss, c, uf, sf) && r in ss
    ensures FollowsRow(us, r, c, uf, sf)
  {
    var k :| 0 <= k < |ss| && ss[k] == r;
  }

  lemma KeptOfMore(ss: seq<Row>, row: Row, keep: nat, i: nat)
    requires keep > 0 && |ss| <= keep && i < |Retain(ss + [row], keep)|
    ensures Retain(ss + [row], keep)[i] in ss ||
      (Retain(ss + [row], keep)[i] == row && !(|ss| == keep && Worst(ss + [row]) == |ss|))
  {
    var out := Retain(ss + [row], keep);
    RetainOneMore(ss, row, keep);
    assert out[i] in out && out[i] in ss + [row];
  }

  /** The new row, unless it is evicted at once, follows the unpruned chat. */
  lemma AppendFollows(us: seq<Row>, ss: seq<Row>, row: Row, keep: nat, c: Jid, uf: Files, sf: Files)
    requires keep > 0 && |ss| <= keep && Follows(us, ss, c, uf, sf)
    requires (|ss| == keep && Worst(ss + [row]) == |ss|) || FollowsRow(us, row, c, uf, sf)
    ensures var out := Retain(ss + [row], keep); Follows(us, out, c, uf, StoredFiles(sf, c, out))
  {
    hide Follows, FollowsRow;
    var out := Retain(ss + [row], keep);
    forall i | 0 <= i < |out| ensures FollowsRow(us, out[i], c, uf, StoredFiles(sf, c, out)) {
      KeptOfMore(ss, row, keep, i);
      if out[i] in ss { FollowsMember(us, ss, out[i], c, uf, sf); }
      FollowsStored(us, out, i, c, uf, sf);
    }
    FollowsAll(us, out, c, uf, StoredFiles(sf, c, out));
  }

  lemma FollowsAll(us: seq<Row>, ss: seq<Row>, c: Jid, uf: Files, sf: Files)
    requires forall i :: 0 <= i < |ss| ==> FollowsRow(us, ss[i], c, uf, sf)
    ensures Follows(us, ss, c, uf, sf)
  {
  }

  lemma AppendOutlived(us: seq<Row>, ss: seq<Row>, row: Row, keep: nat)
    requires keep > 0 && |ss| <= keep && UniqueKeys(ss + [row])
    requires forall j :: 0 <= j < |us| && !HasKey(ss + [row], us[j].sender, us[j].id) ==>
      |ss| == keep && NoOlder(ss, us[j].timestamp)
    requires forall j :: 0 <= j < |us| && us[j].sender == row.sender && us[j].id == row.id ==>
      us[j].timestamp <= row.timestamp || (|ss| == keep && NoOlder(ss, us[j].timestamp))
    requires forall j, i :: 0 <= j < |us| && 0 <= i < |ss| && us[j].sender == ss[i].sender && us[j].id == ss[i].id ==>
      us[j].timestamp <= ss[i].timestamp
    ensures Outlived(us, Retain(ss + [row], keep), keep)
  {
    var all, out := ss + [row], Retain(ss + [row], keep);
    RetainOneMore(ss, row, keep);
    assert |ss| < keep ==> out == all;
    forall j | 0 <= j < |us| && !HasKey(out, us[j].sender, us[j].id)
      ensures |out| == keep && NoOlder(out, us[j].timestamp)
    {
      if |ss| == keep { MissingIsOlder(us[j], ss, row, keep); }
    }
  }

  lemma StaysBeside(all: seq<Row>, w: nat, k: nat)
    requires w < |all| && k < |all|
    ensures k != w ==> HasKey(RemoveAt(all, w), all[k].sender, all[k].id)
  {
    if k < w {
      assert RemoveAt(all, w)[k] == all[k];
    } else if k > w {
      assert RemoveAt(all, w)[k - 1] == all[k];
    }
  }

  lemma MissingIsOlder(q: Row, ss: seq<Row>, row: Row, keep: nat)
    requires keep > 0 && |ss| == keep && UniqueKeys(ss + [row])
    requires !HasKey(Retain(ss + [row], keep), q.sender, q.id)
    requires !HasKey(ss + [row], q.sender, q.id) ==> NoOlder(ss, q.timestamp)
    requires q.sender == row.sender && q.id == row.id ==> q.timestamp <= row.timestamp || NoOlder(ss, q.timestamp)
    requires forall i :: 0 <= i < |ss| && q.sender == ss[i].sender && q.id == ss[i].id ==>
      q.timestamp <= ss[i].timestamp
    ensures NoOlder(Retain(ss + [row], keep), q.timestamp)
  {
    var all := ss + [row];
    var w := Worst(all);
    var out := RemoveAt(all, w);
    RetainOneMore(ss, row, keep);
    forall i | 0 <= i < |out|
      ensures all[w].timestamp <= out[i].timestamp && out[i] == all[if i < w then i else i + 1] {}
    if HasKey(all, q.sender, q.id) {
      var k :| 0 <= k < |all| && all[k].sender == q.sender && all[k].id == q.id;
      StaysBeside(all, w, k);
    }
    if w == |ss| {
      assert out == ss;
    } else {
      assert all[w] == ss[w];
    }
  }

  lemma FollowsTimes(us: seq<Row>, ss: seq<Row>, c: Jid, uf: Files, sf: Files)
    requires Follows(us, ss, c, uf, sf) && UniqueKeys(us)
    ensures forall j, i :: 0 <= j < |us| && 0 <= i < |ss| && us[j].sender == ss[i].sender && us[j].id == ss[i].id ==>
      us[j].timestamp <= ss[i].timestamp
  {
    forall j, i | 0 <= j < |us| && 0 <= i < |ss| && us[j].sender == ss[i].sender && us[j].id == ss[i].id
      ensures us[j].timestamp <= ss[i].timestamp
    {
      assert FollowsRow(us, ss[i], c, uf, sf);
      var k :| 0 <= k < |us| && TiedTo(us[k], ss[i], c, uf, sf);
      assert k == j;
    }
  }

  // --------------------------------------------------- stored in both

  lemma GrownFollows(us: seq<Row>, ss: seq<Row>, row: Row, c: Jid, uf: Files, sf: Files)
    requires Follows(us, ss, c, uf, sf)
    ensures Follows(us + [row], ss, c, uf, sf)
  {
    var us' := us + [row];
    forall i | 0 <= i < |ss| ensures FollowsRow(us', ss[i], c, uf, sf) {
      assert FollowsRow(us, ss[i], c, uf, sf);
      var j :| 0 <= j < |us| && TiedTo(us[j], ss[i], c, uf, sf);
      assert us'[j] == us[j];
    }
  }

  lemma TiedToSelf(us: seq<Row>, j: nat, row: Row, c: Jid, uf: Files, sf: Files)
    requires j < |us| && us[j] == row && SameFiles(uf, sf, c, row.id)
    ensures TiedTo(us[j], row, c, uf, sf)
  {
  }

  lemma BothRows(us: seq<Row>, ss: seq<Row>, row: Row, keep: nat, c: Jid, uf: Files, sf: Files)
    requires keep > 0 && |ss| <= keep && UniqueKeys(us) && UniqueKeys(ss)
    requires Follows(us, ss, c, uf, sf) && Outlived(us, ss, keep) && InOrder(us, ss)
    requires !HasKey(us, row.sender, row.id) && !HasKey(ss, row.sender, row.id) && SameFiles(uf, sf, c, row.id)
    ensures var out := Retain(ss + [row], keep);
      && Follows(us + [row], out, c, uf, StoredFiles(sf, c, out)) && Outlived(us + [row], out, keep)
      && InOrder(us + [row], out)
  {
    hide Retain, TiedTo, Follows, Outlived, InOrder, NoOlder, UniqueKeys, HasKey;
    OrderedBoth(us, ss, row);
    OrderedRetained(us + [row], ss + [row], keep);
    var us' := us + [row];
    GrownFollows(us, ss, row, c, uf, sf);
    TiedToSelf(us', |us|, row, c, uf, sf);
    AppendFollows(us', ss, row, keep, c, uf, sf);
    UniqueAppend(us, row);
    UniqueAppend(ss, row);
    FollowsTimes(us', ss, c, uf, sf);
    GrownLacks(us, ss, row, keep);
    AppendOutlived(us', ss, row, keep);
  }

  /** What the pruned chat lacks once both have the row, it lacked before. */
  lemma GrownLacks(us: seq<Row>, ss: seq<Row>, row: Row, keep: nat)
    requires Outlived(us, ss, keep) && !HasKey(us, row.sender, row.id)
    ensures var us' := us + [row];
      && (forall j :: 0 <= j < |us'| && !HasKey(ss + [row], us'[j].sender, us'[j].id) ==>
          |ss| == keep && NoOlder(ss, us'[j].timestamp))
      && (forall j :: 0 <= j < |us'| && us'[j].sender == row.sender && us'[j].id == row.id ==>
          us'[j].timestamp <= row.timestamp)
  {
    hide NoOlder;
    var us', all := us + [row], ss + [row];
    forall j | 0 <= j < |us'| && !HasKey(all, us'[j].sender, us'[j].id)
      ensures |ss| == keep && NoOlder(ss, us'[j].timestamp)
    {
      KeyGrows(ss, row, us'[j].sender, us'[j].id);
      assert j < |us| && us'[j] == us[j];
    }
  }

  lemma KeyGrows(ss: seq<Row>, row: Row, sender: Jid, id: Id)
    ensures HasKey(ss + [row], sender, id) <==> HasKey(ss, sender, id) || (row.sender == sender && row.id == id)
  {
    var all := ss + [row];
    if i :| 0 <= i < |ss| && ss[i].sender == sender && ss[i].id == id { assert all[i] == ss[i]; }
    if row.sender == sender && row.id == id { assert all[|ss|] == row; }
  }

  // --------------------------------------------------- stored again, in the pruned chat only

  lemma AgainRows(us: seq<Row>, ss: seq<Row>, row: Row, keep: nat, c: Jid, uf: Files, sf: Files)
    requires keep > 0 && |ss| <= keep && UniqueKeys(us) && UniqueKeys(ss)
    requires Follows(us, ss, c, uf, sf) && Outlived(us, ss, keep) && InOrder(us, ss)
    requires HasKey(us, row.sender, row.id) && !HasKey(ss, row.sender, row.id)
    ensures var out := Retain(ss + [row], keep);
      Follows(us, out, c, uf, StoredFiles(sf, c, out)) && Outlived(us, out, keep) && InOrder(us, out)
  {
    hide InOrder;
    AgainOrdered(us, ss, row, keep);
    var all := ss + [row];
    var k :| 0 <= k < |us| && us[k].sender == row.sender && us[k].id == row.id;
    assert |ss| == keep && NoOlder(ss, us[k].timestamp);
    if Worst(all) != |ss| {
      assert all[Worst(all)] == ss[Worst(all)] && all[|ss|] == row;
      assert TiedTo(us[k], row, c, uf, sf);
    }
    AppendFollows(us, ss, row, keep, c, uf, sf);
    FollowsTimes(us, ss, c, uf, sf);
    forall j | 0 <= j < |us| && !HasKey(all, us[j].sender, us[j].id)
      ensures |ss| == keep && NoOlder(ss, us[j].timestamp)
    {
      KeyGrows(ss, row, us[j].sender, us[j].id);
    }
    forall j | 0 <= j < |us| && us[j].sender == row.sender && us[j].id == row.id ensures NoOlder(ss, us[j].timestamp) {}
    AppendOutlived(us, ss, row, keep);
  }

  /** What it keeps of them is newer than the row the unpruned chat has. */
  lemma AgainOrdered(us: seq<Row>, ss: seq<Row>, row: Row, keep: nat)
    requires keep > 0 && |ss| <= keep && UniqueKeys(us) && Outlived(us, ss, keep) && InOrder(us, ss)
    requires HasKey(us, row.sender, row.id) && !HasKey(ss, row.sender, row.id)
    ensures InOrder(us, Retain(ss + [row], keep))
  {
    hide InOrder;
    var all := ss + [row];
    var k :| 0 <= k < |us| && us[k].sender == row.sender && us[k].id == row.id;
    assert |ss| == keep && NoOlder(ss, us[k].timestamp);
    RetainOneMore(ss, row, keep);
    if Worst(all) != |ss| {
      assert all[Worst(all)] == ss[Worst(all)] && all[|ss|] == row;
      forall j | 0 <= j < |us| ensures !SameMessage(us[j], row) {
        if us[j].sender == row.sender && us[j].id == row.id { assert j == k; }
      }
      OrderedNewer(us, ss, row);
      OrderedRetained(us, all, keep);
    }
  }

  // --------------------------------------------------- one message

  lemma PrunedRows(t: Tables, c: Jid)
    ensures Rows(Prune(t, c).messages, c) == Retain(Rows(t.messages, c), t.keep)
    ensures FilesOf(Prune(t, c)) == StoredFiles(FilesOf(t), c, Retain(Rows(t.messages, c), t.keep))
    ensures Prune(t, c)
      == t.(messages := Prune(t, c).messages, votes := Prune(t, c).votes, readers := Prune(t, c).readers)
  {
  }

  /** A pruned copy is alike again. */
  lemma PruneAlike(u: Tables, s: Tables, c: Jid)
    requires s.keep == u.keep > 0 && s.contacts == u.contacts
    requires s.settings == u.settings && s.tombstones == u.tombstones
    requires forall p :: p in s.votes && p.0 == c ==> p in u.votes
    requires forall p :: p in s.readers && p.0 == c ==> p in u.readers
    requires UniqueKeys(Rows(u.messages, c)) && UniqueKeys(Rows(s.messages, c)) && NoOrphans(u, c)
    ensures Alike(u, Prune(s, c), c)
  {
    PrunedRows(s, c);
    RetainKeepsKeys(Rows(s.messages, c), s.keep);
    PruneKeepsNoOrphans(s, c);
  }

  lemma NewRowAlike(u: Tables, s: Tables, c: Jid, ins: Insert)
    requires s.contacts == u.contacts && s.settings == u.settings && s.tombstones == u.tombstones
    ensures NewRow(u, c, ins) == NewRow(s, c, ins)
    ensures Suppressed(u, c, ins.message) == Suppressed(s, c, ins.message)
  {
  }

  /** A message new to both finds the same votes and readers under its id. */
  lemma NewFiles(u: Tables, s: Tables, c: Jid, m: Message)
    requires Tied(u, s, c) && Settles(u, s, c, m) && !Suppressed(u, c, m) &&
      !HasKey(Rows(u.messages, c), m.sender, m.id)
    ensures SameFiles(FilesOf(u), FilesOf(s), c, m.id)
  {
    hide Outlived, InOrder, Follows;
    var us, ss := Rows(u.messages, c), Rows(s.messages, c);
    if !Plain(u, c, m) && HasId(us, m.id) {
      var j :| 0 <= j < |us| && us[j].id == m.id;
      assert Held(ss, us[j]);
      var k :| 0 <= k < |ss| && SameMessage(us[j], ss[k]);
      HeldIsSame(us, ss, j, k, c, FilesOf(u), FilesOf(s));
    }
  }

  lemma UniqueAppend(rows: seq<Row>, row: Row)
    requires UniqueKeys(rows) && !HasKey(rows, row.sender, row.id)
    ensures UniqueKeys(rows + [row])
  {
  }

  lemma StoredBothTied(u: Tables, s: Tables, c: Jid, ins: Insert)
    requires Tied(u, s, c) && Settles(u, s, c, ins.message) && ins.fromHistory
    requires Stores(u, c, ins) && Stores(s, c, ins)
    ensures Tied(InsertMessage(u, c, ins), Prune(InsertMessage(s, c, ins), c), c)
  {
    hide NewRow, Suppressed, Settles, InOrder;
    var row, v, w := NewRow(u, c, ins), InsertMessage(u, c, ins), InsertMessage(s, c, ins);
    var us, ss := Rows(u.messages, c), Rows(s.messages, c);
    NewRowAlike(u, s, c, ins);
    NewFiles(u, s, c, ins.message);
    NewRowKey(u, c, ins);
    InsertShape(u, c, ins);
    InsertShape(s, c, ins);
    InsertRest(u, c, ins);
    InsertRest(s, c, ins);
    UniqueAppend(us, row);
    UniqueAppend(ss, row);
    BothRows(us, ss, row, s.keep, c, FilesOf(u), FilesOf(s));
    PruneAlike(v, w, c);
    PrunedRows(w, c);
    TiedOf(v, Prune(w, c), c, us + [row], Retain(ss + [row], s.keep));
  }

  lemma NewRowKey(t: Tables, c: Jid, ins: Insert)
    ensures var r := NewRow(t, c, ins); r.sender == ins.message.sender && r.id == ins.message.id
  {
  }

  lemma InsertRest(t: Tables, c: Jid, ins: Insert)
    requires ins.fromHistory
    ensures var u := InsertMessage(t, c, ins);
      && u.keep == t.keep && u.contacts == t.contacts && u.settings == t.settings && u.tombstones == t.tombstones
      && u.votes == t.votes && u.readers == t.readers
  {
  }

  lemma TiedOf(u: Tables, s: Tables, c: Jid, us: seq<Row>, ss: seq<Row>)
    requires Alike(u, s, c) && Rows(u.messages, c) == us && Rows(s.messages, c) == ss
    requires Follows(us, ss, c, FilesOf(u), FilesOf(s)) && Outlived(us, ss, s.keep) && InOrder(us, ss)
    ensures Tied(u, s, c)
  {
  }

  /** The pruned chat stores anew what the unpruned one still has. */
  lemma StoredAgainTied(u: Tables, s: Tables, c: Jid, ins: Insert)
    requires Tied(u, s, c) && ins.fromHistory
    requires !Stores(u, c, ins) && Stores(s, c, ins)
    ensures Tied(InsertMessage(u, c, ins), Prune(InsertMessage(s, c, ins), c), c)
  {
    hide NewRow, InOrder;
    var row, v, w := NewRow(u, c, ins), InsertMessage(u, c, ins), InsertMessage(s, c, ins);
    var us, ss := Rows(u.messages, c), Rows(s.messages, c);
    NewRowAlike(u, s, c, ins);
    NewRowKey(u, c, ins);
    InsertShape(u, c, ins);
    InsertShape(s, c, ins);
    InsertRest(u, c, ins);
    InsertRest(s, c, ins);
    UniqueAppend(ss, row);
    AgainRows(us, ss, row, s.keep, c, FilesOf(u), FilesOf(s));
    PruneAlike(v, w, c);
    PrunedRows(w, c);
    TiedOf(v, Prune(w, c), c, us, Retain(ss + [row], s.keep));
  }

  lemma IgnoredTied(u: Tables, s: Tables, c: Jid, ins: Insert)
    requires Tied(u, s, c) && ins.fromHistory
    requires !Stores(u, c, ins) && !Stores(s, c, ins)
    ensures Tied(InsertMessage(u, c, ins), InsertMessage(s, c, ins), c)
  {
    hide InOrder;
    InsertShape(u, c, ins);
    InsertShape(s, c, ins);
    InsertRest(u, c, ins);
    InsertRest(s, c, ins);
  }

  lemma EditUnpruned(us: seq<Row>, ss: seq<Row>, e: Edit, keep: nat, c: Jid, uf: Files, sf: Files)
    requires Follows(us, ss, c, uf, sf) && Outlived(us, ss, keep)
    requires forall i :: 0 <= i < |ss| && ss[i] in us ==> EditRow(e, ss[i]) == ss[i]
    ensures Follows(EditRows(e, us), ss, c, uf, sf) && Outlived(EditRows(e, us), ss, keep)
  {
    forall i | 0 <= i < |ss| ensures FollowsRow(EditRows(e, us), ss[i], c, uf, sf) {
      assert FollowsRow(us, ss[i], c, uf, sf);
      var j :| 0 <= j < |us| && TiedTo(us[j], ss[i], c, uf, sf);
      assert us[j] in us;
      assert TiedTo(EditRows(e, us)[j], ss[i], c, uf, sf);
    }
  }

  lemma MediaAlikeAlone(u: Tables, s: Tables, c: Jid, m: Message, media: Media)
    requires Alike(u, s, c)
    ensures Alike(UpdateMedia(u, c, m.id, media), s, c)
  {
    hide FinalMedia, UniqueKeys, NoOrphans;
    MediaShape(u, c, m.id, media);
    ShapeKeeps(Rows(u.messages, c), Rows(UpdateMedia(u, c, m.id, media).messages, c), m);
  }

  lemma MissesHeld(us: seq<Row>, ss: seq<Row>, m: Message, e: Edit)
    requires e.SetMedia? && e.id == m.id && forall i :: 0 <= i < |ss| && ss[i].id == m.id ==> ss[i] !in us
    ensures forall i :: 0 <= i < |ss| && ss[i] in us ==> EditRow(e, ss[i]) == ss[i]
  {
  }

  /** The media of an ignored copy goes to the unpruned chat's older row, which the pruned
      chat does not have. */
  lemma CompleteUnprunedTied(u: Tables, s: Tables, c: Jid, m: Message)
    requires Tied(u, s, c)
    requires forall i :: 0 <= i < |Rows(s.messages, c)| && Rows(s.messages, c)[i].id == m.id ==>
      Rows(s.messages, c)[i] !in Rows(u.messages, c)
    ensures Tied(Complete(u, c, m), s, c)
  {
    hide FinalMedia, InOrder, Follows, Outlived, Alike, RelabelledChats, EditRow, Rows, WithRows;
    if m.media.Some? {
      var us, ss := Rows(u.messages, c), Rows(s.messages, c);
      var e := SetMedia(m.id, FinalMedia(u, c, m.id, m.media.value), IsGif(m.media.value));
      MediaAlikeAlone(u, s, c, m, m.media.value);
      MissesHeld(us, ss, m, e);
      EditUnpruned(us, ss, e, s.keep, c, FilesOf(u), FilesOf(s));
      EditOrdered(us, ss, e);
      TiedOf(Complete(u, c, m), s, c, EditRows(e, us), ss);
    }
  }

  lemma NotAmong(us: seq<Row>, k: nat, row: Row)
    requires k < |us| && UniqueKeys(us) && us[k].sender == row.sender && us[k].id == row.id &&
      us[k].timestamp != row.timestamp
    ensures row !in us
  {
    forall j | 0 <= j < |us| ensures us[j] != row {}
  }

  /** The copy the pruned chat stored anew is not a row of the unpruned one. */
  lemma AgainIsNewer(us: seq<Row>, ss: seq<Row>, row: Row, keep: nat, m: Message)
    requires keep > 0 && |ss| == keep && UniqueKeys(us) && UniqueKeys(ss + [row]) && !Shared(us, ss, m.id)
    requires row.sender == m.sender && row.id == m.id && Outlived(us, ss, keep)
    requires HasKey(us, m.sender, m.id) && !HasKey(ss, m.sender, m.id)
    ensures var out := Retain(ss + [row], keep);
      forall i :: 0 <= i < |out| && out[i].id == m.id ==> out[i] !in us
  {
    var all, out := ss + [row], Retain(ss + [row], keep);
    RetainOneMore(ss, row, keep);
    var k :| 0 <= k < |us| && us[k].sender == m.sender && us[k].id == m.id;
    assert NoOlder(ss, us[k].timestamp);
    var w := Worst(all);
    if w != |ss| { assert all[w] == ss[w] && all[|ss|] == row; }
    assert w != |ss| ==> row !in us by {
      if w != |ss| { NotAmong(us, k, row); }
    }
    forall i | 0 <= i < |out| && out[i].id == m.id ensures out[i] !in us {
      assert out[i] in out && out[i] in all;
      assert out[i] in ss || (out[i] == row && w != |ss|);
      if out[i] in us && out[i] in ss { HasBoth(us, ss, out[i]); }
    }
  }

  // --------------------------------------------------- the step

  /** Storing or completing one message, with and without pruning, keeps the tie. */
  lemma StoreTied(u: Tables, s: Tables, h: HistoryChat, m: Message)
    requires Tied(u, s, h.jid) && Settles(u, s, h.jid, m)
    ensures Tied(StoreOrComplete(u, h, m), Prune(StoreOrComplete(s, h, m), h.jid), h.jid)
  {
    hide Tied, InsertMessage, Complete, Lost, Shared, HasKey;
    var c, ins := h.jid, HistoryInsert(h, m);
    var us, ss := Rows(u.messages, c), Rows(s.messages, c);
    var v, w := InsertMessage(u, c, ins), InsertMessage(s, c, ins);
    TiedParts(u, s, c, m);
    NewRowAlike(u, s, c, ins);
    if Stores(u, c, ins) {
      StoredBothTied(u, s, c, ins);
    } else if Stores(s, c, ins) {
      StoredAgainTied(u, s, c, ins);
      OwnIsLost(us, ss, m);
      if m.media.Some? { AgainCompleteTied(u, s, c, ins); } else { NothingToComplete(v, c, m); }
    } else {
      IgnoredTied(u, s, c, ins);
      InsertShape(u, c, ins);
      InsertShape(s, c, ins);
      CompleteTied(v, w, c, m);
      TiedIdle(Complete(v, c, m), Complete(w, c, m), c);
    }
  }

  lemma OwnIsLost(us: seq<Row>, ss: seq<Row>, m: Message)
    requires HasKey(us, m.sender, m.id) && !HasKey(ss, m.sender, m.id)
    ensures Lost(us, ss, m.id)
  {
    var k :| 0 <= k < |us| && us[k].sender == m.sender && us[k].id == m.id;
    assert !Held(ss, us[k]);
  }

  lemma NothingToComplete(t: Tables, c: Jid, m: Message)
    requires m.media.None?
    ensures Complete(t, c, m) == t
  {
  }

  lemma TiedParts(u: Tables, s: Tables, c: Jid, m: Message)
    requires Tied(u, s, c)
    ensures Alike(u, s, c) &&
      (HasKey(Rows(s.messages, c), m.sender, m.id) ==> HasKey(Rows(u.messages, c), m.sender, m.id))
  {
    FollowsKey(Rows(u.messages, c), Rows(s.messages, c), c, FilesOf(u), FilesOf(s), m);
  }

  lemma TiedIdle(u: Tables, s: Tables, c: Jid)
    requires Tied(u, s, c)
    ensures Prune(s, c) == s
  {
    PruneIdle(s, c);
  }

  lemma AgainCompleteTied(u: Tables, s: Tables, c: Jid, ins: Insert)
    requires Tied(u, s, c) && ins.fromHistory && !Shared(Rows(u.messages, c), Rows(s.messages, c), ins.message.id)
    requires !Stores(u, c, ins) && Stores(s, c, ins)
    requires Tied(InsertMessage(u, c, ins), Prune(InsertMessage(s, c, ins), c), c)
    ensures Tied(Complete(InsertMessage(u, c, ins), c, ins.message), Prune(InsertMessage(s, c, ins), c), c)
  {
    hide NewRow, Complete;
    var us, ss, m := Rows(u.messages, c), Rows(s.messages, c), ins.message;
    var v, w := InsertMessage(u, c, ins), InsertMessage(s, c, ins);
    TiedParts(u, s, c, m);
    NewRowAlike(u, s, c, ins);
    NewRowKey(s, c, ins);
    InsertShape(u, c, ins);
    InsertShape(s, c, ins);
    InsertRest(s, c, ins);
    UniqueAppend(ss, NewRow(s, c, ins));
    assert HasKey(us, m.sender, m.id);
    LacksIsFull(us, ss, s.keep, m);
    AgainIsNewer(us, ss, NewRow(s, c, ins), s.keep, m);
    PrunedRows(w, c);
    CompleteUnprunedTied(v, Prune(w, c), c, m);
  }

  lemma LacksIsFull(us: seq<Row>, ss: seq<Row>, keep: nat, m: Message)
    requires Outlived(us, ss, keep) && HasKey(us, m.sender, m.id) && !HasKey(ss, m.sender, m.id)
    ensures |ss| == keep
  {
    var k :| 0 <= k < |us| && us[k].sender == m.sender && us[k].id == m.id;
  }

  // --------------------------------------------------- whole replays

  /** Before anything overflows the two replays hold the same tables. */
  lemma PrunedIsTied(u: Tables, c: Jid)
    requires u.keep > 0 && UniqueKeys(Rows(u.messages, c)) && NoOrphans(u, c)
    ensures Tied(u, Prune(u, c), c)
  {
    hide UniqueKeys, NoOrphans, Alike, Outlived, InOrder, Retain;
    var us, ss := Rows(u.messages, c), Retain(Rows(u.messages, c), u.keep);
    PruneAlike(u, u, c);
    OrderedSelf(us);
    OrderedRetained(us, us, u.keep);
    PrunedRows(u, c);
    forall i | 0 <= i < |ss| ensures FollowsRow(us, ss[i], c, FilesOf(u), FilesOf(Prune(u, c))) {
      assert ss[i] in ss && ss[i] in us;
      var j :| 0 <= j < |us| && us[j] == ss[i];
      assert HasId(ss, ss[i].id);
      assert TiedTo(us[j], ss[i], c, FilesOf(u), FilesOf(Prune(u, c)));
    }
    RetainedOutlives(us, u.keep);
  }

  lemma RetainedOutlives(us: seq<Row>, keep: nat)
    ensures Outlived(us, Retain(us, keep), keep)
  {
    var ss := Retain(us, keep);
    forall j | 0 <= j < |us| && !HasKey(ss, us[j].sender, us[j].id)
      ensures |ss| == keep && NoOlder(ss, us[j].timestamp)
    {
      assert us[j] in us && us[j] !in ss;
      forall i | 0 <= i < |ss| ensures us[j].timestamp <= ss[i].timestamp {
        EvictedIsOlder(us, keep, ss[i], us[j]);
      }
    }
  }

  lemma LearnSettles(u: Tables, s: Tables, c: Jid, m: Message)
    requires Settles(u, s, c, m)
    ensures Settles(LearnName(u, m), LearnName(s, m), c, m)
  {
    hide LearnName, SameShape, Divided;
    LearnShape(u, c, m);
    LearnShape(s, c, m);
    LearnSettings(u, m);
    DividedShape(Rows(LearnName(u, m).messages, c), Rows(LearnName(s, m).messages, c),
                 Rows(u.messages, c), Rows(s.messages, c), m, Suppressed(u, c, m));
  }

  /** One message of the two replays. */
  lemma MessageTied(u: Tables, s: Tables, h: HistoryChat, m: Message)
    requires Tied(u, s, h.jid) && Settles(u, s, h.jid, m)
    ensures Tied(HistoryMessage(u, h, m).0, SequentialMessage(s, h, m).0, h.jid)
  {
    hide Tied, StoreOrComplete, LearnName, SequentialMessage, HistoryMessage, Prune;
    TiedParts(u, s, h.jid, m);
    SequentialIsPruned(s, h, m);
    HistoryIsStore(u, h, m);
    HistoryIsStore(s, h, m);
    LearnTied(u, s, h.jid, m);
    LearnSettles(u, s, h.jid, m);
    StoreTied(LearnName(u, m), LearnName(s, m), h, m);
  }

  ghost function Replayed(t: Tables, h: HistoryChat, ms: seq<Message>): Tables {
    SequentialMessages(InsertChat(t, h), h, ms).0
  }

  // --------------------------------------------------- the shapes, read off the arguments

  lemma {:induction false} TrickledShape(t: Tables, h: HistoryChat, ms: seq<Message>)
    requires Replayable(t, h.jid)
    ensures var s := Replayed(t, h, ms);
      && SameShape(Trickled(t, h.jid, ms), Rows(s.messages, h.jid))
      && s.settings == t.settings && s.tombstones == t.tombstones
      && s.keep == t.keep && NoOrphans(s, h.jid) && |Rows(s.messages, h.jid)| <= s.keep
  {
    hide SequentialMessage, InsertChat, Replayable;
    ReplayedChatKeeps(t, h);
    ReplayableParts(t, h.jid);
    ReplayableParts(InsertChat(t, h), h.jid);
    if ms != [] {
      var n := |ms| - 1;
      TrickledShape(t, h, ms[..n]);
      TrickledStep(Replayed(t, h, ms[..n]), h, ms[n], Trickled(t, h.jid, ms[..n]));
    }
  }

  lemma ReplayableParts(t: Tables, c: Jid)
    requires Replayable(t, c)
    ensures t.keep > 0 && |Rows(t.messages, c)| <= t.keep && NoOrphans(t, c)
  {
  }

  lemma TrickledStep(s: Tables, h: HistoryChat, m: Message, rows: seq<Row>)
    requires SameShape(rows, Rows(s.messages, h.jid)) && NoOrphans(s, h.jid)
    requires s.keep > 0 && |Rows(s.messages, h.jid)| <= s.keep
    ensures var v := SequentialMessage(s, h, m).0;
      && SameShape(if Suppressed(s, h.jid, m) || HasKey(rows, m.sender, m.id)
                   then rows else Retain(rows + [Bare(m)], s.keep),
                   Rows(v.messages, h.jid))
      && v.settings == s.settings && v.tombstones == s.tombstones && v.keep == s.keep
      && NoOrphans(v, h.jid) && |Rows(v.messages, h.jid)| <= v.keep
  {
    hide SequentialMessage, HistoryMessage, StoreOrComplete, LearnName, Suppressed, HasKey;
    var u := HistoryMessage(s, h, m).0;
    SequentialIsPruned(s, h, m);
    HistoryIsStore(s, h, m);
    MessageAdds(s, h, m);
    AddsShape(rows, Rows(s.messages, h.jid), Rows(u.messages, h.jid), m, Suppressed(s, h.jid, m));
    HistoryMessageShape(s, h, m);
    PruneKeepsNoOrphans(u, h.jid);
    PrunedRows(u, h.jid);
    var next := if Suppressed(s, h.jid, m) || HasKey(rows, m.sender, m.id) then rows else rows + [Bare(m)];
    RetainShape(next, Rows(u.messages, h.jid), s.keep);
  }

  // --------------------------------------------------- whole replays

  /** What the arguments say of message n holds of the tables when it comes. */
  lemma SettledStep(t: Tables, h: HistoryChat, ms: seq<Message>, n: nat)
    requires Replayable(t, h.jid) && n < |ms| && SettledAt(t, h.jid, ms, n)
    ensures Settles(Unpruned(t, h, ms, n), Replayed(t, h, ms[..n]), h.jid, ms[n])
  {
    hide HistoryMessages, SequentialMessages, Offered, Trickled, InsertChat, Divided, SameShape, Replayable;
    var u, s := Unpruned(t, h, ms, n), Replayed(t, h, ms[..n]);
    InsertChatOnlyChats(t, h);
    OfferedShape(t, h, ms[..n]);
    TrickledShape(t, h, ms[..n]);
    MessagesTables(InsertChat(t, h), h, ms[..n]);
    DividedShape(Offered(t, h.jid, ms[..n]), Trickled(t, h.jid, ms[..n]),
                 Rows(u.messages, h.jid), Rows(s.messages, h.jid), ms[n], Suppressed(t, h.jid, ms[n]));
  }

  lemma {:induction false} ReplaysTied(t: Tables, h: HistoryChat, ms: seq<Message>)
    requires Replayable(t, h.jid) && Settled(t, h.jid, ms)
    ensures Tied(Unpruned(t, h, ms, |ms|), Replayed(t, h, ms), h.jid)
  {
    hide Tied, HistoryMessage, SequentialMessage, InsertChat, Settles, SettledAt;
    assert ms[..|ms|] == ms;
    if ms == [] {
      ReplayedChatKeeps(t, h);
      PrunedIsTied(InsertChat(t, h), h.jid);
      PruneIdle(InsertChat(t, h), h.jid);
    } else {
      var n := |ms| - 1;
      var front := ms[..n];
      SettledFront(t, h.jid, ms);
      ReplaysTied(t, h, front);
      assert front[..n] == front;
      SettledStep(t, h, ms, n);
      MessageTied(Unpruned(t, h, ms, n), Replayed(t, h, front), h, ms[n]);
      LastMessages(t, h, ms);
    }
  }

  lemma LastMessages(t: Tables, h: HistoryChat, ms: seq<Message>)
    requires ms != []
    ensures var n := |ms| - 1;
      && Unpruned(t, h, ms, |ms|) == HistoryMessage(Unpruned(t, h, ms, n), h, ms[n]).0
      && Replayed(t, h, ms) == SequentialMessage(Replayed(t, h, ms[..n]), h, ms[n]).0
  {
    hide HistoryMessage, SequentialMessage, InsertChat;
    assert ms[..|ms|] == ms;
  }

  lemma SettledFront(t: Tables, c: Jid, ms: seq<Message>)
    requires ms != [] && Settled(t, c, ms)
    ensures Settled(t, c, ms[..|ms| - 1]) && SettledAt(t, c, ms, |ms| - 1)
  {
    var front := ms[..|ms| - 1];
    forall n | 0 <= n < |front| ensures SettledAt(t, c, front, n) {
      assert front[..n] == ms[..n];
      assert SettledAt(t, c, ms, n);
    }
  }

  // --------------------------------------------------- the rows in the end

  lemma SameShapeTwice(a: seq<Row>, b: seq<Row>, x: seq<Row>, y: seq<Row>)
    requires SameShape(a, x) && SameShape(b, y)
    ensures SameShape(a, b) <==> SameShape(x, y)
  {
  }

  lemma TiedRow(us: seq<Row>, q: Row, r: Row, c: Jid, uf: Files, sf: Files)
    requires UniqueKeys(us) && q in us && FollowsRow(us, r, c, uf, sf)
    requires q.sender == r.sender && q.id == r.id && q.timestamp == r.timestamp
    ensures q == r
  {
    var k :| 0 <= k < |us| && us[k] == q;
    var j :| 0 <= j < |us| && TiedTo(us[j], r, c, uf, sf);
    assert j == k;
  }

  lemma TiedSame(u: Tables, s: Tables, c: Jid)
    requires Tied(u, s, c)
    ensures SameShape(Retain(Rows(u.messages, c), u.keep), Rows(s.messages, c)) ==>
      Retain(Rows(u.messages, c), u.keep) == Rows(s.messages, c)
  {
    hide FollowsRow, Outlived, NoOrphans, UniqueKeys;
    var us, out, ss := Rows(u.messages, c), Retain(Rows(u.messages, c), u.keep), Rows(s.messages, c);
    if SameShape(out, ss) {
      forall i | 0 <= i < |ss| ensures out[i] == ss[i] {
        assert out[i] in out && out[i] in us;
        TiedRow(us, out[i], ss[i], c, FilesOf(u), FilesOf(s));
      }
    }
  }
}
