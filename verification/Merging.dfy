/** `migrate_contact_jid`: one contact known under two identifiers becomes one. */
module Merging {
  import opened Prelude
  import opened Schema
  import opened Retention
  import opened History
  import opened Polls

  // --------------------------------------------------- merging rows

  /** The two `ON CONFLICT` clauses: under the new sender, and in the new chat. */
  datatype Clause = BySender | ByChat

  function MergedRow(k: Clause, r: Row, x: Row): (m: Row)
    ensures m.sender == r.sender && m.id == r.id
    ensures m.read == (r.read || x.read) && m.receipt == Max(r.receipt, x.receipt)
  {
    var joined := r.(read := r.read || x.read, receipt := Max(r.receipt, x.receipt),
                     deliveredAt := Coalesce(r.deliveredAt, x.deliveredAt), readAt := Coalesce(r.readAt, x.readAt),
                     quote := Coalesce(r.quote, x.quote), media := Coalesce(r.media, x.media),
                     download := Coalesce(r.download, x.download));
    match k
    case ByChat => joined
    case BySender =>
      joined.(senderName := if r.senderName == "" || r.senderName == r.sender then x.senderName else r.senderName,
              text := if r.text == "" then x.text else r.text,
              timestamp := Max(r.timestamp, x.timestamp), fromMe := r.fromMe || x.fromMe)
  }

  predicate SameKey(a: Row, b: Row) {
    a.sender == b.sender && a.id == b.id
  }

  function KeyIndex(rows: seq<Row>, sender: Jid, id: Id): (i: nat)
    requires HasKey(rows, sender, id)
    ensures i < |rows| && rows[i].sender == sender && rows[i].id == id
  {
    if rows[0].sender == sender && rows[0].id == id then 0 else 1 + KeyIndex(rows[1..], sender, id)
  }

  /** `INSERT ... ON CONFLICT DO UPDATE` of one row. */
  function UpsertRow(k: Clause, rows: seq<Row>, x: Row): seq<Row> {
    if HasKey(rows, x.sender, x.id) then
      var i := KeyIndex(rows, x.sender, x.id);
      rows[i := MergedRow(k, rows[i], x)]
    else rows + [x]
  }

  function UpsertRows(k: Clause, rows: seq<Row>, xs: seq<Row>): seq<Row> {
    if xs == [] then rows else UpsertRow(k, UpsertRows(k, rows, xs[..|xs| - 1]), xs[|xs| - 1])
  }

  function Renamed(r: Row, from: Jid, to: Jid): Row {
    if r.sender == from then r.(sender := to) else r
  }

  function RenamedRows(rows: seq<Row>, from: Jid, to: Jid): (out: seq<Row>)
    ensures |out| == |rows| && forall i :: 0 <= i < |rows| ==> out[i] == Renamed(rows[i], from, to)
  {
    seq(|rows|, i requires 0 <= i < |rows| => Renamed(rows[i], from, to))
  }

  /** The rows of one sender, under another. */
  function Taken(rows: seq<Row>, from: Jid, to: Jid): (out: seq<Row>)
    ensures forall x :: x in out ==> x.sender == to
  {
    if rows == [] then []
    else
      var last := rows[|rows| - 1];
      Taken(rows[..|rows| - 1], from, to) + if last.sender == from then [last.(sender := to)] else []
  }

  /** A chat's rows once the sender is merged. */
  function SenderMerged(rows: seq<Row>, from: Jid, to: Jid): seq<Row> {
    CutRows(OfSender(from), UpsertRows(BySender, rows, Taken(rows, from, to)))
  }

  /** A chat's rows once both the sender and the chat are merged, before retention. */
  function MergedRows(messages: map<Jid, seq<Row>>, from: Jid, to: Jid, c: Jid): seq<Row> {
    var rows := SenderMerged(Rows(messages, c), from, to);
    if c == to then UpsertRows(ByChat, rows, SenderMerged(Rows(messages, from), from, to)) else rows
  }

  // --------------------------------------------------- merging the other tables

  function MergedContact(contacts: map<Jid, Contact>, from: Jid, to: Jid): Option<Contact> {
    match (Get(contacts, from), Get(contacts, to))
    case (None, kept) => kept
    case (taken, None) => taken
    case (Some(x), Some(y)) => Some(Contact(if x.source >= y.source then x.name else y.name, Max(y.source, x.source)))
  }

  function MergedChat(chats: map<Jid, Chat>, from: Jid, to: Jid): Option<Chat> {
    match (Get(chats, from), Get(chats, to))
    case (None, kept) => kept
    case (taken, None) => taken
    case (Some(x), Some(y)) =>
      Some(Chat(if x.nameSource > y.nameSource then x.name else y.name, Max(y.nameSource, x.nameSource),
                Coalesce(y.phone, x.phone),
                if x.lastTimestamp >= y.lastTimestamp then x.lastMessage else y.lastMessage,
                Max(y.lastTimestamp, x.lastTimestamp), Max(y.unread, x.unread), y.isGroup || x.isGroup))
  }

  /** A contact's name titles its direct chat. */
  function TitledChat(chat: Option<Chat>, contact: Option<Contact>): Option<Chat> {
    if chat.Some? && contact.Some? && !chat.value.isGroup then
      Some(chat.value.(name := contact.value.name,
                       nameSource := if contact.value.source == 1 then NAME_ADDRESS_BOOK else NAME_MESSAGE))
    else chat
  }

  function MergedSettings(settings: map<Jid, Settings>, from: Jid, to: Jid): Option<Settings> {
    match (Get(settings, from), Get(settings, to))
    case (None, kept) => kept
    case (Some(x), None) => Some(x.(readStateUpdatedAt := 0))
    case (Some(x), Some(y)) =>
      Some(Settings(Coalesce(x.readState, y.readState), y.readStateUpdatedAt, y.explicitUnread || x.explicitUnread,
                    y.deleted || x.deleted, Max(y.clearedAt, x.clearedAt), Max(y.readBoundary, x.readBoundary),
                    if x.readBoundary > y.readBoundary then x.boundaryIds else y.boundaryIds))
  }

  function Moved<V>(m: map<Jid, V>, from: Jid, to: Jid, value: Option<V>): (out: map<Jid, V>)
    requires from != to
    ensures from !in out && Get(out, to) == value
    ensures forall k :: k != from && k != to ==> Get(out, k) == Get(m, k)
  {
    (if value.Some? then m[to := value.value] else m - {to}) - {from}
  }

  /** `UPDATE OR IGNORE ... SET person = to WHERE person = from`, then the leftovers deleted. */
  function PersonMoved<V>(m: map<Jid, V>, from: Jid, to: Jid): map<Jid, V> {
    (if from in m && to !in m then m[to := m[from]] else m) - {from}
  }

  function PeopleMoved<V>(m: map<(Jid, Id), map<Jid, V>>, from: Jid, to: Jid): map<(Jid, Id), map<Jid, V>> {
    map p | p in m :: PersonMoved(m[p], from, to)
  }

  function MergedTimes(x: ReaderTimes, y: Option<ReaderTimes>): ReaderTimes {
    match y
    case None => ReaderTimes(x.readAt, 0)
    case Some(kept) => kept.(readAt := Max(kept.readAt, x.readAt))
  }

  function MergedReaders(x: map<Jid, ReaderTimes>, y: map<Jid, ReaderTimes>): map<Jid, ReaderTimes> {
    map r | r in x.Keys + y.Keys :: if r in x then MergedTimes(x[r], Get(y, r)) else y[r]
  }

  function MergedVotes(x: map<Jid, Vote>, y: map<Jid, Vote>): map<Jid, Vote> {
    map v | v in x.Keys + y.Keys :: if v in x then VoteAfter(Get(y, v), x[v]) else y[v]
  }

  /** The message ids with rows under the old chat or the new one. */
  function IdsIn<V>(m: map<(Jid, Id), V>, from: Jid, to: Jid): set<Id> {
    set p | p in m && (p.0 == from || p.0 == to) :: p.1
  }

  function ReadersMoved(m: map<(Jid, Id), map<Jid, ReaderTimes>>, from: Jid, to: Jid)
    : map<(Jid, Id), map<Jid, ReaderTimes>>
  {
    (map p | p in m && p.0 != from && p.0 != to :: m[p])
    + (map p | p in (set id | id in IdsIn(m, from, to) :: (to, id)) ::
       MergedReaders(Inner(m, from, p.1), Inner(m, to, p.1)))
  }

  function VotesMoved(m: map<(Jid, Id), map<Jid, Vote>>, from: Jid, to: Jid): map<(Jid, Id), map<Jid, Vote>> {
    (map p | p in m && p.0 != from && p.0 != to :: m[p])
    + (map p | p in (set id | id in IdsIn(m, from, to) :: (to, id)) ::
       MergedVotes(Inner(m, from, p.1), Inner(m, to, p.1)))
  }

  function ReactorMoved(m: map<ReactionKey, Reaction>, from: Jid, to: Jid): map<ReactionKey, Reaction> {
    var taken := set k | k in m && k.reactor == from :: k.(reactor := to);
    map k | k in m.Keys + taken && k.reactor != from :: if k in m then m[k] else m[k.(reactor := from)]
  }

  function ReactionChatMoved(m: map<ReactionKey, Reaction>, from: Jid, to: Jid): map<ReactionKey, Reaction> {
    var taken := set k | k in m && k.chat == from :: k.(chat := to);
    map k | k in m.Keys + taken && k.chat != from :: if k in m then m[k] else m[k.(chat := from)]
  }

  function TombstonesMoved(s: set<(Jid, Id)>, from: Jid, to: Jid): set<(Jid, Id)> {
    set p | p in s :: if p.0 == from then (to, p.1) else p
  }

  // --------------------------------------------------- what moved where

  /** The row a person has under the new identifier: their own there, else the old one's. */
  function PersonRow<V>(m: map<(Jid, Id), map<Jid, V>>, from: Jid, to: Jid, c: Jid, id: Id, person: Jid): Option<V> {
    var rows := Inner(m, c, id);
    if person == from then None
    else if person == to then Coalesce(Get(rows, to), Get(rows, from))
    else Get(rows, person)
  }

  function LaterVote(kept: Option<Vote>, taken: Option<Vote>): Option<Vote> {
    if taken.None? || (kept.Some? && kept.value.timestamp > taken.value.timestamp) then kept else taken
  }

  function JoinedTimes(kept: Option<ReaderTimes>, taken: Option<ReaderTimes>): Option<ReaderTimes> {
    if taken.None? then kept
    else if kept.None? then Some(ReaderTimes(taken.value.readAt, 0))
    else Some(ReaderTimes(Max(kept.value.readAt, taken.value.readAt), kept.value.deliveredAt))
  }

  /** After the merge a voter's row is their own or the old identifier's, and in the merged
      chat the later of the two chats'. */
  ghost predicate VotesJoined(out: map<(Jid, Id), map<Jid, Vote>>, m: map<(Jid, Id), map<Jid, Vote>>,
                              from: Jid, to: Jid) {
    forall c, id, v :: Get(Inner(out, c, id), v) ==
      if c == from then None
      else if c == to then LaterVote(PersonRow(m, from, to, to, id, v), PersonRow(m, from, to, from, id, v))
      else PersonRow(m, from, to, c, id, v)
  }

  /** Likewise for readers, with the later read time in the merged chat. */
  ghost predicate ReadersJoined(out: map<(Jid, Id), map<Jid, ReaderTimes>>, m: map<(Jid, Id), map<Jid, ReaderTimes>>,
                                from: Jid, to: Jid) {
    forall c, id, r :: Get(Inner(out, c, id), r) ==
      if c == from then None
      else if c == to then JoinedTimes(PersonRow(m, from, to, to, id, r), PersonRow(m, from, to, from, id, r))
      else PersonRow(m, from, to, c, id, r)
  }

  function ReactionAt(m: map<ReactionKey, Reaction>, k: ReactionKey): Option<Reaction> {
    if k in m then Some(m[k]) else None
  }

  function ReactorRow(m: map<ReactionKey, Reaction>, from: Jid, to: Jid, k: ReactionKey): Option<Reaction> {
    if k.reactor == from then None
    else if k.reactor == to then Coalesce(ReactionAt(m, k), ReactionAt(m, k.(reactor := from)))
    else ReactionAt(m, k)
  }

  /** A reaction that is there already stays; otherwise the old identifier's moves in. */
  ghost predicate ReactionsJoined(out: map<ReactionKey, Reaction>, m: map<ReactionKey, Reaction>, from: Jid, to: Jid) {
    forall k :: ReactionAt(out, k) ==
      if k.chat == from then None
      else if k.chat == to then Coalesce(ReactorRow(m, from, to, k), ReactorRow(m, from, to, k.(chat := from)))
      else ReactorRow(m, from, to, k)
  }

  ghost predicate TombstonesJoined(out: set<(Jid, Id)>, s: set<(Jid, Id)>, from: Jid, to: Jid) {
    forall c, id :: (c, id) in out <==> c != from && ((c, id) in s || (c == to && (from, id) in s))
  }

  lemma MovedPerson<V>(m: map<(Jid, Id), map<Jid, V>>, from: Jid, to: Jid, c: Jid, id: Id, v: Jid)
    requires from != to
    ensures Get(Inner(PeopleMoved(m, from, to), c, id), v) == PersonRow(m, from, to, c, id, v)
  {
  }

  lemma MovedVote(m: map<(Jid, Id), map<Jid, Vote>>, from: Jid, to: Jid, c: Jid, id: Id, v: Jid)
    requires from != to
    ensures Get(Inner(VotesMoved(m, from, to), c, id), v) ==
      if c == from then None
      else if c == to then LaterVote(Get(Inner(m, to, id), v), Get(Inner(m, from, id), v))
      else Get(Inner(m, c, id), v)
  {
    if c == to { MovedIds(m, from, to, id); }
  }

  lemma MovedIds<V>(m: map<(Jid, Id), map<Jid, V>>, from: Jid, to: Jid, id: Id)
    ensures id in IdsIn(m, from, to) <==> (from, id) in m || (to, id) in m
  {
    if (from, id) in m { assert (from, id).1 in IdsIn(m, from, to); }
    if (to, id) in m { assert (to, id).1 in IdsIn(m, from, to); }
  }

  lemma MovedReader(m: map<(Jid, Id), map<Jid, ReaderTimes>>, from: Jid, to: Jid, c: Jid, id: Id, r: Jid)
    requires from != to
    ensures Get(Inner(ReadersMoved(m, from, to), c, id), r) ==
      if c == from then None
      else if c == to then JoinedTimes(Get(Inner(m, to, id), r), Get(Inner(m, from, id), r))
      else Get(Inner(m, c, id), r)
  {
    if c == to { MovedIds(m, from, to, id); }
  }

  lemma PeopleJoin(votes: map<(Jid, Id), map<Jid, Vote>>, readers: map<(Jid, Id), map<Jid, ReaderTimes>>,
                   from: Jid, to: Jid)
    requires from != to
    ensures VotesJoined(VotesMoved(PeopleMoved(votes, from, to), from, to), votes, from, to)
    ensures ReadersJoined(ReadersMoved(PeopleMoved(readers, from, to), from, to), readers, from, to)
  {
    hide PeopleMoved, VotesMoved, ReadersMoved, PersonRow;
    forall c, id, v
      ensures Get(Inner(VotesMoved(PeopleMoved(votes, from, to), from, to), c, id), v) ==
        if c == from then None
        else if c == to then LaterVote(PersonRow(votes, from, to, to, id, v), PersonRow(votes, from, to, from, id, v))
        else PersonRow(votes, from, to, c, id, v)
    {
      MovedVote(PeopleMoved(votes, from, to), from, to, c, id, v);
      MovedPerson(votes, from, to, c, id, v);
      MovedPerson(votes, from, to, from, id, v);
    }
    forall c, id, r
      ensures Get(Inner(ReadersMoved(PeopleMoved(readers, from, to), from, to), c, id), r) ==
        if c == from then None
        else if c == to then
          JoinedTimes(PersonRow(readers, from, to, to, id, r), PersonRow(readers, from, to, from, id, r))
        else PersonRow(readers, from, to, c, id, r)
    {
      MovedReader(PeopleMoved(readers, from, to), from, to, c, id, r);
      MovedPerson(readers, from, to, c, id, r);
      MovedPerson(readers, from, to, from, id, r);
    }
  }

  lemma MovedReactor(m: map<ReactionKey, Reaction>, from: Jid, to: Jid, k: ReactionKey)
    requires from != to
    ensures ReactionAt(ReactorMoved(m, from, to), k) == ReactorRow(m, from, to, k)
  {
    var taken := set x | x in m && x.reactor == from :: x.(reactor := to);
    var old' := k.(reactor := from);
    if k.reactor == to {
      assert old'.(reactor := to) == k;
      if old' in m { assert k in taken; }
    }
    if k in taken { var x :| x in m && x.reactor == from && k == x.(reactor := to); assert x == old'; }
  }

  lemma MovedReactionChat(m: map<ReactionKey, Reaction>, from: Jid, to: Jid, k: ReactionKey)
    requires from != to
    ensures ReactionAt(ReactionChatMoved(m, from, to), k) ==
      if k.chat == from then None
      else if k.chat == to then Coalesce(ReactionAt(m, k), ReactionAt(m, k.(chat := from)))
      else ReactionAt(m, k)
  {
    var taken := set x | x in m && x.chat == from :: x.(chat := to);
    var old' := k.(chat := from);
    if k.chat == to {
      assert old'.(chat := to) == k;
      if old' in m { assert k in taken; }
    }
    if k in taken { var x :| x in m && x.chat == from && k == x.(chat := to); assert x == old'; }
  }

  lemma ReactionsJoin(m: map<ReactionKey, Reaction>, from: Jid, to: Jid)
    requires from != to
    ensures ReactionsJoined(ReactionChatMoved(ReactorMoved(m, from, to), from, to), m, from, to)
  {
    hide ReactorMoved, ReactionChatMoved, ReactorRow;
    forall k
      ensures ReactionAt(ReactionChatMoved(ReactorMoved(m, from, to), from, to), k) ==
        if k.chat == from then None
        else if k.chat == to then Coalesce(ReactorRow(m, from, to, k), ReactorRow(m, from, to, k.(chat := from)))
        else ReactorRow(m, from, to, k)
    {
      MovedReactionChat(ReactorMoved(m, from, to), from, to, k);
      MovedReactor(m, from, to, k);
      MovedReactor(m, from, to, k.(chat := from));
    }
  }

  lemma TombstonesJoin(s: set<(Jid, Id)>, from: Jid, to: Jid)
    requires from != to
    ensures TombstonesJoined(TombstonesMoved(s, from, to), s, from, to)
  {
    var out := TombstonesMoved(s, from, to);
    forall c, id ensures (c, id) in out <==> c != from && ((c, id) in s || (c == to && (from, id) in s)) {
      if (from, id) in s { assert (to, id) in out; }
      if c != from && (c, id) in s { assert (c, id) in out; }
      if (c, id) in out {
        var p :| p in s && (c, id) == if p.0 == from then (to, p.1) else p;
      }
    }
  }

  // --------------------------------------------------- the merge

  predicate SentBy(t: Tables, from: Jid) {
    exists c :: c in t.messages && exists i :: 0 <= i < |t.messages[c]| && t.messages[c][i].sender == from
  }

  predicate SourceExists(t: Tables, from: Jid) {
    || from in t.chats || from in t.contacts || from in t.settings
    || SentBy(t, from)
    || (exists k :: k in t.reactions && k.reactor == from)
    || (exists p :: p in t.votes && from in t.votes[p])
  }

  /** A chat's rows in the end: retention in the merged chat, then the contact's name. */
  function FinalRows(t: Tables, from: Jid, to: Jid, c: Jid): seq<Row> {
    var rows := MergedRows(t.messages, from, to, c);
    var kept := if c == to then Retain(rows, t.keep) else rows;
    var contact := MergedContact(t.contacts, from, to);
    if contact.Some? then EditRows(Rename(to, contact.value.name), kept) else kept
  }

  function FinalMessages(t: Tables, from: Jid, to: Jid): map<Jid, seq<Row>> {
    map c | c in t.messages.Keys + {to} && c != from && FinalRows(t, from, to, c) != [] :: FinalRows(t, from, to, c)
  }

  function Migrates(t: Tables, from: Jid, to: Jid): bool {
    from != to && SourceExists(t, from)
  }

  function Migrate(t: Tables, from: Jid, to: Jid): Tables {
    if !Migrates(t, from, to) then t
    else
      t.(messages := FinalMessages(t, from, to),
         chats := Moved(t.chats, from, to,
                        TitledChat(MergedChat(t.chats, from, to), MergedContact(t.contacts, from, to))),
         contacts := Moved(t.contacts, from, to, MergedContact(t.contacts, from, to)),
         settings := Moved(t.settings, from, to, MergedSettings(t.settings, from, to)),
         tombstones := TombstonesMoved(t.tombstones, from, to),
         readers := ReadersMoved(PeopleMoved(t.readers, from, to), from, to),
         votes := VotesMoved(PeopleMoved(t.votes, from, to), from, to),
         reactions := ReactionChatMoved(ReactorMoved(t.reactions, from, to), from, to))
  }

  // --------------------------------------------------- union under renaming

  predicate ReadIn(src: seq<Row>, r: Row) {
    exists p :: p in src && SameKey(p, r) && p.read
  }

  predicate GreatestIn(src: seq<Row>, r: Row) {
    && (forall p :: p in src && SameKey(p, r) ==> p.receipt <= r.receipt)
    && exists p :: p in src && SameKey(p, r) && p.receipt == r.receipt
  }

  /** One row per key of `src`, read if any of its rows is, with the greatest receipt. */
  ghost predicate Joins(out: seq<Row>, src: seq<Row>) {
    && UniqueKeys(out)
    && (forall p :: p in src ==> HasKey(out, p.sender, p.id))
    && (forall r :: r in out ==> (r.read <==> ReadIn(src, r)) && GreatestIn(src, r))
  }

  lemma JoinsSame(out: seq<Row>, a: seq<Row>, b: seq<Row>)
    requires Joins(out, a) && forall p :: p in a <==> p in b
    ensures Joins(out, b)
  {
    forall r | r in out ensures (r.read <==> ReadIn(b, r)) && GreatestIn(b, r) {
      assert GreatestIn(a, r);
      assert ReadIn(a, r) <==> ReadIn(b, r);
    }
  }

  lemma JoinsItself(rows: seq<Row>)
    requires UniqueKeys(rows)
    ensures Joins(rows, rows)
  {
  }

  /** Upserting one row joins it to what was joined before. */
  lemma UpsertRowJoins(k: Clause, rows: seq<Row>, src: seq<Row>, x: Row)
    requires Joins(rows, src)
    ensures Joins(UpsertRow(k, rows, x), src + [x])
  {
    var out := UpsertRow(k, rows, x);
    UpsertRowKeys(k, rows, x);
    forall p | p in src + [x] ensures HasKey(out, p.sender, p.id) {}
    forall r | r in out ensures (r.read <==> ReadIn(src + [x], r)) && GreatestIn(src + [x], r) {
      if SameKey(r, x) {
        if HasKey(rows, x.sender, x.id) {
          var b := rows[KeyIndex(rows, x.sender, x.id)];
          assert r == MergedRow(k, b, x);
          MergedJoins(k, src, b, x);
        } else {
          assert r == x;
          FirstJoins(rows, src, x);
        }
      } else {
        assert r in rows;
        OtherJoins(src, r, x);
      }
    }
  }

  lemma UpsertRowKeys(k: Clause, rows: seq<Row>, x: Row)
    requires UniqueKeys(rows)
    ensures var out := UpsertRow(k, rows, x);
      && UniqueKeys(out) && HasKey(out, x.sender, x.id)
      && (forall s, id :: HasKey(rows, s, id) ==> HasKey(out, s, id))
      && (forall r :: r in out && !SameKey(r, x) ==> r in rows)
      && (forall r :: r in out && SameKey(r, x) ==>
           r == if HasKey(rows, x.sender, x.id) then MergedRow(k, rows[KeyIndex(rows, x.sender, x.id)], x) else x)
  {
    var out := UpsertRow(k, rows, x);
    forall s, id | HasKey(rows, s, id) ensures HasKey(out, s, id) {
      var i :| 0 <= i < |rows| && rows[i].sender == s && rows[i].id == id;
      assert out[i].sender == s && out[i].id == id;
    }
    if HasKey(rows, x.sender, x.id) {
      assert HasKey(out, x.sender, x.id);
    } else {
      assert out[|rows|] == x;
    }
  }

  lemma MergedJoins(k: Clause, src: seq<Row>, b: Row, x: Row)
    requires SameKey(b, x) && (b.read <==> ReadIn(src, b)) && GreatestIn(src, b)
    ensures var r := MergedRow(k, b, x); (r.read <==> ReadIn(src + [x], r)) && GreatestIn(src + [x], r)
  {
    var r := MergedRow(k, b, x);
    assert x in src + [x] && SameKey(x, r);
    if ReadIn(src, b) { var p :| p in src && SameKey(p, b) && p.read; assert p in src + [x] && SameKey(p, r); }
    var q :| q in src && SameKey(q, b) && q.receipt == b.receipt;
    assert q in src + [x] && SameKey(q, r);
  }

  lemma FirstJoins(rows: seq<Row>, src: seq<Row>, x: Row)
    requires Joins(rows, src) && !HasKey(rows, x.sender, x.id)
    ensures (x.read <==> ReadIn(src + [x], x)) && GreatestIn(src + [x], x)
  {
    assert x in src + [x] && SameKey(x, x);
    forall p | p in src ensures !SameKey(p, x) { assert HasKey(rows, p.sender, p.id); }
  }

  lemma OtherJoins(src: seq<Row>, r: Row, x: Row)
    requires !SameKey(r, x) && (r.read <==> ReadIn(src, r)) && GreatestIn(src, r)
    ensures (r.read <==> ReadIn(src + [x], r)) && GreatestIn(src + [x], r)
  {
    var q :| q in src && SameKey(q, r) && q.receipt == r.receipt;
    assert q in src + [x];
    if ReadIn(src, r) { var p :| p in src && SameKey(p, r) && p.read; assert p in src + [x]; }
  }

  lemma {:induction false} UpsertJoins(k: Clause, rows: seq<Row>, xs: seq<Row>)
    requires UniqueKeys(rows)
    ensures Joins(UpsertRows(k, rows, xs), rows + xs)
  {
    if xs == [] {
      JoinsItself(rows);
      assert rows + xs == rows;
    } else {
      var n := |xs| - 1;
      UpsertJoins(k, rows, xs[..n]);
      UpsertRowJoins(k, UpsertRows(k, rows, xs[..n]), rows + xs[..n], xs[n]);
      assert rows + xs[..n] + [xs[n]] == rows + xs;
    }
  }

  /** Joins of joins are joins. */
  lemma JoinsCompose(out: seq<Row>, a: seq<Row>, b: seq<Row>, srcA: seq<Row>, srcB: seq<Row>)
    requires Joins(a, srcA) && Joins(b, srcB) && Joins(out, a + b)
    ensures Joins(out, srcA + srcB)
  {
    forall p | p in srcA + srcB ensures HasKey(out, p.sender, p.id) {
      if p in srcA { KeyThrough(out, a, a + b, p); } else { KeyThrough(out, b, a + b, p); }
    }
    forall r | r in out ensures (r.read <==> ReadIn(srcA + srcB, r)) && GreatestIn(srcA + srcB, r) {
      ReadThrough2(a, b, srcA, srcB, r);
      GreatestThrough(a, b, srcA, srcB, r);
    }
  }

  lemma KeyThrough(out: seq<Row>, a: seq<Row>, all: seq<Row>, p: Row)
    requires HasKey(a, p.sender, p.id) && (forall q :: q in a ==> q in all)
    requires forall q :: q in all ==> HasKey(out, q.sender, q.id)
    ensures HasKey(out, p.sender, p.id)
  {
    var i :| 0 <= i < |a| && a[i].sender == p.sender && a[i].id == p.id;
    assert a[i] in a;
  }

  lemma ReadThrough2(a: seq<Row>, b: seq<Row>, srcA: seq<Row>, srcB: seq<Row>, r: Row)
    requires Joins(a, srcA) && Joins(b, srcB)
    ensures ReadIn(a + b, r) <==> ReadIn(srcA + srcB, r)
  {
    if ReadIn(a + b, r) {
      var q :| q in a + b && SameKey(q, r) && q.read;
      if q in a {
        var p :| p in srcA && SameKey(p, q) && p.read;
        assert p in srcA + srcB;
      } else {
        var p :| p in srcB && SameKey(p, q) && p.read;
        assert p in srcA + srcB;
      }
    }
    if ReadIn(srcA + srcB, r) {
      var p :| p in srcA + srcB && SameKey(p, r) && p.read;
      if p in srcA { ReadUp(a, srcA, p); } else { ReadUp(b, srcB, p); }
      var q :| (q in a || q in b) && SameKey(q, p) && q.read;
      assert q in a + b;
    }
  }

  lemma ReadUp(a: seq<Row>, src: seq<Row>, p: Row)
    requires Joins(a, src) && p in src && p.read
    ensures exists q :: q in a && SameKey(q, p) && q.read
  {
    var i :| 0 <= i < |a| && a[i].sender == p.sender && a[i].id == p.id;
    assert a[i] in a && SameKey(p, a[i]);
    assert ReadIn(src, a[i]);
  }

  lemma GreatestUp(a: seq<Row>, src: seq<Row>, p: Row)
    requires Joins(a, src) && p in src
    ensures exists q :: q in a && SameKey(q, p) && q.receipt >= p.receipt
  {
    var i :| 0 <= i < |a| && a[i].sender == p.sender && a[i].id == p.id;
    assert a[i] in a && SameKey(p, a[i]);
    assert GreatestIn(src, a[i]);
  }

  lemma GreatestThrough(a: seq<Row>, b: seq<Row>, srcA: seq<Row>, srcB: seq<Row>, r: Row)
    requires Joins(a, srcA) && Joins(b, srcB) && GreatestIn(a + b, r)
    ensures GreatestIn(srcA + srcB, r)
  {
    forall p | p in srcA + srcB && SameKey(p, r) ensures p.receipt <= r.receipt {
      if p in srcA { GreatestUp(a, srcA, p); } else { GreatestUp(b, srcB, p); }
      var q :| (q in a || q in b) && SameKey(q, p) && q.receipt >= p.receipt;
      assert q in a + b;
    }
    var q :| q in a + b && SameKey(q, r) && q.receipt == r.receipt;
    if q in a {
      var p :| p in srcA && SameKey(p, q) && p.receipt == q.receipt;
      assert p in srcA + srcB;
    } else {
      var p :| p in srcB && SameKey(p, q) && p.receipt == q.receipt;
      assert p in srcA + srcB;
    }
  }

  // --------------------------------------------------- senders, then chats

  lemma {:induction false} TakenRows(rows: seq<Row>, from: Jid, to: Jid)
    ensures forall x :: x in Taken(rows, from, to) <==>
      x.sender == to && exists p :: p in rows && p.sender == from && x == p.(sender := to)
  {
    if rows != [] {
      var n := |rows| - 1;
      TakenRows(rows[..n], from, to);
      assert rows == rows[..n] + [rows[n]];
    }
  }

  /** Dropping a sender drops its share of the join. */
  lemma CutJoins(out: seq<Row>, src: seq<Row>, from: Jid)
    requires Joins(out, src)
    ensures Joins(CutRows(OfSender(from), out), CutRows(OfSender(from), src))
  {
    var o, s := CutRows(OfSender(from), out), CutRows(OfSender(from), src);
    CutKeepsKeys(OfSender(from), out);
    forall p | p in s ensures HasKey(o, p.sender, p.id) {
      assert p in src;
      var i :| 0 <= i < |out| && out[i].sender == p.sender && out[i].id == p.id;
      assert out[i] in o;
      var j :| 0 <= j < |o| && o[j] == out[i];
    }
    forall r | r in o ensures (r.read <==> ReadIn(s, r)) && GreatestIn(s, r) {
      assert r in out;
      CutJoinsRow(src, from, r);
    }
  }

  lemma CutJoinsRow(src: seq<Row>, from: Jid, r: Row)
    requires (r.read <==> ReadIn(src, r)) && GreatestIn(src, r) && r.sender != from
    ensures var s := CutRows(OfSender(from), src); (r.read <==> ReadIn(s, r)) && GreatestIn(s, r)
  {
    var s := CutRows(OfSender(from), src);
    var q :| q in src && SameKey(q, r) && q.receipt == r.receipt;
    assert q in s;
    if ReadIn(src, r) { var p :| p in src && SameKey(p, r) && p.read; assert p in s; }
  }

  /** In one chat, merging the sender joins the rows under the renaming. */
  lemma SenderMergedJoins(rows: seq<Row>, from: Jid, to: Jid)
    requires UniqueKeys(rows) && from != to
    ensures Joins(SenderMerged(rows, from, to), RenamedRows(rows, from, to))
    ensures forall r :: r in SenderMerged(rows, from, to) ==> r.sender != from
  {
    var xs, all := Taken(rows, from, to), rows + Taken(rows, from, to);
    UpsertJoins(BySender, rows, xs);
    CutJoins(UpsertRows(BySender, rows, xs), all, from);
    TakenRows(rows, from, to);
    var renamed, left := RenamedRows(rows, from, to), CutRows(OfSender(from), all);
    forall p ensures p in left <==> p in renamed {
      if p in left {
        if p in rows {
          var i :| 0 <= i < |rows| && rows[i] == p;
          assert renamed[i] == p;
        } else {
          var q :| q in rows && q.sender == from && p == q.(sender := to);
          var i :| 0 <= i < |rows| && rows[i] == q;
          assert renamed[i] == p;
        }
      }
      if p in renamed {
        var i :| 0 <= i < |renamed| && renamed[i] == p;
        assert rows[i] in rows && p == Renamed(rows[i], from, to);
        if rows[i].sender == from { assert p in xs; }
      }
    }
    JoinsSame(SenderMerged(rows, from, to), left, renamed);
  }

  /** The prior rows that end under a chat, renamed on both columns. */
  function Sources(t: Tables, from: Jid, to: Jid, c: Jid): seq<Row> {
    RenamedRows(Rows(t.messages, c), from, to) + if c == to then RenamedRows(Rows(t.messages, from), from, to) else []
  }

  lemma JoinsSenders(out: seq<Row>, a: seq<Row>, b: seq<Row>, from: Jid)
    requires Joins(out, a + b)
    requires (forall q :: q in a ==> q.sender != from) && (forall q :: q in b ==> q.sender != from)
    ensures forall r :: r in out ==> r.sender != from
  {
    forall r | r in out ensures r.sender != from {
      var q :| q in a + b && SameKey(q, r) && q.receipt == r.receipt;
      assert q in a || q in b;
    }
  }

  /** The alias merge is a union under renaming: one row for every image of a key, read
      if any of its up to four preimages is, with their greatest receipt. */
  lemma MergeIsUnion(t: Tables, from: Jid, to: Jid, c: Jid)
    requires from != to && c != from
    requires forall d :: UniqueKeys(Rows(t.messages, d))
    ensures Joins(MergedRows(t.messages, from, to, c), Sources(t, from, to, c))
    ensures forall r :: r in MergedRows(t.messages, from, to, c) ==> r.sender != from
  {
    var a := SenderMerged(Rows(t.messages, c), from, to);
    SenderMergedJoins(Rows(t.messages, c), from, to);
    if c == to {
      var b := SenderMerged(Rows(t.messages, from), from, to);
      SenderMergedJoins(Rows(t.messages, from), from, to);
      UpsertJoins(ByChat, a, b);
      JoinsCompose(MergedRows(t.messages, from, to, c), a, b,
                   RenamedRows(Rows(t.messages, c), from, to), RenamedRows(Rows(t.messages, from), from, to));
      JoinsSenders(MergedRows(t.messages, from, to, c), a, b, from);
    } else {
      assert Sources(t, from, to, c) == RenamedRows(Rows(t.messages, c), from, to);
    }
  }

  // --------------------------------------------------- what the whole merge leaves

  lemma FinalMessagesRows(t: Tables, from: Jid, to: Jid, c: Jid)
    requires from != to
    ensures from !in FinalMessages(t, from, to)
    ensures c != from ==> Rows(FinalMessages(t, from, to), c) == FinalRows(t, from, to, c)
  {
    if c != from && c !in t.messages && c != to {
      assert Rows(t.messages, c) == [] && Taken([], from, to) == [];
    }
  }

  lemma FinalSenders(t: Tables, from: Jid, to: Jid, c: Jid, i: nat)
    requires from != to && c != from && i < |FinalRows(t, from, to, c)|
    requires forall d :: UniqueKeys(Rows(t.messages, d))
    ensures FinalRows(t, from, to, c)[i].sender != from
  {
    MergeIsUnion(t, from, to, c);
    var rows := MergedRows(t.messages, from, to, c);
    var kept := if c == to then Retain(rows, t.keep) else rows;
    assert kept[i] in rows;
  }

  /** Afterwards each chat holds the union, cut to the newest in the merged chat, and the
      old identifier is neither a chat nor a sender. */
  lemma MigratedRows(t: Tables, from: Jid, to: Jid, c: Jid)
    requires Migrates(t, from, to)
    requires forall d :: UniqueKeys(Rows(t.messages, d))
    ensures from !in Migrate(t, from, to).messages
    ensures c != from ==> Rows(Migrate(t, from, to).messages, c) == FinalRows(t, from, to, c)
    ensures forall i :: 0 <= i < |Rows(Migrate(t, from, to).messages, c)| ==>
      Rows(Migrate(t, from, to).messages, c)[i].sender != from
  {
    FinalMessagesRows(t, from, to, c);
    if c != from {
      forall i | 0 <= i < |FinalRows(t, from, to, c)| ensures FinalRows(t, from, to, c)[i].sender != from {
        FinalSenders(t, from, to, c, i);
      }
    }
  }

  /** Each surviving row, after the merge: the OR of the reads and the greatest receipt of
      the prior rows whose key it is the image of. */
  lemma MigratedRowJoins(t: Tables, from: Jid, to: Jid, c: Jid, i: nat)
    requires Migrates(t, from, to) && c != from && i < |Rows(Migrate(t, from, to).messages, c)|
    requires forall d :: UniqueKeys(Rows(t.messages, d))
    ensures var r := Rows(Migrate(t, from, to).messages, c)[i];
      (r.read <==> ReadIn(Sources(t, from, to, c), r)) && GreatestIn(Sources(t, from, to, c), r)
  {
    hide MergedRows, FinalRows, Sources, Migrate, SourceExists, UniqueKeys, ReadIn, GreatestIn;
    MigratedRows(t, from, to, c);
    MergeIsUnion(t, from, to, c);
    var q := FinalRowIs(t, from, to, c, i);
    JoinsRow(MergedRows(t.messages, from, to, c), Sources(t, from, to, c), q, FinalRows(t, from, to, c)[i]);
  }

  /** Retention and the contact's name leave the key, the read flag and the receipt. */
  lemma FinalRowIs(t: Tables, from: Jid, to: Jid, c: Jid, i: nat) returns (q: Row)
    requires i < |FinalRows(t, from, to, c)|
    ensures q in MergedRows(t.messages, from, to, c)
    ensures var r := FinalRows(t, from, to, c)[i]; SameKey(r, q) && r.read == q.read && r.receipt == q.receipt
  {
    hide MergedRows;
    var rows := MergedRows(t.messages, from, to, c);
    q := (if c == to then Retain(rows, t.keep) else rows)[i];
  }

  lemma JoinsRow(out: seq<Row>, src: seq<Row>, q: Row, r: Row)
    requires Joins(out, src) && q in out && SameKey(r, q) && r.read == q.read && r.receipt == q.receipt
    ensures (r.read <==> ReadIn(src, r)) && GreatestIn(src, r)
  {
    hide UniqueKeys, HasKey;
  }

  /** Watermarks and boundaries of the two chats are joined by maximum; with one settings
      row its boundary and ids stand, and with two the ids go with the greater boundary. */
  lemma MigratedSettings(t: Tables, from: Jid, to: Jid)
    requires Migrates(t, from, to) && (from in t.settings || to in t.settings)
    requires forall c :: c in t.settings ==> t.settings[c].clearedAt >= 0
    ensures var s := SettingsOf(Migrate(t, from, to).settings, to);
      && s.clearedAt == Max(SettingsOf(t.settings, from).clearedAt, SettingsOf(t.settings, to).clearedAt)
      && (from in t.settings && to in t.settings ==>
           s.readBoundary == Max(t.settings[from].readBoundary, t.settings[to].readBoundary))
      && (to !in t.settings ==>
           s.readBoundary == t.settings[from].readBoundary && s.boundaryIds == t.settings[from].boundaryIds)
      && (from !in t.settings ==> s == t.settings[to])
      && (from in t.settings && to in t.settings ==>
           s.boundaryIds == if t.settings[from].readBoundary > t.settings[to].readBoundary
                            then t.settings[from].boundaryIds else t.settings[to].boundaryIds)
    ensures from !in Migrate(t, from, to).settings
  {
    hide FinalMessages, ReadersMoved, VotesMoved, PeopleMoved, ReactorMoved, ReactionChatMoved, TombstonesMoved;
    hide MergedChat, TitledChat, MergedContact, SourceExists;
  }

  /** Who voted, read and reacted in the merged tables, row by row. */
  lemma MigratedPeople(t: Tables, from: Jid, to: Jid)
    requires Migrates(t, from, to)
    ensures var u := Migrate(t, from, to);
      && VotesJoined(u.votes, t.votes, from, to) && ReadersJoined(u.readers, t.readers, from, to)
      && ReactionsJoined(u.reactions, t.reactions, from, to) && TombstonesJoined(u.tombstones, t.tombstones, from, to)
  {
    PeopleJoin(t.votes, t.readers, from, to);
    ReactionsJoin(t.reactions, from, to);
    TombstonesJoin(t.tombstones, from, to);
  }

  lemma NobodyLeft(t: Tables, from: Jid, to: Jid)
    requires Migrates(t, from, to)
    requires forall d :: UniqueKeys(Rows(t.messages, d))
    ensures !SentBy(Migrate(t, from, to), from)
  {
    var m: map<Jid, seq<Row>> := Migrate(t, from, to).messages;
    forall c: Jid | c in m ensures forall i :: 0 <= i < |m[c]| ==> m[c][i].sender != from {
      MigratedRows(t, from, to, c);
      assert m[c] == Rows(m, c);
    }
  }

  lemma VotersMoved(m: map<(Jid, Id), map<Jid, Vote>>, from: Jid, to: Jid)
    requires forall p :: p in m ==> from !in m[p]
    ensures forall p :: p in VotesMoved(m, from, to) ==> from !in VotesMoved(m, from, to)[p]
  {
  }

  lemma ReactorsMoved(m: map<ReactionKey, Reaction>, from: Jid, to: Jid)
    requires from != to
    ensures forall k :: k in ReactionChatMoved(ReactorMoved(m, from, to), from, to) ==> k.reactor != from
  {
    var moved := ReactorMoved(m, from, to);
    forall k | k in ReactionChatMoved(moved, from, to) ensures k.reactor != from {
      assert k in moved || k.(chat := from) in moved;
    }
  }

  /** A second merge finds nothing and changes nothing. */
  lemma MigrateTwice(t: Tables, from: Jid, to: Jid)
    requires Migrates(t, from, to)
    requires forall d :: UniqueKeys(Rows(t.messages, d))
    ensures !Migrates(Migrate(t, from, to), from, to)
    ensures Migrate(Migrate(t, from, to), from, to) == Migrate(t, from, to)
  {
    NobodyLeft(t, from, to);
    ReactorsMoved(t.reactions, from, to);
    VotersMoved(PeopleMoved(t.votes, from, to), from, to);
    NothingLeft(t, Migrate(t, from, to), from, to);
  }

  lemma NothingLeft(t: Tables, u: Tables, from: Jid, to: Jid)
    requires from != to && !SentBy(u, from)
    requires from !in u.chats && from !in u.contacts && from !in u.settings
    requires forall k :: k in u.reactions ==> k.reactor != from
    requires forall p :: p in u.votes ==> from !in u.votes[p]
    ensures !Migrates(u, from, to)
  {
  }
}
