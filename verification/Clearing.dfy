/** Clearing chats and deleting messages: watermarks and tombstones. */
module Clearing {
  import opened Prelude
  import opened Schema

  predicate HasIdThrough(rows: seq<Row>, id: Id, upTo: int) {
    exists i :: 0 <= i < |rows| && rows[i].id == id && rows[i].timestamp <= upTo
  }

  function WithoutThrough<V>(m: map<(Jid, Id), V>, c: Jid, rows: seq<Row>, upTo: int): map<(Jid, Id), V> {
    map p | p in m && !(p.0 == c && HasIdThrough(rows, p.1, upTo)) :: m[p]
  }

  function WithoutReactions(m: map<ReactionKey, Reaction>, c: Jid, rows: seq<Row>, upTo: int)
    : map<ReactionKey, Reaction>
  {
    map k | k in m && !(k.chat == c && HasIdThrough(rows, k.message, upTo)) :: m[k]
  }

  function WithoutReactionsTo(m: map<ReactionKey, Reaction>, c: Jid, id: Id): map<ReactionKey, Reaction> {
    map k | k in m && !(k.chat == c && k.message == id) :: m[k]
  }

  /** `delete_messages_through`. */
  function DeleteThrough(t: Tables, c: Jid, upTo: int): Tables {
    var rows := Rows(t.messages, c);
    t.(votes := WithoutThrough(t.votes, c, rows, upTo),
       readers := WithoutThrough(t.readers, c, rows, upTo),
       reactions := WithoutReactions(t.reactions, c, rows, upTo),
       messages := WithRows(t.messages, c, CutRows(Through(upTo), rows)))
  }

  /** `refresh_chat_tail`: preview, time and badge from the rows that are left. */
  function RefreshedChat(chat: Chat, rows: seq<Row>): Chat {
    var top := Newest(rows, true);
    chat.(lastMessage := if top.Some? then top.value.text else "",
          lastTimestamp := if top.Some? then top.value.timestamp else 0,
          unread := UnreadCount(rows))
  }

  function RefreshTail(chats: map<Jid, Chat>, c: Jid, rows: seq<Row>): map<Jid, Chat> {
    if c in chats then chats[c := RefreshedChat(chats[c], rows)] else chats
  }

  function Stale(t: Tables, c: Jid, at: int): bool {
    at < SettingsOf(t.settings, c).clearedAt
  }

  function Sweep(u: Tables, c: Jid, at: int): Tables {
    var s := SettingsOf(u.settings, c);
    u.(chats := RefreshTail(u.chats, c, Rows(u.messages, c)),
       settings := u.settings[c := s.(readState := Some(true), explicitUnread := false,
                                      clearedAt := Max(s.clearedAt, at))])
  }

  function ClearChat(t: Tables, c: Jid, at: int): Tables {
    if Stale(t, c, at) then t else Sweep(DeleteThrough(t, c, at), c, at)
  }

  /** A first settings row is inserted as deleted even when newer messages remain. */
  function Bury(u: Tables, c: Jid, at: int): Tables {
    var s, rows := SettingsOf(u.settings, c), Rows(u.messages, c);
    u.(chats := if rows != [] then RefreshTail(u.chats, c, rows) else u.chats - {c},
       settings := u.settings[c := s.(deleted := c !in u.settings || rows == [], clearedAt := Max(s.clearedAt, at))])
  }

  function DeleteChat(t: Tables, c: Jid, at: int): Tables {
    if Stale(t, c, at) then t else Bury(DeleteThrough(t, c, at), c, at)
  }

  /** Preview and time only: deleting one message leaves the badge alone. */
  function WithPreview(chats: map<Jid, Chat>, c: Jid, rows: seq<Row>): map<Jid, Chat> {
    var top := Newest(rows, false);
    if c !in chats then chats
    else chats[c := chats[c].(lastMessage := if top.Some? then top.value.text else "",
                              lastTimestamp := if top.Some? then top.value.timestamp else chats[c].lastTimestamp)]
  }

  function DeleteMessage(t: Tables, c: Jid, id: Id): Tables {
    var rows := CutRows(WithId(id), Rows(t.messages, c));
    t.(votes := t.votes - {(c, id)},
       readers := t.readers - {(c, id)},
       messages := WithRows(t.messages, c, rows),
       reactions := WithoutReactionsTo(t.reactions, c, id),
       tombstones := t.tombstones + {(c, id)},
       chats := WithPreview(t.chats, c, rows))
  }
}
