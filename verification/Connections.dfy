/** Per-client intents: wrapping id allocation and their aggregate. */
module Connections {
  import opened Prelude

  const U64_MAX := 0xFFFF_FFFF_FFFF_FFFF

  newtype u64 = x: int | 0 <= x <= U64_MAX

  type Chat = string

  datatype Intent = Intent(activeChat: Option<Chat>, available: bool)

  const DefaultIntent := Intent(None, false)

  datatype State = State(available: bool, activeChats: set<Chat>)

  /** `next_id.wrapping_add(1).max(1)`: the ring of non-zero ids. */
  function Step(id: u64): (next: u64)
    ensures next != 0
  {
    if id as int == U64_MAX then 1 else id + 1
  }

  /** How many steps round the ring lead from one id to a non-zero one. */
  function Distance(from: u64, to: u64): (d: nat)
    requires to != 0
    ensures d == 0 <==> from == to
  {
    if from <= to then (to - from) as nat else (U64_MAX - from as int) + to as int
  }

  lemma StepApproaches(from: u64, to: u64)
    requires to != 0 && from != to
    ensures Distance(Step(from), to) < Distance(from, to)
  {
  }

  /** If the ids 1 to n are all taken, there are at least n of them. */
  lemma {:induction false} TakenAtLeast(ids: set<u64>, n: nat)
    requires n <= U64_MAX && forall id: u64 :: 0 < id as int <= n ==> id in ids
    ensures n <= |ids|
  {
    if n > 0 {
      var last := n as u64;
      TakenAtLeast(ids - {last}, n - 1);
    }
  }

  /** With fewer connections than ids, some non-zero id is free. */
  lemma FreeIdExists(connections: map<u64, Intent>)
    requires |connections| < U64_MAX
    ensures exists id: u64 :: id != 0 && id !in connections
  {
    if forall id: u64 :: 0 < id as int <= U64_MAX ==> id in connections.Keys {
      TakenAtLeast(connections.Keys, U64_MAX);
    }
  }

  /** The ids a connection search passes over: the first n after the last one given out. */
  function After(id: u64, n: nat): u64 {
    if n == 0 then id else Step(After(id, n - 1))
  }

  /** The nth id after `start` is the first one not in use. */
  ghost predicate FirstFree(start: u64, n: nat, connections: map<u64, Intent>) {
    n > 0 && After(start, n) !in connections && forall k: nat :: 0 < k < n ==> After(start, k) in connections
  }

  ghost function Aggregate(connections: map<u64, Intent>): State {
    State(exists id :: id in connections && connections[id].available,
          set id | id in connections && connections[id].activeChat.Some? :: connections[id].activeChat.value)
  }

  predicate Viewed(connections: map<u64, Intent>, chat: Chat) {
    exists id :: id in connections && connections[id].activeChat == Some(chat)
  }

  class ConnectionIntents {
    var nextId: u64
    var connections: map<u64, Intent>

    constructor ()
      ensures nextId == 0 && connections == map[]
    {
      nextId := 0;
      connections := map[];
    }

    /** Ends for every starting id, wrapping past zero, at the first free id after it. */
    method Connect() returns (id: u64)
      requires |connections| < U64_MAX
      modifies this
      ensures id != 0 && id !in old(connections) && nextId == id
      ensures connections == old(connections)[id := DefaultIntent]
      ensures exists n: nat :: FirstFree(old(nextId), n, old(connections)) && id == After(old(nextId), n)
    {
      FreeIdExists(connections);
      ghost var free: u64 :| free != 0 && free !in connections;
      ghost var start := nextId;
      ghost var n: nat := 1;
      assert After(start, 0) == start;
      nextId := Step(nextId);
      while nextId in connections
        invariant nextId != 0 && connections == old(connections)
        invariant n > 0 && nextId == After(start, n)
        invariant forall k: nat :: 0 < k < n ==> After(start, k) in connections
        decreases Distance(nextId, free)
      {
        StepApproaches(nextId, free);
        nextId := Step(nextId);
        n := n + 1;
      }
      assert FirstFree(start, n, connections);
      id := nextId;
      connections := connections[id := DefaultIntent];
    }

    method SetActiveChat(id: u64, chat: Option<Chat>) returns (known: bool)
      modifies this`connections
      ensures known == (id in old(connections))
      ensures connections == if known then old(connections)[id := old(connections)[id].(activeChat := chat)]
        else old(connections)
    {
      known := id in connections;
      if known {
        connections := connections[id := connections[id].(activeChat := chat)];
      }
    }

    method SetAvailable(id: u64, available: bool) returns (known: bool)
      modifies this`connections
      ensures known == (id in old(connections))
      ensures connections == if known then old(connections)[id := old(connections)[id].(available := available)]
        else old(connections)
    {
      known := id in connections;
      if known {
        connections := connections[id := connections[id].(available := available)];
      }
    }

    method Disconnect(id: u64) returns (known: bool)
      modifies this`connections
      ensures known == (id in old(connections))
      ensures connections == old(connections) - {id}
    {
      known := id in connections;
      connections := connections - {id};
    }

    method CurrentState() returns (state: State)
      ensures state == Aggregate(connections)
    {
      var available, active := false, {};
      var left := connections.Keys;
      while left != {}
        invariant left <= connections.Keys
        invariant available <==> exists id :: id in connections.Keys - left && connections[id].available
        invariant active == set id | id in connections.Keys - left && connections[id].activeChat.Some? ::
          connections[id].activeChat.value
      {
        var id :| id in left;
        available := available || connections[id].available;
        if connections[id].activeChat.Some? {
          active := active + {connections[id].activeChat.value};
        }
        left := left - {id};
      }
      state := State(available, active);
    }

    method IsFocused(chat: Chat) returns (focused: bool)
      ensures focused <==> chat in Aggregate(connections).activeChats
    {
      focused := false;
      var left := connections.Keys;
      while left != {}
        invariant left <= connections.Keys
        invariant focused <==> exists id :: id in connections.Keys - left && connections[id].activeChat == Some(chat)
      {
        var id :| id in left;
        focused := focused || connections[id].activeChat == Some(chat);
        left := left - {id};
      }
    }
  }
}
