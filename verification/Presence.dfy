/** Presence subscriptions driven by the aggregate of all clients' intents. */
module Presence {
  import opened Prelude
  import opened Connections

  /** The linked device as the service sees it: subscribed chats, and whether it announces
      itself available. A name that is still empty keeps it from announcing itself. */
  datatype Remote = Remote(subscribed: set<Chat>, announced: bool, named: bool)

  /** What a reconciliation meets: a sync that is still pending, the chats whose calls
      fail, and whether the announcement fails. Failures are logged and passed over. */
  datatype Outlook = Outlook(syncPending: bool, refused: set<Chat>, muted: bool)

  predicate EffectivelyAvailable(requested: bool, syncPending: bool) {
    requested && !syncPending
  }

  function Announced(r: Remote, after: bool, o: Outlook): bool {
    if EffectivelyAvailable(after, o.syncPending) then r.announced || (r.named && !o.muted)
    else r.announced && o.muted
  }

  /** `direct` says which raw chats parse as a JID that is not a group. */
  function Reconciled(r: Remote, before: State, after: State, force: bool, o: Outlook, direct: set<Chat>): Remote {
    r.(announced := if force || before.available != after.available
                    then Announced(r, after.available, o) else r.announced,
       subscribed := r.subscribed - ((before.activeChats - after.activeChats) * direct - o.refused)
                     + ((after.activeChats - before.activeChats) * direct - o.refused))
  }

  class Client {
    var remote: Option<Remote>

    constructor ()
      ensures remote == None
    {
      remote := None;
    }

    method SetAnnounced(available: bool, o: Outlook)
      requires remote.Some?
      modifies this
      ensures remote == if o.muted then old(remote) else Some(old(remote).value.(announced := available))
    {
      if !o.muted {
        remote := Some(remote.value.(announced := available));
      }
    }

    method Unsubscribe(chat: Chat, o: Outlook)
      requires remote.Some?
      modifies this
      ensures remote == Some(old(remote).value.(subscribed := old(remote.value.subscribed) - ({chat} - o.refused)))
    {
      if chat !in o.refused {
        assert {chat} - o.refused == {chat};
        remote := Some(remote.value.(subscribed := remote.value.subscribed - {chat}));
      } else {
        assert old(remote.value.subscribed) - ({chat} - o.refused) == old(remote.value.subscribed);
      }
    }

    method Subscribe(chat: Chat, o: Outlook)
      requires remote.Some?
      modifies this
      ensures remote == Some(old(remote).value.(subscribed := old(remote.value.subscribed) + ({chat} - o.refused)))
    {
      if chat !in o.refused {
        assert {chat} - o.refused == {chat};
        remote := Some(remote.value.(subscribed := remote.value.subscribed + {chat}));
      } else {
        assert old(remote.value.subscribed) + ({chat} - o.refused) == old(remote.value.subscribed);
      }
    }

    method Announce(before: State, after: State, force: bool, o: Outlook)
      requires remote.Some?
      modifies this
      ensures remote == Some(old(remote).value.(announced :=
        if force || before.available != after.available then Announced(old(remote).value, after.available, o)
        else old(remote.value.announced)))
    {
      if force || before.available != after.available {
        var available := EffectivelyAvailable(after.available, o.syncPending);
        if available {
          if remote.value.named {
            SetAnnounced(true, o);
          }
        } else {
          SetAnnounced(false, o);
        }
      }
    }

    method Close(closed: set<Chat>, o: Outlook, direct: set<Chat>)
      requires remote.Some?
      modifies this
      ensures remote ==
        Some(old(remote).value.(subscribed := old(remote.value.subscribed) - (closed * direct - o.refused)))
    {
      ghost var start := remote.value;
      var left := closed;
      assert start.subscribed - ((closed - left) * direct - o.refused) == start.subscribed;
      while left != {}
        invariant left <= closed
        invariant remote == Some(start.(subscribed := start.subscribed - ((closed - left) * direct - o.refused)))
      {
        var raw :| raw in left;
        left := left - {raw};
        if raw in direct {
          Unsubscribe(raw, o);
        }
        assert remote.value.subscribed == start.subscribed - ((closed - left) * direct - o.refused);
      }
      assert closed - left == closed;
    }

    method Open(opened': set<Chat>, o: Outlook, direct: set<Chat>)
      requires remote.Some?
      modifies this
      ensures remote ==
        Some(old(remote).value.(subscribed := old(remote.value.subscribed) + (opened' * direct - o.refused)))
    {
      ghost var start := remote.value;
      var left := opened';
      assert start.subscribed + ((opened' - left) * direct - o.refused) == start.subscribed;
      while left != {}
        invariant left <= opened'
        invariant remote == Some(start.(subscribed := start.subscribed + ((opened' - left) * direct - o.refused)))
      {
        var raw :| raw in left;
        left := left - {raw};
        if raw in direct {
          Subscribe(raw, o);
        }
        assert remote.value.subscribed == start.subscribed + ((opened' - left) * direct - o.refused);
      }
      assert opened' - left == opened';
    }

    /** One reconciliation; without a client it does nothing. */
    method Reconcile(before: State, after: State, force: bool, o: Outlook, direct: set<Chat>)
      modifies this
      ensures remote ==
        if old(remote).None? then None else Some(Reconciled(old(remote).value, before, after, force, o, direct))
    {
      if remote.None? {
        return;
      }
      Announce(before, after, force, o);
      Close(before.activeChats - after.activeChats, o, direct);
      Open(after.activeChats - before.activeChats, o, direct);
    }
  }

  // --------------------------------------------------- whole sessions

  /** Attached: a fresh service connection, with no subscription yet. Restored: the
      offline sync is over, and the whole intent is sent again. */
  datatype Event =
    | Connected(id: u64)
    | Focused(id: u64, chat: Option<Chat>)
    | Availability(id: u64, available: bool)
    | Disconnected(id: u64)
    | Attached(announced: bool, named: bool)
    | Detached
    | Restored

  const NoIntent := State(false, {})

  function Change(connections: map<u64, Intent>, e: Event): map<u64, Intent> {
    match e
    case Connected(id) => if id in connections then connections else connections[id := DefaultIntent]
    case Focused(id, chat) =>
      if id in connections then connections[id := connections[id].(activeChat := chat)] else connections
    case Availability(id, a) =>
      if id in connections then connections[id := connections[id].(available := a)] else connections
    case Disconnected(id) => connections - {id}
    case _ => connections
  }

  /** A connection's chat and availability move only by its own events; it comes and goes by
      its own, and comes with the intent it starts from. */
  lemma OwnIntentOnly(connections: map<u64, Intent>, e: Event, id: u64)
    ensures var now := Change(connections, e);
      if id in connections then
        && (id in now <==> e != Disconnected(id))
        && (id in now ==>
            && now[id].activeChat == (if e.Focused? && e.id == id then e.chat else connections[id].activeChat)
            && now[id].available == if e.Availability? && e.id == id then e.available else connections[id].available)
      else (id in now <==> e == Connected(id)) && (id in now ==> now[id] == Intent(None, false))
  {
  }

  datatype Session = Session(connections: map<u64, Intent>, remote: Option<Remote>)

  datatype Step = Step(event: Event, outlook: Outlook)

  predicate Forced(e: Event) {
    e.Attached? || e.Restored?
  }

  /** The client an event leaves, before the reconciliation. */
  function ClientAfter(remote: Option<Remote>, e: Event): Option<Remote> {
    match e
    case Attached(announced, named) => Some(Remote({}, announced, named))
    case Detached => None
    case _ => remote
  }

  ghost function Before(s: Session, e: Event): State {
    if Forced(e) then NoIntent else Aggregate(s.connections)
  }

  /** A change of intent or of client, then its reconciliation. */
  ghost function Next(s: Session, x: Step, direct: set<Chat>): Session {
    var after := Change(s.connections, x.event);
    match ClientAfter(s.remote, x.event)
    case None => Session(after, None)
    case Some(r) =>
      Session(after, Some(Reconciled(r, Before(s, x.event), Aggregate(after), Forced(x.event), x.outlook, direct)))
  }

  ghost function Run(s: Session, xs: seq<Step>, direct: set<Chat>): Session {
    if xs == [] then s else Next(Run(s, xs[..|xs| - 1], direct), xs[|xs| - 1], direct)
  }

  /** A step calls the service about a chat that entered or left the aggregate. */
  ghost predicate Calls(s: Session, x: Step, direct: set<Chat>, chat: Chat) {
    var before, after := Before(s, x.event).activeChats, Aggregate(Change(s.connections, x.event)).activeChats;
    chat in direct && chat in (before - after) + (after - before)
  }

  /** The last call about the chat on this service connection failed. */
  ghost predicate LastCallFailed(s: Session, xs: seq<Step>, direct: set<Chat>, chat: Chat) {
    if xs == [] then false
    else
      var front, x := xs[..|xs| - 1], xs[|xs| - 1];
      if Calls(Run(s, front, direct), x, direct, chat) then chat in x.outlook.refused
      else !x.event.Attached? && LastCallFailed(s, front, direct, chat)
  }

  ghost predicate LastAnnouncementFailed(s: Session, xs: seq<Step>, direct: set<Chat>) {
    if xs == [] then false
    else
      var front, x := xs[..|xs| - 1], xs[|xs| - 1];
      var u := Run(s, front, direct);
      if Forced(x.event) || Aggregate(u.connections).available != Aggregate(Change(u.connections, x.event)).available
      then x.outlook.muted
      else LastAnnouncementFailed(s, front, direct)
  }

  /** While a client is attached, the subscriptions are exactly the direct chats some
      connection views, and the device is announced only if some connection asks for it. */
  ghost predicate InStep(s: Session, direct: set<Chat>) {
    s.remote.Some? ==>
      && s.remote.value.subscribed == Aggregate(s.connections).activeChats * direct
      && (s.remote.value.announced ==> Aggregate(s.connections).available)
  }

  ghost predicate ChatInStep(s: Session, direct: set<Chat>, chat: Chat) {
    s.remote.Some? ==> (chat in s.remote.value.subscribed <==> chat in Aggregate(s.connections).activeChats * direct)
  }

  /** Through changes of intent, attaches, detaches, restores and failing calls, a chat is
      in step unless the last call made for it failed. */
  lemma {:induction false} SubscriptionsFollowFocus(s: Session, xs: seq<Step>, direct: set<Chat>, chat: Chat)
    requires InStep(s, direct)
    requires !LastCallFailed(s, xs, direct, chat)
    ensures ChatInStep(Run(s, xs, direct), direct, chat)
  {
    if xs != [] {
      var front, x := xs[..|xs| - 1], xs[|xs| - 1];
      var u := Run(s, front, direct);
      if !Calls(u, x, direct, chat) && !x.event.Attached? {
        SubscriptionsFollowFocus(s, front, direct, chat);
      }
    }
  }

  /** The device is never announced while no connection asks for it, unless the last
      announcement failed. */
  lemma {:induction false} AnnouncedOnlyIfAvailable(s: Session, xs: seq<Step>, direct: set<Chat>)
    requires InStep(s, direct)
    requires !LastAnnouncementFailed(s, xs, direct)
    ensures var u := Run(s, xs, direct);
      u.remote.Some? && u.remote.value.announced ==> Aggregate(u.connections).available
  {
    if xs != [] {
      var front, x := xs[..|xs| - 1], xs[|xs| - 1];
      var u := Run(s, front, direct);
      if !Forced(x.event) && Aggregate(u.connections).available == Aggregate(Change(u.connections, x.event)).available {
        AnnouncedOnlyIfAvailable(s, front, direct);
      }
    }
  }

  /** What the last announcement met, if there was one on this service connection. */
  ghost function LastAnnouncement(s: Session, xs: seq<Step>, direct: set<Chat>): Option<Outlook> {
    if xs == [] then None
    else
      var front, x := xs[..|xs| - 1], xs[|xs| - 1];
      var u := Run(s, front, direct);
      if Forced(x.event) || Aggregate(u.connections).available != Aggregate(Change(u.connections, x.event)).available
      then Some(x.outlook)
      else LastAnnouncement(s, front, direct)
  }

  /** If the last announcement did not fail, a device that has its name is announced exactly
      while some connection asks for it, unless the sync was pending then. */
  lemma {:induction false} AnnouncedIffAvailable(s: Session, xs: seq<Step>, direct: set<Chat>)
    requires LastAnnouncement(s, xs, direct).Some? && !LastAnnouncement(s, xs, direct).value.muted
    ensures var u := Run(s, xs, direct);
      u.remote.Some? && u.remote.value.named ==>
        (u.remote.value.announced <==>
         Aggregate(u.connections).available && !LastAnnouncement(s, xs, direct).value.syncPending)
  {
    var front, x := xs[..|xs| - 1], xs[|xs| - 1];
    var u := Run(s, front, direct);
    if !Forced(x.event) && Aggregate(u.connections).available == Aggregate(Change(u.connections, x.event)).available {
      AnnouncedIffAvailable(s, front, direct);
    }
  }

  // --------------------------------------------------- one reconciliation, call by call

  /** Unless it is made and heard, an announcement changes nothing; made and heard, it tells
      what is asked for after the sync, and a device without a name can only fall silent. */
  lemma AnnouncementHeard(r: Remote, before: State, after: State, force: bool, o: Outlook, direct: set<Chat>)
    ensures var u := Reconciled(r, before, after, force, o, direct);
      && u.named == r.named
      && (o.muted || (!force && before.available == after.available) ==> u.announced == r.announced)
      && (!o.muted && (force || before.available != after.available) ==>
          (u.announced <==> after.available && !o.syncPending && (r.named || r.announced)))
  {
  }

  /** A direct chat that enters or leaves the aggregate is subscribed or not from then on, if
      its call succeeds; all others stay as they are. */
  lemma SubscriptionMoves(r: Remote, before: State, after: State, force: bool, o: Outlook, direct: set<Chat>,
                          chat: Chat)
    ensures var u := Reconciled(r, before, after, force, o, direct);
      var moves := (chat in before.activeChats) != (chat in after.activeChats);
      chat in u.subscribed <==>
        if moves && chat in direct && chat !in o.refused then chat in after.activeChats else chat in r.subscribed
  {
  }

  /** A fresh client opens every direct chat that is viewed, except those whose calls fail. */
  lemma FreshClient(s: Session, announced: bool, named: bool, o: Outlook, direct: set<Chat>)
    ensures var u := Next(s, Step(Attached(announced, named), o), direct);
      && u.connections == s.connections && u.remote.Some? && u.remote.value.named == named
      && u.remote.value.subscribed == Aggregate(s.connections).activeChats * direct - o.refused
      && (o.muted ==> u.remote.value.announced == announced)
  {
  }

  /** Without failures: subscribed exactly when direct and viewed by some connection. */
  lemma SubscribedIffViewed(s: Session, xs: seq<Step>, direct: set<Chat>, chat: Chat)
    requires InStep(s, direct) && forall x :: x in xs ==> chat !in x.outlook.refused
    ensures var u := Run(s, xs, direct);
      u.remote.Some? ==> (chat in u.remote.value.subscribed <==> chat in direct && Viewed(u.connections, chat))
  {
    NeverFailed(s, xs, direct, chat);
    SubscriptionsFollowFocus(s, xs, direct, chat);
    var u := Run(s, xs, direct);
    if chat in Aggregate(u.connections).activeChats {
      var id :| id in u.connections && u.connections[id].activeChat == Some(chat);
    }
  }

  lemma {:induction false} NeverFailed(s: Session, xs: seq<Step>, direct: set<Chat>, chat: Chat)
    requires forall x :: x in xs ==> chat !in x.outlook.refused
    ensures !LastCallFailed(s, xs, direct, chat)
  {
    if xs != [] { NeverFailed(s, xs[..|xs| - 1], direct, chat); }
  }

  /** One viewer leaving, or turning elsewhere, keeps a chat another connection still
      views, whatever calls fail then. */
  lemma LeavingKeepsOthers(s: Session, xs: seq<Step>, direct: set<Chat>, leaver: u64, viewer: u64, to: Option<Chat>,
                           o: Outlook)
    requires InStep(s, direct) && leaver != viewer
    requires var u := Run(s, xs, direct);
      && u.remote.Some? && viewer in u.connections
      && u.connections[viewer].activeChat.Some? && u.connections[viewer].activeChat.value in direct
      && !LastCallFailed(s, xs, direct, u.connections[viewer].activeChat.value)
    ensures var u := Run(s, xs, direct);
      var chat := u.connections[viewer].activeChat.value;
      && chat in Next(u, Step(Disconnected(leaver), o), direct).remote.value.subscribed
      && chat in Next(u, Step(Focused(leaver, to), o), direct).remote.value.subscribed
  {
    var u := Run(s, xs, direct);
    SubscriptionsFollowFocus(s, xs, direct, u.connections[viewer].activeChat.value);
    var gone, turned := Change(u.connections, Disconnected(leaver)), Change(u.connections, Focused(leaver, to));
    assert gone[viewer] == u.connections[viewer] && turned[viewer] == u.connections[viewer];
  }
}
