/**
 The realtime hub: one goroutine serving register, unregister and broadcast messages over two
 indexes of its clients, while each client's connection drains its own queue. A Go channel is
 the sequence of everything ever sent on it, how much of that was received, and whether it is
 closed; sending on or closing a closed channel panics, so both demand an open one.
 */
module RealtimeHub {
  import opened Wrappers

  const QUEUE_CAPACITY: nat := 256

  datatype Event = Event(orgId: string, body: string)

  datatype Client = Client(id: string, orgId: string)

  datatype Channel = Channel(sent: seq<Event>, received: nat, closed: bool)

  datatype HubState = HubState(
    clients: map<string, Client>,
    orgClients: map<string, map<string, Client>>,
    channels: map<string, Channel>)

  predicate Full(ch: Channel) {
    |ch.sent| >= ch.received + QUEUE_CAPACITY
  }

  // ---------------------------------------------------------------- the invariant

  /** The two indexes hold the same clients, partitioned by organization, no part empty. */
  ghost predicate IndexesAgree(clients: map<string, Client>, orgClients: map<string, map<string, Client>>) {
    && (forall id :: id in clients ==>
          && clients[id].id == id && clients[id].orgId in orgClients
          && id in orgClients[clients[id].orgId] && orgClients[clients[id].orgId][id] == clients[id])
    && (forall org :: org in orgClients ==> orgClients[org] != map[])
    && (forall org, id :: org in orgClients && id in orgClients[org] ==>
          id in clients && clients[id] == orgClients[org][id] && clients[id].orgId == org)
  }

  /** A channel is open exactly while its client is registered, and its queue has its bound. */
  ghost predicate ChannelsAgree(clients: map<string, Client>, channels: map<string, Channel>) {
    && clients.Keys <= channels.Keys
    && forall id :: id in channels ==>
         && (channels[id].closed <==> id !in clients)
         && channels[id].received <= |channels[id].sent| <= channels[id].received + QUEUE_CAPACITY
  }

  ghost predicate Consistent(h: HubState) {
    IndexesAgree(h.clients, h.orgClients) && ChannelsAgree(h.clients, h.channels)
  }

  lemma {:induction false} RegisteredIsOpen(h: HubState, id: string)
    requires Consistent(h)
    ensures id in h.clients ==> id in h.channels && !h.channels[id].closed
  {
  }

  /** The members the hub looks up for an organization are its registered clients. */
  lemma {:induction false} MembersAre(h: HubState, org: string, id: string)
    requires Consistent(h)
    ensures id in Members(h.orgClients, org) <==> id in h.clients && h.clients[id].orgId == org
  {
  }

  // ---------------------------------------------------------------- the messages

  datatype Message =
    | Register(client: Client)
    | Unregister(client: Client)
    | Broadcast(event: Event)
    | Receive(id: string)    // the connection of a client takes the next queued event

  /** A client registers once, under an id of its own; an unregister message carries the client
      that registered, but may come any number of times. */
  predicate Enabled(h: HubState, m: Message) {
    match m
    case Register(c) => c.id !in h.channels
    case Unregister(c) => c.id in h.clients ==> h.clients[c.id] == c
    case Broadcast(_) => true
    case Receive(id) => id in h.channels && h.channels[id].received < |h.channels[id].sent|
  }

  function Members(orgClients: map<string, map<string, Client>>, org: string): map<string, Client> {
    if org in orgClients then orgClients[org] else map[]
  }

  /** The organization's map without the client, and gone when that empties it. */
  function WithoutMember(orgClients: map<string, map<string, Client>>, c: Client): map<string, map<string, Client>> {
    if c.orgId !in orgClients then orgClients
    else if orgClients[c.orgId] - {c.id} == map[] then orgClients - {c.orgId}
    else orgClients[c.orgId := orgClients[c.orgId] - {c.id}]
  }

  function Offer(ch: Channel, e: Event): Channel {
    if Full(ch) then ch else ch.(sent := ch.sent + [e])
  }

  function Step(h: HubState, m: Message): HubState {
    match m
    case Register(c) =>
      HubState(h.clients[c.id := c],
               h.orgClients[c.orgId := Members(h.orgClients, c.orgId)[c.id := c]],
               h.channels[c.id := Channel([], 0, false)])
    case Unregister(c) =>
      if c.id !in h.clients then h
      else
        HubState(h.clients - {c.id},
                 WithoutMember(h.orgClients, c),
                 if c.id in h.channels then h.channels[c.id := h.channels[c.id].(closed := true)] else h.channels)
    case Broadcast(e) =>
      h.(channels := map id | id in h.channels ::
           if id in Members(h.orgClients, e.orgId) then Offer(h.channels[id], e) else h.channels[id])
    case Receive(id) =>
      if id in h.channels then h.(channels := h.channels[id := h.channels[id].(received := h.channels[id].received + 1)])
      else h
  }

  class Hub {
    var clients: map<string, Client>
    var orgClients: map<string, map<string, Client>>
    var channels: map<string, Channel>

    constructor ()
      ensures State() == HubState(map[], map[], map[]) && Consistent(State())
    {
      clients, orgClients, channels := map[], map[], map[];
    }

    function State(): HubState
      reads this
    {
      HubState(clients, orgClients, channels)
    }

    /** The register case of Run, for a client made with an empty queue. */
    method HandleRegister(c: Client)
      requires Consistent(State()) && Enabled(State(), Register(c))
      modifies this
      ensures State() == Step(old(State()), Register(c)) && Consistent(State())
    {
      hide Consistent;
      StepIsConsistent(State(), Register(c));
      channels := channels[c.id := Channel([], 0, false)];
      clients := clients[c.id := c];
      if c.orgId !in orgClients {
        orgClients := orgClients[c.orgId := map[]];
      }
      orgClients := orgClients[c.orgId := orgClients[c.orgId][c.id := c]];
    }

    method DropFromOrg(c: Client)
      modifies this`orgClients
      ensures orgClients == WithoutMember(old(orgClients), c)
    {
      if c.orgId in orgClients {
        var orgMap := orgClients[c.orgId] - {c.id};
        assert |orgMap| == 0 <==> orgMap == map[];
        orgClients := orgClients[c.orgId := orgMap];
        if |orgMap| == 0 {
          orgClients := orgClients - {c.orgId};
        }
      }
    }

    /** close(client.Send) */
    method Close(id: string)
      requires id in channels && !channels[id].closed
      modifies this`channels
      ensures channels == old(channels)[id := old(channels)[id].(closed := true)]
    {
      channels := channels[id := channels[id].(closed := true)];
    }

    /** The unregister case of Run. */
    method HandleUnregister(c: Client)
      requires Consistent(State()) && Enabled(State(), Unregister(c))
      modifies this
      ensures State() == Step(old(State()), Unregister(c)) && Consistent(State())
    {
      hide Consistent;
      StepIsConsistent(State(), Unregister(c));
      RegisteredIsOpen(State(), c.id);
      if c.id in clients {
        clients := clients - {c.id};
        DropFromOrg(c);
        Close(c.id);
      }
    }

    /** A non-blocking send: the event is queued, or the queue is full and nothing happens. */
    method TrySend(id: string, e: Event) returns (queued: bool)
      requires id in channels && !channels[id].closed
      modifies this`channels
      ensures queued <==> |old(channels)[id].sent| - old(channels)[id].received < 256
      ensures channels == old(channels)[id := Offer(old(channels)[id], e)]
    {
      if Full(channels[id]) {
        return false;
      }
      channels := channels[id := channels[id].(sent := channels[id].sent + [e])];
      return true;
    }

    /** The broadcast case of Run, in whatever order the map is ranged over. The clients whose
        queue was full are the ones whose unregistration is requested. */
    method HandleBroadcast(e: Event) returns (overflowed: set<string>)
      requires Consistent(State())
      modifies this`channels
      ensures State() == Step(old(State()), Broadcast(e)) && Consistent(State())
      ensures forall id :: id in overflowed <==>
                id in Members(orgClients, e.orgId) && id in old(channels)
                && |old(channels)[id].sent| - old(channels)[id].received >= 256
    {
      hide Consistent, Full, Offer;
      StepIsConsistent(State(), Broadcast(e));
      forall id | id in Members(orgClients, e.orgId) ensures id in channels && !channels[id].closed {
        MembersAre(State(), e.orgId, id);
        RegisteredIsOpen(State(), id);
      }
      overflowed := {};
      var members := Members(orgClients, e.orgId);
      var rest := members.Keys;
      while rest != {}
        invariant rest <= members.Keys && members.Keys <= channels.Keys
        invariant channels.Keys == old(channels).Keys
        invariant forall id :: id in channels ==>
          channels[id] == if id in members && id !in rest then Offer(old(channels)[id], e) else old(channels)[id]
        invariant forall id :: id in rest ==> !channels[id].closed
        invariant forall id :: id in overflowed <==>
                    id in members && id !in rest && |old(channels)[id].sent| - old(channels)[id].received >= 256
        decreases |rest|
      {
        var id :| id in rest;
        rest := rest - {id};
        var queued := TrySend(id, e);
        if !queued {
          overflowed := overflowed + {id};
        }
      }
    }
  }

  // ---------------------------------------------------------------- every message keeps it

  lemma {:induction false} RegisterIsConsistent(h: HubState, c: Client)
    requires Consistent(h) && Enabled(h, Register(c))
    ensures Consistent(Step(h, Register(c)))
  {
    var h' := Step(h, Register(c));
    forall org, id | org in h'.orgClients && id in h'.orgClients[org]
      ensures id in h'.clients && h'.clients[id] == h'.orgClients[org][id] && h'.clients[id].orgId == org
    {
      if id != c.id {
        assert org in h.orgClients && id in h.orgClients[org];
      } else {
        assert org in h.orgClients && id in h.orgClients[org] ==> id in h.clients;
      }
    }
    assert c.id in h'.orgClients[c.orgId];
  }

  lemma {:induction false} MemberWithout(
      orgClients: map<string, map<string, Client>>, c: Client, org: string, id: string)
    ensures var left := WithoutMember(orgClients, c);
            && ((org in left && id in left[org]) <==>
                org in orgClients && id in orgClients[org] && !(org == c.orgId && id == c.id))
            && (org in left && id in left[org] ==> left[org][id] == orgClients[org][id])
  {
    if org == c.orgId && org in orgClients && id in orgClients[org] && id != c.id {
      assert id in orgClients[org] - {c.id};
    }
  }

  lemma {:induction false} PartsStayFull(orgClients: map<string, map<string, Client>>, c: Client)
    requires forall org :: org in orgClients ==> orgClients[org] != map[]
    ensures forall org :: org in WithoutMember(orgClients, c) ==> WithoutMember(orgClients, c)[org] != map[]
  {
  }

  lemma {:induction false} UnregisterKeepsIndexes(h: HubState, c: Client)
    requires Consistent(h) && Enabled(h, Unregister(c)) && c.id in h.clients
    ensures IndexesAgree(Step(h, Unregister(c)).clients, Step(h, Unregister(c)).orgClients)
  {
    hide ChannelsAgree, WithoutMember;
    var h' := Step(h, Unregister(c));
    PartsStayFull(h.orgClients, c);
    forall org, id | org in h'.orgClients && id in h'.orgClients[org]
      ensures id in h'.clients && h'.clients[id] == h'.orgClients[org][id] && h'.clients[id].orgId == org
    {
      MemberWithout(h.orgClients, c, org, id);
    }
    forall id | id in h'.clients
      ensures h'.clients[id].orgId in h'.orgClients && id in h'.orgClients[h'.clients[id].orgId]
    {
      MemberWithout(h.orgClients, c, h.clients[id].orgId, id);
    }
  }

  lemma {:induction false} UnregisterIsConsistent(h: HubState, c: Client)
    requires Consistent(h) && Enabled(h, Unregister(c))
    ensures Consistent(Step(h, Unregister(c)))
  {
    hide IndexesAgree;
    if c.id in h.clients {
      UnregisterKeepsIndexes(h, c);
    }
  }

  lemma {:induction false} StepIsConsistent(h: HubState, m: Message)
    requires Consistent(h) && Enabled(h, m)
    ensures Consistent(Step(h, m))
  {
    match m
    case Register(c) => RegisterIsConsistent(h, c);
    case Unregister(c) => UnregisterIsConsistent(h, c);
    case Broadcast(e) =>
    case Receive(id) =>
  }

  // ---------------------------------------------------------------- runs

  /** The hub after a run from its start. */
  function After(run: seq<Message>): HubState {
    if run == [] then HubState(map[], map[], map[]) else Step(After(run[..|run| - 1]), run[|run| - 1])
  }

  ghost predicate Possible(run: seq<Message>) {
    run == [] || (Possible(run[..|run| - 1]) && Enabled(After(run[..|run| - 1]), run[|run| - 1]))
  }

  /** In every interleaving the two indexes agree and a channel is open exactly while its client
      is registered. */
  lemma {:induction false} EveryRunIsConsistent(run: seq<Message>)
    requires Possible(run)
    ensures Consistent(After(run))
  {
    if run != [] {
      EveryRunIsConsistent(run[..|run| - 1]);
      StepIsConsistent(After(run[..|run| - 1]), run[|run| - 1]);
    }
  }

  /** The events of its organization that were broadcast while the client was registered. */
  ghost function Offered(run: seq<Message>, c: Client): seq<Event> {
    if run == [] then []
    else
      var before, last := run[..|run| - 1], run[|run| - 1];
      Offered(before, c)
      + if last.Broadcast? && last.event.orgId == c.orgId && c.id in After(before).clients then [last.event] else []
  }

  /** How many of those found the client's queue full. */
  ghost function Overflows(run: seq<Message>, c: Client): nat {
    if run == [] then 0
    else
      var before, last := run[..|run| - 1], run[|run| - 1];
      Overflows(before, c)
      + if last.Broadcast? && last.event.orgId == c.orgId && c.id in After(before).clients
           && c.id in After(before).channels
           && |After(before).channels[c.id].sent| - After(before).channels[c.id].received >= 256
        then 1 else 0
  }

  /** a is b with some elements left out. */
  predicate Subsequence(a: seq<Event>, b: seq<Event>)
    decreases |b|
  {
    a == []
    || (b != []
        && ((a[|a| - 1] == b[|b| - 1] && Subsequence(a[..|a| - 1], b[..|b| - 1])) || Subsequence(a, b[..|b| - 1])))
  }

  lemma {:induction false} SubsequenceGrows(a: seq<Event>, b: seq<Event>, e: Event)
    requires Subsequence(a, b)
    ensures Subsequence(a, b + [e]) && Subsequence(a + [e], b + [e])
  {
    assert (b + [e])[..|b|] == b;
    assert (a + [e])[..|a|] == a;
  }

  lemma {:induction false} SubsequenceIsShorter(a: seq<Event>, b: seq<Event>)
    requires Subsequence(a, b)
    ensures |a| <= |b| && (|a| == |b| ==> a == b)
    decreases |b|
  {
    if a != [] {
      if a[|a| - 1] == b[|b| - 1] && Subsequence(a[..|a| - 1], b[..|b| - 1]) {
        SubsequenceIsShorter(a[..|a| - 1], b[..|b| - 1]);
        assert a == a[..|a| - 1] + [a[|a| - 1]] && b == b[..|b| - 1] + [b[|b| - 1]];
      } else {
        SubsequenceIsShorter(a, b[..|b| - 1]);
      }
    }
  }

  ghost predicate SameClient(run: seq<Message>, c: Client) {
    forall i :: 0 <= i < |run| && run[i].Register? && run[i].client.id == c.id ==> run[i].client == c
  }

  lemma {:induction false} RegisteredIsTheClient(run: seq<Message>, c: Client)
    requires Possible(run) && SameClient(run, c)
    ensures c.id in After(run).clients ==> After(run).clients[c.id] == c
  {
    if run != [] {
      var last := run[|run| - 1];
      RegisteredIsTheClient(run[..|run| - 1], c);
      assert last.Register? && last.client.id == c.id ==> last.client == c;
    }
  }

  lemma {:induction false} NothingBeforeRegistering(run: seq<Message>, c: Client)
    requires Possible(run) && c.id !in After(run).channels
    ensures Offered(run, c) == [] && Overflows(run, c) == 0
  {
    if run != [] {
      var before := run[..|run| - 1];
      EveryRunIsConsistent(before);
      NothingBeforeRegistering(before, c);
    }
  }

  /** What one message adds to a client's channel. */
  lemma {:induction false} SentByOne(h: HubState, m: Message, id: string)
    requires Consistent(h) && Enabled(h, m) && id in h.channels
    ensures var ch := h.channels[id];
            && id in Step(h, m).channels
            && Step(h, m).channels[id].sent ==
               (if m.Broadcast? && id in h.clients && h.clients[id].orgId == m.event.orgId && |ch.sent| - ch.received < 256
                then ch.sent + [m.event] else ch.sent)
            && (ch.closed ==> Step(h, m).channels[id].closed)
  {
    if m.Broadcast? {
      MembersAre(h, m.event.orgId, id);
    }
  }

  lemma {:induction false} NewChannelIsEmpty(h: HubState, m: Message, id: string)
    requires id !in h.channels && id in Step(h, m).channels
    ensures m.Register? && Step(h, m).channels[id].sent == []
  {
  }

  /** In every run, what was queued for a client is an in-order subsequence of its own
      organization's events while it was registered; exactly the ones that found its queue full
      are missing. */
  lemma {:induction false} QueuedInOrder(run: seq<Message>, c: Client)
    requires Possible(run) && SameClient(run, c) && c.id in After(run).channels
    ensures var sent := After(run).channels[c.id].sent;
            && Subsequence(sent, Offered(run, c))
            && |sent| + Overflows(run, c) == |Offered(run, c)|
            && (Overflows(run, c) == 0 <==> sent == Offered(run, c))
  {
    hide Step, Consistent, Enabled, Full;
    var before, last := run[..|run| - 1], run[|run| - 1];
    var h := After(before);
    EveryRunIsConsistent(before);
    RegisteredIsTheClient(before, c);
    RegisteredIsOpen(h, c.id);
    if c.id in h.channels {
      QueuedInOrder(before, c);
      SentByOne(h, last, c.id);
      var sent, offered := h.channels[c.id].sent, Offered(before, c);
      if last.Broadcast? && last.event.orgId == c.orgId && c.id in h.clients {
        SubsequenceGrows(sent, offered, last.event);
      } else {
        assert offered + [] == offered;
      }
    } else {
      NothingBeforeRegistering(before, c);
      NewChannelIsEmpty(h, last, c.id);
    }
    SubsequenceIsShorter(After(run).channels[c.id].sent, Offered(run, c));
  }

  /** Once closed, a channel stays closed and is never sent to again, however often the client is
      unregistered and whatever is broadcast. */
  lemma {:induction false} ClosedStaysSilent(run: seq<Message>, n: nat, id: string)
    requires Possible(run) && n <= |run| && id in After(run[..n]).channels && After(run[..n]).channels[id].closed
    ensures id in After(run).channels && After(run).channels[id].closed
            && After(run).channels[id].sent == After(run[..n]).channels[id].sent
    decreases |run|
  {
    hide Step, Enabled;
    if n < |run| {
      var before := run[..|run| - 1];
      assert before[..n] == run[..n];
      ClosedStaysSilent(before, n, id);
      EveryRunIsConsistent(before);
      SentByOne(After(before), run[|run| - 1], id);
    } else {
      assert run[..n] == run;
    }
  }

  /** The client registered, and no unregister message of its came after that. */
  function Connected(run: seq<Message>, id: string): Option<Client> {
    if run == [] then None
    else
      var last := run[|run| - 1];
      if last.Register? && last.client.id == id then Some(last.client)
      else if last.Unregister? && last.client.id == id then None
      else Connected(run[..|run| - 1], id)
  }

  /** How many events the connection took from its queue. */
  function Taken(run: seq<Message>, id: string): nat {
    if run == [] then 0
    else Taken(run[..|run| - 1], id) + if run[|run| - 1] == Receive(id) then 1 else 0
  }

  /** In every run the hub's clients are exactly those connected, in the index of their own
      organization and in no other; a channel stands for everyone who ever registered, and its
      connection took what it received. */
  lemma {:induction false} ConnectedExactly(run: seq<Message>, id: string, org: string)
    requires Possible(run)
    ensures var h := After(run);
            && (id in h.clients <==> Connected(run, id).Some?)
            && (id in h.clients ==> h.clients[id] == Connected(run, id).value)
            && (org in h.orgClients && id in h.orgClients[org] <==>
                Connected(run, id).Some? && Connected(run, id).value.orgId == org)
            && (id in h.channels <==> exists i :: 0 <= i < |run| && run[i].Register? && run[i].client.id == id)
            && (id in h.channels ==> h.channels[id].received == Taken(run, id))
  {
    ClientsAreConnected(run, id);
    EveryRunIsConsistent(run);
    hide After, Possible, Connected, Taken;
    MembersAre(After(run), org, id);
  }

  lemma {:induction false} ClientsAreConnected(run: seq<Message>, id: string)
    requires Possible(run)
    ensures var h := After(run);
            && (id in h.clients <==> Connected(run, id).Some?)
            && (id in h.clients ==> h.clients[id] == Connected(run, id).value)
            && (id in h.channels <==> exists i :: 0 <= i < |run| && run[i].Register? && run[i].client.id == id)
            && (if id in h.channels then h.channels[id].received == Taken(run, id) else Taken(run, id) == 0)
  {
    if run != [] {
      var before, last := run[..|run| - 1], run[|run| - 1];
      ClientsAreConnected(before, id);
      EveryRunIsConsistent(before);
      assert forall i :: 0 <= i < |before| ==> before[i] == run[i];
      assert last.Register? && last.client.id == id ==> run[|run| - 1].client.id == id;
    }
  }
}
