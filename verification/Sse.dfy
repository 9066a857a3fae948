/** The SSE broadcaster (internal/events/sse.go:67-103): a fan-out to bounded buffers under a
    read/write lock.  A broadcast holds the read lock from its first send to its last; registering and
    unregistering take the write lock; closing a channel and receiving take none. */
module Sse {
  import opened Subsequences

  type Message = string
  type ClientId = nat

  const CAPACITY := 64

  /** A message offered to a client that had `queued` messages waiting. */
  datatype Offer = Offer(msg: Message, queued: nat)

  /** A client's channel.  `heard` lists the broadcasts begun while it was registered and `offers` the
      sends made to it; both are kept for stating properties. */
  datatype Client = Client(
    queue: seq<Message>,
    received: seq<Message>,
    closed: bool,
    heard: seq<Message>,
    offers: seq<Offer>)

  /** A broadcast under way: the clients it has still to serve. */
  datatype Cast = Cast(msg: Message, todo: set<ClientId>)

  datatype Bus = Bus(clients: seq<Client>, registered: set<ClientId>, casts: seq<Cast>, panicked: bool)

  datatype Action =
    | Subscribe
    | Unregister(c: ClientId)
    | Close(c: ClientId)
    | BeginCast(msg: Message)
    | Send(k: nat, c: ClientId)
    | EndCast(k: nat)
    | Receive(c: ClientId)

  function Hear(b: Bus, msg: Message): seq<Client> {
    seq(|b.clients|, i requires 0 <= i < |b.clients| =>
      if i in b.registered then b.clients[i].(heard := b.clients[i].heard + [msg]) else b.clients[i])
  }

  /** The select of a broadcast: enqueue, or drop when the buffer is full. */
  function Offered(client: Client, msg: Message): Client {
    client.(
      queue := if |client.queue| < CAPACITY then client.queue + [msg] else client.queue,
      offers := client.offers + [Offer(msg, |client.queue|)])
  }

  /** One step; a step whose lock is not free, or that its goroutine cannot take, does nothing. */
  function Apply(b: Bus, a: Action): Bus {
    match a
    case Subscribe =>
      if b.casts == []
      then b.(clients := b.clients + [Client([], [], false, [], [])], registered := b.registered + {|b.clients|})
      else b
    case Unregister(c) =>
      if b.casts == [] && c in b.registered then b.(registered := b.registered - {c}) else b
    case Close(c) =>
      if c < |b.clients| && c !in b.registered && !b.clients[c].closed
      then b.(clients := b.clients[c := b.clients[c].(closed := true)]) else b
    case BeginCast(msg) => b.(clients := Hear(b, msg), casts := b.casts + [Cast(msg, b.registered)])
    case Send(k, c) =>
      if k < |b.casts| && c in b.casts[k].todo && c < |b.clients| then
        var cast := b.casts[k];
        b.(
          clients := b.clients[c := Offered(b.clients[c], cast.msg)],
          casts := b.casts[k := cast.(todo := cast.todo - {c})],
          panicked := b.panicked || b.clients[c].closed)
      else b
    case EndCast(k) =>
      if k < |b.casts| && b.casts[k].todo == {} then b.(casts := b.casts[..k] + b.casts[k + 1..]) else b
    case Receive(c) =>
      if c < |b.clients| && b.clients[c].queue != [] then
        var client := b.clients[c];
        var taken := client.(queue := client.queue[1..], received := client.received + [client.queue[0]]);
        b.(clients := b.clients[c := taken])
      else b
  }

  function Run(b: Bus, actions: seq<Action>): Bus {
    if actions == [] then b else Apply(Run(b, actions[..|actions| - 1]), actions[|actions| - 1])
  }

  lemma {:induction false} RunOn(b: Bus, actions: seq<Action>, a: Action)
    ensures Run(b, actions + [a]) == Apply(Run(b, actions), a)
  {
    assert (actions + [a])[..|actions|] == actions;
  }

  const START := Bus([], {}, [], false)

  /** The messages offered. */
  function Messages(offers: seq<Offer>): seq<Message> {
    if offers == [] then [] else Messages(offers[..|offers| - 1]) + [offers[|offers| - 1].msg]
  }

  /** The messages offered while there was room. */
  function Accepted(offers: seq<Offer>): seq<Message> {
    if offers == [] then []
    else
      var last := offers[|offers| - 1];
      Accepted(offers[..|offers| - 1]) + if last.queued < CAPACITY then [last.msg] else []
  }

  predicate ClientOk(client: Client) {
    client.received + client.queue == Accepted(client.offers) && |client.queue| <= CAPACITY
  }

  ghost predicate BusOk(b: Bus) {
    && !b.panicked
    && (forall c :: c in b.registered ==> c < |b.clients| && !b.clients[c].closed)
    && (forall k, c :: 0 <= k < |b.casts| && c in b.casts[k].todo ==> c in b.registered)
    && (forall c :: 0 <= c < |b.clients| ==> ClientOk(b.clients[c]))
  }

  lemma {:induction false} OfferKeepsClient(client: Client, msg: Message)
    requires ClientOk(client)
    ensures ClientOk(Offered(client, msg))
  {
    assert Offered(client, msg).offers[..|client.offers|] == client.offers;
  }

  lemma {:induction false} ReceiveKeepsClient(client: Client)
    requires ClientOk(client) && client.queue != []
    ensures ClientOk(client.(queue := client.queue[1..], received := client.received + [client.queue[0]]))
  {
    var q := client.queue;
    assert (client.received + [q[0]]) + q[1..] == client.received + ([q[0]] + q[1..]);
    assert [q[0]] + q[1..] == q;
  }

  lemma {:induction false} ApplyKeepsBus(b: Bus, a: Action)
    requires BusOk(b)
    ensures BusOk(Apply(b, a))
  {
    match a
    case Send(k, c) =>
      if k < |b.casts| && c in b.casts[k].todo && c < |b.clients| {
        OfferKeepsClient(b.clients[c], b.casts[k].msg);
      }
    case Receive(c) =>
      if c < |b.clients| && b.clients[c].queue != [] {
        ReceiveKeepsClient(b.clients[c]);
      }
    case BeginCast(msg) =>
      assert forall i :: 0 <= i < |b.clients| ==> ClientOk(b.clients[i]);
    case Subscribe =>
    case Unregister(_) =>
    case Close(_) =>
    case EndCast(_) =>
  }

  /** In every interleaving, of any number of broadcasts: nothing is sent on a closed channel, buffers
      never exceed 64, and what a client has received or has waiting is, in order, exactly what was
      offered to it while fewer than 64 were waiting. */
  lemma {:induction false} NeverSendsOnClosed(actions: seq<Action>)
    ensures BusOk(Run(START, actions))
  {
    if actions != [] {
      NeverSendsOnClosed(actions[..|actions| - 1]);
      ApplyKeepsBus(Run(START, actions[..|actions| - 1]), actions[|actions| - 1]);
    }
  }

  // ---- one broadcast at a time, as the listener makes them ----

  ghost predicate OneCastAtATime(b: Bus, actions: seq<Action>)
    decreases |actions|
  {
    actions == [] ||
    ( && OneCastAtATime(b, actions[..|actions| - 1])
      && (actions[|actions| - 1].BeginCast? ==> Run(b, actions[..|actions| - 1]).casts == []))
  }

  /** The message a client has still to be offered. */
  function Pending(b: Bus, c: ClientId): seq<Message> {
    if b.casts != [] && c in b.casts[0].todo then [b.casts[0].msg] else []
  }

  /** Every client was offered exactly what it heard, but for the broadcast under way. */
  ghost predicate AllOffered(b: Bus) {
    && |b.casts| <= 1
    && forall c :: 0 <= c < |b.clients| ==> b.clients[c].heard == Messages(b.clients[c].offers) + Pending(b, c)
  }

  lemma {:induction false} SendKeepsOffered(b: Bus, k: nat, c: ClientId)
    requires BusOk(b) && AllOffered(b) && k < |b.casts| && c in b.casts[k].todo
    ensures AllOffered(Apply(b, Send(k, c)))
  {
    var b' := Apply(b, Send(k, c));
    assert b'.clients[c].offers[..|b.clients[c].offers|] == b.clients[c].offers;
    forall d | 0 <= d < |b'.clients|
      ensures b'.clients[d].heard == Messages(b'.clients[d].offers) + Pending(b', d)
    {
      assert b.clients[d].heard == Messages(b.clients[d].offers) + Pending(b, d);
    }
  }

  lemma {:induction false} BeginKeepsOffered(b: Bus, msg: Message)
    requires BusOk(b) && AllOffered(b) && b.casts == []
    ensures AllOffered(Apply(b, BeginCast(msg)))
  {
    var b' := Apply(b, BeginCast(msg));
    forall d | 0 <= d < |b'.clients|
      ensures b'.clients[d].heard == Messages(b'.clients[d].offers) + Pending(b', d)
    {
      assert b.clients[d].heard == Messages(b.clients[d].offers) + Pending(b, d);
    }
  }

  lemma {:induction false} OthersKeepOffered(b: Bus, a: Action)
    requires BusOk(b) && AllOffered(b) && !a.Send? && !a.BeginCast?
    ensures AllOffered(Apply(b, a))
  {
    var b' := Apply(b, a);
    forall d | 0 <= d < |b'.clients|
      ensures b'.clients[d].heard == Messages(b'.clients[d].offers) + Pending(b', d)
    {
      if d < |b.clients| {
        assert b.clients[d].heard == Messages(b.clients[d].offers) + Pending(b, d);
      }
    }
  }

  lemma {:induction false} ApplyKeepsOffered(b: Bus, a: Action)
    requires BusOk(b) && AllOffered(b) && (a.BeginCast? ==> b.casts == [])
    ensures AllOffered(Apply(b, a))
  {
    if a.BeginCast? {
      BeginKeepsOffered(b, a.msg);
    } else if !a.Send? {
      OthersKeepOffered(b, a);
    } else if a.k < |b.casts| && a.c in b.casts[a.k].todo {
      SendKeepsOffered(b, a.k, a.c);
    }
  }

  lemma {:induction false} RunKeepsOffered(actions: seq<Action>)
    requires OneCastAtATime(START, actions)
    ensures AllOffered(Run(START, actions))
  {
    if actions != [] {
      var init := actions[..|actions| - 1];
      RunKeepsOffered(init);
      NeverSendsOnClosed(init);
      ApplyKeepsOffered(Run(START, init), actions[|actions| - 1]);
    }
  }

  lemma {:induction false} AcceptedInOrder(offers: seq<Offer>)
    ensures IsSubsequence(Accepted(offers), Messages(offers))
  {
    if offers != [] {
      var init, last := offers[..|offers| - 1], offers[|offers| - 1];
      AcceptedInOrder(init);
      assert Messages(offers)[..|Messages(init)|] == Messages(init);
      if last.queued < CAPACITY {
        assert Accepted(offers)[..|Accepted(init)|] == Accepted(init);
      } else {
        assert Accepted(offers) == Accepted(init);
      }
    }
  }

  /** Under any interleaving of subscribing, unsubscribing, closing and receiving with one broadcast at
      a time, a client's messages are an in-order subsequence of those broadcast while it was
      registered. */
  lemma {:induction false} DeliveredInOrder(actions: seq<Action>, c: ClientId)
    requires OneCastAtATime(START, actions) && c < |Run(START, actions).clients|
    ensures var client := Run(START, actions).clients[c];
      IsSubsequence(client.received + client.queue, client.heard)
  {
    RunKeepsOffered(actions);
    NeverSendsOnClosed(actions);
    var b := Run(START, actions);
    assert ClientOk(b.clients[c]);
    AcceptedInOrder(b.clients[c].offers);
    LongerStill(Accepted(b.clients[c].offers), Messages(b.clients[c].offers), Pending(b, c));
  }

  /** A second broadcast overtakes the one under way at a client that one has still to serve. */
  function Overtake(msg: Message, c: ClientId): seq<Action> {
    [BeginCast(msg), Send(1, c), Send(0, c)]
  }

  lemma {:induction false} OvertakingRun(b: Bus, msg: Message, c: ClientId)
    ensures Run(b, Overtake(msg, c)) == Apply(Apply(Apply(b, BeginCast(msg)), Send(1, c)), Send(0, c))
  {
    assert Overtake(msg, c) == [BeginCast(msg)] + [Send(1, c)] + [Send(0, c)];
    RunOn(b, [], BeginCast(msg));
    assert [] + [BeginCast(msg)] == [BeginCast(msg)];
    RunOn(b, [BeginCast(msg)], Send(1, c));
    RunOn(b, [BeginCast(msg)] + [Send(1, c)], Send(0, c));
  }

  /** In every state with one broadcast under way: a second one can reach any client that the first has
      still to serve, and that has room for both, in the other order.  If the client has missed nothing
      before, what it then has is in order exactly when the two messages are the same. */
  lemma {:induction false} OverlappingCastsReorder(b: Bus, msg: Message, c: ClientId)
    requires BusOk(b) && AllOffered(b) && b.casts != [] && c in b.casts[0].todo
    requires c < |b.clients| && |b.clients[c].queue| + 2 <= CAPACITY
    ensures c < |Run(b, Overtake(msg, c)).clients|
    ensures var before, first, client := b.clients[c], b.casts[0].msg, Run(b, Overtake(msg, c)).clients[c];
      && client.heard == Messages(before.offers) + [first, msg]
      && client.received + client.queue == Accepted(before.offers) + [msg, first]
      && (Accepted(before.offers) == Messages(before.offers) ==>
            (IsSubsequence(client.received + client.queue, client.heard) <==> msg == first))
  {
    OvertakingRun(b, msg, c);
    var before, first := b.clients[c], b.casts[0].msg;
    assert c in b.registered;
    assert ClientOk(before) && before.heard == Messages(before.offers) + [first];
    var b1 := Apply(b, BeginCast(msg));
    assert b1.clients[c] == before.(heard := before.heard + [msg]) && b1.casts == b.casts + [Cast(msg, b.registered)];
    var b2 := Apply(b1, Send(1, c));
    assert b2.clients[c].queue == before.queue + [msg] && b2.casts[0] == b.casts[0];
    var b3 := Apply(b2, Send(0, c));
    var x, got, heard := Messages(before.offers), b3.clients[c].received + b3.clients[c].queue, b3.clients[c].heard;
    assert b3.clients[c].queue == before.queue + [msg] + [first] && b3.clients[c].received == before.received;
    assert got == (before.received + before.queue) + [msg, first];
    assert heard == x + [first] + [msg] == x + [first, msg];
    if Accepted(before.offers) == x {
      Reordered(x, msg, first);
    }
  }

  lemma {:induction false} Reordered(x: seq<Message>, msg: Message, first: Message)
    ensures IsSubsequence(x + [msg, first], x + [first, msg]) <==> msg == first
  {
    var got, heard := x + [msg, first], x + [first, msg];
    assert got[|x|] == msg && heard[|x|] == first;
    if IsSubsequence(got, heard) {
      WholeSubsequence(got, heard);
    }
    if msg == first {
      IsItsOwn(got);
    }
  }

  /** Such a state is reached: one client, one broadcast begun. */
  lemma {:induction false} OneClientWaiting()
    ensures var b := Run(START, [Subscribe, BeginCast("a")]);
      BusOk(b) && AllOffered(b) && b.casts != [] && 0 in b.casts[0].todo && b.clients[0].queue == []
  {
    var actions := [Subscribe, BeginCast("a")];
    assert actions[..1] == [Subscribe] && [Subscribe][..0] == [];
    assert Run(START, [Subscribe]) == Apply(START, Subscribe);
    assert Run(START, actions) == Apply(Run(START, [Subscribe]), BeginCast("a"));
    assert OneCastAtATime(START, [Subscribe]) && Run(START, [Subscribe]).casts == [];
    NeverSendsOnClosed(actions);
    RunKeepsOffered(actions);
  }

  // ---- the broadcaster as an object, between broadcasts ----

  /** The clients in `served` have the message last, if they had room; the other queues are as before. */
  ghost predicate Queued(before: seq<Client>, after: seq<Client>, served: set<ClientId>, data: Message) {
    && |after| == |before|
    && forall c: ClientId :: c < |after| ==>
         after[c].queue ==
           if c in served && |before[c].queue| < 64 then before[c].queue + [data] else before[c].queue
  }

  /** One broadcast of data, begun in b, has served all but todo. */
  ghost predicate Casting(b: Bus, steps: seq<Action>, clients: seq<Client>, data: Message, todo: set<ClientId>) {
    && todo <= b.registered
    && Run(b, steps) == Bus(clients, b.registered, [Cast(data, todo)], false)
    && BusOk(Run(b, steps))
    && Queued(b.clients, clients, b.registered - todo, data)
    && |steps| > 0 && steps[0] == BeginCast(data) && forall i :: 0 < i < |steps| ==> !steps[i].BeginCast?
  }

  lemma {:induction false} CastBegins(b: Bus, data: Message)
    requires BusOk(b) && b.casts == []
    ensures Casting(b, [BeginCast(data)], Hear(b, data), data, b.registered)
  {
    RunOn(b, [], BeginCast(data));
    assert [] + [BeginCast(data)] == [BeginCast(data)];
    ApplyKeepsBus(b, BeginCast(data));
  }

  lemma {:induction false} CastServes(
    b: Bus, steps: seq<Action>, clients: seq<Client>, data: Message, todo: set<ClientId>, c: ClientId)
    requires Casting(b, steps, clients, data, todo) && c in todo
    ensures c < |clients|
  {
    var mid := Run(b, steps);
    assert c in mid.casts[0].todo;
    assert c in mid.registered;
  }

  lemma {:induction false} SendServes(
    clients: seq<Client>, registered: set<ClientId>, data: Message, todo: set<ClientId>, c: ClientId)
    requires c in todo && c < |clients| && !clients[c].closed
    ensures Apply(Bus(clients, registered, [Cast(data, todo)], false), Send(0, c))
      == Bus(clients[c := Offered(clients[c], data)], registered, [Cast(data, todo - {c})], false)
  {
  }

  lemma {:induction false} QueuedOne(
    before: seq<Client>, after: seq<Client>, served: set<ClientId>, data: Message, c: ClientId)
    requires Queued(before, after, served, data) && c < |after| && c !in served
    ensures Queued(before, after[c := Offered(after[c], data)], served + {c}, data)
  {
  }

  lemma {:induction false} CastSends(
    b: Bus, steps: seq<Action>, clients: seq<Client>, data: Message, todo: set<ClientId>, c: ClientId)
    requires Casting(b, steps, clients, data, todo) && c in todo && c < |clients|
    ensures Casting(b, steps + [Send(0, c)], clients[c := Offered(clients[c], data)], data, todo - {c})
  {
    var mid := Run(b, steps);
    RunOn(b, steps, Send(0, c));
    ApplyKeepsBus(mid, Send(0, c));
    assert c in mid.registered;
    SendServes(clients, b.registered, data, todo, c);
    QueuedOne(b.clients, clients, b.registered - todo, data, c);
    assert b.registered - todo + {c} == b.registered - (todo - {c});
  }

  lemma {:induction false} CastEnds(b: Bus, steps: seq<Action>, clients: seq<Client>, data: Message)
    requires Casting(b, steps, clients, data, {})
    ensures var b' := Bus(clients, b.registered, [], false);
      Run(b, steps + [EndCast(0)]) == b' && BusOk(b') && Queued(b.clients, clients, b.registered, data)
  {
    RunOn(b, steps, EndCast(0));
    ApplyKeepsBus(Run(b, steps), EndCast(0));
    assert b.registered - {} == b.registered;
  }

  class Broadcaster {
    var channels: seq<Client>
    var clients: set<ClientId>

    function Snapshot(): Bus
      reads this
    {
      Bus(channels, clients, [], false)
    }

    constructor ()
      ensures Snapshot() == START
    {
      channels, clients := [], {};
    }

    method Subscribe() returns (c: ClientId)
      modifies this
      ensures c == |old(channels)| && Snapshot() == Apply(old(Snapshot()), Action.Subscribe)
    {
      c := |channels|;
      channels, clients := channels + [Client([], [], false, [], [])], clients + {c};
    }

    /** Unregister under the lock, then close. */
    method Unsubscribe(c: ClientId)
      requires BusOk(Snapshot()) && c in clients
      modifies this
      ensures Snapshot() == Apply(Apply(old(Snapshot()), Unregister(c)), Close(c))
    {
      clients := clients - {c};
      channels := channels[c := channels[c].(closed := true)];
    }

    /** The fan-out, in whatever order the map is visited: every registered client with room gets the
        message last, one with 64 waiting gets nothing, and the whole is a run of the step system. */
    method Broadcast(data: Message) returns (ghost steps: seq<Action>)
      requires BusOk(Snapshot())
      modifies this
      ensures clients == old(clients) && Queued(old(channels), channels, clients, data)
      ensures Run(old(Snapshot()), steps) == Snapshot() && BusOk(Snapshot())
      ensures |steps| > 0 && steps[0] == BeginCast(data) && forall i :: 0 < i < |steps| ==> !steps[i].BeginCast?
    {
      ghost var bus := Snapshot();
      steps := [BeginCast(data)];
      CastBegins(bus, data);
      channels := Hear(Bus(channels, clients, [], false), data);
      var todo := clients;
      while todo != {}
        invariant clients == bus.registered && Casting(bus, steps, channels, data, todo)
        decreases |todo|
      {
        var c :| c in todo;
        CastServes(bus, steps, channels, data, todo, c);
        CastSends(bus, steps, channels, data, todo, c);
        steps := steps + [Send(0, c)];
        channels := channels[c := Offered(channels[c], data)];
        todo := todo - {c};
      }
      CastEnds(bus, steps, channels, data);
      steps := steps + [EndCast(0)];
    }

    /** A client takes its oldest message. */
    method Receive(c: ClientId) returns (msg: Message)
      requires c < |channels| && channels[c].queue != []
      modifies this
      ensures Snapshot() == Apply(old(Snapshot()), Action.Receive(c)) && msg == old(channels)[c].queue[0]
    {
      var client := channels[c];
      msg := client.queue[0];
      channels := channels[c := client.(queue := client.queue[1..], received := client.received + [msg])];
    }
  }
}
