/**
  The brokers as objects: a map of registered clients whose buffered channels are written in a loop, in
  any order. Sending on a closed channel and closing one twice are excluded by preconditions, so a verified
  broker never does either. Every broker step is proved equal to the step of the same name in Fanout.
 */
module Brokers {
  import opened Prelude
  import opened Fanout

  class Client<M> {
    const capacity: nat
    var queue: seq<M>
    var closed: bool
    ghost var taken: seq<M>
    ghost var closings: nat

    constructor (capacity: nat)
      ensures this.capacity == capacity && queue == [] && !closed && taken == [] && closings == 0
    {
      this.capacity, queue, closed, taken, closings := capacity, [], false, [], 0;
    }

    ghost function View(): Channel<M>
      reads this
    {
      Channel(queue, taken, closings)
    }

    /** The select with a default branch: never blocks. */
    method TrySend(m: M) returns (sent: bool)
      requires !closed
      modifies this`queue
      ensures sent <==> |old(queue)| < capacity
      ensures queue == if sent then old(queue) + [m] else old(queue)
    {
      sent := |queue| < capacity;
      if sent {
        queue := queue + [m];
      }
    }

    method Close()
      requires !closed
      modifies this`closed, this`closings
      ensures closed && closings == old(closings) + 1
    {
      closed := true;
      closings := closings + 1;
    }

    /** Offer a message; a WebSocket client with no room is closed. */
    method Offer(kind: Kind, m: M) returns (dropped: bool)
      requires !closed && capacity == Capacity(kind)
      modifies this
      ensures View() == Offered(kind, old(View()), m)
      ensures dropped <==> Drops(kind, old(View()))
      ensures closed <==> dropped
    {
      var sent := TrySend(m);
      dropped := !sent && kind == WebSocket;
      if dropped {
        Close();
      }
    }

    /** A receive that need not wait; what was buffered is still there after a close. */
    method Receive() returns (m: M)
      requires queue != []
      modifies this`queue, this`taken
      ensures m == old(queue)[0] && queue == old(queue)[1..] && taken == old(taken) + [m]
    {
      m := queue[0];
      queue := queue[1..];
      taken := taken + [m];
    }

    /**
      The write pump's batch: one message, then as many more as were waiting when it counted them. The hub
      may append before the count, and before any read after it. No read waits; the batch is what was waiting
      at the count, in order, and what came later stays queued.
     */
    method WriteBatch(beforeCount: seq<M>, later: nat -> seq<M>) returns (batch: seq<M>)
      requires queue != []
      modifies this`queue, this`taken
      ensures batch == old(queue) + beforeCount
      ensures queue == Appended(later, |batch| - 1)
      ensures taken == old(taken) + batch
    {
      var message := Receive();
      batch := [message];
      queue := queue + beforeCount;
      var n := |queue|;
      ghost var counted, first := queue, message;
      for i := 0 to n
        invariant queue == counted[i..] + Appended(later, i)
        invariant batch == [first] + counted[..i]
        invariant taken == old(taken) + batch
      {
        queue := queue + later(i);
        assert queue == counted[i..] + Appended(later, i + 1);
        message := Receive();
        batch := batch + [message];
      }
      assert old(queue) == [old(queue)[0]] + old(queue)[1..];
    }
  }

  function Appended<M>(later: nat -> seq<M>, n: nat): seq<M> {
    if n == 0 then [] else Appended(later, n - 1) + later(n - 1)
  }

  class Broker<M> {
    const kind: Kind
    var running: bool
    var clients: set<Client<M>>
    ghost var everyone: set<Client<M>>
    ghost var processed: seq<M>
    ghost var joined: map<Client<M>, nat>
    ghost var left: map<Client<M>, nat>
    ghost var kept: map<Client<M>, seq<nat>>

    constructor (kind: Kind)
      ensures this.kind == kind && Valid() && Now() == State(true, {}, map[], [], map[], map[], map[])
      ensures everyone == {}
    {
      this.kind, running, clients := kind, true, {};
      everyone, processed, joined, left, kept := {}, [], map[], map[], map[];
      new;
      assert Now().channels == map[];
    }

    ghost function Now(): State<Client<M>, M>
      reads this, everyone
    {
      State(running, clients, map c | c in everyone :: c.View(), processed, joined, left, kept)
    }

    /** Registered clients have open channels of the broker's capacity. */
    ghost predicate Valid()
      reads this, everyone
    {
      clients <= everyone && forall c | c in everyone :: c.capacity == Capacity(kind) && (c in clients ==> !c.closed)
    }

    method Register(c: Client<M>)
      requires Valid() && running && c !in everyone
      requires c.capacity == Capacity(kind) && c.View() == Channel([], [], 0) && !c.closed
      modifies this
      ensures Valid() && everyone == old(everyone) + {c}
      ensures Now() == Registered(old(Now()), c)
    {
      clients := clients + {c};
      everyone := everyone + {c};
      joined := joined[c := |processed|];
      kept := kept[c := []];
    }

    method Unregister(c: Client<M>)
      requires Valid() && running
      modifies this, clients
      ensures Valid() && everyone == old(everyone)
      ensures Now() == Unregistered(old(Now()), c)
    {
      if c in clients {
        clients := clients - {c};
        c.Close();
        left := left[c := |processed|];
      }
      assert Now().channels == Unregistered(old(Now()), c).channels;
    }

    method Broadcast(m: M)
      requires Valid() && running
      modifies this, clients
      ensures Valid() && everyone == old(everyone)
      ensures Now() == Broadcasted(kind, old(Now()), m)
    {
      ghost var before := Now();
      Deliver(m);
      Log(before, m);
      BroadcastIs(kind, before, Now(), m);
    }

    ghost method Log(before: State<Client<M>, M>, m: M)
      requires before.clients <= before.channels.Keys
      modifies this`kept, this`left, this`processed
      ensures kept == map c | c in old(kept) ::
                if c in before.clients && !Full(kind, before.channels[c]) then old(kept)[c] + [|old(processed)|] else old(kept)[c]
      ensures left == old(left) + map c | c in Dropped(kind, before) :: |old(processed)|
      ensures processed == old(processed) + [m]
    {
      kept := map c | c in kept :: if c in before.clients && !Full(kind, before.channels[c]) then kept[c] + [|processed|] else kept[c];
      left := left + map c | c in Dropped(kind, before) :: |processed|;
      processed := processed + [m];
    }

    /** The loop over the clients, in whatever order the map yields them. */
    method Deliver(m: M)
      requires forall c | c in clients :: !c.closed && c.capacity == Capacity(kind)
      modifies this`clients, clients
      ensures forall c | c in clients :: !c.closed
      ensures clients <= old(clients) && forall c | c in old(clients) :: c in clients <==> !Drops(kind, old(c.View()))
      ensures forall c | c in old(clients) :: c.View() == Offered(kind, old(c.View()), m)
    {
      var rest := clients;
      ghost var views := map c | c in clients :: c.View();
      while rest != {}
        modifies this`clients, old(clients)
        invariant rest <= clients <= old(clients)
        invariant forall c | c in clients :: !c.closed
        invariant forall c | c in views :: c in clients <==> c in rest || !Drops(kind, views[c])
        invariant forall c | c in views :: c.View() == if c in rest then views[c] else Offered(kind, views[c], m)
        decreases |rest|
      {
        var c :| c in rest;
        rest := rest - {c};
        var dropped := c.Offer(kind, m);
        if dropped {
          clients := clients - {c};
        }
      }
    }

    /** A cancelled context ends the loop; the SSE broker closes and forgets every client on its way out. */
    method Stop()
      requires Valid() && running
      modifies this, clients
      ensures Valid() && everyone == old(everyone)
      ensures Now() == Stopped(kind, old(Now()))
    {
      if kind == Sse {
        StopSse();
      } else {
        running := false;
      }
    }

    method StopSse()
      requires Valid() && running && kind == Sse
      modifies this, clients
      ensures Valid() && everyone == old(everyone)
      ensures Now() == Stopped(Sse, old(Now()))
    {
      ghost var before := Now();
      running := false;
      CloseAll();
      left := left + map c | c in before.clients :: |processed|;
      StopIs(before, Now());
    }

    method CloseAll()
      requires forall c | c in clients :: !c.closed
      modifies this`clients, clients
      ensures clients == {}
      ensures forall c | c in old(clients) :: c.View() == Closed(old(c.View()))
    {
      ghost var views := map c | c in clients :: c.View();
      while clients != {}
        modifies this`clients, old(clients)
        invariant clients <= old(clients)
        invariant forall c | c in clients :: !c.closed
        invariant forall c | c in views :: c.View() == if c in clients then views[c] else Closed(views[c])
        decreases |clients|
      {
        var c :| c in clients;
        c.Close();
        clients := clients - {c};
      }
    }
  }

  lemma BroadcastIs<C, M>(kind: Kind, s: State<C, M>, s': State<C, M>, m: M)
    requires s.clients <= s.channels.Keys && s'.channels.Keys == s.channels.Keys
    requires s'.clients <= s.clients && forall c | c in s.clients :: c in s'.clients <==> !Drops(kind, s.channels[c])
    requires forall c | c in s.channels :: s'.channels[c] == if c in s.clients then Offered(kind, s.channels[c], m) else s.channels[c]
    requires s'.kept == map c | c in s.kept ::
               if c in s.clients && !Full(kind, s.channels[c]) then s.kept[c] + [|s.processed|] else s.kept[c]
    requires s'.left == s.left + map c | c in Dropped(kind, s) :: |s.processed|
    requires s'.processed == s.processed + [m] && s'.joined == s.joined && s'.running == s.running
    ensures s' == Broadcasted(kind, s, m)
  {
    assert s'.clients == s.clients - Dropped(kind, s);
    assert s'.channels == Broadcasted(kind, s, m).channels;
  }

  lemma StopIs<C, M>(s: State<C, M>, s': State<C, M>)
    requires s.clients <= s.channels.Keys && s'.channels.Keys == s.channels.Keys && s'.clients == {} && !s'.running
    requires forall c | c in s.channels :: s'.channels[c] == if c in s.clients then Closed(s.channels[c]) else s.channels[c]
    requires s'.left == s.left + map c | c in s.clients :: |s.processed|
    requires s'.kept == s.kept && s'.processed == s.processed && s'.joined == s.joined
    ensures s' == Stopped(Sse, s)
  {
    assert s'.channels == Stopped(Sse, s).channels;
  }
}
