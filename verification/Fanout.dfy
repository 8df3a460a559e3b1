/**
  Fan-out of events to connected clients: the WebSocket hub drops a client whose buffer is full, the SSE
  broker and the GraphQL subscription broker drop the message. Clients, their channels and a log of what
  was processed are values here; a client reads its channel whenever it likes.
 */
module Fanout {
  import opened Prelude

  datatype Kind = WebSocket | Sse | GraphQl

  function Capacity(kind: Kind): nat {
    match kind
    case WebSocket => 256
    case Sse => 100
    case GraphQl => 32
  }

  /** A buffered channel: what waits in it, what was taken from it, and how often it was closed. */
  datatype Channel<M> = Channel(queue: seq<M>, taken: seq<M>, closings: nat) {
    function Put(): seq<M> {
      taken + queue
    }
  }

  /**
    The registered clients and the channels of all that ever were; then the log, for the statements only:
    the messages processed, where in it each client joined and left, and the positions put in its channel.
   */
  datatype State<!C(==), M> = State(
    running: bool, clients: set<C>, channels: map<C, Channel<M>>,
    processed: seq<M>, joined: map<C, nat>, left: map<C, nat>, kept: map<C, seq<nat>>)

  datatype Action<C, M> = Register(client: C) | Unregister(client: C) | Broadcast(message: M) | Take(client: C) | Shutdown

  predicate Full<M>(kind: Kind, ch: Channel<M>) {
    |ch.queue| >= Capacity(kind)
  }

  function Closed<M>(ch: Channel<M>): Channel<M> {
    ch.(closings := ch.closings + 1)
  }

  function Offered<M>(kind: Kind, ch: Channel<M>, m: M): Channel<M> {
    if !Full(kind, ch) then ch.(queue := ch.queue + [m])
    else if kind == WebSocket then Closed(ch)
    else ch
  }

  predicate Drops<M>(kind: Kind, ch: Channel<M>) {
    kind == WebSocket && Full(kind, ch)
  }

  function Registered<C, M>(s: State<C, M>, c: C): State<C, M> {
    s.(clients := s.clients + {c}, channels := s.channels[c := Channel([], [], 0)],
       joined := s.joined[c := |s.processed|], kept := s.kept[c := []])
  }

  function Unregistered<C, M>(s: State<C, M>, c: C): State<C, M>
    requires c in s.clients ==> c in s.channels
  {
    if c in s.clients
    then s.(clients := s.clients - {c}, channels := s.channels[c := Closed(s.channels[c])], left := s.left[c := |s.processed|])
    else s
  }

  /** The clients a broadcast throws out. */
  function Dropped<C, M>(kind: Kind, s: State<C, M>): set<C>
    requires s.clients <= s.channels.Keys
  {
    set c | c in s.clients && Drops(kind, s.channels[c])
  }

  function Broadcasted<C, M>(kind: Kind, s: State<C, M>, m: M): State<C, M>
    requires s.clients <= s.channels.Keys
  {
    var n := |s.processed|;
    s.(clients := s.clients - Dropped(kind, s),
       channels := map c | c in s.channels :: if c in s.clients then Offered(kind, s.channels[c], m) else s.channels[c],
       processed := s.processed + [m],
       left := s.left + map c | c in Dropped(kind, s) :: n,
       kept := map c | c in s.kept ::
         if c in s.clients && !Full(kind, s.channels[c]) then s.kept[c] + [n] else s.kept[c])
  }

  function Taken<C, M>(s: State<C, M>, c: C): State<C, M>
    requires c in s.channels && s.channels[c].queue != []
  {
    var ch := s.channels[c];
    s.(channels := s.channels[c := ch.(queue := ch.queue[1..], taken := ch.taken + [ch.queue[0]])])
  }

  /** Only the SSE broker closes what is left when it stops. */
  function Stopped<C, M>(kind: Kind, s: State<C, M>): State<C, M>
    requires s.clients <= s.channels.Keys
  {
    if kind != Sse then s.(running := false)
    else s.(running := false, clients := {},
            channels := map c | c in s.channels :: if c in s.clients then Closed(s.channels[c]) else s.channels[c],
            left := s.left + map c | c in s.clients :: |s.processed|)
  }

  /** A client registers once; anyone may be unregistered, at any time and again; channels outlive the broker. */
  predicate Enabled<C, M>(s: State<C, M>, a: Action<C, M>) {
    match a
    case Register(c) => s.running && c !in s.channels
    case Unregister(_) => s.running
    case Broadcast(_) => s.running
    case Take(c) => c in s.channels && s.channels[c].queue != []
    case Shutdown => s.running
  }

  function Next<C, M>(kind: Kind, s: State<C, M>, a: Action<C, M>): State<C, M>
    requires Enabled(s, a) && s.clients <= s.channels.Keys
  {
    match a
    case Register(c) => Registered(s, c)
    case Unregister(c) => Unregistered(s, c)
    case Broadcast(m) => Broadcasted(kind, s, m)
    case Take(c) => Taken(s, c)
    case Shutdown => Stopped(kind, s)
  }

  ghost predicate IsRun<C, M>(kind: Kind, states: seq<State<C, M>>, actions: seq<Action<C, M>>) {
    && |states| == |actions| + 1
    && states[0] == State(true, {}, map[], [], map[], map[], map[])
    && forall i | 0 <= i < |actions| :: StepTaken(kind, states, actions, i)
  }

  ghost predicate StepTaken<C, M>(kind: Kind, states: seq<State<C, M>>, actions: seq<Action<C, M>>, i: nat)
    requires i < |actions| && |states| == |actions| + 1
  {
    && states[i].clients <= states[i].channels.Keys && Enabled(states[i], actions[i])
    && states[i + 1] == Next(kind, states[i], actions[i])
  }

  // ---- The invariant, client by client ----

  /** The part of the log a client was registered for. */
  function From<C, M>(s: State<C, M>, c: C): nat
    requires c in s.joined
  {
    s.joined[c]
  }

  function To<C, M>(s: State<C, M>, c: C): nat {
    if c in s.left then s.left[c] else |s.processed|
  }

  predicate Increasing(ks: seq<nat>, lo: nat, hi: nat) {
    && (forall i | 0 <= i < |ks| :: lo <= ks[i] < hi)
    && (forall i, j | 0 <= i < j < |ks| :: ks[i] < ks[j])
  }

  /** What was put in a channel is the kept positions of the log, in order. */
  ghost predicate PutIsKept<M>(put: seq<M>, processed: seq<M>, ks: seq<nat>) {
    |put| == |ks| && forall i | 0 <= i < |ks| :: ks[i] < |processed| && put[i] == processed[ks[i]]
  }

  ghost predicate ClientSound<C, M>(kind: Kind, s: State<C, M>, c: C)
    requires c in s.channels
  {
    && c in s.joined && c in s.kept
    && s.joined[c] <= To(s, c) <= |s.processed|
    && (c in s.clients <==> c !in s.left)
    && s.channels[c].closings == (if c in s.clients then 0 else 1)
    && |s.channels[c].queue| <= Capacity(kind)
    && Increasing(s.kept[c], s.joined[c], To(s, c))
    && PutIsKept(s.channels[c].Put(), s.processed, s.kept[c])
    && (kind == WebSocket ==> |s.kept[c]| == To(s, c) - s.joined[c])
  }

  ghost predicate Inv<C, M>(kind: Kind, s: State<C, M>) {
    && s.clients <= s.channels.Keys && s.joined.Keys == s.channels.Keys == s.kept.Keys && s.left.Keys <= s.channels.Keys
    && forall c | c in s.channels :: ClientSound(kind, s, c)
  }

  lemma RegisterKeeps<C, M>(kind: Kind, s: State<C, M>, c: C)
    requires Inv(kind, s) && c !in s.channels
    ensures Inv(kind, Registered(s, c))
  {
    var s' := Registered(s, c);
    forall d | d in s'.channels ensures ClientSound(kind, s', d) {
      assert d != c ==> ClientSound(kind, s, d);
    }
  }

  lemma UnregisterKeeps<C, M>(kind: Kind, s: State<C, M>, c: C)
    requires Inv(kind, s)
    ensures Inv(kind, Unregistered(s, c))
  {
    var s' := Unregistered(s, c);
    forall d | d in s'.channels ensures ClientSound(kind, s', d) {
      assert ClientSound(kind, s, d);
    }
  }

  lemma KeptGrows<M>(put: seq<M>, processed: seq<M>, ks: seq<nat>, lo: nat, m: M)
    requires Increasing(ks, lo, |processed|) && PutIsKept(put, processed, ks) && lo <= |processed|
    ensures Increasing(ks + [|processed|], lo, |processed| + 1)
    ensures PutIsKept(put + [m], processed + [m], ks + [|processed|])
  {
  }

  lemma GrownSound<C, M>(kind: Kind, s: State<C, M>, s': State<C, M>, m: M, c: C)
    requires c in s.channels && ClientSound(kind, s, c) && c in s.clients && !Full(kind, s.channels[c])
    requires c in s'.channels && c in s'.clients && c !in s'.left && c in s'.joined && c in s'.kept
    requires s'.channels[c] == s.channels[c].(queue := s.channels[c].queue + [m])
    requires s'.joined[c] == s.joined[c] && s'.kept[c] == s.kept[c] + [|s.processed|] && s'.processed == s.processed + [m]
    ensures ClientSound(kind, s', c)
  {
    KeptGrows(s.channels[c].Put(), s.processed, s.kept[c], s.joined[c], m);
    assert s'.channels[c].Put() == s.channels[c].Put() + [m];
  }

  lemma BroadcastWithRoom<C, M>(kind: Kind, s: State<C, M>, m: M, c: C)
    requires Inv(kind, s) && c in s.clients && !Full(kind, s.channels[c])
    ensures ClientSound(kind, Broadcasted(kind, s, m), c)
  {
    assert ClientSound(kind, s, c);
    GrownSound(kind, s, Broadcasted(kind, s, m), m, c);
  }

  lemma BroadcastWithoutRoom<C, M>(kind: Kind, s: State<C, M>, m: M, c: C)
    requires Inv(kind, s) && c in s.channels && (c !in s.clients || Full(kind, s.channels[c]))
    ensures ClientSound(kind, Broadcasted(kind, s, m), c)
  {
    assert ClientSound(kind, s, c);
    var s', ch := Broadcasted(kind, s, m), s.channels[c];
    assert s'.channels[c].Put() == ch.Put() && s'.kept[c] == s.kept[c];
  }

  lemma BroadcastKeeps<C, M>(kind: Kind, s: State<C, M>, m: M)
    requires Inv(kind, s)
    ensures Inv(kind, Broadcasted(kind, s, m))
  {
    var s' := Broadcasted(kind, s, m);
    forall c | c in s'.channels ensures ClientSound(kind, s', c) {
      if c in s.clients && !Full(kind, s.channels[c]) {
        BroadcastWithRoom(kind, s, m, c);
      } else {
        BroadcastWithoutRoom(kind, s, m, c);
      }
    }
  }

  lemma TakeKeeps<C, M>(kind: Kind, s: State<C, M>, c: C)
    requires Inv(kind, s) && c in s.channels && s.channels[c].queue != []
    ensures Inv(kind, Taken(s, c))
  {
    var s', ch := Taken(s, c), s.channels[c];
    assert s'.channels[c].Put() == ch.Put();
    forall d | d in s'.channels ensures ClientSound(kind, s', d) {
      assert ClientSound(kind, s, d);
    }
  }

  lemma StopKeeps<C, M>(kind: Kind, s: State<C, M>)
    requires Inv(kind, s)
    ensures Inv(kind, Stopped(kind, s))
  {
    var s' := Stopped(kind, s);
    forall d | d in s'.channels ensures ClientSound(kind, s', d) {
      assert ClientSound(kind, s, d);
      assert s'.channels[d].Put() == s.channels[d].Put();
    }
  }

  lemma StepKeeps<C, M>(kind: Kind, s: State<C, M>, a: Action<C, M>)
    requires Inv(kind, s) && Enabled(s, a)
    ensures Inv(kind, Next(kind, s, a))
  {
    match a
    case Register(c) => RegisterKeeps(kind, s, c);
    case Unregister(c) => UnregisterKeeps(kind, s, c);
    case Broadcast(m) => BroadcastKeeps(kind, s, m);
    case Take(c) => TakeKeeps(kind, s, c);
    case Shutdown => StopKeeps(kind, s);
  }

  lemma {:induction false} RunKeeps<C, M>(kind: Kind, states: seq<State<C, M>>, actions: seq<Action<C, M>>, n: nat)
    requires IsRun(kind, states, actions) && n <= |actions|
    ensures Inv(kind, states[n])
  {
    if n > 0 {
      RunKeeps(kind, states, actions, n - 1);
      assert StepTaken(kind, states, actions, n - 1);
      StepKeeps(kind, states[n - 1], actions[n - 1]);
    }
  }

  // ---- Channels ----

  /** In every run a channel is open exactly while its client is registered, and it is closed at most once. */
  lemma OpenExactlyWhileRegistered<C, M>(kind: Kind, states: seq<State<C, M>>, actions: seq<Action<C, M>>, n: nat, c: C)
    requires IsRun(kind, states, actions) && n <= |actions| && c in states[n].channels
    ensures states[n].channels[c].closings == 0 <==> c in states[n].clients
    ensures states[n].channels[c].closings <= 1
  {
    RunKeeps(kind, states, actions, n);
    assert ClientSound(kind, states[n], c);
  }

  /** After the SSE broker stops no channel is left open. */
  lemma SseStopClosesAll<C, M>(states: seq<State<C, M>>, actions: seq<Action<C, M>>, n: nat, c: C)
    requires IsRun(Sse, states, actions) && n < |actions| && actions[n] == Shutdown && c in states[n + 1].channels
    ensures states[n + 1].channels[c].closings == 1
  {
    assert StepTaken(Sse, states, actions, n);
    OpenExactlyWhileRegistered(Sse, states, actions, n + 1, c);
  }

  // ---- WebSocket: a gap-free segment ----

  lemma {:induction false} DenseIsInterval(ks: seq<nat>, lo: nat, hi: nat, i: nat)
    requires Increasing(ks, lo, hi) && lo <= hi && |ks| == hi - lo && i < |ks|
    ensures ks[i] == lo + i
  {
    AtLeast(ks, lo, hi, i);
    AtMost(ks, lo, hi, i);
  }

  lemma {:induction false} AtLeast(ks: seq<nat>, lo: nat, hi: nat, i: nat)
    requires Increasing(ks, lo, hi) && i < |ks|
    ensures ks[i] >= lo + i
  {
    if i > 0 {
      AtLeast(ks, lo, hi, i - 1);
    }
  }

  lemma {:induction false} AtMost(ks: seq<nat>, lo: nat, hi: nat, i: nat)
    requires Increasing(ks, lo, hi) && i < |ks|
    ensures ks[i] + (|ks| - i) <= hi
    decreases |ks| - i
  {
    if i + 1 < |ks| {
      AtMost(ks, lo, hi, i + 1);
    }
  }

  /**
    What the hub put into a client's channel is the contiguous segment of the processed messages from its
    registration to its removal: in order, without gaps or repetitions.
   */
  lemma WebSocketSegment<C, M>(states: seq<State<C, M>>, actions: seq<Action<C, M>>, n: nat, c: C)
    requires IsRun(WebSocket, states, actions) && n <= |actions| && c in states[n].channels
    ensures var s := states[n];
            && c in s.joined && s.joined[c] <= To(s, c) <= |s.processed|
            && s.channels[c].Put() == s.processed[s.joined[c]..To(s, c)]
  {
    RunKeeps(WebSocket, states, actions, n);
    var s := states[n];
    assert ClientSound(WebSocket, s, c);
    var put, ks := s.channels[c].Put(), s.kept[c];
    forall i | 0 <= i < |put| ensures put[i] == s.processed[s.joined[c]..To(s, c)][i] {
      DenseIsInterval(ks, s.joined[c], To(s, c), i);
    }
  }

  // ---- SSE and GraphQL: an in-order subsequence ----

  /** When the message at a log position was processed, the client was registered and its buffer was full. */
  ghost predicate WasFull<C, M>(kind: Kind, states: seq<State<C, M>>, n: nat, c: C, k: nat) {
    exists t :: 0 <= t < n && t < |states| && FullThen(kind, states[t], c, k)
  }

  predicate FullThen<C, M>(kind: Kind, s: State<C, M>, c: C, k: nat) {
    |s.processed| == k && c in s.clients && c in s.channels && Full(kind, s.channels[c])
  }

  ghost predicate MissingWasFull<C, M>(kind: Kind, states: seq<State<C, M>>, n: nat, c: C)
    requires n < |states| && c in states[n].joined && c in states[n].kept
  {
    forall k: nat | states[n].joined[c] <= k < To(states[n], c) && k !in states[n].kept[c] :: WasFull(kind, states, n, c, k)
  }

  /** What one step adds to a client's gaps: nothing, or a message that found the buffer full. */
  ghost predicate GapsExplained<C, M>(kind: Kind, s: State<C, M>, s': State<C, M>, c: C)
    requires c in s.joined && c in s.kept
  {
    && c in s'.joined && c in s'.kept && s'.joined[c] == s.joined[c]
    && forall k: nat | s.joined[c] <= k < To(s', c) && k !in s'.kept[c] ::
         (k < To(s, c) && k !in s.kept[c]) || FullThen(kind, s, c, k)
  }

  /** A broadcast as one client sees it. */
  lemma BroadcastSeen<C, M>(kind: Kind, s: State<C, M>, m: M, c: C)
    requires Inv(kind, s) && c in s.channels
    ensures var s' := Broadcasted(kind, s, m);
            && c in s.joined && c in s.kept && c in s'.joined && c in s'.kept && s'.joined[c] == s.joined[c]
            && (c in s.clients && !Full(kind, s.channels[c]) ==>
                  s'.kept[c] == s.kept[c] + [|s.processed|] && To(s, c) == |s.processed| && To(s', c) == |s.processed| + 1)
            && (c in s.clients && Full(kind, s.channels[c]) ==>
                  s'.kept[c] == s.kept[c] && To(s, c) == |s.processed| && To(s', c) <= |s.processed| + 1)
            && (c !in s.clients ==> s'.kept[c] == s.kept[c] && To(s', c) == To(s, c))
  {
    assert ClientSound(kind, s, c);
  }

  lemma SeenGaps<C, M>(kind: Kind, s: State<C, M>, s': State<C, M>, c: C)
    requires c in s.channels && c in s.joined && c in s.kept && c in s'.joined && c in s'.kept && s'.joined[c] == s.joined[c]
    requires c in s.clients && !Full(kind, s.channels[c]) ==>
               s'.kept[c] == s.kept[c] + [|s.processed|] && To(s, c) == |s.processed| && To(s', c) == |s.processed| + 1
    requires c in s.clients && Full(kind, s.channels[c]) ==>
               s'.kept[c] == s.kept[c] && To(s, c) == |s.processed| && To(s', c) <= |s.processed| + 1
    requires c !in s.clients ==> s'.kept[c] == s.kept[c] && To(s', c) == To(s, c)
    ensures GapsExplained(kind, s, s', c)
  {
  }

  lemma BroadcastGaps<C, M>(kind: Kind, s: State<C, M>, m: M, s': State<C, M>, c: C)
    requires Inv(kind, s) && c in s.channels && s' == Broadcasted(kind, s, m)
    ensures c in s.joined && c in s.kept && GapsExplained(kind, s, s', c)
  {
    BroadcastSeen(kind, s, m, c);
    SeenGaps(kind, s, s', c);
  }

  lemma QuietGaps<C, M>(kind: Kind, s: State<C, M>, a: Action<C, M>, c: C)
    requires Inv(kind, s) && Enabled(s, a) && c in s.channels && !a.Broadcast?
    ensures GapsExplained(kind, s, Next(kind, s, a), c)
  {
    assert ClientSound(kind, s, c);
  }

  lemma StepGaps<C, M>(kind: Kind, s: State<C, M>, a: Action<C, M>, s': State<C, M>, c: C)
    requires Inv(kind, s) && Enabled(s, a) && s' == Next(kind, s, a)
    ensures c in s.channels ==> c in s.joined && c in s.kept && GapsExplained(kind, s, s', c)
    ensures c !in s.channels && c in s'.channels ==> c in s'.joined && s'.joined[c] == To(s', c)
  {
    if c in s.channels {
      if a.Broadcast? {
        BroadcastGaps(kind, s, a.message, s', c);
      } else {
        QuietGaps(kind, s, a, c);
      }
    } else if c in s'.channels {
      NewClient(kind, s, a, c);
    }
  }

  lemma GapsAt<C, M>(kind: Kind, states: seq<State<C, M>>, actions: seq<Action<C, M>>, n: nat, c: C)
    requires IsRun(kind, states, actions) && n < |actions|
    ensures c in states[n].channels ==> c in states[n].joined && c in states[n].kept && GapsExplained(kind, states[n], states[n + 1], c)
    ensures c !in states[n].channels && c in states[n + 1].channels ==>
              c in states[n + 1].joined && states[n + 1].joined[c] == To(states[n + 1], c)
  {
    RunKeeps(kind, states, actions, n);
    assert StepTaken(kind, states, actions, n);
    StepGaps(kind, states[n], actions[n], states[n + 1], c);
  }

  lemma ExtendMissing<C, M>(kind: Kind, states: seq<State<C, M>>, n: nat, c: C)
    requires n + 1 < |states| && c in states[n].joined && c in states[n].kept
    requires GapsExplained(kind, states[n], states[n + 1], c) && MissingWasFull(kind, states, n, c)
    ensures MissingWasFull(kind, states, n + 1, c)
  {
    var s, s' := states[n], states[n + 1];
    forall k: nat | s'.joined[c] <= k < To(s', c) && k !in s'.kept[c] ensures WasFull(kind, states, n + 1, c, k) {
      if k < To(s, c) && k !in s.kept[c] {
        var t :| 0 <= t < n && FullThen(kind, states[t], c, k);
        assert FullThen(kind, states[t], c, k);
      } else {
        assert FullThen(kind, states[n], c, k);
      }
    }
  }

  lemma NewClient<C, M>(kind: Kind, s: State<C, M>, a: Action<C, M>, c: C)
    requires Inv(kind, s) && Enabled(s, a) && c !in s.channels && c in Next(kind, s, a).channels
    ensures var s' := Next(kind, s, a); c in s'.joined && s'.joined[c] == To(s', c)
  {
    assert a == Register(c);
  }

  lemma {:induction false} MissingRun<C, M>(kind: Kind, states: seq<State<C, M>>, actions: seq<Action<C, M>>, n: nat, c: C)
    requires IsRun(kind, states, actions) && n <= |actions| && c in states[n].channels
    ensures c in states[n].joined && c in states[n].kept && MissingWasFull(kind, states, n, c)
  {
    RunKeeps(kind, states, actions, n);
    if n > 0 {
      GapsAt(kind, states, actions, n - 1, c);
      if c in states[n - 1].channels {
        MissingRun(kind, states, actions, n - 1, c);
        ExtendMissing(kind, states, n - 1, c);
      }
    }
  }

  /**
    What a broker that drops messages put into a client's channel is an in-order, repetition-free selection
    of the messages processed while the client was registered, and a message is missing only if the client's
    buffer was full when it was processed.
   */
  lemma DeliveredInOrder<C, M>(kind: Kind, states: seq<State<C, M>>, actions: seq<Action<C, M>>, n: nat, c: C) returns (ks: seq<nat>)
    requires IsRun(kind, states, actions) && n <= |actions| && c in states[n].channels
    ensures var s := states[n];
            && c in s.joined
            && Increasing(ks, s.joined[c], To(s, c)) && PutIsKept(s.channels[c].Put(), s.processed, ks)
            && forall k: nat | s.joined[c] <= k < To(s, c) && k !in ks :: WasFull(kind, states, n, c, k)
  {
    RunKeeps(kind, states, actions, n);
    MissingRun(kind, states, actions, n, c);
    assert ClientSound(kind, states[n], c);
    ks := states[n].kept[c];
  }

  // ---- Clients do not affect each other ----

  /** A client's membership and channel. */
  datatype Lot<M> = Lot(member: bool, channel: Option<Channel<M>>)

  /** What one action makes of a client's lot, looking at nobody else's. */
  function LotAfter<C(==), M>(kind: Kind, lot: Lot<M>, a: Action<C, M>, c: C): Lot<M> {
    if a == Register(c) then Lot(true, Some(Channel([], [], 0)))
    else if lot.channel.None? then lot
    else
      var ch := lot.channel.value;
      match a
      case Unregister(d) => if d == c && lot.member then Lot(false, Some(Closed(ch))) else lot
      case Broadcast(m) => if lot.member then Lot(!Drops(kind, ch), Some(Offered(kind, ch, m))) else lot
      case Take(d) => if d == c && ch.queue != [] then lot.(channel := Some(ch.(queue := ch.queue[1..], taken := ch.taken + [ch.queue[0]]))) else lot
      case Shutdown => if kind == Sse && lot.member then Lot(false, Some(Closed(ch))) else lot
      case Register(_) => lot
  }

  function LotOf<C(==), M>(kind: Kind, actions: seq<Action<C, M>>, c: C): Lot<M>
    decreases |actions|
  {
    if actions == [] then Lot(false, None)
    else LotAfter(kind, LotOf(kind, actions[..|actions| - 1], c), actions[|actions| - 1], c)
  }

  ghost predicate HasLot<C, M>(s: State<C, M>, c: C, lot: Lot<M>) {
    && (c in s.clients <==> lot.member)
    && (c in s.channels <==> lot.channel.Some?)
    && (c in s.channels ==> s.channels[c] == lot.channel.value)
  }

  lemma StepLot<C, M>(kind: Kind, s: State<C, M>, a: Action<C, M>, c: C, lot: Lot<M>)
    requires Inv(kind, s) && Enabled(s, a) && HasLot(s, c, lot)
    ensures HasLot(Next(kind, s, a), c, LotAfter(kind, lot, a, c))
  {
    if a.Broadcast? {
      BroadcastLot(kind, s, a.message, c, lot);
    }
  }

  lemma BroadcastLot<C, M>(kind: Kind, s: State<C, M>, m: M, c: C, lot: Lot<M>)
    requires Inv(kind, s) && HasLot(s, c, lot)
    ensures HasLot(Broadcasted(kind, s, m), c, LotAfter(kind, lot, Broadcast(m), c))
  {
  }

  /**
    In every run a client's membership and channel are what the broadcasts and the client's own actions make
    of them: no other client, however slow, makes any difference.
   */
  lemma {:induction false} ClientsIsolated<C, M>(kind: Kind, states: seq<State<C, M>>, actions: seq<Action<C, M>>, n: nat, c: C)
    requires IsRun(kind, states, actions) && n <= |actions|
    ensures HasLot(states[n], c, LotOf(kind, actions[..n], c))
  {
    if n > 0 {
      ClientsIsolated(kind, states, actions, n - 1, c);
      RunKeeps(kind, states, actions, n - 1);
      assert StepTaken(kind, states, actions, n - 1);
      assert actions[..n][..n - 1] == actions[..n - 1];
      StepLot(kind, states[n - 1], actions[n - 1], c, LotOf(kind, actions[..n - 1], c));
    }
  }
}
