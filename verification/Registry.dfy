/** The WebSocket registry: channels with their sockets, and broadcasts whose
    sends end one by one while sockets come and go. */
module Registry {
  import opened Counting

  type Socket = nat
  type Channels = map<string, set<Socket>>

  predicate Has(m: Channels, c: string, ws: Socket) {
    c in m && ws in m[c]
  }

  function Members(m: Channels, c: string): set<Socket> {
    if c in m then m[c] else {}
  }

  /** Registers the socket unless the channel is full. */
  function Joined(m: Channels, max: int, c: string, ws: Socket): (Channels, bool) {
    if |Members(m, c)| >= max then (m, false) else (m[c := Members(m, c) + {ws}], true)
  }

  /** Drops the socket, and the channel with its last socket. */
  function Dropped(m: Channels, c: string, ws: Socket): Channels {
    var left := Members(m, c) - {ws};
    if left == {} then m - {c} else m[c := left]
  }

  function TotalOver(m: Channels, cs: seq<string>): nat {
    if cs == [] then 0 else TotalOver(m, cs[..|cs| - 1]) + |Members(m, cs[|cs| - 1])|
  }

  /** A connect is accepted exactly when the channel has room, and adds that socket alone. */
  lemma JoinedExactly(m: Channels, max: int, c: string, ws: Socket)
    ensures Joined(m, max, c, ws).1 <==> (if c in m then |m[c]| else 0) < max
    ensures var (m', accepted) := Joined(m, max, c, ws);
            forall c', ws' :: Has(m', c', ws') <==> Has(m, c', ws') || (accepted && c' == c && ws' == ws)
  {
  }

  /** The sockets of these channels, each with its channel. */
  function Pairs(m: Channels, cs: seq<string>): set<(string, Socket)> {
    set c, ws | c in m && ws in m[c] && c in cs :: (c, ws)
  }

  function Tagged(c: string, a: set<Socket>): set<(string, Socket)> {
    set ws | ws in a :: (c, ws)
  }

  lemma {:induction false} TaggedSize(c: string, a: set<Socket>)
    ensures |Tagged(c, a)| == |a|
    decreases a
  {
    if a == {} {
      assert Tagged(c, a) == {};
    } else {
      var x :| x in a;
      TaggedSize(c, a - {x});
      assert Tagged(c, a) == Tagged(c, a - {x}) + {(c, x)};
      assert (c, x) !in Tagged(c, a - {x});
    }
  }

  /** One more channel brings its own sockets. */
  lemma PairsAppend(m: Channels, cs: seq<string>, c: string)
    requires c !in cs
    ensures |Pairs(m, cs + [c])| == |Pairs(m, cs)| + |Members(m, c)|
  {
    TaggedSize(c, Members(m, c));
    assert Pairs(m, cs + [c]) == Pairs(m, cs) + Tagged(c, Members(m, c));
    assert Pairs(m, cs) !! Tagged(c, Members(m, c));
  }

  lemma {:induction false} TotalOfDistinct(m: Channels, cs: seq<string>)
    requires forall i, j :: 0 <= i < j < |cs| ==> cs[i] != cs[j]
    ensures TotalOver(m, cs) == |Pairs(m, cs)|
  {
    if cs == [] {
      assert Pairs(m, cs) == {};
    } else {
      var n := |cs| - 1;
      assert cs == cs[..n] + [cs[n]];
      TotalOfDistinct(m, cs[..n]);
      PairsAppend(m, cs[..n], cs[n]);
    }
  }

  lemma CountedTwice(cs: seq<string>, i: nat, j: nat)
    requires i < j < |cs| && cs[i] == cs[j]
    ensures multiset(cs)[cs[i]] >= 2
  {
    assert cs == cs[..j] + cs[j..];
    assert cs[..j][i] == cs[i] && cs[j..][0] == cs[i];
    assert multiset(cs) == multiset(cs[..j]) + multiset(cs[j..]);
    assert cs[i] in multiset(cs[..j]) && cs[i] in multiset(cs[j..]);
  }

  lemma TotalIsPairs(m: Channels, order: seq<string>)
    requires multiset(order) == multiset(m.Keys)
    ensures TotalOver(m, order) == |set c, ws | c in m && ws in m[c] :: (c, ws)|
  {
    forall i, j | 0 <= i < j < |order| ensures order[i] != order[j] {
      if order[i] == order[j] {
        CountedTwice(order, i, j);
        assert false;
      }
    }
    TotalOfDistinct(m, order);
    forall c | c in m ensures c in order {
      assert c in multiset(m.Keys);
    }
    assert Pairs(m, order) == set c, ws | c in m && ws in m[c] :: (c, ws);
  }

  class ConnectionManager {
    var connections: Channels
    const maxPerChannel: int

    constructor (max: int)
      ensures connections == map[] && maxPerChannel == max
    {
      connections, maxPerChannel := map[], max;
    }

    method Connect(channel: string, ws: Socket) returns (accepted: bool)
      modifies this
      ensures (connections, accepted) == Joined(old(connections), maxPerChannel, channel, ws)
      ensures accepted <==> (if channel in old(connections) then |old(connections)[channel]| else 0) < maxPerChannel
      ensures forall c, x :: Has(connections, c, x) <==> Has(old(connections), c, x) || (accepted && c == channel && x == ws)
    {
      var conns := if channel in connections then connections[channel] else {};
      if |conns| >= maxPerChannel {
        return false;
      }
      connections := connections[channel := conns + {ws}];
      return true;
    }

    method Disconnect(channel: string, ws: Socket)
      modifies this
      ensures connections == Dropped(old(connections), channel, ws)
      ensures forall c, x :: Has(connections, c, x) <==> Has(old(connections), c, x) && !(c == channel && x == ws)
    {
      var conns := if channel in connections then connections[channel] else {};
      conns := conns - {ws};
      if conns == {} {
        connections := connections - {channel};
      } else {
        connections := connections[channel := conns];
      }
      forall c, x ensures Has(connections, c, x) <==> Has(old(connections), c, x) && !(c == channel && x == ws) {
        DroppedHas(old(connections), channel, ws, c, x);
      }
    }

    method HasChannel(channel: string) returns (found: bool)
      ensures found <==> exists ws :: Has(connections, channel, ws)
    {
      found := channel in connections && connections[channel] != {};
      if found {
        var ws :| ws in connections[channel];
        assert Has(connections, channel, ws);
      }
    }

    /** The number of channels, and the sockets summed over all of them in some order. */
    method GetStats() returns (channels: nat, sockets: nat, order: seq<string>)
      ensures channels == |connections| && sockets == TotalOver(connections, order)
      ensures multiset(order) == multiset(connections.Keys)
      ensures sockets == |set c, ws | c in connections && ws in connections[c] :: (c, ws)|
    {
      channels, sockets, order := |connections|, 0, [];
      var todo := connections.Keys;
      while todo != {}
        invariant todo <= connections.Keys
        invariant multiset(order) + multiset(todo) == multiset(connections.Keys)
        invariant sockets == TotalOver(connections, order)
        decreases todo
      {
        var c :| c in todo;
        sockets := sockets + |connections[c]|;
        assert (order + [c])[..|order|] == order;
        assert multiset(todo) == multiset(todo - {c}) + multiset{c};
        order := order + [c];
        todo := todo - {c};
      }
      TotalIsPairs(connections, order);
    }
  }

  // ----- Runs

  /** A broadcast works on the members it saw when it began. */
  datatype Broadcast = Broadcast(channel: string, snapshot: set<Socket>, pending: set<Socket>)

  /** How a socket came into a channel or left it, and what a send came to. */
  datatype Change =
    | Join(channel: string, ws: Socket)
    | Leave(channel: string, ws: Socket)

  datatype Send = Send(broadcast: nat, ws: Socket, ok: bool)

  /** `changes` and `sends` are history. */
  datatype State = State(channels: Channels, broadcasts: seq<Broadcast>, changes: seq<Change>, sends: seq<Send>)

  datatype Event =
    | Connects(channel: string, ws: Socket)
    | Disconnects(channel: string, ws: Socket)
    | Starts(channel: string)
    | Ends(id: nat, ws: Socket, ok: bool)

  predicate Enabled(s: State, e: Event) {
    e.Ends? ==> e.id < |s.broadcasts| && e.ws in s.broadcasts[e.id].pending
  }

  function Next(max: int, s: State, e: Event): State
    requires Enabled(s, e)
  {
    match e
    case Connects(c, ws) =>
      var (m, accepted) := Joined(s.channels, max, c, ws);
      if accepted then s.(channels := m, changes := s.changes + [Join(c, ws)]) else s
    case Disconnects(c, ws) => s.(channels := Dropped(s.channels, c, ws), changes := s.changes + [Leave(c, ws)])
    case Starts(c) =>
      var targets := Members(s.channels, c);
      if targets == {} then s else s.(broadcasts := s.broadcasts + [Broadcast(c, targets, targets)])
    case Ends(i, ws, ok) =>
      var b := s.broadcasts[i];
      var s' := s.(broadcasts := s.broadcasts[i := b.(pending := b.pending - {ws})], sends := s.sends + [Send(i, ws, ok)]);
      if ok then s'
      else s'.(channels := Dropped(s.channels, b.channel, ws), changes := s.changes + [Leave(b.channel, ws)])
  }

  const Start := State(map[], [], [], [])

  predicate Run(max: int, s: State, es: seq<Event>)
    decreases |es|
  {
    es != [] ==> Enabled(s, es[0]) && Run(max, Next(max, s, es[0]), es[1..])
  }

  function Final(max: int, s: State, es: seq<Event>): State
    requires Run(max, s, es)
    decreases |es|
  {
    if es == [] then s else Final(max, Next(max, s, es[0]), es[1..])
  }

  /** The last thing that happened to this socket in this channel was joining it. */
  predicate LastJoined(changes: seq<Change>, c: string, ws: Socket) {
    changes != [] &&
    var x := changes[|changes| - 1];
    if x.channel == c && x.ws == ws then x.Join? else LastJoined(changes[..|changes| - 1], c, ws)
  }

  lemma LastJoinedAppend(changes: seq<Change>, x: Change, c: string, ws: Socket)
    ensures LastJoined(changes + [x], c, ws) <==>
            if x.channel == c && x.ws == ws then x.Join? else LastJoined(changes, c, ws)
  {
    assert (changes + [x])[..|changes|] == changes;
  }

  function SendTo(b: nat, ws: Socket): Send -> bool {
    (x: Send) => x.broadcast == b && x.ws == ws
  }

  ghost predicate Bounded(max: int, m: Channels) {
    forall c :: c in m ==> 1 <= |m[c]| <= max
  }

  ghost predicate Faithful(s: State) {
    forall c, ws :: Has(s.channels, c, ws) <==> LastJoined(s.changes, c, ws)
  }

  /** Each member of a snapshot is still pending or was tried exactly once, and nobody else was tried. */
  ghost predicate TriedOnce(s: State, i: nat, ws: Socket)
    requires i < |s.broadcasts|
  {
    var b := s.broadcasts[i];
    b.pending <= b.snapshot && Count(s.sends, SendTo(i, ws)) == Bit(ws in b.snapshot && ws !in b.pending)
  }

  /** Sends belong to broadcasts that have begun. */
  ghost predicate Known(s: State) {
    forall k :: 0 <= k < |s.sends| ==> s.sends[k].broadcast < |s.broadcasts|
  }

  ghost predicate Invariant(max: int, s: State) {
    && Bounded(max, s.channels) && Faithful(s) && Known(s)
    && forall i, ws :: 0 <= i < |s.broadcasts| ==> TriedOnce(s, i, ws)
  }

  lemma DroppedHas(m: Channels, c: string, ws: Socket, c': string, ws': Socket)
    ensures Has(Dropped(m, c, ws), c', ws') <==> Has(m, c', ws') && !(c == c' && ws == ws')
  {
    var left := Members(m, c) - {ws};
    assert c == c' && Has(m, c', ws') && ws != ws' ==> ws' in left;
  }

  lemma DroppedBounded(max: int, m: Channels, c: string, ws: Socket)
    requires Bounded(max, m)
    ensures Bounded(max, Dropped(m, c, ws))
  {
    SmallerSet(Members(m, c) - {ws}, Members(m, c));
  }

  lemma JoinedBounded(max: int, m: Channels, c: string, ws: Socket)
    requires Bounded(max, m)
    ensures Bounded(max, Joined(m, max, c, ws).0)
  {
    var a := Members(m, c);
    assert ws in a ==> a + {ws} == a;
  }

  lemma JoinFaithful(s: State, t: State, max: int, c: string, ws: Socket)
    requires Faithful(s) && Joined(s.channels, max, c, ws).1
    requires t.channels == Joined(s.channels, max, c, ws).0 && t.changes == s.changes + [Join(c, ws)]
    ensures Faithful(t)
  {
    forall c', ws' ensures Has(t.channels, c', ws') <==> LastJoined(t.changes, c', ws') {
      LastJoinedAppend(s.changes, Join(c, ws), c', ws');
    }
  }

  lemma DropFaithful(s: State, t: State, c: string, ws: Socket)
    requires Faithful(s) && t.channels == Dropped(s.channels, c, ws) && t.changes == s.changes + [Leave(c, ws)]
    ensures Faithful(t)
  {
    forall c', ws' ensures Has(t.channels, c', ws') <==> LastJoined(t.changes, c', ws') {
      DroppedHas(s.channels, c, ws, c', ws');
      LastJoinedAppend(s.changes, Leave(c, ws), c', ws');
    }
  }

  lemma FaithfulStep(max: int, s: State, e: Event)
    requires Enabled(s, e) && Faithful(s)
    ensures Faithful(Next(max, s, e))
  {
    var t := Next(max, s, e);
    if e.Connects? && Joined(s.channels, max, e.channel, e.ws).1 {
      JoinFaithful(s, t, max, e.channel, e.ws);
    } else if e.Disconnects? {
      DropFaithful(s, t, e.channel, e.ws);
    } else if e.Ends? && !e.ok {
      DropFaithful(s, t, s.broadcasts[e.id].channel, e.ws);
    }
  }

  /** The send that ends leaves its socket tried once more and pending no more. */
  lemma SendCounts(sends: seq<Send>, j: nat, x: Socket, ok: bool, i: nat, ws: Socket)
    ensures Count(sends + [Send(j, x, ok)], SendTo(i, ws)) == Count(sends, SendTo(i, ws)) + Bit(j == i && x == ws)
  {
    CountAppend(sends, Send(j, x, ok), SendTo(i, ws));
  }

  lemma EndedTried(max: int, s: State, j: nat, x: Socket, ok: bool, i: nat, ws: Socket)
    requires Enabled(s, Ends(j, x, ok)) && i < |s.broadcasts| && TriedOnce(s, i, ws)
    ensures i < |Next(max, s, Ends(j, x, ok)).broadcasts| && TriedOnce(Next(max, s, Ends(j, x, ok)), i, ws)
  {
    hide Dropped, Count, SendTo;
    var t, b := Next(max, s, Ends(j, x, ok)), s.broadcasts[i];
    SendCounts(s.sends, j, x, ok, i, ws);
    assert t.sends == s.sends + [Send(j, x, ok)];
    if j == i {
      assert t.broadcasts[i] == b.(pending := b.pending - {x});
    } else {
      assert t.broadcasts[i] == b;
    }
  }

  lemma TriedOneStep(max: int, s: State, e: Event, i: nat, ws: Socket)
    requires Enabled(s, e) && i < |s.broadcasts| && TriedOnce(s, i, ws)
    ensures i < |Next(max, s, e).broadcasts| && TriedOnce(Next(max, s, e), i, ws)
  {
    if e.Ends? {
      EndedTried(max, s, e.id, e.ws, e.ok, i, ws);
    } else {
      assert Next(max, s, e).sends == s.sends && Next(max, s, e).broadcasts[i] == s.broadcasts[i];
    }
  }

  lemma BegunUntried(max: int, s: State, e: Event, ws: Socket)
    requires Enabled(s, e) && Known(s) && |Next(max, s, e).broadcasts| > |s.broadcasts|
    ensures TriedOnce(Next(max, s, e), |s.broadcasts|, ws)
  {
    CountNone(s.sends, SendTo(|s.broadcasts|, ws));
  }

  lemma TriedStep(max: int, s: State, e: Event)
    requires Enabled(s, e) && Known(s) && forall i, ws :: 0 <= i < |s.broadcasts| ==> TriedOnce(s, i, ws)
    ensures var t := Next(max, s, e); Known(t) && forall i, ws :: 0 <= i < |t.broadcasts| ==> TriedOnce(t, i, ws)
  {
    var t := Next(max, s, e);
    assert |s.broadcasts| <= |t.broadcasts| <= |s.broadcasts| + 1;
    forall i, ws | 0 <= i < |t.broadcasts| ensures TriedOnce(t, i, ws) {
      if i < |s.broadcasts| {
        TriedOneStep(max, s, e, i, ws);
      } else {
        BegunUntried(max, s, e, ws);
      }
    }
  }

  lemma {:induction false} RunKeeps(max: int, s: State, es: seq<Event>)
    requires Run(max, s, es) && Invariant(max, s)
    ensures Invariant(max, Final(max, s, es))
    decreases |es|
  {
    if es != [] {
      var e := es[0];
      match e {
        case Connects(c, ws) => JoinedBounded(max, s.channels, c, ws);
        case Disconnects(c, ws) => DroppedBounded(max, s.channels, c, ws);
        case Starts(_) =>
        case Ends(i, ws, _) => DroppedBounded(max, s.channels, s.broadcasts[i].channel, ws);
      }
      FaithfulStep(max, s, e);
      TriedStep(max, s, e);
      RunKeeps(max, Next(max, s, e), es[1..]);
    }
  }

  /** After any run every stored channel has between one and `max` sockets, and a
      socket is registered exactly when the last thing that happened to it in that
      channel was an accepted connect: neither a disconnect nor a failed send since. */
  lemma RegistryFaithful(max: int, es: seq<Event>)
    requires Run(max, Start, es)
    ensures var t := Final(max, Start, es);
            && (forall c :: c in t.channels ==> 1 <= |t.channels[c]| <= max)
            && (forall c, ws :: Has(t.channels, c, ws) <==> LastJoined(t.changes, c, ws))
  {
    RunKeeps(max, Start, es);
  }

  /** A broadcast that has ended tried every socket of its snapshot once and nobody
      else, whatever happened to the channel meanwhile. */
  lemma BroadcastTriesOnce(max: int, es: seq<Event>, i: nat, ws: Socket)
    requires Run(max, Start, es)
    requires i < |Final(max, Start, es).broadcasts| && Final(max, Start, es).broadcasts[i].pending == {}
    ensures var t := Final(max, Start, es);
            Count(t.sends, SendTo(i, ws)) == Bit(ws in t.broadcasts[i].snapshot)
  {
    RunKeeps(max, Start, es);
    assert TriedOnce(Final(max, Start, es), i, ws);
  }

  /** The `i`-th broadcast was begun by the `k`-th event, and its snapshot is the
      membership of its channel at that moment. */
  ghost predicate BeganAt(max: int, s: State, es: seq<Event>, k: nat, i: nat, b: Broadcast) {
    && k < |es| && es[k] == Starts(b.channel) && Run(max, s, es[..k])
    && var u := Final(max, s, es[..k]);
       |u.broadcasts| == i && b.snapshot == Members(u.channels, b.channel)
  }

  /** A broadcast begins exactly when its channel has sockets, with all of them to try. */
  lemma BeginsExactly(max: int, s: State, c: string)
    ensures var t := Next(max, s, Starts(c));
            && t.channels == s.channels && t.sends == s.sends
            && if exists ws :: Has(s.channels, c, ws) then t.broadcasts == s.broadcasts + [Broadcast(c, s.channels[c], s.channels[c])]
               else t.broadcasts == s.broadcasts
  {
    if exists ws :: Has(s.channels, c, ws) {
      assert s.channels[c] != {};
    } else if c in s.channels && s.channels[c] != {} {
      var ws :| ws in s.channels[c];
      assert Has(s.channels, c, ws);
    }
  }

  /** A broadcast that has begun keeps its channel and its snapshot. */
  lemma {:induction false} SnapshotKept(max: int, s: State, es: seq<Event>, i: nat)
    requires Run(max, s, es) && i < |s.broadcasts|
    ensures var t := Final(max, s, es);
            |s.broadcasts| <= |t.broadcasts| && t.broadcasts[i].channel == s.broadcasts[i].channel
            && t.broadcasts[i].snapshot == s.broadcasts[i].snapshot
    decreases |es|
  {
    if es != [] {
      SnapshotKept(max, Next(max, s, es[0]), es[1..], i);
    }
  }

  lemma {:induction false} SnapshotFrom(max: int, s: State, es: seq<Event>, i: nat) returns (k: nat)
    requires Run(max, s, es) && |s.broadcasts| <= i < |Final(max, s, es).broadcasts|
    ensures BeganAt(max, s, es, k, i, Final(max, s, es).broadcasts[i])
    decreases |es|
  {
    var t := Next(max, s, es[0]);
    if i < |t.broadcasts| {
      SnapshotKept(max, t, es[1..], i);
      assert es[..0] == [];
      k := 0;
    } else {
      var j := SnapshotFrom(max, t, es[1..], i);
      k := j + 1;
      assert es[..k][0] == es[0] && es[..k][1..] == es[1..][..j];
    }
  }

  /** Over any run, a broadcast that has ended tried exactly the sockets that were
      registered in its channel at the moment it began, each of them once. */
  lemma BroadcastReachesMembers(max: int, es: seq<Event>, i: nat) returns (k: nat)
    requires Run(max, Start, es)
    requires i < |Final(max, Start, es).broadcasts| && Final(max, Start, es).broadcasts[i].pending == {}
    ensures k < |es| && es[k].Starts? && Run(max, Start, es[..k])
    ensures var u, t := Final(max, Start, es[..k]), Final(max, Start, es);
            |u.broadcasts| == i
            && forall ws :: Count(t.sends, SendTo(i, ws)) == Bit(Has(u.channels, es[k].channel, ws))
  {
    k := SnapshotFrom(max, Start, es, i);
    var u, t := Final(max, Start, es[..k]), Final(max, Start, es);
    forall ws ensures Count(t.sends, SendTo(i, ws)) == Bit(Has(u.channels, es[k].channel, ws)) {
      BroadcastTriesOnce(max, es, i, ws);
    }
  }

  // ----- Who gets removed

  /** The socket disconnects from this channel, or a send to it on this channel fails. */
  predicate Removes(s: State, e: Event, c: string, ws: Socket) {
    || e == Disconnects(c, ws)
    || (e.Ends? && e.id < |s.broadcasts| && s.broadcasts[e.id].channel == c && e.ws == ws && !e.ok)
  }

  /** A registered socket leaves by a step exactly when that step is its own disconnect or failed send. */
  lemma RemovedExactly(max: int, s: State, e: Event, c: string, ws: Socket)
    requires Enabled(s, e) && Has(s.channels, c, ws)
    ensures Has(Next(max, s, e).channels, c, ws) <==> !Removes(s, e, c, ws)
  {
    match e
    case Disconnects(c', ws') => DroppedHas(s.channels, c', ws', c, ws);
    case Ends(i, ws', _) => DroppedHas(s.channels, s.broadcasts[i].channel, ws', c, ws);
    case _ =>
  }

  /** No step of the run removes the socket. */
  predicate Spared(max: int, s: State, es: seq<Event>, c: string, ws: Socket)
    requires Run(max, s, es)
    decreases |es|
  {
    es != [] ==> !Removes(s, es[0], c, ws) && Spared(max, Next(max, s, es[0]), es[1..], c, ws)
  }

  /** Other sockets' connects, disconnects and failing sends, on this channel or
      another, never cost a socket its place, over any run. */
  lemma {:induction false} SparedStays(max: int, s: State, es: seq<Event>, c: string, ws: Socket)
    requires Run(max, s, es) && Has(s.channels, c, ws) && Spared(max, s, es, c, ws)
    ensures Has(Final(max, s, es).channels, c, ws)
    decreases |es|
  {
    if es != [] {
      RemovedExactly(max, s, es[0], c, ws);
      SparedStays(max, Next(max, s, es[0]), es[1..], c, ws);
    }
  }
}
