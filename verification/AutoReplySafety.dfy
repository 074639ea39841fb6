/** At most one reply per (account, sender), for every number of handlers and
    every interleaving, exactly when the two delays fit into the lock's life. */
module AutoReplySafety {
  import opened AutoReply

  /** The handler has read the log and not yet tried the lock. */
  predicate Waiting(h: Handler) {
    h.phase.AtCooldown? || h.phase.AtRate? || h.phase.AtLock?
  }

  /** The handler holds the lock and has not yet reached the log. */
  predicate Holding(h: Handler) {
    h.phase.AtSend? || h.phase.AtRecord?
  }

  /** No handler is later than `d1` after its log read, or `d2` after its lock. */
  ghost predicate OnTime(s: State, d1: real, d2: real) {
    forall i :: 0 <= i < |s.handlers| ==>
      && (Waiting(s.handlers[i]) ==> s.now <= s.handlers[i].phase.readAt + d1)
      && (Holding(s.handlers[i]) ==> s.now <= s.handlers[i].phase.lockedAt + d2)
  }

  ghost function Timely(d1: real, d2: real): State -> bool {
    (s: State) => OnTime(s, d1, d2)
  }

  ghost predicate OneReplyEach(s: State) {
    forall i, j :: 0 <= i < j < |s.world.sends| ==> s.world.sends[i].pair != s.world.sends[j].pair
  }

  ghost predicate HolderOk(s: State, i: nat)
    requires i < |s.handlers|
  {
    var h := s.handlers[i];
    var k := Lock(h.msg.pair);
    Holding(h) ==>
      && h.msg.pair !in s.world.log
      && k in s.world.redis.keys && k in s.world.redis.ttls && s.world.redis.ttls[k] == h.phase.lockedAt + LOCK_SECONDS
      && (h.phase.AtSend? ==> forall j :: 0 <= j < |s.world.sends| ==> s.world.sends[j].pair != h.msg.pair)
  }

  /** A waiting handler whose pair got logged meanwhile still faces a live lock. */
  ghost predicate WaiterOk(s: State, i: nat, d2: real)
    requires i < |s.handlers|
  {
    var h := s.handlers[i];
    var k := Lock(h.msg.pair);
    Waiting(h) ==>
      && h.phase.readAt <= s.now
      && (h.msg.pair in s.world.log ==>
            k in s.world.redis.keys && k in s.world.redis.ttls && s.world.redis.ttls[k] + d2 >= h.phase.readAt + LOCK_SECONDS)
  }

  ghost predicate Recording(s: State, p: Pair, i: int) {
    0 <= i < |s.handlers| && s.handlers[i].phase.AtRecord? && s.handlers[i].msg.pair == p
  }

  ghost predicate Invariant(s: State, d2: real) {
    && OneReplyEach(s)
    && (forall i :: 0 <= i < |s.handlers| ==> HolderOk(s, i) && WaiterOk(s, i, d2))
    && (forall i, j :: 0 <= i < j < |s.handlers| && Holding(s.handlers[i]) && Holding(s.handlers[j]) ==>
          s.handlers[i].msg.pair != s.handlers[j].msg.pair)
    && (forall k :: 0 <= k < |s.world.sends| ==>
          s.world.sends[k].pair in s.world.log || exists i :: Recording(s, s.world.sends[k].pair, i))
  }

  ghost predicate SameLocks(r: Redis, r': Redis) {
    forall p :: && (Lock(p) in r.keys <==> Lock(p) in r'.keys)
                && (Lock(p) in r.ttls <==> Lock(p) in r'.ttls)
                && (Lock(p) in r.ttls ==> r'.ttls[Lock(p)] == r.ttls[Lock(p)])
  }

  /** Steps that leave the log, the sends and every send lock alone. */
  ghost predicate Quiet(s: State, s': State, i: nat)
    requires i < |s.handlers|
  {
    && |s'.handlers| == |s.handlers|
    && s'.now == s.now && s'.world.log == s.world.log && s'.world.sends == s.world.sends
    && (forall j :: 0 <= j < |s.handlers| && j != i ==> s'.handlers[j] == s.handlers[j])
    && SameLocks(s.world.redis, s'.world.redis)
    && s'.handlers[i].msg == s.handlers[i].msg
    && !Holding(s.handlers[i]) && !Holding(s'.handlers[i])
    && (Waiting(s'.handlers[i]) ==>
          || (Waiting(s.handlers[i]) && s'.handlers[i].phase.readAt == s.handlers[i].phase.readAt)
          || (s'.handlers[i].phase.readAt == s.now && s.handlers[i].msg.pair !in s.world.log))
  }

  lemma QuietKeeps(s: State, s': State, i: nat, d2: real)
    requires i < |s.handlers| && Quiet(s, s', i) && Invariant(s, d2)
    ensures Invariant(s', d2)
  {
    forall k | 0 <= k < |s'.world.sends|
      ensures s'.world.sends[k].pair in s'.world.log || exists j :: Recording(s', s'.world.sends[k].pair, j)
    {
      if s.world.sends[k].pair !in s.world.log {
        var j :| Recording(s, s.world.sends[k].pair, j);
        assert Recording(s', s'.world.sends[k].pair, j);
      }
    }
    forall j | 0 <= j < |s'.handlers| ensures HolderOk(s', j) && WaiterOk(s', j, d2) {
      assert HolderOk(s, j) && WaiterOk(s, j, d2);
    }
  }

  predicate Loud(p: Phase) {
    p.AtLock? || p.AtSend? || p.AtRecord?
  }

  lemma QuietStage(w: World, accounts: map<string, Row>, now: real, m: Message, p: Phase)
    requires !p.Finished? && !Loud(p)
    ensures var (w', p') := Stage(w, accounts, now, m, p);
            && w'.log == w.log && w'.sends == w.sends && SameLocks(w.redis, w'.redis)
            && !p'.AtSend? && !p'.AtRecord?
            && (p'.AtCooldown? ==> p.AtLog? && p'.readAt == now && m.pair !in w.log)
            && (p'.AtRate? ==> p.AtCooldown? && p'.readAt == p.readAt)
            && (p'.AtLock? ==> p.AtRate? && p'.readAt == p.readAt)
  {
  }

  lemma QuietSteps(s: State, i: nat)
    requires Enabled(s, Resume(i)) && !Loud(s.handlers[i].phase)
    ensures Quiet(s, Next(s, Resume(i)), i)
  {
    var h := s.handlers[i];
    QuietStage(s.world, s.accounts, s.now, h.msg, h.phase);
  }

  /** The lock is alive whenever its pair is being sent or was logged after this handler looked. */
  lemma LockKeeps(s: State, i: nat, d1: real, d2: real)
    requires 0.0 <= d1 && d1 + d2 <= LOCK_SECONDS
    requires Enabled(s, Resume(i)) && s.handlers[i].phase.AtLock?
    requires Invariant(s, d2) && OnTime(s, d1, d2)
    ensures Invariant(Next(s, Resume(i)), d2)
  {
    var s' := Next(s, Resume(i));
    var p := s.handlers[i].msg.pair;
    assert WaiterOk(s, i, d2);
    forall j | 0 <= j < |s.handlers| && s.handlers[j].msg.pair == p && Holding(s.handlers[j])
      ensures !Holding(s'.handlers[i])
    {
      assert HolderOk(s, j);
    }
    forall k | 0 <= k < |s'.world.sends|
      ensures s'.world.sends[k].pair in s'.world.log || exists j :: Recording(s', s'.world.sends[k].pair, j)
      ensures Holding(s'.handlers[i]) ==> s'.world.sends[k].pair != p
    {
      if s.world.sends[k].pair !in s.world.log {
        var j :| Recording(s, s.world.sends[k].pair, j);
        assert Recording(s', s'.world.sends[k].pair, j);
      }
    }
    forall j | 0 <= j < |s'.handlers| ensures HolderOk(s', j) && WaiterOk(s', j, d2) {
      assert HolderOk(s, j) && WaiterOk(s, j, d2);
    }
  }

  lemma SendKeeps(s: State, i: nat, d2: real)
    requires Enabled(s, Resume(i)) && s.handlers[i].phase.AtSend? && Invariant(s, d2)
    ensures Invariant(Next(s, Resume(i)), d2)
  {
    var s' := Next(s, Resume(i));
    assert HolderOk(s, i);
    forall k | 0 <= k < |s'.world.sends|
      ensures s'.world.sends[k].pair in s'.world.log || exists j :: Recording(s', s'.world.sends[k].pair, j)
    {
      if k == |s.world.sends| {
        assert Recording(s', s'.world.sends[k].pair, i);
      } else if s.world.sends[k].pair !in s.world.log {
        var j :| Recording(s, s.world.sends[k].pair, j);
        assert Recording(s', s'.world.sends[k].pair, j);
      }
    }
    forall j | 0 <= j < |s'.handlers| ensures HolderOk(s', j) && WaiterOk(s', j, d2) {
      assert HolderOk(s, j) && WaiterOk(s, j, d2);
    }
  }

  lemma RecordKeeps(s: State, i: nat, d1: real, d2: real)
    requires Enabled(s, Resume(i)) && s.handlers[i].phase.AtRecord?
    requires Invariant(s, d2) && OnTime(s, d1, d2)
    ensures Invariant(Next(s, Resume(i)), d2)
  {
    var s' := Next(s, Resume(i));
    assert HolderOk(s, i);
    forall k | 0 <= k < |s'.world.sends|
      ensures s'.world.sends[k].pair in s'.world.log || exists j :: Recording(s', s'.world.sends[k].pair, j)
    {
      if s.world.sends[k].pair !in s.world.log {
        var j :| Recording(s, s.world.sends[k].pair, j);
        assert j != i ==> Recording(s', s'.world.sends[k].pair, j);
      }
    }
    forall j | 0 <= j < |s'.handlers| ensures HolderOk(s', j) && WaiterOk(s', j, d2) {
      assert HolderOk(s, j) && WaiterOk(s, j, d2);
    }
  }

  lemma OtherKeeps(s: State, e: Event, d2: real)
    requires Enabled(s, e) && !e.Resume? && Invariant(s, d2)
    ensures Invariant(Next(s, e), d2)
  {
    var s' := Next(s, e);
    forall k | 0 <= k < |s'.world.sends|
      ensures s'.world.sends[k].pair in s'.world.log || exists j :: Recording(s', s'.world.sends[k].pair, j)
    {
      if s.world.sends[k].pair !in s.world.log {
        var j :| Recording(s, s.world.sends[k].pair, j);
        assert Recording(s', s'.world.sends[k].pair, j);
      }
    }
    forall j | 0 <= j < |s'.handlers| ensures HolderOk(s', j) && WaiterOk(s', j, d2) {
      assert j < |s.handlers| ==> HolderOk(s, j) && WaiterOk(s, j, d2);
    }
  }

  lemma StepKeeps(s: State, e: Event, d1: real, d2: real)
    requires 0.0 <= d1 && d1 + d2 <= LOCK_SECONDS
    requires Enabled(s, e) && Invariant(s, d2) && OnTime(s, d1, d2)
    ensures Invariant(Next(s, e), d2)
  {
    match e
    case Resume(i) =>
      if s.handlers[i].phase.AtLock? {
        LockKeeps(s, i, d1, d2);
      } else if s.handlers[i].phase.AtSend? {
        SendKeeps(s, i, d2);
      } else if s.handlers[i].phase.AtRecord? {
        RecordKeeps(s, i, d1, d2);
      } else {
        QuietSteps(s, i);
        QuietKeeps(s, Next(s, e), i, d2);
      }
    case _ => OtherKeeps(s, e, d2);
  }

  lemma {:induction false} RunKeeps(s: State, es: seq<Event>, d1: real, d2: real)
    requires 0.0 <= d1 && d1 + d2 <= LOCK_SECONDS
    requires Run(s, es, Timely(d1, d2)) && Invariant(s, d2)
    ensures Invariant(Final(s, es, Timely(d1, d2)), d2)
    decreases |es|
  {
    if es != [] {
      StepKeeps(s, es[0], d1, d2);
      RunKeeps(Next(s, es[0]), es[1..], d1, d2);
    }
  }

  /** In every timely run no pair is ever sent two replies. */
  lemma AtMostOneReply(s: State, es: seq<Event>, d1: real, d2: real)
    requires 0.0 <= d1 && d1 + d2 <= 60.0
    requires Init(s) && Run(s, es, Timely(d1, d2))
    ensures OneReplyEach(Final(s, es, Timely(d1, d2)))
  {
    RunKeeps(s, es, d1, d2);
  }

  // ----- The bound is sharp

  const Doubled := Message(Pair("acc", 1), true, false, 0.0)

  /** The lock of the pair, taken at time 0, and nothing else. */
  predicate OnlyLock(w: World) {
    w.redis == Redis(map[Lock(Doubled.pair) := 1], map[Lock(Doubled.pair) := LOCK_SECONDS], Fresh.world.redis.hashes)
  }

  /** A message of the pair arrives. */
  lemma Comes(t: State, ok: State -> bool, d1: real, d2: real) returns (t': State)
    requires ok == Timely(d1, d2) && Reaches(Fresh, t, ok) && OnTime(t, d1, d2)
    ensures Reaches(Fresh, t', ok) && OnTime(t', d1, d2)
    ensures t'.handlers == t.handlers + [Handler(Doubled, AtConfig)] && t'.now == t.now && t'.accounts == t.accounts
    ensures t'.world == t.world.(metrics := t'.world.metrics)
  {
    t' := ReachStep(Fresh, t, Arrive(Doubled), ok);
  }

  /** A new handler of the pair runs up to its log read. */
  lemma Approach(t: State, ok: State -> bool, d1: real, d2: real) returns (t': State)
    requires ok == Timely(d1, d2) && Reaches(Fresh, t, ok) && OnTime(t, d1, d2)
    requires t.world.redis.hashes == Fresh.world.redis.hashes
    requires Replied(Doubled.pair) !in t.world.redis.keys && Replied(Doubled.pair) !in t.world.redis.ttls
    ensures Reaches(Fresh, t', ok)
    ensures t'.handlers == t.handlers + [Handler(Doubled, AtLog("hi"))] && t'.now == t.now
    ensures t'.world == t.world.(metrics := t'.world.metrics)
  {
    var n := |t.handlers|;
    var u := Comes(t, ok, d1, d2);
    t' := Advance(Fresh, u, n, u.world, AtMarker("hi"), ok);
    t' := Advance(Fresh, t', n, u.world, AtLog("hi"), ok);
  }

  /** The first handler comes to the lock at time 0. */
  lemma FirstComes(d1: real, d2: real) returns (t: State)
    requires 0.0 <= d1 && 0.0 <= d2
    ensures Reaches(Fresh, t, Timely(d1, d2)) && t.now == 0.0 && t.world == Fresh.world.(metrics := t.world.metrics)
    ensures t.handlers == [Handler(Doubled, AtLock("hi", 0.0))]
  {
    var ok := Timely(d1, d2);
    ReachSelf(Fresh, ok);
    t := Approach(Fresh, ok, d1, d2);
    t := Advance(Fresh, t, 0, t.world, AtCooldown("hi", 0.0), ok);
    t := Advance(Fresh, t, 0, t.world, AtRate("hi", 0.0), ok);
    t := Advance(Fresh, t, 0, t.world, AtLock("hi", 0.0), ok);
  }

  /** And takes it. */
  lemma FirstLocks(d1: real, d2: real) returns (t: State)
    requires 0.0 <= d1 && 0.0 <= d2
    ensures Reaches(Fresh, t, Timely(d1, d2)) && t.now == 0.0 && t.world.log == {} && t.world.sends == []
    ensures t.handlers == [Handler(Doubled, AtSend("hi", 0.0))] && OnlyLock(t.world)
  {
    t := FirstComes(d1, d2);
    var r := Redis(map[Lock(Doubled.pair) := 1], map[Lock(Doubled.pair) := LOCK_SECONDS], t.world.redis.hashes);
    t := Advance(Fresh, t, 0, t.world.(redis := r), AtSend("hi", 0.0), Timely(d1, d2));
  }

  /** A second handler comes and stops before its log read. */
  lemma TwoHandlers(d1: real, d2: real) returns (t: State)
    requires 0.0 <= d1 && 0.0 <= d2
    ensures Reaches(Fresh, t, Timely(d1, d2)) && t.now == 0.0 && t.world.log == {} && t.world.sends == []
    ensures t.handlers == [Handler(Doubled, AtSend("hi", 0.0)), Handler(Doubled, AtLog("hi"))]
    ensures OnlyLock(t.world)
  {
    t := FirstLocks(d1, d2);
    t := Approach(t, Timely(d1, d2), d1, d2);
  }

  /** At time `d2` the second handler finds nothing in the log. */
  lemma SecondReads(d1: real, d2: real) returns (t: State)
    requires 0.0 <= d1 && 0.0 <= d2
    ensures Reaches(Fresh, t, Timely(d1, d2)) && t.now == d2 && t.world.log == {} && t.world.sends == []
    ensures t.handlers == [Handler(Doubled, AtSend("hi", 0.0)), Handler(Doubled, AtCooldown("hi", d2))]
    ensures OnlyLock(t.world)
  {
    var ok := Timely(d1, d2);
    t := TwoHandlers(d1, d2);
    t := ReachStep(Fresh, t, Tick(d2), ok);
    t := ReachStep(Fresh, t, Resume(1), ok);
  }

  /** At time `d2` the second handler misses the log entry by one step. */
  lemma MissedByOne(d1: real, d2: real) returns (t: State)
    requires 0.0 <= d1 && 0.0 <= d2
    ensures Reaches(Fresh, t, Timely(d1, d2)) && t.now == d2 && t.world.sends == [Reply(Doubled.pair, "hi")]
    ensures t.handlers == [Handler(Doubled, AtSetCooldown), Handler(Doubled, AtCooldown("hi", d2))]
    ensures OnlyLock(t.world)
  {
    var ok := Timely(d1, d2);
    t := SecondReads(d1, d2);
    t := ReachStep(Fresh, t, Resume(0), ok);
    t := ReachStep(Fresh, t, Resume(0), ok);
  }

  /** The second handler passes its two rate checks and waits for the lock. */
  lemma AtTheLock(d1: real, d2: real) returns (t: State)
    requires 0.0 <= d1 && 0.0 <= d2
    ensures Reaches(Fresh, t, Timely(d1, d2)) && t.now == d2 && t.world.sends == [Reply(Doubled.pair, "hi")]
    ensures t.handlers == [Handler(Doubled, AtSetCooldown), Handler(Doubled, AtLock("hi", d2))]
    ensures OnlyLock(t.world)
  {
    var ok := Timely(d1, d2);
    t := MissedByOne(d1, d2);
    t := ReachStep(Fresh, t, Resume(1), ok);
    assert t.handlers == [Handler(Doubled, AtSetCooldown), Handler(Doubled, AtRate("hi", d2))];
    t := ReachStep(Fresh, t, Resume(1), ok);
  }

  /** The lock has expired by then, and the second handler takes it. */
  lemma LockAgain(d1: real, d2: real) returns (t: State)
    requires 0.0 <= d1 && 0.0 <= d2 && d1 + d2 > LOCK_SECONDS
    ensures Reaches(Fresh, t, Timely(d1, d2)) && t.world.sends == [Reply(Doubled.pair, "hi")]
    ensures t.now == d1 + d2
    ensures t.handlers == [Handler(Doubled, AtSetCooldown), Handler(Doubled, AtSend("hi", d1 + d2))]
  {
    var ok := Timely(d1, d2);
    t := AtTheLock(d1, d2);
    t := ReachStep(Fresh, t, Tick(d1 + d2), ok);
    t := ReachStep(Fresh, t, Resume(1), ok);
  }

  /** When the delays exceed the lock's life, a timely run sends two replies to one pair. */
  lemma LongDelaysDouble(d1: real, d2: real) returns (t: State)
    requires 0.0 <= d1 && 0.0 <= d2 && d1 + d2 > 60.0
    ensures Reaches(Fresh, t, Timely(d1, d2)) && !OneReplyEach(t)
  {
    var ok := Timely(d1, d2);
    t := LockAgain(d1, d2);
    t := ReachStep(Fresh, t, Resume(1), ok);
    assert t.world.sends[0].pair == t.world.sends[1].pair;
  }

  /** The exact condition: one reply per pair in every timely run, if and only if
      the two delays together fit into the sixty seconds of the lock. */
  lemma OneReplyExactly(d1: real, d2: real)
    requires 0.0 <= d1 && 0.0 <= d2
    ensures (forall s, t :: Init(s) && Reaches(s, t, Timely(d1, d2)) ==> OneReplyEach(t))
            <==> d1 + d2 <= 60.0
  {
    if d1 + d2 <= 60.0 {
      forall s, t | Init(s) && Reaches(s, t, Timely(d1, d2)) ensures OneReplyEach(t) {
        var es :| Run(s, es, Timely(d1, d2)) && Final(s, es, Timely(d1, d2)) == t;
        AtMostOneReply(s, es, d1, d2);
      }
    } else {
      var t := LongDelaysDouble(d1, d2);
      assert Init(Fresh);
    }
  }
}
