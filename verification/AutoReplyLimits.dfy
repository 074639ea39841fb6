/** The hourly cap is read long before the counter moves, under a lock that is
    per sender. So the cap holds only up to the number of handlers of one
    account and hour that are between the two, and that bound is attained. */
module AutoReplyLimits {
  import opened Counting
  import opened AutoReply

  predicate Inside(p: Phase) {
    p.AtLock? || p.AtSend? || p.AtRecord? || p.AtSetCooldown? || p.AtIncr?
  }

  /** The handler has passed the counter check and not yet incremented the counter. */
  function Between(a: string, hour: int): Handler -> bool {
    (h: Handler) =>
      && AccountHour(h.msg) == (a, hour)
      && Inside(h.phase)
  }

  function InFlight(s: State, a: string, hour: int): nat {
    Count(s.handlers, Between(a, hour))
  }

  function CounterOf(w: World, a: string, hour: int): nat {
    if Rate(a, hour) in w.redis.keys then w.redis.keys[Rate(a, hour)] else 0
  }

  function Counter(s: State, a: string, hour: int): nat {
    CounterOf(s.world, a, hour)
  }

  /** At most `k` handlers of this account and hour are between check and increment. */
  function AtMost(a: string, hour: int, k: nat): State -> bool {
    (s: State) => InFlight(s, a, hour) <= k
  }

  ghost predicate Capped(s: State, a: string, hour: int, k: nat) {
    && Rate(a, hour) !in s.world.redis.ttls
    && Counter(s, a, hour) + InFlight(s, a, hour) <= MAX_REPLIES_PER_HOUR - 1 + k
  }

  function ReportOf(w: World, a: string, hour: int): nat {
    if (a, hour) in w.metrics.perHour then w.metrics.perHour[(a, hour)] else 0
  }

  function Reported(s: State, a: string, hour: int): nat {
    ReportOf(s.world, a, hour)
  }

  /** Reading or locking a key may expire it, but the counter has no time to live. */
  lemma Probed(r: Redis, k: Key, q: Key, now: real)
    requires q !in r.ttls && (q != k || q.Rate?)
    ensures var r' := Purge(r, k, now);
            && q !in r'.ttls && (q in r'.keys <==> q in r.keys) && (q in r.keys ==> r'.keys[q] == r.keys[q])
    ensures q != k ==> var r' := SetNxEx(r, k, 1, LOCK_SECONDS, now).0;
            && q !in r'.ttls && (q in r'.keys <==> q in r.keys) && (q in r.keys ==> r'.keys[q] == r.keys[q])
  {
  }

  /** The counter moves by one exactly when a handler of its account and hour increments it. */
  lemma CounterStep(w: World, accounts: map<string, Row>, now: real, m: Message, p: Phase, a: string, hour: int)
    requires !p.Finished? && Rate(a, hour) !in w.redis.ttls
    ensures var w' := Stage(w, accounts, now, m, p).0;
            && Rate(a, hour) !in w'.redis.ttls
            && CounterOf(w', a, hour) == CounterOf(w, a, hour) + Bit(p.AtIncr? && AccountHour(m) == (a, hour))
  {
    if Probing(p) {
      ProbeEffect(w, accounts, now, m, p);
      Probed(w.redis, Replied(m.pair), Rate(a, hour), now);
      Probed(w.redis, Cooldown(m.pair), Rate(a, hour), now);
      Probed(w.redis, RateKey(m), Rate(a, hour), now);
      Probed(w.redis, Lock(m.pair), Rate(a, hour), now);
    }
  }

  /** The hourly report moves by one exactly when such a handler completes. */
  lemma ReportStep(w: World, accounts: map<string, Row>, now: real, m: Message, p: Phase, a: string, hour: int)
    requires !p.Finished?
    ensures var w' := Stage(w, accounts, now, m, p).0;
            ReportOf(w', a, hour) == ReportOf(w, a, hour) + Bit(p.AtSetMarker? && AccountHour(m) == (a, hour))
  {
  }

  /** A handler gets in between only through the counter check, and leaves by the increment or by giving up. */
  lemma Passage(s: State, i: nat)
    requires Enabled(s, Resume(i))
    ensures var h, h' := s.handlers[i], Next(s, Resume(i)).handlers[i];
            && (Inside(h'.phase) && !Inside(h.phase) ==> h.phase.AtRate?)
            && (h.phase.AtRate? && Inside(h'.phase) && RateKey(h.msg) !in s.world.redis.ttls ==>
                  Counter(s, h.msg.pair.account, HourOf(h.msg.simTime)) < MAX_REPLIES_PER_HOUR)
            && (h'.phase.AtSetMarker? <==> h.phase.AtIncr?)
  {
  }

  /** A step of handler `i` changes a count of handlers by what it changes of that handler. */
  lemma ResumeCount(s: State, i: nat, p: Handler -> bool)
    requires Enabled(s, Resume(i))
    ensures var s' := Next(s, Resume(i));
            |s'.handlers| == |s.handlers| && s'.handlers[i].msg == s.handlers[i].msg
            && Count(s'.handlers, p) + Bit(p(s.handlers[i])) == Count(s.handlers, p) + Bit(p(s'.handlers[i]))
  {
    CountUpdate(s.handlers, i, Next(s, Resume(i)).handlers[i], p);
  }

  /** A message that arrives is not yet in between, and reports nothing. */
  lemma ArriveCount(s: State, m: Message, a: string, hour: int)
    ensures var t := Next(s, Arrive(m));
            && Count(t.handlers, Between(a, hour)) == Count(s.handlers, Between(a, hour))
            && Count(t.handlers, Reporting(a, hour)) == Count(s.handlers, Reporting(a, hour))
            && t.world == s.world.(metrics := t.world.metrics) && t.world.metrics.perHour == s.world.metrics.perHour
  {
    var h := Handler(m, Arrival(s.world, m).1);
    assert h.phase.AtConfig? || h.phase.Finished?;
    CountAppend(s.handlers, h, Between(a, hour));
    CountAppend(s.handlers, h, Reporting(a, hour));
  }

  lemma ResumeCapped(s: State, i: nat, a: string, hour: int, k: nat)
    requires Enabled(s, Resume(i)) && Capped(s, a, hour, k) && AtMost(a, hour, k)(Next(s, Resume(i)))
    ensures Capped(Next(s, Resume(i)), a, hour, k)
  {
    var h := s.handlers[i];
    CounterStep(s.world, s.accounts, s.now, h.msg, h.phase, a, hour);
    Passage(s, i);
    ResumeCount(s, i, Between(a, hour));
  }

  lemma ArriveCapped(s: State, m: Message, a: string, hour: int, k: nat)
    requires Capped(s, a, hour, k)
    ensures Capped(Next(s, Arrive(m)), a, hour, k)
  {
    ArriveCount(s, m, a, hour);
  }

  lemma StepKeeps(s: State, e: Event, a: string, hour: int, k: nat)
    requires Enabled(s, e) && Capped(s, a, hour, k) && AtMost(a, hour, k)(Next(s, e))
    ensures Capped(Next(s, e), a, hour, k)
  {
    if e.Resume? {
      ResumeCapped(s, e.id, a, hour, k);
    } else if e.Arrive? {
      ArriveCapped(s, e.msg, a, hour, k);
    }
  }

  lemma {:induction false} RunKeeps(s: State, es: seq<Event>, a: string, hour: int, k: nat)
    requires Run(s, es, AtMost(a, hour, k)) && Capped(s, a, hour, k)
    ensures Capped(Final(s, es, AtMost(a, hour, k)), a, hour, k)
    decreases |es|
  {
    if es != [] {
      StepKeeps(s, es[0], a, hour, k);
      RunKeeps(Next(s, es[0]), es[1..], a, hour, k);
    }
  }

  /** In every reachable state the counter plus the handlers in between is at most 29 + k. */
  lemma HourlyCap(s: State, t: State, a: string, hour: int, k: nat)
    requires Init(s) && Reaches(s, t, AtMost(a, hour, k))
    ensures Counter(t, a, hour) + InFlight(t, a, hour) <= 29 + k
  {
    var es :| Run(s, es, AtMost(a, hour, k)) && Final(s, es, AtMost(a, hour, k)) == t;
    RunKeeps(s, es, a, hour, k);
  }

  // ----- What the counter counts

  /** The handler has incremented the counter of this account and hour. */
  function Counted(a: string, hour: int): Handler -> bool {
    (h: Handler) => AccountHour(h.msg) == (a, hour) && (h.phase.AtSetMarker? || h.phase == Finished(Sent))
  }

  ghost predicate Tallied(s: State, a: string, hour: int) {
    Rate(a, hour) !in s.world.redis.ttls && Counter(s, a, hour) == Count(s.handlers, Counted(a, hour))
  }

  /** Only a handler that has counted its reply ends as sent. */
  lemma SentPassage(s: State, i: nat)
    requires Enabled(s, Resume(i))
    ensures var p, p' := s.handlers[i].phase, Next(s, Resume(i)).handlers[i].phase;
            && (p' == Finished(Sent) <==> p.AtSetMarker?) && (p'.AtSetMarker? <==> p.AtIncr?)
  {
  }

  lemma TalliedStep(s: State, e: Event, a: string, hour: int)
    requires Enabled(s, e) && Tallied(s, a, hour)
    ensures Tallied(Next(s, e), a, hour)
  {
    if e.Resume? {
      var h := s.handlers[e.id];
      CounterStep(s.world, s.accounts, s.now, h.msg, h.phase, a, hour);
      SentPassage(s, e.id);
      ResumeCount(s, e.id, Counted(a, hour));
    } else if e.Arrive? {
      var h := Handler(e.msg, Arrival(s.world, e.msg).1);
      assert h.phase.AtConfig? || (h.phase.Finished? && h.phase.outcome != Sent);
      CountAppend(s.handlers, h, Counted(a, hour));
      ArriveCount(s, e.msg, a, hour);
    }
  }

  lemma {:induction false} TalliedRun(s: State, es: seq<Event>, ok: State -> bool, a: string, hour: int)
    requires Run(s, es, ok) && Tallied(s, a, hour)
    ensures Tallied(Final(s, es, ok), a, hour)
    decreases |es|
  {
    if es != [] {
      TalliedStep(s, es[0], a, hour);
      TalliedRun(Next(s, es[0]), es[1..], ok, a, hour);
    }
  }

  /** The hour, from its first second to just before the next one's. */
  predicate InWindow(simTime: real, hour: int) {
    3600.0 * hour as real <= simTime < 3600.0 * (hour + 1) as real
  }

  /** The handler has sent a reply of this account to a message of these 3600 seconds. */
  function RepliedIn(a: string, hour: int): Handler -> bool {
    (h: Handler) =>
      && h.phase == Finished(Sent) && h.msg.pair.account == a
      && InWindow(h.msg.simTime, hour)
  }

  lemma {:induction false} RepliesAreCounted(hs: seq<Handler>, a: string, hour: int)
    ensures Count(hs, RepliedIn(a, hour)) <= Count(hs, Counted(a, hour))
  {
    if hs != [] {
      RepliesAreCounted(hs[..|hs| - 1], a, hour);
      HourExactly(hs[|hs| - 1].msg.simTime, hour);
    }
  }

  /** Read off the handlers and the clock of the messages alone: to the messages of one
      account in any window of 3600 seconds that starts at a full hour, at most 29 + k
      replies are completed. */
  lemma RepliesPerWindow(s: State, t: State, a: string, hour: int, k: nat)
    requires Init(s) && Reaches(s, t, AtMost(a, hour, k))
    ensures Count(t.handlers, RepliedIn(a, hour)) <= 29 + k
  {
    var es :| Run(s, es, AtMost(a, hour, k)) && Final(s, es, AtMost(a, hour, k)) == t;
    HourlyCap(s, t, a, hour, k);
    TalliedRun(s, es, AtMost(a, hour, k), a, hour);
    RepliesAreCounted(t.handlers, a, hour);
  }

  /** Two messages share a rate key exactly when they are of one account and one such window. */
  lemma RateKeyExactly(m: Message, n: Message)
    ensures RateKey(m) == RateKey(n) <==>
            && m.pair.account == n.pair.account
            && exists hour: int :: InWindow(m.simTime, hour) && InWindow(n.simTime, hour)
  {
    HourExactly(m.simTime, HourOf(m.simTime));
    HourExactly(n.simTime, HourOf(n.simTime));
    assert InWindow(m.simTime, HourOf(m.simTime)) && InWindow(n.simTime, HourOf(n.simTime));
    forall hour: int | InWindow(m.simTime, hour) && InWindow(n.simTime, hour) ensures HourOf(m.simTime) == HourOf(n.simTime) {
      HourExactly(m.simTime, hour);
      HourExactly(n.simTime, hour);
    }
  }

  // ----- The metric that must stay zero

  /** Handlers that have incremented the counter and not yet reported. */
  function Reporting(a: string, hour: int): Handler -> bool {
    (h: Handler) => AccountHour(h.msg) == (a, hour) && h.phase.AtSetMarker?
  }

  ghost predicate SoloEverywhere(s: State) {
    forall a, hour :: AtMost(a, hour, 1)(s)
  }

  ghost function Solo(): State -> bool {
    (s: State) => SoloEverywhere(s)
  }

  ghost predicate Honest(s: State, a: string, hour: int) {
    Capped(s, a, hour, 1) && Ahead(s, a, hour)
  }

  ghost predicate Clean(s: State) {
    && s.world.metrics.hourlyViolations == 0
    && forall a, hour :: Honest(s, a, hour)
  }

  /** The counter is ahead of the report by the handlers that have yet to report. */
  ghost predicate Ahead(s: State, a: string, hour: int) {
    Counter(s, a, hour) == Reported(s, a, hour) + Count(s.handlers, Reporting(a, hour))
  }

  lemma ResumeAhead(s: State, i: nat, a: string, hour: int)
    requires Enabled(s, Resume(i)) && Ahead(s, a, hour) && Rate(a, hour) !in s.world.redis.ttls
    ensures Ahead(Next(s, Resume(i)), a, hour)
  {
    var h := s.handlers[i];
    CounterStep(s.world, s.accounts, s.now, h.msg, h.phase, a, hour);
    ReportStep(s.world, s.accounts, s.now, h.msg, h.phase, a, hour);
    Passage(s, i);
    ResumeCount(s, i, Reporting(a, hour));
  }

  lemma HonestStep(s: State, e: Event, a: string, hour: int)
    requires Enabled(s, e) && Honest(s, a, hour) && AtMost(a, hour, 1)(Next(s, e))
    ensures Honest(Next(s, e), a, hour)
  {
    StepKeeps(s, e, a, hour, 1);
    if e.Resume? {
      ResumeAhead(s, e.id, a, hour);
    } else if e.Arrive? {
      ArriveCount(s, e.msg, a, hour);
    }
  }

  lemma CleanStep(s: State, e: Event)
    requires Enabled(s, e) && Clean(s) && SoloEverywhere(Next(s, e))
    ensures Clean(Next(s, e))
  {
    var s' := Next(s, e);
    forall a, hour ensures Honest(s', a, hour) {
      assert AtMost(a, hour, 1)(s') && Honest(s, a, hour);
      HonestStep(s, e, a, hour);
    }
    if e.Resume? && s.handlers[e.id].phase.AtSetMarker? {
      var (a, hour) := AccountHour(s.handlers[e.id].msg);
      assert Honest(s', a, hour);
    }
  }

  lemma {:induction false} CleanRun(s: State, es: seq<Event>)
    requires Run(s, es, Solo()) && Clean(s)
    ensures Clean(Final(s, es, Solo()))
    decreases |es|
  {
    if es != [] {
      assert Run(Next(s, es[0]), es[1..], Solo());
      assert Solo()(Next(s, es[0]));
      CleanStep(s, es[0]);
      CleanRun(Next(s, es[0]), es[1..]);
    }
  }

  /** With one handler at a time in between, the cap of 30 is never violated. */
  lemma NoHourlyViolation(s: State, t: State)
    requires Init(s) && Reaches(s, t, Solo())
    ensures t.world.metrics.hourlyViolations == 0
    ensures forall a, hour :: Counter(t, a, hour) <= 30
  {
    var es :| Run(s, es, Solo()) && Final(s, es, Solo()) == t;
    forall a, hour ensures Honest(s, a, hour) {
    }
    CleanRun(s, es);
    forall a, hour ensures Counter(t, a, hour) <= MAX_REPLIES_PER_HOUR {
      assert Honest(t, a, hour);
    }
  }

  // ----- The bound is attained

  /** The j-th message comes from a sender of its own. */
  function Nth(j: nat): Message {
    Message(Pair("acc", -1 - j), true, false, 0.0)
  }

  /** The counter and the report stand at `c`, and only the first `n` senders have left traces. */
  ghost predicate Traces(w: World, c: int, n: int) {
    && w.redis.hashes == Fresh.world.redis.hashes
    && (forall q :: (q in w.redis.keys || q in w.redis.ttls) && !q.Rate? ==> q.pair.sender >= -n)
    && (forall p :: p in w.log ==> p.sender >= -n)
    && Rate("acc", 0) !in w.redis.ttls
    && CounterOf(w, "acc", 0) == c && ReportOf(w, "acc", 0) == c
    && w.metrics.hourlyViolations == if c > MAX_REPLIES_PER_HOUR then c - MAX_REPLIES_PER_HOUR else 0
  }

  /** A newcomer gets from the config read to the lock, changing nothing. */
  lemma EnterStages(w: World, n: nat, c: nat)
    requires Traces(w, c, c) && c < MAX_REPLIES_PER_HOUR && c <= n
    ensures Walk(w, Fresh.accounts, 0.0, Nth(n), AtConfig, 5) == (w, AtLock("hi", 0.0))
  {
    var m, acc := Nth(n), Fresh.accounts;
    assert Stage(w, acc, 0.0, m, AtConfig) == (w, AtMarker("hi"));
    assert Stage(w, acc, 0.0, m, AtMarker("hi")) == (w, AtLog("hi"));
    assert Stage(w, acc, 0.0, m, AtLog("hi")) == (w, AtCooldown("hi", 0.0));
    assert Stage(w, acc, 0.0, m, AtCooldown("hi", 0.0)) == (w, AtRate("hi", 0.0));
    assert Stage(w, acc, 0.0, m, AtRate("hi", 0.0)) == (w, AtLock("hi", 0.0));
    assert Walk(w, acc, 0.0, m, AtRate("hi", 0.0), 1) == (w, AtLock("hi", 0.0));
    assert Walk(w, acc, 0.0, m, AtCooldown("hi", 0.0), 2) == (w, AtLock("hi", 0.0));
    assert Walk(w, acc, 0.0, m, AtLog("hi"), 3) == (w, AtLock("hi", 0.0));
    assert Walk(w, acc, 0.0, m, AtMarker("hi"), 4) == (w, AtLock("hi", 0.0));
  }

  /** From the lock to the log entry. */
  lemma SendStages(w: World, c: nat) returns (w': World)
    requires Traces(w, c, c)
    ensures Walk(w, Fresh.accounts, 0.0, Nth(c), AtLock("hi", 0.0), 3) == (w', AtSetCooldown)
    ensures Traces(w', c, c + 1)
  {
    var m, acc := Nth(c), Fresh.accounts;
    var w1 := Stage(w, acc, 0.0, m, AtLock("hi", 0.0)).0;
    var w2 := Stage(w1, acc, 0.0, m, AtSend("hi", 0.0)).0;
    w' := Stage(w2, acc, 0.0, m, AtRecord(0.0)).0;
    assert Walk(w2, acc, 0.0, m, AtRecord(0.0), 1) == (w', AtSetCooldown);
    assert Walk(w1, acc, 0.0, m, AtSend("hi", 0.0), 2) == (w', AtSetCooldown);
  }

  /** Writing the cooldown leaves no new traces. */
  lemma CoolStage(w: World, c: nat)
    requires Traces(w, c, c + 1)
    ensures Traces(WriteCooldown(w, Nth(c).pair, 0.0).0, c, c + 1)
  {
  }

  /** Counting and reporting move both numbers on. */
  lemma CountStages(w: World, c: nat)
    requires Traces(w, c, c + 1)
    ensures Traces(Complete(WriteRate(w, RateKey(Nth(c))).0, Nth(c), 0.0).0, c + 1, c + 1)
  {
  }

  /** From the log entry to the report. */
  lemma ReportStages(w: World, c: nat) returns (w': World)
    requires Traces(w, c, c + 1)
    ensures Walk(w, Fresh.accounts, 0.0, Nth(c), AtSetCooldown, 3) == (w', Finished(Sent))
    ensures Traces(w', c + 1, c + 1)
  {
    var m, acc := Nth(c), Fresh.accounts;
    var w1 := WriteCooldown(w, m.pair, 0.0).0;
    CoolStage(w, c);
    CountStages(w1, c);
    var w2 := WriteRate(w1, RateKey(m)).0;
    w' := Complete(w2, m, 0.0).0;
    assert Walk(w2, acc, 0.0, m, AtSetMarker, 1) == (w', Finished(Sent));
    assert Walk(w1, acc, 0.0, m, AtIncr, 2) == (w', Finished(Sent));
  }

  /** `n` handlers have passed the counter check and the first `c` of them are done. */
  ghost predicate Lined(t: State, n: nat, c: nat) {
    && t.now == 0.0 && t.accounts == Fresh.accounts && Traces(t.world, c, c)
    && c <= n == |t.handlers|
    && (forall j :: c <= j < n ==> t.handlers[j] == Handler(Nth(j), AtLock("hi", 0.0)))
    && InFlight(t, "acc", 0) == n - c
  }

  ghost predicate Arranged(n: nat, c: nat, k: nat) {
    exists t :: Reaches(Fresh, t, AtMost("acc", 0, k)) && Lined(t, n, c)
  }

  /** Wherever handler `i` goes, the bound on the handlers in between is kept. */
  lemma Roams(t: State, i: nat, k: nat)
    requires i < |t.handlers| && InFlight(t, "acc", 0) + Bit(!Inside(t.handlers[i].phase)) <= k
    requires AccountHour(t.handlers[i].msg) == ("acc", 0)
    ensures forall w, p :: AtMost("acc", 0, k)(Put(t, i, w, p))
  {
    forall w, p ensures AtMost("acc", 0, k)(Put(t, i, w, p)) {
      CountUpdate(t.handlers, i, t.handlers[i].(phase := p), Between("acc", 0));
    }
  }

  lemma Arrived(t: State, n: nat, c: nat, k: nat) returns (u: State)
    requires Reaches(Fresh, t, AtMost("acc", 0, k)) && Lined(t, n, c) && n + 1 - c <= k
    ensures Reaches(Fresh, u, AtMost("acc", 0, k)) && u == Next(t, Arrive(Nth(n)))
    ensures u.handlers == t.handlers + [Handler(Nth(n), AtConfig)] && InFlight(u, "acc", 0) == n - c
    ensures Traces(u.world, c, c) && u.now == 0.0 && u.accounts == Fresh.accounts
  {
    ArriveCount(t, Nth(n), "acc", 0);
    u := ReachStep(Fresh, t, Arrive(Nth(n)), AtMost("acc", 0, k));
  }

  lemma Passes(u: State, n: nat, c: nat, k: nat) returns (v: State)
    requires Reaches(Fresh, u, AtMost("acc", 0, k)) && Traces(u.world, c, c)
    requires u.now == 0.0 && u.accounts == Fresh.accounts && InFlight(u, "acc", 0) == n - c < k
    requires c < MAX_REPLIES_PER_HOUR && c <= n < |u.handlers| && u.handlers[n] == Handler(Nth(n), AtConfig)
    ensures Reaches(Fresh, v, AtMost("acc", 0, k))
    ensures v == Put(u, n, u.world, AtLock("hi", 0.0)) && InFlight(v, "acc", 0) == n + 1 - c
  {
    Roams(u, n, k);
    EnterStages(u.world, n, c);
    v := WalkReaches(Fresh, u, n, 5, AtMost("acc", 0, k));
    CountUpdate(u.handlers, n, v.handlers[n], Between("acc", 0));
  }

  lemma LineGrows(t: State, v: State, n: nat, c: nat)
    requires Lined(t, n, c) && Traces(v.world, c, c) && InFlight(v, "acc", 0) == n + 1 - c
    requires v.now == t.now && v.accounts == t.accounts && v.handlers == t.handlers + [Handler(Nth(n), AtLock("hi", 0.0))]
    ensures Lined(v, n + 1, c)
  {
  }

  lemma OneEnters(t: State, n: nat, c: nat, k: nat) returns (v: State)
    requires Reaches(Fresh, t, AtMost("acc", 0, k)) && Lined(t, n, c) && c < MAX_REPLIES_PER_HOUR && n + 1 - c <= k
    ensures Reaches(Fresh, v, AtMost("acc", 0, k)) && Lined(v, n + 1, c)
  {
    var u := Arrived(t, n, c, k);
    v := Passes(u, n, c, k);
    assert v.handlers == t.handlers + [Handler(Nth(n), AtLock("hi", 0.0))];
    LineGrows(t, v, n, c);
  }

  /** One more handler passes the check, as long as the counter is below the cap. */
  lemma Enter(n: nat, c: nat, k: nat)
    requires Arranged(n, c, k) && c < MAX_REPLIES_PER_HOUR && n + 1 - c <= k
    ensures Arranged(n + 1, c, k)
  {
    var ok := AtMost("acc", 0, k);
    var t :| Reaches(Fresh, t, ok) && Lined(t, n, c);
    var v := OneEnters(t, n, c, k);
  }

  lemma Sends(t: State, n: nat, c: nat, k: nat) returns (u: State)
    requires Reaches(Fresh, t, AtMost("acc", 0, k)) && Lined(t, n, c) && c < n && n - c <= k
    ensures Reaches(Fresh, u, AtMost("acc", 0, k)) && Traces(u.world, c, c + 1)
    ensures u == Put(t, c, u.world, AtSetCooldown) && InFlight(u, "acc", 0) == n - c
  {
    Roams(t, c, k);
    var w := SendStages(t.world, c);
    u := WalkReaches(Fresh, t, c, 3, AtMost("acc", 0, k));
    CountUpdate(t.handlers, c, u.handlers[c], Between("acc", 0));
  }

  lemma Reports(u: State, n: nat, c: nat, k: nat) returns (v: State)
    requires Reaches(Fresh, u, AtMost("acc", 0, k)) && Traces(u.world, c, c + 1)
    requires u.now == 0.0 && u.accounts == Fresh.accounts && InFlight(u, "acc", 0) == n - c <= k
    requires c < |u.handlers| && u.handlers[c] == Handler(Nth(c), AtSetCooldown)
    ensures Reaches(Fresh, v, AtMost("acc", 0, k)) && Traces(v.world, c + 1, c + 1)
    ensures v == Put(u, c, v.world, Finished(Sent)) && InFlight(v, "acc", 0) == n - c - 1
  {
    Roams(u, c, k);
    var w := ReportStages(u.world, c);
    v := WalkReaches(Fresh, u, c, 3, AtMost("acc", 0, k));
    CountUpdate(u.handlers, c, v.handlers[c], Between("acc", 0));
  }

  lemma LineMoves(t: State, v: State, n: nat, c: nat)
    requires Lined(t, n, c) && c < n && Traces(v.world, c + 1, c + 1) && InFlight(v, "acc", 0) == n - c - 1
    requires v == Put(t, c, v.world, Finished(Sent))
    ensures Lined(v, n, c + 1)
  {
  }

  lemma OneFinishes(t: State, n: nat, c: nat, k: nat) returns (v: State)
    requires Reaches(Fresh, t, AtMost("acc", 0, k)) && Lined(t, n, c) && c < n && n - c <= k
    ensures Reaches(Fresh, v, AtMost("acc", 0, k)) && Lined(v, n, c + 1)
  {
    var u := Sends(t, n, c, k);
    v := Reports(u, n, c, k);
    assert v == Put(t, c, v.world, Finished(Sent));
    LineMoves(t, v, n, c);
  }

  /** The first unfinished handler sends, records, counts and reports. */
  lemma Finish(n: nat, c: nat, k: nat)
    requires Arranged(n, c, k) && c < n && n - c <= k
    ensures Arranged(n, c + 1, k)
  {
    var ok := AtMost("acc", 0, k);
    var t :| Reaches(Fresh, t, ok) && Lined(t, n, c);
    var v := OneFinishes(t, n, c, k);
  }

  lemma {:induction false} OneByOne(c: nat, k: nat)
    requires k >= 1 && c <= MAX_REPLIES_PER_HOUR
    ensures Arranged(c, c, k)
  {
    if c == 0 {
      ReachSelf(Fresh, AtMost("acc", 0, k));
      assert Lined(Fresh, 0, 0);
    } else {
      OneByOne(c - 1, k);
      Enter(c - 1, c - 1, k);
      Finish(c, c - 1, k);
    }
  }

  lemma {:induction false} AllEnter(n: nat, k: nat)
    requires 1 <= k && n <= k
    ensures Arranged(29 + n, 29, k)
  {
    if n == 0 {
      OneByOne(29, k);
    } else {
      AllEnter(n - 1, k);
      Enter(28 + n, 29, k);
    }
  }

  lemma {:induction false} AllFinish(n: nat, k: nat)
    requires 1 <= k && n <= k
    ensures Arranged(29 + k, 29 + n, k)
  {
    if n == 0 {
      AllEnter(k, k);
    } else {
      AllFinish(n - 1, k);
      Finish(29 + k, 28 + n, k);
    }
  }

  /** The bound 29 + k is reached for every k, with k - 1 reported violations. */
  lemma HourlyCapAttained(k: nat) returns (t: State)
    requires k >= 1
    ensures Init(Fresh) && Reaches(Fresh, t, AtMost("acc", 0, k))
    ensures Counter(t, "acc", 0) == 29 + k
    ensures t.world.metrics.hourlyViolations == k - 1
  {
    AllFinish(k, k);
    t :| Reaches(Fresh, t, AtMost("acc", 0, k)) && Lined(t, 29 + k, 29 + k);
  }

  /** The cap of 30 holds for an account and hour in every run, if and only if at
      most one of its handlers may be between the check and the increment. */
  lemma HourlyCapExactly(k: nat)
    ensures (forall s, t, a, hour :: Init(s) && Reaches(s, t, AtMost(a, hour, k)) ==>
               Counter(t, a, hour) <= 30)
            <==> k <= 1
  {
    if k <= 1 {
      forall s, t, a, hour | Init(s) && Reaches(s, t, AtMost(a, hour, k))
        ensures Counter(t, a, hour) <= 30
      {
        HourlyCap(s, t, a, hour, k);
      }
    } else {
      var t := HourlyCapAttained(k);
    }
  }
}
