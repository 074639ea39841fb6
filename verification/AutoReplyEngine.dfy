/** The objects of the pipeline: Redis and the reply log change in place, and a
    suspended handler resumes for one stage at a time. Every method is proved
    against the function on values that the protocol is stated with. */
module AutoReplyEngine {
  import opened Options
  import opened Counting
  import opened AutoReply
  import opened AutoReplySafety
  import opened AutoReplyBooks

  class MockRedis {
    var keys: map<Key, nat>
    var ttls: map<Key, real>
    var hashes: map<string, Config>

    ghost function Value(): Redis
      reads this
    {
      Redis(keys, ttls, hashes)
    }

    constructor ()
      ensures Value() == Redis(map[], map[], map[])
    {
      keys, ttls, hashes := map[], map[], map[];
    }

    /** Drops the key when its time to live has passed. */
    method DropExpired(key: Key, now: real)
      modifies this
      ensures Value() == Purge(old(Value()), key, now)
    {
      if key in ttls && now > ttls[key] {
        keys := keys - {key};
        ttls := ttls - {key};
      }
    }

    method GetKey(key: Key, now: real) returns (value: Option<nat>)
      modifies this
      ensures (Value(), value) == Get(old(Value()), key, now)
    {
      DropExpired(key, now);
      value := if key in keys then Some(keys[key]) else None;
    }

    method HasKey(key: Key, now: real) returns (found: bool)
      modifies this
      ensures (Value(), found) == Exists(old(Value()), key, now)
    {
      DropExpired(key, now);
      found := key in keys;
    }

    method SetIfAbsent(key: Key, value: nat, ex: real, now: real) returns (acquired: bool)
      modifies this
      ensures (Value(), acquired) == SetNxEx(old(Value()), key, value, ex, now)
    {
      DropExpired(key, now);
      if key in keys {
        return false;
      }
      keys := keys[key := value];
      ttls := ttls[key := now + ex];
      return true;
    }

    method SetWithExpiry(key: Key, ex: real, value: nat, now: real)
      modifies this
      ensures Value() == SetEx(old(Value()), key, ex, value, now)
    {
      keys := keys[key := value];
      ttls := ttls[key := now + ex];
    }

    method Increment(key: Key)
      modifies this
      ensures Value() == Incr(old(Value()), key)
    {
      keys := keys[key := (if key in keys then keys[key] else 0) + 1];
    }

    method SetHash(account: string, config: Config)
      modifies this
      ensures Value() == HSet(old(Value()), account, config)
    {
      hashes := hashes[account := config];
    }
  }

  class MockDatabase {
    const accounts: map<string, Row>
    var replyLogs: set<Pair>

    constructor (accounts: map<string, Row>)
      ensures this.accounts == accounts && replyLogs == {}
    {
      this.accounts := accounts;
      replyLogs := {};
    }

    /** The unique key of the log: the second insert of a pair is refused. */
    method RecordReply(pair: Pair) returns (inserted: bool)
      modifies this
      ensures inserted <==> pair !in old(replyLogs)
      ensures replyLogs == old(replyLogs) + {pair}
    {
      inserted := pair !in replyLogs;
      if inserted {
        replyLogs := replyLogs + {pair};
      }
    }
  }

  class Engine {
    const redis: MockRedis
    const db: MockDatabase
    var metrics: Metrics
    ghost var sends: seq<Reply>
    ghost var attempts: nat

    constructor (redis: MockRedis, db: MockDatabase)
      ensures this.redis == redis && this.db == db
      ensures metrics == NoMetrics && sends == [] && attempts == 0
    {
      this.redis, this.db := redis, db;
      metrics, sends, attempts := NoMetrics, [], 0;
    }

    ghost function Shared(): World
      reads this, redis, db
    {
      World(redis.Value(), db.replyLogs, metrics, sends, attempts)
    }

    method Finish(outcome: Outcome) returns (next: Phase)
      modifies this`metrics
      ensures (Shared(), next) == Quit(old(Shared()), outcome)
    {
      metrics := metrics.(tally := Score(metrics.tally, outcome));
      next := Finished(outcome);
    }

    method Accept(m: Message) returns (next: Phase)
      modifies this`metrics
      ensures (Shared(), next) == Arrival(old(Shared()), m)
    {
      metrics := metrics.(total := metrics.total + 1);
      if !m.isPrivate {
        next := Finish(GroupFiltered);
      } else if m.isBot || m.pair.sender in SERVICE_BOT_IDS {
        next := Finish(ServiceFiltered);
      } else {
        next := AtConfig;
      }
    }

    method Judge(enabled: bool, text: string) returns (next: Phase)
      modifies this`metrics
      ensures (Shared(), next) == Decide(old(Shared()), enabled, text)
    {
      if !enabled || text == "" {
        next := Finish(Disabled);
      } else {
        next := AtMarker(text);
      }
    }

    /** The config, from Redis or from the database with write-back. */
    method Configure(m: Message, phase: Phase, now: real) returns (next: Phase)
      requires phase.AtConfig? || phase.AtAccount? || phase.AtCache?
      modifies this`metrics, redis
      ensures (Shared(), next) == Stage(old(Shared()), db.accounts, now, m, phase)
    {
      var a := m.pair.account;
      match phase
      case AtConfig =>
        if a in redis.hashes {
          next := Judge(redis.hashes[a].enabled == "True", redis.hashes[a].text);
        } else {
          next := AtAccount;
        }
      case AtAccount =>
        if a in db.accounts {
          next := AtCache(db.accounts[a]);
        } else {
          next := Finish(UnknownAccount);
        }
      case AtCache(row) =>
        redis.SetHash(a, CacheOf(row));
        next := Judge(row.enabled, Text(row.text));
    }

    /** The two duplicate checks. */
    method Screen(m: Message, phase: Phase, now: real) returns (next: Phase)
      requires phase.AtMarker? || phase.AtLog? || phase.AtMark?
      modifies this`metrics, redis
      ensures (Shared(), next) == Stage(old(Shared()), db.accounts, now, m, phase)
    {
      match phase
      case AtMarker(text) =>
        var found := redis.HasKey(Replied(m.pair), now);
        if found {
          next := Finish(DuplicateInRedis);
        } else {
          next := AtLog(text);
        }
      case AtLog(text) =>
        next := if m.pair in db.replyLogs then AtMark else AtCooldown(text, now);
      case AtMark =>
        redis.SetWithExpiry(Replied(m.pair), MARKER_SECONDS, 1, now);
        next := Finish(DuplicateInLog);
    }

    /** Cooldown and hourly limit. */
    method CheckRateLimit(m: Message, phase: Phase, now: real) returns (next: Phase)
      requires phase.AtCooldown? || phase.AtRate?
      modifies this`metrics, redis
      ensures (Shared(), next) == Stage(old(Shared()), db.accounts, now, m, phase)
    {
      match phase
      case AtCooldown(text, readAt) =>
        var found := redis.HasKey(Cooldown(m.pair), now);
        if found {
          next := Finish(RateLimited);
        } else {
          next := AtRate(text, readAt);
        }
      case AtRate(text, readAt) =>
        var count := redis.GetKey(RateKey(m), now);
        if count.Some? && count.value >= MAX_REPLIES_PER_HOUR {
          next := Finish(RateLimited);
        } else {
          next := AtLock(text, readAt);
        }
    }

    /** Lock, send and record. */
    method Deliver(m: Message, phase: Phase, now: real) returns (next: Phase)
      requires phase.AtLock? || phase.AtSend? || phase.AtRecord?
      modifies this, redis, db
      ensures (Shared(), next) == Stage(old(Shared()), db.accounts, now, m, phase)
    {
      match phase
      case AtLock(text, _) =>
        var acquired := redis.SetIfAbsent(Lock(m.pair), 1, LOCK_SECONDS, now);
        if acquired {
          next := AtSend(text, now);
        } else {
          next := Finish(LockTaken);
        }
      case AtSend(text, lockedAt) =>
        sends := sends + [Reply(m.pair, text)];
        next := AtRecord(lockedAt);
      case AtRecord(_) =>
        attempts := attempts + 1;
        var inserted := db.RecordReply(m.pair);
        if inserted {
          next := AtSetCooldown;
        } else {
          assert db.replyLogs == old(db.replyLogs);
          metrics := metrics.(dedupViolations := metrics.dedupViolations + 1);
          next := Finish(Violation);
        }
    }

    /** The metrics of a reply that went through. */
    method Report(m: Message)
      modifies this`metrics
      ensures metrics == old(metrics).(
              perPair := Bump(old(metrics).perPair, m.pair),
              perHour := Bump(old(metrics).perHour, AccountHour(m)),
              dedupViolations := metrics.dedupViolations, hourlyViolations := metrics.hourlyViolations)
      ensures metrics.dedupViolations == old(metrics).dedupViolations + Bit(metrics.perPair[m.pair] > 1)
      ensures metrics.hourlyViolations ==
              old(metrics).hourlyViolations + Bit(metrics.perHour[AccountHour(m)] > MAX_REPLIES_PER_HOUR)
    {
      metrics := metrics.(perPair := Bump(metrics.perPair, m.pair));
      if metrics.perPair[m.pair] > 1 {
        metrics := metrics.(dedupViolations := metrics.dedupViolations + 1);
      }
      metrics := metrics.(perHour := Bump(metrics.perHour, AccountHour(m)));
      if metrics.perHour[AccountHour(m)] > MAX_REPLIES_PER_HOUR {
        metrics := metrics.(hourlyViolations := metrics.hourlyViolations + 1);
      }
    }

    /** Cooldown, counter and marker, after the log entry. */
    method RecordInRedis(m: Message, phase: Phase, now: real) returns (next: Phase)
      requires phase.AtSetCooldown? || phase.AtIncr? || phase.AtSetMarker?
      modifies this`metrics, redis
      ensures (Shared(), next) == Stage(old(Shared()), db.accounts, now, m, phase)
    {
      match phase
      case AtSetCooldown =>
        redis.SetWithExpiry(Cooldown(m.pair), COOLDOWN_SECONDS, 1, now);
        next := AtIncr;
      case AtIncr =>
        redis.Increment(RateKey(m));
        next := AtSetMarker;
      case AtSetMarker =>
        redis.SetWithExpiry(Replied(m.pair), MARKER_SECONDS, 1, now);
        Report(m);
        next := Finish(Sent);
    }

    /** One resumption of a suspended handler. */
    method Proceed(m: Message, phase: Phase, now: real) returns (next: Phase)
      requires !phase.Finished?
      modifies this, redis, db
      ensures (Shared(), next) == Stage(old(Shared()), db.accounts, now, m, phase)
    {
      if phase.AtConfig? || phase.AtAccount? || phase.AtCache? {
        next := Configure(m, phase, now);
      } else if phase.AtMarker? || phase.AtLog? || phase.AtMark? {
        next := Screen(m, phase, now);
      } else if phase.AtCooldown? || phase.AtRate? {
        next := CheckRateLimit(m, phase, now);
      } else if phase.AtLock? || phase.AtSend? || phase.AtRecord? {
        next := Deliver(m, phase, now);
      } else {
        next := RecordInRedis(m, phase, now);
      }
    }
  }

  // ----- A whole trial

  /** What pre-seeding leaves in Redis. */
  function Seeds(accounts: map<string, Row>, ids: seq<string>): map<string, Config>
    requires forall i :: 0 <= i < |ids| ==> ids[i] in accounts
  {
    map a | a in ids :: SeedOf(accounts[a])
  }

  /** The state a trial starts from. */
  function Opening(accounts: map<string, Row>, ids: seq<string>, now: real): State
    requires forall i :: 0 <= i < |ids| ==> ids[i] in accounts
  {
    State(now, accounts, World(Redis(map[], map[], Seeds(accounts, ids)), {}, NoMetrics, [], 0), [])
  }

  /** The handlers that run on one engine, and the clock. */
  class Trial {
    const engine: Engine
    var now: real
    var handlers: seq<Handler>

    constructor (engine: Engine, now: real)
      ensures this.engine == engine && this.now == now && handlers == []
    {
      this.engine, this.now, handlers := engine, now, [];
    }

    ghost function Value(): State
      reads this, engine, engine.redis, engine.db
    {
      State(now, engine.db.accounts, engine.Shared(), handlers)
    }

    /** Whatever the event loop does next. */
    method Step(e: Event)
      requires Enabled(Value(), e)
      modifies this, engine, engine.redis, engine.db
      ensures Value() == Next(old(Value()), e)
    {
      match e
      case Arrive(m) =>
        var next := engine.Accept(m);
        handlers := handlers + [Handler(m, next)];
      case Resume(i) =>
        var h := handlers[i];
        var next := engine.Proceed(h.msg, h.phase, now);
        handlers := handlers[i := h.(phase := next)];
      case Tick(to) =>
        now := to;
    }

    /** Any schedule leaves the objects as the run of the state machine does. */
    method Follow(es: seq<Event>)
      requires Run(Value(), es, Anything())
      modifies this, engine, engine.redis, engine.db
      ensures Value() == Final(old(Value()), es, Anything())
    {
      var i := 0;
      while i < |es|
        invariant 0 <= i <= |es| && Run(Value(), es[i..], Anything())
        invariant Final(Value(), es[i..], Anything()) == Final(old(Value()), es, Anything())
      {
        assert es[i..][0] == es[i] && es[i..][1..] == es[i + 1..];
        Step(es[i]);
        i := i + 1;
      }
    }
  }

  lemma {:induction false} SameFinal(s: State, es: seq<Event>, ok: State -> bool)
    requires Run(s, es, ok) && Run(s, es, Anything())
    ensures Final(s, es, ok) == Final(s, es, Anything())
    decreases |es|
  {
    if es != [] {
      SameFinal(Next(s, es[0]), es[1..], ok);
    }
  }

  method PreSeed(redis: MockRedis, accounts: map<string, Row>, ids: seq<string>)
    requires redis.Value() == Redis(map[], map[], map[])
    requires forall i :: 0 <= i < |ids| ==> ids[i] in accounts
    modifies redis
    ensures redis.Value() == Redis(map[], map[], Seeds(accounts, ids))
  {
    for i := 0 to |ids|
      invariant redis.Value() == Redis(map[], map[], Seeds(accounts, ids[..i]))
    {
      assert ids[..i + 1] == ids[..i] + [ids[i]];
      redis.SetHash(ids[i], SeedOf(accounts[ids[i]]));
    }
    assert ids[..|ids|] == ids;
  }

  lemma OpeningIsInit(accounts: map<string, Row>, ids: seq<string>, now: real)
    requires forall i :: 0 <= i < |ids| ==> ids[i] in accounts && accounts[ids[i]].text.Some?
    ensures Init(Opening(accounts, ids, now))
  {
  }

  lemma TrialAddsUp(s: State, es: seq<Event>)
    requires Init(s) && Run(s, es, Anything())
    ensures AddsUp(Final(s, es, Anything()))
  {
    assert Reaches(s, Final(s, es, Anything()), Anything());
    MetricsAddUp(s, Final(s, es, Anything()));
  }

  lemma TrialRepliesOnce(s: State, es: seq<Event>, d1: real, d2: real)
    requires Init(s) && Run(s, es, Anything()) && Run(s, es, Timely(d1, d2)) && 0.0 <= d1 && d1 + d2 <= 60.0
    ensures OneReplyEach(Final(s, es, Anything()))
  {
    AtMostOneReply(s, es, d1, d2);
    SameFinal(s, es, Timely(d1, d2));
  }

  /** A trial on real objects, under any schedule of arrivals, resumptions and clock
      ticks: its metrics add up, and when no handler is later than `d1` and `d2` and the
      two fit into the lock's life, the engine has sent every pair at most one reply. */
  method RunTrial(accounts: map<string, Row>, ids: seq<string>, now: real, es: seq<Event>, ghost d1: real, ghost d2: real)
    returns (trial: Trial)
    requires forall i :: 0 <= i < |ids| ==> ids[i] in accounts && accounts[ids[i]].text.Some?
    requires Run(Opening(accounts, ids, now), es, Anything())
    ensures fresh(trial) && trial.Value() == Final(Opening(accounts, ids, now), es, Anything())
    ensures AddsUp(trial.Value())
    ensures 0.0 <= d1 && d1 + d2 <= 60.0 && Run(Opening(accounts, ids, now), es, Timely(d1, d2)) ==>
              OneReplyEach(trial.Value())
  {
    ghost var s := Opening(accounts, ids, now);
    OpeningIsInit(accounts, ids, now);
    TrialAddsUp(s, es);
    if 0.0 <= d1 && d1 + d2 <= 60.0 && Run(s, es, Timely(d1, d2)) {
      TrialRepliesOnce(s, es, d1, d2);
    }
    trial := Open(accounts, ids, now);
    trial.Follow(es);
  }

  /** The objects of a new trial, with the configs of some accounts in the cache. */
  method Open(accounts: map<string, Row>, ids: seq<string>, now: real) returns (trial: Trial)
    requires forall i :: 0 <= i < |ids| ==> ids[i] in accounts
    ensures fresh(trial) && fresh(trial.engine) && fresh(trial.engine.redis) && fresh(trial.engine.db)
    ensures trial.Value() == Opening(accounts, ids, now)
  {
    var redis := new MockRedis();
    PreSeed(redis, accounts, ids);
    var db := new MockDatabase(accounts);
    var engine := new Engine(redis, db);
    trial := new Trial(engine, now);
  }
}
