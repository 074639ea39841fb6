/** The auto-reply pipeline as a protocol: any number of message handlers run
    concurrently over one Redis, one reply log and one set of metrics, and a
    scheduler may interleave them at every await. Each step below is the code
    between two awaits. Time is explicit, because the send lock expires. */
module AutoReply {
  import opened Options
  import opened Counting

  const MAX_REPLIES_PER_HOUR: nat := 30
  const COOLDOWN_SECONDS: real := 5.0
  const MARKER_SECONDS: real := 2592000.0
  const LOCK_SECONDS: real := 60.0
  const SERVICE_BOT_IDS: set<int> := {777000, 42777, 178220800}

  datatype Pair = Pair(account: string, sender: int)

  /** The Redis keys, by what their prefix says they hold. */
  datatype Key =
    | Replied(pair: Pair)
    | Cooldown(pair: Pair)
    | Lock(pair: Pair)
    | Rate(account: string, hour: int)

  /** One account row: the switch and the text, which may be NULL. */
  datatype Row = Row(enabled: bool, text: Option<string>)

  /** The cached hash of an account: both fields are strings. */
  datatype Config = Config(enabled: string, text: string)

  /** Values are decimal strings in Redis; the map holds the numbers they print. */
  datatype Redis = Redis(keys: map<Key, nat>, ttls: map<Key, real>, hashes: map<string, Config>)

  // ----- Redis commands

  function Purge(r: Redis, k: Key, now: real): Redis {
    if k in r.ttls && now > r.ttls[k] then r.(keys := r.keys - {k}, ttls := r.ttls - {k}) else r
  }

  function Exists(r: Redis, k: Key, now: real): (Redis, bool) {
    var r' := Purge(r, k, now);
    (r', k in r'.keys)
  }

  function Get(r: Redis, k: Key, now: real): (Redis, Option<nat>) {
    var r' := Purge(r, k, now);
    (r', if k in r'.keys then Some(r'.keys[k]) else None)
  }

  function SetNxEx(r: Redis, k: Key, v: nat, ex: real, now: real): (Redis, bool) {
    var r' := Purge(r, k, now);
    if k in r'.keys then (r', false)
    else (r'.(keys := r'.keys[k := v], ttls := r'.ttls[k := now + ex]), true)
  }

  function SetEx(r: Redis, k: Key, ex: real, v: nat, now: real): Redis {
    r.(keys := r.keys[k := v], ttls := r.ttls[k := now + ex])
  }

  function Incr(r: Redis, k: Key): Redis {
    r.(keys := r.keys[k := (if k in r.keys then r.keys[k] else 0) + 1])
  }

  function HSet(r: Redis, account: string, c: Config): Redis {
    r.(hashes := r.hashes[account := c])
  }

  // ----- Handlers

  datatype Message = Message(pair: Pair, isPrivate: bool, isBot: bool, simTime: real)

  datatype Outcome =
    | GroupFiltered | ServiceFiltered | UnknownAccount | Disabled | DuplicateInRedis
    | DuplicateInLog | RateLimited | LockTaken | Violation | Sent

  /** Where a handler is suspended; the name says which await comes next. */
  datatype Phase =
    | AtConfig
    | AtAccount
    | AtCache(row: Row)
    | AtMarker(text: string)
    | AtLog(text: string)
    | AtMark
    | AtCooldown(text: string, readAt: real)
    | AtRate(text: string, readAt: real)
    | AtLock(text: string, readAt: real)
    | AtSend(text: string, lockedAt: real)
    | AtRecord(lockedAt: real)
    | AtSetCooldown
    | AtIncr
    | AtSetMarker
    | Finished(outcome: Outcome)

  datatype Handler = Handler(msg: Message, phase: Phase)

  /** The outcome counters; `unknown` is history, the code counts such drops nowhere. */
  datatype Tally = Tally(
    group: nat, service: nat, unknown: nat, disabled: nat, dupRedis: nat, dupLog: nat,
    rateLimited: nat, dupLock: nat, refused: nat, sent: nat)

  datatype Metrics = Metrics(
    total: nat, tally: Tally, dedupViolations: nat, hourlyViolations: nat,
    perPair: map<Pair, nat>, perHour: map<(string, int), nat>)

  /** One message handed to Telegram. */
  datatype Reply = Reply(pair: Pair, text: string)

  /** What the handlers share. `sends` and `attempts` are history: what left for
      Telegram, and how often a reply was offered to the log. */
  datatype World = World(redis: Redis, log: set<Pair>, metrics: Metrics, sends: seq<Reply>, attempts: nat)

  datatype State = State(now: real, accounts: map<string, Row>, world: World, handlers: seq<Handler>)

  datatype Event = Arrive(msg: Message) | Resume(id: nat) | Tick(to: real)

  function HourOf(simTime: real): int {
    (simTime / 3600.0).Floor
  }

  /** An hour is a window of 3600 seconds: the hour of a time is the one it falls into. */
  lemma HourExactly(simTime: real, hour: int)
    ensures HourOf(simTime) == hour <==> 3600.0 * hour as real <= simTime < 3600.0 * (hour + 1) as real
  {
    var q := simTime / 3600.0;
    assert q * 3600.0 == simTime;
    assert q.Floor as real <= q < (q.Floor + 1) as real;
    if hour as real <= q < (hour + 1) as real {
      assert q.Floor == hour;
    }
  }

  function AccountHour(m: Message): (string, int) {
    (m.pair.account, HourOf(m.simTime))
  }

  function RateKey(m: Message): Key {
    Rate(m.pair.account, HourOf(m.simTime))
  }

  function Text(t: Option<string>): string {
    if t.None? then "" else t.value
  }

  function BoolText(b: bool): string {
    if b then "True" else "False"
  }

  /** What a cache miss writes back. */
  function CacheOf(row: Row): Config {
    Config(BoolText(row.enabled), Text(row.text))
  }

  function Bump<K>(m: map<K, nat>, k: K): map<K, nat> {
    m[k := (if k in m then m[k] else 0) + 1]
  }

  function Score(t: Tally, o: Outcome): Tally {
    match o
    case GroupFiltered => t.(group := t.group + 1)
    case ServiceFiltered => t.(service := t.service + 1)
    case UnknownAccount => t.(unknown := t.unknown + 1)
    case Disabled => t.(disabled := t.disabled + 1)
    case DuplicateInRedis => t.(dupRedis := t.dupRedis + 1)
    case DuplicateInLog => t.(dupLog := t.dupLog + 1)
    case RateLimited => t.(rateLimited := t.rateLimited + 1)
    case LockTaken => t.(dupLock := t.dupLock + 1)
    case Violation => t.(refused := t.refused + 1)
    case Sent => t.(sent := t.sent + 1)
  }

  // ----- The stages of one handler, each from one await to the next

  function Quit(w: World, o: Outcome): (World, Phase) {
    (w.(metrics := w.metrics.(tally := Score(w.metrics.tally, o))), Finished(o))
  }

  /** Validation, before the first await. */
  function Arrival(w: World, m: Message): (World, Phase) {
    var w' := w.(metrics := w.metrics.(total := w.metrics.total + 1));
    if !m.isPrivate then Quit(w', GroupFiltered)
    else if m.isBot || m.pair.sender in SERVICE_BOT_IDS then Quit(w', ServiceFiltered)
    else (w', AtConfig)
  }

  /** The test of the switch and the text, after either source of the config. */
  function Decide(w: World, enabled: bool, text: string): (World, Phase) {
    if !enabled || text == "" then Quit(w, Disabled) else (w, AtMarker(text))
  }

  function ReadConfig(w: World, a: string): (World, Phase) {
    if a in w.redis.hashes then
      Decide(w, w.redis.hashes[a].enabled == "True", w.redis.hashes[a].text)
    else
      (w, AtAccount)
  }

  function ReadAccount(w: World, accounts: map<string, Row>, a: string): (World, Phase) {
    if a in accounts then (w, AtCache(accounts[a])) else Quit(w, UnknownAccount)
  }

  function WriteConfig(w: World, a: string, row: Row): (World, Phase) {
    Decide(w.(redis := HSet(w.redis, a, CacheOf(row))), row.enabled, Text(row.text))
  }

  function ReadMarker(w: World, p: Pair, now: real, text: string): (World, Phase) {
    var (r, found) := Exists(w.redis, Replied(p), now);
    if found then Quit(w.(redis := r), DuplicateInRedis) else (w.(redis := r), AtLog(text))
  }

  function ReadLog(w: World, p: Pair, now: real, text: string): (World, Phase) {
    if p in w.log then (w, AtMark) else (w, AtCooldown(text, now))
  }

  function WriteMark(w: World, p: Pair, now: real): (World, Phase) {
    Quit(w.(redis := SetEx(w.redis, Replied(p), MARKER_SECONDS, 1, now)), DuplicateInLog)
  }

  function ReadCooldown(w: World, p: Pair, now: real, text: string, readAt: real): (World, Phase) {
    var (r, found) := Exists(w.redis, Cooldown(p), now);
    if found then Quit(w.(redis := r), RateLimited) else (w.(redis := r), AtRate(text, readAt))
  }

  function ReadRate(w: World, k: Key, now: real, text: string, readAt: real): (World, Phase) {
    var (r, count) := Get(w.redis, k, now);
    if count.Some? && count.value >= MAX_REPLIES_PER_HOUR then Quit(w.(redis := r), RateLimited)
    else (w.(redis := r), AtLock(text, readAt))
  }

  function TakeLock(w: World, p: Pair, now: real, text: string): (World, Phase) {
    var (r, acquired) := SetNxEx(w.redis, Lock(p), 1, LOCK_SECONDS, now);
    if acquired then (w.(redis := r), AtSend(text, now)) else Quit(w.(redis := r), LockTaken)
  }

  function Send(w: World, p: Pair, text: string, lockedAt: real): (World, Phase) {
    (w.(sends := w.sends + [Reply(p, text)]), AtRecord(lockedAt))
  }

  function Record(w: World, p: Pair): (World, Phase) {
    var w' := w.(attempts := w.attempts + 1);
    if p in w.log then
      Quit(w'.(metrics := w.metrics.(dedupViolations := w.metrics.dedupViolations + 1)), Violation)
    else
      (w'.(log := w.log + {p}), AtSetCooldown)
  }

  function WriteCooldown(w: World, p: Pair, now: real): (World, Phase) {
    (w.(redis := SetEx(w.redis, Cooldown(p), COOLDOWN_SECONDS, 1, now)), AtIncr)
  }

  function WriteRate(w: World, k: Key): (World, Phase) {
    (w.(redis := Incr(w.redis, k)), AtSetMarker)
  }

  /** The marker is written and, with no await in between, the metrics follow. */
  function Complete(w: World, m: Message, now: real): (World, Phase) {
    var x := w.metrics;
    var perPair := Bump(x.perPair, m.pair);
    var perHour := Bump(x.perHour, AccountHour(m));
    Quit(w.(
         redis := SetEx(w.redis, Replied(m.pair), MARKER_SECONDS, 1, now),
         metrics := x.(
         perPair := perPair,
         perHour := perHour,
         dedupViolations := x.dedupViolations + Bit(perPair[m.pair] > 1),
         hourlyViolations := x.hourlyViolations + Bit(perHour[AccountHour(m)] > MAX_REPLIES_PER_HOUR))), Sent)
  }

  function Stage(w: World, accounts: map<string, Row>, now: real, m: Message, p: Phase): (World, Phase)
    requires !p.Finished?
  {
    match p
    case AtConfig => ReadConfig(w, m.pair.account)
    case AtAccount => ReadAccount(w, accounts, m.pair.account)
    case AtCache(row) => WriteConfig(w, m.pair.account, row)
    case AtMarker(text) => ReadMarker(w, m.pair, now, text)
    case AtLog(text) => ReadLog(w, m.pair, now, text)
    case AtMark => WriteMark(w, m.pair, now)
    case AtCooldown(text, readAt) => ReadCooldown(w, m.pair, now, text, readAt)
    case AtRate(text, readAt) => ReadRate(w, RateKey(m), now, text, readAt)
    case AtLock(text, _) => TakeLock(w, m.pair, now, text)
    case AtSend(text, lockedAt) => Send(w, m.pair, text, lockedAt)
    case AtRecord(_) => Record(w, m.pair)
    case AtSetCooldown => WriteCooldown(w, m.pair, now)
    case AtIncr => WriteRate(w, RateKey(m))
    case AtSetMarker => Complete(w, m, now)
  }

  /** The stages that look at a key, and so may find it expired. */
  predicate Probing(p: Phase) {
    p.AtMarker? || p.AtCooldown? || p.AtRate? || p.AtLock?
  }

  /** Which key a probing stage touches, and what becomes of Redis. */
  lemma ProbeEffect(w: World, accounts: map<string, Row>, now: real, m: Message, p: Phase)
    requires Probing(p)
    ensures var r := Stage(w, accounts, now, m, p).0.redis;
            && (p.AtMarker? ==> r == Purge(w.redis, Replied(m.pair), now))
            && (p.AtCooldown? ==> r == Purge(w.redis, Cooldown(m.pair), now))
            && (p.AtRate? ==> r == Purge(w.redis, RateKey(m), now))
            && (p.AtLock? ==> r == SetNxEx(w.redis, Lock(m.pair), 1, LOCK_SECONDS, now).0)
  {
  }

  // ----- Steps of the whole system

  predicate Enabled(s: State, e: Event) {
    match e
    case Arrive(_) => true
    case Resume(i) => i < |s.handlers| && !s.handlers[i].phase.Finished?
    case Tick(to) => s.now <= to
  }

  /** Handler `i` moves to phase `p` and leaves the world `w` behind. */
  function Put(s: State, i: nat, w: World, p: Phase): State
    requires i < |s.handlers|
  {
    s.(world := w, handlers := s.handlers[i := s.handlers[i].(phase := p)])
  }

  function Next(s: State, e: Event): State
    requires Enabled(s, e)
  {
    match e
    case Arrive(m) =>
      var (w, p) := Arrival(s.world, m);
      s.(world := w, handlers := s.handlers + [Handler(m, p)])
    case Resume(i) =>
      var h := s.handlers[i];
      var (w, p) := Stage(s.world, s.accounts, s.now, h.msg, h.phase);
      Put(s, i, w, p)
    case Tick(to) => s.(now := to)
  }

  // ----- Runs

  /** The schedule `es` can run from `s`, and every state on the way satisfies `ok`. */
  predicate Run(s: State, es: seq<Event>, ok: State -> bool)
    decreases |es|
  {
    ok(s) && (es != [] ==> Enabled(s, es[0]) && Run(Next(s, es[0]), es[1..], ok))
  }

  function Final(s: State, es: seq<Event>, ok: State -> bool): State
    requires Run(s, es, ok)
    decreases |es|
  {
    if es == [] then s else Final(Next(s, es[0]), es[1..], ok)
  }

  function Anything(): State -> bool {
    (s: State) => true
  }

  /** A run may be extended by any enabled event that keeps `ok`. */
  lemma {:induction false} Extend(s: State, es: seq<Event>, e: Event, ok: State -> bool)
    requires Run(s, es, ok)
    requires Enabled(Final(s, es, ok), e) && ok(Next(Final(s, es, ok), e))
    ensures Run(s, es + [e], ok)
    ensures Final(s, es + [e], ok) == Next(Final(s, es, ok), e)
    decreases |es|
  {
    if es != [] {
      Extend(Next(s, es[0]), es[1..], e, ok);
      assert (es + [e])[1..] == es[1..] + [e];
    }
  }

  /** `t` is reached from `s` by some schedule along which `ok` always holds. */
  ghost predicate Reaches(s: State, t: State, ok: State -> bool) {
    exists es :: Run(s, es, ok) && Final(s, es, ok) == t
  }

  lemma ReachSelf(s: State, ok: State -> bool)
    requires ok(s)
    ensures Reaches(s, s, ok)
  {
    assert Run(s, [], ok) && Final(s, [], ok) == s;
  }

  lemma ReachStep(s: State, t: State, e: Event, ok: State -> bool) returns (t': State)
    requires Reaches(s, t, ok) && Enabled(t, e) && ok(Next(t, e))
    ensures t' == Next(t, e) && Reaches(s, t', ok)
  {
    var es :| Run(s, es, ok) && Final(s, es, ok) == t;
    Extend(s, es, e, ok);
    t' := Next(t, e);
  }

  /** The same for one handler, with the result of its stage spelt out. */
  lemma Advance(s: State, t: State, i: nat, w: World, p: Phase, ok: State -> bool) returns (t': State)
    requires Reaches(s, t, ok) && i < |t.handlers| && !t.handlers[i].phase.Finished?
    requires Stage(t.world, t.accounts, t.now, t.handlers[i].msg, t.handlers[i].phase) == (w, p)
    requires ok(Put(t, i, w, p))
    ensures t' == Put(t, i, w, p)
    ensures Reaches(s, t', ok)
  {
    t' := ReachStep(s, t, Resume(i), ok);
  }

  /** `n` stages of one handler with no other handler in between. */
  function Walk(w: World, accounts: map<string, Row>, now: real, m: Message, p: Phase, n: nat): (World, Phase)
    decreases n
  {
    if n == 0 || p.Finished? then (w, p)
    else
      var (w', p') := Stage(w, accounts, now, m, p);
      Walk(w', accounts, now, m, p', n - 1)
  }

  lemma {:induction false} WalkReaches(s: State, t: State, i: nat, n: nat, ok: State -> bool)
    returns (t': State)
    requires Reaches(s, t, ok) && i < |t.handlers|
    requires forall w, p :: ok(Put(t, i, w, p))
    ensures var (w, p) := Walk(t.world, t.accounts, t.now, t.handlers[i].msg, t.handlers[i].phase, n);
            t' == Put(t, i, w, p)
    ensures Reaches(s, t', ok)
    decreases n
  {
    if n == 0 || t.handlers[i].phase.Finished? {
      t' := t;
    } else {
      var (w, p) := Stage(t.world, t.accounts, t.now, t.handlers[i].msg, t.handlers[i].phase);
      var u := Advance(s, t, i, w, p, ok);
      forall w', p' ensures ok(Put(u, i, w', p')) {
        assert Put(u, i, w', p') == Put(t, i, w', p');
      }
      t' := WalkReaches(s, u, i, n - 1, ok);
    }
  }

  const NoMetrics := Metrics(0, Tally(0, 0, 0, 0, 0, 0, 0, 0, 0, 0), 0, 0, map[], map[])

  /** A fresh trial: an empty log, no keys, and a config cache pre-seeded for
      accounts whose text is not NULL. */
  ghost predicate Init(s: State) {
    && s.handlers == []
    && s.world.redis.keys == map[] && s.world.redis.ttls == map[]
    && s.world.log == {} && s.world.metrics == NoMetrics && s.world.sends == [] && s.world.attempts == 0
    && forall a :: a in s.world.redis.hashes ==>
         a in s.accounts && s.accounts[a].text.Some? && s.world.redis.hashes[a] == SeedOf(s.accounts[a])
  }

  /** What pre-seeding writes: `str` of both fields, so a NULL text becomes "None". */
  function SeedOf(row: Row): Config {
    Config(BoolText(row.enabled), if row.text.None? then "None" else row.text.value)
  }

  /** The trial that the examples of runs start from: one account, its config cached. */
  const Greeting := Row(true, Some("hi"))
  const Fresh := State(
                   0.0, map["acc" := Greeting],
                   World(Redis(map[], map[], map["acc" := SeedOf(Greeting)]), {}, NoMetrics, [], 0), [])
}
