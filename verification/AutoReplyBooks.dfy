/** What holds in every reachable state with no assumption on time: the metrics
    add up, the reply log and Redis agree, filtered messages get nowhere, and the
    fast paths decide nothing that the database would decide otherwise. */
module AutoReplyBooks {
  import opened Options
  import opened Counting
  import opened AutoReply

  function Live(): Handler -> bool {
    (h: Handler) => !h.phase.Finished?
  }

  function Outcomes(t: Tally): nat {
    t.group + t.service + t.unknown + t.disabled + t.dupRedis + t.dupLog + t.rateLimited + t.dupLock + t.refused + t.sent
  }

  /** The counter that reports an outcome. */
  function Reported(t: Tally, o: Outcome): nat {
    match o
    case GroupFiltered => t.group
    case ServiceFiltered => t.service
    case UnknownAccount => t.unknown
    case Disabled => t.disabled
    case DuplicateInRedis => t.dupRedis
    case DuplicateInLog => t.dupLog
    case RateLimited => t.rateLimited
    case LockTaken => t.dupLock
    case Violation => t.refused
    case Sent => t.sent
  }

  function EndedIn(o: Outcome): Handler -> bool {
    (h: Handler) => h.phase == Finished(o)
  }

  /** The text an account row answers with, if it answers at all. */
  function Verdict(row: Row): Option<string> {
    if row.enabled && Text(row.text) != "" then row.text else None
  }

  /** The text the cached config answers with, if it answers at all. */
  function CachedVerdict(c: Config): Option<string> {
    if c.enabled == "True" && c.text != "" then Some(c.text) else None
  }

  /** A pre-seeded config decides as its row does, unless the row is enabled with a NULL text. */
  lemma SeedAgrees(row: Row)
    ensures CachedVerdict(SeedOf(row)) == Verdict(row) <==> row.text.Some? || !row.enabled
    ensures CachedVerdict(CacheOf(row)) == Verdict(row)
  {
    assert BoolText(false) != "True" by {
      assert "False"[0] != "True"[0];
    }
    assert Text(row.text) == "" || row.text.Some?;
    assert "None" != "";
  }

  /** The reply was logged and is not yet reported. */
  predicate Logged(p: Phase) {
    p.AtSetCooldown? || p.AtIncr? || p.AtSetMarker?
  }

  predicate Answers(accounts: map<string, Row>, a: string, text: string) {
    a in accounts && Verdict(accounts[a]) == Some(text)
  }

  predicate Eligible(m: Message) {
    m.isPrivate && !m.isBot && m.pair.sender !in SERVICE_BOT_IDS
  }

  /** What the phase of a handler says about the database. */
  predicate Sound(accounts: map<string, Row>, log: set<Pair>, m: Message, p: Phase) {
    var a := m.pair.account;
    && (p == Finished(GroupFiltered) || p == Finished(ServiceFiltered) <==> !Eligible(m))
    && match p
       case AtCache(row) => a in accounts && row == accounts[a]
       case AtMarker(text) => Answers(accounts, a, text)
       case AtLog(text) => Answers(accounts, a, text)
       case AtCooldown(text, _) => Answers(accounts, a, text)
       case AtRate(text, _) => Answers(accounts, a, text)
       case AtLock(text, _) => Answers(accounts, a, text)
       case AtSend(text, _) => Answers(accounts, a, text)
       case Finished(o) =>
         && (o == DuplicateInRedis || o == DuplicateInLog || o == Violation || o == Sent ==> m.pair in log)
         && (o == UnknownAccount ==> a !in accounts)
         && (o == Disabled ==> a in accounts && Verdict(accounts[a]) == None)
       case _ => p.AtMark? || Logged(p) ==> m.pair in log
  }

  ghost predicate MarkersSound(w: World) {
    forall p :: Replied(p) in w.redis.keys ==> p in w.log
  }

  ghost predicate CacheSound(w: World, accounts: map<string, Row>) {
    forall a :: a in w.redis.hashes ==> a in accounts && w.redis.hashes[a] == CacheOf(accounts[a])
  }

  ghost predicate SendsSound(w: World, accounts: map<string, Row>) {
    forall i :: 0 <= i < |w.sends| ==>
      && Answers(accounts, w.sends[i].pair.account, w.sends[i].text)
      && w.sends[i].pair.sender !in SERVICE_BOT_IDS
  }

  ghost predicate AttemptsSound(w: World) {
    && w.metrics.dedupViolations == w.metrics.tally.refused
    && w.metrics.dedupViolations + |w.log| == w.attempts
  }

  ghost predicate ReportsSound(w: World) {
    forall p :: p in w.metrics.perPair ==> w.metrics.perPair[p] == 1 && p in w.log
  }

  ghost predicate WorldSound(w: World, accounts: map<string, Row>) {
    MarkersSound(w) && CacheSound(w, accounts) && SendsSound(w, accounts) && AttemptsSound(w) && ReportsSound(w)
  }

  ghost predicate AllSound(s: State) {
    forall i :: 0 <= i < |s.handlers| ==> Sound(s.accounts, s.world.log, s.handlers[i].msg, s.handlers[i].phase)
  }

  /** A logged pair is reported once: by the one handler that logged it. */
  ghost predicate Once(s: State) {
    && (forall i :: 0 <= i < |s.handlers| && Logged(s.handlers[i].phase) ==>
          s.handlers[i].msg.pair !in s.world.metrics.perPair)
    && (forall i, j :: 0 <= i < j < |s.handlers| && Logged(s.handlers[i].phase) && Logged(s.handlers[j].phase) ==>
          s.handlers[i].msg.pair != s.handlers[j].msg.pair)
  }

  ghost predicate AllCounted(s: State) {
    s.world.metrics.total == Outcomes(s.world.metrics.tally) + Count(s.handlers, Live())
  }

  /** Every counter is the number of handlers that ended that way. */
  ghost predicate CountersMatch(s: State) {
    forall o :: Reported(s.world.metrics.tally, o) == Count(s.handlers, EndedIn(o))
  }

  ghost predicate Books(s: State) {
    WorldSound(s.world, s.accounts) && AllSound(s) && Once(s) && AllCounted(s) && CountersMatch(s)
  }

  lemma CachedDecision(row: Row)
    ensures CacheOf(row).enabled == "True" <==> row.enabled
  {
    assert "False"[0] != "True"[0];
  }

  // ----- One stage, component by component

  lemma StageMarkers(w: World, accounts: map<string, Row>, now: real, m: Message, p: Phase)
    requires !p.Finished? && MarkersSound(w) && Sound(accounts, w.log, m, p)
    ensures var w' := Stage(w, accounts, now, m, p).0;
            MarkersSound(w') && w.log <= w'.log
  {
  }

  lemma StageCache(w: World, accounts: map<string, Row>, now: real, m: Message, p: Phase)
    requires !p.Finished? && CacheSound(w, accounts) && SendsSound(w, accounts) && Sound(accounts, w.log, m, p)
    ensures var w' := Stage(w, accounts, now, m, p).0;
            CacheSound(w', accounts) && SendsSound(w', accounts)
  {
  }

  lemma RecordAttempts(w: World, pair: Pair)
    requires AttemptsSound(w)
    ensures AttemptsSound(Record(w, pair).0)
  {
  }

  /** Only a recording stage attempts to log, and a pair's first report is no violation. */
  lemma OtherAttempts(w: World, accounts: map<string, Row>, now: real, m: Message, p: Phase)
    requires !p.Finished? && !p.AtRecord? && (Logged(p) ==> m.pair !in w.metrics.perPair)
    ensures var w' := Stage(w, accounts, now, m, p).0;
            && w'.metrics.dedupViolations == w.metrics.dedupViolations && w'.metrics.tally.refused == w.metrics.tally.refused
            && w'.log == w.log && w'.attempts == w.attempts
  {
  }

  lemma StageAttempts(w: World, accounts: map<string, Row>, now: real, m: Message, p: Phase)
    requires !p.Finished? && AttemptsSound(w) && (Logged(p) ==> m.pair !in w.metrics.perPair)
    ensures AttemptsSound(Stage(w, accounts, now, m, p).0)
  {
    if p.AtRecord? {
      RecordAttempts(w, m.pair);
    } else {
      OtherAttempts(w, accounts, now, m, p);
    }
  }

  lemma StagePairs(w: World, accounts: map<string, Row>, now: real, m: Message, p: Phase)
    requires !p.Finished? && ReportsSound(w) && (Logged(p) ==> m.pair !in w.metrics.perPair)
    requires Sound(accounts, w.log, m, p)
    ensures ReportsSound(Stage(w, accounts, now, m, p).0)
  {
    StageReports(w, accounts, now, m, p);
  }

  /** The phase a handler moves to is as sound as the one it leaves. */
  lemma StageSound(w: World, accounts: map<string, Row>, now: real, m: Message, p: Phase)
    requires !p.Finished? && MarkersSound(w) && CacheSound(w, accounts) && Sound(accounts, w.log, m, p)
    ensures var (w', p') := Stage(w, accounts, now, m, p);
            Sound(accounts, w'.log, m, p')
  {
    if m.pair.account in accounts {
      CachedDecision(accounts[m.pair.account]);
    }
  }

  /** Only a completing handler reports, and only a recording one gets logged. */
  lemma StageReports(w: World, accounts: map<string, Row>, now: real, m: Message, p: Phase)
    requires !p.Finished?
    ensures var (w', p') := Stage(w, accounts, now, m, p);
            && w'.metrics.perPair == (if p.AtSetMarker? then Bump(w.metrics.perPair, m.pair) else w.metrics.perPair)
            && (Logged(p') ==> Logged(p) || m.pair !in w.log)
            && (p.AtSetMarker? ==> !Logged(p'))
  {
  }

  lemma QuitCounts(t: Tally, o: Outcome)
    ensures Outcomes(Score(t, o)) == Outcomes(t) + 1
    ensures forall q :: Reported(Score(t, o), q) == Reported(t, q) + Bit(q == o)
  {
  }

  lemma StageCounts(w: World, accounts: map<string, Row>, now: real, m: Message, p: Phase)
    requires !p.Finished?
    ensures var (w', p') := Stage(w, accounts, now, m, p);
            && w'.metrics.total == w.metrics.total
            && Outcomes(w'.metrics.tally) == Outcomes(w.metrics.tally) + Bit(p'.Finished?)
            && forall o :: Reported(w'.metrics.tally, o) == Reported(w.metrics.tally, o) + Bit(p' == Finished(o))
  {
    var (w', p') := Stage(w, accounts, now, m, p);
    assert w'.metrics.tally == if p'.Finished? then Score(w.metrics.tally, p'.outcome) else w.metrics.tally;
    if p'.Finished? {
      QuitCounts(w.metrics.tally, p'.outcome);
    }
  }

  // ----- One step

  lemma ResumeSound(s: State, i: nat)
    requires Enabled(s, Resume(i)) && Books(s)
    ensures WorldSound(Next(s, Resume(i)).world, s.accounts) && AllSound(Next(s, Resume(i)))
  {
    var s', h := Next(s, Resume(i)), s.handlers[i];
    StageMarkers(s.world, s.accounts, s.now, h.msg, h.phase);
    StageCache(s.world, s.accounts, s.now, h.msg, h.phase);
    StageAttempts(s.world, s.accounts, s.now, h.msg, h.phase);
    StagePairs(s.world, s.accounts, s.now, h.msg, h.phase);
    StageSound(s.world, s.accounts, s.now, h.msg, h.phase);
    forall j | 0 <= j < |s'.handlers|
      ensures Sound(s'.accounts, s'.world.log, s'.handlers[j].msg, s'.handlers[j].phase)
    {
      assert Sound(s.accounts, s.world.log, s.handlers[j].msg, s.handlers[j].phase);
    }
  }

  lemma ResumeCounted(s: State, i: nat)
    requires Enabled(s, Resume(i)) && AllCounted(s)
    ensures AllCounted(Next(s, Resume(i)))
  {
    var s', h := Next(s, Resume(i)), s.handlers[i];
    StageCounts(s.world, s.accounts, s.now, h.msg, h.phase);
    CountUpdate(s.handlers, i, s'.handlers[i], Live());
  }

  lemma ResumeOnce(s: State, i: nat)
    requires Enabled(s, Resume(i)) && Books(s)
    ensures Once(Next(s, Resume(i)))
  {
    var h := s.handlers[i];
    StageReports(s.world, s.accounts, s.now, h.msg, h.phase);
    forall j | 0 <= j < |s.handlers|
      ensures Logged(s.handlers[j].phase) ==> s.handlers[j].msg.pair in s.world.log
    {
      assert Sound(s.accounts, s.world.log, s.handlers[j].msg, s.handlers[j].phase);
    }
  }

  lemma ResumeCounters(s: State, i: nat)
    requires Enabled(s, Resume(i)) && CountersMatch(s)
    ensures CountersMatch(Next(s, Resume(i)))
  {
    var s', h := Next(s, Resume(i)), s.handlers[i];
    StageCounts(s.world, s.accounts, s.now, h.msg, h.phase);
    forall o ensures Reported(s'.world.metrics.tally, o) == Count(s'.handlers, EndedIn(o)) {
      CountUpdate(s.handlers, i, s'.handlers[i], EndedIn(o));
    }
  }

  lemma ArriveCounters(s: State, m: Message)
    requires CountersMatch(s)
    ensures CountersMatch(Next(s, Arrive(m)))
  {
    var s' := Next(s, Arrive(m));
    var p := Arrival(s.world, m).1;
    if p.Finished? {
      QuitCounts(s.world.metrics.tally, p.outcome);
    }
    forall o ensures Reported(s'.world.metrics.tally, o) == Count(s'.handlers, EndedIn(o)) {
      CountAppend(s.handlers, Handler(m, p), EndedIn(o));
    }
  }

  lemma ArrivalFacts(w: World, accounts: map<string, Row>, m: Message)
    requires WorldSound(w, accounts)
    ensures var (w', p) := Arrival(w, m);
            && WorldSound(w', accounts) && Sound(accounts, w'.log, m, p) && !Logged(p) && w'.log == w.log
            && w'.metrics.perPair == w.metrics.perPair && w'.metrics.total == w.metrics.total + 1
            && Outcomes(w'.metrics.tally) == Outcomes(w.metrics.tally) + Bit(p.Finished?)
  {
  }

  lemma ArriveKeeps(s: State, m: Message)
    requires Books(s)
    ensures var t := Next(s, Arrive(m)); WorldSound(t.world, t.accounts) && AllSound(t) && Once(t) && AllCounted(t)
  {
    ArrivalFacts(s.world, s.accounts, m);
    CountAppend(s.handlers, Handler(m, Arrival(s.world, m).1), Live());
  }

  lemma StepKeeps(s: State, e: Event)
    requires Enabled(s, e) && Books(s)
    ensures Books(Next(s, e))
  {
    match e
    case Resume(i) =>
      ResumeSound(s, i);
      ResumeOnce(s, i);
      ResumeCounted(s, i);
      ResumeCounters(s, i);
    case Arrive(m) =>
      ArriveKeeps(s, m);
      ArriveCounters(s, m);
    case Tick(_) =>
  }

  lemma NothingReported(o: Outcome)
    ensures Reported(NoMetrics.tally, o) == 0
  {
  }

  lemma InitCounters(s: State)
    requires s.handlers == [] && s.world.metrics == NoMetrics
    ensures CountersMatch(s)
  {
    forall o ensures Reported(s.world.metrics.tally, o) == Count(s.handlers, EndedIn(o)) {
      NothingReported(o);
    }
  }

  lemma InitWorld(w: World, accounts: map<string, Row>)
    requires w.redis.keys == map[] && w.log == {} && w.metrics == NoMetrics && w.sends == [] && w.attempts == 0
    requires CacheSound(w, accounts)
    ensures WorldSound(w, accounts)
  {
  }

  lemma InitBooks(s: State)
    requires Init(s)
    ensures Books(s)
  {
    assert CacheSound(s.world, s.accounts);
    InitWorld(s.world, s.accounts);
    InitCounters(s);
    assert AllSound(s) && Once(s);
    assert AllCounted(s);
  }

  lemma {:induction false} RunKeeps(s: State, es: seq<Event>)
    requires Run(s, es, Anything()) && Books(s)
    ensures Books(Final(s, es, Anything()))
    decreases |es|
  {
    if es != [] {
      StepKeeps(s, es[0]);
      RunKeeps(Next(s, es[0]), es[1..]);
    }
  }

  lemma Reached(s: State, t: State)
    requires Init(s) && Reaches(s, t, Anything())
    ensures Books(t)
  {
    var es :| Run(s, es, Anything()) && Final(s, es, Anything()) == t;
    InitBooks(s);
    RunKeeps(s, es);
  }

  /** In every reachable state the metrics add up: every counter is the number of
      handlers that ended that way, every event is in one outcome or in flight,
      every attempt to record is logged or refused, and no pair is ever reported
      twice. */
  lemma MetricsAddUp(s: State, t: State)
    requires Init(s) && Reaches(s, t, Anything())
    ensures AddsUp(t)
  {
    Reached(s, t);
  }

  ghost predicate AddsUp(t: State) {
    var x := t.world.metrics;
    && x.total == x.tally.group + x.tally.service + x.tally.unknown + x.tally.disabled + x.tally.dupRedis
                  + x.tally.dupLog + x.tally.rateLimited + x.tally.dupLock + x.tally.refused + x.tally.sent
                  + Count(t.handlers, Live())
    && (forall o :: Reported(x.tally, o) == Count(t.handlers, EndedIn(o)))
    && x.dedupViolations == x.tally.refused
    && x.dedupViolations + |t.world.log| == t.world.attempts
    && forall p :: p in x.perPair ==> x.perPair[p] == 1
  }

  /** In every reachable state Redis says nothing that the database would deny: a
      marker stands for a logged reply, and a cached config decides as its row. */
  lemma RedisAgrees(s: State, t: State)
    requires Init(s) && Reaches(s, t, Anything())
    ensures forall p :: Replied(p) in t.world.redis.keys ==> p in t.world.log
    ensures forall a :: a in t.world.redis.hashes ==>
              a in t.accounts && CachedVerdict(t.world.redis.hashes[a]) == Verdict(t.accounts[a])
    ensures forall i :: 0 <= i < |t.handlers| && t.handlers[i].phase == Finished(DuplicateInRedis) ==>
              t.handlers[i].msg.pair in t.world.log
    ensures forall i :: 0 <= i < |t.handlers| && t.handlers[i].phase == Finished(Disabled) ==>
              var a := t.handlers[i].msg.pair.account;
              a in t.accounts && Verdict(t.accounts[a]) == None
    ensures forall i :: 0 <= i < |t.handlers| && t.handlers[i].phase == Finished(DuplicateInLog) ==>
              t.handlers[i].msg.pair in t.world.log
    ensures forall i :: 0 <= i < |t.handlers| && t.handlers[i].phase == Finished(UnknownAccount) ==>
              t.handlers[i].msg.pair.account !in t.accounts
  {
    Reached(s, t);
    forall a | a in t.world.redis.hashes ensures CachedVerdict(t.world.redis.hashes[a]) == Verdict(t.accounts[a]) {
      SeedAgrees(t.accounts[a]);
    }
    forall i | 0 <= i < |t.handlers|
      ensures Sound(t.accounts, t.world.log, t.handlers[i].msg, t.handlers[i].phase)
    {
    }
  }

  /** Every reply that leaves carries the text of an enabled account, to a sender
      that is no service bot; group and bot messages never get past validation. */
  lemma OnlyEligibleReplies(s: State, t: State)
    requires Init(s) && Reaches(s, t, Anything())
    ensures forall i :: 0 <= i < |t.world.sends| ==>
              var r := t.world.sends[i];
              && r.pair.account in t.accounts && Verdict(t.accounts[r.pair.account]) == Some(r.text)
              && r.pair.sender != 777000 && r.pair.sender != 42777 && r.pair.sender != 178220800
    ensures forall i :: 0 <= i < |t.handlers| && !Eligible(t.handlers[i].msg) ==>
              t.handlers[i].phase == Finished(GroupFiltered) || t.handlers[i].phase == Finished(ServiceFiltered)
  {
    Reached(s, t);
    forall i | 0 <= i < |t.handlers|
      ensures Sound(t.accounts, t.world.log, t.handlers[i].msg, t.handlers[i].phase)
    {
    }
  }

  // ----- What the keys are for

  /** The key is set and lives at least until `until`. */
  predicate Alive(w: World, k: Key, until: real) {
    k in w.redis.keys && k in w.redis.ttls && w.redis.ttls[k] >= until
  }

  /** How long a marker or a cooldown is set for. */
  function Lifetime(k: Key): real {
    if k.Replied? then MARKER_SECONDS else COOLDOWN_SECONDS
  }

  function Until(until: real): State -> bool {
    (s: State) => s.now <= until
  }

  lemma StageKeepsAlive(w: World, accounts: map<string, Row>, now: real, m: Message, p: Phase, k: Key, until: real)
    requires !p.Finished? && (k.Replied? || k.Cooldown?)
    requires Alive(w, k, until) && now <= until <= now + Lifetime(k)
    ensures Alive(Stage(w, accounts, now, m, p).0, k, until)
  {
    if Probing(p) {
      ProbeEffect(w, accounts, now, m, p);
    }
  }

  lemma {:induction false} RunKeepsAlive(s: State, es: seq<Event>, k: Key, until: real)
    requires Run(s, es, Until(until)) && (k.Replied? || k.Cooldown?)
    requires Alive(s.world, k, until) && until <= s.now + Lifetime(k)
    ensures Alive(Final(s, es, Until(until)).world, k, until)
    decreases |es|
  {
    if es != [] {
      var e := es[0];
      if e.Resume? {
        StageKeepsAlive(s.world, s.accounts, s.now, s.handlers[e.id].msg, s.handlers[e.id].phase, k, until);
      }
      RunKeepsAlive(Next(s, e), es[1..], k, until);
    }
  }

  /** For thirty days after a reply was reported, or found in the log, whatever else
      happens meanwhile, a message of that pair gets no further than the marker. */
  lemma MarkerSuppresses(s: State, i: nat, es: seq<Event>, j: nat)
    requires Enabled(s, Resume(i)) && (s.handlers[i].phase.AtSetMarker? || s.handlers[i].phase.AtMark?)
    requires Run(Next(s, Resume(i)), es, Until(s.now + 30.0 * 86400.0))
    requires var t := Final(Next(s, Resume(i)), es, Until(s.now + 30.0 * 86400.0));
             j < |t.handlers| && t.handlers[j].phase.AtMarker? && t.handlers[j].msg.pair == s.handlers[i].msg.pair
    ensures var t := Final(Next(s, Resume(i)), es, Until(s.now + 30.0 * 86400.0));
            Next(t, Resume(j)).handlers[j].phase == Finished(DuplicateInRedis)
  {
    var until := s.now + 30.0 * 86400.0;
    RunKeepsAlive(Next(s, Resume(i)), es, Replied(s.handlers[i].msg.pair), until);
    LastState(Next(s, Resume(i)), es, Until(until));
  }

  /** For five seconds after its cooldown was set, a pair gets no further than the cooldown check. */
  lemma CooldownSuppresses(s: State, i: nat, es: seq<Event>, j: nat)
    requires Enabled(s, Resume(i)) && s.handlers[i].phase.AtSetCooldown?
    requires Run(Next(s, Resume(i)), es, Until(s.now + 5.0))
    requires var t := Final(Next(s, Resume(i)), es, Until(s.now + 5.0));
             j < |t.handlers| && t.handlers[j].phase.AtCooldown? && t.handlers[j].msg.pair == s.handlers[i].msg.pair
    ensures var t := Final(Next(s, Resume(i)), es, Until(s.now + 5.0));
            Next(t, Resume(j)).handlers[j].phase == Finished(RateLimited)
  {
    var until := s.now + 5.0;
    RunKeepsAlive(Next(s, Resume(i)), es, Cooldown(s.handlers[i].msg.pair), until);
    LastState(Next(s, Resume(i)), es, Until(until));
  }

  lemma {:induction false} LastState(s: State, es: seq<Event>, ok: State -> bool)
    requires Run(s, es, ok)
    ensures ok(Final(s, es, ok))
    decreases |es|
  {
    if es != [] {
      LastState(Next(s, es[0]), es[1..], ok);
    }
  }
}
