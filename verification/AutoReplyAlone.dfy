/** What becomes of a message whose handler runs without another one in between: one
    decision table over the cache, the accounts, the log and the live Redis keys. */
module AutoReplyAlone {
  import opened Options
  import opened AutoReply

  /** The key is there and has not run out. */
  predicate Present(r: Redis, k: Key, now: real) {
    k in r.keys && !(k in r.ttls && now > r.ttls[k])
  }

  /** The switch and the text that count for an account: the cached ones before the row's. */
  function ConfigOf(w: World, accounts: map<string, Row>, a: string): Option<(bool, string)> {
    if a in w.redis.hashes then Some((w.redis.hashes[a].enabled == "True", w.redis.hashes[a].text))
    else if a in accounts then Some((accounts[a].enabled, if accounts[a].text.Some? then accounts[a].text.value else ""))
    else None
  }

  /** The table, first match first. */
  function Ruling(w: World, accounts: map<string, Row>, now: real, m: Message): Outcome {
    var config := ConfigOf(w, accounts, m.pair.account);
    var counter := Rate(m.pair.account, HourOf(m.simTime));
    if !m.isPrivate then GroupFiltered
    else if m.isBot || m.pair.sender == 777000 || m.pair.sender == 42777 || m.pair.sender == 178220800 then ServiceFiltered
    else if config.None? then UnknownAccount
    else if !config.value.0 || config.value.1 == "" then Disabled
    else if Present(w.redis, Replied(m.pair), now) then DuplicateInRedis
    else if m.pair in w.log then DuplicateInLog
    else if Present(w.redis, Cooldown(m.pair), now) then RateLimited
    else if Present(w.redis, counter, now) && w.redis.keys[counter] >= 30 then RateLimited
    else if Present(w.redis, Lock(m.pair), now) then LockTaken
    else Sent
  }

  /** Reading a key takes nothing away that is still there. */
  lemma PurgeKeeps(r: Redis, k: Key, now: real)
    ensures var r' := Purge(r, k, now);
            && r'.hashes == r.hashes
            && forall q :: (Present(r', q, now) <==> Present(r, q, now)) && (Present(r, q, now) ==> r'.keys[q] == r.keys[q])
    ensures k in Purge(r, k, now).keys <==> Present(r, k, now)
  {
  }

  /** The handler ends with this outcome; if it replies, it sends and logs the reply, and
      otherwise it does neither. */
  ghost predicate Ends(w: World, m: Message, text: string, end: (World, Phase), o: Outcome) {
    && end.1 == Finished(o)
    && end.0.sends == (if o == Sent then w.sends + [Reply(m.pair, text)] else w.sends)
    && end.0.log == (if o == Sent then w.log + {m.pair} else w.log)
  }

  lemma FromRecord(w: World, accounts: map<string, Row>, now: real, m: Message, t: real, n: nat)
    requires m.pair !in w.log && n >= 4
    ensures var (w', p') := Walk(w, accounts, now, m, AtRecord(t), n);
            p' == Finished(Sent) && w'.sends == w.sends && w'.log == w.log + {m.pair}
  {
    var w1 := Stage(w, accounts, now, m, AtRecord(t)).0;
    var w2 := Stage(w1, accounts, now, m, AtSetCooldown).0;
    var w3 := Stage(w2, accounts, now, m, AtIncr).0;
    var w4 := Stage(w3, accounts, now, m, AtSetMarker).0;
    assert Walk(w, accounts, now, m, AtRecord(t), n) == Walk(w1, accounts, now, m, AtSetCooldown, n - 1);
    assert Walk(w1, accounts, now, m, AtSetCooldown, n - 1) == Walk(w2, accounts, now, m, AtIncr, n - 2);
    assert Walk(w2, accounts, now, m, AtIncr, n - 2) == Walk(w3, accounts, now, m, AtSetMarker, n - 3);
    assert Walk(w3, accounts, now, m, AtSetMarker, n - 3) == Walk(w4, accounts, now, m, Finished(Sent), n - 4);
  }

  lemma FromLock(w: World, accounts: map<string, Row>, now: real, m: Message, text: string, t: real, n: nat)
    requires m.pair !in w.log && n >= 6
    ensures Ends(w, m, text, Walk(w, accounts, now, m, AtLock(text, t), n),
                 if Present(w.redis, Lock(m.pair), now) then LockTaken else Sent)
  {
    PurgeKeeps(w.redis, Lock(m.pair), now);
    var (w1, p1) := Stage(w, accounts, now, m, AtLock(text, t));
    assert Walk(w, accounts, now, m, AtLock(text, t), n) == Walk(w1, accounts, now, m, p1, n - 1);
    if p1.AtSend? {
      var w2 := Stage(w1, accounts, now, m, p1).0;
      assert Walk(w1, accounts, now, m, p1, n - 1) == Walk(w2, accounts, now, m, AtRecord(now), n - 2);
      FromRecord(w2, accounts, now, m, now, n - 2);
    }
  }

  lemma FromRate(w: World, accounts: map<string, Row>, now: real, m: Message, text: string, t: real, n: nat)
    requires m.pair !in w.log && n >= 7
    ensures var counter := RateKey(m);
            Ends(w, m, text, Walk(w, accounts, now, m, AtRate(text, t), n),
                 if Present(w.redis, counter, now) && w.redis.keys[counter] >= 30 then RateLimited
                 else if Present(w.redis, Lock(m.pair), now) then LockTaken else Sent)
  {
    PurgeKeeps(w.redis, RateKey(m), now);
    var (w1, p1) := Stage(w, accounts, now, m, AtRate(text, t));
    assert Walk(w, accounts, now, m, AtRate(text, t), n) == Walk(w1, accounts, now, m, p1, n - 1);
    if p1.AtLock? {
      FromLock(w1, accounts, now, m, text, t, n - 1);
    }
  }

  /** What the rate limit and the lock rule, for a pair that is not logged. */
  function LateRuling(w: World, now: real, m: Message): Outcome {
    var counter := RateKey(m);
    if Present(w.redis, Cooldown(m.pair), now) then RateLimited
    else if Present(w.redis, counter, now) && w.redis.keys[counter] >= 30 then RateLimited
    else if Present(w.redis, Lock(m.pair), now) then LockTaken else Sent
  }

  lemma FromCooldown(w: World, accounts: map<string, Row>, now: real, m: Message, text: string, t: real, n: nat)
    requires m.pair !in w.log && n >= 8
    ensures Ends(w, m, text, Walk(w, accounts, now, m, AtCooldown(text, t), n), LateRuling(w, now, m))
  {
    PurgeKeeps(w.redis, Cooldown(m.pair), now);
    var (w1, p1) := Stage(w, accounts, now, m, AtCooldown(text, t));
    assert Walk(w, accounts, now, m, AtCooldown(text, t), n) == Walk(w1, accounts, now, m, p1, n - 1);
    if p1.AtRate? {
      FromRate(w1, accounts, now, m, text, t, n - 1);
    }
  }

  lemma FromLog(w: World, accounts: map<string, Row>, now: real, m: Message, text: string, n: nat)
    requires n >= 9
    ensures Ends(w, m, text, Walk(w, accounts, now, m, AtLog(text), n),
                 if m.pair in w.log then DuplicateInLog else LateRuling(w, now, m))
  {
    var (w1, p1) := Stage(w, accounts, now, m, AtLog(text));
    assert Walk(w, accounts, now, m, AtLog(text), n) == Walk(w1, accounts, now, m, p1, n - 1);
    if p1.AtMark? {
      var (w2, p2) := Stage(w1, accounts, now, m, p1);
      assert Walk(w1, accounts, now, m, p1, n - 1) == Walk(w2, accounts, now, m, p2, n - 2);
    } else {
      FromCooldown(w1, accounts, now, m, text, now, n - 1);
    }
  }

  lemma FromMarker(w: World, accounts: map<string, Row>, now: real, m: Message, text: string, n: nat)
    requires n >= 10
    ensures Ends(w, m, text, Walk(w, accounts, now, m, AtMarker(text), n),
                 if Present(w.redis, Replied(m.pair), now) then DuplicateInRedis
                 else if m.pair in w.log then DuplicateInLog else LateRuling(w, now, m))
  {
    PurgeKeeps(w.redis, Replied(m.pair), now);
    var (w1, p1) := Stage(w, accounts, now, m, AtMarker(text));
    assert Walk(w, accounts, now, m, AtMarker(text), n) == Walk(w1, accounts, now, m, p1, n - 1);
    if p1.AtLog? {
      FromLog(w1, accounts, now, m, text, n - 1);
    }
  }

  lemma FromDecision(w: World, accounts: map<string, Row>, now: real, m: Message, enabled: bool, text: string, n: nat)
    requires n >= 10
    ensures var (w1, p1) := Decide(w, enabled, text);
            Ends(w, m, text, Walk(w1, accounts, now, m, p1, n),
                 if !enabled || text == "" then Disabled
                 else if Present(w.redis, Replied(m.pair), now) then DuplicateInRedis
                 else if m.pair in w.log then DuplicateInLog else LateRuling(w, now, m))
  {
    if enabled && text != "" {
      FromMarker(w, accounts, now, m, text, n);
    }
  }

  /** Writing the config back changes no key. */
  lemma CachedRuling(w: World, now: real, m: Message, a: string, c: Config)
    ensures var w' := w.(redis := HSet(w.redis, a, c));
            LateRuling(w', now, m) == LateRuling(w, now, m)
            && (Present(w'.redis, Replied(m.pair), now) <==> Present(w.redis, Replied(m.pair), now))
  {
  }

  lemma FromAccount(w: World, accounts: map<string, Row>, now: real, m: Message, n: nat)
    requires m.pair.account !in w.redis.hashes && m.pair.account in accounts && n >= 12
    ensures var row := accounts[m.pair.account];
            Ends(w, m, Text(row.text), Walk(w, accounts, now, m, AtAccount, n),
                 if !row.enabled || Text(row.text) == "" then Disabled
                 else if Present(w.redis, Replied(m.pair), now) then DuplicateInRedis
                 else if m.pair in w.log then DuplicateInLog else LateRuling(w, now, m))
  {
    var a, row := m.pair.account, accounts[m.pair.account];
    var w1 := w.(redis := HSet(w.redis, a, CacheOf(row)));
    var (w2, p2) := Decide(w1, row.enabled, Text(row.text));
    assert Walk(w, accounts, now, m, AtAccount, n) == Walk(w, accounts, now, m, AtCache(row), n - 1);
    assert Walk(w, accounts, now, m, AtCache(row), n - 1) == Walk(w2, accounts, now, m, p2, n - 2);
    FromDecision(w1, accounts, now, m, row.enabled, Text(row.text), n - 2);
    CachedRuling(w, now, m, a, CacheOf(row));
  }

  lemma FromConfig(w: World, accounts: map<string, Row>, now: real, m: Message)
    requires Private(m)
    ensures var config := ConfigOf(w, accounts, m.pair.account);
            Ends(w, m, if config.Some? then config.value.1 else "", Walk(w, accounts, now, m, AtConfig, 13), Ruling(w, accounts, now, m))
  {
    var a := m.pair.account;
    var (w1, p1) := Stage(w, accounts, now, m, AtConfig);
    assert Walk(w, accounts, now, m, AtConfig, 13) == Walk(w1, accounts, now, m, p1, 12);
    if a in w.redis.hashes {
      FromDecision(w, accounts, now, m, w.redis.hashes[a].enabled == "True", w.redis.hashes[a].text, 12);
    } else if a in accounts {
      FromAccount(w, accounts, now, m, 12);
    } else {
      var (w2, p2) := Stage(w, accounts, now, m, AtAccount);
      assert Walk(w, accounts, now, m, AtAccount, 12) == Walk(w2, accounts, now, m, p2, 11);
    }
  }

  predicate Private(m: Message) {
    m.isPrivate && !m.isBot && m.pair.sender != 777000 && m.pair.sender != 42777 && m.pair.sender != 178220800
  }

  /** For every world and every message: a handler that runs alone ends exactly as the
      table says, within thirteen stages; it sends the account's text once and logs the
      pair if that is a reply, and otherwise neither sends nor logs. */
  lemma AloneExactly(w: World, accounts: map<string, Row>, now: real, m: Message)
    ensures var (w1, p1) := Arrival(w, m);
            var config := ConfigOf(w, accounts, m.pair.account);
            Ends(w, m, if config.Some? then config.value.1 else "", Walk(w1, accounts, now, m, p1, 13), Ruling(w, accounts, now, m))
  {
    var (w1, p1) := Arrival(w, m);
    if Private(m) {
      assert p1 == AtConfig;
      FromConfig(w1, accounts, now, m);
      assert Ruling(w1, accounts, now, m) == Ruling(w, accounts, now, m);
    }
  }
}
