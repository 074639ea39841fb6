/** The protocols are stated over structured Redis keys. Rendered to the strings
    the code builds, different keys stay different, so nothing is lost by that. */
module RedisKeys {
  import opened Text
  import AutoReply

  function RenderPair(p: AutoReply.Pair): string {
    p.account + ":" + DecInt(p.sender)
  }

  function Render(k: AutoReply.Key): string {
    match k
    case Replied(p) => "autoreply:replied:" + RenderPair(p)
    case Cooldown(p) => "autoreply:cooldown:" + RenderPair(p)
    case Lock(p) => "lock:autoreply:" + RenderPair(p)
    case Rate(a, hour) => "autoreply:rate:" + (a + ":" + DecInt(hour))
  }

  lemma RenderText(p: AutoReply.Pair, a: string, hour: int)
    ensures Render(AutoReply.Replied(p)) == "autoreply:replied:" + p.account + ":" + DecInt(p.sender)
    ensures Render(AutoReply.Cooldown(p)) == "autoreply:cooldown:" + p.account + ":" + DecInt(p.sender)
    ensures Render(AutoReply.Lock(p)) == "lock:autoreply:" + p.account + ":" + DecInt(p.sender)
    ensures Render(AutoReply.Rate(a, hour)) == "autoreply:rate:" + a + ":" + DecInt(hour)
  {
  }

  /** The number ends the key and holds no colon, so an account id may hold any. */
  lemma NumberedInjective(a: string, m: int, b: string, n: int)
    requires a + ":" + DecInt(m) == b + ":" + DecInt(n)
    ensures a == b && m == n
  {
    LastSeparator(a, DecInt(m), b, DecInt(n), ':');
    DecIntInjective(m, n);
  }

  /** The twelfth character gives the kind away. */
  lemma Signature(k: AutoReply.Key)
    ensures |Render(k)| > 11
    ensures Render(k)[11] == if k.Replied? then 'e' else if k.Cooldown? then 'o' else if k.Lock? then 'p' else 'a'
  {
    match k
    case Replied(p) => assert Render(k)[11] == "autoreply:replied:"[11];
    case Cooldown(p) => assert Render(k)[11] == "autoreply:cooldown:"[11];
    case Lock(p) => assert Render(k)[11] == "lock:autoreply:"[11];
    case Rate(a, hour) => assert Render(k)[11] == "autoreply:rate:"[11];
  }

  /** Different keys of the auto-reply pipeline never share a Redis string. */
  lemma RenderInjective(k: AutoReply.Key, l: AutoReply.Key)
    requires Render(k) == Render(l)
    ensures k == l
  {
    Signature(k);
    Signature(l);
    match k
    case Replied(p) =>
      PrefixCancels("autoreply:replied:", RenderPair(p), RenderPair(l.pair));
      NumberedInjective(p.account, p.sender, l.pair.account, l.pair.sender);
    case Cooldown(p) =>
      PrefixCancels("autoreply:cooldown:", RenderPair(p), RenderPair(l.pair));
      NumberedInjective(p.account, p.sender, l.pair.account, l.pair.sender);
    case Lock(p) =>
      PrefixCancels("lock:autoreply:", RenderPair(p), RenderPair(l.pair));
      NumberedInjective(p.account, p.sender, l.pair.account, l.pair.sender);
    case Rate(a, hour) =>
      PrefixCancels("autoreply:rate:", a + ":" + DecInt(hour), l.account + ":" + DecInt(l.hour));
      NumberedInjective(a, hour, l.account, l.hour);
  }
}
