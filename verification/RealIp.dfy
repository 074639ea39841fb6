/** Which address a request is taken to come from, behind trusted proxies. Address
    syntax and range membership are parameters. */
module RealIp {
  import opened Options
  import opened Text

  /** `valid` is address syntax; `inRanges` is membership in a trusted range. */
  datatype Proxies = Proxies(valid: string -> bool, inRanges: string -> bool)

  predicate Trusted(p: Proxies, ip: string) {
    p.valid(ip) && p.inRanges(ip)
  }

  // ----- The trusted ranges

  /** The configured ranges up to the first one that does not parse; blank ones are skipped. */
  function Parsed<C>(extra: seq<string>, parse: string -> Option<C>): seq<C> {
    if extra == [] then []
    else
      var s := Strip(extra[0]);
      if s == "" then Parsed(extra[1..], parse)
      else
        match parse(s)
        case None => []
        case Some(c) => [c] + Parsed(extra[1..], parse)
  }

  /** The entry is blank or parses. */
  predicate Fine<C>(s: string, parse: string -> Option<C>) {
    Strip(s) == "" || parse(Strip(s)).Some?
  }

  /** One entry on its own: nothing when blank or bad, else its range. */
  lemma ParsedOne<C>(s: string, parse: string -> Option<C>)
    ensures Parsed([s], parse) == if Strip(s) != "" && parse(Strip(s)).Some? then [parse(Strip(s)).value] else []
  {
  }

  /** Entries add up to the first bad one, and nothing behind it counts. */
  lemma {:induction false} ParsedJoin<C>(a: seq<string>, b: seq<string>, parse: string -> Option<C>)
    ensures Parsed(a + b, parse) ==
            if forall i :: 0 <= i < |a| ==> Fine(a[i], parse) then Parsed(a, parse) + Parsed(b, parse) else Parsed(a, parse)
  {
    if a == [] {
      assert a + b == b;
    } else {
      assert (a + b)[1..] == a[1..] + b;
      assert forall i :: 1 <= i < |a| ==> a[i] == a[1..][i - 1];
      assert (forall i :: 0 <= i < |a| ==> Fine(a[i], parse)) <==>
             Fine(a[0], parse) && forall i :: 0 <= i < |a[1..]| ==> Fine(a[1..][i], parse);
      ParsedJoin(a[1..], b, parse);
    }
  }

  /** The built-in ranges and the configured ones; a bad entry ends the configured part without undoing it. */
  method BuildTrustedCidrs<C>(builtin: seq<C>, extra: seq<string>, parse: string -> Option<C>) returns (cidrs: seq<C>)
    ensures cidrs == builtin + Parsed(extra, parse)
  {
    cidrs := builtin;
    var i := 0;
    while i < |extra|
      invariant 0 <= i <= |extra|
      invariant cidrs + Parsed(extra[i..], parse) == builtin + Parsed(extra, parse)
    {
      var s := Strip(extra[i]);
      assert extra[i..][0] == extra[i] && extra[i..][1..] == extra[i + 1..];
      if s != "" {
        var c := parse(s);
        if c.None? {
          assert Parsed(extra[i..], parse) == [];
          return;
        }
        cidrs := cidrs + [c.value];
      }
      i := i + 1;
    }
  }

  // ----- The forwarded header

  function StripAll(pieces: seq<string>): (r: seq<string>)
    ensures |r| == |pieces| && forall i :: 0 <= i < |r| ==> r[i] == Strip(pieces[i])
  {
    seq(|pieces|, i requires 0 <= i < |pieces| => Strip(pieces[i]))
  }

  function Entries(header: string): seq<string> {
    StripAll(Split(header, ','))
  }

  /** `i` is the rightmost entry that is no trusted proxy. */
  predicate Rightmost(p: Proxies, es: seq<string>, i: int) {
    0 <= i < |es| && !Trusted(p, es[i]) && forall j :: i < j < |es| ==> Trusted(p, es[j])
  }

  predicate HasUntrusted(p: Proxies, es: seq<string>) {
    exists i :: 0 <= i < |es| && !Trusted(p, es[i])
  }

  /** The loop from the right: stop at the first entry that is not trusted, and take it if it is an address. */
  method WalkBack(p: Proxies, es: seq<string>, client: string) returns (ip: string)
    ensures !HasUntrusted(p, es) ==> ip == client
    ensures forall i :: Rightmost(p, es, i) ==> ip == if p.valid(es[i]) then es[i] else client
  {
    var i := |es|;
    while i > 0
      invariant 0 <= i <= |es|
      invariant forall j :: i <= j < |es| ==> Trusted(p, es[j])
    {
      i := i - 1;
      if !Trusted(p, es[i]) {
        return if p.valid(es[i]) then es[i] else client;
      }
    }
    return client;
  }

  /** The place of the rightmost entry that is not trusted, or -1. */
  function LastUntrusted(p: Proxies, es: seq<string>): (i: int)
    ensures i == -1 || Rightmost(p, es, i)
    ensures i == -1 ==> forall j :: 0 <= j < |es| ==> Trusted(p, es[j])
  {
    if es == [] then -1
    else if Trusted(p, es[|es| - 1]) then LastUntrusted(p, es[..|es| - 1])
    else |es| - 1
  }

  /** The address found by the walk, as a function of the entries. */
  function Walked(p: Proxies, es: seq<string>, client: string): string {
    var i := LastUntrusted(p, es);
    if i >= 0 && p.valid(es[i]) then es[i] else client
  }

  /** Entries further left do not matter once an untrusted one has been met. */
  lemma WalkedIgnoresLeft(p: Proxies, left: seq<string>, es: seq<string>, client: string)
    requires HasUntrusted(p, es)
    ensures Walked(p, left + es, client) == Walked(p, es, client)
  {
    var i, k := LastUntrusted(p, es), LastUntrusted(p, left + es);
    assert (left + es)[|left| + i] == es[i];
    assert |left| <= k;
    assert (left + es)[k] == es[k - |left|];
    assert k == |left| + i;
  }

  /** Nothing but trusted proxies on the right: the walk goes on to the left. */
  lemma WalkedPassesTrusted(p: Proxies, left: seq<string>, es: seq<string>, client: string)
    requires !HasUntrusted(p, es)
    ensures Walked(p, left + es, client) == Walked(p, left, client)
  {
    var i, k := LastUntrusted(p, left), LastUntrusted(p, left + es);
    assert forall j :: |left| <= j < |left + es| ==> (left + es)[j] == es[j - |left|];
    assert forall j :: 0 <= j < |left| ==> (left + es)[j] == left[j];
    assert k < |left|;
    assert k == i;
  }

  lemma StripAllConcat(x: seq<string>, y: seq<string>)
    ensures StripAll(x + y) == StripAll(x) + StripAll(y)
  {
  }

  lemma EntriesJoin(a: string, b: string)
    ensures Entries(a + "," + b) == Entries(a) + Entries(b)
  {
    SplitJoin(a, b, ',');
    StripAllConcat(Split(a, ','), Split(b, ','));
  }

  // ----- The middleware

  /** The client address after the middleware: nothing is believed unless the peer is
      trusted; CF-Connecting-IP goes before X-Forwarded-For. */
  function Resolved(p: Proxies, client: string, cf: Option<string>, forwarded: Option<string>): string {
    if !Trusted(p, client) then client
    else if cf.Some? && cf.value != "" then
      if p.valid(Strip(cf.value)) then Strip(cf.value) else client
    else if forwarded.Some? && forwarded.value != "" then Walked(p, Entries(forwarded.value), client)
    else client
  }

  method Resolve(p: Proxies, client: string, cf: Option<string>, forwarded: Option<string>) returns (ip: string)
    ensures ip == Resolved(p, client, cf, forwarded)
    ensures !(p.valid(client) && p.inRanges(client)) ==> ip == client
    ensures p.valid(client) && p.inRanges(client) && cf.Some? && cf.value != "" ==>
              ip == if p.valid(Strip(cf.value)) then Strip(cf.value) else client
    ensures (cf.None? || cf.value == "") && (forwarded.None? || forwarded.value == "") ==> ip == client
  {
    if !Trusted(p, client) {
      return client;
    }
    if cf.Some? && cf.value != "" {
      var s := Strip(cf.value);
      return if p.valid(s) then s else client;
    }
    if forwarded.Some? && forwarded.value != "" {
      var es := Entries(forwarded.value);
      ip := WalkBack(p, es, client);
      return;
    }
    return client;
  }

  /** An untrusted peer is never believed, whatever headers it sends. */
  lemma UntrustedPeerStays(p: Proxies, client: string, cf: Option<string>, forwarded: Option<string>)
    requires !(p.valid(client) && p.inRanges(client))
    ensures Resolved(p, client, cf, forwarded) == client
  {
  }

  /** Behind a trusted peer a CF-Connecting-IP that is not empty decides: the address in it,
      white space aside, or the peer if it holds none, whatever X-Forwarded-For says. */
  lemma ConnectingIpDecides(p: Proxies, client: string, l: string, x: string, r: string, forwarded: Option<string>)
    requires p.valid(client) && p.inRanges(client) && l + x + r != ""
    requires AllSpace(l) && Bare(x) && AllSpace(r)
    ensures Resolved(p, client, Some(l + x + r), forwarded) == if p.valid(x) then x else client
  {
    StripExactly(l, x, r);
  }

  /** What the address can be: the peer, or a well-formed address; the rightmost
      entry that is no trusted proxy when it is well formed, else the peer. */
  lemma ResolvedFromForwarded(p: Proxies, client: string, header: string, i: int)
    requires Trusted(p, client) && header != "" && Rightmost(p, Entries(header), i)
    ensures Resolved(p, client, None, Some(header)) ==
            if p.valid(Entries(header)[i]) then Entries(header)[i] else client
  {
    assert LastUntrusted(p, Entries(header)) == i;
  }

  /** A header that names somebody who is no trusted proxy hides all that was written before it. */
  lemma PrependingIgnored(p: Proxies, client: string, header: string, junk: string)
    requires Trusted(p, client) && header != "" && HasUntrusted(p, Entries(header))
    ensures Resolved(p, client, None, Some(junk + "," + header)) == Resolved(p, client, None, Some(header))
  {
    EntriesJoin(junk, header);
    WalkedIgnoresLeft(p, Entries(junk), Entries(header), client);
  }

  /** A header of trusted proxies only lets what is written before it be believed. */
  lemma PrependingBelieved(p: Proxies, client: string, header: string, x: string)
    requires Trusted(p, client) && header != "" && !HasUntrusted(p, Entries(header))
    requires p.valid(x) && !p.inRanges(x) && ',' !in x && Strip(x) == x
    ensures Resolved(p, client, None, Some(x + "," + header)) == x
    ensures Resolved(p, client, None, Some(header)) == client != x
  {
    EntriesJoin(x, header);
    WholeEntry(x);
    WalkedPassesTrusted(p, [x], Entries(header), client);
    assert LastUntrusted(p, [x]) == 0;
    assert LastUntrusted(p, Entries(header)) == -1;
  }

  /** What a client writes in front of the header that the proxies append to changes
      nothing, exactly when the header itself names somebody who is no trusted proxy.
      `x` is any well-formed address outside the trusted ranges. */
  lemma PrependingExactly(p: Proxies, client: string, header: string, x: string)
    requires Trusted(p, client) && header != ""
    requires p.valid(x) && !p.inRanges(x) && ',' !in x && Strip(x) == x
    ensures (forall junk :: Resolved(p, client, None, Some(junk + "," + header)) == Resolved(p, client, None, Some(header)))
            <==> HasUntrusted(p, Entries(header))
  {
    if HasUntrusted(p, Entries(header)) {
      forall junk: string
        ensures Resolved(p, client, None, Some(junk + "," + header)) == Resolved(p, client, None, Some(header))
      {
        PrependingIgnored(p, client, header, junk);
      }
    } else {
      PrependingBelieved(p, client, header, x);
    }
  }

  lemma {:induction false} NoSeparator(s: string, c: char)
    requires c !in s
    ensures Split(s, c) == [s]
  {
    if s != [] {
      NoSeparator(s[1..], c);
      assert Glue(s[0], [s[1..]], c) == [[s[0]] + s[1..]];
      assert [s[0]] + s[1..] == s;
    }
  }

  lemma WholeEntry(x: string)
    requires ',' !in x && Strip(x) == x
    ensures Entries(x) == [x]
  {
    NoSeparator(x, ',');
  }
}
