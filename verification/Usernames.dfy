/** Username candidates for a name: five templates per round, shuffled, with a
    random number each, cut to 32 characters at the expense of the last name. */
module Usernames {
  import opened Options
  import opened Counting
  import opened Text

  const MAX_LENGTH: nat := 32

  datatype Template = FirstLastNumber | First_Last | FirstNumberLast | First_Number_Last | FirstLast_Number

  const TEMPLATES := [FirstLastNumber, First_Last, FirstNumberLast, First_Number_Last, FirstLast_Number]

  predicate IsLetter(c: char) {
    'a' <= c <= 'z'
  }

  predicate Letters(s: string) {
    forall i :: 0 <= i < |s| ==> IsLetter(s[i])
  }

  function Lower(c: char): char {
    if 'A' <= c <= 'Z' then c - 'A' + 'a' else c
  }

  /** Lower case, and only the letters: what is left of a name once it is ASCII. */
  function Normalized(ascii: string): (r: string)
    ensures Letters(r) && |r| <= |ascii|
  {
    if ascii == [] then []
    else
      var rest := Normalized(ascii[1..]);
      if IsLetter(Lower(ascii[0])) then [Lower(ascii[0])] + rest else rest
  }

  /** Names are normalised letter by letter: capitals become small, and what is no letter goes. */
  lemma {:induction false} NormalizedJoin(a: string, b: string)
    ensures Normalized(a + b) == Normalized(a) + Normalized(b)
  {
    if a == "" {
      assert a + b == b;
    } else {
      assert (a + b)[1..] == a[1..] + b;
      NormalizedJoin(a[1..], b);
    }
  }

  lemma NormalizedOne(c: char)
    ensures Normalized([c]) == if 'a' <= c <= 'z' then [c] else if 'A' <= c <= 'Z' then [c - 'A' + 'a'] else []
  {
  }

  function Format(t: Template, first: string, last: string, number: string): string {
    match t
    case FirstLastNumber => first + last + number
    case First_Last => first + "_" + last
    case FirstNumberLast => first + number + last
    case First_Number_Last => first + "_" + number + "_" + last
    case FirstLast_Number => first + last + "_" + number
  }

  /** What the template adds to the two names. */
  function Overhead(t: Template): nat {
    match t
    case FirstLastNumber => 2
    case First_Last => 1
    case FirstNumberLast => 2
    case First_Number_Last => 4
    case FirstLast_Number => 3
  }

  predicate IsNumber(s: string) {
    |s| == 2 && forall i :: 0 <= i < 2 ==> '0' <= s[i] <= '9'
  }

  lemma NumberText(n: nat)
    requires 10 <= n <= 99
    ensures IsNumber(Dec(n))
  {
    assert Dec(n) == Dec(n / 10) + [Digit(n % 10)];
    assert Dec(n / 10) == [Digit(n / 10)];
  }

  /** The five templates, written out. */
  lemma FormatText(first: string, last: string, number: string)
    ensures Format(TEMPLATES[0], first, last, number) == first + last + number
    ensures Format(TEMPLATES[1], first, last, number) == first + "_" + last
    ensures Format(TEMPLATES[2], first, last, number) == first + number + last
    ensures Format(TEMPLATES[3], first, last, number) == first + "_" + number + "_" + last
    ensures Format(TEMPLATES[4], first, last, number) == first + last + "_" + number
    ensures |TEMPLATES| == 5
  {
  }

  lemma FormatLength(t: Template, first: string, last: string, number: string)
    requires IsNumber(number)
    ensures |Format(t, first, last, number)| == |first| + |last| + Overhead(t)
  {
  }

  /** The username of one attempt; none when cutting would take the whole last name. */
  function Attempt(t: Template, first: string, last: string, number: string): Option<string> {
    var u := Format(t, first, last, number);
    if |u| <= MAX_LENGTH then Some(u)
    else
      var overflow := |u| - MAX_LENGTH;
      if overflow >= |last| then None else Some(Format(t, first, last[..|last| - overflow], number))
  }

  /** An attempt counts exactly when first name and template leave room for a letter of the last name. */
  lemma AttemptCountsExactly(t: Template, first: string, last: string, number: string)
    requires last != "" && IsNumber(number)
    ensures Attempt(t, first, last, number).Some? <==> |first| + Overhead(t) < MAX_LENGTH
  {
    FormatLength(t, first, last, number);
  }

  /** Cutting takes only the tail of the last name, never all of it, and lands on 32 characters. */
  lemma AttemptCutsTail(t: Template, first: string, last: string, number: string)
    requires last != "" && IsNumber(number) && Attempt(t, first, last, number).Some?
    ensures var u := Attempt(t, first, last, number).value;
            var n := MAX_LENGTH - |first| - Overhead(t);
            if |last| <= n then u == Format(t, first, last, number) && |u| <= MAX_LENGTH
            else 0 < n && u == Format(t, first, last[..n], number) && |u| == MAX_LENGTH
  {
    FormatLength(t, first, last, number);
    var n := MAX_LENGTH - |first| - Overhead(t);
    if |last| > n {
      FormatLength(t, first, last[..n], number);
    }
  }

  predicate UsernameChar(c: char) {
    IsLetter(c) || '0' <= c <= '9' || c == '_'
  }

  /** A letter and then 4 to 31 letters, digits or underscores. */
  predicate Matches(u: string) {
    5 <= |u| <= 32 && IsLetter(u[0]) && forall i :: 0 <= i < |u| ==> UsernameChar(u[i])
  }

  /** The pattern, character by character: a small letter, then small letters, digits and
      underscores, five to thirty-two in all. */
  lemma MatchesExactly(u: string)
    ensures Matches(u) <==>
            && 5 <= |u| <= 32 && 'a' <= u[0] <= 'z'
            && forall i :: 0 <= i < |u| ==> 'a' <= u[i] <= 'z' || '0' <= u[i] <= '9' || u[i] == '_'
  {
  }

  lemma FormatShape(t: Template, first: string, last: string, number: string)
    requires Letters(first) && Letters(last) && IsNumber(number) && first != ""
    ensures var u := Format(t, first, last, number);
            u != [] && first <= u && IsLetter(u[0]) && forall i :: 0 <= i < |u| ==> UsernameChar(u[i])
  {
    var u := Format(t, first, last, number);
    assert u[0] == first[0];
  }

  /** Every candidate begins with the whole first name, and the only way to miss the
      pattern is to be shorter than five characters. */
  lemma AttemptMatchesExactly(t: Template, first: string, last: string, number: string)
    requires Letters(first) && Letters(last) && IsNumber(number) && first != "" && last != ""
    requires Attempt(t, first, last, number).Some?
    ensures var u := Attempt(t, first, last, number).value;
            first <= u && (Matches(u) <==> |first| + |last| + Overhead(t) >= 5)
  {
    AttemptCutsTail(t, first, last, number);
    FormatLength(t, first, last, number);
    FormatShape(t, first, last, number);
    var n := MAX_LENGTH - |first| - Overhead(t);
    if |last| > n {
      FormatShape(t, first, last[..n], number);
    }
  }

  // ----- Rounds

  /** The template leaves room after a first name of `f` letters. */
  function Fits(f: nat): Template -> bool {
    (t: Template) => f + Overhead(t) < MAX_LENGTH
  }

  predicate IsShuffle(order: seq<Template>) {
    multiset(order) == multiset(TEMPLATES)
  }

  /** How many attempts a whole round counts. */
  function PerRound(f: nat): nat {
    Count(TEMPLATES, Fits(f))
  }

  lemma PerRoundExactly(f: nat)
    ensures PerRound(f) >= 1 <==> f <= 30
  {
    if f <= 30 {
      CountMember(TEMPLATES, 1, Fits(f));
    } else {
      CountNone(TEMPLATES, Fits(f));
    }
  }

  /** Shuffling changes no count. */
  lemma RoundOfShuffle(order: seq<Template>, f: nat)
    requires IsShuffle(order)
    ensures Count(order, Fits(f)) == PerRound(f)
  {
    CountShuffled(order, TEMPLATES, Fits(f));
  }

  function Capped(n: int, limit: int): int {
    if n < limit then n else limit
  }

  /** Where a candidate comes from. */
  ghost predicate Derived(u: string, first: string, last: string) {
    exists t, number :: IsNumber(number) && Attempt(t, first, last, number) == Some(u)
  }

  ghost predicate Distinct(us: seq<string>) {
    forall i, j :: 0 <= i < j < |us| ==> us[i] != us[j]
  }

  /** What is yielded of some tries, in order: the first of each that matches and is not reserved. */
  function Yielded(tries: seq<string>, reserved: set<string>): seq<string> {
    if tries == [] then []
    else
      var before, u := Yielded(tries[..|tries| - 1], reserved), tries[|tries| - 1];
      if u in reserved || u in before || !Matches(u) then before else before + [u]
  }

  /** What may not be yielded any more. */
  function Seen(us: seq<string>, reserved: set<string>): set<string> {
    reserved + set u | u in us
  }

  lemma YieldedNext(tries: seq<string>, reserved: set<string>, u: string)
    ensures var before := Yielded(tries, reserved);
            Yielded(tries + [u], reserved) == if u in reserved || u in before || !Matches(u) then before else before + [u]
  {
    assert (tries + [u])[..|tries|] == tries;
  }

  /** Every try that matches and is not reserved is yielded, once, and nothing else is. */
  lemma {:induction false} YieldedExactly(tries: seq<string>, reserved: set<string>)
    ensures var us := Yielded(tries, reserved);
            && |us| <= |tries| && Distinct(us)
            && forall u :: u in us <==> u in tries && Matches(u) && u !in reserved
  {
    if tries != [] {
      var n := |tries| - 1;
      YieldedExactly(tries[..n], reserved);
      assert tries == tries[..n] + [tries[n]];
    }
  }

  predicate InRange(n: int) {
    10 <= n <= 99
  }

  /** One attempt with a number from 10 to 99. */
  method TryTemplate(t: Template, first: string, last: string, n: int) returns (username: Option<string>)
    requires last != "" && InRange(n)
    ensures username.Some? <==> Fits(|first|)(t)
    ensures username.Some? ==> Derived(username.value, first, last)
    ensures username == Attempt(t, first, last, Dec(n))
  {
    var number := Dec(n);
    NumberText(n);
    AttemptCountsExactly(t, first, last, number);
    username := Attempt(t, first, last, number);
  }

  /** What chance decides in one round: the order of the templates and a number for each. */
  datatype Draw = Draw(order: seq<Template>, numbers: seq<int>)

  predicate Numbered(d: Draw) {
    |d.numbers| == |d.order| && forall i :: 0 <= i < |d.numbers| ==> InRange(d.numbers[i])
  }

  predicate Possible(d: Draw) {
    IsShuffle(d.order) && Numbered(d)
  }

  /** What is there, in order. */
  function Somes(o: seq<Option<string>>): seq<string> {
    if o == [] then []
    else Somes(o[..|o| - 1]) + match o[|o| - 1] case None => [] case Some(u) => [u]
  }

  lemma SomesNext(o: seq<Option<string>>, k: nat)
    requires k < |o|
    ensures Somes(o[..k + 1]) == Somes(o[..k]) + match o[k] case None => [] case Some(u) => [u]
  {
    assert o[..k + 1][..k] == o[..k];
  }

  lemma {:induction false} SomesPrefix(o: seq<Option<string>>, k: nat)
    requires k <= |o|
    ensures Somes(o[..k]) <= Somes(o)
    decreases |o| - k
  {
    if k == |o| {
      assert o[..k] == o;
    } else {
      SomesNext(o, k);
      SomesPrefix(o, k + 1);
    }
  }

  /** What the templates of a round make, in order: a username, or none for lack of room. */
  function Outcomes(first: string, last: string, d: Draw): (o: seq<Option<string>>)
    requires Numbered(d)
    ensures |o| == |d.order|
  {
    seq(|d.order|, i requires 0 <= i < |d.order| => Attempt(d.order[i], first, last, Dec(d.numbers[i])))
  }

  lemma OutcomeAt(first: string, last: string, d: Draw, i: nat)
    requires Numbered(d) && i < |d.order|
    ensures Outcomes(first, last, d)[i] == Attempt(d.order[i], first, last, Dec(d.numbers[i]))
  {
  }

  /** The usernames of a round. */
  function Tries(first: string, last: string, d: Draw): seq<string>
    requires Numbered(d)
  {
    Somes(Outcomes(first, last, d))
  }

  /** Takes the username if it is new and matches the pattern. */
  method Admit(us: seq<string>, seen: set<string>, u: string) returns (us': seq<string>, seen': set<string>)
    ensures us' == if u in seen || !Matches(u) then us else us + [u]
    ensures seen' == if u in seen || !Matches(u) then seen else seen + {u}
  {
    if u in seen || !Matches(u) {
      return us, seen;
    }
    return us + [u], seen + {u};
  }

  /** One template of a round: an attempt, if there is room, and its username, if it is new. */
  method Turn(first: string, last: string, t: Template, n: int, us: seq<string>, seen: set<string>,
              ghost reserved: set<string>, ghost tries: seq<string>)
    returns (username: Option<string>, us': seq<string>, seen': set<string>, ghost tries': seq<string>)
    requires last != "" && InRange(n) && us == Yielded(tries, reserved) && seen == Seen(us, reserved)
    ensures username == Attempt(t, first, last, Dec(n)) && (username.Some? <==> Fits(|first|)(t))
    ensures tries' == tries + match username case None => [] case Some(u) => [u]
    ensures us' == Yielded(tries', reserved) && seen' == Seen(us', reserved)
  {
    username := TryTemplate(t, first, last, n);
    us', seen', tries' := us, seen, tries;
    if username.Some? {
      us', seen' := Admit(us, seen, username.value);
      YieldedNext(tries, reserved, username.value);
      tries' := tries + [username.value];
    }
  }

  /** The same for the `k`-th template of a round. */
  method TurnAt(first: string, last: string, d: Draw, k: nat, us: seq<string>, seen: set<string>,
                ghost reserved: set<string>, ghost tries0: seq<string>, ghost tries: seq<string>)
    returns (counted: bool, us': seq<string>, seen': set<string>, ghost tries': seq<string>)
    requires last != "" && Numbered(d) && k < |d.order| && tries == tries0 + Somes(Outcomes(first, last, d)[..k])
    requires us == Yielded(tries, reserved) && seen == Seen(us, reserved)
    ensures counted <==> Fits(|first|)(d.order[k])
    ensures |tries'| == |tries| + Bit(counted) && tries' == tries0 + Somes(Outcomes(first, last, d)[..k + 1])
    ensures us' == Yielded(tries', reserved) && seen' == Seen(us', reserved)
  {
    OutcomeAt(first, last, d, k);
    SomesNext(Outcomes(first, last, d), k);
    var username;
    username, us', seen', tries' := Turn(first, last, d.order[k], d.numbers[k], us, seen, reserved, tries);
    counted := username.Some?;
  }

  /** One round over the shuffled templates, up to the limit. */
  method Round(first: string, last: string, limit: int, d: Draw, attempts0: nat,
               us0: seq<string>, seen0: set<string>, ghost reserved: set<string>, ghost tries0: seq<string>)
    returns (attempts: nat, us: seq<string>, seen: set<string>, ghost tries: seq<string>)
    requires last != "" && attempts0 < limit && Numbered(d) && |tries0| == attempts0
    requires us0 == Yielded(tries0, reserved) && seen0 == Seen(us0, reserved)
    ensures attempts == Capped(attempts0 + Count(d.order, Fits(|first|)), limit) == |tries|
    ensures us == Yielded(tries, reserved) && seen == Seen(us, reserved)
    ensures tries <= tries0 + Tries(first, last, d)
  {
    assert Somes(Outcomes(first, last, d)[..0]) == [];
    hide *;
    us, seen, tries := us0, seen0, tries0;
    attempts := attempts0;
    var k := 0;
    while k < |d.order| && attempts < limit
      invariant 0 <= k <= |d.order| && attempts == |tries| <= limit
      invariant us == Yielded(tries, reserved) && seen == Seen(us, reserved)
      invariant tries == tries0 + Somes(Outcomes(first, last, d)[..k])
    {
      var counted;
      counted, us, seen, tries := TurnAt(first, last, d, k, us, seen, reserved, tries0, tries);
      if counted {
        attempts := attempts + 1;
      }
      k := k + 1;
    }
    RoundEnds(first, last, d, k, attempts0, limit);
  }

  /** A round that stops has tried all its usernames, or as many of them as the limit allows. */
  lemma RoundEnds(first: string, last: string, d: Draw, k: nat, attempts0: nat, limit: int)
    requires Numbered(d) && last != "" && k <= |d.order|
    requires var n := attempts0 + |Somes(Outcomes(first, last, d)[..k])|; n == limit || (n <= limit && k == |d.order|)
    ensures Somes(Outcomes(first, last, d)[..k]) <= Tries(first, last, d)
    ensures attempts0 + |Somes(Outcomes(first, last, d)[..k])| == Capped(attempts0 + Count(d.order, Fits(|first|)), limit)
  {
    hide Outcomes, Attempt, Somes, Count, Fits;
    var outs := Outcomes(first, last, d);
    SomesPrefix(outs, k);
    TriesCounted(first, last, d);
    assert k == |d.order| ==> outs[..k] == outs;
  }

  /** Every possible round counts the same. */
  lemma PossibleRound(d: Draw, f: nat)
    requires Possible(d)
    ensures Count(d.order, Fits(f)) == PerRound(f)
  {
    RoundOfShuffle(d.order, f);
  }

  lemma SomeDraw() returns (d: Draw)
    ensures Possible(d)
  {
    d := Draw(TEMPLATES, seq(|TEMPLATES|, _ => 10));
  }

  ghost predicate AllNumbered(ds: seq<Draw>) {
    forall i :: 0 <= i < |ds| ==> Numbered(ds[i])
  }

  /** The usernames that all these rounds make, in order. */
  ghost function AllTries(first: string, last: string, ds: seq<Draw>): seq<string>
    requires AllNumbered(ds)
  {
    if ds == [] then []
    else
      var d := ds[|ds| - 1];
      AllTries(first, last, ds[..|ds| - 1]) + Tries(first, last, d)
  }

  lemma AllTriesAppend(first: string, last: string, ds: seq<Draw>, d: Draw)
    requires AllNumbered(ds) && Numbered(d)
    ensures AllNumbered(ds + [d])
    ensures AllTries(first, last, ds + [d]) == AllTries(first, last, ds) + Tries(first, last, d)
  {
    assert (ds + [d])[..|ds|] == ds;
  }

  lemma {:induction false} AllTriesGrow(first: string, last: string, ds: seq<Draw>, k: nat)
    requires k <= |ds| && AllNumbered(ds)
    ensures AllTries(first, last, ds[..k]) <= AllTries(first, last, ds)
  {
    if k == |ds| {
      assert ds[..k] == ds;
    } else {
      assert ds[..|ds| - 1][..k] == ds[..k];
      AllTriesGrow(first, last, ds[..|ds| - 1], k);
    }
  }

  lemma {:induction false} SomesFrom(o: seq<Option<string>>, first: string, last: string)
    requires forall i :: 0 <= i < |o| && o[i].Some? ==> Derived(o[i].value, first, last)
    ensures forall u :: u in Somes(o) ==> Derived(u, first, last)
  {
    if o != [] {
      SomesFrom(o[..|o| - 1], first, last);
    }
  }

  lemma TriesDerived(first: string, last: string, d: Draw)
    requires Numbered(d)
    ensures forall u :: u in Tries(first, last, d) ==> Derived(u, first, last)
  {
    var o := Outcomes(first, last, d);
    forall i | 0 <= i < |o| && o[i].Some? ensures Derived(o[i].value, first, last) {
      OutcomeAt(first, last, d, i);
      NumberText(d.numbers[i]);
      assert Attempt(d.order[i], first, last, Dec(d.numbers[i])) == Some(o[i].value);
    }
    SomesFrom(o, first, last);
  }

  lemma {:induction false} AllDerived(first: string, last: string, ds: seq<Draw>)
    requires AllNumbered(ds)
    ensures forall u :: u in AllTries(first, last, ds) ==> Derived(u, first, last)
  {
    if ds != [] {
      AllDerived(first, last, ds[..|ds| - 1]);
      TriesDerived(first, last, ds[|ds| - 1]);
    }
  }

  lemma {:induction false} SomesCounted(o: seq<Option<string>>, order: seq<Template>, fits: Template -> bool)
    requires |o| == |order| && forall i :: 0 <= i < |o| ==> (o[i].Some? <==> fits(order[i]))
    ensures |Somes(o)| == Count(order, fits)
  {
    if o != [] {
      SomesCounted(o[..|o| - 1], order[..|o| - 1], fits);
    }
  }

  /** As many usernames as templates with room for one. */
  lemma TriesCounted(first: string, last: string, d: Draw)
    requires Numbered(d) && last != ""
    ensures |Tries(first, last, d)| == Count(d.order, Fits(|first|))
  {
    var o, fits := Outcomes(first, last, d), Fits(|first|);
    forall i | 0 <= i < |o| ensures o[i].Some? <==> fits(d.order[i]) {
      OutcomeAt(first, last, d, i);
      NumberText(d.numbers[i]);
      AttemptCountsExactly(d.order[i], first, last, Dec(d.numbers[i]));
    }
    SomesCounted(o, d.order, fits);
  }

  /** One more round: its tries follow those before it, all of them unless the limit cuts in. */
  lemma NextRound(first: string, last: string, ds: seq<Draw>, d: Draw, tries: seq<string>, tries': seq<string>, limit: int)
    requires AllNumbered(ds) && Numbered(d) && last != "" && tries == AllTries(first, last, ds)
    requires tries' <= tries + Tries(first, last, d)
    requires |tries'| == Capped(|tries| + Count(d.order, Fits(|first|)), limit)
    ensures AllNumbered(ds + [d]) && tries' <= AllTries(first, last, ds + [d])
    ensures |tries'| < limit ==> tries' == AllTries(first, last, ds + [d])
  {
    TriesCounted(first, last, d);
    AllTriesAppend(first, last, ds, d);
  }

  /** What is yielded of tries that the rounds make. */
  lemma YieldedOfRounds(first: string, last: string, ds: seq<Draw>, tries: seq<string>, reserved: set<string>)
    requires AllNumbered(ds) && tries <= AllTries(first, last, ds)
    ensures forall u :: u in tries ==> Derived(u, first, last)
    ensures var us := Yielded(tries, reserved);
            && |us| <= |tries| && Distinct(us)
            && (forall u :: u in us <==> u in tries && Matches(u) && u !in reserved)
            && forall i :: 0 <= i < |us| ==> us[i] !in reserved && Matches(us[i]) && Derived(us[i], first, last)
  {
    YieldedExactly(tries, reserved);
    AllDerived(first, last, ds);
    var us := Yielded(tries, reserved);
    forall i | 0 <= i < |us| ensures us[i] !in reserved && Matches(us[i]) && Derived(us[i], first, last) {
      assert us[i] in us;
    }
  }

  /** Where the outer loop stands after some draws: it has tried the usernames they make, as
      far as the limit allows, and yielded what there is to yield of them. */
  ghost predicate OnCourse(first: string, last: string, limit: int, reserved: set<string>, ds: seq<Draw>,
                           attempts: nat, us: seq<string>, seen: set<string>, tries: seq<string>)
  {
    && AllNumbered(ds) && tries <= AllTries(first, last, ds) && (attempts < limit ==> tries == AllTries(first, last, ds))
    && attempts == |tries| && us == Yielded(tries, reserved) && seen == Seen(us, reserved)
  }

  lemma OnCourseFirst(first: string, last: string, limit: int, reserved: set<string>)
    ensures OnCourse(first, last, limit, reserved, [], 0, [], reserved, [])
  {
  }

  /** One pass of the outer loop. */
  method Pass(first: string, last: string, limit: int, d: Draw, attempts0: nat, us0: seq<string>, seen0: set<string>,
              ghost reserved: set<string>, ghost ds: seq<Draw>, ghost tries0: seq<string>)
    returns (attempts: nat, us: seq<string>, seen: set<string>, ghost tries: seq<string>)
    requires last != "" && Numbered(d) && attempts0 < limit
    requires OnCourse(first, last, limit, reserved, ds, attempts0, us0, seen0, tries0)
    ensures OnCourse(first, last, limit, reserved, ds + [d], attempts, us, seen, tries)
    ensures attempts == Capped(attempts0 + Count(d.order, Fits(|first|)), limit)
  {
    hide Tries, AllTries, Yielded;
    attempts, us, seen, tries := Round(first, last, limit, d, attempts0, us0, seen0, reserved, tries0);
    NextRound(first, last, ds, d, tries0, tries, limit);
  }

  /** What the caller gets: every username that was tried, matches and is not reserved, once. */
  ghost predicate Kept(us: seq<string>, tries: seq<string>, reserved: set<string>, first: string, last: string) {
    && |us| <= |tries| && Distinct(us) && (forall u :: u in tries ==> Derived(u, first, last))
    && (forall u :: u in us <==> u in tries && Matches(u) && u !in reserved)
    && forall i :: 0 <= i < |us| ==> us[i] !in reserved && Matches(us[i]) && Derived(us[i], first, last)
  }

  lemma CourseKept(first: string, last: string, limit: int, reserved: set<string>, ds: seq<Draw>,
                   attempts: nat, us: seq<string>, seen: set<string>, tries: seq<string>)
    requires OnCourse(first, last, limit, reserved, ds, attempts, us, seen, tries)
    ensures Kept(us, tries, reserved, first, last) && attempts == |tries| && tries <= AllTries(first, last, ds)
  {
    YieldedOfRounds(first, last, ds, tries, reserved);
  }

  lemma SomeProgress(first: string, d: Draw, attempts: nat, limit: int)
    requires Possible(d) && |first| <= 30 && attempts < limit
    ensures attempts < Capped(attempts + Count(d.order, Fits(|first|)), limit) <= limit
  {
    PossibleRound(d, |first|);
    PerRoundExactly(|first|);
  }

  /** The generator, run to its end. None stands for the error on names without usable
      letters. Whatever the draws, `limit` usernames are tried, and those of them that
      match and are not reserved are yielded, each once. */
  method GenerateUsernameCandidates(firstName: string, lastName: string, reserved: set<string>, limit: int)
    returns (us: Option<seq<string>>, ghost tries: seq<string>)
    requires Normalized(firstName) == "" || Normalized(lastName) == "" || |Normalized(firstName)| <= 30 || limit <= 0
    ensures us.None? <==> Normalized(firstName) == "" || Normalized(lastName) == ""
    ensures us.Some? ==>
              && |us.value| <= (if limit > 0 then limit else 0)
              && Distinct(us.value)
              && forall i :: 0 <= i < |us.value| ==>
                   && us.value[i] !in reserved && Matches(us.value[i])
                   && Derived(us.value[i], Normalized(firstName), Normalized(lastName))
    ensures us.Some? ==> |tries| == (if limit > 0 then limit else 0)
    ensures us.Some? ==> Kept(us.value, tries, reserved, Normalized(firstName), Normalized(lastName))
  {
    var first, last := Normalized(firstName), Normalized(lastName);
    tries := [];
    if first == "" || last == "" {
      return None, [];
    }
    var found;
    found, tries := RunAll(first, last, reserved, limit);
    return Some(found), tries;
  }

  /** The outer loop, run to its end. */
  method RunAll(first: string, last: string, reserved: set<string>, limit: int) returns (us: seq<string>, ghost tries: seq<string>)
    requires last != "" && (|first| <= 30 || limit <= 0)
    ensures |us| <= (if limit > 0 then limit else 0) && Distinct(us)
    ensures |tries| == (if limit > 0 then limit else 0) && Kept(us, tries, reserved, first, last)
  {
    var attempts: nat := 0;
    var seen := reserved;
    us, tries := [], [];
    ghost var ds: seq<Draw> := [];
    hide Tries, AllTries, Yielded;
    OnCourseFirst(first, last, limit, reserved);
    while attempts < limit
      invariant attempts <= if limit > 0 then limit else 0
      invariant OnCourse(first, last, limit, reserved, ds, attempts, us, seen, tries)
      decreases limit - attempts
    {
      ghost var some := SomeDraw();
      assert Possible(some);
      var d :| Possible(d);
      SomeProgress(first, d, attempts, limit);
      attempts, us, seen, tries := Pass(first, last, limit, d, attempts, us, seen, reserved, ds, tries);
      ds := ds + [d];
    }
    CourseKept(first, last, limit, reserved, ds, attempts, us, seen, tries);
  }

  // ----- Does the loop end?

  ghost predicate AllPossible(ds: seq<Draw>) {
    forall i :: 0 <= i < |ds| ==> Possible(ds[i])
  }

  /** The counted attempts after as many rounds of the outer loop as there are draws. */
  function AttemptsAfter(f: nat, limit: nat, ds: seq<Draw>): nat {
    if ds == [] then 0
    else
      var a := AttemptsAfter(f, limit, ds[..|ds| - 1]);
      if a < limit then Capped(a + Count(ds[|ds| - 1].order, Fits(f)), limit) else a
  }

  lemma AttemptsStep(f: nat, limit: nat, ds: seq<Draw>, k: nat)
    requires k < |ds|
    ensures var a := AttemptsAfter(f, limit, ds[..k]);
            AttemptsAfter(f, limit, ds[..k + 1]) == if a < limit then Capped(a + Count(ds[k].order, Fits(f)), limit) else a
  {
    assert ds[..k + 1][..k] == ds[..k];
  }

  /** The pass for the `k`-th draw. */
  method PassAt(first: string, last: string, limit: nat, ds: seq<Draw>, k: nat, attempts0: nat, us0: seq<string>,
                seen0: set<string>, ghost reserved: set<string>, ghost tries0: seq<string>)
    returns (attempts: nat, us: seq<string>, seen: set<string>, ghost tries: seq<string>)
    requires last != "" && AllNumbered(ds) && k < |ds| && attempts0 < limit
    requires attempts0 == AttemptsAfter(|first|, limit, ds[..k])
    requires OnCourse(first, last, limit, reserved, ds[..k], attempts0, us0, seen0, tries0)
    ensures attempts == AttemptsAfter(|first|, limit, ds[..k + 1]) <= limit
    ensures OnCourse(first, last, limit, reserved, ds[..k + 1], attempts, us, seen, tries)
  {
    hide Tries, AllTries, Yielded, OnCourse;
    AttemptsStep(|first|, limit, ds, k);
    assert ds[..k + 1] == ds[..k] + [ds[k]];
    attempts, us, seen, tries := Pass(first, last, limit, ds[k], attempts0, us0, seen0, reserved, ds[..k], tries0);
  }

  /** A loop that is through, or out of draws, has counted and kept what all the draws make. */
  lemma RunKept(first: string, last: string, limit: nat, reserved: set<string>, ds: seq<Draw>, k: nat,
                attempts: nat, us: seq<string>, seen: set<string>, tries: seq<string>)
    requires AllNumbered(ds) && k <= |ds| && (k == |ds| || attempts >= limit)
    requires attempts == AttemptsAfter(|first|, limit, ds[..k])
    requires OnCourse(first, last, limit, reserved, ds[..k], attempts, us, seen, tries)
    ensures attempts == AttemptsAfter(|first|, limit, ds) == |tries|
    ensures tries <= AllTries(first, last, ds) && Kept(us, tries, reserved, first, last)
    ensures |us| <= attempts && Distinct(us)
    ensures forall i :: 0 <= i < |us| ==> us[i] !in reserved && Matches(us[i]) && Derived(us[i], first, last)
  {
    FullStays(|first|, limit, ds, k);
    AllTriesGrow(first, last, ds, k);
    CourseKept(first, last, limit, reserved, ds[..k], attempts, us, seen, tries);
  }

  /** The outer loop, as far as the draws go: whatever they are, it counts that many
      attempts, tries that many of the usernames they make, in order, and yields exactly
      those of them that match and are not reserved, each once. */
  method RunRounds(first: string, last: string, reserved: set<string>, limit: nat, ds: seq<Draw>)
    returns (attempts: nat, us: seq<string>, ghost tries: seq<string>)
    requires last != "" && AllNumbered(ds)
    ensures attempts == AttemptsAfter(|first|, limit, ds)
    ensures |us| <= attempts && Distinct(us)
    ensures forall i :: 0 <= i < |us| ==> us[i] !in reserved && Matches(us[i]) && Derived(us[i], first, last)
    ensures |tries| == attempts && tries <= AllTries(first, last, ds) && Kept(us, tries, reserved, first, last)
  {
    assert ds[..0] == [] && AttemptsAfter(|first|, limit, []) == 0;
    OnCourseFirst(first, last, limit, reserved);
    hide Tries, AllTries, Yielded, OnCourse, AttemptsAfter, Kept;
    attempts, us, tries := 0, [], [];
    var seen := reserved;
    var k := 0;
    while k < |ds| && attempts < limit
      invariant 0 <= k <= |ds| && attempts == AttemptsAfter(|first|, limit, ds[..k]) <= limit
      invariant OnCourse(first, last, limit, reserved, ds[..k], attempts, us, seen, tries)
    {
      attempts, us, seen, tries := PassAt(first, last, limit, ds, k, attempts, us, seen, reserved, tries);
      k := k + 1;
    }
    RunKept(first, last, limit, reserved, ds, k, attempts, us, seen, tries);
  }

  /** A loop that is through stays through. */
  lemma {:induction false} FullStays(f: nat, limit: nat, ds: seq<Draw>, k: nat)
    requires k <= |ds| && (AttemptsAfter(f, limit, ds[..k]) >= limit || k == |ds|)
    ensures AttemptsAfter(f, limit, ds) == AttemptsAfter(f, limit, ds[..k])
    decreases |ds| - k
  {
    if k < |ds| {
      AttemptsStep(f, limit, ds, k);
      FullStays(f, limit, ds, k + 1);
    } else {
      assert ds[..k] == ds;
    }
  }

  lemma CapStep(m: nat, p: nat, limit: nat)
    ensures (if Capped(m, limit) < limit then Capped(Capped(m, limit) + p, limit) else Capped(m, limit)) == Capped(m + p, limit)
  {
  }

  lemma OneMore(n: nat, p: nat)
    ensures (n + 1) * p == n * p + p && (p >= 1 ==> n * p >= n)
  {
  }

  lemma {:induction false} SteadyRounds(f: nat, limit: nat, ds: seq<Draw>, p: nat)
    requires forall i :: 0 <= i < |ds| ==> Count(ds[i].order, Fits(f)) == p
    ensures AttemptsAfter(f, limit, ds) == Capped(|ds| * p, limit)
  {
    if ds != [] {
      var n := |ds| - 1;
      var before := ds[..n];
      assert forall i :: 0 <= i < n ==> before[i] == ds[i];
      SteadyRounds(f, limit, before, p);
      assert Count(ds[n].order, Fits(f)) == p;
      CapStep(n * p, p, limit);
      OneMore(n, p);
    }
  }

  /** Whatever the shuffles and the numbers, only the number of rounds matters. */
  lemma AttemptsClosedForm(f: nat, limit: nat, ds: seq<Draw>)
    requires AllPossible(ds)
    ensures AttemptsAfter(f, limit, ds) == Capped(|ds| * PerRound(f), limit)
  {
    forall i | 0 <= i < |ds| ensures Count(ds[i].order, Fits(f)) == PerRound(f) {
      PossibleRound(ds[i], f);
    }
    SteadyRounds(f, limit, ds, PerRound(f));
  }

  lemma CapEnough(n: nat, p: nat, limit: nat)
    ensures p >= 1 && n >= limit ==> Capped(n * p, limit) == limit
    ensures p == 0 ==> Capped(n * p, limit) == 0
  {
    OneMore(n, p);
  }

  lemma EnoughRounds(f: nat, limit: nat, ds: seq<Draw>)
    requires AllPossible(ds)
    ensures f <= 30 && |ds| >= limit ==> AttemptsAfter(f, limit, ds) == limit
    ensures f > 30 ==> AttemptsAfter(f, limit, ds) == 0
  {
    PerRoundExactly(f);
    AttemptsClosedForm(f, limit, ds);
    CapEnough(|ds|, PerRound(f), limit);
  }

  lemma ManyDraws(n: nat) returns (ds: seq<Draw>)
    ensures |ds| == n && AllPossible(ds)
  {
    var d := SomeDraw();
    ds := seq(n, _ => d);
  }

  /** For a positive limit, any shuffles and any numbers: the loop is through within
      `limit` rounds exactly when the first name has at most 30 letters; with 31 or more
      letters no attempt is ever counted, so that no draws at all end it. */
  lemma TerminatesExactly(f: nat, limit: nat)
    requires limit > 0
    ensures (forall ds :: AllPossible(ds) && |ds| >= limit ==> AttemptsAfter(f, limit, ds) == limit) <==> f <= 30
    ensures (exists ds :: AllPossible(ds) && AttemptsAfter(f, limit, ds) >= limit) <==> f <= 30
    ensures f > 30 ==> forall ds :: AllPossible(ds) ==> AttemptsAfter(f, limit, ds) == 0
  {
    var many := ManyDraws(limit);
    EnoughRounds(f, limit, many);
    forall ds | AllPossible(ds)
      ensures f <= 30 && |ds| >= limit ==> AttemptsAfter(f, limit, ds) == limit
      ensures f > 30 ==> AttemptsAfter(f, limit, ds) == 0
    {
      EnoughRounds(f, limit, ds);
    }
  }
}
