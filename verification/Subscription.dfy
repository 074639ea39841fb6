/** How long a subscription runs after any sequence of checkouts. */
module Subscription {
  import opened Options
  import opened Wallet

  /** A paid period: bought at time `at`, for `length` seconds. */
  datatype Grant = Grant(at: int, length: int)

  function Extended(expiry: Option<int>, g: Grant): Option<int> {
    Some(Prolong(expiry, g.at, g.length))
  }

  function ExpiryAfter(expiry: Option<int>, gs: seq<Grant>): Option<int> {
    if gs == [] then expiry else Extended(ExpiryAfter(expiry, gs[..|gs| - 1]), gs[|gs| - 1])
  }

  function Total(gs: seq<Grant>): int {
    if gs == [] then 0 else Total(gs[..|gs| - 1]) + gs[|gs| - 1].length
  }

  /** When the period bought by the `i`-th grant begins. */
  function Begins(expiry: Option<int>, gs: seq<Grant>, i: nat): int
    requires i < |gs|
  {
    ExpiryAfter(expiry, gs[..i + 1]).value - gs[i].length
  }

  /** The time of the `j`-th purchase plus everything paid from it on. */
  function From(gs: seq<Grant>, j: nat): int
    requires j < |gs|
  {
    gs[j].at + Total(gs[j..])
  }

  /** The value is one of the terms of the closed form. */
  ghost predicate Candidate(expiry: Option<int>, gs: seq<Grant>, v: int) {
    || (expiry.Some? && v == expiry.value + Total(gs))
    || exists j :: 0 <= j < |gs| && v == From(gs, j)
  }

  ghost predicate Dominates(expiry: Option<int>, gs: seq<Grant>, v: int) {
    && (expiry.Some? ==> v >= expiry.value + Total(gs))
    && forall j :: 0 <= j < |gs| ==> v >= From(gs, j)
  }

  lemma FromLast(gs: seq<Grant>, j: nat)
    requires j < |gs|
    ensures var n := |gs| - 1;
            From(gs, j) == (if j < n then From(gs[..n], j) else gs[n].at) + gs[n].length
  {
    var t := gs[j..];
    assert t[..|t| - 1] == gs[..|gs| - 1][j..] && t[|t| - 1] == gs[|gs| - 1];
    assert Total(t) == Total(t[..|t| - 1]) + t[|t| - 1].length;
  }

  /** The closed form: the expiry is the largest of the old expiry plus everything
      paid, and, for every purchase, its time plus everything paid from it on. */
  lemma {:induction false} ClosedForm(expiry: Option<int>, gs: seq<Grant>)
    requires gs != []
    ensures var e := ExpiryAfter(expiry, gs);
            e.Some? && Candidate(expiry, gs, e.value) && Dominates(expiry, gs, e.value)
  {
    var n := |gs| - 1;
    var before, g := gs[..n], gs[n];
    var v := Prolong(ExpiryAfter(expiry, before), g.at, g.length);
    FromLast(gs, n);
    if n > 0 {
      ClosedForm(expiry, before);
      var w := ExpiryAfter(expiry, before).value;
      if w > g.at && !(expiry.Some? && w == expiry.value + Total(before)) {
        var j :| 0 <= j < n && w == From(before, j);
        FromLast(gs, j);
      }
    }
    forall j | 0 <= j < |gs| ensures v >= From(gs, j) {
      FromLast(gs, j);
    }
  }

  lemma GrantStep(expiry: Option<int>, gs: seq<Grant>, i: nat)
    requires i < |gs|
    ensures ExpiryAfter(expiry, gs[..i + 1]) == Extended(ExpiryAfter(expiry, gs[..i]), gs[i])
  {
    assert gs[..i + 1][..i] == gs[..i];
  }

  /** Expiries never run backwards. */
  lemma {:induction false} ExpiryGrows(expiry: Option<int>, gs: seq<Grant>, i: nat, j: nat)
    requires 1 <= i <= j <= |gs| && forall k :: 0 <= k < |gs| ==> gs[k].length >= 0
    ensures ExpiryAfter(expiry, gs[..i]).Some? && ExpiryAfter(expiry, gs[..j]).Some?
    ensures ExpiryAfter(expiry, gs[..i]).value <= ExpiryAfter(expiry, gs[..j]).value
    decreases j
  {
    GrantStep(expiry, gs, j - 1);
    if i < j {
      ExpiryGrows(expiry, gs, i, j - 1);
    }
  }

  /** Every period, the first one too, begins no earlier than its purchase and the old
      expiry, and ends within the expiry; the last one ends at it. */
  lemma PeriodSound(expiry: Option<int>, gs: seq<Grant>, i: nat)
    requires i < |gs| && forall k :: 0 <= k < |gs| ==> gs[k].length >= 0
    ensures Begins(expiry, gs, i) >= gs[i].at
    ensures expiry.Some? ==> Begins(expiry, gs, i) >= expiry.value
    ensures ExpiryAfter(expiry, gs).Some? && Begins(expiry, gs, i) + gs[i].length <= ExpiryAfter(expiry, gs).value
    ensures i == |gs| - 1 ==> Begins(expiry, gs, i) + gs[i].length == ExpiryAfter(expiry, gs).value
  {
    GrantStep(expiry, gs, i);
    assert gs[..|gs|] == gs;
    ExpiryGrows(expiry, gs, i + 1, |gs|);
    if i > 0 {
      ExpiryGrows(expiry, gs, 1, i);
      GrantStep(expiry, gs, 0);
    }
  }

  /** No second is sold twice: the periods follow one another. */
  lemma PeriodsDisjoint(expiry: Option<int>, gs: seq<Grant>, i: nat, j: nat)
    requires i < j < |gs| && forall k :: 0 <= k < |gs| ==> gs[k].length >= 0
    ensures Begins(expiry, gs, i) + gs[i].length <= Begins(expiry, gs, j)
  {
    GrantStep(expiry, gs, i);
    GrantStep(expiry, gs, j);
    ExpiryGrows(expiry, gs, i + 1, j);
  }

  // ----- The wallet's expiry

  /** The request authenticated the user and committed. */
  predicate Serves(a: Account, op: Op) {
    AuthAt(op).Some? && var w := Work(a.user, a.user, op); w.Ok? && !Clashes(a, w.value)
  }

  /** The order is paid from the balance and its transaction goes through. */
  predicate Granted(a: Account, op: Op) {
    op.Checkout? && PaysFromBalance(a.user, op.order) && !HasId(a.txs, op.order.txId)
  }

  function GrantOf(op: Op): Grant
    requires op.Checkout?
  {
    Grant(op.order.now, Days(op.order.cycle) * DAY)
  }

  /** The periods bought along a run. */
  function Grants(a: Account, ops: seq<Op>): seq<Grant> {
    if ops == [] then []
    else
      var before := ops[..|ops| - 1];
      var op := ops[|ops| - 1];
      Grants(a, before) + if Granted(ApplyAll(a, before), op) then [GrantOf(op)] else []
  }

  /** The expiry a user starts from: a trial that has none gets five hours from the day it was created. */
  function Initial(u: User): Option<int> {
    if u.role == FREETRIAL && u.expiry.None? then Some(u.created + TRIAL_SECONDS) else u.expiry
  }

  /** Some request of the run authenticated the user and committed. */
  predicate Served(a: Account, ops: seq<Op>) {
    ops != [] && (Served(a, ops[..|ops| - 1]) || Serves(ApplyAll(a, ops[..|ops| - 1]), ops[|ops| - 1]))
  }

  lemma GrantServes(a: Account, op: Op)
    requires Granted(a, op)
    ensures Serves(a, op)
  {
    assert Work(a.user, a.user, op).value.txs[0].id == op.order.txId;
  }

  /** One operation: authentication writes the trial's expiry, a granted checkout extends it. */
  lemma ApplyExpiry(a: Account, op: Op)
    ensures Apply(a, op).user.expiry ==
            if Granted(a, op) then Extended(Initial(a.user), GrantOf(op))
            else if Serves(a, op) then Initial(a.user) else a.user.expiry
    ensures Initial(a.user) ==
            if a.user.role == "freetrial" && a.user.expiry == None then Some(a.user.created + 5 * 3600) else a.user.expiry
  {
    if Granted(a, op) {
      GrantServes(a, op);
    }
    var w := Work(a.user, a.user, op);
    if op.Checkout? && w.Ok? {
      assert w.value.txs[0].id == op.order.txId;
      assert Clashes(a, w.value) <==> HasId(a.txs, op.order.txId);
    }
  }

  /** One operation: authentication ends a plan that has run out, a granted checkout sets its own. */
  lemma ApplyRole(a: Account, op: Op)
    requires a.user.role == a.user.authRole
    ensures var b := Apply(a, op);
            b.user.role == b.user.authRole ==
            if Granted(a, op) then op.order.plan
            else if Serves(a, op) && (a.user.role == "basic" || a.user.role == "pro" || a.user.role == "premium")
                    && a.user.expiry.Some? && a.user.expiry.value < AuthAt(op).value
            then "freetrial" else a.user.role
  {
    var w := Work(a.user, a.user, op);
    if op.Checkout? && w.Ok? {
      assert w.value.txs[0].id == op.order.txId;
      assert Clashes(a, w.value) <==> HasId(a.txs, op.order.txId);
    }
  }

  // ----- Runs

  lemma QuietStep(a: Account, op: Op)
    ensures var b := Apply(a, op);
            && b.user.created == a.user.created
            && (b.user.expiry.None? ==> a.user.expiry.None? && b.user.role == a.user.role)
            && (!Serves(a, op) ==> b.user.expiry == a.user.expiry && b.user.role == a.user.role)
  {
  }

  /** Until the first request is served, and as long as there is no expiry, the row keeps its plan. */
  lemma {:induction false} QuietRun(a: Account, ops: seq<Op>)
    ensures var b := ApplyAll(a, ops);
            && b.user.created == a.user.created
            && (b.user.expiry.None? ==> a.user.expiry.None? && b.user.role == a.user.role)
            && (!Served(a, ops) ==> b.user.expiry == a.user.expiry && b.user.role == a.user.role)
  {
    if ops != [] {
      QuietRun(a, ops[..|ops| - 1]);
      QuietStep(ApplyAll(a, ops[..|ops| - 1]), ops[|ops| - 1]);
    }
  }

  lemma {:induction false} NoGrants(a: Account, ops: seq<Op>)
    requires !Served(a, ops)
    ensures Grants(a, ops) == []
  {
    if ops != [] {
      NoGrants(a, ops[..|ops| - 1]);
      if Granted(ApplyAll(a, ops[..|ops| - 1]), ops[|ops| - 1]) {
        GrantServes(ApplyAll(a, ops[..|ops| - 1]), ops[|ops| - 1]);
      }
    }
  }

  /** After any run of requests and postings the stored expiry is what its grants add
      up to, from the first expiry or the trial's default on. */
  lemma {:induction false} RunExpiry(a: Account, ops: seq<Op>)
    ensures ApplyAll(a, ops).user.expiry ==
            if Served(a, ops) then ExpiryAfter(Initial(a.user), Grants(a, ops)) else a.user.expiry
  {
    if ops != [] {
      var before, op := ops[..|ops| - 1], ops[|ops| - 1];
      var b, gs := ApplyAll(a, before), Grants(a, ops);
      RunExpiry(a, before);
      QuietRun(a, before);
      ApplyExpiry(b, op);
      if !Served(a, before) {
        NoGrants(a, before);
      }
      assert Initial(b.user) == ExpiryAfter(Initial(a.user), Grants(a, before));
      if Granted(b, op) {
        GrantServes(b, op);
        assert gs[..|gs| - 1] == Grants(a, before);
      } else {
        assert gs == Grants(a, before);
      }
    }
  }

  /** The plan of the last checkout that went through, or the one there was. */
  function PlanAfter(a: Account, ops: seq<Op>): string {
    if ops == [] then a.user.role
    else
      var before := ops[..|ops| - 1];
      var op := ops[|ops| - 1];
      if Granted(ApplyAll(a, before), op) then op.order.plan else PlanAfter(a, before)
  }

  /** How many operations there are up to the last checkout that went through. */
  function LastGrant(a: Account, ops: seq<Op>): (n: nat)
    ensures n <= |ops|
  {
    if ops == [] then 0
    else if Granted(ApplyAll(a, ops[..|ops| - 1]), ops[|ops| - 1]) then |ops|
    else LastGrant(a, ops[..|ops| - 1])
  }

  /** When the last plan that was bought runs out. */
  function PlanExpiry(a: Account, ops: seq<Op>): Option<int> {
    ApplyAll(a, ops[..LastGrant(a, ops)]).user.expiry
  }

  /** The `i`-th request was served and came after that moment. */
  predicate LateRequest(a: Account, ops: seq<Op>, i: nat, end: int)
    requires i < |ops|
  {
    Serves(ApplyAll(a, ops[..i]), ops[i]) && end < AuthAt(ops[i]).value
  }

  /** Some request since the last purchase came after the plan had run out. */
  ghost predicate Lapsed(a: Account, ops: seq<Op>) {
    var end := PlanExpiry(a, ops);
    end.Some? && exists i :: LastGrant(a, ops) <= i < |ops| && LateRequest(a, ops, i, end.value)
  }

  /** An operation that buys nothing leaves the end of the plan where it was. */
  lemma SamePlan(a: Account, ops: seq<Op>)
    requires ops != [] && !Granted(ApplyAll(a, ops[..|ops| - 1]), ops[|ops| - 1])
    ensures var before := ops[..|ops| - 1];
            PlanExpiry(a, ops) == PlanExpiry(a, before) && LastGrant(a, ops) == LastGrant(a, before)
            && PlanAfter(a, ops) == PlanAfter(a, before)
  {
    var before := ops[..|ops| - 1];
    assert before[..LastGrant(a, before)] == ops[..LastGrant(a, ops)];
  }

  lemma LateBefore(a: Account, ops: seq<Op>, i: nat, end: int)
    requires i < |ops| - 1
    ensures LateRequest(a, ops[..|ops| - 1], i, end) <==> LateRequest(a, ops, i, end)
  {
    assert ops[..|ops| - 1][..i] == ops[..i];
  }

  /** Such an operation lets the plan lapse if it comes late, or leaves it as it was. */
  lemma LapsedStep(a: Account, ops: seq<Op>)
    requires ops != [] && !Granted(ApplyAll(a, ops[..|ops| - 1]), ops[|ops| - 1])
    ensures Lapsed(a, ops) <==>
            || Lapsed(a, ops[..|ops| - 1])
            || (PlanExpiry(a, ops).Some? && LateRequest(a, ops, |ops| - 1, PlanExpiry(a, ops).value))
  {
    SamePlan(a, ops);
    if PlanExpiry(a, ops).Some? {
      var before, end := ops[..|ops| - 1], PlanExpiry(a, ops).value;
      forall i | 0 <= i < |ops| - 1 ensures LateRequest(a, before, i, end) <==> LateRequest(a, ops, i, end) {
        LateBefore(a, ops, i, end);
      }
    }
  }

  /** Since the last purchase the expiry has not moved, unless a trial got its default. */
  lemma {:induction false} ExpirySettled(a: Account, ops: seq<Op>)
    ensures PlanExpiry(a, ops).Some? ==> ApplyAll(a, ops).user.expiry == PlanExpiry(a, ops)
    ensures PlanExpiry(a, ops).None? ==> LastGrant(a, ops) == 0 && PlanAfter(a, ops) == a.user.role
    ensures PlanExpiry(a, ops).None? && a.user.role != FREETRIAL ==> ApplyAll(a, ops).user.expiry.None?
  {
    if ops != [] {
      var n := |ops| - 1;
      var b := ApplyAll(a, ops[..n]);
      ExpirySettled(a, ops[..n]);
      ApplyExpiry(b, ops[n]);
      QuietRun(a, ops[..n]);
      if Granted(b, ops[n]) {
        assert ops[..|ops|] == ops;
      } else {
        SamePlan(a, ops);
      }
    }
  }

  /** After any run the user has the plan of the last checkout that went through, or
      a trial if a request came after that plan had run out; the Better Auth copy of
      the role agrees. */
  lemma {:induction false} RunRole(a: Account, ops: seq<Op>)
    requires a.user.role == a.user.authRole
    ensures var b, plan := ApplyAll(a, ops), PlanAfter(a, ops);
            b.user.role == b.user.authRole == if IsPaid(plan) && Lapsed(a, ops) then FREETRIAL else plan
  {
    if ops != [] {
      var before, op := ops[..|ops| - 1], ops[|ops| - 1];
      var b := ApplyAll(a, before);
      RunRole(a, before);
      ApplyRole(b, op);
      ExpirySettled(a, before);
      if !Granted(b, op) {
        SamePlan(a, ops);
        LapsedStep(a, ops);
      }
    }
  }
}
