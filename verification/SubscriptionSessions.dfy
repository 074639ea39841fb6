/** The plan and its expiry under concurrent requests, as the endpoints are: a session
    decides on the row it loaded, and its commit writes into the row as stored. A run
    amounts to the serial run of its commits, at every state on the way, exactly when
    every commit meets a guard on the row it loaded against the row as stored. */
module SubscriptionSessions {
  import opened Options
  import opened Wallet
  import opened Subscription
  import opened CheckoutSessions

  // ----- The guard

  /** Authentication ends the plan. */
  predicate Lapses(u: User, at: int) {
    IsPaid(u.role) && u.expiry.Some? && u.expiry.value < at
  }

  /** Authentication gives the trial its expiry. */
  predicate Defaults(u: User) {
    u.role == FREETRIAL && u.expiry.None?
  }

  /** Deciding on the row `u`, authentication does to the stored row `w` what deciding on
      `w` would do: it ends a plan that is still to be ended or is a trial already, gives
      an expiry that is still missing or is that one already, or leaves alone a row that
      needs neither. */
  predicate AuthAgrees(w: User, u: User, at: int) {
    if Lapses(u, at) then Lapses(w, at) || (w.role == FREETRIAL && w.authRole == FREETRIAL && w.expiry.Some?)
    else if Defaults(u) then Defaults(w) || (!Lapses(w, at) && w.expiry == Some(w.created + TRIAL_SECONDS))
    else !Lapses(w, at) && !Defaults(w)
  }

  /** Where a new period would begin. */
  function Base(u: User, now: int): int {
    Prolong(Initial(u), now, 0)
  }

  /** Paying on the row `u` writes into `w` what paying on `w` would: the balance is the
      same, the period begins at the same moment, and the role gets written unless it is
      the plan already. */
  predicate PaymentAgrees(w: User, u: User, at: int, o: Order) {
    && u.balance == w.balance
    && Base(u, o.now) == Base(w, o.now)
    && (u.role == o.plan && !Lapses(u, at) ==> w.role == o.plan)
  }

  /** The guard on a commit that was worked out on the row `u`. */
  predicate Agrees(a: Account, u: User, op: Op) {
    var w := a.user;
    match op
    case Visit(at) => AuthAgrees(w, u, at)
    case Post(auth, amount, kind, _, _) =>
      var good := amount > 0 && kind.Some?;
      var covered := kind.Some? && (kind.value.Debit? ==> u.balance >= amount);
      var covered' := kind.Some? && (kind.value.Debit? ==> w.balance >= amount);
      good ==>
        && covered == covered'
        && (covered ==> u.balance == w.balance && (auth.Some? ==> AuthAgrees(w, u, auth.value)))
    case Checkout(at, o) =>
      Price(o.plan, o.cycle).Some? && !HasId(a.txs, o.txId) ==>
        && (PaysFromBalance(u, o) <==> PaysFromBalance(w, o))
        && (if PaysFromBalance(u, o) then PaymentAgrees(w, u, at, o) else o.gatewayUp ==> AuthAgrees(w, u, at))
  }

  lemma AuthAgreesExactly(w: User, u: User, at: int)
    requires u.created == w.created
    ensures Patched(w, Downgrade(u, at)) == Patched(w, Downgrade(w, at)) <==> AuthAgrees(w, u, at)
  {
  }

  /** The columns a payment leaves. */
  lemma PaymentLeaves(w: User, u: User, at: int, o: Order)
    requires PaysFromBalance(u, o)
    ensures var b := Patched(w, Work(u, u, Checkout(at, o)).value.patch);
            && b.balance == u.balance - Price(o.plan, o.cycle).value
            && b.role == (if u.role == o.plan && !Lapses(u, at) then w.role else o.plan)
            && b.authRole == o.plan && b.created == w.created
            && b.expiry == Some(Base(u, o.now) + Days(o.cycle) * DAY)
  {
  }

  lemma PaymentAgreesExactly(a: Account, u: User, at: int, o: Order)
    requires PaysFromBalance(u, o) && PaysFromBalance(a.user, o) && !HasId(a.txs, o.txId)
    ensures CommitFrom(a, u, u, Checkout(at, o)) == Apply(a, Checkout(at, o)) <==> PaymentAgrees(a.user, u, at, o)
  {
    var op, w := Checkout(at, o), a.user;
    var f, g := Work(u, u, op).value, Work(w, w, op).value;
    PaymentLeaves(w, u, at, o);
    PaymentLeaves(w, w, at, o);
    assert f.txs == g.txs == [PaidTx(o)] && !Clashes(a, f) && !Clashes(a, g);
    assert f.entries == [f.entries[0]] && g.entries == [g.entries[0]];
    assert f.entries[0].before == u.balance && g.entries[0].before == w.balance;
    assert u.balance == w.balance ==> f.entries[0] == g.entries[0];
    assert (a.ledger + f.entries)[|a.ledger|] == f.entries[0] && (a.ledger + g.entries)[|a.ledger|] == g.entries[0];
  }

  /** What a checkout that does not pay leaves. */
  lemma InvoiceLeaves(a: Account, u: User, at: int, o: Order)
    requires Price(o.plan, o.cycle).Some? && !PaysFromBalance(u, o) && !HasId(a.txs, o.txId)
    ensures var b := CommitFrom(a, u, u, Checkout(at, o));
            if !o.gatewayUp then b == a
            else b.user == Patched(a.user, Downgrade(u, at)) && b.ledger == a.ledger && |b.txs| == |a.txs| + 1
                 && b.txs == a.txs + [Tx(o.txId, Price(o.plan, o.cycle).value, if o.payBy.Usdt? then Usdt else Qris, Pending, o.plan, Days(o.cycle))]
  {
    var w := Work(u, u, Checkout(at, o));
    if w.Ok? {
      assert |w.value.txs| == 1 && w.value.txs[0].id == o.txId && !Clashes(a, w.value);
    }
  }

  lemma NothingLeft(a: Account, u: User, at: int, o: Order)
    requires Price(o.plan, o.cycle).None? || HasId(a.txs, o.txId)
    ensures CommitFrom(a, u, u, Checkout(at, o)) == a
  {
    var w := Work(u, u, Checkout(at, o));
    if w.Ok? {
      assert w.value.txs[0].id == o.txId;
    }
  }

  lemma CheckoutAgreesExactly(a: Account, u: User, at: int, o: Order)
    requires u.created == a.user.created
    ensures CommitFrom(a, u, u, Checkout(at, o)) == Apply(a, Checkout(at, o)) <==> Agrees(a, u, Checkout(at, o))
  {
    var w := a.user;
    if Price(o.plan, o.cycle).None? || HasId(a.txs, o.txId) {
      NothingLeft(a, u, at, o);
      NothingLeft(a, w, at, o);
    } else if PaysFromBalance(u, o) && PaysFromBalance(w, o) {
      PaymentAgreesExactly(a, u, at, o);
    } else if PaysFromBalance(u, o) {
      Payment(a, u, at, o);
      InvoiceLeaves(a, w, at, o);
      OneMoreTx(a, CommitFrom(a, u, u, Checkout(at, o)), PaidTx(o));
    } else if PaysFromBalance(w, o) {
      Payment(a, w, at, o);
      InvoiceLeaves(a, u, at, o);
      OneMoreTx(a, Apply(a, Checkout(at, o)), PaidTx(o));
    } else {
      InvoiceLeaves(a, u, at, o);
      InvoiceLeaves(a, w, at, o);
      AuthAgreesExactly(w, u, at);
    }
  }

  lemma OneMoreTx(a: Account, b: Account, tx: Tx)
    requires b.txs == a.txs + [tx]
    ensures b != a && b.txs[|b.txs| - 1] == tx
  {
    assert |b.txs| == |a.txs| + 1;
  }

  /** What a posting leaves: nothing, or one entry, and what authentication decided. */
  lemma PostLeaves(a: Account, u: User, op: Op)
    requires op.Post?
    ensures var b := CommitFrom(a, u, u, op);
            if op.amount > 0 && op.kind.Some? && (op.kind.value.Debit? ==> u.balance >= op.amount) then
              && |b.ledger| == |a.ledger| + 1 && b.ledger[..|a.ledger|] == a.ledger && b.txs == a.txs
              && b.ledger[|a.ledger|].before == u.balance
              && b.ledger[|a.ledger|] == Entry(op.kind.value, op.amount, u.balance, b.user.balance, op.category, op.reference)
              && b.user.balance == (if op.kind.value.Debit? then u.balance - op.amount else u.balance + op.amount)
              && b.user == Patched(a.user, Authenticate(u, op)).(balance := b.user.balance)
            else b == a
  {
  }

  lemma PostAgreesExactly(a: Account, u: User, op: Op)
    requires op.Post? && u.created == a.user.created
    ensures CommitFrom(a, u, u, op) == Apply(a, op) <==> Agrees(a, u, op)
  {
    var b, c := CommitFrom(a, u, u, op), Apply(a, op);
    PostLeaves(a, u, op);
    PostLeaves(a, a.user, op);
    if op.auth.Some? {
      AuthAgreesExactly(a.user, u, op.auth.value);
    }
    if |b.ledger| == |a.ledger| + 1 == |c.ledger| {
      var n := |a.ledger|;
      assert b.ledger == a.ledger + [b.ledger[n]] && c.ledger == a.ledger + [c.ledger[n]];
      assert u.balance == a.user.balance ==> b.ledger == c.ledger;
      var p, q := Patched(a.user, Authenticate(u, op)), Patched(a.user, Authenticate(a.user, op));
      assert p.balance == q.balance == a.user.balance;
      assert b.user.balance == c.user.balance ==> (b.user == c.user <==> p == q);
    }
  }

  lemma VisitAgreesExactly(a: Account, u: User, at: int)
    requires u.created == a.user.created
    ensures CommitFrom(a, u, u, Visit(at)) == Apply(a, Visit(at)) <==> Agrees(a, u, Visit(at))
  {
    AuthAgreesExactly(a.user, u, at);
    assert a.ledger + [] == a.ledger && a.txs + [] == a.txs;
    assert Work(u, u, Visit(at)) == Ok(Effect(Downgrade(u, at), [], []));
    assert Work(a.user, a.user, Visit(at)) == Ok(Effect(Downgrade(a.user, at), [], []));
  }

  /** The guard is exact: a commit worked out on the row `u` leaves what the operation on
      its own would leave if and only if it holds. */
  lemma CommitAgreesExactly(a: Account, u: User, op: Op)
    requires u.created == a.user.created
    ensures CommitFrom(a, u, u, op) == Apply(a, op) <==> Agrees(a, u, op)
  {
    match op
    case Checkout(at, o) => CheckoutAgreesExactly(a, u, at, o);
    case Post(_, _, _, _, _) => PostAgreesExactly(a, u, op);
    case Visit(at) => VisitAgreesExactly(a, u, at);
  }

  // ----- Runs

  /** Every row in hand is one that was stored: the locking read hands out the row that
      was loaded, and nobody changes when the user was created. */
  ghost predicate InHandOnce(s: State) {
    forall i :: 0 <= i < |s.sessions| ==>
      match s.sessions[i].phase
      case Loaded(row) => row.created == s.account.user.created
      case Holding(loaded, seen) => loaded == seen && seen.created == s.account.user.created
      case _ => true
  }

  lemma InHandStep(s: State, e: Event)
    requires Enabled(s, e) && InHandOnce(s)
    ensures InHandOnce(Next(false, s, e))
  {
    if e.Commit? {
      var x := s.sessions[e.id];
      assert CommitFrom(s.account, x.phase.loaded, x.phase.seen, x.op).user.created == s.account.user.created;
    }
  }

  /** Every commit of the run meets the guard. */
  ghost predicate AllAgree(s: State, es: seq<Event>)
    requires Run(false, s, es)
    decreases |es|
  {
    es != [] ==>
      && (es[0].Commit? ==> Agrees(s.account, s.sessions[es[0].id].phase.loaded, s.sessions[es[0].id].op))
      && AllAgree(Next(false, s, es[0]), es[1..])
  }

  /** At every state on the way the account is that of the serial run of the commits so far. */
  ghost predicate SerialThroughout(a: Account, s: State, es: seq<Event>)
    requires Run(false, s, es)
    decreases |es|
  {
    s.account == ApplyAll(a, s.done) && (es != [] ==> SerialThroughout(a, Next(false, s, es[0]), es[1..]))
  }

  lemma {:induction false} SerialFromHere(a: Account, s: State, es: seq<Event>)
    requires Run(false, s, es) && InHandOnce(s) && s.account == ApplyAll(a, s.done)
    ensures SerialThroughout(a, s, es) <==> AllAgree(s, es)
    decreases |es|
  {
    if es != [] {
      var t, e := Next(false, s, es[0]), es[0];
      InHandStep(s, e);
      if e.Commit? {
        var x := s.sessions[e.id];
        assert t.done[..|t.done| - 1] == s.done && t.done[|t.done| - 1] == x.op;
        assert ApplyAll(a, t.done) == Apply(s.account, x.op);
        CommitAgreesExactly(s.account, x.phase.loaded, x.op);
      }
      if t.account == ApplyAll(a, t.done) {
        SerialFromHere(a, t, es[1..]);
      }
    }
  }

  /** For every run of the endpoints as they are: the account, with its plan and its
      expiry, is at every state on the way that of the serial run of the commits so far
      if and only if every commit meets the guard. */
  lemma SerialExactly(s: State, es: seq<Event>)
    requires Init(s) && Run(false, s, es)
    ensures SerialThroughout(s.account, s, es) <==> AllAgree(s, es)
  {
    SerialFromHere(s.account, s, es);
  }

  lemma {:induction false} SerialAtEnd(a: Account, s: State, es: seq<Event>)
    requires Run(false, s, es) && SerialThroughout(a, s, es)
    ensures Final(false, s, es).account == ApplyAll(a, Final(false, s, es).done)
    decreases |es|
  {
    if es != [] {
      SerialAtEnd(a, Next(false, s, es[0]), es[1..]);
    }
  }

  /** So under concurrent requests whose commits meet the guard, every paid period counts
      and the plan is the last one bought, or a trial if it has run out. */
  lemma InterleavedPlan(s: State, es: seq<Event>)
    requires Init(s) && Run(false, s, es) && AllAgree(s, es) && s.account.user.role == s.account.user.authRole
    ensures var a, t := s.account, Final(false, s, es);
            && t.account.user.expiry ==
               (if Served(a, t.done) then ExpiryAfter(Initial(a.user), Grants(a, t.done)) else a.user.expiry)
            && t.account.user.role == t.account.user.authRole ==
               if IsPaid(PlanAfter(a, t.done)) && Lapsed(a, t.done) then FREETRIAL else PlanAfter(a, t.done)
  {
    SerialExactly(s, es);
    SerialAtEnd(s.account, s, es);
    RunExpiry(s.account, Final(false, s, es).done);
    RunRole(s.account, Final(false, s, es).done);
  }
}
