/** Concurrent sessions on one wallet. A request of the user loads the user row when
    it authenticates, takes the row lock, works, and commits or rolls back; the
    locking read hands out the row that the session already has. Somebody else's
    posting reads the row for the first time when it locks it. Whether the locking
    read refreshes a row in hand is a parameter: the endpoints do not, `refresh` shows
    what would change if they did. */
module CheckoutSessions {
  import opened Options
  import opened Wallet
  import opened WalletConservation
  import opened Subscription

  datatype Phase = New | Loaded(row: User) | Holding(loaded: User, seen: User) | Over

  datatype Session = Session(op: Op, phase: Phase)

  /** `done` is history: the committed operations in the order of their commits. */
  datatype State = State(account: Account, lock: Option<nat>, sessions: seq<Session>, done: seq<Op>)

  datatype Event = Load(id: nat) | LockRow(id: nat) | Commit(id: nat) | Rollback(id: nat)

  predicate Enabled(s: State, e: Event) {
    && e.id < |s.sessions|
    && var x := s.sessions[e.id];
       match e
       case Load(_) => x.phase.New?
       case LockRow(_) => s.lock.None? && (x.phase.Loaded? || (x.phase.New? && AuthAt(x.op).None?))
       case Commit(_) => x.phase.Holding?
       case Rollback(_) => !x.phase.Over?
  }

  function Next(refresh: bool, s: State, e: Event): State
    requires Enabled(s, e)
  {
    var i := e.id;
    var x := s.sessions[i];
    match e
    case Load(_) => s.(sessions := s.sessions[i := x.(phase := Loaded(s.account.user))])
    case LockRow(_) =>
      var loaded := if x.phase.Loaded? then x.phase.row else s.account.user;
      var seen := if refresh then s.account.user else loaded;
      s.(sessions := s.sessions[i := x.(phase := Holding(loaded, seen))], lock := Some(i))
    case Commit(_) =>
      State(CommitFrom(s.account, x.phase.loaded, x.phase.seen, x.op), None,
            s.sessions[i := x.(phase := Over)], s.done + [x.op])
    case Rollback(_) =>
      s.(sessions := s.sessions[i := x.(phase := Over)], lock := if s.lock == Some(i) then None else s.lock)
  }

  predicate Run(refresh: bool, s: State, es: seq<Event>)
    decreases |es|
  {
    es != [] ==> Enabled(s, es[0]) && Run(refresh, Next(refresh, s, es[0]), es[1..])
  }

  function Final(refresh: bool, s: State, es: seq<Event>): State
    requires Run(refresh, s, es)
    decreases |es|
  {
    if es == [] then s else Final(refresh, Next(refresh, s, es[0]), es[1..])
  }

  ghost predicate Init(s: State) {
    s.lock.None? && s.done == [] && forall i :: 0 <= i < |s.sessions| ==> s.sessions[i].phase.New?
  }

  // ----- Which commits are stale

  /** The event commits a balance worked out from one that is not the stored one. */
  ghost predicate Stale(s: State, e: Event)
    requires Enabled(s, e)
  {
    && e.Commit?
    && var x := s.sessions[e.id];
       Writes(s.account, x.phase.loaded, x.phase.seen, x.op) && x.phase.seen.balance != s.account.user.balance
  }

  /** No commit of the run is stale. */
  ghost predicate FreshCommits(refresh: bool, s: State, es: seq<Event>)
    requires Run(refresh, s, es)
    decreases |es|
  {
    es != [] ==> !Stale(s, es[0]) && FreshCommits(refresh, Next(refresh, s, es[0]), es[1..])
  }

  lemma StepConserves(refresh: bool, s: State, e: Event)
    requires Enabled(s, e) && Conserved(s.account) && !Stale(s, e)
    ensures Conserved(Next(refresh, s, e).account)
  {
    if e.Commit? {
      var x := s.sessions[e.id];
      FreshCommitConserves(s.account, x.phase.loaded, x.phase.seen, x.op);
    }
  }

  /** The ledger is append-only, so a break in its chain stays. */
  lemma {:induction false} BrokenStays(refresh: bool, s: State, es: seq<Event>)
    requires Run(refresh, s, es) && !Chained(s.account.ledger)
    ensures !Chained(Final(refresh, s, es).account.ledger)
    decreases |es|
  {
    if es != [] {
      var l, l' := s.account.ledger, Next(refresh, s, es[0]).account.ledger;
      var i :| 0 <= i < |l| && !(EntrySound(l[i]) && l[i].before == LastAfter(l[..i]));
      assert l <= l';
      assert l'[i] == l[i] && l'[..i] == l[..i];
      BrokenStays(refresh, Next(refresh, s, es[0]), es[1..]);
    }
  }

  /** For every run of the endpoints as they are, and from every sound wallet: money is
      conserved at the end if and only if no commit set the balance from a row whose
      balance was no longer the stored one. */
  lemma {:induction false} ConservedExactly(refresh: bool, s: State, es: seq<Event>)
    requires Run(refresh, s, es) && Conserved(s.account)
    ensures Conserved(Final(refresh, s, es).account) <==> FreshCommits(refresh, s, es)
    decreases |es|
  {
    if es != [] {
      var t := Next(refresh, s, es[0]);
      if Stale(s, es[0]) {
        var x := s.sessions[es[0].id];
        StaleCommitBreaks(s.account, x.phase.loaded, x.phase.seen, x.op);
        BrokenStays(refresh, t, es[1..]);
      } else {
        StepConserves(refresh, s, es[0]);
        ConservedExactly(refresh, t, es[1..]);
      }
    }
  }

  // ----- Runs whose sessions saw the stored balance are serial

  /** The part of an account that money lives in. */
  datatype Money = Money(balance: int, ledger: seq<Entry>, txs: seq<Tx>)

  function MoneyOf(a: Account): Money {
    Money(a.user.balance, a.ledger, a.txs)
  }

  /** What an operation does to money depends on the balance it sees and nothing else of the row. */
  lemma ActMoney(u: User, v: User, op: Op)
    requires u.balance == v.balance
    ensures var x, y := Act(u, op), Act(v, op);
            (x.Ok? <==> y.Ok?)
            && (x.Ok? ==> x.value.entries == y.value.entries && x.value.txs == y.value.txs
                          && x.value.patch.balance == y.value.patch.balance)
  {
  }

  lemma MoneyAlone(a: Account, loaded: User, seen: User, b: Account, op: Op)
    requires MoneyOf(a) == MoneyOf(b) && seen.balance == a.user.balance
    ensures MoneyOf(CommitFrom(a, loaded, seen, op)) == MoneyOf(Apply(b, op))
  {
    ActMoney(Patched(seen, Authenticate(loaded, op)), Patched(b.user, Authenticate(b.user, op)), op);
    var x, y := Work(loaded, seen, op), Work(b.user, b.user, op);
    if x.Ok? {
      assert Clashes(a, x.value) <==> Clashes(b, y.value);
    }
  }

  /** Every commit of the run was worked out on the stored balance. */
  ghost predicate SawBalance(refresh: bool, s: State, es: seq<Event>)
    requires Run(refresh, s, es)
    decreases |es|
  {
    es != [] ==>
      && (es[0].Commit? ==> s.sessions[es[0].id].phase.seen.balance == s.account.user.balance)
      && SawBalance(refresh, Next(refresh, s, es[0]), es[1..])
  }

  lemma {:induction false} SawIsFresh(refresh: bool, s: State, es: seq<Event>)
    requires Run(refresh, s, es) && SawBalance(refresh, s, es)
    ensures FreshCommits(refresh, s, es)
    decreases |es|
  {
    if es != [] {
      SawIsFresh(refresh, Next(refresh, s, es[0]), es[1..]);
    }
  }

  lemma {:induction false} SerialRun(refresh: bool, a: Account, s: State, es: seq<Event>)
    requires Run(refresh, s, es) && SawBalance(refresh, s, es) && MoneyOf(s.account) == MoneyOf(ApplyAll(a, s.done))
    ensures var t := Final(refresh, s, es); MoneyOf(t.account) == MoneyOf(ApplyAll(a, t.done))
    decreases |es|
  {
    if es != [] {
      var t := Next(refresh, s, es[0]);
      if es[0].Commit? {
        var x := s.sessions[es[0].id];
        assert t.done[..|t.done| - 1] == s.done;
        MoneyAlone(s.account, x.phase.loaded, x.phase.seen, ApplyAll(a, s.done), x.op);
      }
      SerialRun(refresh, a, t, es[1..]);
    }
  }

  /** Every interleaving whose commits saw the stored balance leaves the balance, the
      ledger and the transactions of the serial run of its commits. */
  lemma Serialisable(refresh: bool, s: State, es: seq<Event>)
    requires Init(s) && Run(refresh, s, es) && SawBalance(refresh, s, es)
    ensures var t := Final(refresh, s, es); MoneyOf(t.account) == MoneyOf(ApplyAll(s.account, t.done))
  {
    SerialRun(refresh, s.account, s, es);
  }

  /** Every commit of the run was worked out on the stored row. */
  ghost predicate SawRow(refresh: bool, s: State, es: seq<Event>)
    requires Run(refresh, s, es)
    decreases |es|
  {
    es != [] ==>
      && (es[0].Commit? ==> var p := s.sessions[es[0].id].phase; p.loaded == p.seen == s.account.user)
      && SawRow(refresh, Next(refresh, s, es[0]), es[1..])
  }

  lemma {:induction false} RowIsBalance(refresh: bool, s: State, es: seq<Event>)
    requires Run(refresh, s, es) && SawRow(refresh, s, es)
    ensures SawBalance(refresh, s, es)
    decreases |es|
  {
    if es != [] {
      RowIsBalance(refresh, Next(refresh, s, es[0]), es[1..]);
    }
  }

  /** Every run whose commits saw the stored row leaves the account, role and expiry
      included, of the serial run of its commits. */
  lemma {:induction false} SerialRows(refresh: bool, a: Account, s: State, es: seq<Event>)
    requires Run(refresh, s, es) && SawRow(refresh, s, es) && s.account == ApplyAll(a, s.done)
    ensures var t := Final(refresh, s, es); t.account == ApplyAll(a, t.done)
    decreases |es|
  {
    if es != [] {
      var t := Next(refresh, s, es[0]);
      if es[0].Commit? {
        assert t.done[..|t.done| - 1] == s.done;
      }
      SerialRows(refresh, a, t, es[1..]);
    }
  }

  // ----- What holds of every interleaving

  ghost predicate Honest(s: State) {
    forall i :: 0 <= i < |s.sessions| ==> Foreign(s.sessions[i].op)
  }

  /** Whatever the sessions saw, each transaction paid from the balance has exactly one
      debit, of its amount. */
  lemma {:induction false} InterleavingsMatch(refresh: bool, s: State, es: seq<Event>, n: nat)
    requires Run(refresh, s, es) && Honest(s) && Matched(s.account, n)
    ensures Matched(Final(refresh, s, es).account, n)
    decreases |es|
  {
    if es != [] {
      if es[0].Commit? {
        var x := s.sessions[es[0].id];
        CommitMatches(s.account, x.phase.loaded, x.phase.seen, x.op, n);
      }
      InterleavingsMatch(refresh, Next(refresh, s, es[0]), es[1..], n);
    }
  }

  /** The stored balance, every balance in hand and every ledger entry are non-negative. */
  ghost predicate Solvent(s: State) {
    && s.account.user.balance >= 0
    && (forall i :: 0 <= i < |s.account.ledger| ==> EntrySound(s.account.ledger[i]))
    && forall i :: 0 <= i < |s.sessions| ==>
         match s.sessions[i].phase
         case Loaded(row) => row.balance >= 0
         case Holding(_, seen) => seen.balance >= 0
         case _ => true
  }

  lemma SolventCommit(a: Account, loaded: User, seen: User, op: Op)
    requires a.user.balance >= 0 && seen.balance >= 0 && forall i :: 0 <= i < |a.ledger| ==> EntrySound(a.ledger[i])
    ensures var b := CommitFrom(a, loaded, seen, op);
            b.user.balance >= 0 && forall i :: 0 <= i < |b.ledger| ==> EntrySound(b.ledger[i])
  {
    if Work(loaded, seen, op).Ok? {
      WorkEntry(loaded, seen, op);
    }
  }

  /** However requests overlap, and even when commits are stale, no wallet is ever
      overdrawn and every entry of the ledger is sound by itself. */
  lemma {:induction false} NeverOverdrawn(refresh: bool, s: State, es: seq<Event>)
    requires Run(refresh, s, es) && Solvent(s)
    ensures Solvent(Final(refresh, s, es))
    decreases |es|
  {
    if es != [] {
      if es[0].Commit? {
        var x := s.sessions[es[0].id];
        SolventCommit(s.account, x.phase.loaded, x.phase.seen, x.op);
      }
      NeverOverdrawn(refresh, Next(refresh, s, es[0]), es[1..]);
    }
  }

  /** From the ledger's baseline on: no interleaving overdraws the wallet, every one matches
      payments with debits, and it conserves money if and only if no commit was stale. */
  lemma InterleavingsConserve(refresh: bool, user: User, txs: seq<Tx>, s: State, es: seq<Event>)
    requires user.balance >= 0 && forall i, j :: 0 <= i < j < |txs| ==> txs[i].id != txs[j].id
    requires s.account == Baseline(user, txs) && Honest(s) && Run(refresh, s, es)
    ensures var t := Final(refresh, s, es);
            Matched(t.account, |txs|) && (Conserved(t.account) <==> FreshCommits(refresh, s, es))
    ensures Init(s) ==>
              var t := Final(refresh, s, es);
              t.account.user.balance >= 0 && forall i :: 0 <= i < |t.account.ledger| ==> EntrySound(t.account.ledger[i])
  {
    BaselineSound(user, txs);
    InterleavingsMatch(refresh, s, es, |txs|);
    if Init(s) {
      NeverOverdrawn(refresh, s, es);
    }
    ConservedExactly(refresh, s, es);
  }

  /** The holder of the lock sees the row as it is stored, and nobody else holds it. */
  ghost predicate Current(s: State) {
    forall i :: 0 <= i < |s.sessions| && s.sessions[i].phase.Holding? ==>
      s.lock == Some(i) && s.sessions[i].phase.seen == s.account.user
  }

  lemma {:induction false} RefreshSees(s: State, es: seq<Event>)
    requires Run(true, s, es) && Current(s)
    ensures SawBalance(true, s, es)
    decreases |es|
  {
    if es != [] {
      RefreshSees(Next(true, s, es[0]), es[1..]);
    }
  }

  /** Were the locking read to refresh the row in hand, every interleaving would conserve money. */
  lemma RefreshConserves(s: State, es: seq<Event>)
    requires Init(s) && Conserved(s.account) && Run(true, s, es)
    ensures Conserved(Final(true, s, es).account)
    ensures var t := Final(true, s, es); MoneyOf(t.account) == MoneyOf(ApplyAll(s.account, t.done))
  {
    RefreshSees(s, es);
    SawIsFresh(true, s, es);
    ConservedExactly(true, s, es);
    Serialisable(true, s, es);
  }

  // ----- One request at a time

  /** Apart from session `i`, nobody has the row in hand. */
  ghost predicate Alone(s: State, i: nat) {
    forall j :: 0 <= j < |s.sessions| && j != i ==> s.sessions[j].phase.New? || s.sessions[j].phase.Over?
  }

  /** Whenever a session commits, no other one has the row in hand. */
  ghost predicate OneByOne(s: State, es: seq<Event>)
    requires Run(false, s, es)
    decreases |es|
  {
    es != [] ==> (es[0].Commit? ==> Alone(s, es[0].id)) && OneByOne(Next(false, s, es[0]), es[1..])
  }

  /** Every row in hand is the stored one. */
  ghost predicate InHand(s: State) {
    forall i :: 0 <= i < |s.sessions| ==>
      match s.sessions[i].phase
      case Loaded(row) => row == s.account.user
      case Holding(loaded, seen) => loaded == seen == s.account.user
      case _ => true
  }

  lemma {:induction false} OneByOneSees(s: State, es: seq<Event>)
    requires Run(false, s, es) && InHand(s) && OneByOne(s, es)
    ensures SawRow(false, s, es)
    decreases |es|
  {
    if es != [] {
      OneByOneSees(Next(false, s, es[0]), es[1..]);
    }
  }

  /** As the endpoints are, requests that do not overlap conserve money and leave the
      whole account, role and expiry too, as the serial run of their commits does. */
  lemma OneByOneConserves(s: State, es: seq<Event>)
    requires Init(s) && Conserved(s.account) && Run(false, s, es) && OneByOne(s, es)
    ensures Conserved(Final(false, s, es).account)
    ensures var t := Final(false, s, es); t.account == ApplyAll(s.account, t.done)
  {
    OneByOneSees(s, es);
    RowIsBalance(false, s, es);
    SawIsFresh(false, s, es);
    ConservedExactly(false, s, es);
    SerialRows(false, s.account, s, es);
  }

  // ----- A lost update

  ghost predicate Reaches(refresh: bool, s: State, t: State) {
    exists es :: Run(refresh, s, es) && Final(refresh, s, es) == t
  }

  lemma {:induction false} Append(refresh: bool, s: State, es: seq<Event>, e: Event)
    requires Run(refresh, s, es) && Enabled(Final(refresh, s, es), e)
    ensures Run(refresh, s, es + [e]) && Final(refresh, s, es + [e]) == Next(refresh, Final(refresh, s, es), e)
    decreases |es|
  {
    if es != [] {
      Append(refresh, Next(refresh, s, es[0]), es[1..], e);
      assert (es + [e])[1..] == es[1..] + [e];
    }
  }

  lemma Go(s: State, t: State, e: Event) returns (t': State)
    requires Reaches(false, s, t) && Enabled(t, e)
    ensures t' == Next(false, t, e) && Reaches(false, s, t')
  {
    var es :| Run(false, s, es) && Final(false, s, es) == t;
    Append(false, s, es, e);
    t' := Next(false, t, e);
  }

  /** Two requests of the user, about to begin. */
  function Two(a: Account, x: Op, y: Op): State {
    State(a, None, [Session(x, New), Session(y, New)], [])
  }

  lemma BothLoad(a: Account, x: Op, y: Op) returns (t: State)
    ensures Reaches(false, Two(a, x, y), t)
    ensures t == Two(a, x, y).(sessions := [Session(x, Loaded(a.user)), Session(y, Loaded(a.user))])
  {
    var s := Two(a, x, y);
    assert Run(false, s, []) && Final(false, s, []) == s;
    t := Go(s, s, Load(0));
    t := Go(s, t, Load(1));
  }

  /** Both load the row, the first one commits, the second one locks. */
  lemma SecondLocks(a: Account, x: Op, y: Op) returns (t: State)
    ensures Reaches(false, Two(a, x, y), t) && |t.sessions| == 2
    ensures t.account == CommitFrom(a, a.user, a.user, x) && t.sessions[1] == Session(y, Holding(a.user, a.user))
  {
    var s := Two(a, x, y);
    t := BothLoad(a, x, y);
    t := Go(s, t, LockRow(0));
    t := Go(s, t, Commit(0));
    t := Go(s, t, LockRow(1));
  }

  /** The transaction of a checkout that is paid from the balance. */
  function PaidTx(o: Order): Tx
    requires Price(o.plan, o.cycle).Some?
  {
    Tx(o.txId, Price(o.plan, o.cycle).value, Balance, Approved, o.plan, Days(o.cycle))
  }

  /** A checkout that is paid from the balance it sees takes its price, adds its
      transaction and extends the expiry it sees. */
  lemma Payment(a: Account, seen: User, at: int, o: Order)
    requires PaysFromBalance(seen, o) && !HasId(a.txs, o.txId)
    ensures Writes(a, seen, seen, Checkout(at, o))
    ensures var b := CommitFrom(a, seen, seen, Checkout(at, o));
            && b.user.balance == seen.balance - Price(o.plan, o.cycle).value < seen.balance
            && b.txs == a.txs + [PaidTx(o)]
            && b.user.expiry == Extended(Initial(seen), GrantOf(Checkout(at, o)))
  {
    var f := Work(seen, seen, Checkout(at, o)).value;
    assert f.txs == [PaidTx(o)];
    assert !Clashes(a, f);
  }

  /** As the endpoints are, any two overlapping checkouts that the balance pays for on
      its own can lose one of the two deductions and one of the two periods: both are
      approved and both debits are in the ledger, but the balance is down by the second
      price alone, the wallet no longer reconciles, and the expiry is that of the second
      purchase alone. */
  lemma OverlapLoses(a: Account, at: int, o: Order, at': int, o': Order) returns (t: State)
    requires Conserved(a) && PaysFromBalance(a.user, o) && PaysFromBalance(a.user, o')
    requires !HasId(a.txs, o.txId) && !HasId(a.txs, o'.txId) && o.txId != o'.txId
    ensures Reaches(false, Two(a, Checkout(at, o), Checkout(at', o')), t)
    ensures t.account.user.balance == a.user.balance - Price(o'.plan, o'.cycle).value
    ensures Net(t.account.ledger) == t.account.user.balance - Price(o.plan, o.cycle).value
    ensures !Conserved(t.account)
    ensures t.account.txs == a.txs + [PaidTx(o), PaidTx(o')]
    ensures t.account.user.expiry == ExpiryAfter(Initial(a.user), [GrantOf(Checkout(at', o'))])
  {
    var x, y := Checkout(at, o), Checkout(at', o');
    var u := SecondLocks(a, x, y);
    Payment(a, a.user, at, o);
    FreshCommitConserves(a, a.user, a.user, x);
    StillFree(a, u.account, PaidTx(o), o'.txId);
    Payment(u.account, a.user, at', o');
    StaleCommitBreaks(u.account, a.user, a.user, y);
    t := Go(Two(a, x, y), u, Commit(1));
    StaleNet(u.account, a.user, at', o');
    OneGrant(Initial(a.user), GrantOf(y));
  }

  lemma StillFree(a: Account, b: Account, tx: Tx, id: string)
    requires b.txs == a.txs + [tx] && tx.id != id && !HasId(a.txs, id)
    ensures !HasId(b.txs, id)
  {
    forall i | 0 <= i < |b.txs| ensures b.txs[i].id != id {
      assert i < |a.txs| ==> b.txs[i] == a.txs[i];
    }
  }

  lemma OneGrant(expiry: Option<int>, g: Grant)
    ensures ExpiryAfter(expiry, [g]) == Extended(expiry, g)
  {
    assert [g][..0] == [];
  }

  /** The period is gone: had the two requests come one after the other, the second while
      the first period was running, the expiry would lie later. */
  lemma PeriodLost(expiry: Option<int>, g: Grant, g': Grant)
    requires g.length > 0 && g'.length > 0
    ensures ExpiryAfter(expiry, [g']).value <= ExpiryAfter(expiry, [g, g']).value
    ensures ExpiryAfter(expiry, [g']).value < ExpiryAfter(expiry, [g, g']).value
            <==> g'.at < ExpiryAfter(expiry, [g]).value
  {
    OneGrant(expiry, g);
    OneGrant(expiry, g');
    assert [g, g'][..1] == [g];
  }

  /** As the endpoints are, any other request that loaded a plan that had run out, and
      overlaps the checkout that buys it anew, undoes the purchase: the price is taken,
      the transaction approved and the period runs, but the user is on trial. */
  lemma VisitUndoes(a: Account, at: int, o: Order, seenAt: int) returns (t: State)
    requires PaysFromBalance(a.user, o) && !HasId(a.txs, o.txId)
    requires IsPaid(a.user.role) && a.user.expiry.Some? && a.user.expiry.value < seenAt
    ensures Reaches(false, Two(a, Checkout(at, o), Visit(seenAt)), t)
    ensures t.account.user.balance == a.user.balance - Price(o.plan, o.cycle).value
    ensures t.account.txs == a.txs + [PaidTx(o)]
    ensures t.account.user.expiry.Some? && t.account.user.expiry.value > o.now
    ensures t.account.user.role == t.account.user.authRole == FREETRIAL
  {
    var x, y := Checkout(at, o), Visit(seenAt);
    var u := SecondLocks(a, x, y);
    Payment(a, a.user, at, o);
    t := Go(Two(a, x, y), u, Commit(1));
    var f := Work(a.user, a.user, y).value;
    assert f == Effect(Downgrade(a.user, seenAt), [], []) && !Clashes(u.account, f);
    assert u.account.txs + [] == u.account.txs;
  }

  lemma StaleNet(a: Account, seen: User, at: int, o: Order)
    requires PaysFromBalance(seen, o) && !HasId(a.txs, o.txId)
    ensures Net(CommitFrom(a, seen, seen, Checkout(at, o)).ledger) == Net(a.ledger) - Price(o.plan, o.cycle).value
  {
    Payment(a, seen, at, o);
    var f := Work(seen, seen, Checkout(at, o)).value;
    assert f.entries == [f.entries[0]] && f.entries[0].kind.Debit? && f.entries[0].amount == Price(o.plan, o.cycle).value;
    NetAppend(a.ledger, f.entries[0]);
  }
}
