/** The wallet of one user: the balance, the append-only ledger of its mutations,
    the wallet transactions, and the subscription. */
module Wallet {
  import opened Options

  datatype Kind = Debit | Credit

  datatype Entry = Entry(kind: Kind, amount: int, before: int, after: int, category: string, reference: Option<string>)

  datatype Status = Approved | Pending

  datatype Method = Balance | Auto | Usdt | Qris

  datatype Cycle = Monthly | Yearly

  datatype Tx = Tx(id: string, amount: int, paidBy: Method, status: Status, plan: string, days: nat)

  /** The columns of the user row that money and plans live in. */
  datatype User = User(balance: int, role: string, authRole: string, expiry: Option<int>, created: int)

  /** The columns an UPDATE sets; the others keep what is stored. */
  datatype Patch = Patch(balance: Option<int>, role: Option<string>, authRole: Option<string>, expiry: Option<int>)

  const Untouched := Patch(None, None, None, None)

  function Patched(u: User, p: Patch): User {
    User(Either(p.balance, u.balance), Either(p.role, u.role), Either(p.authRole, u.authRole),
         if p.expiry.Some? then p.expiry else u.expiry, u.created)
  }

  /** First one patch, then another. */
  function Then(p: Patch, q: Patch): Patch {
    Patch(Later(p.balance, q.balance), Later(p.role, q.role), Later(p.authRole, q.authRole), Later(p.expiry, q.expiry))
  }

  function Either<T>(o: Option<T>, default: T): T {
    if o.Some? then o.value else default
  }

  function Later<T>(first: Option<T>, second: Option<T>): Option<T> {
    if second.Some? then second else first
  }

  datatype Account = Account(user: User, ledger: seq<Entry>, txs: seq<Tx>)

  datatype Error =
    | BadAmount | BadKind | Insufficient | BadPlan | GatewayDown | DuplicateId

  datatype Result<+T> = Ok(value: T) | Err(error: Error)

  // ----- The ledger

  const SUBSCRIPTION := "subscription"

  function Signed(e: Entry): int {
    if e.kind.Credit? then e.amount else -e.amount
  }

  /** One ledger mutation of a user: the new row and the entry for the journal. */
  function RecordEntry(u: User, amount: int, kind: Option<Kind>, category: string, reference: Option<string>)
    : Result<(User, Entry)>
  {
    if amount <= 0 then Err(BadAmount)
    else if kind.None? then Err(BadKind)
    else if kind.value.Debit? && u.balance < amount then Err(Insufficient)
    else
      var after := if kind.value.Debit? then u.balance - amount else u.balance + amount;
      Ok((u.(balance := after), Entry(kind.value, amount, u.balance, after, category, reference)))
  }

  /** Credits minus debits. */
  function Net(ledger: seq<Entry>): int {
    if ledger == [] then 0 else Net(ledger[..|ledger| - 1]) + Signed(ledger[|ledger| - 1])
  }

  lemma NetAppend(ledger: seq<Entry>, e: Entry)
    ensures Net(ledger + [e]) == Net(ledger) + Signed(e)
  {
    assert (ledger + [e])[..|ledger|] == ledger;
  }

  // ----- Checkout

  /** What a request says: the plan, the billing cycle, how to pay, when, the id that
      was drawn for its transaction, and whether the payment gateway answers. */
  datatype Order = Order(plan: string, cycle: Cycle, payBy: Method, now: int, txId: string, gatewayUp: bool)

  /** What changes the user row. A checkout authenticates at time `at` and then works;
      a posting goes through the ledger, by the user's own request or somebody else's;
      a visit is any other request of the user. */
  datatype Op =
    | Checkout(at: int, order: Order)
    | Post(auth: Option<int>, amount: int, kind: Option<Kind>, category: string, reference: Option<string>)
    | Visit(at: int)

  /** When the operation's request authenticated the user, if it did. */
  function AuthAt(op: Op): Option<int> {
    match op
    case Checkout(at, _) => Some(at)
    case Post(auth, _, _, _, _) => auth
    case Visit(at) => Some(at)
  }

  function Price(plan: string, cycle: Cycle): Option<int> {
    var monthly := if plan == "basic" then Some(5000) else if plan == "pro" then Some(10000)
                   else if plan == "premium" then Some(20000) else None;
    if monthly.None? || cycle.Monthly? then monthly else Some(10 * monthly.value)
  }

  function Days(cycle: Cycle): nat {
    if cycle.Monthly? then 30 else 365
  }

  /** The price list and what a cycle is worth; nothing else is for sale. */
  lemma PriceList(plan: string, cycle: Cycle)
    ensures Price("basic", Monthly) == Some(5000) && Price("basic", Yearly) == Some(50000)
    ensures Price("pro", Monthly) == Some(10000) && Price("pro", Yearly) == Some(100000)
    ensures Price("premium", Monthly) == Some(20000) && Price("premium", Yearly) == Some(200000)
    ensures Price(plan, cycle).Some? <==> plan == "basic" || plan == "pro" || plan == "premium"
    ensures Days(Monthly) * DAY == 30 * 86400 && Days(Yearly) * DAY == 365 * 86400
  {
    assert "basic"[0] != "pro"[0] && "pro"[2] != "premium"[2] && "basic"[0] != "premium"[0];
  }

  const DAY: int := 86400

  /** The new expiry: from the running one if it lies ahead, else from now. */
  function Prolong(expiry: Option<int>, now: int, seconds: int): int {
    (if expiry.Some? && expiry.value > now then expiry.value else now) + seconds
  }

  // ----- Authentication

  const FREETRIAL := "freetrial"
  const TRIAL_SECONDS: int := 18000

  predicate IsPaid(role: string) {
    role == "basic" || role == "pro" || role == "premium"
  }

  /** Authentication ends a paid plan that has run out, and gives a trial its expiry. */
  function Downgrade(u: User, now: int): Patch {
    if IsPaid(u.role) && u.expiry.Some? then
      if u.expiry.value < now then Patch(None, Some(FREETRIAL), Some(FREETRIAL), None) else Untouched
    else if u.role == FREETRIAL && u.expiry.None? then Patch(None, None, None, Some(u.created + TRIAL_SECONDS))
    else Untouched
  }

  function Authenticate(u: User, op: Op): Patch {
    var at := AuthAt(op);
    if at.Some? then Downgrade(u, at.value) else Untouched
  }

  // ----- The work of a session

  /** What a session wants to write: columns of the user row, and rows to append. */
  datatype Effect = Effect(patch: Patch, entries: seq<Entry>, txs: seq<Tx>)

  predicate PaysFromBalance(u: User, o: Order) {
    var price := Price(o.plan, o.cycle);
    && price.Some?
    && (o.payBy.Balance? || (o.payBy.Auto? && u.balance >= price.value))
    && u.balance >= price.value
  }

  /** The role column is written only when the plan is another one. */
  function PayFromBalance(u: User, o: Order): Result<Effect>
    requires PaysFromBalance(u, o)
  {
    var price := Price(o.plan, o.cycle).value;
    match RecordEntry(u, price, Some(Debit), SUBSCRIPTION, Some(o.txId))
    case Err(e) => Err(e)
    case Ok((paid, entry)) =>
      var role := if o.plan == u.role then None else Some(o.plan);
      var expiry := Prolong(u.expiry, o.now, Days(o.cycle) * DAY);
      Ok(Effect(
           Patch(Some(paid.balance), role, Some(o.plan), Some(expiry)), [entry],
           [Tx(o.txId, price, Balance, Approved, o.plan, Days(o.cycle))]))
  }

  /** The operation on the row in hand, once authenticated. */
  function Act(u: User, op: Op): Result<Effect> {
    match op
    case Checkout(_, o) =>
      var price := Price(o.plan, o.cycle);
      if price.None? then Err(BadPlan)
      else if PaysFromBalance(u, o) then PayFromBalance(u, o)
      else if !o.gatewayUp then Err(GatewayDown)
      else
        var via := if o.payBy.Usdt? then Usdt else Qris;
        Ok(Effect(Untouched, [], [Tx(o.txId, price.value, via, Pending, o.plan, Days(o.cycle))]))
    case Post(_, amount, kind, category, reference) =>
      (match RecordEntry(u, amount, kind, category, reference)
       case Err(e) => Err(e)
       case Ok((paid, entry)) => Ok(Effect(Untouched.(balance := Some(paid.balance)), [entry], [])))
    case Visit(_) => Ok(Effect(Untouched, [], []))
  }

  /** A session's work: authentication judges the row `loaded`, the operation works on
      the row `seen`, which the locking read handed out, with that judgement applied. */
  function Work(loaded: User, seen: User, op: Op): Result<Effect> {
    var auth := Authenticate(loaded, op);
    match Act(Patched(seen, auth), op)
    case Err(e) => Err(e)
    case Ok(f) => Ok(f.(patch := Then(auth, f.patch)))
  }

  predicate HasId(txs: seq<Tx>, id: string) {
    exists i :: 0 <= i < |txs| && txs[i].id == id
  }

  /** The primary key of the transactions: a drawn id that exists already fails the commit. */
  predicate Clashes(a: Account, f: Effect) {
    exists i :: 0 <= i < |f.txs| && HasId(a.txs, f.txs[i].id)
  }

  /** Committing an effect to the stored account. */
  function Publish(a: Account, f: Effect): Result<Account> {
    if Clashes(a, f) then Err(DuplicateId)
    else Ok(Account(Patched(a.user, f.patch), a.ledger + f.entries, a.txs + f.txs))
  }

  /** A session commits what it worked out on the rows it has; on any error nothing changes. */
  function CommitFrom(a: Account, loaded: User, seen: User, op: Op): Account {
    match Work(loaded, seen, op)
    case Err(_) => a
    case Ok(f) => match Publish(a, f) case Err(_) => a case Ok(b) => b
  }

  /** The operation on its own, on the row as stored. */
  function Apply(a: Account, op: Op): Account {
    CommitFrom(a, a.user, a.user, op)
  }

  function ApplyAll(a: Account, ops: seq<Op>): Account {
    if ops == [] then a else Apply(ApplyAll(a, ops[..|ops| - 1]), ops[|ops| - 1])
  }

  /** The seed that the ledger migration writes for a balance that predates the ledger. */
  function Baseline(user: User, txs: seq<Tx>): Account {
    var seed := if user.balance > 0 then [Entry(Credit, user.balance, 0, user.balance, "initial_balance", None)] else [];
    Account(user, seed, txs)
  }

  // ----- What a checkout comes to

  /** The checkout takes its price from the balance: it says so, or leaves the choice, the
      plan is for sale, the balance covers it, and the id that was drawn is free. */
  predicate Debits(a: Account, o: Order) {
    && (o.payBy == Balance || o.payBy == Auto)
    && Price(o.plan, o.cycle).Some? && a.user.balance >= Price(o.plan, o.cycle).value
    && !exists i :: 0 <= i < |a.txs| && a.txs[i].id == o.txId
  }

  /** For every wallet and every order: exactly such a checkout takes its price and books an
      approved transaction with one debit. Any other one leaves balance and ledger alone,
      and at most adds a pending invoice, by USDT if that was asked for and else by QRIS. */
  lemma CheckoutExactly(a: Account, at: int, o: Order)
    ensures var b := Apply(a, Checkout(at, o));
            if Debits(a, o) then
              var price := Price(o.plan, o.cycle).value;
              && b.user.balance == a.user.balance - price
              && b.ledger == a.ledger + [Entry(Debit, price, a.user.balance, a.user.balance - price, "subscription", Some(o.txId))]
              && b.txs == a.txs + [Tx(o.txId, price, Balance, Approved, o.plan, Days(o.cycle))]
            else
              && b.user.balance == a.user.balance && b.ledger == a.ledger
              && (if Price(o.plan, o.cycle).None? || !o.gatewayUp || (exists i :: 0 <= i < |a.txs| && a.txs[i].id == o.txId) then b == a
                  else b.txs == a.txs + [Tx(o.txId, Price(o.plan, o.cycle).value, if o.payBy == Usdt then Usdt else Qris,
                                            Pending, o.plan, Days(o.cycle))])
  {
    var w := Work(a.user, a.user, Checkout(at, o));
    if w.Ok? {
      assert |w.value.txs| == 1 && w.value.txs[0].id == o.txId;
      assert Clashes(a, w.value) <==> HasId(a.txs, o.txId);
      assert w.value.entries == [] ==> a.ledger + w.value.entries == a.ledger;
    }
  }
}
