/** The wallet as the objects change it: the ledger service mutates the locked user
    and appends to the journal, the checkout endpoint upgrades and extends, and the
    reconciliation sums the journal up. */
module CheckoutEndpoint {
  import opened Options
  import opened Wallet
  import opened WalletConservation

  lemma PatchTwice(u: User, p: Patch, q: Patch)
    ensures Patched(Patched(u, p), q) == Patched(u, Then(p, q))
  {
  }

  /** A checkout that fails, or whose transaction id is taken, changes nothing. */
  lemma Refused(a: Account, op: Op)
    requires op.Checkout?
    requires Act(Patched(a.user, Authenticate(a.user, op)), op).Err? || HasId(a.txs, op.order.txId)
    ensures Apply(a, op) == a
  {
    var w := Work(a.user, a.user, op);
    if w.Ok? {
      assert w.value.txs[0].id == op.order.txId;
    }
  }

  /** Any other one writes what its work asks for, after what authentication asks for. */
  lemma Accepted(a: Account, op: Op)
    requires op.Checkout? && !HasId(a.txs, op.order.txId)
    requires Act(Patched(a.user, Authenticate(a.user, op)), op).Ok?
    ensures var u := Patched(a.user, Authenticate(a.user, op));
            var f := Act(u, op).value;
            Apply(a, op) == Account(Patched(u, f.patch), a.ledger + f.entries, a.txs + f.txs)
  {
    var auth := Authenticate(a.user, op);
    var f := Act(Patched(a.user, auth), op).value;
    PatchTwice(a.user, auth, f.patch);
    assert |f.txs| == 1 && f.txs[0].id == op.order.txId;
    assert !Clashes(a, f.(patch := Then(auth, f.patch)));
  }

  /** The amounts of one kind, summed up. */
  function TotalOf(ledger: seq<Entry>, kind: Kind): int {
    if ledger == [] then 0
    else
      var e := ledger[|ledger| - 1];
      TotalOf(ledger[..|ledger| - 1], kind) + if e.kind == kind then e.amount else 0
  }

  class LockedUser {
    var user: User
    var ledger: seq<Entry>
    var txs: seq<Tx>

    ghost function Value(): Account
      reads this
    {
      Account(user, ledger, txs)
    }

    constructor (a: Account)
      ensures Value() == a
    {
      user, ledger, txs := a.user, a.ledger, a.txs;
    }

    method RecordLedgerEntry(amount: int, kind: Option<Kind>, category: string, reference: Option<string>)
      returns (r: Result<Entry>)
      modifies this`user, this`ledger
      ensures var w := RecordEntry(old(user), amount, kind, category, reference);
              && (w.Err? ==> r == Err(w.error) && user == old(user) && ledger == old(ledger))
              && (w.Ok? ==> r == Ok(w.value.1) && user == w.value.0 && ledger == old(ledger) + [w.value.1])
      ensures r.Ok? <==> amount > 0 && kind.Some? && (kind.value.Debit? ==> old(user).balance >= amount)
      ensures r.Ok? ==>
                && user == old(user).(balance := if kind == Some(Debit) then old(user).balance - amount else old(user).balance + amount)
                && r.value == Entry(kind.value, amount, old(user).balance, user.balance, category, reference)
    {
      if amount <= 0 {
        return Err(BadAmount);
      }
      if kind.None? {
        return Err(BadKind);
      }
      var before := user.balance;
      if kind.value.Debit? {
        if user.balance < amount {
          return Err(Insufficient);
        }
        user := user.(balance := user.balance - amount);
      } else {
        user := user.(balance := user.balance + amount);
      }
      var entry := Entry(kind.value, amount, before, user.balance, category, reference);
      ledger := ledger + [entry];
      return Ok(entry);
    }

    /** Authentication: a paid plan that has run out ends, a trial without an expiry gets one. */
    method AutoDowngradeIfExpired(now: int)
      modifies this`user
      ensures user == Patched(old(user), Downgrade(old(user), now))
    {
      if IsPaid(user.role) && user.expiry.Some? {
        if user.expiry.value < now {
          user := user.(role := FREETRIAL, authRole := FREETRIAL);
        }
      } else if user.role == FREETRIAL && user.expiry.None? {
        user := user.(expiry := Some(user.created + TRIAL_SECONDS));
      }
    }

    /** The balance path, when the drawn id is free. */
    method Pay(o: Order)
      requires PaysFromBalance(user, o)
      modifies this
      ensures var f := PayFromBalance(old(user), o).value;
              Value() == Account(Patched(old(user), f.patch), old(ledger) + f.entries, old(txs) + f.txs)
    {
      var price := Price(o.plan, o.cycle).value;
      var entry := RecordLedgerEntry(price, Some(Debit), SUBSCRIPTION, Some(o.txId));
      user := user.(role := o.plan, authRole := o.plan);
      var days := Days(o.cycle);
      var base := if user.expiry.Some? && user.expiry.value > o.now then user.expiry.value else o.now;
      user := user.(expiry := Some(base + days * DAY));
      txs := txs + [Tx(o.txId, price, Balance, Approved, o.plan, days)];
    }

    /** One checkout request on the row as stored: authentication, then payment from the
        balance, or an invoice, or an error that rolls everything back. */
    method CheckoutSubscription(at: int, o: Order) returns (r: Result<Method>)
      modifies this
      ensures Value() == Apply(old(Value()), Checkout(at, o))
      ensures r.Ok? && r.value.Balance? <==> PaysFromBalance(old(user), o) && !HasId(old(txs), o.txId)
      ensures r.Err? ==> Value() == old(Value())
      ensures r == Ok(Balance) <==> Debits(old(Value()), o)
      ensures r.Ok? && !r.value.Balance? ==>
                && user.balance == old(user).balance && ledger == old(ledger)
                && Price(o.plan, o.cycle).Some? && r.value == (if o.payBy == Usdt then Usdt else Qris)
                && txs == old(txs) + [Tx(o.txId, Price(o.plan, o.cycle).value, r.value, Pending, o.plan, Days(o.cycle))]
      ensures r == Err(BadPlan) <==> Price(o.plan, o.cycle).None?
      ensures r.Err? ==> r.error == BadPlan || r.error == GatewayDown || r.error == DuplicateId
      ensures r == Err(GatewayDown) ==> !o.gatewayUp
      ensures r == Err(DuplicateId) ==> exists i :: 0 <= i < |old(txs)| && old(txs)[i].id == o.txId
    {
      CheckoutExactly(Value(), at, o);
      ghost var a, op := Value(), Checkout(at, o);
      var stored := user;
      AutoDowngradeIfExpired(at);
      var price := Price(o.plan, o.cycle);
      var clash := exists i :: 0 <= i < |txs| && txs[i].id == o.txId;
      var pays := PaysFromBalance(user, o);
      if price.None? || (!pays && !o.gatewayUp) || clash {
        Refused(a, op);
        user := stored;
        return Err(if price.None? then BadPlan else if !pays && !o.gatewayUp then GatewayDown else DuplicateId);
      }
      Accepted(a, op);
      if pays {
        Pay(o);
        return Ok(Balance);
      }
      var via := if o.payBy.Usdt? then Usdt else Qris;
      txs := txs + [Tx(o.txId, price.value, via, Pending, o.plan, Days(o.cycle))];
      return Ok(via);
    }

    /** The two sums of the reconciliation report, and whether they meet the balance. */
    method ReconcileUserBalance() returns (credits: int, debits: int, reconciled: bool)
      ensures credits == TotalOf(ledger, Credit) && debits == TotalOf(ledger, Debit)
      ensures credits - debits == Net(ledger)
      ensures reconciled <==> Net(ledger) == user.balance
      ensures Conserved(Value()) ==> reconciled
    {
      credits, debits := 0, 0;
      for i := 0 to |ledger|
        invariant credits - debits == Net(ledger[..i])
        invariant credits == TotalOf(ledger[..i], Credit) && debits == TotalOf(ledger[..i], Debit)
      {
        assert ledger[..i + 1][..i] == ledger[..i];
        if ledger[i].kind.Credit? {
          credits := credits + ledger[i].amount;
        } else {
          debits := debits + ledger[i].amount;
        }
      }
      assert ledger[..|ledger|] == ledger;
      reconciled := user.balance - (credits - debits) == 0;
    }
  }
}
