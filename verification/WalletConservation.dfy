/** Money is conserved by every sequence of wallet operations. */
module WalletConservation {
  import opened Options
  import opened Counting
  import opened Wallet

  ghost predicate EntrySound(e: Entry) {
    e.amount > 0 && e.before >= 0 && e.after >= 0 && e.after == e.before + Signed(e)
  }

  function LastAfter(ledger: seq<Entry>): int {
    if ledger == [] then 0 else ledger[|ledger| - 1].after
  }

  /** Every entry starts where the one before it ended, from zero on. */
  ghost predicate Chained(ledger: seq<Entry>) {
    forall i :: 0 <= i < |ledger| ==> EntrySound(ledger[i]) && ledger[i].before == LastAfter(ledger[..i])
  }

  ghost predicate Conserved(a: Account) {
    && a.user.balance >= 0
    && Chained(a.ledger)
    && a.user.balance == LastAfter(a.ledger) == Net(a.ledger)
  }

  /** The subscription debits that carry this transaction id. */
  function DebitFor(id: string): Entry -> bool {
    (e: Entry) => e.kind.Debit? && e.category == SUBSCRIPTION && e.reference == Some(id)
  }

  predicate PaidByBalance(t: Tx) {
    t.paidBy.Balance? && t.status.Approved?
  }

  /** Ids are unique, and of the transactions from `n` on each one paid from the
      balance has exactly one debit, of its amount; no other id has any. */
  ghost predicate Matched(a: Account, n: nat) {
    && n <= |a.txs|
    && (forall i, j :: 0 <= i < j < |a.txs| ==> a.txs[i].id != a.txs[j].id)
    && (forall i :: n <= i < |a.txs| && PaidByBalance(a.txs[i]) ==> Count(a.ledger, DebitFor(a.txs[i].id)) == 1)
    && (forall k :: 0 <= k < |a.ledger| && a.ledger[k].kind.Debit? && a.ledger[k].category == SUBSCRIPTION ==>
          exists i :: n <= i < |a.txs| && Settles(a.txs[i], a.ledger[k]))
  }

  predicate Settles(t: Tx, e: Entry) {
    PaidByBalance(t) && e.reference == Some(t.id) && e.amount == t.amount
  }

  /** Other ledger categories are used by everything that is not a checkout. */
  predicate Foreign(op: Op) {
    op.Post? ==> op.category != SUBSCRIPTION
  }

  lemma AppendConserves(a: Account, u: User, e: Entry)
    requires Conserved(a) && EntrySound(e) && e.before == a.user.balance && u.balance == e.after
    ensures Conserved(Account(u, a.ledger + [e], a.txs))
  {
    var l := a.ledger + [e];
    NetAppend(a.ledger, e);
    forall i | 0 <= i < |l| ensures EntrySound(l[i]) && l[i].before == LastAfter(l[..i]) {
      assert l[..i] == if i < |a.ledger| then a.ledger[..i] else a.ledger;
    }
  }

  /** The commit goes through and sets the balance. */
  ghost predicate Writes(a: Account, loaded: User, seen: User, op: Op) {
    var w := Work(loaded, seen, op);
    w.Ok? && !Clashes(a, w.value) && w.value.patch.balance.Some?
  }

  /** What a session's work does to money: one sound entry that starts at the balance it
      saw and ends at the balance it writes, or nothing. */
  lemma WorkEntry(loaded: User, seen: User, op: Op)
    requires Work(loaded, seen, op).Ok? && seen.balance >= 0
    ensures var f := Work(loaded, seen, op).value;
            if f.patch.balance.None? then f.entries == []
            else |f.entries| == 1 && EntrySound(f.entries[0]) && f.entries[0].before == seen.balance
                 && f.entries[0].after == f.patch.balance.value
  {
  }

  /** A commit conserves money unless it sets the balance from one that is not stored. */
  lemma FreshCommitConserves(a: Account, loaded: User, seen: User, op: Op)
    requires Conserved(a) && (Writes(a, loaded, seen, op) ==> seen.balance == a.user.balance)
    ensures Conserved(CommitFrom(a, loaded, seen, op))
  {
    var w := Work(loaded, seen, op);
    if w.Ok? && !Clashes(a, w.value) {
      var f := w.value;
      if f.patch.balance.Some? {
        WorkEntry(loaded, seen, op);
        AppendConserves(a, Patched(a.user, f.patch), f.entries[0]);
        assert a.ledger + f.entries == a.ledger + [f.entries[0]];
      } else {
        assert a.ledger + f.entries == a.ledger;
      }
    }
  }

  /** A commit that sets the balance from one that is not stored breaks the chain. */
  lemma StaleCommitBreaks(a: Account, loaded: User, seen: User, op: Op)
    requires Conserved(a) && Writes(a, loaded, seen, op) && seen.balance != a.user.balance
    ensures !Chained(CommitFrom(a, loaded, seen, op).ledger)
  {
    var f := Work(loaded, seen, op).value;
    var l := a.ledger + f.entries;
    assert f.entries[0].before == seen.balance;
    assert l[..|a.ledger|] == a.ledger && l[|a.ledger|] == f.entries[0];
  }

  /** Balance, chain and ledger sum survive every operation, successful or not. */
  lemma ApplyConserves(a: Account, op: Op)
    requires Conserved(a)
    ensures Conserved(Apply(a, op))
  {
    FreshCommitConserves(a, a.user, a.user, op);
  }

  /** A new entry that is no subscription debit disturbs no match. */
  lemma OtherEntryMatches(a: Account, u: User, e: Entry, n: nat)
    requires Matched(a, n) && (e.category != SUBSCRIPTION || !e.kind.Debit?)
    ensures Matched(Account(u, a.ledger + [e], a.txs), n)
  {
    var l := a.ledger + [e];
    forall i | n <= i < |a.txs| && PaidByBalance(a.txs[i]) ensures Count(l, DebitFor(a.txs[i].id)) == 1 {
      CountAppend(a.ledger, e, DebitFor(a.txs[i].id));
    }
    forall k | 0 <= k < |l| && l[k].kind.Debit? && l[k].category == SUBSCRIPTION
      ensures exists i :: n <= i < |a.txs| && Settles(a.txs[i], l[k])
    {
      assert l[k] == a.ledger[k];
    }
  }

  /** A pending transaction with a fresh id disturbs no match. */
  lemma InvoiceMatches(a: Account, u: User, t: Tx, n: nat)
    requires Matched(a, n) && !PaidByBalance(t) && !HasId(a.txs, t.id)
    ensures Matched(Account(u, a.ledger, a.txs + [t]), n)
  {
    var txs := a.txs + [t];
    forall k | 0 <= k < |a.ledger| && a.ledger[k].kind.Debit? && a.ledger[k].category == SUBSCRIPTION
      ensures exists i :: n <= i < |txs| && Settles(txs[i], a.ledger[k])
    {
      var i :| n <= i < |a.txs| && Settles(a.txs[i], a.ledger[k]);
      assert txs[i] == a.txs[i];
    }
  }

  /** An id that no transaction has yet has no subscription debit either. */
  lemma FreshIdUnused(a: Account, id: string, n: nat)
    requires Matched(a, n) && !HasId(a.txs, id)
    ensures Count(a.ledger, DebitFor(id)) == 0
  {
    CountNone(a.ledger, DebitFor(id));
  }

  /** A payment adds one transaction and the one debit that settles it. */
  lemma PaymentMatches(a: Account, u: User, e: Entry, t: Tx, n: nat)
    requires Matched(a, n) && !HasId(a.txs, t.id)
    requires PaidByBalance(t) && e.kind.Debit? && e.category == SUBSCRIPTION && e.reference == Some(t.id)
    requires e.amount == t.amount
    ensures Matched(Account(u, a.ledger + [e], a.txs + [t]), n)
  {
    var l, txs := a.ledger + [e], a.txs + [t];
    FreshIdUnused(a, t.id, n);
    forall i | n <= i < |txs| && PaidByBalance(txs[i]) ensures Count(l, DebitFor(txs[i].id)) == 1 {
      CountAppend(a.ledger, e, DebitFor(txs[i].id));
      assert i < |a.txs| ==> txs[i].id != t.id;
    }
    forall k | 0 <= k < |l| && l[k].kind.Debit? && l[k].category == SUBSCRIPTION
      ensures exists i :: n <= i < |txs| && Settles(txs[i], l[k])
    {
      if k == |a.ledger| {
        assert Settles(txs[|a.txs|], l[k]);
      } else {
        var i :| n <= i < |a.txs| && Settles(a.txs[i], a.ledger[k]);
        assert txs[i] == a.txs[i] && l[k] == a.ledger[k];
      }
    }
  }

  /** Every commit keeps the match, whatever row it was worked out on. */
  lemma CommitMatches(a: Account, loaded: User, seen: User, op: Op, n: nat)
    requires Matched(a, n) && Foreign(op)
    ensures Matched(CommitFrom(a, loaded, seen, op), n)
  {
    var w := Work(loaded, seen, op);
    if w.Ok? && !Clashes(a, w.value) {
      var f := w.value;
      var u := Patched(a.user, f.patch);
      if f.txs == [] {
        assert a.txs + f.txs == a.txs;
        if f.entries == [] {
          assert a.ledger + f.entries == a.ledger;
        } else {
          OtherEntryMatches(a, u, f.entries[0], n);
          assert a.ledger + f.entries == a.ledger + [f.entries[0]];
        }
      } else {
        assert !HasId(a.txs, f.txs[0].id);
        if f.entries == [] {
          assert a.ledger + f.entries == a.ledger;
          InvoiceMatches(a, u, f.txs[0], n);
        } else {
          PaymentMatches(a, u, f.entries[0], f.txs[0], n);
        }
      }
    }
  }

  lemma BaselineSound(user: User, txs: seq<Tx>)
    requires user.balance >= 0 && forall i, j :: 0 <= i < j < |txs| ==> txs[i].id != txs[j].id
    ensures var a := Baseline(user, txs); Conserved(a) && Matched(a, |txs|)
  {
    var a := Baseline(user, txs);
    if user.balance > 0 {
      assert a.ledger == [] + [a.ledger[0]];
      NetAppend([], a.ledger[0]);
    }
  }

  /** From the ledger's baseline on, every run of wallet operations keeps the balance
      non-negative, the ledger chained, its signed sum equal to the balance, and one
      debit of the right amount for each transaction paid from the balance. */
  lemma {:induction false} RunsConserve(user: User, txs: seq<Tx>, ops: seq<Op>)
    requires user.balance >= 0 && forall i, j :: 0 <= i < j < |txs| ==> txs[i].id != txs[j].id
    requires forall i :: 0 <= i < |ops| ==> Foreign(ops[i])
    ensures var b := ApplyAll(Baseline(user, txs), ops);
            Conserved(b) && Matched(b, |txs|)
  {
    var a := Baseline(user, txs);
    if ops == [] {
      BaselineSound(user, txs);
    } else {
      RunsConserve(user, txs, ops[..|ops| - 1]);
      var b := ApplyAll(a, ops[..|ops| - 1]);
      ApplyConserves(b, ops[|ops| - 1]);
      CommitMatches(b, b.user, b.user, ops[|ops| - 1], |txs|);
    }
  }
}
