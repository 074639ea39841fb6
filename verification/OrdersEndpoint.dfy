/** Order requests on the shared Redis cells and the order table, as they change them
    in place. Each method is one step of the protocol, and a schedule of such steps
    leaves the objects as the run of the protocol does. */
module OrdersEndpoint {
  import opened Options
  import opened Counting
  import opened Orders
  import opened OrdersSafety

  class Shop {
    var cells: map<Cell, Stored>
    var rows: seq<Row>
    var requests: seq<Request>
    ghost var expiries: multiset<Cell>

    constructor ()
      ensures Value() == Start
    {
      cells, rows, requests, expiries := map[], [], [], multiset{};
    }

    ghost function Value(): State
      reads this
    {
      State(cells, rows, requests, expiries)
    }

    /** A request comes in; its key counts when something is left after stripping. */
    method Accept(user: string, endpoint: Endpoint, header: Option<string>)
      modifies this`requests
      ensures Value() == Next(old(Value()), Arrive(user, endpoint, header))
    {
      var cell := CellOf(user, endpoint, header);
      var first := if cell.Some? then AtSetNx else AtPlace;
      requests := requests + [Request(user, endpoint, cell, first, false, false, false, false)];
    }

    method Become(i: nat, p: Phase)
      requires i < |requests|
      modifies this`requests
      ensures requests == old(requests)[i := old(requests)[i].(phase := p)]
    {
      requests := requests[i := requests[i].(phase := p)];
    }

    /** SET NX of the cell: the lock, or on to reading the cell. */
    method TakeLock(i: nat)
      requires Enabled(Value(), SetNx(i))
      modifies this`cells, this`requests
      ensures Value() == Next(old(Value()), SetNx(i))
    {
      var r := requests[i];
      var k := r.cell.value;
      if k in cells {
        Become(i, AtGet);
      } else {
        cells := cells[k := Processing];
        requests := requests[i := r.(phase := AtPlace, locked := true)];
      }
    }

    /** SET NX raised, perhaps after it took effect: the endpoint answers 503. */
    method LockFails(i: nat, applied: bool)
      requires Enabled(Value(), SetNxFails(i, applied))
      modifies this`cells, this`requests
      ensures Value() == Next(old(Value()), SetNxFails(i, applied))
    {
      var k := requests[i].cell.value;
      if applied && k !in cells {
        cells := cells[k := Processing];
      }
      Become(i, Finished(Unavailable));
    }

    method GoOnUnlocked(i: nat)
      requires i < |requests|
      modifies this`requests
      ensures requests == old(requests)[i := old(requests)[i].(phase := AtPlace, fell := true)]
    {
      requests := requests[i := requests[i].(phase := AtPlace, fell := true)];
    }

    /** GET of a cell that was taken a moment ago. */
    method ReadBack(i: nat)
      requires Enabled(Value(), GetCell(i))
      modifies this`requests
      ensures Value() == Next(old(Value()), GetCell(i))
    {
      var k := requests[i].cell.value;
      if k !in cells {
        GoOnUnlocked(i);
      } else if cells[k].Processing? {
        Become(i, Finished(Conflict));
      } else {
        Become(i, AtLookup(cells[k].ids));
      }
    }

    /** The loop over the stored ids: those that name an order of this user, in order. */
    method FindExisting(user: string, ids: seq<nat>) returns (existing: seq<nat>)
      ensures existing == Found(rows, user, ids)
    {
      existing := [];
      var i := 0;
      while i < |ids|
        invariant 0 <= i <= |ids|
        invariant existing + Found(rows, user, ids[i..]) == Found(rows, user, ids)
      {
        assert ids[i..][0] == ids[i] && ids[i..][1..] == ids[i + 1..];
        if ids[i] < |rows| && rows[ids[i]].user == user {
          existing := existing + [ids[i]];
        }
        i := i + 1;
      }
    }

    method Replay(i: nat)
      requires Enabled(Value(), Lookup(i))
      modifies this`requests
      ensures Value() == Next(old(Value()), Lookup(i))
    {
      var existing := FindExisting(requests[i].user, requests[i].phase.ids);
      if existing != [] {
        Become(i, Finished(Replayed(existing)));
      } else {
        GoOnUnlocked(i);
      }
    }

    /** The order service adds `n` orders of this request to the table. */
    method AddOrders(r: Request, n: nat) returns (ids: seq<nat>)
      modifies this`rows
      ensures rows == old(rows) + NewRows(r.user, r.cell, n) && ids == NewIds(old(|rows|), n)
    {
      var first := |rows|;
      ids := [];
      while |ids| < n
        invariant |ids| <= n && rows == old(rows) + NewRows(r.user, r.cell, |ids|)
        invariant ids == NewIds(first, |ids|)
      {
        assert NewRows(r.user, r.cell, |ids| + 1) == NewRows(r.user, r.cell, |ids|) + [Row(r.user, r.cell)];
        assert NewIds(first, |ids| + 1) == ids + [first + |ids|];
        rows := rows + [Row(r.user, r.cell)];
        ids := ids + [first + |ids|];
      }
    }

    /** Placing and committing; `heard` says whether the success of the commit was heard of. */
    method Place(i: nat, n: nat, heard: bool)
      requires Placing(Value(), i, n)
      modifies this`rows, this`requests
      ensures Value() == Next(old(Value()), if heard then Commit(i, n) else CommitLost(i, n))
    {
      var r := requests[i];
      var ids := AddOrders(r, n);
      if heard {
        requests := requests[i := r.(committed := true, phase := if r.locked then AtStore(ids) else Finished(Placed(ids)))];
      } else {
        requests := requests[i := r.(committed := true, lost := true,
                                     phase := if r.locked then AtDelete else Finished(Refused))];
      }
    }

    /** SETEX of the ids; an error of Redis is only logged. */
    method Remember(i: nat, applied: bool)
      requires Enabled(Value(), Store(i, applied))
      modifies this`cells, this`requests
      ensures Value() == Next(old(Value()), Store(i, applied))
    {
      var r := requests[i];
      if applied {
        cells := cells[r.cell.value := Done(r.phase.ids)];
      }
      Become(i, Finished(Placed(r.phase.ids)));
    }

    /** DELETE of the cell after a failure; an error of Redis is swallowed. */
    method Forget(i: nat, applied: bool)
      requires Enabled(Value(), Delete(i, applied))
      modifies this`cells, this`requests
      ensures Value() == Next(old(Value()), Delete(i, applied))
    {
      if applied {
        cells := cells - {requests[i].cell.value};
      }
      Become(i, Finished(Refused));
    }

    method LetExpire(k: Cell)
      requires k in cells
      modifies this`cells, this`expiries
      ensures Value() == Next(old(Value()), Expire(k))
    {
      cells := cells - {k};
      expiries := expiries + multiset{k};
    }

    /** Whatever happens next. */
    method Step(e: Event)
      requires Enabled(Value(), e)
      modifies this
      ensures Value() == Next(old(Value()), e)
    {
      match e
      case Arrive(user, endpoint, header) => Accept(user, endpoint, header);
      case SetNx(i) => TakeLock(i);
      case SetNxFails(i, applied) => LockFails(i, applied);
      case GetCell(i) => ReadBack(i);
      case GetFails(i) => Become(i, Finished(Unavailable));
      case Lookup(i) => Replay(i);
      case LookupFails(i) => Become(i, Finished(Unavailable));
      case Commit(i, n) => Place(i, n, true);
      case CommitLost(i, n) => Place(i, n, false);
      case PlaceFails(i) => Become(i, if requests[i].locked then AtDelete else Finished(Refused));
      case PlaceRejects(i) => Become(i, Finished(Refused));
      case Store(i, applied) => Remember(i, applied);
      case Delete(i, applied) => Forget(i, applied);
      case Expire(k) => LetExpire(k);
    }

    /** Any schedule of requests leaves the objects as the run of the protocol does. */
    method Serve(es: seq<Event>)
      requires Run(Value(), es)
      modifies this
      ensures Value() == Final(old(Value()), es)
    {
      var i := 0;
      while i < |es|
        invariant 0 <= i <= |es| && Run(Value(), es[i..])
        invariant Final(Value(), es[i..]) == Final(old(Value()), es)
      {
        assert es[i..][0] == es[i] && es[i..][1..] == es[i + 1..];
        Step(es[i]);
        i := i + 1;
      }
    }
  }

  /** A shop that opens empty and serves any schedule: of every key, its tables hold no
      more placements than the bound allows, its cells name only orders of their own, and
      a request is told of its orders exactly when it committed and heard of it. */
  method OpenAndServe(es: seq<Event>) returns (shop: Shop)
    requires Run(Start, es)
    ensures fresh(shop) && shop.Value() == Final(Start, es)
    ensures forall k: Cell ::
              Count(shop.requests, Committed(k)) <=
              1 + shop.expiries[k] + Count(shop.requests, FellThrough(k)) + Count(shop.requests, LostCommit(k))
    ensures forall k: Cell :: k.endpoint.Single? ==>
              Count(shop.rows, OfCell(k)) <=
              1 + shop.expiries[k] + Count(shop.requests, FellThrough(k)) + Count(shop.requests, LostCommit(k))
    ensures forall k :: k in shop.cells && shop.cells[k].Done? ==> Certified(shop.rows, k, shop.cells[k].ids)
    ensures forall i :: 0 <= i < |shop.requests| && shop.requests[i].phase.Finished? ==>
              var r := shop.requests[i];
              && (r.phase.answer.Placed? <==> r.committed && !r.lost)
              && (r.phase.answer.Placed? ==> Names(shop.rows, r, r.phase.answer.ids))
              && (r.phase.answer.Refused? ==> !r.committed || r.lost)
  {
    shop := new Shop();
    shop.Serve(es);
    ghost var t := shop.Value();
    assert Reachable(t);
    forall k: Cell
      ensures Placements(t, k) <= 1 + t.expiries[k] + Falls(t, k) + Losses(t, k)
      ensures k.endpoint.Single? ==> OrderRows(t, k) <= 1 + t.expiries[k] + Falls(t, k) + Losses(t, k)
    {
      PlacementsBounded(t, k);
    }
    StoredIdsCertified(t);
    forall i | 0 <= i < |t.requests| && t.requests[i].phase.Finished?
      ensures var r := t.requests[i];
              && (r.phase.answer.Placed? <==> r.committed && !r.lost)
              && (r.phase.answer.Placed? ==> Names(t.rows, r, r.phase.answer.ids))
              && (r.phase.answer.Refused? ==> !r.committed || r.lost)
    {
      AnswersExactly(t, i);
    }
  }
}
