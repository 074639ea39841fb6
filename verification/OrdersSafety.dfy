/** How many orders one idempotency key can lead to, with no assumption on time:
    one, plus one for every expiry of its cell, one for every request that went on
    without the lock, and one for every commit that was reported as a failure. No run
    exceeds that, and runs attain it. */
module OrdersSafety {
  import opened Options
  import opened Counting
  import opened Orders

  /** The request took the lock of `k` and knows that it committed, is placing, or is about to delete. */
  function Outstanding(k: Cell): Request -> bool {
    (r: Request) => r.cell == Some(k) && r.locked && ((r.committed && !r.lost) || r.phase.AtPlace? || r.phase.AtDelete?)
  }

  function Committed(k: Cell): Request -> bool {
    (r: Request) => r.cell == Some(k) && r.committed
  }

  function FellThrough(k: Cell): Request -> bool {
    (r: Request) => r.cell == Some(k) && r.fell
  }

  /** The request held the lock, and its commit was reported as a failure. */
  function LostCommit(k: Cell): Request -> bool {
    (r: Request) => r.cell == Some(k) && r.locked && r.lost
  }

  function OfCell(k: Cell): Row -> bool {
    (row: Row) => row.cell == Some(k)
  }

  function Placements(s: State, k: Cell): nat {
    Count(s.requests, Committed(k))
  }

  function Falls(s: State, k: Cell): nat {
    Count(s.requests, FellThrough(k))
  }

  function Losses(s: State, k: Cell): nat {
    Count(s.requests, LostCommit(k))
  }

  function OrderRows(s: State, k: Cell): nat {
    Count(s.rows, OfCell(k))
  }

  // ----- The fence

  /** Every outstanding holder is paid for by an expiry, save the one whose cell is there. */
  ghost predicate Fenced(s: State, k: Cell) {
    Count(s.requests, Outstanding(k)) <= s.expiries[k] + Bit(k in s.cells)
  }

  /** A request that has not committed has nothing placed; one that has took the lock or fell through. */
  ghost predicate WellFormed(r: Request) {
    && (r.cell.Some? ==> r.cell.value.user == r.user && r.cell.value.endpoint == r.endpoint)
    && (r.phase.AtSetNx? || r.phase.AtGet? || r.phase.AtLookup? ==> !r.locked && !r.fell && !r.committed && r.cell.Some?)
    && (r.phase.AtPlace? ==> !r.committed && (r.cell.Some? ==> r.locked || r.fell))
    && (r.phase.AtStore? ==> r.committed && r.locked && r.cell.Some?)
    && (r.phase.AtDelete? ==> (r.committed ==> r.lost) && r.locked && r.cell.Some?)
    && (r.lost ==> r.committed && (r.phase.AtDelete? || r.phase.Finished?))
    && (r.locked ==> r.cell.Some? && !r.fell)
    && (r.committed && r.cell.Some? ==> r.locked || r.fell)
  }

  predicate Touches(e: Event, i: int) {
    match e
    case Arrive(_, _, _) => false
    case Expire(_) => false
    case SetNx(id) => id == i
    case SetNxFails(id, _) => id == i
    case GetCell(id) => id == i
    case GetFails(id) => id == i
    case Lookup(id) => id == i
    case LookupFails(id) => id == i
    case Commit(id, _) => id == i
    case CommitLost(id, _) => id == i
    case PlaceFails(id) => id == i
    case PlaceRejects(id) => id == i
    case Store(id, _) => id == i
    case Delete(id, _) => id == i
  }

  /** A step of request `i` replaces that request alone. */
  lemma OwnStep(s: State, e: Event, i: nat)
    requires Enabled(s, e) && Touches(e, i)
    ensures var t := Next(s, e);
            i < |s.requests| == |t.requests| && t.requests == s.requests[i := t.requests[i]] && t.expiries == s.expiries
  {
  }

  lemma OwnFence(s: State, e: Event, i: nat, k: Cell)
    requires Enabled(s, e) && Touches(e, i) && WellFormed(s.requests[i])
    ensures var t := Next(s, e);
            Bit(Outstanding(k)(t.requests[i])) + Bit(k in s.cells)
            <= Bit(Outstanding(k)(s.requests[i])) + Bit(k in t.cells)
    ensures WellFormed(Next(s, e).requests[i])
  {
  }

  /** The request count is fenced after a step of request `i`. */
  lemma OwnFenced(s: State, e: Event, i: nat, k: Cell)
    requires Enabled(s, e) && Touches(e, i) && Fenced(s, k) && WellFormed(s.requests[i])
    ensures Fenced(Next(s, e), k)
  {
    OwnStep(s, e, i);
    OwnFence(s, e, i, k);
    CountUpdate(s.requests, i, Next(s, e).requests[i], Outstanding(k));
  }

  lemma FenceStep(s: State, e: Event, k: Cell)
    requires Enabled(s, e) && Fenced(s, k) && forall i :: 0 <= i < |s.requests| ==> WellFormed(s.requests[i])
    ensures Fenced(Next(s, e), k)
  {
    if e.Arrive? {
      CountAppend(s.requests, Next(s, e).requests[|s.requests|], Outstanding(k));
    } else if !e.Expire? {
      OwnFenced(s, e, e.id, k);
    }
  }

  // ----- Rows and replays

  /** Every one of these ids names an order of this cell's user, committed under this cell. */
  ghost predicate Certified(rows: seq<Row>, k: Cell, ids: seq<nat>) {
    ids != [] && forall j :: 0 <= j < |ids| ==> ids[j] < |rows| && rows[ids[j]] == Row(k.user, Some(k))
  }

  /** The ids a request carries or answers with are certified for its own cell. */
  ghost predicate Vouched(rows: seq<Row>, r: Request) {
    r.cell.Some? ==>
      match r.phase
      case AtLookup(ids) => Certified(rows, r.cell.value, ids)
      case AtStore(ids) => Certified(rows, r.cell.value, ids)
      case Finished(Replayed(ids)) => Certified(rows, r.cell.value, ids)
      case Finished(Placed(ids)) => Certified(rows, r.cell.value, ids)
      case _ => true
  }

  ghost predicate Agreement(s: State) {
    && (forall k :: k in s.cells && s.cells[k].Done? ==> Certified(s.rows, k, s.cells[k].ids))
    && (forall i :: 0 <= i < |s.requests| ==> WellFormed(s.requests[i]) && Vouched(s.rows, s.requests[i]))
  }

  lemma {:induction false} FoundAll(rows: seq<Row>, user: string, ids: seq<nat>)
    requires forall j :: 0 <= j < |ids| ==> ids[j] < |rows| && rows[ids[j]].user == user
    ensures Found(rows, user, ids) == ids
  {
    if ids != [] {
      FoundAll(rows, user, ids[1..]);
    }
  }

  lemma OwnAgreement(s: State, e: Event, i: nat)
    requires Enabled(s, e) && Touches(e, i) && Agreement(s)
    ensures Vouched(Next(s, e).rows, Next(s, e).requests[i])
    ensures s.rows <= Next(s, e).rows
  {
    assert WellFormed(s.requests[i]) && Vouched(s.rows, s.requests[i]);
    if e.Lookup? {
      FoundAll(s.rows, s.requests[i].user, s.requests[i].phase.ids);
    }
  }

  lemma CellsStep(s: State, e: Event, i: nat)
    requires Enabled(s, e) && Touches(e, i) && Agreement(s)
    ensures var t := Next(s, e);
            forall k :: k in t.cells && t.cells[k].Done? ==> Certified(t.rows, k, t.cells[k].ids)
  {
    assert WellFormed(s.requests[i]) && Vouched(s.rows, s.requests[i]);
  }

  lemma AgreementStep(s: State, e: Event)
    requires Enabled(s, e) && Agreement(s)
    ensures Agreement(Next(s, e))
  {
    var t := Next(s, e);
    if !e.Arrive? && !e.Expire? {
      var i := e.id;
      OwnStep(s, e, i);
      OwnAgreement(s, e, i);
      CellsStep(s, e, i);
      OwnFence(s, e, i, Cell(Single, "", ""));
      forall j | 0 <= j < |t.requests| ensures WellFormed(t.requests[j]) && Vouched(t.rows, t.requests[j]) {
        assert WellFormed(s.requests[j]) && Vouched(s.rows, s.requests[j]);
      }
    }
  }

  ghost predicate RowsMatch(s: State, k: Cell) {
    k.endpoint.Single? ==> OrderRows(s, k) == Placements(s, k)
  }

  lemma AddedRow(rows: seq<Row>, user: string, cell: Option<Cell>, n: nat, k: Cell)
    requires cell == Some(k) ==> n == 1
    ensures Count(rows + NewRows(user, cell, n), OfCell(k)) == Count(rows, OfCell(k)) + Bit(cell == Some(k))
  {
    var added := NewRows(user, cell, n);
    CountConcat(rows, added, OfCell(k));
    if cell == Some(k) {
      assert added == [] + [Row(user, cell)];
      CountAppend([], Row(user, cell), OfCell(k));
    } else {
      CountNone(added, OfCell(k));
    }
  }

  /** A request's step adds a row of the key exactly when it commits under it. */
  lemma OwnRows(s: State, e: Event, i: nat, k: Cell)
    requires Enabled(s, e) && Touches(e, i) && WellFormed(s.requests[i]) && k.endpoint.Single?
    ensures i < |Next(s, e).requests|
    ensures OrderRows(Next(s, e), k) + Bit(Committed(k)(s.requests[i])) ==
            OrderRows(s, k) + Bit(Committed(k)(Next(s, e).requests[i]))
  {
    if e.Commit? || e.CommitLost? {
      AddedRow(s.rows, s.requests[i].user, s.requests[i].cell, e.n, k);
    }
  }

  lemma RowsStep(s: State, e: Event, k: Cell)
    requires Enabled(s, e) && Agreement(s) && RowsMatch(s, k)
    ensures RowsMatch(Next(s, e), k)
  {
    var t := Next(s, e);
    if e.Arrive? {
      CountAppend(s.requests, t.requests[|s.requests|], Committed(k));
    } else if !e.Expire? && k.endpoint.Single? {
      OwnStep(s, e, e.id);
      OwnRows(s, e, e.id, k);
      CountUpdate(s.requests, e.id, t.requests[e.id], Committed(k));
    }
  }

  // ----- Whole runs

  /** Two requests that are about to store have placed different orders. */
  ghost predicate OwnOrders(s: State) {
    forall i, j :: 0 <= i < j < |s.requests| && s.requests[i].phase.AtStore? && s.requests[j].phase.AtStore? ==>
      s.requests[i].phase.ids != [] && s.requests[j].phase.ids != []
      && s.requests[i].phase.ids[0] != s.requests[j].phase.ids[0]
  }

  /** A step brings its request to the store only by committing new orders. */
  lemma NewStore(s: State, e: Event, i: nat)
    requires Enabled(s, e) && Touches(e, i)
    ensures var t := Next(s, e);
            i < |t.requests| && (t.requests[i].phase.AtStore? ==> t.requests[i].phase.ids != [] && t.requests[i].phase.ids[0] == |s.rows|)
  {
  }

  lemma OwnOrdersStep(s: State, e: Event)
    requires Enabled(s, e) && Agreement(s) && OwnOrders(s)
    ensures OwnOrders(Next(s, e))
  {
    if !e.Arrive? && !e.Expire? {
      NewStore(s, e, e.id);
      OwnStep(s, e, e.id);
      forall j | 0 <= j < |s.requests| && s.requests[j].phase.AtStore?
        ensures s.requests[j].phase.ids != [] && s.requests[j].phase.ids[0] < |s.rows|
      {
        assert WellFormed(s.requests[j]) && Vouched(s.rows, s.requests[j]);
      }
    }
  }

  ghost predicate Invariant(s: State, k: Cell) {
    Fenced(s, k) && Agreement(s) && RowsMatch(s, k) && OwnOrders(s)
  }

  lemma {:induction false} RunKeeps(s: State, es: seq<Event>, k: Cell)
    requires Run(s, es) && Invariant(s, k)
    ensures Invariant(Final(s, es), k)
    decreases |es|
  {
    if es != [] {
      FenceStep(s, es[0], k);
      AgreementStep(s, es[0]);
      RowsStep(s, es[0], k);
      OwnOrdersStep(s, es[0]);
      RunKeeps(Next(s, es[0]), es[1..], k);
    }
  }

  lemma Reached(t: State, k: Cell)
    requires Reachable(t)
    ensures Invariant(t, k)
  {
    var es :| Run(Start, es) && Final(Start, es) == t;
    RunKeeps(Start, es, k);
  }

  lemma {:induction false} CommittedSplit(rs: seq<Request>, k: Cell)
    requires forall i :: 0 <= i < |rs| ==> WellFormed(rs[i])
    ensures Count(rs, Committed(k)) <= Count(rs, Outstanding(k)) + Count(rs, FellThrough(k)) + Count(rs, LostCommit(k))
  {
    if rs != [] {
      CommittedSplit(rs[..|rs| - 1], k);
      assert WellFormed(rs[|rs| - 1]);
    }
  }

  /** In every reachable state a key has led to at most one placement, plus one per
      expiry of its cell, one per request that went on without the lock, and one per
      holder whose commit was reported as a failure. */
  lemma PlacementsBounded(t: State, k: Cell)
    requires Reachable(t)
    ensures Placements(t, k) <= 1 + t.expiries[k] + Falls(t, k) + Losses(t, k)
    ensures k.endpoint.Single? ==> OrderRows(t, k) <= 1 + t.expiries[k] + Falls(t, k) + Losses(t, k)
  {
    Reached(t, k);
    CommittedSplit(t.requests, k);
  }

  /** With no expiry, no request that fell through and no lost commit, a key leads to at most one
      order, even when failing holders delete the cell of a later holder. */
  lemma AtMostOneOrder(t: State, k: Cell)
    requires Reachable(t) && t.expiries[k] == 0 && Falls(t, k) == 0 && Losses(t, k) == 0
    ensures Placements(t, k) <= 1
    ensures k.endpoint.Single? ==> OrderRows(t, k) <= 1
  {
    PlacementsBounded(t, k);
  }

  /** In every reachable state a stored cell, and every answer given under a key,
      names orders that were committed for that same user under that same key. */
  lemma StoredIdsCertified(t: State)
    requires Reachable(t)
    ensures forall k :: k in t.cells && t.cells[k].Done? ==> Certified(t.rows, k, t.cells[k].ids)
    ensures forall i :: 0 <= i < |t.requests| && t.requests[i].cell.Some?
                        && t.requests[i].phase.Finished? && t.requests[i].phase.answer.Replayed? ==>
              Certified(t.rows, t.requests[i].cell.value, t.requests[i].phase.answer.ids)
  {
    Reached(t, Cell(Single, "", ""));
    forall i | 0 <= i < |t.requests| ensures Vouched(t.rows, t.requests[i]) {
    }
  }

  /** A request that read ids from its cell answers with exactly those ids: the
      lookup never misses, so only an empty read lets a request fall through. */
  lemma ReplayReturnsStored(t: State, i: nat)
    requires Reachable(t) && Enabled(t, Lookup(i))
    ensures Next(t, Lookup(i)).requests[i].phase == Finished(Replayed(t.requests[i].phase.ids))
  {
    Reached(t, Cell(Single, "", ""));
    assert WellFormed(t.requests[i]) && Vouched(t.rows, t.requests[i]);
    FoundAll(t.rows, t.requests[i].user, t.requests[i].phase.ids);
  }

  /** The cell holds these ids and nobody who held its lock is still at work. */
  ghost predicate Settled(s: State, k: Cell, ids: seq<nat>) {
    && k in s.cells && s.cells[k] == Done(ids)
    && forall i :: 0 <= i < |s.requests| && s.requests[i].cell == Some(k) && s.requests[i].locked ==>
         s.requests[i].phase.Finished?
  }

  /** Apart from request `i`, nobody who held the lock of `k` is still at work. */
  ghost predicate Sole(s: State, i: nat, k: Cell) {
    forall j :: 0 <= j < |s.requests| && j != i && s.requests[j].cell == Some(k) && s.requests[j].locked ==>
      s.requests[j].phase.Finished?
  }

  /** A cell that has never expired has one holder at most. */
  lemma NeverExpiredIsSole(s: State, i: nat, k: Cell)
    requires Reachable(s) && Enabled(s, Store(i, true)) && s.requests[i].cell == Some(k) && s.expiries[k] == 0
    ensures Sole(s, i, k)
  {
    Reached(s, k);
    forall j | 0 <= j < |s.requests| && j != i && s.requests[j].cell == Some(k) && s.requests[j].locked
      ensures s.requests[j].phase.Finished?
    {
      assert WellFormed(s.requests[i]) && WellFormed(s.requests[j]);
      if Outstanding(k)(s.requests[j]) {
        CountTwo(s.requests, if i < j then i else j, if i < j then j else i, Outstanding(k));
        assert false;
      }
    }
  }

  lemma {:induction false} SettledRun(s: State, es: seq<Event>, k: Cell, ids: seq<nat>)
    requires Run(s, es) && Settled(s, k, ids) && Agreement(s) && s.expiries[k] == Final(s, es).expiries[k]
    ensures Settled(Final(s, es), k, ids)
    decreases |es|
  {
    if es != [] {
      var t := Next(s, es[0]);
      ExpiriesGrow(s, [es[0]], k);
      ExpiriesGrow(t, es[1..], k);
      SettledStep(s, es[0], k, ids);
      AgreementStep(s, es[0]);
      SettledRun(t, es[1..], k, ids);
    }
  }

  lemma {:induction false} ExpiriesGrow(s: State, es: seq<Event>, k: Cell)
    requires Run(s, es)
    ensures s.expiries[k] <= Final(s, es).expiries[k]
    decreases |es|
  {
    if es != [] {
      ExpiriesGrow(Next(s, es[0]), es[1..], k);
    }
  }

  lemma SettledStep(s: State, e: Event, k: Cell, ids: seq<nat>)
    requires Enabled(s, e) && Settled(s, k, ids) && Agreement(s) && Next(s, e).expiries[k] == s.expiries[k]
    ensures Settled(Next(s, e), k, ids)
  {
    if !e.Arrive? && !e.Expire? {
      OwnStep(s, e, e.id);
      assert WellFormed(s.requests[e.id]);
    } else if e.Expire? {
      assert e.cell != k by {
        assert Next(s, e).expiries[e.cell] == s.expiries[e.cell] + 1;
      }
    }
  }

  /** Until the cell expires again it holds these ids, whatever happens meanwhile. */
  ghost predicate Kept(u: State, k: Cell, ids: seq<nat>) {
    forall es :: Run(u, es) && Final(u, es).expiries[k] == u.expiries[k] ==>
      k in Final(u, es).cells && Final(u, es).cells[k] == Done(ids)
  }

  /** A store by the sole holder is kept. */
  lemma SoleIsKept(s: State, i: nat, k: Cell)
    requires Reachable(s) && Enabled(s, Store(i, true)) && s.requests[i].cell == Some(k) && Sole(s, i, k)
    ensures Kept(Next(s, Store(i, true)), k, s.requests[i].phase.ids)
  {
    var u, ids := Next(s, Store(i, true)), s.requests[i].phase.ids;
    Reached(s, k);
    AgreementStep(s, Store(i, true));
    forall es | Run(u, es) && Final(u, es).expiries[k] == u.expiries[k]
      ensures k in Final(u, es).cells && Final(u, es).cells[k] == Done(ids)
    {
      SettledRun(u, es, k, ids);
    }
  }

  lemma Follow(u: State, e: Event)
    requires Enabled(u, e)
    ensures Run(u, [e]) && Final(u, [e]) == Next(u, e)
  {
    assert [e][1..] == [];
  }

  lemma FollowTwo(u: State, e: Event, f: Event)
    requires Enabled(u, e) && Enabled(Next(u, e), f)
    ensures Run(u, [e, f]) && Final(u, [e, f]) == Next(Next(u, e), f)
  {
    Follow(u, e);
    Extend(u, [e], f);
    assert [e] + [f] == [e, f];
  }

  /** Request `j` held the lock of `k` and is still at work while request `i` is about to store. */
  ghost predicate Rivals(s: State, i: nat, j: nat, k: Cell) {
    && Enabled(s, Store(i, true)) && s.requests[i].cell == Some(k)
    && j < |s.requests| && j != i && s.requests[j].cell == Some(k) && s.requests[j].locked
  }

  lemma RivalDeletes(s: State, i: nat, j: nat, k: Cell)
    requires Rivals(s, i, j, k) && s.requests[j].phase.AtDelete?
    ensures !Kept(Next(s, Store(i, true)), k, s.requests[i].phase.ids)
  {
    var u := Next(s, Store(i, true));
    Follow(u, Delete(j, true));
    assert k !in Final(u, [Delete(j, true)]).cells;
  }

  lemma RivalStores(s: State, i: nat, j: nat, k: Cell)
    requires Rivals(s, i, j, k) && s.requests[j].phase.AtStore? && OwnOrders(s)
    ensures !Kept(Next(s, Store(i, true)), k, s.requests[i].phase.ids)
  {
    var u, ids := Next(s, Store(i, true)), s.requests[j].phase.ids;
    Follow(u, Store(j, true));
    assert Final(u, [Store(j, true)]).cells[k] == Done(ids);
    assert ids[0] != s.requests[i].phase.ids[0];
  }

  lemma RivalPlaces(s: State, i: nat, j: nat, k: Cell)
    requires Rivals(s, i, j, k) && s.requests[j].phase.AtPlace? && Vouched(s.rows, s.requests[i])
    ensures !Kept(Next(s, Store(i, true)), k, s.requests[i].phase.ids)
  {
    var u := Next(s, Store(i, true));
    var v := Next(u, Commit(j, 1));
    FollowTwo(u, Commit(j, 1), Store(j, true));
    assert Next(v, Store(j, true)).cells[k] == Done(NewIds(|u.rows|, 1));
    assert s.requests[i].phase.ids[0] < |s.rows| == NewIds(|u.rows|, 1)[0];
  }

  /** A holder from before an expiry that is still at work takes the store back, or puts
      an order of its own in its place. */
  lemma HolderOverwrites(s: State, i: nat, j: nat, k: Cell)
    requires Reachable(s) && Rivals(s, i, j, k) && !s.requests[j].phase.Finished?
    ensures !Kept(Next(s, Store(i, true)), k, s.requests[i].phase.ids)
  {
    Reached(s, k);
    assert WellFormed(s.requests[j]) && Vouched(s.rows, s.requests[i]);
    if s.requests[j].phase.AtDelete? {
      RivalDeletes(s, i, j, k);
    } else if s.requests[j].phase.AtStore? {
      RivalStores(s, i, j, k);
    } else {
      RivalPlaces(s, i, j, k);
    }
  }

  /** The exact condition for a stored order to stay until its cell expires again: no
      other holder, from before an earlier expiry, is still at work. */
  lemma ReplayHoldsExactly(s: State, i: nat, k: Cell)
    requires Reachable(s) && Enabled(s, Store(i, true)) && s.requests[i].cell == Some(k)
    ensures Kept(Next(s, Store(i, true)), k, s.requests[i].phase.ids) <==> Sole(s, i, k)
    ensures s.expiries[k] == 0 ==> Sole(s, i, k)
  {
    if s.expiries[k] == 0 {
      NeverExpiredIsSole(s, i, k);
    }
    if Sole(s, i, k) {
      SoleIsKept(s, i, k);
    } else {
      var j :| 0 <= j < |s.requests| && j != i && s.requests[j].cell == Some(k) && s.requests[j].locked
               && !s.requests[j].phase.Finished?;
      HolderOverwrites(s, i, j, k);
    }
  }

  /** Once the sole holder has stored its order, and as long as the cell has not expired
      since, every later request that reads the cell is answered with that order. */
  lemma ReplayHolds(s: State, i: nat, k: Cell, es: seq<Event>, j: nat)
    requires Reachable(s) && Enabled(s, Store(i, true)) && s.requests[i].cell == Some(k) && Sole(s, i, k)
    requires Run(Next(s, Store(i, true)), es) && Final(Next(s, Store(i, true)), es).expiries[k] == s.expiries[k]
    requires var t := Final(Next(s, Store(i, true)), es); Enabled(t, GetCell(j)) && t.requests[j].cell == Some(k)
    ensures var t := Final(Next(s, Store(i, true)), es);
            Next(t, GetCell(j)).requests[j].phase == AtLookup(s.requests[i].phase.ids)
  {
    SoleIsKept(s, i, k);
  }

  // ----- What requests are answered

  /** These are the orders that the request placed: one for a single order, and all of
      them this user's, under this key if there is one. */
  ghost predicate Names(rows: seq<Row>, r: Request, ids: seq<nat>) {
    && ids != [] && (r.endpoint.Single? ==> |ids| == 1)
    && forall j :: 0 <= j < |ids| ==> ids[j] < |rows| && rows[ids[j]].user == r.user && rows[ids[j]].cell == r.cell
  }

  ghost predicate Told(rows: seq<Row>, r: Request) {
    match r.phase
    case AtStore(ids) => r.committed && !r.lost && Names(rows, r, ids)
    case Finished(Placed(ids)) => r.committed && !r.lost && Names(rows, r, ids)
    case Finished(Refused) => !r.committed || r.lost
    case Finished(Replayed(ids)) => !r.committed && !r.lost && r.cell.Some?
    case Finished(Conflict) => !r.committed && !r.lost && !r.locked && !r.fell && r.cell.Some?
    case Finished(Unavailable) => !r.committed && !r.lost && !r.locked && !r.fell && r.cell.Some?
    case AtDelete => r.committed == r.lost
    case _ => !r.committed && !r.lost
  }

  ghost predicate AllTold(s: State) {
    forall i :: 0 <= i < |s.requests| ==> WellFormed(s.requests[i]) && Told(s.rows, s.requests[i])
  }

  lemma OwnTold(s: State, e: Event, i: nat)
    requires Enabled(s, e) && Touches(e, i) && WellFormed(s.requests[i]) && Told(s.rows, s.requests[i])
    ensures i < |Next(s, e).requests| && Told(Next(s, e).rows, Next(s, e).requests[i])
  {
  }

  lemma ToldStep(s: State, e: Event)
    requires Enabled(s, e) && AllTold(s)
    ensures AllTold(Next(s, e))
  {
    var t := Next(s, e);
    assert s.rows <= t.rows;
    if !e.Arrive? && !e.Expire? {
      OwnStep(s, e, e.id);
      OwnTold(s, e, e.id);
      OwnFence(s, e, e.id, Cell(Single, "", ""));
    }
    forall j | 0 <= j < |t.requests| ensures WellFormed(t.requests[j]) && Told(t.rows, t.requests[j]) {
      if j < |s.requests| {
        assert WellFormed(s.requests[j]) && Told(s.rows, s.requests[j]);
      }
    }
  }

  lemma {:induction false} ToldRun(s: State, es: seq<Event>)
    requires Run(s, es) && AllTold(s)
    ensures AllTold(Final(s, es))
    decreases |es|
  {
    if es != [] {
      ToldStep(s, es[0]);
      ToldRun(Next(s, es[0]), es[1..]);
    }
  }

  /** In every reachable state, with a key or without: a finished request was told of
      placed orders exactly when it committed and heard of it, and then of its own orders;
      it was refused only if it had not committed, or had not heard of it; every other
      answer is a keyed request's that committed nothing. */
  lemma AnswersExactly(t: State, i: nat)
    requires Reachable(t) && i < |t.requests| && t.requests[i].phase.Finished?
    ensures var r := t.requests[i];
            && (r.phase.answer.Placed? <==> r.committed && !r.lost)
            && (r.phase.answer.Placed? ==> Names(t.rows, r, r.phase.answer.ids))
            && (r.phase.answer.Refused? ==> !r.committed || r.lost)
            && (r.lost ==> r.phase.answer.Refused?)
            && (r.phase.answer.Conflict? || r.phase.answer.Unavailable? ==> r.cell.Some? && !r.committed && !r.locked && !r.fell)
            && (r.phase.answer.Replayed? ==> r.cell.Some? && !r.committed)
  {
    var es :| Run(Start, es) && Final(Start, es) == t;
    ToldRun(Start, es);
  }

  /** What a request that lost the race to the cell is told, or does, on reading it. */
  lemma ReadExactly(s: State, i: nat)
    requires Enabled(s, GetCell(i))
    ensures var k, p := s.requests[i].cell.value, Next(s, GetCell(i)).requests[i].phase;
            && (p == Finished(Conflict) <==> k in s.cells && s.cells[k] == Processing)
            && (p.AtLookup? <==> k in s.cells && s.cells[k].Done?) && (p.AtLookup? ==> s.cells[k] == Done(p.ids))
            && (p == AtPlace <==> k !in s.cells)
  {
  }

  /** Verification of a key fails closed: whatever Redis or the lookup raises, the request is
      told that the service is unavailable and places nothing. */
  lemma FailsClosed(s: State, e: Event, i: nat)
    requires Enabled(s, e) && i < |s.requests| && WellFormed(s.requests[i])
    requires e == GetFails(i) || e == LookupFails(i) || (e.SetNxFails? && e.id == i)
    ensures Next(s, e).requests[i] == s.requests[i].(phase := Finished(Unavailable))
    ensures Next(s, e).rows == s.rows
  {
  }

  /** From every reachable state a step lets a request go on without the lock exactly when
      it reads its cell and finds it gone. */
  lemma FallsExactly(s: State, e: Event, i: nat)
    requires Reachable(s) && Enabled(s, e) && i < |s.requests| && !s.requests[i].fell
    ensures Next(s, e).requests[i].fell <==> e == GetCell(i) && s.requests[i].cell.value !in s.cells
  {
    if e == Lookup(i) {
      ReplayReturnsStored(s, i);
    }
  }

  /** A request with a key tries to take its cell first, one without a key places at once;
      neither has anything to its name yet. */
  lemma ArrivesExactly(s: State, user: string, endpoint: Endpoint, header: Option<string>)
    ensures var t, cell := Next(s, Arrive(user, endpoint, header)), CellOf(user, endpoint, header);
            && t.requests == s.requests + [Request(user, endpoint, cell, if cell.Some? then AtSetNx else AtPlace, false, false, false, false)]
            && t.rows == s.rows && t.cells == s.cells
  {
  }

  // ----- The bound is attained

  const Header := Some("k")
  const Key := Cell(Single, "u", "k")

  lemma KeyOfHeader()
    ensures CellOf("u", Single, Header) == Some(Key)
  {
    assert Text.StripLeft("k") == "k";
    assert Text.StripRight("k") == "k";
  }

  ghost predicate Counts(t: State, e: nat, f: nat, l: nat, n: nat) {
    Reachable(t) && t.expiries[Key] == e && Falls(t, Key) == f && Losses(t, Key) == l && Placements(t, Key) == n
  }

  const Newcomer := Request("u", Single, Some(Key), AtSetNx, false, false, false, false)

  lemma Comes(t: State, e: nat, f: nat, l: nat, n: nat) returns (t': State)
    requires Counts(t, e, f, l, n)
    ensures Counts(t', e, f, l, n) && t' == t.(requests := t.requests + [Newcomer])
  {
    KeyOfHeader();
    t' := Reach(t, Arrive("u", Single, Header));
    CountAppend(t.requests, Newcomer, FellThrough(Key));
    CountAppend(t.requests, Newcomer, LostCommit(Key));
    CountAppend(t.requests, Newcomer, Committed(Key));
  }

  /** How much a count grows when one request changes. */
  function Gain(p: Request -> bool, r: Request, r': Request): int {
    Bit(p(r')) - Bit(p(r))
  }

  lemma Steps(t: State, ev: Event, i: nat, e: nat, f: nat, l: nat, n: nat) returns (t': State)
    requires Counts(t, e, f, l, n) && Enabled(t, ev) && Touches(ev, i)
    ensures i < |t.requests| == |Next(t, ev).requests|
    ensures var r, r' := t.requests[i], Next(t, ev).requests[i];
            && t' == Next(t, ev) && t'.requests == t.requests[i := r']
            && f + Gain(FellThrough(Key), r, r') >= 0 && l + Gain(LostCommit(Key), r, r') >= 0
            && n + Gain(Committed(Key), r, r') >= 0
            && Counts(t', e, f + Gain(FellThrough(Key), r, r'), l + Gain(LostCommit(Key), r, r'),
                      n + Gain(Committed(Key), r, r'))
  {
    OwnStep(t, ev, i);
    t' := Reach(t, ev);
    CountUpdate(t.requests, i, t'.requests[i], FellThrough(Key));
    CountUpdate(t.requests, i, t'.requests[i], LostCommit(Key));
    CountUpdate(t.requests, i, t'.requests[i], Committed(Key));
  }

  const Holder := Newcomer.(phase := AtPlace, locked := true)

  lemma FreeCell(rs: seq<Request>, t: State)
    requires t.requests == rs + [Newcomer] && Key !in t.cells
    ensures Enabled(t, SetNx(|rs|))
    ensures Next(t, SetNx(|rs|)) == t.(cells := t.cells[Key := Processing], requests := rs + [Holder])
  {
    assert t.requests[|rs| := Holder] == rs + [Holder];
  }

  /** A newcomer takes the free cell. */
  lemma Takes(t: State, e: nat, f: nat, l: nat, n: nat) returns (t': State)
    requires Counts(t, e, f, l, n) && Key !in t.cells
    ensures Counts(t', e, f, l, n) && t'.requests == t.requests + [Holder] && t'.cells == t.cells[Key := Processing]
  {
    var u := Comes(t, e, f, l, n);
    FreeCell(t.requests, u);
    t' := Steps(u, SetNx(|t.requests|), |t.requests|, e, f, l, n);
  }

  /** A request takes the free cell, commits and stores its order. */
  lemma PlacesOne(t: State, e: nat, f: nat, l: nat, n: nat) returns (t': State)
    requires Counts(t, e, f, l, n) && Key !in t.cells
    ensures Counts(t', e, f, l, n + 1) && Key in t'.cells
  {
    var i := |t.requests|;
    t' := Takes(t, e, f, l, n);
    t' := Steps(t', Commit(i, 1), i, e, f, l, n);
    t' := Steps(t', Store(i, true), i, e, f, l, n + 1);
  }

  /** A request takes the free cell, takes its commit for a failure and deletes the cell. */
  lemma LosesOne(t: State, e: nat, f: nat, l: nat, n: nat) returns (t': State)
    requires Counts(t, e, f, l, n) && Key !in t.cells
    ensures Counts(t', e, f, l + 1, n + 1) && Key !in t'.cells
  {
    var i := |t.requests|;
    t' := Takes(t, e, f, l, n);
    t' := Steps(t', CommitLost(i, 1), i, e, f, l, n);
    t' := Steps(t', Delete(i, true), i, e, f, l + 1, n + 1);
  }

  /** A request is beaten to the cell, and the winner fails and deletes it. */
  lemma Beaten(t: State, e: nat, f: nat, l: nat, n: nat) returns (t': State)
    requires Counts(t, e, f, l, n) && Key !in t.cells
    ensures Counts(t', e, f, l, n) && Key !in t'.cells
    ensures |t'.requests| == |t.requests| + 2 && t'.requests[|t.requests| + 1] == Newcomer.(phase := AtGet)
  {
    var i := |t.requests|;
    t' := Takes(t, e, f, l, n);
    t' := Comes(t', e, f, l, n);
    t' := Steps(t', SetNx(i + 1), i + 1, e, f, l, n);
    t' := Steps(t', PlaceFails(i), i, e, f, l, n);
    t' := Steps(t', Delete(i, true), i, e, f, l, n);
  }

  /** Then the request finds nothing and places without the lock. */
  lemma FallsOnce(t: State, e: nat, f: nat, l: nat, n: nat) returns (t': State)
    requires Counts(t, e, f, l, n) && Key !in t.cells
    ensures Counts(t', e, f + 1, l, n + 1) && Key !in t'.cells
  {
    var i := |t.requests| + 1;
    t' := Beaten(t, e, f, l, n);
    t' := Steps(t', GetCell(i), i, e, f, l, n);
    t' := Steps(t', Commit(i, 1), i, e, f + 1, l, n);
  }

  lemma {:induction false} FallsOften(f: nat, l: nat) returns (t: State)
    ensures Counts(t, 0, f, l, f + l) && Key !in t.cells
    decreases f + l
  {
    if f == 0 && l == 0 {
      t := Start;
      assert Run(Start, []) && Final(Start, []) == Start;
    } else if f == 0 {
      t := FallsOften(f, l - 1);
      t := LosesOne(t, 0, f, l - 1, f + l - 1);
    } else {
      t := FallsOften(f - 1, l);
      t := FallsOnce(t, 0, f - 1, l, f - 1 + l);
    }
  }

  /** The bound is attained for every number of expiries, of requests that fall through
      and of lost commits. */
  lemma {:induction false} BoundAttained(e: nat, f: nat, l: nat) returns (t: State)
    ensures Reachable(t) && t.expiries[Key] == e && Falls(t, Key) == f && Losses(t, Key) == l
    ensures Placements(t, Key) == 1 + e + f + l && Key in t.cells
  {
    if e == 0 {
      t := FallsOften(f, l);
      t := PlacesOne(t, 0, f, l, f + l);
    } else {
      t := BoundAttained(e - 1, f, l);
      t := Reach(t, Expire(Key));
      t := PlacesOne(t, e, f, l, e + f + l);
    }
  }

  /** After an expiry two holders can be at work at once: the second is about to store
      while the first is still placing. */
  lemma TwoHolders() returns (t: State)
    ensures Reachable(t) && Enabled(t, Store(1, true)) && t.requests[1].cell == Some(Key) && !Sole(t, 1, Key)
  {
    t := Start;
    assert Run(Start, []) && Final(Start, []) == Start;
    t := Takes(t, 0, 0, 0, 0);
    t := Reach(t, Expire(Key));
    t := Takes(t, 1, 0, 0, 0);
    t := Steps(t, Commit(1, 1), 1, 1, 0, 0, 0);
    assert t.requests[0] == Holder;
  }
}
