/** The idempotency protocol of the two order endpoints. A request with a key
    takes a Redis cell with SET NX, places its order, commits, and stores the
    order ids in the cell, or deletes the cell when placing fails. Requests
    interleave freely, a cell may expire at any moment, and every Redis call may
    fail, with or without having taken effect, and so may the commit. */
module Orders {
  import opened Options
  import opened Text

  datatype Endpoint = Single | Mass

  /** The cell of one (endpoint, user, key). */
  datatype Cell = Cell(endpoint: Endpoint, user: string, key: string)

  datatype Stored = Processing | Done(ids: seq<nat>)

  /** An order row; its id is its place in the table. */
  datatype Row = Row(user: string, cell: Option<Cell>)

  datatype Answer =
    | Conflict
    | Unavailable
    | Refused
    | Replayed(ids: seq<nat>)
    | Placed(ids: seq<nat>)

  datatype Phase =
    | AtSetNx
    | AtGet
    | AtLookup(ids: seq<nat>)
    | AtPlace
    | AtStore(ids: seq<nat>)
    | AtDelete
    | Finished(answer: Answer)

  /** `fell` marks a request with a key that went on to place without the lock, `lost`
      one whose commit took effect and was reported as a failure. */
  datatype Request = Request(
    user: string, endpoint: Endpoint, cell: Option<Cell>, phase: Phase, locked: bool, fell: bool, committed: bool, lost: bool)

  /** `expiries` is history: how often each cell has expired. */
  datatype State = State(cells: map<Cell, Stored>, rows: seq<Row>, requests: seq<Request>, expiries: multiset<Cell>)

  datatype Event =
    | Arrive(user: string, endpoint: Endpoint, header: Option<string>)
    | SetNx(id: nat)
    | SetNxFails(id: nat, applied: bool)
    | GetCell(id: nat)
    | GetFails(id: nat)
    | Lookup(id: nat)
    | LookupFails(id: nat)
    | Commit(id: nat, n: nat)
    | CommitLost(id: nat, n: nat)
    | PlaceFails(id: nat)
    | PlaceRejects(id: nat)
    | Store(id: nat, applied: bool)
    | Delete(id: nat, applied: bool)
    | Expire(cell: Cell)

  /** The header counts only when something is left after stripping. */
  function CellOf(user: string, endpoint: Endpoint, header: Option<string>): Option<Cell> {
    if header.Some? && Strip(header.value) != "" then Some(Cell(endpoint, user, Strip(header.value))) else None
  }

  /** The ids among `ids` that name an order of this user. */
  function Found(rows: seq<Row>, user: string, ids: seq<nat>): seq<nat> {
    if ids == [] then []
    else
      var rest := Found(rows, user, ids[1..]);
      if ids[0] < |rows| && rows[ids[0]].user == user then [ids[0]] + rest else rest
  }

  function NewIds(from: nat, n: nat): (ids: seq<nat>)
    ensures |ids| == n && forall i :: 0 <= i < n ==> ids[i] == from + i
  {
    seq(n, i requires 0 <= i => from + i)
  }

  function NewRows(user: string, cell: Option<Cell>, n: nat): (rows: seq<Row>)
    ensures |rows| == n && forall i :: 0 <= i < n ==> rows[i] == Row(user, cell)
  {
    seq(n, i => Row(user, cell))
  }

  /** The request is placing `n` orders, one if it is a single order. */
  predicate Placing(s: State, i: nat, n: nat) {
    i < |s.requests| && s.requests[i].phase.AtPlace? && n >= 1 && (s.requests[i].endpoint.Single? ==> n == 1)
  }

  predicate Enabled(s: State, e: Event) {
    match e
    case Arrive(_, _, _) => true
    case SetNx(i) => i < |s.requests| && s.requests[i].phase.AtSetNx? && s.requests[i].cell.Some?
    case SetNxFails(i, _) => i < |s.requests| && s.requests[i].phase.AtSetNx? && s.requests[i].cell.Some?
    case GetCell(i) => i < |s.requests| && s.requests[i].phase.AtGet? && s.requests[i].cell.Some?
    case GetFails(i) => i < |s.requests| && s.requests[i].phase.AtGet?
    case Lookup(i) => i < |s.requests| && s.requests[i].phase.AtLookup?
    case LookupFails(i) => i < |s.requests| && s.requests[i].phase.AtLookup?
    case Commit(i, n) => Placing(s, i, n)
    case CommitLost(i, n) => Placing(s, i, n)
    case PlaceFails(i) => i < |s.requests| && s.requests[i].phase.AtPlace?
    case PlaceRejects(i) => i < |s.requests| && s.requests[i].phase.AtPlace?
    case Store(i, _) => i < |s.requests| && s.requests[i].phase.AtStore? && s.requests[i].cell.Some?
    case Delete(i, _) => i < |s.requests| && s.requests[i].phase.AtDelete? && s.requests[i].cell.Some?
    case Expire(k) => k in s.cells
  }

  function Move(s: State, i: nat, p: Phase): State
    requires i < |s.requests|
  {
    s.(requests := s.requests[i := s.requests[i].(phase := p)])
  }

  function Fall(s: State, i: nat): State
    requires i < |s.requests|
  {
    s.(requests := s.requests[i := s.requests[i].(phase := AtPlace, fell := true)])
  }

  function TakeCell(s: State, i: nat): State
    requires Enabled(s, SetNx(i))
  {
    var r := s.requests[i];
    if r.cell.value in s.cells then Move(s, i, AtGet)
    else s.(cells := s.cells[r.cell.value := Processing], requests := s.requests[i := r.(phase := AtPlace, locked := true)])
  }

  function ReadCell(s: State, i: nat): State
    requires Enabled(s, GetCell(i))
  {
    var k := s.requests[i].cell.value;
    if k !in s.cells then Fall(s, i)
    else
      match s.cells[k]
      case Processing => Move(s, i, Finished(Conflict))
      case Done(ids) => Move(s, i, AtLookup(ids))
  }

  function ReadOrders(s: State, i: nat): State
    requires Enabled(s, Lookup(i))
  {
    var found := Found(s.rows, s.requests[i].user, s.requests[i].phase.ids);
    if found != [] then Move(s, i, Finished(Replayed(found))) else Fall(s, i)
  }

  function CommitOrders(s: State, i: nat, n: nat): State
    requires Placing(s, i, n)
  {
    var r := s.requests[i];
    var ids := NewIds(|s.rows|, n);
    s.(rows := s.rows + NewRows(r.user, r.cell, n),
    requests := s.requests[i := r.(committed := true, phase := if r.locked then AtStore(ids) else Finished(Placed(ids)))])
  }

  /** The rows are there, but the request takes the commit for a failure. */
  function LoseCommit(s: State, i: nat, n: nat): State
    requires Placing(s, i, n)
  {
    var r := s.requests[i];
    s.(rows := s.rows + NewRows(r.user, r.cell, n),
    requests := s.requests[i := r.(committed := true, lost := true, phase := if r.locked then AtDelete else Finished(Refused))])
  }

  function FailPlacing(s: State, i: nat): State
    requires Enabled(s, PlaceFails(i))
  {
    Move(s, i, if s.requests[i].locked then AtDelete else Finished(Refused))
  }

  function StoreIds(s: State, i: nat, applied: bool): State
    requires Enabled(s, Store(i, applied))
  {
    var r := s.requests[i];
    var s' := Move(s, i, Finished(Placed(r.phase.ids)));
    if applied then s'.(cells := s.cells[r.cell.value := Done(r.phase.ids)]) else s'
  }

  function DropCell(s: State, i: nat, applied: bool): State
    requires Enabled(s, Delete(i, applied))
  {
    var s' := Move(s, i, Finished(Refused));
    if applied then s'.(cells := s.cells - {s.requests[i].cell.value}) else s'
  }

  function Next(s: State, e: Event): State
    requires Enabled(s, e)
  {
    match e
    case Arrive(user, endpoint, header) =>
      var cell := CellOf(user, endpoint, header);
      var first := if cell.Some? then AtSetNx else AtPlace;
      s.(requests := s.requests + [Request(user, endpoint, cell, first, false, false, false, false)])
    case SetNx(i) => TakeCell(s, i)
    case SetNxFails(i, applied) =>
      var k := s.requests[i].cell.value;
      var s' := Move(s, i, Finished(Unavailable));
      if applied && k !in s.cells then s'.(cells := s.cells[k := Processing]) else s'
    case GetCell(i) => ReadCell(s, i)
    case GetFails(i) => Move(s, i, Finished(Unavailable))
    case Lookup(i) => ReadOrders(s, i)
    case LookupFails(i) => Move(s, i, Finished(Unavailable))
    case Commit(i, n) => CommitOrders(s, i, n)
    case CommitLost(i, n) => LoseCommit(s, i, n)
    case PlaceFails(i) => FailPlacing(s, i)
    case PlaceRejects(i) => Move(s, i, Finished(Refused))
    case Store(i, applied) => StoreIds(s, i, applied)
    case Delete(i, applied) => DropCell(s, i, applied)
    case Expire(k) => s.(cells := s.cells - {k}, expiries := s.expiries + multiset{k})
  }

  const Start := State(map[], [], [], multiset{})

  predicate Run(s: State, es: seq<Event>)
    decreases |es|
  {
    es != [] ==> Enabled(s, es[0]) && Run(Next(s, es[0]), es[1..])
  }

  function Final(s: State, es: seq<Event>): State
    requires Run(s, es)
    decreases |es|
  {
    if es == [] then s else Final(Next(s, es[0]), es[1..])
  }

  ghost predicate Reachable(t: State) {
    exists es :: Run(Start, es) && Final(Start, es) == t
  }

  lemma {:induction false} Extend(s: State, es: seq<Event>, e: Event)
    requires Run(s, es) && Enabled(Final(s, es), e)
    ensures Run(s, es + [e]) && Final(s, es + [e]) == Next(Final(s, es), e)
    decreases |es|
  {
    if es != [] {
      Extend(Next(s, es[0]), es[1..], e);
      assert (es + [e])[1..] == es[1..] + [e];
    }
  }

  lemma Reach(t: State, e: Event) returns (t': State)
    requires Reachable(t) && Enabled(t, e)
    ensures t' == Next(t, e) && Reachable(t')
  {
    var es :| Run(Start, es) && Final(Start, es) == t;
    Extend(Start, es, e);
    t' := Next(t, e);
  }

  // ----- Cells and their Redis strings

  function Render(k: Cell): string {
    (if k.endpoint.Single? then "idempotency:order:" else "idempotency:order_mass:") + (k.user + ":" + k.key)
  }

  /** A header gives the key between its white space, and none if there is nothing else. */
  lemma CellExactly(user: string, endpoint: Endpoint, l: string, key: string, r: string)
    requires AllSpace(l) && Bare(key) && AllSpace(r)
    ensures CellOf(user, endpoint, Some(l + key + r)) == if key == "" then None else Some(Cell(endpoint, user, key))
    ensures CellOf(user, endpoint, None) == None
  {
    StripExactly(l, key, r);
  }

  lemma RenderText(user: string, key: string)
    ensures Render(Cell(Single, user, key)) == "idempotency:order:" + user + ":" + key
    ensures Render(Cell(Mass, user, key)) == "idempotency:order_mass:" + user + ":" + key
  {
  }

  /** Distinct (endpoint, user, key) triples never share a Redis string; user ids are UUIDs, which hold no colon. */
  lemma RenderInjective(k: Cell, l: Cell)
    requires ':' !in k.user && ':' !in l.user && Render(k) == Render(l)
    ensures k == l
  {
    assert Render(k)[17] == if k.endpoint.Single? then ':' else '_';
    assert Render(l)[17] == if l.endpoint.Single? then ':' else '_';
    var prefix := if k.endpoint.Single? then "idempotency:order:" else "idempotency:order_mass:";
    PrefixCancels(prefix, k.user + ":" + k.key, l.user + ":" + l.key);
    FirstSeparator(k.user, k.key, l.user, l.key, ':');
  }
}
