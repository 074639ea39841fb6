/** The retry loop of one process, in the isolation that the lock gives it. Its outcome
    and the schema it leaves are those of a run of the bootstrap protocol. */
module BootstrapLoop {
  import opened Options
  import opened Bootstrap

  /** How a transaction ends: it commits, it rolls back, or it commits and the commit is
      reported as a failure. */
  datatype Fate = Fine | Fails | Lost

  class Database {
    var schema: set<Obj>

    constructor (schema: set<Obj>)
      ensures this.schema == schema
    {
      this.schema := schema;
    }

    /** create_all in one transaction: the missing objects, one by one, then commit. */
    method CreateAll(metadata: set<Obj>, fate: Fate) returns (ok: bool)
      modifies this
      ensures ok <==> fate.Fine?
      ensures schema == if fate.Fails? then old(schema) else old(schema) + metadata
    {
      var todo := metadata - schema;
      var pending: set<Obj> := {};
      while todo != {}
        invariant pending + todo == metadata - schema && pending !! todo
        decreases todo
      {
        var o :| o in todo;
        pending := pending + {o};
        todo := todo - {o};
      }
      if !fate.Fails? {
        schema := schema + pending;
      }
      return fate.Fine?;
    }

    method RunMigrations(extra: set<Obj>, fate: Fate) returns (ok: bool)
      modifies this
      ensures ok <==> fate.Fine?
      ensures schema == if fate.Fails? then old(schema) else old(schema) + extra
    {
      if !fate.Fails? {
        schema := schema + extra;
      }
      return fate.Fine?;
    }
  }

  // ----- One process of the protocol

  /** The protocol with one process, outside any transaction. */
  function Lone(schema: set<Obj>, phase: Phase, attempt: nat, faults: nat): State {
    State(schema, None, [Process(phase, {}, attempt, faults, 0)])
  }

  /** Where the process goes when an attempt fails. */
  function Retry(c: Config, attempt: nat): Phase {
    if attempt == c.attempts then GaveUp else AtLock
  }

  function NextAttempt(c: Config, attempt: nat): nat {
    if attempt == c.attempts then attempt else attempt + 1
  }

  /** The process takes the lock, looks, and creates what is missing. */
  lemma CreatesAll(c: Config, s: State, schema: set<Obj>, a: nat) returns (t: State)
    requires c.locking && a >= 1 && Reaches(c, s, Lone(schema, AtLock, a, a - 1))
    ensures Reaches(c, s, t)
    ensures t == State(schema, Some(0), [Process(Creating({}), c.metadata - schema, a, a - 1, 0)])
  {
    var u := Lone(schema, AtLock, a, a - 1);
    u := Go(c, s, u, Acquire(0));
    u := Go(c, s, u, Snapshot(0));
    t := LoneCreates(c, s, u);
    assert {} + (c.metadata - schema) == c.metadata - schema;
  }

  lemma {:induction false} LoneCreates(c: Config, s: State, t: State) returns (u: State)
    requires Reaches(c, s, t) && |t.procs| == 1 && t.procs[0].phase.Creating? && t.procs[0].phase.todo !! t.committed
    ensures Reaches(c, s, u)
    ensures var p := t.procs[0];
            u == t.(procs := [p.(phase := Creating({}), pending := p.pending + p.phase.todo)])
    decreases t.procs[0].phase.todo
  {
    var p := t.procs[0];
    if p.phase.todo == {} {
      u := t;
      assert p.pending + {} == p.pending;
      assert t.procs == [p];
    } else {
      var o :| o in p.phase.todo;
      var v := Go(c, s, t, Create(0, o));
      assert v.procs[0].pending + v.procs[0].phase.todo == p.pending + p.phase.todo;
      u := LoneCreates(c, s, v);
    }
  }

  /** The first transaction, whatever its fate. */
  lemma FirstTransaction(c: Config, s: State, schema: set<Obj>, a: nat, fate: Fate) returns (t: State)
    requires c.locking && 1 <= a <= c.attempts && Reaches(c, s, Lone(schema, AtLock, a, a - 1))
    ensures Reaches(c, s, t)
    ensures t == if fate.Fine? then Lone(schema + c.metadata, AtSecondLock, a, a - 1)
                 else Lone(if fate.Fails? then schema else schema + c.metadata, Retry(c, a), NextAttempt(c, a), a)
  {
    t := CreatesAll(c, s, schema, a);
    assert schema + (c.metadata - schema) == schema + c.metadata;
    t := Go(c, s, t, match fate case Fine => Commit(0) case Fails => Fault(0) case Lost => CommitLost(0));
  }

  /** The process takes the lock again and runs the migrations. */
  lemma MigratesAll(c: Config, s: State, schema: set<Obj>, a: nat, extra: set<Obj>) returns (t: State)
    requires c.locking && a >= 1 && Reaches(c, s, Lone(schema, AtSecondLock, a, a - 1))
    ensures Reaches(c, s, t)
    ensures t == State(schema, Some(0), [Process(AtSecondCommit, extra - schema, a, a - 1, 0)])
  {
    t := Go(c, s, Lone(schema, AtSecondLock, a, a - 1), Acquire(0));
    t := Go(c, s, t, Migrate(0, extra));
  }

  /** The second transaction, whatever its fate. */
  lemma SecondTransaction(c: Config, s: State, schema: set<Obj>, a: nat, extra: set<Obj>, fate: Fate) returns (t: State)
    requires c.locking && 1 <= a <= c.attempts && Reaches(c, s, Lone(schema, AtSecondLock, a, a - 1))
    ensures Reaches(c, s, t)
    ensures t == if fate.Fine? then Lone(schema + extra, Returned, a, a - 1)
                 else Lone(if fate.Fails? then schema else schema + extra, Retry(c, a), NextAttempt(c, a), a)
  {
    t := MigratesAll(c, s, schema, a, extra);
    assert schema + (extra - schema) == schema + extra;
    t := Go(c, s, t, match fate case Fine => SecondCommit(0) case Fails => Fault(0) case Lost => CommitLost(0));
  }

  // ----- The loop

  /** Both transactions of the attempt go through. */
  predicate Good(first: nat -> Fate, second: nat -> Fate, a: nat) {
    first(a).Fine? && second(a).Fine?
  }

  /** None of the first `n` attempts goes through. */
  ghost predicate NoneGood(first: nat -> Fate, second: nat -> Fate, n: nat) {
    forall a :: 1 <= a <= n ==> !Good(first, second, a)
  }

  /** What one attempt leaves of the schema. */
  function After(schema: set<Obj>, metadata: set<Obj>, extra: set<Obj>, first: Fate, second: Fate): set<Obj> {
    if first.Fails? then schema
    else if first.Lost? || second.Fails? then schema + metadata
    else schema + metadata + extra
  }

  /** Some attempt up to the `n`-th committed its first transaction. */
  ghost predicate Created(first: nat -> Fate, n: nat) {
    exists a :: 1 <= a <= n && !first(a).Fails?
  }

  /** Some attempt up to the `n`-th committed its second transaction. */
  ghost predicate Migrated(first: nat -> Fate, second: nat -> Fate, n: nat) {
    exists a :: 1 <= a <= n && first(a).Fine? && !second(a).Fails?
  }

  /** The schema after `n` attempts: what was there, and what any of them committed. */
  ghost function Left(schema: set<Obj>, metadata: set<Obj>, extra: set<Obj>, first: nat -> Fate, second: nat -> Fate, n: nat): set<Obj> {
    schema + (if Created(first, n) then metadata else {}) + (if Migrated(first, second, n) then extra else {})
  }

  lemma LeftStep(schema: set<Obj>, metadata: set<Obj>, extra: set<Obj>, first: nat -> Fate, second: nat -> Fate, n: nat)
    ensures Left(schema, metadata, extra, first, second, n + 1) ==
            After(Left(schema, metadata, extra, first, second, n), metadata, extra, first(n + 1), second(n + 1))
  {
    assert Created(first, n + 1) <==> Created(first, n) || !first(n + 1).Fails?;
    assert Migrated(first, second, n + 1) <==> Migrated(first, second, n) || (first(n + 1).Fine? && !second(n + 1).Fails?);
  }

  lemma LeftFacts(schema: set<Obj>, metadata: set<Obj>, extra: set<Obj>, first: nat -> Fate, second: nat -> Fate, n: nat)
    ensures n == 0 ==> Left(schema, metadata, extra, first, second, n) == schema
    ensures n > 0 && Good(first, second, n) ==> Left(schema, metadata, extra, first, second, n) == schema + metadata + extra
  {
  }

  lemma SleptStep(a: nat)
    requires a >= 1
    ensures (a + 1) * a == a * (a - 1) + 2 * a
  {
  }

  /** One attempt: its two transactions, and the same two transactions of the protocol. */
  method Attempt(db: Database, metadata: set<Obj>, extra: set<Obj>, first: Fate, second: Fate,
                 ghost c: Config, ghost s: State, ghost a: nat)
    returns (ok: bool, ghost t: State)
    requires c.metadata == metadata && c.locking && 1 <= a <= c.attempts && Reaches(c, s, Lone(db.schema, AtLock, a, a - 1))
    modifies db
    ensures ok <==> first.Fine? && second.Fine?
    ensures db.schema == After(old(db.schema), metadata, extra, first, second)
    ensures Reaches(c, s, t)
    ensures t == if ok then Lone(db.schema, Returned, a, a - 1) else Lone(db.schema, Retry(c, a), NextAttempt(c, a), a)
  {
    t := FirstTransaction(c, s, db.schema, a, first);
    ok := db.CreateAll(metadata, first);
    if ok {
      t := SecondTransaction(c, s, db.schema, a, extra, second);
      ok := db.RunMigrations(extra, second);
    }
  }

  /** How the process ends: returned or given up, with this schema and these faults. */
  ghost predicate Ended(t: State, schema: set<Obj>, ok: bool, faults: nat) {
    && t.committed == schema && |t.procs| == 1
    && t.procs[0].phase == (if ok then Returned else GaveUp) && t.procs[0].faults == faults
  }

  /** The loop, when there is an attempt to make. */
  method TryAll(db: Database, metadata: set<Obj>, extra: set<Obj>, attempts: nat, first: nat -> Fate, second: nat -> Fate)
    returns (ok: bool, tried: nat, slept: nat, ghost end: State)
    requires attempts > 0
    modifies db
    ensures 1 <= tried <= attempts && NoneGood(first, second, tried - 1) && slept == tried * (tried - 1)
    ensures ok <==> Good(first, second, tried)
    ensures !ok ==> tried == attempts
    ensures db.schema == Left(old(db.schema), metadata, extra, first, second, tried)
    ensures Reaches(Config(metadata, attempts, true), Beginning(old(db.schema), attempts), end)
    ensures Ended(end, db.schema, ok, if ok then tried - 1 else tried)
  {
    ghost var c, start := Config(metadata, attempts, true), Beginning(db.schema, attempts);
    assert Run(c, start, []) && Final(c, start, []) == start;
    LeftFacts(db.schema, metadata, extra, first, second, 0);
    tried, slept, end := 1, 0, start;
    while true
      invariant 1 <= tried <= attempts && slept == tried * (tried - 1) && NoneGood(first, second, tried - 1)
      invariant db.schema == Left(old(db.schema), metadata, extra, first, second, tried - 1)
      invariant Reaches(c, start, end) && end == Lone(db.schema, AtLock, tried, tried - 1)
      decreases attempts - tried
    {
      LeftStep(old(db.schema), metadata, extra, first, second, tried - 1);
      ok, end := Attempt(db, metadata, extra, first(tried), second(tried), c, start, tried);
      if ok || tried == attempts {
        return;
      }
      SleptStep(tried);
      slept := slept + 2 * tried;
      tried := tried + 1;
    }
  }

  /** Tries until an attempt goes through or the attempts are used up, sleeping twice the
      attempt number in between. `first` and `second` say how the two transactions of
      an attempt end. The process ends as `end`, which the protocol reaches with one
      locking process: returned or given up, with that schema and as many faults. */
  method InitSchema(db: Database, metadata: set<Obj>, extra: set<Obj>, attempts: nat,
                    first: nat -> Fate, second: nat -> Fate)
    returns (ok: bool, tried: nat, slept: nat, ghost end: State)
    modifies db
    ensures ok <==> attempts == 0 || exists a :: 1 <= a <= attempts && Good(first, second, a)
    ensures tried <= attempts && forall a :: 1 <= a < tried ==> !Good(first, second, a)
    ensures attempts == 0 ==> db.schema == old(db.schema) && slept == 0
    ensures attempts > 0 ==> 1 <= tried && slept == tried * (tried - 1)
    ensures if ok then attempts > 0 ==> Good(first, second, tried) else tried == attempts
    ensures db.schema == Left(old(db.schema), metadata, extra, first, second, tried)
    ensures attempts > 0 && ok ==> db.schema == old(db.schema) + metadata + extra
    ensures Init(Config(metadata, attempts, true), Beginning(old(db.schema), attempts))
    ensures Reaches(Config(metadata, attempts, true), Beginning(old(db.schema), attempts), end)
    ensures Ended(end, db.schema, ok, if ok && tried > 0 then tried - 1 else tried)
  {
    if attempts == 0 {
      ghost var c, start := Config(metadata, attempts, true), Beginning(db.schema, attempts);
      assert Run(c, start, []) && Final(c, start, []) == start;
      LeftFacts(db.schema, metadata, extra, first, second, 0);
      return true, 0, 0, start;
    }
    ok, tried, slept, end := TryAll(db, metadata, extra, attempts, first, second);
    LeftFacts(old(db.schema), metadata, extra, first, second, tried);
  }

  /** One process that is about to begin. */
  function Beginning(schema: set<Obj>, attempts: nat): State {
    Lone(schema, if attempts == 0 then Returned else AtLock, 1, 0)
  }
}
