/** Schema bootstrap by any number of processes at once. Each process takes the
    advisory lock, looks which metadata objects exist, creates the missing ones
    one by one, commits, and then runs the migrations in a second locked
    transaction. A fault may strike anywhere; the transaction then rolls back, the
    lock goes with it, and the process tries again until its attempts are used up. A
    commit may also take effect and be reported as a failure. */
module Bootstrap {
  import opened Options
  import opened Counting

  type Obj = string

  /** `locking` is false for the control run that calls create_all without the lock. */
  datatype Config = Config(metadata: set<Obj>, attempts: nat, locking: bool)

  datatype Phase =
    | AtLock
    | AtSnapshot
    | Creating(todo: set<Obj>)
    | AtSecondLock
    | AtMigrate
    | AtSecondCommit
    | Returned
    | GaveUp

  /** `pending` is what the open transaction has created; `faults` and `hits` count
      the attempts lost to outside faults and to "already exists" errors. */
  datatype Process = Process(phase: Phase, pending: set<Obj>, attempt: nat, faults: nat, hits: nat)

  datatype State = State(committed: set<Obj>, lock: Option<nat>, procs: seq<Process>)

  datatype Event =
    | Acquire(id: nat)
    | Snapshot(id: nat)
    | Create(id: nat, obj: Obj)
    | Commit(id: nat)
    | Migrate(id: nat, extra: set<Obj>)
    | SecondCommit(id: nat)
    | Fault(id: nat)
    | CommitLost(id: nat)

  /** Something went wrong from outside. */
  predicate IsFault(e: Event) {
    e.Fault? || e.CommitLost?
  }

  predicate Over(p: Phase) {
    p.Returned? || p.GaveUp?
  }

  /** The process is inside a transaction that has taken the lock. */
  predicate Inside(p: Phase) {
    p.AtSnapshot? || p.Creating? || p.AtMigrate? || p.AtSecondCommit?
  }

  predicate Enabled(c: Config, s: State, e: Event) {
    && e.id < |s.procs|
    && var p := s.procs[e.id];
       match e
       case Acquire(_) => (p.phase.AtLock? || p.phase.AtSecondLock?) && (c.locking ==> s.lock.None?)
       case Snapshot(_) => p.phase.AtSnapshot?
       case Create(i, o) =>
         // An object that another open transaction has created makes this one wait.
         && p.phase.Creating? && o in p.phase.todo
         && forall j :: 0 <= j < |s.procs| && j != i ==> o !in s.procs[j].pending
       case Commit(_) => p.phase.Creating? && p.phase.todo == {}
       case Migrate(_, _) => p.phase.AtMigrate?
       case SecondCommit(_) => p.phase.AtSecondCommit?
       case Fault(_) => !Over(p.phase)
       case CommitLost(_) => (p.phase.Creating? && p.phase.todo == {}) || p.phase.AtSecondCommit?
  }

  function Unlock(s: State, i: nat): Option<nat> {
    if s.lock == Some(i) then None else s.lock
  }

  function Set(s: State, i: nat, p: Process): State
    requires i < |s.procs|
  {
    s.(procs := s.procs[i := p])
  }

  /** Rollback: nothing created survives, the lock is gone, and the next attempt starts, if there is one. */
  function Abort(c: Config, s: State, i: nat, p: Process): State
    requires i < |s.procs|
  {
    var q := if p.attempt == c.attempts then p.(phase := GaveUp, pending := {})
             else p.(phase := AtLock, pending := {}, attempt := p.attempt + 1);
    Set(s, i, q).(lock := Unlock(s, i))
  }

  function Close(s: State, i: nat, next: Phase): State
    requires i < |s.procs|
  {
    var p := s.procs[i];
    Set(s, i, p.(phase := next, pending := {})).(committed := s.committed + p.pending, lock := Unlock(s, i))
  }

  function Next(c: Config, s: State, e: Event): State
    requires Enabled(c, s, e)
  {
    var i := e.id;
    var p := s.procs[i];
    match e
    case Acquire(_) =>
      var q := p.(phase := if p.phase.AtLock? then AtSnapshot else AtMigrate);
      Set(s, i, q).(lock := if c.locking then Some(i) else s.lock)
    case Snapshot(_) => Set(s, i, p.(phase := Creating(c.metadata - s.committed)))
    case Create(_, o) =>
      // A bare CREATE of an object that exists is an error.
      if o in s.committed then Abort(c, s, i, p.(hits := p.hits + 1))
      else Set(s, i, p.(phase := Creating(p.phase.todo - {o}), pending := p.pending + {o}))
    case Commit(_) => Close(s, i, AtSecondLock)
    case Migrate(_, extra) => Set(s, i, p.(phase := AtSecondCommit, pending := extra - s.committed))
    case SecondCommit(_) => Close(s, i, Returned)
    case Fault(_) => Abort(c, s, i, p.(faults := p.faults + 1))
    case CommitLost(_) =>
      // The commit took effect and was reported as a failure.
      Abort(c, s.(committed := s.committed + p.pending), i, p.(faults := p.faults + 1))
  }

  /** Any schema to begin with; no attempts at all means that a process returns at once. */
  ghost predicate Init(c: Config, s: State) {
    && s.lock.None?
    && forall i :: 0 <= i < |s.procs| ==>
         s.procs[i] == Process(if c.attempts == 0 then Returned else AtLock, {}, 1, 0, 0)
  }

  predicate Run(c: Config, s: State, es: seq<Event>)
    decreases |es|
  {
    es != [] ==> Enabled(c, s, es[0]) && Run(c, Next(c, s, es[0]), es[1..])
  }

  function Final(c: Config, s: State, es: seq<Event>): State
    requires Run(c, s, es)
    decreases |es|
  {
    if es == [] then s else Final(c, Next(c, s, es[0]), es[1..])
  }

  // ----- Nobody is disturbed

  /** At most one process is inside, as the lock or the number of processes sees to it. */
  ghost predicate Alone(c: Config, s: State) {
    if c.locking then
      forall i :: 0 <= i < |s.procs| ==> (Inside(s.procs[i].phase) <==> s.lock == Some(i))
    else |s.procs| <= 1
  }

  ghost predicate Sound(c: Config, s: State, p: Process) {
    && (!Inside(p.phase) ==> p.pending == {})
    && (p.phase.AtSnapshot? || p.phase.AtMigrate? ==> p.pending == {})
    && (p.phase.Creating? ==> p.phase.todo !! s.committed && c.metadata <= s.committed + p.pending + p.phase.todo)
    && (p.phase.AtSecondLock? || p.phase.AtMigrate? || p.phase.AtSecondCommit? ==> c.metadata <= s.committed)
    && (p.phase.Returned? && c.attempts > 0 ==> c.metadata <= s.committed)
    && p.hits == 0
    && (p.phase.GaveUp? ==> p.faults == c.attempts)
    && (c.attempts == 0 ==> p.phase.Returned?)
    && (c.attempts > 0 && !p.phase.GaveUp? ==> p.attempt == p.faults + 1 <= c.attempts)
  }

  ghost predicate Invariant(c: Config, s: State) {
    && Alone(c, s)
    && forall i :: 0 <= i < |s.procs| ==> Sound(c, s, s.procs[i])
  }

  lemma StepKeeps(c: Config, s: State, e: Event)
    requires Enabled(c, s, e) && Invariant(c, s)
    ensures Invariant(c, Next(c, s, e))
  {
    var t := Next(c, s, e);
    assert Sound(c, s, s.procs[e.id]);
    forall i | 0 <= i < |t.procs| ensures Sound(c, t, t.procs[i]) {
      assert Sound(c, s, s.procs[i]);
    }
  }

  lemma {:induction false} RunKeeps(c: Config, s: State, es: seq<Event>)
    requires Run(c, s, es) && Invariant(c, s)
    ensures Invariant(c, Final(c, s, es))
    decreases |es|
  {
    if es != [] {
      StepKeeps(c, s, es[0]);
      RunKeeps(c, Next(c, s, es[0]), es[1..]);
    }
  }

  ghost predicate NoHits(s: State) {
    forall i :: 0 <= i < |s.procs| ==> s.procs[i].hits == 0
  }

  /** With the advisory lock, whatever the number of processes and wherever faults
      strike: no create step ever hits an existing object, a process gives up only
      after as many outside faults as it has attempts, and a process that returns
      leaves every metadata object in place. */
  lemma LockedBootstrap(c: Config, s: State, es: seq<Event>)
    requires c.locking && Init(c, s) && Run(c, s, es)
    ensures var t := Final(c, s, es);
            NoHits(t)
            && forall i :: 0 <= i < |t.procs| ==>
              && (t.procs[i].phase.GaveUp? ==> t.procs[i].faults == c.attempts)
              && (t.procs[i].phase.Returned? && c.attempts > 0 ==> c.metadata <= t.committed)
  {
    RunKeeps(c, s, es);
    var t := Final(c, s, es);
    forall i | 0 <= i < |t.procs| ensures Sound(c, t, t.procs[i]) {
    }
  }

  // ----- Without the lock

  lemma {:induction false} Append(c: Config, s: State, es: seq<Event>, e: Event)
    requires Run(c, s, es) && Enabled(c, Final(c, s, es), e)
    ensures Run(c, s, es + [e]) && Final(c, s, es + [e]) == Next(c, Final(c, s, es), e)
    decreases |es|
  {
    if es != [] {
      Append(c, Next(c, s, es[0]), es[1..], e);
      assert (es + [e])[1..] == es[1..] + [e];
    }
  }

  ghost predicate Reaches(c: Config, s: State, t: State) {
    exists es :: Run(c, s, es) && Final(c, s, es) == t
  }

  lemma Go(c: Config, s: State, t: State, e: Event) returns (t': State)
    requires Reaches(c, s, t) && Enabled(c, t, e)
    ensures t' == Next(c, t, e) && Reaches(c, s, t')
  {
    var es :| Run(c, s, es) && Final(c, s, es) == t;
    Append(c, s, es, e);
    t' := Next(c, t, e);
  }

  /** Both processes look before either creates. */
  lemma BothLook(c: Config, s: State) returns (t: State)
    requires !c.locking && c.attempts > 0 && Init(c, s) && |s.procs| >= 2
    ensures Reaches(c, s, t) && t.committed == s.committed && |t.procs| == |s.procs|
    ensures t.procs[0].phase == t.procs[1].phase == Creating(c.metadata - s.committed)
    ensures forall i :: 0 <= i < |t.procs| ==> t.procs[i].pending == {}
  {
    assert Run(c, s, []) && Final(c, s, []) == s;
    t := Go(c, s, s, Acquire(0));
    t := Go(c, s, t, Acquire(1));
    t := Go(c, s, t, Snapshot(0));
    t := Go(c, s, t, Snapshot(1));
  }

  /** The first process creates everything that is missing. */
  lemma {:induction false} FirstCreates(c: Config, s: State, t: State) returns (u: State)
    requires Reaches(c, s, t) && |t.procs| >= 1 && t.procs[0].phase.Creating?
    requires t.procs[0].phase.todo !! t.committed
    requires forall i :: 1 <= i < |t.procs| ==> t.procs[i].pending == {}
    ensures Reaches(c, s, u) && u.committed == t.committed && |u.procs| == |t.procs| && u.procs[1..] == t.procs[1..]
    ensures u.procs[0].phase == Creating({})
    ensures u.procs[0].pending == t.procs[0].pending + t.procs[0].phase.todo
    decreases t.procs[0].phase.todo
  {
    if t.procs[0].phase.todo == {} {
      u := t;
    } else {
      var o :| o in t.procs[0].phase.todo;
      var v := Go(c, s, t, Create(0, o));
      assert v.procs[0].pending + v.procs[0].phase.todo == t.procs[0].pending + t.procs[0].phase.todo;
      u := FirstCreates(c, s, v);
    }
  }

  /** Then the second process runs into an object that the first has committed. */
  lemma SecondHits(c: Config, s: State) returns (t: State)
    requires !c.locking && c.attempts > 0 && Init(c, s) && |s.procs| >= 2 && !(c.metadata <= s.committed)
    ensures Reaches(c, s, t) && !NoHits(t)
  {
    t := BothLook(c, s);
    var missing := c.metadata - s.committed;
    var u := FirstCreates(c, s, t);
    assert u.procs[1] == u.procs[1..][0] == t.procs[1];
    assert forall i :: 1 <= i < |u.procs| ==> u.procs[i] == u.procs[1..][i - 1];
    u := Go(c, s, u, Commit(0));
    var o :| o in missing;
    assert u.procs[0].pending == {};
    t := Go(c, s, u, Create(1, o));
    assert t.procs[1].hits > 0;
  }

  /** All objects exist from the start: nobody ever has anything to create. */
  ghost predicate Complete(c: Config, s: State) {
    && c.metadata <= s.committed
    && forall i :: 0 <= i < |s.procs| ==>
         s.procs[i].hits == 0 && (s.procs[i].phase.Creating? ==> s.procs[i].phase.todo == {})
  }

  lemma {:induction false} CompleteRun(c: Config, s: State, es: seq<Event>)
    requires Run(c, s, es) && Complete(c, s)
    ensures Complete(c, Final(c, s, es))
    decreases |es|
  {
    if es != [] {
      assert Complete(c, Next(c, s, es[0]));
      CompleteRun(c, Next(c, s, es[0]), es[1..]);
    }
  }

  /** With no attempts every process has returned from the start, and nothing can happen. */
  lemma IdleRun(c: Config, s: State, es: seq<Event>)
    requires c.attempts == 0 && Init(c, s) && Run(c, s, es)
    ensures Final(c, s, es) == s
  {
    if es != [] {
      assert false;
    }
  }

  /** The exact condition for a bootstrap that can never hit an existing object: the
      lock, or a single process, or nothing left to create, or nothing attempted. */
  lemma HitFreeExactly(c: Config, s: State)
    requires Init(c, s)
    ensures (forall t :: Reaches(c, s, t) ==> NoHits(t))
            <==> c.locking || |s.procs| <= 1 || c.metadata <= s.committed || c.attempts == 0
  {
    if c.locking || |s.procs| <= 1 || c.metadata <= s.committed || c.attempts == 0 {
      forall t | Reaches(c, s, t) ensures NoHits(t) {
        var es :| Run(c, s, es) && Final(c, s, es) == t;
        if c.attempts == 0 {
          IdleRun(c, s, es);
        } else if c.locking || |s.procs| <= 1 {
          RunKeeps(c, s, es);
          forall i | 0 <= i < |t.procs| ensures Sound(c, t, t.procs[i]) {
          }
        } else {
          CompleteRun(c, s, es);
        }
      }
    } else {
      var t := SecondHits(c, s);
    }
  }

  // ----- What a return means

  /** Every metadata object is committed, or pending in this process, or still on its
      list; past its first commit, and on return, every one is committed. */
  ghost predicate Covers(c: Config, s: State, p: Process) {
    && (p.phase.Creating? ==> c.metadata <= s.committed + p.pending + p.phase.todo)
    && (p.phase.AtSecondLock? || p.phase.AtMigrate? || p.phase.AtSecondCommit? || p.phase.Returned? ==>
          c.metadata <= s.committed)
  }

  ghost predicate AllCover(c: Config, s: State) {
    forall i :: 0 <= i < |s.procs| ==> Covers(c, s, s.procs[i])
  }

  lemma CoverStep(c: Config, s: State, e: Event)
    requires Enabled(c, s, e) && AllCover(c, s)
    ensures AllCover(c, Next(c, s, e))
  {
    var t := Next(c, s, e);
    assert Covers(c, s, s.procs[e.id]);
    forall i | 0 <= i < |t.procs| ensures Covers(c, t, t.procs[i]) {
      assert Covers(c, s, s.procs[i]);
    }
  }

  lemma {:induction false} CoverRun(c: Config, s: State, es: seq<Event>)
    requires Run(c, s, es) && AllCover(c, s)
    ensures AllCover(c, Final(c, s, es))
    decreases |es|
  {
    if es != [] {
      CoverStep(c, s, es[0]);
      CoverRun(c, Next(c, s, es[0]), es[1..]);
    }
  }

  /** A process that has returned left every metadata object in place. */
  ghost predicate ReturnsComplete(c: Config, s: State) {
    forall i :: 0 <= i < |s.procs| && s.procs[i].phase.Returned? ==> c.metadata <= s.committed
  }

  /** With or without the lock, a return always means a complete schema if and only if
      at least one attempt is configured, or there is no process, or nothing was missing. */
  lemma ReturnsCompleteExactly(c: Config, s: State)
    requires Init(c, s)
    ensures (forall t :: Reaches(c, s, t) ==> ReturnsComplete(c, t))
            <==> c.attempts > 0 || |s.procs| == 0 || c.metadata <= s.committed
  {
    assert Run(c, s, []) && Final(c, s, []) == s;
    if c.attempts > 0 || |s.procs| == 0 || c.metadata <= s.committed {
      forall t | Reaches(c, s, t) ensures ReturnsComplete(c, t) {
        var es :| Run(c, s, es) && Final(c, s, es) == t;
        CoverRun(c, s, es);
        forall i | 0 <= i < |t.procs| ensures Covers(c, t, t.procs[i]) {
        }
      }
    } else {
      assert Reaches(c, s, s) && s.procs[0].phase.Returned?;
    }
  }

  // ----- Waiting ends

  lemma Onward(c: Config, s: State, i: nat) returns (e: Event)
    requires c.locking && Invariant(c, s) && i < |s.procs| && !Over(s.procs[i].phase)
    requires s.lock.Some? ==> s.lock.value < |s.procs|
    ensures Enabled(c, s, e) && !IsFault(e)
  {
    var j := if s.lock.Some? then s.lock.value else i;
    var p := s.procs[j];
    assert Sound(c, s, p);
    assert s.lock.Some? ==> Inside(p.phase);
    if p.phase.AtLock? || p.phase.AtSecondLock? {
      e := Acquire(j);
    } else if p.phase.AtSnapshot? {
      e := Snapshot(j);
    } else if p.phase.Creating? {
      if p.phase.todo == {} {
        e := Commit(j);
      } else {
        var o :| o in p.phase.todo;
        forall k | 0 <= k < |s.procs| && k != j ensures s.procs[k].pending == {} {
          assert Sound(c, s, s.procs[k]);
        }
        e := Create(j, o);
      }
    } else if p.phase.AtMigrate? {
      e := Migrate(j, {});
    } else {
      e := SecondCommit(j);
    }
  }

  /** With the lock, in every reachable state, as long as some process is not over a step
      other than a fault is possible. */
  lemma Progress(c: Config, s: State, es: seq<Event>, i: nat) returns (e: Event)
    requires c.locking && Init(c, s) && Run(c, s, es)
    requires i < |Final(c, s, es).procs| && !Over(Final(c, s, es).procs[i].phase)
    ensures Enabled(c, Final(c, s, es), e) && !IsFault(e)
  {
    RunKeeps(c, s, es);
    LockHeld(c, s, es);
    e := Onward(c, Final(c, s, es), i);
  }

  /** The steps a process still has before it, when nothing goes wrong. */
  ghost function Left(c: Config, p: Process): nat {
    match p.phase
    case AtLock => |c.metadata| + 6
    case AtSnapshot => |c.metadata| + 5
    case Creating(todo) => |todo| + 4
    case AtSecondLock => 3
    case AtMigrate => 2
    case AtSecondCommit => 1
    case Returned => 0
    case GaveUp => 0
  }

  ghost function AllLeft(c: Config, ps: seq<Process>): nat {
    if ps == [] then 0 else AllLeft(c, ps[..|ps| - 1]) + Left(c, ps[|ps| - 1])
  }

  lemma {:induction false} AllLeftUpdate(c: Config, ps: seq<Process>, i: nat, p: Process)
    requires i < |ps|
    ensures AllLeft(c, ps[i := p]) + Left(c, ps[i]) == AllLeft(c, ps) + Left(c, p)
  {
    var n := |ps| - 1;
    if i == n {
      assert ps[i := p][..n] == ps[..n];
    } else {
      assert ps[i := p][..n] == ps[..n][i := p];
      AllLeftUpdate(c, ps[..n], i, p);
    }
  }

  lemma OthersStay(c: Config, s: State, e: Event)
    requires Enabled(c, s, e)
    ensures var t := Next(c, s, e); |t.procs| == |s.procs| && t.procs == s.procs[e.id := t.procs[e.id]]
  {
  }

  lemma CreateShrinks(c: Config, s: State, i: nat, o: Obj)
    requires Enabled(c, s, Create(i, o)) && Sound(c, s, s.procs[i])
    ensures Left(c, Next(c, s, Create(i, o)).procs[i]) < Left(c, s.procs[i])
  {
    var todo := s.procs[i].phase.todo;
    assert |todo - {o}| == |todo| - 1;
  }

  lemma SnapshotShrinks(c: Config, s: State, i: nat)
    requires Enabled(c, s, Snapshot(i)) && Sound(c, s, s.procs[i])
    ensures Left(c, Next(c, s, Snapshot(i)).procs[i]) < Left(c, s.procs[i])
  {
    SmallerSet(c.metadata - s.committed, c.metadata);
  }

  lemma OtherShrinks(c: Config, s: State, e: Event)
    requires Enabled(c, s, e) && !IsFault(e) && !e.Create? && !e.Snapshot?
    ensures Left(c, Next(c, s, e).procs[e.id]) < Left(c, s.procs[e.id])
  {
  }

  lemma OwnShrinks(c: Config, s: State, e: Event)
    requires Enabled(c, s, e) && !IsFault(e) && Sound(c, s, s.procs[e.id])
    ensures Left(c, Next(c, s, e).procs[e.id]) < Left(c, s.procs[e.id])
  {
    if e.Create? {
      CreateShrinks(c, s, e.id, e.obj);
    } else if e.Snapshot? {
      SnapshotShrinks(c, s, e.id);
    } else {
      OtherShrinks(c, s, e);
    }
  }

  lemma StepShrinks(c: Config, s: State, e: Event)
    requires c.locking && Invariant(c, s) && Enabled(c, s, e) && !IsFault(e)
    ensures AllLeft(c, Next(c, s, e).procs) < AllLeft(c, s.procs)
  {
    var t := Next(c, s, e);
    OthersStay(c, s, e);
    OwnShrinks(c, s, e);
    AllLeftUpdate(c, s.procs, e.id, t.procs[e.id]);
  }

  lemma {:induction false} FaultFreeLength(c: Config, s: State, es: seq<Event>)
    requires c.locking && Invariant(c, s) && Run(c, s, es) && forall i :: 0 <= i < |es| ==> !IsFault(es[i])
    ensures |es| + AllLeft(c, Final(c, s, es).procs) <= AllLeft(c, s.procs)
    decreases |es|
  {
    if es != [] {
      StepShrinks(c, s, es[0]);
      StepKeeps(c, s, es[0]);
      FaultFreeLength(c, Next(c, s, es[0]), es[1..]);
    }
  }

  lemma {:induction false} FreshLeft(c: Config, ps: seq<Process>)
    requires forall i :: 0 <= i < |ps| ==> ps[i].phase.AtLock?
    ensures AllLeft(c, ps) == |ps| * (|c.metadata| + 6)
  {
    if ps != [] {
      FreshLeft(c, ps[..|ps| - 1]);
      assert |ps| * (|c.metadata| + 6) == (|ps| - 1) * (|c.metadata| + 6) + (|c.metadata| + 6);
    }
  }

  lemma {:induction false} LockHeld(c: Config, s: State, es: seq<Event>)
    requires Run(c, s, es) && (s.lock.Some? ==> s.lock.value < |s.procs|)
    ensures var t := Final(c, s, es); |t.procs| == |s.procs| && (t.lock.Some? ==> t.lock.value < |t.procs|)
    decreases |es|
  {
    if es != [] {
      LockHeld(c, Next(c, s, es[0]), es[1..]);
    }
  }

  lemma {:induction false} NoFaultsCounted(c: Config, s: State, es: seq<Event>)
    requires c.locking && Invariant(c, s) && Run(c, s, es) && forall i :: 0 <= i < |es| ==> !IsFault(es[i])
    requires forall i :: 0 <= i < |s.procs| ==> s.procs[i].faults == 0
    ensures forall i :: 0 <= i < |Final(c, s, es).procs| ==> Final(c, s, es).procs[i].faults == 0
    decreases |es|
  {
    if es != [] {
      assert Sound(c, s, s.procs[es[0].id]);
      StepKeeps(c, s, es[0]);
      NoFaultsCounted(c, Next(c, s, es[0]), es[1..]);
    }
  }

  /** A schedule without faults is at most n * (objects + 6) steps long, and when it
      cannot be continued every process has returned with the schema complete. */
  lemma FaultFreeStartup(c: Config, s: State, es: seq<Event>)
    requires c.locking && c.attempts > 0 && Init(c, s) && Run(c, s, es)
    requires forall i :: 0 <= i < |es| ==> !IsFault(es[i])
    ensures |es| <= |s.procs| * (|c.metadata| + 6)
    ensures var t := Final(c, s, es);
            (forall e :: Enabled(c, t, e) ==> IsFault(e)) ==>
              forall i :: 0 <= i < |t.procs| ==> t.procs[i].phase.Returned? && c.metadata <= t.committed
  {
    FaultFreeLength(c, s, es);
    FreshLeft(c, s.procs);
    RunKeeps(c, s, es);
    LockHeld(c, s, es);
    NoFaultsCounted(c, s, es);
    var t := Final(c, s, es);
    if forall e :: Enabled(c, t, e) ==> IsFault(e) {
      forall i | 0 <= i < |t.procs| ensures t.procs[i].phase.Returned? && c.metadata <= t.committed {
        assert Sound(c, t, t.procs[i]);
        if !Over(t.procs[i].phase) {
          var e := Onward(c, t, i);
          assert false;
        }
      }
    }
  }
}
