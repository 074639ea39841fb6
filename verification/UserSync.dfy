/** The two-way sync between the legacy `users` table and the Better Auth tables
    `"user"` and `"account"`, statement by statement, as it runs at every startup. */
module UserSync {
  import Wallet
  import opened Options
  import opened Counting

  type Id = string

  datatype Legacy = Legacy(
    email: string, name: Option<string>, password: Option<string>, active: bool,
    role: string, balance: int, expiry: Option<int>, created: int, updated: int)

  datatype Auth = Auth(
    name: string, email: string, role: Option<string>, verified: bool, twoFactor: bool,
    created: Option<int>, updated: Option<int>)

  datatype AccountRow = AccountRow(accountId: string, provider: string, userId: Id, password: Option<string>, created: int, updated: int)

  type Users = map<Id, Legacy>
  type Auths = map<Id, Auth>

  /** A role that Better Auth states and that is a plan: not NULL, not empty, not the plugin's "user". */
  predicate IsPlan(role: Option<string>) {
    role.Some? && role.value != "" && role.value != "user"
  }

  // ----- The statements

  /** The legacy row for a Better Auth user that has none. */
  function FromAuth(u: Auth, now: int): Legacy {
    var created := if u.created.Some? then u.created.value else now;
    var stated := if u.role.None? || u.role.value == "" then "freetrial" else u.role.value;
    var expiry := if stated == "freetrial" || stated == "user" then Some(created + Wallet.TRIAL_SECONDS) else None;
    Legacy(u.email, Some(u.name), None, true, if IsPlan(u.role) then u.role.value else "freetrial", 0, expiry, created, now)
  }

  function WithMissingUsers(users: Users, auths: Auths, now: int): Users {
    map id | id in users.Keys + auths.Keys :: if id in users then users[id] else FromAuth(auths[id], now)
  }

  function WithRoles(users: Users, auths: Auths): Users {
    map id | id in users ::
      if id in auths && IsPlan(auths[id].role) && users[id].role != auths[id].role.value
      then users[id].(role := auths[id].role.value) else users[id]
  }

  function WithTrials(users: Users): Users {
    map id | id in users ::
      if users[id].role == "freetrial" && users[id].expiry.None?
      then users[id].(expiry := Some(users[id].created + Wallet.TRIAL_SECONDS)) else users[id]
  }

  function Forward(users: Users, auths: Auths, now: int): Users {
    WithTrials(WithRoles(WithMissingUsers(users, auths, now), auths))
  }

  /** What the last two forward statements make of one row. */
  function Settled(us: Legacy, role: Option<string>): Legacy {
    var r := if IsPlan(role) then us.(role := role.value) else us;
    if r.role == "freetrial" && r.expiry.None? then r.(expiry := Some(r.created + Wallet.TRIAL_SECONDS)) else r
  }

  function RoleIn(auths: Auths, id: Id): Option<string> {
    if id in auths then auths[id].role else None
  }

  lemma ForwardKeys(users: Users, auths: Auths, now: int)
    ensures Forward(users, auths, now).Keys == users.Keys + auths.Keys
  {
  }

  /** The forward half, row by row. */
  lemma ForwardAt(users: Users, auths: Auths, now: int, id: Id)
    requires id in users || id in auths
    ensures var f := Forward(users, auths, now);
            id in f && f[id] == Settled(if id in users then users[id] else FromAuth(auths[id], now), RoleIn(auths, id))
  {
    var w := WithMissingUsers(users, auths, now);
    assert id in w;
    var r := WithRoles(w, auths);
    assert r[id] == if IsPlan(RoleIn(auths, id)) then w[id].(role := RoleIn(auths, id).value) else w[id];
    assert WithTrials(r)[id] == Settled(w[id], RoleIn(auths, id));
  }

  /** A settled row has the stated plan and, on trial, an expiry; settling again changes nothing. */
  lemma SettledFacts(us: Legacy, role: Option<string>)
    ensures var r := Settled(us, role);
            && (IsPlan(role) ==> r.role == role.value)
            && (r.role == "freetrial" ==> r.expiry.Some?)
            && r == us.(role := r.role, expiry := r.expiry) && (us.expiry.Some? ==> r.expiry == us.expiry)
            && Settled(r, role) == r && (!IsPlan(role) ==> forall d :: !IsPlan(d) ==> Settled(r, d) == r)
  {
  }

  /** The Better Auth row for a legacy user that has none; its role is the column's default. */
  function FromLegacy(us: Legacy, defaultRole: Option<string>): Auth {
    Auth(if us.name.Some? then us.name.value else "", us.email, defaultRole, true, false, Some(us.created), Some(us.updated))
  }

  function WithMissingAuths(users: Users, auths: Auths, defaultRole: Option<string>): Auths {
    map id | id in users.Keys + auths.Keys :: if id in auths then auths[id] else FromLegacy(users[id], defaultRole)
  }

  // ----- Unique emails

  /** A user that only Better Auth has carries the email of another legacy user: the insert fails. */
  ghost predicate ForwardClash(users: Users, auths: Auths) {
    exists i, j :: i in auths && i !in users && j in users && auths[i].email == users[j].email
  }

  /** A user that only the legacy table has carries the email of another Better Auth user. */
  ghost predicate BackwardClash(users: Users, auths: Auths) {
    exists i, j :: i in users && i !in auths && j in auths && users[i].email == auths[j].email
  }

  ghost predicate UniqueUserEmails(users: Users) {
    forall i, j :: i in users && j in users && users[i].email == users[j].email ==> i == j
  }

  ghost predicate UniqueAuthEmails(auths: Auths) {
    forall i, j :: i in auths && j in auths && auths[i].email == auths[j].email ==> i == j
  }

  /** The forward insert keeps emails unique exactly when there is no clash. */
  lemma ForwardInsertExactly(users: Users, auths: Auths, now: int)
    requires UniqueUserEmails(users) && UniqueAuthEmails(auths)
    ensures UniqueUserEmails(WithMissingUsers(users, auths, now)) <==> !ForwardClash(users, auths)
  {
    var w := WithMissingUsers(users, auths, now);
    assert forall i :: i in w ==> w[i].email == if i in users then users[i].email else auths[i].email;
    if ForwardClash(users, auths) {
      var i, j :| i in auths && i !in users && j in users && auths[i].email == users[j].email;
      assert w[i].email == w[j].email;
    }
  }

  lemma BackwardInsertExactly(users: Users, auths: Auths, d: Option<string>)
    requires UniqueUserEmails(users) && UniqueAuthEmails(auths)
    ensures UniqueAuthEmails(WithMissingAuths(users, auths, d)) <==> !BackwardClash(users, auths)
  {
    var w := WithMissingAuths(users, auths, d);
    assert forall i :: i in w ==> w[i].email == if i in auths then auths[i].email else users[i].email;
    if BackwardClash(users, auths) {
      var i, j :| i in users && i !in auths && j in auths && users[i].email == auths[j].email;
      assert w[i].email == w[j].email;
    }
  }

  // ----- Credential accounts

  function CredentialOf(id: Id): AccountRow -> bool {
    (r: AccountRow) => r.userId == id && r.provider == "credential"
  }

  predicate HasPassword(us: Legacy) {
    us.password.Some? && us.password.value != ""
  }

  /** The user has a password and no credential account yet. */
  predicate Needs(users: Users, accounts: seq<AccountRow>, id: Id) {
    id in users && HasPassword(users[id]) && Count(accounts, CredentialOf(id)) == 0
  }

  function CredentialRow(us: Legacy, id: Id): AccountRow {
    AccountRow(us.email, "credential", id, us.password, us.created, us.updated)
  }

  /** `after` adds to `before` one credential row for each user that needs one and
      is not in `todo`, and nothing else. */
  ghost predicate FilledBut(users: Users, before: seq<AccountRow>, after: seq<AccountRow>, todo: set<Id>) {
    && before <= after
    && (forall k :: |before| <= k < |after| ==>
          var id := after[k].userId;
          Needs(users, before, id) && after[k] == CredentialRow(users[id], id))
    && (forall id :: Count(after, CredentialOf(id)) ==
                     Count(before, CredentialOf(id)) + Bit(Needs(users, before, id) && id !in todo))
  }

  ghost predicate Filled(users: Users, before: seq<AccountRow>, after: seq<AccountRow>) {
    FilledBut(users, before, after, {})
  }

  lemma FillOne(users: Users, before: seq<AccountRow>, after: seq<AccountRow>, todo: set<Id>, id: Id)
    requires FilledBut(users, before, after, todo) && id in todo && Needs(users, before, id)
    ensures FilledBut(users, before, after + [CredentialRow(users[id], id)], todo - {id})
  {
    var row := CredentialRow(users[id], id);
    forall i ensures Count(after + [row], CredentialOf(i)) == Count(after, CredentialOf(i)) + Bit(i == id) {
      CountAppend(after, row, CredentialOf(i));
    }
  }

  // ----- The whole sync

  datatype Tables = Tables(users: Users, auths: Auths, accounts: seq<AccountRow>)

  datatype Outcome = Failed | Aborted | Synced

  /** What one run does. The first insert raises when it would break the unique emails of
      `users`. An error of the second one, which would break those of `"user"`, is caught,
      but it leaves the transaction aborted, so that the next statement raises. Either
      way everything rolls back. */
  ghost predicate Ran(t: Tables, now: int, d: Option<string>, out: Outcome, t': Tables) {
    if !UniqueUserEmails(WithMissingUsers(t.users, t.auths, now)) then out == Failed && t' == t
    else if !UniqueAuthEmails(WithMissingAuths(Forward(t.users, t.auths, now), t.auths, d)) then out == Aborted && t' == t
    else out == Synced && Went(t, now, d, t')
  }

  /** What a run leaves that goes through. */
  ghost predicate Went(t: Tables, now: int, d: Option<string>, t': Tables) {
    && t'.users == Forward(t.users, t.auths, now)
    && t'.auths == WithMissingAuths(t'.users, t.auths, d)
    && Filled(t'.users, t.accounts, t'.accounts)
  }

  /** UNIQUE (email) of the legacy table. */
  method UsersFit(users: Users) returns (fits: bool)
    ensures fits <==> UniqueUserEmails(users)
  {
    fits := !exists i, j | i in users && j in users :: users[i].email == users[j].email && i != j;
  }

  /** UNIQUE (email) of the Better Auth table. */
  method AuthsFit(auths: Auths) returns (fits: bool)
    ensures fits <==> UniqueAuthEmails(auths)
  {
    fits := !exists i, j | i in auths && j in auths :: auths[i].email == auths[j].email && i != j;
  }

  class Database {
    var users: Users
    var auths: Auths
    var accounts: seq<AccountRow>

    constructor (t: Tables)
      ensures Value() == t
    {
      users, auths, accounts := t.users, t.auths, t.accounts;
    }

    ghost function Value(): Tables
      reads this
    {
      Tables(users, auths, accounts)
    }

    /** Inserts the credential rows, one user at a time in any order. */
    method InsertCredentials()
      modifies this`accounts
      ensures Filled(users, old(accounts), accounts)
    {
      ghost var before := accounts;
      var todo := set id | id in users && Needs(users, accounts, id);
      while todo != {}
        invariant forall id :: id in todo ==> Needs(users, before, id)
        invariant FilledBut(users, before, accounts, todo)
        decreases todo
      {
        var id :| id in todo;
        FillOne(users, before, accounts, todo, id);
        accounts := accounts + [CredentialRow(users[id], id)];
        todo := todo - {id};
      }
    }

    method Sync(now: int, defaultRole: Option<string>) returns (out: Outcome)
      modifies this
      ensures Ran(old(Value()), now, defaultRole, out, Value())
    {
      var grown := WithMissingUsers(users, auths, now);
      var fits := UsersFit(grown);
      if !fits {
        return Failed;
      }
      var stored := users;
      users := WithTrials(WithRoles(grown, auths));
      assert users == Forward(stored, auths, now);
      var copied := WithMissingAuths(users, auths, defaultRole);
      fits := AuthsFit(copied);
      if !fits {
        users := stored;
        return Aborted;
      }
      auths := copied;
      InsertCredentials();
      return Synced;
    }
  }

  // ----- What a run achieves

  /** The forward half leaves every row settled with respect to Better Auth's role. */
  lemma ForwardSettles(users: Users, auths: Auths, now: int, id: Id)
    requires id in users.Keys + auths.Keys
    ensures var f := Forward(users, auths, now);
            && id in f && (IsPlan(RoleIn(auths, id)) ==> f[id].role == RoleIn(auths, id).value)
            && (f[id].role == "freetrial" ==> f[id].expiry.Some?)
            && Settled(f[id], RoleIn(auths, id)) == f[id]
            && (!IsPlan(RoleIn(auths, id)) ==> forall d :: !IsPlan(d) ==> Settled(f[id], d) == f[id])
            && (id in users ==> f[id] == users[id].(role := f[id].role, expiry := f[id].expiry)
                                && (users[id].expiry.Some? ==> f[id].expiry == users[id].expiry))
  {
    ForwardAt(users, auths, now, id);
    if id in users {
      SettledFacts(users[id], RoleIn(auths, id));
    } else {
      SettledFacts(FromAuth(auths[id], now), auths[id].role);
    }
  }

  lemma RowsComplete(users: Users, auths: Auths, now: int, d: Option<string>, id: Id)
    requires id in users.Keys + auths.Keys && !IsPlan(d)
    ensures var f := Forward(users, auths, now);
            var b := WithMissingAuths(f, auths, d);
            && id in f && id in b
            && (IsPlan(b[id].role) ==> f[id].role == b[id].role.value)
            && (f[id].role == "freetrial" ==> f[id].expiry.Some?)
            && Settled(f[id], b[id].role) == f[id]
  {
    ForwardSettles(users, auths, now, id);
    assert id in WithMissingAuths(Forward(users, auths, now), auths, d);
  }

  lemma BackwardKeys(users: Users, auths: Auths, d: Option<string>)
    ensures WithMissingAuths(users, auths, d).Keys == users.Keys + auths.Keys
  {
  }

  lemma AccountsComplete(users: Users, before: seq<AccountRow>, after: seq<AccountRow>)
    requires Filled(users, before, after)
    ensures forall id :: id in users && HasPassword(users[id]) ==>
              Count(after, CredentialOf(id)) ==
              (if Count(before, CredentialOf(id)) == 0 then 1 else Count(before, CredentialOf(id)))
  {
  }

  /** After a full run both tables hold the same ids, roles agree wherever Better Auth
      states a plan, every trial has an expiry, and every user with a password has a
      credential account; a user that lacked one gains exactly one. */
  lemma SyncComplete(t: Tables, now: int, d: Option<string>, t': Tables)
    requires Went(t, now, d, t') && !IsPlan(d)
    ensures t'.users.Keys == t'.auths.Keys == t.users.Keys + t.auths.Keys
    ensures forall id :: id in t'.auths && IsPlan(t'.auths[id].role) ==> t'.users[id].role == t'.auths[id].role.value
    ensures forall id :: id in t'.users && t'.users[id].role == "freetrial" ==> t'.users[id].expiry.Some?
    ensures forall id :: id in t'.users && HasPassword(t'.users[id]) ==>
              Count(t'.accounts, CredentialOf(id)) ==
              (if Count(t.accounts, CredentialOf(id)) == 0 then 1 else Count(t.accounts, CredentialOf(id)))
  {
    ForwardKeys(t.users, t.auths, now);
    BackwardKeys(t'.users, t.auths, d);
    AccountsComplete(t'.users, t.accounts, t'.accounts);
    forall id | id in t'.users
      ensures IsPlan(t'.auths[id].role) ==> t'.users[id].role == t'.auths[id].role.value
      ensures t'.users[id].role == "freetrial" ==> t'.users[id].expiry.Some?
    {
      RowsComplete(t.users, t.auths, now, d, id);
    }
  }

  /** The row is an active one with the email, name and age of the Better Auth user, no
      password, no money, and its plan or a trial of five hours. */
  predicate StartsAs(us: Legacy, u: Auth, now: int) {
    && us.email == u.email && us.name == Some(u.name) && us.password == None && us.active && us.balance == 0
    && us.created == (if u.created.Some? then u.created.value else now) && us.updated == now
    && us.role == (if u.role.Some? && u.role.value != "" && u.role.value != "user" then u.role.value else "freetrial")
    && us.expiry == if us.role == "freetrial" then Some(us.created + 18000) else None
  }

  /** The legacy row of a user that only Better Auth had. */
  lemma AddedUser(users: Users, auths: Auths, now: int, id: Id)
    requires id in auths && id !in users
    ensures var f := Forward(users, auths, now); id in f && StartsAs(f[id], auths[id], now)
  {
    ForwardAt(users, auths, now, id);
  }

  /** Roles and trials leave the emails of the forward insert as they are. */
  lemma ForwardEmails(users: Users, auths: Auths, now: int)
    ensures UniqueUserEmails(Forward(users, auths, now)) <==> UniqueUserEmails(WithMissingUsers(users, auths, now))
  {
    var w, f := WithMissingUsers(users, auths, now), Forward(users, auths, now);
    ForwardKeys(users, auths, now);
    assert w.Keys == f.Keys;
    forall id | id in f ensures f[id].email == w[id].email {
      ForwardAt(users, auths, now, id);
    }
  }

  /** The row is a verified one without a second factor, with the email, name and dates of
      the legacy user and the column's default role. */
  predicate CopiedFrom(u: Auth, us: Legacy, d: Option<string>) {
    && u.email == us.email && u.name == (if us.name.Some? then us.name.value else "") && u.role == d
    && u.verified && !u.twoFactor && u.created == Some(us.created) && u.updated == Some(us.updated)
  }

  /** The Better Auth row of a user that only the legacy table had. */
  lemma AddedAuth(users: Users, auths: Auths, now: int, d: Option<string>, id: Id)
    requires id in users && id !in auths
    ensures var b := WithMissingAuths(Forward(users, auths, now), auths, d);
            id in b && CopiedFrom(b[id], users[id], d)
  {
    ForwardSettles(users, auths, now, id);
    assert id in WithMissingAuths(Forward(users, auths, now), auths, d);
  }

  /** A full run gives a user that only Better Auth had a legacy row with the same
      email, no money, and its plan or a trial of five hours. */
  lemma SyncAddsUser(t: Tables, now: int, d: Option<string>, t': Tables, id: Id)
    requires Went(t, now, d, t') && id in t.auths && id !in t.users
    ensures id in t'.users && StartsAs(t'.users[id], t.auths[id], now)
  {
    AddedUser(t.users, t.auths, now, id);
  }

  /** A full run gives a user that only the legacy table had a Better Auth row with the same email and name. */
  lemma SyncAddsAuth(t: Tables, now: int, d: Option<string>, t': Tables, id: Id)
    requires Went(t, now, d, t') && id in t.users && id !in t.auths
    ensures id in t'.auths && CopiedFrom(t'.auths[id], t.users[id], d)
  {
    AddedAuth(t.users, t.auths, now, d, id);
  }

  /** The role is the plan that Better Auth states, and nothing else changes it; the expiry
      is five hours from its creation for a trial without one, and nothing else changes it. */
  predicate SettlesFrom(us': Legacy, us: Legacy, stated: Option<string>) {
    && us'.role == (if stated.Some? && stated.value != "" && stated.value != "user" then stated.value else us.role)
    && us'.expiry == if us'.role == "freetrial" && us.expiry.None? then Some(us.created + 18000) else us.expiry
  }

  lemma SettledUser(users: Users, auths: Auths, now: int, id: Id)
    requires id in users
    ensures var f := Forward(users, auths, now);
            id in f && SettlesFrom(f[id], users[id], if id in auths then auths[id].role else None)
  {
    ForwardAt(users, auths, now, id);
  }

  /** What a full run leaves of the role and the expiry of a legacy user. */
  lemma SyncSettlesUser(t: Tables, now: int, d: Option<string>, t': Tables, id: Id)
    requires Went(t, now, d, t') && id in t.users
    ensures id in t'.users && SettlesFrom(t'.users[id], t.users[id], if id in t.auths then t.auths[id].role else None)
  {
    SettledUser(t.users, t.auths, now, id);
  }

  /** The row carries the user's email and password, under the provider that signs in with them. */
  predicate Credential(row: AccountRow, us: Legacy, id: Id) {
    && row.userId == id && row.accountId == us.email && row.provider == "credential" && row.password == us.password
    && row.created == us.created && row.updated == us.updated
  }

  lemma FilledRow(users: Users, before: seq<AccountRow>, after: seq<AccountRow>, id: Id) returns (k: nat)
    requires Filled(users, before, after) && Needs(users, before, id)
    ensures |before| <= k < |after| && Credential(after[k], users[id], id)
    ensures forall j :: |before| <= j < |after| && after[j].userId == id ==> j == k
  {
    assert Count(after, CredentialOf(id)) == 1;
    k := CountWitness(after, CredentialOf(id));
    if k < |before| {
      CountMember(before, k, CredentialOf(id));
      assert false;
    }
    forall j | |before| <= j < |after| && after[j].userId == id ensures j == k {
      assert after[j] == CredentialRow(users[id], id);
      if j != k {
        CountTwo(after, if j < k then j else k, if j < k then k else j, CredentialOf(id));
        assert false;
      }
    }
  }

  /** The password arrives: a full run adds, for every legacy user with a password and no
      credential account, one row that holds that user's email and password. */
  lemma CredentialArrives(t: Tables, now: int, d: Option<string>, t': Tables, id: Id) returns (k: nat)
    requires Went(t, now, d, t') && id in t.users
    requires t.users[id].password.Some? && t.users[id].password.value != ""
    requires forall j :: 0 <= j < |t.accounts| ==> !(t.accounts[j].userId == id && t.accounts[j].provider == "credential")
    ensures |t.accounts| <= k < |t'.accounts| && Credential(t'.accounts[k], t.users[id], id)
    ensures forall j :: |t.accounts| <= j < |t'.accounts| && t'.accounts[j].userId == id ==> j == k
  {
    ForwardSettles(t.users, t.auths, now, id);
    CountNone(t.accounts, CredentialOf(id));
    k := FilledRow(t'.users, t.accounts, t'.accounts, id);
  }

  /** Nobody else gets an account: every added row is of a legacy user with a password
      and without a credential account. */
  lemma AccountsOnlyWhereNeeded(t: Tables, now: int, d: Option<string>, t': Tables, k: nat)
    requires Went(t, now, d, t') && |t.accounts| <= k < |t'.accounts|
    ensures var id := t'.accounts[k].userId;
            && id in t'.users && t'.users[id].password.Some? && t'.users[id].password.value != ""
            && Credential(t'.accounts[k], t'.users[id], id)
            && forall j :: 0 <= j < |t.accounts| ==> !(t.accounts[j].userId == id && t.accounts[j].provider == "credential")
  {
    var id := t'.accounts[k].userId;
    assert Needs(t'.users, t.accounts, id) && t'.accounts[k] == CredentialRow(t'.users[id], id);
    forall j | 0 <= j < |t.accounts| ensures !(t.accounts[j].userId == id && t.accounts[j].provider == "credential") {
      if CredentialOf(id)(t.accounts[j]) {
        CountMember(t.accounts, j, CredentialOf(id));
        assert false;
      }
    }
  }

  /** A full run keeps emails unique on both sides. */
  lemma SyncKeepsEmailsUnique(t: Tables, now: int, d: Option<string>, t': Tables)
    requires Ran(t, now, d, Synced, t')
    ensures UniqueUserEmails(t'.users) && UniqueAuthEmails(t'.auths)
  {
    ForwardEmails(t.users, t.auths, now);
  }

  /** Nothing that was there is lost: only role and a missing trial expiry of a legacy row may change. */
  lemma SyncPreserves(t: Tables, now: int, d: Option<string>, out: Outcome, t': Tables)
    requires Ran(t, now, d, out, t')
    ensures forall id :: id in t.users ==>
              id in t'.users && t'.users[id] == t.users[id].(role := t'.users[id].role, expiry := t'.users[id].expiry)
              && (t.users[id].expiry.Some? ==> t'.users[id].expiry == t.users[id].expiry)
    ensures forall id :: id in t.auths ==> id in t'.auths && t'.auths[id] == t.auths[id]
    ensures t.accounts <= t'.accounts
  {
    forall id | id in t.users
      ensures id in t'.users && t'.users[id] == t.users[id].(role := t'.users[id].role, expiry := t'.users[id].expiry)
      ensures t.users[id].expiry.Some? ==> t'.users[id].expiry == t.users[id].expiry
    {
      ForwardSettles(t.users, t.auths, now, id);
    }
  }

  lemma NothingMissing(users: Users, auths: Auths, d: Option<string>)
    requires users.Keys == auths.Keys
    ensures WithMissingAuths(users, auths, d) == auths && forall now :: WithMissingUsers(users, auths, now) == users
  {
  }

  lemma SettledRow(users: Users, auths: Auths, now: int, d: Option<string>, later: int, id: Id)
    requires !IsPlan(d) && id in users.Keys + auths.Keys
    ensures var f := Forward(users, auths, now);
            id in f && id in Forward(f, WithMissingAuths(f, auths, d), later)
            && Forward(f, WithMissingAuths(f, auths, d), later)[id] == f[id]
  {
    var f := Forward(users, auths, now);
    var b := WithMissingAuths(f, auths, d);
    RowsComplete(users, auths, now, d, id);
    ForwardAt(f, b, later, id);
  }

  lemma SameUsers(a: Users, b: Users)
    requires a.Keys == b.Keys && forall id :: id in b ==> a[id] == b[id]
    ensures a == b
  {
  }

  /** The forward half of a second run finds every row settled. */
  lemma ForwardAgain(users: Users, auths: Auths, now: int, d: Option<string>, later: int)
    requires !IsPlan(d)
    ensures var f := Forward(users, auths, now);
            var b := WithMissingAuths(f, auths, d);
            f.Keys == b.Keys && Forward(f, b, later) == f && WithMissingAuths(f, b, d) == b
  {
    var f := Forward(users, auths, now);
    var b := WithMissingAuths(f, auths, d);
    var g := Forward(f, b, later);
    ForwardKeys(users, auths, now);
    BackwardKeys(f, auths, d);
    ForwardKeys(f, b, later);
    NothingMissing(f, b, d);
    forall id | id in f ensures g[id] == f[id] {
      SettledRow(users, auths, now, d, later, id);
    }
    SameUsers(g, f);
  }

  lemma FilledAgain(users: Users, a: seq<AccountRow>, b: seq<AccountRow>, c: seq<AccountRow>)
    requires Filled(users, a, b) && Filled(users, b, c)
    ensures c == b
  {
    var added := c[|b|..];
    var first := if added == [] then None else Some(added[0]);
    assert first.Some? ==> Needs(users, b, first.value.userId);
    forall id ensures !Needs(users, b, id) {
      assert Count(b, CredentialOf(id)) == Count(a, CredentialOf(id)) + Bit(Needs(users, a, id));
    }
    assert first.None?;
  }

  lemma SyncKeys(t: Tables, now: int, d: Option<string>, t': Tables)
    requires Went(t, now, d, t')
    ensures t'.users.Keys == t'.auths.Keys
  {
    ForwardKeys(t.users, t.auths, now);
    BackwardKeys(t'.users, t.auths, d);
  }

  /** A second run, at any later time, changes nothing. */
  lemma SyncIdempotent(t: Tables, now: int, d: Option<string>, t': Tables, later: int, out: Outcome, t'': Tables)
    requires Ran(t, now, d, Synced, t') && Ran(t', later, d, out, t'') && !IsPlan(d)
    ensures out == Synced && t'' == t'
  {
    ForwardAgain(t.users, t.auths, now, d, later);
    SyncKeepsEmailsUnique(t, now, d, t');
    SyncKeys(t, now, d, t');
    NothingMissing(t'.users, t'.auths, d);
    FilledAgain(t'.users, t.accounts, t'.accounts, t''.accounts);
  }

  /** The forward half neither makes nor resolves a backward clash. */
  lemma ForwardKeepsClash(users: Users, auths: Auths, now: int)
    ensures BackwardClash(Forward(users, auths, now), auths) <==> BackwardClash(users, auths)
  {
    var f := Forward(users, auths, now);
    ForwardKeys(users, auths, now);
    forall id | id in users ensures f[id].email == users[id].email {
      ForwardSettles(users, auths, now, id);
    }
    if BackwardClash(users, auths) {
      var i, j :| i in users && i !in auths && j in auths && users[i].email == auths[j].email;
      assert f[i].email == auths[j].email;
    }
    if BackwardClash(f, auths) {
      var i, j :| i in f && i !in auths && j in auths && f[i].email == auths[j].email;
      assert i in users;
    }
  }

  /** The unique emails of the two tables let a run through exactly when no email is
      shared by a user that one table lacks and another user of that table; otherwise
      the run changes nothing. */
  lemma SyncSucceedsExactly(t: Tables, now: int, d: Option<string>, out: Outcome, t': Tables)
    requires UniqueUserEmails(t.users) && UniqueAuthEmails(t.auths) && Ran(t, now, d, out, t')
    ensures out == Failed <==> ForwardClash(t.users, t.auths)
    ensures out == Synced <==> !ForwardClash(t.users, t.auths) && !BackwardClash(t.users, t.auths)
    ensures out != Synced ==> t' == t
  {
    var f := Forward(t.users, t.auths, now);
    ForwardInsertExactly(t.users, t.auths, now);
    ForwardEmails(t.users, t.auths, now);
    if UniqueUserEmails(f) {
      BackwardInsertExactly(f, t.auths, d);
    }
    ForwardKeepsClash(t.users, t.auths, now);
  }
}
