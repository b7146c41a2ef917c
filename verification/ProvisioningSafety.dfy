/** Safety and progress of the provisioning machine over every interleaving. */
module ProvisioningSafety {
  import opened Provisioning

  // ---- What a run knows between its statements ----------------------------------------

  ghost predicate OrgReady(db: Db, r: Run) {
    || (r.pending.orgs == {} && Org(r.orgId, r.service.orgName) in db.orgs)
    || (r.pending.orgs == {Org(r.orgId, r.service.orgName)} && NoOrg(db, r.service))
  }

  ghost predicate UserReady(db: Db, r: Run) {
    var u := User(r.userId, r.service.email, r.orgId);
    || (r.pending.users == {} && r.pending.orgs == {} && u in db.users)
    || (r.pending.users == {u} && NoUser(db, r.service) && OrgReady(db, r))
  }

  ghost predicate KeyReady(db: Db, r: Run, base: nat, next: nat, withdrawn: nat) {
    || (r.pending.keys == {} && (withdrawn > 0 || !NoActiveKey(db, r.service, r.userId)))
    || (exists id :: base <= id < next
                     && r.pending.keys == {ApiKey(id, r.service.keyName, r.userId, r.orgId, true)}
                     && NoActiveKey(db, r.service, r.userId))
  }

  ghost predicate RunOk(db: Db, r: Run, base: nat, next: nat, withdrawn: nat) {
    match r.stage
    case Waiting => r.pending == NOTHING
    case FindUser => r.pending == NOTHING
    case FindOrg => r.pending == NOTHING && NoUser(db, r.service)
    case CreateOrg => r.pending == NOTHING && NoUser(db, r.service) && NoOrg(db, r.service)
    case CreateUser => r.pending.users == {} && r.pending.keys == {} && NoUser(db, r.service) && OrgReady(db, r)
    case FindKey => r.pending.keys == {} && UserReady(db, r)
    case CreateKey => r.pending.keys == {} && UserReady(db, r) && NoActiveKey(db, r.service, r.userId)
    case Committing => UserReady(db, r) && KeyReady(db, r, base, next, withdrawn)
    case Done => r.pending == NOTHING
    case Aborted => r.pending == NOTHING
  }

  ghost predicate LocksOk(hash: string -> int, s: State) {
    && (forall i :: 0 <= i < |s.runs| && InTransaction(s.runs[i].stage) ==>
          hash(s.runs[i].service.lockName) in s.locks && s.locks[hash(s.runs[i].service.lockName)] == i)
    && (forall h :: h in s.locks ==>
          s.locks[h] < |s.runs| && InTransaction(s.runs[s.locks[h]].stage)
              && hash(s.runs[s.locks[h]].service.lockName) == h)
  }

  /** Every key minted since the start (its id is at least `base`) is well owned. */
  ghost predicate KeysOk(s: State, base: nat) {
    && base <= s.nextId
    && (forall k :: k in s.db.keys ==> k.id < s.nextId)
    && (forall k :: k in s.db.keys && k.id >= base ==>
          exists i :: 0 <= i < |s.runs| && WellOwned(s.db, k, s.runs[i].service))
  }

  ghost predicate Inv(hash: string -> int, s: State, base: nat) {
    && Compatible(hash, s.runs)
    && LocksOk(hash, s)
    && KeysOk(s, base)
    && (forall i :: 0 <= i < |s.runs| ==> ServiceOk(s.db, s.runs[i].service))
    && (forall i :: 0 <= i < |s.runs| ==> RunOk(s.db, s.runs[i], base, s.nextId, s.withdrawn))
    && (forall i :: 0 <= i < |s.runs| && s.runs[i].stage == Done ==> Provisioned(s, s.runs[i].service))
  }

  // ---- One step ---------------------------------------------------------------------------

  lemma StatementKeepsRun(db: Db, r: Run, r': Run, base: nat, id: nat, id': nat, withdrawn: nat)
    requires Statement(db, r, r', id, id') && RunOk(db, r, base, id, withdrawn) && base <= id
    ensures RunOk(db, r', base, id', withdrawn)
    ensures r'.service == r.service && InTransaction(r.stage) && InTransaction(r'.stage)
  {
  }

  lemma RunOkLater(db: Db, r: Run, base: nat, n: nat, n': nat, withdrawn: nat)
    requires RunOk(db, r, base, n, withdrawn) && n <= n'
    ensures RunOk(db, r, base, n', withdrawn)
  {
  }

  /** What depends only on the committed rows and on the services of the runs carries over. */
  lemma SameServices(hash: string -> int, s: State, s': State, base: nat)
    requires Inv(hash, s, base)
    requires |s'.runs| == |s.runs| && forall j :: 0 <= j < |s.runs| ==> s'.runs[j].service == s.runs[j].service
    requires s'.db == s.db && s.nextId <= s'.nextId && s'.withdrawn == s.withdrawn
    ensures Compatible(hash, s'.runs) && KeysOk(s', base)
    ensures forall j :: 0 <= j < |s'.runs| ==> ServiceOk(s'.db, s'.runs[j].service)
    ensures forall j :: 0 <= j < |s'.runs| && s.runs[j].stage == Done ==> Provisioned(s', s'.runs[j].service)
  {
  }

  lemma ExecuteKeepsInv(hash: string -> int, s: State, s': State, i: nat, base: nat)
    requires Inv(hash, s, base) && Execute(s, s', i)
    ensures Inv(hash, s', base)
  {
    StatementKeepsRun(s.db, s.runs[i], s'.runs[i], base, s.nextId, s'.nextId, s.withdrawn);
    assert s.nextId <= s'.nextId;
    forall j | 0 <= j < |s'.runs| ensures RunOk(s'.db, s'.runs[j], base, s'.nextId, s'.withdrawn) {
      if j != i { RunOkLater(s.db, s.runs[j], base, s.nextId, s'.nextId, s.withdrawn); }
    }
    SameServices(hash, s, s', base);
  }

  lemma AcquireKeepsInv(hash: string -> int, s: State, s': State, i: nat, base: nat)
    requires Inv(hash, s, base) && Acquire(hash, s, s', i)
    ensures Inv(hash, s', base)
  {
    SameServices(hash, s, s', base);
  }

  lemma AbortKeepsInv(hash: string -> int, s: State, s': State, i: nat, base: nat)
    requires Inv(hash, s, base) && Abort(hash, s, s', i)
    ensures Inv(hash, s', base)
  {
    SameServices(hash, s, s', base);
  }

  // ---- Commit -------------------------------------------------------------------------------

  /** Rows a run in its last stage is about to commit. */
  ghost predicate OwnRows(p: Db, c: Service) {
    && (forall o :: o in p.orgs ==> o.name == c.orgName)
    && (forall u :: u in p.users ==> u.email == c.email)
    && (forall k :: k in p.keys ==> k.name == c.keyName)
  }

  /** A commit of foreign rows takes nothing away from what another run knows. */
  lemma ForeignCommit(db: Db, p: Db, c: Service, r: Run, base: nat, n: nat, withdrawn: nat)
    requires OwnRows(p, c) && Separate(c, r.service)
    requires RunOk(db, r, base, n, withdrawn)
    ensures RunOk(db.Plus(p), r, base, n, withdrawn)
  {
  }

  /** A commit leaves at most one of each, for the run's own service and for any other. */
  lemma CommitKeepsService(db: Db, r: Run, d: Service, base: nat, n: nat, withdrawn: nat)
    requires r.stage == Committing && RunOk(db, r, base, n, withdrawn) && ServiceOk(db, d)
    ensures ServiceOk(db.Plus(r.pending), d)
  {
  }

  /** What a commit puts into the database. */
  lemma CommittedRows(db: Db, r: Run, base: nat, n: nat, withdrawn: nat)
    requires r.stage == Committing && RunOk(db, r, base, n, withdrawn)
    ensures OwnRows(r.pending, r.service)
    ensures User(r.userId, r.service.email, r.orgId) in db.Plus(r.pending).users
    ensures withdrawn > 0 || !NoActiveKey(db.Plus(r.pending), r.service, r.userId)
  {
  }

  lemma ProvisionedGrows(s: State, s': State, c: Service, p: Db)
    requires Provisioned(s, c) && s'.db == s.db.Plus(p) && s'.withdrawn == s.withdrawn
    ensures Provisioned(s', c)
  {
  }

  lemma CommitKeepsKeys(hash: string -> int, s: State, s': State, i: nat, base: nat)
    requires Inv(hash, s, base) && Commit(hash, s, s', i)
    ensures KeysOk(s', base)
  {
    hide LocksOk, Compatible, ServiceOk, Provisioned, UserReady;
    var r := s.runs[i];
    CommittedRows(s.db, r, base, s.nextId, s.withdrawn);
    forall k | k in s'.db.keys && k.id >= base
      ensures exists j :: 0 <= j < |s'.runs| && WellOwned(s'.db, k, s'.runs[j].service)
    {
      if k in s.db.keys {
        var j :| 0 <= j < |s.runs| && WellOwned(s.db, k, s.runs[j].service);
        assert WellOwned(s'.db, k, s'.runs[j].service);
      } else {
        assert User(r.userId, r.service.email, r.orgId) in s'.db.users;
        assert WellOwned(s'.db, k, s'.runs[i].service);
      }
    }
  }

  lemma CommitKeepsRuns(hash: string -> int, s: State, s': State, i: nat, base: nat)
    requires Inv(hash, s, base) && Commit(hash, s, s', i)
    ensures forall j :: 0 <= j < |s'.runs| ==> RunOk(s'.db, s'.runs[j], base, s'.nextId, s'.withdrawn)
  {
    hide UserReady, KeyReady, OrgReady, KeysOk;
    var r := s.runs[i];
    CommittedRows(s.db, r, base, s.nextId, s.withdrawn);
    forall j | 0 <= j < |s'.runs| ensures RunOk(s'.db, s'.runs[j], base, s'.nextId, s'.withdrawn) {
      if j != i && InTransaction(s.runs[j].stage) {
        ForeignCommit(s.db, r.pending, r.service, s.runs[j], base, s.nextId, s.withdrawn);
      }
    }
  }

  lemma CommitKeepsInv(hash: string -> int, s: State, s': State, i: nat, base: nat)
    requires Inv(hash, s, base) && Commit(hash, s, s', i)
    ensures Inv(hash, s', base)
  {
    var r := s.runs[i];
    CommittedRows(s.db, r, base, s.nextId, s.withdrawn);
    CommitKeepsKeys(hash, s, s', i, base);
    CommitKeepsRuns(hash, s, s', i, base);
    forall j | 0 <= j < |s'.runs| ensures ServiceOk(s'.db, s'.runs[j].service) {
      CommitKeepsService(s.db, r, s.runs[j].service, base, s.nextId, s.withdrawn);
    }
    forall j | 0 <= j < |s'.runs| && s'.runs[j].stage == Done ensures Provisioned(s', s'.runs[j].service) {
      if j != i { ProvisionedGrows(s, s', s.runs[j].service, r.pending); }
    }
  }

  // ---- An operator withdraws a key ----------------------------------------------------------

  ghost predicate FewerActive(db: Db, db': Db) {
    && db'.orgs == db.orgs && db'.users == db.users
    && forall k :: k in db'.keys && k.active ==> k in db.keys
  }

  lemma WithdrawKeepsRun(db: Db, db': Db, r: Run, base: nat, n: nat, withdrawn: nat)
    requires FewerActive(db, db') && RunOk(db, r, base, n, withdrawn)
    ensures RunOk(db', r, base, n, withdrawn + 1)
  {
  }

  lemma WithdrawKeepsService(db: Db, db': Db, c: Service)
    requires FewerActive(db, db') && ServiceOk(db, c)
    ensures ServiceOk(db', c)
  {
  }

  lemma WithdrawKeepsInv(hash: string -> int, s: State, s': State, base: nat)
    requires Inv(hash, s, base) && Withdraw(s, s')
    ensures Inv(hash, s', base)
  {
    var gone :| gone in s.db.keys && gone.active
                && (s'.db.keys == s.db.keys - {gone} || s'.db.keys == s.db.keys - {gone} + {gone.(active := false)});
    forall k | k in s'.db.keys && k.id >= base
      ensures exists j :: 0 <= j < |s'.runs| && WellOwned(s'.db, k, s'.runs[j].service)
    {
      var k0 := if k in s.db.keys then k else gone;
      var j :| 0 <= j < |s.runs| && WellOwned(s.db, k0, s.runs[j].service);
      assert WellOwned(s'.db, k, s'.runs[j].service);
    }
    forall j | 0 <= j < |s'.runs| ensures RunOk(s'.db, s'.runs[j], base, s'.nextId, s'.withdrawn) {
      WithdrawKeepsRun(s.db, s'.db, s.runs[j], base, s.nextId, s.withdrawn);
    }
    forall j | 0 <= j < |s'.runs| ensures ServiceOk(s'.db, s'.runs[j].service) {
      WithdrawKeepsService(s.db, s'.db, s.runs[j].service);
    }
    forall j | 0 <= j < |s'.runs| && s'.runs[j].stage == Done ensures Provisioned(s', s'.runs[j].service) {
      var u :| u in s.db.users && u.email == s.runs[j].service.email;
      assert u in s'.db.users;
    }
  }

  // ---- Every behaviour -----------------------------------------------------------------------

  lemma InitialInv(hash: string -> int, s: State)
    requires Initial(hash, s)
    ensures Inv(hash, s, s.nextId)
  {
  }

  lemma NextKeepsInv(hash: string -> int, s: State, s': State, base: nat)
    requires Inv(hash, s, base) && Next(hash, s, s')
    ensures Inv(hash, s', base)
    ensures |s'.runs| == |s.runs|
    ensures forall j :: 0 <= j < |s.runs| ==> s'.runs[j].service == s.runs[j].service
  {
    if Withdraw(s, s') {
      WithdrawKeepsInv(hash, s, s', base);
    } else {
      var i: nat :| RunStep(hash, s, s', i);
      if Acquire(hash, s, s', i) {
        AcquireKeepsInv(hash, s, s', i, base);
      } else if Execute(s, s', i) {
        StatementKeepsRun(s.db, s.runs[i], s'.runs[i], base, s.nextId, s'.nextId, s.withdrawn);
        ExecuteKeepsInv(hash, s, s', i, base);
      } else if Commit(hash, s, s', i) {
        CommitKeepsInv(hash, s, s', i, base);
      } else {
        AbortKeepsInv(hash, s, s', i, base);
      }
    }
  }

  lemma {:induction false} ReachableInv(hash: string -> int, b: seq<State>, n: nat)
    requires Behaviour(hash, b) && Initial(hash, b[0]) && n < |b|
    ensures Inv(hash, b[n], b[0].nextId)
    ensures |b[n].runs| == |b[0].runs|
    ensures forall i :: 0 <= i < |b[0].runs| ==> b[n].runs[i].service == b[0].runs[i].service
    decreases n
  {
    if n == 0 {
      InitialInv(hash, b[0]);
    } else {
      ReachableInv(hash, b, n - 1);
      assert Next(hash, b[n - 1], b[n]);
      NextKeepsInv(hash, b[n - 1], b[n], b[0].nextId);
    }
  }

  /** In every interleaving of any number of runs, with aborts and withdrawals anywhere: never
      more than one organization, user and active key per service; the user's organization
      exists; and every key minted on the way carries its user's organization. */
  lemma ProvisioningIsSafe(hash: string -> int, b: seq<State>, n: nat)
    requires Behaviour(hash, b) && Initial(hash, b[0]) && n < |b|
    ensures forall i :: 0 <= i < |b[0].runs| ==> ServiceOk(b[n].db, b[0].runs[i].service)
    ensures forall k :: k in b[n].db.keys && k.id >= b[0].nextId ==>
              exists i :: 0 <= i < |b[0].runs| && WellOwned(b[n].db, k, b[0].runs[i].service)
  {
    ReachableInv(hash, b, n);
    forall k | k in b[n].db.keys && k.id >= b[0].nextId
      ensures exists i :: 0 <= i < |b[0].runs| && WellOwned(b[n].db, k, b[0].runs[i].service)
    {
      var i :| 0 <= i < |b[n].runs| && WellOwned(b[n].db, k, b[n].runs[i].service);
      assert WellOwned(b[n].db, k, b[0].runs[i].service);
    }
  }

  /** Once a run of a service has committed, and no key was withdrawn, the service has exactly
      one user and that user exactly one active key, whatever the other runs did or do. */
  lemma CommittedRunHasProvisioned(hash: string -> int, b: seq<State>, n: nat, i: nat)
    requires Behaviour(hash, b) && Initial(hash, b[0]) && n < |b|
    requires i < |b[n].runs| && b[n].runs[i].stage == Done && b[n].withdrawn == 0
    ensures exists u, k :: && u in b[n].db.users && k in b[n].db.keys
                           && u.email == b[n].runs[i].service.email && IsActiveKey(k, b[n].runs[i].service, u.id)
                           && (forall v :: v in b[n].db.users && v.email == u.email ==> v == u)
                           && (forall l :: l in b[n].db.keys && IsActiveKey(l, b[n].runs[i].service, u.id) ==> l == k)
  {
    ReachableInv(hash, b, n);
    var s, c := b[n], b[n].runs[i].service;
    assert Provisioned(s, c);
    var u :| u in s.db.users && u.email == c.email && !NoActiveKey(s.db, c, u.id);
    var k :| k in s.db.keys && IsActiveKey(k, c, u.id);
    assert ServiceOk(s.db, c);
  }
}
