/** The scripts' own control flow, statement by statement, while other runs commit in between:
    every statement is a step of the machine, whatever the others did meanwhile, and what the others
    can do is what the machine lets them do. */
module ProvisioningScript {
  import opened Provisioning
  import opened ProvisioningSafety

  /** The first id not used after a statement. */
  function IdAfter(stage: Stage, id: nat): nat {
    if stage == CreateOrg || stage == CreateUser || stage == CreateKey then id + 1 else id
  }

  // ---- What others do meanwhile ----------------------------------------------------------

  /** From rows `db` to rows `db'` while a run of `c` holds its lock: rows are added, none of them
      an organization, user or active key of `c`, and keys may be withdrawn. */
  ghost predicate Rely(c: Service, db: Db, db': Db) {
    && db.orgs <= db'.orgs && db.users <= db'.users
    && (forall o :: o in db'.orgs && o.name == c.orgName ==> o in db.orgs)
    && (forall u :: u in db'.users && u.email == c.email ==> u in db.users)
    && (forall k :: k in db'.keys && k.active && k.name == c.keyName ==> k in db.keys)
  }

  /** In every reachable state, whatever another run or an operator does keeps to that, and leaves
      this run as it is. */
  lemma OthersKeepRely(hash: string -> int, s: State, s': State, base: nat, i: nat, j: nat)
    requires Inv(hash, s, base) && i < |s.runs| && InTransaction(s.runs[i].stage)
    requires Withdraw(s, s') || (RunStep(hash, s, s', j) && j != i)
    ensures Rely(s.runs[i].service, s.db, s'.db) && s.nextId <= s'.nextId
    ensures i < |s'.runs| && s'.runs[i] == s.runs[i]
  {
  }

  lemma RelyTrans(c: Service, a: Db, b: Db, d: Db)
    requires Rely(c, a, b) && Rely(c, b, d)
    ensures Rely(c, a, d)
  {
  }

  ghost predicate InTransactionThroughout(b: seq<State>, m: nat, n: nat, i: nat) {
    m <= n < |b| && forall k :: m <= k <= n ==> i < |b[k].runs| && InTransaction(b[k].runs[i].stage)
  }

  /** A step of the run's own inside its transaction is a statement, and commits nothing. */
  lemma OwnStepIsStatement(hash: string -> int, s: State, s': State, base: nat, i: nat)
    requires Inv(hash, s, base) && RunStep(hash, s, s', i) && i < |s'.runs|
    requires InTransaction(s.runs[i].stage) && InTransaction(s'.runs[i].stage)
    ensures s'.db == s.db && s.nextId <= s'.nextId
    ensures Statement(s.db, s.runs[i], s'.runs[i], s.nextId, s'.nextId)
    ensures s'.nextId == IdAfter(s.runs[i].stage, s.nextId)
  {
  }

  lemma RelySelf(c: Service, db: Db)
    ensures Rely(c, db, db)
  {
  }

  /** One step of anyone: the run is left as it is, or makes a statement. */
  lemma StepKeepsRely(hash: string -> int, s: State, s': State, base: nat, i: nat)
    requires Inv(hash, s, base) && Next(hash, s, s') && i < |s.runs| && i < |s'.runs|
    requires InTransaction(s.runs[i].stage) && InTransaction(s'.runs[i].stage)
    ensures Rely(s.runs[i].service, s.db, s'.db) && s.nextId <= s'.nextId
    ensures s'.runs[i] == s.runs[i]
            || (s'.db == s.db && Statement(s.db, s.runs[i], s'.runs[i], s.nextId, IdAfter(s.runs[i].stage, s.nextId)))
  {
    hide Inv, Rely, Statement;
    if Withdraw(s, s') {
      OthersKeepRely(hash, s, s', base, i, i);
    } else {
      var j: nat :| RunStep(hash, s, s', j);
      if j == i {
        OwnStepIsStatement(hash, s, s', base, i);
        RelySelf(s.runs[i].service, s.db);
      } else {
        OthersKeepRely(hash, s, s', base, i, j);
      }
    }
  }

  /** Between any two moments of a run's transaction, in every behaviour, whatever the others do and
      however often: the committed rows change within the rely. */
  lemma {:induction false} BehaviourKeepsRely(hash: string -> int, b: seq<State>, m: nat, n: nat, i: nat)
    requires Behaviour(hash, b) && Initial(hash, b[0]) && i < |b[0].runs| && InTransactionThroughout(b, m, n, i)
    ensures Rely(b[0].runs[i].service, b[m].db, b[n].db) && b[m].nextId <= b[n].nextId
    decreases n
  {
    hide Inv, Rely, Statement;
    if m == n {
      RelySelf(b[0].runs[i].service, b[m].db);
    } else {
      var s, s' := b[n - 1], b[n];
      BehaviourKeepsRely(hash, b, m, n - 1, i);
      ReachableInv(hash, b, n - 1);
      StepKeepsRely(hash, s, s', b[0].nextId, i);
      RelyTrans(b[0].runs[i].service, b[m].db, s.db, s'.db);
    }
  }

  // ---- Walks ---------------------------------------------------------------------------------

  /** What one run does between its lock and its commit: the `k`-th statement finds the committed
      rows `dbs[k]` and the first unused id `ids[k]`, and takes the run from `trail[k]` to
      `trail[k + 1]`; between two statements the rows change within the rely. */
  ghost predicate Walk(c: Service, dbs: seq<Db>, ids: seq<nat>, trail: seq<Run>) {
    && |dbs| == |ids| == |trail| - 1
    && (forall k :: 0 <= k < |dbs| ==>
          Statement(dbs[k], trail[k], trail[k + 1], ids[k], IdAfter(trail[k].stage, ids[k])))
    && (forall j, k :: 0 <= j <= k < |dbs| ==> Rely(c, dbs[j], dbs[k]))
  }

  function Firsts<T>(f: nat -> T, n: nat): seq<T> {
    seq(n, (k: nat) => f(k))
  }

  lemma WalkExtends(c: Service, dbs: seq<Db>, ids: seq<nat>, trail: seq<Run>, db: Db, id: nat, r: Run)
    requires Walk(c, dbs, ids, trail) && forall j :: 0 <= j < |dbs| ==> Rely(c, dbs[j], db)
    requires Statement(db, trail[|trail| - 1], r, id, IdAfter(trail[|trail| - 1].stage, id))
    ensures Walk(c, dbs + [db], ids + [id], trail + [r])
  {
    hide Rely, Statement;
    RelySelf(c, db);
  }

  lemma RowsKeepRely(hash: string -> int, b: seq<State>, m: nat, n: nat, i: nat, dbs: seq<Db>, at: seq<nat>)
    requires Behaviour(hash, b) && Initial(hash, b[0]) && i < |b[0].runs| && InTransactionThroughout(b, m, n, i)
    requires |at| == |dbs| && forall k :: 0 <= k < |at| ==> m <= at[k] <= n && dbs[k] == b[at[k]].db
    ensures forall j :: 0 <= j < |dbs| ==> Rely(b[0].runs[i].service, dbs[j], b[n].db)
  {
    hide Rely, Initial, Behaviour;
    forall j | 0 <= j < |dbs| ensures Rely(b[0].runs[i].service, dbs[j], b[n].db) {
      BehaviourKeepsRely(hash, b, at[j], n, i);
    }
  }

  /** In every behaviour of the machine, what a run does during its transaction is such a walk. */
  lemma {:induction false} RunWalks(hash: string -> int, b: seq<State>, m: nat, n: nat, i: nat)
    returns (dbs: seq<Db>, ids: seq<nat>, trail: seq<Run>, at: seq<nat>)
    requires Behaviour(hash, b) && Initial(hash, b[0]) && i < |b[0].runs| && InTransactionThroughout(b, m, n, i)
    ensures Walk(b[0].runs[i].service, dbs, ids, trail)
    ensures trail[0] == b[m].runs[i] && trail[|trail| - 1] == b[n].runs[i]
    ensures |at| == |dbs| && (forall k :: 0 <= k < |at| ==> m <= at[k] < n && dbs[k] == b[at[k]].db)
    ensures forall j, k :: 0 <= j < k < |at| ==> at[j] < at[k]
    decreases n
  {
    hide Inv, Rely, Statement, IdAfter, Initial, Next;
    if m == n {
      dbs, ids, trail, at := [], [], [b[m].runs[i]], [];
    } else {
      dbs, ids, trail, at := RunWalks(hash, b, m, n - 1, i);
      ReachableInv(hash, b, n - 1);
      StepKeepsRely(hash, b[n - 1], b[n], b[0].nextId, i);
      if b[n].runs[i] != b[n - 1].runs[i] {
        RowsKeepRely(hash, b, m, n - 1, i, dbs, at);
        WalkExtends(b[0].runs[i].service, dbs, ids, trail, b[n - 1].db, b[n - 1].nextId, b[n].runs[i]);
        dbs, ids, trail := dbs + [b[n - 1].db], ids + [b[n - 1].nextId], trail + [b[n].runs[i]];
        at := at + [n - 1];
      }
    }
  }

  // ---- One transaction -----------------------------------------------------------------------

  lemma UserLookup(db: Db, c: Service)
    ensures (set u | u in db.users && u.email == c.email) == {} <==> NoUser(db, c)
  {
    var found := set u | u in db.users && u.email == c.email;
    assert NoUser(db, c) ==> found == {};
    if !NoUser(db, c) {
      var u :| u in db.users && u.email == c.email;
      assert u in found;
    }
  }

  lemma OrgLookup(db: Db, c: Service)
    ensures (set o | o in db.orgs && o.name == c.orgName) == {} <==> NoOrg(db, c)
  {
    var found := set o | o in db.orgs && o.name == c.orgName;
    assert NoOrg(db, c) ==> found == {};
    if !NoOrg(db, c) {
      var o :| o in db.orgs && o.name == c.orgName;
      assert o in found;
    }
  }

  lemma KeyLookup(db: Db, c: Service, userId: nat)
    ensures (set k | k in db.keys && k.active && k.name == c.keyName && k.userId == userId) == {} <==>
        NoActiveKey(db, c, userId)
  {
    var found := set k | k in db.keys && k.active && k.name == c.keyName && k.userId == userId;
    assert NoActiveKey(db, c, userId) ==> found == {};
    if !NoActiveKey(db, c, userId) {
      var k :| k in db.keys && IsActiveKey(k, c, userId);
      assert k in found;
    }
  }

  /** One transaction after it has taken the lock.  When it makes its `k`-th statement, `committed(k)`
      are the committed rows and `ids(k)` is the first unused id; `trail` records the machine's run
      before and after every statement. */
  class Transaction {
    const service: Service
    const committed: nat -> Db
    const ids: nat -> nat
    var now: nat
    var pending: Db
    ghost var trail: seq<Run>

    ghost predicate World() {
      forall j: nat, k: nat :: j <= k ==> Rely(service, committed(j), committed(k))
    }

    ghost predicate Valid()
      reads this
    {
      && World()
      && |trail| == now + 1 && trail[0] == Run(service, FindUser, 0, 0, NOTHING)
      && Last().service == service && Last().pending == pending
      && forall k :: 0 <= k < now ==>
           Statement(committed(k), trail[k], trail[k + 1], ids(k), IdAfter(trail[k].stage, ids(k)))
    }

    ghost function Last(): Run
      requires |trail| > 0
      reads this
    {
      trail[|trail| - 1]
    }

    /** The rows a statement reads. */
    function View(): Db
      reads this
    {
      committed(now).Plus(pending)
    }

    constructor (service: Service, committed: nat -> Db, ids: nat -> nat)
      requires forall j: nat, k: nat :: j <= k ==> Rely(service, committed(j), committed(k))
      ensures Valid() && this.service == service && this.committed == committed && this.ids == ids
      ensures now == 0 && Last().stage == FindUser && pending == NOTHING
    {
      this.service, this.committed, this.ids, this.now, this.pending := service, committed, ids, 0, NOTHING;
      trail := [Run(service, FindUser, 0, 0, NOTHING)];
    }

    /** One statement, which leaves the transaction with the uncommitted rows `rows`. */
    method Record(rows: Db, ghost r: Run)
      requires r.pending == rows
      requires Valid() && Statement(committed(now), Last(), r, ids(now), IdAfter(Last().stage, ids(now)))
      requires r.service == service
      modifies this
      ensures Valid() && Last() == r && now == old(now) + 1
    {
      trail, now, pending := trail + [r], now + 1, rows;
    }

    /** What the transaction has done so far is a walk as the machine's runs make them. */
    lemma TransactionWalks()
      requires Valid()
      ensures Walk(service, Firsts(committed, now), Firsts(ids, now), trail)
    {
    }

    /** The organization and the user are looked up independently of each other.  The organization
        of a user found is taken as stored. */
    method EnsureOrgAndUser() returns (organizationId: nat, userId: nat)
      requires Valid() && now == 0 && Last().stage == FindUser && pending == NOTHING
      modifies this
      ensures Valid() && Last() == Run(service, FindKey, organizationId, userId, pending)
      ensures pending.keys == {}
      ensures User(userId, service.email, organizationId) in View().users
      ensures !NoUser(committed(0), service) ==> pending == NOTHING
      ensures NoUser(committed(0), service) ==>
                && pending.users == {User(userId, service.email, organizationId)}
                && Org(organizationId, service.orgName) in View().orgs
      ensures pending.orgs == if NoUser(committed(0), service) && NoOrg(committed(0), service)
                              then {Org(organizationId, service.orgName)} else {}
    {
      assert forall db: Db :: db.Plus(NOTHING) == db;
      var db := committed(now);
      UserLookup(db, service);
      var existingUsers := set u | u in db.users && u.email == service.email;
      if existingUsers != {} {
        var existingUser :| existingUser in existingUsers;
        organizationId, userId := existingUser.orgId, existingUser.id;
        Record(NOTHING, Run(service, FindKey, organizationId, userId, NOTHING));
        return;
      }
      Record(NOTHING, Last().(stage := FindOrg));
      organizationId := EnsureOrg();
      userId := ids(now);
      var rows := pending.(users := pending.users + {User(userId, service.email, organizationId)});
      Record(rows, Last().(stage := FindKey, userId := userId, pending := rows));
    }

    /** Find or create the organization. */
    method EnsureOrg() returns (organizationId: nat)
      requires Valid() && now == 1 && NoUser(committed(0), service)
      requires Last() == Run(service, FindOrg, 0, 0, NOTHING) && pending == NOTHING
      modifies this
      ensures Valid() && Last() == Run(service, CreateUser, organizationId, 0, pending)
      ensures pending == Db(if NoOrg(committed(0), service) then {Org(organizationId, service.orgName)} else {}, {}, {})
      ensures NoUser(View(), service)
      ensures forall k: nat :: k >= now ==> Org(organizationId, service.orgName) in committed(k).orgs + pending.orgs
    {
      assert forall db: Db :: db.Plus(NOTHING) == db;
      var db := committed(now);
      OrgLookup(db, service);
      assert Rely(service, committed(0), db);
      var existingOrgs := set o | o in db.orgs && o.name == service.orgName;
      if existingOrgs != {} {
        var existingOrg :| existingOrg in existingOrgs;
        organizationId := existingOrg.id;
        Record(NOTHING, Last().(stage := CreateUser, orgId := organizationId));
      } else {
        Record(NOTHING, Last().(stage := CreateOrg));
        organizationId := ids(now);
        var rows := pending.(orgs := pending.orgs + {Org(organizationId, service.orgName)});
        Record(rows, Last().(stage := CreateUser, orgId := organizationId, pending := rows));
      }
      assert Rely(service, committed(0), committed(now));
    }

    /** Find or create the key; what is read is what the transaction sees, its own rows included. */
    method EnsureKey(organizationId: nat, userId: nat)
      requires Valid() && Last() == Run(service, FindKey, organizationId, userId, pending) && pending.keys == {}
      requires User(userId, service.email, organizationId) in View().users
      modifies this
      ensures Valid() && Last() == Run(service, Committing, organizationId, userId, pending) && now > old(now)
      ensures pending.orgs == old(pending.orgs) && pending.users == old(pending.users)
      ensures pending.keys == {} ==> now == old(now) + 1 && !NoActiveKey(committed(old(now)), service, userId)
      ensures pending.keys != {} ==>
                && now == old(now) + 2 && NoActiveKey(committed(old(now)), service, userId)
                && pending.keys == {ApiKey(ids(old(now) + 1), service.keyName, userId, organizationId, true)}
    {
      var view := View();
      KeyLookup(view, service, userId);
      assert view.keys == committed(now).keys;
      var existingActive := set k | k in view.keys && k.active && k.name == service.keyName && k.userId == userId;
      if existingActive != {} {
        Record(pending, Last().(stage := Committing));
        return;
      }
      Record(pending, Last().(stage := CreateKey));
      var rows := pending.(keys := {ApiKey(ids(now), service.keyName, userId, organizationId, true)});
      Record(rows, Last().(stage := Committing, pending := rows));
    }

    /** After the lock: the whole body up to the commit. */
    method Provision() returns (userId: nat)
      requires Valid() && now == 0 && Last().stage == FindUser && pending == NOTHING
      modifies this
      ensures Valid() && Last().stage == Committing
      ensures exists orgId :: User(userId, service.email, orgId) in View().users
                              && Last() == Run(service, Committing, orgId, userId, pending)
      ensures forall k :: k in pending.keys ==> WellOwned(View(), k, service) && IsActiveKey(k, service, userId)
      ensures pending.keys != {} ==> |pending.keys| == 1 && NoActiveKey(committed(now), service, userId)
      ensures pending.keys == {} ==> now > 0 && !NoActiveKey(committed(now - 1), service, userId)
    {
      hide NoUser, NoOrg;
      var organizationId;
      organizationId, userId := EnsureOrgAndUser();
      ghost var found := now;
      assert User(userId, service.email, organizationId) in View().users;
      EnsureKey(organizationId, userId);
      assert Rely(service, committed(found), committed(now));
      assert User(userId, service.email, organizationId) in View().users;
    }
  }
}
