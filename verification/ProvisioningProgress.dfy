/** Progress, termination, harmless re-runs, and why the twins must share a lock. */
module ProvisioningProgress {
  import opened Provisioning
  import opened ProvisioningSafety

  // ---- Some step is always possible ------------------------------------------------------

  /** A run between its lock and its commit always has a next statement: in particular the
      unique e-mail and the reference to the organization never stop it. */
  lemma StatementEnabled(db: Db, r: Run, base: nat, n: nat, withdrawn: nat) returns (r': Run, n': nat)
    requires RunOk(db, r, base, n, withdrawn) && InTransaction(r.stage) && r.stage != Committing
    ensures Statement(db, r, r', n, n')
  {
    var view := db.Plus(r.pending);
    var c := r.service;
    r', n' := r, n;
    match r.stage {
      case FindUser =>
        if u :| u in view.users && u.email == c.email {
          r' := r.(stage := FindKey, orgId := u.orgId, userId := u.id);
        } else {
          r' := r.(stage := FindOrg);
        }
      case FindOrg =>
        if o :| o in view.orgs && o.name == c.orgName {
          r' := r.(stage := CreateUser, orgId := o.id);
        } else {
          r' := r.(stage := CreateOrg);
        }
      case CreateOrg =>
        n' := n + 1;
        r' := r.(stage := CreateUser, orgId := n, pending := r.pending.(orgs := r.pending.orgs + {Org(n, c.orgName)}));
      case CreateUser =>
        assert Org(r.orgId, c.orgName) in view.orgs;
        n' := n + 1;
        r' := r.(stage := FindKey, userId := n,
                 pending := r.pending.(users := r.pending.users + {User(n, c.email, r.orgId)}));
      case FindKey =>
        r' := r.(stage := if NoActiveKey(view, c, r.userId) then CreateKey else Committing);
      case CreateKey =>
        n' := n + 1;
        r' := r.(stage := Committing,
                 pending := r.pending.(keys := r.pending.keys + {ApiKey(n, c.keyName, r.userId, r.orgId, true)}));
      case _ =>
    }
  }

  lemma AdvanceInTransaction(hash: string -> int, s: State, base: nat, i: nat) returns (s': State)
    requires Inv(hash, s, base) && i < |s.runs| && InTransaction(s.runs[i].stage)
    ensures Advance(hash, s, s', i)
  {
    if s.runs[i].stage == Committing {
      s' := s.(db := s.db.Plus(s.runs[i].pending),
               locks := s.locks - {hash(s.runs[i].service.lockName)},
               runs := s.runs[i := s.runs[i].(stage := Done, pending := NOTHING)]);
    } else {
      var r', n' := StatementEnabled(s.db, s.runs[i], base, s.nextId, s.withdrawn);
      s' := s.(runs := s.runs[i := r'], nextId := n');
      assert Execute(s, s', i);
    }
  }

  /** No deadlock: as long as some run is unfinished, some run can take a step towards its
      commit (the waiting one itself, or the holder of its lock). */
  lemma SomeRunCanAdvance(hash: string -> int, b: seq<State>, n: nat, i: nat) returns (j: nat, s': State)
    requires Behaviour(hash, b) && Initial(hash, b[0]) && n < |b|
    requires i < |b[n].runs| && !Finished(b[n].runs[i].stage)
    ensures Advance(hash, b[n], s', j)
    ensures j == i || (b[n].runs[i].stage == Waiting
                       && hash(b[n].runs[j].service.lockName) == hash(b[n].runs[i].service.lockName))
  {
    ReachableInv(hash, b, n);
    var s, h := b[n], hash(b[n].runs[i].service.lockName);
    if s.runs[i].stage != Waiting {
      j := i;
      s' := AdvanceInTransaction(hash, s, b[0].nextId, i);
    } else if h in s.locks {
      j := s.locks[h];
      s' := AdvanceInTransaction(hash, s, b[0].nextId, j);
    } else {
      j := i;
      s' := s.(locks := s.locks[h := i], runs := s.runs[i := s.runs[i].(stage := FindUser)]);
      assert Acquire(hash, s, s', i);
    }
  }

  // ---- The steps run out --------------------------------------------------------------------

  function Remaining(stage: Stage): nat {
    match stage
    case Waiting => 8
    case FindUser => 7
    case FindOrg => 6
    case CreateOrg => 5
    case CreateUser => 4
    case FindKey => 3
    case CreateKey => 2
    case Committing => 1
    case Done => 0
    case Aborted => 0
  }

  function TotalRemaining(runs: seq<Run>): nat {
    if runs == [] then 0 else TotalRemaining(runs[..|runs| - 1]) + Remaining(runs[|runs| - 1].stage)
  }

  lemma {:induction false} UpdateTotal(runs: seq<Run>, i: nat, r: Run)
    requires i < |runs|
    ensures TotalRemaining(runs[i := r]) == TotalRemaining(runs) - Remaining(runs[i].stage) + Remaining(r.stage)
    decreases |runs|
  {
    var n := |runs| - 1;
    if i < n {
      UpdateTotal(runs[..n], i, r);
      assert runs[i := r][..n] == runs[..n][i := r];
    } else {
      assert runs[i := r][..n] == runs[..n];
    }
  }

  lemma StepLowersTotal(hash: string -> int, s: State, s': State, i: nat)
    requires RunStep(hash, s, s', i)
    ensures |s'.runs| == |s.runs| && TotalRemaining(s'.runs) < TotalRemaining(s.runs)
  {
    UpdateTotal(s.runs, i, s'.runs[i]);
    assert s'.runs == s.runs[i := s'.runs[i]];
  }

  lemma {:induction false} TotalBound(runs: seq<Run>)
    ensures TotalRemaining(runs) <= 8 * |runs|
    decreases |runs|
  {
    if runs != [] { TotalBound(runs[..|runs| - 1]); }
  }

  lemma {:induction false} StepsAreBounded(hash: string -> int, b: seq<State>)
    requires RunsOnly(hash, b)
    ensures |b[|b| - 1].runs| == |b[0].runs|
    ensures |b| - 1 + TotalRemaining(b[|b| - 1].runs) <= TotalRemaining(b[0].runs)
    decreases |b|
  {
    var n := |b| - 1;
    if n > 0 {
      var front := b[..n];
      StepsAreBounded(hash, front);
      var i: nat :| RunStep(hash, b[n - 1], b[n], i);
      StepLowersTotal(hash, b[n - 1], b[n], i);
    }
  }

  /** However the runs interleave, together they take at most eight steps each. */
  lemma RunsTerminate(hash: string -> int, b: seq<State>)
    requires RunsOnly(hash, b)
    ensures |b| - 1 <= 8 * |b[0].runs|
  {
    StepsAreBounded(hash, b);
    TotalBound(b[0].runs);
  }

  // ---- Safe to re-run -----------------------------------------------------------------------

  ghost predicate FullyProvisioned(db: Db, c: Service) {
    && (exists u :: u in db.users && u.email == c.email)
    && (forall u :: u in db.users && u.email == c.email ==> !NoActiveKey(db, c, u.id))
  }

  ghost predicate Rerunning(db: Db, r: Run) {
    && r.pending == NOTHING
    && FullyProvisioned(db, r.service)
    && r.stage !in {FindOrg, CreateOrg, CreateUser, CreateKey}
    && (r.stage == FindKey ==> exists u :: u in db.users && u.email == r.service.email && u.id == r.userId)
  }

  lemma RerunStep(hash: string -> int, s: State, s': State)
    requires SomeRunStep(hash, s, s')
    requires forall i :: 0 <= i < |s.runs| ==> Rerunning(s.db, s.runs[i])
    ensures s'.db == s.db && s'.nextId == s.nextId
    ensures forall i :: 0 <= i < |s'.runs| ==> Rerunning(s'.db, s'.runs[i])
  {
  }

  /** If every service is already provisioned and nobody withdraws a key, then no interleaving
      of re-runs, aborted or not, changes a single row. */
  lemma {:induction false} RerunsChangeNothing(hash: string -> int, b: seq<State>, n: nat)
    requires RunsOnly(hash, b) && n < |b| && Initial(hash, b[0])
    requires forall i :: 0 <= i < |b[0].runs| ==> FullyProvisioned(b[0].db, b[0].runs[i].service)
    ensures b[n].db == b[0].db && b[n].nextId == b[0].nextId
    ensures forall i :: 0 <= i < |b[n].runs| ==> Rerunning(b[n].db, b[n].runs[i])
    decreases n
  {
    if n > 0 {
      RerunsChangeNothing(hash, b, n - 1);
      assert SomeRunStep(hash, b[n - 1], b[n]);
      RerunStep(hash, b[n - 1], b[n]);
    }
  }

  // ---- The twins must name the same lock -------------------------------------------------------

  /** The run `r` of the race below, at a given stage and with given writes. */
  function RaceRun(c: Service, stage: Stage, found: bool, keys: set<ApiKey>): Run {
    Run(c, stage, if found then 1 else 0, if found then 2 else 0, Db({}, {}, keys))
  }

  function RaceKey(c: Service, id: nat): ApiKey {
    ApiKey(id, c.keyName, 2, 1, true)
  }

  /** One run's states in the race, from waiting for the lock to the commit of key `id`. */
  function RaceStage(c: Service, k: nat, id: nat): Run {
    if k == 0 then RaceRun(c, Waiting, false, {})
    else if k == 1 then RaceRun(c, FindUser, false, {})
    else if k == 2 then RaceRun(c, FindKey, true, {})
    else if k == 3 then RaceRun(c, CreateKey, true, {})
    else if k == 4 then RaceRun(c, Committing, true, {RaceKey(c, id)})
    else RaceRun(c, Done, true, {})
  }

  function RaceState(hash: string -> int, c: Service, d: Service, k: nat, l: nat): State {
    State(Db({Org(1, c.orgName)}, {User(2, c.email, 1)},
             (if k >= 5 then {RaceKey(c, 3)} else {}) + (if l >= 5 then {RaceKey(d, 4)} else {})),
          (if 1 <= k < 5 then map[hash(c.lockName) := 0] else map[])
              + (if 1 <= l < 5 then map[hash(d.lockName) := 1] else map[]),
          [RaceStage(c, k, 3), RaceStage(d, l, 4)],
          3 + (if k >= 4 then 1 else 0) + (if l >= 4 then 1 else 0), 0)
  }

  lemma FirstAdvances(hash: string -> int, c: Service, d: Service, k: nat, l: nat)
    requires hash(c.lockName) != hash(d.lockName) && d == c.(lockName := d.lockName)
    requires (k < 3 && l == k) || (k == 3 && l == 3) || (k == 4 && l == 4)
    ensures RunStep(hash, RaceState(hash, c, d, k, l), RaceState(hash, c, d, k + 1, l), 0)
  {
  }

  lemma SecondAdvances(hash: string -> int, c: Service, d: Service, k: nat, l: nat)
    requires hash(c.lockName) != hash(d.lockName) && d == c.(lockName := d.lockName)
    requires l < 5 && k == l + 1
    ensures RunStep(hash, RaceState(hash, c, d, k, l), RaceState(hash, c, d, k, l + 1), 1)
  {
  }

  /** If two scripts for the same rows took locks with different numbers, their runs could each
      mint an active key: the shared lock name is what the safety theorem rests on. */
  lemma DifferentLocksMintTwoKeys(hash: string -> int, c: Service, d: Service) returns (b: seq<State>)
    requires hash(c.lockName) != hash(d.lockName) && d == c.(lockName := d.lockName)
    ensures Behaviour(hash, b)
    ensures forall i :: 0 <= i < |b[0].runs| ==>
        b[0].runs[i].stage == Waiting && ServiceOk(b[0].db, b[0].runs[i].service)
    ensures !ServiceOk(b[|b| - 1].db, c)
  {
    b := [RaceState(hash, c, d, 0, 0)];
    var k := 0;
    assert HasOrg(b[0].db, 1) by { assert Org(1, c.orgName) in b[0].db.orgs; }
    while k < 5
      invariant 0 <= k <= 5 && |b| == 2 * k + 1
      invariant b[0] == RaceState(hash, c, d, 0, 0) && b[2 * k] == RaceState(hash, c, d, k, k)
      invariant Behaviour(hash, b)
    {
      FirstAdvances(hash, c, d, k, k);
      SecondAdvances(hash, c, d, k + 1, k);
      var mid, last := RaceState(hash, c, d, k + 1, k), RaceState(hash, c, d, k + 1, k + 1);
      assert Next(hash, b[2 * k], mid) && Next(hash, mid, last);
      b := b + [mid, last];
      k := k + 1;
    }
    var s := b[|b| - 1];
    assert RaceKey(c, 3) in s.db.keys && RaceKey(d, 4) in s.db.keys;
    assert IsActiveKey(RaceKey(c, 3), c, 2) && IsActiveKey(RaceKey(d, 4), c, 2);
  }
}
