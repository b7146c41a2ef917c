/** The key-provisioning scripts as a step machine: any number of runs, each one transaction
    under a transaction-scoped advisory lock, over a shared committed database.  Every
    statement reads the rows committed at that moment plus the run's own writes. */
module Provisioning {

  // ---- The four scripts ----------------------------------------------------------

  /** The constants that tell one script's rows and lock from another's. */
  datatype Service = Service(email: string, orgName: string, keyName: string, lockName: string)

  datatype Script = GuestTs | GuestJs | FreeTierTs | FreeTierJs

  function ServiceOf(script: Script): Service {
    match script
    case GuestTs =>
      Service("guest-service@example.com", "Ailin Chat Guest", "chat-anonymous-guest", "provision-anonymous-guest-key")
    case GuestJs =>
      Service("guest-service@example.com", "Ailin Chat Guest", "chat-anonymous-guest", "provision-anonymous-guest-key")
    case FreeTierTs =>
      Service("free-tier-service@example.com", "Ailin Chat Free Tier", "chat-free-tier", "provision-chat-free-tier-key")
    case FreeTierJs =>
      Service("free-tier-service@example.com", "Ailin Chat Free Tier", "chat-free-tier", "provision-chat-free-tier-key")
  }

  // ---- Database --------------------------------------------------------------------

  datatype Org = Org(id: nat, name: string)
  datatype User = User(id: nat, email: string, orgId: nat)
  datatype ApiKey = ApiKey(id: nat, name: string, userId: nat, orgId: nat, active: bool)

  datatype Db = Db(orgs: set<Org>, users: set<User>, keys: set<ApiKey>) {
    function Plus(other: Db): Db {
      Db(orgs + other.orgs, users + other.users, keys + other.keys)
    }
  }

  const NOTHING := Db({}, {}, {})

  ghost predicate NoOrg(db: Db, c: Service) {
    forall o :: o in db.orgs ==> o.name != c.orgName
  }

  ghost predicate NoUser(db: Db, c: Service) {
    forall u :: u in db.users ==> u.email != c.email
  }

  ghost predicate IsActiveKey(k: ApiKey, c: Service, userId: nat) {
    k.active && k.name == c.keyName && k.userId == userId
  }

  ghost predicate NoActiveKey(db: Db, c: Service, userId: nat) {
    forall k :: k in db.keys ==> !IsActiveKey(k, c, userId)
  }

  ghost predicate HasOrg(db: Db, id: nat) {
    exists o :: o in db.orgs && o.id == id
  }

  // ---- Runs and steps ----------------------------------------------------------------

  datatype Stage =
    Waiting | FindUser | FindOrg | CreateOrg | CreateUser | FindKey | CreateKey | Committing | Done | Aborted

  datatype Run = Run(service: Service, stage: Stage, orgId: nat, userId: nat, pending: Db)

  /** `locks` maps a lock number to the run holding it; `withdrawn` counts keys revoked or deleted
      by an operator. */
  datatype State = State(db: Db, locks: map<int, nat>, runs: seq<Run>, nextId: nat, withdrawn: nat)

  predicate InTransaction(stage: Stage) {
    stage != Waiting && stage != Done && stage != Aborted
  }

  predicate Finished(stage: Stage) {
    stage == Done || stage == Aborted
  }

  /** One statement after the lock and before the commit, on committed rows `db`.  New rows take
      the next unused id.  A created user must satisfy the unique e-mail and the reference to
      its organization. */
  ghost predicate Statement(db: Db, r: Run, r': Run, id: nat, id': nat) {
    var view := db.Plus(r.pending);
    var c := r.service;
    match r.stage
    case FindUser =>
      && id' == id
      && ((exists u :: && u in view.users && u.email == c.email
                       && r' == r.(stage := FindKey, orgId := u.orgId, userId := u.id))
          || (NoUser(view, c) && r' == r.(stage := FindOrg)))
    case FindOrg =>
      && id' == id
      && ((exists o :: o in view.orgs && o.name == c.orgName && r' == r.(stage := CreateUser, orgId := o.id))
          || (NoOrg(view, c) && r' == r.(stage := CreateOrg)))
    case CreateOrg =>
      && id' == id + 1
      && r' == r.(stage := CreateUser, orgId := id,
          pending := r.pending.(orgs := r.pending.orgs + {Org(id, c.orgName)}))
    case CreateUser =>
      && id' == id + 1
      && NoUser(view, c) && HasOrg(view, r.orgId)
      && r' == r.(stage := FindKey, userId := id,
                  pending := r.pending.(users := r.pending.users + {User(id, c.email, r.orgId)}))
    case FindKey =>
      && id' == id
      && r' == r.(stage := if NoActiveKey(view, c, r.userId) then CreateKey else Committing)
    case CreateKey =>
      && id' == id + 1
      && r' == r.(stage := Committing,
                  pending := r.pending.(keys := r.pending.keys + {ApiKey(id, c.keyName, r.userId, r.orgId, true)}))
    case _ => false
  }

  ghost predicate Acquire(hash: string -> int, s: State, s': State, i: nat) {
    && i < |s.runs| && s.runs[i].stage == Waiting
    && hash(s.runs[i].service.lockName) !in s.locks
    && s' == s.(locks := s.locks[hash(s.runs[i].service.lockName) := i],
        runs := s.runs[i := s.runs[i].(stage := FindUser)])
  }

  ghost predicate Execute(s: State, s': State, i: nat) {
    && i < |s.runs| && i < |s'.runs|
    && Statement(s.db, s.runs[i], s'.runs[i], s.nextId, s'.nextId)
    && s' == s.(runs := s.runs[i := s'.runs[i]], nextId := s'.nextId)
  }

  ghost predicate Commit(hash: string -> int, s: State, s': State, i: nat) {
    && i < |s.runs| && s.runs[i].stage == Committing
    && s' == s.(db := s.db.Plus(s.runs[i].pending),
                locks := s.locks - {hash(s.runs[i].service.lockName)},
                runs := s.runs[i := s.runs[i].(stage := Done, pending := NOTHING)])
  }

  /** Failure, crash or timeout, at any point before the commit: the writes are dropped and the
      lock, if held, is released. */
  ghost predicate Abort(hash: string -> int, s: State, s': State, i: nat) {
    && i < |s.runs| && !Finished(s.runs[i].stage)
    && s' == s.(locks := if s.runs[i].stage == Waiting then s.locks else s.locks - {hash(s.runs[i].service.lockName)},
                runs := s.runs[i := s.runs[i].(stage := Aborted, pending := NOTHING)])
  }

  /** An operator revokes or deletes a committed active key, to have a fresh one minted. */
  ghost predicate Withdraw(s: State, s': State) {
    && s' == s.(db := s.db.(keys := s'.db.keys), withdrawn := s.withdrawn + 1)
    && exists k :: k in s.db.keys && k.active
                   && (s'.db.keys == s.db.keys - {k} || s'.db.keys == s.db.keys - {k} + {k.(active := false)})
  }

  /** A step of run `i` that gets it closer to its commit. */
  ghost predicate Advance(hash: string -> int, s: State, s': State, i: nat) {
    Acquire(hash, s, s', i) || Execute(s, s', i) || Commit(hash, s, s', i)
  }

  ghost predicate RunStep(hash: string -> int, s: State, s': State, i: nat) {
    Advance(hash, s, s', i) || Abort(hash, s, s', i)
  }

  ghost predicate SomeRunStep(hash: string -> int, s: State, s': State) {
    exists i: nat :: RunStep(hash, s, s', i)
  }

  ghost predicate Next(hash: string -> int, s: State, s': State) {
    Withdraw(s, s') || SomeRunStep(hash, s, s')
  }

  ghost predicate Behaviour(hash: string -> int, b: seq<State>) {
    |b| > 0 && forall k :: 0 <= k < |b| - 1 ==> Next(hash, b[k], b[k + 1])
  }

  /** A behaviour in which no operator withdraws a key. */
  ghost predicate RunsOnly(hash: string -> int, b: seq<State>) {
    |b| > 0 && forall k :: 0 <= k < |b| - 1 ==> SomeRunStep(hash, b[k], b[k + 1])
  }

  // ---- What is promised -----------------------------------------------------------------

  /** At most one organization, one user and one active key per service user, and the user's
      organization exists. */
  ghost predicate ServiceOk(db: Db, c: Service) {
    && (forall o, p :: o in db.orgs && p in db.orgs && o.name == c.orgName && p.name == c.orgName ==> o == p)
    && (forall u, v :: u in db.users && v in db.users && u.email == c.email && v.email == c.email ==> u == v)
    && (forall k, l, id :: k in db.keys && l in db.keys && IsActiveKey(k, c, id) && IsActiveKey(l, c, id) ==> k == l)
    && (forall u :: u in db.users && u.email == c.email ==> HasOrg(db, u.orgId))
  }

  /** The key belongs to the service user and carries that user's organization. */
  ghost predicate WellOwned(db: Db, k: ApiKey, c: Service) {
    k.name == c.keyName && exists u :: u in db.users && u.email == c.email && u.id == k.userId && u.orgId == k.orgId
  }

  /** The service user exists and, unless a key was withdrawn meanwhile, has an active key. */
  ghost predicate Provisioned(s: State, c: Service) {
    exists u :: u in s.db.users && u.email == c.email && (s.withdrawn > 0 || !NoActiveKey(s.db, c, u.id))
  }

  /** Two services whose locks differ write different rows. */
  ghost predicate Separate(c: Service, d: Service) {
    c.email != d.email && c.orgName != d.orgName && c.keyName != d.keyName
  }

  ghost predicate Compatible(hash: string -> int, runs: seq<Run>) {
    forall i, j :: 0 <= i < |runs| && 0 <= j < |runs|
        && hash(runs[i].service.lockName) != hash(runs[j].service.lockName)
      ==> Separate(runs[i].service, runs[j].service)
  }

  ghost predicate Initial(hash: string -> int, s: State) {
    && Compatible(hash, s.runs)
    && s.locks == map[] && s.withdrawn == 0
    && (forall i :: 0 <= i < |s.runs| ==> s.runs[i].stage == Waiting && s.runs[i].pending == NOTHING)
    && (forall i :: 0 <= i < |s.runs| ==> ServiceOk(s.db, s.runs[i].service))
    && (forall k :: k in s.db.keys ==> k.id < s.nextId)
  }

  /** Any mix of the four scripts is compatible, whatever the lock names hash to. */
  lemma ScriptsCompatible(hash: string -> int, scripts: seq<Script>, runs: seq<Run>)
    requires |scripts| == |runs| && forall i :: 0 <= i < |runs| ==> runs[i].service == ServiceOf(scripts[i])
    ensures Compatible(hash, runs)
  {
  }
}
