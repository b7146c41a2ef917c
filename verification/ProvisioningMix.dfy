/** Any mix of the four scripts on an empty database: what is in the database altogether. */
module ProvisioningMix {
  import opened Provisioning
  import opened ProvisioningSafety

  /** A script and its runtime twin provision the same rows under the same lock. */
  lemma TwinsAlike()
    ensures ServiceOf(GuestTs) == ServiceOf(GuestJs) && ServiceOf(FreeTierTs) == ServiceOf(FreeTierJs)
  {
  }

  /** Every row in sight was written for the service of some run. */
  ghost predicate OnlyOurs(s: State, base: nat) {
    && (forall o :: o in s.db.orgs ==> exists i :: 0 <= i < |s.runs| && o.name == s.runs[i].service.orgName)
    && (forall u :: u in s.db.users ==> exists i :: 0 <= i < |s.runs| && u.email == s.runs[i].service.email)
    && (forall k :: k in s.db.keys ==> k.id >= base)
  }

  lemma OwnPending(hash: string -> int, s: State, i: nat, base: nat)
    requires Inv(hash, s, base) && i < |s.runs| && s.runs[i].stage == Committing
    ensures var r := s.runs[i]; OwnRows(r.pending, r.service) && forall k :: k in r.pending.keys ==> k.id >= base
  {
    CommittedRows(s.db, s.runs[i], base, s.nextId, s.withdrawn);
  }

  lemma WithdrawKeepsOurs(s: State, s': State, base: nat)
    requires OnlyOurs(s, base) && Withdraw(s, s')
    ensures OnlyOurs(s', base)
  {
    forall o | o in s'.db.orgs ensures exists i :: 0 <= i < |s'.runs| && o.name == s'.runs[i].service.orgName {
      var i :| 0 <= i < |s.runs| && o.name == s.runs[i].service.orgName;
      assert o.name == s'.runs[i].service.orgName;
    }
    forall u | u in s'.db.users ensures exists i :: 0 <= i < |s'.runs| && u.email == s'.runs[i].service.email {
      var i :| 0 <= i < |s.runs| && u.email == s.runs[i].service.email;
      assert u.email == s'.runs[i].service.email;
    }
  }

  lemma CommitKeepsOurs(s: State, s': State, i: nat, base: nat)
    requires OnlyOurs(s, base) && i < |s.runs| && s'.db == s.db.Plus(s.runs[i].pending) && |s'.runs| == |s.runs|
    requires forall j :: 0 <= j < |s.runs| ==> s'.runs[j].service == s.runs[j].service
    requires OwnRows(s.runs[i].pending, s.runs[i].service) && forall k :: k in s.runs[i].pending.keys ==> k.id >= base
    ensures OnlyOurs(s', base)
  {
    forall o | o in s'.db.orgs ensures exists j :: 0 <= j < |s'.runs| && o.name == s'.runs[j].service.orgName {
      var j :| 0 <= j < |s.runs| && o.name == s.runs[j].service.orgName;
      assert o.name == s'.runs[j].service.orgName;
    }
    forall u | u in s'.db.users ensures exists j :: 0 <= j < |s'.runs| && u.email == s'.runs[j].service.email {
      var j :| 0 <= j < |s.runs| && u.email == s.runs[j].service.email;
      assert u.email == s'.runs[j].service.email;
    }
  }

  lemma SameRowsKeepOurs(s: State, s': State, base: nat)
    requires OnlyOurs(s, base) && s'.db == s.db && |s'.runs| == |s.runs|
    requires forall j :: 0 <= j < |s.runs| ==> s'.runs[j].service == s.runs[j].service
    ensures OnlyOurs(s', base)
  {
    forall o | o in s'.db.orgs ensures exists i :: 0 <= i < |s'.runs| && o.name == s'.runs[i].service.orgName {
      var i :| 0 <= i < |s.runs| && o.name == s.runs[i].service.orgName;
      assert o.name == s'.runs[i].service.orgName;
    }
    forall u | u in s'.db.users ensures exists i :: 0 <= i < |s'.runs| && u.email == s'.runs[i].service.email {
      var i :| 0 <= i < |s.runs| && u.email == s.runs[i].service.email;
      assert u.email == s'.runs[i].service.email;
    }
  }

  lemma StepKeepsOurs(hash: string -> int, s: State, s': State, base: nat)
    requires Inv(hash, s, base) && OnlyOurs(s, base) && Next(hash, s, s')
    ensures OnlyOurs(s', base)
  {
    hide Inv, OnlyOurs, Statement;
    NextKeepsInv(hash, s, s', base);
    if !Withdraw(s, s') {
      var i: nat :| RunStep(hash, s, s', i);
      if Commit(hash, s, s', i) && !Execute(s, s', i) {
        OwnPending(hash, s, i, base);
        CommitKeepsOurs(s, s', i, base);
      } else {
        SameRowsKeepOurs(s, s', base);
      }
    } else {
      WithdrawKeepsOurs(s, s', base);
    }
  }

  lemma {:induction false} ReachableOurs(hash: string -> int, b: seq<State>, n: nat)
    requires Behaviour(hash, b) && Initial(hash, b[0]) && b[0].db == NOTHING && n < |b|
    ensures OnlyOurs(b[n], b[0].nextId)
    decreases n
  {
    hide Inv, Next;
    if n > 0 {
      ReachableOurs(hash, b, n - 1);
      ReachableInv(hash, b, n - 1);
      StepKeepsOurs(hash, b[n - 1], b[n], b[0].nextId);
    }
  }

  // ---- Counting ---------------------------------------------------------------------------

  lemma AtMostOne<T>(a: set<T>)
    requires forall x, y :: x in a && y in a ==> x == y
    ensures |a| <= 1
  {
    if x :| x in a { assert a == {x}; }
  }

  lemma AtMostTwo<T>(s: set<T>, a: set<T>, b: set<T>)
    requires s == a + b && (forall x, y :: x in a && y in a ==> x == y) && (forall x, y :: x in b && y in b ==> x == y)
    ensures |s| <= 2
  {
    AtMostOne(a);
    AtMostOne(b);
  }

  /** The runs are those of a mix of the four scripts, waiting, on an empty database. */
  ghost predicate MixStarts(hash: string -> int, scripts: seq<Script>, s: State) {
    && s.db == Db({}, {}, {}) && s.locks == map[] && s.withdrawn == 0 && |s.runs| == |scripts|
    && forall i :: 0 <= i < |s.runs| ==>
         s.runs[i].service == ServiceOf(scripts[i]) && s.runs[i].stage == Waiting && s.runs[i].pending == NOTHING
  }

  lemma MixIsInitial(hash: string -> int, scripts: seq<Script>, s: State)
    requires MixStarts(hash, scripts, s)
    ensures Initial(hash, s)
  {
    ScriptsCompatible(hash, scripts, s.runs);
  }

  // ---- Two services, whatever they are called ---------------------------------------------

  predicate SameRows(c: Service, d: Service) {
    c.email == d.email && c.orgName == d.orgName && c.keyName == d.keyName
  }

  function ActiveKeys(db: Db, name: string): set<ApiKey> {
    set k | k in db.keys && k.active && k.name == name
  }

  /** One organization, one user and one active key at most, by their names. */
  ghost predicate OneEach(db: Db, c: Service) {
    && (forall o, p :: o in db.orgs && p in db.orgs && o.name == c.orgName && p.name == c.orgName ==> o == p)
    && (forall u, v :: u in db.users && v in db.users && u.email == c.email && v.email == c.email ==> u == v)
    && (forall k, l :: k in ActiveKeys(db, c.keyName) && l in ActiveKeys(db, c.keyName) ==> k == l)
  }

  /** Every row belongs to one of two services; a key belongs to a user of its service and carries
      that user's organization. */
  ghost predicate OnlyThese(db: Db, c: Service, d: Service) {
    && (forall o :: o in db.orgs ==> o.name == c.orgName || o.name == d.orgName)
    && (forall u :: u in db.users ==> u.email == c.email || u.email == d.email)
    && (forall k :: k in db.keys ==> WellOwned(db, k, c) || WellOwned(db, k, d))
  }

  ghost predicate RunsOf(s: State, c: Service, d: Service) {
    forall i :: 0 <= i < |s.runs| ==> SameRows(s.runs[i].service, c) || SameRows(s.runs[i].service, d)
  }

  lemma WellOwnedSame(db: Db, k: ApiKey, c: Service, d: Service)
    requires WellOwned(db, k, c) && SameRows(c, d)
    ensures WellOwned(db, k, d)
  {
  }

  lemma KeysOnlyThese(s: State, base: nat, c: Service, d: Service)
    requires OnlyOurs(s, base) && KeysOk(s, base) && RunsOf(s, c, d)
    ensures OnlyThese(s.db, c, d)
  {
    forall k | k in s.db.keys ensures WellOwned(s.db, k, c) || WellOwned(s.db, k, d) {
      var i :| 0 <= i < |s.runs| && WellOwned(s.db, k, s.runs[i].service);
      WellOwnedSame(s.db, k, s.runs[i].service, if SameRows(s.runs[i].service, c) then c else d);
    }
  }

  /** A run of the service that owns a key by its name. */
  lemma OwnerOf(s: State, base: nat, c: Service, d: Service, k: ApiKey) returns (i: nat)
    requires OnlyOurs(s, base) && KeysOk(s, base) && RunsOf(s, c, d) && Separate(c, d)
    requires k in s.db.keys && k.name == c.keyName
    ensures i < |s.runs| && SameRows(s.runs[i].service, c) && WellOwned(s.db, k, s.runs[i].service)
  {
    i :| 0 <= i < |s.runs| && WellOwned(s.db, k, s.runs[i].service);
  }

  lemma OneOrgAndUser(s: State, base: nat, c: Service, d: Service)
    requires OnlyOurs(s, base) && RunsOf(s, c, d) && Separate(c, d)
    requires forall i :: 0 <= i < |s.runs| ==> ServiceOk(s.db, s.runs[i].service)
    ensures forall o, p :: o in s.db.orgs && p in s.db.orgs && o.name == c.orgName && p.name == c.orgName ==> o == p
    ensures forall u, v :: u in s.db.users && v in s.db.users && u.email == c.email && v.email == c.email ==> u == v
  {
    forall o, p | o in s.db.orgs && p in s.db.orgs && o.name == c.orgName && p.name == c.orgName ensures o == p {
      var i :| 0 <= i < |s.runs| && o.name == s.runs[i].service.orgName;
    }
    forall u, v | u in s.db.users && v in s.db.users && u.email == c.email && v.email == c.email ensures u == v {
      var i :| 0 <= i < |s.runs| && u.email == s.runs[i].service.email;
    }
  }

  lemma OneActiveKey(db: Db, c: Service, d: Service, k: ApiKey, l: ApiKey)
    requires ServiceOk(db, c) && SameRows(c, d) && WellOwned(db, k, c) && WellOwned(db, l, d)
    requires k in db.keys && l in db.keys && k.active && l.active
    ensures k == l
  {
    var u :| u in db.users && u.email == c.email && u.id == k.userId;
    var v :| v in db.users && v.email == d.email && v.id == l.userId;
    assert u == v;
    assert IsActiveKey(k, c, u.id) && IsActiveKey(l, c, u.id);
  }

  lemma ServiceHasOneEach(s: State, base: nat, c: Service, d: Service)
    requires OnlyOurs(s, base) && KeysOk(s, base) && RunsOf(s, c, d) && Separate(c, d)
    requires forall i :: 0 <= i < |s.runs| ==> ServiceOk(s.db, s.runs[i].service)
    ensures OneEach(s.db, c)
  {
    hide KeysOk, WellOwned, OnlyOurs, RunsOf, ServiceOk, Separate;
    OneOrgAndUser(s, base, c, d);
    forall k, l | k in ActiveKeys(s.db, c.keyName) && l in ActiveKeys(s.db, c.keyName) ensures k == l {
      var i := OwnerOf(s, base, c, d, k);
      var j := OwnerOf(s, base, c, d, l);
      OneActiveKey(s.db, s.runs[i].service, s.runs[j].service, k, l);
    }
  }

  lemma TwoOrgs(db: Db, c: Service, d: Service)
    requires OnlyThese(db, c, d) && OneEach(db, c) && OneEach(db, d)
    ensures |db.orgs| <= 2
  {
    AtMostTwo(db.orgs, set o | o in db.orgs && o.name == c.orgName, set o | o in db.orgs && o.name == d.orgName);
  }

  lemma TwoUsers(db: Db, c: Service, d: Service)
    requires OnlyThese(db, c, d) && OneEach(db, c) && OneEach(db, d)
    ensures |db.users| <= 2
  {
    AtMostTwo(db.users, set u | u in db.users && u.email == c.email, set u | u in db.users && u.email == d.email);
  }

  lemma TwoActiveKeys(db: Db, c: Service, d: Service)
    requires OnlyThese(db, c, d) && OneEach(db, c) && OneEach(db, d)
    ensures |set k | k in db.keys && k.active| <= 2
  {
    var active := set k | k in db.keys && k.active;
    forall k ensures k in active <==> k in ActiveKeys(db, c.keyName) + ActiveKeys(db, d.keyName) {
      if k in active { assert WellOwned(db, k, c) || WellOwned(db, k, d); }
    }
    AtMostTwo(active, ActiveKeys(db, c.keyName), ActiveKeys(db, d.keyName));
  }

  // ---- The four scripts -----------------------------------------------------------------------

  lemma EveryScriptIsOne(script: Script)
    ensures SameRows(ServiceOf(script),
        Service("guest-service@example.com", "Ailin Chat Guest", "chat-anonymous-guest", ""))
            || SameRows(ServiceOf(script),
                Service("free-tier-service@example.com", "Ailin Chat Free Tier", "chat-free-tier", ""))
  {
  }

  lemma NamesDiffer(c: Service, d: Service)
    requires c == Service("guest-service@example.com", "Ailin Chat Guest", "chat-anonymous-guest", "")
    requires d == Service("free-tier-service@example.com", "Ailin Chat Free Tier", "chat-free-tier", "")
    ensures Separate(c, d)
  {
    assert |c.email| != |d.email| && |c.orgName| != |d.orgName| && |c.keyName| != |d.keyName|;
  }

  lemma SeparateBothWays(c: Service, d: Service)
    requires Separate(c, d)
    ensures Separate(d, c)
  {
  }

  /** In every behaviour of any mix of the four scripts from an empty database, with aborts and
      withdrawals anywhere, each state holds at most two organizations, two users and two active keys,
      at most one of each of either name, and nothing else. */
  lemma MixIsSafe(hash: string -> int, scripts: seq<Script>, b: seq<State>, n: nat, c: Service, d: Service)
    requires Behaviour(hash, b) && n < |b| && MixStarts(hash, scripts, b[0])
    requires c == Service("guest-service@example.com", "Ailin Chat Guest", "chat-anonymous-guest", "")
    requires d == Service("free-tier-service@example.com", "Ailin Chat Free Tier", "chat-free-tier", "")
    ensures |b[n].db.orgs| <= 2 && |b[n].db.users| <= 2 && |set k | k in b[n].db.keys && k.active| <= 2
    ensures OnlyThese(b[n].db, c, d) && OneEach(b[n].db, c) && OneEach(b[n].db, d)
  {
    hide ServiceOf, OneEach, OnlyThese, OnlyOurs, KeysOk, ServiceOk, Separate, LocksOk, RunOk;
    var s, base := b[n], b[0].nextId;
    MixIsInitial(hash, scripts, b[0]);
    ReachableInv(hash, b, n);
    ReachableOurs(hash, b, n);
    forall i | 0 <= i < |s.runs| ensures SameRows(s.runs[i].service, c) || SameRows(s.runs[i].service, d) {
      EveryScriptIsOne(scripts[i]);
    }
    NamesDiffer(c, d);
    SeparateBothWays(c, d);
    KeysOnlyThese(s, base, c, d);
    ServiceHasOneEach(s, base, c, d);
    ServiceHasOneEach(s, base, d, c);
    TwoOrgs(s.db, c, d);
    TwoUsers(s.db, c, d);
    TwoActiveKeys(s.db, c, d);
  }
}
