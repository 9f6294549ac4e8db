/** The account controller (controllers/bucketserviceaccount_controller.go), call
    by call, with the others running and calls failing in between. */
module AccountReconcilers {
  import opened Wrappers
  import opened Owners
  import opened Conditions
  import opened Worlds
  import PolicyText
  import opened Actions
  import opened Invariants
  import opened Relying
  import opened Clusters
  import opened Listings
  import opened AccountPasses
  import Outcomes

  /** The controller's in-memory copy of an account. */
  class AccountCopy {
    const key: Key
    var it: Account
    var step: AccountStep   // how its status differs from the one that was read
    ghost var base: Account // what was read

    /** The copy is what was read plus a legal status change, and the stored
        object is still what was read as long as its version is. */
    ghost predicate Drafts(w: World)
      reads this
    {
      && w.desk.accountPass
      && Follows(key, base, w)
      && it == base.(status := it.status)
      && LegalAccountStep(base, step, it.status, w.now)
    }

    /** Besides, the status rests on what the pass has listed so far. */
    ghost predicate Tracks(w: World)
      reads this
    {
      Drafts(w) && step.saw == Sighted(w.desk.listed, key)
    }

    /** The stored object carries the finalizer and is the one that was read. */
    ghost predicate Stands(w: World)
      reads this
    {
      Held(w, key) && w.accounts[key].uid == it.uid && w.accounts[key].provider == it.provider
    }

    /** Nobody has written the object since it was read, and the copy is as read. */
    ghost predicate Current(w: World)
      reads this
    {
      key in w.accounts && w.accounts[key] == base && it == base
    }

    /** What the pass has listed of this account. */
    ghost predicate HasListed(w: World, buckets: set<Key>) {
      w.desk.listed.Some? && w.desk.listed.value.account == key && w.desk.listed.value.buckets == buckets
    }

    function User(): Loc
      reads this
    {
      UserOf(key, it.provider)
    }

    constructor (key: Key, stored: Account)
      ensures this.key == key && it == stored && base == stored
      ensures step == AccountStep(stored.status.secretName, Same, Keep, 0, Nothing)
    {
      this.key := key;
      this.it := stored;
      this.base := stored;
      this.step := AccountStep(stored.status.secretName, Same, Keep, 0, Nothing);
    }

    /** The DeletionPending mark set or lifted in memory, with what was seen. */
    method Pend(mark: Pending, saw: Saw, ghost w: World)
      requires Drafts(w) && Stands(w) && step.change == Keep && step.pending == Same && step.saw == Nothing
      requires saw == NoBucket(w.now) || saw == SomeBucket(w.now)
      requires saw == Sighted(w.desk.listed, key)
      requires mark == if saw.NoBucket? == IsTrue(it.status.conditions, DeletionPending) then Same
                       else if saw.NoBucket? then Mark else Clear
      modifies `it, `step
      ensures Tracks(w) && Stands(w)
      ensures step == old(step).(pending := mark, saw := saw)
      ensures it == old(it).(status := Pended(old(it.status), mark, saw))
    {
      PendingIsLegal(base, step, it.status, w.now, mark, saw);
      step := step.(pending := mark, saw := saw);
      it := it.(status := Pended(it.status, mark, saw));
    }
  }

  /** The stored object is gone, or not the one that was read. */
  predicate Outdated(w: World, k: Key, version: nat) {
    k !in w.accounts || w.accounts[k].version != version
  }

  predicate StatusStored(w: World, k: Key, status: AccountStatus) {
    k in w.accounts && w.accounts[k].status == status
  }

  /** The latest call has asked for a status of this account that says how its pass ended. */
  ghost predicate ReportsTo(asked: seq<Action>, k: Key) {
    && asked != []
    && var act := asked[|asked| - 1];
    && IsAStatus(act, k) && (act.a.step.change == Change.Fail || act.a.step.change == Succeed)
  }

  /** The latest call has asked for something of this account that a pass may end with. */
  predicate Worked(asked: seq<Action>, k: Key) {
    && asked != []
    && var act := asked[|asked| - 1];
    && act.ByAccounts? && (act.a.AStatus? || act.a.ASetPolicy? || act.a.AFinalize? || act.a.ARelease?) && act.a.key == k
  }

  /** It asks for what a failure is to look like on this account. */
  ghost predicate Erred(act: Action, it: Account) {
    && act.ByAccounts? && act.a.AStatus? && act.a.version == it.version && act.a.step.change == Change.Fail
    && Outcomes.ErrorRecorded(it.status.conditions, act.a.status.conditions, act.a.step.at)
    && act.a.status.phase == Phase(Error) && act.a.status.secretName == it.status.secretName
  }

  class AccountReconciler {
    const c: Cluster

    constructor (c: Cluster)
      ensures this.c == c
    {
      this.c := c;
    }

    /** A status write against the version that was read. */
    method PutStatus(key: Key, it: Account, step: AccountStep, ghost base: Account)
      returns (ok: bool, ghost mid: World)
      requires c.Valid() && Follows(key, base, c.w) && it == base.(status := it.status)
      requires LegalAccountStep(base, step, it.status, c.w.now)
      requires c.w.desk.accountPass && step.saw == Sighted(c.w.desk.listed, key)
      modifies c`w, c`trace, c`passed, c`asked
      ensures c.Valid() && Newer(old(c.w), mid) && AccountsLeftAlone(old(c.w), mid)
      ensures c.w.desk.accountPass && c.w.desk.listed == old(c.w).desk.listed
      ensures Newer(mid, c.w) && AccountsLast(mid, c.w)
      ensures !c.busy ==> mid == old(c.w)
      ensures c.w == mid || Stored(mid, key, it, step.saw, c.w)
      ensures ok ==> Stored(mid, key, it, step.saw, c.w)
      ensures c.LastAsked(ByAccounts(AStatus(key, it.version, it.status, step)))
      ensures !ok && !c.faulty ==> Outdated(c.w, key, it.version)
      ensures c.Quiet() && key in mid.accounts && mid.accounts[key].version == it.version ==> ok
    {
      var reply;
      reply, mid := c.CallA(AStatus(key, it.version, it.status, step));
      ok := reply.Done?;
    }

    /** r.Status().Update: the whole status is written; an accepted write refreshes the copy. */
    method UpdateStatus(a: AccountCopy) returns (ok: bool, ghost mid: World)
      requires c.Valid() && a.Tracks(c.w) && a.Stands(c.w)
      modifies c`w, c`trace, c`passed, c`asked, a`it, a`step, a`base
      ensures c.Valid() && Newer(old(c.w), mid) && AccountsLeftAlone(old(c.w), mid)
      ensures a.Tracks(c.w) && a.Stands(c.w) && c.w.desk.listed == old(c.w).desk.listed
      ensures !c.busy ==> mid == old(c.w)
      ensures c.w == mid || Stored(mid, a.key, old(a.it), old(a.step.saw), c.w)
      ensures ok ==> Stored(mid, a.key, old(a.it), old(a.step.saw), c.w)
      ensures ok ==> Stored(Bare(mid), a.key, old(a.it), old(a.step.saw), Bare(c.w))
      ensures ok ==> a.it == old(a.it).(version := a.it.version) && a.Current(c.w)
      ensures ok ==> a.step == AccountStep(a.it.status.secretName, Same, Keep, 0, old(a.step).saw)
      ensures !ok ==> a.step == old(a.step) && a.it == old(a.it)
      ensures c.LastAsked(ByAccounts(AStatus(a.key, old(a.it.version), old(a.it.status), old(a.step))))
      ensures !ok && !c.faulty ==> Outdated(c.w, a.key, old(a.it.version))
      ensures c.Quiet() && a.key in mid.accounts && mid.accounts[a.key].version == old(a.it.version) ==> ok
    {
      ok, mid := PutStatus(a.key, a.it, a.step, a.base);
      FollowsOn(a.key, a.base, old(c.w), mid);
      FollowsOn(a.key, a.base, mid, c.w);
      if ok {
        StoredBare(mid, a.key, a.it, a.step.saw, c.w);
        UnchangedIsLegal(c.w.accounts[a.key], a.base, a.step, a.it.status, old(c.w).now, c.w.now);
        a.it := c.w.accounts[a.key];
        a.base := a.it;
        a.step := AccountStep(a.it.status.secretName, Same, Keep, 0, a.step.saw);
      }
    }

    /** r.err: Ready false, Error true, phase Error. The write is asked for in any case,
        and with no failing call it is there afterwards, or somebody has written the
        object since it was read. */
    method Fail(a: AccountCopy)
      requires c.Valid() && a.Tracks(c.w) && a.Stands(c.w) && a.step.change == Keep
      modifies c`w, c`trace, c`passed, c`asked, a`it, a`step, a`base
      ensures c.Valid()
      ensures ReportsTo(c.asked, a.key) && Erred(c.asked[|c.asked| - 1], old(a.it))
      ensures !c.faulty ==> StatusStored(c.w, a.key, c.asked[|c.asked| - 1].a.status) || Outdated(c.w, a.key, old(a.it.version))
      ensures c.Quiet() && old(a.Current(c.w)) ==>
                Bare(c.w) == Store(Bare(old(c.w)), a.key, AccountChanged(old(a.it.status), Change.Fail, old(c.w).now), old(a.step.saw))
    {
      var _ := Advance(a, Change.Fail);
    }

    /** The MinIO user of the account exists once this succeeds. */
    method ReconcileUser(a: AccountCopy) returns (ok: bool)
      requires c.Valid() && a.Tracks(c.w) && a.Stands(c.w)
      modifies c`w, c`trace, c`passed, c`asked
      ensures c.Valid() && a.Tracks(c.w) && a.Stands(c.w)
      ensures ok ==> a.User() in c.w.minio.users
      ensures c.asked == old(c.asked) || c.LastAsked(ByAccounts(AAddUser(a.key)))
      ensures !c.busy && a.User() in old(c.w).minio.users ==> c.asked == old(c.asked)
      ensures c.Quiet() ==> ok
      ensures c.Smooth(ok) ==>
                Bare(c.w) == if a.User() in old(c.w).minio.users then Bare(old(c.w)) else WithUser(Bare(old(c.w)), a.key)
    {
      ok := c.Read(AccountWorker);
      FollowsOn(a.key, a.base, old(c.w), c.w);
      if ok && a.User() !in c.w.minio.users {
        ok := AddUser(a);
      }
    }

    method AddUser(a: AccountCopy) returns (ok: bool)
      requires c.Valid() && a.Tracks(c.w) && a.Stands(c.w)
      modifies c`w, c`trace, c`passed, c`asked
      ensures c.Valid() && a.Tracks(c.w) && a.Stands(c.w)
      ensures ok ==> a.User() in c.w.minio.users
      ensures c.LastAsked(ByAccounts(AAddUser(a.key)))
      ensures c.Quiet() ==> ok
      ensures c.Smooth(ok) ==> Bare(c.w) == WithUser(Bare(old(c.w)), a.key)
    {
      var reply, mid := c.CallA(AAddUser(a.key));
      FollowsOn(a.key, a.base, old(c.w), mid);
      FollowsOn(a.key, a.base, mid, c.w);
      ok := reply.Done?;
    }

    /** Every key the user has is deleted, one call each. */
    method PurgeKeys(a: AccountCopy) returns (ok: bool)
      requires c.Valid() && a.Tracks(c.w) && a.Stands(c.w) && !HasOwnSecret(c.w, a.key)
      modifies c`w, c`trace, c`passed, c`asked
      ensures c.Valid() && a.Tracks(c.w) && a.Stands(c.w) && !HasOwnSecret(c.w, a.key)
      ensures ok ==> KeysOf(c.w.minio, a.User()) == {}
      ensures c.Quiet() ==> ok
      ensures c.Smooth(ok) ==>
                Bare(c.w) == Bare(old(c.w)).(minio := old(c.w).minio.(keys := RemoveKeysOf(old(c.w).minio.keys, a.User())))
    {
      ok := c.Read(AccountWorker);
      FollowsOn(a.key, a.base, old(c.w), c.w);
      NoNewSecret(old(c.w), c.w, a.key);
      if !ok {
        return;
      }
      ghost var w0 := Bare(old(c.w));
      var user := a.User();
      var todo := KeysOf(c.w.minio, user);
      while todo != {}
        invariant c.Valid() && a.Tracks(c.w) && a.Stands(c.w) && !HasOwnSecret(c.w, a.key)
        invariant KeysOf(c.w.minio, user) == todo
        invariant ok && (!c.busy ==> Purged(w0, user, todo, Bare(c.w)))
        decreases todo
      {
        var n :| n in todo;
        ghost var before := Bare(c.w);
        ok := DropKey(a, n);
        if !ok {
          return;
        }
        if !c.busy {
          PurgedStep(w0, user, todo, n, before, Bare(c.w));
        }
        todo := todo - {n};
      }
      if !c.busy {
        PurgedAll(w0, user, Bare(c.w));
      }
    }

    /** DeleteServiceAccount with one of the user's access keys. */
    method DropKey(a: AccountCopy, n: nat) returns (ok: bool)
      requires c.Valid() && a.Tracks(c.w) && a.Stands(c.w) && !HasOwnSecret(c.w, a.key)
      requires n in KeysOf(c.w.minio, a.User())
      modifies c`w, c`trace, c`passed, c`asked
      ensures c.Valid() && a.Tracks(c.w) && a.Stands(c.w) && !HasOwnSecret(c.w, a.key)
      ensures ok ==> KeysOf(c.w.minio, a.User()) == KeysOf(old(c.w).minio, a.User()) - {n}
      ensures c.Quiet() ==> ok
      ensures c.Smooth(ok) ==>
                Bare(c.w) == Bare(old(c.w)).(minio := old(c.w).minio.(keys := old(c.w).minio.keys - {Live(a.it.provider, n)}))
    {
      KeysOfMember(c.w.minio, a.User(), n);
      var reply, mid := c.CallA(ADropKey(a.key, Serial(n)));
      FollowsOn(a.key, a.base, old(c.w), mid);
      FollowsOn(a.key, a.base, mid, c.w);
      NoNewSecret(old(c.w), mid, a.key);
      ok := reply.Done?;
      if ok {
        KeysOfDrop(mid.minio, a.User(), n, c.w.minio);
      }
    }

    /** AddServiceAccount: MinIO generates a key pair for the user. */
    method CreateKey(a: AccountCopy) returns (ok: bool, serial: nat)
      requires c.Valid() && a.Tracks(c.w) && a.Stands(c.w) && !HasOwnSecret(c.w, a.key)
      requires KeysOf(c.w.minio, a.User()) == {}
      modifies c`w, c`trace, c`passed, c`asked
      ensures c.Valid() && a.Tracks(c.w) && a.Stands(c.w)
      ensures ok ==> SoleKey(c.w.minio, a.User(), serial)
      ensures c.Quiet() && a.User() in old(c.w).minio.users ==> ok
      ensures ok && !c.busy ==>
                && serial == old(c.w).serial
                && Bare(c.w) == Bare(old(c.w)).(serial := serial + 1,
                                    minio := old(c.w).minio.(keys :=
                                      old(c.w).minio.keys[Live(a.it.provider, serial) := a.User().name]))
    {
      ghost var m, user, n := c.w.minio, a.User(), c.w.serial;
      ghost var added := m.(keys := m.keys[Live(user.provider, n) := user.name]);
      KeysOfAdd(m, user, n, added);
      ok, serial := AddKey(a);
      if ok {
        KeysOfSame(added, c.w.minio, user);
      }
    }

    method AddKey(a: AccountCopy) returns (ok: bool, serial: nat)
      requires c.Valid() && a.Tracks(c.w) && a.Stands(c.w) && !HasOwnSecret(c.w, a.key)
      modifies c`w, c`trace, c`passed, c`asked
      ensures c.Valid() && a.Tracks(c.w) && a.Stands(c.w)
      ensures ok ==> serial == old(c.w).serial && a.User() in c.w.minio.users &&
                     c.w.minio.keys == old(c.w).minio.keys[Live(a.it.provider, serial) := a.User().name]
      ensures c.Quiet() && a.User() in old(c.w).minio.users ==> ok
      ensures ok && !c.busy ==>
                Bare(c.w) == Bare(old(c.w)).(serial := serial + 1, minio := old(c.w).minio.(keys := c.w.minio.keys))
    {
      var reply, mid := c.CallA(AAddKey(a.key));
      FollowsOn(a.key, a.base, old(c.w), mid);
      FollowsOn(a.key, a.base, mid, c.w);
      ok, serial := reply.Done?, 0;
      if ok {
        KeyAdded(mid, a.key);
        serial := c.w.serial - 1;
      }
    }

    /** The credentials secret is created; if that fails the key is to be deleted
        again, but the call names the user instead of the key. */
    method CreateSecret(a: AccountCopy, serial: nat) returns (ok: bool)
      requires c.Valid() && a.Tracks(c.w) && a.Stands(c.w) && SoleKey(c.w.minio, a.User(), serial)
      modifies c`w, c`trace, c`passed, c`asked
      ensures c.Valid() && a.Tracks(c.w) && a.Stands(c.w)
      ensures ok ==> SaKey(a.key) in c.w.secrets &&
                     c.w.secrets[SaKey(a.key)].(version := 0) == SaSecret(a.key, a.it.uid, serial)
      ensures !ok ==> c.LastAskedBoth(ByAccounts(ACreateSecret(a.key, serial)), KeyNamed(a.key))
      ensures c.Quiet() && SaKey(a.key) !in old(c.w).secrets ==> ok
      ensures ok && !c.busy ==>
                Bare(c.w) == PutSecret(Bare(old(c.w)), SaKey(a.key), SaSecret(a.key, a.it.uid, serial))
    {
      ok := AddSecret(a, serial);
      if !ok {
        Compensate(a);
      }
    }

    method AddSecret(a: AccountCopy, serial: nat) returns (ok: bool)
      requires c.Valid() && a.Tracks(c.w) && a.Stands(c.w) && SoleKey(c.w.minio, a.User(), serial)
      modifies c`w, c`trace, c`passed, c`asked
      ensures c.Valid() && a.Tracks(c.w) && a.Stands(c.w)
      ensures c.LastAsked(ByAccounts(ACreateSecret(a.key, serial)))
      ensures ok ==> SaKey(a.key) in c.w.secrets &&
                     c.w.secrets[SaKey(a.key)].(version := 0) == SaSecret(a.key, a.it.uid, serial)
      ensures c.Quiet() && SaKey(a.key) !in old(c.w).secrets ==> ok
      ensures ok && !c.busy ==>
                Bare(c.w) == PutSecret(Bare(old(c.w)), SaKey(a.key), SaSecret(a.key, a.it.uid, serial))
    {
      PutSecretBare(c.w, SaKey(a.key), SaSecret(a.key, a.it.uid, serial));
      var reply, mid := c.CallA(ACreateSecret(a.key, serial));
      FollowsOn(a.key, a.base, old(c.w), mid);
      FollowsOn(a.key, a.base, mid, c.w);
      ok := reply.Done?;
    }

    /** The call meant to delete the key again, which names the user instead. */
    function KeyNamed(k: Key): Action {
      ByAccounts(ADropKey(k, Named(Prefixed(k.name))))
    }

    /** mc.DeleteServiceAccount(ctx, name): given the user's name, not a key. */
    method Compensate(a: AccountCopy)
      requires c.Valid() && a.Tracks(c.w) && a.Stands(c.w)
      modifies c`w, c`trace, c`passed, c`asked
      ensures c.Valid() && a.Tracks(c.w) && a.Stands(c.w)
      ensures c.LastAsked(KeyNamed(a.key))
      ensures old(c.asked) != [] ==> c.LastAskedBoth(old(c.asked[|c.asked| - 1]), KeyNamed(a.key))
      ensures !c.busy ==> c.w.secrets == old(c.w).secrets
    {
      var _, mid := c.CallA(ADropKey(a.key, Named(a.User().name)));
      FollowsOn(a.key, a.base, old(c.w), mid);
      FollowsOn(a.key, a.base, mid, c.w);
    }

    /** The secret's name is recorded. If that fails the secret is asked to be deleted in
        any case, and with no failing call and nobody else around it is gone; a call that
        names no key follows. */
    method RecordSecret(a: AccountCopy) returns (ok: bool)
      requires c.Valid() && a.Tracks(c.w) && a.Stands(c.w) && a.step.change == Keep
      modifies c`w, c`trace, c`passed, c`asked, a`it, a`step, a`base
      ensures c.Valid() && a.Tracks(c.w) && a.Stands(c.w) && a.step.change == Keep
      ensures !ok ==> c.LastAskedBoth(ByAccounts(ADeleteSecret(a.key)), KeyNamed(a.key))
      ensures !ok && !c.faulty && !c.busy ==> SaKey(a.key) !in c.w.secrets
      ensures ok ==> StatusStored(c.w, a.key, old(a.it.status).(secretName := Some(SaKey(a.key).name)))
      ensures c.Quiet() && old(a.Current(c.w)) ==> ok
      ensures ok && !c.busy && old(a.Current(c.w)) ==>
                Bare(c.w) == Store(Bare(old(c.w)), a.key,
                                old(a.it.status).(secretName := Some(SaKey(a.key).name)), old(a.step.saw))
      ensures ok ==> Worked(c.asked, a.key)
    {
      SecretNameIsLegal(a.base, a.step, a.it.status, c.w.now, Some(SaKey(a.key).name));
      a.step := a.step.(secretName := Some(SaKey(a.key).name));
      a.it := a.it.(status := a.it.status.(secretName := Some(SaKey(a.key).name)));
      ghost var mid;
      ok, mid := UpdateStatus(a);
      if !ok {
        UndoSecret(a);
      }
    }

    method UndoSecret(a: AccountCopy)
      requires c.Valid() && a.Tracks(c.w) && a.Stands(c.w)
      modifies c`w, c`trace, c`passed, c`asked
      ensures c.Valid() && a.Tracks(c.w) && a.Stands(c.w)
      ensures c.LastAskedBoth(ByAccounts(ADeleteSecret(a.key)), KeyNamed(a.key))
      ensures !c.faulty && !c.busy ==> SaKey(a.key) !in c.w.secrets
    {
      var _ := DeleteSecret(a);
      Compensate(a);
    }

    method DeleteSecret(a: AccountCopy) returns (reply: Reply)
      requires c.Valid() && a.Tracks(c.w) && a.Stands(c.w)
      modifies c`w, c`trace, c`passed, c`asked
      ensures c.Valid() && a.Tracks(c.w) && a.Stands(c.w)
      ensures !reply.Fault? ==> !HasOwnSecret(c.w, a.key) && SaKey(a.key) !in c.w.secrets
      ensures c.LastAsked(ByAccounts(ADeleteSecret(a.key))) && (!c.faulty ==> !reply.Fault?)
      ensures c.Smooth(!reply.Fault?) ==> Bare(c.w) == WithoutSecret(Bare(old(c.w)), a.key)
    {
      ghost var mid;
      reply, mid := c.CallA(ADeleteSecret(a.key));
      FollowsOn(a.key, a.base, old(c.w), mid);
      FollowsOn(a.key, a.base, mid, c.w);
      assert SaKey(a.key) !in old(c.w).secrets ==> old(c.w).secrets - {SaKey(a.key)} == old(c.w).secrets;
    }

    /** The credentials: nothing to do while the secret exists; else old keys are
        purged, a new key is made and its secret stored, and the pass ends. */
    method ReconcileServiceAccount(a: AccountCopy) returns (ok: bool, failed: bool)
      requires c.Valid() && a.Tracks(c.w) && a.Stands(c.w) && a.step.change == Keep && a.step.saw == Nothing
      modifies c`w, c`trace, c`passed, c`asked, a`it, a`step, a`base
      ensures c.Valid() && a.Tracks(c.w) && a.Stands(c.w) && a.step.change == Keep
      ensures ok ==> !failed && a.it == old(a.it) && a.step == old(a.step) && a.base == old(a.base)
      ensures ok ==> SaKey(a.key) in c.w.secrets && c.asked == old(c.asked)
      ensures c.Quiet() && old(a.Current(c.w) && a.User() in c.w.minio.users) ==> !failed
      ensures !c.busy && !failed && old(a.Current(c.w)) ==>
                && (ok <==> SaKey(a.key) in old(c.w).secrets)
                && Bare(c.w) == if SaKey(a.key) in old(c.w).secrets then Bare(old(c.w)) else WithKey(Bare(old(c.w)), a.key)
      ensures !ok && !failed ==> Worked(c.asked, a.key)
    {
      ok := c.Read(AccountWorker);
      FollowsOn(a.key, a.base, old(c.w), c.w);
      failed := !ok;
      if !ok || SaKey(a.key) in c.w.secrets {
        return;
      }
      var serial;
      ok, serial := MakeKey(a);
      if !ok {
        return false, true;
      }
      ok := SaveKey(a, serial);
      return false, !ok;
    }

    /** A fresh key, the only one the user has. */
    method MakeKey(a: AccountCopy) returns (ok: bool, serial: nat)
      requires c.Valid() && a.Tracks(c.w) && a.Stands(c.w) && !HasOwnSecret(c.w, a.key)
      modifies c`w, c`trace, c`passed, c`asked
      ensures c.Valid() && a.Tracks(c.w) && a.Stands(c.w)
      ensures ok ==> SoleKey(c.w.minio, a.User(), serial)
      ensures c.Quiet() && a.User() in old(c.w).minio.users ==> ok
      ensures ok && !c.busy ==> serial == old(c.w).serial && Bare(c.w) == WithNewKey(Bare(old(c.w)), a.key)
    {
      serial := 0;
      ok := PurgeKeys(a);
      if ok {
        ok, serial := CreateKey(a);
      }
    }

    method SaveKey(a: AccountCopy, serial: nat) returns (ok: bool)
      requires c.Valid() && a.Tracks(c.w) && a.Stands(c.w) && SoleKey(c.w.minio, a.User(), serial)
      requires a.step.change == Keep && a.step.saw == Nothing
      modifies c`w, c`trace, c`passed, c`asked, a`it, a`step, a`base
      ensures c.Valid() && a.Tracks(c.w) && a.Stands(c.w) && a.step.change == Keep
      ensures c.Quiet() && old(a.Current(c.w)) && SaKey(a.key) !in old(c.w).secrets ==> ok
      ensures ok && !c.busy && old(a.Current(c.w)) ==> Bare(c.w) == WithSavedKey(Bare(old(c.w)), a.key, serial)
      ensures ok ==> Worked(c.asked, a.key)
    {
      ok := CreateSecret(a, serial);
      if ok {
        ok := RecordSecret(a);
      }
    }

    /** reconcilePolicy: the bucket's policy is in place, every other one as it was. */
    method ReconcilePolicy(a: AccountCopy, name: string) returns (ok: bool)
      requires c.Valid() && a.Tracks(c.w) && a.Stands(c.w)
      requires c.w.desk.listed.Some? && Prefixed(name) in NamesOf(c.w.desk.listed.value.buckets)
      modifies c`w, c`trace, c`passed, c`asked
      ensures c.Valid() && a.Tracks(c.w) && a.Stands(c.w) && c.w.desk.listed == old(c.w).desk.listed
      ensures var at := At(a.it.provider, Prefixed(name));
              var m, m' := old(c.w).minio, c.w.minio;
              m' == m.(buckets := m'.buckets, policies := m'.policies) &&
              (m'.policies == m.policies || m'.policies == m.policies[at := PolicyOf(name)]) &&
              (ok ==> m'.policies == m.policies[at := PolicyOf(name)])
      ensures var at, policies := At(a.it.provider, Prefixed(name)), old(c.w).minio.policies;
              !c.busy && at in policies && policies[at] == PolicyOf(name) ==> c.asked == old(c.asked)
      ensures c.Quiet() ==> ok
      ensures !c.busy ==> Bare(c.w) == Bare(old(c.w)).(minio := c.w.minio) && c.w.minio.buckets == old(c.w).minio.buckets
    {
      var at := At(a.it.provider, Prefixed(name));
      ok := c.Read(AccountWorker);
      FollowsOn(a.key, a.base, old(c.w), c.w);
      if !ok {
        return;
      }
      if at in c.w.minio.policies && c.w.minio.policies[at] == PolicyOf(name) {
        assert c.w.minio.policies == c.w.minio.policies[at := PolicyOf(name)];
        return;
      }
      ok := AddPolicy(a, name);
    }

    method AddPolicy(a: AccountCopy, name: string) returns (ok: bool)
      requires c.Valid() && a.Tracks(c.w) && a.Stands(c.w)
      requires c.w.desk.listed.Some? && Prefixed(name) in NamesOf(c.w.desk.listed.value.buckets)
      modifies c`w, c`trace, c`passed, c`asked
      ensures c.Valid() && a.Tracks(c.w) && a.Stands(c.w) && c.w.desk.listed == old(c.w).desk.listed
      ensures var at := At(a.it.provider, Prefixed(name));
              var m, m' := old(c.w).minio, c.w.minio;
              m' == m.(buckets := m'.buckets, policies := m'.policies) &&
              (m'.policies == m.policies || m'.policies == m.policies[at := PolicyOf(name)]) &&
              (ok ==> m'.policies == m.policies[at := PolicyOf(name)])
      ensures c.Quiet() ==> ok
      ensures !c.busy ==> Bare(c.w) == Bare(old(c.w)).(minio := c.w.minio) && c.w.minio.buckets == old(c.w).minio.buckets
    {
      var reply, mid := c.CallA(AAddPolicy(At(a.it.provider, Prefixed(name)), PolicyOf(name)));
      FollowsOn(a.key, a.base, old(c.w), mid);
      FollowsOn(a.key, a.base, mid, c.w);
      ok := reply.Done?;
    }

    /** The loop over the listed buckets: their policies, and no others, are written. */
    method InstallPolicies(a: AccountCopy, items: seq<Key>) returns (ok: bool, names: seq<string>)
      requires c.Valid() && a.Tracks(c.w) && a.Stands(c.w) && a.HasListed(c.w, ItemSet(items))
      modifies c`w, c`trace, c`passed, c`asked
      ensures c.Valid() && a.Tracks(c.w) && a.Stands(c.w) && a.HasListed(c.w, ItemSet(items))
      ensures Untouched(old(c.w).minio, c.w.minio, a.it.provider, ItemSet(items))
      ensures ok ==> Installed(old(c.w).minio, c.w.minio, a.it.provider, ItemSet(items)) && names == NameList(items)
      ensures c.Quiet() ==> ok
      ensures !c.busy ==> Bare(c.w) == Bare(old(c.w)).(minio := c.w.minio) && c.w.minio.buckets == old(c.w).minio.buckets
    {
      names := [];
      ok := true;
      InstalledNone(c.w.minio, a.it.provider, items);
      for i := 0 to |items|
        invariant c.Valid() && a.Tracks(c.w) && a.Stands(c.w) && a.HasListed(c.w, ItemSet(items))
        invariant names == NameList(items[..i]) && ok
        invariant Installed(old(c.w).minio, c.w.minio, a.it.provider, ItemSet(items[..i]))
        invariant !c.busy ==> Bare(c.w) == Bare(old(c.w)).(minio := c.w.minio) && c.w.minio.buckets == old(c.w).minio.buckets
      {
        ghost var before := c.w.minio;
        assert items[i] in ItemSet(items);
        ok := ReconcilePolicy(a, items[i].name);
        InstalledOneMore(old(c.w).minio, before, c.w.minio, a.it.provider, items, i);
        if !ok {
          return;
        }
        names := names + [Prefixed(items[i].name)];
        NameListSnoc(items, i);
      }
      assert items[..|items|] == items;
      InstalledIsUntouched(old(c.w).minio, c.w.minio, a.it.provider, items);
    }

    /** The user's policies are set to exactly the given names. */
    method AttachPolicies(a: AccountCopy, names: seq<string>) returns (ok: bool)
      requires c.Valid() && a.Tracks(c.w) && a.Stands(c.w)
      requires c.w.desk.listed.Some? && c.w.desk.listed.value.account == a.key
      requires PolicyNames(PolicyText.Join(names)) == NamesOf(c.w.desk.listed.value.buckets)
      modifies c`w, c`trace, c`passed, c`asked
      ensures c.Valid() && a.Tracks(c.w) && a.Stands(c.w) && c.w.desk.listed == old(c.w).desk.listed
      ensures var m, m' := old(c.w).minio, c.w.minio;
              var attached := m.attached[a.User() := PolicyNames(PolicyText.Join(names))];
              m' == m.(buckets := m'.buckets, attached := m'.attached) &&
              (m'.attached == m.attached || m'.attached == attached) && (ok ==> m'.attached == attached)
      ensures c.Quiet() && a.User() in old(c.w).minio.users ==> ok
      ensures !c.busy ==> Bare(c.w) == Bare(old(c.w)).(minio := c.w.minio) && c.w.minio.buckets == old(c.w).minio.buckets
      ensures c.LastAsked(ByAccounts(ASetPolicy(a.key, PolicyText.Join(names))))
    {
      var reply, mid := c.CallA(ASetPolicy(a.key, PolicyText.Join(names)));
      FollowsOn(a.key, a.base, old(c.w), mid);
      FollowsOn(a.key, a.base, mid, c.w);
      ok := reply.Done?;
    }

    /** The DeletionPending mark: set and stored when the account has no bucket,
        lifted and stored when it has one. */
    method ReconcilePending(a: AccountCopy, empty: bool) returns (ok: bool, failed: bool)
      requires c.Valid() && a.Drafts(c.w) && a.Stands(c.w)
      requires a.step.change == Keep && a.step.pending == Same && a.step.saw == Nothing
      requires c.w.desk.listed.Some? && c.w.desk.listed.value.account == a.key && c.w.desk.listed.value.at == c.w.now
      requires empty <==> c.w.desk.listed.value.buckets == {}
      modifies c`w, c`trace, c`passed, c`asked, a`it, a`step, a`base
      ensures c.Valid() && a.Tracks(c.w) && a.Stands(c.w) && a.step.change == Keep
      ensures c.w.desk.listed == old(c.w).desk.listed
      ensures ok ==> !failed && a.step.pending == Same
      ensures a.it.provider == old(a.it.provider)
      ensures c.w.minio == old(c.w).minio.(buckets := c.w.minio.buckets)
      ensures c.Quiet() && old(a.Current(c.w)) ==> !failed
      ensures !c.busy && !failed && old(a.Current(c.w)) && (empty <==> Indexed(Bare(old(c.w)), a.key.name) == {}) ==>
                (Bare(c.w), ok) == PendingStage(Bare(old(c.w)), a.key) && (ok ==> a.Current(c.w))
      ensures !ok && !failed ==> Worked(c.asked, a.key)
    {
      var pending := IsTrue(a.it.status.conditions, DeletionPending);
      var saw := if empty then NoBucket(c.w.now) else SomeBucket(c.w.now);
      var mark := if empty == pending then Same else if empty then Mark else Clear;
      a.Pend(mark, saw, c.w);
      if mark == Same {
        return true, false;
      }
      ok := StorePending(a);
      failed := !ok;
      if empty {
        ok := false;
      }
    }

    method StorePending(a: AccountCopy) returns (ok: bool)
      requires c.Valid() && a.Tracks(c.w) && a.Stands(c.w) && a.step.change == Keep
      modifies c`w, c`trace, c`passed, c`asked, a`it, a`step, a`base
      ensures c.Valid() && a.Tracks(c.w) && a.Stands(c.w) && a.step.change == Keep
      ensures c.w.desk.listed == old(c.w).desk.listed && c.w.minio == old(c.w).minio.(buckets := c.w.minio.buckets)
      ensures a.it.provider == old(a.it.provider) && (ok ==> a.step.pending == Same)
      ensures c.Quiet() && a.key in old(c.w).accounts && old(c.w).accounts[a.key] == old(a.base) ==> ok
      ensures ok && !c.busy ==>
                a.Current(c.w) && Bare(c.w) == Store(Bare(old(c.w)), a.key, old(a.it.status), old(a.step.saw))
      ensures Worked(c.asked, a.key)
    {
      ghost var mid;
      ok, mid := UpdateStatus(a);
    }

    /** r.List by the owner index; the order of the result is anybody's guess. */
    method ListBuckets(a: AccountCopy) returns (ok: bool, items: seq<Key>)
      requires c.Valid() && a.Tracks(c.w) && a.Stands(c.w)
      modifies c`w, c`trace, c`passed
      ensures c.Valid() && a.Drafts(c.w) && a.Stands(c.w) && (!ok ==> a.Tracks(c.w))
      ensures c.w.minio == old(c.w).minio.(buckets := c.w.minio.buckets)
      ensures ok ==> a.HasListed(c.w, ItemSet(items)) && c.w.desk.listed.value.at == c.w.now
      ensures ok ==> ItemSet(items) == Indexed(Bare(c.w), a.key.name)
      ensures ok ==> forall i :: 0 <= i < |items| ==> ValidName(items[i].name)
      ensures (c.Quiet() ==> ok) && (!c.busy ==> Bare(c.w) == Bare(old(c.w)))
    {
      ok := c.Read(AccountWorker);
      FollowsOn(a.key, a.base, old(c.w), c.w);
      items := [];
      if ok {
        items := ListHere(a);
      }
    }

    method ListHere(a: AccountCopy) returns (items: seq<Key>)
      requires c.Valid() && c.w.desk.accountPass
      modifies c`w, c`trace, c`passed
      ensures c.Valid() && c.w == AEffect(AList(a.key), old(c.w))
      ensures ItemSet(items) == Indexed(old(c.w), a.key.name) == Indexed(Bare(old(c.w)), a.key.name)
      ensures forall i :: 0 <= i < |items| ==> ValidName(items[i].name)
    {
      items := Arrange(Indexed(c.w, a.key.name));
      c.Good();
      NamesOfItems(c.w, a.key.name, items);
      BareIndexed(c.w, a.key.name);
      c.Take(ByAccounts(AList(a.key)));
    }

    /** The policies: each listed bucket's policy in place, exactly those attached
        to the user, everything else as it was. What counts as listed is what this
        pass has listed, and no pass starts with a listing. */
    method ReconcilePolicies(a: AccountCopy)
      returns (ok: bool, failed: bool, ghost listed: set<Key>)
      requires c.Valid() && a.Tracks(c.w) && a.Stands(c.w)
      requires a.step.change == Keep && a.step.pending == Same && a.step.saw == Nothing
      modifies c`w, c`trace, c`passed, c`asked, a`it, a`step, a`base
      ensures c.Valid() && a.Tracks(c.w) && a.Stands(c.w) && a.step.change == Keep
      ensures ok ==> !failed && a.step.pending == Same
      ensures ok ==> !old(a.HasListed(c.w, listed)) && a.HasListed(c.w, listed)
      ensures ok ==> PoliciesExact(old(c.w).minio, c.w.minio, old(a.User()), listed)
      ensures PoliciesFramed(old(c.w).minio, c.w.minio, old(a.User()), listed)
      ensures c.Quiet() && old(a.Current(c.w) && a.User() in c.w.minio.users) ==> !failed
      ensures !c.busy && !failed && old(a.Current(c.w)) ==>
                && ok == PendingStage(Bare(old(c.w)), a.key).1
                && Bare(c.w) == PolicyStage(Bare(old(c.w)), a.key)
                && (ok ==> a.Current(c.w) && a.step.saw == Sight(Bare(old(c.w)), a.key))
      ensures !failed ==> Worked(c.asked, a.key)
    {
      var items;
      ghost var user, m0 := a.User(), c.w.minio;
      ok, items := ListBuckets(a);
      listed, failed := ItemSet(items), !ok;
      ghost var m1 := c.w.minio;
      FramedByOthers(m0, m1, m1, user, listed);
      if ok {
        ok, failed := KeepPolicies(a, items);
        ExactAfterOthers(m0, m1, c.w.minio, user, listed);
      }
    }

    /** What follows from the listing: the mark, and the policies. */
    method KeepPolicies(a: AccountCopy, items: seq<Key>) returns (ok: bool, failed: bool)
      requires c.Valid() && a.Drafts(c.w) && a.Stands(c.w)
      requires a.step.change == Keep && a.step.pending == Same && a.step.saw == Nothing
      requires a.HasListed(c.w, ItemSet(items)) && c.w.desk.listed.value.at == c.w.now
      requires forall i :: 0 <= i < |items| ==> ValidName(items[i].name)
      modifies c`w, c`trace, c`passed, c`asked, a`it, a`step, a`base
      ensures c.Valid() && a.Tracks(c.w) && a.Stands(c.w) && a.step.change == Keep
      ensures ok ==> !failed && a.step.pending == Same && a.HasListed(c.w, ItemSet(items))
      ensures ok ==> PoliciesExact(old(c.w).minio, c.w.minio, old(a.User()), ItemSet(items))
      ensures PoliciesFramed(old(c.w).minio, c.w.minio, old(a.User()), ItemSet(items))
      ensures c.Quiet() && old(a.Current(c.w) && a.User() in c.w.minio.users) ==> !failed
      ensures !c.busy && !failed && old(a.Current(c.w)) && ItemSet(items) == Indexed(Bare(old(c.w)), a.key.name) ==>
                && ok == PendingStage(Bare(old(c.w)), a.key).1
                && Bare(c.w) == PolicyStage(Bare(old(c.w)), a.key)
                && (ok ==> a.Current(c.w) && a.step.saw == Sight(Bare(old(c.w)), a.key))
      ensures !failed ==> Worked(c.asked, a.key)
    {
      ghost var user, m0 := a.User(), c.w.minio;
      EmptyItems(items);
      ok, failed := ReconcilePending(a, |items| == 0);
      ghost var m1 := c.w.minio;
      FramedByOthers(m0, m1, m1, user, ItemSet(items));
      if ok {
        ok := WritePolicies(a, items);
        ExactAfterOthers(m0, m1, c.w.minio, user, ItemSet(items));
        failed := !ok;
      }
    }

    method WritePolicies(a: AccountCopy, items: seq<Key>) returns (ok: bool)
      requires c.Valid() && a.Tracks(c.w) && a.Stands(c.w) && a.HasListed(c.w, ItemSet(items))
      requires forall i :: 0 <= i < |items| ==> ValidName(items[i].name)
      modifies c`w, c`trace, c`passed, c`asked
      ensures c.Valid() && a.Tracks(c.w) && a.Stands(c.w) && c.w.desk.listed == old(c.w).desk.listed
      ensures ok ==> PoliciesExact(old(c.w).minio, c.w.minio, a.User(), ItemSet(items))
      ensures PoliciesFramed(old(c.w).minio, c.w.minio, a.User(), ItemSet(items))
      ensures c.Quiet() && a.User() in old(c.w).minio.users ==> ok
      ensures ok && !c.busy ==> Bare(c.w) == WithPolicies(Bare(old(c.w)), a.key, ItemSet(items))
      ensures ok ==> Worked(c.asked, a.key)
    {
      var names;
      ok, names := InstallPolicies(a, items);
      if ok {
        NamesJoined(items);
        ok := AttachPolicies(a, names);
      }
    }

    /** A status change made in memory and stored at once. */
    method Advance(a: AccountCopy, change: Change) returns (ok: bool)
      requires c.Valid() && a.Tracks(c.w) && a.Stands(c.w) && a.step.change == Keep
      requires change == Succeed ==> !IsTrue(a.it.status.conditions, DeletionPending)
      requires change == Erase ==> a.it.deleting
      modifies c`w, c`trace, c`passed, c`asked, a`it, a`step, a`base
      ensures c.Valid() && a.Tracks(c.w) && a.Stands(c.w)
      ensures ok ==> a.step.change == Keep && a.step.pending == Same && a.step.saw == old(a.step.saw)
      ensures ok ==> a.it.provider == old(a.it.provider)
      ensures c.LastAsked(ByAccounts(AStatus(a.key, old(a.it.version), AccountChanged(old(a.it.status), change, old(c.w).now),
                                             old(a.step).(change := change, at := old(c.w).now))))
      ensures ok ==> StatusStored(c.w, a.key, AccountChanged(old(a.it.status), change, old(c.w).now))
      ensures !ok && !c.faulty ==> Outdated(c.w, a.key, old(a.it.version))
      ensures c.Quiet() && old(a.Current(c.w)) ==> ok
      ensures ok && !c.busy && old(a.Current(c.w)) ==>
                && a.Current(c.w)
                && Bare(c.w) == Store(Bare(old(c.w)), a.key, AccountChanged(old(a.it.status), change, old(c.w).now), old(a.step.saw))
    {
      ChangeIsLegal(a.base, a.step, a.it.status, c.w.now, change);
      a.step := a.step.(change := change, at := c.w.now);
      a.it := a.it.(status := AccountChanged(a.it.status, change, c.w.now));
      ghost var mid;
      ok, mid := UpdateStatus(a);
    }

    /** One reading call that a.Tracks survives. */
    method Look(a: AccountCopy) returns (ok: bool)
      requires c.Valid() && a.Tracks(c.w) && a.Stands(c.w)
      modifies c`w, c`trace, c`passed
      ensures c.Valid() && a.Tracks(c.w) && a.Stands(c.w) && AccountsLeftAlone(old(c.w), c.w)
      ensures c.w.past.accountProviders <= c.w.providers.Keys
      ensures (!c.faulty ==> ok) && (!c.busy ==> Bare(c.w) == Bare(old(c.w)))
    {
      ok := c.Read(AccountWorker);
      FollowsOn(a.key, a.base, old(c.w), c.w);
      c.Good();
    }

    method RemoveUser(a: AccountCopy) returns (ok: bool)
      requires c.Valid() && a.Tracks(c.w) && a.Stands(c.w) && !HasOwnSecret(c.w, a.key)
      modifies c`w, c`trace, c`passed, c`asked
      ensures c.Valid() && a.Tracks(c.w) && a.Stands(c.w)
      ensures ok ==> a.User() !in c.w.minio.users
      ensures (!c.faulty ==> ok) && (c.Smooth(ok) ==> Bare(c.w) == WithoutUser(Bare(old(c.w)), a.key))
    {
      var reply, mid := c.CallA(ARemoveUser(a.key));
      FollowsOn(a.key, a.base, old(c.w), mid);
      FollowsOn(a.key, a.base, mid, c.w);
      ok := !reply.Fault?;
    }

    /** reconcileDeletion: the Deleting mark first, in a pass of its own; then the
        secret, then the user. It reports success only when the user is gone or
        the provider is missing. */
    method ReconcileDeletion(a: AccountCopy) returns (ok: bool, failed: bool)
      requires c.Valid() && a.Tracks(c.w) && a.Stands(c.w) && a.it.deleting && a.step.change == Keep
      requires a.step.saw == Nothing
      modifies c`w, c`trace, c`passed, c`asked, a`it, a`step, a`base
      ensures c.Valid()
      ensures ok ==> !failed && a.Tracks(c.w) && a.Stands(c.w) && a.it.deleting
      ensures ok ==> a.User() !in c.w.minio.users || a.it.provider !in c.w.past.accountProviders
      ensures c.Quiet() && old(a.Current(c.w)) ==> !failed
      ensures !c.busy && !failed && old(a.Current(c.w)) ==>
                (ok <==> IsTrue(old(a.it.status.conditions), Deleting))
      ensures !c.busy && old(a.Current(c.w)) && ok ==>
                && a.it == old(a.it) && a.base == old(a.base)
                && Bare(c.w) == if a.it.provider !in old(c.w).providers then Bare(old(c.w))
                          else WithoutUser(WithoutSecret(Bare(old(c.w)), a.key), a.key)
      ensures !c.busy && !failed && old(a.Current(c.w)) && !ok ==>
                Bare(c.w) == Store(Bare(old(c.w)), a.key, AccountChanged(old(a.it.status), Erase, old(c.w).now), Nothing)
      ensures !ok && !failed ==> Worked(c.asked, a.key)
    {
      if !IsTrue(a.it.status.conditions, Deleting) {
        ok := Advance(a, Erase);
        return false, !ok;
      }
      ok := Look(a);
      if !ok {
        return false, true;
      }
      if a.it.provider !in c.w.providers {
        return true, false;
      }
      ok := Look(a); // newClient reads the provider's secrets
      if !ok {
        return false, true;
      }
      var reply := DeleteSecret(a);
      if reply.Fault? {
        return false, true;
      }
      ok := RemoveUser(a);
      failed := !ok;
    }

    /** The finalizer removed: the object goes. */
    method Release(a: AccountCopy) returns (failed: bool)
      requires c.Valid() && a.Tracks(c.w) && a.Stands(c.w) && a.it.deleting
      requires a.User() !in c.w.minio.users || a.it.provider !in c.w.past.accountProviders
      modifies c`w, c`trace, c`passed, c`asked
      ensures c.Valid()
      ensures c.Quiet() && old(a.Current(c.w)) ==> !failed
      ensures !c.busy && !failed && old(a.Current(c.w)) ==> Bare(c.w) == Dropped(Bare(old(c.w)), a.key)
      ensures Worked(c.asked, a.key)
    {
      var reply, mid := c.CallA(ARelease(a.key, a.it.version));
      failed := !reply.Done? && !(reply.Refused? && a.key !in c.w.accounts);
    }

    /** The stages of a live account, each of which may end the pass. */
    method ReconcileStages(a: AccountCopy) returns (failed: bool)
      requires c.Valid() && a.Tracks(c.w) && a.Stands(c.w)
      requires a.step.change == Keep && a.step.pending == Same && a.step.saw == Nothing
      modifies c`w, c`trace, c`passed, c`asked, a`it, a`step, a`base
      ensures c.Valid()
      ensures failed ==> ReportsTo(c.asked, a.key)
      ensures c.Quiet() && old(a.Current(c.w) && a.User() in c.w.minio.users) ==> !failed
      ensures !c.busy && !failed && old(a.Current(c.w)) && SaKey(a.key) in old(c.w).secrets ==>
                Bare(c.w) == LateStages(Bare(old(c.w)), a.key)
      ensures !c.busy && !failed && old(a.Current(c.w)) && SaKey(a.key) !in old(c.w).secrets ==>
                Bare(c.w) == WithKey(Bare(old(c.w)), a.key)
      ensures !failed ==> Worked(c.asked, a.key)
    {
      var ok;
      ok, failed := ReconcileServiceAccount(a);
      if !ok {
        if failed {
          Fail(a);
        }
        return;
      }
      failed := ReconcileLate(a);
    }

    /** The stages from the policies on. */
    method ReconcileLate(a: AccountCopy) returns (failed: bool)
      requires c.Valid() && a.Tracks(c.w) && a.Stands(c.w)
      requires a.step.change == Keep && a.step.pending == Same && a.step.saw == Nothing
      modifies c`w, c`trace, c`passed, c`asked, a`it, a`step, a`base
      ensures c.Valid()
      ensures failed ==> ReportsTo(c.asked, a.key)
      ensures c.Quiet() && old(a.Current(c.w) && a.User() in c.w.minio.users) ==> !failed
      ensures !c.busy && !failed && old(a.Current(c.w)) ==> Bare(c.w) == LateStages(Bare(old(c.w)), a.key)
      ensures !failed ==> Worked(c.asked, a.key)
    {
      var ok;
      ghost var listed;
      ok, failed, listed := ReconcilePolicies(a);
      if !ok {
        if failed {
          Fail(a);
        }
        return;
      }
      if !IsTrue(a.it.status.conditions, Ready) && !IsTrue(a.it.status.conditions, DeletionPending) {
        ok := Advance(a, Succeed);
        failed := !ok;
      }
    }

    method ReconcileLive(a: AccountCopy) returns (failed: bool)
      requires c.Valid() && a.Tracks(c.w) && a.Stands(c.w)
      requires a.step.change == Keep && a.step.pending == Same && a.step.saw == Nothing
      modifies c`w, c`trace, c`passed, c`asked, a`it, a`step, a`base
      ensures c.Valid()
      ensures c.Smooth(!failed) && old(a.Current(c.w)) ==> Bare(c.w) == LivePass(Bare(old(c.w)), a.key)
      ensures !failed ==> Worked(c.asked, a.key)
    {
      var ok := true;
      if a.it.status.conditions == [] {
        ok := Advance(a, Create);
        if !ok {
          return true;
        }
      }
      failed := ReconcileStarted(a);
    }

    /** The pass once the status is no longer empty. */
    method ReconcileStarted(a: AccountCopy) returns (failed: bool)
      requires c.Valid() && a.Tracks(c.w) && a.Stands(c.w)
      requires a.step.change == Keep && a.step.pending == Same && a.step.saw == Nothing
      modifies c`w, c`trace, c`passed, c`asked, a`it, a`step, a`base
      ensures c.Valid()
      ensures failed && !c.faulty ==> ReportsTo(c.asked, a.key)
      ensures c.Smooth(!failed) && old(a.Current(c.w)) ==>
                var w, s := Bare(old(c.w)), old(a.it.status);
                Bare(c.w) == if old(a.it.provider) in w.providers then LiveStages(w, a.key)
                             else Store(w, a.key, AccountChanged(s, Change.Fail, w.now), Nothing)
      ensures !failed ==> Worked(c.asked, a.key)
    {
      var ok := Look(a);
      if !ok {
        return true;
      }
      if a.it.provider !in c.w.providers {
        Fail(a);
        return true;
      }
      failed := ReconcileProvided(a);
    }

    /** The rest of the pass, once the provider has been found. */
    method ReconcileProvided(a: AccountCopy) returns (failed: bool)
      requires c.Valid() && a.Tracks(c.w) && a.Stands(c.w)
      requires a.step.change == Keep && a.step.pending == Same && a.step.saw == Nothing
      modifies c`w, c`trace, c`passed, c`asked, a`it, a`step, a`base
      ensures c.Valid()
      ensures c.Smooth(!failed) && old(a.Current(c.w)) ==> Bare(c.w) == LiveStages(Bare(old(c.w)), a.key)
      ensures failed ==> ReportsTo(c.asked, a.key)
      ensures !failed ==> Worked(c.asked, a.key)
    {
      var ok := Look(a); // newClient reads the provider's secrets
      if ok {
        ok := ReconcileUser(a);
      }
      if !ok {
        Fail(a);
        return true;
      }
      failed := ReconcileStages(a);
    }

    /** The part of a pass that has the account in hand. */
    method ReconcileCopy(a: AccountCopy) returns (failed: bool)
      requires c.Valid() && a.Tracks(c.w) && (a.it.deleting || a.it.finalizer ==> a.Stands(c.w))
      requires a.step.change == Keep && a.step.pending == Same && a.step.saw == Nothing
      modifies c`w, c`trace, c`passed, c`asked, a`it, a`step, a`base
      ensures c.Valid()
      ensures c.Smooth(!failed) && old(a.Current(c.w)) ==> Bare(c.w) == CopyPass(Bare(old(c.w)), a.key)
      ensures !failed ==> Worked(c.asked, a.key)
    {
      if a.it.deleting {
        failed := ReconcileDeleted(a);
      } else if !a.it.finalizer {
        failed := Finalize(a);
      } else {
        failed := ReconcileLive(a);
      }
    }

    method ReconcileDeleted(a: AccountCopy) returns (failed: bool)
      requires c.Valid() && a.Tracks(c.w) && a.Stands(c.w) && a.it.deleting
      requires a.step.change == Keep && a.step.saw == Nothing
      modifies c`w, c`trace, c`passed, c`asked, a`it, a`step, a`base
      ensures c.Valid()
      ensures c.Smooth(!failed) && old(a.Current(c.w)) ==> Bare(c.w) == DeletionPass(Bare(old(c.w)), a.key)
      ensures !failed ==> Worked(c.asked, a.key)
    {
      var ok;
      ok, failed := ReconcileDeletion(a);
      if ok {
        failed := Release(a);
      }
    }

    method Finalize(a: AccountCopy) returns (failed: bool)
      requires c.Valid() && a.Tracks(c.w)
      modifies c`w, c`trace, c`passed, c`asked
      ensures c.Valid()
      ensures c.Smooth(!failed) && old(a.Current(c.w)) ==>
                Bare(c.w) == Finalized(Bare(old(c.w)), a.key)
      ensures Worked(c.asked, a.key)
    {
      if a.key in c.w.accounts {
        FinalizedBare(c.w, a.key);
      }
      var reply, mid := c.CallA(AFinalize(a.key, a.it.version));
      failed := !reply.Done?;
    }

    method Begin() returns (ok: bool)
      requires c.Valid()
      modifies c`w, c`trace, c`passed
      ensures c.Valid() && c.w.desk.accountPass && c.w.desk.listed == None
      ensures Numbered(c.w) && DeletionHeld(c.w)
      ensures (c.Quiet() ==> ok) && (!c.busy ==> c.w == AEffect(ABegin, old(c.w)))
    {
      c.Take(ByAccounts(ABegin));
      ok := c.Read(AccountWorker);
      c.Good();
    }

    /** One pass of the account controller. Whatever the others do and whichever
        calls fail, all it does is a run of enabled steps; undisturbed, it is
        exactly AccountPass. */
    method Reconcile(key: Key) returns (failed: bool)
      requires c.Valid()
      modifies c`w, c`trace, c`passed, c`asked
      ensures c.Valid()
      ensures c.Smooth(!failed) ==> Bare(c.w) == AccountPass(Bare(old(c.w)), key)
      ensures !failed ==> key !in c.w.accounts || Worked(c.asked, key)
    {
      PassBegins(c.w, key);
      var ok := Begin();
      if !ok || key !in c.w.accounts {
        return !ok;
      }
      var a := new AccountCopy(key, c.w.accounts[key]);
      UnchangedIsLegal(a.it, a.it, a.step, a.it.status, c.w.now, c.w.now);
      failed := ReconcileCopy(a);
    }
  }

  lemma StoredBare(mid: World, k: Key, it: Account, saw: Saw, w: World)
    requires Stored(mid, k, it, saw, w)
    ensures Stored(Bare(mid), k, it, saw, Bare(w))
  {
  }

  lemma PutSecretBare(w: World, k: Key, s: Secret)
    ensures Bare(PutSecret(w, k, s)) == PutSecret(Bare(w), k, s)
  {
  }

  lemma FinalizedBare(w: World, k: Key)
    requires k in w.accounts
    ensures Bare(Finalized(w, k)) == Finalized(Bare(w), k)
  {
  }

  lemma KeyAdded(w: World, k: Key)
    requires AGuard(AAddKey(k), w) && AAccepts(AAddKey(k), w)
    ensures var u := UserOf(k, w.accounts[k].provider);
            var w' := AEffect(AAddKey(k), w);
            && w' == w.(serial := w.serial + 1, minio := w.minio.(keys := w.minio.keys[Live(u.provider, w.serial) := u.name]))
            && u in w'.minio.users
  {
  }

  lemma PassBegins(w: World, k: Key)
    ensures var w1 := AEffect(ABegin, w);
            AccountPass(Bare(w), k) == if k in w1.accounts then CopyPass(Bare(w1), k) else Bare(w1)
  {
  }

  lemma BareIndexed(w: World, account: string)
    ensures Indexed(Bare(w), account) == Indexed(w, account)
  {
  }

  lemma ChangeIsLegal(base: Account, step: AccountStep, status: AccountStatus, now: nat, change: Change)
    requires LegalAccountStep(base, step, status, now) && step.change == Keep
    requires change == Succeed ==> !IsTrue(status.conditions, DeletionPending)
    requires change == Erase ==> base.deleting
    ensures LegalAccountStep(base, step.(change := change, at := now), AccountChanged(status, change, now), now)
  {
  }

  /** These buckets' policies and no others written, exactly they attached to the user. */
  ghost predicate PoliciesExact(m: Minio, m': Minio, user: Loc, listed: set<Key>) {
    m' == m.(buckets := m'.buckets,
             policies := m.policies + Documents(user.provider, listed),
             attached := m.attached[user := NamesOf(listed)])
  }

  /** Whatever happened, users and keys, other users' attachments and other
      buckets' policies are as they were. */
  ghost predicate PoliciesFramed(m: Minio, m': Minio, user: Loc, listed: set<Key>) {
    && m' == m.(buckets := m'.buckets, policies := m'.policies, attached := m'.attached)
    && PoliciesUntouchedBut(m.policies, m'.policies, PolicyLocs(user.provider, listed))
    && (m'.attached == m.attached || m'.attached == m.attached[user := NamesOf(listed)])
  }

  /** In particular: every listed bucket's document is its policy, the user's set
      is exactly the listed names, and no other policy or user is touched. */
  lemma ExactMeans(m: Minio, m': Minio, user: Loc, listed: set<Key>)
    requires PoliciesExact(m, m', user, listed)
    ensures forall k :: k in listed ==>
              At(user.provider, Prefixed(k.name)) in m'.policies &&
              m'.policies[At(user.provider, Prefixed(k.name))] == PolicyOf(k.name)
    ensures user in m'.attached && forall n :: n in m'.attached[user] <==> exists k :: k in listed && n == Prefixed(k.name)
    ensures forall u :: u != user ==> (u in m'.attached <==> u in m.attached) &&
                                      (u in m.attached ==> m'.attached[u] == m.attached[u])
    ensures forall at :: (forall k :: k in listed ==> at != At(user.provider, Prefixed(k.name))) ==>
              (at in m'.policies <==> at in m.policies) && (at in m.policies ==> m'.policies[at] == m.policies[at])
    ensures m'.users == m.users && m'.keys == m.keys
  {
    forall k | k in listed
      ensures At(user.provider, Prefixed(k.name)) in m'.policies
      ensures m'.policies[At(user.provider, Prefixed(k.name))] == PolicyOf(k.name)
    {
      UnprefixedIsInverse(k.name);
      assert At(user.provider, Prefixed(k.name)) in PolicyLocs(user.provider, listed);
    }
  }

  lemma FramedByOthers(m: Minio, m1: Minio, m2: Minio, user: Loc, listed: set<Key>)
    requires m1 == m.(buckets := m1.buckets) && m2 == m1.(buckets := m2.buckets)
    ensures PoliciesFramed(m, m2, user, listed)
  {
  }

  lemma ExactAfterOthers(m: Minio, m1: Minio, m2: Minio, user: Loc, listed: set<Key>)
    requires m1 == m.(buckets := m1.buckets)
    ensures PoliciesExact(m1, m2, user, listed) ==> PoliciesExact(m, m2, user, listed)
    ensures PoliciesFramed(m1, m2, user, listed) ==> PoliciesFramed(m, m2, user, listed)
  {
  }

  lemma NamesOfItems(w: World, account: string, items: seq<Key>)
    requires Inv(w) && ItemSet(items) == Indexed(w, account)
    ensures forall i :: 0 <= i < |items| ==> ValidName(items[i].name)
  {
    forall i | 0 <= i < |items|
      ensures ValidName(items[i].name)
    {
      assert items[i] in ItemSet(items);
    }
  }

  function Members(names: seq<string>): set<string> {
    set i | 0 <= i < |names| :: names[i]
  }

  lemma MembersOfNameList(items: seq<Key>)
    ensures Members(NameList(items)) == NamesOf(ItemSet(items))
  {
    var names := NameList(items);
    NameListAt(items);
    forall n | n in NamesOf(ItemSet(items))
      ensures n in Members(names)
    {
      var k :| k in ItemSet(items) && n == Prefixed(k.name);
      var i :| 0 <= i < |items| && items[i] == k;
      assert names[i] == n;
    }
    forall n | n in Members(names)
      ensures n in NamesOf(ItemSet(items))
    {
      var i :| 0 <= i < |names| && names[i] == n;
      assert items[i] in ItemSet(items);
    }
  }

  lemma PrefixedHasNoComma(name: string)
    requires ValidName(name)
    ensures ',' !in Prefixed(name) && Prefixed(name) != ""
  {
    assert ',' !in PREFIX;
  }

  lemma JoinIsNotEmpty(names: seq<string>)
    requires names != [] && names[0] != ""
    ensures PolicyText.Join(names) != ""
  {
    assert |PolicyText.Join(names)| >= |names[0]|;
  }

  /** MinIO reads the joined names back as exactly the listed buckets' policies. */
  lemma NamesJoined(items: seq<Key>)
    requires forall i :: 0 <= i < |items| ==> ValidName(items[i].name)
    ensures PolicyNames(PolicyText.Join(NameList(items))) == NamesOf(ItemSet(items))
  {
    var names := NameList(items);
    NameListAt(items);
    MembersOfNameList(items);
    if items != [] {
      forall i | 0 <= i < |names|
        ensures ',' !in names[i] && names[i] != ""
      {
        PrefixedHasNoComma(items[i].name);
      }
      PolicyText.SplitJoin(names);
      JoinIsNotEmpty(names);
      assert PolicyNames(PolicyText.Join(names)) == Members(names);
    }
  }

  lemma {:induction false} NameListAt(items: seq<Key>)
    ensures |NameList(items)| == |items|
    ensures forall i :: 0 <= i < |items| ==> NameList(items)[i] == Prefixed(items[i].name)
  {
    if items != [] {
      NameListAt(items[..|items| - 1]);
    }
  }

  lemma PendingIsLegal(base: Account, step: AccountStep, status: AccountStatus, now: nat, mark: Pending, saw: Saw)
    requires LegalAccountStep(base, step, status, now)
    requires step.change == Keep && step.pending == Same && step.saw == Nothing
    requires saw == NoBucket(now) || saw == SomeBucket(now)
    requires mark == if saw.NoBucket? == IsTrue(status.conditions, DeletionPending) then Same
                     else if saw.NoBucket? then Mark else Clear
    ensures LegalAccountStep(base, step.(pending := mark, saw := saw), Pended(status, mark, saw), now)
  {
  }

  /** The policies of exactly these buckets have been written; users, keys and
      attachments are as they were. */
  ghost predicate Installed(m: Minio, m': Minio, provider: string, buckets: set<Key>) {
    m' == m.(buckets := m'.buckets, policies := m.policies + Documents(provider, buckets))
  }

  /** At most the policies of these buckets have been written. */
  ghost predicate Untouched(m: Minio, m': Minio, provider: string, buckets: set<Key>) {
    && m' == m.(buckets := m'.buckets, policies := m'.policies)
    && PoliciesUntouchedBut(m.policies, m'.policies, PolicyLocs(provider, buckets))
  }

  function NameList(items: seq<Key>): seq<string> {
    if items == [] then [] else NameList(items[..|items| - 1]) + [Prefixed(items[|items| - 1].name)]
  }

  lemma NameListSnoc(items: seq<Key>, i: nat)
    requires i < |items|
    ensures NameList(items[..i + 1]) == NameList(items[..i]) + [Prefixed(items[i].name)]
  {
    assert items[..i + 1][..i] == items[..i];
  }

  lemma InstalledNone(m: Minio, provider: string, items: seq<Key>)
    ensures Installed(m, m, provider, ItemSet(items[..0]))
  {
    DocumentsOfNone(provider, items);
    assert m.policies + map[] == m.policies;
  }

  lemma InstalledOneMore(m: Minio, before: Minio, after: Minio, provider: string, items: seq<Key>, i: nat)
    requires i < |items| && Installed(m, before, provider, ItemSet(items[..i]))
    requires after == before.(buckets := after.buckets, policies := after.policies)
    requires after.policies == before.policies ||
             after.policies == before.policies[At(provider, Prefixed(items[i].name)) := PolicyOf(items[i].name)]
    ensures Untouched(m, after, provider, ItemSet(items))
    ensures after.policies == before.policies[At(provider, Prefixed(items[i].name)) := PolicyOf(items[i].name)] ==>
              Installed(m, after, provider, ItemSet(items[..i + 1]))
  {
    DocumentsOfOneMore(provider, items, i, m.policies, before.policies);
    UntouchedByPrefix(provider, items, i, m.policies, before.policies, after.policies);
  }

  lemma InstalledIsUntouched(m: Minio, m': Minio, provider: string, items: seq<Key>)
    requires Installed(m, m', provider, ItemSet(items))
    ensures Untouched(m, m', provider, ItemSet(items))
  {
  }

  /** Two policy stores that agree everywhere outside `locs`. */
  ghost predicate PoliciesUntouchedBut(p: map<Loc, Document>, p': map<Loc, Document>, locs: set<Loc>) {
    forall l :: l !in locs ==> (l in p <==> l in p') && (l in p ==> p[l] == p'[l])
  }

  lemma UnprefixedIsInverse(name: string)
    ensures Unprefixed(Prefixed(name)) == name
  {
  }

  lemma DocumentsOfNone(provider: string, items: seq<Key>)
    ensures ItemSet(items[..0]) == {} && Documents(provider, {}) == map[]
  {
  }

  lemma LocsOfOneMore(provider: string, items: seq<Key>, i: nat)
    requires i < |items|
    ensures PolicyLocs(provider, ItemSet(items[..i + 1])) ==
            PolicyLocs(provider, ItemSet(items[..i])) + {At(provider, Prefixed(items[i].name))}
  {
    assert ItemSet(items[..i + 1]) == ItemSet(items[..i]) + {items[i]} by {
      assert items[..i + 1] == items[..i] + [items[i]];
    }
  }

  lemma DocumentsOfOneMore(provider: string, items: seq<Key>, i: nat, p: map<Loc, Document>, before: map<Loc, Document>)
    requires i < |items| && before == p + Documents(provider, ItemSet(items[..i]))
    ensures before[At(provider, Prefixed(items[i].name)) := PolicyOf(items[i].name)] ==
            p + Documents(provider, ItemSet(items[..i + 1]))
  {
    var at := At(provider, Prefixed(items[i].name));
    UnprefixedIsInverse(items[i].name);
    LocsOfOneMore(provider, items, i);
    assert Documents(provider, ItemSet(items[..i + 1])) ==
           Documents(provider, ItemSet(items[..i]))[at := PolicyOf(items[i].name)];
  }

  lemma UntouchedByPrefix(provider: string, items: seq<Key>, i: nat, p: map<Loc, Document>, before: map<Loc, Document>,
                          after: map<Loc, Document>)
    requires i < |items| && before == p + Documents(provider, ItemSet(items[..i]))
    requires after == before || after == before[At(provider, Prefixed(items[i].name)) := PolicyOf(items[i].name)]
    ensures PoliciesUntouchedBut(p, after, PolicyLocs(provider, ItemSet(items)))
  {
    assert ItemSet(items[..i]) <= ItemSet(items) && items[i] in ItemSet(items);
    assert PolicyLocs(provider, ItemSet(items[..i])) <= PolicyLocs(provider, ItemSet(items));
    assert At(provider, Prefixed(items[i].name)) in PolicyLocs(provider, ItemSet(items));
  }

  lemma SecretNameIsLegal(base: Account, step: AccountStep, status: AccountStatus, now: nat, name: Option<string>)
    requires LegalAccountStep(base, step, status, now)
    ensures LegalAccountStep(base, step.(secretName := name), status.(secretName := name), now)
  {
  }

  lemma KeysOfSame(m: Minio, m': Minio, user: Loc)
    requires m.keys == m'.keys
    ensures KeysOf(m, user) == KeysOf(m', user)
  {
  }

  lemma KeysOfAdd(m: Minio, user: Loc, n: nat, m': Minio)
    requires KeysOf(m, user) == {} && m'.keys == m.keys[Live(user.provider, n) := user.name]
    ensures KeysOf(m', user) == {n}
  {
    forall i: nat
      ensures i in KeysOf(m', user) <==> i == n
    {
      KeysOfMember(m, user, i);
      KeysOfMember(m', user, i);
    }
  }

  lemma KeysOfMember(m: Minio, user: Loc, n: nat)
    ensures n in KeysOf(m, user) <==> Live(user.provider, n) in m.keys && m.keys[Live(user.provider, n)] == user.name
  {
    if n in KeysOf(m, user) {
      var l :| l in m.keys && l.provider == user.provider && m.keys[l] == user.name && l.serial == n;
      assert l == Live(user.provider, n);
    }
  }

  lemma KeysOfDrop(m: Minio, user: Loc, n: nat, m': Minio)
    requires m'.keys == m.keys - {Live(user.provider, n)}
    ensures KeysOf(m', user) == KeysOf(m, user) - {n}
  {
    forall i: nat
      ensures i in KeysOf(m', user) <==> i in KeysOf(m, user) - {n}
    {
      KeysOfMember(m, user, i);
      KeysOfMember(m', user, i);
    }
  }

  /** `w` is `w0` less the user's keys that are not in `todo` any more. */
  ghost predicate Purged(w0: World, user: Loc, todo: set<nat>, w: World) {
    && w == w0.(minio := w0.minio.(keys := w.minio.keys))
    && (forall l :: l in w.minio.keys ==> l in w0.minio.keys && w.minio.keys[l] == w0.minio.keys[l])
    && (forall l :: l in w0.minio.keys ==>
          (l !in w.minio.keys <==>
             l.provider == user.provider && w0.minio.keys[l] == user.name && l.serial !in todo))
  }

  lemma PurgedStep(w0: World, user: Loc, todo: set<nat>, n: nat, w: World, w': World)
    requires Purged(w0, user, todo, w) && n in todo && n in KeysOf(w.minio, user)
    requires w' == w.(minio := w.minio.(keys := w.minio.keys - {Live(user.provider, n)}))
    ensures Purged(w0, user, todo - {n}, w')
  {
    KeysOfMember(w.minio, user, n);
  }

  lemma PurgedAll(w0: World, user: Loc, w: World)
    requires Purged(w0, user, {}, w)
    ensures w == w0.(minio := w0.minio.(keys := RemoveKeysOf(w0.minio.keys, user)))
  {
    assert w.minio.keys == RemoveKeysOf(w0.minio.keys, user);
  }

  /** The stored object is what was read as long as its version is. */
  ghost predicate Follows(k: Key, base: Account, w: World) {
    && base.version <= w.tick
    && (k in w.accounts && w.accounts[k].version == base.version ==> w.accounts[k] == base)
  }

  lemma FollowsOn(k: Key, base: Account, w: World, w': World)
    requires Follows(k, base, w) && Newer(w, w')
    ensures Follows(k, base, w')
  {
  }

  lemma UnchangedIsLegal(a: Account, base: Account, step: AccountStep, status: AccountStatus, then_: nat, now: nat)
    requires LegalAccountStep(base, step, status, then_) && then_ <= now && a.status == status
    ensures LegalAccountStep(a, AccountStep(a.status.secretName, Same, Keep, 0, step.saw), a.status, now)
  {
  }

  ghost predicate Stored(mid: World, k: Key, it: Account, saw: Saw, w: World) {
    k in mid.accounts && mid.accounts[k].version == it.version && w == Store(mid, k, it.status, saw)
  }
}
