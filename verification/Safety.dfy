/** What holds over whole runs: any interleaving of the controllers, the
    collector and outsiders, with calls failing at will. */
module Safety {
  import opened Wrappers
  import opened Owners
  import opened Conditions
  import opened Worlds
  import opened Actions
  import opened Invariants

  /** A run that starts before anything was stored. */
  ghost predicate FullRun(worlds: seq<World>, acts: seq<Action>) {
    Run(worlds, acts) && Empty(worlds[0])
  }

  lemma Reachable(worlds: seq<World>, acts: seq<Action>, i: nat)
    requires FullRun(worlds, acts) && i <= |acts|
    ensures Inv(worlds[i])
  {
    EmptyIsGood(worlds[0]);
    RunKeepsInv(worlds, acts, i);
  }

  lemma StepAt(worlds: seq<World>, acts: seq<Action>, i: nat)
    requires Run(worlds, acts) && i < |acts|
    ensures Enabled(acts[i], worlds[i]) && worlds[i + 1] == Effect(acts[i], worlds[i])
  {
    assert Leads(worlds, acts, i);
  }

  // ---------------------------------------------------------------- credentials

  /** Whenever an account's own credentials secret exists, its user exists and
      the secret's access key is that user's one and only live key. */
  lemma CredentialsAgree(worlds: seq<World>, acts: seq<Action>, i: nat, k: Key)
    requires FullRun(worlds, acts) && i <= |acts| && HasOwnSecret(worlds[i], k)
    ensures var w := worlds[i];
            var user := UserOf(k, w.accounts[k].provider);
            var data := w.secrets[SaKey(k)].data;
            && user in w.minio.users
            && data.Keys == {MINIO_ACCESS_KEY, MINIO_SECRET_KEY}
            && data[MINIO_ACCESS_KEY].AccessKey?
            && data[MINIO_SECRET_KEY] == SecretKey(data[MINIO_ACCESS_KEY].serial)
            && KeysOf(w.minio, user) == {data[MINIO_ACCESS_KEY].serial}
  {
    Reachable(worlds, acts, i);
    var w := worlds[i];
    assert Agrees(w, k);
    var serial :| SoleKey(w.minio, UserOf(k, w.accounts[k].provider), serial) &&
      w.secrets[SaKey(k)].data == map[MINIO_ACCESS_KEY := AccessKey(serial), MINIO_SECRET_KEY := SecretKey(serial)];
    assert w.secrets[SaKey(k)].data.Keys == {MINIO_ACCESS_KEY, MINIO_SECRET_KEY};
  }

  /** The account's name on the secret is not enough: anyone may store a secret
      of that name first, and then nothing has to agree. */
  lemma NameAloneDoesNotAgree(w: World, k: Key, provider: string) returns (worlds: seq<World>, acts: seq<Action>)
    requires Empty(w)
    ensures FullRun(worlds, acts) && worlds[0] == w
    ensures var end := worlds[|acts|];
            && k in end.accounts && SaKey(k) in end.secrets && !HasOwnSecret(end, k)
            && UserOf(k, end.accounts[k].provider) !in end.minio.users
  {
    var a0 := ByOutside(ECreateAccount(k, provider));
    var w1 := Effect(a0, w);
    var a1 := ByOutside(EPutSecret(SaKey(k), Secret(0, [], map[])));
    assert ControllerOf([]) == None;
    var w2 := Effect(a1, w1);
    worlds, acts := [w, w1, w2], [a0, a1];
    assert Leads(worlds, acts, 0) && Leads(worlds, acts, 1);
  }

  // ---------------------------------------------------------------- nothing leaks

  /** The release of an account whose user still exists, in a pass that began with step b. */
  ghost predicate LeavesBehind(worlds: seq<World>, acts: seq<Action>, b: nat, n: nat, user: Loc)
    requires n < |acts| && n < |worlds|
  {
    && acts[n].ByAccounts? && acts[n].a.ARelease? && acts[n].a.key in worlds[n].accounts
    && UserOf(acts[n].a.key, worlds[n].accounts[acts[n].a.key].provider) == user && user in worlds[n].minio.users
    && AccountPassFrom(acts, b, n)
  }

  /** Every MinIO user answers to a stored account that carries the finalizer, or
      was left behind by a release whose pass had met a world without its provider. */
  lemma NoUserLeaks(worlds: seq<World>, acts: seq<Action>, i: nat, user: Loc)
    requires FullRun(worlds, acts) && i <= |acts| && user in worlds[i].minio.users
    ensures Covered(worlds[i], user) ||
            exists b: nat, n: nat, m: nat ::
              n < i && LeavesBehind(worlds, acts, b, n, user) && b <= m <= n && user.provider !in worlds[m].providers
  {
    Reachable(worlds, acts, i);
    if user in worlds[i].past.abandoned {
      var n, b := AbandonedByRelease(worlds, acts, i, user);
      StepAt(worlds, acts, n);
      ProviderWasMissing(worlds, acts, b, n, user.provider);
    }
  }

  lemma {:induction false} AbandonedByRelease(worlds: seq<World>, acts: seq<Action>, i: nat, user: Loc)
    returns (n: nat, b: nat)
    requires FullRun(worlds, acts) && i <= |acts| && user in worlds[i].past.abandoned
    ensures n < i && LeavesBehind(worlds, acts, b, n, user)
  {
    StepAt(worlds, acts, i - 1);
    if user in worlds[i - 1].past.abandoned {
      n, b := AbandonedByRelease(worlds, acts, i - 1, user);
    } else {
      AbandonMoves(acts[i - 1], worlds[i - 1], user);
      n := i - 1;
      b := PassBegan(worlds, acts, n);
    }
  }

  /** Step b opens a pass of the account controller and no other one begins before step i. */
  ghost predicate AccountPassFrom(acts: seq<Action>, b: nat, i: nat) {
    && b < i <= |acts| && acts[b] == ByAccounts(ABegin)
    && forall n :: b < n < i ==> acts[n] != ByAccounts(ABegin)
  }

  ghost predicate BucketPassFrom(acts: seq<Action>, b: nat, i: nat) {
    && b < i <= |acts| && acts[b] == ByBuckets(BBegin)
    && forall n :: b < n < i ==> acts[n] != ByBuckets(BBegin)
  }

  lemma AccountPassMoves(act: Action, w: World)
    requires Enabled(act, w) && act != ByAccounts(ABegin)
    ensures Effect(act, w).desk.accountPass == w.desk.accountPass
  {
    match act
    case ByAccounts(a) =>
    case ByBuckets(b) =>
    case ByCollector(g) =>
    case ByOutside(e) =>
  }

  lemma BucketPassMoves(act: Action, w: World)
    requires Enabled(act, w) && act != ByBuckets(BBegin)
    ensures Effect(act, w).desk.bucketPass == w.desk.bucketPass
  {
    match act
    case ByAccounts(a) =>
    case ByBuckets(b) =>
    case ByCollector(g) =>
    case ByOutside(e) =>
  }

  /** A controller makes calls only in a pass that has begun. */
  lemma {:induction false} PassBegan(worlds: seq<World>, acts: seq<Action>, i: nat) returns (b: nat)
    requires FullRun(worlds, acts) && i <= |acts| && worlds[i].desk.accountPass
    ensures AccountPassFrom(acts, b, i)
  {
    StepAt(worlds, acts, i - 1);
    if acts[i - 1] == ByAccounts(ABegin) {
      b := i - 1;
    } else {
      AccountPassMoves(acts[i - 1], worlds[i - 1]);
      b := PassBegan(worlds, acts, i - 1);
    }
  }

  lemma {:induction false} BucketPassBegan(worlds: seq<World>, acts: seq<Action>, i: nat) returns (b: nat)
    requires FullRun(worlds, acts) && i <= |acts| && worlds[i].desk.bucketPass
    ensures BucketPassFrom(acts, b, i)
  {
    StepAt(worlds, acts, i - 1);
    if acts[i - 1] == ByBuckets(BBegin) {
      b := i - 1;
    } else {
      BucketPassMoves(acts[i - 1], worlds[i - 1]);
      b := BucketPassBegan(worlds, acts, i - 1);
    }
  }

  lemma EProvidersMove(e: EAct, w: World, p: string)
    requires EAccepts(e, w) && p !in EEffect(e, w).past.accountProviders && p in w.past.accountProviders
    ensures p !in EEffect(e, w).providers
  {
  }

  lemma EBucketProvidersMove(e: EAct, w: World, p: string)
    requires EAccepts(e, w) && p !in EEffect(e, w).past.bucketProviders && p in w.past.bucketProviders
    ensures p !in EEffect(e, w).providers
  {
  }

  lemma AProvidersMove(a: AAct, w: World)
    requires AGuard(a, w) && AAccepts(a, w) && a != ABegin
    ensures AEffect(a, w).past.accountProviders == w.past.accountProviders
  {
  }

  lemma BPassMoves(b: BAct, w: World, at: Loc)
    requires BGuard(b, w) && BAccepts(b, w) && b != BBegin
    ensures BEffect(b, w).past.bucketProviders == w.past.bucketProviders
    ensures at in w.past.keep && at !in BEffect(b, w).past.keep ==> at !in BEffect(b, w).minio.buckets
  {
  }

  lemma EKeepMoves(e: EAct, w: World, at: Loc)
    requires EAccepts(e, w) && at in w.past.keep && at !in EEffect(e, w).past.keep
    ensures at !in EEffect(e, w).minio.buckets && e == ERemove(at)
  {
  }

  lemma ProviderMissed(act: Action, w: World, p: string)
    requires Enabled(act, w) && act != ByAccounts(ABegin)
    requires p in w.past.accountProviders && p !in Effect(act, w).past.accountProviders
    ensures p !in Effect(act, w).providers
  {
    match act
    case ByAccounts(a) => AProvidersMove(a, w);
    case ByBuckets(b) =>
    case ByCollector(_) =>
    case ByOutside(e) => EProvidersMove(e, w, p);
  }

  lemma BucketProviderMissed(act: Action, w: World, p: string)
    requires Enabled(act, w) && act != ByBuckets(BBegin)
    requires p in w.past.bucketProviders && p !in Effect(act, w).past.bucketProviders
    ensures p !in Effect(act, w).providers
  {
    match act
    case ByAccounts(a) =>
    case ByBuckets(b) => BPassMoves(b, w, At("", ""));
    case ByCollector(_) =>
    case ByOutside(e) => EBucketProvidersMove(e, w, p);
  }

  lemma BucketMissed(act: Action, w: World, at: Loc)
    requires Enabled(act, w) && act != ByBuckets(BBegin)
    requires at in w.past.keep && at !in Effect(act, w).past.keep
    ensures at !in Effect(act, w).minio.buckets
  {
    match act
    case ByAccounts(a) =>
    case ByBuckets(b) => BPassMoves(b, w, at);
    case ByCollector(_) =>
    case ByOutside(e) => EKeepMoves(e, w, at);
  }

  /** A provider not known to have been there all along was missing at some point of the pass. */
  lemma {:induction false} ProviderWasMissing(worlds: seq<World>, acts: seq<Action>, b: nat, i: nat, p: string)
    requires Run(worlds, acts) && AccountPassFrom(acts, b, i) && p !in worlds[i].past.accountProviders
    ensures exists n :: b <= n <= i && p !in worlds[n].providers
  {
    StepAt(worlds, acts, i - 1);
    if i == b + 1 {
      assert p !in worlds[b].providers;
    } else if p !in worlds[i - 1].past.accountProviders {
      ProviderWasMissing(worlds, acts, b, i - 1, p);
    } else {
      ProviderMissed(acts[i - 1], worlds[i - 1], p);
      assert p !in worlds[i].providers;
    }
  }

  lemma {:induction false} BucketProviderWasMissing(worlds: seq<World>, acts: seq<Action>, b: nat, i: nat, p: string)
    requires Run(worlds, acts) && BucketPassFrom(acts, b, i) && p !in worlds[i].past.bucketProviders
    ensures exists n :: b <= n <= i && p !in worlds[n].providers
  {
    StepAt(worlds, acts, i - 1);
    if i == b + 1 {
      assert p !in worlds[b].providers;
    } else if p !in worlds[i - 1].past.bucketProviders {
      BucketProviderWasMissing(worlds, acts, b, i - 1, p);
    } else {
      BucketProviderMissed(acts[i - 1], worlds[i - 1], p);
      assert p !in worlds[i].providers;
    }
  }

  lemma {:induction false} BucketWasMissing(worlds: seq<World>, acts: seq<Action>, b: nat, i: nat, at: Loc)
    requires Run(worlds, acts) && BucketPassFrom(acts, b, i) && at !in worlds[i].past.keep
    ensures exists n :: b <= n <= i && at !in worlds[n].minio.buckets
  {
    StepAt(worlds, acts, i - 1);
    if i == b + 1 {
      assert at !in worlds[b].minio.buckets;
    } else if at !in worlds[i - 1].past.keep {
      BucketWasMissing(worlds, acts, b, i - 1, at);
    } else {
      BucketMissed(acts[i - 1], worlds[i - 1], at);
      assert at !in worlds[i].minio.buckets;
    }
  }

  /** An account's finalizer goes only when its user is gone or its provider was
      missing at some point of the releasing pass. */
  lemma AccountReleasedLast(worlds: seq<World>, acts: seq<Action>, i: nat, k: Key) returns (b: nat)
    requires FullRun(worlds, acts) && i < |acts| && IsARelease(acts[i], k)
    ensures AccountPassFrom(acts, b, i) && k in worlds[i].accounts && worlds[i].accounts[k].deleting
    ensures var p := worlds[i].accounts[k].provider;
            UserOf(k, p) !in worlds[i].minio.users || exists n :: b <= n <= i && p !in worlds[n].providers
  {
    StepAt(worlds, acts, i);
    b := PassBegan(worlds, acts, i);
    var p := worlds[i].accounts[k].provider;
    if UserOf(k, p) in worlds[i].minio.users {
      ProviderWasMissing(worlds, acts, b, i, p);
    }
  }

  /** A Bucket with policy Delete goes only when its MinIO bucket or its provider
      was missing at some point of the releasing pass. */
  lemma BucketReleasedLast(worlds: seq<World>, acts: seq<Action>, i: nat, k: Key) returns (b: nat)
    requires FullRun(worlds, acts) && i < |acts| && IsBRelease(acts[i], k)
    ensures BucketPassFrom(acts, b, i) && k in worlds[i].buckets && worlds[i].buckets[k].deleting
    ensures var s := worlds[i].buckets[k].spec;
            s.reclaim == Delete ==>
              (exists n :: b <= n <= i && At(s.provider, k.name) !in worlds[n].minio.buckets) ||
              (exists n :: b <= n <= i && s.provider !in worlds[n].providers)
  {
    StepAt(worlds, acts, i);
    b := BucketPassBegan(worlds, acts, i);
    var s := worlds[i].buckets[k].spec;
    if s.reclaim == Delete {
      if s.provider !in worlds[i].past.bucketProviders {
        BucketProviderWasMissing(worlds, acts, b, i, s.provider);
      } else {
        BucketWasMissing(worlds, acts, b, i, At(s.provider, k.name));
      }
    }
  }

  /** An account that carries the finalizer stays, on its provider, and once being
      deleted stays so, until its own controller releases it. */
  lemma {:induction false} AccountStays(worlds: seq<World>, acts: seq<Action>, i: nat, j: nat, k: Key)
    requires Run(worlds, acts) && i <= j <= |acts| && Held(worlds[i], k)
    requires forall n :: i <= n < j ==> !IsARelease(acts[n], k)
    ensures Held(worlds[j], k) && worlds[j].accounts[k].uid == worlds[i].accounts[k].uid
    ensures worlds[j].accounts[k].provider == worlds[i].accounts[k].provider
    ensures worlds[i].accounts[k].deleting ==> worlds[j].accounts[k].deleting
  {
    if i < j {
      AccountStays(worlds, acts, i, j - 1, k);
      StepAt(worlds, acts, j - 1);
      if k !in worlds[j].accounts {
        AccountsStay(acts[j - 1], worlds[j - 1], k);
      } else {
        AccountMoves(acts[j - 1], worlds[j - 1], k);
        DeletingStays(acts[j - 1], worlds[j - 1], k);
      }
    }
  }

  lemma ADeletingStays(a: AAct, w: World, k: Key)
    requires AGuard(a, w) && AAccepts(a, w) && k in w.accounts && w.accounts[k].deleting && k in AEffect(a, w).accounts
    ensures AEffect(a, w).accounts[k].deleting
  {
  }

  lemma EDeletingStays(e: EAct, w: World, k: Key)
    requires EAccepts(e, w) && k in w.accounts && w.accounts[k].deleting && k in EEffect(e, w).accounts
    ensures EEffect(e, w).accounts[k].deleting
  {
  }

  lemma DeletingStays(act: Action, w: World, k: Key)
    requires Enabled(act, w) && k in w.accounts && k in Effect(act, w).accounts
    ensures w.accounts[k].deleting ==> Effect(act, w).accounts[k].deleting
  {
    if w.accounts[k].deleting {
      match act
      case ByAccounts(a) => ADeletingStays(a, w, k);
      case ByBuckets(b) =>
      case ByCollector(_) =>
      case ByOutside(e) => EDeletingStays(e, w, k);
    }
  }

  /** A Bucket that carries the finalizer stays until its own controller releases it. */
  lemma {:induction false} BucketStays(worlds: seq<World>, acts: seq<Action>, i: nat, j: nat, k: Key)
    requires Run(worlds, acts) && i <= j <= |acts| && k in worlds[i].buckets && worlds[i].buckets[k].finalizer
    requires forall n :: i <= n < j ==> !IsBRelease(acts[n], k)
    ensures k in worlds[j].buckets && worlds[j].buckets[k].finalizer
    ensures worlds[j].buckets[k].uid == worlds[i].buckets[k].uid
    ensures worlds[i].buckets[k].spec.provider != "" ==>
              worlds[j].buckets[k].spec.provider == worlds[i].buckets[k].spec.provider
  {
    if i < j {
      BucketStays(worlds, acts, i, j - 1, k);
      StepAt(worlds, acts, j - 1);
      if k !in worlds[j].buckets {
        BucketsStay(acts[j - 1], worlds[j - 1], k);
      } else {
        BucketMoves(acts[j - 1], worlds[j - 1], k);
      }
    }
  }

  // ---------------------------------------------------------------- bucket statuses

  /** Status coherence of every Bucket that is ever stored. */
  lemma StatusesAreCoherent(worlds: seq<World>, acts: seq<Action>, i: nat, k: Key)
    requires FullRun(worlds, acts) && i <= |acts| && k in worlds[i].buckets
    ensures var s := worlds[i].buckets[k].status;
            && Unique(s.conditions)
            && (s.phase == Phase(Ready) ==> IsTrue(s.conditions, Ready) && !Has(s.conditions, Creating) && !Has(s.conditions, Error))
            && (s.phase == Phase(Error) ==> IsTrue(s.conditions, Error) && !IsTrue(s.conditions, Ready))
            && !(IsTrue(s.conditions, Ready) && IsTrue(s.conditions, Error))
            && (s.phase == Phase(Deleting) ==> IsTrue(s.conditions, Deleting) && worlds[i].buckets[k].deleting)
  {
    Reachable(worlds, acts, i);
  }

  /** Phase Deleting is never left: it lasts as long as the resource does. */
  lemma {:induction false} DeletingIsForever(worlds: seq<World>, acts: seq<Action>, i: nat, j: nat, k: Key)
    requires FullRun(worlds, acts) && i <= j <= |acts|
    requires k in worlds[i].buckets && worlds[i].buckets[k].status.phase == Phase(Deleting)
    requires forall n :: i <= n <= j ==> k in worlds[n].buckets
    ensures worlds[j].buckets[k].uid == worlds[i].buckets[k].uid && worlds[j].buckets[k].status.phase == Phase(Deleting)
  {
    if i < j {
      DeletingIsForever(worlds, acts, i, j - 1, k);
      CoherentAt(worlds, acts, j - 1, k);
      StepAt(worlds, acts, j - 1);
      DeletingStep(acts[j - 1], worlds[j - 1], k, worlds[j]);
    }
  }

  lemma CoherentAt(worlds: seq<World>, acts: seq<Action>, i: nat, k: Key)
    requires FullRun(worlds, acts) && i <= |acts| && k in worlds[i].buckets
    ensures Coherent(worlds[i].buckets[k])
  {
    Reachable(worlds, acts, i);
  }

  lemma DeletingStep(act: Action, w: World, k: Key, w': World)
    requires k in w.buckets && Coherent(w.buckets[k]) && w.buckets[k].status.phase == Phase(Deleting)
    requires Enabled(act, w) && w' == Effect(act, w) && k in w'.buckets
    ensures w'.buckets[k].uid == w.buckets[k].uid && w'.buckets[k].status.phase == Phase(Deleting)
  {
    BucketMoves(act, w, k);
  }

  // ---------------------------------------------------------------- no silent adoption

  /** The step in which this resource makes this MinIO bucket, absent until then. */
  predicate Makes(act: Action, w: World, uid: nat, at: Loc) {
    && act.ByBuckets? && act.b.BMake? && act.b.key in w.buckets
    && w.buckets[act.b.key].uid == uid && At(w.buckets[act.b.key].spec.provider, act.b.key.name) == at
    && at !in w.minio.buckets
  }

  lemma {:induction false} MadeByMaking(worlds: seq<World>, acts: seq<Action>, i: nat, uid: nat, at: Loc)
    requires FullRun(worlds, acts) && i <= |acts| && (uid, at) in worlds[i].past.made
    ensures exists n: nat :: n < i && Makes(acts[n], worlds[n], uid, at)
  {
    if i > 0 {
      StepAt(worlds, acts, i - 1);
      if (uid, at) in worlds[i - 1].past.made {
        MadeByMaking(worlds, acts, i - 1, uid, at);
      } else {
        MadeMoves(acts[i - 1], worlds[i - 1], (uid, at));
        assert Makes(acts[i - 1], worlds[i - 1], uid, at);
      }
    }
  }

  /** A Bucket that is Ready, or merely records an endpoint, made its MinIO bucket
      itself: one that only ever pre-existed never leads there. */
  lemma NoSilentAdoption(worlds: seq<World>, acts: seq<Action>, i: nat, k: Key)
    requires FullRun(worlds, acts) && i <= |acts| && k in worlds[i].buckets
    requires var s := worlds[i].buckets[k].status;
             s.endpoint.Some? || IsTrue(s.conditions, Ready) || s.phase == Phase(Ready)
    ensures var b := worlds[i].buckets[k];
            exists n: nat :: n < i && Makes(acts[n], worlds[n], b.uid, At(b.spec.provider, k.name))
  {
    Reachable(worlds, acts, i);
    assert Coherent(worlds[i].buckets[k]);
    var b := worlds[i].buckets[k];
    MadeByMaking(worlds, acts, i, b.uid, At(b.spec.provider, k.name));
  }

  // ---------------------------------------------------------------- retention

  lemma BRetains(b: BAct, w: World, at: Loc)
    requires Present(w) && at in w.past.keep && at.name !in w.past.everDelete && BGuard(b, w) && BAccepts(b, w)
    ensures at in BEffect(b, w).past.keep
  {
  }

  lemma StepRetains(act: Action, w: World, at: Loc)
    requires Present(w) && at in w.past.keep && at.name !in w.past.everDelete && Enabled(act, w)
    requires act != ByOutside(ERemove(at))
    ensures at in Effect(act, w).past.keep
  {
    match act
    case ByAccounts(a) =>
    case ByBuckets(b) => BRetains(b, w, at);
    case ByCollector(_) =>
    case ByOutside(e) =>
      if at !in EEffect(e, w).past.keep {
        EKeepMoves(e, w, at);
      }
  }

  lemma EDeletePolicyStored(e: EAct, w: World, name: string)
    requires EAccepts(e, w) && name !in w.past.everDelete && name in EEffect(e, w).past.everDelete
    ensures exists k :: k in EEffect(e, w).buckets && k.name == name && EEffect(e, w).buckets[k].spec.reclaim == Delete
  {
    var k := e.key;
    assert k in EEffect(e, w).buckets && k.name == name && EEffect(e, w).buckets[k].spec.reclaim == Delete;
  }

  lemma DeletePolicyStored(act: Action, w: World, name: string)
    requires Enabled(act, w) && name !in w.past.everDelete && name in Effect(act, w).past.everDelete
    ensures exists k :: k in Effect(act, w).buckets && k.name == name && Effect(act, w).buckets[k].spec.reclaim == Delete
  {
    match act
    case ByAccounts(a) =>
    case ByBuckets(b) =>
    case ByCollector(_) =>
    case ByOutside(e) => EDeletePolicyStored(e, w, name);
  }

  /** No Bucket of this name ever has policy Delete. */
  ghost predicate NeverDelete(worlds: seq<World>, name: string) {
    forall n, k :: 0 <= n < |worlds| && k in worlds[n].buckets && k.name == name ==>
      worlds[n].buckets[k].spec.reclaim != Delete
  }

  lemma {:induction false} NeverRemembered(worlds: seq<World>, acts: seq<Action>, i: nat, name: string)
    requires FullRun(worlds, acts) && i <= |acts| && NeverDelete(worlds, name)
    ensures name !in worlds[i].past.everDelete
  {
    if i > 0 {
      NeverRemembered(worlds, acts, i - 1, name);
      StepAt(worlds, acts, i - 1);
      if name in worlds[i].past.everDelete {
        DeletePolicyStored(acts[i - 1], worlds[i - 1], name);
      }
    }
  }

  /** If no Bucket of a name ever has policy Delete, a MinIO bucket of that name
      that exists when a pass begins exists ever after, unless outsiders remove it. */
  lemma {:induction false} RetainedBucketsStay(worlds: seq<World>, acts: seq<Action>, b: nat, i: nat, at: Loc)
    requires FullRun(worlds, acts) && b < i <= |acts| && NeverDelete(worlds, at.name)
    requires acts[b] == ByBuckets(BBegin) && at in worlds[b].minio.buckets
    requires forall n :: b <= n < i ==> acts[n] != ByOutside(ERemove(at))
    ensures at in worlds[i].minio.buckets && at in worlds[i].past.keep
  {
    Reachable(worlds, acts, i);
    StepAt(worlds, acts, i - 1);
    if i > b + 1 {
      RetainedBucketsStay(worlds, acts, b, i - 1, at);
      Reachable(worlds, acts, i - 1);
      NeverRemembered(worlds, acts, i - 1, at.name);
      StepRetains(acts[i - 1], worlds[i - 1], at);
    }
  }
}
