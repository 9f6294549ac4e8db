/** What every reachable state satisfies, whoever takes the steps and whichever
    calls fail. */
module Invariants {
  import opened Wrappers
  import opened Owners
  import opened Conditions
  import opened Worlds
  import opened Actions

  // ---------------------------------------------------------------- the parts

  /** Versions and uids are handed out in order; the history sets describe the present. */
  ghost predicate Numbered(w: World) {
    && (forall k :: k in w.buckets ==> w.buckets[k].version <= w.tick && w.buckets[k].uid < w.nextUid)
    && (forall k :: k in w.accounts ==> w.accounts[k].version <= w.tick && w.accounts[k].uid < w.nextUid)
    && (forall k :: k in w.secrets ==> w.secrets[k].version <= w.tick)
    && (forall k :: k in w.secrets && AccountControlled(w.secrets[k]) ==>
          ControllerOf(w.secrets[k].owners).value.uid < w.nextUid)
  }

  ghost predicate PastOfPresent(w: World) {
    && (forall u :: u in w.past.seen ==> u < w.nextUid)
    && (forall m :: m in w.past.made ==> m.0 < w.nextUid)
    && Present(w)
  }

  /** Only objects that carry the finalizer linger in deletion. */
  ghost predicate DeletionHeld(w: World) {
    && (forall k :: k in w.buckets && w.buckets[k].deleting ==> w.buckets[k].finalizer)
    && (forall k :: k in w.accounts && w.accounts[k].deleting ==> w.accounts[k].finalizer)
  }

  /** One account per name and provider: user names carry no namespace. */
  ghost predicate OneAccountPerUser(w: World) {
    forall j, k | j in w.accounts && k in w.accounts ::
      j.name == k.name && w.accounts[j].provider == w.accounts[k].provider ==> j == k
  }

  /** Every live key was generated earlier and belongs to an existing user. */
  ghost predicate KeysHaveUsers(w: World) {
    forall l :: l in w.minio.keys ==> l.serial < w.serial && At(l.provider, w.minio.keys[l]) in w.minio.users
  }

  /** A generated access key is live on one server at most. */
  ghost predicate SerialsUnique(w: World) {
    forall l, m :: l in w.minio.keys && m in w.minio.keys && l.serial == m.serial ==> l == m
  }

  /** A credentials secret an account controls holds its user's one live key. */
  ghost predicate Agreement(w: World) {
    forall k :: k in w.accounts && HasOwnSecret(w, k) ==> Agrees(w, k)
  }

  ghost predicate Agrees(w: World, k: Key)
    requires k in w.accounts && HasOwnSecret(w, k)
  {
    var s := w.secrets[SaKey(k)];
    exists serial ::
      SoleKey(w.minio, UserOf(k, w.accounts[k].provider), serial) &&
      s.data == map[MINIO_ACCESS_KEY := AccessKey(serial), MINIO_SECRET_KEY := SecretKey(serial)]
  }

  /** A MinIO user answers to a stored account that still carries the finalizer. */
  predicate Covered(w: World, user: Loc) {
    exists k :: k in w.accounts && w.accounts[k].finalizer && UserOf(k, w.accounts[k].provider) == user
  }

  /** No MinIO user is leaked: each is covered, unless it was left behind by a
      release, which is allowed only when the provider was found missing. */
  ghost predicate NoLeak(w: World) {
    forall u :: u in w.minio.users ==> Covered(w, u) || u in w.past.abandoned
  }

  /** Status coherence of one stored Bucket. */
  ghost predicate Coherent(b: Bucket) {
    var cs := b.status.conditions;
    && Unique(cs)
    && (b.status.phase == Phase(Ready) ==> IsTrue(cs, Ready) && !Has(cs, Creating) && !Has(cs, Error))
    && (b.status.phase == Phase(Error) ==> IsTrue(cs, Error) && Has(cs, Ready) && !IsTrue(cs, Ready))
    && !(IsTrue(cs, Ready) && IsTrue(cs, Error))
    && (Has(cs, Deleting) <==> b.status.phase == Phase(Deleting))
    && (b.status.phase == Phase(Deleting) ==> IsTrue(cs, Deleting) && b.deleting)
    && (IsTrue(cs, Ready) ==> b.status.endpoint.Some?)
  }

  ghost predicate StatusCoherence(w: World) {
    forall k :: k in w.buckets ==> Coherent(w.buckets[k])
  }

  /** A recorded endpoint means this very resource once made the MinIO bucket. */
  ghost predicate NoAdoption(w: World) {
    forall k :: k in w.buckets && w.buckets[k].status.endpoint.Some? ==>
      w.buckets[k].spec.provider != "" &&
      (w.buckets[k].uid, At(w.buckets[k].spec.provider, k.name)) in w.past.made
  }

  /** Policy Delete is remembered by name. */
  ghost predicate DeletesRemembered(w: World) {
    forall k :: k in w.buckets && w.buckets[k].spec.reclaim == Delete ==> k.name in w.past.everDelete
  }

  /** The pass that marked the account saw no bucket, and no status resting on
      the sight of a bucket has been stored since. */
  ghost predicate MarkedBy(seen: seq<Saw>, since: nat) {
    exists i :: 0 <= i < |seen| && seen[i] == NoBucket(since) &&
                forall j :: i < j < |seen| ==> !seen[j].SomeBucket?
  }

  ghost predicate Pends(a: Account, seen: seq<Saw>) {
    var cs := a.status.conditions;
    && Unique(cs)
    && (Has(cs, DeletionPending) ==>
          IsTrue(cs, DeletionPending) && MarkedBy(seen, Get(cs, DeletionPending).value.since))
    && (Has(cs, Deleting) ==> IsTrue(cs, Deleting))
  }

  ghost predicate GraceHistory(w: World) {
    forall k :: k in w.accounts ==> Pends(w.accounts[k], SeenBy(w.past, w.accounts[k].uid))
  }

  /** Uids name one stored object each. */
  ghost predicate UidsUnique(w: World) {
    && (forall j, k :: j in w.accounts && k in w.accounts && w.accounts[j].uid == w.accounts[k].uid ==> j == k)
    && (forall j, k :: j in w.buckets && k in w.buckets && w.buckets[j].uid == w.buckets[k].uid ==> j == k)
  }

  /** At most one default provider. */
  ghost predicate OneDefault(w: World) {
    forall a, b :: DefaultProvider(w, a) && DefaultProvider(w, b) ==> a == b
  }

  /** The API server stores Buckets under Kubernetes names only. */
  ghost predicate NamesValid(w: World) {
    forall k :: k in w.buckets ==> ValidName(k.name)
  }

  ghost predicate Inv(w: World) {
    && Numbered(w)
    && NamesValid(w)
    && PastOfPresent(w)
    && DeletionHeld(w)
    && OneAccountPerUser(w)
    && KeysHaveUsers(w)
    && SerialsUnique(w)
    && Agreement(w)
    && NoLeak(w)
    && StatusCoherence(w)
    && NoAdoption(w)
    && DeletesRemembered(w)
    && GraceHistory(w)
    && UidsUnique(w)
    && OneDefault(w)
  }

  // ---------------------------------------------------------------- what one step does to one object

  /** All that a step can do to a stored Bucket. */
  ghost predicate BucketMove(act: Action, w: World, k: Key, b: Bucket, w': World) {
    if k !in w.buckets then
      && ValidName(k.name) && b.uid == w.nextUid < w'.nextUid && b.version == w.tick + 1 == w'.tick
      && !b.deleting && !b.finalizer && b.status == BucketStatus(None, None, [], NoPhase)
      && (b.spec.reclaim == Delete ==> k.name in w'.past.everDelete)
      && act.ByOutside? && act.e.ECreateBucket? && act.e.key == k
    else
      var a := w.buckets[k];
      || b == a
      || (&& b.version == w.tick + 1 == w'.tick && b.uid == a.uid && (a.finalizer ==> b.finalizer)
          && (a.spec.provider != "" ==> b.spec.provider == a.spec.provider)
          && (b.spec.reclaim == Delete ==> a.spec.reclaim == Delete || k.name in w'.past.everDelete)
          && (|| (b.status == a.status && b.deleting == a.deleting)
              || (b.status == a.status && b.deleting && b.finalizer && b.spec == a.spec)
              || (&& act.ByBuckets? && act.b.BStatus? && act.b.key == k
                  && b == a.(version := b.version, status := act.b.status)
                  && LegalBucketStep(a, k.name, act.b.step, b.status, w.past))))
  }

  lemma BBucketMoves(b: BAct, w: World, k: Key)
    requires BGuard(b, w) && BAccepts(b, w) && k in BEffect(b, w).buckets
    ensures BucketMove(ByBuckets(b), w, k, BEffect(b, w).buckets[k], BEffect(b, w))
  {
  }

  lemma EBucketMoves(e: EAct, w: World, k: Key)
    requires EAccepts(e, w) && k in EEffect(e, w).buckets
    ensures BucketMove(ByOutside(e), w, k, EEffect(e, w).buckets[k], EEffect(e, w))
  {
  }

  lemma BucketMoves(act: Action, w: World, k: Key)
    requires Enabled(act, w) && k in Effect(act, w).buckets
    ensures BucketMove(act, w, k, Effect(act, w).buckets[k], Effect(act, w))
  {
    match act
    case ByAccounts(_) =>
    case ByBuckets(b) => BBucketMoves(b, w, k);
    case ByCollector(_) =>
    case ByOutside(e) => EBucketMoves(e, w, k);
  }

  predicate IsAStatus(act: Action, k: Key) {
    act.ByAccounts? && act.a.AStatus? && act.a.key == k
  }

  predicate IsGMark(act: Action, k: Key) {
    act.ByCollector? && act.g.GMark? && act.g.key == k
  }

  /** All that a step can do to a stored account. */
  ghost predicate AccountMove(act: Action, w: World, k: Key, b: Account, w': World) {
    if k !in w.accounts then
      && FreshAccount(w, k, b.provider) && b.uid == w.nextUid < w'.nextUid && b.version == w.tick + 1 == w'.tick
      && !b.deleting && !b.finalizer && b.status == AccountStatus(None, [], NoPhase)
      && (|| (act.ByBuckets? && act.b.BCreateAccount? && act.b.key == k)
          || (act.ByOutside? && act.e.ECreateAccount? && act.e.key == k))
    else
      var a := w.accounts[k];
      || (b == a && (IsAStatus(act, k) ==> LegalAccountStep(a, act.a.step, b.status, w.now) &&
                                           b.status == act.a.status))
      || (&& b.version == w.tick + 1 == w'.tick && b.uid == a.uid && (a.finalizer ==> b.finalizer)
          && b.provider == a.provider
          && (|| (!IsAStatus(act, k) && b.status == a.status && (b.deleting ==> a.deleting || b.finalizer))
              || (&& IsAStatus(act, k) && b == a.(version := b.version, status := act.a.status)
                  && LegalAccountStep(a, act.a.step, b.status, w.now))
              || (&& IsGMark(act, k) && b == a.(version := b.version, status := b.status)
                  && b.status == AccountChanged(a.status, Erase, act.g.time))))
  }

  lemma AAccountMoves(a: AAct, w: World, k: Key)
    requires AGuard(a, w) && AAccepts(a, w) && k in AEffect(a, w).accounts
    ensures AccountMove(ByAccounts(a), w, k, AEffect(a, w).accounts[k], AEffect(a, w))
  {
  }

  lemma BAccountMoves(b: BAct, w: World, k: Key)
    requires BGuard(b, w) && BAccepts(b, w) && k in BEffect(b, w).accounts
    ensures AccountMove(ByBuckets(b), w, k, BEffect(b, w).accounts[k], BEffect(b, w))
  {
  }

  lemma EAccountMoves(e: EAct, w: World, k: Key)
    requires EAccepts(e, w) && k in EEffect(e, w).accounts
    ensures AccountMove(ByOutside(e), w, k, EEffect(e, w).accounts[k], EEffect(e, w))
  {
  }

  lemma AccountMoves(act: Action, w: World, k: Key)
    requires Enabled(act, w) && k in Effect(act, w).accounts
    ensures AccountMove(act, w, k, Effect(act, w).accounts[k], Effect(act, w))
  {
    match act
    case ByAccounts(a) => AAccountMoves(a, w, k);
    case ByBuckets(b) => BAccountMoves(b, w, k);
    case ByCollector(_) =>
    case ByOutside(e) => EAccountMoves(e, w, k);
  }

  /** All that a step can do to a stored secret: only the account controller
      hands one to an account. */
  ghost predicate SecretMove(act: Action, w: World, k: Key, s: Secret, w': World) {
    || (k in w.secrets && s == w.secrets[k])
    || (&& s.version == w.tick + 1 == w'.tick
        && (|| !AccountControlled(s)
            || (&& act.ByAccounts? && act.a.ACreateSecret? && k == SaKey(act.a.key) && k !in w.secrets
                && AGuard(act.a, w) && w'.minio == w.minio && w'.accounts == w.accounts
                && s == SaSecret(act.a.key, w.accounts[act.a.key].uid, act.a.serial).(version := s.version))))
  }

  lemma ASecretMoves(a: AAct, w: World, k: Key)
    requires AGuard(a, w) && AAccepts(a, w) && k in AEffect(a, w).secrets
    ensures SecretMove(ByAccounts(a), w, k, AEffect(a, w).secrets[k], AEffect(a, w))
  {
  }

  lemma BSecretMoves(b: BAct, w: World, k: Key)
    requires BGuard(b, w) && BAccepts(b, w) && k in BEffect(b, w).secrets
    ensures SecretMove(ByBuckets(b), w, k, BEffect(b, w).secrets[k], BEffect(b, w))
  {
  }

  lemma ESecretMoves(e: EAct, w: World, k: Key)
    requires EAccepts(e, w) && k in EEffect(e, w).secrets
    ensures SecretMove(ByOutside(e), w, k, EEffect(e, w).secrets[k], EEffect(e, w))
  {
  }

  lemma SecretMoves(act: Action, w: World, k: Key)
    requires Enabled(act, w) && k in Effect(act, w).secrets
    ensures SecretMove(act, w, k, Effect(act, w).secrets[k], Effect(act, w))
  {
    match act
    case ByAccounts(a) => ASecretMoves(a, w, k);
    case ByBuckets(b) => BSecretMoves(b, w, k);
    case ByCollector(_) =>
    case ByOutside(e) => ESecretMoves(e, w, k);
  }

  /** The steps above in one: everything a step can do to the stored objects. */
  ghost predicate Moved(act: Action, w: World, w': World) {
    && (forall k :: k in w'.buckets ==> BucketMove(act, w, k, w'.buckets[k], w'))
    && (forall k :: k in w'.accounts ==> AccountMove(act, w, k, w'.accounts[k], w'))
    && (forall k :: k in w'.secrets ==> SecretMove(act, w, k, w'.secrets[k], w'))
    && Grown(w, w')
  }

  /** Counters never fall, history never forgets. */
  ghost predicate Grown(w: World, w': World) {
    && w.now <= w'.now && w.tick <= w'.tick && w.nextUid <= w'.nextUid && w.serial <= w'.serial
    && w.past.made <= w'.past.made && w.past.everDelete <= w'.past.everDelete
  }

  lemma CountersGrow(act: Action, w: World)
    requires Enabled(act, w)
    ensures Grown(w, Effect(act, w))
  {
    match act
    case ByAccounts(a) =>
    case ByBuckets(b) =>
    case ByCollector(_) =>
    case ByOutside(e) =>
  }

  lemma StepMoves(act: Action, w: World)
    requires Enabled(act, w)
    ensures Moved(act, w, Effect(act, w))
  {
    var w' := Effect(act, w);
    CountersGrow(act, w);
    forall k | k in w'.buckets
      ensures BucketMove(act, w, k, w'.buckets[k], w')
    {
      BucketMoves(act, w, k);
    }
    forall k | k in w'.accounts
      ensures AccountMove(act, w, k, w'.accounts[k], w')
    {
      AccountMoves(act, w, k);
    }
    forall k | k in w'.secrets
      ensures SecretMove(act, w, k, w'.secrets[k], w')
    {
      SecretMoves(act, w, k);
    }
  }

  predicate IsARelease(act: Action, k: Key) {
    act.ByAccounts? && act.a.ARelease? && act.a.key == k
  }

  predicate IsBRelease(act: Action, k: Key) {
    act.ByBuckets? && act.b.BRelease? && act.b.key == k
  }

  lemma AAccountsStay(a: AAct, w: World, k: Key)
    requires AGuard(a, w) && AAccepts(a, w) && k in w.accounts && k !in AEffect(a, w).accounts
    ensures a.ARelease? && a.key == k
  {
  }

  lemma EAccountsStay(e: EAct, w: World, k: Key)
    requires EAccepts(e, w) && k in w.accounts && k !in EEffect(e, w).accounts
    ensures !w.accounts[k].finalizer
  {
  }

  /** An account vanishes only by its own release, or before it carries the finalizer. */
  lemma AccountsStay(act: Action, w: World, k: Key)
    requires Enabled(act, w) && k in w.accounts && k !in Effect(act, w).accounts
    ensures !w.accounts[k].finalizer || IsARelease(act, k)
  {
    match act
    case ByAccounts(a) => AAccountsStay(a, w, k);
    case ByBuckets(b) =>
    case ByCollector(_) =>
    case ByOutside(e) => EAccountsStay(e, w, k);
  }

  lemma BBucketsStay(b: BAct, w: World, k: Key)
    requires BGuard(b, w) && BAccepts(b, w) && k in w.buckets && k !in BEffect(b, w).buckets
    ensures b.BRelease? && b.key == k
  {
  }

  lemma EBucketsStay(e: EAct, w: World, k: Key)
    requires EAccepts(e, w) && k in w.buckets && k !in EEffect(e, w).buckets
    ensures !w.buckets[k].finalizer
  {
  }

  lemma BucketsStay(act: Action, w: World, k: Key)
    requires Enabled(act, w) && k in w.buckets && k !in Effect(act, w).buckets
    ensures !w.buckets[k].finalizer || IsBRelease(act, k)
  {
    match act
    case ByAccounts(a) =>
    case ByBuckets(b) => BBucketsStay(b, w, k);
    case ByCollector(_) =>
    case ByOutside(e) => EBucketsStay(e, w, k);
  }

  // ---------------------------------------------------------------- each part is kept by each step

  lemma NumberedKept(act: Action, w: World, w': World)
    requires Numbered(w) && Moved(act, w, w')
    ensures Numbered(w')
  {
    forall k | k in w'.secrets && AccountControlled(w'.secrets[k])
      ensures ControllerOf(w'.secrets[k].owners).value.uid < w'.nextUid
    {
      assert SecretMove(act, w, k, w'.secrets[k], w');
    }
    forall k | k in w'.accounts
      ensures w'.accounts[k].version <= w'.tick && w'.accounts[k].uid < w'.nextUid
    {
      assert AccountMove(act, w, k, w'.accounts[k], w');
    }
    forall k | k in w'.buckets
      ensures w'.buckets[k].version <= w'.tick && w'.buckets[k].uid < w'.nextUid
    {
      assert BucketMove(act, w, k, w'.buckets[k], w');
    }
    forall k | k in w'.secrets
      ensures w'.secrets[k].version <= w'.tick
    {
      assert SecretMove(act, w, k, w'.secrets[k], w');
    }
  }

  ghost predicate Present(w: World) {
    w.past.keep <= w.minio.buckets && w.past.accountProviders <= w.providers.Keys &&
    w.past.bucketProviders <= w.providers.Keys
  }

  lemma BPresentKept(b: BAct, w: World)
    requires Present(w) && BGuard(b, w) && BAccepts(b, w)
    ensures Present(BEffect(b, w))
  {
  }

  lemma EPresentKept(e: EAct, w: World)
    requires Present(w) && EAccepts(e, w)
    ensures Present(EEffect(e, w))
  {
  }

  lemma APresentKept(a: AAct, w: World)
    requires Present(w) && AGuard(a, w) && AAccepts(a, w)
    ensures Present(AEffect(a, w))
  {
  }

  lemma PresentKept(act: Action, w: World)
    requires Present(w) && Enabled(act, w)
    ensures Present(Effect(act, w))
  {
    match act
    case ByAccounts(a) => APresentKept(a, w);
    case ByBuckets(b) => BPresentKept(b, w);
    case ByCollector(_) =>
    case ByOutside(e) => EPresentKept(e, w);
  }

  /** Sights are recorded by account status writes only. */
  ghost predicate SeenMove(act: Action, w: World, w': World) {
    if act.ByAccounts? && act.a.AStatus? then
      && act.a.key in w.accounts && act.a.key in w'.accounts
      && w'.past.seen == Observe(w.past, w.accounts[act.a.key].uid, act.a.step.saw).seen
    else w'.past.seen == w.past.seen
  }

  lemma SeenMoves(act: Action, w: World)
    requires Enabled(act, w)
    ensures SeenMove(act, w, Effect(act, w))
  {
    match act
    case ByAccounts(a) =>
    case ByBuckets(b) =>
    case ByCollector(_) =>
    case ByOutside(e) =>
  }

  lemma BMadeMoves(b: BAct, w: World, m: (nat, Loc))
    requires BGuard(b, w) && BAccepts(b, w) && m in BEffect(b, w).past.made && m !in w.past.made
    ensures b.BMake? && b.key in w.buckets && m == (w.buckets[b.key].uid, At(w.buckets[b.key].spec.provider, b.key.name))
    ensures w.buckets[b.key].finalizer && m.1 !in w.minio.buckets
  {
  }

  /** Makes are recorded by MakeBucket only. */
  lemma MadeMoves(act: Action, w: World, m: (nat, Loc))
    requires Enabled(act, w) && m in Effect(act, w).past.made && m !in w.past.made
    ensures act.ByBuckets? && act.b.BMake? && act.b.key in w.buckets && m.0 == w.buckets[act.b.key].uid
    ensures w.buckets[act.b.key].finalizer && m.1 == At(w.buckets[act.b.key].spec.provider, act.b.key.name)
    ensures m.1 !in w.minio.buckets
  {
    match act
    case ByAccounts(a) =>
    case ByBuckets(b) => BMadeMoves(b, w, m);
    case ByCollector(_) =>
    case ByOutside(e) =>
  }

  lemma PastOfPresentKept(act: Action, w: World)
    requires Numbered(w) && PastOfPresent(w) && Enabled(act, w)
    ensures PastOfPresent(Effect(act, w))
  {
    PresentKept(act, w);
    SeenMoves(act, w);
    CountersGrow(act, w);
    forall m | m in Effect(act, w).past.made
      ensures m.0 < Effect(act, w).nextUid
    {
      if m !in w.past.made {
        MadeMoves(act, w, m);
      }
    }
  }

  lemma DeletionHeldKept(act: Action, w: World, w': World)
    requires DeletionHeld(w) && Moved(act, w, w')
    ensures DeletionHeld(w')
  {
    forall k | k in w'.buckets && w'.buckets[k].deleting
      ensures w'.buckets[k].finalizer
    {
      assert BucketMove(act, w, k, w'.buckets[k], w');
    }
    forall k | k in w'.accounts && w'.accounts[k].deleting
      ensures w'.accounts[k].finalizer
    {
      assert AccountMove(act, w, k, w'.accounts[k], w');
    }
  }

  lemma OneAccountPerUserKept(act: Action, w: World, w': World)
    requires OneAccountPerUser(w) && Moved(act, w, w')
    ensures OneAccountPerUser(w')
  {
    forall j, k | j in w'.accounts && k in w'.accounts && j.name == k.name &&
                  w'.accounts[j].provider == w'.accounts[k].provider
      ensures j == k
    {
      assert AccountMove(act, w, j, w'.accounts[j], w');
      assert AccountMove(act, w, k, w'.accounts[k], w');
    }
  }

  lemma AKeysHaveUsersKept(a: AAct, w: World)
    requires KeysHaveUsers(w) && AGuard(a, w) && AAccepts(a, w)
    ensures KeysHaveUsers(AEffect(a, w))
  {
    var w' := AEffect(a, w);
    forall l | l in w'.minio.keys
      ensures l.serial < w'.serial && At(l.provider, w'.minio.keys[l]) in w'.minio.users
    {
    }
  }

  lemma OthersKeepKeys(act: Action, w: World)
    requires Enabled(act, w) && !act.ByAccounts?
    ensures var w' := Effect(act, w);
            w'.minio == w.minio.(buckets := w'.minio.buckets) && w'.serial == w.serial
  {
  }

  lemma KeysHaveUsersKept(act: Action, w: World)
    requires KeysHaveUsers(w) && Enabled(act, w)
    ensures KeysHaveUsers(Effect(act, w))
  {
    if act.ByAccounts? {
      AKeysHaveUsersKept(act.a, w);
    } else {
      OthersKeepKeys(act, w);
    }
  }

  lemma ASerialsUniqueKept(a: AAct, w: World)
    requires KeysHaveUsers(w) && SerialsUnique(w) && AGuard(a, w) && AAccepts(a, w)
    ensures SerialsUnique(AEffect(a, w))
  {
  }

  lemma SerialsUniqueKept(act: Action, w: World)
    requires KeysHaveUsers(w) && SerialsUnique(w) && Enabled(act, w)
    ensures SerialsUnique(Effect(act, w))
  {
    if act.ByAccounts? {
      ASerialsUniqueKept(act.a, w);
    } else {
      OthersKeepKeys(act, w);
    }
  }

  lemma DeletesRememberedKept(act: Action, w: World, w': World)
    requires DeletesRemembered(w) && Moved(act, w, w')
    ensures DeletesRemembered(w')
  {
    forall k | k in w'.buckets && w'.buckets[k].spec.reclaim == Delete
      ensures k.name in w'.past.everDelete
    {
      assert BucketMove(act, w, k, w'.buckets[k], w');
    }
  }

  lemma UidsUniqueKept(act: Action, w: World, w': World)
    requires Numbered(w) && UidsUnique(w) && Moved(act, w, w')
    ensures UidsUnique(w')
  {
    forall j, k | j in w'.accounts && k in w'.accounts && w'.accounts[j].uid == w'.accounts[k].uid
      ensures j == k
    {
      assert AccountMove(act, w, j, w'.accounts[j], w');
      assert AccountMove(act, w, k, w'.accounts[k], w');
    }
    forall j, k | j in w'.buckets && k in w'.buckets && w'.buckets[j].uid == w'.buckets[k].uid
      ensures j == k
    {
      assert BucketMove(act, w, j, w'.buckets[j], w');
      assert BucketMove(act, w, k, w'.buckets[k], w');
    }
  }

  lemma NamesValidKept(act: Action, w: World, w': World)
    requires NamesValid(w) && Moved(act, w, w')
    ensures NamesValid(w')
  {
    forall k | k in w'.buckets
      ensures ValidName(k.name)
    {
      assert BucketMove(act, w, k, w'.buckets[k], w');
    }
  }

  lemma ProvidersKept(act: Action, w: World, n: string)
    requires Enabled(act, w) && !(act.ByOutside? && act.e.EPutProvider?)
    ensures DefaultProvider(Effect(act, w), n) ==> DefaultProvider(w, n)
  {
  }

  /** The provider webhook's check: a provider other than the default cannot be written. */
  lemma OneDefaultKept(act: Action, w: World)
    requires OneDefault(w) && Enabled(act, w)
    ensures OneDefault(Effect(act, w))
  {
    var w' := Effect(act, w);
    if act.ByOutside? && act.e.EPutProvider? {
      forall a, b | DefaultProvider(w', a) && DefaultProvider(w', b)
        ensures a == b
      {
        assert a != act.e.name ==> DefaultProvider(w, a);
        assert b != act.e.name ==> DefaultProvider(w, b);
      }
    } else {
      forall n
        ensures DefaultProvider(w', n) ==> DefaultProvider(w, n)
      {
        ProvidersKept(act, w, n);
      }
    }
  }

  lemma NoAdoptionKept(act: Action, w: World, w': World)
    requires NoAdoption(w) && Moved(act, w, w')
    ensures NoAdoption(w')
  {
    forall k | k in w'.buckets && w'.buckets[k].status.endpoint.Some?
      ensures w'.buckets[k].spec.provider != ""
      ensures (w'.buckets[k].uid, At(w'.buckets[k].spec.provider, k.name)) in w'.past.made
    {
      assert BucketMove(act, w, k, w'.buckets[k], w');
    }
  }

  /** Each of the controller's status changes turns a coherent status into a coherent one. */
  lemma CoherentStep(b: Bucket, name: string, step: BucketStep, status: BucketStatus, past: History)
    requires Coherent(b) && LegalBucketStep(b, name, step, status, past)
    ensures Coherent(b.(status := status))
  {
    var cs := b.status.conditions;
    match step.change
    case Keep =>
    case Create =>
      SetKeepsUnique(cs, Creating, true, step.at);
    case Fail =>
      SetKeepsUnique(cs, Ready, false, step.at);
      SetKeepsUnique(Set(cs, Ready, false, step.at), Error, true, step.at);
    case Succeed =>
      RemoveKeepsUnique(cs, Creating);
      RemoveKeepsUnique(Remove(cs, Creating), Error);
      SetKeepsUnique(Remove(Remove(cs, Creating), Error), Ready, true, step.at);
    case Erase =>
      SetKeepsUnique(cs, Deleting, true, step.at);
  }

  lemma StatusCoherenceKept(act: Action, w: World, w': World)
    requires StatusCoherence(w) && Moved(act, w, w')
    ensures StatusCoherence(w')
  {
    forall k | k in w'.buckets
      ensures Coherent(w'.buckets[k])
    {
      assert BucketMove(act, w, k, w'.buckets[k], w');
      if k in w.buckets && act.ByBuckets? && act.b.BStatus? && act.b.key == k && w'.buckets[k] != w.buckets[k] {
        CoherentMove(act, w, k, w'.buckets[k], w');
      }
    }
  }

  lemma CoherentMove(act: Action, w: World, k: Key, b: Bucket, w': World)
    requires k in w.buckets && Coherent(w.buckets[k]) && BucketMove(act, w, k, b, w')
    ensures Coherent(b)
  {
    var a := w.buckets[k];
    if b.status != a.status {
      CoherentStep(a, k.name, act.b.step, b.status, w.past);
    }
  }

  lemma AUsersAppear(a: AAct, w: World, u: Loc)
    requires AGuard(a, w) && AAccepts(a, w) && u in AEffect(a, w).minio.users && u !in w.minio.users
    ensures Covered(AEffect(a, w), u)
  {
    assert a.AAddUser?;
    assert UserOf(a.key, AEffect(a, w).accounts[a.key].provider) == u;
  }

  /** Users appear only for accounts that carry the finalizer. */
  lemma UsersAppear(act: Action, w: World, u: Loc)
    requires Enabled(act, w) && u in Effect(act, w).minio.users && u !in w.minio.users
    ensures Covered(Effect(act, w), u)
  {
    match act
    case ByAccounts(a) => AUsersAppear(a, w, u);
    case ByBuckets(b) =>
    case ByCollector(g) =>
    case ByOutside(e) =>
  }

  /** A release that leaves a user behind says so. */
  lemma ReleaseAbandons(act: Action, w: World, k: Key)
    requires Enabled(act, w) && IsARelease(act, k) && UserOf(k, w.accounts[k].provider) in w.minio.users
    ensures UserOf(k, w.accounts[k].provider) in Effect(act, w).past.abandoned
  {
  }

  lemma AAbandonMoves(a: AAct, w: World, u: Loc)
    requires AGuard(a, w) && AAccepts(a, w)
    ensures var w' := AEffect(a, w);
            && (u in w.past.abandoned && u !in w'.past.abandoned ==>
                  a.AFinalize? && a.key in w'.accounts && w'.accounts[a.key].finalizer &&
                  UserOf(a.key, w'.accounts[a.key].provider) == u)
            && (u !in w.past.abandoned && u in w'.past.abandoned ==>
                  a.ARelease? && a.key in w.accounts && UserOf(a.key, w.accounts[a.key].provider) == u &&
                  u in w.minio.users)
  {
  }

  /** Users are abandoned by releases only, and stop being so by finding an
      account that carries the finalizer. */
  lemma AbandonMoves(act: Action, w: World, u: Loc)
    requires Enabled(act, w)
    ensures u in w.past.abandoned && u !in Effect(act, w).past.abandoned ==> Covered(Effect(act, w), u)
    ensures u !in w.past.abandoned && u in Effect(act, w).past.abandoned ==>
              act.ByAccounts? && act.a.ARelease? && act.a.key in w.accounts &&
              UserOf(act.a.key, w.accounts[act.a.key].provider) == u && u in w.minio.users
  {
    match act
    case ByAccounts(a) => AAbandonMoves(a, w, u);
    case ByBuckets(b) =>
    case ByCollector(_) =>
    case ByOutside(e) =>
  }

  lemma NoLeakKept(act: Action, w: World)
    requires NoLeak(w) && Enabled(act, w)
    ensures NoLeak(Effect(act, w))
  {
    var w' := Effect(act, w);
    forall u | u in w'.minio.users
      ensures Covered(w', u) || u in w'.past.abandoned
    {
      AbandonMoves(act, w, u);
      if u !in w.minio.users {
        UsersAppear(act, w, u);
      } else if u !in w.past.abandoned {
        var k :| k in w.accounts && w.accounts[k].finalizer && UserOf(k, w.accounts[k].provider) == u;
        if k in w'.accounts {
          AccountMoves(act, w, k);
          assert UserOf(k, w'.accounts[k].provider) == u;
        } else {
          AccountsStay(act, w, k);
          ReleaseAbandons(act, w, k);
        }
      }
    }
  }

  lemma ChangeKeepsPending(s: AccountStatus, change: Change, at: nat)
    requires Unique(s.conditions)
    ensures var cs := AccountChanged(s, change, at).conditions;
            Unique(cs) && Get(cs, DeletionPending) == Get(s.conditions, DeletionPending) &&
            (Get(cs, Deleting) == Get(s.conditions, Deleting) || IsTrue(cs, Deleting))
  {
    var cs := s.conditions;
    match change
    case Keep =>
    case Create => SetKeepsUnique(cs, Creating, true, at);
    case Fail =>
      SetKeepsUnique(cs, Ready, false, at);
      SetKeepsUnique(Set(cs, Ready, false, at), Error, true, at);
    case Succeed =>
      RemoveKeepsUnique(cs, Creating);
      RemoveKeepsUnique(Remove(cs, Creating), Error);
      SetKeepsUnique(Remove(Remove(cs, Creating), Error), Ready, true, at);
    case Erase => SetKeepsUnique(cs, Deleting, true, at);
  }

  lemma MarkedByGrows(seen: seq<Saw>, since: nat, saw: Saw)
    requires MarkedBy(seen, since) && !saw.SomeBucket?
    ensures MarkedBy(seen + [saw], since)
  {
    var i :| 0 <= i < |seen| && seen[i] == NoBucket(since) && forall j :: i < j < |seen| ==> !seen[j].SomeBucket?;
    assert (seen + [saw])[i] == NoBucket(since);
  }

  lemma PendsStep(a: Account, step: AccountStep, status: AccountStatus, seen: seq<Saw>, now: nat)
    requires Pends(a, seen) && LegalAccountStep(a, step, status, now)
    ensures Pends(a.(status := status), if step.saw == Nothing then seen else seen + [step.saw])
  {
    var cs := a.status.conditions;
    var seen' := if step.saw == Nothing then seen else seen + [step.saw];
    var mid := Pended(a.status.(secretName := step.secretName), step.pending, step.saw);
    SetKeepsUnique(cs, DeletionPending, true, if step.saw.NoBucket? then step.saw.at else 0);
    RemoveKeepsUnique(cs, DeletionPending);
    ChangeKeepsPending(mid, step.change, step.at);
    var c := Get(mid.conditions, DeletionPending);
    if c.Some? {
      if step.pending == Mark {
        assert seen'[|seen|] == NoBucket(c.value.since);
      } else if step.saw != Nothing {
        MarkedByGrows(seen, c.value.since, step.saw);
      }
    }
  }

  lemma PendsMove(act: Action, w: World, k: Key, b: Account, w': World)
    requires k in w.accounts && Pends(w.accounts[k], SeenBy(w.past, w.accounts[k].uid))
    requires AccountMove(act, w, k, b, w')
    ensures Pends(b, if IsAStatus(act, k) && act.a.step.saw != Nothing
                     then SeenBy(w.past, w.accounts[k].uid) + [act.a.step.saw]
                     else SeenBy(w.past, w.accounts[k].uid))
  {
    var a := w.accounts[k];
    if IsAStatus(act, k) {
      PendsStep(a, act.a.step, b.status, SeenBy(w.past, a.uid), w.now);
    } else if b.status != a.status {
      ChangeKeepsPending(a.status, Erase, act.g.time);
    }
  }

  lemma GraceHistoryKept(act: Action, w: World, w': World)
    requires PastOfPresent(w) && UidsUnique(w) && GraceHistory(w)
    requires Moved(act, w, w') && SeenMove(act, w, w')
    ensures GraceHistory(w')
  {
    forall k | k in w'.accounts
      ensures Pends(w'.accounts[k], SeenBy(w'.past, w'.accounts[k].uid))
    {
      assert AccountMove(act, w, k, w'.accounts[k], w');
      if k in w.accounts {
        PendsMove(act, w, k, w'.accounts[k], w');
      }
    }
  }

  /** Users and keys other than those of the account acted for stay as they are. */
  predicate ActsOnKeysOf(act: Action, w: World, user: Loc) {
    act.ByAccounts? && match act.a
      case ARemoveUser(k) => k in w.accounts && UserOf(k, w.accounts[k].provider) == user
      case AAddKey(k) => k in w.accounts && UserOf(k, w.accounts[k].provider) == user
      case ADropKey(k, id) => id.Serial? && k in w.accounts && UserOf(k, w.accounts[k].provider) == user
      case _ => false
  }

  lemma UserFrame(act: Action, w: World, user: Loc)
    requires Enabled(act, w) && KeysHaveUsers(w) && user in w.minio.users && !ActsOnKeysOf(act, w, user)
    ensures var m := Effect(act, w).minio; user in m.users && KeysOf(m, user) == KeysOf(w.minio, user)
  {
    if act.ByAccounts? {
      AUserFrame(act.a, w, user);
    }
  }

  lemma AUserFrame(a: AAct, w: World, user: Loc)
    requires AGuard(a, w) && AAccepts(a, w) && KeysHaveUsers(w) && user in w.minio.users
    requires !ActsOnKeysOf(ByAccounts(a), w, user)
    ensures var m := AEffect(a, w).minio; user in m.users && KeysOf(m, user) == KeysOf(w.minio, user)
  {
    var m, m' := w.minio, AEffect(a, w).minio;
    forall n: nat
      ensures n in KeysOf(m, user) <==> n in KeysOf(m', user)
    {
      var l := Live(user.provider, n);
      assert n in KeysOf(m, user) <==> l in m.keys && m.keys[l] == user.name;
      assert n in KeysOf(m', user) <==> l in m'.keys && m'.keys[l] == user.name;
    }
  }

  /** Whoever touches a user's keys has made sure that no secret of the account is out. */
  lemma ActedOnHasNoSecret(act: Action, w: World, k: Key)
    requires Enabled(act, w) && OneAccountPerUser(w) && k in w.accounts
    requires ActsOnKeysOf(act, w, UserOf(k, w.accounts[k].provider))
    ensures !HasOwnSecret(w, k)
  {
    NamesAreInjective(act.a.key, k);
  }

  lemma AgreementKeptFor(act: Action, w: World, k: Key, w': World)
    requires Numbered(w) && OneAccountPerUser(w) && KeysHaveUsers(w) && Agreement(w) && Enabled(act, w)
    requires w' == Effect(act, w)
    requires k in w'.accounts && HasOwnSecret(w', k)
    ensures Agrees(w', k)
  {
    AccountMoves(act, w, k);
    SecretMoves(act, w, SaKey(k));
    var s := w'.secrets[SaKey(k)];
    assert AccountControlled(s);
    if SaKey(k) in w.secrets && s == w.secrets[SaKey(k)] {
      assert HasOwnSecret(w, k);
      OldSecretAgrees(act, w, k);
    } else {
      NamesAreInjective(act.a.key, k);
      assert SoleKey(w'.minio, UserOf(k, w'.accounts[k].provider), act.a.serial);
    }
  }

  lemma OldSecretAgrees(act: Action, w: World, k: Key)
    requires OneAccountPerUser(w) && KeysHaveUsers(w) && Agreement(w) && Enabled(act, w)
    requires k in w.accounts && HasOwnSecret(w, k)
    ensures exists serial ::
      SoleKey(Effect(act, w).minio, UserOf(k, w.accounts[k].provider), serial) &&
      w.secrets[SaKey(k)].data == map[MINIO_ACCESS_KEY := AccessKey(serial), MINIO_SECRET_KEY := SecretKey(serial)]
  {
    var user := UserOf(k, w.accounts[k].provider);
    assert Agrees(w, k);
    var serial :| SoleKey(w.minio, user, serial) &&
      w.secrets[SaKey(k)].data == map[MINIO_ACCESS_KEY := AccessKey(serial), MINIO_SECRET_KEY := SecretKey(serial)];
    if ActsOnKeysOf(act, w, user) {
      ActedOnHasNoSecret(act, w, k);
    } else {
      UserFrame(act, w, user);
      assert SoleKey(Effect(act, w).minio, user, serial);
    }
  }

  lemma AgreementKept(act: Action, w: World)
    requires Numbered(w) && OneAccountPerUser(w) && KeysHaveUsers(w) && Agreement(w) && Enabled(act, w)
    ensures Agreement(Effect(act, w))
  {
    var w' := Effect(act, w);
    forall k | k in w'.accounts && HasOwnSecret(w', k)
      ensures Agrees(w', k)
    {
      AgreementKeptFor(act, w, k, w');
    }
  }

  // ---------------------------------------------------------------- every step, every run

  /** One step of any actor keeps the invariant. */
  lemma StepKeepsInv(act: Action, w: World)
    requires Inv(w) && Enabled(act, w)
    ensures Inv(Effect(act, w))
  {
    StepMoves(act, w);
    SeenMoves(act, w);
    PastOfPresentKept(act, w);
    KeysHaveUsersKept(act, w);
    SerialsUniqueKept(act, w);
    AgreementKept(act, w);
    NoLeakKept(act, w);
    OneDefaultKept(act, w);
    MovedKeepsInv(act, w, Effect(act, w));
  }

  lemma MovedKeepsInv(act: Action, w: World, w': World)
    requires Inv(w) && Moved(act, w, w') && SeenMove(act, w, w')
    requires PastOfPresent(w') && KeysHaveUsers(w') && SerialsUnique(w') && Agreement(w') && NoLeak(w') && OneDefault(w')
    ensures Inv(w')
  {
    NumberedKept(act, w, w');
    DeletionHeldKept(act, w, w');
    OneAccountPerUserKept(act, w, w');
    StatusCoherenceKept(act, w, w');
    NoAdoptionKept(act, w, w');
    DeletesRememberedKept(act, w, w');
    GraceHistoryKept(act, w, w');
    UidsUniqueKept(act, w, w');
    NamesValidKept(act, w, w');
  }

  /** Any interleaving of any length keeps the invariant. */
  lemma {:induction false} RunKeepsInv(worlds: seq<World>, acts: seq<Action>, i: nat)
    requires Run(worlds, acts) && Inv(worlds[0]) && i <= |acts|
    ensures Inv(worlds[i])
  {
    if i > 0 {
      RunKeepsInv(worlds, acts, i - 1);
      assert Leads(worlds, acts, i - 1);
      StepKeepsInv(acts[i - 1], worlds[i - 1]);
    }
  }

  /** The world before anything happens: nothing stored, no users, no keys. */
  predicate Empty(w: World) {
    && w.buckets == map[] && w.accounts == map[] && w.secrets == map[] && w.providers == map[]
    && w.minio.users == {} && w.minio.keys == map[] && w.past.made == {} && w.past.seen == map[]
    && w.past.keep == {} && w.past.bucketProviders == {} && w.past.accountProviders == {}
    && w.past.everDelete == {} && w.past.abandoned == {} && w.desk == CLEAR
  }

  lemma EmptyIsGood(w: World)
    requires Empty(w)
    ensures Inv(w)
  {
  }
}
