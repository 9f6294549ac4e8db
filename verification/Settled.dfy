/** What a bucket pass that reaches its last block has achieved, and that the
    next pass changes nothing. */
module Settled {
  import opened Wrappers
  import opened Owners
  import opened Conditions
  import opened Worlds
  import opened Actions
  import opened Invariants
  import opened Providers
  import opened SecretData
  import opened BucketPasses

  /** The stored content is the same: only the clock, the history and what the
      controllers know may differ. */
  predicate SameContent(w: World, w': World) {
    w' == w.(now := w'.now, past := w'.past, desk := w'.desk)
  }

  /** The stages before the Ready block all let the pass go on. */
  predicate ReachesReady(w: World, k: Key, render: Renderer) {
    && k in w.buckets && !w.buckets[k].deleting && w.buckets[k].finalizer
    && SpecFilled(w.buckets[k].spec) && w.buckets[k].status.conditions != []
    && w.buckets[k].spec.provider in w.providers
    && var p := w.providers[w.buckets[k].spec.provider];
    && var r1 := OwnerStage(w, k);
    && r1.1
    && var r2 := BucketStage(r1.0, k, p.endpoint);
    && r2.1 && SecretStage(r2.0, k, render, p).1
  }

  /** Everything the Ready condition stands for. */
  ghost predicate Sound(w: World, k: Key, render: Renderer) {
    && k in w.buckets && w.buckets[k].spec.provider in w.providers
    && var b := w.buckets[k];
    && var a := AccountKey(k, b);
    && var sa := SaKey(a);
    && var t := TargetKey(k, b);
    && IsTrue(b.status.conditions, Ready)
    && a in w.accounts && ControllerOf(b.owners) == Some(AccountRef(a.name, w.accounts[a].uid))
    && MinioAt(k, b) in w.minio.buckets && b.status.endpoint.Some?
    && sa in w.secrets && t in w.secrets
    && ControllerOf(w.secrets[t].owners) == Some(BucketRef(k.name, b.uid))
    && Contents(render, b.spec.template, AccessOf(k, w.secrets[sa], w.providers[b.spec.provider])) == Some(w.secrets[t].data)
  }

  // ---------------------------------------------------------------- stage by stage

  /** The account is there and the bucket's owner list names it as it should. */
  predicate Owned(w: World, k: Key)
    requires k in w.buckets
  {
    var b := w.buckets[k];
    var a := AccountKey(k, b);
    a in w.accounts && Forced(b.owners, AccountRef(a.name, w.accounts[a].uid)) == b.owners
  }

  lemma OwnerStageOwns(w: World, k: Key)
    requires k in w.buckets && OwnerStage(w, k).1
    ensures var w1 := OwnerStage(w, k).0;
            Owned(w1, k) && w1 == w.(tick := w1.tick, nextUid := w1.nextUid, accounts := w1.accounts)
  {
  }

  lemma OwnedController(w: World, k: Key)
    requires k in w.buckets && Owned(w, k)
    requires AtMostOneController(w.buckets[k].owners) && ControllerFirst(w.buckets[k].owners)
    ensures var a := AccountKey(k, w.buckets[k]);
            ControllerOf(w.buckets[k].owners) == Some(AccountRef(a.name, w.accounts[a].uid))
  {
    var a := AccountKey(k, w.buckets[k]);
    OwnVersionParses();
    ForcedIdempotent(w.buckets[k].owners, AccountRef(a.name, w.accounts[a].uid));
  }

  /** A bucket that is owned as it should be is listed under its account and under no other. */
  lemma OwnedIsIndexedOnce(w: World, k: Key, account: string)
    requires k in w.buckets && Owned(w, k)
    requires AtMostOneController(w.buckets[k].owners) && ControllerFirst(w.buckets[k].owners)
    ensures k in Indexed(w, account) <==> account == w.buckets[k].spec.serviceAccount
  {
    OwnedController(w, k);
  }

  /** The target secret holds what the account's secret and the templates say,
      and is the bucket's. */
  predicate Filled(w: World, k: Key, render: Renderer, p: Provider)
    requires k in w.buckets
  {
    var b := w.buckets[k];
    var t := TargetKey(k, b);
    var sa := SaKey(AccountKey(k, b));
    && t in w.secrets && sa in w.secrets
    && Prepared(render, k, b, Some(w.secrets[t]), w.secrets[sa], p) == Some(w.secrets[t].(version := 0))
  }

  lemma FilledMeans(w: World, k: Key, render: Renderer, p: Provider)
    requires k in w.buckets && Filled(w, k, render, p)
    ensures var b := w.buckets[k];
            var t := TargetKey(k, b);
            && ControllerOf(w.secrets[t].owners) == Some(BucketRef(k.name, b.uid))
            && Contents(render, b.spec.template, AccessOf(k, w.secrets[SaKey(AccountKey(k, b))], p)) == Some(w.secrets[t].data)
  {
    var b := w.buckets[k];
    ClaimedController(w.secrets[TargetKey(k, b)].owners, BucketRef(k.name, b.uid));
  }

  /** Preparing a secret that has been prepared before gives the same secret,
      even when it is itself the secret the credentials are read from. */
  lemma PreparedAgain(render: Renderer, k: Key, b: Bucket, target: Option<Secret>, sa: Secret, p: Provider, version: nat)
    requires b.spec.template.Keys !! RESERVED && Prepared(render, k, b, target, sa, p).Some?
    ensures var s := Prepared(render, k, b, target, sa, p).value;
            && Prepared(render, k, b, Some(s.(version := version)), sa, p) == Some(s)
            && Prepared(render, k, b, Some(s.(version := version)), s.(version := version), p) == Some(s)
  {
    var s := Prepared(render, k, b, target, sa, p).value;
    var me := BucketRef(k.name, b.uid);
    OwnVersionParses();
    ClaimedIdempotent(if target.Some? then target.value.owners else [], me);
    var access := AccessOf(k, sa, p);
    OwnEntriesKept(render, b.spec.template, access);
    assert MINIO_ACCESS_KEY in RESERVED && MINIO_SECRET_KEY in RESERVED;
    assert AccessOf(k, s.(version := version), p) == access;
  }

  /** What storing the credentials changes: the target secret, and the bucket's
      record of its name when the secret is new. */
  predicate OnlyCredentials(w: World, k: Key, w': World) {
    && w' == w.(tick := w'.tick, secrets := w'.secrets, buckets := w'.buckets)
    && k in w.buckets && k in w'.buckets
    && w'.buckets[k] == w.buckets[k].(version := w'.buckets[k].version, status := w'.buckets[k].status)
    && (|| w'.buckets[k].status == w.buckets[k].status
        || w'.buckets[k].status == w.buckets[k].status.(secretName := w.buckets[k].spec.secretName))
  }

  lemma WriteSecretStores(w: World, k: Key, secret: Secret)
    requires k in w.buckets && secret.version == 0
    ensures var w' := WriteSecret(w, k, secret);
            var t := TargetKey(k, w.buckets[k]);
            && OnlyCredentials(w, k, w')
            && t in w'.secrets && w'.secrets[t].(version := 0) == secret
            && w'.secrets - {t} == w.secrets - {t}
  {
  }

  lemma CredentialStageFills(w: World, k: Key, render: Renderer, p: Provider)
    requires k in w.buckets && SaKey(AccountKey(k, w.buckets[k])) in w.secrets
    requires w.buckets[k].spec.template.Keys !! RESERVED && CredentialStage(w, k, render, p).Some?
    ensures OnlyCredentials(w, k, CredentialStage(w, k, render, p).value)
    ensures Filled(CredentialStage(w, k, render, p).value, k, render, p)
    ensures var t := TargetKey(k, w.buckets[k]);
            CredentialStage(w, k, render, p).value.secrets - {t} == w.secrets - {t}
  {
    var b := w.buckets[k];
    var t := TargetKey(k, b);
    var sa := SaKey(AccountKey(k, b));
    var target := if t in w.secrets then Some(w.secrets[t]) else None;
    var secret := Prepared(render, k, b, target, w.secrets[sa], p).value;
    WriteSecretStores(w, k, secret);
    StoredIsFilled(w, k, render, p, target, WriteSecret(w, k, secret));
  }

  lemma StoredIsFilled(w: World, k: Key, render: Renderer, p: Provider, target: Option<Secret>, w': World)
    requires OnlyCredentials(w, k, w') && w.buckets[k].spec.template.Keys !! RESERVED
    requires SaKey(AccountKey(k, w.buckets[k])) in w.secrets
    requires var t := TargetKey(k, w.buckets[k]);
             && t in w'.secrets && w'.secrets - {t} == w.secrets - {t}
             && Prepared(render, k, w.buckets[k], target, w.secrets[SaKey(AccountKey(k, w.buckets[k]))], p) ==
                Some(w'.secrets[t].(version := 0))
    ensures Filled(w', k, render, p)
  {
    var b := w.buckets[k];
    var t := TargetKey(k, b);
    var sa := SaKey(AccountKey(k, b));
    PreparedAgain(render, k, b, target, w.secrets[sa], p, w'.secrets[t].version);
    SameBucketPrepares(render, k, b, w'.buckets[k]);
    if sa != t {
      assert sa in w.secrets - {t} && (w.secrets - {t})[sa] == w.secrets[sa];
      assert sa in w'.secrets - {t} && (w'.secrets - {t})[sa] == w'.secrets[sa];
    }
  }

  lemma SameBucketPrepares(render: Renderer, k: Key, b: Bucket, b': Bucket)
    requires b'.uid == b.uid && b'.spec == b.spec
    ensures forall target, sa, p :: Prepared(render, k, b, target, sa, p) == Prepared(render, k, b', target, sa, p)
  {
  }

  lemma SecretStageFills(w0: World, k: Key, render: Renderer, p: Provider)
    requires k in w0.buckets && SecretStage(w0, k, render, p).1
    requires w0.buckets[k].spec.template.Keys !! RESERVED && w0.buckets[k].spec.secretName.Some?
    ensures var w := SecretStage(w0, k, render, p).0;
            Filled(w, k, render, p) && OnlyCredentials(w0, k, w) && WithoutOldSecret(w, k) == w
  {
    var w := WithoutOldSecret(w0, k);
    CredentialStageFills(w, k, render, p);
    OldSecretStaysAway(w, k, CredentialStage(w, k, render, p).value);
  }

  /** The secret's name is recorded exactly when the secret is created: Ready does
      not imply that the recorded name is the spec's. */
  lemma NameRecordedExactly(w0: World, k: Key, render: Renderer, p: Provider)
    requires k in w0.buckets && SecretStage(w0, k, render, p).1
    ensures var b, b' := w0.buckets[k], SecretStage(w0, k, render, p).0.buckets[k];
            b'.status.secretName == b.spec.secretName <==>
            TargetKey(k, b) !in WithoutOldSecret(w0, k).secrets || b.status.secretName == b.spec.secretName
  {
    var w := WithoutOldSecret(w0, k);
    var t := TargetKey(k, w.buckets[k]);
    var sa := w.secrets[SaKey(AccountKey(k, w.buckets[k]))];
    var secret := Prepared(render, k, w.buckets[k], if t in w.secrets then Some(w.secrets[t]) else None, sa, p).value;
    assert SecretStage(w0, k, render, p).0 == WriteSecret(w, k, secret);
  }

  lemma OldSecretStaysAway(w: World, k: Key, w': World)
    requires OnlyCredentials(w, k, w') && WithoutOldSecret(w, k) == w && w.buckets[k].spec.secretName.Some?
    requires forall t :: t in w'.secrets && t !in w.secrets ==> t == TargetKey(k, w.buckets[k])
    ensures WithoutOldSecret(w', k) == w'
  {
    var b := w.buckets[k];
    if b.status.secretName.Some? && b.status.secretName != b.spec.secretName {
      var old_ := Key(k.ns, b.status.secretName.value);
      assert old_ !in w.secrets;
      assert w'.secrets - {old_} == w'.secrets || old_ == TargetKey(k, b);
    }
  }

  lemma SecretStageAgain(w: World, k: Key, render: Renderer, p: Provider)
    requires k in w.buckets && Filled(w, k, render, p) && WithoutOldSecret(w, k) == w
    ensures SecretStage(w, k, render, p) == (w, true)
  {
  }

  /** A bucket told to use the account's own secret never gets there: the secret
      has a controller already. */
  lemma AccountSecretIsRefused(w: World, k: Key, render: Renderer, p: Provider)
    requires k in w.buckets && HasOwnSecret(w, AccountKey(k, w.buckets[k]))
    requires TargetKey(k, w.buckets[k]) == SaKey(AccountKey(k, w.buckets[k]))
    ensures !SecretStage(w, k, render, p).1
  {
    assert ACCOUNT_KIND != BUCKET_KIND;
  }

  // ---------------------------------------------------------------- the whole pass

  /** The world in which the Ready block is entered. */
  function AtReady(w: World, k: Key, render: Renderer): (w': World)
    requires ReachesReady(w, k, render)
    ensures k in w'.buckets
  {
    var p := w.providers[w.buckets[k].spec.provider];
    SecretStage(BucketStage(OwnerStage(w, k).0, k, p.endpoint).0, k, render, p).0
  }

  /** All that the stages establish, before and after the Ready block. */
  ghost predicate Established(w: World, k: Key, render: Renderer, p: Provider) {
    && k in w.buckets && Owned(w, k)
    && MinioAt(k, w.buckets[k]) in w.minio.buckets && w.buckets[k].status.endpoint.Some?
    && Filled(w, k, render, p) && WithoutOldSecret(w, k) == w
  }

  lemma StagesEstablish(w: World, k: Key, render: Renderer)
    requires ReachesReady(w, k, render) && w.buckets[k].spec.template.Keys !! RESERVED
    ensures var w' := AtReady(w, k, render);
            && Established(w', k, render, w.providers[w.buckets[k].spec.provider])
            && w'.providers == w.providers && w'.minio == w.minio
            && w'.buckets[k] == w.buckets[k].(version := w'.buckets[k].version, status := w'.buckets[k].status)
            && w'.buckets[k].status == w.buckets[k].status.(secretName := w'.buckets[k].status.secretName)
  {
    var p := w.providers[w.buckets[k].spec.provider];
    OwnerStageOwns(w, k);
    var w1 := OwnerStage(w, k).0;
    assert BucketStage(w1, k, p.endpoint).0 == w1;
    SecretStageFills(w1, k, render, p);
    StillOwned(w1, k, SecretStage(w1, k, render, p).0);
  }

  lemma StillOwned(w: World, k: Key, w': World)
    requires OnlyCredentials(w, k, w') && Owned(w, k)
    ensures Owned(w', k)
  {
  }

  /** At most the bucket's conditions and phase differ. */
  predicate OnlyConditions(w: World, k: Key, w': World) {
    && w' == w.(tick := w'.tick, buckets := w'.buckets) && k in w.buckets && k in w'.buckets
    && w'.buckets[k] == w.buckets[k].(version := w'.buckets[k].version, status := w'.buckets[k].status)
    && w'.buckets[k].status ==
       w.buckets[k].status.(conditions := w'.buckets[k].status.conditions, phase := w'.buckets[k].status.phase)
  }

  lemma StillEstablished(w: World, k: Key, render: Renderer, p: Provider, w': World)
    requires Established(w, k, render, p) && OnlyConditions(w, k, w')
    ensures Established(w', k, render, p)
  {
    SameBucketPrepares(render, k, w.buckets[k], w'.buckets[k]);
  }

  lemma ReadySetsConditions(w: World, k: Key)
    requires k in w.buckets
    ensures OnlyConditions(w, k, ReadyStage(w, k))
    ensures IsTrue(ReadyStage(w, k).buckets[k].status.conditions, Ready)
    ensures ReadyStage(w, k).buckets[k].status.conditions != []
  {
  }

  lemma ReadyEstablished(w: World, k: Key, render: Renderer, p: Provider)
    requires Established(w, k, render, p)
    ensures Established(ReadyStage(w, k), k, render, p)
  {
    ReadySetsConditions(w, k);
    StillEstablished(w, k, render, p, ReadyStage(w, k));
  }

  /** A pass that reaches the Ready block ends with everything Ready stands for. */
  lemma ReadyIsSound(w: World, k: Key, render: Renderer)
    requires ReachesReady(Begun(w), k, render) && w.buckets[k].spec.template.Keys !! RESERVED
    requires AtMostOneController(w.buckets[k].owners) && ControllerFirst(w.buckets[k].owners)
    ensures Sound(BucketPass(w, k, render), k, render)
  {
    PassEnd(w, k, render);
    var w' := BucketPass(w, k, render);
    OwnedController(w', k);
    FilledMeans(w', k, render, w'.providers[w'.buckets[k].spec.provider]);
  }

  /** Where such a pass ends. */
  lemma PassEnd(w: World, k: Key, render: Renderer)
    requires ReachesReady(Begun(w), k, render) && w.buckets[k].spec.template.Keys !! RESERVED
    ensures var w' := BucketPass(w, k, render);
            && w' == ReadyStage(AtReady(Begun(w), k, render), k)
            && k in w'.buckets && w'.buckets[k].spec == w.buckets[k].spec && w'.providers == w.providers
            && w'.buckets[k].owners == w.buckets[k].owners
            && !w'.buckets[k].deleting && w'.buckets[k].finalizer && w'.buckets[k].status.conditions != []
            && IsTrue(w'.buckets[k].status.conditions, Ready)
            && Established(w', k, render, w.providers[w.buckets[k].spec.provider])
  {
    var w0 := Begun(w);
    var p := w0.providers[w0.buckets[k].spec.provider];
    assert BucketPass(w, k, render) == LivePass(w0, k, render) == StagesPass(w0, k, render, p);
    StagesEstablish(w0, k, render);
    ReadySetsConditions(AtReady(w0, k, render), k);
    ReadyEstablished(AtReady(w0, k, render), k, render, p);
  }

  /** Where everything is established, a pass changes nothing that is stored. */
  lemma EstablishedIsSettled(w: World, k: Key, render: Renderer)
    requires k in w.buckets && !w.buckets[k].deleting && w.buckets[k].finalizer
    requires SpecFilled(w.buckets[k].spec) && w.buckets[k].status.conditions != []
    requires w.buckets[k].spec.provider in w.providers
    requires Established(w, k, render, w.providers[w.buckets[k].spec.provider])
    requires IsTrue(w.buckets[k].status.conditions, Ready)
    ensures SameContent(w, BucketPass(w, k, render))
  {
    var w0 := Begun(w);
    var p := w.providers[w.buckets[k].spec.provider];
    assert OwnerStage(w0, k) == (w0, true);
    assert BucketStage(w0, k, p.endpoint) == (w0, true);
    assert Filled(w0, k, render, p) && WithoutOldSecret(w0, k) == w0;
    SecretStageAgain(w0, k, render, p);
  }

  /** The next undisturbed pass changes nothing that is stored. */
  lemma ReadyIsSettled(w: World, k: Key, render: Renderer)
    requires ReachesReady(Begun(w), k, render) && w.buckets[k].spec.template.Keys !! RESERVED
    ensures var w' := BucketPass(w, k, render); SameContent(w', BucketPass(w', k, render))
  {
    PassEnd(w, k, render);
    EstablishedIsSettled(BucketPass(w, k, render), k, render);
  }

  predicate NotReady(w: World, k: Key) {
    k in w.buckets ==> !IsTrue(w.buckets[k].status.conditions, Ready)
  }

  lemma OtherChangesNotReady(w: World, k: Key, change: Change)
    requires k in w.buckets && NotReady(w, k) && change != Succeed
    ensures NotReady(Save(w, k, BucketChanged(w.buckets[k].status, change, w.now)), k)
  {
  }

  lemma StagesNotReady(w: World, k: Key, render: Renderer, p: Provider)
    requires k in w.buckets && NotReady(w, k)
    ensures NotReady(OwnerStage(w, k).0, k) && NotReady(BucketStage(w, k, p.endpoint).0, k)
    ensures NotReady(SecretStage(w, k, render, p).0, k)
  {
    OwnerNotReady(w, k);
    BucketNotReady(w, k, p.endpoint);
    SecretNotReady(w, k, render, p);
  }

  lemma BucketNotReady(w: World, k: Key, endpoint: string)
    requires k in w.buckets && NotReady(w, k)
    ensures NotReady(BucketStage(w, k, endpoint).0, k)
  {
    OtherChangesNotReady(w, k, Change.Fail);
  }

  lemma OwnersNotReady(w: World, k: Key, owners: seq<OwnerRef>)
    requires k in w.buckets && NotReady(w, k)
    ensures NotReady(PutBucket(w, k, w.buckets[k].(owners := owners)), k)
  {
  }

  lemma OwnerNotReady(w: World, k: Key)
    requires k in w.buckets && NotReady(w, k)
    ensures NotReady(OwnerStage(w, k).0, k)
  {
    OtherChangesNotReady(w, k, Change.Fail);
    var b := w.buckets[k];
    var a := AccountKey(k, b);
    var w1 := if a in w.accounts then w else NewAccount(w, a, b.spec.provider);
    OwnersNotReady(w1, k, Forced(b.owners, AccountRef(a.name, w1.accounts[a].uid)));
  }

  lemma SecretNotReady(w0: World, k: Key, render: Renderer, p: Provider)
    requires k in w0.buckets && NotReady(w0, k)
    ensures NotReady(SecretStage(w0, k, render, p).0, k)
  {
    var w := WithoutOldSecret(w0, k);
    OtherChangesNotReady(w, k, Change.Fail);
    var sa := SaKey(AccountKey(k, w.buckets[k]));
    if sa in w.secrets {
      var t := TargetKey(k, w.buckets[k]);
      var secret := Prepared(render, k, w.buckets[k], if t in w.secrets then Some(w.secrets[t]) else None, w.secrets[sa], p);
      if secret.Some? {
        WriteSecretStores(w, k, secret.value);
      }
    }
  }

  lemma LiveNotReady(w: World, k: Key, render: Renderer)
    requires k in w.buckets && NotReady(w, k) && !NotReady(LivePass(w, k, render), k)
    ensures w.buckets[k].spec.provider in w.providers
    ensures var p := w.providers[w.buckets[k].spec.provider];
            var r1 := OwnerStage(w, k);
            r1.1 && var r2 := BucketStage(r1.0, k, p.endpoint); r2.1 && SecretStage(r2.0, k, render, p).1
  {
    OtherChangesNotReady(w, k, Change.Fail);
    if w.buckets[k].spec.provider in w.providers {
      var p := w.providers[w.buckets[k].spec.provider];
      StagesNotReady(w, k, render, p);
      var r1 := OwnerStage(w, k);
      StagesNotReady(r1.0, k, render, p);
      StagesNotReady(BucketStage(r1.0, k, p.endpoint).0, k, render, p);
    }
  }

  lemma DeletionNotReady(w: World, k: Key)
    requires k in w.buckets && NotReady(w, k)
    ensures NotReady(DeletionPass(w, k), k)
  {
    OtherChangesNotReady(w, k, Erase);
  }

  lemma EditNotReady(w: World, k: Key, spec: BucketSpec)
    requires k in w.buckets && NotReady(w, k)
    ensures NotReady(PutBucket(w, k, w.buckets[k].(spec := spec)), k)
  {
  }

  lemma SpecNotReady(w: World, k: Key)
    requires k in w.buckets && NotReady(w, k)
    ensures NotReady(SpecPass(w, k), k)
  {
    OtherChangesNotReady(w, k, Change.Fail);
    var spec := w.buckets[k].spec;
    var d := DefaultOf(w);
    EditNotReady(w, k, spec.(provider := if d.Some? then d.value else ""));
    EditNotReady(w, k, spec.(secretName := Some(DefaultSecretName(k.name))));
    EditNotReady(w, k, spec.(reclaim := Retain));
  }

  /** Ready is set nowhere else. */
  lemma ReadyOnlyByReaching(w: World, k: Key, render: Renderer)
    requires k in w.buckets && !IsTrue(w.buckets[k].status.conditions, Ready)
    requires k in BucketPass(w, k, render).buckets
    requires IsTrue(BucketPass(w, k, render).buckets[k].status.conditions, Ready)
    ensures ReachesReady(Begun(w), k, render)
  {
    var w0 := Begun(w);
    DeletionNotReady(w0, k);
    SpecNotReady(w0, k);
    OtherChangesNotReady(w0, k, Create);
    if !NotReady(LivePass(w0, k, render), k) {
      LiveNotReady(w0, k, render);
    }
  }

  /** The credentials a sound bucket's secret holds are live: its access key is
      the one key of the account's user. */
  lemma SoundCredentialsAreLive(w: World, k: Key, render: Renderer)
    requires Agreement(w) && Sound(w, k, render) && w.buckets[k].spec.template.Keys !! RESERVED
    requires HasOwnSecret(w, AccountKey(k, w.buckets[k]))
    ensures var b := w.buckets[k];
            var a := AccountKey(k, b);
            var data := w.secrets[TargetKey(k, b)].data;
            && RESERVED <= data.Keys && data[MINIO_ACCESS_KEY].AccessKey?
            && data[MINIO_SECRET_KEY] == SecretKey(data[MINIO_ACCESS_KEY].serial)
            && SoleKey(w.minio, UserOf(a, w.accounts[a].provider), data[MINIO_ACCESS_KEY].serial)
            && data[MINIO_BUCKET] == Text(k.name)
  {
    var b := w.buckets[k];
    var serial := AgreedSerial(w, AccountKey(k, b));
    var access := AccessOf(k, w.secrets[SaKey(AccountKey(k, b))], w.providers[b.spec.provider]);
    assert access.accessKey == AccessKey(serial) && access.secretKey == SecretKey(serial);
    OwnEntriesKept(render, b.spec.template, access);
    assert MINIO_ACCESS_KEY in RESERVED && MINIO_SECRET_KEY in RESERVED && MINIO_BUCKET in RESERVED;
  }

  /** Whether they work at the endpoint beside them is another matter: the access key is
      live on that server if and only if the account is of the bucket's provider. */
  lemma CredentialsWorkExactly(w: World, k: Key, render: Renderer)
    requires Agreement(w) && SerialsUnique(w)
    requires Sound(w, k, render) && w.buckets[k].spec.template.Keys !! RESERVED
    requires HasOwnSecret(w, AccountKey(k, w.buckets[k]))
    ensures var b := w.buckets[k];
            var data := w.secrets[TargetKey(k, b)].data;
            && RESERVED <= data.Keys && data[MINIO_ACCESS_KEY].AccessKey?
            && data[MINIO_ENDPOINT] == Text(w.providers[b.spec.provider].endpoint)
            && (Live(b.spec.provider, data[MINIO_ACCESS_KEY].serial) in w.minio.keys <==>
                w.accounts[AccountKey(k, b)].provider == b.spec.provider)
  {
    var b := w.buckets[k];
    var a := AccountKey(k, b);
    SoundCredentialsAreLive(w, k, render);
    OwnEntriesKept(render, b.spec.template, AccessOf(k, w.secrets[SaKey(a)], w.providers[b.spec.provider]));
    assert MINIO_ENDPOINT in RESERVED;
    var serial := w.secrets[TargetKey(k, b)].data[MINIO_ACCESS_KEY].serial;
    assert serial in KeysOf(w.minio, UserOf(a, w.accounts[a].provider));
    assert Live(w.accounts[a].provider, serial) in w.minio.keys;
  }

  lemma AgreedSerial(w: World, a: Key) returns (serial: nat)
    requires Agreement(w) && HasOwnSecret(w, a)
    ensures SoleKey(w.minio, UserOf(a, w.accounts[a].provider), serial)
    ensures w.secrets[SaKey(a)].data == map[MINIO_ACCESS_KEY := AccessKey(serial), MINIO_SECRET_KEY := SecretKey(serial)]
  {
    assert Agrees(w, a);
    serial :| SoleKey(w.minio, UserOf(a, w.accounts[a].provider), serial) &&
      w.secrets[SaKey(a)].data == map[MINIO_ACCESS_KEY := AccessKey(serial), MINIO_SECRET_KEY := SecretKey(serial)];
  }
}
