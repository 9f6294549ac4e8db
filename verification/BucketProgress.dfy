/** Every undisturbed pass over a live bucket with fresh names either changes
    nothing that is stored or meets a milestone it had not met before. */
module BucketProgress {
  import opened Wrappers
  import opened Owners
  import opened Conditions
  import opened Worlds
  import opened Actions
  import opened Invariants
  import opened Providers
  import opened SecretData
  import opened BucketPasses
  import opened Settled
  import opened AccountProgress

  function TheAccount(w: World, k: Key): Key
    requires k in w.buckets
  {
    AccountKey(k, w.buckets[k])
  }

  /** The secret the bucket will end up using. */
  function FinalSecret(k: Key, spec: BucketSpec): Key {
    Key(k.ns, if spec.secretName.Some? then spec.secretName.value else DefaultSecretName(k.name))
  }

  /** A live bucket whose provider is there or will be found by default, and whose
      account and secret nobody else uses. */
  ghost predicate JointButMinio(w: World, k: Key, render: Renderer) {
    && k in w.buckets && OneDefault(w)
    && LiveBucket(w.buckets[k], k, render) && ProviderKnown(w, w.buckets[k].spec.provider)
    && AccountUsable(w, TheAccount(w, k)) && SecretFresh(w, k)
  }

  /** Besides, its MinIO bucket is not somebody else's, or as good as that. */
  ghost predicate Joint(w: World, k: Key, render: Renderer) {
    JointButMinio(w, k, render) && MinioFresh(w, k)
  }

  ghost predicate LiveBucket(b: Bucket, k: Key, render: Renderer) {
    && !b.deleting && AtMostOneController(b.owners) && ControllerFirst(b.owners)
    && b.spec.template.Keys !! RESERVED && (forall access :: Renders(render, b.spec.template, access))
    && (b.status.secretName.None? || Key(k.ns, b.status.secretName.value) == FinalSecret(k, b.spec))
  }

  ghost predicate ProviderKnown(w: World, provider: string) {
    if provider == "" then exists d :: d != "" && DefaultProvider(w, d) else provider in w.providers
  }

  ghost predicate AccountUsable(w: World, a: Key) {
    if a in w.accounts then !w.accounts[a].deleting && w.accounts[a].provider in w.providers
    else forall p :: p in w.providers ==> FreshAccount(w, a, p)
  }

  /** The provider the bucket has, or will be given. */
  predicate WillUse(w: World, spec: BucketSpec, p: string) {
    if spec.provider == "" then DefaultProvider(w, p) else p == spec.provider
  }

  /** A MinIO bucket of that name on its server is one that the endpoint already records. */
  ghost predicate MinioFresh(w: World, k: Key)
    requires k in w.buckets
  {
    forall p :: WillUse(w, w.buckets[k].spec, p) && At(p, k.name) in w.minio.buckets ==>
      w.buckets[k].status.endpoint.Some?
  }

  /** The secret is not the account's, and nobody else's. */
  ghost predicate SecretFresh(w: World, k: Key)
    requires k in w.buckets
  {
    var t := FinalSecret(k, w.buckets[k].spec);
    && t != SaKey(TheAccount(w, k))
    && (t in w.secrets ==> Claimed(w.secrets[t].owners, BucketRef(k.name, w.buckets[k].uid)).Some?)
  }

  lemma SameProviders(w: World, w': World, provider: string)
    requires w.providers == w'.providers && OneDefault(w) && ProviderKnown(w, provider)
    ensures OneDefault(w') && ProviderKnown(w', provider)
  {
    assert forall d :: DefaultProvider(w', d) <==> DefaultProvider(w, d);
  }

  /** Who the bucket's provider will be depends on the spec and the providers only. */
  lemma SameMinioFresh(w: World, w': World, k: Key)
    requires k in w.buckets && k in w'.buckets && w.providers == w'.providers
    requires w'.buckets[k].spec.provider == w.buckets[k].spec.provider && w'.minio.buckets == w.minio.buckets
    requires w'.buckets[k].status.endpoint == w.buckets[k].status.endpoint && MinioFresh(w, k)
    ensures MinioFresh(w', k)
  {
    assert forall p :: WillUse(w', w'.buckets[k].spec, p) <==> WillUse(w, w.buckets[k].spec, p);
  }

  lemma SameAccounts(w: World, w': World, a: Key)
    requires w.providers == w'.providers && w.accounts == w'.accounts && AccountUsable(w, a)
    ensures AccountUsable(w', a)
  {
    assert forall p :: FreshAccount(w', a, p) <==> FreshAccount(w, a, p);
  }

  // ---------------------------------------------------------------- milestones

  predicate MinioDone(w: World, k: Key)
    requires k in w.buckets
  {
    var b := w.buckets[k];
    b.spec.provider != "" && MinioAt(k, b) in w.minio.buckets && b.status.endpoint.Some?
  }

  predicate SecretDone(w: World, k: Key, render: Renderer)
    requires k in w.buckets
  {
    var b := w.buckets[k];
    && b.spec.provider != "" && b.spec.provider in w.providers && b.spec.secretName.Some?
    && Filled(w, k, render, w.providers[b.spec.provider])
  }

  /** The milestones of the object itself. */
  function SpecUnmet(b: Bucket): nat {
    Unmet(b.finalizer) + Unmet(b.spec.provider != "") + Unmet(b.spec.secretName.Some?) +
    Unmet(b.spec.reclaim != Unset) + Unmet(b.status.conditions != []) + Unmet(IsTrue(b.status.conditions, Ready))
  }

  function BucketUnmet(w: World, k: Key, render: Renderer): nat
    requires k in w.buckets
  {
    SpecUnmet(w.buckets[k]) + Unmet(Owned(w, k)) + Unmet(MinioDone(w, k)) + Unmet(SecretDone(w, k, render))
  }

  ghost predicate BucketGains(w: World, k: Key, render: Renderer, w': World)
    requires k in w.buckets
  {
    && Joint(w', k, render) && TheAccount(w', k) == TheAccount(w, k)
    && (SameContent(w, w') || BucketUnmet(w', k, render) < BucketUnmet(w, k, render))
  }

  lemma SameContentSameBucket(w: World, w': World, k: Key, render: Renderer)
    requires SameContent(w, w') && k in w.buckets
    ensures BucketUnmet(w, k, render) == BucketUnmet(w', k, render)
    ensures Joint(w, k, render) ==> Joint(w', k, render)
  {
    if Joint(w, k, render) {
      SameProviders(w, w', w.buckets[k].spec.provider);
      SameAccounts(w, w', TheAccount(w, k));
      SameMinioFresh(w, w', k);
    }
  }

  lemma BucketGainsTransitive(w: World, w1: World, w2: World, k: Key, render: Renderer)
    requires k in w.buckets && BucketGains(w, k, render, w1) && BucketGains(w1, k, render, w2)
    ensures BucketGains(w, k, render, w2)
  {
    if SameContent(w, w1) {
      SameContentSameBucket(w, w1, k, render);
    }
    if SameContent(w1, w2) {
      SameContentSameBucket(w1, w2, k, render);
    }
  }

  // ---------------------------------------------------------------- edits of the object

  /** At most this bucket differs. */
  predicate OnlyBucket(w: World, k: Key, w': World) {
    && w' == w.(tick := w'.tick, buckets := w'.buckets) && k in w.buckets && k in w'.buckets
    && w'.buckets - {k} == w.buckets - {k}
  }

  /** An edit that fills something in and takes nothing away. */
  ghost predicate FillsIn(k: Key, w: World, b: Bucket, b': Bucket) {
    && b'.uid == b.uid && b'.deleting == b.deleting && b'.owners == b.owners
    && b'.spec.template == b.spec.template && b'.spec.serviceAccount == b.spec.serviceAccount
    && b'.status.endpoint == b.status.endpoint && b'.status.secretName == b.status.secretName
    && FinalSecret(k, b'.spec) == FinalSecret(k, b.spec)
    && (b'.spec.provider == b.spec.provider || (b.spec.provider == "" && b'.spec.provider != "" && DefaultProvider(w, b'.spec.provider)))
    && (b.spec.secretName.Some? ==> b'.spec.secretName == b.spec.secretName)
  }

  lemma FillingKeepsJoint(w: World, k: Key, render: Renderer, w': World)
    requires Joint(w, k, render) && OnlyBucket(w, k, w') && FillsIn(k, w, w.buckets[k], w'.buckets[k])
    ensures Joint(w', k, render) && TheAccount(w', k) == TheAccount(w, k)
  {
    SameProviders(w, w', w.buckets[k].spec.provider);
    SameAccounts(w, w', TheAccount(w, k));
    assert forall p :: WillUse(w', w'.buckets[k].spec, p) ==> WillUse(w, w.buckets[k].spec, p);
  }

  lemma FillingKeepsMilestones(w: World, k: Key, render: Renderer, w': World)
    requires Joint(w, k, render) && OnlyBucket(w, k, w') && FillsIn(k, w, w.buckets[k], w'.buckets[k])
    ensures Owned(w, k) ==> Owned(w', k)
    ensures MinioDone(w, k) ==> MinioDone(w', k)
    ensures SecretDone(w, k, render) ==> SecretDone(w', k, render)
  {
    SameTemplatePrepares(render, k, w.buckets[k], w'.buckets[k]);
  }

  lemma SameTemplatePrepares(render: Renderer, k: Key, b: Bucket, b': Bucket)
    requires b'.uid == b.uid && b'.spec.template == b.spec.template
    ensures forall target, sa, p :: Prepared(render, k, b, target, sa, p) == Prepared(render, k, b', target, sa, p)
  {
  }

  lemma FillingGains(w: World, k: Key, render: Renderer, w': World)
    requires Joint(w, k, render) && OnlyBucket(w, k, w') && FillsIn(k, w, w.buckets[k], w'.buckets[k])
    requires SpecUnmet(w'.buckets[k]) < SpecUnmet(w.buckets[k])
    ensures BucketGains(w, k, render, w')
  {
    FillingKeepsJoint(w, k, render, w');
    FillingKeepsMilestones(w, k, render, w');
  }

  lemma FinalizerGains(w: World, k: Key, render: Renderer)
    requires Joint(w, k, render) && !w.buckets[k].finalizer
    ensures BucketGains(w, k, render, PutBucket(w, k, w.buckets[k].(finalizer := true)))
  {
    FillingGains(w, k, render, PutBucket(w, k, w.buckets[k].(finalizer := true)));
  }

  lemma DefaultIsFound(w: World)
    requires ProviderKnown(w, "") && OneDefault(w)
    ensures DefaultOf(w).Some? && DefaultOf(w).value != "" && DefaultProvider(w, DefaultOf(w).value)
  {
  }

  lemma SpecGains(w: World, k: Key, render: Renderer)
    requires Joint(w, k, render) && !SpecFilled(w.buckets[k].spec)
    ensures BucketGains(w, k, render, SpecPass(w, k))
  {
    if w.buckets[k].spec.provider == "" {
      DefaultIsFound(w);
    }
    FillingGains(w, k, render, SpecPass(w, k));
  }

  lemma CreatingGains(w: World, k: Key, render: Renderer)
    requires Joint(w, k, render) && w.buckets[k].status.conditions == []
    ensures BucketGains(w, k, render, Save(w, k, BucketChanged(w.buckets[k].status, Create, w.now)))
  {
    FillingGains(w, k, render, Save(w, k, BucketChanged(w.buckets[k].status, Create, w.now)));
  }

  lemma ReadyingGains(w: World, k: Key, render: Renderer)
    requires Joint(w, k, render) && w.buckets[k].status.conditions != []
    ensures BucketGains(w, k, render, BucketPasses.ReadyStage(w, k))
  {
    ReadySetsConditions(w, k);
    if !IsTrue(w.buckets[k].status.conditions, Ready) {
      FillingGains(w, k, render, BucketPasses.ReadyStage(w, k));
    }
  }

  // ---------------------------------------------------------------- the account and its reference

  /** What the owner stage may change: the account appears, the owner list is rewritten. */
  predicate OnlyOwners(w: World, k: Key, w': World)
    requires k in w.buckets
  {
    && w' == w.(tick := w'.tick, nextUid := w'.nextUid, accounts := w'.accounts, buckets := w'.buckets)
    && k in w'.buckets
    && w'.buckets[k] == w.buckets[k].(version := w'.buckets[k].version, owners := w'.buckets[k].owners)
  }

  lemma AccountAppears(w: World, k: Key, render: Renderer)
    requires Joint(w, k, render) && w.buckets[k].spec.provider != "" && TheAccount(w, k) !in w.accounts
    ensures var w1 := NewAccount(w, TheAccount(w, k), w.buckets[k].spec.provider);
            && FreshAccount(w, TheAccount(w, k), w.buckets[k].spec.provider)
            && TheAccount(w, k) in w1.accounts && AccountUsable(w1, TheAccount(w, k))
            && w1 == w.(tick := w1.tick, nextUid := w1.nextUid, accounts := w1.accounts)
  {
  }

  /** The rewritten owner list names the account, and would not be rewritten again. */
  lemma ForcingOwns(w1: World, k: Key, owners: seq<OwnerRef>, w': World)
    requires k in w1.buckets && TheAccount(w1, k) in w1.accounts
    requires AtMostOneController(w1.buckets[k].owners) && ControllerFirst(w1.buckets[k].owners)
    requires owners == Forced(w1.buckets[k].owners,
                              AccountRef(TheAccount(w1, k).name, w1.accounts[TheAccount(w1, k)].uid))
    requires OnlyOwners(w1, k, w') && w'.accounts == w1.accounts && w'.buckets[k].owners == owners
    ensures Owned(w', k) && AtMostOneController(owners) && ControllerFirst(owners)
  {
    OwnVersionParses();
    ForcedIdempotent(w1.buckets[k].owners, AccountRef(TheAccount(w1, k).name, w1.accounts[TheAccount(w1, k)].uid));
  }

  lemma OwnerStageShape(w: World, k: Key, render: Renderer)
    requires Joint(w, k, render) && w.buckets[k].spec.provider != ""
    ensures var w' := OwnerStage(w, k).0;
            && OnlyOwners(w, k, w') && Owned(w', k) && AccountUsable(w', TheAccount(w, k))
            && AtMostOneController(w'.buckets[k].owners) && ControllerFirst(w'.buckets[k].owners)
            && (Owned(w, k) ==> w' == w) && (OwnerStage(w, k).1 ==> w'.buckets == w.buckets)
  {
    if TheAccount(w, k) in w.accounts {
      OwnerStageWithAccount(w, k);
      ForcingOwns(w, k, OwnerStage(w, k).0.buckets[k].owners, OwnerStage(w, k).0);
      SameAccounts(w, OwnerStage(w, k).0, TheAccount(w, k));
    } else {
      AccountAppears(w, k, render);
      var w1 := NewAccount(w, TheAccount(w, k), w.buckets[k].spec.provider);
      OwnerStageWithAccount(w1, k);
      assert OwnerStage(w, k) == OwnerStage(w1, k);
      ForcingOwns(w1, k, OwnerStage(w1, k).0.buckets[k].owners, OwnerStage(w1, k).0);
      SameAccounts(w1, OwnerStage(w1, k).0, TheAccount(w, k));
    }
  }

  lemma OwnerStageWithAccount(w: World, k: Key)
    requires k in w.buckets && TheAccount(w, k) in w.accounts
    ensures var (w', ok) := OwnerStage(w, k);
            var owners := Forced(w.buckets[k].owners,
                                 AccountRef(TheAccount(w, k).name, w.accounts[TheAccount(w, k)].uid));
            && OnlyOwners(w, k, w') && w'.accounts == w.accounts && w'.buckets[k].owners == owners
            && (Owned(w, k) ==> w' == w) && (ok ==> w' == w)
  {
  }

  lemma OwnersKeepRest(w: World, k: Key, render: Renderer, w': World)
    requires Joint(w, k, render) && OnlyOwners(w, k, w') && AccountUsable(w', TheAccount(w, k))
    requires AtMostOneController(w'.buckets[k].owners) && ControllerFirst(w'.buckets[k].owners)
    ensures Joint(w', k, render)
    ensures SpecUnmet(w'.buckets[k]) == SpecUnmet(w.buckets[k])
    ensures MinioDone(w, k) == MinioDone(w', k) && SecretDone(w, k, render) == SecretDone(w', k, render)
  {
    SameProviders(w, w', w.buckets[k].spec.provider);
    SameMinioFresh(w, w', k);
    SameTemplatePrepares(render, k, w.buckets[k], w'.buckets[k]);
  }

  lemma OwnerGains(w: World, k: Key, render: Renderer)
    requires Joint(w, k, render) && w.buckets[k].spec.provider != ""
    ensures BucketGains(w, k, render, OwnerStage(w, k).0)
  {
    OwnerStageShape(w, k, render);
    OwnersKeepRest(w, k, render, OwnerStage(w, k).0);
  }

  // ---------------------------------------------------------------- the MinIO bucket

  lemma MinioGains(w: World, k: Key, render: Renderer, endpoint: string)
    requires Joint(w, k, render) && w.buckets[k].spec.provider != ""
    ensures BucketGains(w, k, render, BucketStage(w, k, endpoint).0)
    ensures BucketStage(w, k, endpoint).1 ==> BucketStage(w, k, endpoint).0 == w && MinioDone(w, k)
  {
    assert WillUse(w, w.buckets[k].spec, w.buckets[k].spec.provider);
    if MinioAt(k, w.buckets[k]) !in w.minio.buckets {
      MadeShape(w, k, endpoint);
      MakingGains(w, k, render, BucketStage(w, k, endpoint).0);
    }
  }

  /** What making the MinIO bucket changes: it is there, and its endpoint recorded. */
  predicate OnlyMade(w: World, k: Key, w': World)
    requires k in w.buckets
  {
    var b := w.buckets[k];
    && k in w'.buckets && w'.buckets[k].status.endpoint.Some?
    && w'.buckets[k] == b.(version := w'.buckets[k].version, status := b.status.(endpoint := w'.buckets[k].status.endpoint))
    && w' == w.(tick := w'.tick, buckets := w'.buckets, past := w'.past,
                minio := w.minio.(buckets := w.minio.buckets + {MinioAt(k, b)}))
  }

  lemma MadeShape(w: World, k: Key, endpoint: string)
    requires k in w.buckets && MinioAt(k, w.buckets[k]) !in w.minio.buckets
    ensures OnlyMade(w, k, BucketStage(w, k, endpoint).0) && !BucketStage(w, k, endpoint).1
  {
  }

  lemma MakingGains(w: World, k: Key, render: Renderer, w': World)
    requires Joint(w, k, render) && w.buckets[k].spec.provider != "" && OnlyMade(w, k, w')
    requires MinioAt(k, w.buckets[k]) !in w.minio.buckets
    ensures BucketGains(w, k, render, w')
  {
    SameProviders(w, w', w.buckets[k].spec.provider);
    SameAccounts(w, w', TheAccount(w, k));
    SameTemplatePrepares(render, k, w.buckets[k], w'.buckets[k]);
  }

  // ---------------------------------------------------------------- the secret

  lemma SecretStageShape(w: World, k: Key, render: Renderer, p: Provider)
    requires Joint(w, k, render) && SpecFilled(w.buckets[k].spec) && SaKey(TheAccount(w, k)) in w.secrets
    ensures CredentialStage(w, k, render, p).Some?
    ensures SecretStage(w, k, render, p) == (CredentialStage(w, k, render, p).value, true)
    ensures WithoutOldSecret(w, k) == w
  {
    var b := w.buckets[k];
    assert Renders(render, b.spec.template, AccessOf(k, w.secrets[SaKey(AccountKey(k, b))], p));
  }

  lemma CredentialsKeepJoint(w: World, k: Key, render: Renderer, p: Provider, w': World)
    requires Joint(w, k, render) && OnlyCredentials(w, k, w') && Filled(w', k, render, p)
    requires SpecFilled(w.buckets[k].spec)
    ensures Joint(w', k, render)
    ensures SpecUnmet(w'.buckets[k]) == SpecUnmet(w.buckets[k])
    ensures Owned(w, k) ==> Owned(w', k)
    ensures MinioDone(w, k) ==> MinioDone(w', k)
  {
    SameProviders(w, w', w.buckets[k].spec.provider);
    SameAccounts(w, w', TheAccount(w, k));
    SameMinioFresh(w, w', k);
  }

  lemma SecretGains(w: World, k: Key, render: Renderer)
    requires Joint(w, k, render) && SpecFilled(w.buckets[k].spec)
    ensures BucketGains(w, k, render, SecretStage(w, k, render, w.providers[w.buckets[k].spec.provider]).0)
    ensures var r := SecretStage(w, k, render, w.providers[w.buckets[k].spec.provider]);
            && r.0.buckets[k].spec == w.buckets[k].spec
            && r.0.buckets[k].status.conditions == w.buckets[k].status.conditions
            && (if r.1 then SecretDone(r.0, k, render) else r.0 == w && SaKey(TheAccount(w, k)) !in w.secrets)
  {
    var p := w.providers[w.buckets[k].spec.provider];
    if SaKey(TheAccount(w, k)) in w.secrets {
      SecretStageShape(w, k, render, p);
      CredentialStageFills(w, k, render, p);
      var w' := CredentialStage(w, k, render, p).value;
      CredentialsKeepJoint(w, k, render, p, w');
      if SecretDone(w, k, render) {
        SecretStageAgain(w, k, render, p);
      }
    } else {
      assert WithoutOldSecret(w, k) == w;
    }
  }

  // ---------------------------------------------------------------- the whole pass

  lemma FinishGains(w: World, k: Key, render: Renderer)
    requires Joint(w, k, render) && SpecFilled(w.buckets[k].spec) && w.buckets[k].status.conditions != []
    ensures var r := SecretStage(w, k, render, w.providers[w.buckets[k].spec.provider]);
            BucketGains(w, k, render, if r.1 then BucketPasses.ReadyStage(r.0, k) else r.0)
  {
    SecretGains(w, k, render);
    var r := SecretStage(w, k, render, w.providers[w.buckets[k].spec.provider]);
    if r.1 {
      ReadyingGains(r.0, k, render);
      BucketGainsTransitive(w, r.0, BucketPasses.ReadyStage(r.0, k), k, render);
    }
  }

  lemma StagesGain(w: World, k: Key, render: Renderer)
    requires Joint(w, k, render) && SpecFilled(w.buckets[k].spec) && w.buckets[k].status.conditions != []
    ensures BucketGains(w, k, render, BucketPasses.LivePass(w, k, render))
  {
    var p := w.providers[w.buckets[k].spec.provider];
    OwnerGains(w, k, render);
    OwnerStageShape(w, k, render);
    var (w1, ok1) := OwnerStage(w, k);
    if ok1 {
      MinioGains(w1, k, render, p.endpoint);
      var (w2, ok2) := BucketStage(w1, k, p.endpoint);
      if ok2 {
        FinishGains(w2, k, render);
      }
      BucketGainsTransitive(w, w1, BucketPasses.LivePass(w, k, render), k, render);
    }
  }

  /** Every pass over a live bucket with fresh names gains, or changes nothing. */
  lemma BucketPassGains(w: World, k: Key, render: Renderer)
    requires Joint(w, k, render)
    ensures BucketGains(w, k, render, BucketPass(w, k, render))
  {
    var w0 := Begun(w);
    SameContentSameBucket(w, w0, k, render);
    var b := w0.buckets[k];
    if !b.finalizer {
      FinalizerGains(w0, k, render);
    } else if !SpecFilled(b.spec) {
      SpecGains(w0, k, render);
    } else if b.status.conditions == [] {
      CreatingGains(w0, k, render);
    } else {
      StagesGain(w0, k, render);
    }
    BucketGainsTransitive(w, w0, BucketPass(w, k, render), k, render);
  }

  // ---------------------------------------------------------------- when nothing changes any more

  lemma UnchangedReaches(w: World, k: Key, render: Renderer)
    requires Joint(w, k, render) && SameContent(w, BucketPass(w, k, render))
    ensures Owned(w, k) && w.buckets[k].spec.provider != ""
    ensures SaKey(TheAccount(w, k)) in w.secrets ==> ReachesReady(Begun(w), k, render)
  {
    var w0 := Begun(w);
    var w' := BucketPass(w, k, render);
    var b := w0.buckets[k];
    SameContentSameBucket(w, w0, k, render);
    if b.finalizer && !SpecFilled(b.spec) {
      SpecChanges(w0, k, render);
    } else if b.finalizer && b.status.conditions == [] {
      CreatingChanges(w0, k);
    } else if b.finalizer {
      UnchangedStages(w0, k, render);
    }
  }

  lemma CreatingChanges(w: World, k: Key)
    requires k in w.buckets
    ensures Save(w, k, BucketChanged(w.buckets[k].status, Create, w.now)).buckets[k].status.conditions != []
  {
  }

  lemma SpecChanges(w: World, k: Key, render: Renderer)
    requires Joint(w, k, render) && !SpecFilled(w.buckets[k].spec)
    ensures k in SpecPass(w, k).buckets && SpecPass(w, k).buckets[k].spec != w.buckets[k].spec
  {
    if w.buckets[k].spec.provider == "" {
      DefaultIsFound(w);
    }
  }

  lemma UnchangedStages(w: World, k: Key, render: Renderer)
    requires Joint(w, k, render) && SpecFilled(w.buckets[k].spec)
    requires SameContent(w, BucketPasses.LivePass(w, k, render))
    ensures Owned(w, k)
    ensures SaKey(TheAccount(w, k)) in w.secrets ==>
              var p := w.providers[w.buckets[k].spec.provider];
              OwnerStage(w, k) == (w, true) && BucketStage(w, k, p.endpoint) == (w, true) &&
              SecretStage(w, k, render, p).1
  {
    var p := w.providers[w.buckets[k].spec.provider];
    OwnerStageShape(w, k, render);
    var (w1, ok1) := OwnerStage(w, k);
    if ok1 {
      OwnersKeepRest(w, k, render, w1);
      MinioGains(w1, k, render, p.endpoint);
      var (w2, ok2) := BucketStage(w1, k, p.endpoint);
      if ok2 {
        FinishKeepsAccounts(w2, k, render, p);
        SameAccountsSameOwned(w, w1, k);
        SecretGains(w, k, render);
      } else {
        assert MinioAt(k, w1.buckets[k]) !in w1.minio.buckets;
        MadeShape(w1, k, p.endpoint);
      }
    }
  }

  lemma SameAccountsSameOwned(w: World, w1: World, k: Key)
    requires k in w.buckets && w1.buckets == w.buckets && w1.accounts == w.accounts
    ensures Owned(w, k) == Owned(w1, k)
  {
  }

  lemma FinishKeepsAccounts(w: World, k: Key, render: Renderer, p: Provider)
    requires k in w.buckets
    ensures var r := SecretStage(w, k, render, p);
            (if r.1 then BucketPasses.ReadyStage(r.0, k) else r.0).accounts == w.accounts
  {
    ReadySetsConditions(SecretStage(w, k, render, p).0, k);
  }

  /** A pass that changes nothing has nothing left to do, or waits for the account's secret. */
  lemma UnchangedBucketIsDone(w: World, k: Key, render: Renderer)
    requires Joint(w, k, render) && SameContent(w, BucketPass(w, k, render))
    ensures Owned(w, k)
    ensures SaKey(TheAccount(w, k)) in w.secrets ==> BucketUnmet(w, k, render) == 0
  {
    UnchangedReaches(w, k, render);
    if SaKey(TheAccount(w, k)) in w.secrets {
      PassEnd(w, k, render);
      SameContentSameBucket(w, BucketPass(w, k, render), k, render);
    }
  }
}
