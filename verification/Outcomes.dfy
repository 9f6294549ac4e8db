/** What one undisturbed pass comes to, case by case, told in terms of what was
    stored before and is stored after. */
module Outcomes {
  import opened Wrappers
  import opened Owners
  import opened Conditions
  import opened Worlds
  import opened Actions
  import opened Invariants
  import opened Providers
  import opened SecretData
  import opened BucketPasses
  import opened Settled

  // ---------------------------------------------------------------- conditions

  /** Since when a condition has had this status, if it is given it at that time. */
  function Since(cs: Conditions, kind: Kind, status: bool, at: nat): nat {
    var c := Get(cs, kind);
    if c.Some? && c.value.status == status then c.value.since else at
  }

  /** A failure: Error true, Ready there and false, all others as before. */
  ghost predicate ErrorRecorded(cs: Conditions, cs': Conditions, at: nat) {
    && Get(cs', Error) == Some(Condition(Error, true, Since(cs, Error, true, at)))
    && Get(cs', Ready) == Some(Condition(Ready, false, Since(cs, Ready, false, at)))
    && forall k :: k != Error && k != Ready ==> Get(cs', k) == Get(cs, k)
  }

  /** Ready true, Creating and Error gone, all others as before. */
  ghost predicate ReadyRecorded(cs: Conditions, cs': Conditions, at: nat) {
    && Get(cs', Ready) == Some(Condition(Ready, true, Since(cs, Ready, true, at)))
    && Get(cs', Creating) == None && Get(cs', Error) == None
    && forall k :: k != Ready && k != Creating && k != Error ==> Get(cs', k) == Get(cs, k)
  }

  /** One condition true, all others as before. */
  ghost predicate Recorded(cs: Conditions, cs': Conditions, kind: Kind, at: nat) {
    && Get(cs', kind) == Some(Condition(kind, true, Since(cs, kind, true, at)))
    && forall k :: k != kind ==> Get(cs', k) == Get(cs, k)
  }

  ghost predicate Lifted(cs: Conditions, cs': Conditions, kind: Kind) {
    Get(cs', kind) == None && forall k :: k != kind ==> Get(cs', k) == Get(cs, k)
  }

  // ---------------------------------------------------------------- names

  /** Where everything of a bucket and its account is. */
  lemma NamesAre(k: Key, b: Bucket, a: Key, provider: string)
    ensures AccountKey(k, b) == Key(k.ns, b.spec.serviceAccount)
    ensures b.spec.secretName.Some? ==> TargetKey(k, b) == Key(k.ns, b.spec.secretName.value)
    ensures MinioAt(k, b) == At(b.spec.provider, k.name)
    ensures SaKey(a) == Key(a.ns, a.name + "-sa") && UserOf(a, provider) == At(provider, "bucket.s3.linka.cloud/" + a.name)
    ensures Prefixed(k.name) == "bucket.s3.linka.cloud/" + k.name
  {
  }

  // ---------------------------------------------------------------- a bucket's status

  ghost predicate BucketErred(s: BucketStatus, s': BucketStatus, at: nat) {
    && ErrorRecorded(s.conditions, s'.conditions, at) && s'.phase == Phase(Error)
    && s'.endpoint == s.endpoint && s'.secretName == s.secretName
  }

  ghost predicate BucketReadied(s: BucketStatus, s': BucketStatus, at: nat) {
    && ReadyRecorded(s.conditions, s'.conditions, at) && s'.phase == Phase(Ready)
    && s'.endpoint == s.endpoint
  }

  /** At most the status of this bucket differs. */
  predicate OnlyStatus(w: World, k: Key, w': World) {
    && w' == w.(tick := w'.tick, buckets := w'.buckets) && k in w.buckets && k in w'.buckets
    && w'.buckets - {k} == w.buckets - {k}
    && w'.buckets[k] == w.buckets[k].(version := w'.buckets[k].version, status := w'.buckets[k].status)
  }

  lemma SavingIsOnlyStatus(w: World, k: Key, status: BucketStatus)
    requires k in w.buckets
    ensures OnlyStatus(w, k, Save(w, k, status)) && Save(w, k, status).buckets[k].status == status
  {
  }

  lemma FailedShows(w: World, k: Key)
    requires k in w.buckets
    ensures OnlyStatus(w, k, Failed(w, k))
    ensures BucketErred(w.buckets[k].status, Failed(w, k).buckets[k].status, w.now)
  {
    SavingIsOnlyStatus(w, k, BucketChanged(w.buckets[k].status, Change.Fail, w.now));
  }

  lemma ReadyShows(w: World, k: Key)
    requires k in w.buckets
    ensures OnlyStatus(w, k, ReadyStage(w, k))
    ensures var s, s' := w.buckets[k].status, ReadyStage(w, k).buckets[k].status;
            if IsTrue(s.conditions, Ready) then s' == s else BucketReadied(s, s', w.now) && s'.secretName == s.secretName
  {
    SavingIsOnlyStatus(w, k, BucketChanged(w.buckets[k].status, Succeed, w.now));
  }

  // ---------------------------------------------------------------- a pass over a live bucket

  /** Past the finalizer, the defaults and the first condition. */
  predicate UnderWay(w: World, k: Key) {
    && k in w.buckets && !w.buckets[k].deleting && w.buckets[k].finalizer
    && SpecFilled(w.buckets[k].spec) && w.buckets[k].status.conditions != []
  }

  /** The account would have to be created, and its name is taken on that provider. */
  ghost predicate NameTaken(w: World, a: Key, provider: string) {
    a !in w.accounts && exists o :: o in w.accounts && o.name == a.name && w.accounts[o].provider == provider
  }

  /** The reference the owner list is to carry: to the account there is, or is going to be. */
  function OwnRef(w: World, k: Key): OwnerRef
    requires k in w.buckets
  {
    var a := AccountKey(k, w.buckets[k]);
    AccountRef(a.name, if a in w.accounts then w.accounts[a].uid else w.nextUid)
  }

  /** The provider is there, the account is or can be, and the owner list is as it should be. */
  ghost predicate OwnerSettled(w: World, k: Key)
    requires k in w.buckets
  {
    var b := w.buckets[k];
    && b.spec.provider in w.providers && !NameTaken(w, AccountKey(k, b), b.spec.provider)
    && Forced(b.owners, OwnRef(w, k)) == b.owners
  }

  /** Besides, the MinIO bucket is there and its endpoint recorded. */
  ghost predicate MinioSettled(w: World, k: Key)
    requires k in w.buckets
  {
    OwnerSettled(w, k) && MinioAt(k, w.buckets[k]) in w.minio.buckets && w.buckets[k].status.endpoint.Some?
  }

  /** The secrets once the one under an earlier name is gone. */
  function SecretsLeft(w: World, k: Key): map<Key, Secret>
    requires k in w.buckets
  {
    var b := w.buckets[k];
    if b.status.secretName.Some? && b.status.secretName != b.spec.secretName
    then map s | s in w.secrets && s != Key(k.ns, b.status.secretName.value) :: w.secrets[s]
    else w.secrets
  }

  /** A template does not render, or the spec's secret has another controller. */
  ghost predicate SecretTrouble(w: World, k: Key, render: Renderer)
    requires k in w.buckets && w.buckets[k].spec.provider in w.providers
    requires SaKey(AccountKey(k, w.buckets[k])) in SecretsLeft(w, k)
  {
    var b := w.buckets[k];
    var left := SecretsLeft(w, k);
    var access := AccessOf(k, left[SaKey(AccountKey(k, b))], w.providers[b.spec.provider]);
    || (exists t :: t in b.spec.template && render(b.spec.template[t], access).None?)
    || (TargetKey(k, b) in left &&
        var c := ControllerOf(left[TargetKey(k, b)].owners);
        c.Some? && !Owners.Same(c.value, BucketRef(k.name, b.uid)))
  }

  /** Every reason there is for an undisturbed pass to report an error. */
  ghost predicate Troubled(w: World, k: Key, render: Renderer)
    requires k in w.buckets
  {
    var b := w.buckets[k];
    || b.spec.provider !in w.providers
    || NameTaken(w, AccountKey(k, b), b.spec.provider)
    || (OwnerSettled(w, k) && MinioAt(k, b) in w.minio.buckets && b.status.endpoint.None?)
    || (MinioSettled(w, k) && SaKey(AccountKey(k, b)) in SecretsLeft(w, k) && SecretTrouble(w, k, render))
  }

  /** The world the owner stage hands on. */
  function WithAccount(w: World, k: Key): World
    requires k in w.buckets
  {
    var a := AccountKey(k, w.buckets[k]);
    if a in w.accounts then w else NewAccount(w, a, w.buckets[k].spec.provider)
  }

  lemma OwnerOutcome(w: World, k: Key)
    requires k in w.buckets && w.buckets[k].spec.provider in w.providers
    ensures NameTaken(w, AccountKey(k, w.buckets[k]), w.buckets[k].spec.provider) ==> OwnerStage(w, k) == (Failed(w, k), false)
    ensures OwnerSettled(w, k) ==> OwnerStage(w, k) == (WithAccount(w, k), true)
    ensures !OwnerSettled(w, k) && !NameTaken(w, AccountKey(k, w.buckets[k]), w.buckets[k].spec.provider) ==>
              OwnerStage(w, k) ==
              (PutBucket(WithAccount(w, k), k, w.buckets[k].(owners := Forced(w.buckets[k].owners, OwnRef(w, k)))), false)
  {
  }

  lemma LeftIsWithout(w: World, k: Key)
    requires k in w.buckets
    ensures WithoutOldSecret(w, k) == w.(secrets := SecretsLeft(w, k))
  {
    var b := w.buckets[k];
    if b.status.secretName.Some? && b.status.secretName != b.spec.secretName {
      assert w.secrets - {Key(k.ns, b.status.secretName.value)} == SecretsLeft(w, k);
    }
  }

  /** The secret written: the spec's, the bucket's own, with the contents its account's
      secret and the templates give; no other secret but the one under an earlier name
      is touched, and the name is recorded when the secret is new. */
  ghost predicate SecretWritten(w: World, k: Key, render: Renderer, w': World)
    requires k in w.buckets && w.buckets[k].spec.provider in w.providers
    requires SaKey(AccountKey(k, w.buckets[k])) in SecretsLeft(w, k)
  {
    var b := w.buckets[k];
    var left, t := SecretsLeft(w, k), TargetKey(k, b);
    && w' == w.(tick := w'.tick, buckets := w'.buckets, secrets := w'.secrets)
    && k in w'.buckets && w'.buckets - {k} == w.buckets - {k}
    && w'.buckets[k] == b.(version := w'.buckets[k].version,
                           status := b.status.(secretName := if t in left then b.status.secretName else b.spec.secretName))
    && t in w'.secrets && w'.secrets - {t} == left - {t}
    && ControllerOf(w'.secrets[t].owners) == Some(BucketRef(k.name, b.uid))
    && Contents(render, b.spec.template, AccessOf(k, left[SaKey(AccountKey(k, b))], w.providers[b.spec.provider])) ==
       Some(w'.secrets[t].data)
  }

  lemma SecretOutcome(w: World, k: Key, render: Renderer)
    requires k in w.buckets && w.buckets[k].spec.provider in w.providers
    ensures var r := SecretStage(w, k, render, w.providers[w.buckets[k].spec.provider]);
            var left := w.(secrets := SecretsLeft(w, k));
            && (SaKey(AccountKey(k, w.buckets[k])) !in left.secrets ==> r == (left, false))
            && (SaKey(AccountKey(k, w.buckets[k])) in left.secrets ==>
                  if SecretTrouble(w, k, render) then r == (Failed(left, k), false)
                  else r.1 && SecretWritten(w, k, render, r.0))
  {
    LeftIsWithout(w, k);
    if SaKey(AccountKey(k, w.buckets[k])) in SecretsLeft(w, k) {
      CredentialOutcome(w.(secrets := SecretsLeft(w, k)), k, render);
    }
  }

  /** The stage on secrets from which the one under an earlier name is gone already. */
  lemma CredentialOutcome(w: World, k: Key, render: Renderer)
    requires k in w.buckets && w.buckets[k].spec.provider in w.providers
    requires SaKey(AccountKey(k, w.buckets[k])) in w.secrets
    ensures var b, p := w.buckets[k], w.providers[w.buckets[k].spec.provider];
            var t, sa := TargetKey(k, b), SaKey(AccountKey(k, b));
            var r := CredentialStage(w, k, render, p);
            var trouble :=
              || (exists x :: x in b.spec.template && render(b.spec.template[x], AccessOf(k, w.secrets[sa], p)).None?)
              || (t in w.secrets && ControllerOf(w.secrets[t].owners).Some? &&
                  !Owners.Same(ControllerOf(w.secrets[t].owners).value, BucketRef(k.name, b.uid)));
            && (r.None? <==> trouble)
            && (r.Some? ==>
                  && OnlyCredentials(w, k, r.value) && t in r.value.secrets
                  && r.value.secrets - {t} == w.secrets - {t} && r.value.buckets - {k} == w.buckets - {k}
                  && r.value.buckets[k].status.secretName ==
                     (if t in w.secrets then b.status.secretName else b.spec.secretName)
                  && ControllerOf(r.value.secrets[t].owners) == Some(BucketRef(k.name, b.uid))
                  && Contents(render, b.spec.template, AccessOf(k, w.secrets[sa], p)) == Some(r.value.secrets[t].data))
  {
    var b, p := w.buckets[k], w.providers[w.buckets[k].spec.provider];
    var t, sa := TargetKey(k, b), SaKey(AccountKey(k, b));
    var target := if t in w.secrets then Some(w.secrets[t]) else None;
    var secret := Prepared(render, k, b, target, w.secrets[sa], p);
    NoController([]);
    if secret.Some? {
      WriteSecretStores(w, k, secret.value);
      ClaimedController(if target.Some? then target.value.owners else [], BucketRef(k.name, b.uid));
    }
  }

  lemma NoController(owners: seq<OwnerRef>)
    requires owners == []
    ensures ControllerOf(owners) == None
  {
  }

  // ---------------------------------------------------------------- the outcomes

  /** That a pass has begun makes no difference to any of this. */
  lemma BegunIsTheSame(w: World, k: Key, render: Renderer)
    requires k in w.buckets
    ensures var w0 := Begun(w);
            && (forall a, p :: NameTaken(w0, a, p) == NameTaken(w, a, p))
            && OwnerSettled(w0, k) == OwnerSettled(w, k) && MinioSettled(w0, k) == MinioSettled(w, k)
            && SecretsLeft(w0, k) == SecretsLeft(w, k) && Troubled(w0, k, render) == Troubled(w, k, render)
  {
  }

  lemma UnderWayPass(w: World, k: Key, render: Renderer)
    requires UnderWay(w, k)
    ensures BucketPass(w, k, render) == BucketPasses.LivePass(Begun(w), k, render)
  {
  }

  /** The stages after the account see what was there before. */
  lemma WithAccountIsTheSame(w: World, k: Key, render: Renderer)
    requires k in w.buckets && OwnerSettled(w, k)
    ensures var w1 := WithAccount(w, k);
            && w1 == w.(tick := w1.tick, nextUid := w1.nextUid, accounts := w1.accounts)
            && SecretsLeft(w1, k) == SecretsLeft(w, k)
            && (SaKey(AccountKey(k, w.buckets[k])) in SecretsLeft(w, k) ==> SecretTrouble(w1, k, render) == SecretTrouble(w, k, render))
  {
  }

  /** Whatever the trouble, the pass stores it: phase Error, Error true, Ready there and
      false, all other conditions, the endpoint and the secret's name as before. */
  lemma TroubleIsReported(w: World, k: Key, render: Renderer)
    requires UnderWay(w, k) && Troubled(w, k, render)
    ensures var w' := BucketPass(w, k, render);
            && k in w'.buckets && w'.buckets - {k} == w.buckets - {k}
            && w'.buckets[k] == w.buckets[k].(version := w'.buckets[k].version, status := w'.buckets[k].status)
            && BucketErred(w.buckets[k].status, w'.buckets[k].status, w.now)
            && w'.minio == w.minio && w'.providers == w.providers
  {
    var w0 := Begun(w);
    BegunIsTheSame(w, k, render);
    UnderWayPass(w, k, render);
    if w.buckets[k].spec.provider in w.providers {
      OwnerOutcome(w0, k);
      if OwnerSettled(w0, k) {
        LateTrouble(w0, k, render);
      } else {
        FailedShows(w0, k);
      }
    } else {
      FailedShows(w0, k);
    }
  }

  lemma LateTrouble(w: World, k: Key, render: Renderer)
    requires k in w.buckets && OwnerSettled(w, k) && Troubled(w, k, render)
    ensures var w' := BucketPasses.LivePass(w, k, render);
            && k in w'.buckets && w'.buckets - {k} == w.buckets - {k}
            && w'.buckets[k] == w.buckets[k].(version := w'.buckets[k].version, status := w'.buckets[k].status)
            && BucketErred(w.buckets[k].status, w'.buckets[k].status, w.now)
            && w'.minio == w.minio && w'.providers == w.providers
  {
    var w1 := WithAccount(w, k);
    OwnerOutcome(w, k);
    WithAccountIsTheSame(w, k, render);
    if MinioSettled(w, k) {
      SecretOutcome(w1, k, render);
      FailedShows(w1.(secrets := SecretsLeft(w1, k)), k);
    } else {
      FailedShows(w1, k);
    }
  }

  /** A pass that meets no trouble stores no error: conditions and phase stay, or Ready is recorded. */
  lemma NoTroubleNoError(w: World, k: Key, render: Renderer)
    requires UnderWay(w, k) && !Troubled(w, k, render)
    ensures var w' := BucketPass(w, k, render);
            && k in w'.buckets
            && var s, s' := w.buckets[k].status, w'.buckets[k].status;
            || (s'.conditions == s.conditions && s'.phase == s.phase)
            || (!IsTrue(s.conditions, Ready) && BucketReadied(s, s', w.now))
  {
    if !OwnerSettled(w, k) {
      OwnerIsRewritten(w, k, render);
    } else if MinioAt(k, w.buckets[k]) !in w.minio.buckets {
      MinioBucketIsMade(w, k, render);
    } else if SaKey(AccountKey(k, w.buckets[k])) !in SecretsLeft(w, k) {
      SecretIsAwaited(w, k, render);
    } else {
      SecretIsWritten(w, k, render);
    }
  }

  /** The account is there afterwards, created for the bucket's provider if it was not,
      and the owner list names it; nothing else of the bucket changes. */
  lemma OwnerIsRewritten(w: World, k: Key, render: Renderer)
    requires UnderWay(w, k) && w.buckets[k].spec.provider in w.providers && !OwnerSettled(w, k)
    requires !NameTaken(w, AccountKey(k, w.buckets[k]), w.buckets[k].spec.provider)
    ensures var w' := BucketPass(w, k, render);
            var b, a := w.buckets[k], AccountKey(k, w.buckets[k]);
            && k in w'.buckets && w'.buckets - {k} == w.buckets - {k}
            && w'.buckets[k] == b.(version := w'.buckets[k].version, owners := Forced(b.owners, OwnRef(w, k)))
            && a in w'.accounts && w'.accounts - {a} == w.accounts - {a}
            && w'.accounts[a] == (if a in w.accounts then w.accounts[a]
                                  else Account(w.nextUid, w'.accounts[a].version, false, false, b.spec.provider,
                                               AccountStatus(None, [], NoPhase)))
            && w'.minio == w.minio && w'.secrets == w.secrets
  {
    BegunIsTheSame(w, k, render);
    UnderWayPass(w, k, render);
    OwnerOutcome(Begun(w), k);
  }

  /** The MinIO bucket is made and the provider's endpoint recorded; nothing else of the bucket changes. */
  lemma MinioBucketIsMade(w: World, k: Key, render: Renderer)
    requires UnderWay(w, k) && OwnerSettled(w, k) && MinioAt(k, w.buckets[k]) !in w.minio.buckets
    ensures var w' := BucketPass(w, k, render);
            var b := w.buckets[k];
            && k in w'.buckets && w'.buckets - {k} == w.buckets - {k}
            && w'.buckets[k] == b.(version := w'.buckets[k].version,
                                   status := b.status.(endpoint := Some(w.providers[b.spec.provider].endpoint)))
            && w'.minio == w.minio.(buckets := w.minio.buckets + {At(b.spec.provider, k.name)})
            && w'.secrets == w.secrets
  {
    var w0 := Begun(w);
    var w1 := WithAccount(w0, k);
    var endpoint := w.providers[w.buckets[k].spec.provider].endpoint;
    BegunIsTheSame(w, k, render);
    UnderWayPass(w, k, render);
    OwnerOutcome(w0, k);
    WithAccountIsTheSame(w0, k, render);
    SavingIsOnlyStatus(Made(w1, k), k, w.buckets[k].status.(endpoint := Some(endpoint)));
  }

  /** While the account's secret is missing the pass ends quietly; the secret under an earlier name is gone. */
  lemma SecretIsAwaited(w: World, k: Key, render: Renderer)
    requires UnderWay(w, k) && MinioSettled(w, k) && SaKey(AccountKey(k, w.buckets[k])) !in SecretsLeft(w, k)
    ensures var w' := BucketPass(w, k, render);
            w'.buckets == w.buckets && w'.secrets == SecretsLeft(w, k) && w'.minio == w.minio
  {
    var w0 := Begun(w);
    BegunIsTheSame(w, k, render);
    UnderWayPass(w, k, render);
    OwnerOutcome(w0, k);
    WithAccountIsTheSame(w0, k, render);
    SecretOutcome(WithAccount(w0, k), k, render);
  }

  /** Else the spec's secret is written, and Ready recorded if it was not. */
  lemma SecretIsWritten(w: World, k: Key, render: Renderer)
    requires UnderWay(w, k) && MinioSettled(w, k)
    requires SaKey(AccountKey(k, w.buckets[k])) in SecretsLeft(w, k) && !SecretTrouble(w, k, render)
    ensures var w' := BucketPass(w, k, render);
            var b, left, t := w.buckets[k], SecretsLeft(w, k), TargetKey(k, w.buckets[k]);
            && k in w'.buckets && w'.buckets - {k} == w.buckets - {k} && w'.minio == w.minio
            && w'.buckets[k] == b.(version := w'.buckets[k].version, status := w'.buckets[k].status)
            && t in w'.secrets && w'.secrets - {t} == left - {t}
            && ControllerOf(w'.secrets[t].owners) == Some(BucketRef(k.name, b.uid))
            && Contents(render, b.spec.template,
                        AccessOf(k, left[SaKey(AccountKey(k, b))], w.providers[b.spec.provider])) == Some(w'.secrets[t].data)
            && var s, s' := b.status, w'.buckets[k].status;
            && s'.endpoint == s.endpoint && s'.secretName == (if t in left then s.secretName else b.spec.secretName)
            && if IsTrue(s.conditions, Ready) then s'.conditions == s.conditions && s'.phase == s.phase
               else BucketReadied(s, s', w.now)
  {
    var w0 := Begun(w);
    var w1 := WithAccount(w0, k);
    BegunIsTheSame(w, k, render);
    UnderWayPass(w, k, render);
    OwnerOutcome(w0, k);
    WithAccountIsTheSame(w0, k, render);
    SecretOutcome(w1, k, render);
    ReadyShows(SecretStage(w1, k, render, w.providers[w.buckets[k].spec.provider]).0, k);
  }

  /** The passes before that change the object alone. */
  predicate OnlyBucket(w: World, k: Key, w': World, b': Bucket) {
    && w' == w.(tick := w'.tick, buckets := w'.buckets, past := w'.past) && k in w.buckets && k in w'.buckets
    && w'.buckets - {k} == w.buckets - {k} && w'.buckets[k] == b'.(version := w'.buckets[k].version)
  }

  lemma PuttingIsOnlyBucket(w: World, k: Key, b: Bucket)
    requires k in w.buckets
    ensures OnlyBucket(w, k, PutBucket(w, k, b), b)
  {
  }

  /** The finalizer first. */
  lemma FinalizerIsAdded(w: World, k: Key, render: Renderer)
    requires k in w.buckets && !w.buckets[k].deleting && !w.buckets[k].finalizer
    ensures OnlyBucket(w, k, BucketPass(w, k, render), w.buckets[k].(finalizer := true))
  {
    PuttingIsOnlyBucket(Begun(w), k, w.buckets[k].(finalizer := true));
  }

  /** Then the provider, from the default; without one the error is stored. */
  lemma ProviderIsFilled(w: World, k: Key, render: Renderer)
    requires OneDefault(w) && k in w.buckets && !w.buckets[k].deleting && w.buckets[k].finalizer
    requires w.buckets[k].spec.provider == ""
    ensures var w', b := BucketPass(w, k, render), w.buckets[k];
            && (forall d :: DefaultProvider(w, d) ==> OnlyBucket(w, k, w', b.(spec := b.spec.(provider := d))))
            && ((forall d :: !DefaultProvider(w, d)) ==>
                  k in w'.buckets && OnlyBucket(w, k, w', b.(status := w'.buckets[k].status)) &&
                  BucketErred(b.status, w'.buckets[k].status, w.now))
  {
    var w0, b := Begun(w), w.buckets[k];
    SameDefaults(w, w0);
    FailedShows(w0, k);
    forall d | DefaultProvider(w, d)
      ensures OnlyBucket(w, k, BucketPass(w, k, render), b.(spec := b.spec.(provider := d)))
    {
      PuttingIsOnlyBucket(w0, k, b.(spec := b.spec.(provider := d)));
    }
  }

  /** Then the secret's name, then the reclaim policy. */
  lemma RestIsFilled(w: World, k: Key, render: Renderer)
    requires k in w.buckets && !w.buckets[k].deleting && w.buckets[k].finalizer
    requires w.buckets[k].spec.provider != "" && !SpecFilled(w.buckets[k].spec)
    ensures var spec := w.buckets[k].spec;
            OnlyBucket(w, k, BucketPass(w, k, render),
                       w.buckets[k].(spec := if spec.secretName.None?
                                             then spec.(secretName := Some(k.name + "-bucket-credentials"))
                                             else spec.(reclaim := Retain)))
  {
    var w0, b := Begun(w), w.buckets[k];
    PuttingIsOnlyBucket(w0, k, b.(spec := b.spec.(secretName := Some(k.name + "-bucket-credentials"))));
    PuttingIsOnlyBucket(w0, k, b.(spec := b.spec.(reclaim := Retain)));
  }

  /** Then the first condition. */
  lemma CreatingIsRecorded(w: World, k: Key, render: Renderer)
    requires k in w.buckets && !w.buckets[k].deleting && w.buckets[k].finalizer
    requires SpecFilled(w.buckets[k].spec) && w.buckets[k].status.conditions == []
    ensures var b := w.buckets[k];
            OnlyBucket(w, k, BucketPass(w, k, render),
                       b.(status := b.status.(conditions := [Condition(Creating, true, w.now)], phase := Phase(Creating))))
  {
    var w0, b := Begun(w), w.buckets[k];
    PuttingIsOnlyBucket(w0, k, b.(status := b.status.(conditions := [Condition(Creating, true, w.now)], phase := Phase(Creating))));
  }

  lemma SameDefaults(w: World, w0: World)
    requires w0.providers == w.providers && OneDefault(w)
    ensures forall d :: DefaultProvider(w, d) ==> DefaultOf(w0) == Some(d)
    ensures (forall d :: !DefaultProvider(w, d)) ==> DefaultOf(w0) == None
  {
    assert forall d :: DefaultProvider(w0, d) <==> DefaultProvider(w, d);
  }

  /** The first pass over a deleted Bucket only marks it. */
  lemma DeletionIsMarked(w: World, k: Key, render: Renderer)
    requires k in w.buckets && w.buckets[k].deleting && !IsTrue(w.buckets[k].status.conditions, Deleting)
    ensures var w' := BucketPass(w, k, render);
            var b := w.buckets[k];
            && k in w'.buckets && w'.buckets - {k} == w.buckets - {k}
            && w' == w.(tick := w'.tick, buckets := w'.buckets, past := w'.past)
            && w'.buckets[k] == b.(version := w'.buckets[k].version, status := w'.buckets[k].status)
            && var s, s' := b.status, w'.buckets[k].status;
            && Recorded(s.conditions, s'.conditions, Deleting, w.now) && s'.phase == Phase(Deleting)
            && s'.endpoint == s.endpoint && s'.secretName == s.secretName
  {
    var w0 := Begun(w);
    SavingIsOnlyStatus(w0, k, BucketChanged(w.buckets[k].status, Erase, w.now));
  }

  /** Whoever makes it, the write of a failure that takes effect is seen like this. */
  lemma FailureWriteShows(act: Action, w: World)
    requires Enabled(act, w) && act.ByBuckets? && act.b.BStatus? && act.b.step.change == Change.Fail
    ensures var k, w' := act.b.key, Effect(act, w);
            && k in w.buckets && k in w'.buckets && w'.buckets - {k} == w.buckets - {k}
            && w'.buckets[k] == w.buckets[k].(version := w'.buckets[k].version, status := act.b.status)
            && ErrorRecorded(w.buckets[k].status.conditions, act.b.status.conditions, act.b.step.at)
            && act.b.status.phase == Phase(Error)
  {
  }
}
