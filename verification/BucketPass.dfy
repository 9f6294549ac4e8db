/** One fault-free, undisturbed pass of the bucket controller, as a function. */
module BucketPasses {
  import opened Wrappers
  import opened Owners
  import opened Conditions
  import opened Worlds
  import opened Actions
  import opened SecretData
  import opened Providers

  function BucketChanged(s: BucketStatus, change: Change, at: nat): BucketStatus {
    BucketStepped(s, BucketStep(s.endpoint, s.secretName, change, at))
  }

  /** A stored status. */
  function Save(w: World, k: Key, status: BucketStatus): World
    requires k in w.buckets
  {
    PutBucket(w, k, w.buckets[k].(status := status))
  }

  function Failed(w: World, k: Key): World
    requires k in w.buckets
  {
    Save(w, k, BucketChanged(w.buckets[k].status, Fail, w.now))
  }

  function DefaultSecretName(bucket: string): string {
    bucket + "-bucket-credentials"
  }

  // ---------------------------------------------------------------- the stages of a live bucket

  /** ok says whether the pass goes on. */
  function OwnerStage(w: World, k: Key): (r: (World, bool))
    requires k in w.buckets
    ensures k in r.0.buckets
  {
    var b := w.buckets[k];
    var a := AccountKey(k, b);
    if a !in w.accounts && !FreshAccount(w, a, b.spec.provider) then (Failed(w, k), false)
    else
      var w1 := if a in w.accounts then w else NewAccount(w, a, b.spec.provider);
      var owners := Forced(b.owners, AccountRef(a.name, w1.accounts[a].uid));
      if owners == b.owners then (w1, true) else (PutBucket(w1, k, b.(owners := owners)), false)
  }

  function Made(w: World, k: Key): World
    requires k in w.buckets
  {
    var b := w.buckets[k];
    w.(minio := w.minio.(buckets := w.minio.buckets + {MinioAt(k, b)}),
       past := w.past.(made := w.past.made + {(b.uid, MinioAt(k, b))}))
  }

  function BucketStage(w: World, k: Key, endpoint: string): (r: (World, bool))
    requires k in w.buckets
    ensures k in r.0.buckets
  {
    var b := w.buckets[k];
    if MinioAt(k, b) in w.minio.buckets then
      if b.status.endpoint.None? then (Failed(w, k), false) else (w, true)
    else (Save(Made(w, k), k, b.status.(endpoint := Some(endpoint))), false)
  }

  /** The secret under an earlier name is deleted. */
  function WithoutOldSecret(w: World, k: Key): World
    requires k in w.buckets
  {
    var b := w.buckets[k];
    if b.status.secretName.Some? && b.status.secretName != b.spec.secretName
    then w.(secrets := w.secrets - {Key(k.ns, b.status.secretName.value)})
    else w
  }

  /** The secret filled and claimed; None when a template does not render or
      another controller owns it. */
  function Prepared(render: Renderer, k: Key, b: Bucket, target: Option<Secret>, sa: Secret, p: Provider): Option<Secret> {
    var data := Contents(render, b.spec.template, AccessOf(k, sa, p));
    var owners := Claimed(if target.Some? then target.value.owners else [], BucketRef(k.name, b.uid));
    if data.None? || owners.None? then None else Some(Secret(0, owners.value, data.value))
  }

  function WriteSecret(w: World, k: Key, secret: Secret): World
    requires k in w.buckets
  {
    var b := w.buckets[k];
    var t := TargetKey(k, b);
    var w1 := PutSecret(w, t, secret);
    if t in w.secrets then w1 else Save(w1, k, b.status.(secretName := b.spec.secretName))
  }

  /** What is stored once the account's secret is there. */
  function CredentialStage(w: World, k: Key, render: Renderer, p: Provider): (r: Option<World>)
    requires k in w.buckets && SaKey(AccountKey(k, w.buckets[k])) in w.secrets
    ensures r.Some? ==> k in r.value.buckets && r.value.accounts == w.accounts
  {
    var b := w.buckets[k];
    var t := TargetKey(k, b);
    var target := if t in w.secrets then Some(w.secrets[t]) else None;
    var secret := Prepared(render, k, b, target, w.secrets[SaKey(AccountKey(k, b))], p);
    if secret.None? then None else Some(WriteSecret(w, k, secret.value))
  }

  function SecretStage(w0: World, k: Key, render: Renderer, p: Provider): (r: (World, bool))
    requires k in w0.buckets
    ensures k in r.0.buckets && r.0.accounts == w0.accounts
  {
    var w := WithoutOldSecret(w0, k);
    if SaKey(AccountKey(k, w.buckets[k])) !in w.secrets then (w, false)
    else
      var r := CredentialStage(w, k, render, p);
      if r.None? then (Failed(w, k), false) else (r.value, true)
  }

  function ReadyStage(w: World, k: Key): World
    requires k in w.buckets
  {
    var s := w.buckets[k].status;
    if IsTrue(s.conditions, Ready) then w else Save(w, k, BucketChanged(s, Succeed, w.now))
  }

  /** The stages after the account. */
  function OwnedPass(w: World, k: Key, render: Renderer, p: Provider): World
    requires k in w.buckets
  {
    var (w2, ok2) := BucketStage(w, k, p.endpoint);
    if !ok2 then w2
    else
      var (w3, ok3) := SecretStage(w2, k, render, p);
      if !ok3 then w3 else ReadyStage(w3, k)
  }

  function StagesPass(w: World, k: Key, render: Renderer, p: Provider): World
    requires k in w.buckets
  {
    var (w1, ok1) := OwnerStage(w, k);
    if !ok1 then w1 else OwnedPass(w1, k, render, p)
  }

  function LivePass(w: World, k: Key, render: Renderer): World
    requires k in w.buckets
  {
    var p := w.buckets[k].spec.provider;
    if p !in w.providers then Failed(w, k) else StagesPass(w, k, render, w.providers[p])
  }

  // ---------------------------------------------------------------- the whole pass

  /** ok says whether the finalizer may go. */
  function DeletionStage(w: World, k: Key): (r: (World, bool))
    requires k in w.buckets
    ensures k in r.0.buckets
  {
    var b := w.buckets[k];
    if !IsTrue(b.status.conditions, Deleting) then (Save(w, k, BucketChanged(b.status, Erase, w.now)), false)
    else if b.spec.provider !in w.providers || b.spec.reclaim != Delete then (w, true)
    else if MinioAt(k, b) in w.minio.buckets then (RemoveMinioBucket(w, MinioAt(k, b)), true)
    else (w, false)
  }

  function DeletionPass(w: World, k: Key): World
    requires k in w.buckets
  {
    var (w1, ok) := DeletionStage(w, k);
    if ok then w1.(buckets := w1.buckets - {k}) else w1
  }

  ghost function ProviderPass(w: World, k: Key): World
    requires k in w.buckets
  {
    var b := w.buckets[k];
    var d := DefaultOf(w);
    if d.Some? then PutBucket(w, k, b.(spec := b.spec.(provider := d.value))) else Failed(w, k)
  }

  predicate SpecFilled(s: BucketSpec) {
    s.provider != "" && s.secretName.Some? && s.reclaim != Unset
  }

  /** The first default still missing is filled in. */
  ghost function SpecPass(w: World, k: Key): World
    requires k in w.buckets
  {
    var b := w.buckets[k];
    if b.spec.provider == "" then ProviderPass(w, k)
    else if b.spec.secretName.None? then
      PutBucket(w, k, b.(spec := b.spec.(secretName := Some(DefaultSecretName(k.name)))))
    else PutBucket(w, k, b.(spec := b.spec.(reclaim := Retain)))
  }

  ghost function CopyPass(w: World, k: Key, render: Renderer): World
    requires k in w.buckets
  {
    var b := w.buckets[k];
    if b.deleting then DeletionPass(w, k)
    else if !b.finalizer then PutBucket(w, k, b.(finalizer := true))
    else if !SpecFilled(b.spec) then SpecPass(w, k)
    else if b.status.conditions == [] then Save(w, k, BucketChanged(b.status, Create, w.now))
    else LivePass(w, k, render)
  }

  /** A pass has begun. */
  function Begun(w: World): World {
    w.(past := w.past.(keep := w.minio.buckets, bucketProviders := w.providers.Keys))
  }

  ghost function BucketPass(w: World, k: Key, render: Renderer): World {
    if k in w.buckets then CopyPass(Begun(w), k, render) else Begun(w)
  }
}
