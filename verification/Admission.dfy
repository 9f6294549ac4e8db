/** Admission: the defaulting and validation of Buckets (bucket_webhook.go) and
    the default-provider check (bucketprovider_webhook.go), and what they keep
    over whole runs. */
module Admission {
  import opened Wrappers
  import opened Worlds
  import opened Actions
  import opened Invariants
  import opened Listings
  import opened Providers
  import opened SecretData
  import opened BucketPasses
  import opened Safety

  // ---------------------------------------------------------------- defaulting

  /** The spec once defaulted; None when there is no provider to default to. */
  function Defaulted(name: string, spec: BucketSpec, default: Option<string>): Option<BucketSpec> {
    if spec.provider == "" && default.None? then None
    else Some(BucketSpec(
      if spec.provider == "" then default.value else spec.provider,
      if spec.serviceAccount == "" then name else spec.serviceAccount,
      if spec.reclaim == Unset then Retain else spec.reclaim,
      if spec.secretName == None || spec.secretName == Some("") then Some(DefaultSecretName(name)) else spec.secretName,
      spec.template))
  }

  /** The Bucket a request carries, defaulted in place. */
  class Request {
    const name: string
    var spec: BucketSpec

    constructor (name: string, spec: BucketSpec)
      ensures this.name == name && this.spec == spec
    {
      this.name := name;
      this.spec := spec;
    }

    /** Default. */
    method Default(providers: map<string, Provider>, items: seq<string>) returns (ok: bool)
      requires ItemSet(items) == providers.Keys
      modifies this`spec
      ensures forall n :: n in items ==> n in providers
      ensures var r := Defaulted(name, old(spec), FirstDefault(providers, items));
              (ok <==> r.Some?) && spec == (if ok then r.value else old(spec))
      ensures ok <==> old(spec.provider) != "" || exists n :: n in items && providers[n].isDefault
      ensures ok && old(spec.provider) != "" ==> spec.provider == old(spec.provider)
      ensures ok && old(spec.provider) == "" ==>
                exists i :: 0 <= i < |items| && items[i] == spec.provider && providers[items[i]].isDefault &&
                            forall j :: 0 <= j < i ==> !providers[items[j]].isDefault
      ensures ok ==>
                && spec.serviceAccount == (if old(spec.serviceAccount) == "" then name else old(spec.serviceAccount))
                && spec.reclaim == (if old(spec.reclaim) == Unset then Retain else old(spec.reclaim))
                && spec.secretName == (if old(spec.secretName) == None || old(spec.secretName) == Some("")
                                       then Some(name + "-bucket-credentials") else old(spec.secretName))
                && spec.template == old(spec.template)
    {
      assert forall n :: n in items ==> n in ItemSet(items);
      if spec.provider == "" {
        var d := ScanForDefault(providers, items);
        if d.None? {
          return false;
        }
        spec := spec.(provider := d.value);
      }
      if spec.reclaim == Unset {
        spec := spec.(reclaim := Retain);
      }
      if spec.secretName.None? || spec.secretName.value == "" {
        spec := spec.(secretName := Some(DefaultSecretName(name)));
      }
      if spec.serviceAccount == "" {
        spec := spec.(serviceAccount := name);
      }
      return true;
    }
  }

  /** Defaulting twice is defaulting once, whatever default there is by then. */
  lemma DefaultedIdempotent(name: string, spec: BucketSpec, default: Option<string>, later: Option<string>)
    requires name != "" && default != Some("") && Defaulted(name, spec, default).Some?
    ensures Defaulted(name, Defaulted(name, spec, default).value, later) == Defaulted(name, spec, default)
  {
    assert DefaultSecretName(name) != "";
  }

  // ---------------------------------------------------------------- the controller's own defaulting

  /** One step of the controller's defaulting: the first default missing. */
  function FillOne(name: string, spec: BucketSpec, default: Option<string>): Option<BucketSpec> {
    if spec.provider == "" then (if default.Some? then Some(spec.(provider := default.value)) else None)
    else if spec.secretName.None? then Some(spec.(secretName := Some(DefaultSecretName(name))))
    else if spec.reclaim == Unset then Some(spec.(reclaim := Retain))
    else Some(spec)
  }

  function FillAll(name: string, spec: BucketSpec, default: Option<string>, steps: nat): Option<BucketSpec>
    decreases steps
  {
    if steps == 0 then Some(spec)
    else
      var next := FillOne(name, spec, default);
      if next.None? then None else FillAll(name, next.value, default, steps - 1)
  }

  /** Each undisturbed pass over a bucket whose spec is not filled takes that step. */
  lemma PassFillsOne(w: World, k: Key, render: Renderer)
    requires k in w.buckets && !w.buckets[k].deleting && w.buckets[k].finalizer && !SpecFilled(w.buckets[k].spec)
    requires OneDefault(w)
    ensures var next := FillOne(k.name, w.buckets[k].spec, DefaultOf(w));
            var w' := BucketPass(w, k, render);
            k in w'.buckets && w'.buckets[k].spec == (if next.Some? then next.value else w.buckets[k].spec)
  {
    SameDefault(w);
  }

  lemma SameDefault(w: World)
    requires OneDefault(w)
    ensures DefaultOf(Begun(w)) == DefaultOf(w)
  {
    assert forall d :: DefaultProvider(Begun(w), d) <==> DefaultProvider(w, d);
  }

  lemma FilledStays(name: string, spec: BucketSpec, default: Option<string>, steps: nat)
    requires SpecFilled(spec)
    ensures FillAll(name, spec, default, steps) == Some(spec)
  {
  }

  /** Admission and controller agree on what a spec defaults to exactly when the
      service account is set and the secret name is not the empty string. */
  lemma DefaultingsAgreeExactly(name: string, spec: BucketSpec, default: Option<string>, steps: nat)
    requires name != "" && default != Some("") && steps >= 3
    requires Defaulted(name, spec, default).Some?
    ensures FillAll(name, spec, default, steps) == Defaulted(name, spec, default) <==>
            spec.serviceAccount != "" && spec.secretName != Some("")
  {
    assert DefaultSecretName(name) != "";
    var s1 := FillOne(name, spec, default).value;
    var s2 := FillOne(name, s1, default).value;
    var s3 := FillOne(name, s2, default).value;
    assert SpecFilled(s3);
    FilledStays(name, s3, default, steps - 3);
    assert FillAll(name, s2, default, steps - 2) == FillAll(name, s3, default, steps - 3);
    assert FillAll(name, s1, default, steps - 1) == FillAll(name, s2, default, steps - 2);
  }

  // ---------------------------------------------------------------- validation

  predicate TemplateOk(render: Renderer, template: map<string, string>) {
    template.Keys !! RESERVED && Renders(render, template, NO_ACCESS)
  }

  /** ValidateCreate. */
  method ValidateCreate(render: Renderer, providers: map<string, Provider>, spec: BucketSpec) returns (accepted: bool)
    ensures accepted <==> spec.provider in providers && TemplateOk(render, spec.template)
  {
    if spec.provider !in providers {
      return false;
    }
    accepted := ValidateTemplate(render, spec.template);
  }

  /** ValidateUpdate. */
  method ValidateUpdate(render: Renderer, providers: map<string, Provider>, before: BucketSpec, spec: BucketSpec)
    returns (accepted: bool)
    ensures accepted <==> (before.provider == "" || before.provider == spec.provider) &&
                          spec.provider in providers && TemplateOk(render, spec.template)
  {
    if before.provider != "" && before.provider != spec.provider {
      return false;
    }
    accepted := ValidateCreate(render, providers, spec);
  }

  /** The default check of a BucketProvider that is created or updated. */
  method ValidateProvider(providers: map<string, Provider>, items: seq<string>, name: string) returns (accepted: bool)
    requires ItemSet(items) == providers.Keys
    ensures forall n :: n in items ==> n in providers
    ensures accepted <==> FirstDefault(providers, items) == None || FirstDefault(providers, items) == Some(name)
  {
    assert forall n :: n in items ==> n in ItemSet(items);
    var d := ScanForDefault(providers, items);
    return d.None? || d.value == name;
  }

  /** In whatever order the providers are listed, the check lets through exactly
      what the protocol's server accepts. */
  lemma CheckIsAccepts(w: World, items: seq<string>, name: string, details: Provider)
    requires OneDefault(w) && ItemSet(items) == w.providers.Keys
    ensures forall n :: n in items ==> n in w.providers
    ensures EAccepts(EPutProvider(name, details), w) <==>
            FirstDefault(w.providers, items) == None || FirstDefault(w.providers, items) == Some(name)
  {
    assert forall n :: n in items <==> n in ItemSet(items);
    var found := FirstDefault(w.providers, items);
    assert found.Some? ==> DefaultProvider(w, found.value);
    assert forall d :: d in w.providers && w.providers[d].isDefault ==> DefaultProvider(w, d);
  }

  /** Once there is a default, every other provider is turned away, also one that
      does not ask to be the default. */
  lemma DefaultShutsOutOthers(w: World, default: string, name: string, details: Provider)
    requires DefaultProvider(w, default) && name != default
    ensures !EAccepts(EPutProvider(name, details), w)
  {
  }

  // ---------------------------------------------------------------- whole runs

  /** In every reachable state there is at most one default provider, so the scan
      finds the same one whatever the order. */
  lemma DefaultIsUnique(worlds: seq<World>, acts: seq<Action>, i: nat, items: seq<string>, items': seq<string>)
    requires FullRun(worlds, acts) && i <= |acts|
    requires ItemSet(items) == worlds[i].providers.Keys && ItemSet(items') == worlds[i].providers.Keys
    ensures forall a, b :: DefaultProvider(worlds[i], a) && DefaultProvider(worlds[i], b) ==> a == b
    ensures forall n :: n in items || n in items' ==> n in worlds[i].providers
    ensures FirstDefault(worlds[i].providers, items) == FirstDefault(worlds[i].providers, items')
  {
    Reachable(worlds, acts, i);
    assert forall n :: n in items <==> n in ItemSet(items);
    assert forall n :: n in items' <==> n in ItemSet(items');
    OrderDoesNotMatter(worlds[i], items);
    OrderDoesNotMatter(worlds[i], items');
  }

  /** A Bucket's provider, once set, is its provider for good. */
  lemma {:induction false} ProviderNeverChanges(worlds: seq<World>, acts: seq<Action>, i: nat, j: nat, k: Key)
    requires Run(worlds, acts) && i <= j <= |acts|
    requires forall n :: i <= n <= j ==> k in worlds[n].buckets
    requires worlds[i].buckets[k].spec.provider != ""
    ensures worlds[j].buckets[k].spec.provider == worlds[i].buckets[k].spec.provider
    ensures worlds[j].buckets[k].uid == worlds[i].buckets[k].uid
  {
    if i < j {
      ProviderNeverChanges(worlds, acts, i, j - 1, k);
      StepAt(worlds, acts, j - 1);
      BucketMoves(acts[j - 1], worlds[j - 1], k);
    }
  }
}
