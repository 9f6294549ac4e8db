/** What deletion passes achieve: accounts go after two undisturbed passes,
    however many failed before; Buckets go exactly when nothing is in the way. */
module Deletions {
  import opened Wrappers
  import opened Conditions
  import opened Worlds
  import opened Actions
  import opened Invariants
  import opened Safety
  import opened AccountPasses
  import opened BucketPasses
  import opened SecretData

  // ---------------------------------------------------------------- accounts

  /** No trace of the account is left: no object, no secret, no user, no key. */
  ghost predicate Gone(w: World, k: Key, provider: string) {
    && k !in w.accounts && SaKey(k) !in w.secrets
    && UserOf(k, provider) !in w.minio.users && KeysOf(w.minio, UserOf(k, provider)) == {}
  }

  lemma NoKeysLeft(w: World, k: Key)
    requires k in w.accounts && KeysHaveUsers(w)
    ensures var u := UserOf(k, w.accounts[k].provider); KeysOf(WithoutUser(w, k).minio, u) == {}
  {
    var u := UserOf(k, w.accounts[k].provider);
    var m := WithoutUser(w, k).minio;
    forall l | l in m.keys
      ensures l.provider != u.provider || m.keys[l] != u.name
    {
      if u !in w.minio.users {
        assert At(l.provider, w.minio.keys[l]) in w.minio.users;
      }
    }
  }

  /** A marked account goes in one pass. */
  lemma MarkedAccountGoes(w: World, k: Key)
    requires k in w.accounts && w.accounts[k].deleting && KeysHaveUsers(w)
    requires IsTrue(w.accounts[k].status.conditions, Deleting)
    ensures var w' := AccountPass(w, k); var p := w.accounts[k].provider;
            && k !in w'.accounts
            && (p in w.providers ==> Gone(w', k, p))
            && (p !in w.providers ==> w'.minio == w.minio && w'.secrets == w.secrets)
  {
    var w0 := w.(past := w.past.(accountProviders := w.providers.Keys));
    NoKeysLeft(WithoutSecret(w0, k), k);
  }

  lemma UnmarkedAccountIsMarked(w: World, k: Key)
    requires k in w.accounts && w.accounts[k].deleting && KeysHaveUsers(w)
    requires !IsTrue(w.accounts[k].status.conditions, Deleting)
    ensures var w' := AccountPass(w, k);
            && k in w'.accounts && w'.accounts[k].deleting && w'.accounts[k].provider == w.accounts[k].provider
            && IsTrue(w'.accounts[k].status.conditions, Deleting)
            && w'.providers == w.providers && w'.minio == w.minio && w'.serial == w.serial
            && KeysHaveUsers(w')
  {
  }

  /** Two undisturbed passes remove everything. */
  lemma TwoPassesDelete(w: World, k: Key)
    requires k in w.accounts && w.accounts[k].deleting && KeysHaveUsers(w)
    requires w.accounts[k].provider in w.providers
    ensures Gone(AccountPass(AccountPass(w, k), k), k, w.accounts[k].provider)
  {
    var w1 := AccountPass(w, k);
    if IsTrue(w.accounts[k].status.conditions, Deleting) {
      MarkedAccountGoes(w, k);
      assert AccountPass(w1, k) == w1.(past := w1.past.(accountProviders := w1.providers.Keys));
    } else {
      UnmarkedAccountIsMarked(w, k);
      MarkedAccountGoes(w1, k);
    }
  }

  /** Whatever went wrong since the account was first asked to go: unless it has
      been released already, two undisturbed passes remove everything. */
  lemma DeletionCanBeRetried(worlds: seq<World>, acts: seq<Action>, i: nat, j: nat, k: Key)
    requires FullRun(worlds, acts) && i <= j <= |acts| && k in worlds[i].accounts && worlds[i].accounts[k].deleting
    requires forall n :: i <= n < j ==> !IsARelease(acts[n], k)
    requires worlds[i].accounts[k].provider in worlds[j].providers
    ensures Gone(AccountPass(AccountPass(worlds[j], k), k), k, worlds[i].accounts[k].provider)
  {
    Reachable(worlds, acts, i);
    AccountStays(worlds, acts, i, j, k);
    Reachable(worlds, acts, j);
    TwoPassesDelete(worlds[j], k);
  }

  // ---------------------------------------------------------------- buckets

  /** Nothing keeps the finalizer from being removed. */
  predicate FreeToGo(w: World, k: Key)
    requires k in w.buckets
  {
    var b := w.buckets[k];
    b.spec.provider !in w.providers || b.spec.reclaim != Delete || MinioAt(k, b) in w.minio.buckets
  }

  lemma MarkedBucketGoes(w: World, k: Key, render: Renderer)
    requires k in w.buckets && w.buckets[k].deleting && IsTrue(w.buckets[k].status.conditions, Deleting)
    ensures var w' := BucketPass(w, k, render);
            && (k !in w'.buckets <==> FreeToGo(w, k))
            && (k in w'.buckets ==> w' == w.(past := w'.past))
            && (k !in w'.buckets && w.buckets[k].spec.provider in w.providers && w.buckets[k].spec.reclaim == Delete ==>
                  w'.minio.buckets == w.minio.buckets - {MinioAt(k, w.buckets[k])})
            && (w.buckets[k].spec.reclaim != Delete || w.buckets[k].spec.provider !in w.providers ==> w'.minio == w.minio)
  {
  }

  lemma UnmarkedBucketIsMarked(w: World, k: Key, render: Renderer)
    requires k in w.buckets && w.buckets[k].deleting && !IsTrue(w.buckets[k].status.conditions, Deleting)
    ensures var w' := BucketPass(w, k, render);
            && k in w'.buckets && w'.buckets[k].deleting && IsTrue(w'.buckets[k].status.conditions, Deleting)
            && w'.buckets[k].spec == w.buckets[k].spec && w'.providers == w.providers && w'.minio == w.minio
  {
  }

  /** Two undisturbed passes finish the deletion exactly when the policy is not
      Delete, the provider is missing, or the MinIO bucket is still there. */
  lemma BucketDeletionExactly(w: World, k: Key, render: Renderer)
    requires k in w.buckets && w.buckets[k].deleting
    ensures k !in BucketPass(BucketPass(w, k, render), k, render).buckets <==> FreeToGo(w, k)
  {
    var w1 := BucketPass(w, k, render);
    if IsTrue(w.buckets[k].status.conditions, Deleting) {
      MarkedBucketGoes(w, k, render);
      if k in w1.buckets {
        MarkedBucketGoes(w1, k, render);
      }
    } else {
      UnmarkedBucketIsMarked(w, k, render);
      MarkedBucketGoes(w1, k, render);
    }
  }

  /** Being deleted, with the MinIO bucket that is to be removed already gone. */
  predicate Stuck(w: World, k: Key) {
    k in w.buckets && w.buckets[k].deleting && !FreeToGo(w, k)
  }

  lemma StuckStep(w: World, k: Key, render: Renderer, w': World)
    requires Stuck(w, k) && w' == BucketPass(w, k, render)
    ensures Stuck(w', k)
  {
    if IsTrue(w.buckets[k].status.conditions, Deleting) {
      MarkedBucketGoes(w, k, render);
    } else {
      UnmarkedBucketIsMarked(w, k, render);
    }
  }

  /** Otherwise it is stuck: no number of passes gets rid of a Bucket whose MinIO
      bucket is already gone. */
  lemma {:induction false} StuckBucketStays(worlds: seq<World>, k: Key, render: Renderer, n: nat)
    requires n < |worlds| && Stuck(worlds[0], k)
    requires forall i :: 0 < i < |worlds| ==> worlds[i] == BucketPass(worlds[i - 1], k, render)
    ensures Stuck(worlds[n], k)
  {
    if n > 0 {
      StuckBucketStays(worlds, k, render, n - 1);
      StuckStep(worlds[n - 1], k, render, worlds[n]);
    }
  }

  /** Exactly when a pass over a marked Bucket leaves no MinIO bucket of its name: it
      was not there, or the policy is Delete and the provider is there. Who made it
      makes no difference. */
  lemma RemovedExactly(w: World, k: Key, render: Renderer)
    requires k in w.buckets && w.buckets[k].deleting && IsTrue(w.buckets[k].status.conditions, Deleting)
    ensures var b := w.buckets[k];
            MinioAt(k, b) !in BucketPass(w, k, render).minio.buckets <==>
            MinioAt(k, b) !in w.minio.buckets || (b.spec.reclaim == Delete && b.spec.provider in w.providers)
  {
    MarkedBucketGoes(w, k, render);
  }

  /** The same for two passes over any deleted Bucket. */
  lemma RemovedInTwoExactly(w: World, k: Key, render: Renderer)
    requires k in w.buckets && w.buckets[k].deleting
    ensures var b := w.buckets[k];
            MinioAt(k, b) !in BucketPass(BucketPass(w, k, render), k, render).minio.buckets <==>
            MinioAt(k, b) !in w.minio.buckets || (b.spec.reclaim == Delete && b.spec.provider in w.providers)
  {
    var w1 := BucketPass(w, k, render);
    if IsTrue(w.buckets[k].status.conditions, Deleting) {
      RemovedExactly(w, k, render);
      MarkedBucketGoes(w, k, render);
      if k in w1.buckets {
        RemovedExactly(w1, k, render);
      }
    } else {
      UnmarkedBucketIsMarked(w, k, render);
      RemovedExactly(w1, k, render);
    }
  }

  /** No pass ever removes any other MinIO bucket. */
  lemma OnlyOwnNameRemoved(w: World, k: Key, render: Renderer, at: Loc)
    requires k in w.buckets && w.buckets[k].deleting && at != MinioAt(k, w.buckets[k]) && at in w.minio.buckets
    ensures at in BucketPass(w, k, render).minio.buckets
  {
    if IsTrue(w.buckets[k].status.conditions, Deleting) {
      MarkedBucketGoes(w, k, render);
    } else {
      UnmarkedBucketIsMarked(w, k, render);
    }
  }
}
