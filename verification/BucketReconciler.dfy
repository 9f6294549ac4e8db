/** The bucket controller (controllers/bucket_controller.go), call by call, with
    the others running and calls failing in between. */
module BucketReconcilers {
  import opened Wrappers
  import opened Owners
  import opened OwnerLists
  import opened Conditions
  import opened Worlds
  import opened Actions
  import opened Invariants
  import opened Relying
  import opened Clusters
  import opened SecretData
  import opened Listings
  import opened Providers
  import opened BucketPasses
  import opened Settled
  import Outcomes

  /** The stored object is what was read as long as its version is. */
  ghost predicate Follows(k: Key, base: Bucket, w: World) {
    && base.version <= w.tick
    && (k in w.buckets && w.buckets[k].version == base.version ==> w.buckets[k] == base)
  }

  lemma FollowsOn(k: Key, base: Bucket, w: World, w': World)
    requires Follows(k, base, w) && Newer(w, w')
    ensures Follows(k, base, w')
  {
  }

  lemma DraftOn(base: Bucket, name: string, step: BucketStep, status: BucketStatus, past: History, past': History)
    requires LegalDraft(base, name, step, status, past) && past.made <= past'.made
    ensures LegalDraft(base, name, step, status, past')
  {
  }

  /** The controller's in-memory copy of a Bucket. */
  class BucketCopy {
    const key: Key
    var it: Bucket
    var step: BucketStep   // how its status differs from the one that was read
    ghost var base: Bucket // what was read

    ghost predicate Tracks(w: World)
      reads this
    {
      && w.desk.bucketPass
      && Follows(key, base, w)
      && it == base.(status := it.status)
      && LegalDraft(base, key.name, step, it.status, w.past)
      && (base.spec.reclaim == Delete ==> key.name in w.past.everDelete)
    }

    /** The stored object carries the finalizer and is the one that was read. */
    ghost predicate Stands(w: World)
      reads this
    {
      && key in w.buckets && w.buckets[key].finalizer && w.buckets[key].uid == it.uid
      && (it.spec.provider != "" ==> w.buckets[key].spec.provider == it.spec.provider)
    }

    ghost predicate Current(w: World)
      reads this
    {
      key in w.buckets && w.buckets[key] == base && it == base
    }

    constructor (key: Key, stored: Bucket)
      ensures this.key == key && it == stored && base == stored
      ensures step == BucketStep(stored.status.endpoint, stored.status.secretName, Keep, 0)
    {
      this.key := key;
      this.it := stored;
      this.base := stored;
      this.step := BucketStep(stored.status.endpoint, stored.status.secretName, Keep, 0);
    }

    /** The copy becomes what is stored. */
    method Refresh(stored: Bucket, ghost w: World)
      requires key in w.buckets && w.buckets[key] == stored && stored.finalizer && stored.version <= w.tick
      requires w.desk.bucketPass && (stored.spec.reclaim == Delete ==> key.name in w.past.everDelete)
      modifies `it, `step, `base
      ensures it == stored && step == BucketStep(stored.status.endpoint, stored.status.secretName, Keep, 0)
      ensures Tracks(w) && Stands(w) && Current(w)
    {
      it := stored;
      base := stored;
      step := BucketStep(stored.status.endpoint, stored.status.secretName, Keep, 0);
      UnchangedIsLegal(stored, key.name, w.past);
    }
  }

  ghost predicate Saved(mid: World, k: Key, it: Bucket, w: World) {
    k in mid.buckets && mid.buckets[k].version == it.version && w == Save(mid, k, it.status)
  }

  lemma SavedBare(mid: World, k: Key, it: Bucket, w: World)
    requires Saved(mid, k, it, w)
    ensures Saved(Bare(mid), k, it, Bare(w))
  {
  }

  lemma SaveIsOnlyConditions(w: World, k: Key, change: Change, at: nat, w': World)
    requires k in w.buckets
    requires w' == w || w' == Save(w, k, BucketChanged(w.buckets[k].status, change, at))
    ensures OnlyConditions(w, k, w')
  {
  }

  lemma PutBucketBare(w: World, k: Key, b: Bucket)
    ensures Bare(PutBucket(w, k, b)) == PutBucket(Bare(w), k, b)
  {
  }

  lemma MadeBare(w: World, k: Key)
    requires BGuard(BMake(k), w) && BAccepts(BMake(k), w)
    ensures k in w.buckets && Bare(BEffect(BMake(k), w)) == Made(Bare(w), k)
  {
  }

  lemma DefaultBare(w: World)
    requires OneDefault(w)
    ensures OneDefault(Bare(w))
  {
    assert forall d :: DefaultProvider(Bare(w), d) <==> DefaultProvider(w, d);
  }

  /** The owner stage, given what reading or creating the account has come to. */
  lemma OwnerStageFrom(w: World, k: Key, w1: World, uid: nat, owners: seq<OwnerRef>)
    requires k in w.buckets
    requires var a := AccountKey(k, w.buckets[k]);
             && (a in w.accounts || FreshAccount(w, a, w.buckets[k].spec.provider))
             && w1 == (if a in w.accounts then w else NewAccount(w, a, w.buckets[k].spec.provider))
             && a in w1.accounts && uid == w1.accounts[a].uid
             && owners == Forced(w.buckets[k].owners, AccountRef(a.name, uid))
    ensures OwnerStage(w, k) ==
            if owners == w.buckets[k].owners then (w1, true)
            else (PutBucket(w1, k, w.buckets[k].(owners := owners)), false)
  {
  }

  lemma CredentialStageIs(w: World, k: Key, render: Renderer, p: Provider, target: Option<Secret>, sa: Secret)
    requires TargetIs(w, k, target) && Holds(w, SecretStored(SaKey(AccountKey(k, w.buckets[k])), sa))
    ensures var secret := Prepared(render, k, w.buckets[k], target, sa, p);
            CredentialStage(w, k, render, p) ==
            if secret.None? then None else Some(WriteSecret(w, k, secret.value))
  {
  }

  lemma StagesEstablished(w: World, k: Key, render: Renderer, p: Provider, w': World)
    requires k in w.buckets && Owned(w, k) && w.buckets[k].status.endpoint.Some?
    requires MinioAt(k, w.buckets[k]) in w.minio.buckets
    requires w.buckets[k].spec.secretName.Some? && w.buckets[k].spec.template.Keys !! RESERVED
    requires SecretStage(w, k, render, p).1 && OnlyConditions(SecretStage(w, k, render, p).0, k, w')
    ensures Established(w', k, render, p) && OnlyStages(w, k, w')
  {
    SecretStageFills(w, k, render, p);
    var w1 := SecretStage(w, k, render, p).0;
    StillOwned(w, k, w1);
    StillEstablished(w1, k, render, p, w');
  }

  lemma NewAccountBare(w: World, k: Key, provider: string)
    ensures Bare(NewAccount(w, k, provider)) == NewAccount(Bare(w), k, provider)
    ensures FreshAccount(w, k, provider) == FreshAccount(Bare(w), k, provider)
  {
  }

  lemma PassBegins(w: World, k: Key, render: Renderer)
    ensures var w1 := BEffect(BBegin, w);
            BucketPass(Bare(w), k, render) == if k in w1.buckets then CopyPass(Bare(w1), k, render) else Bare(w1)
  {
  }

  lemma BareEstablished(w: World, k: Key, render: Renderer, p: Provider)
    requires Established(Bare(w), k, render, p)
    ensures Established(w, k, render, p)
  {
  }

  lemma ChangeIsLegal(base: Bucket, name: string, step: BucketStep, status: BucketStatus, past: History,
                      change: Change, now: nat)
    requires LegalDraft(base, name, step, status, past) && step.change == Keep
    requires change == Create ==> base.status.conditions == []
    requires change == Succeed ==> status.endpoint.Some? && !IsTrue(base.status.conditions, Ready)
    ensures LegalDraft(base, name, step.(change := change, at := now), BucketChanged(status, change, now), past)
    ensures status.conditions == base.status.conditions
  {
  }

  lemma UnchangedIsLegal(b: Bucket, name: string, past: History)
    ensures LegalDraft(b, name, BucketStep(b.status.endpoint, b.status.secretName, Keep, 0), b.status, past)
  {
  }

  /** The pass has left the spec, the owners and the providers as they were. */
  predicate OnlyStages(w: World, k: Key, w': World) {
    && k in w.buckets && k in w'.buckets && w'.providers == w.providers
    && w'.buckets[k] == w.buckets[k].(version := w'.buckets[k].version, status := w'.buckets[k].status)
  }

  const NO_SECRET := Secret(0, [], map[])

  /** At most the version and the recorded secret name differ. */
  predicate SameButSecretName(b: Bucket, b': Bucket) {
    b' == b.(version := b'.version, status := b.status.(secretName := b'.status.secretName))
  }

  lemma PutSecretBare(w: World, k: Key, s: Secret)
    ensures Bare(PutSecret(w, k, s)) == PutSecret(Bare(w), k, s)
  {
  }

  lemma PutSecretHolds(w: World, k: Key, s: Secret)
    requires s.version == 0
    ensures Holds(PutSecret(w, k, s), SecretStored(k, s))
  {
  }

  ghost predicate TargetIs(w: World, k: Key, target: Option<Secret>) {
    && k in w.buckets
    && var t := TargetKey(k, w.buckets[k]);
    target == if t in w.secrets then Some(w.secrets[t]) else None
  }

  /** Nothing on record is lost, and the Ready block is reached nowhere in between. */
  predicate Recalls(w: World, w': World) {
    w.desk.facts <= w'.desk.facts && (Reached in w'.desk.facts ==> Reached in w.desk.facts)
  }

  /** What has been read is what is stored. */
  ghost predicate SecretsAre(w: World, k: Key, target: Option<Secret>, sa: Secret) {
    TargetIs(w, k, target) && Holds(w, SecretStored(SaKey(AccountKey(k, w.buckets[k])), sa))
  }

  /** The stored object is gone, or not the one that was read. */
  predicate Outdated(w: World, k: Key, version: nat) {
    k !in w.buckets || w.buckets[k].version != version
  }

  predicate StatusStored(w: World, k: Key, status: BucketStatus) {
    k in w.buckets && w.buckets[k].status == status
  }

  /** The latest call has asked for a status of this bucket that says how its pass ended. */
  ghost predicate ReportsTo(asked: seq<Action>, k: Key) {
    && asked != []
    && var act := asked[|asked| - 1];
    && act.ByBuckets? && act.b.BStatus? && act.b.key == k
    && (act.b.step.change == Change.Fail || act.b.step.change == Succeed)
  }

  /** The latest call has asked for something of this bucket that a pass may end with. */
  predicate Worked(asked: seq<Action>, k: Key) {
    && asked != []
    && var act := asked[|asked| - 1];
    && act.ByBuckets? && (act.b.BStatus? || act.b.BUpdate? || act.b.BRelease?) && act.b.key == k
  }

  /** It asks for what a failure is to look like on this bucket. */
  ghost predicate Erred(act: Action, it: Bucket) {
    && act.ByBuckets? && act.b.BStatus? && act.b.version == it.version && act.b.step.change == Change.Fail
    && Outcomes.BucketErred(it.status, act.b.status, act.b.step.at)
  }

  class BucketReconciler {
    const c: Cluster
    const render: Renderer

    constructor (c: Cluster, render: Renderer)
      ensures this.c == c && this.render == render
    {
      this.c := c;
      this.render := render;
    }

    /** One reading call that the copy survives, and what can be read off any world. */
    method Survey(b: BucketCopy) returns (ok: bool)
      requires c.Valid() && b.Tracks(c.w) && b.Stands(c.w)
      modifies c`w, c`trace, c`passed
      ensures c.Valid() && b.Tracks(c.w) && b.Stands(c.w) && Newer(old(c.w), c.w) && BucketsLeftAlone(old(c.w), c.w)
      ensures Present(c.w) && OneDefault(c.w)
      ensures forall k :: k in c.w.secrets ==> c.w.secrets[k].version <= c.w.tick
      ensures c.w.desk.facts == old(c.w).desk.facts
      ensures (!c.busy ==> c.w == old(c.w)) && (!c.faulty ==> ok)
    {
      ok := c.Read(BucketWorker);
      FollowsOn(b.key, b.base, old(c.w), c.w);
      DraftOn(b.base, b.key.name, b.step, b.it.status, old(c.w).past, c.w.past);
      c.Good();
    }

    /** One reading call. */
    method Look(b: BucketCopy) returns (ok: bool)
      requires c.Valid() && b.Tracks(c.w) && b.Stands(c.w)
      modifies c`w, c`trace, c`passed
      ensures c.Valid() && b.Tracks(c.w) && b.Stands(c.w) && Recalls(old(c.w), c.w) && old(c.w).tick <= c.w.tick
      ensures (!c.busy ==> c.w == old(c.w)) && (!c.faulty ==> ok)
    {
      ok := Survey(b);
    }

    /** The version of a stored secret is one that has been handed out. */
    method LookForSecret(b: BucketCopy, t: Key) returns (ok: bool, found: Option<Secret>)
      requires c.Valid() && b.Tracks(c.w) && b.Stands(c.w)
      modifies c`w, c`trace, c`passed
      ensures c.Valid() && b.Tracks(c.w) && b.Stands(c.w) && Recalls(old(c.w), c.w)
      ensures ok ==> found == (if t in c.w.secrets then Some(c.w.secrets[t]) else None)
      ensures ok && found.Some? ==> found.value.version <= c.w.tick
      ensures (!c.busy ==> c.w == old(c.w)) && (!c.faulty ==> ok)
    {
      found := None;
      ok := Survey(b);
      if ok && t in c.w.secrets {
        found := Some(c.w.secrets[t]);
      }
    }

    /** What a reply has told is put on record. */
    method Learn(b: BucketCopy, fact: Fact)
      requires c.Valid() && b.Tracks(c.w) && b.Stands(c.w) && Holds(c.w, fact)
      modifies c`w, c`trace, c`passed
      ensures c.Valid() && b.Tracks(c.w) && b.Stands(c.w)
      ensures c.w == old(c.w).(desk := old(c.w).desk.(facts := c.w.desk.facts))
      ensures old(c.w).desk.facts <= c.w.desk.facts && fact in c.w.desk.facts
      ensures fact != Reached ==> Recalls(old(c.w), c.w)
    {
      c.Take(ByBuckets(BLearn(fact)));
    }

    /** One writing call, other than a release, that the copy survives. */
    method Write(b: BucketCopy, act: BAct) returns (reply: Reply, ghost mid: World)
      requires c.Valid() && b.Tracks(c.w) && b.Stands(c.w)
      requires BGuard(act, c.w) && BKnown(act, c.w) && !act.BRelease? && !act.BBegin? && !act.BLearn?
      modifies c`w, c`trace, c`passed, c`asked
      ensures c.Valid() && b.Tracks(c.w) && b.Stands(c.w)
      ensures BucketsLeftAlone(old(c.w), mid) && Newer(old(c.w), mid) && Newer(mid, c.w)
      ensures Present(mid) && BGuard(act, mid) && Recalls(old(c.w), c.w)
      ensures !c.busy ==> mid == old(c.w)
      ensures c.asked == old(c.asked) + [ByBuckets(act)]
      ensures reply.Done? ==> BAccepts(act, mid) && c.w == BEffect(act, mid)
      ensures reply.Refused? ==> !BAccepts(act, mid) && c.w == mid
      ensures reply.Fault? ==> c.faulty && (c.w == mid || (BAccepts(act, mid) && c.w == BEffect(act, mid)))
    {
      reply, mid := c.CallB(act);
      FollowsOn(b.key, b.base, old(c.w), mid);
      FollowsOn(b.key, b.base, mid, c.w);
      DraftOn(b.base, b.key.name, b.step, b.it.status, old(c.w).past, c.w.past);
    }

    /** r.Status().Update: an accepted write refreshes the copy. */
    method UpdateStatus(b: BucketCopy, proof: Proof) returns (ok: bool, ghost mid: World)
      requires c.Valid() && b.Tracks(c.w) && b.Stands(c.w) && (b.it.deleting <==> b.step.change == Erase)
      requires b.step.change == Succeed ==> Proves(proof, b.key, b.base, c.w.desk.facts)
      modifies c`w, c`trace, c`passed, c`asked, b`it, b`step, b`base
      ensures c.Valid() && b.Tracks(c.w) && b.Stands(c.w) && Recalls(old(c.w), c.w)
      ensures BucketsLeftAlone(old(c.w), mid) && (c.w == mid || Saved(mid, b.key, old(b.it), c.w))
      ensures c.w == mid || Saved(Bare(mid), b.key, old(b.it), Bare(c.w))
      ensures !c.busy ==> mid == old(c.w)
      ensures ok ==> Saved(Bare(mid), b.key, old(b.it), Bare(c.w))
      ensures ok ==> b.it == old(b.it).(version := b.it.version) && b.Current(c.w)
      ensures ok ==> b.step == BucketStep(b.it.status.endpoint, b.it.status.secretName, Keep, 0)
      ensures !ok ==> b.step == old(b.step) && b.it == old(b.it) && b.base == old(b.base)
      ensures c.LastAsked(ByBuckets(BStatus(b.key, old(b.it.version), old(b.it.status), old(b.step), proof)))
      ensures !ok && !c.faulty ==> Outdated(c.w, b.key, old(b.it.version))
      ensures c.Quiet() && b.key in mid.buckets && mid.buckets[b.key].version == old(b.it.version) ==> ok
    {
      ok, mid := PutStatus(b, proof);
      if ok {
        b.Refresh(c.w.buckets[b.key], c.w);
      }
    }

    /** The write against the version that was read. */
    method PutStatus(b: BucketCopy, proof: Proof) returns (ok: bool, ghost mid: World)
      requires c.Valid() && b.Tracks(c.w) && b.Stands(c.w) && (b.it.deleting <==> b.step.change == Erase)
      requires b.step.change == Succeed ==> Proves(proof, b.key, b.base, c.w.desk.facts)
      modifies c`w, c`trace, c`passed, c`asked
      ensures c.Valid() && b.Tracks(c.w) && b.Stands(c.w) && Recalls(old(c.w), c.w)
      ensures BucketsLeftAlone(old(c.w), mid) && (!c.busy ==> mid == old(c.w))
      ensures c.w == mid || Saved(mid, b.key, b.it, c.w)
      ensures c.w == mid || Saved(Bare(mid), b.key, b.it, Bare(c.w))
      ensures ok ==> Saved(Bare(mid), b.key, b.it, Bare(c.w))
      ensures ok ==> c.w.buckets[b.key] == b.it.(version := c.w.buckets[b.key].version)
      ensures ok ==> c.w.buckets[b.key].version <= c.w.tick
      ensures c.LastAsked(ByBuckets(BStatus(b.key, b.it.version, b.it.status, b.step, proof)))
      ensures !ok && !c.faulty ==> Outdated(c.w, b.key, b.it.version)
      ensures c.Quiet() && b.key in mid.buckets && mid.buckets[b.key].version == b.it.version ==> ok
    {
      var reply;
      reply, mid := Write(b, BStatus(b.key, b.it.version, b.it.status, b.step, proof));
      ok := reply.Done?;
      if c.w != mid || ok {
        SavedBare(mid, b.key, b.it, c.w);
      }
    }

    /** A status change made in memory and stored at once. */
    method Advance(b: BucketCopy, change: Change, proof: Proof) returns (ok: bool)
      requires c.Valid() && b.Tracks(c.w) && b.Stands(c.w) && b.step.change == Keep
      requires b.it.deleting <==> change == Erase
      requires change == Create ==> b.base.status.conditions == []
      requires change == Succeed ==> b.it.status.endpoint.Some? && !IsTrue(b.base.status.conditions, Ready)
      requires change == Succeed ==> Proves(proof, b.key, b.base, c.w.desk.facts)
      modifies c`w, c`trace, c`passed, c`asked, b`it, b`step, b`base
      ensures c.Valid() && Recalls(old(c.w), c.w)
      ensures c.LastAsked(ByBuckets(BStatus(b.key, old(b.it.version), BucketChanged(old(b.it.status), change, old(c.w).now),
                                            old(b.step).(change := change, at := old(c.w).now), proof)))
      ensures ok ==> StatusStored(c.w, b.key, BucketChanged(old(b.it.status), change, old(c.w).now))
      ensures !ok && !c.faulty ==> Outdated(c.w, b.key, old(b.it.version))
      ensures !c.busy && old(b.Current(c.w)) ==>
                Bare(c.w) == Save(Bare(old(c.w)), b.key, BucketChanged(old(b.it.status), change, old(c.w).now)) ||
                (!ok && Bare(c.w) == Bare(old(c.w)))
      ensures c.Quiet() && old(b.Current(c.w)) ==> ok
    {
      ChangeIsLegal(b.base, b.key.name, b.step, b.it.status, c.w.past, change, c.w.now);
      b.step := b.step.(change := change, at := c.w.now);
      b.it := b.it.(status := BucketChanged(b.it.status, change, c.w.now));
      ghost var mid;
      ok, mid := UpdateStatus(b, proof);
    }

    /** r.err: Ready false, Error true, phase Error, with whatever else the copy holds by
        now. The write is asked for in any case, and with no failing call it is there
        afterwards, or somebody has written the object since it was read. */
    method Fail(b: BucketCopy)
      requires c.Valid() && b.Tracks(c.w) && b.Stands(c.w) && b.step.change == Keep && !b.it.deleting
      modifies c`w, c`trace, c`passed, c`asked, b`it, b`step, b`base
      ensures c.Valid() && Recalls(old(c.w), c.w)
      ensures ReportsTo(c.asked, b.key) && Erred(c.asked[|c.asked| - 1], old(b.it))
      ensures !c.faulty ==> StatusStored(c.w, b.key, c.asked[|c.asked| - 1].b.status) || Outdated(c.w, b.key, old(b.it.version))
      ensures c.Quiet() && old(b.Current(c.w)) ==> Bare(c.w) == Failed(Bare(old(c.w)), b.key)
    {
      var _ := Advance(b, Change.Fail, Unproved);
    }

    /** r.Update of the whole object. */
    method Update(b: BucketCopy, edited: Bucket) returns (ok: bool)
      requires c.Valid() && b.Tracks(c.w) && b.Stands(c.w) && LegalEdit(b.base, edited)
      modifies c`w, c`trace, c`passed, c`asked
      ensures c.Valid() && b.Tracks(c.w) && b.Stands(c.w) && Recalls(old(c.w), c.w)
      ensures c.LastAsked(ByBuckets(BUpdate(b.key, b.it.version, edited)))
      ensures ok ==> c.w.buckets[b.key] == edited.(version := c.w.buckets[b.key].version)
      ensures c.Quiet() && b.Current(old(c.w)) ==> ok
      ensures ok && !c.busy && b.Current(old(c.w)) ==> Bare(c.w) == PutBucket(Bare(old(c.w)), b.key, edited)
    {
      PutBucketBare(c.w, b.key, edited);
      var reply, mid := Write(b, BUpdate(b.key, b.it.version, edited));
      ok := reply.Done?;
    }

    /** The account exists and controls the bucket, or the pass ends here. */
    method ReconcileServiceAccount(b: BucketCopy) returns (ok: bool, failed: bool, uid: nat)
      requires c.Valid() && b.Tracks(c.w) && b.Stands(c.w) && b.it == b.base
      modifies c`w, c`trace, c`passed, c`asked
      ensures c.Valid() && b.Tracks(c.w) && b.Stands(c.w) && Recalls(old(c.w), c.w)
      ensures ok ==> !failed && Holds(c.w, AccountStored(AccountKey(b.key, b.it), uid))
      ensures ok ==> AccountStored(AccountKey(b.key, b.it), uid) in c.w.desk.facts
      ensures ok ==> Forced(b.it.owners, AccountRef(b.it.spec.serviceAccount, uid)) == b.it.owners
      ensures ok && !c.busy ==> Bare(c.w) == Bare(old(c.w)).(tick := c.w.tick, nextUid := c.w.nextUid, accounts := c.w.accounts)
      ensures c.Quiet() && b.Current(old(c.w)) && failed ==>
                Bare(c.w) == Bare(old(c.w)) && OwnerStage(Bare(old(c.w)), b.key) == (Failed(Bare(old(c.w)), b.key), false)
      ensures !c.busy && b.Current(old(c.w)) && !failed ==>
                (Bare(c.w), ok) == OwnerStage(Bare(old(c.w)), b.key) && (ok ==> b.Current(c.w))
      ensures !ok && !failed ==> Worked(c.asked, b.key)
    {
      ok, uid := EnsureAccount(b);
      if !ok {
        return false, true, uid;
      }
      if !c.busy && b.Current(old(c.w)) {
        OwnerStageFrom(Bare(old(c.w)), b.key, Bare(c.w), uid, Forced(b.it.owners, AccountRef(b.it.spec.serviceAccount, uid)));
      }
      ok, failed := TakeOwner(b, uid);
    }

    /** The owner list rewritten for the account; a list that changes is stored and
        ends the pass. */
    method TakeOwner(b: BucketCopy, uid: nat) returns (ok: bool, failed: bool)
      requires c.Valid() && b.Tracks(c.w) && b.Stands(c.w) && b.it == b.base
      modifies c`w, c`trace, c`passed, c`asked
      ensures c.Valid() && b.Tracks(c.w) && b.Stands(c.w) && Recalls(old(c.w), c.w)
      ensures var owners := Forced(b.it.owners, AccountRef(b.it.spec.serviceAccount, uid));
              && (ok <==> owners == b.it.owners) && (ok ==> !failed && c.w == old(c.w))
              && (c.Quiet() && b.Current(old(c.w)) ==> !failed)
              && (!c.busy && b.Current(old(c.w)) && !ok && !failed ==>
                    Bare(c.w) == PutBucket(Bare(old(c.w)), b.key, b.it.(owners := owners)))
      ensures !ok ==> Worked(c.asked, b.key)
    {
      var owners := ForcedOwners(b, uid);
      if owners == b.it.owners {
        return true, false;
      }
      var done := Update(b, b.it.(owners := owners));
      return false, !done;
    }

    /** The rewrite on a deep copy of the owner list. */
    method ForcedOwners(b: BucketCopy, uid: nat) returns (owners: seq<OwnerRef>)
      ensures owners == Forced(b.it.owners, AccountRef(b.it.spec.serviceAccount, uid))
    {
      var list := new OwnerList(b.it.owners);
      var copy, changed := ForceOnCopy(list, AccountRef(b.it.spec.serviceAccount, uid));
      owners := copy.data[..copy.len];
    }

    /** The bucket's account, read or created; what counts is its uid. */
    method EnsureAccount(b: BucketCopy) returns (ok: bool, uid: nat)
      requires c.Valid() && b.Tracks(c.w) && b.Stands(c.w)
      modifies c`w, c`trace, c`passed, c`asked
      ensures c.Valid() && b.Tracks(c.w) && b.Stands(c.w) && Recalls(old(c.w), c.w)
      ensures ok ==> Holds(c.w, AccountStored(AccountKey(b.key, b.it), uid))
      ensures ok ==> AccountStored(AccountKey(b.key, b.it), uid) in c.w.desk.facts
      ensures ok && !c.busy ==>
                var w, k := Bare(old(c.w)), AccountKey(b.key, b.it);
                (k in w.accounts || FreshAccount(w, k, b.it.spec.provider)) &&
                Bare(c.w) == (if k in w.accounts then w else NewAccount(w, k, b.it.spec.provider))
      ensures c.Quiet() ==>
                var w, k := Bare(old(c.w)), AccountKey(b.key, b.it);
                && (ok <==> k in w.accounts || FreshAccount(w, k, b.it.spec.provider))
                && (!ok ==> Bare(c.w) == w)
    {
      var k := AccountKey(b.key, b.it);
      uid := 0;
      ok := Look(b);
      if !ok {
        return;
      }
      if k !in c.w.accounts {
        ok := CreateAccount(b);
        if !ok {
          return;
        }
      }
      uid := c.w.accounts[k].uid;
      Learn(b, AccountStored(k, uid));
    }

    method CreateAccount(b: BucketCopy) returns (ok: bool)
      requires c.Valid() && b.Tracks(c.w) && b.Stands(c.w)
      modifies c`w, c`trace, c`passed, c`asked
      ensures c.Valid() && b.Tracks(c.w) && b.Stands(c.w) && Recalls(old(c.w), c.w)
      ensures ok ==> AccountKey(b.key, b.it) in c.w.accounts
      ensures ok && !c.busy ==>
                FreshAccount(Bare(old(c.w)), AccountKey(b.key, b.it), b.it.spec.provider) &&
                Bare(c.w) == NewAccount(Bare(old(c.w)), AccountKey(b.key, b.it), b.it.spec.provider)
      ensures c.Quiet() ==>
                && (ok <==> FreshAccount(Bare(old(c.w)), AccountKey(b.key, b.it), b.it.spec.provider))
                && (!ok ==> Bare(c.w) == Bare(old(c.w)))
    {
      var k := AccountKey(b.key, b.it);
      NewAccountBare(c.w, k, b.it.spec.provider);
      var reply, mid := Write(b, BCreateAccount(k, b.it.spec.provider));
      ok := reply.Done?;
    }

    /** The MinIO bucket exists and the endpoint is recorded, or the pass ends here. */
    method ReconcileBucket(b: BucketCopy, endpoint: string) returns (ok: bool, failed: bool)
      requires c.Valid() && b.Tracks(c.w) && b.Stands(c.w) && b.it == b.base && b.step.change == Keep
      requires !b.it.deleting && b.it.spec.provider != ""
      modifies c`w, c`trace, c`passed, c`asked, b`it, b`step, b`base
      ensures c.Valid() && b.Tracks(c.w) && b.Stands(c.w) && Recalls(old(c.w), c.w)
      ensures b.it.deleting == old(b.it.deleting) && b.step.change == Keep
      ensures ok ==> !failed && b.it == old(b.it) && b.base == old(b.base) && b.it.status.endpoint.Some?
      ensures ok ==> MinioAt(b.key, b.it) in c.w.minio.buckets && MinioStored(MinioAt(b.key, b.it)) in c.w.desk.facts
      ensures ok && !c.busy ==> Bare(c.w) == Bare(old(c.w))
      ensures !c.busy ==> old(c.w).minio.buckets <= c.w.minio.buckets
      ensures c.Quiet() && old(b.Current(c.w)) && failed ==>
                && Bare(c.w) == Bare(old(c.w)) && b.Current(c.w)
                && BucketStage(Bare(old(c.w)), b.key, endpoint) == (Failed(Bare(old(c.w)), b.key), false)
      ensures !ok && !failed ==>
                && (old(b.it.uid), MinioAt(b.key, old(b.it))) in c.w.past.made
                && StatusStored(c.w, b.key, old(b.it.status).(endpoint := Some(endpoint)))
      ensures !c.busy && old(b.Current(c.w)) && !failed ==>
                (Bare(c.w), ok) == BucketStage(Bare(old(c.w)), b.key, endpoint) && (ok ==> b.Current(c.w))
      ensures !ok && !failed ==> Worked(c.asked, b.key)
    {
      var found;
      ok, found := BucketExists(b);
      if !ok {
        return false, true;
      }
      if found {
        ok := b.it.status.endpoint.Some?;
        return ok, !ok;
      }
      ok := MakeBucket(b, endpoint);
      return false, !ok;
    }

    method BucketExists(b: BucketCopy) returns (ok: bool, found: bool)
      requires c.Valid() && b.Tracks(c.w) && b.Stands(c.w)
      modifies c`w, c`trace, c`passed
      ensures c.Valid() && b.Tracks(c.w) && b.Stands(c.w) && Recalls(old(c.w), c.w)
      ensures ok ==> (found <==> MinioAt(b.key, b.it) in c.w.minio.buckets)
      ensures ok && found ==> MinioStored(MinioAt(b.key, b.it)) in c.w.desk.facts
      ensures !c.busy ==> Bare(c.w) == Bare(old(c.w))
      ensures c.Quiet() ==> ok
    {
      ok := Look(b);
      found := ok && MinioAt(b.key, b.it) in c.w.minio.buckets;
      if found {
        Learn(b, MinioStored(MinioAt(b.key, b.it)));
      }
    }

    /** MakeBucket, then the endpoint recorded; if that fails the bucket goes again.
        The rollback can only be of a make of this pass. If recording fails it is asked for
        in any case, and with no failing call the MinIO bucket is gone; with nobody else
        around no MinIO bucket that was there is lost. */
    method MakeBucket(b: BucketCopy, endpoint: string) returns (ok: bool)
      requires c.Valid() && b.Tracks(c.w) && b.Stands(c.w) && b.it == b.base && b.step.change == Keep
      requires !b.it.deleting && b.it.spec.provider != ""
      modifies c`w, c`trace, c`passed, c`asked, b`it, b`step, b`base
      ensures c.Valid() && b.Tracks(c.w) && b.Stands(c.w) && Recalls(old(c.w), c.w)
      ensures b.it.deleting == old(b.it.deleting) && b.step.change == Keep
      ensures ok ==> StatusStored(c.w, b.key, old(b.it.status).(endpoint := Some(endpoint)))
      ensures ok ==> (old(b.it.uid), MinioAt(b.key, old(b.it))) in c.w.past.made
      ensures !ok ==> Undone(MinioAt(b.key, old(b.it))) || Refused(b.key, MinioAt(b.key, old(b.it)))
      ensures !c.busy ==> old(c.w).minio.buckets <= c.w.minio.buckets
      ensures c.Quiet() && old(b.Current(c.w)) && MinioAt(b.key, old(b.it)) !in old(c.w).minio.buckets ==> ok
      ensures ok && !c.busy && old(b.Current(c.w)) ==>
                Bare(c.w) == Save(Made(Bare(old(c.w)), b.key), b.key, old(b.it.status).(endpoint := Some(endpoint)))
      ensures ok ==> Worked(c.asked, b.key)
    {
      ok := Make(b);
      if ok {
        ok := RecordOrUndo(b, endpoint);
      }
    }

    /** The rollback has been asked for, and with no failing call the MinIO bucket is gone. */
    ghost predicate Undone(at: Loc)
      reads c
    {
      c.LastAsked(ByBuckets(BUnmake(at))) && (!c.faulty ==> at !in c.w.minio.buckets)
    }

    /** The make has been the last thing asked for; with no failing call, it was refused
        because the MinIO bucket is there. */
    ghost predicate Refused(k: Key, at: Loc)
      reads c
    {
      c.LastAsked(ByBuckets(BMake(k))) && (!c.faulty ==> at in c.w.minio.buckets)
    }

    method RecordOrUndo(b: BucketCopy, endpoint: string) returns (ok: bool)
      requires c.Valid() && b.Tracks(c.w) && b.Stands(c.w) && b.it == b.base && b.step.change == Keep
      requires !b.it.deleting && b.it.spec.provider != "" && (b.it.uid, MinioAt(b.key, b.it)) in c.w.past.made
      requires MinioAt(b.key, b.it) in c.w.desk.mine && MinioAt(b.key, b.it) !in c.w.past.keep
      modifies c`w, c`trace, c`passed, c`asked, b`it, b`step, b`base
      ensures c.Valid() && b.Tracks(c.w) && b.Stands(c.w) && Recalls(old(c.w), c.w)
      ensures b.it.deleting == old(b.it.deleting) && b.step.change == Keep
      ensures ok ==> StatusStored(c.w, b.key, old(b.it.status).(endpoint := Some(endpoint)))
      ensures ok ==> old(c.w).past.made <= c.w.past.made
      ensures !ok ==> Undone(MinioAt(b.key, old(b.it)))
      ensures !c.busy ==> old(c.w).minio.buckets - {MinioAt(b.key, old(b.it))} <= c.w.minio.buckets
      ensures c.Quiet() && old(b.Current(c.w)) ==> ok
      ensures ok && !c.busy && old(b.Current(c.w)) ==>
                Bare(c.w) == Save(Bare(old(c.w)), b.key, old(b.it.status).(endpoint := Some(endpoint)))
      ensures ok ==> Worked(c.asked, b.key)
    {
      var at := MinioAt(b.key, b.it);
      ok := RecordEndpoint(b, endpoint);
      if !ok {
        Unmake(b, at);
      }
    }

    /** The rollback. */
    method Unmake(b: BucketCopy, at: Loc)
      requires c.Valid() && b.Tracks(c.w) && b.Stands(c.w) && at in c.w.desk.mine && at !in c.w.past.keep
      modifies c`w, c`trace, c`passed, c`asked
      ensures c.Valid() && b.Tracks(c.w) && b.Stands(c.w) && Recalls(old(c.w), c.w)
      ensures c.LastAsked(ByBuckets(BUnmake(at))) && (!c.faulty ==> at !in c.w.minio.buckets)
      ensures !c.busy ==> old(c.w).minio.buckets - {at} <= c.w.minio.buckets
    {
      var _, _ := Write(b, BUnmake(at));
    }

    method Make(b: BucketCopy) returns (ok: bool)
      requires c.Valid() && b.Tracks(c.w) && b.Stands(c.w) && b.it.spec.provider != ""
      modifies c`w, c`trace, c`passed, c`asked
      ensures c.Valid() && b.Tracks(c.w) && b.Stands(c.w) && Recalls(old(c.w), c.w)
      ensures ok ==> (b.it.uid, MinioAt(b.key, b.it)) in c.w.past.made
      ensures ok ==> MinioAt(b.key, b.it) in c.w.desk.mine && MinioAt(b.key, b.it) !in c.w.past.keep
      ensures !ok ==> Refused(b.key, MinioAt(b.key, b.it))
      ensures !c.busy ==> old(c.w).minio.buckets <= c.w.minio.buckets
      ensures !c.busy && ok ==> MinioAt(b.key, b.it) !in old(c.w).minio.buckets
      ensures c.Quiet() && b.Current(old(c.w)) && MinioAt(b.key, b.it) !in old(c.w).minio.buckets ==> ok
      ensures ok && !c.busy && b.Current(old(c.w)) ==> b.Current(c.w) && Bare(c.w) == Made(Bare(old(c.w)), b.key)
    {
      var reply, mid := Write(b, BMake(b.key));
      ok := reply.Done?;
      if ok {
        MadeBare(mid, b.key);
      }
    }

    method RecordEndpoint(b: BucketCopy, endpoint: string) returns (ok: bool)
      requires c.Valid() && b.Tracks(c.w) && b.Stands(c.w) && b.it == b.base && b.step.change == Keep
      requires !b.it.deleting && b.it.spec.provider != ""
      requires (b.it.uid, MinioAt(b.key, b.it)) in c.w.past.made
      modifies c`w, c`trace, c`passed, c`asked, b`it, b`step, b`base
      ensures c.Valid() && b.Tracks(c.w) && b.Stands(c.w) && Recalls(old(c.w), c.w) && c.w.past.keep <= old(c.w).past.keep
      ensures c.w.desk.mine == old(c.w).desk.mine && (!c.busy ==> c.w.minio == old(c.w).minio)
      ensures old(c.w).past.made <= c.w.past.made
      ensures ok ==> StatusStored(c.w, b.key, old(b.it.status).(endpoint := Some(endpoint)))
      ensures b.it.deleting == old(b.it.deleting) && b.step.change == Keep
      ensures c.Quiet() && old(b.Current(c.w)) ==> ok
      ensures ok && !c.busy && old(b.Current(c.w)) ==>
                Bare(c.w) == Save(Bare(old(c.w)), b.key, old(b.it.status).(endpoint := Some(endpoint)))
      ensures ok ==> Worked(c.asked, b.key)
    {
      b.step := b.step.(endpoint := Some(endpoint));
      b.it := b.it.(status := b.it.status.(endpoint := Some(endpoint)));
      ghost var met;
      ok, met := UpdateStatus(b, Unproved);
    }

    /** The secret under the name recorded earlier goes when the spec names another. */
    method DropOldSecret(b: BucketCopy) returns (ok: bool)
      requires c.Valid() && b.Tracks(c.w) && b.Stands(c.w)
      modifies c`w, c`trace, c`passed, c`asked
      ensures c.Valid() && b.Tracks(c.w) && b.Stands(c.w) && Recalls(old(c.w), c.w)
      ensures ok && !c.busy && b.Current(old(c.w)) ==>
                Bare(c.w) == WithoutOldSecret(Bare(old(c.w)), b.key) && b.Current(c.w)
      ensures c.Quiet() ==> ok
    {
      ok := true;
      if b.it.status.secretName.Some? && b.it.spec.secretName != b.it.status.secretName {
        var old_ := Key(b.key.ns, b.it.status.secretName.value);
        var reply, mid := Write(b, BDeleteSecret(old_));
        ok := !reply.Fault?;
        assert old_ !in mid.secrets ==> mid.secrets - {old_} == mid.secrets;
      }
    }

    /** The bucket's credentials secret. On success it has been stored with what the
        account's secret, as read in this pass, and the templates say. */
    method ReconcileSecret(b: BucketCopy, p: Provider) returns (ok: bool, failed: bool, sa: Secret, secret: Secret)
      requires c.Valid() && b.Tracks(c.w) && b.Stands(c.w) && b.it == b.base && b.step.change == Keep
      requires !b.it.deleting && b.it.spec.secretName.Some?
      modifies c`w, c`trace, c`passed, c`asked, b`it, b`step, b`base
      ensures c.Valid() && b.Tracks(c.w) && b.Stands(c.w) && Recalls(old(c.w), c.w)
      ensures b.it.deleting == old(b.it.deleting) && b.step.change == Keep
      ensures ok ==> !failed && SameButSecretName(old(b.it), b.it) && b.it == b.base
      ensures ok ==> Stored(b.key, old(b.it), sa, secret, p, c.w.desk.facts)
      ensures ok && !c.busy && old(b.Current(c.w)) ==>
                (Bare(c.w), true) == SecretStage(Bare(old(c.w)), b.key, render, p) && b.Current(c.w)
      ensures c.Quiet() && old(b.Current(c.w)) && failed ==>
                b.Current(c.w) && SecretStage(Bare(old(c.w)), b.key, render, p) == (Failed(Bare(c.w), b.key), false)
      ensures !c.busy && old(b.Current(c.w)) && !failed ==>
                (Bare(c.w), ok) == SecretStage(Bare(old(c.w)), b.key, render, p)
    {
      sa, secret := NO_SECRET, NO_SECRET;
      ok := DropOldSecret(b);
      if !ok {
        return false, true, sa, secret;
      }
      ok, failed, sa, secret := StoreCredentials(b, p);
    }

    /** What a secret stage that goes on has on record. */
    ghost predicate Stored(k: Key, b: Bucket, sa: Secret, secret: Secret, p: Provider, facts: set<Fact>) {
      && SecretStored(SaKey(AccountKey(k, b)), sa) in facts
      && SecretStored(TargetKey(k, b), secret) in facts
      && ControllerOf(secret.owners) == Some(BucketRef(k.name, b.uid))
      && Contents(render, b.spec.template, AccessOf(k, sa, p)) == Some(secret.data)
    }

    method StoreCredentials(b: BucketCopy, p: Provider) returns (ok: bool, failed: bool, sa: Secret, secret: Secret)
      requires c.Valid() && b.Tracks(c.w) && b.Stands(c.w) && b.it == b.base && b.step.change == Keep
      requires !b.it.deleting && b.it.spec.secretName.Some?
      modifies c`w, c`trace, c`passed, c`asked, b`it, b`step, b`base
      ensures c.Valid() && b.Tracks(c.w) && b.Stands(c.w) && Recalls(old(c.w), c.w)
      ensures b.it.deleting == old(b.it.deleting) && b.step.change == Keep
      ensures ok ==> !failed && SameButSecretName(old(b.it), b.it) && b.it == b.base
      ensures ok ==> Stored(b.key, old(b.it), sa, secret, p, c.w.desk.facts)
      ensures ok && !c.busy && old(b.Current(c.w)) ==>
                && SaKey(AccountKey(b.key, old(b.it))) in old(c.w).secrets && b.Current(c.w)
                && Some(Bare(c.w)) == CredentialStage(Bare(old(c.w)), b.key, render, p)
      ensures c.Quiet() && old(b.Current(c.w)) && !ok ==> b.Current(c.w) && Bare(c.w) == Bare(old(c.w))
      ensures !c.busy && old(b.Current(c.w)) && !ok && !failed ==>
                Bare(c.w) == Bare(old(c.w)) && SaKey(AccountKey(b.key, old(b.it))) !in old(c.w).secrets
      ensures c.Quiet() && old(b.Current(c.w)) && !ok ==>
                (failed <==> SaKey(AccountKey(b.key, old(b.it))) in old(c.w).secrets)
      ensures c.Quiet() && old(b.Current(c.w)) && failed ==>
                CredentialStage(Bare(old(c.w)), b.key, render, p).None?
    {
      sa, secret := NO_SECRET, NO_SECRET;
      var target, found;
      ok, target, found := ReadSecrets(b);
      if !ok {
        return false, true, sa, secret;
      }
      if found.None? {
        return false, false, sa, secret;
      }
      sa := found.value;
      ok, secret := FillCredentials(b, target, sa, p);
      failed := !ok;
    }

    /** What the credential stage comes to. */
    predicate StageIs(w: World, k: Key, p: Provider, r: Option<World>) {
      && k in w.buckets && SaKey(AccountKey(k, w.buckets[k])) in w.secrets
      && CredentialStage(w, k, render, p) == r
    }

    /** The stage once both secrets have been read and the account's is there. */
    method FillCredentials(b: BucketCopy, target: Option<Secret>, sa: Secret, p: Provider)
      returns (ok: bool, secret: Secret)
      requires c.Valid() && b.Tracks(c.w) && b.Stands(c.w) && b.it == b.base && b.step.change == Keep
      requires !b.it.deleting && (target.Some? ==> target.value.version <= c.w.tick)
      requires SecretStored(SaKey(AccountKey(b.key, b.it)), sa) in c.w.desk.facts
      modifies c`w, c`trace, c`passed, c`asked, b`it, b`step, b`base
      ensures c.Valid() && b.Tracks(c.w) && b.Stands(c.w) && Recalls(old(c.w), c.w)
      ensures b.it.deleting == old(b.it.deleting) && b.step.change == Keep
      ensures ok ==> SameButSecretName(old(b.it), b.it) && b.it == b.base
      ensures ok ==> Stored(b.key, old(b.it), sa, secret, p, c.w.desk.facts)
      ensures !c.busy && old(b.Current(c.w)) && SecretsAre(Bare(old(c.w)), b.key, target, sa) ==>
                if ok then b.Current(c.w) && StageIs(Bare(old(c.w)), b.key, p, Some(Bare(c.w)))
                else c.Quiet() ==>
                  b.Current(c.w) && Bare(c.w) == Bare(old(c.w)) && StageIs(Bare(old(c.w)), b.key, p, None)
    {
      if !c.busy && old(b.Current(c.w)) && SecretsAre(Bare(c.w), b.key, target, sa) {
        CredentialStageIs(Bare(c.w), b.key, render, p, target, sa);
      }
      ok, secret := PutCredentials(b, target, sa, p);
    }

    /** The target secret and the account's, read one after the other. */
    method ReadSecrets(b: BucketCopy) returns (ok: bool, target: Option<Secret>, sa: Option<Secret>)
      requires c.Valid() && b.Tracks(c.w) && b.Stands(c.w)
      modifies c`w, c`trace, c`passed
      ensures c.Valid() && b.Tracks(c.w) && b.Stands(c.w) && Recalls(old(c.w), c.w)
      ensures ok && target.Some? ==> target.value.version <= c.w.tick
      ensures ok && sa.Some? ==> SecretStored(SaKey(AccountKey(b.key, b.it)), sa.value) in c.w.desk.facts
      ensures ok && !c.busy ==> (sa.Some? <==> SaKey(AccountKey(b.key, b.it)) in c.w.secrets)
      ensures ok && !c.busy && sa.Some? && b.Current(old(c.w)) ==>
                b.Current(c.w) && SecretsAre(Bare(c.w), b.key, target, sa.value)
      ensures (!c.busy ==> Bare(c.w) == Bare(old(c.w))) && (c.Quiet() ==> ok)
    {
      sa := None;
      var s := SaKey(AccountKey(b.key, b.it));
      ok, target := LookForSecret(b, TargetKey(b.key, b.it));
      if !ok {
        return;
      }
      ok := Look(b);
      if ok && s in c.w.secrets {
        sa := Some(c.w.secrets[s].(version := 0));
        Learn(b, SecretStored(s, sa.value));
      }
    }

    /** The secret filled, claimed, and stored: an existing one is updated in any
        case, since the comparison meant to spare the call never succeeds. */
    method PutCredentials(b: BucketCopy, target: Option<Secret>, sa: Secret, p: Provider)
      returns (ok: bool, secret: Secret)
      requires c.Valid() && b.Tracks(c.w) && b.Stands(c.w) && b.it == b.base && b.step.change == Keep
      requires !b.it.deleting && (target.Some? ==> target.value.version <= c.w.tick)
      modifies c`w, c`trace, c`passed, c`asked, b`it, b`step, b`base
      ensures c.Valid() && b.Tracks(c.w) && b.Stands(c.w) && Recalls(old(c.w), c.w)
      ensures b.it.deleting == old(b.it.deleting) && b.step.change == Keep
      ensures ok ==> SameButSecretName(old(b.it), b.it) && b.it == b.base
      ensures ok ==> SecretStored(TargetKey(b.key, old(b.it)), secret) in c.w.desk.facts
      ensures ok ==> Prepared(render, b.key, old(b.it), target, sa, p) == Some(secret)
      ensures ok ==> ControllerOf(secret.owners) == Some(BucketRef(b.key.name, old(b.it.uid)))
      ensures ok && !c.busy && old(b.Current(c.w)) && TargetIs(old(c.w), b.key, target) ==>
                b.Current(c.w) && Bare(c.w) == WriteSecret(Bare(old(c.w)), b.key, secret)
      ensures target.Some? && Contents(render, old(b.it.spec.template), AccessOf(b.key, sa, p)).Some? &&
              Claimed(target.value.owners, BucketRef(b.key.name, old(b.it.uid))).None? ==>
                !ok && c.LastAsked(KeyDropped(b.key))
      ensures c.Quiet() && old(b.Current(c.w)) && TargetIs(old(c.w), b.key, target) && !ok ==>
                && Prepared(render, b.key, old(b.it), target, sa, p).None?
                && b.Current(c.w) && Bare(c.w) == Bare(old(c.w))
    {
      var prepared, foreign := Prepare(b, target, sa, p);
      if prepared.None? {
        if foreign {
          DropKey(b);
        }
        return false, sa;
      }
      secret := prepared.value;
      ok := StoreSecret(b, target, secret);
    }

    /** The secret filled and claimed in memory. */
    method Prepare(b: BucketCopy, target: Option<Secret>, sa: Secret, p: Provider)
      returns (secret: Option<Secret>, foreign: bool)
      ensures secret == Prepared(render, b.key, b.it, target, sa, p)
      ensures secret.Some? ==> !AccountControlled(secret.value)
      ensures secret.None? ==>
                (foreign <==> Contents(render, b.it.spec.template, AccessOf(b.key, sa, p)).Some?)
      ensures secret.Some? ==> ControllerOf(secret.value.owners) == Some(BucketRef(b.key.name, b.it.uid))
    {
      var data := Fill(render, b.it.spec.template, AccessOf(b.key, sa, p));
      if data.None? {
        return None, false;
      }
      var me := BucketRef(b.key.name, b.it.uid);
      var before := if target.Some? then target.value.owners else [];
      var owners := Claimed(before, me);
      if owners.None? {
        return None, true;
      }
      ClaimedController(before, me);
      return Some(Secret(0, owners.value, data.value)), false;
    }

    method StoreSecret(b: BucketCopy, target: Option<Secret>, secret: Secret) returns (ok: bool)
      requires c.Valid() && b.Tracks(c.w) && b.Stands(c.w) && b.it == b.base && b.step.change == Keep
      requires !b.it.deleting && (target.Some? ==> target.value.version <= c.w.tick)
      requires !AccountControlled(secret) && secret.version == 0
      modifies c`w, c`trace, c`passed, c`asked, b`it, b`step, b`base
      ensures c.Valid() && b.Tracks(c.w) && b.Stands(c.w) && Recalls(old(c.w), c.w)
      ensures b.it.deleting == old(b.it.deleting) && b.step.change == Keep
      ensures ok ==> SameButSecretName(old(b.it), b.it) && b.it == b.base
      ensures ok ==> SecretStored(TargetKey(b.key, old(b.it)), secret) in c.w.desk.facts
      ensures ok && !c.busy && old(b.Current(c.w)) && TargetIs(old(c.w), b.key, target) ==>
                b.Current(c.w) && Bare(c.w) == WriteSecret(Bare(old(c.w)), b.key, secret)
      ensures c.Quiet() && old(b.Current(c.w)) && TargetIs(old(c.w), b.key, target) ==> ok
    {
      if target.Some? {
        ok := ReplaceSecret(b, target.value.version, secret);
      } else {
        ok := CreateSecret(b, secret);
      }
    }

    method ReplaceSecret(b: BucketCopy, version: nat, secret: Secret) returns (ok: bool)
      requires c.Valid() && b.Tracks(c.w) && b.Stands(c.w) && version <= c.w.tick
      requires !AccountControlled(secret) && secret.version == 0
      modifies c`w, c`trace, c`passed, c`asked
      ensures c.Valid() && b.Tracks(c.w) && b.Stands(c.w) && Recalls(old(c.w), c.w)
      ensures ok ==> SecretStored(TargetKey(b.key, b.it), secret) in c.w.desk.facts
      ensures ok && !c.busy ==> Bare(c.w) == PutSecret(Bare(old(c.w)), TargetKey(b.key, b.it), secret)
      ensures var t := TargetKey(b.key, b.it);
              c.Quiet() && t in old(c.w).secrets && old(c.w).secrets[t].version == version ==> ok
    {
      var t := TargetKey(b.key, b.it);
      PutSecretBare(c.w, t, secret);
      var reply, mid := Write(b, BUpdateSecret(t, version, secret));
      ok := reply.Done?;
      if ok {
        PutSecretHolds(mid, t, secret);
        Learn(b, SecretStored(t, secret));
      }
    }

    /** mc.DeleteServiceAccount(ctx, name): given the policy's name, not a key. */
    method DropKey(b: BucketCopy)
      requires c.Valid() && b.Tracks(c.w) && b.Stands(c.w)
      modifies c`w, c`trace, c`passed, c`asked
      ensures c.Valid() && b.Tracks(c.w) && b.Stands(c.w) && Recalls(old(c.w), c.w)
      ensures c.LastAsked(KeyDropped(b.key))
      ensures old(c.asked) != [] ==> c.LastAskedBoth(old(c.asked[|c.asked| - 1]), KeyDropped(b.key))
      ensures !c.busy ==> Bare(c.w) == Bare(old(c.w)) && c.w.secrets == old(c.w).secrets
    {
      var _, _ := Write(b, BDropKey(Named(Prefixed(b.key.name))));
    }

    /** The call meant to delete a key of the account, which names the bucket's policy instead. */
    function KeyDropped(k: Key): Action {
      ByBuckets(BDropKey(Named(Prefixed(k.name))))
    }

    /** The secret created and its name recorded. If recording fails, the secret is asked
        to be deleted in any case, and with no failing call and nobody else around it is
        gone; a call that names no key follows. */
    method CreateSecret(b: BucketCopy, secret: Secret) returns (ok: bool)
      requires c.Valid() && b.Tracks(c.w) && b.Stands(c.w) && b.it == b.base && b.step.change == Keep
      requires !b.it.deleting && !AccountControlled(secret) && secret.version == 0
      modifies c`w, c`trace, c`passed, c`asked, b`it, b`step, b`base
      ensures c.Valid() && b.Tracks(c.w) && b.Stands(c.w) && Recalls(old(c.w), c.w)
      ensures b.it.deleting == old(b.it.deleting) && b.step.change == Keep
      ensures ok ==> SameButSecretName(old(b.it), b.it) && b.it == b.base
      ensures ok ==> SecretStored(TargetKey(b.key, old(b.it)), secret) in c.w.desk.facts
      ensures ok && !c.busy && old(b.Current(c.w)) ==>
                b.Current(c.w) &&
                Bare(c.w) == Save(PutSecret(Bare(old(c.w)), TargetKey(b.key, old(b.it)), secret), b.key,
                                  old(b.it.status).(secretName := old(b.it.spec.secretName)))
      ensures !ok ==>
                var t := TargetKey(b.key, old(b.it));
                || c.LastAskedBoth(ByBuckets(BDeleteSecret(t)), KeyDropped(b.key))
                || c.LastAskedBoth(ByBuckets(BCreateSecret(t, secret)), KeyDropped(b.key))
      ensures !ok && !c.faulty && !c.busy && TargetKey(b.key, old(b.it)) !in old(c.w).secrets ==>
                TargetKey(b.key, old(b.it)) !in c.w.secrets
      ensures c.Quiet() && old(b.Current(c.w)) && TargetKey(b.key, old(b.it)) !in old(c.w).secrets ==> ok
    {
      ok := AddSecret(b, secret);
      if ok {
        ok := RecordNameOrUndo(b);
      } else {
        DropKey(b);
      }
    }

    method RecordNameOrUndo(b: BucketCopy) returns (ok: bool)
      requires c.Valid() && b.Tracks(c.w) && b.Stands(c.w) && b.it == b.base && b.step.change == Keep
      requires !b.it.deleting
      modifies c`w, c`trace, c`passed, c`asked, b`it, b`step, b`base
      ensures c.Valid() && b.Tracks(c.w) && b.Stands(c.w) && Recalls(old(c.w), c.w)
      ensures b.it.deleting == old(b.it.deleting) && b.step.change == Keep
      ensures ok ==> SameButSecretName(old(b.it), b.it) && b.it == b.base
      ensures ok ==> StatusStored(c.w, b.key, old(b.it.status).(secretName := old(b.it.spec.secretName)))
      ensures !ok ==> c.LastAskedBoth(ByBuckets(BDeleteSecret(TargetKey(b.key, old(b.it)))), KeyDropped(b.key))
      ensures !ok && !c.faulty && !c.busy ==> TargetKey(b.key, old(b.it)) !in c.w.secrets
      ensures ok && !c.busy && old(b.Current(c.w)) ==>
                b.Current(c.w) &&
                Bare(c.w) == Save(Bare(old(c.w)), b.key, old(b.it.status).(secretName := old(b.it.spec.secretName)))
      ensures c.Quiet() && old(b.Current(c.w)) ==> ok
    {
      var t := TargetKey(b.key, b.it);
      ok := RecordSecretName(b);
      if !ok {
        UndoSecret(b, t);
      }
    }

    method UndoSecret(b: BucketCopy, t: Key)
      requires c.Valid() && b.Tracks(c.w) && b.Stands(c.w)
      modifies c`w, c`trace, c`passed, c`asked
      ensures c.Valid() && b.Tracks(c.w) && b.Stands(c.w) && Recalls(old(c.w), c.w)
      ensures c.LastAskedBoth(ByBuckets(BDeleteSecret(t)), KeyDropped(b.key))
      ensures !c.faulty && !c.busy ==> t !in c.w.secrets
    {
      RemoveSecret(b, t);
      DropKey(b);
    }

    method RemoveSecret(b: BucketCopy, t: Key)
      requires c.Valid() && b.Tracks(c.w) && b.Stands(c.w)
      modifies c`w, c`trace, c`passed, c`asked
      ensures c.Valid() && b.Tracks(c.w) && b.Stands(c.w) && Recalls(old(c.w), c.w)
      ensures c.LastAsked(ByBuckets(BDeleteSecret(t))) && (!c.faulty ==> t !in c.w.secrets)
    {
      var _, _ := Write(b, BDeleteSecret(t));
    }

    method AddSecret(b: BucketCopy, secret: Secret) returns (ok: bool)
      requires c.Valid() && b.Tracks(c.w) && b.Stands(c.w) && !AccountControlled(secret) && secret.version == 0
      modifies c`w, c`trace, c`passed, c`asked
      ensures c.Valid() && b.Tracks(c.w) && b.Stands(c.w) && Recalls(old(c.w), c.w)
      ensures ok ==> SecretStored(TargetKey(b.key, b.it), secret) in c.w.desk.facts
      ensures ok && !c.busy ==> Bare(c.w) == PutSecret(Bare(old(c.w)), TargetKey(b.key, b.it), secret)
      ensures c.LastAsked(ByBuckets(BCreateSecret(TargetKey(b.key, b.it), secret)))
      ensures !ok && !c.faulty && !c.busy ==> c.w == old(c.w) && TargetKey(b.key, b.it) in c.w.secrets
      ensures c.Quiet() && TargetKey(b.key, b.it) !in old(c.w).secrets ==> ok
    {
      var t := TargetKey(b.key, b.it);
      ok := NewSecret(b, t, secret);
      if ok {
        Learn(b, SecretStored(t, secret));
      }
    }

    method NewSecret(b: BucketCopy, t: Key, secret: Secret) returns (ok: bool)
      requires c.Valid() && b.Tracks(c.w) && b.Stands(c.w) && !AccountControlled(secret) && secret.version == 0
      modifies c`w, c`trace, c`passed, c`asked
      ensures c.Valid() && b.Tracks(c.w) && b.Stands(c.w) && Recalls(old(c.w), c.w)
      ensures c.LastAsked(ByBuckets(BCreateSecret(t, secret)))
      ensures ok ==> Holds(c.w, SecretStored(t, secret))
      ensures ok && !c.busy ==> Bare(c.w) == PutSecret(Bare(old(c.w)), t, secret)
      ensures !ok && !c.faulty && !c.busy ==> c.w == old(c.w) && t in c.w.secrets
      ensures c.Quiet() && t !in old(c.w).secrets ==> ok
    {
      PutSecretBare(c.w, t, secret);
      var reply, mid := Write(b, BCreateSecret(t, secret));
      ok := reply.Done?;
      if ok {
        PutSecretHolds(mid, t, secret);
      }
    }

    method RecordSecretName(b: BucketCopy) returns (ok: bool)
      requires c.Valid() && b.Tracks(c.w) && b.Stands(c.w) && b.it == b.base && b.step.change == Keep
      requires !b.it.deleting
      modifies c`w, c`trace, c`passed, c`asked, b`it, b`step, b`base
      ensures c.Valid() && b.Tracks(c.w) && b.Stands(c.w) && Recalls(old(c.w), c.w)
      ensures b.it.deleting == old(b.it.deleting) && b.step.change == Keep
      ensures ok ==> SameButSecretName(old(b.it), b.it) && b.it == b.base
      ensures ok ==> StatusStored(c.w, b.key, old(b.it.status).(secretName := old(b.it.spec.secretName)))
      ensures ok && !c.busy && old(b.Current(c.w)) ==>
                b.Current(c.w) &&
                Bare(c.w) == Save(Bare(old(c.w)), b.key, old(b.it.status).(secretName := old(b.it.spec.secretName)))
      ensures c.Quiet() && old(b.Current(c.w)) ==> ok
    {
      b.step := b.step.(secretName := b.it.spec.secretName);
      b.it := b.it.(status := b.it.status.(secretName := b.it.spec.secretName));
      ghost var met;
      ok, met := UpdateStatus(b, Unproved);
    }

    /** The providers listed and scanned for the default one. */
    method FindDefault(b: BucketCopy) returns (ok: bool, d: Option<string>)
      requires c.Valid() && b.Tracks(c.w) && b.Stands(c.w)
      modifies c`w, c`trace, c`passed
      ensures c.Valid() && b.Tracks(c.w) && b.Stands(c.w) && Recalls(old(c.w), c.w)
      ensures !c.busy ==> c.w == old(c.w)
      ensures ok ==> d == DefaultOf(Bare(c.w))
      ensures !c.faulty ==> ok
    {
      d := None;
      ok := Survey(b);
      if ok {
        d := ScanCurrent();
      }
    }

    method ScanCurrent() returns (d: Option<string>)
      requires OneDefault(c.w)
      ensures d == DefaultOf(Bare(c.w))
    {
      var items := Arrange(c.w.providers.Keys);
      assert forall n :: n in items ==> n in ItemSet(items);
      d := ScanForDefault(c.w.providers, items);
      DefaultBare(c.w);
      OrderDoesNotMatter(Bare(c.w), items);
    }

    /** An empty provider is replaced by the default one. */
    method FillProvider(b: BucketCopy) returns (failed: bool)
      requires c.Valid() && b.Tracks(c.w) && b.Stands(c.w) && b.it == b.base && b.step.change == Keep
      requires !b.it.deleting && b.it.spec.provider == ""
      modifies c`w, c`trace, c`passed, c`asked, b`it, b`step, b`base
      ensures c.Valid() && Recalls(old(c.w), c.w)
      ensures c.Smooth(!failed) && old(b.Current(c.w)) ==> Bare(c.w) == ProviderPass(Bare(old(c.w)), b.key)
      ensures !failed ==> Worked(c.asked, b.key)
    {
      var ok, d := FindDefault(b);
      if !ok {
        return true;
      }
      if d.None? {
        Fail(b);
        return true;
      }
      ok := Update(b, b.it.(spec := b.it.spec.(provider := d.value)));
      return !ok;
    }

    /** What a pass that reaches the Ready block can show for it. */
    ghost predicate Shows(proof: Proof, k: Key, b: Bucket, facts: set<Fact>) {
      && Proves(proof, k, b, facts)
      && Contents(render, b.spec.template, AccessOf(k, proof.sa, proof.provider)) == Some(proof.secret.data)
    }

    /** The stages of a live bucket, each of which may end the pass. */
    method ReconcileStages(b: BucketCopy, p: Provider) returns (failed: bool, ghost proof: Proof)
      requires c.Valid() && b.Tracks(c.w) && b.Stands(c.w) && b.it == b.base && b.step.change == Keep
      requires !b.it.deleting && b.it.spec.provider != "" && b.it.spec.secretName.Some?
      requires ProviderStored(b.it.spec.provider, p) in c.w.desk.facts
      modifies c`w, c`trace, c`passed, c`asked, b`it, b`step, b`base
      ensures c.Valid() && (!proof.Proved? ==> Recalls(old(c.w), c.w))
      ensures proof.Proved? ==> Shows(proof, b.key, old(b.it), c.w.desk.facts)
      ensures proof.Proved? && !c.busy && old(b.Current(c.w)) && old(b.it.spec.template).Keys !! RESERVED ==>
                OnlyStages(old(c.w), b.key, c.w) && Established(c.w, b.key, render, p)
      ensures c.Smooth(!failed) && old(b.Current(c.w)) ==> Bare(c.w) == StagesPass(Bare(old(c.w)), b.key, render, p)
      ensures failed ==> ReportsTo(c.asked, b.key)
      ensures !failed ==> Worked(c.asked, b.key) || MinioStored(MinioAt(b.key, old(b.it))) in c.w.desk.facts
    {
      proof := Unproved;
      var ok, uid;
      ok, failed, uid := ReconcileServiceAccount(b);
      if !ok {
        if failed {
          Fail(b);
        }
        return;
      }
      failed, proof := ReconcileOwned(b, p, uid);
    }

    /** The stages after the account. */
    method ReconcileOwned(b: BucketCopy, p: Provider, uid: nat) returns (failed: bool, ghost proof: Proof)
      requires c.Valid() && b.Tracks(c.w) && b.Stands(c.w) && b.it == b.base && b.step.change == Keep
      requires !b.it.deleting && b.it.spec.provider != "" && b.it.spec.secretName.Some?
      requires ProviderStored(b.it.spec.provider, p) in c.w.desk.facts
      requires AccountStored(AccountKey(b.key, b.it), uid) in c.w.desk.facts
      requires Forced(b.it.owners, AccountRef(b.it.spec.serviceAccount, uid)) == b.it.owners
      modifies c`w, c`trace, c`passed, c`asked, b`it, b`step, b`base
      ensures c.Valid() && (!proof.Proved? ==> Recalls(old(c.w), c.w))
      ensures proof.Proved? ==> Shows(proof, b.key, old(b.it), c.w.desk.facts)
      ensures proof.Proved? && !c.busy && old(b.Current(c.w) && Owned(Bare(c.w), b.key)) ==>
                (old(b.it.spec.template).Keys !! RESERVED ==>
                   OnlyStages(old(c.w), b.key, c.w) && Established(c.w, b.key, render, p))
      ensures c.Smooth(!failed) && old(b.Current(c.w)) ==> Bare(c.w) == OwnedPass(Bare(old(c.w)), b.key, render, p)
      ensures failed ==> ReportsTo(c.asked, b.key)
      ensures !failed ==> Worked(c.asked, b.key) || MinioStored(MinioAt(b.key, old(b.it))) in c.w.desk.facts
    {
      proof := Unproved;
      ghost var read, w0, current := b.it, Bare(c.w), b.Current(c.w);
      var ok;
      ok, failed := ReconcileBucket(b, p.endpoint);
      if !ok {
        if failed {
          Fail(b);
        }
        return;
      }
      failed, proof := FinishStages(b, p, uid);
      if proof.Proved? && !c.busy && current && read.spec.template.Keys !! RESERVED && Owned(w0, b.key) {
        StagesEstablished(w0, b.key, render, p, Bare(c.w));
        BareEstablished(c.w, b.key, render, p);
      }
    }

    method FinishStages(b: BucketCopy, p: Provider, uid: nat) returns (failed: bool, ghost proof: Proof)
      requires c.Valid() && b.Tracks(c.w) && b.Stands(c.w) && b.it == b.base && b.step.change == Keep
      requires !b.it.deleting && b.it.spec.secretName.Some? && b.it.status.endpoint.Some?
      requires SoFar(b.key, b.it, p, uid, c.w.desk.facts)
      modifies c`w, c`trace, c`passed, c`asked, b`it, b`step, b`base
      ensures c.Valid() && (!proof.Proved? ==> Recalls(old(c.w), c.w))
      ensures proof.Proved? ==> Shows(proof, b.key, old(b.it), c.w.desk.facts)
      ensures proof.Proved? && !c.busy && old(b.Current(c.w)) ==>
                var r := SecretStage(Bare(old(c.w)), b.key, render, p);
                r.1 && OnlyConditions(r.0, b.key, Bare(c.w))
      ensures c.Smooth(!failed) && old(b.Current(c.w)) ==>
                var r := SecretStage(Bare(old(c.w)), b.key, render, p);
                (proof.Proved? <==> r.1) && Bare(c.w) == if r.1 then ReadyStage(r.0, b.key) else r.0
      ensures failed ==> ReportsTo(c.asked, b.key)
      ensures c.w.desk.facts >= old(c.w).desk.facts
    {
      proof := Unproved;
      ghost var read := b.it;
      var ok, sa, secret;
      ok, failed, sa, secret := ReconcileSecret(b, p);
      if !ok {
        if failed {
          Fail(b);
        }
        return;
      }
      ghost var written := b.it;
      StillOnRecord(b.key, read, written, p, uid, sa, secret, c.w.desk.facts);
      failed, proof := Conclude(b, p, uid, sa, secret);
      StillShows(proof, b.key, read, written, c.w.desk.facts);
    }

    lemma StillOnRecord(k: Key, b: Bucket, b': Bucket, p: Provider, uid: nat, sa: Secret, secret: Secret, facts: set<Fact>)
      requires SameButSecretName(b, b')
      ensures SoFar(k, b, p, uid, facts) == SoFar(k, b', p, uid, facts)
      ensures Stored(k, b, sa, secret, p, facts) == Stored(k, b', sa, secret, p, facts)
    {
    }

    lemma StillShows(proof: Proof, k: Key, b: Bucket, b': Bucket, facts: set<Fact>)
      requires SameButSecretName(b, b')
      ensures Shows(proof, k, b, facts) == Shows(proof, k, b', facts)
    {
    }

    /** The pass has come to the Ready block. */
    method Conclude(b: BucketCopy, p: Provider, uid: nat, sa: Secret, secret: Secret)
      returns (failed: bool, ghost proof: Proof)
      requires c.Valid() && b.Tracks(c.w) && b.Stands(c.w) && b.it == b.base && b.step.change == Keep
      requires !b.it.deleting && b.it.status.endpoint.Some?
      requires SoFar(b.key, b.it, p, uid, c.w.desk.facts) && Stored(b.key, b.it, sa, secret, p, c.w.desk.facts)
      modifies c`w, c`trace, c`passed, c`asked, b`it, b`step, b`base
      ensures c.Valid() && Shows(proof, b.key, old(b.it), c.w.desk.facts)
      ensures !c.busy && old(b.Current(c.w)) ==> OnlyConditions(Bare(old(c.w)), b.key, Bare(c.w))
      ensures c.Smooth(!failed) && old(b.Current(c.w)) ==> Bare(c.w) == ReadyStage(Bare(old(c.w)), b.key)
      ensures failed ==> ReportsTo(c.asked, b.key)
      ensures c.w.desk.facts >= old(c.w).desk.facts
    {
      var shown := Proved(uid, p, sa, secret);
      proof := shown;
      ContentsCarry(render, b.it.spec.template, AccessOf(b.key, sa, p));
      Learn(b, Reached);
      failed := BecomeReady(b, shown);
    }

    /** What the stages before the secret have on record. */
    ghost predicate SoFar(k: Key, b: Bucket, p: Provider, uid: nat, facts: set<Fact>) {
      && AccountStored(AccountKey(k, b), uid) in facts
      && Forced(b.owners, AccountRef(b.spec.serviceAccount, uid)) == b.owners
      && MinioStored(MinioAt(k, b)) in facts && ProviderStored(b.spec.provider, p) in facts
    }

    /** The Ready block. */
    method BecomeReady(b: BucketCopy, proof: Proof) returns (failed: bool)
      requires c.Valid() && b.Tracks(c.w) && b.Stands(c.w) && b.it == b.base && b.step.change == Keep
      requires !b.it.deleting && b.it.status.endpoint.Some? && Proves(proof, b.key, b.it, c.w.desk.facts)
      modifies c`w, c`trace, c`passed, c`asked, b`it, b`step, b`base
      ensures c.Valid() && Recalls(old(c.w), c.w)
      ensures !c.busy && old(b.Current(c.w)) ==> OnlyConditions(Bare(old(c.w)), b.key, Bare(c.w))
      ensures c.Smooth(!failed) && old(b.Current(c.w)) ==> Bare(c.w) == ReadyStage(Bare(old(c.w)), b.key)
      ensures failed ==> ReportsTo(c.asked, b.key)
      ensures c.w.desk.facts >= old(c.w).desk.facts
    {
      failed := false;
      if !IsTrue(b.it.status.conditions, Ready) {
        ghost var w0, at := Bare(c.w), c.w.now;
        var ok := Advance(b, Succeed, proof);
        failed := !ok;
        if !c.busy && old(b.Current(c.w)) {
          SaveIsOnlyConditions(w0, b.key, Succeed, at, Bare(c.w));
        }
      }
    }

    method ReconcileLive(b: BucketCopy) returns (failed: bool, ghost proof: Proof)
      requires c.Valid() && b.Tracks(c.w) && b.Stands(c.w) && b.it == b.base && b.step.change == Keep
      requires !b.it.deleting && b.it.spec.provider != "" && b.it.spec.secretName.Some?
      modifies c`w, c`trace, c`passed, c`asked, b`it, b`step, b`base
      ensures c.Valid() && (!proof.Proved? ==> Recalls(old(c.w), c.w))
      ensures proof.Proved? ==> Shows(proof, b.key, old(b.it), c.w.desk.facts)
      ensures failed && !c.faulty ==> ReportsTo(c.asked, b.key)
      ensures proof.Proved? && !c.busy && old(b.Current(c.w)) && old(b.it.spec.template).Keys !! RESERVED ==>
                SoundPass(old(c.w), b.key, c.w)
      ensures c.Smooth(!failed) && old(b.Current(c.w)) ==> Bare(c.w) == LivePass(Bare(old(c.w)), b.key, render)
      ensures !failed ==> Worked(c.asked, b.key) || MinioStored(MinioAt(b.key, old(b.it))) in c.w.desk.facts
    {
      proof := Unproved;
      var ok, p := FindProvider(b);
      if !ok {
        return true, proof;
      }
      if p.None? {
        Fail(b);
        return true, proof;
      }
      failed, proof := ReconcileProvided(b, p.value);
    }

    /** The rest of the pass, once the provider has been found. */
    method ReconcileProvided(b: BucketCopy, p: Provider) returns (failed: bool, ghost proof: Proof)
      requires c.Valid() && b.Tracks(c.w) && b.Stands(c.w) && b.it == b.base && b.step.change == Keep
      requires !b.it.deleting && b.it.spec.provider != "" && b.it.spec.secretName.Some?
      requires ProviderStored(b.it.spec.provider, p) in c.w.desk.facts
      modifies c`w, c`trace, c`passed, c`asked, b`it, b`step, b`base
      ensures c.Valid() && (!proof.Proved? ==> Recalls(old(c.w), c.w))
      ensures proof.Proved? ==> Shows(proof, b.key, old(b.it), c.w.desk.facts)
      ensures failed ==> ReportsTo(c.asked, b.key)
      ensures proof.Proved? && !c.busy && old(b.Current(c.w)) && old(b.it.spec.template).Keys !! RESERVED ==>
                OnlyStages(old(c.w), b.key, c.w) && Established(c.w, b.key, render, p)
      ensures c.Smooth(!failed) && old(b.Current(c.w)) ==> Bare(c.w) == StagesPass(Bare(old(c.w)), b.key, render, p)
      ensures !failed ==> Worked(c.asked, b.key) || MinioStored(MinioAt(b.key, old(b.it))) in c.w.desk.facts
    {
      proof := Unproved;
      var ok := Look(b); // newClient reads the provider's secrets
      if ok {
        failed, proof := ReconcileStages(b, p);
      } else {
        Fail(b);
        failed := true;
      }
    }

    method FindProvider(b: BucketCopy) returns (ok: bool, p: Option<Provider>)
      requires c.Valid() && b.Tracks(c.w) && b.Stands(c.w)
      modifies c`w, c`trace, c`passed
      ensures c.Valid() && b.Tracks(c.w) && b.Stands(c.w) && Recalls(old(c.w), c.w)
      ensures p.Some? ==> ProviderStored(b.it.spec.provider, p.value) in c.w.desk.facts
      ensures !c.busy ==> Bare(c.w) == Bare(old(c.w))
      ensures !c.busy && ok ==>
                var n := b.it.spec.provider;
                p == if n in c.w.providers then Some(c.w.providers[n]) else None
      ensures !c.faulty ==> ok
    {
      p := None;
      ok := Look(b);
      if ok && b.it.spec.provider in c.w.providers {
        p := Some(c.w.providers[b.it.spec.provider]);
        Learn(b, ProviderStored(b.it.spec.provider, p.value));
      }
    }

    /** Everything Ready stands for holds where the pass ends. */
    ghost predicate SoundPass(w: World, k: Key, w': World) {
      && OnlyStages(w, k, w')
      && w'.buckets[k].spec.provider in w'.providers
      && Established(w', k, render, w'.providers[w'.buckets[k].spec.provider])
    }

    /** reconcileDeletion: the Deleting mark first, in a pass of its own; then the
        MinIO bucket, if the policy says so. */
    method ReconcileDeletion(b: BucketCopy) returns (ok: bool, failed: bool)
      requires c.Valid() && b.Tracks(c.w) && b.Stands(c.w) && b.it == b.base && b.step.change == Keep && b.it.deleting
      modifies c`w, c`trace, c`passed, c`asked, b`it, b`step, b`base
      ensures c.Valid() && Recalls(old(c.w), c.w)
      ensures ok ==> !failed && b.Tracks(c.w) && b.Stands(c.w) && b.it == old(b.it) && b.it == b.base
      ensures ok ==> b.it.spec.reclaim != Delete || MinioAt(b.key, b.it) !in c.w.past.keep ||
                     b.it.spec.provider !in c.w.past.bucketProviders
      ensures c.Smooth(!failed) && old(b.Current(c.w)) ==>
                Bare(c.w) == DeletionStage(Bare(old(c.w)), b.key).0 && ok == DeletionStage(Bare(old(c.w)), b.key).1
      ensures !ok && !failed ==> Worked(c.asked, b.key)
    {
      if !IsTrue(b.it.status.conditions, Deleting) {
        ok := Advance(b, Erase, Unproved);
        return false, !ok;
      }
      ok := Survey(b);
      if !ok {
        return false, true;
      }
      if b.it.spec.provider !in c.w.providers {
        return true, false;
      }
      ok := Look(b); // newClient reads the provider's secrets
      if ok && b.it.spec.reclaim == Delete {
        ok := RemoveBucket(b);
      }
      failed := !ok;
    }

    /** RemoveBucketWithOptions; a bucket already gone is an error here. */
    method RemoveBucket(b: BucketCopy) returns (ok: bool)
      requires c.Valid() && b.Tracks(c.w) && b.Stands(c.w) && b.it == b.base && b.it.spec.reclaim == Delete
      modifies c`w, c`trace, c`passed, c`asked
      ensures c.Valid() && b.Tracks(c.w) && b.Stands(c.w) && Recalls(old(c.w), c.w)
      ensures ok ==> MinioAt(b.key, b.it) !in c.w.past.keep
      ensures c.Quiet() ==> (ok <==> MinioAt(b.key, b.it) in old(c.w).minio.buckets)
      ensures ok && !c.busy ==> MinioAt(b.key, b.it) in old(c.w).minio.buckets
      ensures c.Smooth(ok) ==>
                Bare(c.w) == if ok then RemoveMinioBucket(Bare(old(c.w)), MinioAt(b.key, b.it)) else Bare(old(c.w))
    {
      var at := MinioAt(b.key, b.it);
      var reply, mid := Write(b, BForce(at));
      ok := reply.Done?;
    }

    /** The finalizer removed: the object goes. */
    method Release(b: BucketCopy) returns (failed: bool)
      requires c.Valid() && b.Tracks(c.w) && b.Stands(c.w) && b.it == b.base && b.it.deleting
      requires b.it.spec.reclaim != Delete || MinioAt(b.key, b.it) !in c.w.past.keep ||
               b.it.spec.provider !in c.w.past.bucketProviders
      modifies c`w, c`trace, c`passed, c`asked
      ensures c.Valid() && Recalls(old(c.w), c.w)
      ensures c.Quiet() && b.Current(old(c.w)) ==> !failed
      ensures !c.busy && !failed && b.Current(old(c.w)) ==>
                Bare(c.w) == Bare(old(c.w)).(buckets := old(c.w).buckets - {b.key})
      ensures !failed ==> Worked(c.asked, b.key)
    {
      var reply, mid := c.CallB(BRelease(b.key, b.it.version));
      failed := !reply.Done? && !(reply.Refused? && b.key !in c.w.buckets);
    }

    /** One default at a time is filled in and stored. */
    method FillSpec(b: BucketCopy) returns (failed: bool)
      requires c.Valid() && b.Tracks(c.w) && b.Stands(c.w) && b.it == b.base && b.step.change == Keep
      requires !b.it.deleting && !SpecFilled(b.it.spec)
      modifies c`w, c`trace, c`passed, c`asked, b`it, b`step, b`base
      ensures c.Valid() && Recalls(old(c.w), c.w)
      ensures c.Smooth(!failed) && old(b.Current(c.w)) ==> Bare(c.w) == SpecPass(Bare(old(c.w)), b.key)
      ensures !failed ==> Worked(c.asked, b.key)
    {
      if b.it.spec.provider == "" {
        failed := FillProvider(b);
        return;
      }
      var spec := b.it.spec;
      if spec.secretName.None? {
        spec := spec.(secretName := Some(DefaultSecretName(b.key.name)));
      } else {
        spec := spec.(reclaim := Retain);
      }
      var ok := Update(b, b.it.(spec := spec));
      failed := !ok;
    }

    /** The part of a pass that has a live bucket in hand. */
    method ReconcileLiveCopy(b: BucketCopy) returns (failed: bool, ghost proof: Proof)
      requires c.Valid() && b.Tracks(c.w) && b.Stands(c.w) && b.it == b.base && b.step.change == Keep
      requires !b.it.deleting && b.it.finalizer
      modifies c`w, c`trace, c`passed, c`asked, b`it, b`step, b`base
      ensures c.Valid() && (!proof.Proved? ==> Recalls(old(c.w), c.w))
      ensures proof.Proved? ==> Shows(proof, b.key, old(b.it), c.w.desk.facts)
      ensures proof.Proved? && !c.busy && old(b.Current(c.w)) && old(b.it.spec.template).Keys !! RESERVED ==>
                SoundPass(old(c.w), b.key, c.w)
      ensures c.Smooth(!failed) && old(b.Current(c.w)) ==> Bare(c.w) == CopyPass(Bare(old(c.w)), b.key, render)
      ensures !failed ==> Worked(c.asked, b.key) || MinioStored(MinioAt(b.key, old(b.it))) in c.w.desk.facts
    {
      proof := Unproved;
      if !SpecFilled(b.it.spec) {
        failed := FillSpec(b);
        return;
      }
      if b.it.status.conditions == [] {
        var ok := Advance(b, Create, Unproved);
        failed := !ok;
      } else {
        failed, proof := ReconcileLive(b);
      }
    }

    /** The part of a pass that has the bucket in hand. */
    method ReconcileCopy(b: BucketCopy) returns (failed: bool, ghost proof: Proof)
      requires c.Valid() && b.Tracks(c.w) && b.it == b.base && b.step.change == Keep
      requires b.it.deleting || b.it.finalizer ==> b.Stands(c.w)
      modifies c`w, c`trace, c`passed, c`asked, b`it, b`step, b`base
      ensures c.Valid() && (!proof.Proved? ==> Recalls(old(c.w), c.w))
      ensures proof.Proved? ==> Shows(proof, b.key, old(b.it), c.w.desk.facts)
      ensures proof.Proved? && !c.busy && old(b.Current(c.w)) && old(b.it.spec.template).Keys !! RESERVED ==>
                SoundPass(old(c.w), b.key, c.w)
      ensures c.Smooth(!failed) && old(b.Current(c.w)) ==> Bare(c.w) == CopyPass(Bare(old(c.w)), b.key, render)
      ensures !failed ==> Worked(c.asked, b.key) || MinioStored(MinioAt(b.key, old(b.it))) in c.w.desk.facts
    {
      proof := Unproved;
      if b.it.deleting {
        failed := ReconcileDeleted(b);
      } else if !b.it.finalizer {
        failed := Finalize(b);
      } else {
        failed, proof := ReconcileLiveCopy(b);
      }
    }

    method ReconcileDeleted(b: BucketCopy) returns (failed: bool)
      requires c.Valid() && b.Tracks(c.w) && b.Stands(c.w) && b.it == b.base && b.step.change == Keep && b.it.deleting
      modifies c`w, c`trace, c`passed, c`asked, b`it, b`step, b`base
      ensures c.Valid() && Recalls(old(c.w), c.w)
      ensures c.Smooth(!failed) && old(b.Current(c.w)) ==> Bare(c.w) == DeletionPass(Bare(old(c.w)), b.key)
      ensures !failed ==> Worked(c.asked, b.key)
    {
      var ok;
      ok, failed := ReconcileDeletion(b);
      if ok {
        failed := Release(b);
      }
    }

    method Finalize(b: BucketCopy) returns (failed: bool)
      requires c.Valid() && b.Tracks(c.w) && b.it == b.base
      modifies c`w, c`trace, c`passed, c`asked
      ensures c.Valid() && Recalls(old(c.w), c.w)
      ensures c.Smooth(!failed) && b.Current(old(c.w)) ==>
                Bare(c.w) == PutBucket(Bare(old(c.w)), b.key, b.it.(finalizer := true))
      ensures !failed ==> Worked(c.asked, b.key)
    {
      PutBucketBare(c.w, b.key, b.it.(finalizer := true));
      var reply, mid := c.CallB(BUpdate(b.key, b.it.version, b.it.(finalizer := true)));
      failed := !reply.Done?;
    }

    method Begin() returns (ok: bool)
      requires c.Valid()
      modifies c`w, c`trace, c`passed
      ensures c.Valid() && c.w.desk.bucketPass && Reached !in c.w.desk.facts
      ensures Numbered(c.w) && DeletionHeld(c.w) && DeletesRemembered(c.w)
      ensures !c.busy ==> c.w == BEffect(BBegin, old(c.w))
      ensures c.Quiet() ==> ok
    {
      c.Take(ByBuckets(BBegin));
      ok := c.Read(BucketWorker);
      c.Good();
    }

    /** One pass of the bucket controller. Whatever the others do and whichever
        calls fail, all it does is a run of enabled steps; undisturbed, it is
        exactly BucketPass. A pass that reaches the Ready block can show for it;
        with nobody else around, failing calls or not, everything Ready stands for
        holds where it ends. */
    method Reconcile(key: Key) returns (failed: bool, ghost read: Option<Bucket>, ghost proof: Proof)
      requires c.Valid()
      modifies c`w, c`trace, c`passed, c`asked
      ensures c.Valid()
      ensures Reached in c.w.desk.facts ==> read.Some? && Shows(proof, key, read.value, c.w.desk.facts)
      ensures !c.busy && read.Some? ==> key in old(c.w).buckets && read.value == old(c.w).buckets[key]
      ensures Reached in c.w.desk.facts && !c.busy && read.value.spec.template.Keys !! RESERVED ==> SoundPass(old(c.w), key, c.w)
      ensures c.Smooth(!failed) ==> Bare(c.w) == BucketPass(Bare(old(c.w)), key, render)
      ensures !failed ==> key !in c.w.buckets || Worked(c.asked, key) ||
                          (read.Some? && MinioStored(MinioAt(key, read.value)) in c.w.desk.facts)
    {
      read, proof := None, Unproved;
      PassBegins(c.w, key, render);
      var ok := Begin();
      if !ok || key !in c.w.buckets {
        return !ok, read, proof;
      }
      var b := new BucketCopy(key, c.w.buckets[key]);
      read := Some(b.it);
      UnchangedIsLegal(b.it, key.name, c.w.past);
      failed, proof := ReconcileCopy(b);
    }
  }
}
