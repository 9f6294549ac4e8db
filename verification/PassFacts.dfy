/** What the desk means: whatever a call rests on was so in a world that the run
    passed through, and in the same pass. */
module PassFacts {
  import opened Wrappers
  import opened Owners
  import opened Conditions
  import opened Worlds
  import opened SecretData
  import opened Actions
  import opened Invariants
  import opened Safety

  // ---------------------------------------------------------------- listings

  predicate Lists(act: Action) {
    act.ByAccounts? && (act.a.ABegin? || act.a.AList?)
  }

  /** Step m is the latest listing of its pass before step i, and this is what it found. */
  ghost predicate LastListing(worlds: seq<World>, acts: seq<Action>, m: nat, i: nat, l: Listing)
    requires m < i <= |acts| && |worlds| == |acts| + 1
  {
    && acts[m] == ByAccounts(AList(l.account))
    && l == Listing(l.account, Indexed(worlds[m], l.account.name), worlds[m].now)
    && forall n :: m < n < i ==> !Lists(acts[n])
  }

  lemma ListedMoves(act: Action, w: World)
    requires Enabled(act, w)
    ensures !Lists(act) ==> Effect(act, w).desk.listed == w.desk.listed
    ensures act == ByAccounts(ABegin) ==> Effect(act, w).desk.listed == None
    ensures act.ByAccounts? && act.a.AList? ==>
              Effect(act, w).desk.listed == Some(Listing(act.a.key, Indexed(w, act.a.key.name), w.now))
  {
    match act
    case ByAccounts(a) =>
    case ByBuckets(b) =>
    case ByCollector(g) =>
    case ByOutside(e) =>
  }

  /** What is on the desk as listed was indexed when the pass last listed. */
  lemma {:induction false} ListedMeans(worlds: seq<World>, acts: seq<Action>, i: nat) returns (m: nat)
    requires FullRun(worlds, acts) && i <= |acts| && worlds[i].desk.listed.Some?
    ensures m < i && LastListing(worlds, acts, m, i, worlds[i].desk.listed.value)
  {
    StepAt(worlds, acts, i - 1);
    ListedMoves(acts[i - 1], worlds[i - 1]);
    if Lists(acts[i - 1]) {
      m := i - 1;
    } else {
      m := ListedMeans(worlds, acts, i - 1);
    }
  }

  lemma {:induction false} ListingKept(worlds: seq<World>, acts: seq<Action>, m: nat, i: nat, l: Listing)
    requires Run(worlds, acts) && m < i <= |acts| && LastListing(worlds, acts, m, i, l)
    ensures worlds[i].desk.listed == Some(l)
  {
    StepAt(worlds, acts, i - 1);
    ListedMoves(acts[i - 1], worlds[i - 1]);
    if m + 1 < i {
      ListingKept(worlds, acts, m, i - 1, l);
    }
  }

  // ---------------------------------------------------------------- policies

  /** A user is given exactly the policies of the buckets that were indexed under
      its account when the pass last listed them. */
  lemma PoliciesFollowIndex(worlds: seq<World>, acts: seq<Action>, i: nat, k: Key) returns (m: nat)
    requires FullRun(worlds, acts) && i < |acts|
    requires acts[i].ByAccounts? && acts[i].a.ASetPolicy? && acts[i].a.key == k
    ensures k in worlds[i].accounts && m < i
    ensures LastListing(worlds, acts, m, i, Listing(k, Indexed(worlds[m], k.name), worlds[m].now))
    ensures var user := UserOf(k, worlds[i].accounts[k].provider);
            worlds[i + 1].minio == worlds[i].minio.(
              attached := worlds[i].minio.attached[user := NamesOf(Indexed(worlds[m], k.name))])
  {
    StepAt(worlds, acts, i);
    m := ListedMeans(worlds, acts, i);
  }

  /** A policy is written only for a bucket listed in the pass, and it is that bucket's. */
  lemma PoliciesAreOfListed(worlds: seq<World>, acts: seq<Action>, i: nat) returns (m: nat, bucket: Key)
    requires FullRun(worlds, acts) && i < |acts| && acts[i].ByAccounts? && acts[i].a.AAddPolicy?
    ensures m < i && acts[m].ByAccounts? && acts[m].a.AList? && bucket in Indexed(worlds[m], acts[m].a.key.name)
    ensures forall n :: m < n < i ==> !Lists(acts[n])
    ensures acts[i].a.at.name == Prefixed(bucket.name) && acts[i].a.document == PolicyOf(bucket.name)
  {
    StepAt(worlds, acts, i);
    m := ListedMeans(worlds, acts, i);
    bucket :| bucket in Indexed(worlds[m], acts[m].a.key.name) && acts[i].a.at.name == Prefixed(bucket.name);
    NamesAreInjective(bucket, Key("", acts[i].a.document.bucket));
  }

  // ---------------------------------------------------------------- sweeps

  /** Step b is the latest listing of the collector before step i. */
  ghost predicate LastSweep(acts: seq<Action>, b: nat, i: nat) {
    b < i <= |acts| && acts[b] == ByCollector(GList) && forall n :: b < n < i ==> acts[n] != ByCollector(GList)
  }

  lemma SweepMoves(act: Action, w: World)
    requires Enabled(act, w)
    ensures act == ByCollector(GList) ==> Effect(act, w).desk.sweep == Some(w.accounts) && Effect(act, w).desk.marked == {}
    ensures act != ByCollector(GList) ==> Effect(act, w).desk.sweep == w.desk.sweep
    ensures act != ByCollector(GList) ==>
              forall k :: k in Effect(act, w).desk.marked && k !in w.desk.marked ==> IsGMark(act, k)
  {
    match act
    case ByAccounts(a) =>
    case ByBuckets(b) =>
    case ByCollector(g) =>
    case ByOutside(e) =>
  }

  lemma {:induction false} SweepMeans(worlds: seq<World>, acts: seq<Action>, i: nat) returns (b: nat)
    requires FullRun(worlds, acts) && i <= |acts| && worlds[i].desk.sweep.Some?
    ensures LastSweep(acts, b, i) && worlds[i].desk.sweep == Some(worlds[b].accounts)
  {
    StepAt(worlds, acts, i - 1);
    SweepMoves(acts[i - 1], worlds[i - 1]);
    if acts[i - 1] == ByCollector(GList) {
      b := i - 1;
    } else {
      b := SweepMeans(worlds, acts, i - 1);
    }
  }

  lemma {:induction false} MarkedMeans(worlds: seq<World>, acts: seq<Action>, b: nat, i: nat, k: Key) returns (m: nat)
    requires Run(worlds, acts) && LastSweep(acts, b, i) && k in worlds[i].desk.marked
    ensures b < m < i && IsGMark(acts[m], k)
  {
    StepAt(worlds, acts, i - 1);
    SweepMoves(acts[i - 1], worlds[i - 1]);
    if i - 1 > b && k in worlds[i - 1].desk.marked {
      m := MarkedMeans(worlds, acts, b, i - 1, k);
    } else {
      m := i - 1;
    }
  }

  /** The collector deletes an account only if its latest listing found it selected
      then, and either found it marked as Deleting or has marked it since, against
      the listed version. */
  lemma DeletedOnlyIfListed(worlds: seq<World>, acts: seq<Action>, i: nat, k: Key) returns (b: nat)
    requires FullRun(worlds, acts) && i < |acts| && acts[i].ByCollector? && acts[i].g.GDelete? && acts[i].g.key == k
    ensures LastSweep(acts, b, i) && k in worlds[b].accounts
    ensures var v := worlds[b].accounts[k];
            && Selected(v.status.conditions, TTL, acts[i].g.time) && acts[i].g.time <= worlds[i].now
            && (IsTrue(v.status.conditions, Deleting) ||
                exists m :: b < m < i && IsGMark(acts[m], k) && acts[m].g.version == v.version &&
                            k in worlds[m].accounts && worlds[m].accounts[k] == v)
  {
    StepAt(worlds, acts, i);
    b := SweepMeans(worlds, acts, i);
    if !IsTrue(worlds[b].accounts[k].status.conditions, Deleting) {
      var m := MarkedMeans(worlds, acts, b, i, k);
      StepAt(worlds, acts, m);
      SweepKept(worlds, acts, b, m);
    }
  }

  lemma {:induction false} SweepKept(worlds: seq<World>, acts: seq<Action>, b: nat, i: nat)
    requires Run(worlds, acts) && LastSweep(acts, b, i)
    ensures worlds[i].desk.sweep == Some(worlds[b].accounts)
  {
    StepAt(worlds, acts, i - 1);
    SweepMoves(acts[i - 1], worlds[i - 1]);
    if b + 1 < i {
      SweepKept(worlds, acts, b, i - 1);
    }
  }

  // ---------------------------------------------------------------- what a bucket pass has been told

  lemma FactMoves(act: Action, w: World, fact: Fact)
    requires Enabled(act, w) && fact in Effect(act, w).desk.facts
    requires act == ByBuckets(BBegin) || fact !in w.desk.facts
    ensures act == ByBuckets(BLearn(fact)) && Holds(w, fact)
  {
    match act
    case ByAccounts(a) =>
    case ByBuckets(b) =>
    case ByCollector(g) =>
    case ByOutside(e) =>
  }

  /** Whatever a bucket pass has on record held in a world of that pass. */
  lemma {:induction false} FactMeans(worlds: seq<World>, acts: seq<Action>, b: nat, i: nat, fact: Fact)
    requires Run(worlds, acts) && BucketPassFrom(acts, b, i) && fact in worlds[i].desk.facts
    ensures exists m :: b < m < i && Holds(worlds[m], fact)
  {
    StepAt(worlds, acts, i - 1);
    if acts[i - 1] == ByBuckets(BBegin) || fact !in worlds[i - 1].desk.facts {
      FactMoves(acts[i - 1], worlds[i - 1], fact);
    } else {
      FactMeans(worlds, acts, b, i - 1, fact);
    }
  }

  predicate IsReadying(act: Action, k: Key) {
    act.ByBuckets? && act.b.BStatus? && act.b.key == k && act.b.step.change == Succeed
  }

  /** Whatever the others do and whichever calls fail: a pass stores Ready only if, in
      worlds it has met since it began, the account existed whose reference the owner
      list carries as it should; the MinIO bucket existed; the provider was as used;
      the account's secret was as used; and the spec's secret was stored under the
      bucket's control, carrying exactly those credentials and the template's entries. */
  lemma ReadyIsShown(worlds: seq<World>, acts: seq<Action>, i: nat, k: Key) returns (b: nat)
    requires FullRun(worlds, acts) && i < |acts| && IsReadying(acts[i], k)
    ensures BucketPassFrom(acts, b, i) && k in worlds[i].buckets && worlds[i].buckets[k].version == acts[i].b.version
    ensures acts[i].b.status.endpoint.Some? && acts[i].b.proof.Proved?
    ensures var bucket, proof := worlds[i].buckets[k], acts[i].b.proof;
            && Forced(bucket.owners, AccountRef(bucket.spec.serviceAccount, proof.uid)) == bucket.owners
            && ControllerOf(proof.secret.owners) == Some(BucketRef(k.name, bucket.uid))
            && Carries(proof.secret.data, bucket.spec.template, AccessOf(k, proof.sa, proof.provider))
            && Met(worlds, b, i, AccountStored(AccountKey(k, bucket), proof.uid))
            && Met(worlds, b, i, MinioStored(MinioAt(k, bucket)))
            && Met(worlds, b, i, ProviderStored(bucket.spec.provider, proof.provider))
            && Met(worlds, b, i, SecretStored(SaKey(AccountKey(k, bucket)), proof.sa))
            && Met(worlds, b, i, SecretStored(TargetKey(k, bucket), proof.secret))
  {
    StepAt(worlds, acts, i);
    b := BucketPassBegan(worlds, acts, i);
    var bucket, proof := worlds[i].buckets[k], acts[i].b.proof;
    FactMeans(worlds, acts, b, i, AccountStored(AccountKey(k, bucket), proof.uid));
    FactMeans(worlds, acts, b, i, MinioStored(MinioAt(k, bucket)));
    FactMeans(worlds, acts, b, i, ProviderStored(bucket.spec.provider, proof.provider));
    FactMeans(worlds, acts, b, i, SecretStored(SaKey(AccountKey(k, bucket)), proof.sa));
    FactMeans(worlds, acts, b, i, SecretStored(TargetKey(k, bucket), proof.secret));
  }

  /** The fact held in a world strictly between the two steps. */
  ghost predicate Met(worlds: seq<World>, b: nat, i: nat, fact: Fact) {
    exists m :: b < m < i && m < |worlds| && Holds(worlds[m], fact)
  }

  /** Ready appears in no other way. */
  lemma {:induction false} ReadyOnlyByReadying(worlds: seq<World>, acts: seq<Action>, i: nat, k: Key) returns (n: nat)
    requires FullRun(worlds, acts) && i <= |acts|
    requires k in worlds[i].buckets && IsTrue(worlds[i].buckets[k].status.conditions, Ready)
    ensures n < i && IsReadying(acts[n], k) && k in worlds[n].buckets && worlds[n].buckets[k].uid == worlds[i].buckets[k].uid
  {
    StepAt(worlds, acts, i - 1);
    BucketMoves(acts[i - 1], worlds[i - 1], k);
    if k in worlds[i - 1].buckets && IsTrue(worlds[i - 1].buckets[k].status.conditions, Ready) {
      n := ReadyOnlyByReadying(worlds, acts, i - 1, k);
    } else {
      n := i - 1;
    }
  }

  // ---------------------------------------------------------------- rollbacks

  /** The step makes this MinIO bucket. */
  predicate IsMake(act: Action, w: World, at: Loc) {
    && act.ByBuckets? && act.b.BMake? && act.b.key in w.buckets
    && At(w.buckets[act.b.key].spec.provider, act.b.key.name) == at
  }

  /** The bucket controller removes it. */
  predicate IsRemoval(act: Action, at: Loc) {
    act == ByBuckets(BUnmake(at)) || act == ByBuckets(BForce(at))
  }

  lemma BMineMoves(b: BAct, w: World, at: Loc)
    requires BGuard(b, w) && BAccepts(b, w) && at in BEffect(b, w).desk.mine && !IsMake(ByBuckets(b), w, at)
    ensures at in w.desk.mine && !b.BBegin? && !IsRemoval(ByBuckets(b), at)
  {
  }

  lemma MineMoves(act: Action, w: World, at: Loc)
    requires Enabled(act, w) && at in Effect(act, w).desk.mine && !IsMake(act, w, at)
    ensures at in w.desk.mine && act != ByBuckets(BBegin) && !IsRemoval(act, at)
  {
    match act
    case ByAccounts(a) =>
    case ByBuckets(b) => BMineMoves(b, w, at);
    case ByCollector(g) =>
    case ByOutside(e) =>
  }

  /** Step m makes the MinIO bucket, and the controller neither makes nor removes it
      from then until step i. */
  ghost predicate LastMake(worlds: seq<World>, acts: seq<Action>, m: nat, i: nat, at: Loc)
    requires m < i <= |acts| && |worlds| == |acts| + 1
  {
    && IsMake(acts[m], worlds[m], at) && at !in worlds[m].minio.buckets
    && forall n :: m < n < i ==> !IsRemoval(acts[n], at) && !IsMake(acts[n], worlds[n], at)
  }

  lemma MineStep(worlds: seq<World>, acts: seq<Action>, i: nat, at: Loc)
    requires Run(worlds, acts) && 0 < i <= |acts| && at in worlds[i].desk.mine
    ensures if IsMake(acts[i - 1], worlds[i - 1], at) then at !in worlds[i - 1].minio.buckets
            else at in worlds[i - 1].desk.mine && acts[i - 1] != ByBuckets(BBegin) && !IsRemoval(acts[i - 1], at)
  {
    StepAt(worlds, acts, i - 1);
    if IsMake(acts[i - 1], worlds[i - 1], at) {
      NoSecondMake(acts[i - 1], worlds[i - 1], at);
    } else {
      MineMoves(acts[i - 1], worlds[i - 1], at);
    }
  }

  lemma {:induction false} MineMeans(worlds: seq<World>, acts: seq<Action>, b: nat, i: nat, at: Loc) returns (m: nat)
    requires Run(worlds, acts) && BucketPassFrom(acts, b, i) && at in worlds[i].desk.mine
    ensures b < m < i && LastMake(worlds, acts, m, i, at)
  {
    MineStep(worlds, acts, i, at);
    if IsMake(acts[i - 1], worlds[i - 1], at) {
      m := i - 1;
    } else {
      m := MineMeans(worlds, acts, b, i - 1, at);
    }
  }

  lemma NoSecondMake(act: Action, w: World, at: Loc)
    requires Enabled(act, w) && IsMake(act, w, at)
    ensures at !in w.minio.buckets
  {
  }

  /** A rollback is of a MinIO bucket that this very pass has made. */
  lemma RollbackIsOfOwnMake(worlds: seq<World>, acts: seq<Action>, i: nat, at: Loc) returns (b: nat, m: nat)
    requires FullRun(worlds, acts) && i < |acts| && acts[i] == ByBuckets(BUnmake(at))
    ensures BucketPassFrom(acts, b, i) && b < m < i && LastMake(worlds, acts, m, i, at)
  {
    StepAt(worlds, acts, i);
    b := BucketPassBegan(worlds, acts, i);
    m := MineMeans(worlds, acts, b, i, at);
  }

  lemma BMinioStays(b: BAct, w: World, at: Loc)
    requires BGuard(b, w) && BAccepts(b, w) && at in w.minio.buckets && !IsRemoval(ByBuckets(b), at)
    ensures at in BEffect(b, w).minio.buckets
  {
  }

  lemma EMinioStays(e: EAct, w: World, at: Loc)
    requires EAccepts(e, w) && at in w.minio.buckets && e != ERemove(at)
    ensures at in EEffect(e, w).minio.buckets
  {
  }

  lemma MinioStays(act: Action, w: World, at: Loc)
    requires Enabled(act, w) && at in w.minio.buckets && !IsRemoval(act, at) && act != ByOutside(ERemove(at))
    ensures at in Effect(act, w).minio.buckets
  {
    match act
    case ByAccounts(a) =>
    case ByBuckets(b) => BMinioStays(b, w, at);
    case ByCollector(g) =>
    case ByOutside(e) => EMinioStays(e, w, at);
  }

  lemma MakeMakes(act: Action, w: World, at: Loc)
    requires Enabled(act, w) && IsMake(act, w, at)
    ensures at in Effect(act, w).minio.buckets
  {
  }

  lemma {:induction false} MadeStays(worlds: seq<World>, acts: seq<Action>, m: nat, i: nat, n: nat, at: Loc)
    requires Run(worlds, acts) && m < n <= i <= |acts| && LastMake(worlds, acts, m, i, at)
    requires forall n :: m < n < i ==> acts[n] != ByOutside(ERemove(at))
    ensures at in worlds[n].minio.buckets
  {
    StepAt(worlds, acts, n - 1);
    if n > m + 1 {
      MadeStays(worlds, acts, m, i, n - 1, at);
      MinioStays(acts[n - 1], worlds[n - 1], at);
    } else {
      MakeMakes(acts[m], worlds[m], at);
    }
  }

  /** What it hits is still the bucket it made exactly when no outsider has removed
      that one in between: only then has it been there all along. */
  lemma RollbackHitsOwnExactly(worlds: seq<World>, acts: seq<Action>, m: nat, i: nat, at: Loc)
    requires Run(worlds, acts) && m < i <= |acts| && LastMake(worlds, acts, m, i, at)
    ensures (forall n :: m < n <= i ==> at in worlds[n].minio.buckets) <==>
            (forall n :: m < n < i ==> acts[n] != ByOutside(ERemove(at)))
  {
    if forall n :: m < n < i ==> acts[n] != ByOutside(ERemove(at)) {
      forall n | m < n <= i
        ensures at in worlds[n].minio.buckets
      {
        MadeStays(worlds, acts, m, i, n, at);
      }
    } else {
      var n :| m < n < i && acts[n] == ByOutside(ERemove(at));
      StepAt(worlds, acts, n);
      assert at !in worlds[n + 1].minio.buckets;
    }
  }
}
