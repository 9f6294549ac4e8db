/** What one controller may count on while the others run: two-state relations
    that every step of the others keeps, and that compose. */
module Relying {
  import opened Wrappers
  import opened Owners
  import opened Conditions
  import opened Worlds
  import opened Actions
  import opened Invariants

  /** Time and versions move on; an object is either untouched or newer than
      anything handed out before. */
  ghost predicate Newer(w: World, w': World) {
    && w.now <= w'.now && w.tick <= w'.tick && w.nextUid <= w'.nextUid && w.serial <= w'.serial
    && w.past.made <= w'.past.made && w.past.everDelete <= w'.past.everDelete
    && (forall k :: k in w'.buckets ==>
          w'.buckets[k].version > w.tick || (k in w.buckets && w'.buckets[k] == w.buckets[k]))
    && (forall k :: k in w'.accounts ==>
          w'.accounts[k].version > w.tick || (k in w.accounts && w'.accounts[k] == w.accounts[k]))
    && (forall k :: k in w'.secrets ==>
          w'.secrets[k].version > w.tick || (k in w.secrets && w'.secrets[k] == w.secrets[k]))
  }

  /** What everyone but the account controller leaves alone. */
  ghost predicate AccountsLeftAlone(w: World, w': World) {
    && w'.minio == w.minio.(buckets := w'.minio.buckets)
    && w'.past.accountProviders <= w.past.accountProviders
    && w'.past.seen == w.past.seen && w'.past.abandoned == w.past.abandoned && w'.serial == w.serial
    && w'.desk.accountPass == w.desk.accountPass && w'.desk.listed == w.desk.listed
    && (forall k :: k in w.accounts && w.accounts[k].finalizer ==>
          k in w'.accounts && w'.accounts[k].finalizer && w'.accounts[k].uid == w.accounts[k].uid &&
          w'.accounts[k].provider == w.accounts[k].provider)
    && (forall k :: k in w'.secrets && AccountControlled(w'.secrets[k]) ==>
          k in w.secrets && w'.secrets[k] == w.secrets[k])
  }

  predicate SameBucketDesk(d: Desk, d': Desk) {
    d'.bucketPass == d.bucketPass && d'.facts == d.facts && d'.mine == d.mine
  }

  /** What everyone but the collector leaves alone. */
  predicate SameSweep(d: Desk, d': Desk) {
    d'.sweep == d.sweep && d'.marked == d.marked && d'.condemned == d.condemned
  }

  /** What everyone but the bucket controller leaves alone. */
  ghost predicate BucketsLeftAlone(w: World, w': World) {
    && w'.past.made == w.past.made && SameBucketDesk(w.desk, w'.desk)
    && w'.past.keep <= w.past.keep && w'.past.bucketProviders <= w.past.bucketProviders
    && (forall k :: k in w.buckets && w.buckets[k].finalizer ==>
          k in w'.buckets && w'.buckets[k].finalizer && w'.buckets[k].uid == w.buckets[k].uid &&
          (w.buckets[k].spec.provider != "" ==> w'.buckets[k].spec.provider == w.buckets[k].spec.provider))
  }

  ghost predicate Rely(me: Actor, w: World, w': World) {
    && Newer(w, w')
    && (me == AccountWorker ==> AccountsLeftAlone(w, w'))
    && (me == BucketWorker ==> BucketsLeftAlone(w, w'))
    && (me == Collector ==> SameSweep(w.desk, w'.desk))
  }

  lemma RelyReflexive(me: Actor, w: World)
    ensures Rely(me, w, w)
  {
  }

  lemma RelyTransitive(me: Actor, a: World, b: World, c: World)
    requires Rely(me, a, b) && Rely(me, b, c)
    ensures Rely(me, a, c)
  {
  }

  lemma StepIsNewer(act: Action, w: World)
    requires Enabled(act, w)
    ensures Newer(w, Effect(act, w))
  {
    StepMoves(act, w);
    NewerFromMoves(act, w, Effect(act, w));
  }

  lemma NewerFromMoves(act: Action, w: World, w': World)
    requires Moved(act, w, w')
    ensures Newer(w, w')
  {
    forall k | k in w'.buckets
      ensures w'.buckets[k].version > w.tick || (k in w.buckets && w'.buckets[k] == w.buckets[k])
    {
      assert BucketMove(act, w, k, w'.buckets[k], w');
    }
    forall k | k in w'.accounts
      ensures w'.accounts[k].version > w.tick || (k in w.accounts && w'.accounts[k] == w.accounts[k])
    {
      assert AccountMove(act, w, k, w'.accounts[k], w');
    }
    forall k | k in w'.secrets
      ensures w'.secrets[k].version > w.tick || (k in w.secrets && w'.secrets[k] == w.secrets[k])
    {
      assert SecretMove(act, w, k, w'.secrets[k], w');
    }
  }

  lemma OthersLeaveAccountsAlone(act: Action, w: World)
    requires Enabled(act, w) && ActorOf(act) != AccountWorker
    ensures AccountsLeftAlone(w, Effect(act, w))
  {
    var w' := Effect(act, w);
    OthersLeaveMinioAlone(act, w);
    forall k | k in w.accounts && w.accounts[k].finalizer
      ensures k in w'.accounts && w'.accounts[k].finalizer && w'.accounts[k].uid == w.accounts[k].uid
      ensures w'.accounts[k].provider == w.accounts[k].provider
    {
      if k !in w'.accounts {
        AccountsStay(act, w, k);
      } else {
        AccountMoves(act, w, k);
      }
    }
    forall k | k in w'.secrets && AccountControlled(w'.secrets[k])
      ensures k in w.secrets && w'.secrets[k] == w.secrets[k]
    {
      SecretMoves(act, w, k);
    }
  }

  lemma OthersLeaveMinioAlone(act: Action, w: World)
    requires Enabled(act, w) && ActorOf(act) != AccountWorker
    ensures var w' := Effect(act, w);
            w'.minio == w.minio.(buckets := w'.minio.buckets) &&
            w'.past.accountProviders <= w.past.accountProviders && w'.past.seen == w.past.seen &&
            w'.past.abandoned == w.past.abandoned && w'.serial == w.serial &&
            w'.desk.accountPass == w.desk.accountPass && w'.desk.listed == w.desk.listed
  {
    match act
    case ByBuckets(b) =>
    case ByCollector(_) =>
    case ByOutside(e) =>
  }

  lemma OthersLeaveMakesAlone(act: Action, w: World)
    requires Enabled(act, w) && ActorOf(act) != BucketWorker
    ensures var w' := Effect(act, w);
            w'.past.made == w.past.made && w'.past.keep <= w.past.keep &&
            w'.past.bucketProviders <= w.past.bucketProviders && SameBucketDesk(w.desk, w'.desk)
  {
    match act
    case ByAccounts(a) =>
    case ByCollector(_) =>
    case ByOutside(e) =>
  }

  lemma OthersLeaveSweepAlone(act: Action, w: World)
    requires Enabled(act, w) && ActorOf(act) != Collector
    ensures SameSweep(w.desk, Effect(act, w).desk)
  {
    match act
    case ByAccounts(a) =>
    case ByBuckets(b) =>
    case ByOutside(e) =>
  }

  lemma OthersLeaveBucketsAlone(act: Action, w: World)
    requires Enabled(act, w) && ActorOf(act) != BucketWorker
    ensures BucketsLeftAlone(w, Effect(act, w))
  {
    var w' := Effect(act, w);
    OthersLeaveMakesAlone(act, w);
    forall k | k in w.buckets && w.buckets[k].finalizer
      ensures k in w'.buckets && w'.buckets[k].finalizer && w'.buckets[k].uid == w.buckets[k].uid
      ensures w.buckets[k].spec.provider != "" ==> w'.buckets[k].spec.provider == w.buckets[k].spec.provider
    {
      if k !in w'.buckets {
        BucketsStay(act, w, k);
      } else {
        BucketMoves(act, w, k);
      }
    }
  }

  /** Every step of another actor keeps what `me` relies on. */
  lemma OthersKeepRely(me: Actor, act: Action, w: World)
    requires Enabled(act, w) && ActorOf(act) != me
    ensures Rely(me, w, Effect(act, w))
  {
    StepIsNewer(act, w);
    if me == AccountWorker {
      OthersLeaveAccountsAlone(act, w);
    } else if me == BucketWorker {
      OthersLeaveBucketsAlone(act, w);
    } else if me == Collector {
      OthersLeaveSweepAlone(act, w);
    }
  }

  /** The version a write names was handed out before the write. */
  predicate AKnown(act: AAct, w: World) {
    (act.AFinalize? || act.ARelease? || act.AStatus?) ==> act.version <= w.tick
  }

  predicate BKnown(act: BAct, w: World) {
    (act.BUpdate? || act.BRelease? || act.BStatus? || act.BUpdateSecret?) ==> act.version <= w.tick
  }

  predicate GKnown(act: GAct, w: World) {
    act.GMark? ==> act.version <= w.tick
  }

  lemma NoNewSecret(w: World, w': World, k: Key)
    requires Held(w, k) && !HasOwnSecret(w, k) && AccountsLeftAlone(w, w')
    ensures Held(w', k) && !HasOwnSecret(w', k)
  {
    if HasOwnSecret(w', k) {
      assert AccountControlled(w'.secrets[SaKey(k)]);
      assert HasOwnSecret(w, k);
    }
  }

  /** What a controller has established stays established while the others run. */
  lemma AGuardIsStable(act: AAct, w: World, w': World)
    requires AGuard(act, w) && AKnown(act, w) && Rely(AccountWorker, w, w')
    ensures AGuard(act, w') && AKnown(act, w')
  {
    if act.ARemoveUser? || act.AAddKey? || (act.ADropKey? && act.id.Serial?) {
      NoNewSecret(w, w', act.key);
    }
  }

  lemma BGuardIsStable(act: BAct, w: World, w': World)
    requires BGuard(act, w) && BKnown(act, w) && Rely(BucketWorker, w, w')
    ensures BGuard(act, w') && BKnown(act, w')
  {
  }

  lemma GGuardIsStable(act: GAct, w: World, w': World)
    requires GGuard(act, w) && GKnown(act, w) && Rely(Collector, w, w')
    ensures GGuard(act, w') && GKnown(act, w')
  {
  }

  /** What the caller still knows after a call: objects that carry the finalizer
      outlast everything but their own release. */
  ghost predicate AccountsLast(w: World, w': World) {
    forall k :: Held(w, k) ==>
      Held(w', k) && w'.accounts[k].uid == w.accounts[k].uid && w'.accounts[k].provider == w.accounts[k].provider
  }

  ghost predicate BucketsLast(w: World, w': World) {
    forall k :: k in w.buckets && w.buckets[k].finalizer ==>
      k in w'.buckets && w'.buckets[k].finalizer && w'.buckets[k].uid == w.buckets[k].uid &&
      (w.buckets[k].spec.provider != "" ==> w'.buckets[k].spec.provider == w.buckets[k].spec.provider)
  }

  lemma ACallLasts(act: AAct, w: World)
    requires AGuard(act, w) && AAccepts(act, w)
    ensures Newer(w, AEffect(act, w))
    ensures !act.ARelease? ==> AccountsLast(w, AEffect(act, w))
  {
    var w' := AEffect(act, w);
    StepIsNewer(ByAccounts(act), w);
    if !act.ARelease? {
      forall k | Held(w, k)
        ensures Held(w', k) && w'.accounts[k].uid == w.accounts[k].uid
        ensures w'.accounts[k].provider == w.accounts[k].provider
      {
        if k !in w'.accounts {
          AAccountsStay(act, w, k);
        } else {
          AAccountMoves(act, w, k);
        }
      }
    }
  }

  lemma BCallLasts(act: BAct, w: World)
    requires BGuard(act, w) && BAccepts(act, w)
    ensures Newer(w, BEffect(act, w))
    ensures !act.BRelease? ==> BucketsLast(w, BEffect(act, w))
  {
    var w' := BEffect(act, w);
    StepIsNewer(ByBuckets(act), w);
    if !act.BRelease? {
      forall k | k in w.buckets && w.buckets[k].finalizer
        ensures k in w'.buckets && w'.buckets[k].finalizer && w'.buckets[k].uid == w.buckets[k].uid
        ensures w.buckets[k].spec.provider != "" ==> w'.buckets[k].spec.provider == w.buckets[k].spec.provider
      {
        if k !in w'.buckets {
          BBucketsStay(act, w, k);
        } else {
          BBucketMoves(act, w, k);
        }
      }
    }
  }

  lemma NewerTransitive(a: World, b: World, c: World)
    requires Newer(a, b) && Newer(b, c)
    ensures Newer(a, c)
  {
  }
}
