/** Left undisturbed, a bucket with fresh names and its account become Ready
    together, in whatever order their passes run. */
module Convergence {
  import opened Wrappers
  import opened Owners
  import opened Conditions
  import opened Worlds
  import opened Actions
  import opened Invariants
  import opened Providers
  import opened SecretData
  import opened AccountPasses
  import opened BucketPasses
  import opened Settled
  import opened AccountProgress
  import opened BucketProgress
  import opened Clusters
  import opened Safety
  import opened PassFacts
  import opened Witnesses
  import AccountReconcilers
  import BucketReconcilers

  datatype Turn = BucketTurn | AccountTurn | Tick

  predicate Undeleted(w: World, k: Key) {
    k in w.buckets && !w.buckets[k].deleting
  }

  /** One undisturbed pass of either controller, or time going by. */
  ghost function Turned(w: World, k: Key, render: Renderer, turn: Turn): World
    requires Undeleted(w, k)
  {
    match turn
    case BucketTurn => BucketPass(w, k, render)
    case AccountTurn => AccountPass(w, TheAccount(w, k))
    case Tick => w.(now := w.now + 1)
  }

  /** How much is still to be done; a bucket's milestone outweighs all of its account's. */
  ghost function Measure(w: World, k: Key, render: Renderer): (n: nat)
    requires k in w.buckets
    ensures n <= 79
  {
    8 * BucketUnmet(w, k, render) + AccountUnmet(w, TheAccount(w, k))
  }

  ghost predicate BothReady(w: World, k: Key) {
    && k in w.buckets && IsTrue(w.buckets[k].status.conditions, Ready)
    && var a := TheAccount(w, k);
    && a in w.accounts && IsTrue(w.accounts[a].status.conditions, Ready)
  }

  lemma DefaultSecretIsNotTheAccounts(bucket: string, account: string)
    ensures DefaultSecretName(bucket) != account + SA_SECRET_SUFFIX
  {
    var x, y := DefaultSecretName(bucket), account + SA_SECRET_SUFFIX;
    assert x[|x| - 1] == 's' && y[|y| - 1] == 'a';
  }

  /** A Bucket just created with names nobody uses, and a provider given or to be
      found by default, is where everything below starts. */
  lemma FreshBucketIsJoint(w: World, k: Key, spec: BucketSpec, render: Renderer)
    requires Inv(w) && EAccepts(ECreateBucket(k, spec, []), w)
    requires spec.template.Keys !! RESERVED && forall access :: Renders(render, spec.template, access)
    requires ProviderKnown(w, spec.provider)
    requires AccountUsable(w, Key(k.ns, spec.serviceAccount))
    requires forall p :: WillUse(w, spec, p) ==> At(p, k.name) !in w.minio.buckets
    requires FinalSecret(k, spec) !in w.secrets
    requires spec.secretName.Some? ==> spec.secretName.value != spec.serviceAccount + SA_SECRET_SUFFIX
    ensures Joint(EEffect(ECreateBucket(k, spec, []), w), k, render)
  {
    var w' := EEffect(ECreateBucket(k, spec, []), w);
    DefaultSecretIsNotTheAccounts(k.name, spec.serviceAccount);
    SameProviders(w, w', spec.provider);
    SameAccounts(w, w', Key(k.ns, spec.serviceAccount));
    assert forall p :: WillUse(w', spec, p) <==> WillUse(w, spec, p);
  }

  // ---------------------------------------------------------------- one turn

  lemma SameContentSameMeasure(w: World, w': World, k: Key, render: Renderer)
    requires SameContent(w, w') && k in w.buckets
    ensures Measure(w, k, render) == Measure(w', k, render) && TheAccount(w, k) == TheAccount(w', k)
  {
    SameContentSameBucket(w, w', k, render);
    SameContentSameUnmet(w, w', TheAccount(w, k));
  }

  /** An account pass takes nothing from the bucket. */
  lemma AccountPassKeepsBucket(w: World, k: Key, render: Renderer, w': World)
    requires Joint(w, k, render) && OnlyThisAccount(w, TheAccount(w, k), w')
    ensures Joint(w', k, render) && TheAccount(w', k) == TheAccount(w, k)
    ensures BucketUnmet(w', k, render) <= BucketUnmet(w, k, render)
  {
    var a := TheAccount(w, k);
    SameProviders(w, w', w.buckets[k].spec.provider);
    SameMinioFresh(w, w', k);
    var t := FinalSecret(k, w.buckets[k].spec);
    assert t in w.secrets <==> t in w.secrets - {SaKey(a)};
    assert t in w'.secrets <==> t in w'.secrets - {SaKey(a)};
    assert t in w.secrets ==> (w.secrets - {SaKey(a)})[t] == w.secrets[t] && (w'.secrets - {SaKey(a)})[t] == w'.secrets[t];
  }

  /** Every turn either changes nothing that is stored or brings the goal nearer. */
  lemma TurnGains(w: World, k: Key, render: Renderer, turn: Turn)
    requires Joint(w, k, render)
    ensures var w' := Turned(w, k, render, turn);
            && Joint(w', k, render) && TheAccount(w', k) == TheAccount(w, k)
            && (SameContent(w, w') || Measure(w', k, render) < Measure(w, k, render))
  {
    var w' := Turned(w, k, render, turn);
    var a := TheAccount(w, k);
    match turn
    case BucketTurn =>
      BucketPassGains(w, k, render);
    case AccountTurn =>
      if a in w.accounts {
        AccountPassGains(w, a);
        AccountPassKeepsBucket(w, k, render, w');
      } else {
        SameContentSameBucket(w, w', k, render);
      }
    case Tick =>
      SameContentSameBucket(w, w', k, render);
  }

  // ---------------------------------------------------------------- quiescence

  lemma NothingUnmetIsReady(w: World, k: Key, render: Renderer)
    requires Joint(w, k, render) && Measure(w, k, render) == 0
    ensures BothReady(w, k) && Sound(w, k, render)
  {
    OwnedIsIndexedOnce(w, k, TheAccount(w, k).name);
    OwnedController(w, k);
    FilledMeans(w, k, render, w.providers[w.buckets[k].spec.provider]);
  }

  /** Where neither controller changes anything any more, nothing is left to do
      and both resources are Ready. */
  lemma QuiescentIsReady(w: World, k: Key, render: Renderer, w1: World)
    requires Joint(w, k, render) && SameContent(w, w1)
    requires SameContent(w, Turned(w, k, render, BucketTurn)) && SameContent(w1, Turned(w1, k, render, AccountTurn))
    ensures Measure(w, k, render) == 0 && BothReady(w, k)
  {
    SameContentSameMeasure(w, w1, k, render);
    UnchangedBucketIsDone(w, k, render);
    UnchangedAccountIsDone(w1, TheAccount(w, k));
    SameContentSameUnmet(w, w1, TheAccount(w, k));
    NothingUnmetIsReady(w, k, render);
  }

  // ---------------------------------------------------------------- schedules

  /** The object is still there, its deletion mark and a provider once set are as they were. */
  predicate KeepsObject(w: World, k: Key, w': World) {
    && k in w.buckets && k in w'.buckets && w'.buckets[k].deleting == w.buckets[k].deleting
    && (w.buckets[k].spec.provider != "" ==> w'.buckets[k].spec.provider == w.buckets[k].spec.provider)
  }

  lemma SavingKeepsObject(w: World, k: Key, status: BucketStatus)
    requires k in w.buckets
    ensures KeepsObject(w, k, Save(w, k, status))
  {
  }

  lemma OwnersKeepObject(w: World, k: Key, owners: seq<OwnerRef>)
    requires k in w.buckets
    ensures var w' := PutBucket(w, k, w.buckets[k].(owners := owners)); KeepsObject(w, k, w') && w'.accounts == w.accounts
  {
  }

  lemma OwnerKeepsObject(w: World, k: Key)
    requires k in w.buckets
    ensures KeepsObject(w, k, OwnerStage(w, k).0)
    ensures AccountKey(k, w.buckets[k]) in w.accounts ==> OwnerStage(w, k).0.accounts == w.accounts
  {
    SavingKeepsObject(w, k, BucketChanged(w.buckets[k].status, Change.Fail, w.now));
    var b := w.buckets[k];
    var a := AccountKey(k, b);
    var w1 := if a in w.accounts then w else NewAccount(w, a, b.spec.provider);
    OwnersKeepObject(w1, k, Forced(b.owners, AccountRef(a.name, w1.accounts[a].uid)));
  }

  lemma MinioKeepsObject(w: World, k: Key, endpoint: string)
    requires k in w.buckets
    ensures KeepsObject(w, k, BucketStage(w, k, endpoint).0) && BucketStage(w, k, endpoint).0.accounts == w.accounts
  {
    SavingKeepsObject(w, k, BucketChanged(w.buckets[k].status, Change.Fail, w.now));
    SavingKeepsObject(Made(w, k), k, w.buckets[k].status.(endpoint := Some(endpoint)));
  }

  lemma SecretKeepsObject(w0: World, k: Key, render: Renderer, p: Provider)
    requires k in w0.buckets
    ensures KeepsObject(w0, k, SecretStage(w0, k, render, p).0)
  {
    var w := WithoutOldSecret(w0, k);
    SavingKeepsObject(w, k, BucketChanged(w.buckets[k].status, Change.Fail, w.now));
    var sa := SaKey(AccountKey(k, w.buckets[k]));
    if sa in w.secrets {
      var t := TargetKey(k, w.buckets[k]);
      var secret := Prepared(render, k, w.buckets[k], if t in w.secrets then Some(w.secrets[t]) else None, w.secrets[sa], p);
      if secret.Some? {
        WriteSecretStores(w, k, secret.value);
      }
    }
  }

  lemma OwnedPassKeepsObject(w: World, k: Key, render: Renderer, p: Provider)
    requires k in w.buckets
    ensures KeepsObject(w, k, OwnedPass(w, k, render, p)) && OwnedPass(w, k, render, p).accounts == w.accounts
  {
    MinioKeepsObject(w, k, p.endpoint);
    var w2 := BucketStage(w, k, p.endpoint).0;
    SecretKeepsObject(w2, k, render, p);
    ReadySetsConditions(SecretStage(w2, k, render, p).0, k);
  }

  lemma LivePassKeepsObject(w: World, k: Key, render: Renderer)
    requires k in w.buckets
    ensures KeepsObject(w, k, BucketPasses.LivePass(w, k, render))
    ensures AccountKey(k, w.buckets[k]) in w.accounts ==> BucketPasses.LivePass(w, k, render).accounts == w.accounts
  {
    SavingKeepsObject(w, k, BucketChanged(w.buckets[k].status, Change.Fail, w.now));
    if w.buckets[k].spec.provider in w.providers {
      OwnerKeepsObject(w, k);
      OwnedPassKeepsObject(OwnerStage(w, k).0, k, render, w.providers[w.buckets[k].spec.provider]);
    }
  }

  lemma EditingKeepsObject(w: World, k: Key, spec: BucketSpec)
    requires k in w.buckets && (w.buckets[k].spec.provider == "" || spec.provider == w.buckets[k].spec.provider)
    ensures var w' := PutBucket(w, k, w.buckets[k].(spec := spec)); KeepsObject(w, k, w') && w'.accounts == w.accounts
  {
  }

  lemma SpecKeepsObject(w: World, k: Key)
    requires k in w.buckets && !SpecFilled(w.buckets[k].spec)
    ensures KeepsObject(w, k, SpecPass(w, k)) && SpecPass(w, k).accounts == w.accounts
  {
    var spec := w.buckets[k].spec;
    if spec.provider == "" {
      SavingKeepsObject(w, k, BucketChanged(w.buckets[k].status, Change.Fail, w.now));
      var d := DefaultOf(w);
      EditingKeepsObject(w, k, spec.(provider := if d.Some? then d.value else ""));
    } else {
      EditingKeepsObject(w, k, spec.(secretName := Some(DefaultSecretName(k.name))));
      EditingKeepsObject(w, k, spec.(reclaim := Retain));
    }
  }

  lemma BucketPassKeepsObject(w: World, k: Key, render: Renderer)
    requires Undeleted(w, k)
    ensures KeepsObject(w, k, BucketPass(w, k, render))
    ensures AccountKey(k, w.buckets[k]) in w.accounts ==> BucketPass(w, k, render).accounts == w.accounts
  {
    var w0 := Begun(w);
    if w0.buckets[k].finalizer {
      if !SpecFilled(w0.buckets[k].spec) {
        SpecKeepsObject(w0, k);
      } else if w0.buckets[k].status.conditions == [] {
        SavingKeepsObject(w0, k, BucketChanged(w0.buckets[k].status, Create, w0.now));
      } else {
        LivePassKeepsObject(w0, k, render);
      }
    }
  }

  /** A bucket that is not being deleted survives every turn. */
  lemma TurnKeepsUndeleted(w: World, k: Key, render: Renderer, turn: Turn)
    requires Undeleted(w, k)
    ensures Undeleted(Turned(w, k, render, turn), k)
  {
    match turn
    case BucketTurn => BucketPassKeepsObject(w, k, render);
    case AccountTurn => AccountPassLeavesBuckets(w, TheAccount(w, k));
    case Tick =>
  }

  ghost function After(w: World, k: Key, render: Renderer, turns: seq<Turn>): World
    requires Undeleted(w, k)
    ensures Undeleted(After(w, k, render, turns), k)
  {
    if turns == [] then w
    else
      var before := After(w, k, render, turns[..|turns| - 1]);
      TurnKeepsUndeleted(before, k, render, turns[|turns| - 1]);
      Turned(before, k, render, turns[|turns| - 1])
  }

  lemma {:induction false} AfterIsJoint(w: World, k: Key, render: Renderer, turns: seq<Turn>)
    requires Joint(w, k, render)
    ensures Joint(After(w, k, render, turns), k, render)
    ensures TheAccount(After(w, k, render, turns), k) == TheAccount(w, k)
  {
    if turns != [] {
      AfterIsJoint(w, k, render, turns[..|turns| - 1]);
      TurnGains(After(w, k, render, turns[..|turns| - 1]), k, render, turns[|turns| - 1]);
    }
  }

  lemma {:induction false} AfterOrSame(w: World, k: Key, render: Renderer, turns: seq<Turn>)
    requires Joint(w, k, render)
    ensures var w' := After(w, k, render, turns);
            SameContent(w, w') || Measure(w', k, render) < Measure(w, k, render)
  {
    if turns != [] {
      var before := turns[..|turns| - 1];
      var w1 := After(w, k, render, before);
      AfterOrSame(w, k, render, before);
      AfterIsJoint(w, k, render, before);
      TurnGains(w1, k, render, turns[|turns| - 1]);
      if SameContent(w, w1) {
        SameContentSameMeasure(w, w1, k, render);
      }
      if SameContent(w1, After(w, k, render, turns)) {
        SameContentSameMeasure(w1, After(w, k, render, turns), k, render);
      }
    }
  }

  lemma {:induction false} MeasureFalls(w: World, k: Key, render: Renderer, turns: seq<Turn>, i: nat)
    requires Joint(w, k, render) && i <= |turns|
    ensures Measure(After(w, k, render, turns), k, render) <= Measure(After(w, k, render, turns[..i]), k, render)
    decreases |turns|
  {
    if i < |turns| {
      var before := turns[..|turns| - 1];
      var w1 := After(w, k, render, before);
      AfterIsJoint(w, k, render, before);
      TurnGains(w1, k, render, turns[|turns| - 1]);
      if SameContent(w1, After(w, k, render, turns)) {
        SameContentSameMeasure(w1, After(w, k, render, turns), k, render);
      }
      MeasureFalls(w, k, render, before, i);
      assert turns[..i] == before[..i];
    } else {
      assert turns[..i] == turns;
    }
  }

  lemma AfterGains(w: World, k: Key, render: Renderer, turns: seq<Turn>, i: nat)
    requires Joint(w, k, render) && i <= |turns|
    ensures Measure(After(w, k, render, turns), k, render) <= Measure(After(w, k, render, turns[..i]), k, render)
    ensures Measure(After(w, k, render, turns), k, render) < Measure(w, k, render) ||
            SameContent(w, After(w, k, render, turns[..i]))
  {
    AfterOrSame(w, k, render, turns[..i]);
    MeasureFalls(w, k, render, turns, i);
  }

  lemma OneTurnMore(w: World, k: Key, render: Renderer, turns: seq<Turn>, i: nat)
    requires Undeleted(w, k) && i < |turns|
    ensures After(w, k, render, turns[..i + 1]) == Turned(After(w, k, render, turns[..i]), k, render, turns[i])
  {
    assert turns[..i + 1][..i] == turns[..i];
  }

  /** When the goal came no nearer, no turn changed anything. */
  lemma NoTurnChanged(w: World, k: Key, render: Renderer, round: seq<Turn>, i: nat)
    requires Joint(w, k, render) && i < |round|
    requires Measure(After(w, k, render, round), k, render) >= Measure(w, k, render)
    ensures var wi := After(w, k, render, round[..i]);
            && Joint(wi, k, render) && SameContent(w, wi) && SameContent(wi, Turned(wi, k, render, round[i]))
            && Measure(wi, k, render) == Measure(w, k, render)
  {
    AfterIsJoint(w, k, render, round[..i]);
    AfterGains(w, k, render, round, i);
    AfterGains(w, k, render, round, i + 1);
    OneTurnMore(w, k, render, round, i);
    SameContentSameMeasure(w, After(w, k, render, round[..i]), k, render);
  }

  /** A stretch of turns in which both controllers have had one: it brings the
      goal nearer, or the goal had been reached before. */
  lemma RoundGains(w: World, k: Key, render: Renderer, round: seq<Turn>)
    requires Joint(w, k, render) && BucketTurn in round && AccountTurn in round
    ensures var w' := After(w, k, render, round);
            && Measure(w', k, render) <= Measure(w, k, render)
            && (Measure(w', k, render) < Measure(w, k, render) || Measure(w, k, render) == 0)
  {
    var w' := After(w, k, render, round);
    AfterGains(w, k, render, round, 0);
    if Measure(w', k, render) >= Measure(w, k, render) {
      var b :| 0 <= b < |round| && round[b] == BucketTurn;
      var a :| 0 <= a < |round| && round[a] == AccountTurn;
      NoTurnChanged(w, k, render, round, b);
      NoTurnChanged(w, k, render, round, a);
      QuiescentIsReady(After(w, k, render, round[..b]), k, render, After(w, k, render, round[..a]));
    }
  }

  ghost function AfterRounds(w: World, k: Key, render: Renderer, rounds: seq<seq<Turn>>): World
    requires Undeleted(w, k)
    ensures Undeleted(AfterRounds(w, k, render, rounds), k)
  {
    if rounds == [] then w
    else After(AfterRounds(w, k, render, rounds[..|rounds| - 1]), k, render, rounds[|rounds| - 1])
  }

  lemma OneRoundMore(w: World, k: Key, render: Renderer, rounds: seq<seq<Turn>>, i: nat)
    requires Undeleted(w, k) && i < |rounds|
    ensures AfterRounds(w, k, render, rounds[..i + 1]) ==
            After(AfterRounds(w, k, render, rounds[..i]), k, render, rounds[i])
  {
    assert rounds[..i + 1][..i] == rounds[..i];
  }

  lemma {:induction false} RoundsAreJoint(w: World, k: Key, render: Renderer, rounds: seq<seq<Turn>>)
    requires Joint(w, k, render)
    ensures Joint(AfterRounds(w, k, render, rounds), k, render)
  {
    if rounds != [] {
      RoundsAreJoint(w, k, render, rounds[..|rounds| - 1]);
      AfterIsJoint(AfterRounds(w, k, render, rounds[..|rounds| - 1]), k, render, rounds[|rounds| - 1]);
    }
  }

  predicate Fair(rounds: seq<seq<Turn>>) {
    forall i :: 0 <= i < |rounds| ==> BucketTurn in rounds[i] && AccountTurn in rounds[i]
  }

  /** Any schedule that keeps giving both controllers a turn makes both resources
      Ready, with everything Ready stands for: 79 such rounds are enough, and
      afterwards they stay so. */
  lemma {:induction false} Converges(w: World, k: Key, render: Renderer, rounds: seq<seq<Turn>>)
    requires Joint(w, k, render) && Fair(rounds)
    ensures var w' := AfterRounds(w, k, render, rounds);
            && Measure(w', k, render) + |rounds| <= (if |rounds| <= Measure(w, k, render) then Measure(w, k, render) else |rounds|)
            && (|rounds| >= 79 ==> BothReady(w', k) && Sound(w', k, render))
  {
    if rounds != [] {
      var before := rounds[..|rounds| - 1];
      assert forall i :: 0 <= i < |before| ==> before[i] == rounds[i];
      Converges(w, k, render, before);
      RoundsAreJoint(w, k, render, before);
      RoundGains(AfterRounds(w, k, render, before), k, render, rounds[|rounds| - 1]);
    }
    var w' := AfterRounds(w, k, render, rounds);
    RoundsAreJoint(w, k, render, rounds);
    if Measure(w', k, render) == 0 {
      NothingUnmetIsReady(w', k, render);
    }
  }

  // ---------------------------------------------------------------- conflict for good

  /** In conflict: a MinIO bucket of the name is there and no endpoint is recorded. */
  ghost predicate Blocked(w: World, k: Key) {
    && Undeleted(w, k) && OneDefault(w) && NotReady(w, k) && w.buckets[k].status.endpoint.None?
    && ProviderKnown(w, w.buckets[k].spec.provider)
    && forall p :: WillUse(w, w.buckets[k].spec, p) ==> At(p, k.name) in w.minio.buckets
  }

  /** Nothing that matters for the conflict has changed. */
  ghost predicate KeepsConflict(w: World, k: Key, w': World) {
    && k in w.buckets && k in w'.buckets && w'.providers == w.providers && w'.minio == w.minio
    && w'.buckets[k].deleting == w.buckets[k].deleting
    && w'.buckets[k].status.endpoint == w.buckets[k].status.endpoint
    && (w'.buckets[k].spec.provider == w.buckets[k].spec.provider ||
        (w.buckets[k].spec.provider == "" && w'.buckets[k].spec.provider != "" && DefaultProvider(w, w'.buckets[k].spec.provider)))
  }

  lemma ConflictKept(w: World, k: Key, w': World)
    requires Blocked(w, k) && KeepsConflict(w, k, w') && NotReady(w', k)
    ensures Blocked(w', k)
  {
    SameProviders(w, w', w.buckets[k].spec.provider);
    assert forall p :: WillUse(w', w'.buckets[k].spec, p) ==> WillUse(w, w.buckets[k].spec, p);
  }

  lemma FailKeepsConflict(w: World, k: Key, change: Change)
    requires k in w.buckets && Undeleted(w, k) && change != Succeed
    ensures KeepsConflict(w, k, Save(w, k, BucketChanged(w.buckets[k].status, change, w.now)))
  {
  }

  lemma OwnersKeepConflict(w: World, k: Key, owners: seq<OwnerRef>)
    requires Undeleted(w, k)
    ensures KeepsConflict(w, k, PutBucket(w, k, w.buckets[k].(owners := owners)))
  {
  }

  lemma OwnerKeepsConflict(w: World, k: Key)
    requires Undeleted(w, k)
    ensures KeepsConflict(w, k, OwnerStage(w, k).0)
  {
    FailKeepsConflict(w, k, Change.Fail);
    var b := w.buckets[k];
    var a := AccountKey(k, b);
    var w1 := if a in w.accounts then w else NewAccount(w, a, b.spec.provider);
    OwnersKeepConflict(w1, k, Forced(b.owners, AccountRef(a.name, w1.accounts[a].uid)));
  }

  lemma SpecKeepsConflict(w: World, k: Key)
    requires Undeleted(w, k) && OneDefault(w) && ProviderKnown(w, w.buckets[k].spec.provider)
    ensures KeepsConflict(w, k, SpecPass(w, k))
  {
    if w.buckets[k].spec.provider == "" {
      DefaultIsFound(w);
    }
  }

  lemma LiveKeepsConflict(w: World, k: Key, render: Renderer)
    requires Blocked(w, k) && SpecFilled(w.buckets[k].spec)
    ensures KeepsConflict(w, k, BucketPasses.LivePass(w, k, render)) && NotReady(BucketPasses.LivePass(w, k, render), k)
  {
    var b := w.buckets[k];
    OwnerKeepsConflict(w, k);
    OwnerNotReady(w, k);
    var (w1, ok) := OwnerStage(w, k);
    assert WillUse(w, b.spec, b.spec.provider);
    FailKeepsConflict(w1, k, Change.Fail);
    OtherChangesNotReady(w1, k, Change.Fail);
  }

  /** A conflict outlasts every turn. */
  lemma TurnKeepsConflict(w: World, k: Key, render: Renderer, turn: Turn)
    requires Blocked(w, k)
    ensures Blocked(Turned(w, k, render, turn), k)
  {
    var w' := Turned(w, k, render, turn);
    match turn
    case BucketTurn =>
      BucketPassKeepsConflict(w, k, render);
    case AccountTurn =>
      AccountPassLeavesBuckets(w, TheAccount(w, k));
      assert forall p :: WillUse(w', w'.buckets[k].spec, p) <==> WillUse(w, w.buckets[k].spec, p);
      SameProviders(w, w', w.buckets[k].spec.provider);
    case Tick =>
      ConflictKept(w, k, w');
  }

  lemma BucketPassKeepsConflict(w: World, k: Key, render: Renderer)
    requires Blocked(w, k)
    ensures Blocked(BucketPass(w, k, render), k)
  {
    var w0 := Begun(w);
    ConflictKept(w, k, w0);
    var b := w0.buckets[k];
    if !b.finalizer {
    } else if !SpecFilled(b.spec) {
      SpecKeepsConflict(w0, k);
      SpecNotReady(w0, k);
    } else if b.status.conditions == [] {
      FailKeepsConflict(w0, k, Create);
      OtherChangesNotReady(w0, k, Create);
    } else {
      LiveKeepsConflict(w0, k, render);
    }
    ConflictKept(w0, k, BucketPass(w, k, render));
  }

  lemma {:induction false} AfterIsBlocked(w: World, k: Key, render: Renderer, turns: seq<Turn>)
    requires Blocked(w, k)
    ensures Blocked(After(w, k, render, turns), k)
  {
    if turns != [] {
      AfterIsBlocked(w, k, render, turns[..|turns| - 1]);
      TurnKeepsConflict(After(w, k, render, turns[..|turns| - 1]), k, render, turns[|turns| - 1]);
    }
  }

  lemma {:induction false} RoundsAreBlocked(w: World, k: Key, render: Renderer, rounds: seq<seq<Turn>>)
    requires Blocked(w, k)
    ensures Blocked(AfterRounds(w, k, render, rounds), k)
  {
    if rounds != [] {
      RoundsAreBlocked(w, k, render, rounds[..|rounds| - 1]);
      AfterIsBlocked(AfterRounds(w, k, render, rounds[..|rounds| - 1]), k, render, rounds[|rounds| - 1]);
    }
  }

  /** From a reachable state, whatever had failed before it, undisturbed turns make
      both resources Ready if and only if no MinIO bucket of the name is there
      without a recorded endpoint. */
  lemma ConvergesExactly(w: World, k: Key, render: Renderer, rounds: seq<seq<Turn>>)
    requires StatusCoherence(w) && JointButMinio(w, k, render) && Fair(rounds) && |rounds| >= 79
    ensures BothReady(AfterRounds(w, k, render, rounds), k) <==> MinioFresh(w, k)
  {
    if MinioFresh(w, k) {
      Converges(w, k, render, rounds);
    } else {
      assert Coherent(w.buckets[k]);
      assert forall p, q :: WillUse(w, w.buckets[k].spec, p) && WillUse(w, w.buckets[k].spec, q) ==> p == q;
      RoundsAreBlocked(w, k, render, rounds);
    }
  }

  lemma SceneIsJoint(w: World, k: Key, details: Provider, render: Renderer)
    requires k in w.buckets && Scene(w, k, w.buckets[k], details) && !w.buckets[k].deleting
    requires var spec := w.buckets[k].spec;
             && spec.provider != "" && spec.template.Keys !! RESERVED
             && (forall access :: Renders(render, spec.template, access))
             && (spec.secretName.Some? ==> spec.secretName.value != spec.serviceAccount + SA_SECRET_SUFFIX)
    ensures JointButMinio(w, k, render)
  {
    DefaultSecretIsNotTheAccounts(k.name, w.buckets[k].spec.serviceAccount);
    assert ControllerOf([]) == None;
  }

  /** It happens: after the lost reply of a MakeBucket that has taken effect, no
      number of undisturbed turns makes the resource Ready. */
  lemma LostReplyBlocksForGood(w: World, k: Key, spec: BucketSpec, details: Provider, render: Renderer)
    returns (worlds: seq<World>, acts: seq<Action>)
    requires Empty(w) && ValidName(k.name) && spec.provider != "" && At(spec.provider, k.name) !in w.minio.buckets
    requires spec.template.Keys !! RESERVED && forall access :: Renders(render, spec.template, access)
    requires spec.secretName.Some? ==> spec.secretName.value != spec.serviceAccount + SA_SECRET_SUFFIX
    ensures FullRun(worlds, acts) && worlds[0] == w && |acts| > 0
    ensures var last := worlds[|acts| - 1];
            IsMake(acts[|acts| - 1], last, At(spec.provider, k.name)) && Joint(last, k, render)
    ensures JointButMinio(worlds[|acts|], k, render)
    ensures forall rounds :: Undeleted(worlds[|acts|], k) && Fair(rounds) && |rounds| >= 79 ==>
              !BothReady(AfterRounds(worlds[|acts|], k, render, rounds), k)
  {
    worlds, acts := LostReply(w, k, spec, details);
    var end := worlds[|acts|];
    Reachable(worlds, acts, |acts|);
    SceneIsJoint(worlds[|acts| - 1], k, details, render);
    SceneIsJoint(end, k, details, render);
    assert WillUse(end, spec, spec.provider);
    forall rounds | Undeleted(end, k) && Fair(rounds) && |rounds| >= 79
      ensures !BothReady(AfterRounds(end, k, render, rounds), k)
    {
      ConvergesExactly(end, k, render, rounds);
    }
  }

  // ---------------------------------------------------------------- an account of another server

  lemma {:induction false} AccountKeepsProvider(w: World, k: Key, render: Renderer, turns: seq<Turn>)
    requires Joint(w, k, render) && TheAccount(w, k) in w.accounts && w.buckets[k].spec.provider != ""
    ensures var w', a := After(w, k, render, turns), TheAccount(w, k);
            && a in w'.accounts && w'.accounts[a].provider == w.accounts[a].provider
            && k in w'.buckets && w'.buckets[k].spec.provider == w.buckets[k].spec.provider
  {
    if turns != [] {
      var before := After(w, k, render, turns[..|turns| - 1]);
      AccountKeepsProvider(w, k, render, turns[..|turns| - 1]);
      AfterIsJoint(w, k, render, turns[..|turns| - 1]);
      TurnKeepsProvider(before, k, render, turns[|turns| - 1]);
    }
  }

  lemma TurnKeepsProvider(w: World, k: Key, render: Renderer, turn: Turn)
    requires Joint(w, k, render) && TheAccount(w, k) in w.accounts && w.buckets[k].spec.provider != ""
    ensures var w', a := Turned(w, k, render, turn), TheAccount(w, k);
            && a in w'.accounts && w'.accounts[a].provider == w.accounts[a].provider
            && k in w'.buckets && w'.buckets[k].spec.provider == w.buckets[k].spec.provider
  {
    match turn
    case BucketTurn => BucketPassKeepsObject(w, k, render);
    case AccountTurn => AccountPassGains(w, TheAccount(w, k));
    case Tick =>
  }

  lemma {:induction false} RoundsKeepProvider(w: World, k: Key, render: Renderer, rounds: seq<seq<Turn>>)
    requires Joint(w, k, render) && TheAccount(w, k) in w.accounts && w.buckets[k].spec.provider != ""
    ensures var w', a := AfterRounds(w, k, render, rounds), TheAccount(w, k);
            && Joint(w', k, render) && TheAccount(w', k) == a
            && a in w'.accounts && w'.accounts[a].provider == w.accounts[a].provider
            && w'.buckets[k].spec.provider == w.buckets[k].spec.provider
  {
    if rounds != [] {
      var before := AfterRounds(w, k, render, rounds[..|rounds| - 1]);
      RoundsKeepProvider(w, k, render, rounds[..|rounds| - 1]);
      AccountKeepsProvider(before, k, render, rounds[|rounds| - 1]);
      AfterIsJoint(before, k, render, rounds[|rounds| - 1]);
    }
  }

  /** A Bucket just created for an account of another provider becomes Ready like
      any other, and the two providers stay different. */
  lemma MismatchBecomesReady(w: World, k: Key, spec: BucketSpec, render: Renderer, rounds: seq<seq<Turn>>)
    requires Inv(w) && EAccepts(ECreateBucket(k, spec, []), w)
    requires spec.template.Keys !! RESERVED && forall access :: Renders(render, spec.template, access)
    requires spec.provider != "" && spec.provider in w.providers && At(spec.provider, k.name) !in w.minio.buckets
    requires var a := Key(k.ns, spec.serviceAccount);
             a in w.accounts && AccountUsable(w, a) && w.accounts[a].provider != spec.provider
    requires FinalSecret(k, spec) !in w.secrets
    requires spec.secretName.Some? ==> spec.secretName.value != spec.serviceAccount + SA_SECRET_SUFFIX
    requires Fair(rounds) && |rounds| >= 79
    ensures var w0 := EEffect(ECreateBucket(k, spec, []), w);
            && Undeleted(w0, k)
            && var w' := AfterRounds(w0, k, render, rounds);
            && Sound(w', k, render) && BothReady(w', k)
            && w'.accounts[TheAccount(w', k)].provider != w'.buckets[k].spec.provider
  {
    FreshBucketIsJoint(w, k, spec, render);
    var w0 := EEffect(ECreateBucket(k, spec, []), w);
    Converges(w0, k, render, rounds);
    RoundsKeepProvider(w0, k, render, rounds);
  }

  // ---------------------------------------------------------------- the controllers themselves

  lemma BareIsJoint(w: World, k: Key, render: Renderer)
    requires Joint(w, k, render)
    ensures Joint(Bare(w), k, render)
  {
    SameContentSameBucket(w, Bare(w), k, render);
  }

  /** The controllers as they run, on an undisturbed cluster, in any order. */
  method RunTurns(c: Cluster, buckets: BucketReconcilers.BucketReconciler, accounts: AccountReconcilers.AccountReconciler,
                  k: Key, turns: seq<Turn>)
    requires c.Valid() && c.Quiet() && buckets.c == c && accounts.c == c && Undeleted(c.w, k)
    modifies c`w, c`trace, c`passed, c`asked
    ensures c.Valid() && Undeleted(c.w, k) && Bare(c.w) == After(Bare(old(c.w)), k, buckets.render, turns)
  {
    ghost var w0 := Bare(c.w);
    for i := 0 to |turns|
      invariant c.Valid() && Bare(c.w) == After(w0, k, buckets.render, turns[..i])
    {
      OneTurnMore(w0, k, buckets.render, turns, i);
      match turns[i]
      case BucketTurn =>
        var _, _, _ := buckets.Reconcile(k);
      case AccountTurn =>
        var _ := accounts.Reconcile(TheAccount(c.w, k));
      case Tick =>
        c.Take(ByOutside(ETick));
    }
    assert turns[..|turns|] == turns;
  }

  method RunRounds(c: Cluster, buckets: BucketReconcilers.BucketReconciler, accounts: AccountReconcilers.AccountReconciler,
                   k: Key, rounds: seq<seq<Turn>>)
    requires c.Valid() && c.Quiet() && buckets.c == c && accounts.c == c && Undeleted(c.w, k)
    modifies c`w, c`trace, c`passed, c`asked
    ensures c.Valid() && Bare(c.w) == AfterRounds(Bare(old(c.w)), k, buckets.render, rounds)
  {
    ghost var w0 := Bare(c.w);
    for i := 0 to |rounds|
      invariant c.Valid() && Undeleted(c.w, k) && Bare(c.w) == AfterRounds(w0, k, buckets.render, rounds[..i])
    {
      OneRoundMore(w0, k, buckets.render, rounds, i);
      RunTurns(c, buckets, accounts, k, rounds[i]);
    }
    assert rounds[..|rounds|] == rounds;
  }

  /** Both controllers take turns, in any order, until both resources are Ready. */
  method BecomeReady(c: Cluster, buckets: BucketReconcilers.BucketReconciler, accounts: AccountReconcilers.AccountReconciler,
                     k: Key, rounds: seq<seq<Turn>>)
    requires c.Valid() && c.Quiet() && buckets.c == c && accounts.c == c && Joint(c.w, k, buckets.render)
    requires |rounds| >= 79 && Fair(rounds)
    modifies c`w, c`trace, c`passed, c`asked
    ensures c.Valid() && BothReady(c.w, k) && Sound(c.w, k, buckets.render)
  {
    BareIsJoint(c.w, k, buckets.render);
    ghost var w0 := Bare(c.w);
    RunRounds(c, buckets, accounts, k, rounds);
    Converges(w0, k, buckets.render, rounds);
  }
}
