/** What one undisturbed account pass comes to, case by case, and what an account's
    Ready condition is worth over whole runs. */
module AccountOutcomes {
  import opened Wrappers
  import opened Owners
  import opened Conditions
  import opened Worlds
  import opened Actions
  import opened Invariants
  import opened Safety
  import opened AccountPasses
  import Outcomes
  import AccountProgress

  // ---------------------------------------------------------------- one pass

  ghost predicate AccountErred(cs: Conditions, s: AccountStatus, s': AccountStatus, at: nat) {
    Outcomes.ErrorRecorded(cs, s'.conditions, at) && s'.phase == Phase(Error) && s'.secretName == s.secretName
  }

  /** An account past the finalizer. */
  predicate UnderWay(w: World, k: Key) {
    k in w.accounts && !w.accounts[k].deleting && w.accounts[k].finalizer
  }

  /** The conditions the stages see: a pass over an empty list starts it. */
  function Started(cs: Conditions, at: nat): Conditions {
    if cs == [] then [Condition(Creating, true, at)] else cs
  }

  /** At most this account's status differs. */
  predicate OnlyStatus(w: World, k: Key, w': World, s': AccountStatus) {
    && w' == w.(tick := w'.tick, accounts := w'.accounts, past := w'.past)
    && k in w.accounts && k in w'.accounts && w'.accounts - {k} == w.accounts - {k}
    && w'.accounts[k] == w.accounts[k].(version := w'.accounts[k].version, status := s')
  }

  lemma StoringIsOnlyStatus(w: World, k: Key, s: AccountStatus, saw: Saw)
    requires k in w.accounts
    ensures OnlyStatus(w, k, Store(w, k, s, saw), s)
  {
  }

  /** The world in which the stages of the pass begin. */
  function Starting(w: World, k: Key): World
    requires k in w.accounts
  {
    var w0 := w.(past := w.past.(accountProviders := w.providers.Keys));
    var s := w.accounts[k].status;
    if s.conditions == [] then Store(w0, k, AccountChanged(s, Create, w.now), Nothing) else w0
  }

  lemma StartingIs(w: World, k: Key)
    requires UnderWay(w, k)
    ensures var w1 := Starting(w, k);
            && OnlyStatus(w, k, w1, w.accounts[k].status.(conditions := Started(w.accounts[k].status.conditions, w.now)))
            && Indexed(w1, k.name) == Indexed(w, k.name)
            && AccountPass(w, k) == if w.accounts[k].provider in w.providers then LiveStages(w1, k)
                                    else Store(w1, k, AccountChanged(w1.accounts[k].status, Change.Fail, w.now), Nothing)
  {
    var w0 := w.(past := w.past.(accountProviders := w.providers.Keys));
    StoringIsOnlyStatus(w0, k, AccountChanged(w.accounts[k].status, Create, w.now), Nothing);
  }

  /** With its provider missing the pass stores the error: phase Error, Error true, Ready
      there and false, the pending mark and all other conditions as before. */
  lemma MissingProviderIsReported(w: World, k: Key)
    requires UnderWay(w, k) && w.accounts[k].provider !in w.providers
    ensures var w' := AccountPass(w, k);
            && k in w'.accounts && OnlyStatus(w, k, w', w'.accounts[k].status)
            && AccountErred(Started(w.accounts[k].status.conditions, w.now), w.accounts[k].status, w'.accounts[k].status, w.now)
  {
    var w1 := Starting(w, k);
    StartingIs(w, k);
    StoringIsOnlyStatus(w1, k, AccountChanged(w1.accounts[k].status, Change.Fail, w.now), Nothing);
  }

  /** The finalizer first; nothing else changes. */
  lemma FinalizerIsAdded(w: World, k: Key)
    requires k in w.accounts && !w.accounts[k].deleting && !w.accounts[k].finalizer
    ensures var w' := AccountPass(w, k);
            && w' == w.(tick := w'.tick, accounts := w'.accounts, past := w'.past)
            && k in w'.accounts && w'.accounts - {k} == w.accounts - {k}
            && w'.accounts[k] == w.accounts[k].(version := w'.accounts[k].version, finalizer := true)
  {
  }

  /** The first pass over a deleted account only marks it. */
  lemma DeletionIsMarked(w: World, k: Key)
    requires k in w.accounts && w.accounts[k].deleting && !IsTrue(w.accounts[k].status.conditions, Deleting)
    ensures var w' := AccountPass(w, k);
            && k in w'.accounts && OnlyStatus(w, k, w', w'.accounts[k].status)
            && var s, s' := w.accounts[k].status, w'.accounts[k].status;
            && Outcomes.Recorded(s.conditions, s'.conditions, Deleting, w.now) && s'.phase == Phase(Deleting)
            && s'.secretName == s.secretName
  {
    var w0 := w.(past := w.past.(accountProviders := w.providers.Keys));
    StoringIsOnlyStatus(w0, k, AccountChanged(w.accounts[k].status, Erase, w.now), Nothing);
  }

  /** The MinIO servers with the account's user there. */
  function WithItsUser(w: World, k: Key): Minio
    requires k in w.accounts
  {
    w.minio.(users := w.minio.users + {At(w.accounts[k].provider, "bucket.s3.linka.cloud/" + k.name)})
  }

  lemma UserIsThere(w: World, k: Key)
    requires k in w.accounts
    ensures var u := UserOf(k, w.accounts[k].provider);
            && u == At(w.accounts[k].provider, "bucket.s3.linka.cloud/" + k.name)
            && (if u in w.minio.users then w else WithUser(w, k)) == w.(minio := WithItsUser(w, k))
  {
    var u := UserOf(k, w.accounts[k].provider);
    if u in w.minio.users {
      assert w.minio.users + {u} == w.minio.users;
    }
  }

  /** A missing credentials secret is made anew: the user's old keys go, a fresh one is
      its only key, and the secret holds it; the name is recorded and the pass ends. */
  lemma KeyIsMade(w: World, k: Key)
    requires UnderWay(w, k) && w.accounts[k].provider in w.providers && Key(k.ns, k.name + "-sa") !in w.secrets
    ensures var w', a := AccountPass(w, k), w.accounts[k];
            var user, secret := At(a.provider, "bucket.s3.linka.cloud/" + k.name), Key(k.ns, k.name + "-sa");
            && k in w'.accounts && w'.accounts - {k} == w.accounts - {k}
            && w'.accounts[k] == a.(version := w'.accounts[k].version,
                                    status := a.status.(conditions := Started(a.status.conditions, w.now),
                                                        secretName := Some(k.name + "-sa")))
            && secret in w'.secrets && w'.secrets - {secret} == w.secrets - {secret}
            && w'.secrets[secret].owners == [AccountRef(k.name, a.uid)]
            && w'.secrets[secret].data ==
               map["MINIO_ACCESS_KEY" := AccessKey(w.serial), "MINIO_SECRET_KEY" := SecretKey(w.serial)]
            && w'.minio == w.minio.(users := w.minio.users + {user}, keys := w'.minio.keys)
            && KeysOf(w'.minio, user) == {w.serial}
            && forall l: Live :: l != Live(a.provider, w.serial) ==>
                 (l in w'.minio.keys <==> l in w.minio.keys && !(l.provider == user.provider && w.minio.keys[l] == user.name))
                 && (l in w'.minio.keys ==> w'.minio.keys[l] == w.minio.keys[l])
  {
    var w1 := Starting(w, k);
    StartingIs(w, k);
    UserIsThere(w1, k);
    var w2 := w1.(minio := WithItsUser(w1, k));
    KeyIsSaved(w2, k);
  }

  lemma KeyIsSaved(w: World, k: Key)
    requires k in w.accounts
    ensures var w', a, user := WithKey(w, k), w.accounts[k], UserOf(k, w.accounts[k].provider);
            && w' == w.(tick := w'.tick, serial := w'.serial, accounts := w'.accounts, secrets := w'.secrets, past := w'.past,
                        minio := w.minio.(keys := w'.minio.keys))
            && k in w'.accounts && w'.accounts - {k} == w.accounts - {k}
            && w'.accounts[k] == a.(version := w'.accounts[k].version, status := a.status.(secretName := Some(SaKey(k).name)))
            && SaKey(k) in w'.secrets && w'.secrets - {SaKey(k)} == w.secrets - {SaKey(k)}
            && w'.secrets[SaKey(k)].(version := 0) == SaSecret(k, a.uid, w.serial)
            && w'.minio.keys == RemoveKeysOf(w.minio.keys, user)[Live(user.provider, w.serial) := user.name]
  {
    var w1 := PutSecret(WithNewKey(w, k), SaKey(k), SaSecret(k, w.accounts[k].uid, w.serial));
    StoringIsOnlyStatus(w1, k, w.accounts[k].status.(secretName := Some(SaKey(k).name)), Nothing);
  }

  /** The names of the policies an account's buckets call for. */
  function PolicyNamesOf(buckets: set<Key>): set<string> {
    set b | b in buckets :: "bucket.s3.linka.cloud/" + b.name
  }

  /** The user's policies are exactly its buckets', each holding its bucket's document;
      no other user and no other policy is touched. */
  ghost predicate PoliciesServed(m: Minio, m': Minio, user: Loc, buckets: set<Key>) {
    && m' == m.(policies := m'.policies, attached := m'.attached)
    && m'.attached == m.attached[user := PolicyNamesOf(buckets)]
    && (forall b :: b in buckets ==> At(user.provider, "bucket.s3.linka.cloud/" + b.name) in m'.policies &&
                                     m'.policies[At(user.provider, "bucket.s3.linka.cloud/" + b.name)] == PolicyOf(b.name))
    && (forall at :: (forall b :: b in buckets ==> at != At(user.provider, "bucket.s3.linka.cloud/" + b.name)) ==>
          (at in m'.policies <==> at in m.policies) && (at in m.policies ==> m'.policies[at] == m.policies[at]))
  }

  lemma PoliciesAreServed(w: World, k: Key, buckets: set<Key>)
    requires k in w.accounts
    ensures var w' := WithPolicies(w, k, buckets);
            && w' == w.(minio := w'.minio)
            && PoliciesServed(w.minio, w'.minio, UserOf(k, w.accounts[k].provider), buckets)
  {
    var p := w.accounts[k].provider;
    assert NamesOf(buckets) == PolicyNamesOf(buckets);
    forall b | b in buckets
      ensures At(p, Prefixed(b.name)) in PolicyLocs(p, buckets) && Unprefixed(Prefixed(b.name)) == b.name
    {
      assert Prefixed(b.name)[|PREFIX|..] == b.name;
    }
  }

  /** Pending right away, in a pass that has found no bucket: the mark is set, with the
      time of the sight, and the pass ends. */
  lemma PendingIsRecorded(w: World, k: Key)
    requires UnderWay(w, k) && w.accounts[k].provider in w.providers && SaKey(k) in w.secrets
    requires Indexed(w, k.name) == {} && !IsTrue(w.accounts[k].status.conditions, DeletionPending)
    ensures var w', s := AccountPass(w, k), w.accounts[k].status;
            && k in w'.accounts && w'.minio == WithItsUser(w, k)
            && OnlyStatus(w.(minio := WithItsUser(w, k)), k, w', w'.accounts[k].status)
            && var s' := w'.accounts[k].status;
            && Outcomes.Recorded(Started(s.conditions, w.now), s'.conditions, DeletionPending, w.now)
            && s'.phase == Phase(DeletionPending) && s'.secretName == s.secretName
  {
    var w1 := Starting(w, k);
    StartingIs(w, k);
    UserIsThere(w1, k);
    var w2 := w1.(minio := WithItsUser(w1, k));
    StoringIsOnlyStatus(w2, k, Pended(w2.accounts[k].status, Mark, NoBucket(w.now)), NoBucket(w.now));
    AccountProgress.SameIndexed(w1, w2, k.name);
  }

  /** Still pending: the status stays, and the user is left with no policy. */
  lemma PendingStays(w: World, k: Key)
    requires UnderWay(w, k) && w.accounts[k].provider in w.providers && SaKey(k) in w.secrets
    requires Indexed(w, k.name) == {} && IsTrue(w.accounts[k].status.conditions, DeletionPending)
    ensures var w', user := AccountPass(w, k), UserOf(k, w.accounts[k].provider);
            && w' == w.(minio := w'.minio, past := w'.past) && PoliciesServed(WithItsUser(w, k), w'.minio, user, {})
  {
    var w1 := Starting(w, k);
    StartingIs(w, k);
    UserIsThere(w1, k);
    var w2 := w1.(minio := WithItsUser(w1, k));
    AccountProgress.SameIndexed(w1, w2, k.name);
    PoliciesAreServed(w2, k, {});
  }

  /** The conditions without the pending mark. */
  ghost predicate WithoutMark(cs: Conditions, cs': Conditions) {
    if IsTrue(cs, DeletionPending) then Outcomes.Lifted(cs, cs', DeletionPending) else cs' == cs
  }

  /** Used: the mark goes, the user's policies are its buckets', and Ready is recorded
      if it was not; the phase follows Ready only. */
  lemma BucketsAreServed(w: World, k: Key)
    requires UnderWay(w, k) && w.accounts[k].provider in w.providers && SaKey(k) in w.secrets
    requires Indexed(w, k.name) != {}
    ensures var w', user := AccountPass(w, k), UserOf(k, w.accounts[k].provider);
            && k in w'.accounts && PoliciesServed(WithItsUser(w, k), w'.minio, user, Indexed(w, k.name))
            && OnlyStatus(w.(minio := w'.minio), k, w', w'.accounts[k].status)
            && var s, s' := w.accounts[k].status, w'.accounts[k].status;
            && s'.secretName == s.secretName
            && exists cs :: WithoutMark(Started(s.conditions, w.now), cs) &&
                 if IsTrue(cs, Ready) then s'.conditions == cs && s'.phase == s.phase
                 else Outcomes.ReadyRecorded(cs, s'.conditions, w.now) && s'.phase == Phase(Ready)
  {
    var w1 := Starting(w, k);
    StartingIs(w, k);
    UserIsThere(w1, k);
    var w2 := w1.(minio := WithItsUser(w1, k));
    AccountProgress.SameIndexed(w1, w2, k.name);
    MarkIsLifted(w2, k);
    var w3 := PendingStage(w2, k).0;
    PoliciesAreServed(w3, k, Indexed(w2, k.name));
    var w4 := WithPolicies(w3, k, Indexed(w2, k.name));
    ReadyIsRecorded(w4, k, Sight(w2, k));
  }

  lemma MarkIsLifted(w: World, k: Key)
    requires k in w.accounts && Indexed(w, k.name) != {}
    ensures var (w1, ok) := PendingStage(w, k);
            && ok && k in w1.accounts && OnlyStatus(w, k, w1, w1.accounts[k].status)
            && var s, s1 := w.accounts[k].status, w1.accounts[k].status;
            s1 == s.(conditions := s1.conditions) && WithoutMark(s.conditions, s1.conditions)
  {
    StoringIsOnlyStatus(w, k, Pended(w.accounts[k].status, Clear, SomeBucket(w.now)), SomeBucket(w.now));
  }

  lemma ReadyIsRecorded(w: World, k: Key, saw: Saw)
    requires k in w.accounts && !IsTrue(w.accounts[k].status.conditions, DeletionPending)
    ensures var w1 := ReadyStage(w, k, saw);
            && k in w1.accounts && OnlyStatus(w, k, w1, w1.accounts[k].status)
            && var s, s1 := w.accounts[k].status, w1.accounts[k].status;
            && s1.secretName == s.secretName
            && if IsTrue(s.conditions, Ready) then s1 == s
               else Outcomes.ReadyRecorded(s.conditions, s1.conditions, w.now) && s1.phase == Phase(Ready)
  {
    StoringIsOnlyStatus(w, k, AccountChanged(w.accounts[k].status, Succeed, w.now), saw);
  }

  // ---------------------------------------------------------------- over whole runs

  /** Whoever makes it, the write of a failure that takes effect lowers Ready and
      raises Error; a mark set or lifted before it in the same pass may go along. */
  lemma FailureWriteShows(act: Action, w: World)
    requires Enabled(act, w) && act.ByAccounts? && act.a.AStatus? && act.a.step.change == Change.Fail
    ensures var k, w' := act.a.key, Effect(act, w);
            && k in w.accounts && k in w'.accounts && w'.accounts - {k} == w.accounts - {k}
            && w'.accounts[k] == w.accounts[k].(version := w'.accounts[k].version, status := act.a.status)
            && var s, s' := w.accounts[k].status, act.a.status;
            && s'.phase == Phase(Error) && IsTrue(s'.conditions, Error)
            && Has(s'.conditions, Ready) && !IsTrue(s'.conditions, Ready)
            && Get(s'.conditions, Creating) == Get(s.conditions, Creating)
            && Get(s'.conditions, Deleting) == Get(s.conditions, Deleting)
            && (act.a.step.pending == Same ==> Get(s'.conditions, DeletionPending) == Get(s.conditions, DeletionPending))
  {
    AccountMoves(act, w, act.a.key);
    FailureStepShows(w.accounts[act.a.key].status, act.a.step);
    StatusWriteIsLocal(act.a, w);
  }

  lemma StatusWriteIsLocal(a: AAct, w: World)
    requires AGuard(a, w) && AAccepts(a, w) && a.AStatus?
    ensures var k, w' := a.key, AEffect(a, w);
            && k in w'.accounts && w'.accounts - {k} == w.accounts - {k}
            && w'.accounts[k] == w.accounts[k].(version := w'.accounts[k].version, status := a.status)
            && LegalAccountStep(w.accounts[k], a.step, a.status, w.now)
  {
  }

  lemma FailureStepShows(s: AccountStatus, step: AccountStep)
    requires step.change == Change.Fail
    ensures var s' := AccountStepped(s, step);
            && s'.phase == Phase(Error) && IsTrue(s'.conditions, Error)
            && Has(s'.conditions, Ready) && !IsTrue(s'.conditions, Ready)
            && Get(s'.conditions, Creating) == Get(s.conditions, Creating)
            && Get(s'.conditions, Deleting) == Get(s.conditions, Deleting)
            && (step.pending == Same ==> Get(s'.conditions, DeletionPending) == Get(s.conditions, DeletionPending))
  {
  }

  /** A success raises Ready and takes Creating and Error away. */
  ghost predicate Readies(cs: Conditions) {
    IsTrue(cs, Ready) && Get(cs, Creating) == None && Get(cs, Error) == None && !IsTrue(cs, DeletionPending)
  }

  /** Any other change raises Ready never, and no error beside it. */
  ghost predicate RaisesNothing(cs: Conditions, cs': Conditions) {
    (IsTrue(cs', Ready) ==> IsTrue(cs, Ready)) && (IsTrue(cs', Ready) && IsTrue(cs', Error) ==> IsTrue(cs, Error))
  }

  lemma ChangeMoves(s: AccountStatus, change: Change, at: nat)
    ensures change != Succeed ==> RaisesNothing(s.conditions, AccountChanged(s, change, at).conditions)
    ensures change == Succeed && !IsTrue(AccountChanged(s, change, at).conditions, DeletionPending) ==>
              Readies(AccountChanged(s, change, at).conditions)
  {
  }

  lemma PendedMoves(s: AccountStatus, pending: Pending, saw: Saw)
    ensures var s' := Pended(s, pending, saw);
            && IsTrue(s'.conditions, Ready) == IsTrue(s.conditions, Ready)
            && IsTrue(s'.conditions, Error) == IsTrue(s.conditions, Error)
  {
  }

  lemma StatusMoves(act: Action, w: World, k: Key)
    requires Enabled(act, w) && k in w.accounts && k in Effect(act, w).accounts
    ensures var s, s' := w.accounts[k].status, Effect(act, w).accounts[k].status;
            if IsAStatus(act, k) && act.a.step.change == Succeed then Readies(s'.conditions)
            else RaisesNothing(s.conditions, s'.conditions)
  {
    AccountMoves(act, w, k);
    var s := w.accounts[k].status;
    if IsAStatus(act, k) {
      var step := act.a.step;
      PendedMoves(s.(secretName := step.secretName), step.pending, step.saw);
      ChangeMoves(Pended(s.(secretName := step.secretName), step.pending, step.saw), step.change, step.at);
    } else if IsGMark(act, k) {
      ChangeMoves(s, Erase, act.g.time);
    }
  }

  lemma NewAccountIsBlank(act: Action, w: World, k: Key)
    requires Enabled(act, w) && k !in w.accounts && k in Effect(act, w).accounts
    ensures Effect(act, w).accounts[k].status.conditions == []
  {
    AccountMoves(act, w, k);
  }

  lemma SameObject(act: Action, w: World, k: Key)
    requires Enabled(act, w) && k in w.accounts && k in Effect(act, w).accounts
    ensures Effect(act, w).accounts[k].uid == w.accounts[k].uid
  {
    AccountMoves(act, w, k);
  }

  /** No stored account is ever Ready and in error at once. */
  lemma {:induction false} NeverReadyAndError(worlds: seq<World>, acts: seq<Action>, i: nat, k: Key)
    requires FullRun(worlds, acts) && i <= |acts| && k in worlds[i].accounts
    ensures var cs := worlds[i].accounts[k].status.conditions; !(IsTrue(cs, Ready) && IsTrue(cs, Error))
  {
    if i > 0 {
      StepAt(worlds, acts, i - 1);
      if k in worlds[i - 1].accounts {
        NeverReadyAndError(worlds, acts, i - 1, k);
        StatusMoves(acts[i - 1], worlds[i - 1], k);
      } else {
        NewAccountIsBlank(acts[i - 1], worlds[i - 1], k);
      }
    }
  }

  /** Ready is stored by a write of success only, to this very object, with Creating
      and Error gone. */
  lemma {:induction false} ReadyOnlyBySuccess(worlds: seq<World>, acts: seq<Action>, i: nat, k: Key) returns (n: nat)
    requires FullRun(worlds, acts) && i <= |acts|
    requires k in worlds[i].accounts && IsTrue(worlds[i].accounts[k].status.conditions, Ready)
    ensures n < i && IsAStatus(acts[n], k) && acts[n].a.step.change == Succeed
    ensures k in worlds[n + 1].accounts && worlds[n + 1].accounts[k].uid == worlds[i].accounts[k].uid
    ensures Readies(worlds[n + 1].accounts[k].status.conditions)
  {
    StepAt(worlds, acts, i - 1);
    if k !in worlds[i - 1].accounts {
      NewAccountIsBlank(acts[i - 1], worlds[i - 1], k);
    }
    StatusMoves(acts[i - 1], worlds[i - 1], k);
    SameObject(acts[i - 1], worlds[i - 1], k);
    if IsAStatus(acts[i - 1], k) && acts[i - 1].a.step.change == Succeed {
      n := i - 1;
    } else {
      n := ReadyOnlyBySuccess(worlds, acts, i - 1, k);
    }
  }
}
