/** Every undisturbed account pass either changes nothing that is stored or meets
    a milestone it had not met before. */
module AccountProgress {
  import opened Wrappers
  import opened Owners
  import opened Conditions
  import opened Worlds
  import opened Actions
  import opened AccountPasses
  import opened Settled

  function Unmet(met: bool): nat {
    if met then 0 else 1
  }

  /** Exactly the listed buckets' policies, with their documents, are in place. */
  predicate PoliciesSet(m: Minio, user: Loc, buckets: set<Key>) {
    && user in m.attached && m.attached[user] == NamesOf(buckets)
    && m.policies + Documents(user.provider, buckets) == m.policies
  }

  predicate PendingRight(w: World, a: Key)
    requires a in w.accounts
  {
    IsTrue(w.accounts[a].status.conditions, DeletionPending) <==> Indexed(w, a.name) == {}
  }

  predicate ReadyOrPending(s: AccountStatus) {
    IsTrue(s.conditions, Ready) || IsTrue(s.conditions, DeletionPending)
  }

  /** The milestones a live account still has to meet before it needs its policies. */
  function EarlyUnmet(w: World, a: Key): (n: nat)
    requires a in w.accounts
    ensures n <= 4
  {
    var user := UserOf(a, w.accounts[a].provider);
    Unmet(w.accounts[a].finalizer) + Unmet(w.accounts[a].status.conditions != []) +
    Unmet(user in w.minio.users) + Unmet(SaKey(a) in w.secrets)
  }

  function LateUnmet(w: World, a: Key): (n: nat)
    requires a in w.accounts
    ensures n <= 3
  {
    var user := UserOf(a, w.accounts[a].provider);
    Unmet(PendingRight(w, a)) + Unmet(PoliciesSet(w.minio, user, Indexed(w, a.name))) +
    Unmet(ReadyOrPending(w.accounts[a].status))
  }

  function AccountUnmet(w: World, a: Key): (n: nat)
    ensures n <= 7
  {
    if a in w.accounts then EarlyUnmet(w, a) + LateUnmet(w, a) else 7
  }

  /** What an account pass leaves alone. */
  ghost predicate OnlyThisAccount(w: World, a: Key, w': World) {
    && w' == w.(tick := w'.tick, serial := w'.serial, accounts := w'.accounts, secrets := w'.secrets,
                minio := w'.minio, past := w'.past)
    && w'.minio.buckets == w.minio.buckets && w.minio.users <= w'.minio.users
    && a in w.accounts && a in w'.accounts && w'.accounts - {a} == w.accounts - {a}
    && w'.accounts[a].uid == w.accounts[a].uid && w'.accounts[a].provider == w.accounts[a].provider
    && w'.accounts[a].deleting == w.accounts[a].deleting
    && (w.accounts[a].finalizer ==> w'.accounts[a].finalizer)
    && w'.secrets - {SaKey(a)} == w.secrets - {SaKey(a)}
    && (SaKey(a) in w.secrets ==> SaKey(a) in w'.secrets && w'.secrets[SaKey(a)] == w.secrets[SaKey(a)])
  }

  lemma OnlyThisTransitive(w: World, w1: World, w2: World, a: Key)
    requires OnlyThisAccount(w, a, w1) && OnlyThisAccount(w1, a, w2)
    ensures OnlyThisAccount(w, a, w2)
  {
  }

  lemma SameIndexed(w: World, w': World, account: string)
    requires w.buckets == w'.buckets
    ensures Indexed(w, account) == Indexed(w', account)
  {
  }

  /** One more milestone met, none lost, or nothing changed. */
  ghost predicate Gains(w: World, a: Key, w': World) {
    && OnlyThisAccount(w, a, w')
    && (SameContent(w, w') || AccountUnmet(w', a) < AccountUnmet(w, a))
  }

  lemma SameContentSameUnmet(w: World, w': World, a: Key)
    requires SameContent(w, w')
    ensures AccountUnmet(w, a) == AccountUnmet(w', a)
  {
    SameIndexed(w, w', a.name);
  }

  lemma GainsTransitive(w: World, w1: World, w2: World, a: Key)
    requires Gains(w, a, w1) && Gains(w1, a, w2)
    ensures Gains(w, a, w2)
  {
    OnlyThisTransitive(w, w1, w2, a);
    if SameContent(w, w1) {
      SameContentSameUnmet(w, w1, a);
    }
    if SameContent(w1, w2) {
      SameContentSameUnmet(w1, w2, a);
    }
  }

  // ---------------------------------------------------------------- the early stages

  lemma FinalizedGains(w: World, a: Key)
    requires a in w.accounts && !w.accounts[a].finalizer
    ensures Gains(w, a, Finalized(w, a))
  {
    SameIndexed(w, Finalized(w, a), a.name);
  }

  lemma CreatedGains(w: World, a: Key)
    requires a in w.accounts && w.accounts[a].status.conditions == []
    ensures Gains(w, a, Store(w, a, AccountChanged(w.accounts[a].status, Create, w.now), Nothing))
  {
    var w' := Store(w, a, AccountChanged(w.accounts[a].status, Create, w.now), Nothing);
    SameIndexed(w, w', a.name);
  }

  lemma UserGains(w: World, a: Key)
    requires a in w.accounts && UserOf(a, w.accounts[a].provider) !in w.minio.users
    ensures Gains(w, a, WithUser(w, a))
  {
    SameIndexed(w, WithUser(w, a), a.name);
  }

  /** What a new key and its secret change. */
  predicate OnlyKey(w: World, a: Key, w': World) {
    && w' == w.(tick := w'.tick, serial := w'.serial, accounts := w'.accounts, secrets := w'.secrets, past := w'.past,
                minio := w.minio.(keys := w'.minio.keys))
    && a in w.accounts && a in w'.accounts && w'.accounts - {a} == w.accounts - {a}
    && w'.accounts[a] == w.accounts[a].(version := w'.accounts[a].version,
                                        status := w.accounts[a].status.(secretName := w'.accounts[a].status.secretName))
    && SaKey(a) in w'.secrets && w'.secrets - {SaKey(a)} == w.secrets - {SaKey(a)}
  }

  lemma SavedKeyShape(w: World, a: Key, serial: nat)
    requires a in w.accounts
    ensures OnlyKey(w, a, WithSavedKey(w, a, serial))
  {
  }

  lemma KeyGains(w: World, a: Key)
    requires a in w.accounts && SaKey(a) !in w.secrets
    ensures Gains(w, a, WithKey(w, a))
  {
    SavedKeyShape(WithNewKey(w, a), a, w.serial);
    KeyGainsFrom(w, a, WithKey(w, a));
  }

  lemma KeyGainsFrom(w: World, a: Key, w': World)
    requires SaKey(a) !in w.secrets && OnlyKey(w, a, w')
    ensures Gains(w, a, w')
  {
    SameIndexed(w, w', a.name);
  }

  // ---------------------------------------------------------------- the late stages

  lemma WrittenTwice(p: map<Loc, Document>, d: map<Loc, Document>)
    ensures (p + d) + d == p + d
  {
  }

  /** Writing the policies meets their milestone, and changes nothing when it is met. */
  lemma PoliciesGain(w: World, a: Key)
    requires a in w.accounts
    ensures var w' := WithPolicies(w, a, Indexed(w, a.name));
            && Gains(w, a, w')
            && PoliciesSet(w'.minio, UserOf(a, w.accounts[a].provider), Indexed(w, a.name))
            && w' == w.(minio := w'.minio)
  {
    var user := UserOf(a, w.accounts[a].provider);
    var listed := Indexed(w, a.name);
    var w' := WithPolicies(w, a, listed);
    WrittenTwice(w.minio.policies, Documents(user.provider, listed));
    SameIndexed(w, w', a.name);
    if PoliciesSet(w.minio, user, listed) {
      assert w.minio.attached[user := NamesOf(listed)] == w.minio.attached;
      assert w' == w;
    }
  }

  /** At most the account's status differs. */
  predicate OnlyStatus(w: World, a: Key, w': World) {
    && w' == w.(tick := w'.tick, accounts := w'.accounts, past := w'.past)
    && a in w.accounts && a in w'.accounts && w'.accounts - {a} == w.accounts - {a}
    && w'.accounts[a] == w.accounts[a].(version := w'.accounts[a].version, status := w'.accounts[a].status)
  }

  lemma StoreIsOnlyStatus(w: World, a: Key, status: AccountStatus, saw: Saw)
    requires a in w.accounts
    ensures OnlyStatus(w, a, Store(w, a, status, saw)) && Store(w, a, status, saw).accounts[a].status == status
  {
  }

  lemma SucceedReadies(s: AccountStatus, at: nat)
    ensures var s' := AccountChanged(s, Succeed, at);
            IsTrue(s'.conditions, Ready) && s'.conditions != [] &&
            (IsTrue(s'.conditions, DeletionPending) <==> IsTrue(s.conditions, DeletionPending))
  {
  }

  lemma ReadyGains(w: World, a: Key, saw: Saw)
    requires a in w.accounts
    ensures var w' := ReadyStage(w, a, saw);
            && Gains(w, a, w') && ReadyOrPending(w'.accounts[a].status)
            && w'.minio == w.minio && w'.buckets == w.buckets
            && (PendingRight(w, a) ==> PendingRight(w', a))
            && w'.accounts[a].provider == w.accounts[a].provider
  {
    var s := w.accounts[a].status;
    StoreIsOnlyStatus(w, a, AccountChanged(s, Succeed, w.now), saw);
    SucceedReadies(s, w.now);
    SameIndexed(w, ReadyStage(w, a, saw), a.name);
    ReadyGainsFrom(w, a, ReadyStage(w, a, saw));
  }

  lemma ReadyGainsFrom(w: World, a: Key, w': World)
    requires OnlyStatus(w, a, w') && (ReadyOrPending(w.accounts[a].status) ==> w' == w)
    requires !ReadyOrPending(w.accounts[a].status) ==>
               ReadyOrPending(w'.accounts[a].status) && w'.accounts[a].status.conditions != [] &&
               (IsTrue(w'.accounts[a].status.conditions, DeletionPending) <==>
                IsTrue(w.accounts[a].status.conditions, DeletionPending))
    ensures Gains(w, a, w')
  {
    SameIndexed(w, w', a.name);
  }

  /** What setting or lifting the mark does to a status. */
  lemma PendedMarks(s: AccountStatus, saw: Saw)
    ensures IsTrue(Pended(s, Mark, saw).conditions, DeletionPending)
    ensures !IsTrue(Pended(s, Clear, saw).conditions, DeletionPending)
  {
  }

  /** A mark that is set gains; one that is lifted has the rest of the pass to make up for it. */
  lemma PendingGains(w: World, a: Key)
    requires a in w.accounts && SaKey(a) in w.secrets
    ensures var w1 := PendingStage(w, a).0;
            && OnlyStatus(w, a, w1) && OnlyThisAccount(w, a, w1) && PendingRight(w1, a)
            && (PendingRight(w, a) ==> w1 == w)
            && (!PendingStage(w, a).1 ==> !PendingRight(w, a) && ReadyOrPending(w1.accounts[a].status))
  {
    var s := w.accounts[a].status;
    var none, some := NoBucket(w.now), SomeBucket(w.now);
    StoreIsOnlyStatus(w, a, Pended(s, Mark, none), none);
    StoreIsOnlyStatus(w, a, Pended(s, Clear, some), some);
    PendedMarks(s, none);
    PendedMarks(s, some);
    SameIndexed(w, PendingStage(w, a).0, a.name);
    assert OnlyStatus(w, a, PendingStage(w, a).0);
  }

  lemma LateGains(w: World, a: Key)
    requires a in w.accounts && SaKey(a) in w.secrets
    ensures Gains(w, a, LateStages(w, a))
  {
    PendingGains(w, a);
    var (w1, ok) := PendingStage(w, a);
    SameIndexed(w, w1, a.name);
    if ok {
      PoliciesGain(w1, a);
      var w2 := WithPolicies(w1, a, Indexed(w1, a.name));
      ReadyGains(w2, a, Sight(w, a));
      GainsTransitive(w1, w2, ReadyStage(w2, a, Sight(w, a)), a);
      if !PendingRight(w, a) {
        AllLateMet(w, w1, w2, a, ReadyStage(w2, a, Sight(w, a)));
      }
    } else {
      EarlyKept(w, a, w1);
    }
  }

  lemma AllLateMet(w: World, w1: World, w2: World, a: Key, w': World)
    requires OnlyThisAccount(w, a, w1) && Gains(w1, a, w2) && Gains(w2, a, w')
    requires !PendingRight(w, a) && PendingRight(w1, a)
    requires w2 == w1.(minio := w2.minio) && w'.minio == w2.minio && w'.buckets == w2.buckets
    requires PoliciesSet(w2.minio, UserOf(a, w1.accounts[a].provider), Indexed(w1, a.name))
    requires ReadyOrPending(w'.accounts[a].status) && (PendingRight(w2, a) ==> PendingRight(w', a))
    ensures Gains(w, a, w')
  {
    OnlyThisTransitive(w, w1, w2, a);
    OnlyThisTransitive(w, w2, w', a);
    SameIndexed(w1, w2, a.name);
    SameIndexed(w1, w', a.name);
    assert LateUnmet(w', a) == 0;
    EarlyKept(w, a, w');
  }

  lemma EarlyKept(w: World, a: Key, w': World)
    requires OnlyThisAccount(w, a, w') && ReadyOrPending(w'.accounts[a].status)
    ensures EarlyUnmet(w', a) <= EarlyUnmet(w, a)
  {
  }

  lemma LiveStagesGain(w: World, a: Key)
    requires a in w.accounts
    ensures Gains(w, a, LiveStages(w, a))
  {
    var w1 := if UserOf(a, w.accounts[a].provider) in w.minio.users then w else WithUser(w, a);
    if w1 != w {
      UserGains(w, a);
    }
    if SaKey(a) !in w1.secrets {
      KeyGains(w1, a);
      GainsTransitive(w, w1, WithKey(w1, a), a);
    } else {
      LateGains(w1, a);
      GainsTransitive(w, w1, LateStages(w1, a), a);
    }
  }

  /** Every pass over a live account gains, or changes nothing. */
  lemma AccountPassGains(w: World, a: Key)
    requires a in w.accounts && !w.accounts[a].deleting && w.accounts[a].provider in w.providers
    ensures Gains(w, a, AccountPass(w, a))
  {
    var w0 := w.(past := w.past.(accountProviders := w.providers.Keys));
    assert SameContent(w, w0);
    if !w0.accounts[a].finalizer {
      FinalizedGains(w0, a);
    } else {
      var s := w0.accounts[a].status;
      if s.conditions == [] {
        CreatedGains(w0, a);
        var w1 := Store(w0, a, AccountChanged(s, Create, w0.now), Nothing);
        LiveStagesGain(w1, a);
        GainsTransitive(w0, w1, LiveStages(w1, a), a);
      } else {
        LiveStagesGain(w0, a);
      }
    }
    GainsTransitive(w, w0, AccountPass(w, a), a);
  }

  // ---------------------------------------------------------------- when nothing changes any more

  lemma LateStagesMeet(w: World, a: Key)
    requires a in w.accounts && SaKey(a) in w.secrets
    ensures var w' := LateStages(w, a);
            && a in w'.accounts && PendingRight(w', a) && ReadyOrPending(w'.accounts[a].status)
            && (PendingRight(w, a) ==>
                  PoliciesSet(w'.minio, UserOf(a, w'.accounts[a].provider), Indexed(w', a.name)))
  {
    PendingGains(w, a);
    var (w1, ok) := PendingStage(w, a);
    SameIndexed(w, w1, a.name);
    if ok {
      PoliciesGain(w1, a);
      var w2 := WithPolicies(w1, a, Indexed(w1, a.name));
      SameIndexed(w1, w2, a.name);
      ReadyGains(w2, a, Sight(w, a));
      SameIndexed(w2, ReadyStage(w2, a, Sight(w, a)), a.name);
    }
  }

  /** A pass that changes nothing has nothing left to do. */
  lemma UnchangedAccountIsDone(w: World, a: Key)
    requires a in w.accounts && !w.accounts[a].deleting && w.accounts[a].provider in w.providers
    requires SameContent(w, AccountPass(w, a))
    ensures AccountUnmet(w, a) == 0
  {
    var w0 := w.(past := w.past.(accountProviders := w.providers.Keys));
    var w' := AccountPass(w, a);
    if w0.accounts[a].finalizer {
      var s := w0.accounts[a].status;
      var w1 := if s.conditions == [] then Store(w0, a, AccountChanged(s, Create, w0.now), Nothing) else w0;
      LiveStagesMeet(w1, a);
      SameIndexed(w, w', a.name);
      SameIndexed(w, w1, a.name);
    }
  }

  lemma LiveStagesMeet(w: World, a: Key)
    requires a in w.accounts
    ensures var w' := LiveStages(w, a);
            && a in w'.accounts && UserOf(a, w'.accounts[a].provider) in w'.minio.users && SaKey(a) in w'.secrets
            && (SaKey(a) in w.secrets ==> PendingRight(w', a) && ReadyOrPending(w'.accounts[a].status))
            && (SaKey(a) in w.secrets && PendingRight(w, a) ==>
                  PoliciesSet(w'.minio, UserOf(a, w'.accounts[a].provider), Indexed(w', a.name)))
  {
    LiveStagesGain(w, a);
    var w1 := if UserOf(a, w.accounts[a].provider) in w.minio.users then w else WithUser(w, a);
    SameIndexed(w, w1, a.name);
    if SaKey(a) in w.secrets {
      LateStagesMeet(w1, a);
      LateGains(w1, a);
    }
  }
}
