/** When the collector marks accounts, over whole runs, and when it never will. */
module GracePeriod {
  import opened Wrappers
  import opened Conditions
  import opened Worlds
  import opened Actions
  import opened Invariants
  import opened Safety
  import opened PassFacts

  // ---------------------------------------------------------------- sights

  /** The step stores a status that rests on a sight of the bucket list. */
  predicate StoresSight(act: Action, w: World, uid: nat) {
    && act.ByAccounts? && act.a.AStatus? && act.a.key in w.accounts && w.accounts[act.a.key].uid == uid
    && act.a.step.saw != Nothing
  }

  /** The sights stored for an account by the first i steps. */
  function Sights(worlds: seq<World>, acts: seq<Action>, uid: nat, i: nat): seq<Saw>
    requires i <= |acts| && |worlds| == |acts| + 1
  {
    if i == 0 then []
    else if StoresSight(acts[i - 1], worlds[i - 1], uid) then
      Sights(worlds, acts, uid, i - 1) + [acts[i - 1].a.step.saw]
    else Sights(worlds, acts, uid, i - 1)
  }

  lemma {:induction false} SeenIsSights(worlds: seq<World>, acts: seq<Action>, uid: nat, i: nat)
    requires FullRun(worlds, acts) && i <= |acts|
    ensures SeenBy(worlds[i].past, uid) == Sights(worlds, acts, uid, i)
  {
    if i > 0 {
      SeenIsSights(worlds, acts, uid, i - 1);
      StepAt(worlds, acts, i - 1);
      SeenMoves(acts[i - 1], worlds[i - 1]);
    }
  }

  /** Every recorded sight was stored by some step. */
  lemma {:induction false} SightWasStored(worlds: seq<World>, acts: seq<Action>, uid: nat, i: nat, x: nat) returns (n: nat)
    requires |worlds| == |acts| + 1 && i <= |acts| && x < |Sights(worlds, acts, uid, i)|
    ensures n < i && StoresSight(acts[n], worlds[n], uid) && |Sights(worlds, acts, uid, n)| == x
    ensures acts[n].a.step.saw == Sights(worlds, acts, uid, i)[x]
  {
    if x < |Sights(worlds, acts, uid, i - 1)| {
      n := SightWasStored(worlds, acts, uid, i - 1, x);
    } else {
      n := i - 1;
    }
  }

  lemma {:induction false} SightIsRecorded(worlds: seq<World>, acts: seq<Action>, uid: nat, m: nat, i: nat)
    requires |worlds| == |acts| + 1 && m < i <= |acts| && StoresSight(acts[m], worlds[m], uid)
    ensures |Sights(worlds, acts, uid, m)| < |Sights(worlds, acts, uid, i)|
    ensures Sights(worlds, acts, uid, i)[|Sights(worlds, acts, uid, m)|] == acts[m].a.step.saw
  {
    if m + 1 < i {
      SightIsRecorded(worlds, acts, uid, m, i - 1);
    }
  }

  lemma {:induction false} SightsGrow(worlds: seq<World>, acts: seq<Action>, uid: nat, m: nat, i: nat)
    requires |worlds| == |acts| + 1 && m <= i <= |acts|
    ensures |Sights(worlds, acts, uid, m)| <= |Sights(worlds, acts, uid, i)|
  {
    if m < i {
      SightsGrow(worlds, acts, uid, m, i - 1);
    }
  }

  /** A selected account that does not carry the Deleting condition is pending,
      and has been so for the whole grace period. */
  lemma SelectedIsPending(a: Account, seen: seq<Saw>, time: nat)
    requires Pends(a, seen) && Selected(a.status.conditions, TTL, time) && !IsTrue(a.status.conditions, Deleting)
    ensures Has(a.status.conditions, DeletionPending)
    ensures var since := Get(a.status.conditions, DeletionPending).value.since;
            since + TTL <= time && MarkedBy(seen, since)
  {
    var cs := a.status.conditions;
    MemberIsFound(cs, cs[|cs| - 1]);
  }

  /** An account that nobody is deleting is selected exactly when the pending mark is its
      last condition and at least a minute old. */
  lemma SelectedExactly(cs: Conditions, now: nat)
    requires Unique(cs) && !Has(cs, Deleting)
    ensures Selected(cs, TTL, now) <==>
            cs != [] && cs[|cs| - 1].kind == DeletionPending && cs[|cs| - 1].since + 60 <= now
  {
    AbsentFromList(cs, Deleting);
    if cs != [] {
      assert forall i :: 0 <= i < |cs| ==> cs[i] in cs;
    }
  }

  // ---------------------------------------------------------------- one key per uid

  lemma {:induction false} UidKeepsKey(worlds: seq<World>, acts: seq<Action>, n: nat, i: nat, k: Key, uid: nat)
    requires FullRun(worlds, acts) && n <= i <= |acts| && k in worlds[n].accounts && worlds[n].accounts[k].uid == uid
    ensures uid < worlds[i].nextUid
    ensures forall j :: j in worlds[i].accounts && worlds[i].accounts[j].uid == uid ==> j == k
  {
    if n == i {
      Reachable(worlds, acts, n);
    } else {
      UidKeepsKey(worlds, acts, n, i - 1, k, uid);
      StepAt(worlds, acts, i - 1);
      CountersGrow(acts[i - 1], worlds[i - 1]);
      forall j | j in worlds[i].accounts && worlds[i].accounts[j].uid == uid
        ensures j == k
      {
        AccountMoves(acts[i - 1], worlds[i - 1], j);
      }
    }
  }

  // ---------------------------------------------------------------- the grace period

  /** The step stores a status of this account, and its pass had last listed this. */
  ghost predicate StoresAfterListing(worlds: seq<World>, acts: seq<Action>, l: nat, n: nat, k: Key)
    requires n < |acts| && |worlds| == |acts| + 1
  {
    && IsAStatus(acts[n], k) && k in worlds[n].accounts && l < n
    && LastListing(worlds, acts, l, n, Listing(k, Indexed(worlds[l], k.name), worlds[l].now))
  }

  /** A stored sight is what the pass had last listed, in a world of the run. */
  lemma SightIsListing(worlds: seq<World>, acts: seq<Action>, n: nat, uid: nat) returns (l: nat)
    requires FullRun(worlds, acts) && n < |acts| && StoresSight(acts[n], worlds[n], uid)
    ensures l < n && StoresAfterListing(worlds, acts, l, n, acts[n].a.key)
    ensures var saw := acts[n].a.step.saw;
            && saw.at == worlds[l].now
            && (saw.NoBucket? <==> Indexed(worlds[l], acts[n].a.key.name) == {})
  {
    StepAt(worlds, acts, n);
    l := ListedMeans(worlds, acts, n);
  }

  /** And nothing else: whoever has listed stores what the listing showed. */
  lemma ListingIsSight(worlds: seq<World>, acts: seq<Action>, l: nat, n: nat, k: Key)
    requires Run(worlds, acts) && n < |acts| && StoresAfterListing(worlds, acts, l, n, k)
    ensures acts[n].a.step.saw == if Indexed(worlds[l], k.name) == {} then NoBucket(worlds[l].now) else SomeBucket(worlds[l].now)
  {
    StepAt(worlds, acts, n);
    ListingKept(worlds, acts, l, n, Listing(k, Indexed(worlds[l], k.name), worlds[l].now));
  }

  /** The collector newly marks an account only if, at least the grace period
      earlier, a pass listed its buckets and no bucket was indexed under it, and that
      pass stored its status; and every status stored since by a pass that had listed
      rests on a listing that found no bucket either. */
  lemma MarkedAfterGrace(worlds: seq<World>, acts: seq<Action>, i: nat, k: Key) returns (l: nat, n: nat)
    requires FullRun(worlds, acts) && i < |acts| && IsGMark(acts[i], k)
    ensures k in worlds[i].accounts && l < n < i && StoresAfterListing(worlds, acts, l, n, k)
    ensures worlds[n].accounts[k].uid == worlds[i].accounts[k].uid
    ensures Indexed(worlds[l], k.name) == {}
    ensures worlds[l].now + 60 <= acts[i].g.time <= worlds[i].now
    ensures forall l': nat, n': nat :: n < n' < i && StoresAfterListing(worlds, acts, l', n', k) ==>
              Indexed(worlds[l'], k.name) == {}
  {
    n := MarkedAfterSight(worlds, acts, i, k);
    var uid := worlds[i].accounts[k].uid;
    l := SightIsListing(worlds, acts, n, uid);
    UidKeepsKey(worlds, acts, n, i, acts[n].a.key, uid);
    forall l': nat, n': nat | n < n' < i && StoresAfterListing(worlds, acts, l', n', k)
      ensures Indexed(worlds[l'], k.name) == {}
    {
      LaterListing(worlds, acts, n, i, k, l', n');
    }
  }

  lemma LaterListing(worlds: seq<World>, acts: seq<Action>, n: nat, i: nat, k: Key, l': nat, n': nat)
    requires FullRun(worlds, acts) && n < n' < i < |acts| && k in worlds[n].accounts && k in worlds[i].accounts
    requires worlds[n].accounts[k].uid == worlds[i].accounts[k].uid
    requires StoresAfterListing(worlds, acts, l', n', k)
    requires forall m :: n < m < i && StoresSight(acts[m], worlds[m], worlds[i].accounts[k].uid) ==>
               !acts[m].a.step.saw.SomeBucket?
    ensures Indexed(worlds[l'], k.name) == {}
  {
    ListingIsSight(worlds, acts, l', n', k);
    OneUidBetween(worlds, acts, n, n', i, k);
    assert StoresSight(acts[n'], worlds[n'], worlds[i].accounts[k].uid);
  }

  /** Between two states with the same object under a key, it is there all along. */
  lemma OneUidBetween(worlds: seq<World>, acts: seq<Action>, n: nat, m: nat, i: nat, k: Key)
    requires FullRun(worlds, acts) && n <= m <= i <= |acts| && k in worlds[n].accounts && k in worlds[i].accounts
    requires worlds[n].accounts[k].uid == worlds[i].accounts[k].uid && k in worlds[m].accounts
    ensures worlds[m].accounts[k].uid == worlds[n].accounts[k].uid
  {
    UidNeverReturns(worlds, acts, n, m, k);
    UidNeverReturns(worlds, acts, m, i, k);
  }

  lemma UidMoves(act: Action, w: World, k: Key, w': World)
    requires Enabled(act, w) && w' == Effect(act, w) && k in w'.accounts
    ensures w'.accounts[k].uid == if k in w.accounts then w.accounts[k].uid else w.nextUid
  {
    AccountMoves(act, w, k);
  }

  /** Later objects have later uids. */
  lemma {:induction false} UidNeverReturns(worlds: seq<World>, acts: seq<Action>, n: nat, i: nat, k: Key)
    requires FullRun(worlds, acts) && n <= i <= |acts| && k in worlds[n].accounts && k in worlds[i].accounts
    ensures worlds[n].accounts[k].uid <= worlds[i].accounts[k].uid
  {
    if n < i {
      StepAt(worlds, acts, i - 1);
      UidMoves(acts[i - 1], worlds[i - 1], k, worlds[i]);
      if k in worlds[i - 1].accounts {
        UidNeverReturns(worlds, acts, n, i - 1, k);
      } else {
        UidKeepsKey(worlds, acts, n, i - 1, k, worlds[n].accounts[k].uid);
      }
    }
  }

  /** The same in terms of the sights that the stored statuses carry. */
  lemma MarkedAfterSight(worlds: seq<World>, acts: seq<Action>, i: nat, k: Key) returns (n: nat)
    requires FullRun(worlds, acts) && i < |acts| && IsGMark(acts[i], k)
    ensures k in worlds[i].accounts && n < i
    ensures var uid := worlds[i].accounts[k].uid;
            && StoresSight(acts[n], worlds[n], uid) && acts[n].a.step.saw.NoBucket?
            && acts[n].a.step.saw.at + TTL <= acts[i].g.time <= worlds[i].now
            && forall m :: n < m < i && StoresSight(acts[m], worlds[m], uid) ==> !acts[m].a.step.saw.SomeBucket?
  {
    Reachable(worlds, acts, i);
    StepAt(worlds, acts, i);
    var a := worlds[i].accounts[k];
    var seen := SeenBy(worlds[i].past, a.uid);
    SelectedIsPending(a, seen, acts[i].g.time);
    SeenIsSights(worlds, acts, a.uid, i);
    n := LastSightOfNothing(worlds, acts, a.uid, i, Get(a.status.conditions, DeletionPending).value.since);
  }

  lemma LastSightOfNothing(worlds: seq<World>, acts: seq<Action>, uid: nat, i: nat, since: nat) returns (n: nat)
    requires |worlds| == |acts| + 1 && i <= |acts| && MarkedBy(Sights(worlds, acts, uid, i), since)
    ensures n < i && StoresSight(acts[n], worlds[n], uid) && acts[n].a.step.saw == NoBucket(since)
    ensures forall m :: n < m < i && StoresSight(acts[m], worlds[m], uid) ==> !acts[m].a.step.saw.SomeBucket?
  {
    var seen := Sights(worlds, acts, uid, i);
    var x :| 0 <= x < |seen| && seen[x] == NoBucket(since) && forall j :: x < j < |seen| ==> !seen[j].SomeBucket?;
    n := SightWasStored(worlds, acts, uid, i, x);
    forall m | n < m < i && StoresSight(acts[m], worlds[m], uid)
      ensures !acts[m].a.step.saw.SomeBucket?
    {
      SightIsRecorded(worlds, acts, uid, m, i);
      SightsGrow(worlds, acts, uid, n + 1, m);
    }
  }

  // ---------------------------------------------------------------- accounts the collector overlooks

  /** Pending, but with a condition of another kind at the end of the list. */
  ghost predicate OverlookedList(cs: Conditions) {
    && Unique(cs) && IsTrue(cs, DeletionPending) && !Has(cs, Deleting)
    && !Watched(cs[|cs| - 1].kind)
  }

  ghost predicate Overlooked(a: Account) {
    !a.deleting && OverlookedList(a.status.conditions)
  }

  /** Such an account is not selected, however long it has been pending. */
  lemma OverlookedIsNotSelected(a: Account, ttl: nat, now: nat)
    requires Overlooked(a)
    ensures !Selected(a.status.conditions, ttl, now)
  {
  }

  lemma {:induction false} SetKeepsLast(cs: Conditions, kind: Kind, status: bool, at: nat)
    requires cs != [] && !Watched(kind) && !Watched(cs[|cs| - 1].kind)
    ensures var r := Set(cs, kind, status, at); r != [] && !Watched(r[|r| - 1].kind)
  {
    if cs[0].kind != kind && |cs| > 1 {
      SetKeepsLast(cs[1..], kind, status, at);
    }
  }

  /** A failure recorded for the first time hides a pending account from the collector. */
  lemma FirstFailureHides(a: Account, at: nat)
    requires !a.deleting && Unique(a.status.conditions) && IsTrue(a.status.conditions, DeletionPending)
    requires !Has(a.status.conditions, Deleting) && !Has(a.status.conditions, Error)
    ensures Overlooked(a.(status := AccountChanged(a.status, Fail, at)))
  {
    var cs := a.status.conditions;
    SetKeepsUnique(cs, Ready, false, at);
    SetKeepsUnique(Set(cs, Ready, false, at), Error, true, at);
    SetAppends(Set(cs, Ready, false, at), Error, true, at);
  }

  lemma SetKeepsOverlooked(cs: Conditions, kind: Kind, status: bool, at: nat)
    requires OverlookedList(cs) && !Watched(kind)
    ensures OverlookedList(Set(cs, kind, status, at))
  {
    SetKeepsUnique(cs, kind, status, at);
    SetKeepsLast(cs, kind, status, at);
  }

  lemma ChangeKeepsOverlooked(s: AccountStatus, change: Change, at: nat)
    requires OverlookedList(s.conditions) && change != Succeed && change != Erase
    ensures OverlookedList(AccountChanged(s, change, at).conditions)
  {
    if change == Create {
      SetKeepsOverlooked(s.conditions, Creating, true, at);
    } else if change == Change.Fail {
      SetKeepsOverlooked(s.conditions, Ready, false, at);
      SetKeepsOverlooked(Set(s.conditions, Ready, false, at), Error, true, at);
    }
  }

  lemma StatusKeepsOverlooked(a: Account, step: AccountStep, status: AccountStatus, now: nat)
    requires Overlooked(a) && LegalAccountStep(a, step, status, now) && !step.saw.SomeBucket?
    ensures Overlooked(a.(status := status))
  {
    PendingStays(a, step, status, now);
    ChangeKeepsOverlooked(a.status.(secretName := step.secretName), step.change, step.at);
  }

  lemma PendingStays(a: Account, step: AccountStep, status: AccountStatus, now: nat)
    requires Overlooked(a) && LegalAccountStep(a, step, status, now) && !step.saw.SomeBucket?
    ensures status == AccountChanged(a.status.(secretName := step.secretName), step.change, step.at)
    ensures step.change != Succeed && step.change != Erase
  {
    assert step.pending == Same;
  }

  /** A request to delete this account. */
  predicate Deletes(act: Action, k: Key) {
    (act.ByOutside? && act.e == EDeleteAccount(k)) || (act.ByCollector? && act.g.GDelete? && act.g.key == k)
  }

  lemma ALiveStays(a: AAct, w: World, k: Key)
    requires AGuard(a, w) && AAccepts(a, w) && k in w.accounts && !w.accounts[k].deleting
    ensures k in AEffect(a, w).accounts && !AEffect(a, w).accounts[k].deleting
  {
  }

  lemma ELiveStays(e: EAct, w: World, k: Key)
    requires EAccepts(e, w) && k in w.accounts && !w.accounts[k].deleting && e != EDeleteAccount(k)
    ensures k in EEffect(e, w).accounts && !EEffect(e, w).accounts[k].deleting
  {
  }

  lemma LiveStays(act: Action, w: World, k: Key)
    requires Enabled(act, w) && k in w.accounts && !w.accounts[k].deleting && !Deletes(act, k)
    ensures k in Effect(act, w).accounts && !Effect(act, w).accounts[k].deleting
  {
    match act
    case ByAccounts(a) => ALiveStays(a, w, k);
    case ByBuckets(b) =>
    case ByCollector(_) =>
    case ByOutside(e) => ELiveStays(e, w, k);
  }

  /** While nothing is indexed under an account, from the start of a pass on, no
      status it stores rests on the sight of a bucket. */
  lemma UnusedSeesNothing(worlds: seq<World>, acts: seq<Action>, b: nat, n: nat, k: Key)
    requires FullRun(worlds, acts) && b < n < |acts| && acts[b] == ByAccounts(ABegin) && IsAStatus(acts[n], k)
    requires forall m :: b <= m <= n ==> Indexed(worlds[m], k.name) == {}
    ensures !acts[n].a.step.saw.SomeBucket?
  {
    StepAt(worlds, acts, n);
    if worlds[n].desk.listed.Some? {
      var m := ListedMeans(worlds, acts, n);
      assert b < m;
    }
  }

  /** Once overlooked, an account is never selected again as long as it stays unused,
      counting from the start of the pass under way: only a bucket or a request to
      delete it can help. */
  lemma {:induction false} OverlookedForGood(worlds: seq<World>, acts: seq<Action>, b: nat, i: nat, j: nat, k: Key, now: nat)
    requires FullRun(worlds, acts) && b < i <= j <= |acts| && acts[b] == ByAccounts(ABegin)
    requires k in worlds[i].accounts && Overlooked(worlds[i].accounts[k])
    requires forall n :: b <= n <= j ==> Indexed(worlds[n], k.name) == {}
    requires forall n :: i <= n < j ==> !Deletes(acts[n], k)
    ensures k in worlds[j].accounts && Overlooked(worlds[j].accounts[k])
    ensures !Selected(worlds[j].accounts[k].status.conditions, TTL, now)
  {
    if i < j {
      OverlookedForGood(worlds, acts, b, i, j - 1, k, now);
      StepAt(worlds, acts, j - 1);
      if IsAStatus(acts[j - 1], k) {
        UnusedSeesNothing(worlds, acts, b, j - 1, k);
      }
      StepKeepsOverlooked(acts[j - 1], worlds[j - 1], k, worlds[j]);
    }
    OverlookedIsNotSelected(worlds[j].accounts[k], TTL, now);
  }

  lemma StepKeepsOverlooked(act: Action, w: World, k: Key, w': World)
    requires Enabled(act, w) && w' == Effect(act, w) && k in w.accounts && Overlooked(w.accounts[k])
    requires !Deletes(act, k) && (IsAStatus(act, k) ==> !act.a.step.saw.SomeBucket?)
    ensures k in w'.accounts && Overlooked(w'.accounts[k])
  {
    LiveStays(act, w, k);
    AccountMoves(act, w, k);
    if IsAStatus(act, k) {
      StatusKeepsOverlooked(w.accounts[k], act.a.step, w'.accounts[k].status, w.now);
    }
    NotMarked(act, w, k);
  }

  lemma NotMarked(act: Action, w: World, k: Key)
    requires Enabled(act, w) && k in w.accounts && Overlooked(w.accounts[k])
    ensures !IsGMark(act, k)
  {
    if IsGMark(act, k) {
      OverlookedIsNotSelected(w.accounts[k], TTL, act.g.time);
    }
  }
}
