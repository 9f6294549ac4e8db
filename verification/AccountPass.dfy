/** One fault-free, undisturbed pass of the account controller, as a function. */
module AccountPasses {
  import opened Wrappers
  import opened Owners
  import opened Conditions
  import opened Worlds
  import opened Actions

  /** A stored status, together with what the pass had seen. */
  function Store(w: World, k: Key, status: AccountStatus, saw: Saw): World
    requires k in w.accounts
  {
    PutAccount(w, k, w.accounts[k].(status := status)).(past := Observe(w.past, w.accounts[k].uid, saw))
  }

  function Dropped(w: World, k: Key): World
    requires k in w.accounts
  {
    LeftBehind(w, UserOf(k, w.accounts[k].provider)).(accounts := w.accounts - {k})
  }

  function Finalized(w: World, k: Key): World
    requires k in w.accounts
  {
    Adopted(PutAccount(w, k, w.accounts[k].(finalizer := true)), UserOf(k, w.accounts[k].provider))
  }

  function WithUser(w: World, k: Key): World
    requires k in w.accounts
  {
    w.(minio := w.minio.(users := w.minio.users + {UserOf(k, w.accounts[k].provider)}))
  }

  function WithoutUser(w: World, k: Key): World
    requires k in w.accounts
  {
    var u := UserOf(k, w.accounts[k].provider);
    if u !in w.minio.users then w
    else w.(minio := w.minio.(users := w.minio.users - {u}, keys := RemoveKeysOf(w.minio.keys, u),
                              attached := w.minio.attached - {u}))
  }

  function WithoutSecret(w: World, k: Key): World {
    w.(secrets := w.secrets - {SaKey(k)})
  }

  function WithNewKey(w: World, k: Key): World
    requires k in w.accounts
  {
    var u := UserOf(k, w.accounts[k].provider);
    var keys := RemoveKeysOf(w.minio.keys, u)[Live(u.provider, w.serial) := u.name];
    w.(serial := w.serial + 1, minio := w.minio.(keys := keys))
  }

  /** The key's secret stored and its name recorded. */
  function WithSavedKey(w: World, k: Key, serial: nat): World
    requires k in w.accounts
  {
    var w := PutSecret(w, SaKey(k), SaSecret(k, w.accounts[k].uid, serial));
    Store(w, k, w.accounts[k].status.(secretName := Some(SaKey(k).name)), Nothing)
  }

  /** All old keys purged, one new key, its secret, and the secret's name recorded. */
  function WithKey(w: World, k: Key): World
    requires k in w.accounts
  {
    WithSavedKey(WithNewKey(w, k), k, w.serial)
  }

  /** The bucket a policy name stands for. */
  function Unprefixed(name: string): string {
    if |PREFIX| <= |name| then name[|PREFIX|..] else name
  }

  function PolicyLocs(provider: string, buckets: set<Key>): set<Loc> {
    set b | b in buckets :: At(provider, Prefixed(b.name))
  }

  function Documents(provider: string, buckets: set<Key>): map<Loc, Document> {
    map at | at in PolicyLocs(provider, buckets) :: PolicyOf(Unprefixed(at.name))
  }

  /** Every listed bucket's policy in place and exactly those attached to the user. */
  function WithPolicies(w: World, k: Key, buckets: set<Key>): World
    requires k in w.accounts
  {
    var p := w.accounts[k].provider;
    w.(minio := w.minio.(policies := w.minio.policies + Documents(p, buckets),
                         attached := w.minio.attached[UserOf(k, p) := NamesOf(buckets)]))
  }

  function DeletionPass(w: World, k: Key): World
    requires k in w.accounts
  {
    var a := w.accounts[k];
    if !IsTrue(a.status.conditions, Deleting) then Store(w, k, AccountChanged(a.status, Erase, w.now), Nothing)
    else if a.provider !in w.providers then Dropped(w, k)
    else Dropped(WithoutUser(WithoutSecret(w, k), k), k)
  }

  /** The DeletionPending mark set or lifted; ok says whether the pass goes on. */
  function PendingStage(w: World, k: Key): (World, bool)
    requires k in w.accounts
  {
    var s := w.accounts[k].status;
    var pending := IsTrue(s.conditions, DeletionPending);
    if Indexed(w, k.name) == {} then
      if pending then (w, true)
      else (Store(w, k, Pended(s, Mark, NoBucket(w.now)), NoBucket(w.now)), false)
    else if pending then (Store(w, k, Pended(s, Clear, SomeBucket(w.now)), SomeBucket(w.now)), true)
    else (w, true)
  }

  function ReadyStage(w: World, k: Key, saw: Saw): World
    requires k in w.accounts
  {
    var s := w.accounts[k].status;
    if !IsTrue(s.conditions, Ready) && !IsTrue(s.conditions, DeletionPending)
    then Store(w, k, AccountChanged(s, Succeed, w.now), saw)
    else w
  }

  function Sight(w: World, k: Key): Saw {
    if Indexed(w, k.name) == {} then NoBucket(w.now) else SomeBucket(w.now)
  }

  function PolicyStage(w: World, k: Key): World
    requires k in w.accounts
  {
    var (w1, ok) := PendingStage(w, k);
    if ok then WithPolicies(w1, k, Indexed(w, k.name)) else w1
  }

  /** The stages from the DeletionPending mark on. */
  function LateStages(w: World, k: Key): World
    requires k in w.accounts
  {
    if PendingStage(w, k).1 then ReadyStage(PolicyStage(w, k), k, Sight(w, k)) else PolicyStage(w, k)
  }

  /** The stages once the status is no longer empty and the provider is there. */
  function LiveStages(w: World, k: Key): World
    requires k in w.accounts
  {
    var w1 := if UserOf(k, w.accounts[k].provider) in w.minio.users then w else WithUser(w, k);
    if SaKey(k) !in w1.secrets then WithKey(w1, k) else LateStages(w1, k)
  }

  function LivePass(w: World, k: Key): World
    requires k in w.accounts
  {
    var s := w.accounts[k].status;
    var w1 := if s.conditions == [] then Store(w, k, AccountChanged(s, Create, w.now), Nothing) else w;
    if w1.accounts[k].provider !in w1.providers then
      Store(w1, k, AccountChanged(w1.accounts[k].status, Fail, w.now), Nothing)
    else LiveStages(w1, k)
  }

  /** A pass that has the account in hand. */
  function CopyPass(w: World, k: Key): World
    requires k in w.accounts
  {
    if w.accounts[k].deleting then DeletionPass(w, k)
    else if !w.accounts[k].finalizer then Finalized(w, k)
    else LivePass(w, k)
  }

  function AccountPass(w: World, k: Key): World {
    var w := w.(past := w.past.(accountProviders := w.providers.Keys));
    if k in w.accounts then CopyPass(w, k) else w
  }

  // ---------------------------------------------------------------- what a pass leaves alone

  /** No Bucket, no provider and no MinIO bucket is touched. */
  predicate LeavesBuckets(w: World, w': World) {
    w'.buckets == w.buckets && w'.providers == w.providers && w'.minio.buckets == w.minio.buckets
  }

  lemma StoringLeavesBuckets(w: World, k: Key, status: AccountStatus, saw: Saw)
    requires k in w.accounts
    ensures LeavesBuckets(w, Store(w, k, status, saw)) && k in Store(w, k, status, saw).accounts
  {
  }

  lemma KeyLeavesBuckets(w: World, k: Key)
    requires k in w.accounts
    ensures LeavesBuckets(w, WithKey(w, k))
  {
    var w1 := PutSecret(WithNewKey(w, k), SaKey(k), SaSecret(k, w.accounts[k].uid, w.serial));
    StoringLeavesBuckets(w1, k, w1.accounts[k].status.(secretName := Some(SaKey(k).name)), Nothing);
  }

  lemma LateLeavesBuckets(w: World, k: Key)
    requires k in w.accounts
    ensures LeavesBuckets(w, LateStages(w, k))
  {
    var s := w.accounts[k].status;
    StoringLeavesBuckets(w, k, Pended(s, Mark, NoBucket(w.now)), NoBucket(w.now));
    StoringLeavesBuckets(w, k, Pended(s, Clear, SomeBucket(w.now)), SomeBucket(w.now));
    var w1 := PolicyStage(w, k);
    StoringLeavesBuckets(w1, k, AccountChanged(w1.accounts[k].status, Succeed, w1.now), Sight(w, k));
  }

  lemma LivePassLeavesBuckets(w: World, k: Key)
    requires k in w.accounts
    ensures LeavesBuckets(w, LivePass(w, k))
  {
    var s := w.accounts[k].status;
    StoringLeavesBuckets(w, k, AccountChanged(s, Create, w.now), Nothing);
    var w1 := if s.conditions == [] then Store(w, k, AccountChanged(s, Create, w.now), Nothing) else w;
    StoringLeavesBuckets(w1, k, AccountChanged(w1.accounts[k].status, Fail, w.now), Nothing);
    var w2 := if UserOf(k, w1.accounts[k].provider) in w1.minio.users then w1 else WithUser(w1, k);
    KeyLeavesBuckets(w2, k);
    LateLeavesBuckets(w2, k);
  }

  lemma DeletionLeavesBuckets(w: World, k: Key)
    requires k in w.accounts
    ensures LeavesBuckets(w, DeletionPass(w, k))
  {
    StoringLeavesBuckets(w, k, AccountChanged(w.accounts[k].status, Erase, w.now), Nothing);
  }

  lemma AccountPassLeavesBuckets(w: World, k: Key)
    ensures LeavesBuckets(w, AccountPass(w, k))
  {
    var w0 := w.(past := w.past.(accountProviders := w.providers.Keys));
    if k in w0.accounts {
      DeletionLeavesBuckets(w0, k);
      LivePassLeavesBuckets(w0, k);
    }
  }
}
