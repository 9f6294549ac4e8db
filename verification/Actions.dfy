/** The atomic steps of the protocol: one API call each. `Guard` is what the
    calling code must have established, `Accepts` is the server's own condition,
    `Effect` is what an accepted call does. */
module Actions {
  import opened Wrappers
  import opened Owners
  import opened Conditions
  import opened Worlds
  import opened SecretData
  import PolicyText

  const TTL: nat := 60

  datatype Actor = AccountWorker | BucketWorker | Collector | Outside

  // ---------------------------------------------------------------- status changes

  datatype Change = Keep | Create | Fail | Succeed | Erase

  /** What a Bucket status write does to the stored status. */
  datatype BucketStep = BucketStep(
    endpoint: Option<string>,
    secretName: Option<string>,
    change: Change,
    at: nat)

  function BucketStepped(s: BucketStatus, step: BucketStep): BucketStatus {
    var s := s.(endpoint := step.endpoint, secretName := step.secretName);
    var cs := s.conditions;
    match step.change
    case Keep => s
    case Create =>
      s.(conditions := Set(cs, Creating, true, step.at), phase := Phase(Creating))
    case Fail =>
      s.(conditions := Set(Set(cs, Ready, false, step.at), Error, true, step.at), phase := Phase(Error))
    case Succeed =>
      s.(conditions := Set(Remove(Remove(cs, Creating), Error), Ready, true, step.at), phase := Phase(Ready))
    case Erase =>
      s.(conditions := Set(cs, Deleting, true, step.at), phase := Phase(Deleting))
  }

  datatype Pending = Same | Mark | Clear

  /** What an account status write does to the stored status: first the
      DeletionPending mark, then the rest. */
  datatype AccountStep = AccountStep(
    secretName: Option<string>,
    pending: Pending,
    change: Change,
    at: nat,
    saw: Saw)

  function Pended(s: AccountStatus, pending: Pending, saw: Saw): AccountStatus {
    match pending
    case Same => s
    case Mark =>
      var at := if saw.NoBucket? then saw.at else 0;
      s.(conditions := Set(s.conditions, DeletionPending, true, at), phase := Phase(DeletionPending))
    case Clear => s.(conditions := Remove(s.conditions, DeletionPending))
  }

  function AccountChanged(s: AccountStatus, change: Change, at: nat): AccountStatus {
    var cs := s.conditions;
    match change
    case Keep => s
    case Create => s.(conditions := Set(cs, Creating, true, at))
    case Fail =>
      s.(conditions := Set(Set(cs, Ready, false, at), Error, true, at), phase := Phase(Error))
    case Succeed =>
      s.(conditions := Set(Remove(Remove(cs, Creating), Error), Ready, true, at), phase := Phase(Ready))
    case Erase =>
      s.(conditions := Set(cs, Deleting, true, at), phase := Phase(Deleting))
  }

  function AccountStepped(s: AccountStatus, step: AccountStep): AccountStatus {
    AccountChanged(Pended(s.(secretName := step.secretName), step.pending, step.saw), step.change, step.at)
  }

  // ---------------------------------------------------------------- actions

  /** The account controller's calls. */
  datatype AAct =
    | ABegin
    | AList(key: Key)
    | AFinalize(key: Key, version: nat)
    | ARelease(key: Key, version: nat)
    | AStatus(key: Key, version: nat, status: AccountStatus, step: AccountStep)
    | AAddUser(key: Key)
    | ARemoveUser(key: Key)
    | AAddKey(key: Key)
    | ADropKey(key: Key, id: KeyId)
    | ACreateSecret(key: Key, serial: nat)
    | ADeleteSecret(key: Key)
    | AAddPolicy(at: Loc, document: Document)
    | ASetPolicy(key: Key, text: string)

  /** The bucket controller's calls. */
  datatype BAct =
    | BBegin
    | BLearn(fact: Fact)
    | BUpdate(key: Key, version: nat, bucket: Bucket)
    | BRelease(key: Key, version: nat)
    | BStatus(key: Key, version: nat, status: BucketStatus, step: BucketStep, proof: Proof)
    | BCreateAccount(key: Key, provider: string)
    | BMake(key: Key)
    | BUnmake(at: Loc)
    | BForce(at: Loc)
    | BDropKey(id: KeyId)
    | BCreateSecret(key: Key, secret: Secret)
    | BUpdateSecret(key: Key, version: nat, secret: Secret)
    | BDeleteSecret(key: Key)

  /** The garbage collector's calls. */
  datatype GAct =
    | GList
    | GMark(key: Key, version: nat, time: nat)
    | GDelete(key: Key, time: nat)

  /** What everyone else may do. */
  datatype EAct =
    | ECreateBucket(key: Key, spec: BucketSpec, owners: seq<OwnerRef>)
    | EEditBucket(key: Key, spec: BucketSpec, owners: seq<OwnerRef>)
    | EDeleteBucket(key: Key)
    | ECreateAccount(key: Key, provider: string)
    | EDeleteAccount(key: Key)
    | EPutSecret(key: Key, secret: Secret)
    | EDeleteSecret(key: Key)
    | EPutProvider(name: string, details: Provider)
    | EDropProvider(name: string)
    | EMake(at: Loc)
    | ERemove(at: Loc)
    | ETick

  datatype Action = ByAccounts(a: AAct) | ByBuckets(b: BAct) | ByCollector(g: GAct) | ByOutside(e: EAct)

  function ActorOf(act: Action): Actor {
    match act
    case ByAccounts(_) => AccountWorker
    case ByBuckets(_) => BucketWorker
    case ByCollector(_) => Collector
    case ByOutside(_) => Outside
  }

  // ---------------------------------------------------------------- garbage collection

  predicate Watched(kind: Kind) {
    kind == DeletionPending || kind == Deleting
  }

  /** What the collector's scan decides: no watched condition is younger than the
      grace period, and the last condition of all is a watched one. */
  predicate Selected(cs: Conditions, ttl: nat, now: nat) {
    && (forall i :: 0 <= i < |cs| && Watched(cs[i].kind) ==> cs[i].since + ttl <= now)
    && cs != [] && Watched(cs[|cs| - 1].kind)
  }

  // ---------------------------------------------------------------- what the code owes

  /** A finalizer on the stored account: only the account controller can remove it. */
  predicate Held(w: World, account: Key) {
    account in w.accounts && w.accounts[account].finalizer
  }

  predicate LegalAccountStep(a: Account, step: AccountStep, status: AccountStatus, now: nat) {
    && status == AccountStepped(a.status, step)
    && step.at <= now
    && (step.saw.NoBucket? || step.saw.SomeBucket? ==> step.saw.at <= now)
    && (step.pending == Mark ==> step.saw.NoBucket? && !IsTrue(a.status.conditions, DeletionPending))
    && (step.pending == Clear ==> step.saw.SomeBucket?)
    && (step.saw.SomeBucket? ==> !IsTrue(status.conditions, DeletionPending))
    && (step.change == Succeed ==> !IsTrue(status.conditions, DeletionPending))
    && (step.change == Erase ==> a.deleting)
  }

  /** A status change the bucket controller may make in memory. */
  predicate LegalDraft(b: Bucket, name: string, step: BucketStep, status: BucketStatus, past: History) {
    && status == BucketStepped(b.status, step)
    && (step.endpoint == b.status.endpoint ||
        (step.endpoint.Some? && b.spec.provider != "" && (b.uid, At(b.spec.provider, name)) in past.made))
    && (step.change == Create ==> b.status.conditions == [])
    && (step.change == Succeed ==> step.endpoint.Some? && !IsTrue(b.status.conditions, Ready))
  }

  predicate LegalBucketStep(b: Bucket, name: string, step: BucketStep, status: BucketStatus, past: History) {
    LegalDraft(b, name, step, status, past) && (b.deleting <==> step.change == Erase)
  }

  /** What an update outside the status subresource may do to a Bucket. */
  predicate LegalEdit(before: Bucket, after: Bucket) {
    && after == before.(finalizer := after.finalizer, owners := after.owners, spec := after.spec)
    && (before.finalizer ==> after.finalizer)
    && (before.spec.provider != "" ==> after.spec.provider == before.spec.provider)
    && (after.spec.reclaim == Delete ==> before.spec.reclaim == Delete)
  }

  /** What a pass must have been told before it may store Ready: the account's uid,
      the provider, the account's secret, and the secret it has stored itself. */
  datatype Proof = Unproved | Proved(uid: nat, provider: Provider, sa: Secret, secret: Secret)

  predicate Proves(proof: Proof, k: Key, b: Bucket, facts: set<Fact>) {
    && proof.Proved? && Reached in facts
    && AccountStored(AccountKey(k, b), proof.uid) in facts
    && Forced(b.owners, AccountRef(b.spec.serviceAccount, proof.uid)) == b.owners
    && MinioStored(MinioAt(k, b)) in facts
    && ProviderStored(b.spec.provider, proof.provider) in facts
    && SecretStored(SaKey(AccountKey(k, b)), proof.sa) in facts
    && SecretStored(TargetKey(k, b), proof.secret) in facts
    && ControllerOf(proof.secret.owners) == Some(BucketRef(k.name, b.uid))
    && Carries(proof.secret.data, b.spec.template, AccessOf(k, proof.sa, proof.provider))
  }

  /** Only passes that have begun make calls, and each owes what its call demands. */
  predicate AGuard(act: AAct, w: World) {
    (act.ABegin? || w.desk.accountPass) && AOwes(act, w)
  }

  predicate BGuard(act: BAct, w: World) {
    (act.BBegin? || w.desk.bucketPass) && BOwes(act, w)
  }

  predicate GGuard(act: GAct, w: World) {
    act.GList? || (w.desk.sweep.Some? && GOwes(act, w, w.desk.sweep.value))
  }

  predicate AOwes(act: AAct, w: World) {
    match act
    case ARelease(k, v) =>
      k in w.accounts && w.accounts[k].version == v ==>
        var a := w.accounts[k];
        a.deleting && (UserOf(k, a.provider) !in w.minio.users || a.provider !in w.past.accountProviders)
    case AStatus(k, v, status, step) =>
      && step.saw == Sighted(w.desk.listed, k)
      && (k in w.accounts && w.accounts[k].version == v ==>
            LegalAccountStep(w.accounts[k], step, status, w.now))
    case AAddUser(k) => Held(w, k)
    case ARemoveUser(k) => Held(w, k) && !HasOwnSecret(w, k)
    case AAddKey(k) => Held(w, k) && !HasOwnSecret(w, k)
    case ADropKey(k, id) =>
      id.Serial? ==>
        && Held(w, k) && !HasOwnSecret(w, k)
        && var l := Live(w.accounts[k].provider, id.serial);
        (l in w.minio.keys ==> w.minio.keys[l] == Prefixed(k.name))
    case ACreateSecret(k, serial) =>
      Held(w, k) && SoleKey(w.minio, UserOf(k, w.accounts[k].provider), serial)
    case AAddPolicy(at, doc) =>
      && w.desk.listed.Some? && at.name in NamesOf(w.desk.listed.value.buckets)
      && doc.PolicyOf? && at.name == Prefixed(doc.bucket)
    case ASetPolicy(k, text) =>
      && Held(w, k)
      && w.desk.listed.Some? && w.desk.listed.value.account == k
      && PolicyNames(text) == NamesOf(w.desk.listed.value.buckets)
    case _ => true
  }

  predicate BOwes(act: BAct, w: World) {
    match act
    case BUpdate(k, v, b) =>
      k in w.buckets && w.buckets[k].version == v ==> LegalEdit(w.buckets[k], b)
    case BRelease(k, v) =>
      k in w.buckets && w.buckets[k].version == v ==>
        var b := w.buckets[k];
        b.deleting && (b.spec.reclaim != Delete || At(b.spec.provider, k.name) !in w.past.keep ||
                       b.spec.provider !in w.past.bucketProviders)
    case BStatus(k, v, status, step, proof) =>
      k in w.buckets && w.buckets[k].version == v ==>
        && LegalBucketStep(w.buckets[k], k.name, step, status, w.past)
        && (step.change == Succeed ==> Proves(proof, k, w.buckets[k], w.desk.facts))
    case BMake(k) => k in w.buckets && w.buckets[k].finalizer && w.buckets[k].spec.provider != ""
    case BUnmake(at) => at in w.desk.mine && at !in w.past.keep
    case BForce(at) => at.name in w.past.everDelete
    case BDropKey(id) => id.Named?
    case BCreateSecret(_, s) => !AccountControlled(s)
    case BUpdateSecret(_, _, s) => !AccountControlled(s)
    case _ => true
  }

  /** `sweep` is what the current sweep has listed. */
  predicate GOwes(act: GAct, w: World, sweep: map<Key, Account>) {
    match act
    case GList => true
    case GMark(k, v, time) =>
      && k in sweep && sweep[k].version == v && time <= w.now && Selected(sweep[k].status.conditions, TTL, time)
      && !IsTrue(sweep[k].status.conditions, Deleting)
      && (k in w.accounts && w.accounts[k].version == v ==> w.accounts[k] == sweep[k])
    case GDelete(k, time) =>
      && k in sweep && time <= w.now && Selected(sweep[k].status.conditions, TTL, time)
      && (IsTrue(sweep[k].status.conditions, Deleting) || k in w.desk.marked)
  }

  // ---------------------------------------------------------------- what the servers accept

  predicate FreshAccount(w: World, key: Key, provider: string) {
    key !in w.accounts &&
    forall k :: k in w.accounts ==> !(k.name == key.name && w.accounts[k].provider == provider)
  }

  predicate AAccepts(act: AAct, w: World) {
    match act
    case AFinalize(k, v) => k in w.accounts && w.accounts[k].version == v
    case ARelease(k, v) => k in w.accounts && w.accounts[k].version == v
    case AStatus(k, v, _, _) => k in w.accounts && w.accounts[k].version == v
    case ARemoveUser(k) => k in w.accounts && UserOf(k, w.accounts[k].provider) in w.minio.users
    case AAddKey(k) => k in w.accounts && UserOf(k, w.accounts[k].provider) in w.minio.users
    case ADropKey(k, id) =>
      k in w.accounts && id.Serial? && Live(w.accounts[k].provider, id.serial) in w.minio.keys
    case ACreateSecret(k, _) => SaKey(k) !in w.secrets
    case ADeleteSecret(k) => SaKey(k) in w.secrets
    case ASetPolicy(k, _) => k in w.accounts && UserOf(k, w.accounts[k].provider) in w.minio.users
    case _ => true
  }

  predicate BAccepts(act: BAct, w: World) {
    match act
    case BUpdate(k, v, _) => k in w.buckets && w.buckets[k].version == v
    case BRelease(k, v) => k in w.buckets && w.buckets[k].version == v
    case BLearn(fact) => Holds(w, fact)
    case BStatus(k, v, _, _, _) => k in w.buckets && w.buckets[k].version == v
    case BCreateAccount(k, p) => FreshAccount(w, k, p)
    case BMake(k) => k in w.buckets && At(w.buckets[k].spec.provider, k.name) !in w.minio.buckets
    case BUnmake(at) => at in w.minio.buckets
    case BForce(at) => at in w.minio.buckets
    case BDropKey(_) => false
    case BCreateSecret(k, _) => k !in w.secrets
    case BUpdateSecret(k, v, _) => k in w.secrets && w.secrets[k].version == v
    case BDeleteSecret(k) => k in w.secrets
    case _ => true
  }

  predicate GAccepts(act: GAct, w: World) {
    match act
    case GList => true
    case GMark(k, v, _) => k in w.accounts && w.accounts[k].version == v
    case GDelete(k, _) => k in w.accounts
  }

  predicate EAccepts(act: EAct, w: World) {
    match act
    case ECreateBucket(k, _, _) => k !in w.buckets && ValidName(k.name)
    case EEditBucket(k, s, _) =>
      k in w.buckets && (w.buckets[k].spec.provider != "" ==> s.provider == w.buckets[k].spec.provider)
    case EDeleteBucket(k) => k in w.buckets
    case ECreateAccount(k, p) => FreshAccount(w, k, p)
    case EDeleteAccount(k) => k in w.accounts
    case EPutSecret(k, s) => !AccountControlled(s) && (k in w.secrets ==> !AccountControlled(w.secrets[k]))
    case EDeleteSecret(k) => k in w.secrets
    case EPutProvider(n, _) => forall d :: d in w.providers && w.providers[d].isDefault ==> d == n
    case EDropProvider(n) => n in w.providers
    case EMake(at) => at !in w.minio.buckets
    case ERemove(at) => at in w.minio.buckets
    case ETick => true
  }

  // ---------------------------------------------------------------- what accepted calls do

  /** Every stored change hands out the next version; writing back what is
      already stored changes nothing. */
  function PutBucket(w: World, k: Key, b: Bucket): World {
    if k in w.buckets && w.buckets[k] == b then w
    else w.(tick := w.tick + 1, buckets := w.buckets[k := b.(version := w.tick + 1)])
  }

  function PutAccount(w: World, k: Key, a: Account): World {
    if k in w.accounts && w.accounts[k] == a then w
    else w.(tick := w.tick + 1, accounts := w.accounts[k := a.(version := w.tick + 1)])
  }

  function PutSecret(w: World, k: Key, s: Secret): World {
    if k in w.secrets && w.secrets[k] == s.(version := w.secrets[k].version) then w
    else w.(tick := w.tick + 1, secrets := w.secrets[k := s.(version := w.tick + 1)])
  }

  function NewAccount(w: World, k: Key, provider: string): World {
    PutAccount(w, k, Account(w.nextUid, 0, false, false, provider, AccountStatus(None, [], NoPhase)))
      .(nextUid := w.nextUid + 1)
  }

  /** Deleting an object that carries the finalizer only marks it. */
  function DeleteAccount(w: World, k: Key): World {
    if k !in w.accounts then w
    else if w.accounts[k].finalizer then PutAccount(w, k, w.accounts[k].(deleting := true))
    else w.(accounts := w.accounts - {k})
  }

  function DeleteBucket(w: World, k: Key): World {
    if k !in w.buckets then w
    else if w.buckets[k].finalizer then PutBucket(w, k, w.buckets[k].(deleting := true))
    else w.(buckets := w.buckets - {k})
  }

  function SeenBy(past: History, uid: nat): seq<Saw> {
    if uid in past.seen then past.seen[uid] else []
  }

  function Observe(past: History, uid: nat, saw: Saw): History {
    if saw == Nothing then past else past.(seen := past.seen[uid := SeenBy(past, uid) + [saw]])
  }

  function ReclaimSeen(past: History, name: string, spec: BucketSpec): History {
    if spec.reclaim == Delete then past.(everDelete := past.everDelete + {name}) else past
  }

  /** A MinIO bucket the controller removes is no longer one it has made. */
  function Unmade(w: World, at: Loc): World {
    RemoveMinioBucket(w, at).(desk := w.desk.(mine := w.desk.mine - {at}))
  }

  function RemoveMinioBucket(w: World, at: Loc): World {
    w.(minio := w.minio.(buckets := w.minio.buckets - {at}), past := w.past.(keep := w.past.keep - {at}))
  }

  /** A user left without an account, or given one again. */
  function LeftBehind(w: World, user: Loc): World {
    if user in w.minio.users then w.(past := w.past.(abandoned := w.past.abandoned + {user})) else w
  }

  function Adopted(w: World, user: Loc): World {
    w.(past := w.past.(abandoned := w.past.abandoned - {user}))
  }

  /** MinIO reads the policy text of a user as a set of names. */
  function PolicyNames(text: string): set<string> {
    if text == "" then {} else set i | 0 <= i < |PolicyText.Split(text)| :: PolicyText.Split(text)[i]
  }

  function RemoveKeysOf(keys: map<Live, string>, user: Loc): map<Live, string> {
    map l | l in keys && !(l.provider == user.provider && keys[l] == user.name) :: keys[l]
  }

  /** An account call touches accounts, their secrets, and MinIO's users, keys
      and policies. */
  function AEffect(act: AAct, w: World): (w': World)
    requires AGuard(act, w) && AAccepts(act, w)
    ensures w' == w.(tick := w'.tick, serial := w'.serial, accounts := w'.accounts, secrets := w'.secrets,
                     minio := w'.minio, past := w'.past, desk := w'.desk)
    ensures w'.desk == w.desk.(accountPass := w'.desk.accountPass, listed := w'.desk.listed)
    ensures !act.ABegin? && !act.AList? ==> w'.desk == w.desk
    ensures w'.minio.buckets == w.minio.buckets && w.tick <= w'.tick && w.serial <= w'.serial
    ensures w'.past == w.past.(accountProviders := w'.past.accountProviders, abandoned := w'.past.abandoned,
                               seen := w'.past.seen)
  {
    match act
    case ABegin =>
      w.(past := w.past.(accountProviders := w.providers.Keys),
         desk := w.desk.(accountPass := true, listed := None))
    case AList(k) =>
      w.(desk := w.desk.(listed := Some(Listing(k, Indexed(w, k.name), w.now))))
    case AFinalize(k, _) => Adopted(PutAccount(w, k, w.accounts[k].(finalizer := true)), UserOf(k, w.accounts[k].provider))
    case ARelease(k, _) =>
      LeftBehind(w, UserOf(k, w.accounts[k].provider)).(accounts := w.accounts - {k})
    case AStatus(k, _, status, step) =>
      var a := w.accounts[k];
      PutAccount(w, k, a.(status := status)).(past := Observe(w.past, a.uid, step.saw))
    case AAddUser(k) =>
      w.(minio := w.minio.(users := w.minio.users + {UserOf(k, w.accounts[k].provider)}))
    case ARemoveUser(k) =>
      var u := UserOf(k, w.accounts[k].provider);
      w.(minio := w.minio.(users := w.minio.users - {u},
                           keys := RemoveKeysOf(w.minio.keys, u),
                           attached := w.minio.attached - {u}))
    case AAddKey(k) =>
      var u := UserOf(k, w.accounts[k].provider);
      w.(serial := w.serial + 1,
         minio := w.minio.(keys := w.minio.keys[Live(u.provider, w.serial) := u.name]))
    case ADropKey(k, id) =>
      w.(minio := w.minio.(keys := w.minio.keys - {Live(w.accounts[k].provider, id.serial)}))
    case ACreateSecret(k, serial) => PutSecret(w, SaKey(k), SaSecret(k, w.accounts[k].uid, serial))
    case ADeleteSecret(k) => w.(secrets := w.secrets - {SaKey(k)})
    case AAddPolicy(at, doc) => w.(minio := w.minio.(policies := w.minio.policies[at := doc]))
    case ASetPolicy(k, text) =>
      w.(minio := w.minio.(attached := w.minio.attached[UserOf(k, w.accounts[k].provider) := PolicyNames(text)]))
  }

  /** A bucket call touches Buckets, their secrets and MinIO buckets, and may
      create an account. */
  function BEffect(act: BAct, w: World): (w': World)
    requires BGuard(act, w) && BAccepts(act, w)
    ensures w' == w.(tick := w'.tick, nextUid := w'.nextUid, buckets := w'.buckets, accounts := w'.accounts,
                     secrets := w'.secrets, minio := w'.minio, past := w'.past, desk := w'.desk)
    ensures w'.desk == w.desk.(bucketPass := w'.desk.bucketPass, facts := w'.desk.facts, mine := w'.desk.mine)
    ensures !act.BBegin? ==> w'.desk.bucketPass == w.desk.bucketPass && w.desk.facts <= w'.desk.facts
    ensures !act.BBegin? && !act.BLearn? ==> w'.desk.facts == w.desk.facts
    ensures w'.minio == w.minio.(buckets := w'.minio.buckets) && w.tick <= w'.tick && w.nextUid <= w'.nextUid
    ensures w'.past == w.past.(made := w'.past.made, keep := w'.past.keep, bucketProviders := w'.past.bucketProviders)
    ensures w.past.made <= w'.past.made
    ensures !act.BCreateAccount? ==> w'.accounts == w.accounts
  {
    match act
    case BBegin =>
      w.(past := w.past.(keep := w.minio.buckets, bucketProviders := w.providers.Keys),
         desk := w.desk.(bucketPass := true, facts := {}, mine := {}))
    case BLearn(fact) => w.(desk := w.desk.(facts := w.desk.facts + {fact}))
    case BUpdate(k, _, b) => PutBucket(w, k, b)
    case BRelease(k, _) => w.(buckets := w.buckets - {k})
    case BStatus(k, _, status, _, _) => PutBucket(w, k, w.buckets[k].(status := status))
    case BCreateAccount(k, p) => NewAccount(w, k, p)
    case BMake(k) =>
      var at := At(w.buckets[k].spec.provider, k.name);
      w.(minio := w.minio.(buckets := w.minio.buckets + {at}),
         past := w.past.(made := w.past.made + {(w.buckets[k].uid, at)}),
         desk := w.desk.(mine := w.desk.mine + {at}))
    case BUnmake(at) => Unmade(w, at)
    case BForce(at) => Unmade(w, at)
    case BDropKey(_) => w
    case BCreateSecret(k, s) => PutSecret(w, k, s)
    case BUpdateSecret(k, _, s) => PutSecret(w, k, s)
    case BDeleteSecret(k) => w.(secrets := w.secrets - {k})
  }

  /** The collector touches accounts only. */
  function GEffect(act: GAct, w: World): (w': World)
    requires GGuard(act, w) && GAccepts(act, w)
    ensures w' == w.(tick := w'.tick, accounts := w'.accounts, desk := w'.desk) && w.tick <= w'.tick
    ensures w'.desk == w.desk.(sweep := w'.desk.sweep, marked := w'.desk.marked, condemned := w'.desk.condemned)
    ensures !act.GList? ==> w'.desk.sweep == w.desk.sweep && w.desk.marked <= w'.desk.marked
  {
    match act
    case GList => w.(desk := w.desk.(sweep := Some(w.accounts), marked := {}, condemned := {}))
    case GMark(k, _, time) =>
      PutAccount(w, k, w.accounts[k].(status := AccountChanged(w.accounts[k].status, Erase, time)))
        .(desk := w.desk.(marked := w.desk.marked + {k}))
    case GDelete(k, _) => DeleteAccount(w, k).(desk := w.desk.(condemned := w.desk.condemned + {k}))
  }

  /** Outsiders touch neither MinIO's users, keys and policies nor the history of makes and sights. */
  function EEffect(act: EAct, w: World): (w': World)
    requires EAccepts(act, w)
    ensures w'.minio == w.minio.(buckets := w'.minio.buckets) && w'.serial == w.serial && w'.desk == w.desk
    ensures w.tick <= w'.tick && w.nextUid <= w'.nextUid && w.now <= w'.now
    ensures w'.past == w.past.(everDelete := w'.past.everDelete, keep := w'.past.keep,
                               bucketProviders := w'.past.bucketProviders,
                               accountProviders := w'.past.accountProviders)
    ensures w.past.everDelete <= w'.past.everDelete && w'.past.keep <= w.past.keep
    ensures w'.past.bucketProviders <= w.past.bucketProviders && w'.past.accountProviders <= w.past.accountProviders
    ensures !(act.ECreateBucket? || act.EEditBucket? || act.EDeleteBucket?) ==> w'.buckets == w.buckets
    ensures !(act.ECreateAccount? || act.EDeleteAccount?) ==> w'.accounts == w.accounts
    ensures !(act.EPutSecret? || act.EDeleteSecret?) ==> w'.secrets == w.secrets
    ensures !(act.EPutProvider? || act.EDropProvider?) ==> w'.providers == w.providers
  {
    match act
    case ECreateBucket(k, s, o) =>
      PutBucket(w, k, Bucket(w.nextUid, 0, false, false, o, s, BucketStatus(None, None, [], NoPhase)))
        .(nextUid := w.nextUid + 1, past := ReclaimSeen(w.past, k.name, s))
    case EEditBucket(k, s, o) =>
      PutBucket(w, k, w.buckets[k].(spec := s, owners := o)).(past := ReclaimSeen(w.past, k.name, s))
    case EDeleteBucket(k) => DeleteBucket(w, k)
    case ECreateAccount(k, p) => NewAccount(w, k, p)
    case EDeleteAccount(k) => DeleteAccount(w, k)
    case EPutSecret(k, s) => PutSecret(w, k, s)
    case EDeleteSecret(k) => w.(secrets := w.secrets - {k})
    case EPutProvider(n, p) => w.(providers := w.providers[n := p])
    case EDropProvider(n) =>
      w.(providers := w.providers - {n},
         past := w.past.(bucketProviders := w.past.bucketProviders - {n},
                         accountProviders := w.past.accountProviders - {n}))
    case EMake(at) => w.(minio := w.minio.(buckets := w.minio.buckets + {at}))
    case ERemove(at) => RemoveMinioBucket(w, at)
    case ETick => w.(now := w.now + 1)
  }

  predicate Enabled(act: Action, w: World) {
    match act
    case ByAccounts(a) => AGuard(a, w) && AAccepts(a, w)
    case ByBuckets(b) => BGuard(b, w) && BAccepts(b, w)
    case ByCollector(g) => GGuard(g, w) && GAccepts(g, w)
    case ByOutside(e) => EAccepts(e, w)
  }

  function Effect(act: Action, w: World): World
    requires Enabled(act, w)
  {
    match act
    case ByAccounts(a) => AEffect(a, w)
    case ByBuckets(b) => BEffect(b, w)
    case ByCollector(g) => GEffect(g, w)
    case ByOutside(e) => EEffect(e, w)
  }

  // ---------------------------------------------------------------- runs

  /** Step i is enabled and leads from the i-th world to the next. */
  predicate Leads(worlds: seq<World>, acts: seq<Action>, i: nat)
    requires i < |acts| && |worlds| == |acts| + 1
  {
    Enabled(acts[i], worlds[i]) && worlds[i + 1] == Effect(acts[i], worlds[i])
  }

  /** Any interleaving of enabled steps by any actors: the worlds passed through
      and the steps between them. */
  ghost predicate Run(worlds: seq<World>, acts: seq<Action>) {
    && |worlds| == |acts| + 1
    && forall i :: 0 <= i < |acts| ==> Leads(worlds, acts, i)
  }

  lemma RunSnoc(worlds: seq<World>, acts: seq<Action>, act: Action)
    requires Run(worlds, acts) && Enabled(act, worlds[|acts|])
    ensures Run(worlds + [Effect(act, worlds[|acts|])], acts + [act])
  {
    var worlds' := worlds + [Effect(act, worlds[|acts|])];
    var acts' := acts + [act];
    forall i | 0 <= i < |acts'|
      ensures Leads(worlds', acts', i)
    {
      if i < |acts| {
        assert Leads(worlds, acts, i);
        assert acts'[i] == acts[i] && worlds'[i] == worlds[i] && worlds'[i + 1] == worlds[i + 1];
      }
    }
  }
}
