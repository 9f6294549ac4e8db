/** The shared world of the protocol: what the Kubernetes API server stores,
    what the MinIO servers hold, and a little history for the proofs. */
module Worlds {
  import opened Wrappers
  import opened Owners
  import opened Conditions

  const PREFIX := "bucket.s3.linka.cloud/"
  const SA_SECRET_SUFFIX := "-sa"

  const MINIO_ACCESS_KEY := "MINIO_ACCESS_KEY"
  const MINIO_SECRET_KEY := "MINIO_SECRET_KEY"
  const MINIO_ENDPOINT := "MINIO_ENDPOINT"
  const MINIO_BUCKET := "MINIO_BUCKET"
  const MINIO_SECURE := "MINIO_SECURE"

  /** A namespaced object's name. */
  datatype Key = Key(ns: string, name: string)

  /** A name on the MinIO server of a provider. */
  datatype Loc = At(provider: string, name: string)

  /** An access key live on the MinIO server of a provider. */
  datatype Live = Live(provider: string, serial: nat)

  /** What DeleteServiceAccount is given: a generated key, or some other text.
      Generated keys never start with PREFIX, so the two kinds never meet. */
  datatype KeyId = Serial(serial: nat) | Named(name: string)

  // ---------------------------------------------------------------- stored objects

  datatype Reclaim = Unset | Retain | Delete

  datatype Phase = NoPhase | Phase(kind: Kind)

  datatype BucketSpec = BucketSpec(
    provider: string,
    serviceAccount: string,
    reclaim: Reclaim,
    secretName: Option<string>,
    template: map<string, string>)

  datatype BucketStatus = BucketStatus(
    endpoint: Option<string>,
    secretName: Option<string>,
    conditions: Conditions,
    phase: Phase)

  datatype Bucket = Bucket(
    uid: nat,
    version: nat,
    deleting: bool,
    finalizer: bool,
    owners: seq<OwnerRef>,
    spec: BucketSpec,
    status: BucketStatus)

  datatype AccountStatus = AccountStatus(
    secretName: Option<string>,
    conditions: Conditions,
    phase: Phase)

  datatype Account = Account(
    uid: nat,
    version: nat,
    deleting: bool,
    finalizer: bool,
    provider: string,
    status: AccountStatus)

  /** The bytes of one secret entry: text, or one half of a generated key pair. */
  datatype Datum = Text(text: string) | AccessKey(serial: nat) | SecretKey(serial: nat)

  datatype Secret = Secret(version: nat, owners: seq<OwnerRef>, data: map<string, Datum>)

  datatype Provider = Provider(endpoint: string, secure: bool, isDefault: bool)

  /** A canned policy's document: the text PolicyText.Policy gives for a bucket, or some
      other text. PolicyText.PolicyInjective is why the bucket stands for the text. */
  datatype Document = PolicyOf(bucket: string) | OtherText(text: string)

  // ---------------------------------------------------------------- the world

  datatype Minio = Minio(
    buckets: set<Loc>,
    users: set<Loc>,
    keys: map<Live, string>,      // live access key -> its user
    policies: map<Loc, Document>, // canned policy -> document
    attached: map<Loc, set<string>>) // user -> names of its policies

  /** What an account pass had seen of the bucket list when it stored a status. */
  datatype Saw = Nothing | NoBucket(at: nat) | SomeBucket(at: nat)

  /** History the proofs speak about; no controller reads it. */
  datatype History = History(
    made: set<(nat, Loc)>,        // bucket uid, MinIO bucket made by it
    everDelete: set<string>,      // names of Buckets that ever had policy Delete
    keep: set<Loc>,               // MinIO buckets present ever since the current Bucket pass began
    bucketProviders: set<string>, // providers present ever since the current Bucket pass began
    accountProviders: set<string>,// providers present ever since the current account pass began
    abandoned: set<Loc>,          // users left behind because their provider was missing
    seen: map<nat, seq<Saw>>)     // account uid -> observations its stored statuses rest on

  /** What a listing of an account's buckets returned. */
  datatype Listing = Listing(account: Key, buckets: set<Key>, at: nat)

  /** Something a server has told the bucket controller, or that its pass has come
      to the Ready block. */
  datatype Fact =
    | Reached
    | AccountStored(account: Key, uid: nat)
    | MinioStored(at: Loc)
    | SecretStored(key: Key, secret: Secret)
    | ProviderStored(name: string, details: Provider)

  /** What the controllers have learned and done in their current passes. The proofs
      speak about it; nothing that is stored depends on it. */
  datatype Desk = Desk(
    accountPass: bool,            // an account pass has begun
    listed: Option<Listing>,      // its latest listing
    bucketPass: bool,             // a bucket pass has begun
    facts: set<Fact>,             // what it has been told
    mine: set<Loc>,               // MinIO buckets it has made and not removed
    sweep: Option<map<Key, Account>>, // what the collector's current sweep has listed
    marked: set<Key>,             // accounts it has marked in this sweep
    condemned: set<Key>)          // accounts it has asked to delete in this sweep

  datatype World = World(
    now: nat,
    tick: nat,     // last version handed out
    nextUid: nat,
    serial: nat,   // next access key MinIO will generate
    providers: map<string, Provider>,
    buckets: map<Key, Bucket>,
    accounts: map<Key, Account>,
    secrets: map<Key, Secret>,
    minio: Minio,
    past: History,
    desk: Desk)

  // ---------------------------------------------------------------- names

  /** The MinIO user of an account and the MinIO policy of a bucket. */
  function Prefixed(name: string): string {
    PREFIX + name
  }

  function SaKey(account: Key): Key {
    Key(account.ns, account.name + SA_SECRET_SUFFIX)
  }

  function UserOf(account: Key, provider: string): Loc {
    At(provider, Prefixed(account.name))
  }

  /** The alphabet of Kubernetes object names (DNS subdomains). */
  predicate ValidName(s: string) {
    s != "" && forall i :: 0 <= i < |s| ==> 'a' <= s[i] <= 'z' || '0' <= s[i] <= '9' || s[i] == '-' || s[i] == '.'
  }

  lemma NamesAreInjective(a: Key, b: Key)
    ensures SaKey(a) == SaKey(b) ==> a == b
    ensures Prefixed(a.name) == Prefixed(b.name) ==> a.name == b.name
  {
    var x, y := a.name + SA_SECRET_SUFFIX, b.name + SA_SECRET_SUFFIX;
    if x == y {
      assert a.name == x[..|x| - |SA_SECRET_SUFFIX|] == b.name;
    }
    var u, v := Prefixed(a.name), Prefixed(b.name);
    if u == v {
      assert a.name == u[|PREFIX|..] == b.name;
    }
  }

  // ---------------------------------------------------------------- credentials

  /** The secret belongs to an account: its controller is one. */
  predicate AccountControlled(s: Secret) {
    var c := ControllerOf(s.owners);
    c.Some? && c.value.kind == ACCOUNT_KIND
  }

  /** The secret is controlled by this very account. */
  predicate ControlledBy(s: Secret, account: Key, uid: nat) {
    ControllerOf(s.owners) == Some(AccountRef(account.name, uid))
  }

  function SaSecret(account: Key, uid: nat, serial: nat): Secret {
    Secret(0, [AccountRef(account.name, uid)],
           map[MINIO_ACCESS_KEY := AccessKey(serial), MINIO_SECRET_KEY := SecretKey(serial)])
  }

  /** The serials of a user's live keys. */
  function KeysOf(m: Minio, user: Loc): set<nat> {
    set l | l in m.keys && l.provider == user.provider && m.keys[l] == user.name :: l.serial
  }

  /** The user exists and this access key is its one and only live key. */
  predicate SoleKey(m: Minio, user: Loc, serial: nat) {
    user in m.users && KeysOf(m, user) == {serial}
  }

  /** The account's credentials secret exists and is the account's own. */
  predicate HasOwnSecret(w: World, account: Key) {
    account in w.accounts && SaKey(account) in w.secrets &&
    ControlledBy(w.secrets[SaKey(account)], account, w.accounts[account].uid)
  }

  /** The buckets the index lists under an account name. */
  function Indexed(w: World, account: string): set<Key> {
    set k | k in w.buckets && IndexKeys(w.buckets[k].owners) == [account]
  }

  function Lookup(data: map<string, Datum>, entry: string): Datum {
    if entry in data then data[entry] else Text("")
  }

  predicate DefaultProvider(w: World, name: string) {
    name in w.providers && w.providers[name].isDefault
  }

  // ---------------------------------------------------------------- the desk

  const CLEAR := Desk(false, None, false, {}, {}, None, {}, {})

  /** The world without what the controllers know of it. */
  function Bare(w: World): World {
    w.(desk := CLEAR)
  }

  /** What the latest listing says of an account. */
  function Sighted(listed: Option<Listing>, account: Key): Saw {
    if listed.None? || listed.value.account != account then Nothing
    else if listed.value.buckets == {} then NoBucket(listed.value.at)
    else SomeBucket(listed.value.at)
  }

  predicate Holds(w: World, fact: Fact) {
    match fact
    case Reached => true
    case AccountStored(a, uid) => a in w.accounts && w.accounts[a].uid == uid
    case MinioStored(at) => at in w.minio.buckets
    case SecretStored(k, s) => k in w.secrets && w.secrets[k].(version := 0) == s
    case ProviderStored(n, p) => n in w.providers && w.providers[n] == p
  }

  function NamesOf(buckets: set<Key>): set<string> {
    set b | b in buckets :: Prefixed(b.name)
  }

  // ---------------------------------------------------------------- a bucket's names

  function AccountKey(k: Key, b: Bucket): Key {
    Key(k.ns, b.spec.serviceAccount)
  }

  function TargetKey(k: Key, b: Bucket): Key {
    Key(k.ns, if b.spec.secretName.Some? then b.spec.secretName.value else "")
  }

  function MinioAt(k: Key, b: Bucket): Loc {
    At(b.spec.provider, k.name)
  }
}
