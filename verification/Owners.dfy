/** Owner references of a Kubernetes object (controllers/utils.go): the
    specification functions, what they guarantee, and the index that groups
    buckets by the account controlling them. */
module Owners {
  import opened Wrappers

  const ACCOUNT_KIND := "BucketServiceAccount"
  const BUCKET_KIND := "Bucket"
  const GROUP := "s3.linka.cloud"
  const VERSION := "v1alpha1"

  datatype OwnerRef = OwnerRef(apiVersion: string, kind: string, name: string, uid: nat,
                               block: bool, controller: bool)

  datatype GroupVersion = GroupVersion(group: string, version: string)

  // ---------------------------------------------------------------- group/version

  function Slashes(s: string): nat {
    if s == "" then 0 else (if s[0] == '/' then 1 else 0) + Slashes(s[1..])
  }

  function FirstSlash(s: string): (i: nat)
    ensures i <= |s|
    ensures forall j :: 0 <= j < i ==> s[j] != '/'
    ensures i < |s| ==> s[i] == '/'
  {
    if s == "" || s[0] == '/' then 0 else 1 + FirstSlash(s[1..])
  }

  /** apimachinery's ParseGroupVersion; None stands for its error. */
  function ParseGroupVersion(s: string): Option<GroupVersion> {
    if s == "" || s == "/" then Some(GroupVersion("", ""))
    else if Slashes(s) == 0 then Some(GroupVersion("", s))
    else if Slashes(s) == 1 then
      var i := FirstSlash(s);
      if i < |s| then Some(GroupVersion(s[..i], s[i + 1..])) else None
    else None
  }

  function FormatGroupVersion(gv: GroupVersion): string {
    if gv.group == "" then gv.version else gv.group + "/" + gv.version
  }

  const API_VERSION := FormatGroupVersion(GroupVersion(GROUP, VERSION))

  lemma {:induction false} SlashesConcat(a: string, b: string)
    ensures Slashes(a + b) == Slashes(a) + Slashes(b)
  {
    if a == "" {
      assert a + b == b;
    } else {
      assert (a + b)[1..] == a[1..] + b;
      SlashesConcat(a[1..], b);
    }
  }

  lemma {:induction false} NoSlashes(s: string)
    requires '/' !in s
    ensures Slashes(s) == 0
  {
    if s != "" {
      NoSlashes(s[1..]);
    }
  }

  /** Parsing undoes formatting for every group and version free of slashes. */
  lemma ParseFormat(gv: GroupVersion)
    requires '/' !in gv.group && '/' !in gv.version
    ensures ParseGroupVersion(FormatGroupVersion(gv)) == Some(gv)
  {
    var s := FormatGroupVersion(gv);
    NoSlashes(gv.group);
    NoSlashes(gv.version);
    if gv.group != "" {
      SlashesConcat(gv.group, "/" + gv.version);
      SlashesConcat("/", gv.version);
      assert Slashes("/") == 1 by { assert "/"[1..] == ""; }
      assert s == gv.group + ("/" + gv.version);
      var n := |gv.group|;
      assert s[n] == '/';
      assert FirstSlash(s) == n by {
        assert forall j :: 0 <= j < n ==> s[j] == gv.group[j];
      }
      assert s[..n] == gv.group && s[n + 1..] == gv.version;
    }
  }

  lemma OwnVersionParses()
    ensures ParseGroupVersion(API_VERSION) == Some(GroupVersion(GROUP, VERSION))
  {
    ParseFormat(GroupVersion(GROUP, VERSION));
  }

  // ---------------------------------------------------------------- references

  /** referSameObject: group, kind and name, never the uid; a version that does
      not parse refers to nothing, not even to itself. */
  predicate Same(a: OwnerRef, b: OwnerRef) {
    var ga, gb := ParseGroupVersion(a.apiVersion), ParseGroupVersion(b.apiVersion);
    ga.Some? && gb.Some? && ga.value.group == gb.value.group && a.kind == b.kind && a.name == b.name
  }

  function AccountRef(name: string, uid: nat): OwnerRef {
    OwnerRef(API_VERSION, ACCOUNT_KIND, name, uid, true, true)
  }

  function BucketRef(name: string, uid: nat): OwnerRef {
    OwnerRef(API_VERSION, BUCKET_KIND, name, uid, true, true)
  }

  /** Position of the first controller, |owners| when there is none. */
  function ControllerIndex(owners: seq<OwnerRef>): (i: nat)
    ensures i <= |owners|
    ensures forall j :: 0 <= j < i ==> !owners[j].controller
    ensures i < |owners| ==> owners[i].controller
  {
    if owners == [] || owners[0].controller then 0 else 1 + ControllerIndex(owners[1..])
  }

  function ControllerOf(owners: seq<OwnerRef>): Option<OwnerRef> {
    var i := ControllerIndex(owners);
    if i < |owners| then Some(owners[i]) else None
  }

  /** Position of the first entry naming the same object, |owners| when there is none. */
  function IndexOfSame(owners: seq<OwnerRef>, ref: OwnerRef): (i: nat)
    ensures i <= |owners|
    ensures forall j :: 0 <= j < i ==> !Same(owners[j], ref)
    ensures i < |owners| ==> Same(owners[i], ref)
  {
    if owners == [] || Same(owners[0], ref) then 0 else 1 + IndexOfSame(owners[1..], ref)
  }

  function CutAt(owners: seq<OwnerRef>, i: nat): seq<OwnerRef> {
    if i < |owners| then owners[..i] + owners[i + 1..] else owners
  }

  function Upsert(owners: seq<OwnerRef>, ref: OwnerRef): seq<OwnerRef> {
    var i := IndexOfSame(owners, ref);
    if i < |owners| then owners[i := ref] else owners + [ref]
  }

  /** What is left after a controller other than `ref` has been cut out. */
  function Released(owners: seq<OwnerRef>, ref: OwnerRef): seq<OwnerRef> {
    var c := ControllerOf(owners);
    if c.Some? && !Same(c.value, ref) then CutAt(owners, IndexOfSame(owners, c.value)) else owners
  }

  /** The list ForceControllerReference leaves behind. */
  function Forced(owners: seq<OwnerRef>, ref: OwnerRef): seq<OwnerRef> {
    Upsert(Released(owners, ref), ref)
  }

  /** controller-runtime's SetControllerReference; None is its AlreadyOwned error. */
  function Claimed(owners: seq<OwnerRef>, ref: OwnerRef): Option<seq<OwnerRef>> {
    var c := ControllerOf(owners);
    if c.Some? && !Same(c.value, ref) then None else Some(Upsert(owners, ref))
  }

  // ---------------------------------------------------------------- what Forced guarantees

  /** `ref` is the list's one and only controller. */
  ghost predicate SoleController(owners: seq<OwnerRef>, ref: OwnerRef) {
    exists i :: 0 <= i < |owners| && owners[i] == ref && ref.controller &&
                forall j :: 0 <= j < |owners| && j != i ==> !owners[j].controller
  }

  /** The rule the API server enforces on every stored list. */
  ghost predicate AtMostOneController(owners: seq<OwnerRef>) {
    forall i, j :: 0 <= i < j < |owners| ==> !(owners[i].controller && owners[j].controller)
  }

  ghost predicate Parseable(owners: seq<OwnerRef>) {
    forall i :: 0 <= i < |owners| ==> ParseGroupVersion(owners[i].apiVersion).Some?
  }

  ghost predicate Distinct(owners: seq<OwnerRef>) {
    forall i, j :: 0 <= i < j < |owners| ==> !Same(owners[i], owners[j])
  }

  /** The controller, if there is one, is the first entry naming its object
      (which also says that its version parses). */
  predicate ControllerFirst(owners: seq<OwnerRef>) {
    var c := ControllerIndex(owners);
    c < |owners| ==> IndexOfSame(owners, owners[c]) == c
  }

  lemma DistinctIsControllerFirst(owners: seq<OwnerRef>)
    requires Distinct(owners) && Parseable(owners)
    ensures ControllerFirst(owners)
  {
    var c := ControllerIndex(owners);
    if c < |owners| {
      assert Same(owners[c], owners[c]);
      var i := IndexOfSame(owners, owners[c]);
      assert i <= c;
    }
  }

  lemma ReleasedShape(owners: seq<OwnerRef>, ref: OwnerRef)
    requires AtMostOneController(owners) && ControllerFirst(owners)
    ensures var c := ControllerIndex(owners);
            Released(owners, ref) ==
            if c < |owners| && !Same(owners[c], ref) then owners[..c] + owners[c + 1..] else owners
    ensures forall j :: 0 <= j < |Released(owners, ref)| && Released(owners, ref)[j].controller ==>
              Same(Released(owners, ref)[j], ref) && ControllerIndex(owners) == j
  {
  }

  lemma ControllerFirstSuffices(owners: seq<OwnerRef>, ref: OwnerRef)
    requires AtMostOneController(owners) && ControllerFirst(owners)
    requires ref.controller && ParseGroupVersion(ref.apiVersion).Some?
    ensures SoleController(Forced(owners, ref), ref)
  {
    var c := ControllerIndex(owners);
    var i := IndexOfSame(Released(owners, ref), ref);
    var out := Forced(owners, ref);
    assert out[i] == ref;
    ReleasedShape(owners, ref);
    if c < |owners| && Same(owners[c], ref) {
      assert i == c by {
        assert forall j :: 0 <= j < c ==> !Same(owners[j], owners[c]);
      }
    }
    assert forall j :: 0 <= j < |out| && j != i ==> !out[j].controller;
  }

  lemma ControllerFirstIsNeeded(owners: seq<OwnerRef>, ref: OwnerRef)
    requires AtMostOneController(owners) && !ControllerFirst(owners)
    requires ref.controller && ParseGroupVersion(ref.apiVersion).Some?
    ensures !SoleController(Forced(owners, ref), ref)
  {
    var c := ControllerIndex(owners);
    var left := Released(owners, ref);
    var i := IndexOfSame(left, ref);
    var out := Forced(owners, ref);
    assert out[i] == ref;
    var first := IndexOfSame(owners, owners[c]);
    if Same(owners[c], ref) {
      assert first < c;
      assert Same(owners[first], ref);
      assert i < c && out[c] == owners[c];
    } else if first < |owners| {
      assert first < c;
      assert left[c - 1] == owners[c];
      assert !Same(left[c - 1], ref);
      assert out[c - 1] == owners[c];
    } else {
      assert left == owners && out[c] == owners[c];
    }
  }

  /** Exactly when the rewrite leaves one controller: for a list the API server
      can store, if and only if no earlier entry names the controller's object
      and the controller's version parses. */
  lemma SoleControllerExactly(owners: seq<OwnerRef>, ref: OwnerRef)
    requires AtMostOneController(owners)
    requires ref.controller && ParseGroupVersion(ref.apiVersion).Some?
    ensures SoleController(Forced(owners, ref), ref) <==> ControllerFirst(owners)
  {
    if ControllerFirst(owners) {
      ControllerFirstSuffices(owners, ref);
    } else {
      ControllerFirstIsNeeded(owners, ref);
    }
  }

  /** Entries that name some other object than `ref`, in order. */
  function Others(owners: seq<OwnerRef>, ref: OwnerRef): seq<OwnerRef> {
    if owners == [] then []
    else (if Same(owners[0], ref) then [] else [owners[0]]) + Others(owners[1..], ref)
  }

  lemma {:induction false} OthersConcat(a: seq<OwnerRef>, b: seq<OwnerRef>, ref: OwnerRef)
    ensures Others(a + b, ref) == Others(a, ref) + Others(b, ref)
  {
    if a == [] {
      assert a + b == b;
    } else {
      assert (a + b)[1..] == a[1..] + b;
      OthersConcat(a[1..], b, ref);
    }
  }

  lemma {:induction false} UpsertKeepsOthers(owners: seq<OwnerRef>, ref: OwnerRef)
    requires ParseGroupVersion(ref.apiVersion).Some?
    ensures Others(Upsert(owners, ref), ref) == Others(owners, ref)
  {
    if owners == [] {
      assert Upsert(owners, ref) == [ref];
      assert [ref][1..] == [];
    } else if Same(owners[0], ref) {
      assert Upsert(owners, ref)[1..] == owners[1..];
    } else {
      assert Upsert(owners, ref)[1..] == Upsert(owners[1..], ref);
      UpsertKeepsOthers(owners[1..], ref);
    }
  }

  /** The rewrite touches nothing but the old controller and the entry for
      `ref`: every other entry stays, in the same order. */
  lemma ForcedKeepsOthers(owners: seq<OwnerRef>, ref: OwnerRef)
    requires AtMostOneController(owners) && ControllerFirst(owners)
    requires ParseGroupVersion(ref.apiVersion).Some?
    ensures var c := ControllerIndex(owners);
            Others(Forced(owners, ref), ref) ==
            if c < |owners| && !Same(owners[c], ref) then Others(owners[..c], ref) + Others(owners[c + 1..], ref)
            else Others(owners, ref)
  {
    ReleasedShape(owners, ref);
    var c := ControllerIndex(owners);
    var left := Released(owners, ref);
    var i := IndexOfSame(left, ref);
    if c < |owners| && !Same(owners[c], ref) {
      OthersConcat(owners[..c], owners[c + 1..], ref);
    }
    UpsertKeepsOthers(left, ref);
  }

  lemma ForcedKeepsDistinct(owners: seq<OwnerRef>, ref: OwnerRef)
    requires AtMostOneController(owners) && Distinct(owners) && Parseable(owners)
    requires ParseGroupVersion(ref.apiVersion).Some? && ref.controller
    ensures Distinct(Forced(owners, ref)) && Parseable(Forced(owners, ref))
    ensures AtMostOneController(Forced(owners, ref))
  {
    DistinctIsControllerFirst(owners);
    ReleasedShape(owners, ref);
    SoleControllerExactly(owners, ref);
    UpsertKeepsDistinct(Released(owners, ref), ref);
  }

  lemma UpsertKeepsDistinct(left: seq<OwnerRef>, ref: OwnerRef)
    requires Distinct(left) && Parseable(left) && ParseGroupVersion(ref.apiVersion).Some?
    ensures Distinct(Upsert(left, ref)) && Parseable(Upsert(left, ref))
  {
    var i := IndexOfSame(left, ref);
    forall a, b | 0 <= a < b < |Upsert(left, ref)|
      ensures !Same(Upsert(left, ref)[a], Upsert(left, ref)[b])
    {
      if i < |left| && a == i { assert !Same(left[i], left[b]); }
      if i < |left| && b == i { assert !Same(left[a], left[i]); }
    }
  }

  /** Forcing the same account twice changes nothing the second time. */
  lemma ForcedIdempotent(owners: seq<OwnerRef>, ref: OwnerRef)
    requires AtMostOneController(owners) && ControllerFirst(owners)
    requires ref.controller && ParseGroupVersion(ref.apiVersion).Some?
    ensures Forced(Forced(owners, ref), ref) == Forced(owners, ref)
    ensures ControllerOf(Forced(owners, ref)) == Some(ref)
    ensures AtMostOneController(Forced(owners, ref)) && ControllerFirst(Forced(owners, ref))
  {
    SoleControllerExactly(owners, ref);
    var out := Forced(owners, ref);
    var c := ControllerIndex(out);
    assert out[c] == ref && Same(ref, ref);
    var left := Released(owners, ref);
    var i := IndexOfSame(left, ref);
    assert out[i] == ref && c == i;
    assert IndexOfSame(out, ref) == i by {
      assert forall j :: 0 <= j < i ==> out[j] == left[j] && !Same(left[j], ref);
    }
  }

  /** When SetControllerReference succeeds, the object's controller is the new reference. */
  lemma ClaimedController(owners: seq<OwnerRef>, ref: OwnerRef)
    requires ref.controller && Claimed(owners, ref).Some?
    ensures ControllerOf(Claimed(owners, ref).value) == Some(ref)
  {
    var out := Claimed(owners, ref).value;
    var i := IndexOfSame(owners, ref);
    assert out[i] == ref;
    assert forall j :: 0 <= j < i ==> out[j] == owners[j];
    assert forall j :: 0 <= j < i ==> !out[j].controller;
  }

  lemma ClaimedIdempotent(owners: seq<OwnerRef>, ref: OwnerRef)
    requires ref.controller && Claimed(owners, ref).Some?
    requires ParseGroupVersion(ref.apiVersion).Some?
    ensures Claimed(Claimed(owners, ref).value, ref) == Claimed(owners, ref)
  {
    var out := Claimed(owners, ref).value;
    var i := IndexOfSame(owners, ref);
    assert out[i] == ref && Same(ref, ref);
    assert forall j :: 0 <= j < i ==> out[j] == owners[j] && !out[j].controller && !Same(out[j], ref);
    assert IndexOfSame(out, ref) == i && ControllerIndex(out) == i;
    assert out[i := ref] == out;
  }

  // ---------------------------------------------------------------- the owner index

  /** The index function registered for buckets: the account names a bucket is listed under. */
  function IndexKeys(owners: seq<OwnerRef>): seq<string> {
    var c := ControllerOf(owners);
    if c.None? || c.value.apiVersion != API_VERSION || c.value.kind != ACCOUNT_KIND then [] else [c.value.name]
  }

  function ForcedAll(owners: seq<OwnerRef>, refs: seq<OwnerRef>): seq<OwnerRef>
  {
    if refs == [] then owners else Forced(ForcedAll(owners, refs[..|refs| - 1]), refs[|refs| - 1])
  }

  /** Over any sequence of account changes a bucket is listed under the last
      account forced on it and under no other, and its list stays well formed. */
  lemma {:induction false} IndexFollowsLastAccount(owners: seq<OwnerRef>, refs: seq<OwnerRef>)
    requires AtMostOneController(owners) && Distinct(owners) && Parseable(owners)
    requires forall i :: 0 <= i < |refs| ==> refs[i] == AccountRef(refs[i].name, refs[i].uid)
    ensures var out := ForcedAll(owners, refs);
            AtMostOneController(out) && Distinct(out) && Parseable(out) &&
            IndexKeys(out) == if refs == [] then IndexKeys(owners) else [refs[|refs| - 1].name]
  {
    if refs != [] {
      var before := refs[..|refs| - 1];
      var last := refs[|refs| - 1];
      IndexFollowsLastAccount(owners, before);
      OwnVersionParses();
      assert last == AccountRef(last.name, last.uid);
      var mid := ForcedAll(owners, before);
      DistinctIsControllerFirst(mid);
      ForcedKeepsDistinct(mid, last);
      ForcedIdempotent(mid, last);
    }
  }

  // ---------------------------------------------------------------- spelled out

  /** The two kinds of references the controllers make. */
  lemma ReferencesAre(name: string, uid: nat)
    ensures AccountRef(name, uid) == OwnerRef("s3.linka.cloud/v1alpha1", "BucketServiceAccount", name, uid, true, true)
    ensures BucketRef(name, uid) == OwnerRef("s3.linka.cloud/v1alpha1", "Bucket", name, uid, true, true)
  {
    assert "s3.linka.cloud" + "/" + "v1alpha1" == "s3.linka.cloud/v1alpha1";
  }

  /** Two references name the same object exactly when group, kind and name agree,
      whatever the versions and uids. */
  lemma SameExactly(a: OwnerRef, b: OwnerRef, g: GroupVersion, h: GroupVersion)
    requires '/' !in g.group && '/' !in g.version && '/' !in h.group && '/' !in h.version
    requires a.apiVersion == FormatGroupVersion(g) && b.apiVersion == FormatGroupVersion(h)
    ensures Same(a, b) <==> g.group == h.group && a.kind == b.kind && a.name == b.name
  {
    ParseFormat(g);
    ParseFormat(h);
  }

  lemma ReleasedPlain(owners: seq<OwnerRef>, ref: OwnerRef)
    requires AtMostOneController(owners) && ControllerFirst(owners)
    ensures (forall c :: 0 <= c < |owners| && owners[c].controller && !Same(owners[c], ref) ==>
               Released(owners, ref) == owners[..c] + owners[c + 1..])
    ensures (forall c :: 0 <= c < |owners| && owners[c].controller ==> Same(owners[c], ref)) ==>
              Released(owners, ref) == owners
  {
    ReleasedShape(owners, ref);
  }

  lemma UpsertPlain(owners: seq<OwnerRef>, ref: OwnerRef) returns (i: nat)
    ensures i <= |owners| && forall j :: 0 <= j < i ==> !Same(owners[j], ref)
    ensures i < |owners| ==> Same(owners[i], ref) && Upsert(owners, ref) == owners[..i] + [ref] + owners[i + 1..]
    ensures i == |owners| ==> Upsert(owners, ref) == owners + [ref]
  {
    i := IndexOfSame(owners, ref);
  }

  /** The rewrite entry by entry: a controller of another object is cut out where it
      stands; then the first entry naming the object of `ref` is replaced where it stands,
      or `ref` appended; nothing else moves. */
  lemma ForcedInPlace(owners: seq<OwnerRef>, ref: OwnerRef) returns (left: seq<OwnerRef>, i: nat)
    requires AtMostOneController(owners) && ControllerFirst(owners)
    ensures (forall c :: 0 <= c < |owners| && owners[c].controller && !Same(owners[c], ref) ==>
               left == owners[..c] + owners[c + 1..])
    ensures (forall c :: 0 <= c < |owners| && owners[c].controller ==> Same(owners[c], ref)) ==> left == owners
    ensures i <= |left| && forall j :: 0 <= j < i ==> !Same(left[j], ref)
    ensures i < |left| ==> Same(left[i], ref) && Forced(owners, ref) == left[..i] + [ref] + left[i + 1..]
    ensures i == |left| ==> Forced(owners, ref) == left + [ref]
  {
    ReleasedPlain(owners, ref);
    left := Released(owners, ref);
    i := UpsertPlain(left, ref);
  }

  /** A claim is refused exactly when another object is the controller; else the first
      entry naming the object of `ref` is replaced where it stands, or `ref` appended. */
  lemma ClaimedExactly(owners: seq<OwnerRef>, ref: OwnerRef) returns (i: nat)
    ensures Claimed(owners, ref).None? <==>
            exists c :: 0 <= c < |owners| && owners[c].controller && !Same(owners[c], ref) &&
                        forall j :: 0 <= j < c ==> !owners[j].controller
    ensures i <= |owners| && forall j :: 0 <= j < i ==> !Same(owners[j], ref)
    ensures Claimed(owners, ref).Some? && i < |owners| ==>
              Same(owners[i], ref) && Claimed(owners, ref).value == owners[..i] + [ref] + owners[i + 1..]
    ensures Claimed(owners, ref).Some? && i == |owners| ==> Claimed(owners, ref).value == owners + [ref]
  {
    var c := ControllerIndex(owners);
    i := UpsertPlain(owners, ref);
  }

  /** A bucket is listed under an account's name exactly when its first controller is a
      service account of that name, of this very group and version; and under no more
      than one name. */
  lemma IndexedExactly(owners: seq<OwnerRef>, name: string)
    ensures IndexKeys(owners) == [name] <==>
            exists c :: 0 <= c < |owners| && owners[c].controller && (forall j :: 0 <= j < c ==> !owners[j].controller) &&
                        owners[c].apiVersion == "s3.linka.cloud/v1alpha1" &&
                        owners[c].kind == "BucketServiceAccount" && owners[c].name == name
    ensures |IndexKeys(owners)| <= 1
  {
    var c := ControllerIndex(owners);
    assert "s3.linka.cloud" + "/" + "v1alpha1" == "s3.linka.cloud/v1alpha1";
  }
}
