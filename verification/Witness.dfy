/** Runs that lead to the states of which the stronger claims would be false. */
module Witnesses {
  import opened Wrappers
  import opened Owners
  import opened Conditions
  import opened Worlds
  import opened Actions
  import opened Invariants
  import opened Safety
  import opened PassFacts
  import opened BucketPasses

  lemma Extend(worlds: seq<World>, acts: seq<Action>, act: Action) returns (worlds': seq<World>, acts': seq<Action>)
    requires FullRun(worlds, acts) && Enabled(act, worlds[|acts|])
    ensures FullRun(worlds', acts') && acts' == acts + [act] && worlds' == worlds + [Effect(act, worlds[|acts|])]
  {
    RunSnoc(worlds, acts, act);
    worlds', acts' := worlds + [Effect(act, worlds[|acts|])], acts + [act];
  }

  /** One Bucket is stored, carries the finalizer, and its controller is in a pass. */
  ghost predicate Scene(w: World, k: Key, b: Bucket, details: Provider) {
    && w.buckets == map[k := b] && w.accounts == map[] && w.secrets == map[]
    && w.providers == map[b.spec.provider := details]
    && b.finalizer && b.owners == [] && b.status.endpoint == None && b.status.secretName == None
    && w.desk.bucketPass && b.version <= w.tick
    && (b.spec.reclaim == Delete ==> k.name in w.past.everDelete)
  }

  lemma Created(w: World, k: Key, spec: BucketSpec, details: Provider) returns (worlds: seq<World>, acts: seq<Action>)
    requires Empty(w) && ValidName(k.name) && spec.provider != ""
    ensures FullRun(worlds, acts) && worlds[0] == w
    ensures var end := worlds[|acts|];
            && end.buckets.Keys == {k} && end.accounts == map[] && end.secrets == map[]
            && end.buckets[k] == Bucket(w.nextUid, end.buckets[k].version, false, false, [], spec, BucketStatus(None, None, [], NoPhase))
            && end.providers == map[spec.provider := details] && end.minio == w.minio && end.past.made == {}
            && end.desk == CLEAR && end.buckets[k].version <= end.tick && end.now == w.now
            && (spec.reclaim == Delete ==> k.name in end.past.everDelete)
  {
    worlds, acts := [w], [];
    worlds, acts := Extend(worlds, acts, ByOutside(EPutProvider(spec.provider, details)));
    var w1 := worlds[1];
    assert w1 == w.(providers := w.providers[spec.provider := details]);
    worlds, acts := Extend(worlds, acts, ByOutside(ECreateBucket(k, spec, [])));
  }

  /** The first two passes' calls: the finalizer is added and the next pass begins. */
  lemma Finalized(worlds0: seq<World>, acts0: seq<Action>, k: Key, details: Provider)
    returns (worlds: seq<World>, acts: seq<Action>)
    requires FullRun(worlds0, acts0)
    requires var w := worlds0[|acts0|];
             && w.buckets.Keys == {k} && w.accounts == map[] && w.secrets == map[]
             && w.providers == map[w.buckets[k].spec.provider := details]
             && w.buckets[k].owners == [] && w.buckets[k].status == BucketStatus(None, None, [], NoPhase)
             && !w.buckets[k].deleting && w.buckets[k].version <= w.tick
             && (w.buckets[k].spec.reclaim == Delete ==> k.name in w.past.everDelete)
    ensures FullRun(worlds, acts) && |acts| == |acts0| + 2 && worlds[0] == worlds0[0]
    ensures var w, end := worlds0[|acts0|], worlds[|acts|];
            && k in end.buckets && Scene(end, k, end.buckets[k], details)
            && end.buckets[k] == w.buckets[k].(version := end.buckets[k].version, finalizer := true)
            && end.minio == w.minio && end.past.made == w.past.made && end.past.keep == w.minio.buckets
            && end.desk.mine == {} && end.now == w.now
  {
    var w := worlds0[|acts0|];
    worlds, acts := Extend(worlds0, acts0, ByBuckets(BBegin));
    var w1 := worlds[|acts|];
    var b := w1.buckets[k];
    worlds, acts := Extend(worlds, acts, ByBuckets(BUpdate(k, b.version, b.(finalizer := true))));
    assert worlds[|acts|].buckets.Keys == {k};
  }

  /** The reply to MakeBucket is lost: the MinIO bucket is there, made by this very
      resource, and no endpoint is recorded. */
  lemma LostReply(w: World, k: Key, spec: BucketSpec, details: Provider) returns (worlds: seq<World>, acts: seq<Action>)
    requires Empty(w) && ValidName(k.name) && spec.provider != "" && At(spec.provider, k.name) !in w.minio.buckets
    ensures FullRun(worlds, acts) && worlds[0] == w
    ensures var end := worlds[|acts|];
            && k in end.buckets && Scene(end, k, end.buckets[k], details) && end.buckets[k].spec == spec
            && !end.buckets[k].deleting && At(spec.provider, k.name) in end.minio.buckets
            && (end.buckets[k].uid, At(spec.provider, k.name)) in end.past.made
            && end.desk.mine == {At(spec.provider, k.name)} && At(spec.provider, k.name) !in end.past.keep
    ensures |acts| > 0
    ensures var last, end := worlds[|acts| - 1], worlds[|acts|];
            && k in last.buckets && Scene(last, k, last.buckets[k], details) && last.buckets[k] == end.buckets[k]
            && IsMake(acts[|acts| - 1], last, At(spec.provider, k.name)) && At(spec.provider, k.name) !in last.minio.buckets
  {
    worlds, acts := Created(w, k, spec, details);
    worlds, acts := Finalized(worlds, acts, k, details);
    worlds, acts := Extend(worlds, acts, ByBuckets(BMake(k)));
  }

  /** A rollback can hit somebody else's MinIO bucket: one that an outsider has put
      in the place of the one the pass has made. */
  lemma RollbackCanHitAnothers(w: World, k: Key, spec: BucketSpec, details: Provider)
    returns (worlds: seq<World>, acts: seq<Action>)
    requires Empty(w) && ValidName(k.name) && spec.provider != "" && At(spec.provider, k.name) !in w.minio.buckets
    ensures FullRun(worlds, acts) && worlds[0] == w && |acts| > 4
    ensures var at := At(spec.provider, k.name);
            && IsMake(acts[|acts| - 4], worlds[|acts| - 4], at) && acts[|acts| - 3] == ByOutside(ERemove(at))
            && acts[|acts| - 2] == ByOutside(EMake(at)) && acts[|acts| - 1] == ByBuckets(BUnmake(at))
  {
    var at := At(spec.provider, k.name);
    worlds, acts := LostReply(w, k, spec, details);
    worlds, acts := Replaced(worlds, acts, at);
    worlds, acts := Extend(worlds, acts, ByBuckets(BUnmake(at)));
  }

  /** An outsider removes a MinIO bucket and makes another of that name. */
  lemma Replaced(worlds0: seq<World>, acts0: seq<Action>, at: Loc) returns (worlds: seq<World>, acts: seq<Action>)
    requires FullRun(worlds0, acts0) && at in worlds0[|acts0|].minio.buckets
    ensures acts == acts0 + [ByOutside(ERemove(at)), ByOutside(EMake(at))]
    ensures FullRun(worlds, acts) && worlds[..|acts0| + 1] == worlds0
    ensures var w, end := worlds0[|acts0|], worlds[|acts|];
            end.desk == w.desk && at in end.minio.buckets && end.past.keep == w.past.keep - {at}
  {
    worlds, acts := Extend(worlds0, acts0, ByOutside(ERemove(at)));
    worlds, acts := Extend(worlds, acts, ByOutside(EMake(at)));
  }

  /** A Bucket with policy Delete meets a MinIO bucket that was there before it, is
      in conflict, and is deleted: the MinIO bucket goes, never made by it. */
  lemma DeletionCanRemoveAnothers(w: World, k: Key, spec: BucketSpec, details: Provider)
    returns (worlds: seq<World>, acts: seq<Action>)
    requires Empty(w) && ValidName(k.name) && spec.provider != "" && spec.reclaim == Delete
    requires At(spec.provider, k.name) in w.minio.buckets
    ensures FullRun(worlds, acts) && worlds[0] == w && |acts| > 1
    ensures var at := At(spec.provider, k.name);
            && acts[|acts| - 1] == ByBuckets(BForce(at))
            && at in worlds[|acts| - 1].minio.buckets && at !in worlds[|acts|].minio.buckets
            && worlds[|acts|].past.made == {} && k in worlds[|acts|].buckets
            && worlds[|acts|].buckets[k].deleting && IsTrue(worlds[|acts|].buckets[k].status.conditions, Deleting)
  {
    var at := At(spec.provider, k.name);
    worlds, acts := Created(w, k, spec, details);
    worlds, acts := Finalized(worlds, acts, k, details);
    worlds, acts := Conflicted(worlds, acts, k, details);
    worlds, acts := Erased(worlds, acts, k, details);
    worlds, acts := Extend(worlds, acts, ByBuckets(BBegin));
    worlds, acts := Extend(worlds, acts, ByBuckets(BForce(at)));
  }

  /** The Bucket is deleted, and its controller's next pass marks it. */
  lemma Erased(worlds0: seq<World>, acts0: seq<Action>, k: Key, details: Provider)
    returns (worlds: seq<World>, acts: seq<Action>)
    requires FullRun(worlds0, acts0)
    requires var w := worlds0[|acts0|]; k in w.buckets && Scene(w, k, w.buckets[k], details) && !w.buckets[k].deleting
    ensures FullRun(worlds, acts) && |acts| == |acts0| + 3 && worlds[0] == worlds0[0]
    ensures var w, end := worlds0[|acts0|], worlds[|acts|];
            && k in end.buckets && Scene(end, k, end.buckets[k], details) && end.buckets[k].deleting
            && IsTrue(end.buckets[k].status.conditions, Deleting) && end.buckets[k].spec == w.buckets[k].spec
            && end.minio == w.minio && end.past.made == w.past.made
  {
    worlds, acts := Extend(worlds0, acts0, ByOutside(EDeleteBucket(k)));
    assert worlds[|acts|].buckets.Keys == {k};
    worlds, acts := Extend(worlds, acts, ByBuckets(BBegin));
    worlds, acts := Marked(worlds, acts, k, details);
  }

  /** The pass stores the deletion mark. */
  lemma Marked(worlds0: seq<World>, acts0: seq<Action>, k: Key, details: Provider)
    returns (worlds: seq<World>, acts: seq<Action>)
    requires FullRun(worlds0, acts0)
    requires var w := worlds0[|acts0|]; k in w.buckets && Scene(w, k, w.buckets[k], details) && w.buckets[k].deleting
    ensures FullRun(worlds, acts) && |acts| == |acts0| + 1 && worlds[0] == worlds0[0]
    ensures var w, end := worlds0[|acts0|], worlds[|acts|];
            && k in end.buckets && Scene(end, k, end.buckets[k], details) && end.buckets[k].deleting
            && IsTrue(end.buckets[k].status.conditions, Deleting) && end.buckets[k].spec == w.buckets[k].spec
            && end.minio == w.minio && end.past == w.past
  {
    var b := worlds0[|acts0|].buckets[k];
    var step := BucketStep(None, None, Erase, worlds0[|acts0|].now);
    worlds, acts := Extend(worlds0, acts0, ByBuckets(BStatus(k, b.version, BucketStepped(b.status, step), step, Unproved)));
    assert worlds[|acts|].buckets.Keys == {k};
  }

  /** The conflict is recorded: Error, and no endpoint. */
  lemma Conflicted(worlds0: seq<World>, acts0: seq<Action>, k: Key, details: Provider)
    returns (worlds: seq<World>, acts: seq<Action>)
    requires FullRun(worlds0, acts0)
    requires var w := worlds0[|acts0|]; k in w.buckets && Scene(w, k, w.buckets[k], details) && !w.buckets[k].deleting
    ensures FullRun(worlds, acts) && |acts| == |acts0| + 1 && worlds[0] == worlds0[0]
    ensures var w, end := worlds0[|acts0|], worlds[|acts|];
            && k in end.buckets && Scene(end, k, end.buckets[k], details)
            && end.buckets[k].status.phase == Phase(Error) && !end.buckets[k].deleting
            && end.buckets[k].spec == w.buckets[k].spec && end.buckets[k].uid == w.buckets[k].uid
            && end.minio == w.minio && end.past == w.past
  {
    var b := worlds0[|acts0|].buckets[k];
    var step := BucketStep(None, None, Change.Fail, worlds0[|acts0|].now);
    worlds, acts := Extend(worlds0, acts0, ByBuckets(BStatus(k, b.version, BucketStepped(b.status, step), step, Unproved)));
  }
}
