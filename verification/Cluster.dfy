/** The API servers as a controller meets them: before every call the others may
    take any number of steps, and the call itself may fail. A failed call may
    still have taken effect; only its reply is lost. */
module Clusters {
  import opened Worlds
  import opened Actions
  import opened Invariants
  import opened Relying

  /** Done: accepted. Refused: a definite no (not found, conflict, already
      exists) without effect. Fault: an error after which nothing is known. */
  datatype Reply = Done | Refused | Fault

  class Cluster {
    var w: World
    const busy: bool    // others run between this controller's calls
    const faulty: bool  // calls may fail
    ghost var passed: seq<World>
    ghost var trace: seq<Action>
    ghost var asked: seq<Action> // the controllers' writing calls, whatever has come of them

    /** The world is where the recorded steps lead, each of them enabled. */
    ghost predicate Valid()
      reads this`w, this`trace, this`passed
    {
      Run(passed, trace) && Inv(passed[0]) && w == passed[|trace|]
    }

    /** The latest writing call. */
    ghost predicate LastAsked(act: Action)
      reads this`asked
    {
      asked != [] && asked[|asked| - 1] == act
    }

    /** The latest two. */
    ghost predicate LastAskedBoth(first: Action, second: Action)
      reads this`asked
    {
      |asked| > 1 && asked[|asked| - 2] == first && asked[|asked| - 1] == second
    }

    predicate Quiet() {
      !busy && !faulty
    }

    /** Nobody else runs, and no call fails, or none has so far by its caller's account. */
    predicate Smooth(ok: bool) {
      !busy && (!faulty || ok)
    }

    constructor (w: World, busy: bool, faulty: bool)
      requires Inv(w)
      ensures Valid() && this.w == w && this.busy == busy && this.faulty == faulty
    {
      this.w := w;
      this.busy := busy;
      this.faulty := faulty;
      this.passed := [w];
      this.trace := [];
      this.asked := [];
    }

    lemma Good()
      requires Valid()
      ensures Inv(w)
    {
      RunKeepsInv(passed, trace, |trace|);
    }

    method Take(act: Action)
      requires Valid() && Enabled(act, w)
      modifies this`w, this`trace, this`passed
      ensures Valid() && w == Effect(act, old(w)) && trace == old(trace) + [act]
    {
      RunSnoc(passed, trace, act);
      w := Effect(act, w);
      passed := passed + [w];
      trace := trace + [act];
    }

    /** Some other actor takes one step, if the step it tries is enabled. */
    method OtherStep(me: Actor)
      requires Valid()
      modifies this`w, this`trace, this`passed
      ensures Valid() && Rely(me, old(w), w)
      ensures old(trace) <= trace && forall i :: |old(trace)| <= i < |trace| ==> ActorOf(trace[i]) != me
    {
      var act: Action := *;
      if ActorOf(act) != me && Enabled(act, w) {
        OthersKeepRely(me, act, w);
        Take(act);
      } else {
        RelyReflexive(me, w);
      }
    }

    /** The others take any number of steps. */
    method Interfere(me: Actor)
      requires Valid()
      modifies this`w, this`trace, this`passed
      ensures Valid() && Rely(me, old(w), w)
      ensures !busy ==> w == old(w)
      ensures old(trace) <= trace && forall i :: |old(trace)| <= i < |trace| ==> ActorOf(trace[i]) != me
    {
      var steps: nat := *;
      if !busy {
        steps := 0;
      }
      RelyReflexive(me, w);
      while steps > 0
        invariant !busy ==> steps == 0 && w == old(w)
        invariant Valid() && Rely(me, old(w), w)
        invariant old(trace) <= trace && forall i :: |old(trace)| <= i < |trace| ==> ActorOf(trace[i]) != me
      {
        ghost var before := w;
        OtherStep(me);
        RelyTransitive(me, old(w), before, w);
        steps := steps - 1;
      }
    }

    /** A reading call: the caller looks at the world after the others have run,
        or learns nothing. */
    method Read(me: Actor) returns (ok: bool)
      requires Valid()
      modifies this`w, this`trace, this`passed
      ensures Valid() && Rely(me, old(w), w)
      ensures !busy ==> w == old(w)
      ensures !faulty ==> ok
    {
      Interfere(me);
      ok := *;
      if !faulty {
        ok := true;
      }
    }

    /** The call itself: done, refused, or lost. */
    method AttemptA(act: AAct) returns (reply: Reply)
      requires Valid() && AGuard(act, w)
      modifies this`w, this`trace, this`passed
      ensures Valid() && Newer(old(w), w) && (!act.ARelease? ==> AccountsLast(old(w), w))
      ensures reply.Done? ==> AAccepts(act, old(w)) && w == AEffect(act, old(w))
      ensures reply.Refused? ==> !AAccepts(act, old(w)) && w == old(w)
      ensures reply.Fault? ==> faulty && (w == old(w) || (AAccepts(act, old(w)) && w == AEffect(act, old(w))))
    {
      var heard: bool, taken: bool := *, *;
      if AAccepts(act, w) {
        if !faulty || heard || taken {
          ACallLasts(act, w);
          Take(ByAccounts(act));
        }
        reply := if !faulty || heard then Done else Fault;
      } else {
        reply := if !faulty || heard then Refused else Fault;
      }
    }

    /** A writing call of the account controller. The caller owes the guard; the
        server decides the rest. `mid` is the world the call meets. */
    method CallA(act: AAct) returns (reply: Reply, ghost mid: World)
      requires Valid() && AGuard(act, w) && AKnown(act, w)
      modifies this`w, this`trace, this`passed, this`asked
      ensures asked == old(asked) + [ByAccounts(act)]
      ensures Valid() && Rely(AccountWorker, old(w), mid) && AGuard(act, mid)
      ensures Newer(mid, w) && (!act.ARelease? ==> AccountsLast(mid, w))
      ensures !busy ==> mid == old(w)
      ensures reply.Done? ==> AAccepts(act, mid) && w == AEffect(act, mid)
      ensures reply.Refused? ==> !AAccepts(act, mid) && w == mid
      ensures reply.Fault? ==> faulty && (w == mid || (AAccepts(act, mid) && w == AEffect(act, mid)))
    {
      asked := asked + [ByAccounts(act)];
      Interfere(AccountWorker);
      mid := w;
      AGuardIsStable(act, old(w), w);
      reply := AttemptA(act);
    }

    /** The call itself: done, refused, or lost. */
    method AttemptB(act: BAct) returns (reply: Reply)
      requires Valid() && BGuard(act, w)
      modifies this`w, this`trace, this`passed
      ensures Valid() && Newer(old(w), w) && (!act.BRelease? ==> BucketsLast(old(w), w))
      ensures reply.Done? ==> BAccepts(act, old(w)) && w == BEffect(act, old(w))
      ensures reply.Refused? ==> !BAccepts(act, old(w)) && w == old(w)
      ensures reply.Fault? ==> faulty && (w == old(w) || (BAccepts(act, old(w)) && w == BEffect(act, old(w))))
    {
      var heard: bool, taken: bool := *, *;
      if BAccepts(act, w) {
        if !faulty || heard || taken {
          BCallLasts(act, w);
          Take(ByBuckets(act));
        }
        reply := if !faulty || heard then Done else Fault;
      } else {
        reply := if !faulty || heard then Refused else Fault;
      }
    }

    /** A writing call of the bucket controller. */
    method CallB(act: BAct) returns (reply: Reply, ghost mid: World)
      requires Valid() && BGuard(act, w) && BKnown(act, w)
      modifies this`w, this`trace, this`passed, this`asked
      ensures asked == old(asked) + [ByBuckets(act)]
      ensures Valid() && Rely(BucketWorker, old(w), mid) && BGuard(act, mid) && Present(mid)
      ensures Newer(mid, w) && (!act.BRelease? ==> BucketsLast(mid, w))
      ensures !busy ==> mid == old(w)
      ensures reply.Done? ==> BAccepts(act, mid) && w == BEffect(act, mid)
      ensures reply.Refused? ==> !BAccepts(act, mid) && w == mid
      ensures reply.Fault? ==> faulty && (w == mid || (BAccepts(act, mid) && w == BEffect(act, mid)))
    {
      asked := asked + [ByBuckets(act)];
      Interfere(BucketWorker);
      mid := w;
      Good();
      BGuardIsStable(act, old(w), w);
      reply := AttemptB(act);
    }

    /** A writing call of the garbage collector. */
    method CallG(act: GAct) returns (reply: Reply, ghost mid: World)
      requires Valid() && GGuard(act, w) && GKnown(act, w)
      modifies this`w, this`trace, this`passed, this`asked
      ensures asked == old(asked) + [ByCollector(act)]
      ensures Valid() && Rely(Collector, old(w), mid) && GGuard(act, mid) && Newer(mid, w)
      ensures !busy ==> mid == old(w)
      ensures reply.Done? ==> GAccepts(act, mid) && w == GEffect(act, mid)
      ensures reply.Refused? ==> !GAccepts(act, mid) && w == mid
      ensures reply.Fault? ==> faulty && (w == mid || (GAccepts(act, mid) && w == GEffect(act, mid)))
    {
      asked := asked + [ByCollector(act)];
      Interfere(Collector);
      mid := w;
      GGuardIsStable(act, old(w), w);
      var heard: bool, taken: bool := *, *;
      if GAccepts(act, w) {
        if !faulty || heard || taken {
          StepIsNewer(ByCollector(act), w);
          Take(ByCollector(act));
        }
        reply := if !faulty || heard then Done else Fault;
      } else {
        reply := if !faulty || heard then Refused else Fault;
      }
      if w == mid {
        assert Newer(mid, w);
      }
    }
  }
}
