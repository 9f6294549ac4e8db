/** The default provider: the scan that finds it (bucketprovider_controller.go:143-154)
    and why its order does not matter. */
module Providers {
  import opened Wrappers
  import opened Worlds
  import opened Invariants
  import opened Listings

  /** The first listed provider that carries the default annotation. */
  function FirstDefault(providers: map<string, Provider>, items: seq<string>): (found: Option<string>)
    requires forall n :: n in items ==> n in providers
    ensures found.Some? ==> found.value in items && providers[found.value].isDefault
    ensures found.None? ==> forall n :: n in items ==> !providers[n].isDefault
  {
    if items == [] then None
    else if providers[items[0]].isDefault then Some(items[0])
    else FirstDefault(providers, items[1..])
  }

  lemma {:induction false} SkipOthers(providers: map<string, Provider>, items: seq<string>, i: nat)
    requires forall n :: n in items ==> n in providers
    requires i <= |items| && forall j :: 0 <= j < i ==> !providers[items[j]].isDefault
    ensures FirstDefault(providers, items) == FirstDefault(providers, items[i..])
  {
    if i > 0 {
      SkipOthers(providers, items, i - 1);
      assert items[i - 1..][1..] == items[i..];
    }
  }

  /** defaultProvider. */
  method ScanForDefault(providers: map<string, Provider>, items: seq<string>) returns (found: Option<string>)
    requires forall n :: n in items ==> n in providers
    ensures found == FirstDefault(providers, items)
    ensures found.Some? ==> exists i :: 0 <= i < |items| && items[i] == found.value && providers[items[i]].isDefault &&
                                       forall j :: 0 <= j < i ==> !providers[items[j]].isDefault
    ensures found.None? ==> forall n :: n in items ==> !providers[n].isDefault
  {
    for i := 0 to |items|
      invariant forall j :: 0 <= j < i ==> !providers[items[j]].isDefault
    {
      if providers[items[i]].isDefault {
        SkipOthers(providers, items, i);
        return Some(items[i]);
      }
    }
    SkipOthers(providers, items, |items|);
    return None;
  }

  /** The default provider, if there is one. */
  ghost function DefaultOf(w: World): Option<string> {
    if n :| DefaultProvider(w, n) then Some(n) else None
  }

  /** With at most one default, the scan finds the same provider in every order. */
  lemma OrderDoesNotMatter(w: World, items: seq<string>)
    requires OneDefault(w) && ItemSet(items) == w.providers.Keys
    ensures FirstDefault(w.providers, items) == DefaultOf(w)
  {
    var found := FirstDefault(w.providers, items);
    assert forall n :: n in items <==> n in ItemSet(items);
    assert found.Some? ==> DefaultProvider(w, found.value);
    assert forall n :: DefaultProvider(w, n) ==> n in ItemSet(items);
  }
}
