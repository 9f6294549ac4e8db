/** The garbage collector of accounts (bucketserviceaccount_controller.go:387-427). */
module GarbageCollectors {
  import opened Wrappers
  import opened Conditions
  import opened Worlds
  import opened Actions
  import opened Invariants
  import opened Relying
  import opened Clusters
  import opened Listings
  import AccountReconcilers
  import Outcomes

  /** The scan of one account's conditions. `found` is overwritten by every
      condition, so the last one alone decides whether it ends up set. */
  method Scan(cs: Conditions, ttl: nat, now: nat) returns (selected: bool)
    ensures selected <==> Selected(cs, ttl, now)
  {
    var found := false;
    for i := 0 to |cs|
      invariant forall j :: 0 <= j < i && Watched(cs[j].kind) ==> cs[j].since + ttl <= now
      invariant found <==> i > 0 && Watched(cs[i - 1].kind)
    {
      found := cs[i].kind == DeletionPending || cs[i].kind == Deleting;
      if found && cs[i].since + ttl > now {
        return false;
      }
    }
    return found;
  }

  /** What an undisturbed sweep does to one account. */
  function CollectOne(w: World, k: Key, now: nat): World {
    if k !in w.accounts || !Selected(w.accounts[k].status.conditions, TTL, now) then w else DeleteAccount(Marked(w, k, now), k)
  }

  function Marked(w: World, k: Key, now: nat): (w': World)
    requires k in w.accounts
    ensures OnlyAccount(w, k, w') && k in w'.accounts
    ensures w'.accounts[k] == w.accounts[k].(version := w'.accounts[k].version, status := w'.accounts[k].status)
    ensures IsTrue(w'.accounts[k].status.conditions, Deleting)
  {
    var s := w.accounts[k].status;
    if IsTrue(s.conditions, Deleting) then w
    else PutAccount(w, k, w.accounts[k].(status := AccountChanged(s, Erase, now)))
  }

  /** At most this account differs. */
  ghost predicate OnlyAccount(w: World, k: Key, w': World) {
    && w' == w.(tick := w'.tick, accounts := w'.accounts) && w'.accounts - {k} == w.accounts - {k}
  }

  /** The mark, if it was not there: Deleting true, phase Deleting, all else as before. */
  ghost predicate MarkedAs(s: AccountStatus, s': AccountStatus, at: nat) {
    if IsTrue(s.conditions, Deleting) then s' == s
    else Outcomes.Recorded(s.conditions, s'.conditions, Deleting, at) && s'.phase == Phase(Deleting) && s'.secretName == s.secretName
  }

  /** An account after the sweep: gone or on its way if it was selected, as it
      was if it was not. */
  ghost predicate Collected(w: World, k: Key, w': World)
    requires k in w.accounts
  {
    if Selected(w.accounts[k].status.conditions, TTL, w.now) then
      if w.accounts[k].finalizer then
        && k in w'.accounts && IsTrue(w'.accounts[k].status.conditions, Deleting)
        && w'.accounts[k] == w.accounts[k].(version := w'.accounts[k].version, deleting := true,
                                            status := w'.accounts[k].status)
        && MarkedAs(w.accounts[k].status, w'.accounts[k].status, w.now)
      else k !in w'.accounts
    else k in w'.accounts && w'.accounts[k] == w.accounts[k]
  }

  lemma OneIsCollected(w: World, k: Key)
    requires k in w.accounts
    ensures Collected(w, k, CollectOne(w, k, w.now)) && OnlyAccount(w, k, CollectOne(w, k, w.now))
  {
  }

  /** What a sweep may have marked and deleted by now: accounts it has listed as
      selected, and deletions only of those listed or since marked as Deleting. */
  ghost predicate SweptRight(w: World) {
    && w.desk.sweep.Some?
    && var sweep := w.desk.sweep.value;
    && (forall k :: k in w.desk.marked + w.desk.condemned ==>
          k in sweep && Selected(sweep[k].status.conditions, TTL, w.now))
    && (forall k :: k in w.desk.condemned ==> IsTrue(sweep[k].status.conditions, Deleting) || k in w.desk.marked)
  }

  lemma SelectedStays(cs: Conditions, ttl: nat, now: nat, later: nat)
    requires Selected(cs, ttl, now) && now <= later
    ensures Selected(cs, ttl, later)
  {
  }

  lemma SweptRightLater(w: World, w': World)
    requires SweptRight(w) && w.now <= w'.now && SameSweep(w.desk, w'.desk)
    ensures SweptRight(w')
  {
    forall k | k in w.desk.marked + w.desk.condemned
      ensures Selected(w.desk.sweep.value[k].status.conditions, TTL, w'.now)
    {
      SelectedStays(w.desk.sweep.value[k].status.conditions, TTL, w.now, w'.now);
    }
  }

  lemma SweptRightAfter(act: GAct, w: World)
    requires SweptRight(w) && !act.GList? && GGuard(act, w) && GAccepts(act, w)
    ensures SweptRight(GEffect(act, w))
  {
    SelectedStays(w.desk.sweep.value[act.key].status.conditions, TTL, act.time, w.now);
  }

  lemma MarkIs(w: World, k: Key, now: nat)
    requires k in w.accounts && !IsTrue(w.accounts[k].status.conditions, Deleting)
    requires GGuard(GMark(k, w.accounts[k].version, now), w)
    ensures Bare(GEffect(GMark(k, w.accounts[k].version, now), w)) == Marked(Bare(w), k, now)
  {
  }

  lemma DeleteBare(w: World, k: Key)
    ensures Bare(DeleteAccount(w, k)) == DeleteAccount(Bare(w), k)
  {
  }

  /** The collector has asked for this account to be marked or deleted. */
  predicate Asks(act: Action, k: Key) {
    act.ByCollector? && (act.g.GMark? || act.g.GDelete?) && act.g.key == k
  }

  /** It has done so since then. */
  ghost predicate AskedSince(asked: seq<Action>, from: nat, k: Key) {
    exists i :: from <= i < |asked| && Asks(asked[i], k)
  }

  lemma LastIsAsked(asked: seq<Action>, from: nat, k: Key)
    requires from < |asked| && Asks(asked[|asked| - 1], k)
    ensures AskedSince(asked, from, k)
  {
  }

  lemma AskedEarlier(asked: seq<Action>, from: nat, later: nat, k: Key)
    requires from <= later && AskedSince(asked, later, k)
    ensures AskedSince(asked, from, k)
  {
  }

  lemma AskedStays(asked: seq<Action>, later: seq<Action>, from: nat, k: Key)
    requires asked <= later && AskedSince(asked, from, k)
    ensures AskedSince(later, from, k)
  {
    var i :| from <= i < |asked| && Asks(asked[i], k);
    assert later[i] == asked[i];
  }

  /** Of those listed, whoever was selected at that time has been asked for. */
  ghost predicate NonePassedOver(list: map<Key, Account>, since: nat, asked: seq<Action>, from: nat) {
    forall k :: k in list && Selected(list[k].status.conditions, TTL, since) ==> AskedSince(asked, from, k)
  }

  lemma NonePassedOverBefore(list: map<Key, Account>, since: nat, now: nat, asked: seq<Action>, from: nat)
    requires NonePassedOver(list, now, asked, from) && since <= now
    ensures NonePassedOver(list, since, asked, from)
  {
    forall k | k in list && Selected(list[k].status.conditions, TTL, since)
      ensures AskedSince(asked, from, k)
    {
      SelectedStays(list[k].status.conditions, TTL, since, now);
    }
  }

  /** The first i of them have been asked for, if they were selected. */
  ghost predicate AskedTo(list: map<Key, Account>, items: seq<Key>, i: nat, since: nat, asked: seq<Action>, from: nat)
    requires i <= |items|
  {
    && (forall j :: 0 <= j < i ==> items[j] in list)
    && (forall j :: 0 <= j < i && Selected(list[items[j]].status.conditions, TTL, since) ==>
          AskedSince(asked, from, items[j]))
  }

  lemma AllAsked(list: map<Key, Account>, items: seq<Key>, since: nat, asked: seq<Action>, from: nat)
    requires ItemSet(items) == list.Keys && AskedTo(list, items, |items|, since, asked, from)
    ensures NonePassedOver(list, since, asked, from)
  {
    forall k | k in list && Selected(list[k].status.conditions, TTL, since)
      ensures AskedSince(asked, from, k)
    {
      assert k in ItemSet(items);
      var j :| 0 <= j < |items| && items[j] == k;
    }
  }

  class GarbageCollector {
    const c: Cluster

    constructor (c: Cluster)
      ensures this.c == c
    {
      this.c := c;
    }

    /** The account was listed like this. */
    ghost predicate Listed(w: World, k: Key, v: Account) {
      SweptRight(w) && k in w.desk.sweep.value && w.desk.sweep.value[k] == v
    }

    /** One writing call of a sweep. */
    method Call(act: GAct, k: Key, v: Account) returns (reply: Reply)
      requires c.Valid() && Listed(c.w, k, v) && GGuard(act, c.w) && GKnown(act, c.w) && !act.GList?
      modifies c`w, c`trace, c`passed, c`asked
      ensures c.Valid() && Newer(old(c.w), c.w) && Listed(c.w, k, v) && c.w.desk.sweep == old(c.w).desk.sweep
      ensures reply.Done? && act.GMark? ==> act.key in c.w.desk.marked
      ensures c.asked == old(c.asked) + [ByCollector(act)]
      ensures !c.faulty && !reply.Done? ==> !GAccepts(act, c.w)
      ensures c.Quiet() && GAccepts(act, old(c.w)) ==> reply.Done? && c.w == GEffect(act, old(c.w))
      ensures c.Quiet() && !GAccepts(act, old(c.w)) ==> c.w == old(c.w)
    {
      ghost var w0, mid := c.w, c.w;
      reply, mid := c.CallG(act);
      SweptRightLater(w0, mid);
      if GAccepts(act, mid) {
        SweptRightAfter(act, mid);
      }
      NewerTransitive(w0, mid, c.w);
    }

    /** A selected account is marked, against the listed version, and deleted. A
        refused mark spares the account; with no failing call it is spared only if it
        is no longer as it was listed. */
    method Collect(k: Key, v: Account, now: nat)
      requires c.Valid() && AccountReconcilers.Follows(k, v, c.w) && Listed(c.w, k, v)
      requires now <= c.w.now && Selected(v.status.conditions, TTL, now)
      modifies c`w, c`trace, c`passed, c`asked
      ensures c.Valid() && Newer(old(c.w), c.w) && Listed(c.w, k, v) && c.w.desk.sweep == old(c.w).desk.sweep
      ensures old(c.asked) <= c.asked && AskedSince(c.asked, |old(c.asked)|, k)
      ensures !c.faulty && !c.LastAsked(ByCollector(GDelete(k, now))) ==>
                k !in c.w.accounts || c.w.accounts[k].version != v.version
      ensures c.Quiet() && k in old(c.w).accounts && old(c.w).accounts[k] == v ==>
                Bare(c.w) == CollectOne(Bare(old(c.w)), k, now)
    {
      ghost var w0 := c.w;
      var ok := true;
      if !IsTrue(v.status.conditions, Deleting) {
        ok := SetDeleting(k, v, now);
      }
      if ok {
        ghost var w1 := c.w;
        ghost var from := |c.asked|;
        Delete(k, v, now);
        AskedEarlier(c.asked, |old(c.asked)|, from, k);
        NewerTransitive(w0, w1, c.w);
      }
    }

    /** The mark, written against the listed version. */
    method SetDeleting(k: Key, v: Account, now: nat) returns (ok: bool)
      requires c.Valid() && AccountReconcilers.Follows(k, v, c.w) && Listed(c.w, k, v)
      requires now <= c.w.now && Selected(v.status.conditions, TTL, now) && !IsTrue(v.status.conditions, Deleting)
      modifies c`w, c`trace, c`passed, c`asked
      ensures c.Valid() && Newer(old(c.w), c.w) && Listed(c.w, k, v) && c.w.desk.sweep == old(c.w).desk.sweep
      ensures ok ==> k in c.w.desk.marked
      ensures old(c.asked) <= c.asked && AskedSince(c.asked, |old(c.asked)|, k)
      ensures c.LastAsked(ByCollector(GMark(k, v.version, now)))
      ensures !c.faulty && !ok ==> k !in c.w.accounts || c.w.accounts[k].version != v.version
      ensures c.Quiet() && k in old(c.w).accounts && old(c.w).accounts[k] == v ==>
                ok && Bare(c.w) == Marked(Bare(old(c.w)), k, now)
    {
      if k in c.w.accounts && c.w.accounts[k] == v {
        MarkIs(c.w, k, now);
      }
      var reply := Call(GMark(k, v.version, now), k, v);
      LastIsAsked(c.asked, |old(c.asked)|, k);
      ok := reply.Done?;
    }

    method Delete(k: Key, v: Account, now: nat)
      requires c.Valid() && Listed(c.w, k, v) && now <= c.w.now && Selected(v.status.conditions, TTL, now)
      requires IsTrue(v.status.conditions, Deleting) || k in c.w.desk.marked
      modifies c`w, c`trace, c`passed, c`asked
      ensures c.Valid() && Newer(old(c.w), c.w) && Listed(c.w, k, v) && c.w.desk.sweep == old(c.w).desk.sweep
      ensures old(c.asked) <= c.asked && c.LastAsked(ByCollector(GDelete(k, now)))
      ensures AskedSince(c.asked, |old(c.asked)|, k)
      ensures c.Quiet() ==> Bare(c.w) == DeleteAccount(Bare(old(c.w)), k)
    {
      DeleteBare(c.w, k);
      var _ := Call(GDelete(k, now), k, v);
      LastIsAsked(c.asked, |old(c.asked)|, k);
    }

    /** One listed account, as it was listed. */
    method Judge(k: Key, v: Account)
      requires c.Valid() && AccountReconcilers.Follows(k, v, c.w) && Listed(c.w, k, v)
      modifies c`w, c`trace, c`passed, c`asked
      ensures c.Valid() && Newer(old(c.w), c.w) && Listed(c.w, k, v) && c.w.desk.sweep == old(c.w).desk.sweep
      ensures old(c.asked) <= c.asked
      ensures Selected(v.status.conditions, TTL, old(c.w).now) ==> AskedSince(c.asked, |old(c.asked)|, k)
      ensures c.Quiet() && k in old(c.w).accounts && old(c.w).accounts[k] == v ==>
                Bare(c.w) == CollectOne(Bare(old(c.w)), k, old(c.w).now)
    {
      var selected := Scan(v.status.conditions, TTL, c.w.now);
      if selected {
        Collect(k, v, c.w.now);
      }
    }

    /** One tick: the accounts are listed once, then judged one by one. Whatever the
        others do and whichever calls fail, only accounts listed as selected are
        marked or deleted, none is deleted without a mark, and none that was selected
        when the sweep began is passed over. */
    method Sweep() returns (listed: bool)
      requires c.Valid()
      modifies c`w, c`trace, c`passed, c`asked
      ensures c.Valid()
      ensures listed ==> SweptRight(c.w)
      ensures listed ==> NonePassedOver(c.w.desk.sweep.value, old(c.w).now, c.asked, |old(c.asked)|)
      ensures !listed ==> SameSweep(old(c.w).desk, c.w.desk)
      ensures c.Quiet() ==> forall k :: k in old(c.w).accounts ==> Collected(Bare(old(c.w)), k, Bare(c.w))
      ensures c.Quiet() ==> c.w.accounts.Keys <= old(c.w).accounts.Keys &&
                            Bare(c.w) == Bare(old(c.w)).(tick := c.w.tick, accounts := c.w.accounts)
    {
      listed := c.Read(Collector);
      if !listed {
        return;
      }
      ghost var since := c.w.now;
      SweepAll();
      NonePassedOverBefore(c.w.desk.sweep.value, old(c.w).now, since, c.asked, |old(c.asked)|);
    }

    method SweepAll()
      requires c.Valid()
      modifies c`w, c`trace, c`passed, c`asked
      ensures c.Valid() && SweptRight(c.w)
      ensures NonePassedOver(c.w.desk.sweep.value, old(c.w).now, c.asked, |old(c.asked)|)
      ensures c.Quiet() ==> forall k :: k in old(c.w).accounts ==> Collected(Bare(old(c.w)), k, Bare(c.w))
      ensures c.Quiet() ==> c.w.accounts.Keys <= old(c.w).accounts.Keys &&
                            Bare(c.w) == Bare(old(c.w)).(tick := c.w.tick, accounts := c.w.accounts)
    {
      ghost var w0 := Bare(c.w);
      var items, list := ListAll();
      SweepList(items, list);
      if c.Quiet() {
        SweptAll(w0, items, Bare(c.w));
      }
    }

    /** The accounts as they are, in any order. */
    method ListAll() returns (items: seq<Key>, list: map<Key, Account>)
      requires c.Valid()
      modifies c`w, c`trace, c`passed
      ensures c.Valid() && SweptRight(c.w) && c.w.desk.sweep == Some(list)
      ensures list == c.w.accounts && Bare(c.w) == Bare(old(c.w))
      ensures ItemSet(items) == list.Keys && forall i, j :: 0 <= i < j < |items| ==> items[i] != items[j]
      ensures forall k :: k in list ==> AccountReconcilers.Follows(k, list[k], c.w)
    {
      c.Good();
      list := c.w.accounts;
      items := Arrange(list.Keys);
      ArrangedOnce(items, list.Keys);
      c.Take(ByCollector(GList));
    }

    method SweepList(items: seq<Key>, list: map<Key, Account>)
      requires c.Valid() && ItemSet(items) == list.Keys
      requires forall i, j :: 0 <= i < j < |items| ==> items[i] != items[j]
      requires forall k :: k in list ==> AccountReconcilers.Follows(k, list[k], c.w)
      requires SweptRight(c.w) && c.w.desk.sweep == Some(list)
      requires c.Quiet() ==> list == c.w.accounts
      modifies c`w, c`trace, c`passed, c`asked
      ensures c.Valid() && SweptRight(c.w) && c.w.desk.sweep == Some(list)
      ensures NonePassedOver(list, old(c.w).now, c.asked, |old(c.asked)|)
      ensures c.Quiet() ==> SweptTo(Bare(old(c.w)), items, |items|, Bare(c.w))
    {
      ghost var w0 := c.w;
      for i := 0 to |items|
        invariant c.Valid() && Newer(w0, c.w) && SweptRight(c.w) && c.w.desk.sweep == Some(list)
        invariant c.Quiet() ==> SweptTo(Bare(w0), items, i, Bare(c.w))
        invariant |old(c.asked)| <= |c.asked|
        invariant AskedTo(list, items, i, w0.now, c.asked, |old(c.asked)|)
      {
        var k := items[i];
        assert k in ItemSet(items);
        ghost var before, asked := c.w, c.asked;
        AccountReconcilers.FollowsOn(k, list[k], w0, c.w);
        Judge(k, list[k]);
        OneMoreAsked(list, items, i, w0.now, before.now, asked, c.asked, |old(c.asked)|);
        NewerTransitive(w0, before, c.w);
        if c.Quiet() {
          OneIsCollected(Bare(before), k);
          SweptOneMore(Bare(w0), items, i, Bare(before), Bare(c.w));
        }
      }
      AllAsked(list, items, w0.now, c.asked, |old(c.asked)|);
    }
  }

  /** One more account judged: whoever was asked for stays so, and this one is if it was selected. */
  lemma OneMoreAsked(list: map<Key, Account>, items: seq<Key>, i: nat, since: nat, now: nat, asked: seq<Action>,
                     later: seq<Action>, from: nat)
    requires i < |items| && items[i] in list && asked <= later && from <= |asked| && since <= now
    requires AskedTo(list, items, i, since, asked, from)
    requires Selected(list[items[i]].status.conditions, TTL, now) ==> AskedSince(later, |asked|, items[i])
    ensures AskedTo(list, items, i + 1, since, later, from)
  {
    forall j | 0 <= j <= i && items[j] in list && Selected(list[items[j]].status.conditions, TTL, since)
      ensures AskedSince(later, from, items[j])
    {
      if j < i {
        AskedStays(asked, later, from, items[j]);
      } else {
        SelectedStays(list[items[i]].status.conditions, TTL, since, now);
        var n :| |asked| <= n < |later| && Asks(later[n], items[i]);
      }
    }
  }

  lemma ArrangedOnce(items: seq<Key>, keys: set<Key>)
    requires ItemSet(items) == keys && |items| == |keys|
    ensures forall i, j :: 0 <= i < j < |items| ==> items[i] != items[j]
  {
    forall i, j | 0 <= i < j < |items|
      ensures items[i] != items[j]
    {
      if items[i] == items[j] {
        RepeatsShrink(items, i, j);
      }
    }
  }

  lemma RepeatsShrink(items: seq<Key>, i: nat, j: nat)
    requires i < j < |items| && items[i] == items[j]
    ensures |ItemSet(items)| < |items|
  {
    var rest := items[..j] + items[j + 1..];
    FewerItems(rest);
    forall k | k in ItemSet(items)
      ensures k in ItemSet(rest)
    {
      var n :| 0 <= n < |items| && items[n] == k;
      assert k == rest[if n == j then i else if n < j then n else n - 1];
    }
    assert ItemSet(rest) == ItemSet(items);
  }

  lemma {:induction false} FewerItems(items: seq<Key>)
    ensures |ItemSet(items)| <= |items|
  {
    if items != [] {
      var n := |items| - 1;
      FewerItems(items[..n]);
      assert items == items[..n] + [items[n]];
      ItemSetSnoc(items[..n], items[n]);
    }
  }

  /** The first i listed accounts have been dealt with, the others are as they were. */
  ghost predicate SweptTo(w0: World, items: seq<Key>, i: nat, w: World)
    requires i <= |items|
  {
    && w == w0.(tick := w.tick, accounts := w.accounts)
    && w.accounts.Keys <= w0.accounts.Keys
    && (forall j :: 0 <= j < i ==> items[j] in w0.accounts && Collected(w0, items[j], w))
    && (forall j :: i <= j < |items| ==> items[j] in w.accounts && items[j] in w0.accounts &&
                                         w.accounts[items[j]] == w0.accounts[items[j]])
  }

  lemma SweptOneMore(w0: World, items: seq<Key>, i: nat, w: World, w': World)
    requires i < |items| && SweptTo(w0, items, i, w)
    requires forall i, j :: 0 <= i < j < |items| ==> items[i] != items[j]
    requires items[i] in w.accounts && Collected(w, items[i], w') && OnlyAccount(w, items[i], w')
    ensures SweptTo(w0, items, i + 1, w')
  {
    var k := items[i];
    forall j | j != k
      ensures j in w'.accounts <==> j in w.accounts
      ensures j in w.accounts ==> w'.accounts[j] == w.accounts[j]
    {
      assert j in w'.accounts - {k} <==> j in w.accounts - {k};
      assert j in w.accounts - {k} ==> (w'.accounts - {k})[j] == (w.accounts - {k})[j];
    }
    forall j | 0 <= j < i
      ensures Collected(w0, items[j], w')
    {
      assert items[j] != k;
    }
  }

  lemma SweptAll(w0: World, items: seq<Key>, w: World)
    requires SweptTo(w0, items, |items|, w) && ItemSet(items) == w0.accounts.Keys
    ensures forall k :: k in w0.accounts ==> Collected(w0, k, w)
  {
    forall k | k in w0.accounts
      ensures Collected(w0, k, w)
    {
      assert k in ItemSet(items);
      var j :| 0 <= j < |items| && items[j] == k;
    }
  }
}
