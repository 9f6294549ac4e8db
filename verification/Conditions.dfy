/** Status condition lists: apimachinery's meta helpers as the controllers use
    them. Reason, message and observed generation have no effect on control flow
    and are not part of the model. */
module Conditions {
  import opened Wrappers

  datatype Kind = Creating | Ready | Error | Deleting | DeletionPending

  datatype Condition = Condition(kind: Kind, status: bool, since: nat)

  type Conditions = seq<Condition>

  /** FindStatusCondition. */
  function Get(cs: Conditions, kind: Kind): (r: Option<Condition>)
    ensures r.Some? ==> r.value in cs && r.value.kind == kind
  {
    if cs == [] then None
    else if cs[0].kind == kind then Some(cs[0])
    else Get(cs[1..], kind)
  }

  predicate IsTrue(cs: Conditions, kind: Kind) {
    var c := Get(cs, kind);
    c.Some? && c.value.status
  }

  predicate Has(cs: Conditions, kind: Kind) {
    Get(cs, kind).Some?
  }

  /** The entry SetStatusCondition leaves for its type: the transition time
      moves only when the status changes. */
  function Entry(before: Option<Condition>, kind: Kind, status: bool, now: nat): Condition {
    if before.Some? && before.value.status == status then Condition(kind, status, before.value.since)
    else Condition(kind, status, now)
  }

  /** SetStatusCondition: updates the first entry of the type in place, else appends. */
  function Set(cs: Conditions, kind: Kind, status: bool, now: nat): (r: Conditions)
    ensures forall k :: Get(r, k) == if k == kind then Some(Entry(Get(cs, kind), kind, status, now)) else Get(cs, k)
  {
    if cs == [] then [Condition(kind, status, now)]
    else if cs[0].kind == kind then [Entry(Some(cs[0]), kind, status, now)] + cs[1..]
    else [cs[0]] + Set(cs[1..], kind, status, now)
  }

  /** RemoveStatusCondition. */
  function Remove(cs: Conditions, kind: Kind): (r: Conditions)
    ensures forall k :: Get(r, k) == if k == kind then None else Get(cs, k)
  {
    if cs == [] then []
    else if cs[0].kind == kind then Remove(cs[1..], kind)
    else [cs[0]] + Remove(cs[1..], kind)
  }

  /** No two entries of one type. */
  ghost predicate Unique(cs: Conditions) {
    forall i, j :: 0 <= i < j < |cs| ==> cs[i].kind != cs[j].kind
  }

  lemma {:induction false} AbsentFromList(cs: Conditions, kind: Kind)
    ensures Get(cs, kind).None? <==> forall c :: c in cs ==> c.kind != kind
  {
    if cs != [] {
      AbsentFromList(cs[1..], kind);
      assert forall c :: c in cs <==> c == cs[0] || c in cs[1..];
    }
  }

  lemma {:induction false} UniqueCons(c: Condition, cs: Conditions)
    ensures Unique([c] + cs) <==> Get(cs, c.kind).None? && Unique(cs)
  {
    AbsentFromList(cs, c.kind);
    var all := [c] + cs;
    assert forall i :: 0 <= i < |cs| ==> all[i + 1] == cs[i] && cs[i] in cs;
    if Unique(all) {
      forall i | 0 <= i < |cs|
        ensures c.kind != cs[i].kind
      {
        assert all[0] == c && all[i + 1] == cs[i];
      }
    }
  }

  lemma {:induction false} SetKeepsUnique(cs: Conditions, kind: Kind, status: bool, now: nat)
    requires Unique(cs)
    ensures Unique(Set(cs, kind, status, now))
  {
    if cs != [] {
      assert cs == [cs[0]] + cs[1..];
      UniqueCons(cs[0], cs[1..]);
      if cs[0].kind == kind {
        UniqueCons(Entry(Some(cs[0]), kind, status, now), cs[1..]);
      } else {
        SetKeepsUnique(cs[1..], kind, status, now);
        UniqueCons(cs[0], Set(cs[1..], kind, status, now));
      }
    }
  }

  lemma {:induction false} RemoveKeepsUnique(cs: Conditions, kind: Kind)
    requires Unique(cs)
    ensures Unique(Remove(cs, kind))
  {
    if cs != [] {
      assert cs == [cs[0]] + cs[1..];
      UniqueCons(cs[0], cs[1..]);
      RemoveKeepsUnique(cs[1..], kind);
      UniqueCons(cs[0], Remove(cs[1..], kind));
    }
  }

  lemma {:induction false} MemberIsFound(cs: Conditions, c: Condition)
    requires Unique(cs) && c in cs
    ensures Get(cs, c.kind) == Some(c)
  {
    assert cs == [cs[0]] + cs[1..];
    UniqueCons(cs[0], cs[1..]);
    if c != cs[0] {
      MemberIsFound(cs[1..], c);
    }
  }

  // ---------------------------------------------------------------- entry by entry

  lemma UpdateBehind(cs: Conditions, i: nat, c: Condition)
    requires 0 < i < |cs|
    ensures [cs[0]] + cs[1..][i - 1 := c] == cs[i := c]
  {
  }

  /** Setting a type the list has changes its first entry in place and nothing else. */
  lemma {:induction false} SetInPlace(cs: Conditions, kind: Kind, status: bool, now: nat) returns (i: nat)
    requires Has(cs, kind)
    ensures i < |cs| && cs[i].kind == kind && forall j :: 0 <= j < i ==> cs[j].kind != kind
    ensures Set(cs, kind, status, now) ==
            cs[i := Condition(kind, status, if cs[i].status == status then cs[i].since else now)]
  {
    if cs[0].kind == kind {
      i := 0;
      assert [Entry(Some(cs[0]), kind, status, now)] + cs[1..] == cs[0 := Entry(Some(cs[0]), kind, status, now)];
    } else {
      var n := SetInPlace(cs[1..], kind, status, now);
      i := n + 1;
      UpdateBehind(cs, i, Condition(kind, status, if cs[i].status == status then cs[i].since else now));
    }
  }

  /** Setting a type the list does not have appends it. */
  lemma {:induction false} SetAppends(cs: Conditions, kind: Kind, status: bool, at: nat)
    requires !Has(cs, kind)
    ensures Set(cs, kind, status, at) == cs + [Condition(kind, status, at)]
  {
    if cs != [] {
      SetAppends(cs[1..], kind, status, at);
      assert cs == [cs[0]] + cs[1..];
    }
  }

  lemma {:induction false} RemoveConcat(a: Conditions, b: Conditions, kind: Kind)
    ensures Remove(a + b, kind) == Remove(a, kind) + Remove(b, kind)
  {
    if a == [] {
      assert a + b == b;
    } else {
      assert (a + b)[1..] == a[1..] + b;
      RemoveConcat(a[1..], b, kind);
    }
  }

  lemma {:induction false} RemoveAbsent(cs: Conditions, kind: Kind)
    requires !Has(cs, kind)
    ensures Remove(cs, kind) == cs
  {
    if cs != [] {
      RemoveAbsent(cs[1..], kind);
    }
  }

  /** Removing a type takes out its entry and keeps all others, in order. */
  lemma RemoveCuts(a: Conditions, c: Condition, b: Conditions)
    requires !Has(a, c.kind) && !Has(b, c.kind)
    ensures Remove(a + [c] + b, c.kind) == a + b
  {
    RemoveConcat(a + [c], b, c.kind);
    RemoveConcat(a, [c], c.kind);
    RemoveAbsent(a, c.kind);
    RemoveAbsent(b, c.kind);
    assert [c][1..] == [];
  }
}
