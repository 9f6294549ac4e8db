/** ForceControllerReference as it runs: on a slice whose backing array is cut,
    overwritten and extended in place (controllers/utils.go:13-63). */
module OwnerLists {
  import opened Wrappers
  import opened Owners

  class OwnerList {
    var data: array<OwnerRef>
    var len: nat

    predicate Valid()
      reads this
    {
      len <= data.Length
    }

    function View(): (s: seq<OwnerRef>)
      reads this, data
      requires Valid()
    {
      data[..len]
    }

    constructor (owners: seq<OwnerRef>)
      ensures Valid() && fresh(data) && View() == owners
    {
      data := new OwnerRef[|owners|](i requires 0 <= i < |owners| => owners[i]);
      len := |owners|;
    }

    /** A copy with a backing array of its own. */
    method DeepCopy() returns (copy: OwnerList)
      requires Valid()
      ensures copy.Valid() && fresh(copy) && fresh(copy.data) && copy.View() == View()
    {
      copy := new OwnerList(data[..len]);
    }

    method GetControllerOf() returns (controller: Option<OwnerRef>)
      requires Valid()
      ensures controller == ControllerOf(View())
    {
      for i := 0 to len
        invariant forall j :: 0 <= j < i ==> !View()[j].controller
      {
        if data[i].controller {
          assert ControllerIndex(View()) == i;
          return Some(data[i]);
        }
      }
      return None;
    }

    /** indexOwnerRef: the first entry naming the same object, -1 when there is none. */
    method IndexOwnerRef(ref: OwnerRef) returns (index: int)
      requires Valid()
      ensures index == if IndexOfSame(View(), ref) < len then IndexOfSame(View(), ref) else -1
    {
      for i := 0 to len
        invariant forall j :: 0 <= j < i ==> !Same(View()[j], ref)
      {
        if Same(data[i], ref) {
          assert IndexOfSame(View(), ref) == i;
          return i;
        }
      }
      return -1;
    }

    /** append(owners[:i], owners[i+1:]...): shifts the tail down inside the same array. */
    method Cut(i: nat)
      requires Valid() && i < len
      modifies this`len, data
      ensures Valid() && data == old(data) && View() == CutAt(old(View()), i)
    {
      ghost var before := View();
      for j := i to len - 1
        invariant len == |before|
        invariant forall k :: 0 <= k < i ==> data[k] == before[k]
        invariant forall k :: i <= k < j ==> data[k] == before[k + 1]
        invariant forall k :: j <= k < len ==> data[k] == before[k]
      {
        data[j] := data[j + 1];
      }
      len := len - 1;
      assert forall k :: 0 <= k < len ==> data[..len][k] == CutAt(before, i)[k];
    }

    /** Go's append: in place while there is room, else on a larger array. */
    method Append(ref: OwnerRef)
      requires Valid()
      modifies this, data
      ensures Valid() && (data == old(data) || fresh(data)) && View() == old(View()) + [ref]
    {
      if len == data.Length {
        var view := data[..len];
        data := new OwnerRef[2 * len + 1](k => if 0 <= k < |view| then view[k] else ref);
        assert data[..len] == view;
      }
      data[len] := ref;
      len := len + 1;
    }

    method ForceControllerReference(ref: OwnerRef)
      requires Valid()
      modifies this, data
      ensures Valid() && (data == old(data) || fresh(data))
      ensures View() == Forced(old(View()), ref)
    {
      var existing := GetControllerOf();
      if existing.Some? && !Same(existing.value, ref) {
        var i := IndexOwnerRef(existing.value);
        if i != -1 {
          Cut(i);
        }
      }
      assert View() == Released(old(View()), ref);
      var idx := IndexOwnerRef(ref);
      if idx == -1 {
        Append(ref);
      } else {
        data[idx] := ref;
      }
    }
  }

  /** The rewrite as the bucket controller uses it, on a deep copy: the list it
      returns is the forced one and the original is exactly what it was, array
      included (bucket_controller.go:225-235). */
  method ForceOnCopy(original: OwnerList, ref: OwnerRef) returns (copy: OwnerList, changed: bool)
    requires original.Valid()
    ensures fresh(copy) && fresh(copy.data) && copy.Valid()
    ensures copy.View() == Forced(original.View(), ref)
    ensures unchanged(original) && unchanged(original.data)
    ensures changed <==> Forced(original.View(), ref) != original.View()
  {
    copy := original.DeepCopy();
    copy.ForceControllerReference(ref);
    changed := copy.data[..copy.len] != original.data[..original.len];
  }
}
