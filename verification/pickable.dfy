/** The registry of pickable objects: every sphere drawn for a control point
    is a `PickableObject` with a unique id, which the picking pass writes into
    an id buffer. The application keeps the registry in static members; here
    it is an explicit value threaded through the operations. */
module Pickable {
  import opened Outcomes

  /** Ids are `uint32_t`: the counter wraps around modulo 2^32. */
  const IdModulus: nat := 0x1_0000_0000

  /** The id the picking pass reads where no object was drawn. */
  const BackgroundId: nat := 0

  datatype PickableObject = PickableObject(id: nat, selectable: bool, selected: bool, movable: bool)

  /** The static state: the counter behind `getUniqueID`, the list of live
      objects in registration order, and the selected object (identified by
      its id; `None` is the null pointer). */
  datatype Registry = Registry(counter: nat, objects: seq<PickableObject>, selected: Option<nat>)

  /** The state before any object is constructed. */
  const EmptyRegistry: Registry := Registry(0, [], None)

  /** No two live objects share an id. */
  predicate DistinctIds(objs: seq<PickableObject>) {
    forall i, j :: 0 <= i < |objs| && 0 <= j < |objs| && i != j ==> objs[i].id != objs[j].id
  }

  /** Every live object carries an id that `getUniqueID` has handed out
      (1 .. counter) and the ids are distinct. */
  predicate Valid(reg: Registry) {
    && reg.counter < IdModulus
    && (forall i :: 0 <= i < |reg.objects| ==> 1 <= reg.objects[i].id <= reg.counter)
    && DistinctIds(reg.objects)
  }

  /** `g` is `reg` after some constructions: the new objects are appended at
      the end, the selection is the same, and the counter moved on once per
      new object, modulo 2^32. Until the counter wraps, the new objects carry
      the ids it handed out, in order. */
  predicate Extends(g: Registry, reg: Registry) {
    && |reg.objects| <= |g.objects|
    && (forall i :: 0 <= i < |reg.objects| ==> g.objects[i] == reg.objects[i])
    && g.selected == reg.selected
    && g.counter == (reg.counter + (|g.objects| - |reg.objects|)) % IdModulus
    && (NoWrap(g, reg) ==>
          forall k :: |reg.objects| <= k < |g.objects| ==> g.objects[k].id == reg.counter + 1 + (k - |reg.objects|))
  }

  /** The counter did not wrap around while `g` was built from `reg`. */
  predicate NoWrap(g: Registry, reg: Registry) {
    reg.counter + (|g.objects| - |reg.objects|) < IdModulus
  }

  lemma ExtendsReflexive(reg: Registry)
    requires reg.counter < IdModulus
    ensures Extends(reg, reg)
  {
  }

  /** Constructions in a row compose. */
  lemma ExtendsTransitive(h: Registry, g: Registry, reg: Registry)
    requires Extends(h, g) && Extends(g, reg)
    ensures Extends(h, reg)
  {
    ModAddAbsorbs(reg.counter + (|g.objects| - |reg.objects|), |h.objects| - |g.objects|);
    if NoWrap(h, reg) {
      NoWrapSplits(h, g, reg);
      forall k | |reg.objects| <= k < |h.objects|
        ensures h.objects[k].id == reg.counter + 1 + (k - |reg.objects|)
      {
        if k < |g.objects| {
          assert h.objects[k] == g.objects[k];
        }
      }
    }
  }

  /** Until the counter wraps, constructions keep a registry valid: the new
      ids are issued in order, above every earlier one. */
  lemma ExtendsKeepsValid(g: Registry, reg: Registry)
    requires Valid(reg) && Extends(g, reg) && NoWrap(g, reg)
    ensures Valid(g)
  {
    var n := |reg.objects|;
    assert g.counter == reg.counter + (|g.objects| - n);
    forall i, j | 0 <= i < |g.objects| && 0 <= j < |g.objects| && i != j
      ensures g.objects[i].id != g.objects[j].id
    {
      if i < n && j < n {
        assert g.objects[i] == reg.objects[i] && g.objects[j] == reg.objects[j];
      } else if i < n {
        assert g.objects[i] == reg.objects[i];
      } else if j < n {
        assert g.objects[j] == reg.objects[j];
      }
    }
    forall i | 0 <= i < |g.objects|
      ensures 1 <= g.objects[i].id <= g.counter
    {
      if i < n {
        assert g.objects[i] == reg.objects[i];
      }
    }
  }

  /** Without a wrap over the whole run, there was none over either part,
      and the counter only grew. */
  lemma NoWrapSplits(h: Registry, g: Registry, reg: Registry)
    requires Extends(h, g) && Extends(g, reg) && NoWrap(h, reg)
    ensures NoWrap(g, reg) && NoWrap(h, g)
    ensures g.counter == reg.counter + (|g.objects| - |reg.objects|)
    ensures h.counter == g.counter + (|h.objects| - |g.objects|)
  {
  }

  lemma ModAddAbsorbs(x: nat, y: nat)
    ensures (x % IdModulus + y) % IdModulus == (x + y) % IdModulus
  {
    var q := x / IdModulus;
    assert x + y == q * IdModulus + (x % IdModulus + y);
  }

  lemma EmptyRegistryIsValid()
    ensures Valid(EmptyRegistry)
  {
  }

  /** `getUniqueID`: the pre-incremented static counter. Until the counter
      wraps, every id is larger than all earlier ones, so it is fresh and
      never the background id; at the wrap the next id is 0. */
  function NextId(counter: nat): (id: nat)
    requires counter < IdModulus
    ensures id < IdModulus
    ensures counter + 1 < IdModulus ==> id == counter + 1 && id != BackgroundId
    ensures counter + 1 == IdModulus ==> id == BackgroundId
  {
    (counter + 1) % IdModulus
  }

  /** The constructor: takes a fresh id and appends the new object, which
      starts selectable, movable and not selected. The id of the new object
      is the new counter value. */
  function Construct(reg: Registry): (r: Registry)
    requires reg.counter < IdModulus
    ensures |r.objects| == |reg.objects| + 1
    ensures r.objects[..|reg.objects|] == reg.objects
    ensures r.objects[|reg.objects|] == PickableObject(r.counter, true, false, true)
    ensures r.counter == NextId(reg.counter) && r.selected == reg.selected
    ensures Valid(reg) && reg.counter + 1 < IdModulus ==>
      Valid(r) && forall i :: 0 <= i < |reg.objects| ==> reg.objects[i].id != r.counter
  {
    var id := NextId(reg.counter);
    Registry(id, reg.objects + [PickableObject(id, true, false, true)], reg.selected)
  }

  /** `setSelectable` on the object at position `k`. */
  function SetSelectable(reg: Registry, k: int, flag: bool): (r: Registry)
    requires 0 <= k < |reg.objects|
    ensures |r.objects| == |reg.objects| && r.counter == reg.counter && r.selected == reg.selected
    ensures r.objects[k].selectable == flag
    ensures r.objects[k] == reg.objects[k].(selectable := flag)
    ensures forall j :: 0 <= j < |r.objects| && j != k ==> r.objects[j] == reg.objects[j]
    ensures Valid(reg) ==> Valid(r)
  {
    reg.(objects := reg.objects[k := reg.objects[k].(selectable := flag)])
  }

  /** Position of the first object with id `id`, or -1 when there is none. */
  function IndexOf(objs: seq<PickableObject>, id: nat): (k: int)
    ensures -1 <= k < |objs|
    ensures k >= 0 ==> objs[k].id == id && forall j :: 0 <= j < k ==> objs[j].id != id
    ensures k == -1 ==> forall j :: 0 <= j < |objs| ==> objs[j].id != id
    decreases |objs|
  {
    if |objs| == 0 then -1
    else if objs[0].id == id then 0
    else
      var k := IndexOf(objs[1..], id);
      if k == -1 then -1 else k + 1
  }

  /** The background id never names a live object of a valid registry, so
      clicking on empty space deselects everything. */
  lemma BackgroundIsNoObject(reg: Registry)
    requires Valid(reg)
    ensures IndexOf(reg.objects, BackgroundId) == -1
  {
  }

  /** The destructor: the object is found by a linear scan, overwritten by
      the last entry, and the list shrinks by one. Other objects survive (as
      a multiset); only the last one moves. An object that is not registered
      leaves the registry as it is. */
  function Destroy(reg: Registry, id: nat): (r: Registry)
    ensures r.counter == reg.counter && r.selected == reg.selected
    ensures IndexOf(reg.objects, id) == -1 ==> r == reg
    ensures IndexOf(reg.objects, id) >= 0 ==>
      |r.objects| == |reg.objects| - 1
      && multiset(r.objects) + multiset{reg.objects[IndexOf(reg.objects, id)]} == multiset(reg.objects)
    ensures IndexOf(reg.objects, id) >= 0 ==>
      forall j :: 0 <= j < |r.objects| ==>
        r.objects[j] == (if j == IndexOf(reg.objects, id) then reg.objects[|reg.objects| - 1] else reg.objects[j])
    ensures Valid(reg) ==> Valid(r) && forall j :: 0 <= j < |r.objects| ==> r.objects[j].id != id
  {
    var k := IndexOf(reg.objects, id);
    if k == -1 then reg
    else
      var last := |reg.objects| - 1;
      var objs := reg.objects[k := reg.objects[last]][..last];
      SwapRemoveMultiset(reg.objects, k);
      reg.(objects := objs)
  }

  lemma SwapRemoveMultiset(s: seq<PickableObject>, k: int)
    requires 0 <= k < |s|
    ensures multiset(s[k := s[|s| - 1]][..|s| - 1]) + multiset{s[k]} == multiset(s)
  {
    var last := |s| - 1;
    assert s == s[..last] + [s[last]];
    if k < last {
      assert s[k := s[last]][..last] == s[..last][k := s[last]];
    } else {
      assert s[k := s[last]][..last] == s[..last];
    }
  }

  /** `o` and `p` are the same object except maybe for the selected flag. */
  predicate SameButSelection(o: PickableObject, p: PickableObject) {
    o.id == p.id && o.selectable == p.selectable && o.movable == p.movable
  }

  /** `updateSelectedObject`: scans the objects in order, deselecting each one,
      until the first object with the picked id; that one becomes selected if
      it is selectable and becomes the selected object either way, and the
      scan stops there. Without a match nothing is selected. */
  method UpdateSelectedObject(reg: Registry, selectedIdx: nat) returns (r: Registry)
    ensures r.counter == reg.counter && |r.objects| == |reg.objects|
    ensures forall j :: 0 <= j < |r.objects| ==> SameButSelection(r.objects[j], reg.objects[j])
    ensures IndexOf(reg.objects, selectedIdx) == -1 ==>
      r.selected == None && forall j :: 0 <= j < |r.objects| ==> !r.objects[j].selected
    ensures IndexOf(reg.objects, selectedIdx) >= 0 ==>
      var k := IndexOf(reg.objects, selectedIdx);
      && r.selected == Some(selectedIdx)
      && r.objects[k].selected == reg.objects[k].selectable
      && (forall j :: 0 <= j < k ==> !r.objects[j].selected)
      && (forall j :: k < j < |r.objects| ==> r.objects[j] == reg.objects[j])
    ensures Valid(reg) ==> Valid(r)
  {
    var objs := reg.objects;
    var i := 0;
    while i < |objs|
      invariant 0 <= i <= |objs| == |reg.objects|
      invariant forall j :: 0 <= j < |objs| ==> SameButSelection(objs[j], reg.objects[j])
      invariant forall j :: 0 <= j < i ==> reg.objects[j].id != selectedIdx && !objs[j].selected
      invariant forall j :: i <= j < |objs| ==> objs[j] == reg.objects[j]
    {
      var o := objs[i];
      objs := objs[i := o.(selected := selectedIdx == o.id && o.selectable)];
      if selectedIdx == o.id {
        r := reg.(objects := objs, selected := Some(selectedIdx));
        assert IndexOf(reg.objects, selectedIdx) == i;
        SelectionKeepsValid(reg, r);
        return;
      }
      i := i + 1;
    }
    r := reg.(objects := objs, selected := None);
    SelectionKeepsValid(reg, r);
  }

  /** Changing selection flags and the selected object keeps a registry
      valid. */
  lemma SelectionKeepsValid(reg: Registry, r: Registry)
    requires r.counter == reg.counter && |r.objects| == |reg.objects|
    requires forall j :: 0 <= j < |r.objects| ==> SameButSelection(r.objects[j], reg.objects[j])
    ensures Valid(reg) ==> Valid(r)
  {
    if Valid(reg) {
      assert DistinctIds(r.objects);
    }
  }

  /** The registry after a run of sphere constructions, and the new ids in
      creation order. */
  datatype Spheres = Spheres(ids: seq<nat>, registry: Registry)

  /** Creates `count` pickable objects in a row and sets each one's
      selectable flag to `selectable`. */
  function MakeSpheres(reg: Registry, count: nat, selectable: bool): (r: Spheres)
    requires reg.counter < IdModulus
    ensures |r.ids| == count && r.registry.counter < IdModulus
    ensures |r.registry.objects| == |reg.objects| + count && Extends(r.registry, reg)
    ensures forall k :: 0 <= k < count ==>
      r.registry.objects[|reg.objects| + k] == PickableObject(r.ids[k], selectable, false, true)
    ensures reg.counter + count < IdModulus ==>
      r.registry.counter == reg.counter + count
      && forall k :: 0 <= k < count ==> r.ids[k] == reg.counter + 1 + k
    decreases count, 1
  {
    if count == 0 then Spheres([], reg)
    else
      var before := MakeSpheres(reg, count - 1, selectable);
      var g := AddSphere(before.registry, selectable);
      MakeSpheresStep(reg, before, count, selectable);
      Spheres(before.ids + [g.counter], g)
  }

  /** The facts `MakeSpheres` states, carried from `count - 1` spheres to
      `count`. */
  lemma MakeSpheresStep(reg: Registry, before: Spheres, count: nat, selectable: bool)
    requires count > 0 && reg.counter < IdModulus
    requires before == MakeSpheres(reg, count - 1, selectable)
    ensures var g := AddSphere(before.registry, selectable);
      var r := Spheres(before.ids + [g.counter], g);
      && |r.ids| == count && r.registry.counter < IdModulus
      && |r.registry.objects| == |reg.objects| + count && Extends(r.registry, reg)
      && (forall k :: 0 <= k < count ==>
        r.registry.objects[|reg.objects| + k] == PickableObject(r.ids[k], selectable, false, true))
      && (reg.counter + count < IdModulus ==>
        r.registry.counter == reg.counter + count
        && forall k :: 0 <= k < count ==> r.ids[k] == reg.counter + 1 + k)
    decreases count, 0
  {
    var g := AddSphere(before.registry, selectable);
    ExtendsTransitive(g, before.registry, reg);
  }

  /** One sphere construction followed by `setSelectable` on the new
      object. */
  function AddSphere(reg: Registry, selectable: bool): (r: Registry)
    requires reg.counter < IdModulus
    ensures r.counter == NextId(reg.counter) && r.selected == reg.selected
    ensures r.objects == reg.objects + [PickableObject(r.counter, selectable, false, true)]
    ensures Extends(r, reg)
    ensures Valid(reg) && reg.counter + 1 < IdModulus ==> Valid(r)
  {
    var built := Construct(reg);
    var marked := SetSelectable(built, |reg.objects|, selectable);
    assert marked.objects == reg.objects + [PickableObject(built.counter, selectable, false, true)];
    marked
  }

  /** Until the id counter wraps, creating spheres keeps the registry
      valid: every new id is fresh. */
  lemma {:induction false} MakeSpheresKeepsValid(reg: Registry, count: nat, selectable: bool)
    requires Valid(reg) && reg.counter + count < IdModulus
    ensures Valid(MakeSpheres(reg, count, selectable).registry)
    decreases count
  {
    if count > 0 {
      MakeSpheresKeepsValid(reg, count - 1, selectable);
      var before := MakeSpheres(reg, count - 1, selectable);
      assert before.registry.counter + 1 < IdModulus;
      var g := AddSphere(before.registry, selectable);
      assert Valid(g);
      assert MakeSpheres(reg, count, selectable).registry == g;
    }
  }
}
