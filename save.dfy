// The encoder of io_aaron/save.py: `add_bound` appends one record per bound
// object, depth first, to a shared list; `main` assembles the car description.
module Save {
  import opened Util
  import opened Coords
  import opened Format
  import Data

  /** A host scene object as the saver reads it: its kind, whether it has a
      parent, its bound flags (in the order the host's flag set enumerates them,
      which Python leaves unspecified), whether it is displayed as a cube, its
      world position, rotation and scale (integer engine units), its surface
      hash and its children in host order. */
  datatype Obj = Obj(
    kind: string,
    hasParent: bool,
    flags: seq<string>,
    isBox: bool,
    pos: HostVec,
    rot: HostQuat,
    scale: HostVec,
    surfaceHash: int,
    children: seq<Obj>)

  /** The scene settings and the objects of the chosen collection. */
  datatype Scene = Scene(settings: Settings<int>, objects: seq<Obj>)

  predicate IsBound(o: Obj)
  {
    o.kind == Data.BoundKind
  }

  /** The host's flag enumeration guarantees a set of distinct vocabulary
      names, at every depth. */
  predicate FlagsValid(o: Obj)
    decreases o
  {
    (forall i :: 0 <= i < |o.flags| ==> o.flags[i] in Data.FlagNames())
    && (forall i, j :: 0 <= i < j < |o.flags| ==> o.flags[i] != o.flags[j])
    && forall c :: c in o.children ==> FlagsValid(c)
  }

  /** `[x for x in children if x.aaron_data.object_kind == 'bound']`. */
  function BoundChildren(cs: seq<Obj>): (r: seq<Obj>)
    ensures |r| <= |cs|
  {
    if cs == [] then []
    else if IsBound(cs[0]) then [cs[0]] + BoundChildren(cs[1..])
    else BoundChildren(cs[1..])
  }

  /** The shape marker added to the flags. */
  function Marker(isBox: bool): string
  {
    if isBox then Data.BoxFlag else Data.SphereFlag
  }

  /** `', '.join(flags | {marker})`: the flags in the host's enumeration order,
      then the shape marker. */
  function FlagsText(fs: seq<string>, isBox: bool): string
  {
    Join(fs + [Marker(isBox)])
  }

  /** The record `add_bound` appends for `o` at position `index`; `parentPos` is
      the parent's world position, absent at a root. */
  function MakeRecord(o: Obj, parentPos: Option<HostVec>, index: nat): Record
  {
    var n := |BoundChildren(o.children)|;
    Record(
      orientation := AaronQuat(o.rot),
      position := AaronVec(if parentPos.Some? then Sub(o.pos, parentPos.value) else HostZero),
      flags := FlagsText(o.flags, o.isBox),
      halfDimensions := AaronVec(o.scale),
      numChildren := n,
      pCloudIndex := NoPointCloud,
      pivot := AaronVec(o.pos),
      childIndex := if n > 0 then index + 1 else -1,
      attributeName := 0,
      surface := Mask32(o.surfaceHash),
      nameHash := 0)
  }

  /** The records `add_bound(o)` appends when the list already holds `index`
      records: `o`'s own, then each bound child's subtree in order. */
  function FlattenNode(o: Obj, parentPos: Option<HostVec>, index: nat): seq<Record>
    decreases o
  {
    [MakeRecord(o, parentPos, index)] + FlattenChildren(o.children, o.pos, index + 1)
  }

  /** The subtrees of the bound objects among `cs`, one after the other. */
  function FlattenChildren(cs: seq<Obj>, parentPos: HostVec, index: nat): seq<Record>
    decreases cs
  {
    if cs == [] then []
    else if !IsBound(cs[0]) then FlattenChildren(cs[1..], parentPos, index)
    else
      var head := FlattenNode(cs[0], Some(parentPos), index);
      head + FlattenChildren(cs[1..], parentPos, index + |head|)
  }

  /** The root loop: every bound object of the collection without a parent. */
  function FlattenRoots(objects: seq<Obj>, index: nat): seq<Record>
  {
    if objects == [] then []
    else if !(IsBound(objects[0]) && !objects[0].hasParent) then FlattenRoots(objects[1..], index)
    else
      var head := FlattenNode(objects[0], None, index);
      head + FlattenRoots(objects[1..], index + |head|)
  }

  /** The car description `main` writes. */
  function SaveSpec(scene: Scene): CarData
  {
    var st := scene.settings;
    var entries := FlattenRoots(scene.objects, 0);
    CarData(
      st.carTypeName, st.baseModelName, st.manufacturerName, st.usageType,
      Mask32(st.defaultBasePaint), st.skinnable, st.defaultSkinNumber,
      if st.spoilerType != Data.UndefinedSpoiler then Some(st.spoilerType) else None,
      if |entries| > 0 then Some(BoundsPack(entries, [])) else None)
  }

  lemma FlattenChildrenCons(cs: seq<Obj>, parentPos: HostVec, index: nat)
    requires cs != [] && IsBound(cs[0])
    ensures FlattenChildren(cs, parentPos, index)
         == FlattenNode(cs[0], Some(parentPos), index)
          + FlattenChildren(cs[1..], parentPos, index + |FlattenNode(cs[0], Some(parentPos), index)|)
  {
  }

  lemma {:induction false} BoundChildrenAt(cs: seq<Obj>, k: nat)
    requires k < |BoundChildren(cs)|
    ensures BoundChildren(cs)[k] in cs && IsBound(BoundChildren(cs)[k])
    decreases cs
  {
    if IsBound(cs[0]) {
      if k > 0 { BoundChildrenAt(cs[1..], k - 1); }
    } else {
      BoundChildrenAt(cs[1..], k);
    }
  }

  lemma FlattenRootsCons(objects: seq<Obj>, index: nat)
    requires objects != [] && IsBound(objects[0]) && !objects[0].hasParent
    ensures FlattenRoots(objects, index)
         == FlattenNode(objects[0], None, index)
          + FlattenRoots(objects[1..], index + |FlattenNode(objects[0], None, index)|)
  {
  }

  /** One step of the root loop, from position k of the collection. */
  lemma FlattenRootsAt(objects: seq<Obj>, k: nat, index: nat)
    requires k < |objects|
    ensures IsBound(objects[k]) && !objects[k].hasParent ==>
      FlattenRoots(objects[k..], index)
        == FlattenNode(objects[k], None, index)
         + FlattenRoots(objects[k + 1..], index + |FlattenNode(objects[k], None, index)|)
    ensures !(IsBound(objects[k]) && !objects[k].hasParent) ==>
      FlattenRoots(objects[k..], index) == FlattenRoots(objects[k + 1..], index)
  {
    var rest := objects[k..];
    assert rest[0] == objects[k] && rest[1..] == objects[k + 1..];
  }

  lemma {:induction false} FlattenChildrenFiltered(cs: seq<Obj>, parentPos: HostVec, index: nat)
    ensures FlattenChildren(BoundChildren(cs), parentPos, index) == FlattenChildren(cs, parentPos, index)
    decreases cs
  {
    if cs != [] {
      var h := FlattenNode(cs[0], Some(parentPos), index);
      if IsBound(cs[0]) {
        var bs := BoundChildren(cs);
        assert bs[0] == cs[0] && bs[1..] == BoundChildren(cs[1..]);
        FlattenChildrenCons(bs, parentPos, index);
        FlattenChildrenCons(cs, parentPos, index);
        FlattenChildrenFiltered(cs[1..], parentPos, index + |h|);
      } else {
        FlattenChildrenFiltered(cs[1..], parentPos, index);
      }
    }
  }

  // ---- what the saved records say ----

  /** The number of records `add_bound(o)` appends: `o` and, recursively, its
      bound children. */
  function Size(o: Obj): (n: nat)
    ensures n >= 1
    decreases o
  {
    1 + SizeChildren(o.children)
  }

  function SizeChildren(cs: seq<Obj>): nat
    decreases cs
  {
    if cs == [] then 0
    else (if IsBound(cs[0]) then Size(cs[0]) else 0) + SizeChildren(cs[1..])
  }

  lemma {:induction false} FlattenNodeLength(o: Obj, parentPos: Option<HostVec>, index: nat)
    ensures |FlattenNode(o, parentPos, index)| == Size(o)
    decreases o
  {
    FlattenChildrenLength(o.children, o.pos, index + 1);
  }

  lemma {:induction false} FlattenChildrenLength(cs: seq<Obj>, parentPos: HostVec, index: nat)
    ensures |FlattenChildren(cs, parentPos, index)| == SizeChildren(cs)
    decreases cs
  {
    if cs != [] {
      if IsBound(cs[0]) {
        FlattenNodeLength(cs[0], Some(parentPos), index);
        FlattenChildrenCons(cs, parentPos, index);
        FlattenChildrenLength(cs[1..], parentPos, index + Size(cs[0]));
      } else {
        FlattenChildrenLength(cs[1..], parentPos, index);
      }
    }
  }

  /** An object is a leaf of the saved tree iff no record follows its own in
      its subtree; there are at least as many records below as bound children. */
  lemma {:induction false} SizeChildrenBounds(cs: seq<Obj>)
    ensures |BoundChildren(cs)| <= SizeChildren(cs)
    ensures SizeChildren(cs) == 0 <==> BoundChildren(cs) == []
  {
    if cs != [] {
      SizeChildrenBounds(cs[1..]);
    }
  }

  /** The facts `add_bound` guarantees of the record it writes at position `at`. */
  predicate RecordShape(r: Record, at: nat)
  {
    && r.pCloudIndex == NoPointCloud
    && r.attributeName == 0
    && r.nameHash == 0
    && 0 <= r.surface < Modulus32
    && r.numChildren >= 0
    && (if r.numChildren > 0 then r.childIndex == at + 1 else r.childIndex == -1)
  }

  /** Every record of `recs`, the slice starting at list position `base`, has its
      shape, and its child range ends inside the slice. */
  predicate AllShaped(recs: seq<Record>, base: nat)
  {
    forall j :: 0 <= j < |recs| ==> RecordShape(recs[j], base + j) && j + recs[j].numChildren < |recs|
  }

  lemma AllShapedAppend(a: seq<Record>, c: seq<Record>, base: nat)
    requires AllShaped(a, base) && AllShaped(c, base + |a|)
    ensures AllShaped(a + c, base)
  {
    forall j | 0 <= j < |a + c|
      ensures RecordShape((a + c)[j], base + j) && j + (a + c)[j].numChildren < |a + c|
    {
      if j >= |a| {
        assert (a + c)[j] == c[j - |a|];
      }
    }
  }

  lemma {:induction false} FlattenNodeShaped(o: Obj, parentPos: Option<HostVec>, index: nat)
    ensures AllShaped(FlattenNode(o, parentPos, index), index)
    decreases o
  {
    var rec := MakeRecord(o, parentPos, index);
    var rest := FlattenChildren(o.children, o.pos, index + 1);
    FlattenChildrenShaped(o.children, o.pos, index + 1);
    FlattenChildrenLength(o.children, o.pos, index + 1);
    SizeChildrenBounds(o.children);
    assert [rec] + rest == FlattenNode(o, parentPos, index);
    forall j | 0 <= j < |[rec] + rest|
      ensures RecordShape(([rec] + rest)[j], index + j) && j + ([rec] + rest)[j].numChildren < |[rec] + rest|
    {
      if j > 0 {
        assert ([rec] + rest)[j] == rest[j - 1];
      }
    }
  }

  lemma {:induction false} FlattenChildrenShaped(cs: seq<Obj>, parentPos: HostVec, index: nat)
    ensures AllShaped(FlattenChildren(cs, parentPos, index), index)
    decreases cs
  {
    if cs != [] {
      if IsBound(cs[0]) {
        var h := FlattenNode(cs[0], Some(parentPos), index);
        FlattenChildrenCons(cs, parentPos, index);
        FlattenNodeShaped(cs[0], Some(parentPos), index);
        FlattenChildrenShaped(cs[1..], parentPos, index + |h|);
        AllShapedAppend(h, FlattenChildren(cs[1..], parentPos, index + |h|), index);
      } else {
        FlattenChildrenShaped(cs[1..], parentPos, index);
      }
    }
  }

  lemma {:induction false} FlattenRootsShaped(objects: seq<Obj>, index: nat)
    ensures AllShaped(FlattenRoots(objects, index), index)
  {
    if objects != [] {
      if IsBound(objects[0]) && !objects[0].hasParent {
        var h := FlattenNode(objects[0], None, index);
        FlattenRootsCons(objects, index);
        FlattenNodeShaped(objects[0], None, index);
        FlattenRootsShaped(objects[1..], index + |h|);
        AllShapedAppend(h, FlattenRoots(objects[1..], index + |h|), index);
      } else {
        FlattenRootsShaped(objects[1..], index);
      }
    }
  }

  /** Every saved entry has no point cloud, zero name hashes, a 32-bit surface,
      `ChildIndex` one past its own index (or -1 with no children), and a child
      range inside the entry list. */
  lemma EntriesShaped(scene: Scene)
    ensures var entries := FlattenRoots(scene.objects, 0);
      forall j :: 0 <= j < |entries| ==>
        RecordShape(entries[j], j) && entries[j].childIndex + entries[j].numChildren <= |entries|
  {
    FlattenRootsShaped(scene.objects, 0);
  }

  // ---- where the children's records are ----

  /** The list positions of the records of the bound children `ks` when the
      first one's subtree starts at `start`: each subtree follows the previous. */
  function ChildStarts(ks: seq<Obj>, start: nat): (st: seq<nat>)
    ensures |st| == |ks|
  {
    if ks == [] then [] else [start] + ChildStarts(ks[1..], start + Size(ks[0]))
  }

  lemma {:induction false} ChildStartsAbove(ks: seq<Obj>, start: nat, m: nat)
    requires m < |ks|
    ensures ChildStarts(ks, start)[m] >= start + m
    ensures (exists j :: 0 <= j < m && Size(ks[j]) > 1) ==> ChildStarts(ks, start)[m] > start + m
  {
    if m > 0 {
      ChildStartsAbove(ks[1..], start + Size(ks[0]), m - 1);
      assert forall j :: 1 <= j < m ==> ks[1..][j - 1] == ks[j];
    }
  }

  lemma {:induction false} ChildStartsExact(ks: seq<Obj>, start: nat)
    requires forall j :: 0 <= j < |ks| - 1 ==> Size(ks[j]) == 1
    ensures forall j :: 0 <= j < |ks| ==> ChildStarts(ks, start)[j] == start + j
  {
    if ks != [] {
      assert forall j :: 0 <= j < |ks[1..]| - 1 ==> ks[1..][j] == ks[j + 1];
      ChildStartsExact(ks[1..], start + Size(ks[0]));
    }
  }

  /** The decoder reads a node's children as the `NumChildren` records from
      `ChildIndex` on, in order. The j-th of them is the j-th child's record for
      every j iff every bound child but the last has no bound children of its own. */
  lemma ContiguousIffLeaves(ks: seq<Obj>, start: nat)
    ensures (forall j :: 0 <= j < |ks| ==> ChildStarts(ks, start)[j] == start + j)
        <==> forall j :: 0 <= j < |ks| - 1 ==> BoundChildren(ks[j].children) == []
  {
    forall j | 0 <= j < |ks| ensures Size(ks[j]) == 1 <==> BoundChildren(ks[j].children) == [] {
      SizeChildrenBounds(ks[j].children);
    }
    if forall j :: 0 <= j < |ks| - 1 ==> Size(ks[j]) == 1 {
      ChildStartsExact(ks, start);
    } else {
      ChildStartsAbove(ks, start, |ks| - 1);
    }
  }

  lemma {:induction false} ChildRecordsAt(ks: seq<Obj>, parentPos: HostVec, start: nat, k: nat)
    requires forall j :: 0 <= j < |ks| ==> IsBound(ks[j])
    requires k < |ks|
    ensures start <= ChildStarts(ks, start)[k] < start + |FlattenChildren(ks, parentPos, start)|
    ensures FlattenChildren(ks, parentPos, start)[ChildStarts(ks, start)[k] - start]
         == MakeRecord(ks[k], Some(parentPos), ChildStarts(ks, start)[k])
  {
    var h := FlattenNode(ks[0], Some(parentPos), start);
    var all := FlattenChildren(ks, parentPos, start);
    FlattenChildrenCons(ks, parentPos, start);
    FlattenNodeLength(ks[0], Some(parentPos), start);
    var rest := FlattenChildren(ks[1..], parentPos, start + |h|);
    assert all == h + rest;
    if k == 0 {
      assert all[0] == h[0];
    } else {
      var at := ChildStarts(ks, start)[k];
      assert at == ChildStarts(ks[1..], start + |h|)[k - 1];
      ChildRecordsAt(ks[1..], parentPos, start + |h|, k - 1);
      assert all[at - start] == rest[at - start - |h|];
    }
  }

  /** The k-th bound child of the object saved at list position `index` is saved,
      with this object's position as its parent position, at the k-th of the
      child starts. */
  lemma ChildRecordAt(o: Obj, parentPos: Option<HostVec>, index: nat, k: nat)
    requires k < |BoundChildren(o.children)|
    ensures var at := ChildStarts(BoundChildren(o.children), index + 1)[k];
      index < at < index + |FlattenNode(o, parentPos, index)|
      && FlattenNode(o, parentPos, index)[at - index]
         == MakeRecord(BoundChildren(o.children)[k], Some(o.pos), at)
  {
    var ks := BoundChildren(o.children);
    forall j | 0 <= j < |ks| ensures IsBound(ks[j]) {
      BoundChildrenAt(o.children, j);
    }
    FlattenChildrenFiltered(o.children, o.pos, index + 1);
    ChildRecordsAt(ks, o.pos, index + 1, k);
  }

  // ---- the flags and the optional sections ----

  /** The decoder's reading of a saved `Flags` string gives back the object's
      flag set and its shape. */
  lemma FlagsTextRoundTrip(fs: seq<string>, isBox: bool)
    requires forall i :: 0 <= i < |fs| ==> PlainFlag(fs[i])
    ensures ParseFlags(FlagsText(fs, isBox)) == (Elements(fs), isBox)
  {
    FlagsOrderPlain(fs, isBox);
    ParseJoinAnyOrder(fs + [Marker(isBox)]);
    MarkerRemoved(fs, Marker(isBox), Data.BoxFlag, Data.SphereFlag);
  }

  /** The parts of a saved `Flags` text hold no separator, and the flags hold
      neither marker. */
  lemma FlagsOrderPlain(fs: seq<string>, isBox: bool)
    requires forall i :: 0 <= i < |fs| ==> PlainFlag(fs[i])
    ensures forall i :: 0 <= i < |fs + [Marker(isBox)]| ==> NoSeparator((fs + [Marker(isBox)])[i])
    ensures Data.BoxFlag !in fs && Data.SphereFlag !in fs
    ensures Data.BoxFlag != Data.SphereFlag
    ensures Marker(isBox) == Data.BoxFlag <==> isBox
  {
    var order := fs + [Marker(isBox)];
    MarkersWithoutSeparator();
    forall i | 0 <= i < |order| ensures NoSeparator(order[i]) {
      if i < |fs| { assert order[i] == fs[i]; }
    }
    forall i | 0 <= i < |fs| ensures fs[i] != Data.BoxFlag && fs[i] != Data.SphereFlag {
      assert PlainFlag(fs[i]);
    }
    assert Data.BoxFlag[8] != Data.SphereFlag[8];
  }

  /** Adding one of two markers absent from `fs`, then removing both, leaves
      the elements of `fs`; the first marker is present iff it was the one added. */
  lemma MarkerRemoved(fs: seq<string>, m: string, box: string, sphere: string)
    requires box !in fs && sphere !in fs
    requires box != sphere && (m == box || m == sphere)
    ensures Elements(fs + [m]) - {box, sphere} == Elements(fs)
    ensures box in fs + [m] <==> m == box
  {
    var all := Elements(fs + [m]);
    ElementsIn(fs + [m]);
    ElementsIn(fs);
    forall x ensures x in all - {box, sphere} <==> x in Elements(fs) {
      assert x in all <==> x in fs + [m];
      assert x in Elements(fs) <==> x in fs;
      assert x in fs + [m] <==> x in fs || x == m;
    }
    assert all - {box, sphere} == Elements(fs);
    assert box in fs + [m] <==> box in fs || box == m;
  }

  /** For flags drawn from the vocabulary, as the host guarantees. */
  lemma FlagsTextRoundTripVocabulary(fs: seq<string>, isBox: bool)
    requires forall i :: 0 <= i < |fs| ==> fs[i] in Data.FlagNames()
    ensures ParseFlags(FlagsText(fs, isBox)) == (Elements(fs), isBox)
  {
    VocabularyPlain();
    FlagsTextRoundTrip(fs, isBox);
  }

  lemma {:induction false} RootsLength(objects: seq<Obj>, index: nat)
    ensures |FlattenRoots(objects, index)| > 0
        <==> exists k :: 0 <= k < |objects| && IsBound(objects[k]) && !objects[k].hasParent
  {
    if objects != [] {
      RootsLength(objects[1..], index + Size(objects[0]));
      RootsLength(objects[1..], index);
      if IsBound(objects[0]) && !objects[0].hasParent {
        FlattenRootsCons(objects, index);
        FlattenNodeLength(objects[0], None, index);
      } else {
        assert forall k :: 1 <= k < |objects| ==> objects[1..][k - 1] == objects[k];
      }
    }
  }

  /** `BoundsPack` is written iff the collection holds a bound object without a
      parent; an empty scene is saved without it. */
  lemma BoundsPackIffRoot(scene: Scene)
    ensures SaveSpec(scene).boundsPack.Some?
        <==> exists k :: 0 <= k < |scene.objects| && IsBound(scene.objects[k]) && !scene.objects[k].hasParent
    ensures SaveSpec(scene).boundsPack.Some? ==> SaveSpec(scene).boundsPack.value.pointClouds == []
  {
    RootsLength(scene.objects, 0);
  }

  /** `Spoiler` is written iff the spoiler type is not the "undefined"
      sentinel, and then holds that type; the base paint is written as its
      residue modulo 2^32. */
  lemma HeaderSections(scene: Scene)
    ensures SaveSpec(scene).spoiler.Some? <==> scene.settings.spoilerType != "undefined"
    ensures SaveSpec(scene).spoiler.Some? ==> SaveSpec(scene).spoiler.value == scene.settings.spoilerType
    ensures 0 <= SaveSpec(scene).defaultBasePaint < 0x1_0000_0000
    ensures (SaveSpec(scene).defaultBasePaint - scene.settings.defaultBasePaint) % 0x1_0000_0000 == 0
  {
  }

  /** The shared `out_bounds` list of `add_bound`. */
  class Saver {
    var outBounds: seq<Record>

    constructor ()
      ensures outBounds == []
    {
      outBounds := [];
    }

    /** `add_bound(object, parent_pos)`. */
    method AddBound(o: Obj, parentPos: Option<HostVec>)
      modifies this
      ensures outBounds == old(outBounds) + FlattenNode(o, parentPos, |old(outBounds)|)
      decreases o
    {
      var children := BoundChildren(o.children);
      var index := |outBounds|;
      ghost var goal := old(outBounds) + FlattenNode(o, parentPos, index);
      var rec := MakeRecord(o, parentPos, index);
      AppendAssoc(outBounds, [rec], FlattenChildren(o.children, o.pos, index + 1));
      outBounds := outBounds + [rec];
      FlattenChildrenFiltered(o.children, o.pos, index + 1);
      assert children[0..] == children;
      for k := 0 to |children|
        invariant goal == outBounds + FlattenChildren(children[k..], o.pos, |outBounds|)
      {
        ghost var before := outBounds;
        ghost var rest := children[k..];
        assert rest[0] == children[k] && rest[1..] == children[k + 1..];
        BoundChildrenAt(o.children, k);
        FlattenChildrenCons(rest, o.pos, |before|);
        AddBound(children[k], Some(o.pos));
        ghost var h := FlattenNode(children[k], Some(o.pos), |before|);
        AppendAssoc(before, h, FlattenChildren(children[k + 1..], o.pos, |before| + |h|));
      }
      assert children[|children|..] == [];
    }
  }

  /** The root loop of `main`: `add_bound(obj)` for every bound object of the
      collection without a parent, in collection order. */
  method SaveEntries(objects: seq<Obj>) returns (entries: seq<Record>)
    ensures entries == FlattenRoots(objects, 0)
  {
    var saver := new Saver();
    ghost var goal := FlattenRoots(objects, 0);
    for k := 0 to |objects|
      invariant goal == saver.outBounds + FlattenRoots(objects[k..], |saver.outBounds|)
    {
      ghost var before := saver.outBounds;
      FlattenRootsAt(objects, k, |before|);
      if IsBound(objects[k]) && !objects[k].hasParent {
        saver.AddBound(objects[k], None);
        ghost var h := FlattenNode(objects[k], None, |before|);
        AppendAssoc(before, h, FlattenRoots(objects[k + 1..], |before| + |h|));
      }
    }
    assert objects[|objects|..] == [];
    entries := saver.outBounds;
  }

  /** `main` without the file write: the settings, the root loop, then the
      optional `BoundsPack` and `Spoiler` sections. */
  method Save(scene: Scene) returns (car: CarData)
    ensures car == SaveSpec(scene)
  {
    var st := scene.settings;
    car := CarData(
      st.carTypeName, st.baseModelName, st.manufacturerName, st.usageType,
      st.defaultBasePaint % Modulus32, st.skinnable, st.defaultSkinNumber, None, None);
    var entries := SaveEntries(scene.objects);
    if |entries| > 0 {
      car := car.(boundsPack := Some(BoundsPack(entries, [])));
    }
    if st.spoilerType != Data.UndefinedSpoiler {
      car := car.(spoiler := Some(st.spoilerType));
    }
  }
}
