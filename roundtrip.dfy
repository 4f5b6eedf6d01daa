// What loading a saved car gives back. The encoder (io_aaron/save.py) lays the
// bound tree out depth first; the decoder (io_aaron/load.py) reads a node's
// children as the `NumChildren` records from `ChildIndex` on. The two agree
// exactly when, at every node, every bound child but the last has no bound
// children of its own; otherwise the decoder rebuilds a different tree.
module RoundTrip {
  import opened Util
  import opened Coords
  import opened Format
  import Data
  import Save
  import Load

  // ---- the shapes that survive a save and a load ----

  /** At every depth, every bound child but the last has no bound children. */
  predicate Contiguous(o: Save.Obj)
    decreases o
  {
    ContiguousList(o.children)
  }

  predicate ContiguousList(cs: seq<Save.Obj>)
    decreases cs
  {
    cs == [] ||
    ((Save.IsBound(cs[0]) ==>
        Contiguous(cs[0])
        && (Save.BoundChildren(cs[1..]) != [] ==> Save.BoundChildren(cs[0].children) == []))
     && ContiguousList(cs[1..]))
  }

  /** Every flag at every depth is plain. */
  predicate FlagsPlain(o: Save.Obj)
    decreases o
  {
    (forall i :: 0 <= i < |o.flags| ==> PlainFlag(o.flags[i]))
    && forall c :: c in o.children ==> FlagsPlain(c)
  }

  /** The host's flag sets are plain. */
  lemma {:induction false} FlagsValidPlain(o: Save.Obj)
    requires Save.FlagsValid(o)
    ensures FlagsPlain(o)
    decreases o
  {
    VocabularyPlain();
    forall c | c in o.children ensures FlagsPlain(c) {
      FlagsValidPlain(c);
    }
  }

  // ---- what the decoder should create ----

  /** The object the decoder should create for `o`, saved at list position
      `index` under the object saved at `parent`: the same flags, shape, pivot,
      rotation and scale, located at its own position, except that a root is
      placed at the origin unless `use_pivot` is set. */
  function Expected(o: Save.Obj, parent: Option<nat>, index: nat, usePivot: bool, resolve: int -> string): Load.Visit
  {
    Load.Visit(
      index, parent, Elements(o.flags), o.isBox, o.pos,
      if usePivot || parent.Some? then o.pos else HostZero,
      o.rot, o.scale,
      resolve(Mask32(o.surfaceHash)), resolve(0), resolve(0), None)
  }

  /** The objects for `o` and its bound descendants, in pre-order. */
  function ExpectedNode(o: Save.Obj, parent: Option<nat>, index: nat, usePivot: bool, resolve: int -> string): seq<Load.Visit>
    decreases o
  {
    [Expected(o, parent, index, usePivot, resolve)]
    + ExpectedChildren(o.children, index, index + 1, usePivot, resolve)
  }

  function ExpectedChildren(cs: seq<Save.Obj>, parent: nat, index: nat, usePivot: bool, resolve: int -> string): seq<Load.Visit>
    decreases cs
  {
    if cs == [] then []
    else if !Save.IsBound(cs[0]) then ExpectedChildren(cs[1..], parent, index, usePivot, resolve)
    else
      ExpectedNode(cs[0], Some(parent), index, usePivot, resolve)
      + ExpectedChildren(cs[1..], parent, index + Save.Size(cs[0]), usePivot, resolve)
  }

  function ExpectedRoots(objects: seq<Save.Obj>, index: nat, usePivot: bool, resolve: int -> string): seq<Load.Visit>
  {
    if objects == [] then []
    else if !(Save.IsBound(objects[0]) && !objects[0].hasParent) then
      ExpectedRoots(objects[1..], index, usePivot, resolve)
    else
      ExpectedNode(objects[0], None, index, usePivot, resolve)
      + ExpectedRoots(objects[1..], index + Save.Size(objects[0]), usePivot, resolve)
  }

  /** The integers from `lo` up to, not including, `hi`. */
  function Span(lo: int, hi: int): (r: set<int>)
    ensures forall k :: k in r <==> lo <= k < hi
    decreases hi - lo
  {
    if lo >= hi then {} else {lo} + Span(lo + 1, hi)
  }

  /** `entries` holds `part` from position `i` on. */
  predicate At(entries: seq<Record>, i: nat, part: seq<Record>)
  {
    i + |part| <= |entries| && entries[i..i + |part|] == part
  }

  lemma AtSplit(entries: seq<Record>, i: nat, a: seq<Record>, b: seq<Record>)
    requires At(entries, i, a + b)
    ensures At(entries, i, a) && At(entries, i + |a|, b)
  {
    var whole := entries[i..i + |a + b|];
    assert entries[i..i + |a|] == whole[..|a|];
    assert entries[i + |a|..i + |a| + |b|] == whole[|a|..];
    assert (a + b)[..|a|] == a && (a + b)[|a|..] == b;
  }

  /** The decoder's parent arguments match the encoder's: a parent record iff a
      parent position, and the parent record's pivot is that position. */
  predicate ParentFits(entries: seq<Record>, parentPos: Option<HostVec>, parent: Option<nat>)
  {
    parentPos.Some? == parent.Some?
    && (parent.Some? ==> parent.value < |entries| && entries[parent.value].pivot == AaronVec(parentPos.value))
  }

  // ---- decoding one record ----

  /** The record of a subtree, laid out at `i`, and the children's records after it. */
  lemma NodeAt(entries: seq<Record>, o: Save.Obj, parentPos: Option<HostVec>, i: nat)
    requires At(entries, i, Save.FlattenNode(o, parentPos, i))
    ensures i < |entries| && entries[i] == Save.MakeRecord(o, parentPos, i)
    ensures At(entries, i + 1, Save.FlattenChildren(o.children, o.pos, i + 1))
  {
    var rec := Save.MakeRecord(o, parentPos, i);
    AtSplit(entries, i, [rec], Save.FlattenChildren(o.children, o.pos, i + 1));
    assert entries[i..i + 1] == [rec];
  }

  /** The encoder's layout of a child list led by a bound child. */
  lemma ChildrenAtSplit(entries: seq<Record>, cs: seq<Save.Obj>, parentPos: HostVec, start: nat)
    requires cs != [] && Save.IsBound(cs[0])
    requires At(entries, start, Save.FlattenChildren(cs, parentPos, start))
    ensures At(entries, start, Save.FlattenNode(cs[0], Some(parentPos), start))
    ensures At(entries, start + Save.Size(cs[0]), Save.FlattenChildren(cs[1..], parentPos, start + Save.Size(cs[0])))
  {
    var h := Save.FlattenNode(cs[0], Some(parentPos), start);
    Save.FlattenChildrenCons(cs, parentPos, start);
    Save.FlattenNodeLength(cs[0], Some(parentPos), start);
    AtSplit(entries, start, h, Save.FlattenChildren(cs[1..], parentPos, start + |h|));
  }

  /** A record written by `add_bound` decodes to the expected object. */
  lemma DecodeRecord(input: Load.Input, o: Save.Obj, parentPos: Option<HostVec>, parent: Option<nat>, i: nat)
    requires i < |input.entries| && input.entries[i] == Save.MakeRecord(o, parentPos, i)
    requires ParentFits(input.entries, parentPos, parent)
    requires FlagsPlain(o)
    ensures Load.DecodeOne(input, i, parent) == Expected(o, parent, i, input.usePivot, input.resolve)
  {
    Save.FlagsTextRoundTrip(o.flags, o.isBox);
    VecRoundTrip(o.pos, EngineVec(0, 0, 0));
    VecRoundTrip(o.scale, EngineVec(0, 0, 0));
    QuatRoundTrip(o.rot, EngineQuat(0, 0, 0, 0));
    if parent.Some? {
      OffsetRoundTrip(parentPos.value, o.pos);
    }
  }

  // ---- the saved list, as the decoder reads it ----

  /** The records of `o`'s subtree from position `i` on carry the child ranges
      the encoder gives them: none for a leaf, otherwise the bound children's
      subtrees one after the other from `i + 1`; no record names a point cloud. */
  predicate LinkedNode(entries: seq<Record>, o: Save.Obj, i: nat)
    decreases o, 1
  {
    var n := |Save.BoundChildren(o.children)|;
    i < |entries| && entries[i].pCloudIndex == NoPointCloud && entries[i].numChildren == n
    && entries[i].childIndex == (if n == 0 then -1 else i + 1)
    && LinkedChildren(entries, o.children, i + 1)
  }

  predicate LinkedChildren(entries: seq<Record>, cs: seq<Save.Obj>, i: nat)
    decreases cs, 0
  {
    if cs == [] then true
    else if Save.IsBound(cs[0]) then
      LinkedNode(entries, cs[0], i) && LinkedChildren(entries, cs[1..], i + Save.Size(cs[0]))
    else LinkedChildren(entries, cs[1..], i)
  }

  /** Each record of `o`'s subtree from position `i` on, read under the record
      of its parent, decodes to the object expected for it. */
  predicate DecodedNode(input: Load.Input, o: Save.Obj, parent: Option<nat>, i: nat)
    decreases o, 1
  {
    i < |input.entries| && (parent.Some? ==> parent.value < |input.entries|)
    && Load.DecodeOne(input, i, parent) == Expected(o, parent, i, input.usePivot, input.resolve)
    && DecodedChildren(input, o.children, i, i + 1)
  }

  predicate DecodedChildren(input: Load.Input, cs: seq<Save.Obj>, parent: nat, i: nat)
    decreases cs, 0
  {
    if cs == [] then true
    else if Save.IsBound(cs[0]) then
      DecodedNode(input, cs[0], Some(parent), i) && DecodedChildren(input, cs[1..], parent, i + Save.Size(cs[0]))
    else DecodedChildren(input, cs[1..], parent, i)
  }

  /** The subtree the encoder writes at `i` is linked and decodes record by
      record. */
  lemma {:induction false} LaidOutNode(
      input: Load.Input, o: Save.Obj, parentPos: Option<HostVec>, parent: Option<nat>, i: nat)
    requires At(input.entries, i, Save.FlattenNode(o, parentPos, i))
    requires ParentFits(input.entries, parentPos, parent)
    requires FlagsPlain(o)
    ensures LinkedNode(input.entries, o, i) && DecodedNode(input, o, parent, i)
    decreases o, 1
  {
    NodeAt(input.entries, o, parentPos, i);
    DecodeRecord(input, o, parentPos, parent, i);
    LaidOutChildren(input, o.children, o.pos, i, i + 1);
  }

  lemma {:induction false} LaidOutChildren(
      input: Load.Input, cs: seq<Save.Obj>, parentPos: HostVec, parent: nat, i: nat)
    requires At(input.entries, i, Save.FlattenChildren(cs, parentPos, i))
    requires parent < |input.entries| && input.entries[parent].pivot == AaronVec(parentPos)
    requires forall c :: c in cs ==> FlagsPlain(c)
    ensures LinkedChildren(input.entries, cs, i) && DecodedChildren(input, cs, parent, i)
    decreases cs, 0
  {
    if cs != [] {
      if Save.IsBound(cs[0]) {
        ChildrenAtSplit(input.entries, cs, parentPos, i);
        LaidOutNode(input, cs[0], Some(parentPos), Some(parent), i);
        LaidOutChildren(input, cs[1..], parentPos, parent, i + Save.Size(cs[0]));
      } else {
        LaidOutChildren(input, cs[1..], parentPos, parent, i);
      }
    }
  }

  // ---- walking a subtree: what is raised and what is marked seen ----

  /** The range [a, c) is [a, b) followed by [b, c). */
  lemma SpanJoin(a: int, b: int, c: int)
    requires a <= b <= c
    ensures Span(a, b) + Span(b, c) == Span(a, c)
  {
  }

  /** Walking from the record of a contiguous subtree raises nothing and marks
      exactly the subtree's other records seen. */
  lemma {:induction false} WalkNode(
      input: Load.Input, o: Save.Obj, parent: Option<nat>, i: nat, visits: seq<Load.Visit>, seen: set<int>)
    requires Load.Forward(input.entries)
    requires LinkedNode(input.entries, o, i)
    requires parent.Some? ==> parent.value < |input.entries|
    requires Contiguous(o)
    ensures i < |input.entries|
    ensures Load.VisitFrom(input, i, parent, visits, seen).failure == None
    ensures Load.VisitFrom(input, i, parent, visits, seen).seen == seen + Span(i + 1, i + Save.Size(o))
    decreases o, 2
  {
    var n := |Save.BoundChildren(o.children)|;
    Save.SizeChildrenBounds(o.children);
    if n == 0 {
      Load.VisitLeaf(input, i, parent, visits, seen);
      assert Span(i + 1, i + Save.Size(o)) == {};
    } else {
      Load.VisitInner(input, i, parent, visits, seen, i + 1, n);
      WalkChildren(input, o.children, i, i + 1, visits + [Load.DecodeOne(input, i, parent)], seen);
    }
  }

  /** Walking the child range of a record whose children are `cs`. */
  lemma {:induction false} WalkChildren(
      input: Load.Input, cs: seq<Save.Obj>, parent: nat, start: nat, visits: seq<Load.Visit>, seen: set<int>)
    requires Load.Forward(input.entries)
    requires parent < start && parent < |input.entries|
    requires ContiguousList(cs) && LinkedChildren(input.entries, cs, start)
    ensures Load.VisitRange(input, start, start + |Save.BoundChildren(cs)|, parent, visits, seen).failure == None
    ensures Load.VisitRange(input, start, start + |Save.BoundChildren(cs)|, parent, visits, seen).seen
         == seen + Span(start, start + Save.SizeChildren(cs))
    decreases cs, 2
  {
    if cs == [] {
      assert Span(start, start) == {};
    } else if !Save.IsBound(cs[0]) {
      WalkChildren(input, cs[1..], parent, start, visits, seen);
    } else {
      WalkBoundChild(input, cs, parent, start, visits, seen);
    }
  }

  lemma {:induction false} WalkBoundChild(
      input: Load.Input, cs: seq<Save.Obj>, parent: nat, start: nat, visits: seq<Load.Visit>, seen: set<int>)
    requires Load.Forward(input.entries)
    requires parent < start && parent < |input.entries|
    requires cs != [] && Save.IsBound(cs[0])
    requires ContiguousList(cs) && LinkedChildren(input.entries, cs, start)
    ensures Load.VisitRange(input, start, start + |Save.BoundChildren(cs)|, parent, visits, seen).failure == None
    ensures Load.VisitRange(input, start, start + |Save.BoundChildren(cs)|, parent, visits, seen).seen
         == seen + Span(start, start + Save.SizeChildren(cs))
    decreases cs, 1
  {
    var end := start + |Save.BoundChildren(cs)|;
    LaterSiblings(input.entries, cs, start);
    WalkNode(input, cs[0], Some(parent), start, visits, seen + {start});
    var w := Load.VisitFrom(input, start, Some(parent), visits, seen + {start});
    Load.RangeStep(input, start, end, parent, visits, seen, w);
    WalkSiblings(input, cs[1..], parent, start, start + Save.Size(cs[0]), w.visits, seen, w.seen);
  }

  /** The bound siblings `rest` after a first bound child at `start` whose
      subtree ends before `after`, walked from the state that subtree left
      behind. */
  lemma {:induction false} WalkSiblings(
      input: Load.Input, rest: seq<Save.Obj>, parent: nat, start: nat, after: nat,
      visits: seq<Load.Visit>, seen: set<int>, seen': set<int>)
    requires Load.Forward(input.entries)
    requires parent < start < after && parent < |input.entries|
    requires ContiguousList(rest) && LinkedChildren(input.entries, rest, after)
    requires Save.BoundChildren(rest) != [] ==> after == start + 1
    requires seen' == seen + {start} + Span(start + 1, after)
    ensures Load.VisitRange(input, start + 1, start + 1 + |Save.BoundChildren(rest)|, parent, visits, seen').failure == None
    ensures Load.VisitRange(input, start + 1, start + 1 + |Save.BoundChildren(rest)|, parent, visits, seen').seen
         == seen + Span(start, after + Save.SizeChildren(rest))
    decreases rest, 3
  {
    var last := after + Save.SizeChildren(rest);
    if Save.BoundChildren(rest) == [] {
      Save.SizeChildrenBounds(rest);
      Load.RangeEnd(input, start + 1, start + 1, parent, visits, seen');
      SeenJoin(seen, start, after, last, seen', seen');
    } else {
      WalkChildren(input, rest, parent, after, visits, seen');
      var r := Load.VisitRange(input, after, after + |Save.BoundChildren(rest)|, parent, visits, seen');
      SeenJoin(seen, start, after, last, seen', r.seen);
    }
  }

  /** What a list headed by a bound child says about the siblings after it. */
  lemma LaterSiblings(entries: seq<Record>, cs: seq<Save.Obj>, start: nat)
    requires cs != [] && Save.IsBound(cs[0])
    requires ContiguousList(cs) && LinkedChildren(entries, cs, start)
    ensures ContiguousList(cs[1..]) && LinkedChildren(entries, cs[1..], start + Save.Size(cs[0]))
    ensures |Save.BoundChildren(cs)| == 1 + |Save.BoundChildren(cs[1..])|
    ensures Save.SizeChildren(cs) == Save.Size(cs[0]) + Save.SizeChildren(cs[1..])
    ensures Save.BoundChildren(cs[1..]) == [] ==> Save.SizeChildren(cs[1..]) == 0
    ensures Save.BoundChildren(cs[1..]) != [] ==> Save.Size(cs[0]) == 1
  {
    Save.SizeChildrenBounds(cs[1..]);
    Save.SizeChildrenBounds(cs[0].children);
  }

  /** The seen set after a bound child and its later siblings. */
  lemma SeenJoin(seen: set<int>, start: int, after: int, last: int, seen': set<int>, seen'': set<int>)
    requires start < after <= last
    requires seen' == seen + {start} + Span(start + 1, after)
    requires seen'' == seen' + Span(after, last)
    ensures seen'' == seen + Span(start, last)
  {
    SpanJoin(start, start + 1, after);
    SpanJoin(start, after, last);
  }

  // ---- decoding a subtree: the objects created ----

  lemma {:induction false} ExpectedChildrenNone(cs: seq<Save.Obj>, parent: nat, index: nat, usePivot: bool, resolve: int -> string)
    requires Save.BoundChildren(cs) == []
    ensures ExpectedChildren(cs, parent, index, usePivot, resolve) == []
    ensures Save.SizeChildren(cs) == 0
  {
    Save.SizeChildrenBounds(cs);
    if cs != [] {
      ExpectedChildrenNone(cs[1..], parent, index, usePivot, resolve);
    }
  }

  /** Decoding the record of a contiguous subtree creates its objects in
      pre-order. */
  lemma {:induction false} DecodeNode(
      input: Load.Input, o: Save.Obj, parent: Option<nat>, i: nat, visits: seq<Load.Visit>, seen: set<int>)
    requires Load.Forward(input.entries)
    requires LinkedNode(input.entries, o, i) && DecodedNode(input, o, parent, i)
    requires Contiguous(o)
    ensures i < |input.entries|
    ensures Load.VisitFrom(input, i, parent, visits, seen).visits
         == visits + ExpectedNode(o, parent, i, input.usePivot, input.resolve)
    decreases o, 2
  {
    var n := |Save.BoundChildren(o.children)|;
    var v := Load.DecodeOne(input, i, parent);
    if n == 0 {
      Load.VisitLeaf(input, i, parent, visits, seen);
      ExpectedChildrenNone(o.children, i, i + 1, input.usePivot, input.resolve);
    } else {
      Load.VisitInner(input, i, parent, visits, seen, i + 1, n);
      DecodeChildren(input, o.children, i, i + 1, visits + [v], seen);
      AppendAssoc(visits, [v], ExpectedChildren(o.children, i, i + 1, input.usePivot, input.resolve));
    }
  }

  /** Decoding the child range of a record whose children are `cs`. */
  lemma {:induction false} DecodeChildren(
      input: Load.Input, cs: seq<Save.Obj>, parent: nat, start: nat, visits: seq<Load.Visit>, seen: set<int>)
    requires Load.Forward(input.entries)
    requires parent < start && parent < |input.entries|
    requires ContiguousList(cs) && LinkedChildren(input.entries, cs, start) && DecodedChildren(input, cs, parent, start)
    ensures Load.VisitRange(input, start, start + |Save.BoundChildren(cs)|, parent, visits, seen).visits
         == visits + ExpectedChildren(cs, parent, start, input.usePivot, input.resolve)
    decreases cs, 1
  {
    if cs == [] {
    } else if !Save.IsBound(cs[0]) {
      DecodeChildren(input, cs[1..], parent, start, visits, seen);
    } else {
      DecodeBoundChild(input, cs, parent, start, visits, seen);
    }
  }

  lemma {:induction false} DecodeBoundChild(
      input: Load.Input, cs: seq<Save.Obj>, parent: nat, start: nat, visits: seq<Load.Visit>, seen: set<int>)
    requires Load.Forward(input.entries)
    requires parent < start && parent < |input.entries|
    requires cs != [] && Save.IsBound(cs[0])
    requires ContiguousList(cs) && LinkedChildren(input.entries, cs, start) && DecodedChildren(input, cs, parent, start)
    ensures Load.VisitRange(input, start, start + |Save.BoundChildren(cs)|, parent, visits, seen).visits
         == visits + ExpectedChildren(cs, parent, start, input.usePivot, input.resolve)
    decreases cs, 0
  {
    var o := cs[0];
    var end := start + |Save.BoundChildren(cs)|;
    var after := start + Save.Size(o);
    LaterSiblings(input.entries, cs, start);
    var w := Load.VisitFrom(input, start, Some(parent), visits, seen + {start});
    DecodeFirstChild(input, o, parent, start, end, visits, seen);
    var e := ExpectedNode(o, Some(parent), start, input.usePivot, input.resolve);
    var more := ExpectedChildren(cs[1..], parent, after, input.usePivot, input.resolve);
    DecodeSiblings(input, cs[1..], parent, start, after, w.visits, w.seen);
    AppendAssoc(visits, e, more);
  }

  /** The first bound child of a range is decoded as a whole subtree before
      the range moves on. */
  lemma DecodeFirstChild(
      input: Load.Input, o: Save.Obj, parent: nat, start: nat, end: nat, visits: seq<Load.Visit>, seen: set<int>)
    requires Load.Forward(input.entries)
    requires parent < start < end && parent < |input.entries|
    requires LinkedNode(input.entries, o, start) && DecodedNode(input, o, Some(parent), start) && Contiguous(o)
    ensures start < |input.entries|
    ensures var w := Load.VisitFrom(input, start, Some(parent), visits, seen + {start});
      && w.visits == visits + ExpectedNode(o, Some(parent), start, input.usePivot, input.resolve)
      && Load.VisitRange(input, start, end, parent, visits, seen) == Load.VisitRange(input, start + 1, end, parent, w.visits, w.seen)
    decreases o, 3
  {
    WalkNode(input, o, Some(parent), start, visits, seen + {start});
    DecodeNode(input, o, Some(parent), start, visits, seen + {start});
    var w := Load.VisitFrom(input, start, Some(parent), visits, seen + {start});
    Load.RangeStep(input, start, end, parent, visits, seen, w);
  }

  /** The objects created for the bound siblings `rest` after a first bound
      child at `start` whose subtree ends before `after`. */
  lemma {:induction false} DecodeSiblings(
      input: Load.Input, rest: seq<Save.Obj>, parent: nat, start: nat, after: nat,
      visits: seq<Load.Visit>, seen: set<int>)
    requires Load.Forward(input.entries)
    requires parent < start < after && parent < |input.entries|
    requires ContiguousList(rest) && LinkedChildren(input.entries, rest, after)
    requires DecodedChildren(input, rest, parent, after)
    requires Save.BoundChildren(rest) != [] ==> after == start + 1
    ensures Load.VisitRange(input, start + 1, start + 1 + |Save.BoundChildren(rest)|, parent, visits, seen).visits
         == visits + ExpectedChildren(rest, parent, after, input.usePivot, input.resolve)
    decreases rest, 2
  {
    if Save.BoundChildren(rest) == [] {
      ExpectedChildrenNone(rest, parent, after, input.usePivot, input.resolve);
      Load.RangeEnd(input, start + 1, start + 1, parent, visits, seen);
    } else {
      DecodeChildren(input, rest, parent, after, visits, seen);
    }
  }

  // ---- the root loop ----

  /** Records already seen are skipped by the root loop. */
  lemma {:induction false} RootsSkip(input: Load.Input, a: nat, b: nat, visits: seq<Load.Visit>, seen: set<int>)
    requires Load.Forward(input.entries)
    requires a <= b <= |input.entries|
    requires forall k :: a <= k < b ==> k in seen
    ensures Load.RootsFrom(input, a, visits, seen) == Load.RootsFrom(input, b, visits, seen)
    decreases b - a
  {
    if a < b {
      RootsSkip(input, a + 1, b, visits, seen);
    }
  }

  /** The root subtrees, laid out one after the other from `i`, fill the rest
      of the list, are linked and decode record by record. */
  predicate LaidRoots(input: Load.Input, objects: seq<Save.Obj>, i: nat)
    decreases objects
  {
    i <= |input.entries| &&
    if objects == [] then i == |input.entries|
    else if Save.IsBound(objects[0]) && !objects[0].hasParent then
      LinkedNode(input.entries, objects[0], i) && DecodedNode(input, objects[0], None, i)
      && LaidRoots(input, objects[1..], i + Save.Size(objects[0]))
    else LaidRoots(input, objects[1..], i)
  }

  lemma {:induction false} LaidOutRoots(input: Load.Input, objects: seq<Save.Obj>, i: nat)
    requires At(input.entries, i, Save.FlattenRoots(objects, i))
    requires i + |Save.FlattenRoots(objects, i)| == |input.entries|
    requires forall o :: o in objects && Save.IsBound(o) && !o.hasParent ==> FlagsPlain(o)
    ensures LaidRoots(input, objects, i)
    decreases objects
  {
    if objects != [] {
      var o := objects[0];
      if Save.IsBound(o) && !o.hasParent {
        var h := Save.FlattenNode(o, None, i);
        Save.FlattenRootsCons(objects, i);
        AtSplit(input.entries, i, h, Save.FlattenRoots(objects[1..], i + |h|));
        Save.FlattenNodeLength(o, None, i);
        LaidOutNode(input, o, None, None, i);
        LaidOutRoots(input, objects[1..], i + Save.Size(o));
      } else {
        LaidOutRoots(input, objects[1..], i);
      }
    }
  }

  /** The root loop from `i` creates the objects of the remaining root
      subtrees and raises nothing. */
  lemma {:induction false} DecodeRoots(
      input: Load.Input, objects: seq<Save.Obj>, i: nat, visits: seq<Load.Visit>, seen: set<int>)
    requires Load.Forward(input.entries)
    requires LaidRoots(input, objects, i)
    requires forall k :: k in seen ==> k < i
    requires forall o :: o in objects && Save.IsBound(o) && !o.hasParent ==> Contiguous(o)
    ensures i <= |input.entries|
    ensures Load.RootsFrom(input, i, visits, seen).visits
         == visits + ExpectedRoots(objects, i, input.usePivot, input.resolve)
    ensures Load.RootsFrom(input, i, visits, seen).failure == None
    decreases objects, 1
  {
    if objects == [] {
    } else if !(Save.IsBound(objects[0]) && !objects[0].hasParent) {
      DecodeRoots(input, objects[1..], i, visits, seen);
    } else {
      var o := objects[0];
      WalkNode(input, o, None, i, visits, seen);
      DecodeNode(input, o, None, i, visits, seen);
      var w := Load.VisitFrom(input, i, None, visits, seen);
      Load.RootsStep(input, i, visits, seen, w);
      DecodeLaterRoots(input, objects, i, visits, seen, w.visits, w.seen);
    }
  }

  /** The roots after a bound root, decoded from the state its subtree left
      behind: the subtree's records are skipped, the rest decode in turn. */
  lemma {:induction false} DecodeLaterRoots(
      input: Load.Input, objects: seq<Save.Obj>, i: nat, visits: seq<Load.Visit>, seen: set<int>,
      visits': seq<Load.Visit>, seen': set<int>)
    requires Load.Forward(input.entries)
    requires objects != [] && Save.IsBound(objects[0]) && !objects[0].hasParent
    requires LaidRoots(input, objects, i)
    requires forall k :: k in seen ==> k < i
    requires forall o :: o in objects && Save.IsBound(o) && !o.hasParent ==> Contiguous(o)
    requires visits' == visits + ExpectedNode(objects[0], None, i, input.usePivot, input.resolve)
    requires seen' == seen + Span(i + 1, i + Save.Size(objects[0]))
    ensures i < |input.entries|
    ensures Load.RootsFrom(input, i + 1, visits', seen').visits
         == visits + ExpectedRoots(objects, i, input.usePivot, input.resolve)
    ensures Load.RootsFrom(input, i + 1, visits', seen').failure == None
    decreases objects, 0
  {
    var o := objects[0];
    var next := i + Save.Size(o);
    assert i < |input.entries| by {
      assert LinkedNode(input.entries, o, i);
    }
    RootsSkip(input, i + 1, next, visits', seen');
    DecodeRoots(input, objects[1..], next, visits', seen');
    AppendAssoc(visits, ExpectedNode(o, None, i, input.usePivot, input.resolve),
                ExpectedRoots(objects[1..], next, input.usePivot, input.resolve));
  }

  // ---- save, then load ----

  /** Loading a saved car restores every scene setting; the spoiler type comes
      back whether or not a `Spoiler` section was written, the paint comes back
      as the name of its 32-bit value. */
  lemma SettingsRoundTrip(scene: Save.Scene, prior: Settings<string>, resolve: int -> string)
    requires ValidSettings(scene.settings)
    ensures Load.HeaderFailure(Save.SaveSpec(scene)) == None
    ensures var st := scene.settings;
      Load.LoadHeader(prior, Save.SaveSpec(scene), resolve)
      == Settings(st.carTypeName, st.baseModelName, st.manufacturerName, st.usageType,
                  resolve(Mask32(st.defaultBasePaint)), st.skinnable, st.defaultSkinNumber,
                  st.spoilerType)
  {
    Load.HeaderSettings(prior, Save.SaveSpec(scene), resolve);
  }

  /** Saving then loading a scene whose bound trees are contiguous recreates
      every bound object reached from a root, in pre-order, each under the
      object of its parent, with its flags, shape, pivot, rotation and scale;
      only roots lose their position when `use_pivot` is off. A scene without a
      root bound object fails to load, for want of a `BoundsPack`. */
  lemma SaveLoadRoundTrip(scene: Save.Scene, prior: Settings<string>, usePivot: bool, resolve: int -> string)
    requires ValidSettings(scene.settings)
    requires forall o :: o in scene.objects && Save.IsBound(o) && !o.hasParent ==> Contiguous(o) && Save.FlagsValid(o)
    ensures Load.Forward(Save.FlattenRoots(scene.objects, 0))
    ensures var car := Save.SaveSpec(scene);
      var loaded := Load.LoadSpec(prior, car, usePivot, resolve);
      && loaded.settings == Load.LoadSettings(car, resolve)
      && loaded.visits == ExpectedRoots(scene.objects, 0, usePivot, resolve)
      && (loaded.failure == None <==> car.boundsPack.Some?)
      && (loaded.failure.Some? ==> loaded.failure == Some(Load.MissingBoundsPack))
  {
    var entries := Save.FlattenRoots(scene.objects, 0);
    SettingsRoundTrip(scene, prior, resolve);
    SavedForward(scene);
    var input := Load.Input(entries, 0, usePivot, resolve);
    forall o | o in scene.objects && Save.IsBound(o) && !o.hasParent ensures FlagsPlain(o) {
      FlagsValidPlain(o);
    }
    assert At(entries, 0, entries) by {
      assert entries[0..|entries|] == entries;
    }
    LaidOutRoots(input, scene.objects, 0);
    DecodeRoots(input, scene.objects, 0, [], {});
    if entries == [] {
      ExpectedRootsEmpty(scene.objects, 0, usePivot, resolve);
    }
  }

  /** The encoder's child ranges all point forward. */
  lemma SavedForward(scene: Save.Scene)
    ensures Load.Forward(Save.FlattenRoots(scene.objects, 0))
  {
    var entries := Save.FlattenRoots(scene.objects, 0);
    Save.FlattenRootsShaped(scene.objects, 0);
    forall j | 0 <= j < |entries| ensures entries[j].childIndex == -1 || entries[j].childIndex > j {
      assert Save.RecordShape(entries[j], j);
    }
  }

  /** The encoder writes no point cloud, so every object a saved car loads
      into has none, and the object panel shows its error for exactly those
      that carry MeshVsGround. */
  lemma SavedCarMissingPointCloud(scene: Save.Scene, prior: Settings<string>, usePivot: bool, resolve: int -> string)
    ensures Load.Forward(Save.FlattenRoots(scene.objects, 0))
    ensures var loaded := Load.LoadSpec(prior, Save.SaveSpec(scene), usePivot, resolve);
      forall k :: 0 <= k < |loaded.visits| ==>
        && loaded.visits[k].pointCloud.None?
        && (Data.MissingPointCloud(loaded.visits[k].flags, loaded.visits[k].pointCloud.Some?)
            <==> Data.MeshVsGroundFlag in loaded.visits[k].flags)
  {
    SavedForward(scene);
    Load.LoadWithoutPointClouds(prior, Save.SaveSpec(scene), usePivot, resolve);
  }

  /** The object owed for `o` shows the MeshVsGround error iff `o` carries
      MeshVsGround. */
  lemma ExpectedMissingPointCloud(o: Save.Obj, parent: Option<nat>, index: nat, usePivot: bool, resolve: int -> string)
    ensures var v := Expected(o, parent, index, usePivot, resolve);
      v.pointCloud.None? && (Data.MissingPointCloud(v.flags, v.pointCloud.Some?) <==> Data.MeshVsGroundFlag in o.flags)
  {
    ElementsIn(o.flags);
  }

  lemma {:induction false} ExpectedRootsEmpty(objects: seq<Save.Obj>, index: nat, usePivot: bool, resolve: int -> string)
    requires Save.FlattenRoots(objects, index) == []
    ensures ExpectedRoots(objects, index, usePivot, resolve) == []
  {
    if objects != [] {
      if Save.IsBound(objects[0]) && !objects[0].hasParent {
        Save.FlattenRootsCons(objects, index);
        Save.FlattenNodeLength(objects[0], None, index);
      } else {
        ExpectedRootsEmpty(objects[1..], index, usePivot, resolve);
      }
    }
  }

  // ---- a tree outside the round trip ----

  /** The child ranges the encoder writes for a root `a` whose bound children
      are `b`, which has the bound child `d`, and the leaf `c`: the records are
      a, b, d, c, and the range of `a` is [1, 3), which holds b and d. */
  lemma MisreadLayout(a: Save.Obj, b: Save.Obj, c: Save.Obj, d: Save.Obj)
    requires Save.IsBound(a) && !a.hasParent && Save.IsBound(b) && Save.IsBound(c) && Save.IsBound(d)
    requires a.children == [b, c] && b.children == [d] && c.children == [] && d.children == []
    ensures MisreadShape(Save.FlattenRoots([a], 0))
  {
    MisreadFlatten(a, b, c, d);
    assert [b, c][1..] == [c] && [d][1..] == [] && [c][1..] == [];
    assert Save.BoundChildren(a.children) == [b, c];
    assert Save.BoundChildren(b.children) == [d];
    assert Save.BoundChildren(c.children) == [] && Save.BoundChildren(d.children) == [];
  }

  /** The encoder's list for that tree: a, b, d, c. */
  lemma {:induction false} MisreadFlatten(a: Save.Obj, b: Save.Obj, c: Save.Obj, d: Save.Obj)
    requires Save.IsBound(a) && !a.hasParent && Save.IsBound(b) && Save.IsBound(c) && Save.IsBound(d)
    requires a.children == [b, c] && b.children == [d] && c.children == [] && d.children == []
    ensures Save.FlattenRoots([a], 0)
         == [Save.MakeRecord(a, None, 0), Save.MakeRecord(b, Some(a.pos), 1),
             Save.MakeRecord(d, Some(b.pos), 2), Save.MakeRecord(c, Some(a.pos), 3)]
  {
    assert [b, c][1..] == [c] && [d][1..] == [] && [c][1..] == [];
    var r0 := Save.MakeRecord(a, None, 0);
    var r1 := Save.MakeRecord(b, Some(a.pos), 1);
    var r2 := Save.MakeRecord(d, Some(b.pos), 2);
    var r3 := Save.MakeRecord(c, Some(a.pos), 3);
    assert Save.FlattenChildren([], d.pos, 3) == [];
    assert Save.FlattenNode(d, Some(b.pos), 2) == [r2];
    assert Save.FlattenChildren([d], b.pos, 2) == [r2];
    assert Save.FlattenNode(b, Some(a.pos), 1) == [r1, r2];
    assert Save.FlattenNode(c, Some(a.pos), 3) == [r3];
    assert Save.FlattenChildren([c], a.pos, 3) == [r3];
    assert Save.FlattenChildren([b, c], a.pos, 1) == [r1, r2, r3];
    assert Save.FlattenNode(a, None, 0) == [r0, r1, r2, r3];
    assert Save.FlattenRoots([a], 0) == Save.FlattenNode(a, None, 0) + Save.FlattenRoots([], 4);
  }

  /** Four records linked as root, child with one child, grandchild, leaf,
      none naming a point cloud. */
  predicate MisreadShape(entries: seq<Record>)
  {
    |entries| == 4
    && entries[0].childIndex == 1 && entries[0].numChildren == 2
    && entries[1].childIndex == 2 && entries[1].numChildren == 1
    && entries[2].childIndex == -1 && entries[3].childIndex == -1
    && forall k :: 0 <= k < 4 ==> entries[k].pCloudIndex == NoPointCloud
  }

  /** The decoder on that list: record 2 is created under 1 and again under 0,
      and record 3, which no range names, becomes a root. */
  lemma MisreadWalk(input: Load.Input)
    requires MisreadShape(input.entries)
    ensures Load.Forward(input.entries)
    ensures var w := Load.RootsFrom(input, 0, [], {});
      w.failure == None
      && w.visits == [Load.DecodeOne(input, 0, None), Load.DecodeOne(input, 1, Some(0)),
                      Load.DecodeOne(input, 2, Some(1)), Load.DecodeOne(input, 2, Some(0)),
                      Load.DecodeOne(input, 3, None)]
  {
    var v0 := Load.DecodeOne(input, 0, None);
    var v1 := Load.DecodeOne(input, 1, Some(0));
    var v2 := Load.DecodeOne(input, 2, Some(1));
    var v2' := Load.DecodeOne(input, 2, Some(0));
    var v3 := Load.DecodeOne(input, 3, None);
    MisreadFirstRoot(input);
    // the root loop skips 1 and 2 and starts a walk at 3
    Load.RootsStep(input, 0, [], {}, Load.Walk([v0, v1, v2, v2'], {1, 2}, None));
    Load.VisitLeaf(input, 3, None, [v0, v1, v2, v2'], {1, 2});
    assert [v0, v1, v2, v2'] + [v3] == [v0, v1, v2, v2', v3];
    Load.RootsStep(input, 3, [v0, v1, v2, v2'], {1, 2}, Load.Walk([v0, v1, v2, v2', v3], {1, 2}, None));
  }

  /** The walk from record 0: its range holds record 1, then record 2 again. */
  lemma MisreadFirstRoot(input: Load.Input)
    requires MisreadShape(input.entries)
    ensures Load.Forward(input.entries)
    ensures Load.VisitFrom(input, 0, None, [], {})
         == Load.Walk([Load.DecodeOne(input, 0, None), Load.DecodeOne(input, 1, Some(0)),
                       Load.DecodeOne(input, 2, Some(1)), Load.DecodeOne(input, 2, Some(0))], {1, 2}, None)
  {
    var v0 := Load.DecodeOne(input, 0, None);
    var v1 := Load.DecodeOne(input, 1, Some(0));
    var v2 := Load.DecodeOne(input, 2, Some(1));
    var v2' := Load.DecodeOne(input, 2, Some(0));
    MisreadInner(input, v0);
    assert {} + {1} == {1};
    Load.RangeStep(input, 1, 3, 0, [v0], {}, Load.Walk([v0, v1, v2], {1, 2}, None));
    Load.VisitLeaf(input, 2, Some(0), [v0, v1, v2], {1, 2});
    assert [v0, v1, v2] + [v2'] == [v0, v1, v2, v2'] && {1, 2} + {2} == {1, 2};
    Load.RangeStep(input, 2, 3, 0, [v0, v1, v2], {1, 2}, Load.Walk([v0, v1, v2, v2'], {1, 2}, None));
    Load.RangeEnd(input, 3, 3, 0, [v0, v1, v2, v2'], {1, 2});
    Load.VisitInner(input, 0, None, [], {}, 1, 2);
    assert [] + [v0] == [v0];
  }

  /** The walk from record 1: it creates record 2 under it. */
  lemma MisreadInner(input: Load.Input, v0: Load.Visit)
    requires MisreadShape(input.entries) && Load.Forward(input.entries)
    ensures Load.VisitFrom(input, 1, Some(0), [v0], {1})
         == Load.Walk([v0, Load.DecodeOne(input, 1, Some(0)), Load.DecodeOne(input, 2, Some(1))], {1, 2}, None)
  {
    var v1 := Load.DecodeOne(input, 1, Some(0));
    var v2 := Load.DecodeOne(input, 2, Some(1));
    Load.VisitLeaf(input, 2, Some(1), [v0, v1], {1, 2});
    Load.RangeStep(input, 2, 3, 1, [v0, v1], {1}, Load.Walk([v0, v1, v2], {1, 2}, None));
    Load.RangeEnd(input, 3, 3, 1, [v0, v1, v2], {1, 2});
    Load.VisitInner(input, 1, Some(0), [v0], {1}, 2, 1);
    assert [v0] + [v1] == [v0, v1];
  }

  /** The four objects the round trip would owe for that tree. */
  lemma MisreadExpected(a: Save.Obj, b: Save.Obj, c: Save.Obj, d: Save.Obj, usePivot: bool, resolve: int -> string)
    requires Save.IsBound(a) && !a.hasParent && Save.IsBound(b) && Save.IsBound(c) && Save.IsBound(d)
    requires a.children == [b, c] && b.children == [d] && c.children == [] && d.children == []
    ensures |ExpectedRoots([a], 0, usePivot, resolve)| == 4
  {
    assert [b, c][1..] == [c] && [d][1..] == [] && [c][1..] == [];
    assert Save.Size(d) == 1 && Save.Size(c) == 1 && Save.Size(b) == 2 by {
      assert Save.SizeChildren([]) == 0;
      assert Save.SizeChildren([d]) == 1;
    }
    assert |ExpectedChildren([], 2, 3, usePivot, resolve)| == 0;
    assert |ExpectedChildren([d], 1, 2, usePivot, resolve)| == 1;
    assert |ExpectedNode(b, Some(0), 1, usePivot, resolve)| == 2;
    assert |ExpectedNode(c, Some(0), 3, usePivot, resolve)| == 1;
    assert |ExpectedChildren([c], 0, 3, usePivot, resolve)| == 1;
    assert |ExpectedChildren([b, c], 0, 1, usePivot, resolve)| == 3;
  }

  /** Without contiguity the decoder rebuilds a different tree: for the root
      `a` with bound children [b, c] where `b` has the bound child `d`, the
      range of `a` names the records of `b` and `d`, so `d` is created twice,
      once under `b` and once under `a`, and `c`, never named by a range, is
      created as a second root. Five objects come back for four. */
  lemma NonContiguousMisread(scene: Save.Scene, prior: Settings<string>, a: Save.Obj, b: Save.Obj, c: Save.Obj, d: Save.Obj,
                             usePivot: bool, resolve: int -> string)
    requires ValidSettings(scene.settings)
    requires scene.objects == [a]
    requires Save.IsBound(a) && !a.hasParent && Save.IsBound(b) && Save.IsBound(c) && Save.IsBound(d)
    requires a.children == [b, c] && b.children == [d] && c.children == [] && d.children == []
    ensures !Contiguous(a)
    ensures Load.Forward(Save.FlattenRoots(scene.objects, 0))
    ensures var loaded := Load.LoadSpec(prior, Save.SaveSpec(scene), usePivot, resolve);
      && loaded.failure == None
      && |loaded.visits| == 5 == |ExpectedRoots(scene.objects, 0, usePivot, resolve)| + 1
      && (loaded.visits[0].index, loaded.visits[0].parent) == (0, None)
      && (loaded.visits[1].index, loaded.visits[1].parent) == (1, Some(0))
      && (loaded.visits[2].index, loaded.visits[2].parent) == (2, Some(1))
      && (loaded.visits[3].index, loaded.visits[3].parent) == (2, Some(0))
      && (loaded.visits[4].index, loaded.visits[4].parent) == (3, None)
  {
    assert [b, c][1..] == [c] && Save.BoundChildren(b.children) == [d];
    SettingsRoundTrip(scene, prior, resolve);
    MisreadLayout(a, b, c, d);
    MisreadWalk(Load.Input(Save.FlattenRoots(scene.objects, 0), 0, usePivot, resolve));
    MisreadExpected(a, b, c, d, usePivot, resolve);
  }
}
