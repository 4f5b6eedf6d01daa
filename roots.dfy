// Which records the decoder of io_aaron/load.py turns into roots. For any list
// whose child ranges point forward, a load that raises nothing makes a root of
// exactly every record that no child range names: a named record is marked in
// `seen_bounds` before the root loop reaches it, and only named records are
// ever marked.
module Roots {
  import opened Util
  import opened Format
  import opened Load

  /** The child range of record `p` names index `j`. */
  predicate Names(entries: seq<Record>, p: int, j: int)
  {
    0 <= p < |entries| && entries[p].childIndex != -1 && entries[p].numChildren > 0
    && entries[p].childIndex <= j < entries[p].childIndex + entries[p].numChildren
  }

  /** Some child range names `j`. */
  ghost predicate Claimed(entries: seq<Record>, j: int)
  {
    exists p :: Names(entries, p, j)
  }

  /** The objects created hold a root for record `j`. */
  ghost predicate IsRoot(visits: seq<Visit>, j: int)
  {
    exists m :: 0 <= m < |visits| && visits[m].index == j && visits[m].parent.None?
  }

  /** With forward ranges a record names only later records. */
  lemma NamedLater(entries: seq<Record>)
    requires Forward(entries)
    ensures forall p, j :: Names(entries, p, j) ==> p < j
  {
    forall p, j | Names(entries, p, j) ensures p < j {
      assert entries[p].childIndex > p;
    }
  }

  // ---- a walk marks only named records ----

  lemma {:induction false} GrowFrom(input: Input, index: nat, parent: Option<nat>, visits: seq<Visit>, seen: set<int>)
    requires Forward(input.entries)
    requires index < |input.entries| && (parent.Some? ==> parent.value < |input.entries|)
    ensures seen <= VisitFrom(input, index, parent, visits, seen).seen
    ensures forall j :: j in VisitFrom(input, index, parent, visits, seen).seen && j !in seen ==> Claimed(input.entries, j)
    decreases |input.entries| - index, 1
  {
    var b := input.entries[index];
    if PointCloudFits(input, index, parent) && b.childIndex != -1 && b.numChildren > 0 {
      var now := visits + [DecodeOne(input, index, parent)];
      VisitInner(input, index, parent, visits, seen, b.childIndex, b.numChildren);
      GrowRange(input, b.childIndex, b.childIndex + b.numChildren, index, now, seen);
    }
  }

  lemma {:induction false} GrowRange(input: Input, j: int, end: int, parent: nat, visits: seq<Visit>, seen: set<int>)
    requires Forward(input.entries)
    requires parent < |input.entries| && parent < j
    requires forall k :: j <= k < end ==> Names(input.entries, parent, k)
    ensures seen <= VisitRange(input, j, end, parent, visits, seen).seen
    ensures forall k :: k in VisitRange(input, j, end, parent, visits, seen).seen && k !in seen ==> Claimed(input.entries, k)
    decreases if j <= |input.entries| then |input.entries| - j + 1 else 0, 0
  {
    if j < end {
      assert Names(input.entries, parent, j);
      if j < |input.entries| {
        GrowFrom(input, j, Some(parent), visits, seen + {j});
        var w := VisitFrom(input, j, Some(parent), visits, seen + {j});
        if w.failure.None? {
          GrowRange(input, j + 1, end, parent, w.visits, w.seen);
        }
      }
    }
  }

  // ---- a walk that raises nothing marks every range it runs ----

  lemma {:induction false} CloseFrom(input: Input, index: nat, parent: Option<nat>, visits: seq<Visit>, seen: set<int>)
    requires Forward(input.entries)
    requires index < |input.entries| && (parent.Some? ==> parent.value < |input.entries|)
    ensures var w := VisitFrom(input, index, parent, visits, seen);
      w.failure.None? ==>
        && seen <= w.seen
        && (forall j :: Names(input.entries, index, j) ==> j in w.seen)
        && (forall s, j :: s in w.seen && s !in seen && Names(input.entries, s, j) ==> j in w.seen)
    decreases |input.entries| - index, 1
  {
    var b := input.entries[index];
    if PointCloudFits(input, index, parent) && b.childIndex != -1 && b.numChildren > 0 {
      var now := visits + [DecodeOne(input, index, parent)];
      VisitInner(input, index, parent, visits, seen, b.childIndex, b.numChildren);
      CloseRange(input, b.childIndex, b.childIndex + b.numChildren, index, now, seen);
    }
  }

  lemma {:induction false} CloseRange(input: Input, j: int, end: int, parent: nat, visits: seq<Visit>, seen: set<int>)
    requires Forward(input.entries)
    requires parent < |input.entries| && parent < j
    ensures var w := VisitRange(input, j, end, parent, visits, seen);
      w.failure.None? ==>
        && seen <= w.seen
        && (forall k :: j <= k < end ==> k in w.seen)
        && (forall s, k :: s in w.seen && s !in seen && Names(input.entries, s, k) ==> k in w.seen)
    decreases if j <= |input.entries| then |input.entries| - j + 1 else 0, 0
  {
    if j < end && j < |input.entries| {
      CloseFrom(input, j, Some(parent), visits, seen + {j});
      var w := VisitFrom(input, j, Some(parent), visits, seen + {j});
      if w.failure.None? {
        CloseRange(input, j + 1, end, parent, w.visits, w.seen);
        var r := VisitRange(input, j + 1, end, parent, w.visits, w.seen);
        Load.RangeStep(input, j, end, parent, visits, seen, w);
        if r.failure.None? {
          CloseJoin(input.entries, j, end, seen, w.seen, r.seen);
        }
      }
    }
  }

  /** The seen sets of one turn of a child loop and of the turns after it. */
  lemma CloseJoin(entries: seq<Record>, j: int, end: int, seen: set<int>, seen': set<int>, seen'': set<int>)
    requires seen + {j} <= seen' <= seen''
    requires forall k :: Names(entries, j, k) ==> k in seen'
    requires forall s, k :: s in seen' && s !in seen + {j} && Names(entries, s, k) ==> k in seen'
    requires forall k :: j + 1 <= k < end ==> k in seen''
    requires forall s, k :: s in seen'' && s !in seen' && Names(entries, s, k) ==> k in seen''
    ensures seen <= seen''
    ensures forall k :: j <= k < end ==> k in seen''
    ensures forall s, k :: s in seen'' && s !in seen && Names(entries, s, k) ==> k in seen''
  {
  }

  // ---- a walk keeps the objects before it and adds a root only at its start ----

  lemma {:induction false} ShapeFrom(input: Input, index: nat, parent: Option<nat>, visits: seq<Visit>, seen: set<int>)
    requires Forward(input.entries)
    requires index < |input.entries| && (parent.Some? ==> parent.value < |input.entries|)
    ensures var w := VisitFrom(input, index, parent, visits, seen);
      && |visits| < |w.visits|
      && (forall m :: 0 <= m < |visits| ==> w.visits[m] == visits[m])
      && w.visits[|visits|] == DecodeOne(input, index, parent)
      && (forall m :: |visits| < m < |w.visits| ==> w.visits[m].parent.Some?)
    decreases |input.entries| - index, 1
  {
    var b := input.entries[index];
    var now := visits + [DecodeOne(input, index, parent)];
    if PointCloudFits(input, index, parent) && b.childIndex != -1 && b.numChildren > 0 {
      VisitInner(input, index, parent, visits, seen, b.childIndex, b.numChildren);
      ShapeRange(input, b.childIndex, b.childIndex + b.numChildren, index, now, seen);
    }
  }

  lemma {:induction false} ShapeRange(input: Input, j: int, end: int, parent: nat, visits: seq<Visit>, seen: set<int>)
    requires Forward(input.entries)
    requires parent < |input.entries| && parent < j
    ensures var w := VisitRange(input, j, end, parent, visits, seen);
      && |visits| <= |w.visits|
      && (forall m :: 0 <= m < |visits| ==> w.visits[m] == visits[m])
      && (forall m :: |visits| <= m < |w.visits| ==> w.visits[m].parent.Some?)
    decreases if j <= |input.entries| then |input.entries| - j + 1 else 0, 0
  {
    if j < end && j < |input.entries| {
      ShapeFrom(input, j, Some(parent), visits, seen + {j});
      var w := VisitFrom(input, j, Some(parent), visits, seen + {j});
      if w.failure.None? {
        ShapeRange(input, j + 1, end, parent, w.visits, w.seen);
      }
    }
  }

  // ---- the root loop ----

  /** The root loop's state on reaching index `i`: only named records are
      seen, every seen record's range is seen, the ranges of all records
      before `i` are seen, and the roots so far are exactly the unnamed
      records before `i`. */
  ghost predicate RootsInvariant(input: Input, i: nat, visits: seq<Visit>, seen: set<int>)
  {
    && (forall j :: j in seen ==> Claimed(input.entries, j))
    && (forall s, j :: s in seen && Names(input.entries, s, j) ==> j in seen)
    && (forall p, j :: 0 <= p < i && Names(input.entries, p, j) ==> j in seen)
    && (forall m :: 0 <= m < |visits| && visits[m].parent.None? ==>
          visits[m].index < i && !Claimed(input.entries, visits[m].index))
    && (forall j :: 0 <= j < i && !Claimed(input.entries, j) ==> IsRoot(visits, j))
  }

  /** A record already seen is skipped and keeps the invariant. */
  lemma SkipKeepsInvariant(input: Input, i: nat, visits: seq<Visit>, seen: set<int>)
    requires RootsInvariant(input, i, visits, seen) && i in seen
    ensures RootsInvariant(input, i + 1, visits, seen)
  {
  }

  /** A walk from an unseen record that raises nothing keeps the invariant. */
  lemma RootKeepsInvariant(input: Input, i: nat, visits: seq<Visit>, seen: set<int>, w: Walk)
    requires Forward(input.entries) && i < |input.entries|
    requires RootsInvariant(input, i, visits, seen) && i !in seen
    requires w == VisitFrom(input, i, None, visits, seen) && w.failure.None?
    ensures RootsInvariant(input, i + 1, w.visits, w.seen)
  {
    GrowFrom(input, i, None, visits, seen);
    CloseFrom(input, i, None, visits, seen);
    ShapeFrom(input, i, None, visits, seen);
    NamedLater(input.entries);
    assert !Claimed(input.entries, i);
    RootsAfterWalk(input, i, visits, w.visits);
  }

  lemma RootsAfterWalk(input: Input, i: nat, visits: seq<Visit>, visits': seq<Visit>)
    requires i < |input.entries|
    requires !Claimed(input.entries, i)
    requires forall m :: 0 <= m < |visits| && visits[m].parent.None? ==>
               visits[m].index < i && !Claimed(input.entries, visits[m].index)
    requires forall j :: 0 <= j < i && !Claimed(input.entries, j) ==> IsRoot(visits, j)
    requires |visits| < |visits'|
    requires forall m :: 0 <= m < |visits| ==> visits'[m] == visits[m]
    requires visits'[|visits|] == DecodeOne(input, i, None)
    requires forall m :: |visits| < m < |visits'| ==> visits'[m].parent.Some?
    ensures forall m :: 0 <= m < |visits'| && visits'[m].parent.None? ==>
              visits'[m].index < i + 1 && !Claimed(input.entries, visits'[m].index)
    ensures forall j :: 0 <= j < i + 1 && !Claimed(input.entries, j) ==> IsRoot(visits', j)
  {
    forall j | 0 <= j < i + 1 && !Claimed(input.entries, j) ensures IsRoot(visits', j) {
      if j < i {
        var m :| 0 <= m < |visits| && visits[m].index == j && visits[m].parent.None?;
        assert visits'[m] == visits[m];
      } else {
        assert visits'[|visits|].index == j;
      }
    }
  }

  lemma {:induction false} RootsFromExactly(input: Input, i: nat, visits: seq<Visit>, seen: set<int>)
    requires Forward(input.entries) && i <= |input.entries|
    requires RootsInvariant(input, i, visits, seen)
    ensures var w := RootsFrom(input, i, visits, seen);
      w.failure.None? ==>
        forall j :: 0 <= j < |input.entries| ==> (IsRoot(w.visits, j) <==> !Claimed(input.entries, j))
    decreases |input.entries| - i
  {
    if i == |input.entries| {
      forall j | 0 <= j < |input.entries| && IsRoot(visits, j) ensures !Claimed(input.entries, j) {
        var m :| 0 <= m < |visits| && visits[m].index == j && visits[m].parent.None?;
      }
    } else if i in seen {
      SkipKeepsInvariant(input, i, visits, seen);
      RootsFromExactly(input, i + 1, visits, seen);
    } else {
      var w := VisitFrom(input, i, None, visits, seen);
      if w.failure.None? {
        RootKeepsInvariant(input, i, visits, seen, w);
        Load.RootsStep(input, i, visits, seen, w);
        RootsFromExactly(input, i + 1, w.visits, w.seen);
      }
    }
  }

  /** For any list whose child ranges point forward, a load that raises
      nothing makes a root of exactly each record no child range names. */
  lemma RootsAreUnnamed(input: Input)
    requires Forward(input.entries)
    ensures var w := RootsFrom(input, 0, [], {});
      w.failure.None? ==>
        forall j :: 0 <= j < |input.entries| ==> (IsRoot(w.visits, j) <==> !Claimed(input.entries, j))
  {
    RootsFromExactly(input, 0, [], {});
  }
}
