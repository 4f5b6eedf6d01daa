// The decoder of io_aaron/load.py: `main` applies the header to the scene
// settings, then walks `BoundsPack.Entries` with `create_bound`, which visits a
// record, then the records its child range names, and marks each child in the
// shared `seen_bounds` set; the root loop starts a walk at every record not yet
// seen. Blender objects become `Visit` values listing what `create_bound` sets.
module Load {
  import opened Util
  import opened Coords
  import opened Format
  import Data

  /** What `create_bound` gives the object it creates for record `index`: its
      parent's record, stored flags and shape, pivot, world location, rotation,
      scale, the three resolved names and the point cloud attached, if any. */
  datatype Visit = Visit(
    index: nat,
    parent: Option<nat>,
    flags: set<string>,
    isBox: bool,
    pivot: HostVec,
    location: HostVec,
    rotation: HostQuat,
    scale: HostVec,
    surface: string,
    boundName: string,
    attributeName: string,
    pointCloud: Option<nat>)

  /** The ways loading stops with an exception. */
  datatype Failure =
    | MissingBoundsPack              // `carData['BoundsPack']` raises KeyError
    | ChildOutOfRange(index: nat)    // `bounds[i]` raises IndexError
    | PointCloudOutOfRange(index: nat) // `pointclouds[id]` raises IndexError
    | RootPointCloud(index: nat)     // `blender_vec(None)` for a root's point cloud
    | UnknownUsageType               // the host refuses `UsageType` outside its table
    | UnknownSpoilerType             // the host refuses `SpoilerType` outside its table

  /** The state a walk leaves behind: the objects created so far, the
      `seen_bounds` set and the exception that stopped it, if any. */
  datatype Walk = Walk(visits: seq<Visit>, seen: set<int>, failure: Option<Failure>)

  /** The entry list, the number of point clouds, the scene's `use_pivot` and the
      host's `resolve_hash`. */
  datatype Input = Input(entries: seq<Record>, pointClouds: nat, usePivot: bool, resolve: int -> string)

  /** The scene after loading: the settings written from the header, and the walk. */
  datatype Loaded = Loaded(settings: Settings<string>, visits: seq<Visit>, failure: Option<Failure>)

  /** Every child range is absent, empty or points forward: the decoder's
      recursion then ends. */
  predicate Forward(entries: seq<Record>)
  {
    forall i :: 0 <= i < |entries| ==>
      entries[i].childIndex == -1 || entries[i].numChildren <= 0 || entries[i].childIndex > i
  }

  /** `pointclouds[id]` with Python's indexing: a negative id counts from the end. */
  function PointCloudSlot(id: int, count: nat): (r: Option<nat>)
    ensures r.Some? <==> -(count as int) <= id < count
    ensures r.Some? ==> r.value < count && (r.value == id || r.value == id + count)
  {
    if 0 <= id < count then Some(id)
    else if -(count as int) <= id < 0 then Some(id + count)
    else None
  }

  /** Where the object for a record is placed: its own pivot when `use_pivot` is
      set, else the parent's pivot plus its offset, else its offset alone. */
  function Location(usePivot: bool, b: Record, parentPivot: Option<EngineVec>): HostVec
  {
    if usePivot then BlenderVec(b.pivot)
    else if parentPivot.Some? then Add(BlenderVec(parentPivot.value), BlenderVec(b.position))
    else BlenderVec(b.position)
  }

  /** The object `create_bound(index, bound, parent_pivot, parent_obj)` creates.
      A root never gets its point cloud: `create_point_cloud` raises for it
      before `point_cloud` is assigned. */
  function DecodeOne(input: Input, index: nat, parent: Option<nat>): Visit
    requires index < |input.entries|
    requires parent.Some? ==> parent.value < |input.entries|
  {
    var b := input.entries[index];
    var parsed := ParseFlags(b.flags);
    var parentPivot := if parent.Some? then Some(input.entries[parent.value].pivot) else None;
    Visit(
      index, parent, parsed.0, parsed.1,
      BlenderVec(b.pivot),
      Location(input.usePivot, b, parentPivot),
      BlenderQuat(b.orientation),
      BlenderVec(b.halfDimensions),
      input.resolve(b.surface), input.resolve(b.nameHash), input.resolve(b.attributeName),
      if b.pCloudIndex != NoPointCloud && parent.Some? then PointCloudSlot(b.pCloudIndex, input.pointClouds) else None)
  }

  /** `create_bound(index, ...)` run after `visits` and `seen`: the object, its
      point cloud, then the children named by its child range. */
  function VisitFrom(input: Input, index: nat, parent: Option<nat>, visits: seq<Visit>, seen: set<int>): Walk
    requires Forward(input.entries)
    requires index < |input.entries|
    requires parent.Some? ==> parent.value < |input.entries|
    decreases |input.entries| - index, 1
  {
    var b := input.entries[index];
    var now := visits + [DecodeOne(input, index, parent)];
    if b.pCloudIndex != NoPointCloud && PointCloudSlot(b.pCloudIndex, input.pointClouds).None? then
      Walk(now, seen, Some(PointCloudOutOfRange(index)))
    else if b.pCloudIndex != NoPointCloud && parent.None? then
      Walk(now, seen, Some(RootPointCloud(index)))
    else if b.childIndex == -1 || b.numChildren <= 0 then
      Walk(now, seen, None)
    else
      VisitRange(input, b.childIndex, b.childIndex + b.numChildren, index, now, seen)
  }

  /** The loop `for i in range(j, end)` of the record at `parent`: mark i seen,
      then build its subtree; the first exception ends the loop. */
  function VisitRange(input: Input, j: int, end: int, parent: nat, visits: seq<Visit>, seen: set<int>): Walk
    requires Forward(input.entries)
    requires parent < |input.entries| && parent < j
    decreases if j <= |input.entries| then |input.entries| - j + 1 else 0, 0
  {
    if j >= end then Walk(visits, seen, None)
    else if j >= |input.entries| then Walk(visits, seen + {j}, Some(ChildOutOfRange(j)))
    else
      var w := VisitFrom(input, j, Some(parent), visits, seen + {j});
      if w.failure.Some? then w
      else VisitRange(input, j + 1, end, parent, w.visits, w.seen)
  }

  /** The point cloud of record `index` raises nothing: there is none, or it is
      in range and the record is not a root. */
  predicate PointCloudFits(input: Input, index: nat, parent: Option<nat>)
    requires index < |input.entries|
  {
    var id := input.entries[index].pCloudIndex;
    id == NoPointCloud || (PointCloudSlot(id, input.pointClouds).Some? && parent.Some?)
  }

  /** A record whose point cloud raises nothing and whose child range is absent
      or empty creates one object and raises nothing. */
  lemma VisitLeaf(input: Input, index: nat, parent: Option<nat>, visits: seq<Visit>, seen: set<int>)
    requires Forward(input.entries)
    requires index < |input.entries| && (parent.Some? ==> parent.value < |input.entries|)
    requires PointCloudFits(input, index, parent)
    requires input.entries[index].childIndex == -1 || input.entries[index].numChildren <= 0
    ensures VisitFrom(input, index, parent, visits, seen)
         == Walk(visits + [DecodeOne(input, index, parent)], seen, None)
  {
  }

  /** A record whose point cloud raises nothing and with the non-empty child
      range [start, start + count) creates its object, then runs the loop over
      that range. */
  lemma VisitInner(input: Input, index: nat, parent: Option<nat>, visits: seq<Visit>, seen: set<int>, start: int, count: int)
    requires Forward(input.entries)
    requires index < |input.entries| && (parent.Some? ==> parent.value < |input.entries|)
    requires PointCloudFits(input, index, parent)
    requires input.entries[index].childIndex == start != -1 && input.entries[index].numChildren == count > 0
    ensures index < start
    ensures VisitFrom(input, index, parent, visits, seen)
         == VisitRange(input, start, start + count, index, visits + [DecodeOne(input, index, parent)], seen)
  {
  }

  /** One turn of a child loop that raises nothing: the loop goes on from j + 1
      with the state the child's walk left. */
  lemma RangeStep(input: Input, j: int, end: int, parent: nat, visits: seq<Visit>, seen: set<int>, w: Walk)
    requires Forward(input.entries)
    requires parent < j < end && j < |input.entries|
    requires VisitFrom(input, j, Some(parent), visits, seen + {j}) == w && w.failure == None
    ensures VisitRange(input, j, end, parent, visits, seen) == VisitRange(input, j + 1, end, parent, w.visits, w.seen)
  {
  }

  /** A child loop with nothing left to visit raises nothing. */
  lemma RangeEnd(input: Input, j: int, end: int, parent: nat, visits: seq<Visit>, seen: set<int>)
    requires Forward(input.entries)
    requires parent < |input.entries| && parent < j && end <= j
    ensures VisitRange(input, j, end, parent, visits, seen) == Walk(visits, seen, None)
  {
  }

  /** A child range that runs past the end of the list stops the walk at its
      first missing index, after that index has been marked seen. */
  lemma RangePastEnd(input: Input, j: int, end: int, parent: nat, visits: seq<Visit>, seen: set<int>)
    requires Forward(input.entries)
    requires parent < |input.entries| && parent < j
    requires |input.entries| <= j < end
    ensures VisitRange(input, j, end, parent, visits, seen) == Walk(visits, seen + {j}, Some(ChildOutOfRange(j)))
  {
  }

  /** The object panel shows its MeshVsGround error for a decoded object iff
      the record's `Flags` name MeshVsGround and no point cloud is attached:
      the record names none, names one out of range, or is a root. */
  lemma DecodedMissingPointCloud(input: Input, index: nat, parent: Option<nat>)
    requires index < |input.entries|
    requires parent.Some? ==> parent.value < |input.entries|
    ensures var b := input.entries[index];
      var v := DecodeOne(input, index, parent);
      Data.MissingPointCloud(v.flags, v.pointCloud.Some?)
      <==> (Data.MeshVsGroundFlag in Split(b.flags)
            && (b.pCloudIndex == NoPointCloud || parent.None? || PointCloudSlot(b.pCloudIndex, input.pointClouds).None?))
  {
    ElementsIn(Split(input.entries[index].flags));
    assert Data.MeshVsGroundFlag[8] != Data.BoxFlag[8] && Data.MeshVsGroundFlag[8] != Data.SphereFlag[8];
  }

  predicate NoPointClouds(visits: seq<Visit>)
  {
    forall k :: 0 <= k < |visits| ==> visits[k].pointCloud.None?
  }

  /** With an empty `PointClouds` list no walk attaches a point cloud. */
  lemma {:induction false} VisitFromNoPointClouds(input: Input, index: nat, parent: Option<nat>, visits: seq<Visit>, seen: set<int>)
    requires Forward(input.entries) && input.pointClouds == 0
    requires index < |input.entries|
    requires parent.Some? ==> parent.value < |input.entries|
    requires NoPointClouds(visits)
    ensures NoPointClouds(VisitFrom(input, index, parent, visits, seen).visits)
    decreases |input.entries| - index, 1
  {
    var b := input.entries[index];
    var now := visits + [DecodeOne(input, index, parent)];
    assert NoPointClouds(now) by {
      assert now[|visits|].pointCloud.None?;
      assert forall k :: 0 <= k < |visits| ==> now[k] == visits[k];
    }
    if !(b.pCloudIndex != NoPointCloud && PointCloudSlot(b.pCloudIndex, 0).None?) && b.childIndex != -1 && b.numChildren > 0 {
      VisitRangeNoPointClouds(input, b.childIndex, b.childIndex + b.numChildren, index, now, seen);
    }
  }

  lemma {:induction false} VisitRangeNoPointClouds(input: Input, j: int, end: int, parent: nat, visits: seq<Visit>, seen: set<int>)
    requires Forward(input.entries) && input.pointClouds == 0
    requires parent < |input.entries| && parent < j
    requires NoPointClouds(visits)
    ensures NoPointClouds(VisitRange(input, j, end, parent, visits, seen).visits)
    decreases if j <= |input.entries| then |input.entries| - j + 1 else 0, 0
  {
    if j < end && j < |input.entries| {
      VisitFromNoPointClouds(input, j, Some(parent), visits, seen + {j});
      var w := VisitFrom(input, j, Some(parent), visits, seen + {j});
      if w.failure.None? {
        VisitRangeNoPointClouds(input, j + 1, end, parent, w.visits, w.seen);
      }
    }
  }

  lemma {:induction false} RootsNoPointClouds(input: Input, i: nat, visits: seq<Visit>, seen: set<int>)
    requires Forward(input.entries) && input.pointClouds == 0
    requires i <= |input.entries|
    requires NoPointClouds(visits)
    ensures NoPointClouds(RootsFrom(input, i, visits, seen).visits)
    decreases |input.entries| - i
  {
    if i < |input.entries| {
      if i in seen {
        RootsNoPointClouds(input, i + 1, visits, seen);
      } else {
        VisitFromNoPointClouds(input, i, None, visits, seen);
        var w := VisitFrom(input, i, None, visits, seen);
        if w.failure.None? {
          RootsNoPointClouds(input, i + 1, w.visits, w.seen);
        }
      }
    }
  }

  /** The root loop from entry `i` on: an entry not yet seen starts a walk. */
  function RootsFrom(input: Input, i: nat, visits: seq<Visit>, seen: set<int>): Walk
    requires Forward(input.entries)
    requires i <= |input.entries|
    decreases |input.entries| - i
  {
    if i == |input.entries| then Walk(visits, seen, None)
    else if i in seen then RootsFrom(input, i + 1, visits, seen)
    else
      var w := VisitFrom(input, i, None, visits, seen);
      if w.failure.Some? then w
      else RootsFrom(input, i + 1, w.visits, w.seen)
  }

  /** A record the root loop has not seen is decoded as a root, and on success
      the loop carries on from the next index. */
  lemma RootsStep(input: Input, i: nat, visits: seq<Visit>, seen: set<int>, w: Walk)
    requires Forward(input.entries)
    requires i < |input.entries| && i !in seen
    requires VisitFrom(input, i, None, visits, seen) == w && w.failure == None
    ensures RootsFrom(input, i, visits, seen) == RootsFrom(input, i + 1, w.visits, w.seen)
  {
  }

  /** The scene settings `main` writes from a header the host accepts: the
      skin number is clamped to its range, and a missing `Spoiler` section
      means 'undefined'. */
  function LoadSettings(car: CarData, resolve: int -> string): (r: Settings<string>)
    ensures Data.ValidSkinNumber(r.defaultSkinNumber)
    ensures Data.ValidSkinNumber(car.defaultSkinNumber) ==> r.defaultSkinNumber == car.defaultSkinNumber
    ensures r.spoilerType == SpoilerOf(car)
  {
    Settings(
      car.carTypeName, car.baseModelName, car.manufacturerName, car.usageType,
      resolve(car.defaultBasePaint), car.skinnable, Data.ClampSkinNumber(car.defaultSkinNumber),
      SpoilerOf(car))
  }

  /** The spoiler type the header names: 'undefined' without a `Spoiler` section. */
  function SpoilerOf(car: CarData): string
  {
    if car.spoiler.Some? then car.spoiler.value else Data.UndefinedSpoiler
  }

  /** The header lines of `main`, one assignment at a time from the settings
      `prior` the scene held: an enumeration value outside its table raises,
      leaving the assignments before it done and the rest not. */
  function LoadHeader(prior: Settings<string>, car: CarData, resolve: int -> string): Settings<string>
  {
    var full := LoadSettings(car, resolve);
    if !Data.IsUsageType(car.usageType) then
      prior.(carTypeName := full.carTypeName, baseModelName := full.baseModelName,
             manufacturerName := full.manufacturerName)
    else if !Data.IsSpoilerType(SpoilerOf(car)) then
      full.(spoilerType := prior.spoilerType)
    else full
  }

  /** The exception the header lines raise, if any. */
  function HeaderFailure(car: CarData): (r: Option<Failure>)
    ensures r.None? <==> Data.IsUsageType(car.usageType) && Data.IsSpoilerType(SpoilerOf(car))
    ensures r.Some? ==> r.value in {UnknownUsageType, UnknownSpoilerType}
  {
    if !Data.IsUsageType(car.usageType) then Some(UnknownUsageType)
    else if !Data.IsSpoilerType(SpoilerOf(car)) then Some(UnknownSpoilerType)
    else None
  }

  /** An accepted header replaces every setting, whatever the scene held; a
      refused one keeps the settings valid when they were. */
  lemma HeaderSettings(prior: Settings<string>, car: CarData, resolve: int -> string)
    ensures HeaderFailure(car).None? ==> LoadHeader(prior, car, resolve) == LoadSettings(car, resolve)
    ensures ValidSettings(prior) ==> ValidSettings(LoadHeader(prior, car, resolve))
    ensures LoadHeader(prior, car, resolve).carTypeName == car.carTypeName
  {
  }

  /** `main` without the file read and the clearing of the collection, run on a
      scene whose settings were `prior`. */
  function LoadSpec(prior: Settings<string>, car: CarData, usePivot: bool, resolve: int -> string): Loaded
    requires car.boundsPack.Some? ==> Forward(car.boundsPack.value.entries)
  {
    var settings := LoadHeader(prior, car, resolve);
    if HeaderFailure(car).Some? then Loaded(settings, [], HeaderFailure(car))
    else if car.boundsPack.None? then Loaded(settings, [], Some(MissingBoundsPack))
    else
      var pack := car.boundsPack.value;
      var w := RootsFrom(Input(pack.entries, |pack.pointClouds|, usePivot, resolve), 0, [], {});
      Loaded(settings, w.visits, w.failure)
  }

  /** A file whose `PointClouds` list is empty loads without a single point
      cloud attached. */
  lemma LoadWithoutPointClouds(prior: Settings<string>, car: CarData, usePivot: bool, resolve: int -> string)
    requires car.boundsPack.Some? ==> Forward(car.boundsPack.value.entries) && car.boundsPack.value.pointClouds == []
    ensures NoPointClouds(LoadSpec(prior, car, usePivot, resolve).visits)
  {
    if HeaderFailure(car).None? && car.boundsPack.Some? {
      var pack := car.boundsPack.value;
      RootsNoPointClouds(Input(pack.entries, 0, usePivot, resolve), 0, [], {});
    }
  }

  /** The objects created and the `seen_bounds` set shared by `create_bound`. */
  class Loader {
    var visits: seq<Visit>
    var seen: set<int>

    constructor ()
      ensures visits == [] && seen == {}
    {
      visits := [];
      seen := {};
    }

    /** `create_bound(index, bounds[index], parent_pivot, parent_obj)`; returns
        the exception it raises, if any. */
    method CreateBound(input: Input, index: nat, parent: Option<nat>) returns (failure: Option<Failure>)
      requires Forward(input.entries)
      requires index < |input.entries|
      requires parent.Some? ==> parent.value < |input.entries|
      modifies this
      ensures Walk(visits, seen, failure) == VisitFrom(input, index, parent, old(visits), old(seen))
      decreases |input.entries| - index
    {
      var b := input.entries[index];
      visits := visits + [DecodeOne(input, index, parent)];
      if b.pCloudIndex != NoPointCloud {
        if PointCloudSlot(b.pCloudIndex, input.pointClouds).None? {
          return Some(PointCloudOutOfRange(index));
        }
        if parent.None? {
          return Some(RootPointCloud(index));
        }
      }
      if b.childIndex == -1 {
        return None;
      }
      if b.numChildren <= 0 {
        // the range is empty
        return None;
      }
      var end := b.childIndex + b.numChildren;
      var j := b.childIndex;
      while j < end
        invariant index < j
        invariant VisitFrom(input, index, parent, old(visits), old(seen))
               == VisitRange(input, j, end, index, visits, seen)
        decreases end - j
      {
        seen := seen + {j};
        if j >= |input.entries| {
          return Some(ChildOutOfRange(j));
        }
        failure := CreateBound(input, j, Some(index));
        if failure.Some? {
          return;
        }
        j := j + 1;
      }
      return None;
    }
  }

  /** `main`: the header, then the root loop over the entries. */
  method Load(prior: Settings<string>, car: CarData, usePivot: bool, resolve: int -> string) returns (r: Loaded)
    requires car.boundsPack.Some? ==> Forward(car.boundsPack.value.entries)
    ensures r == LoadSpec(prior, car, usePivot, resolve)
  {
    var settings := LoadHeader(prior, car, resolve);
    var refused := HeaderFailure(car);
    if refused.Some? {
      return Loaded(settings, [], refused);
    }
    if car.boundsPack.None? {
      return Loaded(settings, [], Some(MissingBoundsPack));
    }
    var pack := car.boundsPack.value;
    var input := Input(pack.entries, |pack.pointClouds|, usePivot, resolve);
    var loader := new Loader();
    for i := 0 to |pack.entries|
      invariant RootsFrom(input, 0, [], {}) == RootsFrom(input, i, loader.visits, loader.seen)
    {
      if i !in loader.seen {
        var failure := loader.CreateBound(input, i, None);
        if failure.Some? {
          return Loaded(settings, loader.visits, failure);
        }
      }
    }
    return Loaded(settings, loader.visits, None);
  }
}
