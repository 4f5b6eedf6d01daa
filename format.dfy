// The on-disk car description (a JSON object) and the `Flags` string: the
// encoder's `', '.join(flags)` (io_aaron/save.py) and the decoder's
// `Flags.split(', ')` (io_aaron/load.py).
module Format {
  import opened Util
  import opened Coords
  import Data

  /** One element of `BoundsPack.Entries`. */
  datatype Record = Record(
    orientation: EngineQuat,
    position: EngineVec,
    flags: string,
    halfDimensions: EngineVec,
    numChildren: int,
    pCloudIndex: int,
    pivot: EngineVec,
    childIndex: int,
    attributeName: int,
    surface: int,
    nameHash: int)

  /** One element of `BoundsPack.PointClouds`. */
  datatype PointCloud = PointCloud(vertices: seq<EngineVec>)

  datatype BoundsPack = BoundsPack(entries: seq<Record>, pointClouds: seq<PointCloud>)

  /** The top-level JSON object; `Spoiler` and `BoundsPack` are optional keys. */
  datatype CarData = CarData(
    carTypeName: string,
    baseModelName: string,
    manufacturerName: string,
    usageType: string,
    defaultBasePaint: int,
    skinnable: bool,
    defaultSkinNumber: int,
    spoiler: Option<string>,
    boundsPack: Option<BoundsPack>)

  /** The scene-level properties; `Paint` is an integer when saving and the
      resolved text when loading. */
  datatype Settings<Paint> = Settings(
    carTypeName: string,
    baseModelName: string,
    manufacturerName: string,
    usageType: string,
    defaultBasePaint: Paint,
    skinnable: bool,
    defaultSkinNumber: int,
    spoilerType: string)

  /** The values the host's scene properties can hold: both enumerations name
      an item of their table and the skin number lies in its range. */
  predicate ValidSettings<Paint>(st: Settings<Paint>)
  {
    Data.IsUsageType(st.usageType) && Data.IsSpoilerType(st.spoilerType)
    && Data.ValidSkinNumber(st.defaultSkinNumber)
  }

  /** The point-cloud index meaning "no point cloud". */
  const NoPointCloud := 255

  // ---- the Flags string ----

  /** `s` holds the separator ", " starting at position k. */
  predicate SeparatorAt(s: string, k: int)
  {
    0 <= k && k + 1 < |s| && s[k] == ',' && s[k + 1] == ' '
  }

  predicate NoSeparator(s: string)
  {
    forall k :: 0 <= k < |s| ==> !SeparatorAt(s, k)
  }

  /** `', '.join(parts)`. */
  function Join(parts: seq<string>): string
  {
    if parts == [] then ""
    else if |parts| == 1 then parts[0]
    else parts[0] + ", " + Join(parts[1..])
  }

  /** `s.split(', ')`: cut at each leftmost, non-overlapping separator. */
  function Split(s: string): (parts: seq<string>)
    ensures parts != []
    decreases |s|
  {
    if |s| < 2 then [s]
    else if SeparatorAt(s, 0) then [""] + Split(s[2..])
    else
      var rest := Split(s[1..]);
      [[s[0]] + rest[0]] + rest[1..]
  }

  lemma {:induction false} SplitNoSeparator(x: string)
    requires NoSeparator(x)
    ensures Split(x) == [x]
    decreases |x|
  {
    if |x| >= 2 {
      assert !SeparatorAt(x, 0);
      assert forall k :: 0 <= k < |x[1..]| ==> SeparatorAt(x[1..], k) == SeparatorAt(x, k + 1);
      SplitNoSeparator(x[1..]);
      assert [x[0]] + x[1..] == x;
    }
  }

  /** The first separator of `x + ", " + t` is the one after `x`. */
  lemma {:induction false} SplitAfter(x: string, t: string)
    requires NoSeparator(x)
    ensures Split(x + ", " + t) == [x] + Split(t)
    decreases |x|
  {
    var s := x + ", " + t;
    if x == [] {
      assert s == ", " + t && SeparatorAt(s, 0) && s[2..] == t;
    } else {
      assert !SeparatorAt(s, 0) by {
        if |x| >= 2 { assert !SeparatorAt(x, 0); } else { assert s[1] == ','; }
      }
      assert forall k :: 0 <= k < |x[1..]| ==> SeparatorAt(x[1..], k) == SeparatorAt(x, k + 1);
      assert s[1..] == x[1..] + ", " + t;
      SplitAfter(x[1..], t);
      assert [x[0]] + x[1..] == x;
    }
  }

  /** Splitting a join gives the parts back when no part contains the separator. */
  lemma {:induction false} SplitJoin(parts: seq<string>)
    requires parts != []
    requires forall i :: 0 <= i < |parts| ==> NoSeparator(parts[i])
    ensures Split(Join(parts)) == parts
  {
    if |parts| == 1 {
      SplitNoSeparator(parts[0]);
    } else {
      SplitJoin(parts[1..]);
      SplitAfter(parts[0], Join(parts[1..]));
    }
  }

  /** A string without a comma holds no separator. */
  predicate CommaFree(s: string)
  {
    forall k :: 0 <= k < |s| ==> s[k] != ','
  }

  /** No flag name and neither shape marker contains the separator. */
  lemma VocabularyWithoutSeparator()
    ensures forall f :: f in Data.FlagNames() ==> NoSeparator(f)
    ensures NoSeparator(Data.BoxFlag) && NoSeparator(Data.SphereFlag)
  {
    FlagIdentifiersListed();
    ListedCommaFreeA();
    ListedCommaFreeB();
    MarkersWithoutSeparator();
  }

  lemma MarkersWithoutSeparator()
    ensures NoSeparator(Data.BoxFlag) && NoSeparator(Data.SphereFlag)
  {
    assert CommaFree(Data.BoxFlag) && CommaFree(Data.SphereFlag);
  }

  /** The identifiers of `Data.Flags`, listed a second time as literals:
      checking each literal for ", " is cheap for the solver, where checking
      through the table is not. `FlagIdentifiersListed` proves the two lists
      equal. */
  const ListedIdentifiers: seq<string> := [
    "kBounds_Disabled", "kBounds_PrimVsWorld", "kBounds_PrimVsObjects", "kBounds_PrimVsGround",
    "kBounds_MeshVsGround", "kBounds_Internal", "kBounds_Constraint_Conical", "kBounds_Constraint_Prismatic",
    "kBounds_Joint_Female", "kBounds_Joint_Male", "kBounds_Male_Post", "kBounds_Joint_Invert", "kBounds_PrimVsOwnParts"]

  lemma FlagIdentifiersListed()
    ensures forall k :: 0 <= k < |Data.Flags| ==> Data.Flags[k].identifier in ListedIdentifiers
  {
  }

  lemma ListedCommaFreeA()
    ensures forall j :: 0 <= j < 6 ==> CommaFree(ListedIdentifiers[j])
  {
    assert CommaFree(ListedIdentifiers[0]) && CommaFree(ListedIdentifiers[1]) && CommaFree(ListedIdentifiers[2]);
    assert CommaFree(ListedIdentifiers[3]) && CommaFree(ListedIdentifiers[4]) && CommaFree(ListedIdentifiers[5]);
  }

  lemma ListedCommaFreeB()
    ensures forall j :: 6 <= j < |ListedIdentifiers| ==> CommaFree(ListedIdentifiers[j])
  {
    assert CommaFree(ListedIdentifiers[6]) && CommaFree(ListedIdentifiers[7]) && CommaFree(ListedIdentifiers[8]);
    assert CommaFree(ListedIdentifiers[9]) && CommaFree(ListedIdentifiers[10]);
    assert CommaFree(ListedIdentifiers[11]) && CommaFree(ListedIdentifiers[12]);
  }

  /** A flag name the `Flags` string carries unambiguously: it holds no
      separator and is not a shape marker. */
  predicate PlainFlag(f: string)
  {
    NoSeparator(f) && f != Data.BoxFlag && f != Data.SphereFlag
  }

  /** Every name of the flag vocabulary is plain. */
  lemma VocabularyPlain()
    ensures forall f :: f in Data.FlagNames() ==> PlainFlag(f)
  {
    VocabularyWithoutSeparator();
    Data.ShapeMarkersNotFlags();
  }

  /** The decoder's reading of a `Flags` string: the stored flag set (the split
      minus both shape markers) and whether the shape is a box. */
  function ParseFlags(text: string): (r: (set<string>, bool))
    ensures Data.BoxFlag !in r.0 && Data.SphereFlag !in r.0
  {
    var parts := Elements(Split(text));
    (parts - {Data.BoxFlag, Data.SphereFlag}, Data.BoxFlag in parts)
  }

  /** Whatever order the parts were joined in, the decoder recovers the set minus
      the markers, and a box iff the box marker was among them; with both markers
      present the shape is a box, with neither a sphere. */
  lemma ParseJoinAnyOrder(order: seq<string>)
    requires order != []
    requires forall i :: 0 <= i < |order| ==> NoSeparator(order[i])
    ensures ParseFlags(Join(order)) == (Elements(order) - {Data.BoxFlag, Data.SphereFlag}, Data.BoxFlag in order)
  {
    SplitJoin(order);
    ElementsIn(order);
  }
}
