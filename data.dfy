// The enumeration tables and the one validation rule of io_aaron/data.py.
module Data {

  /** One item of a host enumeration property: identifier, display name,
      description and number (a bit value for the flag enumeration). */
  datatype EnumItem = EnumItem(identifier: string, name: string, description: string, number: nat)

  const CarUsageTypes: seq<EnumItem> := [
    EnumItem("Racing", "Racing", "", 0),
    EnumItem("Cop", "Cop", "", 1),
    EnumItem("Traffic", "Traffic", "", 2),
    EnumItem("Wheels", "Wheels", "", 3),
    EnumItem("Universal", "Universal", "", 4)
  ]

  const SpoilerTypes: seq<EnumItem> := [
    EnumItem("undefined", "Undefined", "", 0),
    EnumItem("None", "None", "", 1),
    EnumItem("Small", "Small", "", 2),
    EnumItem("Large", "Large", "", 3),
    EnumItem("Hatch", "Hatch", "", 4)
  ]

  const Kinds: seq<EnumItem> := [
    EnumItem("none", "None", "", 0),
    EnumItem("bound", "Collision Bound", "", 1)
  ]

  /** The bound flags a host object may carry. The two shape markers, 0x40 Box
      and 0x80 Sphere, are deliberately absent. */
  const Flags: seq<EnumItem> := [
    EnumItem("kBounds_Disabled", "Disabled", "", 0x1),
    EnumItem("kBounds_PrimVsWorld", "PrimVsWorld", "", 0x2),
    EnumItem("kBounds_PrimVsObjects", "PrimVsObjects", "", 0x4),
    EnumItem("kBounds_PrimVsGround", "PrimVsGround", "", 0x8),
    EnumItem("kBounds_MeshVsGround", "MeshVsGround", "", 0x10),
    EnumItem("kBounds_Internal", "Internal", "", 0x20),
    EnumItem("kBounds_Constraint_Conical", "Constraint_Conical", "", 0x100),
    EnumItem("kBounds_Constraint_Prismatic", "Constraint_Prismatic", "", 0x200),
    EnumItem("kBounds_Joint_Female", "Joint_Female", "", 0x400),
    EnumItem("kBounds_Joint_Male", "Joint_Male", "", 0x800),
    EnumItem("kBounds_Male_Post", "Male_Post", "", 0x1000),
    EnumItem("kBounds_Joint_Invert", "Joint_Invert", "", 0x2000),
    EnumItem("kBounds_PrimVsOwnParts", "PrimVsOwnParts", "", 0x4000)
  ]

  const BoxFlag := "kBounds_Box"
  const SphereFlag := "kBounds_Sphere"
  const MeshVsGroundFlag := "kBounds_MeshVsGround"

  /** Identifiers of an enumeration table. */
  function Identifiers(items: seq<EnumItem>): (ids: set<string>)
    ensures forall k :: 0 <= k < |items| ==> items[k].identifier in ids
    ensures forall id :: id in ids ==> exists k :: 0 <= k < |items| && items[k].identifier == id
  {
    set k | 0 <= k < |items| :: items[k].identifier
  }

  /** The vocabulary a host flag set is drawn from. */
  function FlagNames(): set<string>
  {
    Identifiers(Flags)
  }

  /** `object_kind` defaults to 'none'; only 'bound' objects are saved. */
  const DefaultKind := "none"
  const BoundKind := "bound"

  /** The "no spoiler" sentinel. */
  const UndefinedSpoiler := "undefined"

  /** `usage_type` and `spoiler_type` are enumeration properties: the host
      refuses an identifier outside their tables. */
  predicate IsUsageType(s: string)
  {
    s in Identifiers(CarUsageTypes)
  }

  predicate IsSpoilerType(s: string)
  {
    s in Identifiers(SpoilerTypes)
  }

  /** `default_skin_number` is an integer property limited to 0..255. */
  predicate ValidSkinNumber(n: int)
  {
    0 <= n <= 255
  }

  /** What the host stores when `default_skin_number` is assigned `n`: the
      nearest value of its range. */
  function ClampSkinNumber(n: int): (r: int)
    ensures ValidSkinNumber(r)
    ensures ValidSkinNumber(n) ==> r == n
    ensures n < 0 ==> r == 0
    ensures n > 255 ==> r == 255
  {
    if n < 0 then 0 else if n > 255 then 255 else n
  }

  /** The object panel's error: MeshVsGround without a point cloud. */
  predicate MissingPointCloud(flags: set<string>, hasPointCloud: bool)
  {
    MeshVsGroundFlag in flags && !hasPointCloud
  }

  /** Every table numbers its items 0, 1, 2, ... in order, except the flag table. */
  lemma EnumerationsNumbered()
    ensures |CarUsageTypes| == 5 && |SpoilerTypes| == 5 && |Kinds| == 2
    ensures forall k :: 0 <= k < |CarUsageTypes| ==> CarUsageTypes[k].number == k
    ensures forall k :: 0 <= k < |SpoilerTypes| ==> SpoilerTypes[k].number == k
    ensures forall k :: 0 <= k < |Kinds| ==> Kinds[k].number == k
    ensures UndefinedSpoiler == SpoilerTypes[0].identifier
    ensures DefaultKind == Kinds[0].identifier && BoundKind == Kinds[1].identifier
  {
  }

  // ---- flag bits ----

  /** Bit position of the k-th flag: 0..5, then 8..14 (6 and 7 are Box and Sphere). */
  function Shift(k: nat): (e: nat)
    ensures e < 32
  {
    if k < 6 then k else if k < 13 then k + 2 else 0
  }

  function Bit(k: nat): bv32
  {
    (1 as bv32) << Shift(k)
  }

  /** The table's numbers are exactly the single bits 1 << Shift(k), and the shifts
      are pairwise distinct, so no two flags share a bit. */
  lemma FlagNumbersAreDistinctBits()
    ensures |Flags| == 13
    ensures forall k :: 0 <= k < |Flags| ==> Flags[k].number == Bit(k) as int
    ensures forall j, k :: 0 <= j < k < |Flags| ==> Shift(j) != Shift(k)
  {
    forall k | 0 <= k < |Flags| ensures Flags[k].number == Bit(k) as int {
      FlagNumberIsBit(k);
    }
  }

  lemma FlagNumberIsBit(k: nat)
    requires k < |Flags|
    ensures Flags[k].number == Bit(k) as int
  {
    if k < 6 {
      LowFlagNumberIsBit(k);
    } else {
      HighFlagNumberIsBit(k);
    }
  }

  lemma LowFlagNumberIsBit(k: nat)
    requires k < 6
    ensures Flags[k].number == Bit(k) as int
  {
    if k == 0 {} else if k == 1 {} else if k == 2 {} else if k == 3 {} else if k == 4 {} else {}
  }

  lemma HighFlagNumberIsBit(k: nat)
    requires 6 <= k < 13
    ensures Flags[k].number == Bit(k) as int
  {
    if k == 6 {} else if k == 7 {} else if k == 8 {} else if k == 9 {}
    else if k == 10 {} else if k == 11 {} else {}
  }

  lemma BitsDisjoint(j: nat, k: nat)
    requires j < |Flags| && k < |Flags| && j != k
    ensures Bit(j) & Bit(k) == 0
  {
  }

  /** The bit mask of the flags from `fs` among table entries k.. */
  function MaskFrom(fs: set<string>, k: nat): bv32
    decreases |Flags| - k
  {
    if k >= |Flags| then 0
    else (if Flags[k].identifier in fs then Bit(k) else 0) | MaskFrom(fs, k + 1)
  }

  /** The host's integer encoding of a flag set. */
  function FlagMask(fs: set<string>): bv32
  {
    MaskFrom(fs, 0)
  }

  predicate HasBit(m: bv32, k: nat)
  {
    m & Bit(k) != 0
  }

  /** The flag set a mask stands for. */
  function MaskFlags(m: bv32): set<string>
  {
    set k | 0 <= k < |Flags| && HasBit(m, k) :: Flags[k].identifier
  }

  lemma {:induction false} MaskFromBit(fs: set<string>, k: nat, j: nat)
    requires j < |Flags|
    ensures MaskFrom(fs, k) & Bit(j) != 0 <==> (k <= j && Flags[j].identifier in fs)
    decreases |Flags| - k
  {
    if k < |Flags| {
      MaskFromBit(fs, k + 1, j);
      if k != j {
        BitsDisjoint(k, j);
      }
    }
  }

  lemma MaskSound(fs: set<string>, id: string)
    requires id in MaskFlags(FlagMask(fs))
    ensures id in fs * FlagNames()
  {
    var k :| 0 <= k < |Flags| && HasBit(FlagMask(fs), k) && Flags[k].identifier == id;
    MaskFromBit(fs, 0, k);
  }

  lemma MaskComplete(fs: set<string>, k: nat)
    requires k < |Flags| && Flags[k].identifier in fs
    ensures Flags[k].identifier in MaskFlags(FlagMask(fs))
  {
    MaskFromBit(fs, 0, k);
  }

  /** Decoding a mask recovers exactly the vocabulary flags that were encoded. */
  lemma MaskRoundTrip(fs: set<string>)
    ensures MaskFlags(FlagMask(fs)) == fs * FlagNames()
  {
    forall id | id in MaskFlags(FlagMask(fs)) ensures id in fs * FlagNames() {
      MaskSound(fs, id);
    }
    forall id | id in fs * FlagNames() ensures id in MaskFlags(FlagMask(fs)) {
      var k :| 0 <= k < |Flags| && Flags[k].identifier == id;
      MaskComplete(fs, k);
    }
  }

  /** Two vocabulary flag sets with the same mask are equal. */
  lemma FlagMaskInjective(fs: set<string>, gs: set<string>)
    requires fs <= FlagNames() && gs <= FlagNames()
    requires FlagMask(fs) == FlagMask(gs)
    ensures fs == gs
  {
    var names := FlagNames();
    MaskRoundTrip(fs);
    MaskRoundTrip(gs);
    calc {
      fs;
    ==
      fs * names;
    ==
      MaskFlags(FlagMask(fs));
    ==
      gs * names;
    ==
      gs;
    }
  }

  /** Neither shape marker is in the vocabulary. */
  lemma ShapeMarkersNotFlags()
    ensures BoxFlag !in FlagNames() && SphereFlag !in FlagNames()
  {
    forall k | 0 <= k < |Flags| ensures Flags[k].identifier != BoxFlag && Flags[k].identifier != SphereFlag {
      assert Flags[k].identifier[8] != 'B' || |Flags[k].identifier| != |BoxFlag|;
    }
  }
}
