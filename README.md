# blender-io-aaron: the bound-tree codec, modelled in Dafny

The add-on moves a car's collision bounds between a Blender scene and the game's
JSON car description. It has four parts:

- **Encoder** (`io_aaron/save.py`). It flattens the tree of bound objects into
  `BoundsPack.Entries`, one record per bound object, depth first. Each record
  names its bound children by a range `[ChildIndex, ChildIndex + NumChildren)`.
- **Decoder** (`io_aaron/load.py`). It walks that list with a shared
  `seen_bounds` set. It creates each record's object, then the objects of the
  records its range names. Any record not yet seen when the root loop reaches
  it becomes a root.
- **Hashes** (`io_aaron/hash.py`). A 32-bit string hash, and a converter that
  reads `0x…` text as hex.
- **Vocabulary** (`io_aaron/data.py`). The tables that fix the flag names and
  the enumerations.

This project models these four parts and proves what they promise.

The files, one module each:

- `util.dfy` holds `Option`, the 32-bit mask and sequence helpers.
- `hash.dfy` holds `binhash` (a loop, proved against its fold) and
  `string_to_hash`.
- `data.py`'s tables, the flag bit mask and the MeshVsGround check are in
  `data.dfy`.
- `coords.dfy` holds the axis permutations of `aaron_vec`, `aaron_quat`,
  `blender_vec` and `blender_quat`.
- `format.dfy` holds the record and car datatypes, and the `Flags` string:
  `', '.join` and `split(', ')`.
- `save.dfy` holds the encoder: a specification (`FlattenNode`,
  `FlattenChildren`, `FlattenRoots` and `SaveSpec`), and the class `Saver`
  whose method `AddBound` appends to `outBounds` as `add_bound` appends to
  `out_bounds`.
- `load.dfy` holds the decoder: a specification (`VisitFrom`, `VisitRange`,
  `RootsFrom` and `LoadSpec`), and the class `Loader` whose `CreateBound`
  mutates `visits` and `seen` as `create_bound` mutates the scene and
  `seen_bounds`.
- `roots.dfy` holds which records the decoder makes roots, for any list whose
  child ranges point forward.
- `roundtrip.dfy` holds what a save followed by a load gives back.

The main results:

- Saving and then loading recreates, in pre-order, every bound object reached
  from a parentless bound object through bound children. Each object has the
  right parent, flag set, shape, pivot, rotation, scale and 32-bit surface.
  Names and point clouds do not come back: `AttributeName` and `NameHash` are
  written as 0 and `PCloudIndex` as 255. A bound object parented to a mesh, or
  under a child that is not a bound object, is never written. This holds for
  every tree in which, at every node, each bound child but the last
  has no bound children of its own (`SaveLoadRoundTrip`).
- That condition is exactly when a node's child range names its children
  (`ContiguousIffLeaves`). Outside it, the decoder can build a different tree:
  for example, a root whose first child has a child of its own and a later
  sibling comes back as five objects for four (`NonContiguousMisread`).
- For any list whose child ranges point forward, a load that raises nothing
  makes a root of exactly each record that no child range names
  (`RootsAreUnnamed`).

## Model

| member | source | states |
|---|---|---|
| Hash.BinHash | io_aaron/hash.py:1-5 | the loop's result is the left fold of multiply-by-33-plus-code-point modulo 2^32 from 0xFFFFFFFF |
| Hash.BinHashOf | io_aaron/hash.py:2-5 | the hash of any string lies in [0, 2^32) |
| Hash.BinHashEmpty | io_aaron/hash.py:2-5 | the hash of the empty string is 0xFFFFFFFF |
| Hash.BinHashAppend | io_aaron/hash.py:3-4 | appending a character gives (hash * 33 + its code point) mod 2^32 |
| Hash.BinHashUsesFullCodePoint | io_aaron/hash.py:4 | two characters with the same low byte hash differently, so no per-character truncation happens |
| Hash.ParseHex | io_aaron/hash.py:12 | the hex parse succeeds iff the text after the prefix is non-empty and all hex digits |
| Hash.StringToHashWithoutPrefix | io_aaron/hash.py:9-10 | a string not starting with "0x" converts to its hash |
| Hash.StringToHashOfHex | io_aaron/hash.py:11-12 | "0x" plus hex digits of either case converts to their value |
| Hash.StringToHashFallback | io_aaron/hash.py:11-14 | when the hex parse fails, the whole string, prefix included, is hashed |
| Hash.StringToHashRoundTrip | io_aaron/hash.py:11-12 | "0x" followed by the hex digits of any h >= 0 converts back to h |
| Hash.HexBranchUnbounded | io_aaron/hash.py:12 | the hex branch is not limited to 32 bits: 0x100000000 converts to 2^32 |
| Data.EnumerationsNumbered | io_aaron/data.py:4-23 | 5 usage types and 5 spoiler types numbered 0-4, 2 kinds; 'undefined' is spoiler 0, 'none' and 'bound' are the kinds |
| Data.FlagNumbersAreDistinctBits | io_aaron/data.py:25-41 | the 13 flag numbers are single bits at pairwise distinct positions |
| Data.MaskRoundTrip | io_aaron/data.py:131 | decoding the bit mask of a flag set gives back exactly its vocabulary flags |
| Data.FlagMaskInjective | io_aaron/data.py:131 | two vocabulary flag sets with the same mask are equal |
| Data.ShapeMarkersNotFlags | io_aaron/data.py:32-33 | neither kBounds_Box nor kBounds_Sphere is in the flag vocabulary |
| Data.ClampSkinNumber | io_aaron/data.py:125 | the stored skin number lies in 0..255 and equals the assigned one when that is in range, 0 below and 255 above |
| Format.SplitJoin | io_aaron/load.py:73 | splitting on ", " a join of parts free of ", " gives the parts back |
| Format.VocabularyWithoutSeparator | io_aaron/data.py:25-41 | no flag name and neither shape marker contains ", " |
| Format.ParseFlags | io_aaron/load.py:89 | the stored flag set never holds a shape marker |
| Format.ParseJoinAnyOrder | io_aaron/load.py:95-98 | in any join order, the decoder recovers the parts minus the markers, and Box iff kBounds_Box is among them |
| Coords.VecRoundTrip | io_aaron/save.py:7-12 | `blender_vec` undoes `aaron_vec`'s axis permutation and vice versa |
| Coords.QuatRoundTrip | io_aaron/save.py:15-21 | `blender_quat` undoes `aaron_quat`'s axis permutation and vice versa |
| Coords.OffsetRoundTrip | io_aaron/save.py:43-45 | the parent's saved pivot plus the child's saved offset is the child's position |
| Util.Mask32 | io_aaron/save.py:32 | `x & 0xFFFFFFFF` lies in [0, 2^32) and is congruent to x modulo 2^32 |
| Save.Saver.AddBound | io_aaron/save.py:39-61 | appends the object's record, then each bound child's subtree in order, to `outBounds` |
| Save.SaveEntries | io_aaron/save.py:63-65 | the root loop writes the subtrees of the parentless bound objects in collection order |
| Save.Save | io_aaron/save.py:24-76 | the car description `main` builds equals the encoder's specification |
| Save.FlattenNodeLength | io_aaron/save.py:39-61 | an object's subtree takes one record per bound object reached from it |
| Save.SizeChildrenBounds | io_aaron/save.py:42 | a node has no bound children iff nothing follows its record in its subtree |
| Save.EntriesShaped | io_aaron/save.py:46-58 | every record has PCloudIndex 255, AttributeName 0, NameHash 0 and a 32-bit Surface; ChildIndex is its index + 1 when it has bound children and -1 otherwise; its range lies inside the list |
| Save.ChildRecordAt | io_aaron/save.py:60-61 | the k-th bound child is saved, relative to its parent's position, after the subtrees of the earlier children |
| Save.ContiguousIffLeaves | io_aaron/save.py:54 | the range from ChildIndex holds exactly the children's records iff every bound child but the last has no bound children |
| Save.FlagsTextRoundTrip | io_aaron/save.py:41-49 | parsing the saved Flags text gives back the object's flag set and shape |
| Save.FlagsTextRoundTripVocabulary | io_aaron/save.py:41 | the same for any flags drawn from the vocabulary |
| Save.RootsLength | io_aaron/save.py:63-65 | records are written iff the collection holds a parentless bound object |
| Save.BoundsPackIffRoot | io_aaron/save.py:67-71 | `BoundsPack` is written iff there is a root bound object, with an empty PointClouds list |
| Save.HeaderSections | io_aaron/save.py:73-76 | `Spoiler` is written iff the spoiler type is not 'undefined', holding that type; the paint is masked to 32 bits |
| Load.PointCloudSlot | io_aaron/load.py:48 | `pointclouds[id]` exists iff -count <= id < count, a negative id counting from the end |
| Load.VisitLeaf | io_aaron/load.py:125-134 | for a record whose point cloud raises nothing, with ChildIndex -1 or NumChildren <= 0 only the record's own object is created |
| Load.VisitInner | io_aaron/load.py:125-138 | for a record whose point cloud raises nothing, with a non-empty range the record's object is created, then the loop over [ChildIndex, ChildIndex + NumChildren) runs |
| Load.RangeStep | io_aaron/load.py:134-138 | each index of the range is marked seen, then its subtree is built under the record; the loop goes on from the state that leaves |
| Load.RangeEnd | io_aaron/load.py:134 | an exhausted range raises nothing |
| Load.RangePastEnd | io_aaron/load.py:134-138 | a range running past the list marks the missing index seen and stops with an index error |
| Load.RootsStep | io_aaron/load.py:140-144 | a record not yet seen is decoded as a root, and the loop carries on from the next index |
| Load.DecodedMissingPointCloud | io_aaron/data.py:106-107 | a decoded object shows the MeshVsGround error iff its Flags text names MeshVsGround and no point cloud was attached: none named, one out of range, or a root's |
| Load.LoadWithoutPointClouds | io_aaron/load.py:125-127 | a file with an empty PointClouds list loads with no point cloud attached to any object |
| Load.LoadSettings | io_aaron/load.py:30-40 | an accepted header gives a skin number in 0..255, the file's own when in range, and 'undefined' as spoiler type without a Spoiler section |
| Load.HeaderFailure | io_aaron/load.py:33-38 | the header raises iff UsageType or the spoiler type is outside its table |
| Load.HeaderSettings | io_aaron/load.py:30-40 | an accepted header replaces every setting whatever the scene held; a refused one keeps valid settings valid and has still written the car type name |
| Load.Loader.CreateBound | io_aaron/load.py:71-138 | the objects created and the seen set after `create_bound` are those of the decoder's specification, exception included |
| Load.Load | io_aaron/load.py:20-144 | `main` gives the settings, the objects and the failure of the decoder's specification |
| RoundTrip.FlagsValidPlain | io_aaron/data.py:131 | flag sets drawn from the vocabulary survive the Flags text at every depth |
| RoundTrip.DecodeRecord | io_aaron/load.py:71-115 | a saved record decodes to its object's flags, shape, pivot, rotation, scale and location, which is the origin only for a root with `use_pivot` off |
| RoundTrip.WalkNode | io_aaron/load.py:129-138 | walking a contiguous saved subtree raises nothing and marks exactly its other records seen |
| RoundTrip.DecodeNode | io_aaron/load.py:71-138 | walking a contiguous saved subtree creates its objects in pre-order under their parents |
| RoundTrip.RootsSkip | io_aaron/load.py:141-142 | the root loop skips records already seen |
| RoundTrip.DecodeRoots | io_aaron/load.py:140-144 | the root loop over saved contiguous trees creates every saved object once, roots at the saved roots |
| RoundTrip.SettingsRoundTrip | io_aaron/load.py:30-40 | the header of a saved car with valid settings is accepted and restores every scene setting, the spoiler type whether or not `Spoiler` was written |
| RoundTrip.SavedForward | io_aaron/save.py:54 | every child range the encoder writes points forward |
| RoundTrip.SavedCarMissingPointCloud | io_aaron/data.py:106-107 | every object a saved car loads into has no point cloud, so it shows the MeshVsGround error iff it carries that flag |
| RoundTrip.ExpectedMissingPointCloud | io_aaron/data.py:106-107 | the object owed for a saved object shows the MeshVsGround error iff the saved object carries that flag |
| RoundTrip.SaveLoadRoundTrip | io_aaron/load.py:140-144 | save then load of contiguous trees recreates every bound object reached from a parentless bound object through bound children, in pre-order, with its parent, flags, shape, pivot, rotation, scale and 32-bit surface (names written as 0, no point cloud); only a scene without roots fails, for want of `BoundsPack` |
| RoundTrip.MisreadLayout | io_aaron/save.py:54-61 | a root with children [b with child d, c] is saved as a, b, d, c with the range of a being [1, 3) |
| RoundTrip.MisreadWalk | io_aaron/load.py:129-144 | on that list the decoder creates record 2 under 1 and again under 0, and makes record 3 a root |
| RoundTrip.NonContiguousMisread | io_aaron/save.py:54 | for that tree, save then load gives five objects for four: d twice, c as a root |
| Roots.GrowFrom | io_aaron/load.py:134-135 | a walk marks seen only indices some child range names |
| Roots.CloseFrom | io_aaron/load.py:129-138 | a walk that raises nothing marks every index of its record's range, and of the range of every record it marks |
| Roots.ShapeFrom | io_aaron/load.py:86-138 | a walk keeps the objects created before it, creates its record's object first, and every later one under a parent |
| Roots.RootsAreUnnamed | io_aaron/load.py:140-144 | with forward ranges, a load that raises nothing makes a root of record j iff no child range names j |

## Left out

- Floating point: the /1000 and /32767 scale factors and `round` of the four
  vector conversions. Positions, rotations and scales are integers in engine
  units, and only the axis permutation is modelled.
- Host linear algebra: `matrix_world`, `decompose`, `matrix_parent_inverse`,
  `global_pos` and the matrix products. `Location` gives the translation the
  decoder computes.
- Point-cloud geometry (`create_point_cloud`'s convex hull). Only the 255
  sentinel, the index check and the parent-pivot requirement are modelled.
- File and JSON I/O, the `_saved.json` suffix, and the clearing of the
  collection before a load.
- `resolve_hash` is not part of this model. It is a function parameter
  `resolve`.
- Host glue: panels, operators, registration.
- The inconsistent property names `surface_hash` and `default_base_paint` are
  both modelled as integers: the surface is an integer field of the object,
  the paint an integer setting.
- StringToHash: the hex branch accepts only plain hex digits. Python's
  `int(s, 16)` also accepts underscores between digits and surrounding
  whitespace, which the model hashes instead.
  Python's `int` also accepts non-ASCII Unicode decimal digits, such as
  Arabic-Indic ones, which the model refuses and hashes instead.
- Python's recursion limit is not modelled: `add_bound` and `create_bound`
  raise RecursionError on trees deeper than about a thousand levels, where the
  model recurses to any depth.
- FlagsText: Python's set iteration order for `', '.join(flags)` is
  unspecified. The model joins the object's flags in a given order with the
  marker last. `ParseJoinAnyOrder` shows the decoder's result is the same in
  every order.
- Blender's rejection of unknown flag names when assigning the decoded set
  (`obj.aaron_data.flags = …`) is not modelled. The decoder keeps whatever
  names the text holds.
- Header values of the wrong JSON type, such as a string for `Skinnable`, are
  not modelled: the fields of `CarData` are typed. A `UsageType` or spoiler
  type outside its table is modelled as a failure (`HeaderFailure`).
- Load.Load: requires every non-empty child range to point forward
  (`Forward`). This is a choice of the model. Only cyclic ranges make
  `create_bound` recurse without end, which in Python ends in a
  RecursionError. A backward range without a cycle
  terminates: for the list [a leaf, a record with ChildIndex 0 and
  NumChildren 1], record 0 is created twice. Such lists are not modelled. The
  encoder's lists always point forward (`EntriesShaped`, `SavedForward`).
- Roots.RootsAreUnnamed: covers the roots only. The claim that every record
  is visited exactly once when the child ranges are also pairwise disjoint
  is not proved for arbitrary lists. For the encoder's lists of contiguous
  trees, `DecodeRoots` shows each saved object is created once. For other
  trees a record can be created twice (`NonContiguousMisread`).
- Facts about the code that the model follows:
  - The encoder writes the list depth first.
  - Roots are found on the fly, through `seen_bounds`.
  - A record named by two ranges is decoded twice (`NonContiguousMisread`).
  - A failed load keeps the objects already created, and the header
    settings assigned before the failure.
  - `AttributeName` and `NameHash` are written as 0.
  - `PointClouds` is written empty.
