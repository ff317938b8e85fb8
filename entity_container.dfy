/** The on-screen container of one entity and the placement controller around it:
    pixel snapping, the blueprint-bounds check, the idle/moving mouse state with
    its single moving container, underground-belt pairing on rotation, pasting
    recipe and modules, and the choice of neighbours to redraw.

    Pixels are integers, 32 to a tile, so 16 pixels make one half tile. */
module EntityContainers {
  import opened JsBase
  import opened Prototypes
  import opened PositionGrid
  import opened BlueprintStore
  import opened EntityRecord

  const StraightRail := "straight-rail"
  const CurvedRail := "curved-rail"
  const TrainStop := "train-stop"
  const Gate := "gate"
  const PipeToGround := "pipe-to-ground"

  /** A point in pixels. */
  datatype Point = Point(x: int, y: int)

  /** A cell of the 16-pixel cursor grid (`G.gridCoords16`). */
  datatype Cell = Cell(x: int, y: int)

  /** `G.mouseStates`: NONE (here Idle), MOVING and PAINTING. */
  datatype MouseState = Idle | Moving | Painting

  /** `G.copyData`: the recipe and module list picked up by Shift + right click. */
  datatype CopyData = CopyData(recipe: Option<string>, modules: Option<seq<string>>)

  /** One entry of the update-group table: when an entity whose name is in `members`
      changes, neighbours whose name is in `updates` are redrawn. */
  datatype UpdateGroup = UpdateGroup(members: seq<string>, updates: seq<string>)

  // ---------------------------------------------------------------------------
  // Snapping and bounds

  /** One coordinate of `getPositionFromData`: an even size snaps to the nearest
      tile line at or below, pushed to a multiple of 32; an odd size snaps to the
      centre of the tile holding the point. */
  function SnapCoordinate(p: int, size: nat): (r: int)
    ensures r % 16 == 0
    ensures p >= 0 ==> p - 16 < r <= p + 16
    ensures p >= 0 && size % 2 == 0 ==> r % 32 == 0
    ensures p >= 0 && size % 2 == 1 ==> r % 32 == 16
  {
    if size % 2 == 0 then
      var np := p - JsRem(p, 16);
      DownTo16(p);
      UpTo32(np);
      np + (if JsRem(np, 32) == 0 then 0 else 16)
    else
      TileCentre(p);
      p - JsRem(p, 32) + 16
  }

  /** `p - p % m` in JavaScript is a multiple of `m`: the quotient truncated
      toward zero. */
  lemma TruncatedQuotient(p: int, m: int) returns (q: int)
    requires m > 0
    ensures p - JsRem(p, m) == m * q
    ensures p >= 0 ==> q == p / m
  {
    if p >= 0 {
      q := p / m;
    } else {
      q := -((-p) / m);
    }
  }

  lemma Mod16(q: int, k: int)
    requires 0 <= k < 16
    ensures (16 * q + k) % 16 == k
  {
  }

  lemma Mod32(q: int, k: int)
    requires 0 <= k < 32
    ensures (32 * q + k) % 32 == k
  {
  }

  lemma Mod64(q: int, k: int)
    requires 0 <= k < 64
    ensures (64 * q + k) % 64 == k
  {
  }

  lemma DownTo16(p: int)
    ensures (p - JsRem(p, 16)) % 16 == 0
    ensures p >= 0 ==> p - 16 < p - JsRem(p, 16) <= p
  {
    var q := TruncatedQuotient(p, 16);
    Mod16(q, 0);
  }

  lemma UpTo32(np: int)
    requires np % 16 == 0
    ensures var r := np + (if JsRem(np, 32) == 0 then 0 else 16);
            && r % 16 == 0
            && (np >= 0 ==> r % 32 == 0 && np <= r <= np + 16)
  {
    var q := np / 16;
    assert np == 16 * q;
    var h, b := q / 2, q % 2;
    assert np == 32 * h + 16 * b;
    var r := np + (if JsRem(np, 32) == 0 then 0 else 16);
    if np >= 0 {
      Mod32(h, 16 * b);
      if b == 0 {
        Mod32(h, 0);
        assert r == 32 * h;
      } else {
        Mod32(h + 1, 0);
        assert r == 32 * (h + 1);
      }
    }
    if r == np {
      Mod16(q, 0);
    } else {
      Mod16(q + 1, 0);
    }
  }

  lemma TileCentre(p: int)
    ensures var r := p - JsRem(p, 32) + 16;
            && r % 16 == 0
            && (p >= 0 ==> r % 32 == 16 && p - 16 < r <= p + 16)
  {
    var q := TruncatedQuotient(p, 32);
    Mod16(2 * q + 1, 0);
    Mod32(q, 16);
  }

  /** `getPositionFromData(currentPos, size)`. */
  function GetPositionFromData(current: Point, size: Size): (r: Point)
    ensures r.x % 16 == 0 && r.y % 16 == 0
  {
    Point(SnapCoordinate(current.x, size.x), SnapCoordinate(current.y, size.y))
  }

  /** Snapping an already snapped coordinate changes nothing. */
  lemma SnapIdempotent(p: int, size: nat)
    requires p >= 0
    ensures SnapCoordinate(SnapCoordinate(p, size), size) == SnapCoordinate(p, size)
  {
  }

  /** A snapped position puts the footprint's left edge on a tile line: in half
      tiles the centre minus the size is even. */
  lemma SnapAlignsFootprint(p: int, size: nat)
    requires p >= 0
    ensures (SnapCoordinate(p, size) / 16 - size) % 2 == 0
  {
    var r := SnapCoordinate(p, size);
    if size % 2 == 0 {
      assert r % 32 == 0;
      assert (r / 16) % 2 == 0;
    } else {
      assert r % 32 == 16;
      assert (r / 16) % 2 == 1;
    }
  }

  /** `getPositionFromData` on non-negative pixels: each coordinate is a multiple
      of 32 for an even size and 16 more than one for an odd size, lies within 16
      pixels of the input, and snapping twice is snapping once. */
  lemma GetPositionFromDataProperties(current: Point, size: Size)
    requires current.x >= 0 && current.y >= 0
    ensures var r := GetPositionFromData(current, size);
            && r.x % 32 == (if size.x % 2 == 0 then 0 else 16)
            && r.y % 32 == (if size.y % 2 == 0 then 0 else 16)
            && current.x - 16 < r.x <= current.x + 16
            && current.y - 16 < r.y <= current.y + 16
            && GetPositionFromData(r, size) == r
  {
    SnapIdempotent(current.x, size.x);
    SnapIdempotent(current.y, size.y);
  }

  /** `isContainerOutOfBpArea(newPos, size)` with `newPos` in half tiles and the
      blueprint's width and height in tiles: true exactly when the footprint
      centred on `newPos` leaves the blueprint rectangle. */
  function IsContainerOutOfBpArea(newPos: Pos, size: Size, width: int, height: int): (r: bool)
    ensures r <==> !AreaWithin(Area(newPos, size.x, size.y), width, height)
  {
    newPos.x - size.x < 0 || newPos.y - size.y < 0 || newPos.x + size.x > 2 * width || newPos.y + size.y > 2 * height
  }

  /** An entity is out of the blueprint area exactly when one of its corners is. */
  lemma OutOfBpAreaByCorners(cat: Catalog, e: Snapshot, width: int, height: int)
    ensures IsContainerOutOfBpArea(e.position, EntitySize(cat, e), width, height) <==>
            (TopLeft(cat, e).x < 0 || TopLeft(cat, e).y < 0 ||
             BottomRight(cat, e).x > 2 * width || BottomRight(cat, e).y > 2 * height)
  {
    CornersBoundTheArea(cat, e);
  }

  /** `getGridPosition` on a container position: pixels divided by 32 give tiles,
      so pixels divided by 16 give half tiles. Container positions are always
      multiples of 16, where the source's rounding to a tenth of a tile is exact. */
  function GridPosition(p: Point): (r: Pos)
    requires p.x % 16 == 0 && p.y % 16 == 0
    ensures 16 * r.x == p.x && 16 * r.y == p.y
  {
    Pos(p.x / 16, p.y / 16)
  }

  /** The 16-pixel cell under the cursor: `(p - p % 16) / 16`. */
  function CursorCell(p: Point): (c: Cell)
    ensures p.x >= 0 ==> c.x == p.x / 16
    ensures p.y >= 0 ==> c.y == p.y / 16
  {
    Cell((p.x - JsRem(p.x, 16)) / 16, (p.y - JsRem(p.y, 16)) / 16)
  }

  /** One coordinate of the rail snap in `moveTo`, with the rail offset given in
      half tiles (16 pixels each): the result is 32 pixels past a multiple of 64
      counted from the offset. */
  function RailCoordinate(p: int, offset: int): (r: int)
    ensures r % 16 == 0
    ensures p + 16 * offset >= 0 ==> (r + 16 * offset) % 64 == 32 && p - 32 < r <= p + 32
  {
    RailGrid(p + 16 * offset, 16 * offset);
    p - JsRem(p + 16 * offset, 64) + 32
  }

  lemma RailGrid(q: int, shift: int)
    requires shift % 16 == 0
    ensures var r := q - shift - JsRem(q, 64) + 32;
            && r % 16 == 0
            && (q >= 0 ==> (r + shift) % 64 == 32 && q - shift - 32 < r <= q - shift + 32)
  {
    var t := TruncatedQuotient(q, 64);
    var c := shift / 16;
    assert shift == 16 * c;
    Mod16(4 * t - c + 2, 0);
    Mod64(t, 32);
  }

  /** Where `moveTo` puts a container: rails and train stops snap to the 64-pixel
      rail grid, everything else by `getPositionFromData`. */
  function MoveTarget(cat: Catalog, e: Snapshot, p: Point, railOffset: Pos): (r: Point)
    ensures r.x % 16 == 0 && r.y % 16 == 0
  {
    if e.name == StraightRail || e.name == CurvedRail || e.name == TrainStop
    then Point(RailCoordinate(p.x, railOffset.x), RailCoordinate(p.y, railOffset.y))
    else GetPositionFromData(p, EntitySize(cat, e))
  }

  // ---------------------------------------------------------------------------
  // Underground belts

  /** `(d + 4) % 8` as JavaScript computes it. */
  function Opposite(d: int): int {
    JsRem(d + 4, 8)
  }

  /** The direction `rotate` searches for an underground partner in: the facing
      direction for an input belt, the opposite one otherwise. */
  function SearchDirection(e: Snapshot): int {
    if e.directionType == Some(Input) then Direction(e) else Opposite(Direction(e))
  }

  /** The direction `updateUndergroundLines` draws the indicator towards: the
      opposite one for an output belt or a pipe-to-ground, the facing one
      otherwise. */
  function UndergroundLineDirection(e: Snapshot): int {
    if e.directionType == Some(Output) || e.name == PipeToGround then Opposite(Direction(e)) else Direction(e)
  }

  /** For an underground belt with a role, the partner search looks where the
      underground-line indicator points; both stay in 0..7. */
  lemma PartnerSearchFollowsUndergroundLine(e: Snapshot)
    requires e.name != PipeToGround && e.directionType.Some? && 0 <= Direction(e) < 8
    ensures SearchDirection(e) == UndergroundLineDirection(e)
    ensures 0 <= SearchDirection(e) < 8
    ensures e.directionType == Some(Input) ==> SearchDirection(e) == Direction(e)
    ensures e.directionType == Some(Output) ==> SearchDirection(e) == (Direction(e) + 4) % 8
  {
    if e.directionType.value == Output {
      assert e.directionType == Some(Output);
    }
  }

  /** `findEntityWithSameNameAndDirection` as `rotate` calls it. */
  function PartnerSearch(cat: Catalog, grid: GridQueries, e: Snapshot): Option<int> {
    grid.findSameNameAndDirection(e.name, Direction(e), e.position, SearchDirection(e), cat.entity(e.name).maxDistance)
  }

  /** The grid reports only stored entities as partners (the source reads the
      partner from the store without a check). */
  predicate PartnerStored(cat: Catalog, grid: GridQueries, state: MouseState, m: map<int, Snapshot>, e: Snapshot) {
    state == Idle && Kind(cat, e) == UndergroundBelt && PartnerSearch(cat, grid, e).Some? ==>
      PartnerSearch(cat, grid, e).value in m
  }

  /** The partner `rotate` turns along with an underground belt: only while
      idle, only one the grid finds, and not one with the same role. */
  function RotationPartner(cat: Catalog, grid: GridQueries, state: MouseState, m: map<int, Snapshot>, e: Snapshot)
    : (r: Option<int>)
    requires PartnerStored(cat, grid, state, m, e)
    ensures r.Some? ==> && state == Idle && Kind(cat, e) == UndergroundBelt
                        && r == PartnerSearch(cat, grid, e) && r.value in m
                        && m[r.value].directionType != e.directionType
    ensures r.None? && state == Idle && Kind(cat, e) == UndergroundBelt && PartnerSearch(cat, grid, e).Some? ==>
              m[PartnerSearch(cat, grid, e).value].directionType == e.directionType
  {
    if state == Idle && Kind(cat, e) == UndergroundBelt then
      var found := PartnerSearch(cat, grid, e);
      if found.Some? && m[found.value].directionType != e.directionType then found else None
    else None
  }

  // ---------------------------------------------------------------------------
  // Pasting

  /** The copied recipe when the entity accepts it, undefined otherwise. */
  function RecipeToPaste(copied: Option<string>, accepted: Option<seq<string>>): (r: Option<string>)
    ensures r.Some? ==> r == copied && Truthy(r) && accepted.Some? && r.value in accepted.value
    ensures r.None? ==> !(Truthy(copied) && accepted.Some? && copied.value in accepted.value)
  {
    if Truthy(copied) && accepted.Some? && copied.value in accepted.value then copied else None
  }

  /** `s` is `t` with some elements left out, order kept. */
  predicate Subsequence(s: seq<string>, t: seq<string>)
    decreases |t|
  {
    s == [] || (t != [] && (if s[0] == t[0] then Subsequence(s[1..], t[1..]) else Subsequence(s, t[1..])))
  }

  /** The copied modules the entity accepts, in copy order. */
  function KeepAccepted(list: seq<string>, accepted: seq<string>): seq<string> {
    if list == [] then []
    else (if list[0] in accepted then [list[0]] else []) + KeepAccepted(list[1..], accepted)
  }

  /** The filter keeps each accepted element as often as the copy holds it, and
      nothing else. */
  lemma {:induction false} KeepAcceptedCounts(list: seq<string>, accepted: seq<string>)
    ensures forall m :: multiset(KeepAccepted(list, accepted))[m] == if m in accepted then multiset(list)[m] else 0
  {
    if list != [] {
      KeepAcceptedCounts(list[1..], accepted);
      assert list == [list[0]] + list[1..];
      assert multiset(list) == multiset{list[0]} + multiset(list[1..]);
    }
  }

  /** The filter keeps the copy order. */
  lemma {:induction false} KeepAcceptedOrder(list: seq<string>, accepted: seq<string>)
    ensures forall m :: m in KeepAccepted(list, accepted) ==> m in accepted
    ensures Subsequence(KeepAccepted(list, accepted), list)
  {
    if list != [] {
      var rest := KeepAccepted(list[1..], accepted);
      KeepAcceptedOrder(list[1..], accepted);
      if list[0] in accepted {
        assert KeepAccepted(list, accepted) == [list[0]] + rest;
      } else {
        assert KeepAccepted(list, accepted) == rest;
        assert rest == [] || rest[0] != list[0];
      }
    }
  }

  /** The filter keeps exactly the accepted elements, each as often as the copy
      holds it, in copy order. */
  lemma KeepAcceptedSpec(list: seq<string>, accepted: seq<string>)
    ensures var r := KeepAccepted(list, accepted);
            && (forall m :: m in r ==> m in accepted && m in list)
            && (forall m :: multiset(r)[m] == if m in accepted then multiset(list)[m] else 0)
            && Subsequence(r, list)
            && |r| <= |list|
  {
    var r := KeepAccepted(list, accepted);
    KeepAcceptedCounts(list, accepted);
    KeepAcceptedOrder(list, accepted);
    assert multiset(r) <= multiset(list);
    assert |multiset(list)| == |multiset(r)| + |multiset(list) - multiset(r)| by {
      assert multiset(list) == multiset(r) + (multiset(list) - multiset(r));
    }
    forall m | m in r ensures m in list {
      assert m in multiset(r);
    }
  }

  lemma {:induction false} KeepAcceptedSnoc(list: seq<string>, m: string, accepted: seq<string>)
    ensures KeepAccepted(list + [m], accepted) == KeepAccepted(list, accepted) + (if m in accepted then [m] else [])
  {
    if list != [] {
      assert (list + [m])[1..] == list[1..] + [m];
      KeepAcceptedSnoc(list[1..], m, accepted);
    }
  }

  /** The module list `pasteData` writes: the accepted copied modules cut to the
      number of module slots, or nothing when no module is accepted or nothing
      was copied. */
  function PastedModules(copied: Option<seq<string>>, accepted: Option<seq<string>>, slots: nat): (r: seq<string>)
    ensures |r| <= slots
    ensures forall m :: m in r ==> && accepted.Some? && m in accepted.value
                                   && copied.Some? && m in copied.value
  {
    if accepted.Some? && copied.Some? && |copied.value| != 0 then
      var filtered := KeepAccepted(copied.value, accepted.value);
      KeepAcceptedSpec(copied.value, accepted.value);
      if |filtered| > slots then
        assert forall m :: m in filtered[..slots] ==> m in filtered;
        filtered[..slots]
      else filtered
    else []
  }

  /** The filtering loop of `pasteData`. */
  method ModulesToPaste(copied: Option<seq<string>>, accepted: Option<seq<string>>, slots: nat)
    returns (list: seq<string>)
    ensures list == PastedModules(copied, accepted, slots)
    ensures |list| <= slots
    ensures forall m :: m in list ==> accepted.Some? && m in accepted.value
    ensures accepted.None? || copied.None? || |copied.value| == 0 ==> list == []
    ensures accepted.Some? && copied.Some? ==> list <= KeepAccepted(copied.value, accepted.value)
    ensures accepted.Some? && copied.Some? && |KeepAccepted(copied.value, accepted.value)| <= slots ==>
              list == KeepAccepted(copied.value, accepted.value)
  {
    if accepted.Some? && copied.Some? && |copied.value| != 0 {
      var filtered: seq<string> := [];
      for i := 0 to |copied.value|
        invariant filtered == KeepAccepted(copied.value[..i], accepted.value)
      {
        KeepAcceptedSnoc(copied.value[..i], copied.value[i], accepted.value);
        assert copied.value[..i + 1] == copied.value[..i] + [copied.value[i]];
        if copied.value[i] in accepted.value {
          filtered := filtered + [copied.value[i]];
        }
      }
      assert copied.value[..|copied.value|] == copied.value;
      list := if |filtered| > slots then filtered[..slots] else filtered;
    } else {
      list := [];
    }
  }

  /** What `pasteData` leaves in the entity: the pasted module list as a count
      dictionary, then the pasted recipe through the recipe setter when it
      differs from the current one. */
  function PastedEntity(cat: Catalog, e: Snapshot, copy: CopyData): Snapshot {
    var withModules := WithPastedModules(cat, e, copy);
    var recipe := RecipeToPaste(copy.recipe, AcceptedRecipes(cat, e));
    if e.recipe != recipe then RecipeChanged(cat, withModules, recipe) else withModules
  }

  /** The entity after the first write of `pasteData`, the module list. */
  function WithPastedModules(cat: Catalog, e: Snapshot, copy: CopyData): Snapshot {
    var slots := if cat.entity(e.name).moduleSlots.Some? then cat.entity(e.name).moduleSlots.value else 0;
    e.(items := Some(Tally(PastedModules(copy.modules, AcceptedModules(cat, e), slots))))
  }

  /** The history entries `pasteData` appends to a store holding `m`: a
      `Changed modules` entry for entity `n`, then a `Changed recipe` entry from
      that version to the final one when the pasted recipe differs. */
  function PasteHistory(cat: Catalog, m: map<int, Snapshot>, n: int, copy: CopyData): seq<HistoryEntry>
    requires n in m
  {
    var e := m[n];
    var mid := m[n := WithPastedModules(cat, e, copy)];
    var recipe := RecipeToPaste(copy.recipe, AcceptedRecipes(cat, e));
    [HistoryEntry([n], ChangedModules, Untagged, m, mid)] +
    (if e.recipe != recipe
     then [HistoryEntry([n], ChangedRecipe, Untagged, mid, m[n := PastedEntity(cat, e, copy)])]
     else [])
  }

  /** Lower counts flatten to a sub-multiset. */
  lemma FlattenSubMultiset(a: seq<ModuleCount>, b: seq<ModuleCount>)
    requires forall k :: CountOf(a, k) <= CountOf(b, k)
    ensures multiset(Flatten(a)) <= multiset(Flatten(b))
    ensures |Flatten(a)| <= |Flatten(b)|
  {
    forall k ensures multiset(Flatten(a))[k] <= multiset(Flatten(b))[k] {
      FlattenCounts(a, k);
      FlattenCounts(b, k);
    }
    var A, B := multiset(Flatten(a)), multiset(Flatten(b));
    assert B == A + (B - A);
    assert |B| == |A| + |B - A|;
  }

  /** The recipe setter never raises a module count. */
  lemma RecipeChangeKeepsCountsBelow(cat: Catalog, e: Snapshot, recipe: Option<string>)
    requires e.items.Some?
    ensures var after := RecipeChanged(cat, e, recipe).items;
            forall k :: CountOf(if after.Some? then after.value else [], k) <= CountOf(e.items.value, k)
  {
  }

  /** After a paste the entity holds only the copied recipe when it accepts it,
      and at most `module_slots` modules, each one the entity accepted and each
      taken from the copied list. */
  lemma PasteRespectsAcceptance(cat: Catalog, e: Snapshot, copy: CopyData)
    ensures var p := PastedEntity(cat, e, copy);
            && p.recipe == RecipeToPaste(copy.recipe, AcceptedRecipes(cat, e))
            && (p.recipe.Some? ==> p.recipe.value in AcceptedRecipes(cat, e).value)
            && (ModulesList(p).Some? ==>
                  && (forall m :: m in ModulesList(p).value ==>
                        AcceptedModules(cat, e).Some? && m in AcceptedModules(cat, e).value && m in copy.modules.value)
                  && |ModulesList(p).value| <= (if cat.entity(e.name).moduleSlots.Some?
                                                then cat.entity(e.name).moduleSlots.value else 0))
  {
    var slots := if cat.entity(e.name).moduleSlots.Some? then cat.entity(e.name).moduleSlots.value else 0;
    var modules := PastedModules(copy.modules, AcceptedModules(cat, e), slots);
    var tally := Tally(modules);
    var withModules := WithPastedModules(cat, e, copy);
    var p := PastedEntity(cat, e, copy);
    if p.items.Some? {
      var items := p.items.value;
      if p != withModules {
        RecipeChangeKeepsCountsBelow(cat, withModules, p.recipe);
      }
      assert forall k :: CountOf(items, k) <= CountOf(tally, k);
      FlattenSubMultiset(items, tally);
      ModulesListRoundTrip(e, modules);
      assert multiset(Flatten(items)) <= multiset(modules);
      assert |Flatten(tally)| == |modules|;
      forall m | m in Flatten(items) ensures m in modules {
        assert m in multiset(modules);
      }
    }
  }

  // ---------------------------------------------------------------------------
  // Neighbour redraw

  /** Entity `k` is redrawn on behalf of update group `group` when `e` changes:
      the group lists `e`'s name; for a straight rail, `k` overlaps it and is a
      gate; otherwise `k` surrounds it and its name is one the group updates. */
  predicate RedrawnBy(cat: Catalog, grid: GridQueries, m: map<int, Snapshot>, e: Snapshot, group: UpdateGroup, k: int) {
    && e.name in group.members
    && k in m
    && (if e.name == StraightRail
        then k in grid.overlapping(GetArea(cat, e, None)) && m[k].name == Gate
        else k in grid.surrounding(GetArea(cat, e, None)) && m[k].name in group.updates)
  }

  predicate NoDuplicates(s: seq<int>) {
    forall i, j :: 0 <= i < j < |s| ==> s[i] != s[j]
  }

  // ---------------------------------------------------------------------------
  // Controller state and containers

  /** The controller's global state (`G`): the mouse state, the single moving
      container, the cursor cell, the copied settings, the blueprint and its
      area in tiles. */
  class Editor {
    var mouseState: MouseState
    var movingContainer: EntityContainer?
    var gridCoords16: Cell
    var copyData: CopyData
    const bp: Blueprint
    const bpWidth: int
    const bpHeight: int

    /** A container is being moved exactly when the mouse state is moving. */
    predicate StateConsistent()
      reads this
    {
      (mouseState == Moving) == (movingContainer != null)
    }

    constructor (bp: Blueprint, width: int, height: int)
      ensures StateConsistent()
      ensures this.bp == bp && bpWidth == width && bpHeight == height
      ensures mouseState == Idle && movingContainer == null
      ensures gridCoords16 == Cell(0, 0) && copyData == CopyData(None, None)
    {
      this.bp := bp;
      bpWidth := width;
      bpHeight := height;
      mouseState := Idle;
      movingContainer := null;
      gridCoords16 := Cell(0, 0);
      copyData := CopyData(None, None);
    }
  }

  /** The container of one entity: its entity number and its position in pixels. */
  class EntityContainer {
    const entityNumber: int
    const g: Editor
    var x: int
    var y: int

    /** The container sits on the 16-pixel grid and its entity is in the store. */
    ghost predicate Valid()
      reads this, g, g.bp
    {
      x % 16 == 0 && y % 16 == 0 && g.bp.Valid() && entityNumber in g.bp.entities
    }

    /** The container's entity snapshot. */
    function Entity(): Snapshot
      reads this, g, g.bp
      requires Valid()
    {
      g.bp.entities[entityNumber]
    }

    /** The container is placed at its entity's position, 16 pixels per half tile. */
    constructor (g: Editor, n: int)
      requires g.bp.Valid() && n in g.bp.entities
      ensures Valid() && this.g == g && entityNumber == n
      ensures x == 16 * g.bp.entities[n].position.x && y == 16 * g.bp.entities[n].position.y
    {
      entityNumber := n;
      this.g := g;
      x := 16 * g.bp.entities[n].position.x;
      y := 16 * g.bp.entities[n].position.y;
    }

    /** The drop of `placeEntityContainerDown` goes through: the footprint at
        the container's grid position is inside the blueprint, the mouse is
        moving, and `move` finds no overlap. */
    predicate DropAccepted(cat: Catalog, grid: GridQueries)
      reads this, g, g.bp
      requires Valid()
    {
      var e := Entity();
      var pos := GridPosition(Point(x, y));
      && !IsContainerOutOfBpArea(pos, EntitySize(cat, e), g.bpWidth, g.bpHeight)
      && g.mouseState == Moving
      && grid.noOverlap(e.name, Direction(e), pos)
    }

    /** `placeEntityContainerDown`: when the drop goes through, the entity is
        moved to the container's grid position, the grid records it there and
        the controller returns to idle with no moving container; otherwise
        nothing changes. */
    method PlaceEntityContainerDown(cat: Catalog, grid: GridQueries)
      requires Valid()
      modifies g, g.bp
      ensures Valid()
      ensures old(g.StateConsistent()) ==> g.StateConsistent()
      ensures g.copyData == old(g.copyData) && g.gridCoords16 == old(g.gridCoords16)
      ensures old(DropAccepted(cat, grid)) ==>
        && g.mouseState == Idle && g.movingContainer == null
        && g.bp.entities == old(g.bp.entities)[entityNumber := old(Entity()).(position := GridPosition(Point(x, y)))]
        && g.bp.tiles == old(g.bp.tiles)[entityNumber := GetArea(cat, Entity(), None)]
        && g.bp.history == old(g.bp.history) +
             [HistoryEntry([entityNumber], MovedEntity, Mov, old(g.bp.entities), g.bp.entities)]
      ensures !old(DropAccepted(cat, grid)) ==>
        && g.mouseState == old(g.mouseState) && g.movingContainer == old(g.movingContainer)
        && g.bp.entities == old(g.bp.entities) && g.bp.history == old(g.bp.history) && g.bp.tiles == old(g.bp.tiles)
    {
      var e := g.bp.entities[entityNumber];
      var position := GridPosition(Point(x, y));
      if IsContainerOutOfBpArea(position, EntitySize(cat, e), g.bpWidth, g.bpHeight) {
        return;
      }
      if g.mouseState == Moving {
        var moved := Move(g.bp, cat, grid, entityNumber, position);
        if moved {
          g.movingContainer := null;
          g.mouseState := Idle;
        }
      }
    }

    /** `moveTo` goes through: this is the moving container, the mouse is moving,
        and the cursor has entered another 16-pixel cell. */
    predicate MoveApplies(p: Point)
      reads this, g
    {
      g.movingContainer == this && g.mouseState == Moving && CursorCell(p) != g.gridCoords16
    }

    /** `moveTo(newPosition)`: when it applies, the container jumps to the snapped
        position and the cursor cell is recorded; otherwise nothing changes. The
        store and the grid are never touched. */
    method MoveTo(cat: Catalog, newPosition: Point, railOffset: Pos)
      requires Valid()
      modifies this, g
      ensures Valid()
      ensures old(g.StateConsistent()) ==> g.StateConsistent()
      ensures g.mouseState == old(g.mouseState) && g.movingContainer == old(g.movingContainer)
      ensures g.copyData == old(g.copyData)
      ensures old(MoveApplies(newPosition)) ==>
                Point(x, y) == MoveTarget(cat, Entity(), newPosition, railOffset) && g.gridCoords16 == CursorCell(newPosition)
      ensures !old(MoveApplies(newPosition)) ==>
                x == old(x) && y == old(y) && g.gridCoords16 == old(g.gridCoords16)
    {
      if g.movingContainer == this && g.mouseState == Moving {
        var cell := CursorCell(newPosition);
        if cell != g.gridCoords16 {
          var target := MoveTarget(cat, g.bp.entities[entityNumber], newPosition, railOffset);
          x, y := target.x, target.y;
          g.gridCoords16 := cell;
        }
      }
    }

    /** The offset `rotate` passes, in half tiles: +1 on an axis where the
        container's 16-pixel cell is the cursor's, -1 otherwise. */
    function RotationOffset(): Pos
      reads this, g
    {
      Pos(if x / 16 - g.gridCoords16.x == 0 then 1 else -1, if y / 16 - g.gridCoords16.y == 0 then 1 else -1)
    }

    /** `rotate`: while idle an underground belt first turns its partner (without
        a history entry) unless the partner has the same role; then the entity
        itself turns in one operation naming both, logged only while idle.
        While moving, an accepted turn of a non-square entity shifts the
        container by the offset and snaps it again. The grid is not touched. */
    method Rotate(cat: Catalog, grid: GridQueries)
      requires Valid()
      requires PartnerStored(cat, grid, g.mouseState, g.bp.entities, Entity())
      modifies this, g.bp
      ensures Valid()
      ensures g.bp.tiles == old(g.bp.tiles)
      ensures var partner := old(RotationPartner(cat, grid, g.mouseState, g.bp.entities, Entity()));
              var afterPartner := if partner.Some? then RotateInStore(cat, grid, old(g.bp.entities), partner.value, true, Pos(0, 0))
                                  else old(g.bp.entities);
              var idle := old(g.mouseState) == Idle;
              var offset := old(RotationOffset());
              var accepted := Rotated(cat, grid, afterPartner[entityNumber], idle, offset).Some?;
              && g.bp.entities == RotateInStore(cat, grid, afterPartner, entityNumber, idle, offset)
              && g.bp.history == old(g.bp.history) +
                   (if accepted && idle
                    then [HistoryEntry(RotationIds(entityNumber, partner), RotatedEntity, Upd, afterPartner, g.bp.entities)]
                    else [])
              && (if accepted && old(g.mouseState) == Moving && !IsSquare(EntitySize(cat, Entity()))
                  then Point(x, y) == GetPositionFromData(Point(old(x) + 16 * offset.x, old(y) + 16 * offset.y),
                                                         EntitySize(cat, Entity()))
                  else x == old(x) && y == old(y))
    {
      var offset := RotationOffset();
      var e := g.bp.entities[entityNumber];
      var partner := RotationPartner(cat, grid, g.mouseState, g.bp.entities, e);
      if partner.Some? {
        var _ := EntityRecord.Rotate(g.bp, cat, grid, partner.value, true, Pos(0, 0), false, None);
      }
      var idle := g.mouseState == Idle;
      var ok := EntityRecord.Rotate(g.bp, cat, grid, entityNumber, idle, offset, true, partner);
      if ok && g.mouseState == Moving {
        var size := EntitySize(cat, g.bp.entities[entityNumber]);
        if !IsSquare(size) {
          var pos := GetPositionFromData(Point(x + 16 * offset.x, y + 16 * offset.y), size);
          x, y := pos.x, pos.y;
        }
      }
    }

    /** `pasteData`: the copied module list, filtered and cut to the slots, is
        written first, then the copied recipe if the entity accepts it (or
        undefined) when it differs from the current one. */
    method PasteData(cat: Catalog)
      requires Valid()
      modifies g.bp
      ensures Valid()
      ensures g.bp.entities == old(g.bp.entities)[entityNumber := PastedEntity(cat, old(Entity()), g.copyData)]
      ensures g.bp.tiles == old(g.bp.tiles)
      ensures g.bp.history == old(g.bp.history) + PasteHistory(cat, old(g.bp.entities), entityNumber, g.copyData)
    {
      var e := g.bp.entities[entityNumber];
      var recipe := RecipeToPaste(g.copyData.recipe, AcceptedRecipes(cat, e));
      var accepted := AcceptedModules(cat, e);
      var slots := if cat.entity(e.name).moduleSlots.Some? then cat.entity(e.name).moduleSlots.value else 0;
      var modules := ModulesToPaste(g.copyData.modules, accepted, slots);
      ghost var before := g.bp.entities;
      ghost var withModules := WithPastedModules(cat, e, g.copyData);
      ghost var log := g.bp.history;
      SetModulesList(g.bp, entityNumber, modules);
      ghost var mid := g.bp.entities;
      assert mid == before[entityNumber := withModules];
      if e.recipe != recipe {
        SetRecipe(g.bp, cat, entityNumber, recipe);
        assert g.bp.entities == before[entityNumber := RecipeChanged(cat, withModules, recipe)];
        assert g.bp.history == log + [HistoryEntry([entityNumber], ChangedModules, Untagged, before, mid)]
                                   + [HistoryEntry([entityNumber], ChangedRecipe, Untagged, mid, g.bp.entities)];
      }
    }

    /** `pointerDownEventHandler` for the left (0), middle (1) and right (2)
        buttons: Shift + left click pastes; a middle click picks up a container
        that is not moving while idle, or drops the moving one while moving;
        Shift + right click while idle copies the recipe and module list. */
    method PointerDown(cat: Catalog, grid: GridQueries, button: int, shift: bool, cursor: Point)
      requires Valid()
      modifies this, g, g.bp
      ensures Valid()
      ensures old(g.StateConsistent()) ==> g.StateConsistent()
      ensures button == 0 && shift ==>
        && g.bp.entities == old(g.bp.entities)[entityNumber := PastedEntity(cat, old(Entity()), old(g.copyData))]
        && g.bp.history == old(g.bp.history) + PasteHistory(cat, old(g.bp.entities), entityNumber, old(g.copyData))
        && g.bp.tiles == old(g.bp.tiles)
        && g.copyData == old(g.copyData) && g.gridCoords16 == old(g.gridCoords16)
        && g.mouseState == old(g.mouseState) && g.movingContainer == old(g.movingContainer)
      ensures button == 1 && old(g.movingContainer) != this && old(g.mouseState) == Idle ==>
        && g.mouseState == Moving && g.movingContainer == this
        && g.bp.tiles == old(g.bp.tiles) - {entityNumber}
        && g.bp.entities == old(g.bp.entities) && g.bp.history == old(g.bp.history)
        && g.copyData == old(g.copyData)
        && Point(x, y) == GetPositionFromData(cursor, EntitySize(cat, Entity()))
        && g.gridCoords16 == CursorCell(cursor)
      ensures button == 1 && old(g.movingContainer) == this && old(g.mouseState) == Moving ==>
        && x == old(x) && y == old(y)
        && g.copyData == old(g.copyData) && g.gridCoords16 == old(g.gridCoords16)
        && (old(DropAccepted(cat, grid)) ==>
              && g.mouseState == Idle && g.movingContainer == null
              && g.bp.entities == old(g.bp.entities)[entityNumber := old(Entity()).(position := GridPosition(Point(x, y)))]
              && g.bp.tiles == old(g.bp.tiles)[entityNumber := GetArea(cat, Entity(), None)]
              && g.bp.history == old(g.bp.history) +
                   [HistoryEntry([entityNumber], MovedEntity, Mov, old(g.bp.entities), g.bp.entities)])
        && (!old(DropAccepted(cat, grid)) ==>
              && g.mouseState == Moving && g.movingContainer == this
              && g.bp.entities == old(g.bp.entities) && g.bp.history == old(g.bp.history)
              && g.bp.tiles == old(g.bp.tiles))
      ensures button == 2 && shift && old(g.mouseState) == Idle ==>
        && g.copyData == CopyData(old(Entity()).recipe, ModulesList(old(Entity())))
        && g.bp.entities == old(g.bp.entities) && g.bp.history == old(g.bp.history) && g.bp.tiles == old(g.bp.tiles)
        && g.mouseState == old(g.mouseState) && g.movingContainer == old(g.movingContainer)
        && g.gridCoords16 == old(g.gridCoords16) && x == old(x) && y == old(y)
      ensures !(button == 1 && old(g.movingContainer) != this && old(g.mouseState) == Idle) &&
              !(button == 1 && old(g.movingContainer) == this && old(g.mouseState) == Moving) ==>
        g.mouseState == old(g.mouseState) && g.movingContainer == old(g.movingContainer) && x == old(x) && y == old(y)
      ensures !(button == 0 && shift) && button != 1 && !(button == 2 && shift && old(g.mouseState) == Idle) ==>
        && g.bp.entities == old(g.bp.entities) && g.bp.history == old(g.bp.history) && g.bp.tiles == old(g.bp.tiles)
        && g.copyData == old(g.copyData) && g.gridCoords16 == old(g.gridCoords16)
      ensures button == 1 && !(old(g.movingContainer) != this && old(g.mouseState) == Idle) &&
              !(old(g.movingContainer) == this && old(g.mouseState) == Moving) ==>
        && g.bp.entities == old(g.bp.entities) && g.bp.history == old(g.bp.history) && g.bp.tiles == old(g.bp.tiles)
        && g.copyData == old(g.copyData) && g.gridCoords16 == old(g.gridCoords16)
    {
      if button == 0 {
        if shift {
          PasteData(cat);
        }
      } else if button == 1 {
        if g.movingContainer != this && g.mouseState == Idle {
          g.bp.RemoveTileData(entityNumber);
          g.movingContainer := this;
          g.mouseState := Moving;
          var pos := GetPositionFromData(cursor, EntitySize(cat, g.bp.entities[entityNumber]));
          x, y := pos.x, pos.y;
          g.gridCoords16 := CursorCell(cursor);
          return;
        }
        if g.movingContainer == this && g.mouseState == Moving {
          PlaceEntityContainerDown(cat, grid);
        }
      } else if button == 2 && g.mouseState == Idle {
        if shift {
          var e := g.bp.entities[entityNumber];
          g.copyData := CopyData(e.recipe, ModulesList(e));
        }
      }
    }

    /** `redrawSurroundingEntities`: the entity numbers redrawn, in order. Each
        neighbour is redrawn at most once, and exactly the neighbours some update
        group selects are redrawn. */
    method RedrawSurroundingEntities(cat: Catalog, grid: GridQueries, updateGroups: seq<UpdateGroup>)
      returns (redrawn: seq<int>)
      requires Valid()
      requires forall k :: k in grid.overlapping(GetArea(cat, Entity(), None)) ==> k in g.bp.entities
      requires forall k :: k in grid.surrounding(GetArea(cat, Entity(), None)) ==> k in g.bp.entities
      ensures NoDuplicates(redrawn)
      ensures forall k :: k in redrawn <==>
                exists i :: 0 <= i < |updateGroups| && RedrawnBy(cat, grid, g.bp.entities, Entity(), updateGroups[i], k)
    {
      var m := g.bp.entities;
      var e := m[entityNumber];
      var area := GetArea(cat, e, None);
      redrawn := [];
      for i := 0 to |updateGroups|
        invariant NoDuplicates(redrawn)
        invariant forall k :: k in redrawn <==> exists i' :: 0 <= i' < i && RedrawnBy(cat, grid, m, e, updateGroups[i'], k)
      {
        var group := updateGroups[i];
        if e.name in group.members {
          var visits := if e.name == StraightRail then grid.overlapping(area) else grid.surrounding(area);
          for j := 0 to |visits|
            invariant NoDuplicates(redrawn)
            invariant forall k :: k in redrawn <==>
                        (exists i' :: 0 <= i' < i && RedrawnBy(cat, grid, m, e, updateGroups[i'], k)) ||
                        (k in visits[..j] && RedrawnBy(cat, grid, m, e, group, k))
          {
            var k := visits[j];
            var name := m[k].name;
            var wanted := if e.name == StraightRail then name == Gate else name in group.updates;
            assert wanted <==> RedrawnBy(cat, grid, m, e, group, k);
            assert visits[..j + 1] == visits[..j] + [k];
            if wanted && k !in redrawn {
              redrawn := redrawn + [k];
            }
          }
          assert visits[..|visits|] == visits;
        }
      }
    }
  }
}
