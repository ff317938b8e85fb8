/** The entity record: a read facade over one snapshot of the blueprint store
    (derived size, corners, accepted recipes and modules, module list, wire
    neighbours), and the writes that go through `BP.operation` (recipe, modules,
    direction, name, move, rotate). */
module EntityRecord {
  import opened JsBase
  import opened Prototypes
  import opened PositionGrid
  import opened BlueprintStore

  // ---------------------------------------------------------------------------
  // Plain getters

  /** `direction` getter: a missing direction reads as 0. */
  function Direction(e: Snapshot): int {
    if e.direction.Some? then e.direction.value else 0
  }

  /** `type` getter: the prototype's type. */
  function Kind(cat: Catalog, e: Snapshot): string {
    cat.entity(e.name).kind
  }

  /** A direction a quarter or three quarters of a turn away from north. */
  predicate QuarterTurned(direction: int) {
    direction == 2 || direction == 6
  }

  predicate IsSquare(s: Size) {
    s.x == s.y
  }

  /** `size` getter: the prototype's size, with width and height exchanged on a
      quarter-turned direction. */
  function EntitySize(cat: Catalog, e: Snapshot): Size {
    var base := cat.entity(e.name).size;
    if QuarterTurned(Direction(e)) then Size(base.y, base.x) else base
  }

  /** The footprint's dimensions follow the direction: exchanged exactly when the
      direction is a quarter turn, the prototype's otherwise, and squareness does
      not depend on the direction. */
  lemma SizeFollowsDirection(cat: Catalog, e: Snapshot)
    ensures var base := cat.entity(e.name).size;
            && (base.x != base.y ==> (EntitySize(cat, e) == Size(base.y, base.x) <==> QuarterTurned(Direction(e))))
            && (!QuarterTurned(Direction(e)) ==> EntitySize(cat, e) == base)
            && (IsSquare(EntitySize(cat, e)) <==> IsSquare(base))
  {
  }

  /** `getArea(pos?)`: the footprint centred on `pos`, or on the entity's own
      position when no position is given. */
  function GetArea(cat: Catalog, e: Snapshot, pos: Option<Pos>): (a: Area)
    ensures a.center == (if pos.Some? then pos.value else e.position)
    ensures a.width == EntitySize(cat, e).x && a.height == EntitySize(cat, e).y
  {
    var s := EntitySize(cat, e);
    Area(if pos.Some? then pos.value else e.position, s.x, s.y)
  }

  /** `topLeft()`, in half tiles. */
  function TopLeft(cat: Catalog, e: Snapshot): Pos {
    Pos(e.position.x - EntitySize(cat, e).x, e.position.y - EntitySize(cat, e).y)
  }

  /** `topRight()`, in half tiles. */
  function TopRight(cat: Catalog, e: Snapshot): Pos {
    Pos(e.position.x + EntitySize(cat, e).x, e.position.y - EntitySize(cat, e).y)
  }

  /** `bottomLeft()`, in half tiles. */
  function BottomLeft(cat: Catalog, e: Snapshot): Pos {
    Pos(e.position.x - EntitySize(cat, e).x, e.position.y + EntitySize(cat, e).y)
  }

  /** `bottomRight()`, in half tiles. */
  function BottomRight(cat: Catalog, e: Snapshot): Pos {
    Pos(e.position.x + EntitySize(cat, e).x, e.position.y + EntitySize(cat, e).y)
  }

  /** The four corners are those of the entity's own area: they share edges
      pairwise, are symmetric about the position, and span exactly the size. */
  lemma CornersBoundTheArea(cat: Catalog, e: Snapshot)
    ensures var a := GetArea(cat, e, None);
            && TopLeft(cat, e) == AreaTopLeft(a) && BottomRight(cat, e) == AreaBottomRight(a)
            && TopRight(cat, e) == Pos(AreaBottomRight(a).x, AreaTopLeft(a).y)
            && BottomLeft(cat, e) == Pos(AreaTopLeft(a).x, AreaBottomRight(a).y)
            && TopLeft(cat, e).x + BottomRight(cat, e).x == 2 * e.position.x
            && TopLeft(cat, e).y + BottomRight(cat, e).y == 2 * e.position.y
            && BottomRight(cat, e).x - TopLeft(cat, e).x == 2 * EntitySize(cat, e).x
            && BottomRight(cat, e).y - TopLeft(cat, e).y == 2 * EntitySize(cat, e).y
  {
  }

  // ---------------------------------------------------------------------------
  // Accepted recipes

  /** The recipe's category is one of the machine's crafting categories, or it
      has none and the machine does plain crafting. */
  predicate InCraftingCategories(cc: seq<string>, category: Option<string>) {
    (category.Some? && category.value in cc) || (Crafting in cc && !Truthy(category))
  }

  /** The two hard-coded ingredient caps: at most 2 ingredients for
      assembling-machine-1, at most 4 for assembling-machine-2. */
  predicate ExceedsIngredientCap(name: string, ingredients: nat) {
    (name == AssemblingMachine1 && ingredients > 2) || (name == AssemblingMachine2 && ingredients > 4)
  }

  predicate RecipeAccepted(cat: Catalog, name: string, cc: seq<string>, k: string) {
    InCraftingCategories(cc, cat.recipe(k).category) && !ExceedsIngredientCap(name, Ingredients(cat.recipe(k)))
  }

  /** The loop of `acceptedRecipes` over the recipe keys, in key order. */
  function FilterRecipes(cat: Catalog, name: string, cc: seq<string>, keys: seq<string>): (r: seq<string>)
    ensures forall k :: k in r <==> k in keys && RecipeAccepted(cat, name, cc, k)
    ensures |r| <= |keys|
  {
    if keys == [] then []
    else
      var rest := FilterRecipes(cat, name, cc, keys[1..]);
      if RecipeAccepted(cat, name, cc, keys[0]) then [keys[0]] + rest else rest
  }

  /** `acceptedRecipes`: undefined without crafting categories; otherwise exactly
      the catalog's recipes in one of the categories that do not break the
      machine's ingredient cap. */
  function AcceptedRecipes(cat: Catalog, e: Snapshot): (r: Option<seq<string>>)
    ensures r.None? <==> cat.entity(e.name).craftingCategories.None?
    ensures r.Some? ==> forall k :: k in r.value <==>
      k in cat.recipeNames && InCraftingCategories(cat.entity(e.name).craftingCategories.value, cat.recipe(k).category)
      && !ExceedsIngredientCap(e.name, Ingredients(cat.recipe(k)))
  {
    var cc := cat.entity(e.name).craftingCategories;
    if cc.None? then None else Some(FilterRecipes(cat, e.name, cc.value, cat.recipeNames))
  }

  /** assembling-machine-1 never accepts a recipe with more than 2 ingredients,
      assembling-machine-2 never one with more than 4. */
  lemma AssemblerIngredientCaps(cat: Catalog, e: Snapshot, k: string)
    requires AcceptedRecipes(cat, e).Some? && k in AcceptedRecipes(cat, e).value
    ensures e.name == AssemblingMachine1 ==> Ingredients(cat.recipe(k)) <= 2
    ensures e.name == AssemblingMachine2 ==> Ingredients(cat.recipe(k)) <= 4
  {
  }

  // ---------------------------------------------------------------------------
  // Accepted modules

  /** A module whose name contains `productivity-module`. */
  predicate IsProductivityModule(k: string) {
    Includes(k, ProductivityModule)
  }

  /** Productivity modules are left out for a beacon, and for a machine whose
      recipe is set and not in the productivity module's limitation. */
  predicate OmitsProductivity(cat: Catalog, e: Snapshot) {
    e.name == Beacon || (Truthy(e.recipe) && e.recipe.value !in cat.productivityLimitation)
  }

  predicate ModuleAccepted(cat: Catalog, omitProductivity: bool, k: string) {
    cat.itemType(k) == ModuleItemType && !(IsProductivityModule(k) && omitProductivity)
  }

  /** The loop of `acceptedModules` over the item keys, in key order. */
  function FilterModules(cat: Catalog, omitProductivity: bool, keys: seq<string>): (r: seq<string>)
    ensures forall k :: k in r <==> k in keys && ModuleAccepted(cat, omitProductivity, k)
    ensures |r| <= |keys|
  {
    if keys == [] then []
    else
      var rest := FilterModules(cat, omitProductivity, keys[1..]);
      if ModuleAccepted(cat, omitProductivity, keys[0]) then [keys[0]] + rest else rest
  }

  /** `acceptedModules`: undefined without a module specification; otherwise
      module items only, all non-productivity modules, and the productivity
      modules exactly when productivity is not omitted. */
  function AcceptedModules(cat: Catalog, e: Snapshot): (r: Option<seq<string>>)
    ensures r.None? <==> cat.entity(e.name).moduleSlots.None?
    ensures r.Some? ==> forall k :: k in r.value ==> k in cat.itemNames && cat.itemType(k) == ModuleItemType
    ensures r.Some? ==> forall k :: k in cat.itemNames && cat.itemType(k) == ModuleItemType && !IsProductivityModule(k)
                                    ==> k in r.value
    ensures r.Some? ==> forall k :: k in cat.itemNames && cat.itemType(k) == ModuleItemType && IsProductivityModule(k)
                                    ==> (k in r.value <==> !OmitsProductivity(cat, e))
  {
    if cat.entity(e.name).moduleSlots.None? then None
    else Some(FilterModules(cat, OmitsProductivity(cat, e), cat.itemNames))
  }

  // ---------------------------------------------------------------------------
  // Module list and count dictionary

  function Repeat(name: string, n: nat): (r: seq<string>)
    ensures |r| == n
    ensures forall i :: 0 <= i < n ==> r[i] == name
  {
    if n == 0 then [] else [name] + Repeat(name, n - 1)
  }

  /** The loops of the `modulesList` getter: each key repeated by its count, in
      key order. */
  function Flatten(items: seq<ModuleCount>): seq<string> {
    if items == [] then [] else Repeat(items[0].name, items[0].count) + Flatten(items[1..])
  }

  /** `modulesList` getter: undefined when the entity has no `items`. */
  function ModulesList(e: Snapshot): (r: Option<seq<string>>)
    ensures r.None? <==> e.items.None?
  {
    if e.items.None? then None else Some(Flatten(e.items.value))
  }

  /** Total count recorded under `name`. */
  function CountOf(items: seq<ModuleCount>, name: string): nat {
    if items == [] then 0
    else (if items[0].name == name then items[0].count else 0) + CountOf(items[1..], name)
  }

  lemma {:induction false} RepeatMultiset(name: string, n: nat, k: string)
    ensures multiset(Repeat(name, n))[k] == if k == name then n else 0
  {
    if n > 0 {
      RepeatMultiset(name, n - 1, k);
    }
  }

  /** Flattening the count dictionary yields each name as often as it is counted. */
  lemma {:induction false} FlattenCounts(items: seq<ModuleCount>, k: string)
    ensures multiset(Flatten(items))[k] == CountOf(items, k)
  {
    if items != [] {
      RepeatMultiset(items[0].name, items[0].count, k);
      FlattenCounts(items[1..], k);
    }
  }

  /** The keys of a count dictionary. */
  function Names(items: seq<ModuleCount>): set<string> {
    if items == [] then {} else {items[0].name} + Names(items[1..])
  }

  /** No key occurs twice. */
  predicate DistinctNames(items: seq<ModuleCount>) {
    items == [] || (items[0].name !in Names(items[1..]) && DistinctNames(items[1..]))
  }

  /** Every count is positive. */
  predicate PositiveCounts(items: seq<ModuleCount>) {
    forall i :: 0 <= i < |items| ==> items[i].count > 0
  }

  /** One step of the setter's loop: increment the entry for `m`, or add it with
      count 1 when the dictionary has no such key. */
  function Bump(items: seq<ModuleCount>, m: string): (r: seq<ModuleCount>)
    ensures CountOf(r, m) == CountOf(items, m) + 1
    ensures forall k :: k != m ==> CountOf(r, k) == CountOf(items, k)
    ensures Names(r) == Names(items) + {m}
    ensures DistinctNames(items) ==> DistinctNames(r)
    ensures PositiveCounts(items) ==> PositiveCounts(r)
  {
    if items == [] then [ModuleCount(m, 1)]
    else if items[0].name == m then [items[0].(count := items[0].count + 1)] + items[1..]
    else [items[0]] + Bump(items[1..], m)
  }

  /** The count dictionary the `modulesList` setter builds from a list. */
  function Tally(list: seq<string>): seq<ModuleCount> {
    if list == [] then [] else Bump(Tally(list[..|list| - 1]), list[|list| - 1])
  }

  /** The dictionary built from a list has distinct keys, positive counts, and
      counts each name as often as the list holds it. */
  lemma {:induction false} TallyCounts(list: seq<string>)
    ensures DistinctNames(Tally(list))
    ensures PositiveCounts(Tally(list))
    ensures forall k :: CountOf(Tally(list), k) == multiset(list)[k]
  {
    if list != [] {
      var init, last := list[..|list| - 1], list[|list| - 1];
      TallyCounts(init);
      assert list == init + [last];
      forall k ensures CountOf(Tally(list), k) == multiset(list)[k] {
        assert multiset(list) == multiset(init) + multiset{last};
      }
    }
  }

  /** The `modulesList` setter's loop, building the count dictionary. */
  method CountModules(list: seq<string>) returns (counts: seq<ModuleCount>)
    ensures counts == Tally(list)
    ensures DistinctNames(counts)
    ensures forall k :: CountOf(counts, k) == multiset(list)[k]
  {
    counts := [];
    for i := 0 to |list|
      invariant counts == Tally(list[..i])
    {
      assert list[..i + 1][..i] == list[..i];
      counts := Bump(counts, list[i]);
    }
    assert list[..|list|] == list;
    TallyCounts(list);
  }

  /** Reading `modulesList` back after writing `L` gives a list with the same
      elements, each as often, as `L` (and so the same length). */
  lemma ModulesListRoundTrip(e: Snapshot, list: seq<string>)
    ensures var r := ModulesList(e.(items := Some(Tally(list))));
            r.Some? && multiset(r.value) == multiset(list) && |r.value| == |list|
  {
    var flat := Flatten(Tally(list));
    TallyCounts(list);
    forall k ensures multiset(flat)[k] == multiset(list)[k] {
      FlattenCounts(Tally(list), k);
    }
    assert multiset(flat) == multiset(list);
    assert |multiset(flat)| == |flat| && |multiset(list)| == |list|;
  }

  // ---------------------------------------------------------------------------
  // Recipe setter

  /** The `for ... delete` loop: drop every key containing `productivity-module`. */
  function DropProductivity(items: seq<ModuleCount>): (r: seq<ModuleCount>)
    ensures forall m :: m in r <==> m in items && !IsProductivityModule(m.name)
    ensures forall k :: CountOf(r, k) == if IsProductivityModule(k) then 0 else CountOf(items, k)
    ensures |r| <= |items|
  {
    if items == [] then []
    else
      var rest := DropProductivity(items[1..]);
      if IsProductivityModule(items[0].name) then rest else [items[0]] + rest
  }

  /** The `items` the recipe setter leaves: untouched unless the entity has items
      and the new recipe is set and outside the productivity limitation; in that
      case the productivity modules go, the other counts stay, and `items`
      becomes undefined when nothing is left. */
  function ItemsAfterRecipe(limitation: seq<string>, items: Option<seq<ModuleCount>>, recipe: Option<string>)
    : (r: Option<seq<ModuleCount>>)
    ensures !(items.Some? && Truthy(recipe) && recipe.value !in limitation) ==> r == items
    ensures items.Some? && Truthy(recipe) && recipe.value !in limitation ==>
      && (r.Some? ==> forall m :: m in r.value <==> m in items.value && !IsProductivityModule(m.name))
      && (r.None? <==> forall m :: m in items.value ==> IsProductivityModule(m.name))
      && (forall k :: !IsProductivityModule(k) ==>
            CountOf(if r.Some? then r.value else [], k) == CountOf(items.value, k))
      && (forall k :: IsProductivityModule(k) ==> CountOf(if r.Some? then r.value else [], k) == 0)
  {
    if items.Some? && Truthy(recipe) && recipe.value !in limitation then
      var kept := DropProductivity(items.value);
      if |kept| > 0 then Some(kept) else None
    else items
  }

  /** The snapshot the recipe setter writes. */
  function RecipeChanged(cat: Catalog, e: Snapshot, recipe: Option<string>): Snapshot {
    e.(recipe := recipe, items := ItemsAfterRecipe(cat.productivityLimitation, e.items, recipe))
  }

  /** After a recipe outside the limitation, no productivity module is left. */
  lemma RecipeOutsideLimitationLeavesNoProductivity(cat: Catalog, e: Snapshot, recipe: Option<string>)
    requires Truthy(recipe) && recipe.value !in cat.productivityLimitation
    ensures var after := RecipeChanged(cat, e, recipe);
            after.recipe == recipe &&
            (after.items.Some? ==> forall m :: m in after.items.value ==> !IsProductivityModule(m.name))
  {
  }

  // ---------------------------------------------------------------------------
  // Wire neighbours

  predicate LinksTo(sides: seq<SideLinks>, k: int) {
    exists s, c, w :: s in sides && c in s.colors && w in c.ends && w.entityId == k
  }

  function EndIds(ends: seq<WireEnd>): (r: seq<int>)
    ensures |r| == |ends|
    ensures forall k :: k in r <==> exists w :: w in ends && w.entityId == k
  {
    if ends == [] then []
    else
      var rest := EndIds(ends[1..]);
      assert forall w :: w in ends <==> w == ends[0] || w in ends[1..];
      [ends[0].entityId] + rest
  }

  function ColorIds(colors: seq<ColorLinks>): (r: seq<int>)
    ensures forall k :: k in r <==> exists c, w :: c in colors && w in c.ends && w.entityId == k
  {
    if colors == [] then []
    else
      var rest := ColorIds(colors[1..]);
      assert forall c :: c in colors <==> c == colors[0] || c in colors[1..];
      EndIds(colors[0].ends) + rest
  }

  function SideIds(sides: seq<SideLinks>): (r: seq<int>)
    ensures forall k :: k in r <==> LinksTo(sides, k)
  {
    if sides == [] then []
    else
      var rest := SideIds(sides[1..]);
      assert forall s :: s in sides <==> s == sides[0] || s in sides[1..];
      ColorIds(sides[0].colors) + rest
  }

  /** `connectedEntities`: undefined without connections; otherwise the entity
      ids of every wire end, side by side and colour by colour, so an id is
      listed exactly when some wire of the entity reaches it. */
  function ConnectedEntities(e: Snapshot): (r: Option<seq<int>>)
    ensures r.None? <==> e.connections.None?
    ensures r.Some? ==> forall k :: k in r.value <==> LinksTo(e.connections.value, k)
  {
    if e.connections.None? then None else Some(SideIds(e.connections.value))
  }

  // ---------------------------------------------------------------------------
  // Rotation

  /** `assemblerCraftsWithFluid`. */
  predicate CraftsWithFluid(cat: Catalog, e: Snapshot) {
    && Truthy(e.recipe)
    && cat.recipe(e.recipe.value).category == Some(CraftingWithFluid)
    && cat.entity(e.name).craftingCategories.Some?
    && CraftingWithFluid in cat.entity(e.name).craftingCategories.value
  }

  /** First guard of `rotate`: assembling machines 2 and 3 turn only while they
      craft with fluid. */
  predicate RotationLocked(cat: Catalog, e: Snapshot) {
    !CraftsWithFluid(cat, e) && (e.name == AssemblingMachine2 || e.name == AssemblingMachine3)
  }

  /** An assembling machine 2 or 3 that turns crafts a fluid recipe: its recipe
      is set, the recipe's category is crafting-with-fluid, and the prototype
      lists that category. */
  lemma AssemblerTurnsOnlyWithFluidRecipe(cat: Catalog, grid: GridQueries, e: Snapshot, notMoving: bool, offset: Pos)
    requires e.name == AssemblingMachine2 || e.name == AssemblingMachine3
    requires Rotated(cat, grid, e, notMoving, offset).Some?
    ensures Truthy(e.recipe) && cat.recipe(e.recipe.value).category == Some(CraftingWithFluid)
    ensures cat.entity(e.name).craftingCategories.Some?
    ensures CraftingWithFluid in cat.entity(e.name).craftingCategories.value
  {
    assert !RotationLocked(cat, e);
  }

  /** `pr.indexOf(d)`: the first index holding `d`, or -1. */
  function IndexOf(pr: seq<int>, d: int): (i: int)
    ensures -1 <= i < |pr|
    ensures i == -1 <==> d !in pr
    ensures i >= 0 ==> pr[i] == d && d !in pr[..i]
  {
    if pr == [] then -1
    else if pr[0] == d then 0
    else
      var j := IndexOf(pr[1..], d);
      if j == -1 then -1
      else
        assert pr[..j + 1] == [pr[0]] + pr[1..][..j];
        j + 1
  }

  /** How far along the rotation cycle `rotate` steps: 2 for a stationary entity
      with a non-square footprint or of type underground-belt, 1 otherwise. */
  function RotationStep(cat: Catalog, e: Snapshot, notMoving: bool): (step: nat)
    ensures step == 1 || step == 2
    ensures step == 2 <==> notMoving && (!IsSquare(EntitySize(cat, e)) || Kind(cat, e) == UndergroundBelt)
  {
    if notMoving && (!IsSquare(EntitySize(cat, e)) || Kind(cat, e) == UndergroundBelt) then 2 else 1
  }

  /** `pr[(pr.indexOf(d) + step) % pr.length]`; undefined for an empty cycle. */
  function NextDirection(pr: seq<int>, d: int, step: nat): (r: Option<int>)
    requires step > 0
    ensures |pr| > 0 <==> r.Some?
    ensures r.Some? ==> r.value in pr
    ensures d in pr ==> r == Some(pr[(IndexOf(pr, d) + step) % |pr|])
    ensures |pr| > 0 && d !in pr ==> r == Some(pr[(step - 1) % |pr|])
  {
    if |pr| == 0 then None else Some(pr[(IndexOf(pr, d) + step) % |pr|])
  }

  /** The four-way cycle of belts, inserters and most machines. */
  const FourWay: seq<int> := [0, 2, 4, 6]

  /** On the four-way cycle, a step of 1 is a quarter turn and a step of 2 a half
      turn. */
  lemma NextDirectionOnFourWay(d: int, step: nat)
    requires d in FourWay && (step == 1 || step == 2)
    ensures NextDirection(FourWay, d, step) == Some((d + 2 * step) % 8)
  {
    assert FourWay[0] == 0 && FourWay[1] == 2 && FourWay[2] == 4 && FourWay[3] == 6;
    if d == 0 {
      assert IndexOf(FourWay, d) == 0;
    } else if d == 2 {
      assert IndexOf(FourWay, d) == 1;
    } else if d == 4 {
      assert IndexOf(FourWay, d) == 2;
    } else {
      assert IndexOf(FourWay, d) == 3;
    }
  }

  /** A cycle lists no direction twice. */
  predicate DuplicateFree(pr: seq<int>) {
    forall i, j :: 0 <= i < j < |pr| ==> pr[i] != pr[j]
  }

  lemma MultipleOfPositive(n: int, k: int)
    requires n > 0 && 0 <= n * k < n
    ensures k == 0
  {
  }

  /** On a duplicate-free cycle holding `d`, the next direction is `d` itself
      (the fourth refusal of `rotate`) exactly when the step is a whole number of
      laps. */
  lemma NextDirectionStaysExactlyOnWholeLaps(pr: seq<int>, d: int, step: nat)
    requires step > 0 && d in pr && DuplicateFree(pr)
    ensures NextDirection(pr, d, step) == Some(d) <==> step % |pr| == 0
  {
    var n, i := |pr|, IndexOf(pr, d);
    var j := (i + step) % n;
    assert i + step == n * ((i + step) / n) + j;
    assert step == n * (step / n) + step % n;
    if j == i {
      assert n * ((i + step) / n - step / n) == step % n;
      MultipleOfPositive(n, (i + step) / n - step / n);
    }
    if step % n == 0 {
      assert i + step == n * (step / n) + i;
      assert n * ((i + step) / n - step / n) == i - j;
      if i >= j {
        MultipleOfPositive(n, (i + step) / n - step / n);
      } else {
        MultipleOfPositive(n, step / n - (i + step) / n);
      }
    }
    if pr[j] == d {
      assert j == i;
    }
  }

  /** A stationary half-step on a two-way cycle such as [0, 2] lands back on the
      current direction, so `rotate` refuses it. */
  lemma TwoWayHalfStepIsRefused(d: int, e: int)
    requires d != e
    ensures NextDirection([d, e], d, 2) == Some(d)
    ensures NextDirection([d, e], e, 2) == Some(e)
  {
    assert IndexOf([d, e], d) == 0;
    assert IndexOf([d, e], e) == 1;
  }

  /** The underground-belt role flip: input becomes output, anything else input. */
  function Flip(t: Option<IoType>): IoType {
    if t == Some(Input) then Output else Input
  }

  /** What `rotate(notMoving, offset)` writes for entity `e`, or None when it
      returns false without an operation. The guards are checked in the source's
      order: a locked assembler, a stationary entity whose area shares a cell, no
      rotation cycle, and a next direction equal to the current one. */
  function Rotated(cat: Catalog, grid: GridQueries, e: Snapshot, notMoving: bool, offset: Pos): (r: Option<Snapshot>)
    ensures RotationLocked(cat, e) ==> r.None?
    ensures notMoving && grid.sharesCell(GetArea(cat, e, None)) ==> r.None?
    ensures cat.entity(e.name).possibleRotations.None? ==> r.None?
    ensures r.Some? ==> r.value.direction != Some(Direction(e))
    ensures r.Some? ==>
              r.value.direction == NextDirection(cat.entity(e.name).possibleRotations.value, Direction(e), RotationStep(cat, e, notMoving))
    ensures (var pr := cat.entity(e.name).possibleRotations;
             pr.Some? && NextDirection(pr.value, Direction(e), RotationStep(cat, e, notMoving)) == Some(Direction(e))) ==> r.None?
    ensures (var pr := cat.entity(e.name).possibleRotations;
             !RotationLocked(cat, e) && !(notMoving && grid.sharesCell(GetArea(cat, e, None))) && pr.Some? &&
             NextDirection(pr.value, Direction(e), RotationStep(cat, e, notMoving)) != Some(Direction(e))) ==> r.Some?
    ensures r.Some? && |cat.entity(e.name).possibleRotations.value| > 0 ==>
              Direction(r.value) in cat.entity(e.name).possibleRotations.value && Direction(r.value) != Direction(e)
    ensures r.Some? ==> (&& r.value.entityNumber == e.entityNumber && r.value.name == e.name
                         && r.value.recipe == e.recipe && r.value.items == e.items
                         && r.value.connections == e.connections)
    ensures r.Some? && notMoving && Kind(cat, e) == UndergroundBelt ==>
              r.value.directionType.Some? && r.value.directionType != e.directionType
    ensures r.Some? && !(notMoving && Kind(cat, e) == UndergroundBelt) ==> r.value.directionType == e.directionType
    ensures r.Some? && !notMoving && !IsSquare(EntitySize(cat, e)) ==>
              r.value.position == Pos(e.position.x + offset.x, e.position.y + offset.y)
    ensures r.Some? && (notMoving || IsSquare(EntitySize(cat, e))) ==> r.value.position == e.position
  {
    if RotationLocked(cat, e) then None
    else if notMoving && grid.sharesCell(GetArea(cat, e, None)) then None
    else
      var pr := cat.entity(e.name).possibleRotations;
      if pr.None? then None
      else
        var newDir := NextDirection(pr.value, Direction(e), RotationStep(cat, e, notMoving));
        if newDir == Some(Direction(e)) then None
        else
          Some(e.(direction := newDir,
                  directionType := if notMoving && Kind(cat, e) == UndergroundBelt
                                   then Some(Flip(e.directionType)) else e.directionType,
                  position := if !notMoving && !IsSquare(EntitySize(cat, e))
                              then Pos(e.position.x + offset.x, e.position.y + offset.y) else e.position))
  }

  /** A stationary rotation on the four-way cycle never changes the footprint:
      non-square entities and underground belts make a half turn, square ones
      keep their size whatever the turn. */
  lemma StationaryRotationKeepsFootprint(cat: Catalog, grid: GridQueries, e: Snapshot, offset: Pos)
    requires cat.entity(e.name).possibleRotations == Some(FourWay) && Direction(e) in FourWay
    requires Rotated(cat, grid, e, true, offset).Some?
    ensures var r := Rotated(cat, grid, e, true, offset).value;
            GetArea(cat, r, None) == GetArea(cat, e, None)
  {
    var step := RotationStep(cat, e, true);
    NextDirectionOnFourWay(Direction(e), step);
    var r := Rotated(cat, grid, e, true, offset).value;
    assert QuarterTurned(Direction(r)) == QuarterTurned(Direction(e)) || IsSquare(cat.entity(e.name).size);
  }

  /** While moving, a rotation on the four-way cycle is a quarter turn: the
      footprint's width and height are exchanged, and a non-square entity's
      position is shifted by the offset. */
  lemma MovingRotationSwapsFootprint(cat: Catalog, grid: GridQueries, e: Snapshot, offset: Pos)
    requires cat.entity(e.name).possibleRotations == Some(FourWay) && Direction(e) in FourWay
    ensures Rotated(cat, grid, e, false, offset).Some? || RotationLocked(cat, e)
    ensures var r := Rotated(cat, grid, e, false, offset);
            r.Some? ==> EntitySize(cat, r.value) == Size(EntitySize(cat, e).y, EntitySize(cat, e).x)
  {
    NextDirectionOnFourWay(Direction(e), 1);
  }

  /** On the four-way cycle an accepted turn advances by the step: a quarter turn
      while moving or for a stationary square entity that is not an underground
      belt, a half turn otherwise. */
  lemma FourWayTurnAngle(cat: Catalog, grid: GridQueries, e: Snapshot, notMoving: bool, offset: Pos)
    requires cat.entity(e.name).possibleRotations == Some(FourWay) && Direction(e) in FourWay
    requires Rotated(cat, grid, e, notMoving, offset).Some?
    ensures Direction(Rotated(cat, grid, e, notMoving, offset).value) ==
            (Direction(e) + 2 * RotationStep(cat, e, notMoving)) % 8
  {
    NextDirectionOnFourWay(Direction(e), RotationStep(cat, e, notMoving));
  }

  /** An accepted stationary rotation of an underground belt on the four-way
      cycle is a half turn that flips its role. */
  lemma StationaryBeltRotation(cat: Catalog, grid: GridQueries, e: Snapshot, offset: Pos)
    requires Kind(cat, e) == UndergroundBelt
    requires cat.entity(e.name).possibleRotations == Some(FourWay) && Direction(e) in FourWay
    requires Rotated(cat, grid, e, true, offset).Some?
    ensures var r := Rotated(cat, grid, e, true, offset).value;
            && r.name == e.name && Direction(r) == (Direction(e) + 4) % 8 && Direction(r) in FourWay
            && r.directionType == Some(Flip(e.directionType))
  {
    assert RotationStep(cat, e, true) == 2;
    NextDirectionOnFourWay(Direction(e), 2);
  }

  /** Two accepted stationary rotations of an underground belt with a role on the
      four-way cycle restore its direction and its role. */
  lemma TwoStationaryBeltRotationsRestore(cat: Catalog, grid: GridQueries, e: Snapshot, offset: Pos)
    requires Kind(cat, e) == UndergroundBelt && e.directionType.Some?
    requires cat.entity(e.name).possibleRotations == Some(FourWay) && Direction(e) in FourWay
    requires Rotated(cat, grid, e, true, offset).Some?
    requires Rotated(cat, grid, Rotated(cat, grid, e, true, offset).value, true, offset).Some?
    ensures var twice := Rotated(cat, grid, Rotated(cat, grid, e, true, offset).value, true, offset).value;
            Direction(twice) == Direction(e) && twice.directionType == e.directionType
  {
    var once := Rotated(cat, grid, e, true, offset).value;
    StationaryBeltRotation(cat, grid, e, offset);
    StationaryBeltRotation(cat, grid, once, offset);
    HalfTurnTwice(Direction(e));
    FlipTwice(e.directionType.value);
  }

  lemma HalfTurnTwice(d: int)
    requires d in FourWay
    ensures ((d + 4) % 8 + 4) % 8 == d
  {
  }

  lemma FlipTwice(t: IoType)
    ensures Flip(Some(Flip(Some(t)))) == t
  {
  }

  /** The entity numbers a rotation's operation names: the partner too, when one
      is given (a falsy entity number 0 counts as none). */
  function RotationIds(n: int, other: Option<int>): (ids: seq<int>)
    ensures n in ids
    ensures other.Some? && other.value != 0 ==> ids == [n, other.value]
    ensures !(other.Some? && other.value != 0) ==> ids == [n]
  {
    if other.Some? && other.value != 0 then [n, other.value] else [n]
  }

  /** The collection after `rotate` on entity `n` of `m` (unchanged when it is
      refused). */
  function RotateInStore(cat: Catalog, grid: GridQueries, m: map<int, Snapshot>, n: int,
                         notMoving: bool, offset: Pos): (r: map<int, Snapshot>)
    ensures r.Keys == m.Keys
    ensures forall k :: k in m && k != n ==> r[k] == m[k]
    ensures n in m ==> r[n] == (var t := Rotated(cat, grid, m[n], notMoving, offset); if t.Some? then t.value else m[n])
  {
    if n in m && Rotated(cat, grid, m[n], notMoving, offset).Some?
    then m[n := Rotated(cat, grid, m[n], notMoving, offset).value]
    else m
  }

  /** The pair rotation is not atomic: when the partner's turn is accepted but
      the entity's own turn is refused because it shares a cell with another
      entity, the partner stays turned and the entity keeps its direction. */
  lemma {:induction false} PartnerTurnsEvenWhenEntityRefused(cat: Catalog, grid: GridQueries, m: map<int, Snapshot>,
                                                              n: int, o: int, offset: Pos)
    requires n in m && o in m && n != o
    requires Rotated(cat, grid, m[o], true, Pos(0, 0)).Some?
    requires grid.sharesCell(GetArea(cat, m[n], None))
    ensures var m1 := RotateInStore(cat, grid, m, o, true, Pos(0, 0));
            && Rotated(cat, grid, m1[n], true, offset).None?
            && RotateInStore(cat, grid, m1, n, true, offset) == m1
            && m1[n] == m[n]
            && m1[o].direction != Some(Direction(m[o]))
  {
    var m1 := RotateInStore(cat, grid, m, o, true, Pos(0, 0));
    assert m1[n] == m[n];
  }

  /** Rotating an underground-belt pair with opposite roles, both accepted while
      stationary, flips both roles, and the two belts still have opposite roles. */
  lemma PairedRotationKeepsRolesOpposite(cat: Catalog, grid: GridQueries, m: map<int, Snapshot>,
                                         n: int, o: int, offset: Pos)
    requires n in m && o in m && n != o
    requires Kind(cat, m[n]) == UndergroundBelt && Kind(cat, m[o]) == UndergroundBelt
    requires m[n].directionType.Some? && m[o].directionType.Some? && m[n].directionType != m[o].directionType
    requires Rotated(cat, grid, m[o], true, Pos(0, 0)).Some?
    requires Rotated(cat, grid, m[n], true, offset).Some?
    ensures var after := RotateInStore(cat, grid, RotateInStore(cat, grid, m, o, true, Pos(0, 0)), n, true, offset);
            && after[n].directionType != m[n].directionType
            && after[o].directionType != m[o].directionType
            && after[n].directionType.Some? && after[o].directionType.Some?
            && after[n].directionType != after[o].directionType
  {
    var m1 := RotateInStore(cat, grid, m, o, true, Pos(0, 0));
    assert m1[o].directionType == Some(Flip(m[o].directionType));
    assert m1[n] == m[n];
    var after := RotateInStore(cat, grid, m1, n, true, offset);
    assert after[n].directionType == Some(Flip(m[n].directionType));
    assert after[o] == m1[o];
    var tn, to := m[n].directionType.value, m[o].directionType.value;
    assert tn != to;
    assert Flip(Some(tn)) != Flip(Some(to));
  }

  // ---------------------------------------------------------------------------
  // Writes through the store

  /** `recipe` setter. */
  method SetRecipe(bp: Blueprint, cat: Catalog, n: int, recipe: Option<string>)
    requires bp.Valid() && n in bp.entities
    modifies bp
    ensures bp.Valid()
    ensures bp.entities == old(bp.entities)[n := RecipeChanged(cat, old(bp.entities[n]), recipe)]
    ensures bp.history == old(bp.history) + [HistoryEntry([n], ChangedRecipe, Untagged, old(bp.entities), bp.entities)]
    ensures bp.tiles == old(bp.tiles)
  {
    var e := RecipeChanged(cat, bp.entities[n], recipe);
    bp.Operation([n], ChangedRecipe, m => m[n := e], Untagged, true);
  }

  /** `modulesList` setter: the list becomes a count dictionary in `items`. */
  method SetModulesList(bp: Blueprint, n: int, list: seq<string>)
    requires bp.Valid() && n in bp.entities
    modifies bp
    ensures bp.Valid()
    ensures bp.entities == old(bp.entities)[n := old(bp.entities[n]).(items := Some(Tally(list)))]
    ensures bp.history == old(bp.history) + [HistoryEntry([n], ChangedModules, Untagged, old(bp.entities), bp.entities)]
    ensures bp.tiles == old(bp.tiles)
    ensures ModulesList(bp.entities[n]).Some? && multiset(ModulesList(bp.entities[n]).value) == multiset(list)
  {
    var counts := CountModules(list);
    var e := bp.entities[n].(items := Some(counts));
    bp.Operation([n], ChangedModules, m => m[n := e], Untagged, true);
    ModulesListRoundTrip(old(bp.entities[n]), list);
  }

  /** `direction` setter. */
  method SetDirection(bp: Blueprint, n: int, direction: int)
    requires bp.Valid() && n in bp.entities
    modifies bp
    ensures bp.Valid()
    ensures bp.entities == old(bp.entities)[n := old(bp.entities[n]).(direction := Some(direction))]
    ensures bp.history == old(bp.history) +
                          [HistoryEntry([n], SetEntityDirection(direction), Untagged, old(bp.entities), bp.entities)]
    ensures bp.tiles == old(bp.tiles)
  {
    var e := bp.entities[n].(direction := Some(direction));
    bp.Operation([n], SetEntityDirection(direction), m => m[n := e], Untagged, true);
  }

  /** `change(name, direction)`: replace the kind and the direction at once. */
  method Change(bp: Blueprint, n: int, name: string, direction: int)
    requires bp.Valid() && n in bp.entities
    modifies bp
    ensures bp.Valid()
    ensures bp.entities == old(bp.entities)[n := old(bp.entities[n]).(name := name, direction := Some(direction))]
    ensures bp.history == old(bp.history) + [HistoryEntry([n], ChangedEntity, Untagged, old(bp.entities), bp.entities)]
    ensures bp.tiles == old(bp.tiles)
  {
    var e := bp.entities[n].(name := name, direction := Some(direction));
    bp.Operation([n], ChangedEntity, m => m[n := e], Untagged, true);
  }

  /** `move(pos)`: refused, with nothing changed, when the footprint at `pos`
      overlaps; otherwise only the position changes, in an operation tagged
      `'mov'`, and the grid records the footprint at the new position. */
  method Move(bp: Blueprint, cat: Catalog, grid: GridQueries, n: int, pos: Pos) returns (ok: bool)
    requires bp.Valid() && n in bp.entities
    modifies bp
    ensures bp.Valid()
    ensures ok == grid.noOverlap(old(bp.entities[n]).name, Direction(old(bp.entities[n])), pos)
    ensures !ok ==> bp.entities == old(bp.entities) && bp.history == old(bp.history) && bp.tiles == old(bp.tiles)
    ensures ok ==> && bp.entities == old(bp.entities)[n := old(bp.entities[n]).(position := pos)]
                   && bp.history == old(bp.history) + [HistoryEntry([n], MovedEntity, Mov, old(bp.entities), bp.entities)]
                   && bp.tiles == old(bp.tiles)[n := GetArea(cat, old(bp.entities[n]), Some(pos))]
  {
    var e := bp.entities[n];
    if !grid.noOverlap(e.name, Direction(e), pos) {
      return false;
    }
    var moved := e.(position := pos);
    bp.Operation([n], MovedEntity, m => m[n := moved], Mov, true);
    bp.SetTileData(n, GetArea(cat, bp.entities[n], None));
    return true;
  }

  /** `rotate(notMoving, offset, pushToHistory, otherEntity)`: writes what
      `Rotated` computes in one operation tagged `'upd'` that names the partner
      too, and logs it only when stationary and `pushToHistory`; refused with
      nothing changed otherwise. The grid is not touched. */
  method Rotate(bp: Blueprint, cat: Catalog, grid: GridQueries, n: int, notMoving: bool, offset: Pos,
                pushToHistory: bool, other: Option<int>) returns (ok: bool)
    requires bp.Valid() && n in bp.entities
    modifies bp
    ensures bp.Valid()
    ensures bp.tiles == old(bp.tiles)
    ensures ok <==> Rotated(cat, grid, old(bp.entities[n]), notMoving, offset).Some?
    ensures bp.entities == RotateInStore(cat, grid, old(bp.entities), n, notMoving, offset)
    ensures bp.history == old(bp.history) +
              (if ok && notMoving && pushToHistory
               then [HistoryEntry(RotationIds(n, other), RotatedEntity, Upd, old(bp.entities), bp.entities)]
               else [])
  {
    var r := Rotated(cat, grid, bp.entities[n], notMoving, offset);
    if r.None? {
      return false;
    }
    var e := r.value;
    bp.Operation(RotationIds(n, other), RotatedEntity, m => m[n := e], Upd, notMoving && pushToHistory);
    return true;
  }
}
