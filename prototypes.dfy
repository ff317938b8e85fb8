/** The read-only prototype catalog (`factorioData`): entity, recipe and item
    prototypes. The catalog's own data is not part of this model; it is a value
    handed to every operation, and only the fields the entity code reads are kept. */
module Prototypes {
  import opened JsBase

  const AssemblingMachine1 := "assembling-machine-1"
  const AssemblingMachine2 := "assembling-machine-2"
  const AssemblingMachine3 := "assembling-machine-3"
  const Beacon := "beacon"
  const UndergroundBelt := "underground-belt"
  const ProductivityModule := "productivity-module"
  const CraftingWithFluid := "crafting-with-fluid"
  const Crafting := "crafting"
  const ModuleItemType := "module"

  /** A footprint in whole tiles. */
  datatype Size = Size(x: nat, y: nat)

  /** The fields of an entity prototype that the entity record reads:
      `type`, `size`, `possible_rotations`, `crafting_categories`,
      `module_specification.module_slots` (None when there is no module
      specification) and `max_distance`. */
  datatype EntityPrototype = EntityPrototype(
    kind: string,
    size: Size,
    possibleRotations: Option<seq<int>>,
    craftingCategories: Option<seq<string>>,
    moduleSlots: Option<nat>,
    maxDistance: int)

  /** A recipe prototype: its category (absent for plain crafting), its number
      of ingredients, and that of its `normal` difficulty variant when it has one. */
  datatype RecipePrototype = RecipePrototype(
    category: Option<string>,
    ingredients: nat,
    normalIngredients: Option<nat>)

  /** The catalog: lookups by name, the recipe and item keys in iteration order,
      and the `limitation` list of the productivity module (the recipes it may be
      used with). */
  datatype Catalog = Catalog(
    entity: string -> EntityPrototype,
    recipe: string -> RecipePrototype,
    recipeNames: seq<string>,
    itemNames: seq<string>,
    itemType: string -> string,
    productivityLimitation: seq<string>)

  /** The ingredient count the entity code looks at: the `normal` variant's when
      the recipe has one, the recipe's own otherwise. */
  function Ingredients(r: RecipePrototype): nat {
    if r.normalIngredients.Some? then r.normalIngredients.value else r.ingredients
  }
}
