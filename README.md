# Entity editing and placement in the Factorio blueprint editor

This project models the part of the blueprint editor that edits one entity and the
gestures around it. It has two layers.

The **entity record** (`EntityRecord`) is a facade over one entity snapshot held in
the blueprint store. Its getters derive:

- the footprint size, the area and the four corners;
- the recipes and modules the machine accepts;
- the flattened module list;
- the entity numbers reached by wires.

Its writes (recipe, module list, direction, name change, move, rotate) each go
through the store's `operation`. That call replaces the whole entity collection and
may append a history entry.

The **entity container** (`EntityContainers`) places an entity on screen. It holds:

- pixel snapping and the blueprint-bounds check;
- the idle/moving mouse state and the single moving container;
- moving with the cursor, and picking up and dropping with the middle button;
- turning an underground belt together with its partner;
- copying and pasting recipe and modules;
- choosing which neighbours to redraw.

Supporting modules:

- `JsBase`: JavaScript optional values, truthiness, `includes` and the truncating `%`.
- `Prototypes`: the prototype catalog as a value.
- `PositionGrid`: positions, areas and the position grid's answers as a value.
- `BlueprintStore`: the store as a class holding the entity map, the history log and the recorded footprints.

Units:

- Positions are counted in half tiles, because every offset in this code is ±0.5
  tile. `Pos(x, y)` is the point (x/2, y/2) in tiles.
- Container positions are in pixels: 32 to a tile, 16 to a half tile.

## Model

| member | source | states |
|---|---|---|
| EntityRecord.SizeFollowsDirection | src/factorio-data/entity.ts:19 | About `EntitySize`, the `size` getter: the size's width and height are exchanged exactly when the direction is 2 or 6 (for a non-square prototype). Any other direction gives the prototype's size. Squareness never depends on the direction. |
| EntityRecord.GetArea | src/factorio-data/entity.ts:197-204 | The area is centred on the given position, or on the entity's own position when none is given. Its width and height are the entity's current size. |
| EntityRecord.CornersBoundTheArea | src/factorio-data/entity.ts:258-269 | The four corners are the corners of the entity's own area. They are symmetric about the position and span exactly twice the half-size in each axis. |
| EntityRecord.FilterRecipes | src/factorio-data/entity.ts:45-56 | A recipe key is kept exactly when it is one of the keys and it is accepted: its category is one of the crafting categories, or it has no category and the machine does plain crafting; and it does not break the ingredient cap. |
| EntityRecord.AcceptedRecipes | src/factorio-data/entity.ts:42-58 | The result is undefined exactly when the prototype has no crafting categories. Otherwise a catalog recipe is listed if and only if it is in a category the machine crafts and within the machine's ingredient cap. |
| EntityRecord.AssemblerIngredientCaps | src/factorio-data/entity.ts:48-51 | assembling-machine-1 never accepts a recipe with more than 2 ingredients. assembling-machine-2 never accepts one with more than 4. |
| EntityRecord.FilterModules | src/factorio-data/entity.ts:66-68 | An item key is kept exactly when it is a module, and it is not a productivity module while productivity is being omitted. |
| EntityRecord.AcceptedModules | src/factorio-data/entity.ts:60-70 | The result is undefined exactly when there is no module specification. Every listed item is a module item. Every non-productivity module is listed. A productivity module is listed if and only if the entity is not a beacon and its recipe is unset or inside the productivity limitation. |
| EntityRecord.ModulesList | src/factorio-data/entity.ts:83-94 | The module list is undefined exactly when the entity has no `items`. |
| EntityRecord.FlattenCounts | src/factorio-data/entity.ts:88-92 | The flattened list holds each module name exactly as often as the count dictionary records it. |
| EntityRecord.Bump | src/factorio-data/entity.ts:98-104 | One step of the setter loop adds exactly one to the count of `m` and leaves every other count unchanged. The key set gains `m`. Distinct keys and positive counts are preserved. |
| EntityRecord.TallyCounts | src/factorio-data/entity.ts:96-104 | The dictionary built from a list has distinct keys and positive counts. It counts each name exactly as often as the list contains it. |
| EntityRecord.CountModules | src/factorio-data/entity.ts:96-104 | The setter's loop builds exactly the dictionary `Tally` describes: distinct keys, with each count equal to the name's multiplicity in the list. |
| EntityRecord.ModulesListRoundTrip | src/factorio-data/entity.ts:83-108 | Reading the module list after writing `L` gives a list with the same multiset as `L`, and so the same length. |
| EntityRecord.SetModulesList | src/factorio-data/entity.ts:96-108 | Only `items` of entity `n` changes, and it becomes the count dictionary of the list. One `Changed modules` entry is logged. Reading back yields the multiset of the list. |
| EntityRecord.DropProductivity | src/factorio-data/entity.ts:33-35 | An entry is kept if and only if it is not a productivity module. Productivity counts become 0 and all other counts are kept. |
| EntityRecord.ItemsAfterRecipe | src/factorio-data/entity.ts:31-36 | `items` is left untouched unless it exists and the new recipe is truthy and outside the limitation. In that case the productivity modules go, every other count is kept, and `items` becomes undefined exactly when only productivity modules were present. |
| EntityRecord.RecipeOutsideLimitationLeavesNoProductivity | src/factorio-data/entity.ts:26-40 | About `RecipeChanged`, the recipe setter's new snapshot: after setting a recipe outside the limitation, the recipe is set and no productivity module is left. |
| EntityRecord.SetRecipe | src/factorio-data/entity.ts:26-40 | Only entity `n` changes, to `RecipeChanged`: the recipe is replaced and `items` follows `ItemsAfterRecipe`. One `Changed recipe` entry is logged. |
| EntityRecord.SetDirection | src/factorio-data/entity.ts:72-76 | Only the direction of `n` changes, and it is logged with the direction in the label. |
| EntityRecord.Change | src/factorio-data/entity.ts:206-213 | Name and direction of `n` change together in one logged operation. Nothing else changes. |
| EntityRecord.EndIds | src/factorio-data/entity.ts:163-165 | One id per wire end, in order. An id is listed exactly when some wire end names it. |
| EntityRecord.ConnectedEntities | src/factorio-data/entity.ts:156-169 | The result is undefined exactly when there are no connections. Otherwise an id is listed if and only if some wire of some colour on some side reaches it. |
| EntityRecord.IndexOf | src/factorio-data/entity.ts:232 | The result is -1 exactly when the direction is absent from the cycle. Otherwise it is the first index holding the direction. |
| EntityRecord.NextDirection | src/factorio-data/entity.ts:232-235 | A direction is produced exactly when the cycle is non-empty, and it is always a member of the cycle. For a direction in the cycle it is the entry `step` places after the direction's first index, wrapping around. For a direction not in the cycle `indexOf` gives -1, so it is the entry at `(step - 1) % length`. |
| EntityRecord.RotationStep | src/factorio-data/entity.ts:233 | The step is 1 or 2. It is 2 exactly when the entity is stationary and either its footprint is not square or it is an underground belt. |
| EntityRecord.NextDirectionStaysExactlyOnWholeLaps | src/factorio-data/entity.ts:232-236 | On a cycle without repeats, stepping from a direction in the cycle lands on the same direction exactly when the step is a multiple of the cycle's length. Only then does the `newDir === direction` guard refuse. |
| EntityRecord.TwoWayHalfStepIsRefused | src/factorio-data/entity.ts:232-236 | On a two-direction cycle a step of 2 lands on the starting direction, so the `newDir === direction` guard refuses it. |
| EntityRecord.NextDirectionOnFourWay | src/factorio-data/entity.ts:232-235 | On the cycle [0,2,4,6], a step of 1 is a quarter turn and a step of 2 a half turn: the result is `(d + 2*step) % 8`. |
| EntityRecord.Rotated | src/factorio-data/entity.ts:226-256 | Rotation is refused in each of the four guard cases and accepted otherwise. The cases are: an assembling machine 2 or 3 that does not craft with fluid (`CraftsWithFluid`); a stationary entity whose area shares a cell; no `possible_rotations`; and a next direction equal to the current one. An accepted turn's direction is `NextDirection` of the cycle, the current direction and `RotationStep`. It is in the cycle and differs from the old one. Number, name, recipe, items and connections are kept. A stationary underground belt flips its role, and in every other case the role is kept. While moving, a non-square entity moves by exactly the offset; otherwise the position is kept. |
| EntityRecord.AssemblerTurnsOnlyWithFluidRecipe | src/factorio-data/entity.ts:227-228 | About `CraftsWithFluid`: an assembling machine 2 or 3 turns only when its recipe is set, the recipe's category is crafting-with-fluid, and the prototype lists that category. |
| EntityRecord.FourWayTurnAngle | src/factorio-data/entity.ts:232-235 | On the four-way cycle an accepted turn advances the direction by twice the step modulo 8: a quarter turn for a step of 1, a half turn for a step of 2. |
| EntityRecord.StationaryRotationKeepsFootprint | src/factorio-data/entity.ts:232-235 | On the four-way cycle, an accepted stationary rotation leaves the footprint's area unchanged. |
| EntityRecord.MovingRotationSwapsFootprint | src/factorio-data/entity.ts:232-235 | On the four-way cycle, a rotation while moving is accepted unless the assembler is locked, and it exchanges the footprint's width and height. |
| EntityRecord.StationaryBeltRotation | src/factorio-data/entity.ts:232-244 | An accepted stationary underground-belt rotation is a half turn that flips the role. |
| EntityRecord.TwoStationaryBeltRotationsRestore | src/factorio-data/entity.ts:232-244 | Two accepted stationary rotations of an underground belt restore both its direction and its role. |
| EntityRecord.RotationIds | src/factorio-data/entity.ts:237 | The operation names the partner as well as the entity exactly when a truthy partner number is given. |
| EntityRecord.RotateInStore | src/factorio-data/entity.ts:237-254 | Only entity `n` can change, and it becomes the rotated snapshot when the rotation is accepted. The key set is kept. |
| EntityRecord.PartnerTurnsEvenWhenEntityRefused | src/containers/entity.ts:145-184 | When the partner's stationary turn is accepted but the entity's area shares a cell, the entity's own turn is refused and leaves the store as the partner's turn left it. The entity is unchanged, and the partner has a new direction. |
| EntityRecord.PairedRotationKeepsRolesOpposite | src/factorio-data/entity.ts:237-244 | Rotating a partner pair with opposite roles, both accepted, flips both roles and leaves them opposite. |
| EntityRecord.Rotate | src/factorio-data/entity.ts:226-256 | The method reports acceptance exactly as `Rotated` decides it. The collection becomes `RotateInStore`. An entry tagged `upd` that names both entities is logged only when the turn is accepted, stationary and `pushToHistory` holds. The grid is untouched. |
| EntityRecord.Move | src/factorio-data/entity.ts:215-224 | The move succeeds exactly when the grid reports no overlap at `pos`. On failure nothing changes. On success only the position changes, the entry is tagged `mov`, and the grid records the footprint at `pos`. |
| EntityContainers.SnapCoordinate | src/containers/entity.ts:19-31 | The result is always a multiple of 16. For non-negative input it is within 16 of the input, a multiple of 32 for an even size, and 16 more than a multiple of 32 for an odd size. |
| EntityContainers.SnapIdempotent | src/containers/entity.ts:18-33 | Snapping a snapped coordinate changes nothing. |
| EntityContainers.SnapAlignsFootprint | src/containers/entity.ts:18-33 | A snapped centre puts the footprint's edge on a tile line. |
| EntityContainers.GetPositionFromData | src/containers/entity.ts:18-33 | Both snapped coordinates are multiples of 16 pixels, that is, whole half tiles. |
| EntityContainers.GetPositionFromDataProperties | src/containers/entity.ts:18-33 | For non-negative points, each axis gets the residue mod 32 its size parity calls for, lies within 16 pixels of the input, and is unchanged by snapping again. |
| EntityContainers.IsContainerOutOfBpArea | src/containers/entity.ts:35-40 | True if and only if the footprint centred on the position leaves the rectangle [0,width]×[0,height]. |
| EntityContainers.OutOfBpAreaByCorners | src/containers/entity.ts:35-40 | An entity is out of the area exactly when its top-left corner is negative or its bottom-right corner is past the width or height. |
| EntityContainers.GridPosition | src/containers/entity.ts:11-16 | On a container position (a multiple of 16 pixels), the grid position in half tiles is exactly the pixels divided by 16. |
| EntityContainers.CursorCell | src/containers/entity.ts:325-328 | For non-negative pixels, the 16-pixel cursor cell is the floor of pixels divided by 16. |
| EntityContainers.RailCoordinate | src/containers/entity.ts:335-336 | The rail snap is a multiple of 16. For non-negative shifted input it sits 32 pixels past a multiple of 64 (counted from the rail offset) and within 32 pixels of the input. |
| EntityContainers.PartnerSearchFollowsUndergroundLine | src/containers/entity.ts:146-150 | About `SearchDirection` and `UndergroundLineDirection` (containers/entity.ts:192): for an underground belt with a role, the partner search goes in the facing direction for an input belt and in `(d+4)%8` for an output belt. This is the same direction the underground-line indicator uses. |
| EntityContainers.RotationPartner | src/containers/entity.ts:145-159 | A partner is chosen only while idle, only for an underground belt, and only one the grid finds. A found partner with the same role is discarded. |
| EntityContainers.MoveTarget | src/containers/entity.ts:331-341 | Wherever `moveTo` puts a container, rail or not, both coordinates are multiples of 16 pixels. |
| EntityContainers.RecipeToPaste | src/containers/entity.ts:259-260 | The copied recipe is pasted only when it is truthy and in the accepted recipes; otherwise the result is undefined. |
| EntityContainers.KeepAcceptedCounts | src/containers/entity.ts:264-267 | The filter keeps each accepted module exactly as often as the copy holds it, and nothing else. |
| EntityContainers.KeepAcceptedOrder | src/containers/entity.ts:264-267 | The filter keeps only accepted modules, in copy order (a subsequence of the copy). |
| EntityContainers.KeepAcceptedSpec | src/containers/entity.ts:264-267 | Combined: only accepted modules that come from the copy, with copy multiplicities, in copy order, and no longer than the copy. |
| EntityContainers.PastedModules | src/containers/entity.ts:263-272 | The pasted list has at most `module_slots` modules, each accepted and each taken from the copy. |
| EntityContainers.ModulesToPaste | src/containers/entity.ts:263-272 | The loop yields the pasted list. It is empty when nothing is accepted or nothing was copied. It is a prefix of the filtered copy, and the whole filtered copy when that fits the slots. |
| EntityContainers.PasteRespectsAcceptance | src/containers/entity.ts:256-275 | About `PastedEntity` (and `WithPastedModules`, the snapshot between the two writes): after a paste the recipe is the pasted one, and it is accepted whenever it is set. Every module left is one the entity accepted and one from the copy, and there are at most `module_slots` of them, even after the recipe setter drops productivity modules. |
| EntityContainers.EntityContainer.constructor | src/containers/entity.ts:80-90 | The container sits at the entity's position scaled to pixels, which is 16 pixels per half tile. |
| EntityContainers.EntityContainer.PlaceEntityContainerDown | src/containers/entity.ts:376-393 | If the drop is out of bounds, the mouse is not moving, or `move` is refused, nothing changes. Otherwise the entity moves to the container's grid position, the move is logged with tag `mov`, the grid records the new footprint, and the state returns to idle with no moving container. The mouse-state invariant is preserved. |
| EntityContainers.EntityContainer.MoveTo | src/containers/entity.ts:323-348 | The position and cursor cell change only for the moving container, while moving, when the cursor enters another 16-pixel cell. Rails and train stops use the rail snap; everything else uses `getPositionFromData`. The store and the mouse state are untouched. |
| EntityContainers.EntityContainer.Rotate | src/containers/entity.ts:138-184 | The partner, if any, is turned first with no history entry. Then the entity turns in one operation naming both, logged only while idle. The logged entry's `before` is the collection after the partner's turn. The offset is `RotationOffset`: +1 half tile on an axis where the container's 16-pixel cell is the cursor's, -1 otherwise. While moving, an accepted turn of a non-square entity shifts the container by ±16 pixels and snaps it again. |
| EntityContainers.EntityContainer.PasteData | src/containers/entity.ts:256-275 | The entity becomes `PastedEntity`. The log grows by `PasteHistory`. First comes a `Changed modules` entry for the entity, from the old collection to the one with the pasted modules (`WithPastedModules`). Then, only when the recipe changes, comes a `Changed recipe` entry from that collection to the final one. The grid is untouched. |
| EntityContainers.EntityContainer.PointerDown | src/containers/entity.ts:196-244 | Shift and left click pastes: the entity becomes `PastedEntity` of the copy, the log grows by `PasteHistory`, and the grid, copy and mouse state are kept. A middle click while idle on a container that is not moving picks it up: its footprint leaves the grid, it becomes the moving container, it snaps to the cursor, and the store's entities and log are kept. A middle click on the moving container while moving attempts a drop. An accepted drop moves the entity, logs a `mov` entry and records the footprint; a refused drop changes nothing in the store. Shift and right click while idle copies recipe and module list and changes nothing in the store. Every other input changes nothing: entities, log, grid, copy, mouse state, moving container, cursor cell and position are all kept. The mouse-state invariant is preserved. |
| EntityContainers.EntityContainer.RedrawSurroundingEntities | src/containers/entity.ts:395-420 | No entity is redrawn twice. An entity is redrawn exactly when some update group lists this entity's name and the entity is selected: for a straight rail, an overlapping gate; otherwise a surrounding entity whose name the group updates. |

## Left out

- Rendering and UI calls are not modelled: sprites, `redraw`, the entity info, cursor box, underground-line drawing, area visualisation, wires container, edit dialog, event wiring, hover handlers and `console.log`. Only the direction `updateUndergroundLines` passes is modelled (`UndergroundLineDirection`).
- Right click without Shift deletes the container through `removeContainer` and the store's `removeEntity`. The store's deletion is not part of this model, so that branch changes nothing here.
- The blueprint store's own implementation (Immutable.js sharing, undo) is not part of this model. `Blueprint.Operation` replaces the entity map by `mutate` of it and appends a log entry when asked to. `SetTileData`/`RemoveTileData` record or drop one footprint.
- The position grid's bookkeeping is not part of this model. Its answers (`checkNoOverlap`, `sharesCell`, `foreachOverlap`, `getSurroundingEntities`, `findEntityWithSameNameAndDirection`) are supplied as one `GridQueries` value per call. A call therefore does not observe its own writes to the grid.
- The catalog (`factorioData`) is a `Catalog` value with total lookups. `util.switchSizeBasedOnDirection` is not shown; it is taken to exchange width and height exactly at directions 2 and 6.
- GridPosition: defined only on container positions that are multiples of 16 pixels, where `Math.round(x / 32 * 10) / 10` is exact. The container's class invariant keeps every position on that grid. Floating-point rounding elsewhere is not modelled.
- RotationPartner: requires that the partner the grid reports is in the store; the source reads it without a check.
- `getWireConnectionPoint`, `chemicalPlantDontConnectOutput`, `assemblerPipeDirection`, `operator`, `trainStopColor` and the plain field getters are not modelled, because they are lookups into catalog data that is not shown.
- The painting mouse state is carried but never entered or left here; painting belongs to another container.
- JavaScript object keys are modelled as an insertion-ordered sequence of `ModuleCount`. Integer-like key ordering is not modelled.
- EntityContainers.EntityContainer.RedrawSurroundingEntities: requires every overlapping and surrounding entity number the grid reports to be in the store. The source reads those entities without a check.
- Cursor positions are integer pixels here. In the source, `getLocalPosition` can give fractional pixels; fractional input to the snapping is not modelled.
- EntityContainers.SnapCoordinate: the snapping properties are stated for non-negative pixels only. Negative coordinates are computed with JavaScript's truncating `%`, but no bound is claimed for them.

## Notes

- `rotate` in `src/containers/entity.ts` turns the underground partner before the entity's own guards are checked. If the entity's own turn is then refused (for example when its area shares a cell), the partner stays turned and no history entry is written. So the pair update is not atomic, although the two numbers are named in one operation. The model follows the code: `EntityContainer.Rotate` states the partner's turn and the entity's turn separately, and `PairedRotationKeepsRolesOpposite` covers only the case where both are accepted. `PartnerTurnsEvenWhenEntityRefused` shows the other case: the partner stays turned and the entity does not. When the entity's turn is accepted, the entry's `before` is the collection after the partner turned, not the one before the gesture.
