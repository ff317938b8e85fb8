/** The blueprint store the entity record writes through: the collection of
    entity snapshots keyed by entity number, the history log that `operation`
    appends to, and the footprints the position grid has recorded.

    The store's own implementation (structural sharing, undo) is not part of this
    model: `Operation` replaces the collection by `mutate` of it and appends one
    log entry when asked to, and `SetTileData` / `RemoveTileData` record or drop
    one entity's footprint. */
module BlueprintStore {
  import opened JsBase
  import opened PositionGrid

  /** Input/output role of an underground belt (the raw entity's `type` field). */
  datatype IoType = Input | Output

  /** One end of a wire: `{entity_id, circuit_id?}`. */
  datatype WireEnd = WireEnd(entityId: int, circuitId: Option<int>)

  /** The wires of one colour on one side of an entity. */
  datatype ColorLinks = ColorLinks(color: string, ends: seq<WireEnd>)

  /** All wires on one side of an entity, colour by colour. */
  datatype SideLinks = SideLinks(side: string, colors: seq<ColorLinks>)

  /** One key of the `items` count dictionary: a module name and how many of it. */
  datatype ModuleCount = ModuleCount(name: string, count: nat)

  /** The raw entity value stored under its `entity_number`. Optional fields are
      None when the raw entity has no such key. The count dictionary and the
      connections dictionary keep their keys in insertion order. */
  datatype Snapshot = Snapshot(
    entityNumber: int,
    name: string,
    position: Pos,
    direction: Option<int>,
    directionType: Option<IoType>,
    recipe: Option<string>,
    items: Option<seq<ModuleCount>>,
    connections: Option<seq<SideLinks>>)

  /** The labels the entity record gives its operations. */
  datatype Label =
    | ChangedRecipe
    | SetEntityDirection(direction: int)
    | ChangedModules
    | ChangedEntity
    | MovedEntity
    | RotatedEntity

  /** The optional tag of an operation: none, `'mov'` or `'upd'`. */
  datatype Tag = Untagged | Mov | Upd

  /** A history entry: the entity numbers named, the label, the tag, and the
      collections before and after the operation. */
  datatype HistoryEntry = HistoryEntry(
    ids: seq<int>,
    title: Label,
    tag: Tag,
    before: map<int, Snapshot>,
    after: map<int, Snapshot>)

  /** Every snapshot is stored under its own entity number. */
  predicate Keyed(m: map<int, Snapshot>) {
    forall k :: k in m ==> m[k].entityNumber == k
  }

  class Blueprint {
    var entities: map<int, Snapshot>
    var history: seq<HistoryEntry>
    /** The footprint the position grid last recorded for each entity number. */
    var tiles: map<int, Area>

    /** The class invariant: every snapshot is stored under its own number.
        `Operation` keeps it for every mutation that keeps it. */
    ghost predicate Valid()
      reads this
    {
      Keyed(entities)
    }

    constructor (initial: map<int, Snapshot>, footprints: map<int, Area>)
      requires Keyed(initial)
      ensures Valid()
      ensures entities == initial && history == [] && tiles == footprints
    {
      entities := initial;
      history := [];
      tiles := footprints;
    }

    /** `BP.operation(ids, title, mutate, tag, pushToHistory)`: the collection is
        replaced by `mutate` of it as one version, and an entry recording both
        versions is appended exactly when `pushToHistory` holds. */
    method Operation(ids: seq<int>, title: Label, mutate: map<int, Snapshot> -> map<int, Snapshot>,
                     tag: Tag, pushToHistory: bool)
      requires Valid() && Keyed(mutate(entities))
      modifies this
      ensures Valid()
      ensures entities == mutate(old(entities))
      ensures history == old(history) +
                         (if pushToHistory then [HistoryEntry(ids, title, tag, old(entities), entities)] else [])
      ensures tiles == old(tiles)
    {
      var before := entities;
      entities := mutate(entities);
      if pushToHistory {
        history := history + [HistoryEntry(ids, title, tag, before, entities)];
      }
    }

    /** `entityPositionGrid.setTileData(n)`: the grid records `footprint` for `n`. */
    method SetTileData(n: int, footprint: Area)
      modifies this
      ensures Valid() == old(Valid())
      ensures tiles == old(tiles)[n := footprint]
      ensures entities == old(entities) && history == old(history)
    {
      tiles := tiles[n := footprint];
    }

    /** `entityPositionGrid.removeTileData(n)`: the grid forgets `n`'s footprint. */
    method RemoveTileData(n: int)
      modifies this
      ensures Valid() == old(Valid())
      ensures tiles == old(tiles) - {n}
      ensures entities == old(entities) && history == old(history)
    {
      tiles := tiles - {n};
    }
  }
}
