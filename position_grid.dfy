/** Blueprint geometry and the position grid's query interface.

    Positions are counted in half tiles: every position the editor produces is a
    multiple of half a tile, so `Pos(x, y)` stands for the point (x/2, y/2) in
    tiles. The grid's cell bookkeeping is not part of this model; its answers are
    supplied as a `GridQueries` value. */
module PositionGrid {
  import opened JsBase

  /** A point in half-tile units. */
  datatype Pos = Pos(x: int, y: int)

  /** A rectangle given by its centre (half tiles) and its width and height
      (whole tiles), as `new Area({x, y, width, height}, true)` builds it. */
  datatype Area = Area(center: Pos, width: nat, height: nat)

  /** Top-left corner of an area, in half tiles. */
  function AreaTopLeft(a: Area): Pos {
    Pos(a.center.x - a.width, a.center.y - a.height)
  }

  /** Bottom-right corner of an area, in half tiles. */
  function AreaBottomRight(a: Area): Pos {
    Pos(a.center.x + a.width, a.center.y + a.height)
  }

  /** The area lies inside the blueprint rectangle [0, width] x [0, height]
      (tiles). */
  predicate AreaWithin(a: Area, width: int, height: int) {
    && 0 <= AreaTopLeft(a).x && 0 <= AreaTopLeft(a).y
    && AreaBottomRight(a).x <= 2 * width && AreaBottomRight(a).y <= 2 * height
  }

  /** The answers of the position grid at the moment of a call:
      - noOverlap(name, direction, position): `checkNoOverlap`;
      - sharesCell(area): `sharesCell`;
      - overlapping(area): the entity numbers `foreachOverlap` visits, in order;
      - surrounding(area): the entity numbers `getSurroundingEntities` visits, in order;
      - findSameNameAndDirection(name, direction, position, searchDirection, maxDistance):
        `findEntityWithSameNameAndDirection`. */
  datatype GridQueries = GridQueries(
    noOverlap: (string, int, Pos) -> bool,
    sharesCell: Area -> bool,
    overlapping: Area -> seq<int>,
    surrounding: Area -> seq<int>,
    findSameNameAndDirection: (string, int, Pos, int, int) -> Option<int>)
}
