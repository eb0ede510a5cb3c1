/** Chunk voxel storage (`ChunkData`): a fixed 64 x 64 x 64 cube of boolean
    cells kept in one flat array, with the linearisation between cell
    coordinates and array slots. */
module Voxel {
  import opened Wrappers

  /** Edge length of a chunk, in voxels (`CHUNK_SIZE`). */
  const ChunkSize: nat := 64

  /** Number of cells in a chunk, which is the length of the backing array. */
  const Volume: nat := ChunkSize * ChunkSize * ChunkSize

  /** `usize` arithmetic wraps modulo 2^64 in release builds. */
  const UsizeModulus: nat := 0x1_0000_0000_0000_0000

  datatype Coordinates = Coordinates(x: nat, y: nat, z: nat)

  /** The negation of the guard that makes `set` and `get` panic. */
  predicate InBounds(x: nat, y: nat, z: nat) {
    x < ChunkSize && y < ChunkSize && z < ChunkSize
  }

  /** `position_from_coordinates`: z varies fastest, then y, then x. Every
      in-bounds cell has a slot inside the array. */
  function PositionFromCoordinates(x: nat, y: nat, z: nat): (pos: nat)
    ensures InBounds(x, y, z) ==> pos < Volume
  {
    ChunkSize * (ChunkSize * x + y) + z
  }

  /** The inverse of the linearisation, derived from the forward formula. */
  function CoordinatesFromPosition(pos: nat): (c: Coordinates)
    ensures c.y < ChunkSize && c.z < ChunkSize
    ensures pos < Volume <==> c.x < ChunkSize
  {
    Coordinates(pos / (ChunkSize * ChunkSize), (pos / ChunkSize) % ChunkSize, pos % ChunkSize)
  }

  /** Division with remainder determines quotient and remainder. */
  lemma DivModOf(p: nat, d: nat, q: nat, r: nat)
    requires 0 < d && r < d && p == q * d + r
    ensures p / d == q && p % d == r
  {
    MulGap(q, p / d, d);
    MulGap(p / d, q, d);
  }

  /** A larger multiple of d is larger by at least d. */
  lemma MulGap(a: nat, b: nat, d: nat)
    ensures a < b ==> a * d + d <= b * d
  {
    if a < b {
      var k := b - a - 1;
      assert b * d == a * d + d + k * d;
      assert k * d >= 0;
    }
  }

  /** Slot to coordinates and back gives the slot again, for every slot. */
  lemma PositionRoundTrip(pos: nat)
    ensures var c := CoordinatesFromPosition(pos); PositionFromCoordinates(c.x, c.y, c.z) == pos
  {
    var c := CoordinatesFromPosition(pos);
    var rows := pos / ChunkSize;
    assert pos == rows * ChunkSize + c.z;
    assert rows == (rows / ChunkSize) * ChunkSize + c.y;
    DivModOf(pos, ChunkSize * ChunkSize, rows / ChunkSize, c.y * ChunkSize + c.z);
  }

  /** Coordinates to slot and back gives the coordinates again, for every
      in-bounds cell. */
  lemma CoordinatesRoundTrip(x: nat, y: nat, z: nat)
    requires InBounds(x, y, z)
    ensures CoordinatesFromPosition(PositionFromCoordinates(x, y, z)) == Coordinates(x, y, z)
  {
    var pos := PositionFromCoordinates(x, y, z);
    DivModOf(pos, ChunkSize, ChunkSize * x + y, z);
    DivModOf(ChunkSize * x + y, ChunkSize, x, y);
    DivModOf(pos, ChunkSize * ChunkSize, x, ChunkSize * y + z);
  }

  /** Distinct in-bounds cells never share a slot. */
  lemma PositionInjective(x: nat, y: nat, z: nat, a: nat, b: nat, c: nat)
    requires InBounds(x, y, z) && InBounds(a, b, c)
    requires PositionFromCoordinates(x, y, z) == PositionFromCoordinates(a, b, c)
    ensures x == a && y == b && z == c
  {
    CoordinatesRoundTrip(x, y, z);
    CoordinatesRoundTrip(a, b, c);
  }

  /** Every slot of the array belongs to exactly one in-bounds cell. */
  lemma PositionCoversChunk(pos: nat)
    requires pos < Volume
    ensures exists x: nat, y: nat, z: nat :: InBounds(x, y, z) && PositionFromCoordinates(x, y, z) == pos
  {
    var c := CoordinatesFromPosition(pos);
    PositionRoundTrip(pos);
    assert InBounds(c.x, c.y, c.z) && PositionFromCoordinates(c.x, c.y, c.z) == pos;
  }

  // ---------------------------------------------------------------------
  // `coordinates_from_position` as the source writes it.

  /** Rust build profile: overflow checks panic in Debug and wrap in Release. */
  datatype Profile = Debug | Release

  /** `usize` subtraction: None is the Debug-build underflow panic. */
  function UsizeSub(a: nat, b: nat, profile: Profile): (r: Option<nat>)
    requires a < UsizeModulus && b < UsizeModulus
    ensures a >= b ==> r == Some(a - b)
    ensures a < b ==> (r.None? <==> profile == Debug)
    ensures r.Some? ==> r.value < UsizeModulus && (r.value + b) % UsizeModulus == a
  {
    if a >= b then Some(a - b)
    else if profile == Debug then None
    else Some(a - b + UsizeModulus)
  }

  /** The source's inverse: it takes `pos % 4096` as x, where `pos / 4096` was
      meant, and then subtracts multiples of that x from `pos`. None is a
      Debug-build panic. The products `x * 64` and `x * 4096` stay below
      2^24, so only the subtractions can overflow. */
  function CoordinatesFromPositionAsWritten(pos: nat, profile: Profile): (r: Option<Coordinates>)
    requires pos < UsizeModulus
    ensures r.Some? ==> r.value.x < ChunkSize * ChunkSize && r.value.y < ChunkSize && r.value.z < ChunkSize
    ensures profile == Release ==> r.Some?
  {
    var x := pos % (ChunkSize * ChunkSize);
    match UsizeSub(pos, x * ChunkSize, profile)
    case None => None
    case Some(d1) =>
      var y := d1 % ChunkSize;
      match UsizeSub(pos, y * ChunkSize, profile)
      case None => None
      case Some(d2) =>
        match UsizeSub(d2, x * ChunkSize * ChunkSize, profile)
        case None => None
        case Some(d3) => Some(Coordinates(x, y, d3 % ChunkSize))
  }

  /** The counterexample at slot 1, the cell (0, 0, 1): a Debug build panics
      on `1 - 64`, a Release build answers (1, 1, 1). */
  lemma AsWrittenFailsAtOne()
    ensures CoordinatesFromPosition(1) == Coordinates(0, 0, 1)
    ensures CoordinatesFromPositionAsWritten(1, Debug) == None
    ensures CoordinatesFromPositionAsWritten(1, Release) == Some(Coordinates(1, 1, 1))
  {
    // Release: `1 - 64` wraps to 2^64 - 63 (y = 1); `(2^64 - 63) - 4096` does not wrap (z = 1)
    assert UsizeSub(1, 64, Release) == Some(UsizeModulus - 63);
    assert UsizeSub(UsizeModulus - 63, 4096, Release) == Some(UsizeModulus - 4159);
    assert (UsizeModulus - 63) % ChunkSize == 1 && (UsizeModulus - 4159) % ChunkSize == 1;
  }

  /** In a Debug build every slot of the first x-plane except slot 0 panics. */
  lemma AsWrittenPanicsOnFirstPlane(pos: nat)
    requires 0 < pos < ChunkSize * ChunkSize
    ensures CoordinatesFromPositionAsWritten(pos, Debug) == None
  {
    DivModOf(pos, ChunkSize * ChunkSize, 0, pos);
  }

  /** Under either profile the source's inverse recovers no cell but the
      origin: wherever it answers the right coordinates, they are (0, 0, 0). */
  lemma AsWrittenInvertsOnlyOrigin(x: nat, y: nat, z: nat, profile: Profile)
    requires InBounds(x, y, z)
    requires CoordinatesFromPositionAsWritten(PositionFromCoordinates(x, y, z), profile) == Some(Coordinates(x, y, z))
    ensures x == 0 && y == 0 && z == 0
  {
    var pos := PositionFromCoordinates(x, y, z);
    DivModOf(pos, ChunkSize * ChunkSize, x, ChunkSize * y + z);
    // the computed x is 64 * y + z, which is below 64 only when y == 0 and z == x
    assert y == 0 && z == x;
    assert pos - x * ChunkSize == (ChunkSize - 1) * ChunkSize * x + x;
    DivModOf(pos - x * ChunkSize, ChunkSize, (ChunkSize - 1) * x, x);
  }

  // ---------------------------------------------------------------------
  // The chunk itself.

  /** `ChunkData`: the cells of one chunk, updated in place by `Set`. */
  class ChunkData {
    const cells: array<bool>

    ghost predicate Valid()
      reads this
    {
      cells.Length == Volume
    }

    /** The whole content of the chunk, slot by slot. */
    ghost function Cells(): (s: seq<bool>)
      reads this, cells
      requires Valid()
      ensures |s| == Volume
    {
      cells[..]
    }

    /** The occupancy of the cell at (x, y, z). */
    ghost function At(x: nat, y: nat, z: nat): bool
      reads this, cells
      requires Valid() && InBounds(x, y, z)
    {
      cells[PositionFromCoordinates(x, y, z)]
    }

    /** `new`: a chunk whose every cell is empty. */
    constructor ()
      ensures Valid() && fresh(cells)
      ensures Cells() == seq(Volume, _ => false)
      ensures forall x: nat, y: nat, z: nat :: InBounds(x, y, z) ==> !At(x, y, z)
    {
      cells := new bool[Volume](_ => false);
    }

    /** `from_array`: the chunk holds `arr` unchanged, so cell (x, y, z) is
        `arr[64 * (64 * x + y) + z]`. Rust's array type fixes the length. */
    constructor FromArray(arr: seq<bool>)
      requires |arr| == Volume
      ensures Valid() && fresh(cells)
      ensures Cells() == arr
      ensures forall x: nat, y: nat, z: nat :: InBounds(x, y, z) ==> At(x, y, z) == arr[PositionFromCoordinates(x, y, z)]
    {
      cells := new bool[Volume](i requires 0 <= i < Volume => arr[i]);
    }

    /** `set`: panics (here: may not be called) unless the cell is in
        bounds; writes that one cell and no other. */
    method Set(value: bool, x: nat, y: nat, z: nat)
      requires Valid() && InBounds(x, y, z)
      modifies cells
      ensures Valid()
      ensures Cells() == old(Cells())[PositionFromCoordinates(x, y, z) := value]
      ensures At(x, y, z) == value
      ensures forall a: nat, b: nat, c: nat :: InBounds(a, b, c) && (a, b, c) != (x, y, z) ==> At(a, b, c) == old(At(a, b, c))
    {
      cells[PositionFromCoordinates(x, y, z)] := value;
      forall a: nat, b: nat, c: nat | InBounds(a, b, c) && (a, b, c) != (x, y, z)
        ensures At(a, b, c) == old(At(a, b, c))
      {
        if PositionFromCoordinates(a, b, c) == PositionFromCoordinates(x, y, z) {
          PositionInjective(a, b, c, x, y, z);
        }
      }
    }

    /** `get`: same bounds check as `set`; reads the cell's slot and changes
        nothing, although the source takes `&mut self`. */
    method Get(x: nat, y: nat, z: nat) returns (value: bool)
      requires Valid() && InBounds(x, y, z)
      ensures value == cells[PositionFromCoordinates(x, y, z)]
      ensures value == At(x, y, z)
    {
      value := cells[PositionFromCoordinates(x, y, z)];
    }
  }
}
