/**
 * Axial hexagonal coordinates (crates/core/src/coords.rs): the cube form, the
 * neighbour and diagonal offset tables, the (unhalved) cube distance, integer line
 * drawing, hexagon membership, the Glinski file/rank lookup and the cell sets of the
 * three board shapes. Integers are unbounded: i32 overflow is not modelled.
 */
module Coords {
  import opened Wrappers

  datatype HexCoord = HexCoord(q: int, r: int)

  const Origin := HexCoord(0, 0)

  function Abs(x: int): nat { if x < 0 then -x else x }

  /** The cube form (q, r, s) of an axial coordinate. */
  function ToCube(c: HexCoord): (cube: (int, int, int))
    ensures cube.0 == c.q && cube.1 == c.r
    ensures cube.0 + cube.1 + cube.2 == 0
  {
    (c.q, c.r, -c.q - c.r)
  }

  /** Back from cube form; the third component is ignored. */
  function FromCube(q: int, r: int, s: int): (c: HexCoord)
    ensures ToCube(c).0 == q && ToCube(c).1 == r
    ensures q + r + s == 0 ==> ToCube(c) == (q, r, s)
  {
    HexCoord(q, r)
  }

  function Sub(a: HexCoord, b: HexCoord): HexCoord {
    HexCoord(a.q - b.q, a.r - b.r)
  }

  function Add(a: HexCoord, b: HexCoord): HexCoord {
    HexCoord(a.q + b.q, a.r + b.r)
  }

  /** Addition and subtraction act component by component: subtraction undoes
      addition and the reverse, addition commutes, and a - b is the origin only
      when a == b. */
  lemma AddSubInverse(a: HexCoord, b: HexCoord)
    ensures Sub(Add(a, b), b) == a
    ensures Add(Sub(a, b), b) == a
    ensures Add(a, b) == Add(b, a)
    ensures Sub(a, b) == Origin <==> a == b
  {
  }

  /** The values named by the crate's unit test. */
  lemma AddSubExamples()
    ensures Add(HexCoord(1, 2), HexCoord(3, 1)) == HexCoord(4, 3)
    ensures Sub(HexCoord(3, 1), HexCoord(1, 2)) == HexCoord(2, -1)
  {
  }

  /** East, northeast, northwest, west, southwest, southeast. */
  const NeighborOffsets: seq<HexCoord> :=
    [HexCoord(1, 0), HexCoord(1, -1), HexCoord(0, -1), HexCoord(-1, 0), HexCoord(-1, 1), HexCoord(0, 1)]

  /** The six across-corner offsets. */
  const DiagonalOffsets: seq<HexCoord> :=
    [HexCoord(2, -1), HexCoord(1, -2), HexCoord(-1, -1), HexCoord(-2, 1), HexCoord(-1, 2), HexCoord(1, 1)]

  /** The cube distance as the code computes it: the sum of the absolute
      differences of the three cube components (q, r, s = -q - r), not halved. */
  function DistanceTo(a: HexCoord, b: HexCoord): (d: nat)
    ensures d == 0 <==> a == b
  {
    Abs(a.q - b.q) + Abs(a.r - b.r) + Abs((-a.q - a.r) - (-b.q - b.r))
  }

  /** The distance is symmetric and always even: the largest of the three cube
      differences equals the sum of the other two. */
  lemma DistanceSymmetricAndEven(a: HexCoord, b: HexCoord)
    ensures DistanceTo(a, b) == DistanceTo(b, a)
    ensures DistanceTo(a, b) % 2 == 0
  {
    var x, y, z := Abs(a.q - b.q), Abs(a.r - b.r), Abs((-a.q - a.r) - (-b.q - b.r));
    assert DistanceTo(a, b) == x + y + z;
    assert x == y + z || y == x + z || z == x + y;
  }

  /** The doubled distance shows up on the cases the crate's unit test names. */
  lemma DistanceExamples()
    ensures DistanceTo(Origin, HexCoord(1, 0)) == 2
    ensures DistanceTo(Origin, HexCoord(2, 1)) == 6
  {
  }

  function Neighbors(c: HexCoord): (cells: seq<HexCoord>)
    ensures |cells| == 6
    ensures forall i, j :: 0 <= i < j < 6 ==> cells[i] != cells[j]
    ensures forall i :: 0 <= i < 6 ==> cells[i] != c
  {
    [ HexCoord(c.q + 1, c.r), HexCoord(c.q + 1, c.r - 1), HexCoord(c.q, c.r - 1),
      HexCoord(c.q - 1, c.r), HexCoord(c.q - 1, c.r + 1), HexCoord(c.q, c.r + 1) ]
  }

  function DiagonalNeighbors(c: HexCoord): (cells: seq<HexCoord>)
    ensures |cells| == 6
    ensures forall i, j :: 0 <= i < j < 6 ==> cells[i] != cells[j]
    ensures forall i :: 0 <= i < 6 ==> cells[i] != c
  {
    [ HexCoord(c.q + 2, c.r - 1), HexCoord(c.q + 1, c.r - 2), HexCoord(c.q - 1, c.r - 1),
      HexCoord(c.q - 2, c.r + 1), HexCoord(c.q - 1, c.r + 2), HexCoord(c.q + 1, c.r + 1) ]
  }

  /** Both lists are the cell plus the fixed offset tables, in table order. */
  lemma NeighborOffsetsInOrder(c: HexCoord)
    ensures forall i :: 0 <= i < 6 ==> Neighbors(c)[i] == Add(c, NeighborOffsets[i])
    ensures forall i :: 0 <= i < 6 ==> DiagonalNeighbors(c)[i] == Add(c, DiagonalOffsets[i])
  {
  }

  /** Every neighbour lies at distance 2 and every diagonal neighbour at distance 4,
      so no cell is both. */
  lemma NeighborDistances(c: HexCoord)
    ensures forall n <- Neighbors(c) :: DistanceTo(c, n) == 2
    ensures forall n <- DiagonalNeighbors(c) :: DistanceTo(c, n) == 4
    ensures forall n <- Neighbors(c) :: n !in DiagonalNeighbors(c)
  {
    var ns, ds := Neighbors(c), DiagonalNeighbors(c);
    assert DistanceTo(c, ns[0]) == 2 && DistanceTo(c, ns[1]) == 2 && DistanceTo(c, ns[2]) == 2;
    assert DistanceTo(c, ns[3]) == 2 && DistanceTo(c, ns[4]) == 2 && DistanceTo(c, ns[5]) == 2;
    assert DistanceTo(c, ds[0]) == 4 && DistanceTo(c, ds[1]) == 4 && DistanceTo(c, ds[2]) == 4;
    assert DistanceTo(c, ds[3]) == 4 && DistanceTo(c, ds[4]) == 4 && DistanceTo(c, ds[5]) == 4;
  }

  /** Integer division truncating toward zero, as Rust's i32 `/` does. */
  function TruncDiv(a: int, n: int): (x: int)
    requires n > 0
    ensures a >= 0 ==> 0 <= a - n * x < n
    ensures a < 0 ==> -n < a - n * x <= 0
  {
    if a >= 0 then a / n else -((-a) / n)
  }

  lemma {:induction false} DivOfMultiple(x: nat, n: int)
    requires n > 0
    ensures (x * n) / n == x
  {
    var y := x * n;
    var d, m := y / n, y % n;
    assert y == d * n + m && 0 <= m < n;
    assert (x - d) * n == m;
    assert x - d >= 1 ==> (x - d) * n >= n;
    assert x - d <= -1 ==> (x - d) * n <= -n;
  }

  /** Truncating division undoes multiplication, whatever the sign. */
  lemma {:induction false} TruncDivMultiple(x: int, n: int)
    requires n > 0
    ensures TruncDiv(x * n, n) == x
  {
    if x >= 0 {
      DivOfMultiple(x, n);
    } else {
      assert -(x * n) == (-x) * n;
      DivOfMultiple(-x, n);
    }
  }

  /** The i-th point of the interpolated line from a to b in n steps. */
  function LinePoint(a: HexCoord, b: HexCoord, i: int, n: int): HexCoord
    requires n > 0
  {
    HexCoord(a.q + TruncDiv((b.q - a.q) * i, n), a.r + TruncDiv((b.r - a.r) * i, n))
  }

  /** line_to: one point per step 0..=distance, using truncating division. */
  method LineTo(a: HexCoord, b: HexCoord) returns (line: seq<HexCoord>)
    ensures DistanceTo(a, b) == 0 ==> line == [a]
    ensures DistanceTo(a, b) > 0 ==> |line| == DistanceTo(a, b) + 1
    ensures DistanceTo(a, b) > 0 ==>
      forall i :: 0 <= i < |line| ==> line[i] == LinePoint(a, b, i, DistanceTo(a, b))
    ensures |line| > 0 && line[0] == a && line[|line| - 1] == b
  {
    var distance := DistanceTo(a, b);
    if distance == 0 {
      return [a];
    }
    line := [];
    for i := 0 to distance + 1
      invariant |line| == i
      invariant forall j :: 0 <= j < i ==> line[j] == LinePoint(a, b, j, distance)
    {
      var q := a.q + TruncDiv((b.q - a.q) * i, distance);
      var r := a.r + TruncDiv((b.r - a.r) * i, distance);
      line := line + [HexCoord(q, r)];
    }
    TruncDivMultiple(b.q - a.q, distance);
    TruncDivMultiple(b.r - a.r, distance);
    TruncDivMultiple(0, distance);
  }

  /** Membership of the regular hexagon of the given radius: each of the three cube
      components is at most the radius in absolute value. */
  predicate InHexagon(c: HexCoord, radius: int) {
    Abs(c.q) <= radius && Abs(c.r) <= radius && Abs(-c.q - c.r) <= radius
  }

  /** The hexagon of radius R is the ball of radius 2R for the unhalved distance. */
  lemma InHexagonIsDistanceBall(c: HexCoord, radius: int)
    ensures InHexagon(c, radius) <==> DistanceTo(c, Origin) <= 2 * radius
  {
    var a, b, s := Abs(c.q), Abs(c.r), Abs(-c.q - c.r);
    assert DistanceTo(c, Origin) == a + b + s;
    assert InHexagon(c, radius) <==> a <= radius && b <= radius && s <= radius;
    LargestIsSumOfOthers(c.q, c.r);
    BoundedParts(a, b, s, radius);
  }

  /** Of |q|, |r| and |q + r|, one is the sum of the other two. */
  lemma LargestIsSumOfOthers(q: int, r: int)
    ensures Abs(q) == Abs(r) + Abs(-q - r) || Abs(r) == Abs(q) + Abs(-q - r) || Abs(-q - r) == Abs(q) + Abs(r)
  {
  }

  /** When one of three parts is the sum of the other two, all three are at most R
      exactly when their total is at most 2R. */
  lemma BoundedParts(a: nat, b: nat, s: nat, radius: int)
    requires a == b + s || b == a + s || s == a + b
    ensures (a <= radius && b <= radius && s <= radius) <==> a + b + s <= 2 * radius
  {
  }

  /** The origin lies in every hexagon of non-negative radius. */
  lemma OriginInHexagon(radius: int)
    requires radius >= 0
    ensures InHexagon(Origin, radius)
  {
  }

  /** The cases named by the crate's unit test. */
  lemma HexagonBoundsExamples()
    ensures InHexagon(Origin, 2) && InHexagon(HexCoord(2, 0), 2) && !InHexagon(HexCoord(3, 0), 2)
  {
  }

  /** Files a..l without j, with f as the spine q = 0. */
  function FileIndex(file: char): Option<int> {
    match file
    case 'a' => Some(-5)
    case 'b' => Some(-4)
    case 'c' => Some(-3)
    case 'd' => Some(-2)
    case 'e' => Some(-1)
    case 'f' => Some(0)
    case 'g' => Some(1)
    case 'h' => Some(2)
    case 'i' => Some(3)
    case 'k' => Some(4)
    case 'l' => Some(5)
    case _ => None
  }

  function RankRow(rank: nat): Option<int> {
    match rank
    case 1 => Some(4)
    case 2 => Some(3)
    case 3 => Some(2)
    case 4 => Some(1)
    case 5 => Some(0)
    case 6 => Some(-1)
    case 7 => Some(-2)
    case 8 => Some(-3)
    case 9 => Some(-4)
    case 10 => Some(-5)
    case 11 => Some(-6)
    case _ => None
  }

  /** Glinski file/rank notation to axial coordinates (rank is a u8 in the source). */
  function FileRankToAxial(file: char, rank: nat): (c: Option<HexCoord>)
    ensures c.Some? ==> 1 <= rank <= 11 && c.value.r == 5 - rank && FileIndex(file) == Some(c.value.q)
    ensures file == 'j' || FileIndex(file).None? || rank < 1 || rank > 11 ==> c.None?
  {
    match FileIndex(file)
    case None => None
    case Some(q) =>
      match RankRow(rank)
      case None => None
      case Some(r) =>
        var valid :=
          if 1 <= rank <= 6 then true
          else if rank == 7 then file != 'a' && file != 'l'
          else if rank == 8 then -3 <= q <= 3
          else if rank == 9 then -2 <= q <= 2
          else if rank == 10 then -1 <= q <= 1
          else if rank == 11 then q == 0
          else false;
        if valid then Some(HexCoord(q, r)) else None
  }

  /** The lookup is described as one for the radius-5 board, yet two of its
      corners fall outside that hexagon: f11 and l1. */
  lemma FileRankLeavesHexagon()
    ensures FileRankToAxial('f', 11) == Some(HexCoord(0, -6)) && !InHexagon(HexCoord(0, -6), 5)
    ensures FileRankToAxial('l', 1) == Some(HexCoord(5, 4)) && !InHexagon(HexCoord(5, 4), 5)
  {
  }

  /** Distinct (file, rank) pairs never map to the same cell. */
  lemma FileRankInjective(f1: char, k1: nat, f2: char, k2: nat)
    requires FileRankToAxial(f1, k1).Some? && FileRankToAxial(f1, k1) == FileRankToAxial(f2, k2)
    ensures f1 == f2 && k1 == k2
  {
  }

  /** The listed files, in board order. */
  const Files: seq<char> := ['a', 'b', 'c', 'd', 'e', 'f', 'g', 'h', 'i', 'k', 'l']

  /** How many of the given files name a cell on the given rank. */
  function CountOnRank(files: seq<char>, rank: nat): nat {
    if files == [] then 0
    else (if FileRankToAxial(files[0], rank).Some? then 1 else 0) + CountOnRank(files[1..], rank)
  }

  /** How many (file, rank) pairs with rank in 1..n name a cell. */
  function CountUpToRank(n: nat): nat {
    if n == 0 then 0 else CountUpToRank(n - 1) + CountOnRank(Files, n)
  }

  /** On ranks 1..6 every listed file names a cell. */
  lemma {:induction false} LowRankCount(files: seq<char>, rank: nat)
    requires forall f <- files :: f in Files
    requires 1 <= rank <= 6
    ensures CountOnRank(files, rank) == |files|
  {
    if files != [] {
      assert files[0] in files;
      assert FileIndex(files[0]).Some?;
      LowRankCount(files[1..], rank);
    }
  }

  /** On ranks 7..11 the listed file at position j (q = j - 5) names a cell exactly
      when |q| <= 11 - rank. */
  lemma OnRankWindow(j: nat, rank: nat)
    requires j < |Files| && 7 <= rank <= 11
    ensures FileRankToAxial(Files[j], rank).Some? <==> rank - 6 <= j <= 16 - rank
  {
    assert FileIndex(Files[j]) == Some(j - 5);
  }

  /** Counting the window from position i is counting it from i + 1, plus one when i
      itself lies in the window. */
  lemma WindowStep(i: int, rank: int)
    ensures Max(0, 17 - rank - Max(i, rank - 6)) ==
      (if rank - 6 <= i <= 16 - rank then 1 else 0) + Max(0, 17 - rank - Max(i + 1, rank - 6))
  {
  }

  /** The files from position i on that name a cell on a rank in 7..11: the part of
      the window |q| <= 11 - rank that lies at or after i. */
  lemma {:induction false} WindowCount(i: nat, rank: nat)
    requires i <= |Files| && 7 <= rank <= 11
    ensures CountOnRank(Files[i..], rank) == Max(0, 17 - rank - Max(i, rank - 6))
    decreases |Files| - i
  {
    if i < |Files| {
      assert Files[i..][0] == Files[i] && Files[i..][1..] == Files[i + 1..];
      OnRankWindow(i, rank);
      WindowCount(i + 1, rank);
      WindowStep(i, rank);
    }
  }

  /** Ranks 7 to 11 hold 9, 7, 5, 3 and 1 cells: the files with |q| <= 11 - rank. */
  lemma RankCount(rank: nat)
    requires 7 <= rank <= 11
    ensures CountOnRank(Files, rank) == 2 * (11 - rank) + 1
  {
    WindowCount(0, rank);
    assert Files[0..] == Files;
  }

  /** Exactly 91 (file, rank) pairs with a listed file and a rank in 1..11 name a
      cell: 11 on each of ranks 1..6, then 9, 7, 5, 3 and 1. */
  lemma {:induction false} NinetyOneSquares()
    ensures CountUpToRank(11) == 91
  {
    LowRankCount(Files, 1);
    LowRankCount(Files, 2);
    LowRankCount(Files, 3);
    LowRankCount(Files, 4);
    LowRankCount(Files, 5);
    LowRankCount(Files, 6);
    RankCount(7);
    RankCount(8);
    RankCount(9);
    RankCount(10);
    RankCount(11);
  }

  /** Only the eleven listed files, each listed once, and ranks 1..11 can name a
      cell, so the count above covers every pair. */
  lemma FileRankDomain(f: char, k: nat)
    ensures FileRankToAxial(f, k).Some? ==> f in Files && 1 <= k <= 11
    ensures forall i, j :: 0 <= i < j < |Files| ==> Files[i] != Files[j]
  {
  }

  /** The three board shapes. */
  datatype BoardType = Regular(radius: int) | Irregular | Small

  /** The cells of the regular hexagon of the given radius. */
  function HexagonCells(radius: int): set<HexCoord> {
    set q: int, r: int | -radius <= q <= radius && -radius <= r <= radius && InHexagon(HexCoord(q, r), radius)
      :: HexCoord(q, r)
  }

  /** The cells a board shape declares: a hexagon for Regular, the radius-3 hexagon
      for Small, and nothing for Irregular. */
  function Cells(boardType: BoardType): set<HexCoord> {
    match boardType
    case Regular(radius) => HexagonCells(radius)
    case Small => HexagonCells(3)
    case Irregular => {}
  }

  /** A cell belongs to the hexagon exactly when it passes in_hexagon. */
  lemma HexagonCellsMembership(c: HexCoord, radius: int)
    ensures c in HexagonCells(radius) <==> InHexagon(c, radius)
  {
    if InHexagon(c, radius) {
      assert c == HexCoord(c.q, c.r);
    }
  }

  /** Number of r in [-radius, r) for which (q, r) is in the hexagon. */
  function RowPrefix(q: int, radius: int, r: int): nat
    decreases r + radius
  {
    if r <= -radius then 0
    else RowPrefix(q, radius, r - 1) + (if InHexagon(HexCoord(q, r - 1), radius) then 1 else 0)
  }

  /** Number of hexagon cells in the columns [-radius, q). */
  function ColumnsPrefix(q: int, radius: int): nat
    decreases q + radius
  {
    if q <= -radius then 0
    else ColumnsPrefix(q - 1, radius) + RowPrefix(q - 1, radius, radius + 1)
  }

  function Max(a: int, b: int): int { if a < b then b else a }
  function Min(a: int, b: int): int { if a < b then a else b }

  /** The prefix count is the length of [lo, min(r, hi + 1)), where lo..hi is the
      run of rows of column q that lie in the hexagon. */
  lemma {:induction false} RowPrefixClosedForm(q: int, radius: int, r: int)
    requires radius >= 0 && -radius <= q <= radius && -radius <= r
    ensures RowPrefix(q, radius, r) == Max(0, Min(r, Min(radius, radius - q) + 1) - Max(-radius, -radius - q))
    decreases r + radius
  {
    if r > -radius {
      RowPrefixClosedForm(q, radius, r - 1);
    }
  }

  /** Column q holds 2 * radius + 1 - |q| cells. */
  lemma RowLength(q: int, radius: int)
    requires radius >= 0 && -radius <= q <= radius
    ensures RowPrefix(q, radius, radius + 1) == 2 * radius + 1 - Abs(q)
  {
    RowPrefixClosedForm(q, radius, radius + 1);
  }

  // Polynomial identities behind the column counts, kept apart from the counts.
  lemma LeftStep(k: int, radius: int)
    ensures (k - 1) * (2 * radius + 2) + (k - 1) * (k - 2) + 2 * (radius + k) == k * (2 * radius + 2) + k * (k - 1)
  {
  }

  lemma MiddleColumn(radius: int)
    ensures radius * (2 * radius + 2) + radius * (radius - 1) == 3 * radius * radius + radius
  {
  }

  lemma RightStep(q: int, radius: int)
    ensures 3 * radius * radius + radius + (q - 1) * (4 * radius + 2) - (q - 1) * (q - 2) + 2 * (2 * radius + 2 - q)
      == 3 * radius * radius + radius + q * (4 * radius + 2) - q * (q - 1)
  {
  }

  lemma FullCount(radius: int)
    ensures 3 * radius * radius + radius + (radius + 1) * (4 * radius + 2) - (radius + 1) * radius
      == 2 * (3 * radius * radius + 3 * radius + 1)
  {
  }

  /** Twice the number of cells in the columns [-radius, q), for q up to 0. */
  lemma {:induction false} LeftColumnsCount(q: int, radius: int)
    requires radius >= 0 && -radius <= q <= 0
    ensures 2 * ColumnsPrefix(q, radius) == (q + radius) * (2 * radius + 2) + (q + radius) * (q + radius - 1)
    decreases q + radius
  {
    if q > -radius {
      LeftColumnsCount(q - 1, radius);
      RowLength(q - 1, radius);
      LeftStep(q + radius, radius);
    }
  }

  /** Twice the number of cells in the columns [-radius, q), for q from 0. */
  lemma {:induction false} RightColumnsCount(q: int, radius: int)
    requires radius >= 0 && 0 <= q <= radius + 1
    ensures 2 * ColumnsPrefix(q, radius) == 3 * radius * radius + radius + q * (4 * radius + 2) - q * (q - 1)
    decreases q
  {
    if q == 0 {
      LeftColumnsCount(0, radius);
      MiddleColumn(radius);
    } else {
      RightColumnsCount(q - 1, radius);
      RowLength(q - 1, radius);
      RightStep(q, radius);
    }
  }

  /** The regular hexagon of radius R has 3R^2 + 3R + 1 cells. */
  lemma HexagonCount(radius: int)
    requires radius >= 0
    ensures ColumnsPrefix(radius + 1, radius) == 3 * radius * radius + 3 * radius + 1
  {
    RightColumnsCount(radius + 1, radius);
    FullCount(radius);
  }

  /** The inner loop of valid_coords: column q of the hexagon, row by row. */
  method AddColumn(coords: set<HexCoord>, q: int, radius: int) returns (out: set<HexCoord>)
    requires radius >= 0
    requires forall c :: c in coords ==> c.q < q
    ensures forall c :: c in out <==> c in coords || (c.q == q && InHexagon(c, radius))
    ensures |out| == |coords| + RowPrefix(q, radius, radius + 1)
  {
    out := coords;
    for r := -radius to radius + 1
      invariant forall c :: c in out <==> c in coords || (c.q == q && c.r < r && InHexagon(c, radius))
      invariant |out| == |coords| + RowPrefix(q, radius, r)
    {
      var coord := HexCoord(q, r);
      if InHexagon(coord, radius) {
        out := out + {coord};
      }
    }
  }

  /** The nested loops filling a hexagon of the given radius. */
  method HexagonCoords(radius: int) returns (coords: set<HexCoord>)
    ensures coords == HexagonCells(radius)
    ensures radius >= 0 ==> |coords| == 3 * radius * radius + 3 * radius + 1
    ensures radius < 0 ==> coords == {}
  {
    coords := {};
    if radius < 0 {
      return;
    }
    for q := -radius to radius + 1
      invariant forall c :: c in coords <==> c.q < q && InHexagon(c, radius)
      invariant |coords| == ColumnsPrefix(q, radius)
    {
      coords := AddColumn(coords, q, radius);
    }
    forall c ensures c in coords <==> c in HexagonCells(radius) {
      HexagonCellsMembership(c, radius);
    }
    HexagonCount(radius);
  }

  /** valid_coords: the cells of each board shape, with their number. */
  method ValidCoords(boardType: BoardType) returns (coords: set<HexCoord>)
    ensures coords == Cells(boardType)
    ensures boardType.Regular? && boardType.radius >= 0 ==>
      |coords| == 3 * boardType.radius * boardType.radius + 3 * boardType.radius + 1
    ensures boardType.Small? ==> |coords| == 37
    ensures boardType.Irregular? ==> coords == {}
  {
    match boardType {
      case Regular(radius) =>
        coords := HexagonCoords(radius);
      case Small =>
        coords := HexagonCoords(3);
      case Irregular =>
        coords := {};
    }
  }

  /** The cells of Regular(R) are exactly those passing in_hexagon(R); the radius-1
      board holds the origin and its east and west neighbours. */
  lemma RegularCellsAreHexagon(radius: int, c: HexCoord)
    ensures c in Cells(Regular(radius)) <==> InHexagon(c, radius)
    ensures c in Cells(Small) <==> InHexagon(c, 3)
    ensures Origin in Cells(Regular(1)) && HexCoord(1, 0) in Cells(Regular(1)) && HexCoord(-1, 0) in Cells(Regular(1))
  {
    HexagonCellsMembership(c, radius);
    HexagonCellsMembership(c, 3);
    HexagonCellsMembership(Origin, 1);
    HexagonCellsMembership(HexCoord(1, 0), 1);
    HexagonCellsMembership(HexCoord(-1, 0), 1);
  }

  /** The centre is the origin for every shape. */
  function Center(boardType: BoardType): HexCoord {
    Origin
  }

  /** The centre is a cell of every Regular board of non-negative radius and of Small. */
  lemma CenterOnBoard(boardType: BoardType)
    requires boardType.Small? || (boardType.Regular? && boardType.radius >= 0)
    ensures Center(boardType) in Cells(boardType)
  {
    HexagonCellsMembership(Origin, 3);
    if boardType.Regular? {
      HexagonCellsMembership(Origin, boardType.radius);
    }
  }
}
