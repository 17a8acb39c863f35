/**
 * `generate_quadrants` and the `QUADRANT_TO_COMUNA` lookup of the scraper:
 * the region's bounding box is cut into a grid of quadrants, listed row by
 * row and named "RM Cuadrante <row>-<column>" from 1; stripping the prefix
 * from a name gives the key of the quadrant-to-comuna table.
 */
module Quadrants {
  import opened Optional
  import opened Strings
  import opened Comunas

  datatype BBox = BBox(minLat: real, maxLat: real, minLon: real, maxLon: real)

  /** `RM_BOUNDING_BOX`. */
  const RmBoundingBox := BBox(-33.83, -33.15, -71.08, -70.41)

  /** The grid size the scraper uses for `RM_QUADRANTS`. */
  const RmGridSize := 3

  datatype Quadrant = Quadrant(minLat: real, maxLat: real, minLon: real, maxLon: real,
                               lat: real, lon: real, name: string)

  const NamePrefix := "RM Cuadrante "

  /** `f"{i+1}-{j+1}"`. */
  function QuadrantKey(i: nat, j: nat): string {
    NatToString(i + 1) + "-" + NatToString(j + 1)
  }

  function QuadrantName(i: nat, j: nat): string {
    NamePrefix + QuadrantKey(i, j)
  }

  /** The `k`-th of the edges `lo + k·step` of a grid line. */
  function Edge(lo: real, step: real, k: nat): real {
    lo + k as real * step
  }

  /** Consecutive edges are one step apart. */
  lemma EdgeNext(lo: real, step: real, k: nat)
    ensures Edge(lo, step, k + 1) == Edge(lo, step, k) + step
  {
    assert (k + 1) as real * step == k as real * step + step;
  }

  /** The quadrant in row `i` and column `j` of a `g` by `g` grid over `b`. */
  function QuadrantAt(b: BBox, g: nat, i: nat, j: nat): (q: Quadrant)
    requires g > 0
    ensures q.name == QuadrantName(i, j)
  {
    var latStep := (b.maxLat - b.minLat) / g as real;
    var lonStep := (b.maxLon - b.minLon) / g as real;
    var minLat := Edge(b.minLat, latStep, i);
    var maxLat := Edge(b.minLat, latStep, i + 1);
    var minLon := Edge(b.minLon, lonStep, j);
    var maxLon := Edge(b.minLon, lonStep, j + 1);
    Quadrant(minLat, maxLat, minLon, maxLon, (minLat + maxLat) / 2.0, (minLon + maxLon) / 2.0, QuadrantName(i, j))
  }

  /** Row `i` of the grid up to column `j`, left to right. */
  function RowPrefix(b: BBox, g: nat, i: nat, j: nat): seq<Quadrant>
    requires g > 0
  {
    if j == 0 then [] else RowPrefix(b, g, i, j - 1) + [QuadrantAt(b, g, i, j - 1)]
  }

  /**
   * Every quadrant is a `1/g` slice of the box in each direction, with its
   * centre in the middle, and neighbouring quadrants share their edge.
   */
  lemma QuadrantGeometry(b: BBox, g: nat, i: nat, j: nat)
    requires g > 0
    ensures var q := QuadrantAt(b, g, i, j);
      && q.lat == (q.minLat + q.maxLat) / 2.0 && q.lon == (q.minLon + q.maxLon) / 2.0
      && q.maxLat - q.minLat == (b.maxLat - b.minLat) / g as real
      && q.maxLon - q.minLon == (b.maxLon - b.minLon) / g as real
      && QuadrantAt(b, g, i + 1, j).minLat == q.maxLat
      && QuadrantAt(b, g, i, j + 1).minLon == q.maxLon
  {
    EdgeNext(b.minLat, (b.maxLat - b.minLat) / g as real, i);
    EdgeNext(b.minLon, (b.maxLon - b.minLon) / g as real, j);
  }

  /** The first `i` rows of the grid, top to bottom. */
  function Rows(b: BBox, g: nat, i: nat): seq<Quadrant>
    requires g > 0
  {
    if i == 0 then [] else Rows(b, g, i - 1) + RowPrefix(b, g, i - 1, g)
  }

  /** The position of row `i`, column `j` in a row-major listing of a `g`-wide grid. */
  function Index(g: nat, i: nat, j: nat): nat {
    i * g + j
  }

  lemma {:induction false} RowPrefixAt(b: BBox, g: nat, i: nat, j: nat)
    requires g > 0
    ensures |RowPrefix(b, g, i, j)| == j
    ensures forall k :: 0 <= k < j ==> RowPrefix(b, g, i, j)[k] == QuadrantAt(b, g, i, k)
  {
    if j > 0 {
      RowPrefixAt(b, g, i, j - 1);
    }
  }

  lemma {:induction false} RowsLength(b: BBox, g: nat, n: nat)
    requires g > 0
    ensures |Rows(b, g, n)| == n * g
  {
    if n > 0 {
      RowsLength(b, g, n - 1);
      RowPrefixAt(b, g, n - 1, g);
      assert n * g == (n - 1) * g + g;
    }
  }

  /** The grid listing holds the quadrant of row `i` and column `j` at `i·g + j`. */
  lemma {:induction false} RowsAt(b: BBox, g: nat, n: nat, i: nat, j: nat)
    requires g > 0 && i < n && j < g
    ensures Index(g, i, j) < |Rows(b, g, n)|
    ensures Rows(b, g, n)[Index(g, i, j)] == QuadrantAt(b, g, i, j)
  {
    var before := Rows(b, g, n - 1);
    RowsLength(b, g, n - 1);
    RowPrefixAt(b, g, n - 1, g);
    if i < n - 1 {
      RowsAt(b, g, n - 1, i, j);
    } else {
      assert Index(g, i, j) == |before| + j;
    }
  }

  lemma IndexBelow(g: nat, i: nat, j: nat, rows: nat)
    requires i < rows && j < g
    ensures Index(g, i, j) < rows * g
  {
    MulLe(i + 1, rows, g);
    assert (i + 1) * g == i * g + g;
  }

  lemma {:induction false} MulLe(a: nat, b: nat, g: nat)
    requires a <= b
    ensures a * g <= b * g
    decreases b - a
  {
    if a < b {
      MulLe(a + 1, b, g);
      assert (a + 1) * g == a * g + g;
    }
  }

  /**
   * `generate_quadrants(bbox, grid_size)`: a zero grid size divides by zero
   * (None); a negative one gives no quadrant; otherwise `grid_size²`
   * quadrants, row by row.
   */
  method GenerateQuadrants(b: BBox, gridSize: int) returns (r: Option<seq<Quadrant>>)
    ensures r.None? <==> gridSize == 0
    ensures gridSize < 0 ==> r == Some([])
    ensures gridSize > 0 ==> r == Some(Rows(b, gridSize, gridSize))
  {
    if gridSize == 0 {
      return None;
    }
    var quadrants: seq<Quadrant> := [];
    if gridSize < 0 {
      // `range` of a negative size is empty
      return Some(quadrants);
    }
    var i := 0;
    while i < gridSize
      invariant 0 <= i <= gridSize
      invariant quadrants == Rows(b, gridSize, i)
    {
      var j := 0;
      while j < gridSize
        invariant 0 <= j <= gridSize
        invariant quadrants == Rows(b, gridSize, i) + RowPrefix(b, gridSize, i, j)
      {
        // the quadrant's bounds, centre and name
        var quadrant := QuadrantAt(b, gridSize, i, j);
        quadrants := quadrants + [quadrant];
        j := j + 1;
      }
      i := i + 1;
    }
    r := Some(quadrants);
  }

  /** `QUADRANT_TO_COMUNA`: the first two rows of the 3 by 3 grid. */
  function QuadrantToComuna(): map<string, string> {
    map[
      "1-1" := "Maipú/Padre Hurtado",
      "1-2" := "San Bernardo/Buin",
      "1-3" := "Puente Alto/La Florida",
      "2-1" := "Pudahuel/Cerro Navia",
      "2-2" := "Santiago Centro/Estación Central",
      "2-3" := "Las Condes/Providencia"
    ]
  }

  /**
   * The comuna `process_waze_data` reports for a quadrant: the table entry
   * for the name with "RM Cuadrante " removed, else the comuna of its centre.
   */
  function MappedComuna(q: Quadrant): string {
    var key := RemoveAll(q.name, NamePrefix);
    if key in QuadrantToComuna() then QuadrantToComuna()[key]
    else ComunaFromCoordinates(q.lat, q.lon)
  }

  /** Removing the prefix from a generated name gives back its `"i-j"` key. */
  lemma NameToKey(i: nat, j: nat)
    ensures RemoveAll(QuadrantName(i, j), NamePrefix) == QuadrantKey(i, j)
  {
    var key := QuadrantKey(i, j);
    forall k | 0 <= k < |key| ensures key[k] != NamePrefix[0] {
      var a := NatToString(i + 1);
      if k < |a| {
        assert key[k] == a[k];
      } else if k > |a| {
        assert key[k] == NatToString(j + 1)[k - |a| - 1];
      }
    }
    StripPrefix(NamePrefix, key);
  }

  /** The position of the first '-' in `s`, or `|s|` if there is none. */
  function DashIndex(s: string): (k: nat)
    ensures k <= |s|
  {
    if s == [] || s[0] == '-' then 0 else 1 + DashIndex(s[1..])
  }

  lemma {:induction false} FirstDash(a: string, b: string)
    requires forall k :: 0 <= k < |a| ==> IsDigit(a[k])
    ensures DashIndex(a + "-" + b) == |a|
  {
    if a != [] {
      assert (a + "-" + b)[1..] == a[1..] + "-" + b;
      FirstDash(a[1..], b);
    }
  }

  /** Different grid cells get different keys, and so different names. */
  lemma KeysDistinct(i: nat, j: nat, i': nat, j': nat)
    requires QuadrantKey(i, j) == QuadrantKey(i', j')
    ensures i == i' && j == j'
  {
    var a, b := NatToString(i + 1), NatToString(j + 1);
    var a', b' := NatToString(i' + 1), NatToString(j' + 1);
    var key := QuadrantKey(i, j);
    // the dash is the first character that is not a digit
    FirstDash(a, b);
    FirstDash(a', b');
    assert a == key[..|a|] == a';
    assert b == key[|a| + 1..] == b';
    NatToStringInjective(i + 1, i' + 1);
    NatToStringInjective(j + 1, j' + 1);
  }

  /**
   * On the 3 by 3 grid over the region, the first two rows take their comuna
   * from the table.
   */
  lemma TableRows(i: nat, j: nat)
    requires i < 2 && j < 3
    ensures QuadrantKey(i, j) in QuadrantToComuna()
    ensures MappedComuna(QuadrantAt(RmBoundingBox, RmGridSize, i, j)) == QuadrantToComuna()[QuadrantKey(i, j)]
  {
    NameToKey(i, j);
    assert NatToString(1) == "1" && NatToString(2) == "2" && NatToString(3) == "3";
    var key := QuadrantKey(i, j);
    var row := if i == 0 then '1' else '2';
    var col := if j == 0 then '1' else if j == 1 then '2' else '3';
    assert key == [row, '-', col];
    assert key in QuadrantToComuna() by {
      assert key == "1-1" || key == "1-2" || key == "1-3" || key == "2-1" || key == "2-2" || key == "2-3";
    }
  }

  /**
   * The table has no row 3, so the third row of the 3 by 3 grid takes the
   * comuna of each quadrant's centre: "Santiago Centro", "Santiago Centro",
   * "Las Condes".
   */
  lemma ThirdRowByCoordinates()
    ensures MappedComuna(QuadrantAt(RmBoundingBox, RmGridSize, 2, 0)) == SantiagoCentro
    ensures MappedComuna(QuadrantAt(RmBoundingBox, RmGridSize, 2, 1)) == SantiagoCentro
    ensures MappedComuna(QuadrantAt(RmBoundingBox, RmGridSize, 2, 2)) == LasCondes
  {
    NameToKey(2, 0);
    NameToKey(2, 1);
    NameToKey(2, 2);
    assert NatToString(3) == "3" && NatToString(1) == "1" && NatToString(2) == "2";
    assert QuadrantKey(2, 0) == "3-1" && QuadrantKey(2, 1) == "3-2" && QuadrantKey(2, 2) == "3-3";
  }

  /** The listing `GenerateQuadrants` returns: `g²` quadrants, row by row. */
  lemma GridListing(b: BBox, g: nat)
    requires g > 0
    ensures |Rows(b, g, g)| == g * g
    ensures forall i, j :: 0 <= i < g && 0 <= j < g ==>
      Index(g, i, j) < |Rows(b, g, g)| && Rows(b, g, g)[Index(g, i, j)] == QuadrantAt(b, g, i, j)
  {
    RowsLength(b, g, g);
    forall i, j | 0 <= i < g && 0 <= j < g
      ensures Index(g, i, j) < |Rows(b, g, g)| && Rows(b, g, g)[Index(g, i, j)] == QuadrantAt(b, g, i, j)
    {
      RowsAt(b, g, g, i, j);
    }
  }
}
