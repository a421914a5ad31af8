/** The resumable multi-resolution driver of hex30.py.

    The script builds hexagon layers `hexagon{n}-{k}` for resolutions
    n = 1..9 and orientations k = 00 and 30 in an output GeoPackage, skipping
    every layer that is already there, first with population taken from MSOA
    areas (file hex30-MSOA.gpkg) and then, re-reading those layers in batches
    of rows, with population taken from OA areas (file hex30-OA.gpkg).

    Geometry (`G`), H3 cell identifiers (`H`) and points (`P`) are opaque; the
    geometry and interpolation libraries are uninterpreted total functions
    collected in a `Library`. */
module HexTiling {
  import opened Util

  // ---------------------------------------------------------------------
  // get_hside's table

  /** Average H3 hexagon area per resolution 0..15 (`hareas`). */
  const HexAreas: seq<real> := [
    4.357449416078392e12,
    6.097884417941342e11,
    8.680178039899734e10,
    1.239343465508818e10,
    1.770347654491310e09,
    2.529038581819453e08,
    3.612906216441251e07,
    5.161293359717200e06,
    7.373275975944190e05,
    1.053325134272069e05,
    1.504750190766437e04,
    2.149643129451882e03,
    3.070918756316065e02,
    4.387026794728303e01,
    6.267181135324324e00,
    8.953115907605805e-01
  ]

  /** `hareas[resolution]` with Python list indexing: a negative index counts
      from the end, and an index outside -16..15 raises IndexError (None).
      Every area found is positive, a finer resolution has a strictly
      smaller hexagon, and a negative index names the same entry as the
      index 16 above it. */
  function HexArea(resolution: int): (r: Option<real>)
    decreases if resolution < 0 then 32 else 16 - resolution
    ensures r.Some? <==> -16 <= resolution < 16
    ensures r.Some? ==> r.value > 0.0
    ensures 0 <= resolution < 15 ==> r.value > HexArea(resolution + 1).value
    ensures -16 <= resolution < 0 ==> r == HexArea(resolution + 16)
  {
    HexAreasStrictlyDecreasing();
    if 0 <= resolution < |HexAreas| then Some(HexAreas[resolution])
    else if -|HexAreas| <= resolution < 0 then Some(HexAreas[|HexAreas| + resolution])
    else None
  }

  /** The table has one entry per H3 resolution 0..15, every area is
      positive, and finer resolutions have strictly smaller hexagons. */
  lemma HexAreasStrictlyDecreasing()
    ensures |HexAreas| == 16
    ensures forall i :: 0 <= i < |HexAreas| ==> HexAreas[i] > 0.0
    ensures forall i, j :: 0 <= i < j < |HexAreas| ==> HexAreas[i] > HexAreas[j]
  {
    assert forall i :: 0 <= i < |HexAreas| - 1 ==> HexAreas[i] > HexAreas[i + 1];
    forall i, j | 0 <= i < j < |HexAreas| ensures HexAreas[i] > HexAreas[j] {
      var k := i;
      while k < j
        invariant i <= k <= j
        invariant HexAreas[i] >= HexAreas[k]
      {
        k := k + 1;
      }
    }
  }

  // ---------------------------------------------------------------------
  // Layer names

  /** The two grid orientations, `k` in the script. */
  datatype Orientation = Deg00 | Deg30

  function Suffix(k: Orientation): string
  {
    if k == Deg00 then "00" else "30"
  }

  function DigitChar(d: nat): char
    requires d < 10
  {
    (48 + d) as char
  }

  /** Decimal rendering of `n`, as `f"{n}"` writes it. */
  function Decimal(n: nat): (r: string)
    ensures |r| >= 1 && (|r| == 1 <==> n < 10)
    decreases n
  {
    if n < 10 then [DigitChar(n)] else Decimal(n / 10) + [DigitChar(n % 10)]
  }

  lemma {:induction false} DecimalInjective(a: nat, b: nat)
    requires Decimal(a) == Decimal(b)
    ensures a == b
    decreases a
  {
    if a >= 10 && b >= 10 {
      var da, db := Decimal(a), Decimal(b);
      assert da[|da| - 1] == DigitChar(a % 10) && db[|db| - 1] == DigitChar(b % 10);
      assert da[..|da| - 1] == Decimal(a / 10) && db[..|db| - 1] == Decimal(b / 10);
      DecimalInjective(a / 10, b / 10);
    }
  }

  const PointLayer: string := "point"
  const Outer00: string := "outer-00"
  const Outer30: string := "outer-30"

  /** `f"hexagon{n}-{k}"`. */
  function LayerName(n: nat, k: Orientation): (r: string)
    ensures r != PointLayer && r != Outer00 && r != Outer30
  {
    var r := "hexagon" + Decimal(n) + "-" + Suffix(k);
    assert r[0] == 'h';
    r
  }

  /** Different resolutions or orientations never share a layer name, so a
      write of one layer cannot clobber another. */
  lemma LayerNameInjective(n: nat, k: Orientation, m: nat, j: Orientation)
    requires LayerName(n, k) == LayerName(m, j)
    ensures n == m && k == j
  {
    LayerNameParts(n, k);
    LayerNameParts(m, j);
    DecimalInjective(n, m);
  }

  /** Where the resolution and the orientation sit in a layer name. */
  lemma LayerNameParts(n: nat, k: Orientation)
    ensures var a := LayerName(n, k);
      |a| == |Decimal(n)| + 10 && a[7..|a| - 3] == Decimal(n) && a[|a| - 2] == Suffix(k)[0]
  {
    var d, s := Decimal(n), Suffix(k);
    var a := LayerName(n, k);
    assert |s| == 2;
    assert a == ("hexagon" + d) + ("-" + s);
    assert (("hexagon" + d) + ("-" + s))[7..|a| - 3] == d;
  }

  /** The layers the script reads and writes. A GeoPackage is keyed by
      these: by `NameInjective` no two of them share a layer name. */
  datatype LayerId = Hexagon(n: nat, k: Orientation) | Point | Outer(k: Orientation)

  /** The layer name `write_dataframe` is given. */
  function Name(id: LayerId): string
  {
    match id
    case Hexagon(n, k) => LayerName(n, k)
    case Point => PointLayer
    case Outer(k) => if k == Deg00 then Outer00 else Outer30
  }

  lemma NameInjective(a: LayerId, b: LayerId)
    requires Name(a) == Name(b)
    ensures a == b
  {
    match a
    case Hexagon(n, k) =>
      if b.Hexagon? { LayerNameInjective(n, k, b.n, b.k); }
    case Point =>
    case Outer(k) =>
  }

  // ---------------------------------------------------------------------
  // Keep-first de-duplication (`drop_duplicates(subset="geometry")`)

  ghost function Keys<T, K>(xs: seq<T>, key: T -> K): set<K>
  {
    set x | x in xs :: key(x)
  }

  lemma KeysSnoc<T, K>(xs: seq<T>, x: T, key: T -> K)
    ensures Keys(xs + [x], key) == Keys(xs, key) + {key(x)}
  {
    assert forall y :: y in xs + [x] <==> y in xs || y == x;
  }

  /** Keep the first element of every key, in order. */
  ghost function Dedup<T, K>(xs: seq<T>, key: T -> K): (r: seq<T>)
  {
    if xs == [] then []
    else
      var init := Dedup(xs[..|xs| - 1], key);
      if key(xs[|xs| - 1]) in Keys(xs[..|xs| - 1], key) then init else init + [xs[|xs| - 1]]
  }

  /** `xs[j]` is the first element of `xs` with its key. */
  ghost predicate IsFirst<T, K>(xs: seq<T>, key: T -> K, j: int)
  {
    0 <= j < |xs| && key(xs[j]) !in Keys(xs[..j], key)
  }

  /** The positions in `xs` of the elements that `Dedup` keeps. */
  ghost function DedupIndices<T, K>(xs: seq<T>, key: T -> K): seq<nat>
  {
    if xs == [] then []
    else
      var init := DedupIndices(xs[..|xs| - 1], key);
      if key(xs[|xs| - 1]) in Keys(xs[..|xs| - 1], key) then init else init + [|xs| - 1]
  }

  /** Below the last position, being the first of its key means the same in
      `xs` as in `xs` without its last element. */
  lemma IsFirstInit<T, K>(xs: seq<T>, key: T -> K)
    requires xs != []
    ensures forall j :: 0 <= j < |xs| - 1 ==> (IsFirst(xs[..|xs| - 1], key, j) <==> IsFirst(xs, key, j))
  {
    var init := xs[..|xs| - 1];
    forall j | 0 <= j < |init| ensures IsFirst(init, key, j) <==> IsFirst(xs, key, j) {
      assert init[..j] == xs[..j] && init[j] == xs[j];
    }
  }

  /** Every element `Dedup` keeps is the first of its key, and the kept
      elements sit at strictly increasing positions. */
  lemma {:induction false} DedupIndicesSound<T, K>(xs: seq<T>, key: T -> K)
    ensures var r, idx := Dedup(xs, key), DedupIndices(xs, key);
      && |idx| == |r|
      && (forall i :: 0 <= i < |idx| ==> idx[i] < |xs| && r[i] == xs[idx[i]] && IsFirst(xs, key, idx[i]))
      && (forall i, j :: 0 <= i < j < |idx| ==> idx[i] < idx[j])
  {
    if xs != [] {
      DedupIndicesSound(xs[..|xs| - 1], key);
      IsFirstInit(xs, key);
    }
  }

  /** Every first occurrence of a key is kept. */
  lemma {:induction false} DedupIndicesComplete<T, K>(xs: seq<T>, key: T -> K)
    ensures forall j :: IsFirst(xs, key, j) ==> j in DedupIndices(xs, key)
  {
    if xs != [] {
      DedupIndicesComplete(xs[..|xs| - 1], key);
      IsFirstInit(xs, key);
    }
  }

  /** De-duplication keeps exactly the first occurrence of every key, in the
      order of the input: the kept elements sit at strictly increasing
      positions, each is the first of its key, and every first occurrence is
      kept. */
  lemma DedupKeepsFirst<T, K>(xs: seq<T>, key: T -> K)
    ensures var r, idx := Dedup(xs, key), DedupIndices(xs, key);
      && |idx| == |r|
      && (forall i :: 0 <= i < |idx| ==> idx[i] < |xs| && r[i] == xs[idx[i]] && IsFirst(xs, key, idx[i]))
      && (forall i, j :: 0 <= i < j < |idx| ==> idx[i] < idx[j])
      && (forall j :: IsFirst(xs, key, j) ==> j in idx)
  {
    DedupIndicesSound(xs, key);
    DedupIndicesComplete(xs, key);
  }

  /** Every key of the input survives de-duplication, and nothing new appears. */
  lemma {:induction false} DedupKeys<T, K>(xs: seq<T>, key: T -> K)
    ensures Keys(Dedup(xs, key), key) == Keys(xs, key)
    ensures forall x :: x in Dedup(xs, key) ==> x in xs
  {
    if xs != [] {
      var init := xs[..|xs| - 1];
      DedupKeys(init, key);
      assert xs == init + [xs[|xs| - 1]];
      KeysSnoc(init, xs[|xs| - 1], key);
      if key(xs[|xs| - 1]) !in Keys(init, key) {
        KeysSnoc(Dedup(init, key), xs[|xs| - 1], key);
      }
    }
  }

  /** No two elements of the result share a key. */
  lemma {:induction false} DedupDistinct<T, K>(xs: seq<T>, key: T -> K)
    ensures var r := Dedup(xs, key); forall i, j :: 0 <= i < j < |r| ==> key(r[i]) != key(r[j])
  {
    if xs != [] {
      var init := xs[..|xs| - 1];
      DedupDistinct(init, key);
      DedupKeys(init, key);
    }
  }

  /** Input that has no repeated key is left as it is. */
  lemma {:induction false} DedupOfDistinct<T, K>(xs: seq<T>, key: T -> K)
    requires forall i, j :: 0 <= i < j < |xs| ==> key(xs[i]) != key(xs[j])
    ensures Dedup(xs, key) == xs
  {
    if xs != [] {
      var init := xs[..|xs| - 1];
      DedupOfDistinct(init, key);
      assert key(xs[|xs| - 1]) !in Keys(init, key);
      assert init + [xs[|xs| - 1]] == xs;
    }
  }

  /** pandas' `drop_duplicates`, one pass with a set of seen keys. */
  method DropDuplicates<T, K(==)>(xs: seq<T>, key: T -> K) returns (r: seq<T>)
    ensures r == Dedup(xs, key)
  {
    r := [];
    var seen: set<K> := {};
    for i := 0 to |xs|
      invariant r == Dedup(xs[..i], key)
      invariant seen == Keys(xs[..i], key)
    {
      assert xs[..i + 1][..i] == xs[..i];
      KeysSnoc(xs[..i], xs[i], key);
      assert xs[..i + 1] == xs[..i] + [xs[i]];
      if key(xs[i]) !in seen {
        r := r + [xs[i]];
        seen := seen + {key(xs[i])};
      }
    }
    assert xs[..|xs|] == xs;
  }

  // ---------------------------------------------------------------------
  // np.array_split and row batches

  /** Where chunk `i` of `np.array_split` of `len` items into `n` begins:
      the first `len % n` chunks hold one item more than the others. */
  function ChunkStart(len: nat, n: nat, i: nat): nat
    requires n > 0
  {
    i * (len / n) + Min(i, len % n)
  }

  lemma MulStep(i: nat, q: nat)
    ensures (i + 1) * q == i * q + q
  {
  }

  lemma {:induction false} MulMono(a: nat, b: nat, q: nat)
    requires a <= b
    ensures a * q <= b * q
    decreases b - a
  {
    if a < b {
      MulMono(a, b - 1, q);
      MulStep(b - 1, q);
    }
  }

  lemma ChunkStartBounds(len: nat, n: nat, i: nat)
    requires n > 0 && i < n
    ensures ChunkStart(len, n, i) <= ChunkStart(len, n, i + 1) <= len
    ensures ChunkStart(len, n, i + 1) - ChunkStart(len, n, i) == len / n + (if i < len % n then 1 else 0)
  {
    var q, r := len / n, len % n;
    assert len == n * q + r;
    MulStep(i, q);
    MulMono(i + 1, n, q);
    assert ChunkStart(len, n, i) == i * q + Min(i, r);
    assert ChunkStart(len, n, i + 1) == i * q + q + Min(i + 1, r);
  }

  /** `np.array_split(s, n)`. */
  function ArraySplit<T>(s: seq<T>, n: nat): (r: seq<seq<T>>)
    requires n > 0
    ensures |r| == n
  {
    seq(n, i requires 0 <= i < n =>
      ChunkStartBounds(|s|, n, i);
      s[ChunkStart(|s|, n, i)..ChunkStart(|s|, n, i + 1)])
  }

  /** Chunk `i` is the slice between two consecutive chunk starts. */
  lemma ArraySplitAt<T>(s: seq<T>, n: nat, i: nat)
    requires n > 0 && i < n
    ensures ChunkStart(|s|, n, i) <= ChunkStart(|s|, n, i + 1) <= |s|
    ensures ArraySplit(s, n)[i] == s[ChunkStart(|s|, n, i)..ChunkStart(|s|, n, i + 1)]
    ensures |ArraySplit(s, n)[i]| == |s| / n + (if i < |s| % n then 1 else 0)
  {
    ChunkStartBounds(|s|, n, i);
  }

  lemma SplitPrefixStep<T>(s: seq<T>, rs: seq<seq<T>>, a: nat, b: nat)
    requires |rs| > 0 && a <= b <= |s|
    requires Flatten(rs[..|rs| - 1]) == s[..a] && rs[|rs| - 1] == s[a..b]
    ensures Flatten(rs) == s[..b]
  {
    assert s[..a] + s[a..b] == s[..b];
  }

  /** The first `k` chunks make up the text before chunk `k` starts. */
  lemma {:induction false} ArraySplitPrefix<T>(s: seq<T>, n: nat, k: nat)
    requires 0 < n && k <= n
    ensures ChunkStart(|s|, n, k) <= |s|
    ensures Flatten(ArraySplit(s, n)[..k]) == s[..ChunkStart(|s|, n, k)]
  {
    if k > 0 {
      ArraySplitPrefix(s, n, k - 1);
      ArraySplitAt(s, n, k - 1);
      var rs := ArraySplit(s, n)[..k];
      assert rs[..k - 1] == ArraySplit(s, n)[..k - 1];
      SplitPrefixStep(s, rs, ChunkStart(|s|, n, k - 1), ChunkStart(|s|, n, k));
    }
  }

  lemma ChunkStartEnd(len: nat, n: nat)
    requires n > 0
    ensures ChunkStart(len, n, n) == len
  {
    assert len == n * (len / n) + len % n;
  }

  /** `np.array_split(s, n)` gives `n` consecutive chunks whose sizes differ
      by at most one (the larger ones first) and whose concatenation is `s`. */
  lemma ArraySplitFlatten<T>(s: seq<T>, n: nat)
    requires n > 0
    ensures Flatten(ArraySplit(s, n)) == s
    ensures forall i :: 0 <= i < n ==> |ArraySplit(s, n)[i]| == |s| / n + (if i < |s| % n then 1 else 0)
  {
    var r := ArraySplit(s, n);
    forall i | 0 <= i < n ensures |r[i]| == |s| / n + (if i < |s| % n then 1 else 0) {
      ArraySplitAt(s, n, i);
    }
    ArraySplitPrefix(s, n, n);
    ChunkStartEnd(|s|, n);
    assert r[..n] == r;
  }

  /** The rows per batch when a layer is re-read (`m`). */
  const BatchSize: nat := 1048576

  /** `len(range(0, count, m))`. */
  function NumBatches(count: nat, m: nat): nat
    requires m > 0
  {
    (count + m - 1) / m
  }

  /** The row slices `[j, j + m)` for `j in range(0, count, m)`, clamped to
      `count` as a slice is. */
  function BatchRanges(count: nat, m: nat): (r: seq<(nat, nat)>)
    requires m > 0
    ensures |r| == NumBatches(count, m)
  {
    seq(NumBatches(count, m), i requires 0 <= i < NumBatches(count, m) => (i * m, Min(i * m + m, count)))
  }

  /** The number of batches is the ceiling of `count / m`: zero for an empty
      layer, otherwise the fewest slices of `m` rows that hold `count`. */
  lemma NumBatchesIsCeiling(count: nat, m: nat)
    requires m > 0
    ensures count == 0 ==> NumBatches(count, m) == 0
    ensures count > 0 ==> (NumBatches(count, m) - 1) * m < count <= NumBatches(count, m) * m
  {
    var b := NumBatches(count, m);
    var t := count + m - 1;
    var rest := t % m;
    assert t == b * m + rest && 0 <= rest < m;
    if count > 0 {
      MulStep(b - 1, m);
    } else {
      assert t < m;
    }
  }

  lemma BatchStartBelow(count: nat, m: nat, i: nat)
    requires m > 0 && i < NumBatches(count, m)
    ensures i * m < count
  {
    NumBatchesIsCeiling(count, m);
    MulMono(i, NumBatches(count, m) - 1, m);
  }

  /** The batch that row `x` falls in. */
  function BatchOf(x: nat, m: nat): nat
    requires m > 0
  {
    x / m
  }

  /** The batches are non-empty, ascending and pairwise disjoint, and row
      `x` lies in batch `x / m`; by disjointness, in that one only. */
  lemma BatchRangesPartition(count: nat, m: nat)
    requires m > 0
    ensures var r := BatchRanges(count, m);
      && (forall i :: 0 <= i < |r| ==> r[i].0 < r[i].1 <= count)
      && (forall i, j :: 0 <= i < j < |r| ==> r[i].1 <= r[j].0)
      && (forall x :: 0 <= x < count ==> BatchOf(x, m) < |r| && r[BatchOf(x, m)].0 <= x < r[BatchOf(x, m)].1)
  {
    var r := BatchRanges(count, m);
    forall i | 0 <= i < |r| ensures r[i].0 < r[i].1 <= count {
      BatchStartBelow(count, m, i);
    }
    forall i, j | 0 <= i < j < |r| ensures r[i].1 <= r[j].0 {
      MulStep(i, m);
      MulMono(i + 1, j, m);
    }
    forall x | 0 <= x < count ensures BatchOf(x, m) < |r| && r[BatchOf(x, m)].0 <= x < r[BatchOf(x, m)].1 {
      var i := x / m;
      assert i * m <= x < i * m + m by {
        assert x == i * m + x % m;
      }
      NumBatchesIsCeiling(count, m);
      assert i < NumBatches(count, m) by {
        if i >= NumBatches(count, m) {
          MulMono(NumBatches(count, m), i, m);
        }
      }
    }
  }

  /** `j` steps through `range(0, count, m)`: after `b` steps it is `b * m`,
      and it passes `count` exactly after the last batch. */
  lemma BatchStep(count: nat, m: nat, b: nat)
    requires m > 0 && b <= NumBatches(count, m)
    ensures b * m < count <==> b < NumBatches(count, m)
    ensures b < NumBatches(count, m) ==> BatchRanges(count, m)[b] == (b * m, Min(b * m + m, count))
  {
    NumBatchesIsCeiling(count, m);
    if b < NumBatches(count, m) {
      BatchStartBelow(count, m, b);
    }
  }

  // ---------------------------------------------------------------------
  // Tiles, the store and the geometry libraries

  /** One feature of a hexagon layer: its (clipped) polygon and the
      population allocated to it. */
  datatype Tile<G> = Tile(geometry: G, population: real)

  /** The content of one GeoPackage layer. */
  datatype LayerData<G, P> =
    | Outline(shape: G)             // outer-00, outer-30
    | Pivot(point: Option<P>)       // point
    | Tiles(tiles: seq<Tile<G>>)    // hexagon{n}-{k}

  /** The libraries the script calls, as uninterpreted total functions. */
  datatype Library<!G, !H, !P> = Library(
    outer00: G,                            // BRITAIN.envelope
    outer30: G,                            // that envelope rotated by 30°
    cover00: nat -> seq<H>,                // h3fy of OUT00 buffered by one side, at resolution n
    cover30: (nat, Option<P>) -> seq<H>,   // h3fy of the squared OUT30 envelope rotated about POINT, or about its centroid when POINT is None
    hexagon: H -> G,                       // get_hexagon, reprojected to the working CRS
    clip: G -> seq<G>,                     // clip to OUT00, clip to BRITAIN, explode: the parts of one polygon
    rotate: (G, P) -> G,                   // rotate(-30, origin=POINT)
    nearest: seq<G> -> P,                  // the centroid of a batch nearest to OUT00's centroid
    msoa: G -> real,                       // area_interpolate of MSOA population onto one tile
    oa: G -> real                          // area_interpolate of OA population onto one tile
  )

  function Geometry<G>(t: Tile<G>): G { t.geometry }

  function Same<G>(g: G): G { g }

  /** `gf.clip(OUT00).clip(BRITAIN).explode()` over a batch of polygons. */
  function ClipAll<G, H, P>(lib: Library<G, H, P>, polys: seq<G>): seq<G>
  {
    Flatten(Map(lib.clip, polys))
  }

  /** `area_interpolate(source, gf, extensive_variables=["population"])`. */
  function Interpolate<G>(parts: seq<G>, alloc: G -> real): seq<Tile<G>>
  {
    Map((g: G) => Tile(g, alloc(g)), parts)
  }

  /** One batch of the MSOA passes: clip, de-duplicate, interpolate. */
  ghost function Batch<G, H, P>(lib: Library<G, H, P>, polys: seq<G>): seq<Tile<G>>
  {
    Interpolate(Dedup(ClipAll(lib, polys), Same), lib.msoa)
  }

  /** `lib.rotate` about the point `p`. */
  function RotateAbout<G, H, P>(lib: Library<G, H, P>, p: P): G -> G
  {
    (g: G) => lib.rotate(g, p)
  }

  /** The hexagons of one chunk of cell identifiers, rotated about `p` when
      the chunk belongs to the 30° grid. */
  function Hexagons<G, H, P>(lib: Library<G, H, P>, chunk: seq<H>, pivot: Option<P>): seq<G>
  {
    var hexes := Map(lib.hexagon, chunk);
    if pivot.None? then hexes else Map(RotateAbout(lib, pivot.value), hexes)
  }

  /** `hx`: one batch per chunk, in chunk order. */
  ghost function Batches<G, H, P>(lib: Library<G, H, P>, chunks: seq<seq<H>>, pivot: Option<P>): (r: seq<seq<Tile<G>>>)
    ensures |r| == |chunks|
  {
    if chunks == [] then []
    else Batches(lib, chunks[..|chunks| - 1], pivot) + [Batch(lib, Hexagons(lib, chunks[|chunks| - 1], pivot))]
  }

  lemma {:induction false} BatchesAt<G, H, P>(lib: Library<G, H, P>, chunks: seq<seq<H>>, pivot: Option<P>, i: nat)
    requires i < |chunks|
    ensures Batches(lib, chunks, pivot)[i] == Batch(lib, Hexagons(lib, chunks[i], pivot))
  {
    if i < |chunks| - 1 {
      BatchesAt(lib, chunks[..|chunks| - 1], pivot, i);
    }
  }

  /** A layer: the batches concatenated and de-duplicated again. */
  ghost function Tiling<G, H, P>(lib: Library<G, H, P>, chunks: seq<seq<H>>, pivot: Option<P>): seq<Tile<G>>
  {
    Dedup(Flatten(Batches(lib, chunks, pivot)), Geometry)
  }

  /** Layer `hexagon{n}-00` of the MSOA pass. */
  ghost function Layer00<G, H, P>(lib: Library<G, H, P>, n: nat): seq<Tile<G>>
    requires n > 0
  {
    Tiling(lib, ArraySplit(lib.cover00(n), n), None)
  }

  /** POINT after resolution `n` of the 30° pass started with `p0`: kept if
      set, otherwise taken from the hexagons of the first chunk. */
  function Pivot30<G, H, P>(lib: Library<G, H, P>, n: nat, p0: Option<P>): (r: Option<P>)
    requires n > 0
    ensures r.Some?
  {
    if p0.Some? then p0 else Some(lib.nearest(Map(lib.hexagon, ArraySplit(lib.cover30(n, p0), n)[0])))
  }

  /** Layer `hexagon{n}-30` of the MSOA pass started with POINT = `p0`. */
  ghost function Layer30<G, H, P>(lib: Library<G, H, P>, n: nat, p0: Option<P>): seq<Tile<G>>
    requires n > 0
  {
    Tiling(lib, ArraySplit(lib.cover30(n, p0), n), Pivot30(lib, n, p0))
  }

  /** The OA pass: the same tiles, population re-allocated from OA areas. */
  function Refine<G>(tiles: seq<Tile<G>>, alloc: G -> real): seq<Tile<G>>
  {
    Interpolate(Map(Geometry, tiles), alloc)
  }

  /** Interpolation keeps the parts, in order, and gives each its allocation. */
  lemma InterpolateSound<G>(parts: seq<G>, alloc: G -> real)
    ensures var tiles := Interpolate(parts, alloc);
      && Map(Geometry, tiles) == parts
      && (forall t :: t in tiles ==> t.population == alloc(t.geometry))
      && Keys(tiles, Geometry) == set x | x in parts
  {
    var tiles := Interpolate(parts, alloc);
    forall x | x in parts ensures x in Keys(tiles, Geometry) {
      var k :| 0 <= k < |parts| && parts[k] == x;
      assert tiles[k] in tiles;
    }
  }

  /** A batch holds every clipped part of its polygons once, each with its
      MSOA population. */
  lemma BatchSound<G, H, P>(lib: Library<G, H, P>, polys: seq<G>)
    ensures forall t :: t in Batch(lib, polys) ==> t.population == lib.msoa(t.geometry)
    ensures Keys(Batch(lib, polys), Geometry) == set x | x in ClipAll(lib, polys)
  {
    var parts := ClipAll(lib, polys);
    var d := Dedup(parts, Same);
    InterpolateSound(d, lib.msoa);
    DedupKeys(parts, Same);
    assert (set x | x in d) == Keys(d, Same);
    assert (set x | x in parts) == Keys(parts, Same);
  }

  /** The keys of a concatenation are the keys of its pieces. */
  lemma FlattenKeys<T, K>(xss: seq<seq<T>>, key: T -> K, k: K)
    ensures k in Keys(Flatten(xss), key) <==> exists i :: 0 <= i < |xss| && k in Keys(xss[i], key)
  {
    if k in Keys(Flatten(xss), key) {
      var t :| t in Flatten(xss) && key(t) == k;
      FlattenMembers(xss, t);
    }
    if exists i :: 0 <= i < |xss| && k in Keys(xss[i], key) {
      var i :| 0 <= i < |xss| && k in Keys(xss[i], key);
      var t :| t in xss[i] && key(t) == k;
      FlattenMembers(xss, t);
    }
  }

  /** A layer holds each part of each clipped hexagon exactly once, with the
      population that interpolation gives that part.  */
  lemma TilingSound<G, H, P>(lib: Library<G, H, P>, chunks: seq<seq<H>>, pivot: Option<P>, g: G)
    ensures var tiles := Tiling(lib, chunks, pivot);
      && (forall i, j :: 0 <= i < j < |tiles| ==> tiles[i].geometry != tiles[j].geometry)
      && (forall t :: t in tiles ==> t.population == lib.msoa(t.geometry))
      && (g in Keys(tiles, Geometry) <==> exists i :: 0 <= i < |chunks| && g in ClipAll(lib, Hexagons(lib, chunks[i], pivot)))
  {
    var batches := Batches(lib, chunks, pivot);
    var all := Flatten(batches);
    DedupDistinct(all, Geometry);
    DedupKeys(all, Geometry);
    forall t | t in Dedup(all, Geometry) ensures t.population == lib.msoa(t.geometry) {
      FlattenMembers(batches, t);
      var i :| 0 <= i < |batches| && t in batches[i];
      BatchesAt(lib, chunks, pivot, i);
      BatchSound(lib, Hexagons(lib, chunks[i], pivot));
    }
    forall i | 0 <= i < |chunks|
      ensures g in Keys(batches[i], Geometry) <==> g in ClipAll(lib, Hexagons(lib, chunks[i], pivot))
    {
      BatchesAt(lib, chunks, pivot, i);
      BatchSound(lib, Hexagons(lib, chunks[i], pivot));
    }
    FlattenKeys(batches, Geometry, g);
  }

  /** Every hexagon of the cover lands in exactly one chunk, so the chunked
      layer holds the parts of the whole cover's hexagons. */
  lemma Layer00Covers<G, H, P>(lib: Library<G, H, P>, n: nat, g: G)
    requires n > 0
    ensures var tiles := Layer00(lib, n);
      && (forall i, j :: 0 <= i < j < |tiles| ==> tiles[i].geometry != tiles[j].geometry)
      && (forall t :: t in tiles ==> t.population == lib.msoa(t.geometry))
      && (g in Keys(tiles, Geometry) <==> exists h :: h in lib.cover00(n) && g in lib.clip(lib.hexagon(h)))
  {
    var chunks := ArraySplit(lib.cover00(n), n);
    TilingSound(lib, chunks, None, g);
    ArraySplitFlatten(lib.cover00(n), n);
    if exists i :: 0 <= i < |chunks| && g in ClipAll(lib, Hexagons(lib, chunks[i], None)) {
      var i :| 0 <= i < |chunks| && g in ClipAll(lib, Hexagons(lib, chunks[i], None));
      var hexes := Map(lib.hexagon, chunks[i]);
      FlattenMembers(Map(lib.clip, hexes), g);
      var k :| 0 <= k < |hexes| && g in lib.clip(hexes[k]);
      FlattenMembers(chunks, chunks[i][k]);
    }
    if exists h :: h in lib.cover00(n) && g in lib.clip(lib.hexagon(h)) {
      var h :| h in lib.cover00(n) && g in lib.clip(lib.hexagon(h));
      FlattenMembers(chunks, h);
      var i :| 0 <= i < |chunks| && h in chunks[i];
      var k :| 0 <= k < |chunks[i]| && chunks[i][k] == h;
      var hexes := Map(lib.hexagon, chunks[i]);
      FlattenMembers(Map(lib.clip, hexes), g);
      assert g in Map(lib.clip, hexes)[k];
    }
  }

  // ---------------------------------------------------------------------
  // Building one layer

  /** Lines 92-99 and 135-142: the hexagons of one chunk clipped to the
      MSOA areas, de-duplicated and given their population. */
  method BuildBatch<G(==), H, P>(lib: Library<G, H, P>, gf: seq<G>) returns (batch: seq<Tile<G>>)
    ensures batch == Batch(lib, gf)
  {
    var parts := ClipAll(lib, gf);
    parts := DropDuplicates(parts, Same);
    batch := Interpolate(parts, lib.msoa);
  }

  /** Lines 86-102: one `hexagon{n}-00` layer, chunk by chunk. */
  method BuildLayer00<G(==), H, P>(lib: Library<G, H, P>, n: nat) returns (tiles: seq<Tile<G>>)
    requires n > 0
    ensures tiles == Layer00(lib, n)
  {
    var hexIds := lib.cover00(n);
    var chunks := ArraySplit(hexIds, n);
    var hx: seq<seq<Tile<G>>> := [];
    for i := 0 to |chunks|
      invariant hx == Batches(lib, chunks[..i], None)
    {
      assert chunks[..i + 1][..i] == chunks[..i];
      var gf := Map(lib.hexagon, chunks[i]);
      var batch := BuildBatch(lib, gf);
      hx := hx + [batch];
    }
    assert chunks[..|chunks|] == chunks;
    tiles := DropDuplicates(Flatten(hx), Geometry);
  }

  lemma RefineConcat<G>(a: seq<Tile<G>>, b: seq<Tile<G>>, alloc: G -> real)
    ensures Refine(a + b, alloc) == Refine(a, alloc) + Refine(b, alloc)
  {
    assert Map(Geometry, a + b) == Map(Geometry, a) + Map(Geometry, b);
  }

  lemma FlattenSnoc<T>(xss: seq<seq<T>>, xs: seq<T>)
    ensures Flatten(xss + [xs]) == Flatten(xss) + xs
  {
    FlattenConcat(xss, [xs]);
    assert Flatten([xs]) == Flatten([xs][..0]) + xs;
  }

  /** The batches re-read from the MSOA file and concatenated, lines
      173-186; `pd.concat` of no batches at all raises (None). */
  method RefineInBatches<G>(tiles: seq<Tile<G>>, alloc: G -> real) returns (r: Option<seq<Tile<G>>>, ghost batches: seq<(nat, nat)>)
    ensures r.None? <==> tiles == []
    ensures r.Some? ==> r.value == Refine(tiles, alloc)
    ensures batches == BatchRanges(|tiles|, BatchSize)
  {
    var features := |tiles|;
    var m := BatchSize;
    var hx: seq<seq<Tile<G>>> := [];
    var j := 0;
    batches := [];
    while j < features
      invariant |batches| <= NumBatches(features, m)
      invariant j == |batches| * m
      invariant batches == BatchRanges(features, m)[..|batches|]
      invariant Flatten(hx) == Refine(tiles[..Min(j, features)], alloc)
      invariant |hx| == |batches|
      decreases features - j
    {
      BatchStep(features, m, |batches|);
      var hi := Min(j + m, features);
      var rows := tiles[j..hi];
      assert tiles[..hi] == tiles[..j] + rows;
      RefineConcat(tiles[..j], rows, alloc);
      FlattenSnoc(hx, Refine(rows, alloc));
      hx := hx + [Refine(rows, alloc)];
      ghost var all := BatchRanges(features, m);
      assert all[..|batches| + 1] == all[..|batches|] + [all[|batches|]];
      batches := batches + [(j, hi)];
      j := j + m;
    }
    BatchStep(features, m, |batches|);
    assert batches == BatchRanges(features, m);
    assert tiles[..features] == tiles;
    if hx == [] {
      r := None;
    } else {
      r := Some(Flatten(hx));
    }
  }

  // ---------------------------------------------------------------------
  // The passes over the GeoPackages, as functions of the files they start from

  /** A GeoPackage: layer name to layer content. */
  type Store<G, P> = map<LayerId, LayerData<G, P>>

  /** The content `hexagon{n}-00` is written with, for every n. */
  ghost function Layers00<G, H, P>(lib: Library<G, H, P>): nat -> seq<Tile<G>>
  {
    n => if n > 0 then Layer00(lib, n) else []
  }

  /** The content `hexagon{n}-30` is written with, given POINT. */
  ghost function Layers30<G, H, P>(lib: Library<G, H, P>): (nat, Option<P>) -> seq<Tile<G>>
  {
    (n, p) => if n > 0 then Layer30(lib, n, p) else []
  }

  /** The 0° MSOA pass after resolutions 1 .. hi-1: each absent layer is
      computed and written, each present one left as it is. */
  function Fill00<G, P>(layers: nat -> seq<Tile<G>>, store: Store<G, P>, hi: nat): Store<G, P>
  {
    if hi <= 1 then store
    else
      var s := Fill00(layers, store, hi - 1);
      var layer := Hexagon(hi - 1, Deg00);
      if layer in s then s else s[layer := Tiles(layers(hi - 1))]
  }

  /** The store after a layer of the 30° pass has fixed POINT `p1` from
      POINT `p0`: the `point` layer is written only when `p0` was unset. */
  function AfterPivot<G, P>(store: Store<G, P>, p0: Option<P>, p1: Option<P>): Store<G, P>
  {
    if p0.None? then store[Point := Pivot(p1)] else store
  }

  /** The 30° MSOA pass after resolutions 1 .. hi-1, with POINT: the first
      layer computed while POINT is unset fixes it and writes `point`. */
  function Fill30<G, H, P>(lib: Library<G, H, P>, layers: (nat, Option<P>) -> seq<Tile<G>>, store: Store<G, P>, p0: Option<P>, hi: nat): (Store<G, P>, Option<P>)
  {
    if hi <= 1 then (store, p0)
    else
      var prev := Fill30(lib, layers, store, p0, hi - 1);
      var s, q := prev.0, prev.1;
      var layer := Hexagon(hi - 1, Deg30);
      if layer in s then prev
      else
        var q1 := Pivot30(lib, hi - 1, q);
        (AfterPivot(s, q, q1)[layer := Tiles(layers(hi - 1, q))], q1)
  }

  /** Why the OA pass stopped: `read_info` of a layer missing from the MSOA
      file raises (line 174), and so does `pd.concat` of the empty list of
      batches a layer without features gives (lines 176 and 186). */
  datatype StopReason = LayerMissing | NoFeatures

  /** The outcome of the OA pass; a stop ends the script. */
  datatype PassResult = Done | Stopped(layer: LayerId, reason: StopReason)

  /** The layer the OA pass writes for one MSOA layer, if that is a layer of
      tiles with at least one feature. */
  function Reallocated<G, H, P>(lib: Library<G, H, P>, msoa: Store<G, P>, layer: LayerId): Option<LayerData<G, P>>
  {
    if layer in msoa && msoa[layer].Tiles? && msoa[layer].tiles != [] then Some(Tiles(Refine(msoa[layer].tiles, lib.oa))) else None
  }

  /** Which exception the OA pass raises at a layer it cannot re-allocate. */
  function StopAt<G, P>(msoa: Store<G, P>, layer: LayerId): StopReason
  {
    if layer in msoa && msoa[layer].Tiles? then NoFeatures else LayerMissing
  }

  /** The OA pass over orientation `k`, resolutions 1 .. hi-1, starting from
      the OA file `oa`; it stops at the first layer it cannot read. */
  function FillOA<G, H, P>(lib: Library<G, H, P>, msoa: Store<G, P>, oa: Store<G, P>, k: Orientation, hi: nat): (Store<G, P>, PassResult)
  {
    if hi <= 1 then (oa, Done)
    else
      var prev := FillOA(lib, msoa, oa, k, hi - 1);
      var s := prev.0;
      var layer := Hexagon(hi - 1, k);
      if prev.1.Stopped? || layer in s then prev
      else
        match Reallocated(lib, msoa, layer)
        case None => (s, Stopped(layer, StopAt(msoa, layer)))
        case Some(d) => (s[layer := d], Done)
  }

  /** Both orientations of the OA pass, 00 first. */
  function PassOASpec<G, H, P>(lib: Library<G, H, P>, msoa: Store<G, P>, oa: Store<G, P>): (Store<G, P>, PassResult)
  {
    var first := FillOA(lib, msoa, oa, Deg00, 10);
    if first.1.Stopped? then first else FillOA(lib, msoa, first.0, Deg30, 10)
  }

  /** The 0° pass keeps every layer already in the file, and every layer
      it adds is a 0° hexagon layer. */
  lemma {:induction false} Fill00Keeps<G, P>(layers: nat -> seq<Tile<G>>, store: Store<G, P>, hi: nat)
    ensures var r := Fill00(layers, store, hi);
      && (forall name :: name in store ==> name in r && r[name] == store[name])
      && (forall name :: name in r && name !in store ==> exists n :: 1 <= n < hi && name == Hexagon(n, Deg00))
  {
    if hi > 1 {
      Fill00Keeps(layers, store, hi - 1);
      var s := Fill00(layers, store, hi - 1);
      var layer := Hexagon(hi - 1, Deg00);
      var r := Fill00(layers, store, hi);
      assert r == if layer in s then s else s[layer := Tiles(layers(hi - 1))];
      forall name | name in store ensures name in r && r[name] == store[name] {
        assert name in s;
      }
      forall name | name in r && name !in store ensures exists n :: 1 <= n < hi && name == Hexagon(n, Deg00) {
        if name != layer {
          assert name in s;
        }
      }
    }
  }

  /** A 0° layer the pass has not reached yet is still absent. */
  lemma {:induction false} Fill00Absent<G, P>(layers: nat -> seq<Tile<G>>, store: Store<G, P>, hi: nat, n: nat)
    requires hi <= n && Hexagon(n, Deg00) !in store
    ensures Hexagon(n, Deg00) !in Fill00(layers, store, hi)
  {
    if hi > 1 {
      Fill00Absent(layers, store, hi - 1, n);
    }
  }

  /** Every 0° layer is in the file after the 0° pass, and each that was
      absent holds the layer computed for it. */
  lemma {:induction false} Fill00Writes<G, P>(layers: nat -> seq<Tile<G>>, store: Store<G, P>, hi: nat)
    ensures var r := Fill00(layers, store, hi);
      && (forall n :: 1 <= n < hi ==> Hexagon(n, Deg00) in r)
      && (forall n :: 1 <= n < hi && Hexagon(n, Deg00) !in store ==> r[Hexagon(n, Deg00)] == Tiles(layers(n)))
  {
    if hi > 1 {
      Fill00Writes(layers, store, hi - 1);
      var layer := Hexagon(hi - 1, Deg00);
      if layer !in store {
        Fill00Absent(layers, store, hi - 1, hi - 1);
      }
    }
  }

  /** Every 0° layer is in the file afterwards; the layers already there are
      kept untouched (the script resumes an interrupted run), the absent ones
      are computed, and nothing else is written. */
  lemma Fill00Sound<G, P>(layers: nat -> seq<Tile<G>>, store: Store<G, P>, hi: nat)
    ensures var r := Fill00(layers, store, hi);
      && (forall n :: 1 <= n < hi ==> Hexagon(n, Deg00) in r)
      && (forall name :: name in store ==> name in r && r[name] == store[name])
      && (forall n :: 1 <= n < hi && Hexagon(n, Deg00) !in store ==> r[Hexagon(n, Deg00)] == Tiles(layers(n)))
      && (forall name :: name in r && name !in store ==> exists n :: 1 <= n < hi && name == Hexagon(n, Deg00))
  {
    Fill00Keeps(layers, store, hi);
    Fill00Writes(layers, store, hi);
  }

  /** POINT, once set, is kept; the `point` layer is written exactly when
      POINT is set, with the POINT it is set to. */
  lemma {:induction false} Fill30Point<G, H, P>(lib: Library<G, H, P>, layers: (nat, Option<P>) -> seq<Tile<G>>, store: Store<G, P>, p0: Option<P>, hi: nat)
    ensures var r := Fill30(lib, layers, store, p0, hi);
      && (p0.Some? ==> r.1 == p0)
      && (r.1 != p0 ==> r.1.Some? && Point in r.0 && r.0[Point] == Pivot(r.1))
      && (r.1 == p0 ==> (Point in r.0 <==> Point in store) && (Point in store ==> r.0[Point] == store[Point]))
  {
    if hi > 1 {
      Fill30Point(lib, layers, store, p0, hi - 1);
    }
  }

  /** Every layer already there but `point` is kept, and the only layers
      written are `point` and the 30° hexagon layers. */
  lemma {:induction false} Fill30Keeps<G, H, P>(lib: Library<G, H, P>, layers: (nat, Option<P>) -> seq<Tile<G>>, store: Store<G, P>, p0: Option<P>, hi: nat)
    ensures var r := Fill30(lib, layers, store, p0, hi);
      && (forall name :: name in store && name != Point ==> name in r.0 && r.0[name] == store[name])
      && (forall name :: name in r.0 && name !in store ==> name == Point || exists n :: 1 <= n < hi && name == Hexagon(n, Deg30))
  {
    if hi > 1 {
      Fill30Keeps(lib, layers, store, p0, hi - 1);
      var prev := Fill30(lib, layers, store, p0, hi - 1);
      var r := Fill30(lib, layers, store, p0, hi);
      forall name | name in r.0 && name !in store
        ensures name == Point || exists n :: 1 <= n < hi && name == Hexagon(n, Deg30)
      {
        if name != Hexagon(hi - 1, Deg30) && name != Point {
          assert name in prev.0;
        }
      }
    }
  }

  /** Layer `hexagon{n}-30` is there afterwards and, if it was absent,
      holds the layer computed about the POINT of its turn. */
  lemma {:induction false} Fill30Writes<G, H, P>(lib: Library<G, H, P>, layers: (nat, Option<P>) -> seq<Tile<G>>, store: Store<G, P>, p0: Option<P>, n: nat, hi: nat)
    requires 1 <= n < hi
    ensures var r := Fill30(lib, layers, store, p0, hi);
      && Hexagon(n, Deg30) in r.0
      && (Hexagon(n, Deg30) !in store ==> r.0[Hexagon(n, Deg30)] == Tiles(layers(n, Fill30(lib, layers, store, p0, n).1)))
  {
    var prev := Fill30(lib, layers, store, p0, hi - 1);
    if n == hi - 1 {
      Fill30Keeps(lib, layers, store, p0, hi - 1);
      assert Hexagon(n, Deg30) !in store ==> Hexagon(n, Deg30) !in prev.0;
    } else {
      Fill30Writes(lib, layers, store, p0, n, hi - 1);
    }
  }

  /** Once POINT is set it is never replaced, whatever layers follow. */
  lemma {:induction false} PivotStable<G, H, P>(lib: Library<G, H, P>, layers: (nat, Option<P>) -> seq<Tile<G>>, store: Store<G, P>, p0: Option<P>, lo: nat, hi: nat)
    requires lo <= hi
    requires Fill30(lib, layers, store, p0, lo).1.Some?
    ensures Fill30(lib, layers, store, p0, hi).1 == Fill30(lib, layers, store, p0, lo).1
    decreases hi - lo
  {
    if lo < hi {
      PivotStable(lib, layers, store, p0, lo, hi - 1);
    }
  }

  /** Every hexagon layer the 30° pass computes is rotated about one and the
      same POINT, the one fixed by the first layer it computes. */
  lemma SamePivotForEveryLayer<G, H, P>(lib: Library<G, H, P>, layers: (nat, Option<P>) -> seq<Tile<G>>, store: Store<G, P>, p0: Option<P>, n1: nat, n2: nat)
    requires 1 <= n1 < n2
    requires Hexagon(n1, Deg30) !in Fill30(lib, layers, store, p0, n1).0
    ensures Pivot30(lib, n1, Fill30(lib, layers, store, p0, n1).1) == Pivot30(lib, n2, Fill30(lib, layers, store, p0, n2).1)
  {
    PivotStable(lib, layers, store, p0, n1 + 1, n2);
  }

  /** A fresh process (POINT unset) that computes any 30° layer ends with
      POINT set and the `point` layer written. */
  lemma PointWrittenWhenComputed<G, H, P>(lib: Library<G, H, P>, layers: (nat, Option<P>) -> seq<Tile<G>>, store: Store<G, P>, n: nat)
    requires 1 <= n < 10 && Hexagon(n, Deg30) !in store
    ensures var r := Fill30(lib, layers, store, None, 10);
      r.1.Some? && Point in r.0 && r.0[Point] == Pivot(r.1)
  {
    Fill30Point(lib, layers, store, None, 10);
    Fill30Keeps(lib, layers, store, None, n);
    assert Hexagon(n, Deg30) !in Fill30(lib, layers, store, None, n).0;
    PivotStable(lib, layers, store, None, n + 1, 10);
  }

  /** A stopped OA pass stays stopped. */
  lemma {:induction false} FillOAStuck<G, H, P>(lib: Library<G, H, P>, msoa: Store<G, P>, oa: Store<G, P>, k: Orientation, lo: nat, hi: nat)
    requires lo <= hi && FillOA(lib, msoa, oa, k, lo).1.Stopped?
    ensures FillOA(lib, msoa, oa, k, hi) == FillOA(lib, msoa, oa, k, lo)
    decreases hi - lo
  {
    if lo < hi {
      FillOAStuck(lib, msoa, oa, k, lo, hi - 1);
    }
  }

  /** A first layer the OA file lacks and the MSOA file holds without
      features stops the OA pass with the ValueError of `pd.concat`, before
      anything is written. */
  lemma NoFeaturesStops<G, H, P>(lib: Library<G, H, P>, msoa: Store<G, P>, oa: Store<G, P>, k: Orientation)
    requires Hexagon(1, k) !in oa && Hexagon(1, k) in msoa && msoa[Hexagon(1, k)] == Tiles([])
    ensures FillOA(lib, msoa, oa, k, 10) == (oa, Stopped(Hexagon(1, k), NoFeatures))
  {
    FillOAStuck(lib, msoa, oa, k, 2, 10);
  }

  /** The OA pass keeps the layers already in the OA file, and every layer
      it adds is a hexagon layer of its orientation re-allocated from the
      MSOA file. */
  lemma {:induction false} FillOAKeeps<G, H, P>(lib: Library<G, H, P>, msoa: Store<G, P>, oa: Store<G, P>, k: Orientation, hi: nat)
    ensures var r := FillOA(lib, msoa, oa, k, hi);
      && (forall name :: name in oa ==> name in r.0 && r.0[name] == oa[name])
      && (forall name :: name in r.0 && name !in oa ==>
            (exists n :: 1 <= n < hi && name == Hexagon(n, k)) && Reallocated(lib, msoa, name) == Some(r.0[name]))
  {
    if hi > 1 {
      FillOAKeeps(lib, msoa, oa, k, hi - 1);
    }
  }

  /** A layer of the orientation the OA pass has not reached yet is still
      absent. */
  lemma {:induction false} FillOAAbsent<G, H, P>(lib: Library<G, H, P>, msoa: Store<G, P>, oa: Store<G, P>, k: Orientation, hi: nat, n: nat)
    requires hi <= n && Hexagon(n, k) !in oa
    ensures Hexagon(n, k) !in FillOA(lib, msoa, oa, k, hi).0
  {
    if hi > 1 {
      FillOAAbsent(lib, msoa, oa, k, hi - 1, n);
    }
  }

  /** A layer already in the OA file stays there. */
  lemma {:induction false} FillOAPresent<G, H, P>(lib: Library<G, H, P>, msoa: Store<G, P>, oa: Store<G, P>, k: Orientation, hi: nat, name: LayerId)
    requires name in oa
    ensures name in FillOA(lib, msoa, oa, k, hi).0
  {
    if hi > 1 {
      FillOAPresent(lib, msoa, oa, k, hi - 1, name);
    }
  }

  /** The OA pass succeeds exactly when every absent layer it meets is a
      layer of tiles with features in the MSOA file, and then every layer of the
      orientation is in the OA file. */
  lemma {:induction false} FillOADone<G, H, P>(lib: Library<G, H, P>, msoa: Store<G, P>, oa: Store<G, P>, k: Orientation, hi: nat)
    ensures var r := FillOA(lib, msoa, oa, k, hi);
      && (r.1.Done? <==> forall n :: 1 <= n < hi && Hexagon(n, k) !in oa ==> Reallocated(lib, msoa, Hexagon(n, k)).Some?)
      && (r.1.Done? ==> forall n :: 1 <= n < hi ==> Hexagon(n, k) in r.0)
  {
    if hi > 1 {
      FillOADone(lib, msoa, oa, k, hi - 1);
      if Hexagon(hi - 1, k) !in oa {
        FillOAAbsent(lib, msoa, oa, k, hi - 1, hi - 1);
      } else {
        FillOAPresent(lib, msoa, oa, k, hi - 1, Hexagon(hi - 1, k));
      }
    }
  }

  /** When the OA pass stops, it names the first absent layer that is not a
      layer of tiles with features in the MSOA file, and the exception
      raised there. */
  lemma {:induction false} FillOAMissing<G, H, P>(lib: Library<G, H, P>, msoa: Store<G, P>, oa: Store<G, P>, k: Orientation, hi: nat)
    ensures var r := FillOA(lib, msoa, oa, k, hi);
      r.1.Stopped? ==>
        && r.1.reason == StopAt(msoa, r.1.layer)
        && (exists n :: 1 <= n < hi && r.1.layer == Hexagon(n, k) && r.1.layer !in oa
              && Reallocated(lib, msoa, r.1.layer).None?
              && forall m :: 1 <= m < n && Hexagon(m, k) !in oa ==> Reallocated(lib, msoa, Hexagon(m, k)).Some?)
  {
    if hi > 1 {
      FillOAMissing(lib, msoa, oa, k, hi - 1);
      FillOADone(lib, msoa, oa, k, hi - 1);
      if Hexagon(hi - 1, k) in oa {
        FillOAPresent(lib, msoa, oa, k, hi - 1, Hexagon(hi - 1, k));
      }
    }
  }

  /** One orientation of the OA pass: layers already in the OA file are
      kept; it succeeds exactly when every absent layer it meets is a layer
      of tiles with features in the MSOA file, and then every layer of the
      orientation is in the OA file, each new one re-allocated from its MSOA
      layer; when it stops, it names the first such layer that is not, and
      the exception raised there. */
  lemma FillOASound<G, H, P>(lib: Library<G, H, P>, msoa: Store<G, P>, oa: Store<G, P>, k: Orientation, hi: nat)
    ensures var r := FillOA(lib, msoa, oa, k, hi);
      && (forall name :: name in oa ==> name in r.0 && r.0[name] == oa[name])
      && (forall name :: name in r.0 && name !in oa ==>
            (exists n :: 1 <= n < hi && name == Hexagon(n, k)) && Reallocated(lib, msoa, name) == Some(r.0[name]))
      && (r.1.Done? <==> forall n :: 1 <= n < hi && Hexagon(n, k) !in oa ==> Reallocated(lib, msoa, Hexagon(n, k)).Some?)
      && (r.1.Done? ==> forall n :: 1 <= n < hi ==> Hexagon(n, k) in r.0)
      && (r.1.Stopped? ==>
            && r.1.reason == StopAt(msoa, r.1.layer)
            && (exists n :: 1 <= n < hi && r.1.layer == Hexagon(n, k) && r.1.layer !in oa
                  && Reallocated(lib, msoa, r.1.layer).None?
                  && forall m :: 1 <= m < n && Hexagon(m, k) !in oa ==> Reallocated(lib, msoa, Hexagon(m, k)).Some?))
  {
    FillOAKeeps(lib, msoa, oa, k, hi);
    FillOADone(lib, msoa, oa, k, hi);
    FillOAMissing(lib, msoa, oa, k, hi);
  }

  /** The script's world: both GeoPackages, and the module-level POINT. */
  class Script<G(==), H, P(==)> {
    const lib: Library<G, H, P>
    var msoaFile: Store<G, P>   // hex30-MSOA.gpkg
    var oaFile: Store<G, P>     // hex30-OA.gpkg
    var point: Option<P>        // POINT

    /** A fresh process over the two existing files: POINT starts as None. */
    constructor(lib: Library<G, H, P>, msoaFile: Store<G, P>, oaFile: Store<G, P>)
      ensures this.lib == lib && this.msoaFile == msoaFile && this.oaFile == oaFile && point == None
    {
      this.lib := lib;
      this.msoaFile := msoaFile;
      this.oaFile := oaFile;
      point := None;
    }

    /** `write_dataframe(..., "hex30-MSOA.gpkg", layer=Name(name))`. */
    method WriteMsoa(name: LayerId, data: LayerData<G, P>)
      modifies this`msoaFile
      ensures msoaFile == old(msoaFile)[name := data]
    {
      msoaFile := msoaFile[name := data];
    }

    /** `write_dataframe(..., "hex30-OA.gpkg", layer=Name(name))`. */
    method WriteOa(name: LayerId, data: LayerData<G, P>)
      modifies this`oaFile
      ensures oaFile == old(oaFile)[name := data]
    {
      oaFile := oaFile[name := data];
    }

    /** Lines 80-103: the 0° MSOA pass. Resolutions go up from 1 to 9; a
        layer is computed only when `list_layers` does not show it. */
    method Pass00()
      modifies this`msoaFile
      ensures msoaFile == Fill00(Layers00(lib), old(msoaFile), 10)
    {
      for n := 1 to 10
        invariant msoaFile == Fill00(Layers00(lib), old(msoaFile), n)
      {
        var layer := Hexagon(n, Deg00);
        if layer in msoaFile {
          continue;
        }
        var tiles := BuildLayer00(lib, n);
        WriteMsoa(layer, Tiles(tiles));
      }
    }

    /** Lines 121-142: one chunk of the 30° pass. POINT is set from its
        hexagons, and the `point` layer written, when it is unset; the
        hexagons are then rotated about POINT, clipped, de-duplicated and
        interpolated. `p1` is the POINT the chunk is to be rotated about. */
    method BuildChunk30(chunk: seq<H>, ghost p1: Option<P>) returns (batch: seq<Tile<G>>)
      requires p1 == if point.None? then Some(lib.nearest(Map(lib.hexagon, chunk))) else point
      modifies this`msoaFile, this`point
      ensures point == p1
      ensures msoaFile == AfterPivot(old(msoaFile), old(point), p1)
      ensures batch == Batch(lib, Hexagons(lib, chunk, p1))
    {
      var lb := lib;
      var gf := Map(lb.hexagon, chunk);
      if point.None? {
        point := Some(lb.nearest(gf));
        WriteMsoa(Point, Pivot(point));
      }
      var origin := point.value;
      var rotated := Map(RotateAbout(lb, origin), gf);
      assert rotated == Hexagons(lb, chunk, p1);
      batch := BuildBatch(lb, rotated);
    }

    /** Lines 120-143: the chunks of one 30° layer in order. POINT is set,
        and `point` written, by the first chunk if it is unset; `p1` is the
        POINT that results. */
    method BuildChunks30(chunks: seq<seq<H>>, ghost p1: Option<P>) returns (hx: seq<seq<Tile<G>>>)
      requires |chunks| > 0
      requires p1 == if point.None? then Some(lib.nearest(Map(lib.hexagon, chunks[0]))) else point
      modifies this`msoaFile, this`point
      ensures point == p1
      ensures msoaFile == AfterPivot(old(msoaFile), old(point), p1)
      ensures hx == Batches(lib, chunks, p1)
    {
      hx := [];
      for i := 0 to |chunks|
        invariant i == 0 ==> point == old(point) && msoaFile == old(msoaFile)
        invariant i > 0 ==> point == p1
        invariant i > 0 ==> msoaFile == AfterPivot(old(msoaFile), old(point), p1)
        invariant hx == Batches(lib, chunks[..i], p1)
      {
        assert chunks[..i + 1][..i] == chunks[..i];
        var batch := BuildChunk30(chunks[i], p1);
        hx := hx + [batch];
      }
      assert chunks[..|chunks|] == chunks;
    }

    /** Lines 112-146: one `hexagon{n}-30` layer. POINT is set from the
        first chunk when it is unset, and the `point` layer written then. */
    method BuildLayer30(n: nat) returns (tiles: seq<Tile<G>>)
      requires n > 0
      modifies this`msoaFile, this`point
      ensures point == Pivot30(lib, n, old(point))
      ensures tiles == Layer30(lib, n, old(point))
      ensures msoaFile == AfterPivot(old(msoaFile), old(point), point)
    {
      var hexIds := lib.cover30(n, point);
      var chunks := ArraySplit(hexIds, n);
      ghost var p1 := Pivot30(lib, n, point);
      var hx := BuildChunks30(chunks, p1);
      tiles := DropDuplicates(Flatten(hx), Geometry);
    }

    /** Lines 105-147: the 30° MSOA pass. */
    method Pass30()
      modifies this`msoaFile, this`point
      ensures (msoaFile, point) == Fill30(lib, Layers30(lib), old(msoaFile), old(point), 10)
    {
      for n := 1 to 10
        invariant (msoaFile, point) == Fill30(lib, Layers30(lib), old(msoaFile), old(point), n)
      {
        var layer := Hexagon(n, Deg30);
        if layer in msoaFile {
          continue;
        }
        var tiles := BuildLayer30(n);
        WriteMsoa(layer, Tiles(tiles));
      }
    }

    /** Lines 165-189 for one orientation `k`: a layer already in the OA
        file is skipped; otherwise it is read back from the MSOA file in
        batches and its population re-allocated from OA areas. */
    method PassOAFor(k: Orientation) returns (result: PassResult)
      modifies this`oaFile
      ensures (oaFile, result) == FillOA(lib, msoaFile, old(oaFile), k, 10)
    {
      for n := 1 to 10
        invariant (oaFile, Done) == FillOA(lib, msoaFile, old(oaFile), k, n)
      {
        var layer := Hexagon(n, k);
        if layer in oaFile {
          continue;
        }
        if !(layer in msoaFile && msoaFile[layer].Tiles?) {
          FillOAStuck(lib, msoaFile, old(oaFile), k, n + 1, 10);
          return Stopped(layer, LayerMissing);
        }
        ghost var batches;
        var refined;
        refined, batches := RefineInBatches(msoaFile[layer].tiles, lib.oa);
        if refined.None? {
          FillOAStuck(lib, msoaFile, old(oaFile), k, n + 1, 10);
          return Stopped(layer, NoFeatures);
        }
        WriteOa(layer, Tiles(refined.value));
      }
      result := Done;
    }

    /** Lines 164-189: the OA pass, orientation 00 then 30. */
    method PassOA() returns (result: PassResult)
      modifies this`oaFile
      ensures (oaFile, result) == PassOASpec(lib, msoaFile, old(oaFile))
    {
      var orientations := [Deg00, Deg30];
      result := Done;
      for o := 0 to 2
        invariant o == 0 ==> oaFile == old(oaFile) && result.Done?
        invariant o == 1 ==> (oaFile, result) == FillOA(lib, msoaFile, old(oaFile), Deg00, 10) && result.Done?
        invariant o == 2 ==> (oaFile, result) == PassOASpec(lib, msoaFile, old(oaFile))
      {
        ghost var before := oaFile;
        result := PassOAFor(orientations[o]);
        assert (oaFile, result) == FillOA(lib, msoaFile, before, orientations[o], 10);
        if result.Stopped? {
          return;
        }
      }
    }

    /** The whole of hex30.py from line 28: outlines, both MSOA passes, the
        OA pass and, when it completes, the final `point` layer of the OA
        file. */
    method Run() returns (result: PassResult)
      modifies this`msoaFile, this`oaFile, this`point
      ensures (msoaFile, point) == RunMsoa(lib, Layers00(lib), Layers30(lib), old(msoaFile), old(point))
      ensures (oaFile, result) == RunOa(lib, msoaFile, old(oaFile), point)
    {
      WriteMsoa(Outer(Deg00), Outline(lib.outer00));
      WriteMsoa(Outer(Deg30), Outline(lib.outer30));
      ghost var m1 := msoaFile;
      Pass00();
      ghost var m2 := msoaFile;
      assert m2 == Fill00(Layers00(lib), m1, 10) && point == old(point);
      Pass30();
      assert (msoaFile, point) == Fill30(lib, Layers30(lib), m2, old(point), 10);
      WriteOa(Outer(Deg00), Outline(lib.outer00));
      WriteOa(Outer(Deg30), Outline(lib.outer30));
      ghost var o1 := oaFile;
      result := PassOA();
      assert (oaFile, result) == PassOASpec(lib, msoaFile, o1);
      if result.Done? {
        WriteOa(Point, Pivot(point));
      }
    }
  }

  /** The MSOA file and POINT after lines 28-147. */
  function RunMsoa<G, H, P>(lib: Library<G, H, P>, l00: nat -> seq<Tile<G>>, l30: (nat, Option<P>) -> seq<Tile<G>>, msoa: Store<G, P>, p0: Option<P>): (Store<G, P>, Option<P>)
  {
    Fill30(lib, l30, Fill00(l00, msoa[Outer(Deg00) := Outline(lib.outer00)][Outer(Deg30) := Outline(lib.outer30)], 10), p0, 10)
  }

  /** The OA file and the outcome after lines 161-193, given the finished
      MSOA file and POINT. */
  function RunOa<G, H, P>(lib: Library<G, H, P>, msoa: Store<G, P>, oa: Store<G, P>, point: Option<P>): (Store<G, P>, PassResult)
  {
    var r := PassOASpec(lib, msoa, oa[Outer(Deg00) := Outline(lib.outer00)][Outer(Deg30) := Outline(lib.outer30)]);
    if r.1.Done? then (r.0[Point := Pivot(point)], Done) else r
  }

  /** After a run the MSOA file holds both outlines and every hexagon layer
      of both orientations. */
  lemma RunMsoaLayers<G, H, P>(lib: Library<G, H, P>, l00: nat -> seq<Tile<G>>, l30: (nat, Option<P>) -> seq<Tile<G>>, msoa: Store<G, P>, p0: Option<P>)
    ensures var r := RunMsoa(lib, l00, l30, msoa, p0);
      && Outer(Deg00) in r.0 && r.0[Outer(Deg00)] == Outline(lib.outer00)
      && Outer(Deg30) in r.0 && r.0[Outer(Deg30)] == Outline(lib.outer30)
      && (forall n, k :: 1 <= n <= 9 ==> Hexagon(n, k) in r.0)
  {
    var s1 := msoa[Outer(Deg00) := Outline(lib.outer00)][Outer(Deg30) := Outline(lib.outer30)];
    Fill00Keeps(l00, s1, 10);
    Fill00Writes(l00, s1, 10);
    var s2 := Fill00(l00, s1, 10);
    Fill30Keeps(lib, l30, s2, p0, 10);
    var r := RunMsoa(lib, l00, l30, msoa, p0);
    assert Outer(Deg00) in s2 && Outer(Deg30) in s2;
    forall n, k | 1 <= n <= 9 ensures Hexagon(n, k) in r.0 {
      if k == Deg00 {
        assert Hexagon(n, k) in s2;
      } else {
        Fill30Writes(lib, l30, s2, p0, n, 10);
      }
    }
  }

  /** A run keeps every hexagon layer the MSOA file held and a set POINT; a
      0° layer computed from scratch is the one the 0° pass builds. */
  lemma RunMsoaKeeps<G, H, P>(lib: Library<G, H, P>, l00: nat -> seq<Tile<G>>, l30: (nat, Option<P>) -> seq<Tile<G>>, msoa: Store<G, P>, p0: Option<P>)
    ensures var r := RunMsoa(lib, l00, l30, msoa, p0);
      && (forall n, k :: 1 <= n <= 9 && Hexagon(n, k) in msoa ==> Hexagon(n, k) in r.0 && r.0[Hexagon(n, k)] == msoa[Hexagon(n, k)])
      && (p0.Some? ==> r.1 == p0)
      && (forall n :: 1 <= n <= 9 && Hexagon(n, Deg00) !in msoa ==> Hexagon(n, Deg00) in r.0 && r.0[Hexagon(n, Deg00)] == Tiles(l00(n)))
  {
    var s1 := msoa[Outer(Deg00) := Outline(lib.outer00)][Outer(Deg30) := Outline(lib.outer30)];
    Fill00Keeps(l00, s1, 10);
    Fill00Writes(l00, s1, 10);
    var s2 := Fill00(l00, s1, 10);
    Fill30Point(lib, l30, s2, p0, 10);
    Fill30Keeps(lib, l30, s2, p0, 10);
    var r := RunMsoa(lib, l00, l30, msoa, p0);
    forall n, k | 1 <= n <= 9 && Hexagon(n, k) in msoa
      ensures Hexagon(n, k) in r.0 && r.0[Hexagon(n, k)] == msoa[Hexagon(n, k)]
    {
      assert Hexagon(n, k) in s1 && s1[Hexagon(n, k)] == msoa[Hexagon(n, k)];
      assert Hexagon(n, k) in s2;
    }
    forall n | 1 <= n <= 9 && Hexagon(n, Deg00) !in msoa
      ensures Hexagon(n, Deg00) in r.0 && r.0[Hexagon(n, Deg00)] == Tiles(l00(n))
    {
      assert Hexagon(n, Deg00) !in s1;
      assert Hexagon(n, Deg00) in s2;
    }
  }

  /** What a run leaves in the MSOA file: both outlines, every hexagon layer
      of both orientations, and every hexagon layer that was already there
      unchanged; a layer computed from scratch holds distinct parts, each
      with its MSOA population. */
  lemma RunMsoaSound<G, H, P>(lib: Library<G, H, P>, l00: nat -> seq<Tile<G>>, l30: (nat, Option<P>) -> seq<Tile<G>>, msoa: Store<G, P>, p0: Option<P>)
    ensures var r := RunMsoa(lib, l00, l30, msoa, p0);
      && Outer(Deg00) in r.0 && r.0[Outer(Deg00)] == Outline(lib.outer00)
      && Outer(Deg30) in r.0 && r.0[Outer(Deg30)] == Outline(lib.outer30)
      && (forall n, k :: 1 <= n <= 9 ==> Hexagon(n, k) in r.0)
      && (forall n, k :: 1 <= n <= 9 && Hexagon(n, k) in msoa ==> r.0[Hexagon(n, k)] == msoa[Hexagon(n, k)])
      && (p0.Some? ==> r.1 == p0)
      && (forall n :: 1 <= n <= 9 && Hexagon(n, Deg00) !in msoa ==> r.0[Hexagon(n, Deg00)] == Tiles(l00(n)))
  {
    RunMsoaLayers(lib, l00, l30, msoa, p0);
    RunMsoaKeeps(lib, l00, l30, msoa, p0);
  }

  /** When the MSOA file holds every hexagon layer as tiles with at least
      one feature, the run completes, and the OA file then holds every
      hexagon layer, each new one re-allocated, and the `point` layer of the
      final POINT. */
  lemma RunOaSound<G, H, P>(lib: Library<G, H, P>, msoa: Store<G, P>, oa: Store<G, P>, point: Option<P>)
    requires forall n, k :: 1 <= n <= 9 ==> Reallocated(lib, msoa, Hexagon(n, k)).Some?
    ensures var r := RunOa(lib, msoa, oa, point);
      && r.1.Done?
      && (forall n, k :: 1 <= n <= 9 ==> Hexagon(n, k) in r.0)
      && r.0[Point] == Pivot(point)
      && (forall n, k :: 1 <= n <= 9 && Hexagon(n, k) !in oa ==> r.0[Hexagon(n, k)] == Reallocated(lib, msoa, Hexagon(n, k)).value)
  {
    var s1 := oa[Outer(Deg00) := Outline(lib.outer00)][Outer(Deg30) := Outline(lib.outer30)];
    FillOASound(lib, msoa, s1, Deg00, 10);
    var f := FillOA(lib, msoa, s1, Deg00, 10);
    FillOASound(lib, msoa, f.0, Deg30, 10);
    var r := RunOa(lib, msoa, oa, point);
    var g := FillOA(lib, msoa, f.0, Deg30, 10);
    forall n, k | 1 <= n <= 9 ensures Hexagon(n, k) in r.0 {
      if k == Deg00 { assert Hexagon(n, k) in f.0; }
    }
    forall n, k | 1 <= n <= 9 && Hexagon(n, k) !in oa
      ensures r.0[Hexagon(n, k)] == Reallocated(lib, msoa, Hexagon(n, k)).value
    {
      var name := Hexagon(n, k);
      assert name !in s1;
      if k == Deg00 {
        assert name in f.0;
      } else {
        assert name !in f.0;
        assert name in g.0;
      }
    }
  }
}
