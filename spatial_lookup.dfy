/** The CPU spatial hash grid: points are bucketed by the hash of their grid
    cell, an index array is sorted by bucket key, and an offset table points at
    the first entry of each bucket, so that a radius query visits the 3x3 block
    of cells around a sample point. */
module SpatialLookup2D {
  import opened Vectors

  /** The two hash multipliers. */
  const HashK1: nat := 15823
  const HashK2: nat := 9737333

  /** The nine cell offsets of a query, in the order the query visits them. */
  const Offsets2D: seq<Cell> := [
    Cell(-1, 1), Cell(0, 1), Cell(1, 1),
    Cell(-1, 0), Cell(0, 0), Cell(1, 0),
    Cell(-1, -1), Cell(0, -1), Cell(1, -1)
  ]

  /** A sorted-array entry: the point's index and its bucket key. */
  datatype Entry = Entry(index: int, key: nat)

  // ---------------------------------------------------------------------------
  // Cells, hashes and keys
  // ---------------------------------------------------------------------------

  /** The `(int)` cast of a float: truncation toward zero, not flooring. */
  function Trunc(x: real): (r: int)
    ensures x >= 0.0 ==> r as real <= x < r as real + 1.0
    ensures x < 0.0 ==> r as real - 1.0 < x <= r as real
  {
    if x >= 0.0 then x.Floor else -((-x).Floor)
  }

  /** Values less than one apart truncate to integers at most one apart,
      because every truncation interval is at least one wide. */
  lemma TruncAdjacent(a: real, b: real)
    requires Abs(a - b) < 1.0
    ensures -1 <= Trunc(a) - Trunc(b) <= 1
  {
  }

  /** The integer cell of a point: each coordinate divided by the radius and
      truncated toward zero. */
  function GetCell2D(point: Vec2, radius: real): (c: Cell)
    requires radius > 0.0
    ensures point.x / radius >= 0.0 ==> c.x as real <= point.x / radius < c.x as real + 1.0
    ensures point.x / radius < 0.0 ==> c.x as real - 1.0 < point.x / radius <= c.x as real
    ensures point.y / radius >= 0.0 ==> c.y as real <= point.y / radius < c.y as real + 1.0
    ensures point.y / radius < 0.0 ==> c.y as real - 1.0 < point.y / radius <= c.y as real
  {
    Cell(Trunc(point.x / radius), Trunc(point.y / radius))
  }

  /** Truncation toward zero makes cell 0 two radii wide: every coordinate
      strictly between `-radius` and `radius` falls in it. */
  lemma CellZeroSpansTwoRadii(point: Vec2, radius: real)
    requires radius > 0.0
    ensures -radius < point.x < radius ==> GetCell2D(point, radius).x == 0
    ensures -radius < point.y < radius ==> GetCell2D(point, radius).y == 0
  {
    QuotientWithinOne(point.x, radius);
    QuotientWithinOne(point.y, radius);
  }

  lemma QuotientWithinOne(x: real, r: real)
    requires r > 0.0
    ensures -r < x < r ==> -1.0 < x / r < 1.0
  {
    if -r < x < r {
      QuotientBelowOne(x, r);
      QuotientBelowOne(-x, r);
      assert (-x) / r == -(x / r);
    }
  }

  /** The `(uint)` cast of an int: its two's complement bit pattern. */
  function ToUint(x: int): (u: nat)
    ensures u < UintModulus
    ensures (u - x) % UintModulus == 0
  {
    x % UintModulus
  }

  /** The cell hash, computed the way C# computes it: each product and the sum
      wrap around modulo 2^32. */
  function HashCell2D(cell: Cell): (h: nat)
    ensures h < UintModulus
  {
    var a := (ToUint(cell.x) * HashK1) % UintModulus;
    var b := (ToUint(cell.y) * HashK2) % UintModulus;
    (a + b) % UintModulus
  }

  /** A value's residue modulo 2^32 is fixed by any representative differing
      from it by a multiple of 2^32. */
  lemma ModUnique(a: int, t: int, r: int)
    requires 0 <= r < UintModulus && a == UintModulus * t + r
    ensures a % UintModulus == r
  {
    assert UintModulus == 0x1_0000_0000;
  }

  lemma ModCongruent(a: int, b: int, d: int)
    requires a == b + d * UintModulus
    ensures a % UintModulus == b % UintModulus
  {
    var q, r := b / UintModulus, b % UintModulus;
    assert b == UintModulus * q + r;
    assert a == UintModulus * (q + d) + r;
    ModUnique(a, q + d, r);
  }

  /** The wrapping hash is the exact integer hash reduced modulo 2^32, with
      negative cell coordinates read as two's complement. */
  lemma {:induction false} HashCellIsExactModulo(cell: Cell)
    ensures HashCell2D(cell) == (cell.x * HashK1 + cell.y * HashK2) % UintModulus
  {
    var ux, uy := ToUint(cell.x), ToUint(cell.y);
    var qx, qy := cell.x / UintModulus, cell.y / UintModulus;
    assert cell.x == UintModulus * qx + ux;
    assert cell.y == UintModulus * qy + uy;
    var a, b := (ux * HashK1) % UintModulus, (uy * HashK2) % UintModulus;
    var pa, pb := (ux * HashK1) / UintModulus, (uy * HashK2) / UintModulus;
    assert ux * HashK1 == UintModulus * pa + a;
    assert uy * HashK2 == UintModulus * pb + b;
    var exact := cell.x * HashK1 + cell.y * HashK2;
    calc {
      exact;
      (UintModulus * qx + ux) * HashK1 + (UintModulus * qy + uy) * HashK2;
      ux * HashK1 + uy * HashK2 + (qx * HashK1 + qy * HashK2) * UintModulus;
      a + b + (pa + pb + qx * HashK1 + qy * HashK2) * UintModulus;
    }
    ModCongruent(exact, a + b, pa + pb + qx * HashK1 + qy * HashK2);
  }

  /** The bucket of a hash in a table of the given size (`hash % (uint)Length`);
      a size of zero is the source's division by zero. */
  function KeyFromHash(hash: nat, tableSize: nat): (key: nat)
    requires tableSize > 0
    ensures key < tableSize
    ensures hash < tableSize ==> key == hash
  {
    hash % tableSize
  }

  /** The bucket key of a point in a table with one slot per point. */
  function KeyOf(point: Vec2, radius: real, tableSize: nat): (key: nat)
    requires radius > 0.0 && tableSize > 0
    ensures key < tableSize
  {
    KeyFromHash(HashCell2D(GetCell2D(point, radius)), tableSize)
  }

  // ---------------------------------------------------------------------------
  // Entries, ordering and the offset table
  // ---------------------------------------------------------------------------

  /** Entry.CompareTo: the three-way comparison of the keys alone. */
  function CompareTo(a: Entry, b: Entry): (c: int)
    ensures c < 0 <==> a.key < b.key
    ensures c == 0 <==> a.key == b.key
    ensures c > 0 <==> a.key > b.key
    ensures -1 <= c <= 1
  {
    if a.key < b.key then -1 else if a.key > b.key then 1 else 0
  }

  ghost predicate SortedByKey(s: seq<Entry>)
  {
    forall p, q :: 0 <= p < q < |s| ==> s[p].key <= s[q].key
  }

  /** The entries the first pass of Update writes: one per point, in index order. */
  function Entries(points: seq<Vec2>, radius: real): (s: seq<Entry>)
    requires radius > 0.0
    ensures |s| == |points|
    ensures forall i :: 0 <= i < |s| ==> s[i] == Entry(i, KeyOf(points[i], radius, |points|))
  {
    seq(|points|, i requires 0 <= i < |points| => Entry(i, KeyOf(points[i], radius, |points|)))
  }

  /** The first position below `upTo` whose key is `k`, or int.MaxValue. */
  function First(s: seq<Entry>, k: nat, upTo: nat): int
    requires upTo <= |s|
  {
    if upTo == 0 then IntMax
    else
      var f := First(s, k, upTo - 1);
      if f == IntMax && s[upTo - 1].key == k then upTo - 1 else f
  }

  /** The offset table Update is meant to build: slot `k` holds the first sorted
      position with key `k`, or int.MaxValue when no entry has that key. */
  function OffsetTable(s: seq<Entry>): seq<int>
  {
    seq(|s|, k requires 0 <= k < |s| => First(s, k, |s|))
  }

  /** First is the least position with the key, and int.MaxValue exactly when
      there is none. */
  lemma {:induction false} FirstSpec(s: seq<Entry>, k: nat, upTo: nat)
    requires upTo <= |s| && upTo <= IntMax
    ensures First(s, k, upTo) == IntMax <==> forall q :: 0 <= q < upTo ==> s[q].key != k
    ensures First(s, k, upTo) != IntMax ==>
      var f := First(s, k, upTo);
      0 <= f < upTo && s[f].key == k && forall q :: 0 <= q < f ==> s[q].key != k
  {
    if upTo > 0 {
      FirstSpec(s, k, upTo - 1);
    }
  }

  /** What the offset table holds, slot by slot. */
  lemma OffsetTableSpec(s: seq<Entry>, k: nat)
    requires k < |s| <= IntMax
    ensures OffsetTable(s)[k] == IntMax <==> forall q :: 0 <= q < |s| ==> s[q].key != k
    ensures OffsetTable(s)[k] != IntMax ==>
      var f := OffsetTable(s)[k];
      0 <= f < |s| && s[f].key == k && forall q :: 0 <= q < f ==> s[q].key != k
  {
    FirstSpec(s, k, |s|);
  }

  /** In a sorted array, distinct run starts carry distinct keys: every slot of
      the offset table is written by at most one position, so the order in
      which the parallel offsets pass runs does not change the table. */
  lemma RunStartsHaveDistinctKeys(s: seq<Entry>, i: nat, j: nat)
    requires SortedByKey(s)
    requires i < j < |s|
    requires i == 0 || s[i].key != s[i - 1].key
    requires s[j].key != s[j - 1].key
    ensures s[i].key != s[j].key
  {
    assert s[i].key <= s[j - 1].key;
  }

  /** A sorted permutation of the entries holds exactly the points' entries. */
  lemma EntriesFacts(s: seq<Entry>, points: seq<Vec2>, radius: real, q: int)
    requires radius > 0.0 && 0 <= q < |s|
    requires multiset(s) == multiset(Entries(points, radius))
    ensures 0 <= s[q].index < |points| && s[q].key == KeyOf(points[s[q].index], radius, |points|)
  {
    assert s[q] in multiset(s);
    var e := Entries(points, radius);
    assert s[q] in e;
    var i :| 0 <= i < |e| && e[i] == s[q];
  }

  /** Every point's entry sits somewhere in a permutation of the entries. */
  lemma EntryPresent(s: seq<Entry>, points: seq<Vec2>, radius: real, j: int) returns (q: int)
    requires radius > 0.0 && 0 <= j < |points|
    requires multiset(s) == multiset(Entries(points, radius))
    ensures 0 <= q < |s| && s[q] == Entry(j, KeyOf(points[j], radius, |points|))
  {
    var e := Entries(points, radius);
    assert e[j] in multiset(e);
    assert e[j] in s;
    q :| 0 <= q < |s| && s[q] == e[j];
  }

  /** The run `s[start..end]` holds every entry with key `key` when no entry
      before it has the key and the entry after it does not; so a scan that
      reports every run member within the radius covers the key. */
  lemma RunCovered(s: seq<Entry>, points: seq<Vec2>, radius: real, key: nat, start: nat, end: nat,
                   sample: Vec2, sqrRadius: real, found: seq<int>)
    requires radius > 0.0 && |points| > 0
    requires multiset(s) == multiset(Entries(points, radius)) && SortedByKey(s)
    requires start <= end <= |s|
    requires forall q :: 0 <= q < start ==> s[q].key != key
    requires end < |s| ==> start < end && s[end].key != key
    requires forall p :: start <= p < end ==>
      (s[p].key == key && 0 <= s[p].index < |points| &&
       (SqDist(points[s[p].index], sample) < sqrRadius ==> s[p].index in found))
    ensures CoversKeys(points, radius, sample, sqrRadius, {key}, found)
  {
    forall j | 0 <= j < |points| && SqDist(points[j], sample) < sqrRadius && KeyOf(points[j], radius, |points|) in {key}
      ensures j in found
    {
      var q := EntryPresent(s, points, radius, j);
      KeyPastRun(s, end, q);
    }
  }

  /** In a sorted sequence, a key found at or past `end` that also sits just
      before `end` sits at `end` too. */
  lemma KeyPastRun(s: seq<Entry>, end: nat, q: nat)
    requires SortedByKey(s)
    ensures 0 < end <= q < |s| && s[end - 1].key == s[q].key ==> s[end].key == s[q].key
  {
    if 0 < end <= q < |s| {
      assert s[end - 1].key <= s[end].key <= s[q].key;
    }
  }

  /** Array.Sort over the entries, ordered by CompareTo. The source's sort is
      unstable; this one is insertion sort, and only its contract, a sorted
      permutation with ties in no promised order, is relied on. */
  method SortByKey(a: array<Entry>)
    modifies a
    ensures SortedByKey(a[..])
    ensures multiset(a[..]) == multiset(old(a[..]))
  {
    var i := 0;
    while i < a.Length
      invariant 0 <= i <= a.Length
      invariant SortedByKey(a[..i])
      invariant multiset(a[..]) == multiset(old(a[..]))
    {
      InsertAt(a, i);
      i := i + 1;
    }
    assert a[..i] == a[..];
  }

  /** Sinks `a[i]` into the sorted prefix `a[..i]` by adjacent swaps. */
  method InsertAt(a: array<Entry>, i: nat)
    requires i < a.Length && SortedByKey(a[..i])
    modifies a
    ensures SortedByKey(a[..i + 1])
    ensures multiset(a[..]) == multiset(old(a[..]))
  {
    var j := i;
    while j > 0 && CompareTo(a[j - 1], a[j]) > 0
      invariant 0 <= j <= i
      invariant multiset(a[..]) == multiset(old(a[..]))
      invariant forall p, q :: 0 <= p < q <= i && q != j ==> a[p].key <= a[q].key
      invariant 0 < j < i ==> a[j - 1].key <= a[j + 1].key
    {
      Swap(a, j - 1, j);
      j := j - 1;
    }
  }

  method Swap(a: array<Entry>, i: nat, j: nat)
    requires i < j < a.Length
    modifies a
    ensures a[..] == old(a[..])[i := old(a[j])][j := old(a[i])]
    ensures multiset(a[..]) == multiset(old(a[..]))
  {
    a[i], a[j] := a[j], a[i];
  }

  /** One step of the offsets pass: position `i` writes its key's slot exactly
      when it starts a run, and that happens exactly when no earlier position
      has the key. */
  lemma OffsetsStep(s: seq<Entry>, i: nat)
    requires SortedByKey(s) && i < |s| <= IntMax
    ensures (i == 0 || s[i].key != s[i - 1].key) <==> First(s, s[i].key, i) == IntMax
  {
    FirstSpec(s, s[i].key, i);
    if i > 0 && s[i].key != s[i - 1].key {
      forall q | 0 <= q < i ensures s[q].key != s[i].key {
        assert s[q].key <= s[i - 1].key <= s[i].key;
      }
    }
  }

  /** The first pass of Update: every offset slot is cleared to int.MaxValue and
      entry `i` is point `i` with its key. */
  method WriteEntries(points: seq<Vec2>, radius: real, offsets: array<int>, indices: array<Entry>)
    requires radius > 0.0 && |points| == indices.Length == offsets.Length
    modifies offsets, indices
    ensures indices[..] == Entries(points, radius)
    ensures forall k :: 0 <= k < offsets.Length ==> offsets[k] == IntMax
  {
    var n := |points|;
    for i := 0 to n
      invariant forall q :: 0 <= q < i ==> offsets[q] == IntMax
      invariant forall q :: 0 <= q < i ==> indices[q] == Entry(q, KeyOf(points[q], radius, n))
    {
      var cell := GetCell2D(points[i], radius);
      var key := KeyFromHash(HashCell2D(cell), indices.Length);
      offsets[i] := IntMax;
      indices[i] := Entry(i, key);
    }
  }

  /** The offsets pass of Update: each position that starts a run of equal keys
      (its key differs from the previous one, with uint.MaxValue before
      position 0) writes its position into its key's slot. */
  method WriteOffsets(indices: array<Entry>, offsets: array<int>)
    requires indices.Length == offsets.Length <= IntMax
    requires SortedByKey(indices[..])
    requires forall q :: 0 <= q < indices.Length ==> indices[q].key < indices.Length
    requires forall k :: 0 <= k < offsets.Length ==> offsets[k] == IntMax
    modifies offsets
    ensures offsets[..] == OffsetTable(indices[..])
  {
    var n := indices.Length;
    ghost var s := indices[..];
    for i := 0 to n
      invariant forall k :: 0 <= k < n ==> offsets[k] == First(s, k, i)
    {
      var key := indices[i].key;
      var keyPrev := if i == 0 then UintMax else indices[i - 1].key;
      OffsetsStep(s, i);
      if key != keyPrev {
        offsets[key] := i;
      }
    }
  }

  // ---------------------------------------------------------------------------
  // The lookup object
  // ---------------------------------------------------------------------------

  class Lookup {
    var points: seq<Vec2>
    var radius: real
    var spatialOffsets: array<int>
    var spatialIndices: array<Entry>

    /** The two tables have one slot per point, and a C# array has at most
        int.MaxValue elements. */
    ghost predicate Allocated()
      reads this
    {
      spatialOffsets.Length == spatialIndices.Length <= IntMax
    }

    /** After Update: the index array is a sorted permutation of the points'
        entries and the offset table is the first-occurrence table. */
    ghost predicate Built()
      reads this, spatialOffsets, spatialIndices
    {
      Allocated() && radius > 0.0 && |points| == spatialIndices.Length &&
      multiset(spatialIndices[..]) == multiset(Entries(points, radius)) &&
      SortedByKey(spatialIndices[..]) &&
      spatialOffsets[..] == OffsetTable(spatialIndices[..])
    }

    constructor (numPoints: nat)
      requires numPoints <= IntMax
      ensures Allocated() && spatialIndices.Length == numPoints
      ensures fresh(spatialOffsets) && fresh(spatialIndices)
    {
      spatialOffsets := new int[numPoints];
      spatialIndices := new Entry[numPoints];
    }

    /** Rebuilds both tables over `points`, which must have one point per slot. */
    method Update(points: seq<Vec2>, radius: real)
      requires Allocated() && |points| == spatialIndices.Length && radius > 0.0
      modifies this, spatialOffsets, spatialIndices
      ensures Built()
      ensures this.points == points && this.radius == radius
      ensures spatialOffsets == old(spatialOffsets) && spatialIndices == old(spatialIndices)
    {
      this.points := points;
      this.radius := radius;
      WriteEntries(points, radius, spatialOffsets, spatialIndices);
      SortByKey(spatialIndices);
      forall q | 0 <= q < spatialIndices.Length ensures spatialIndices[q].key < spatialIndices.Length {
        EntriesFacts(spatialIndices[..], points, radius, q);
      }
      WriteOffsets(spatialIndices, spatialOffsets);
    }

    /** The inner loop of a query: scans one bucket from its offset while the
        key matches, reporting the entries within the radius. */
    method ScanBucket(key: nat, samplePoint: Vec2, sqrRadius: real) returns (found: seq<int>)
      requires Built() && key < spatialIndices.Length
      ensures spatialOffsets[key] == IntMax ==> found == []
      ensures forall j :: j in found ==> 0 <= j < |points| && KeyOf(points[j], radius, |points|) == key
      ensures AllWithin(points, samplePoint, sqrRadius, found)
      ensures CoversKeys(points, radius, samplePoint, sqrRadius, {key}, found)
    {
      ghost var s := spatialIndices[..];
      ghost var n := |points|;
      OffsetTableSpec(s, key);
      var currIndex := spatialOffsets[key];
      found := [];
      var i := currIndex;
      while i < spatialIndices.Length
        invariant currIndex == IntMax ==> i == currIndex && found == []
        invariant currIndex != IntMax ==> 0 <= currIndex <= i <= n
        invariant forall p :: currIndex <= p < i ==> s[p].key == key
        invariant forall j :: j in found ==>
          (0 <= j < n && KeyOf(points[j], radius, n) == key && SqDist(points[j], samplePoint) < sqrRadius)
        invariant forall p :: currIndex <= p < i ==> 0 <= s[p].index < n
        invariant forall p :: currIndex <= p < i ==>
          (SqDist(points[s[p].index], samplePoint) < sqrRadius ==> s[p].index in found)
        decreases spatialIndices.Length - i
      {
        if spatialIndices[i].key != key {
          break;
        }
        EntriesFacts(s, points, radius, i);
        var particleIndex := spatialIndices[i].index;
        var sqrDst := SqDist(points[particleIndex], samplePoint);
        if sqrDst < sqrRadius {
          found := found + [particleIndex];
        }
        i := i + 1;
      }
      ghost var start := if currIndex == IntMax then n else currIndex;
      ghost var end := if currIndex == IntMax then n else i;
      RunCovered(s, points, radius, key, start, end, samplePoint, sqrRadius, found);
    }

    /** ForeachPointWithinRadius, with the callback's arguments returned in call
        order: exactly the points strictly within the radius are reported, each
        at least once (twice or more when neighbouring cells share a key). */
    method ForeachPointWithinRadius(samplePoint: Vec2) returns (reported: seq<int>)
      requires Built() && spatialIndices.Length > 0
      ensures ReportsExactly(points, radius, samplePoint, reported)
    {
      ghost var n := |points|;
      var originCell := GetCell2D(samplePoint, radius);
      var sqrRadius := radius * radius;
      reported := [];
      ghost var scanned: set<Cell> := {};
      for o := 0 to |Offsets2D|
        invariant AllWithin(points, samplePoint, sqrRadius, reported)
        invariant CoversCells(points, radius, samplePoint, sqrRadius, scanned, reported)
        invariant forall o' :: 0 <= o' < o ==> CellAdd(originCell, Offsets2D[o']) in scanned
      {
        var cell := CellAdd(originCell, Offsets2D[o]);
        var found := ScanCell(cell, samplePoint, sqrRadius);
        QueryStep(points, radius, samplePoint, sqrRadius, scanned, reported, cell, found);
        reported := reported + found;
        scanned := scanned + {cell};
      }
      BlockCovered(points, radius, samplePoint, sqrRadius, scanned, reported);
    }

    /** One pass of the query's outer loop: the bucket of `cell`'s key, which
        holds every point of `cell` (and of any cell whose hash collides). */
    method ScanCell(cell: Cell, samplePoint: Vec2, sqrRadius: real) returns (found: seq<int>)
      requires Built() && spatialIndices.Length > 0
      ensures AllWithin(points, samplePoint, sqrRadius, found)
      ensures CoversCells(points, radius, samplePoint, sqrRadius, {cell}, found)
    {
      var key := KeyFromHash(HashCell2D(cell), spatialIndices.Length);
      found := ScanBucket(key, samplePoint, sqrRadius);
      assert CoversKeys(points, radius, samplePoint, sqrRadius, {key}, found);
    }
  }

  /** `reported` names exactly the points strictly within `radius` of the
      sample: every index it holds is one, and every one is among them. */
  ghost predicate ReportsExactly(points: seq<Vec2>, radius: real, sample: Vec2, reported: seq<int>)
  {
    (forall j :: j in reported ==> 0 <= j < |points| && SqDist(points[j], sample) < radius * radius) &&
    (forall j :: 0 <= j < |points| && SqDist(points[j], sample) < radius * radius ==> j in reported)
  }

  /** Every index in `found` names a point whose squared distance to the
      sample is below `sqrRadius`. */
  ghost predicate AllWithin(points: seq<Vec2>, sample: Vec2, sqrRadius: real, found: seq<int>)
  {
    forall j :: j in found ==> 0 <= j < |points| && SqDist(points[j], sample) < sqrRadius
  }

  /** Every point strictly within the radius whose key is in `keys` is in
      `found`. */
  ghost predicate CoversKeys(points: seq<Vec2>, radius: real, sample: Vec2, sqrRadius: real,
                             keys: set<nat>, found: seq<int>)
  {
    radius > 0.0 && |points| > 0 &&
    forall j :: (0 <= j < |points| && SqDist(points[j], sample) < sqrRadius &&
                 KeyOf(points[j], radius, |points|) in keys) ==> j in found
  }

  /** Every point strictly within the radius whose cell is in `cells` is in
      `found`. */
  ghost predicate CoversCells(points: seq<Vec2>, radius: real, sample: Vec2, sqrRadius: real,
                              cells: set<Cell>, found: seq<int>)
  {
    radius > 0.0 &&
    forall j :: (0 <= j < |points| && SqDist(points[j], sample) < sqrRadius &&
                 GetCell2D(points[j], radius) in cells) ==> j in found
  }

  /** Appending one cell's report keeps the report sound and extends the
      cells it covers by that cell. */
  lemma QueryStep(points: seq<Vec2>, radius: real, sample: Vec2, sqrRadius: real, cells: set<Cell>,
                  reported: seq<int>, cell: Cell, found: seq<int>)
    requires AllWithin(points, sample, sqrRadius, reported) && AllWithin(points, sample, sqrRadius, found)
    requires CoversCells(points, radius, sample, sqrRadius, cells, reported)
    requires CoversCells(points, radius, sample, sqrRadius, {cell}, found)
    ensures AllWithin(points, sample, sqrRadius, reported + found)
    ensures CoversCells(points, radius, sample, sqrRadius, cells + {cell}, reported + found)
  {
  }

  /** A sound report covering all nine cells of the sample's block, with
      `sqrRadius` the squared radius, holds exactly the points strictly within
      the radius. */
  lemma BlockCovered(points: seq<Vec2>, radius: real, sample: Vec2, sqrRadius: real,
                     cells: set<Cell>, reported: seq<int>)
    requires sqrRadius == radius * radius
    requires AllWithin(points, sample, sqrRadius, reported)
    requires CoversCells(points, radius, sample, sqrRadius, cells, reported)
    requires forall o :: 0 <= o < |Offsets2D| ==> CellAdd(GetCell2D(sample, radius), Offsets2D[o]) in cells
    ensures ReportsExactly(points, radius, sample, reported)
  {
    forall j | 0 <= j < |points| && SqDist(points[j], sample) < radius * radius
      ensures j in reported
    {
      var o := NeighbourInBlock(points[j], sample, radius);
    }
  }

  /** Every point strictly within the radius of the sample lies in one of the
      nine cells of the sample's 3x3 block. */
  lemma NeighbourInBlock(p: Vec2, sample: Vec2, radius: real) returns (o: nat)
    requires radius > 0.0 && SqDist(p, sample) < radius * radius
    ensures o < |Offsets2D| && GetCell2D(p, radius) == CellAdd(GetCell2D(sample, radius), Offsets2D[o])
  {
    AxisWithinRadius(p, sample, radius);
    AxisAdjacent(p.x, sample.x, radius);
    AxisAdjacent(p.y, sample.y, radius);
    var c, s := GetCell2D(p, radius), GetCell2D(sample, radius);
    o := BlockOffset(c.x - s.x, c.y - s.y);
  }

  /** Coordinates less than a radius apart fall in the same or adjacent cells
      along that axis. */
  lemma AxisAdjacent(a: real, b: real, r: real)
    requires r > 0.0 && Abs(a - b) < r
    ensures -1 <= Trunc(a / r) - Trunc(b / r) <= 1
  {
    ScaledWithinOne(a, b, r);
    TruncAdjacent(a / r, b / r);
  }

  /** The entry of the 3x3 offset table for a step of at most one cell along
      each axis. */
  lemma BlockOffset(dx: int, dy: int) returns (o: nat)
    requires -1 <= dx <= 1 && -1 <= dy <= 1
    ensures o < |Offsets2D| && Offsets2D[o] == Cell(dx, dy)
  {
    o := (1 - dy) * 3 + dx + 1;
  }

  lemma ScaledWithinOne(a: real, b: real, r: real)
    requires r > 0.0 && Abs(a - b) < r
    ensures Abs(a / r - b / r) < 1.0
  {
    var d := (a - b) / r;
    assert a / r - b / r == d;
    assert d * r == a - b;
    QuotientBelowOne(a - b, r);
    QuotientBelowOne(b - a, r);
    assert (b - a) / r == -d;
  }

  lemma QuotientBelowOne(x: real, r: real)
    requires r > 0.0 && x < r
    ensures x / r < 1.0
  {
    var d := x / r;
    assert d * r == x;
    assert (1.0 - d) * r == r - x;
  }
}
