/** The incremental scan of `generate_region` and the journal of last updates
    that `get_chunk_if_dirty` keeps. */
module RegionScan {

  const WIDTH := 32
  const SCAN_CHUNK_STEP := 4

  type Pos = (int, int)

  predicate InRegion(c: Pos) {
    0 <= c.0 < WIDTH && 0 <= c.1 < WIDTH
  }

  function Cell(c: Pos): (i: nat)
    requires InRegion(c)
    ensures i < WIDTH * WIDTH
  {
    c.1 * WIDTH + c.0
  }

  /** A chunk in the region file: absent from the header, impossible to inflate
      or parse, or parsed with its time of last update. */
  datatype Chunk = Missing | Unreadable | Stamped(lastUpdate: nat)

  type Region = s: seq<Chunk> | |s| == WIDTH * WIDTH witness seq(WIDTH * WIDTH, i => Missing)
  type Journal = s: seq<nat> | |s| == WIDTH * WIDTH witness seq(WIDTH * WIDTH, i => 0)

  // ----- what a scan does, in terms of the journal it starts from

  /** The chunk would be regenerated if it were looked at. */
  predicate Dirty(r: Region, cached: bool, j: Journal, c: Pos)
    requires InRegion(c)
  {
    var f := r[Cell(c)];
    f.Stamped? && (cached ==> j[Cell(c)] < f.lastUpdate)
  }

  predicate OnRow(c: Pos) {
    c.1 % SCAN_CHUNK_STEP == 0
  }

  /** Some dirty chunk on the band's scan row, left of column `limit`, is
      within three columns of `c`. */
  predicate NearDirty(r: Region, cached: bool, j: Journal, c: Pos, limit: int)
    requires InRegion(c) && limit <= WIDTH
  {
    exists d :: 0 <= d < limit && c.0 - 3 <= d <= c.0 + 3 && DirtyOn(r, cached, j, d, ScanRow(c.1))
  }

  /** The scan row of the band that row `z` is in. */
  function ScanRow(z: int): int {
    z - z % SCAN_CHUNK_STEP
  }

  predicate DirtyOn(r: Region, cached: bool, j: Journal, x: int, z: int)
    requires 0 <= x < WIDTH && 0 <= z < WIDTH
  {
    Dirty(r, cached, j, (x, z))
  }

  /** The exact set of chunks a scan looks at. */
  predicate Visited(r: Region, cached: bool, j: Journal, c: Pos)
    requires InRegion(c)
  {
    OnRow(c) || NearDirty(r, cached, j, c, WIDTH)
  }

  predicate Drawn(r: Region, cached: bool, j: Journal, c: Pos)
    requires InRegion(c)
  {
    Visited(r, cached, j, c) && Dirty(r, cached, j, c)
  }

  /** The journal after a chunk has been looked at. */
  function CellAfter(r: Region, cached: bool, j: Journal, c: Pos): nat
    requires InRegion(c)
  {
    if cached && Dirty(r, cached, j, c) then r[Cell(c)].lastUpdate else j[Cell(c)]
  }

  ghost predicate Distinct(s: seq<Pos>) {
    forall i, k :: 0 <= i < k < |s| ==> s[i] != s[k]
  }

  /** The journal after a scan. */
  ghost predicate JournalAfter(r: Region, cached: bool, j: Journal, after: Journal) {
    forall c: Pos {:trigger Cell(c)} | InRegion(c) ::
      after[Cell(c)] == if Visited(r, cached, j, c) then CellAfter(r, cached, j, c) else j[Cell(c)]
  }

  // ----- the same by place in the file, in figures

  /** The chunk at header entry `k`, for the journal's cell of the same number. */
  predicate Changed(r: Region, cached: bool, j: Journal, k: nat)
    requires k < 1024
  {
    r[k].Stamped? && (cached ==> j[k] < r[k].lastUpdate)
  }

  /** Header entry and journal cell `k` are those of column k % 32 and row k / 32. */
  lemma {:induction false} DirtyInFigures(r: Region, cached: bool, j: Journal, k: nat)
    requires k < 1024
    ensures Dirty(r, cached, j, (k % 32, k / 32)) <==> Changed(r, cached, j, k)
  {
  }

  /** The chunk in column `x` of row `z`. */
  predicate ChangedAt(r: Region, cached: bool, j: Journal, x: nat, z: nat)
    requires x < 32 && z < 32
  {
    Changed(r, cached, j, z * 32 + x)
  }

  lemma {:induction false} DirtyIsChanged(r: Region, cached: bool, j: Journal, x: nat, z: nat)
    requires x < 32 && z < 32
    ensures Dirty(r, cached, j, (x, z)) <==> ChangedAt(r, cached, j, x, z)
  {
  }

  /** A changed chunk in the given row, within three columns of `x`. */
  predicate RowNear(r: Region, cached: bool, j: Journal, x: nat, row: nat)
    requires x < 32 && row < 32
  {
    exists d: nat :: d < 32 && x - 3 <= d <= x + 3 && ChangedAt(r, cached, j, d, row)
  }

  /** What a scan looks at and draws, and the journal it leaves. */
  ghost predicate ScanInFigures(r: Region, cached: bool, j: Journal, tested: seq<Pos>, tiles: seq<Pos>,
                                after: Journal) {
    && (forall c | c in tested :: 0 <= c.0 < 32 && 0 <= c.1 < 32)
    && (forall x: nat, z: nat | x < 32 && z < 32 ::
          (x, z) in tested <==> z % 4 == 0 || RowNear(r, cached, j, x, z - z % 4))
    && (forall c | c in tiles :: c in tested)
    && (forall x: nat, z: nat | x < 32 && z < 32 ::
          (x, z) in tiles <==> (x, z) in tested && ChangedAt(r, cached, j, x, z))
    && (forall k: nat | k < 1024 ::
          after[k] == if cached && (k % 32, k / 32) in tiles then r[k].lastUpdate else j[k])
  }

  lemma {:induction false} NearInFigures(r: Region, cached: bool, j: Journal, x: nat, z: nat)
    requires x < 32 && z < 32
    ensures NearDirty(r, cached, j, (x, z), 32) <==> RowNear(r, cached, j, x, z - z % 4)
  {
    var row: nat := z - z % 4;
    assert ScanRow(z) == row;
    forall d: nat | d < 32 ensures DirtyOn(r, cached, j, d, row) <==> ChangedAt(r, cached, j, d, row) {
      DirtyIsChanged(r, cached, j, d, row);
    }
  }

  lemma {:induction false} JournalInFigures(r: Region, cached: bool, j: Journal, after: Journal, k: nat)
    requires k < 1024 && JournalAfter(r, cached, j, after)
    ensures after[k] == if cached && Drawn(r, cached, j, (k % 32, k / 32)) then r[k].lastUpdate else j[k]
  {
    assert Cell((k % 32, k / 32)) == k;
  }

  lemma {:induction false} ScanIsInFigures(r: Region, cached: bool, j: Journal, tested: seq<Pos>, tiles: seq<Pos>,
                                           after: Journal)
    requires forall c: Pos :: c in tested <==> InRegion(c) && Visited(r, cached, j, c)
    requires forall c: Pos :: c in tiles <==> InRegion(c) && Drawn(r, cached, j, c)
    requires JournalAfter(r, cached, j, after)
    ensures ScanInFigures(r, cached, j, tested, tiles, after)
  {
    forall x: nat, z: nat | x < 32 && z < 32
      ensures (x, z) in tested <==> z % 4 == 0 || RowNear(r, cached, j, x, z - z % 4)
      ensures (x, z) in tiles <==> (x, z) in tested && ChangedAt(r, cached, j, x, z)
    {
      NearInFigures(r, cached, j, x, z);
      DirtyIsChanged(r, cached, j, x, z);
    }
    forall k: nat | k < 1024
      ensures after[k] == if cached && (k % 32, k / 32) in tiles then r[k].lastUpdate else j[k]
    {
      JournalInFigures(r, cached, j, after, k);
    }
  }

  // ----- the scan

  class Scanner {
    const region: Region
    const cached: bool
    const lastUpdate: array<nat>
    /** Chunks looked at, and chunks whose tile was drawn, in order. */
    var tested: seq<Pos>
    var tiles: seq<Pos>

    ghost predicate Valid()
      reads this
    {
      lastUpdate.Length == WIDTH * WIDTH
    }

    constructor (region: Region, cached: bool, lastUpdate: array<nat>)
      requires lastUpdate.Length == WIDTH * WIDTH
      ensures Valid() && tested == [] && tiles == []
      ensures this.region == region && this.cached == cached && this.lastUpdate == lastUpdate
    {
      this.region, this.cached, this.lastUpdate := region, cached, lastUpdate;
      tested, tiles := [], [];
    }

    /** The logs and the journal agree with the journal `j` the scan began with. */
    ghost predicate Consistent(j: Journal)
      reads this, lastUpdate
    {
      && Valid()
      && Distinct(tested) && Distinct(tiles)
      && (forall c | c in tested :: InRegion(c))
      && (forall c | c in tiles :: c in tested)
      && (forall c | c in tested :: c in tiles <==> Dirty(region, cached, j, c))
      && (forall c: Pos {:trigger Cell(c)} | InRegion(c) ::
            lastUpdate[Cell(c)] == if c in tested then CellAfter(region, cached, j, c) else j[Cell(c)])
    }

    /** `is_chunk_missing`, `get_chunk_if_dirty` and `generate_chunk` on one
        chunk, which must not have been looked at in this scan. */
    method Visit(c: Pos, ghost j: Journal) returns (drew: bool)
      requires Consistent(j) && InRegion(c) && c !in tested
      modifies this, lastUpdate
      ensures Consistent(j) && tested == old(tested) + [c]
      ensures drew == Dirty(region, cached, j, c)
    {
      var i := Cell(c);
      tested := tested + [c];
      if !region[i].Stamped? {
        return false;
      }
      if cached {
        if lastUpdate[i] >= region[i].lastUpdate {
          return false;
        }
        lastUpdate[i] := region[i].lastUpdate;
      }
      tiles := tiles + [c];
      return true;
    }

    /** The chunks tested by the time the scan reaches column `x` of the band
        that starts at row `z0`. */
    ghost predicate Reached(j: Journal, z0: int, x: int, c: Pos)
      requires InRegion(c) && 0 <= x <= WIDTH
    {
      if c.1 < z0 then Visited(region, cached, j, c)
      else if c.1 == z0 then c.0 < x
      else c.1 < z0 + SCAN_CHUNK_STEP && NearDirty(region, cached, j, c, x)
    }

    ghost predicate TestedUpTo(j: Journal, z0: int, x: int)
      requires 0 <= x <= WIDTH
      reads this
    {
      forall c: Pos {:trigger c in tested} | InRegion(c) :: c in tested <==> Reached(j, z0, x, c)
    }

    /** The rows below the scan row, for columns in [startX, endX). */
    method ScanNeighbours(startX: int, endX: int, chunkZ: int, ghost j: Journal)
      requires Consistent(j) && 0 <= startX && endX <= WIDTH && 0 <= chunkZ <= WIDTH - SCAN_CHUNK_STEP
      requires forall c: Pos | startX <= c.0 < endX && chunkZ < c.1 < chunkZ + 4 :: c !in tested
      modifies this, lastUpdate
      ensures Consistent(j)
      ensures forall c: Pos :: c in tested <==>
                c in old(tested) || (startX <= c.0 < endX && chunkZ < c.1 < chunkZ + 4)
    {
      var x := startX;
      while x < endX
        invariant startX <= x && Consistent(j)
        invariant forall c: Pos :: c in tested <==>
                    c in old(tested) || (startX <= c.0 < x && c.0 < endX && chunkZ < c.1 < chunkZ + 4)
      {
        var z := chunkZ + 1;
        while z < chunkZ + 4
          invariant chunkZ < z <= chunkZ + 4 && Consistent(j)
          invariant forall c: Pos :: c in tested <==>
                      c in old(tested) || (startX <= c.0 < x && chunkZ < c.1 < chunkZ + 4)
                      || (c.0 == x && chunkZ < c.1 < z)
        {
          var drew := Visit((x, z), j);
          z := z + 1;
        }
        x := x + 1;
      }
    }

    /** `prev` remembers the last dirty chunk of the row, three columns on. */
    ghost predicate Remembers(j: Journal, z0: int, x: int, prev: int)
      requires 0 <= z0 < WIDTH && 0 <= x <= WIDTH
    {
      && (prev == -1 || (3 <= prev < x + 3 && DirtyOn(region, cached, j, prev - 3, z0)))
      && forall d | (if prev == -1 then 0 else prev - 2) <= d < x :: !DirtyOn(region, cached, j, d, z0)
    }

    /** The clipped range is exactly what the chunk at `x` adds. */
    lemma RangeIsNew(j: Journal, z0: int, x: int, prev: int, c: Pos)
      requires 0 <= z0 <= WIDTH - SCAN_CHUNK_STEP && z0 % SCAN_CHUNK_STEP == 0 && 0 <= x < WIDTH
      requires Remembers(j, z0, x, prev) && DirtyOn(region, cached, j, x, z0)
      requires InRegion(c) && z0 < c.1 < z0 + 4
      ensures var startX := if x - 3 > prev then x - 3 else prev + 1;
              var inRange := startX <= c.0 < x + 4;
              && !(inRange && NearDirty(region, cached, j, c, x))
              && (NearDirty(region, cached, j, c, x + 1) <==> inRange || NearDirty(region, cached, j, c, x))
    {
      assert ScanRow(c.1) == z0;
      if NearDirty(region, cached, j, c, x) {
        var d :| 0 <= d < x && c.0 - 3 <= d <= c.0 + 3 && DirtyOn(region, cached, j, d, z0);
        assert prev != -1 && d <= prev - 3;
      }
    }

    /** What one column of the scan row adds to the chunks tested. */
    ghost predicate Adds(j: Journal, z0: int, x: int, prev: int, c: Pos)
      requires 0 <= z0 < WIDTH && 0 <= x < WIDTH
    {
      c == (x, z0) ||
      (DirtyOn(region, cached, j, x, z0) && z0 < c.1 < z0 + 4
       && (if x - 3 > prev then x - 3 else prev + 1) <= c.0 < x + 4)
    }

    lemma ColumnStep(j: Journal, z0: int, x: int, prev: int, c: Pos)
      requires 0 <= z0 <= WIDTH - SCAN_CHUNK_STEP && z0 % SCAN_CHUNK_STEP == 0 && 0 <= x < WIDTH
      requires Remembers(j, z0, x, prev) && InRegion(c)
      ensures Reached(j, z0, x + 1, c) <==> Reached(j, z0, x, c) || Adds(j, z0, x, prev, c)
      ensures !(Reached(j, z0, x, c) && Adds(j, z0, x, prev, c))
    {
      if z0 < c.1 < z0 + 4 {
        assert ScanRow(c.1) == z0;
        if DirtyOn(region, cached, j, x, z0) { RangeIsNew(j, z0, x, prev, c); }
      }
    }

    lemma ColumnSteps(j: Journal, z0: int, x: int, prev: int)
      requires 0 <= z0 <= WIDTH - SCAN_CHUNK_STEP && z0 % SCAN_CHUNK_STEP == 0 && 0 <= x < WIDTH
      requires Remembers(j, z0, x, prev)
      ensures forall c: Pos {:trigger Adds(j, z0, x, prev, c)} {:trigger Reached(j, z0, x + 1, c)} | InRegion(c) ::
                && (Reached(j, z0, x + 1, c) <==> Reached(j, z0, x, c) || Adds(j, z0, x, prev, c))
                && !(Reached(j, z0, x, c) && Adds(j, z0, x, prev, c))
    {
      forall c: Pos | InRegion(c)
        ensures Reached(j, z0, x + 1, c) <==> Reached(j, z0, x, c) || Adds(j, z0, x, prev, c)
        ensures !(Reached(j, z0, x, c) && Adds(j, z0, x, prev, c))
      {
        ColumnStep(j, z0, x, prev, c);
      }
    }

    /** One column of a scan row: its chunk, and if that is dirty the rows below
        near it. */
    method ScanColumn(x: int, chunkZ: int, prev: int, ghost j: Journal) returns (next: int)
      requires Consistent(j) && 0 <= chunkZ <= WIDTH - SCAN_CHUNK_STEP && chunkZ % SCAN_CHUNK_STEP == 0
      requires 0 <= x < WIDTH && Remembers(j, chunkZ, x, prev) && -1 <= prev
      requires forall c: Pos | InRegion(c) && Adds(j, chunkZ, x, prev, c) :: c !in tested
      modifies this, lastUpdate
      ensures Consistent(j)
      ensures forall c: Pos | InRegion(c) :: c in tested <==> c in old(tested) || Adds(j, chunkZ, x, prev, c)
      ensures Remembers(j, chunkZ, x + 1, next) && -1 <= next
    {
      assert Adds(j, chunkZ, x, prev, (x, chunkZ));
      var drew := Visit((x, chunkZ), j);
      assert drew == DirtyOn(region, cached, j, x, chunkZ);
      if !drew {
        return prev;
      }
      var startX := if x - SCAN_CHUNK_STEP + 1 > prev then x - SCAN_CHUNK_STEP + 1 else prev + 1;
      var endX := if x + SCAN_CHUNK_STEP > WIDTH then WIDTH else x + SCAN_CHUNK_STEP;
      ScanNeighbours(startX, endX, chunkZ, j);
      return x + 3;
    }

    /** One band: its scan row, and the rows below near its dirty chunks. */
    method ScanBand(chunkZ: int, ghost j: Journal)
      requires Consistent(j) && 0 <= chunkZ <= WIDTH - SCAN_CHUNK_STEP && chunkZ % SCAN_CHUNK_STEP == 0
      requires TestedUpTo(j, chunkZ, 0)
      modifies this, lastUpdate
      ensures Consistent(j) && TestedUpTo(j, chunkZ, WIDTH)
    {
      var prev := -1;
      var x := 0;
      while x < WIDTH
        invariant 0 <= x <= WIDTH && Consistent(j) && -1 <= prev
        invariant TestedUpTo(j, chunkZ, x) && Remembers(j, chunkZ, x, prev)
      {
        ColumnSteps(j, chunkZ, x, prev);
        prev := ScanColumn(x, chunkZ, prev, j);
        x := x + 1;
      }
    }

    /** `generate_region`: looks at exactly the chunks of `Visited`, each once,
        and draws exactly the dirty ones among them. */
    method GenerateRegion()
      requires Valid() && tested == [] && tiles == []
      modifies this, lastUpdate
      ensures Valid() && Distinct(tested) && Distinct(tiles)
      ensures forall c: Pos :: c in tested <==> InRegion(c) && Visited(region, cached, old(lastUpdate[..]), c)
      ensures forall c: Pos :: c in tiles <==> InRegion(c) && Drawn(region, cached, old(lastUpdate[..]), c)
      ensures JournalAfter(region, cached, old(lastUpdate[..]), lastUpdate[..])
      ensures ScanInFigures(region, cached, old(lastUpdate[..]), tested, tiles, lastUpdate[..])
    {
      ghost var j: Journal := lastUpdate[..];
      var chunkZ := 0;
      while chunkZ < WIDTH
        invariant 0 <= chunkZ <= WIDTH && chunkZ % SCAN_CHUNK_STEP == 0 && Consistent(j)
        invariant TestedUpTo(j, chunkZ, 0)
      {
        ScanBand(chunkZ, j);
        BandDone(j, chunkZ);
        chunkZ := chunkZ + SCAN_CHUNK_STEP;
      }
      ScanIsInFigures(region, cached, j, tested, tiles, lastUpdate[..]);
    }

    lemma BandDone(j: Journal, z0: int)
      requires 0 <= z0 <= WIDTH - SCAN_CHUNK_STEP && z0 % SCAN_CHUNK_STEP == 0 && TestedUpTo(j, z0, WIDTH)
      ensures TestedUpTo(j, z0 + SCAN_CHUNK_STEP, 0)
    {
      forall c: Pos | InRegion(c) ensures Reached(j, z0 + SCAN_CHUNK_STEP, 0, c) <==> Reached(j, z0, WIDTH, c) {
        if c.1 >= z0 + SCAN_CHUNK_STEP {
          assert !Reached(j, z0 + SCAN_CHUNK_STEP, 0, c);
        }
      }
    }
  }

  // ----- main results

  /** With a journal, no cell ever goes down. */
  lemma JournalGrows(r: Region, j: Journal, after: Journal, c: Pos)
    requires JournalAfter(r, true, j, after) && InRegion(c)
    ensures j[Cell(c)] <= after[Cell(c)]
  {
  }

  ghost predicate Scanned(r: Region, j: Journal, after: Journal) {
    JournalAfter(r, true, j, after)
  }

  /** A journal over any number of scans, of a file that may change between them. */
  ghost predicate ScanRun(rs: seq<Region>, js: seq<Journal>) {
    |js| == |rs| + 1 && forall i | 0 <= i < |rs| :: Scanned(rs[i], js[i], js[i + 1])
  }

  /** Over any run of scans no cell ever goes down. */
  lemma {:induction false} JournalGrowsOverRuns(rs: seq<Region>, js: seq<Journal>, a: nat, b: nat, c: Pos)
    requires ScanRun(rs, js) && a <= b < |js| && InRegion(c)
    ensures js[a][Cell(c)] <= js[b][Cell(c)]
    decreases b - a
  {
    if a < b {
      assert Scanned(rs[b - 1], js[b - 1], js[b]);
      JournalGrows(rs[b - 1], js[b - 1], js[b], c);
      JournalGrowsOverRuns(rs, js, a, b - 1, c);
    }
  }

  /** With a journal, a second scan of the same file draws nothing. */
  lemma SecondScanDrawsNothing(r: Region, j: Journal, after: Journal, c: Pos)
    requires JournalAfter(r, true, j, after) && InRegion(c)
    ensures !Drawn(r, true, after, c)
  {
    forall d | 0 <= d < WIDTH ensures !DirtyOn(r, true, after, d, ScanRow(c.1)) {
      assert OnRow((d, ScanRow(c.1)));
      assert after[Cell((d, ScanRow(c.1)))] >= j[Cell((d, ScanRow(c.1)))];
    }
    assert after[Cell(c)] >= j[Cell(c)];
  }

  /** Does a scan catch every update?  Exactly when each dirty chunk off the
      scan rows has a dirty chunk on its band's scan row within three columns. */
  lemma CatchesAllIff(r: Region, cached: bool, j: Journal)
    ensures (forall c: Pos | InRegion(c) && Dirty(r, cached, j, c) :: Drawn(r, cached, j, c))
       <==> (forall c: Pos | InRegion(c) && Dirty(r, cached, j, c) && !OnRow(c) :: NearDirty(r, cached, j, c, WIDTH))
  {
  }

  /** It does not in general: a single changed chunk off the scan rows is never
      looked at, so it stays dirty however often the scan is run. */
  lemma MissedUpdate(x: int, z: int, t: nat)
    requires 0 <= x < WIDTH && 0 <= z < WIDTH && z % SCAN_CHUNK_STEP != 0 && t > 0
    ensures var r: Region := seq(WIDTH * WIDTH, i => Missing)[Cell((x, z)) := Stamped(t)];
            var j: Journal := seq(WIDTH * WIDTH, i => 0);
            && Dirty(r, true, j, (x, z)) && !Visited(r, true, j, (x, z))
            && forall after: Journal :: JournalAfter(r, true, j, after) ==> after == j
  {
    var r: Region := seq(WIDTH * WIDTH, i => Missing)[Cell((x, z)) := Stamped(t)];
    var j: Journal := seq(WIDTH * WIDTH, i => 0);
    forall d | 0 <= d < WIDTH ensures !DirtyOn(r, true, j, d, ScanRow(z)) {
      assert Cell((d, ScanRow(z))) != Cell((x, z));
    }
    forall after: Journal | JournalAfter(r, true, j, after) ensures after == j {
      forall i | 0 <= i < WIDTH * WIDTH ensures after[i] == j[i] {
        var c := (i % WIDTH, i / WIDTH);
        assert Cell(c) == i;
        if c != (x, z) { assert r[i] == Missing; }
      }
    }
  }

  /** Not even for the updates the scan was designed for, squares of radius
      three around a centre: of such a square, exactly the rows from its first
      scan row down are drawn, so up to three rows on top are left stale. */
  lemma SquareExact(r: Region, cached: bool, j: Journal, centre: Pos, c: Pos)
    requires InRegion(c) && centre.0 - 3 <= c.0 <= centre.0 + 3 && centre.1 - 3 <= c.1 <= centre.1 + 3
    requires forall p: Pos | InRegion(p) :: Dirty(r, cached, j, p) <==>
               centre.0 - 3 <= p.0 <= centre.0 + 3 && centre.1 - 3 <= p.1 <= centre.1 + 3
    ensures Drawn(r, cached, j, c) <==> ScanRow(c.1) >= centre.1 - 3
  {
    if ScanRow(c.1) >= centre.1 - 3 {
      assert DirtyOn(r, cached, j, c.0, ScanRow(c.1));
    }
  }
}
