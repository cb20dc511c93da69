/**
 * The scan of one chunk: which block positions of a 16x16 column qualify as
 * lit, and how the shared set of highlighted blocks is brought up to date for
 * that chunk. Everything here is a value-level specification; the class in
 * light_debug.dfy implements it with loops and in-place updates.
 */
module ChunkScan {

  /** A block position (x, y, z), compared structurally like a BlockPos. */
  type Pos = (int, int, int)

  /** A chunk position (chunk x, chunk z). */
  type ChunkKey = (int, int)

  /** Width of a chunk along x and along z. */
  const ChunkSize: int := 16

  /**
   * The chunk a block belongs to: both horizontal coordinates shifted right
   * by four bits, which is floor division by 16 and, for this positive
   * divisor, the same as Dafny's `/`.
   */
  function ChunkOf(p: Pos): ChunkKey
  {
    (p.0 / ChunkSize, p.2 / ChunkSize)
  }

  /** The game world as the scan sees it: whether a chunk is fully generated, and the light level at each block. */
  datatype World = World(ready: ChunkKey -> bool, light: Pos -> int)

  /** The settings that one scan pass reads. */
  datatype ScanConfig = ScanConfig(radius: int, minY: int, maxY: int, minLight: int)

  /** The block columns of chunk (cx, cz): x in [16cx, 16cx+15] and z in [16cz, 16cz+15]. */
  predicate InChunkColumns(p: Pos, cx: int, cz: int)
  {
    ChunkSize * cx <= p.0 < ChunkSize * cx + ChunkSize &&
    ChunkSize * cz <= p.2 < ChunkSize * cz + ChunkSize
  }

  /** A block belongs to a chunk exactly when it lies in that chunk's columns. */
  lemma ChunkOfIff(p: Pos, cx: int, cz: int)
    ensures ChunkOf(p) == (cx, cz) <==> InChunkColumns(p, cx, cz)
  {
    var qx, rx := p.0 / 16, p.0 % 16;
    var qz, rz := p.2 / 16, p.2 % 16;
    assert p.0 == 16 * qx + rx && 0 <= rx < 16;
    assert p.2 == 16 * qz + rz && 0 <= rz < 16;
    if InChunkColumns(p, cx, cz) {
      assert qx == cx;
      assert qz == cz;
    }
  }

  /** The criterion of the scan for one block of chunk (cx, cz). */
  predicate IsMatch(w: World, cfg: ScanConfig, cx: int, cz: int, p: Pos)
  {
    InChunkColumns(p, cx, cz) && cfg.minY <= p.1 <= cfg.maxY && w.light(p) >= cfg.minLight
  }

  /**
   * The match set of chunk (cx, cz): every block of the chunk's columns with
   * y in the inclusive range [minY, maxY] whose light level is at least minLight.
   */
  ghost function ChunkMatches(w: World, cfg: ScanConfig, cx: int, cz: int): set<Pos>
  {
    set x, y, z | ChunkSize * cx <= x < ChunkSize * cx + ChunkSize &&
                  cfg.minY <= y <= cfg.maxY &&
                  ChunkSize * cz <= z < ChunkSize * cz + ChunkSize &&
                  w.light((x, y, z)) >= cfg.minLight
      :: (x, y, z)
  }

  lemma MatchesMember(w: World, cfg: ScanConfig, cx: int, cz: int, p: Pos)
    ensures p in ChunkMatches(w, cfg, cx, cz) <==> IsMatch(w, cfg, cx, cz, p)
  {
    if IsMatch(w, cfg, cx, cz, p) {
      var (x, y, z) := p;
      assert (x, y, z) in ChunkMatches(w, cfg, cx, cz);
    }
  }

  /**
   * The match set read through chunk keys: a block is matched exactly when it
   * belongs to chunk (cx, cz), lies in the y band and is lit enough.
   */
  lemma MatchesCharacterised(w: World, cfg: ScanConfig, cx: int, cz: int, p: Pos)
    ensures p in ChunkMatches(w, cfg, cx, cz) <==>
              ChunkOf(p) == (cx, cz) && cfg.minY <= p.1 <= cfg.maxY && w.light(p) >= cfg.minLight
  {
    MatchesMember(w, cfg, cx, cz, p);
    ChunkOfIff(p, cx, cz);
  }

  /** A scan never produces a block that belongs to another chunk. */
  lemma MatchesBelongToChunk(w: World, cfg: ScanConfig, cx: int, cz: int)
    ensures forall p :: p in ChunkMatches(w, cfg, cx, cz) ==> ChunkOf(p) == (cx, cz)
  {
    forall p | p in ChunkMatches(w, cfg, cx, cz)
      ensures ChunkOf(p) == (cx, cz)
    {
      MatchesCharacterised(w, cfg, cx, cz, p);
    }
  }

  /** An empty y band (minY > maxY) matches nothing. */
  lemma EmptyBandMatchesNothing(w: World, cfg: ScanConfig, cx: int, cz: int)
    requires cfg.minY > cfg.maxY
    ensures ChunkMatches(w, cfg, cx, cz) == {}
  {
    forall p | p in ChunkMatches(w, cfg, cx, cz)
      ensures false
    {
      MatchesMember(w, cfg, cx, cz, p);
    }
  }

  /** The blocks of set s that belong to chunk key. */
  ghost function EntriesOf(s: set<Pos>, key: ChunkKey): (e: set<Pos>)
    ensures e <= s
  {
    set p | p in s && ChunkOf(p) == key
  }

  /** Two sets that agree chunk by chunk are equal. */
  lemma SameEntriesSameSet(a: set<Pos>, b: set<Pos>)
    requires forall k :: EntriesOf(a, k) == EntriesOf(b, k)
    ensures a == b
  {
    forall p | p in a
      ensures p in b
    {
      assert p in EntriesOf(a, ChunkOf(p));
    }
    forall p | p in b
      ensures p in a
    {
      assert p in EntriesOf(b, ChunkOf(p));
    }
  }

  /** The intended effect of a scan on the shared set: this chunk's entries are replaced by the fresh matches. */
  ghost function ReplaceChunk(s: set<Pos>, key: ChunkKey, matches: set<Pos>): set<Pos>
  {
    (s - EntriesOf(s, key)) + matches
  }

  /**
   * The shared set after scanning chunk key: unchanged when the chunk is not
   * ready, and otherwise this chunk's entries replaced by its match set.
   */
  ghost function AfterScan(s: set<Pos>, w: World, cfg: ScanConfig, key: ChunkKey): set<Pos>
  {
    if w.ready(key) then ReplaceChunk(s, key, ChunkMatches(w, cfg, key.0, key.1)) else s
  }

  /** After a scan of a ready chunk, its entries are exactly its match set: no stale entry survives and every match is present. */
  lemma ScanOwnChunkExact(s: set<Pos>, w: World, cfg: ScanConfig, key: ChunkKey)
    requires w.ready(key)
    ensures EntriesOf(AfterScan(s, w, cfg, key), key) == ChunkMatches(w, cfg, key.0, key.1)
  {
    MatchesBelongToChunk(w, cfg, key.0, key.1);
  }

  /** A scan neither adds nor removes an entry of any other chunk. */
  lemma ScanOtherChunksUnchanged(s: set<Pos>, w: World, cfg: ScanConfig, key: ChunkKey, other: ChunkKey)
    requires other != key
    ensures EntriesOf(AfterScan(s, w, cfg, key), other) == EntriesOf(s, other)
  {
    MatchesBelongToChunk(w, cfg, key.0, key.1);
  }

  /** A scan yields, chunk by chunk, the match set for a ready scanned chunk and the old entries for every other chunk. */
  lemma ScanEntries(s: set<Pos>, w: World, cfg: ScanConfig, key: ChunkKey, k: ChunkKey)
    ensures EntriesOf(AfterScan(s, w, cfg, key), k) ==
              if k == key && w.ready(key) then ChunkMatches(w, cfg, k.0, k.1) else EntriesOf(s, k)
  {
    if k == key {
      if w.ready(key) {
        ScanOwnChunkExact(s, w, cfg, key);
      }
    } else {
      ScanOtherChunksUnchanged(s, w, cfg, key, k);
    }
  }

  /** Scanning the same chunk twice with an unchanged world leaves the set as the first scan left it. */
  lemma ScanIdempotent(s: set<Pos>, w: World, cfg: ScanConfig, key: ChunkKey)
    ensures AfterScan(AfterScan(s, w, cfg, key), w, cfg, key) == AfterScan(s, w, cfg, key)
  {
    var once := AfterScan(s, w, cfg, key);
    forall k: ChunkKey
      ensures EntriesOf(AfterScan(once, w, cfg, key), k) == EntriesOf(once, k)
    {
      ScanEntries(once, w, cfg, key, k);
      ScanEntries(s, w, cfg, key, k);
    }
    SameEntriesSameSet(AfterScan(once, w, cfg, key), once);
  }

  /** With an empty y band a scan of a ready chunk removes all its entries and adds nothing. */
  lemma EmptyBandClearsChunk(s: set<Pos>, w: World, cfg: ScanConfig, key: ChunkKey)
    requires cfg.minY > cfg.maxY
    requires w.ready(key)
    ensures AfterScan(s, w, cfg, key) == s - EntriesOf(s, key)
    ensures EntriesOf(AfterScan(s, w, cfg, key), key) == {}
  {
    EmptyBandMatchesNothing(w, cfg, key.0, key.1);
    ScanOwnChunkExact(s, w, cfg, key);
  }

  /**
   * A single layer (minY = maxY = 0), threshold 10, light 12 at the origin
   * and 5 elsewhere: the match set of chunk (0, 0) is the origin alone.
   */
  lemma SingleLitBlockScenario()
    ensures ChunkMatches(World(k => true, p => if p == (0, 0, 0) then 12 else 5),
                         ScanConfig(4, 0, 0, 10), 0, 0) == {(0, 0, 0)}
  {
    var w := World(k => true, p => if p == (0, 0, 0) then 12 else 5);
    var cfg := ScanConfig(4, 0, 0, 10);
    forall p
      ensures p in ChunkMatches(w, cfg, 0, 0) <==> p == (0, 0, 0)
    {
      MatchesMember(w, cfg, 0, 0, p);
    }
  }
}
