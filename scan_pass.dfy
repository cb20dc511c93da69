/**
 * One synchronous scan pass: the chunk keys the render handler visits around
 * the player's chunk, in the order of its two nested loops, and the shared
 * set after scanning them one after another.
 */
module ScanPass {
  import opened ChunkScan

  /** The keys (cx, zlo), (cx, zlo + 1), ..., (cx, zhi) visited by the inner loop; empty when zhi < zlo. */
  function Column(cx: int, zlo: int, zhi: int): (c: seq<ChunkKey>)
    decreases zhi - zlo
  {
    if zhi < zlo then [] else Column(cx, zlo, zhi - 1) + [(cx, zhi)]
  }

  /** The keys visited by the two nested loops, cx from xlo to xhi outside and cz from zlo to zhi inside. */
  function Grid(xlo: int, xhi: int, zlo: int, zhi: int): (g: seq<ChunkKey>)
    decreases xhi - xlo
  {
    if xhi < xlo then [] else Grid(xlo, xhi - 1, zlo, zhi) + Column(xhi, zlo, zhi)
  }

  /** The keys within Chebyshev distance r of the player's chunk, in visiting order. */
  function PassKeys(center: ChunkKey, r: int): seq<ChunkKey>
  {
    Grid(center.0 - r, center.0 + r, center.1 - r, center.1 + r)
  }

  /** No key occurs twice. */
  predicate Distinct(s: seq<ChunkKey>)
  {
    forall i, j :: 0 <= i < j < |s| ==> s[i] != s[j]
  }

  /** The shared set after scanning keys in order, starting from s. */
  ghost function ScanAll(s: set<Pos>, w: World, cfg: ScanConfig, keys: seq<ChunkKey>): set<Pos>
    decreases |keys|
  {
    if keys == [] then s
    else AfterScan(ScanAll(s, w, cfg, keys[..|keys| - 1]), w, cfg, keys[|keys| - 1])
  }

  /** Scanning one more key after a sequence is one more scan of the set the sequence left. */
  lemma ScanAllSnoc(s: set<Pos>, w: World, cfg: ScanConfig, keys: seq<ChunkKey>, k: ChunkKey)
    ensures ScanAll(s, w, cfg, keys + [k]) == AfterScan(ScanAll(s, w, cfg, keys), w, cfg, k)
  {
    assert (keys + [k])[..|keys|] == keys;
  }

  /** The keys visited before (cx, cz): all earlier columns, then this column below cz. */
  function Visited(xlo: int, zlo: int, zhi: int, cx: int, cz: int): seq<ChunkKey>
  {
    Grid(xlo, cx - 1, zlo, zhi) + Column(cx, zlo, cz - 1)
  }

  /** Visiting (cx, cz) extends the visited keys by that key. */
  lemma VisitedStep(xlo: int, zlo: int, zhi: int, cx: int, cz: int)
    requires zlo <= cz
    ensures Visited(xlo, zlo, zhi, cx, cz + 1) == Visited(xlo, zlo, zhi, cx, cz) + [(cx, cz)]
  {
  }

  /** Once the inner loop is done the visited keys are the grid up to column cx. */
  lemma VisitedColumnDone(xlo: int, zlo: int, zhi: int, cx: int, cz: int)
    requires xlo <= cx
    requires cz == zhi + 1 || (cz == zlo && zhi < zlo)
    ensures Visited(xlo, zlo, zhi, cx, cz) == Grid(xlo, cx, zlo, zhi)
  {
  }

  lemma {:induction false} ColumnFacts(cx: int, zlo: int, zhi: int)
    ensures zlo <= zhi + 1 ==> |Column(cx, zlo, zhi)| == zhi - zlo + 1
    ensures forall k :: k in Column(cx, zlo, zhi) <==> k.0 == cx && zlo <= k.1 <= zhi
    ensures Distinct(Column(cx, zlo, zhi))
    decreases zhi - zlo
  {
    if zlo <= zhi {
      ColumnFacts(cx, zlo, zhi - 1);
      var c := Column(cx, zlo, zhi - 1);
      assert Column(cx, zlo, zhi) == c + [(cx, zhi)];
      forall k: ChunkKey
        ensures k in Column(cx, zlo, zhi) <==> k.0 == cx && zlo <= k.1 <= zhi
      {
        assert k in c + [(cx, zhi)] <==> k in c || k == (cx, zhi);
      }
      DistinctAppend(c, [(cx, zhi)]);
    }
  }

  lemma DistinctAppend(a: seq<ChunkKey>, b: seq<ChunkKey>)
    requires Distinct(a) && Distinct(b)
    requires forall k :: k in a ==> k !in b
    ensures Distinct(a + b)
  {
    var ab := a + b;
    forall i, j | 0 <= i < j < |ab|
      ensures ab[i] != ab[j]
    {
      if j < |a| {
        assert ab[i] == a[i] && ab[j] == a[j];
      } else if i < |a| {
        assert ab[i] == a[i] && ab[j] == b[j - |a|] && a[i] in a;
      } else {
        assert ab[i] == b[i - |a|] && ab[j] == b[j - |a|];
      }
    }
  }

  /** The nested loops visit each key of the rectangle exactly once, (xhi - xlo + 1) * (zhi - zlo + 1) keys in all. */
  lemma {:induction false} GridFacts(xlo: int, xhi: int, zlo: int, zhi: int)
    requires zlo <= zhi + 1
    ensures xlo <= xhi + 1 ==> |Grid(xlo, xhi, zlo, zhi)| == (xhi - xlo + 1) * (zhi - zlo + 1)
    ensures forall k :: k in Grid(xlo, xhi, zlo, zhi) <==> xlo <= k.0 <= xhi && zlo <= k.1 <= zhi
    ensures Distinct(Grid(xlo, xhi, zlo, zhi))
    decreases xhi - xlo
  {
    if xlo <= xhi {
      GridFacts(xlo, xhi - 1, zlo, zhi);
      ColumnFacts(xhi, zlo, zhi);
      var g, c := Grid(xlo, xhi - 1, zlo, zhi), Column(xhi, zlo, zhi);
      assert Grid(xlo, xhi, zlo, zhi) == g + c;
      var width := zhi - zlo + 1;
      assert |g + c| == (xhi - xlo) * width + width;
      assert (xhi - xlo) * width + width == (xhi - xlo + 1) * width;
      forall k: ChunkKey
        ensures k in g + c <==> xlo <= k.0 <= xhi && zlo <= k.1 <= zhi
      {
        assert k in g + c <==> k in g || k in c;
      }
      DistinctAppend(g, c);
    }
  }

  /**
   * A pass with radius r >= 0 visits each key of [px-r, px+r] x [pz-r, pz+r]
   * exactly once and no other key: (2r+1)^2 keys.
   */
  lemma PassKeysExactlyOnce(center: ChunkKey, r: int)
    requires r >= 0
    ensures |PassKeys(center, r)| == (2 * r + 1) * (2 * r + 1)
    ensures Distinct(PassKeys(center, r))
    ensures forall k :: k in PassKeys(center, r) <==>
                          center.0 - r <= k.0 <= center.0 + r && center.1 - r <= k.1 <= center.1 + r
  {
    var xlo, xhi, zlo, zhi := center.0 - r, center.0 + r, center.1 - r, center.1 + r;
    GridFacts(xlo, xhi, zlo, zhi);
    assert xhi - xlo + 1 == 2 * r + 1 && zhi - zlo + 1 == 2 * r + 1;
  }

  /**
   * Scanning a sequence of keys leaves, for each chunk, its match set when it
   * was scanned and is ready, and its old entries otherwise.
   */
  lemma {:induction false} ScanAllEntries(s: set<Pos>, w: World, cfg: ScanConfig, keys: seq<ChunkKey>, k: ChunkKey)
    ensures EntriesOf(ScanAll(s, w, cfg, keys), k) ==
              if k in keys && w.ready(k) then ChunkMatches(w, cfg, k.0, k.1) else EntriesOf(s, k)
    decreases |keys|
  {
    if keys != [] {
      var init, last := keys[..|keys| - 1], keys[|keys| - 1];
      assert keys == init + [last];
      assert k in keys <==> k in init || k == last;
      ScanAllEntries(s, w, cfg, init, k);
      ScanEntries(ScanAll(s, w, cfg, init), w, cfg, last, k);
    }
  }

  /** The order of the scans does not matter: any two key sequences with the same keys give the same set. */
  lemma ScanOrderIrrelevant(s: set<Pos>, w: World, cfg: ScanConfig, keys1: seq<ChunkKey>, keys2: seq<ChunkKey>)
    requires forall k :: k in keys1 <==> k in keys2
    ensures ScanAll(s, w, cfg, keys1) == ScanAll(s, w, cfg, keys2)
  {
    forall k: ChunkKey
      ensures EntriesOf(ScanAll(s, w, cfg, keys1), k) == EntriesOf(ScanAll(s, w, cfg, keys2), k)
    {
      ScanAllEntries(s, w, cfg, keys1, k);
      ScanAllEntries(s, w, cfg, keys2, k);
    }
    SameEntriesSameSet(ScanAll(s, w, cfg, keys1), ScanAll(s, w, cfg, keys2));
  }

  /** A chunk that is never ready and has no entries keeps having none, however many scans visit it. */
  lemma NeverReadyStaysEmpty(s: set<Pos>, w: World, cfg: ScanConfig, keys: seq<ChunkKey>, k: ChunkKey)
    requires !w.ready(k)
    requires EntriesOf(s, k) == {}
    ensures EntriesOf(ScanAll(s, w, cfg, keys), k) == {}
  {
    ScanAllEntries(s, w, cfg, keys, k);
  }

  /**
   * After a pass of radius r around center, every ready chunk in the square
   * holds exactly its match set and every other chunk keeps its entries.
   */
  lemma PassEntries(s: set<Pos>, w: World, cfg: ScanConfig, center: ChunkKey, r: int, k: ChunkKey)
    ensures EntriesOf(ScanAll(s, w, cfg, PassKeys(center, r)), k) ==
              if center.0 - r <= k.0 <= center.0 + r && center.1 - r <= k.1 <= center.1 + r && w.ready(k)
              then ChunkMatches(w, cfg, k.0, k.1)
              else EntriesOf(s, k)
  {
    ScanAllEntries(s, w, cfg, PassKeys(center, r), k);
    if r >= 0 {
      PassKeysExactlyOnce(center, r);
    } else {
      assert PassKeys(center, r) == [];
    }
  }
}
