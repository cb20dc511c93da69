/**
 * The LightDebug module of the esp package: the shared set of highlighted
 * blocks, the chunk scan that refreshes it, the synchronous pass over the
 * chunks around the player, and the activation hooks that clear it.
 */
module Esp {
  import opened ChunkScan
  import opened ScanPass

  /**
   * The three nested loops of a chunk scan: every x and z offset of the
   * chunk's 16x16 columns and every y from minY to maxY inclusive; a block
   * joins the result when its light level is at least minLight.
   */
  method CollectLightBlocks(w: World, cfg: ScanConfig, chunkX: int, chunkZ: int) returns (found: set<Pos>)
    ensures found == ChunkMatches(w, cfg, chunkX, chunkZ)
  {
    var baseX, baseZ := chunkX * ChunkSize, chunkZ * ChunkSize;
    found := {};
    var x := 0;
    while x < ChunkSize
      invariant 0 <= x <= ChunkSize
      invariant forall p :: p in found <==> IsMatch(w, cfg, chunkX, chunkZ, p) && p.0 < baseX + x
    {
      var z := 0;
      while z < ChunkSize
        invariant 0 <= z <= ChunkSize
        invariant forall p :: p in found <==>
                    IsMatch(w, cfg, chunkX, chunkZ, p) &&
                    (p.0 < baseX + x || (p.0 == baseX + x && p.2 < baseZ + z))
      {
        var y := cfg.minY;
        while y <= cfg.maxY
          invariant cfg.minY <= y
          invariant forall p :: p in found <==>
                      IsMatch(w, cfg, chunkX, chunkZ, p) &&
                      (p.0 < baseX + x || (p.0 == baseX + x && (p.2 < baseZ + z || (p.2 == baseZ + z && p.1 < y))))
        {
          var pos := (baseX + x, y, baseZ + z);
          if w.light(pos) >= cfg.minLight {
            found := found + {pos};
          }
          y := y + 1;
        }
        z := z + 1;
      }
      x := x + 1;
    }
    forall p
      ensures p in found <==> p in ChunkMatches(w, cfg, chunkX, chunkZ)
    {
      MatchesMember(w, cfg, chunkX, chunkZ, p);
    }
  }

  class LightDebug {
    /** The highlighted blocks, shared between the scans and the renderer. */
    var lightBlocks: set<Pos>

    constructor ()
      ensures lightBlocks == {}
    {
      lightBlocks := {};
    }

    method OnActivate()
      modifies this
      ensures lightBlocks == {}
    {
      lightBlocks := {};
    }

    method OnDeactivate()
      modifies this
      ensures lightBlocks == {}
    {
      lightBlocks := {};
    }

    /**
     * Scans chunk (chunkX, chunkZ). A chunk that is not ready leaves the set
     * as it was; otherwise the chunk's stale entries are removed and its
     * fresh matches added, so that its entries become its match set.
     */
    method ScanChunk(w: World, cfg: ScanConfig, chunkX: int, chunkZ: int)
      modifies this
      ensures lightBlocks == AfterScan(old(lightBlocks), w, cfg, (chunkX, chunkZ))
      ensures !w.ready((chunkX, chunkZ)) ==> lightBlocks == old(lightBlocks)
      ensures w.ready((chunkX, chunkZ)) ==>
                EntriesOf(lightBlocks, (chunkX, chunkZ)) == ChunkMatches(w, cfg, chunkX, chunkZ)
      ensures forall k :: k != (chunkX, chunkZ) ==> EntriesOf(lightBlocks, k) == EntriesOf(old(lightBlocks), k)
    {
      if !w.ready((chunkX, chunkZ)) {
        return;
      }
      var cpos := (chunkX, chunkZ);
      var chunkLightBlocks := CollectLightBlocks(w, cfg, chunkX, chunkZ);
      // removeIf: drop this chunk's entries that are not fresh matches
      lightBlocks := set p | p in lightBlocks && !(ChunkOf(p) == cpos && p !in chunkLightBlocks);
      // addAll: add the fresh matches
      lightBlocks := lightBlocks + chunkLightBlocks;
      MatchesBelongToChunk(w, cfg, chunkX, chunkZ);
      assert lightBlocks == ReplaceChunk(old(lightBlocks), cpos, chunkLightBlocks);
      ScanOwnChunkExact(old(lightBlocks), w, cfg, cpos);
      forall k: ChunkKey | k != cpos
        ensures EntriesOf(lightBlocks, k) == EntriesOf(old(lightBlocks), k)
      {
        ScanOtherChunksUnchanged(old(lightBlocks), w, cfg, cpos, k);
      }
    }

    /**
     * The synchronous render pass: scans every chunk within Chebyshev
     * distance cfg.radius of the player's chunk, x outside and z inside, then
     * takes a snapshot of the set for drawing.
     */
    method OnRender3D(w: World, cfg: ScanConfig, playerChunk: ChunkKey) returns (snapshot: set<Pos>)
      modifies this
      ensures lightBlocks == ScanAll(old(lightBlocks), w, cfg, PassKeys(playerChunk, cfg.radius))
      ensures forall k :: EntriesOf(lightBlocks, k) ==
                if playerChunk.0 - cfg.radius <= k.0 <= playerChunk.0 + cfg.radius &&
                   playerChunk.1 - cfg.radius <= k.1 <= playerChunk.1 + cfg.radius && w.ready(k)
                then ChunkMatches(w, cfg, k.0, k.1)
                else EntriesOf(old(lightBlocks), k)
      ensures snapshot == lightBlocks
    {
      var radius := cfg.radius;
      ghost var s0 := lightBlocks;
      var xlo, xhi := playerChunk.0 - radius, playerChunk.0 + radius;
      var zlo, zhi := playerChunk.1 - radius, playerChunk.1 + radius;
      var cx := xlo;
      while cx <= xhi
        invariant xlo <= cx && (cx <= xhi + 1 || cx == xlo)
        invariant lightBlocks == ScanAll(s0, w, cfg, Grid(xlo, cx - 1, zlo, zhi))
      {
        var cz := zlo;
        assert Visited(xlo, zlo, zhi, cx, cz) == Grid(xlo, cx - 1, zlo, zhi);
        while cz <= zhi
          invariant zlo <= cz && (cz <= zhi + 1 || cz == zlo)
          invariant lightBlocks == ScanAll(s0, w, cfg, Visited(xlo, zlo, zhi, cx, cz))
        {
          ScanChunk(w, cfg, cx, cz);
          ScanAllSnoc(s0, w, cfg, Visited(xlo, zlo, zhi, cx, cz), (cx, cz));
          VisitedStep(xlo, zlo, zhi, cx, cz);
          cz := cz + 1;
        }
        VisitedColumnDone(xlo, zlo, zhi, cx, cz);
        cx := cx + 1;
      }
      assert Grid(xlo, cx - 1, zlo, zhi) == PassKeys(playerChunk, radius);
      forall k: ChunkKey
        ensures EntriesOf(lightBlocks, k) ==
                  if playerChunk.0 - radius <= k.0 <= playerChunk.0 + radius &&
                     playerChunk.1 - radius <= k.1 <= playerChunk.1 + radius && w.ready(k)
                  then ChunkMatches(w, cfg, k.0, k.1)
                  else EntriesOf(s0, k)
      {
        PassEntries(s0, w, cfg, playerChunk, radius, k);
      }
      // the renderer iterates over a copy of the set
      snapshot := lightBlocks;
    }
  }
}
