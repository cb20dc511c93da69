# LightDebug chunk scan, modelled in Dafny

LightDebug is a client-side module that highlights brightly lit blocks near the
player. Once per rendered frame it visits every chunk within a square radius of
the player's chunk. For each chunk that is fully generated it collects the
blocks of the chunk's 16x16 columns, with y between `min-y` and `max-y`
(inclusive), whose light level is at least `min-light-level`. It then
reconciles the shared set of highlighted blocks: first it removes the blocks of
that chunk that are no longer lit (`removeIf`), then it adds the fresh matches
(`addAll`). The renderer draws a copy of the set. Activating or deactivating
the module clears the set.

The model has three modules:

- `ChunkScan` (chunk_scan.dfy): block and chunk positions, the chunk key
  `(x div 16, z div 16)`, the world as an abstract readiness predicate plus an
  abstract light function, the intended match set of a chunk (`ChunkMatches`),
  and the intended effect of one scan on the shared set (`AfterScan`). It also
  holds the lemmas about one scan.
- `ScanPass` (scan_pass.dfy): the chunk keys that the render loop visits, in
  loop order (`PassKeys`), the set after scanning a sequence of keys
  (`ScanAll`), and the lemmas about a whole pass.
- `Esp` (light_debug.dfy): the imperative part. `CollectLightBlocks` holds the
  three nested loops. The class `LightDebug` has the `lightBlocks` set field,
  the activation hooks, `ScanChunk` (with an in-place `removeIf` and `addAll`)
  and the synchronous render pass `OnRender3D`.

Chunk keys use Dafny's `/`. For the positive divisor 16 this is floor division,
the same as the arithmetic shift by four that a chunk position applies to a
block position.

## Model

| member | source | states |
|---|---|---|
| `ChunkScan.ChunkOfIff` | src/main/java/com/nnpg/glazed/modules/esp/LightDebug.java:172 | a block's chunk key is (cx, cz) exactly when x is in [16cx, 16cx+15] and z is in [16cz, 16cz+15] |
| `ChunkScan.MatchesMember` | src/main/java/com/nnpg/glazed/modules/esp/LightDebug.java:160-166 | a block is in the chunk's match set iff it lies in the chunk's columns, minY <= y <= maxY (both ends inclusive) and its light level is >= minLight |
| `ChunkScan.MatchesCharacterised` | src/main/java/com/nnpg/glazed/modules/esp/LightDebug.java:160-166 | the same membership stated through chunk keys: chunk key equals (cx, cz), y in the band, light >= minLight, in both directions |
| `ChunkScan.MatchesBelongToChunk` | src/main/java/com/nnpg/glazed/modules/esp/LightDebug.java:163 | every block a chunk scan produces has that chunk's key, so a scan never yields a block of another chunk |
| `ChunkScan.EmptyBandMatchesNothing` | src/main/java/com/nnpg/glazed/modules/esp/LightDebug.java:162 | when minY > maxY the y loop never runs and the match set is empty |
| `ChunkScan.ScanOwnChunkExact` | src/main/java/com/nnpg/glazed/modules/esp/LightDebug.java:172-173 | after scanning a ready chunk, from any prior set, its entries equal its fresh match set: no stale entry survives and every match is present |
| `ChunkScan.ScanOtherChunksUnchanged` | src/main/java/com/nnpg/glazed/modules/esp/LightDebug.java:172-173 | a scan neither adds nor removes any entry whose chunk key differs from the scanned chunk |
| `ChunkScan.ScanEntries` | src/main/java/com/nnpg/glazed/modules/esp/LightDebug.java:154-173 | chunk by chunk, a scan leaves the match set for the scanned chunk when it is ready, and the old entries otherwise |
| `ChunkScan.ScanIdempotent` | src/main/java/com/nnpg/glazed/modules/esp/LightDebug.java:158-173 | scanning the same chunk twice in an unchanged world leaves the set equal to its state after the first scan |
| `ChunkScan.EmptyBandClearsChunk` | src/main/java/com/nnpg/glazed/modules/esp/LightDebug.java:162-173 | with minY > maxY a scan of a ready chunk removes exactly that chunk's entries and adds nothing |
| `ChunkScan.SingleLitBlockScenario` | src/main/java/com/nnpg/glazed/modules/esp/LightDebug.java:160-166 | one layer (y = 0), threshold 10, light 12 at the origin and 5 elsewhere: the match set of chunk (0, 0) is exactly {(0, 0, 0)} |
| `ScanPass.ColumnFacts` | src/main/java/com/nnpg/glazed/modules/esp/LightDebug.java:136 | the inner loop visits (cx, zlo) .. (cx, zhi), each once, zhi - zlo + 1 keys |
| `ScanPass.GridFacts` | src/main/java/com/nnpg/glazed/modules/esp/LightDebug.java:135-136 | the two nested loops visit each key of the rectangle exactly once and no other key, width times height keys in all |
| `ScanPass.PassKeysExactlyOnce` | src/main/java/com/nnpg/glazed/modules/esp/LightDebug.java:135-136 | a pass of radius r >= 0 visits exactly the keys within Chebyshev distance r of the player's chunk, each once, (2r+1)^2 keys |
| `ScanPass.ScanAllEntries` | src/main/java/com/nnpg/glazed/modules/esp/LightDebug.java:135-143 | after scanning any sequence of keys, each chunk holds its match set if it was scanned and is ready, and its old entries otherwise |
| `ScanPass.ScanOrderIrrelevant` | src/main/java/com/nnpg/glazed/modules/esp/LightDebug.java:135-143 | two scan sequences over the same keys, in any order and with any repeats, leave the same set |
| `ScanPass.NeverReadyStaysEmpty` | src/main/java/com/nnpg/glazed/modules/esp/LightDebug.java:154-155 | a never-ready chunk with no entries keeps none, however many scans visit it |
| `ScanPass.PassEntries` | src/main/java/com/nnpg/glazed/modules/esp/LightDebug.java:135-143 | after a pass, every ready chunk in the square holds exactly its match set, and every chunk outside the square or not ready keeps its old entries |
| `Esp.CollectLightBlocks` | src/main/java/com/nnpg/glazed/modules/esp/LightDebug.java:158-169 | the three nested loops over x, z in [0, 16) and y in [minY, maxY] return exactly the chunk's match set |
| `Esp.LightDebug.constructor` | src/main/java/com/nnpg/glazed/modules/esp/LightDebug.java:106 | the highlighted set starts empty |
| `Esp.LightDebug.OnActivate` | src/main/java/com/nnpg/glazed/modules/esp/LightDebug.java:114-117 | activation leaves the set empty |
| `Esp.LightDebug.OnDeactivate` | src/main/java/com/nnpg/glazed/modules/esp/LightDebug.java:120-126 | deactivation leaves the set empty |
| `Esp.LightDebug.ScanChunk` | src/main/java/com/nnpg/glazed/modules/esp/LightDebug.java:151-174 | the in-place removeIf and addAll give `AfterScan` of the old set: unchanged if the chunk is not ready, otherwise this chunk's entries equal its match set and other chunks' entries are untouched |
| `Esp.LightDebug.OnRender3D` | src/main/java/com/nnpg/glazed/modules/esp/LightDebug.java:128-149 | the synchronous pass leaves `ScanAll` of the old set over the pass keys in loop order; each ready chunk in the square holds its match set, all other entries are kept, and the returned snapshot equals the set |

## Left out

- The thread pool (creation on activation, shutdown on deactivation, task submission in the render loop) and the concurrent key set. Concurrency is not modelled, so only the synchronous `scanChunk` branch of the render loop is. Concurrent scans of the same chunk can race in the original; the model has no such races.
- Rendering: the boxes, colours and shape mode. The model keeps only the fact that the renderer iterates over a copy equal to the set.
- The settings builders and UI. `chunk-radius`, `min-y`, `max-y` and `min-light-level` become plain integers in `ScanConfig`. Their slider bounds (1-12, -64-319, 0-15) are not required, since the model holds for every integer value. The threading settings are left out with the thread pool.
- Game world access. Chunk lookup and the FULL status check become `World.ready`, and the light lookup becomes the total function `World.light`. Both are parameters.
- The null checks on the world and the player. They are host plumbing, and with them set the scan and the pass behave as modelled.
- Nothing rejects `min-y > max-y`. The code does not enforce `min-y <= max-y`: the y loop just runs zero times. The model follows the code (`EmptyBandMatchesNothing`, `EmptyBandClearsChunk`).
- Each scan reads the settings once, as one `ScanConfig`. The original calls `minY.get()`, `maxY.get()` and `minLight.get()` on every loop iteration, so a settings change during a scan is not modelled.
- 32-bit integer arithmetic. Coordinates are unbounded integers. `chunkX * 16 + x` and `playerChunk.x + radius` could only wrap at chunk coordinates far outside the game world's limits.
