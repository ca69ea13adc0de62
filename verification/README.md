# VanillaMinimaps core, modelled in Dafny

VanillaMinimaps draws a minimap on a player's screen. It does so with client-side map
layers: one primary layer of 128×128 terrain pixels, and secondary layers on top of it
for markers (the player, the death point, custom markers). Every frame the server
does the following:

- renders the primary layer from the world-map cache, either 1:1 around the player's
  block or zoomed by the current scale;
- stamps a small protocol into reserved cells of the buffer: corner marks, the
  sub-pixel position of the player, the screen side and the minimap shape;
- renders each secondary layer and stamps the same protocol into it, plus where on the
  minimap the marker sits, clamped to the border when it must stay on the edge;
- sends every layer to the client.

A packet rewriter keeps fake passengers mounted on vehicles by merging them into every
passenger packet. The `/minimap marker` command adds, removes, re-icons and renames
custom markers, and its tab completion suggests marker names.

The model is one module per part of the core:

| module | file | models |
|---|---|---|
| `Common` | `common.dfy` | entities (player, location, layers, icons), Java's integer and rounding operators, the collaborators a frame depends on (`Env`) |
| `LinkedMaps` | `linked_map.dfy` | an insertion-ordered map, standing for `LinkedHashMap` |
| `Border` | `border.dfy` | `MinimapBorder`: the radius markers are clamped to |
| `PrimaryEncoding` | `primary_encoder.dfy` | `PrimaryMapEncoder`, in place on a byte array |
| `SecondaryEncoding` | `secondary_encoder.dfy` | `SecondaryMapEncoder`, in place on a byte array |
| `Viewport` | `viewport.dfy` | the two terrain-rendering branches of `Minimap.update` and the tile keys they declare |
| `Minimaps` | `minimap.dfy` | class `Minimap`: frame updates, respawn, the death point |
| `Passengers` | `passengers.dfy` | class `PassengerRewriter`: the passenger registry and the packet merge |
| `MarkerCommands` | `marker_commands.dfy` | the guards and state changes of `/minimap marker add/remove/set` |
| `Suggestions` | `suggestions.dfy` | `matchPrefix` and `markerSuggestions` |

Each rendering and encoding loop is a method with loop invariants. Its postcondition
ties the result, or the new array contents, to a reference function (`OneToOneImage`,
`ZoomedImage`, `ZoomedKeys`, `PrimaryEncoded`, `SecondaryEncoded`). Lemmas then state
what those functions mean, cell by cell. A frame's packets and cache calls are
returned as a list of `Effect`s in the order the source issues them. `Minimap.Update`
is proved to produce exactly `FrameEffects`.

The reference functions carry the meaning of those "exactly" clauses:

- `PrimaryEncoding.PrimaryEncoded` is the primary encoding of PrimaryMapEncoder.java:33-45.
  `PrimaryEncodedCells` spells it out cell by cell.
- `SecondaryEncoding.LayerWrites` is the write block of SecondaryMapEncoder.java:63-73.
  `SecondaryEncoding.SecondaryEncoded` is the whole of lines 32-74: the primary encoding,
  then `LayerWrites` at the rounded `ScreenPoint`. `LayerWritesCells`,
  `SecondaryEncodedCells` and `SecondaryEncodedPosition` spell them out cell by cell.
- `Viewport.OneToOneImage` defines each output pixel of the 1:1 branch (Minimap.java:88-110)
  independently of the loop order: the pixel the scan writes there, or 0 for row and
  column 127. `Viewport.ZoomedImage` defines each pixel of the zoomed branch (lines 125-138)
  as the pixel of its sampled world block.
- `Minimaps.Minimap.Terrain` is the primary image of a frame (lines 58-157): the 1:1 image,
  the zoomed image or the drawing of another renderer.
- `Minimaps.Minimap.KeyEffects` is the cache-key call of a frame (lines 112-114, 140-153).
- `Minimaps.Minimap.FrameEffects` is a whole frame: `KeyEffects`, the primary layer's update
  and `SecondaryEffects` (lines 158-161, 164-178). `FrameDeclaresKeys`,
  `SecondaryEffectsAreVisibleLayers` and `RespawnFrameAddsOnlyKeys` state its properties.

## Model

All source paths are under `src/main/java/com/jnngl/vanillaminimaps/`.

| member | source | states |
|---|---|---|
| Border.OuterRadius | src/main/java/com/jnngl/vanillaminimaps/map/renderer/MinimapBorder.java:25-38 | square border: 0.97·64 = 62.08; circle border: the positive root of 0.93·64² |
| Border.IconHalf | src/main/java/com/jnngl/vanillaminimaps/map/renderer/MinimapBorder.java:41-44 | no icon gives 0; an icon gives half its larger side, rounded down |
| Border.ClampRadius | src/main/java/com/jnngl/vanillaminimaps/map/renderer/MinimapBorder.java:40-47 | result is never negative; it is either 0 or outer radius minus the icon half; with no icon it is the outer radius |
| Border.ClampWithinBorder | src/main/java/com/jnngl/vanillaminimaps/map/renderer/MinimapBorder.java:40-47 | an icon never moves the clamp radius beyond the border |
| Border.ClampMonotone | src/main/java/com/jnngl/vanillaminimaps/map/renderer/MinimapBorder.java:40-47 | a larger icon never gets a larger clamp radius |
| Border.OddSizeRoundsDown | src/main/java/com/jnngl/vanillaminimaps/map/renderer/MinimapBorder.java:43 | an icon of odd side 2k+1 has half k (integer division) |
| Border.ClampCircle16 | src/main/java/com/jnngl/vanillaminimaps/map/renderer/MinimapBorder.java:37-46 | on the circle, a 16×16 icon gets the outer radius minus 8: the `max(0, …)` does not cut it off |
| PrimaryEncoding.Fraction | src/main/java/com/jnngl/vanillaminimaps/map/renderer/encoder/PrimaryMapEncoder.java:35-38 | `v - floor(v)` lies in [0, 1), and what is removed is a whole number |
| PrimaryEncoding.WriteRun | src/main/java/com/jnngl/vanillaminimaps/map/renderer/encoder/PrimaryMapEncoder.java:40-41 | the run holds the written word, and every cell outside it is unchanged |
| PrimaryEncoding.MarkCorners | src/main/java/com/jnngl/vanillaminimaps/map/renderer/encoder/PrimaryMapEncoder.java:39 | the four corner cells hold the corner marks; every other cell is unchanged |
| PrimaryEncoding.MarkCornersInPlace | src/main/java/com/jnngl/vanillaminimaps/map/renderer/encoder/PrimaryMapEncoder.java:39 | the array afterwards is `MarkCorners` of the array before |
| PrimaryEncoding.EncodeFixedPoint | src/main/java/com/jnngl/vanillaminimaps/map/renderer/encoder/PrimaryMapEncoder.java:40-41 | the 8-byte loop writes the fixed-point word at (row y, column x) and nothing else |
| PrimaryEncoding.PrimaryEncodedCells | src/main/java/com/jnngl/vanillaminimaps/map/renderer/encoder/PrimaryMapEncoder.java:33-45 | cell by cell: corner marks; fractional scaled X in cells 1..8 and Z in 9..16; cell 17 is 4 exactly for the right side and 0 otherwise; cell 18 is 4 exactly for a square map; cell 128 is cleared; every other cell is kept |
| PrimaryEncoding.EncodePrimaryLayer | src/main/java/com/jnngl/vanillaminimaps/map/renderer/encoder/PrimaryMapEncoder.java:33-45 | the in-place encoding leaves exactly `PrimaryEncoded` of the old buffer |
| PrimaryEncoding.EncodePrimaryLayerFor | src/main/java/com/jnngl/vanillaminimaps/map/renderer/encoder/PrimaryMapEncoder.java:28-31 | the minimap overload encodes the holder's position on the minimap's screen side |
| SecondaryEncoding.ResolveIcon | src/main/java/com/jnngl/vanillaminimaps/map/renderer/encoder/SecondaryMapEncoder.java:76-81 | an icon is found exactly when the renderer is an icon renderer, and it is that renderer's icon |
| SecondaryEncoding.ClampToEdgeOnCircle | src/main/java/com/jnngl/vanillaminimaps/map/renderer/encoder/SecondaryMapEncoder.java:43-52 | a vector within the radius is unchanged; a longer one lands on the circle of that radius, on the same ray and in the same direction; the result is always within the radius |
| SecondaryEncoding.ScreenPoint | src/main/java/com/jnngl/vanillaminimaps/map/renderer/encoder/SecondaryMapEncoder.java:35-55 | a layer that does not track a location sits at its raw position; a tracking layer sits at its edge offset from the map centre 64 |
| SecondaryEncoding.EdgeOffset | src/main/java/com/jnngl/vanillaminimaps/map/renderer/encoder/SecondaryMapEncoder.java:39-52 | without keep-on-edge the offset is the swapped, scaled world offset, unclamped |
| SecondaryEncoding.DistanceSquared | src/main/java/com/jnngl/vanillaminimaps/map/renderer/encoder/SecondaryMapEncoder.java:58-62 | the holder-to-marker squared distance is never negative |
| SecondaryEncoding.TrackedPosition | src/main/java/com/jnngl/vanillaminimaps/map/renderer/encoder/SecondaryMapEncoder.java:35-55 | the computed (trackedX, trackedZ) is `ScreenPoint` |
| SecondaryEncoding.LayerWritesCells | src/main/java/com/jnngl/vanillaminimaps/map/renderer/encoder/SecondaryMapEncoder.java:63-73 | cell 128 is 4; cell 256 is 4 exactly when placed; when not placed only cell 256 (0) changes; when placed: depth in 129..136, X/128 in 137..144, Z/128 in 257..264, cell 265 is 4 exactly with keep-on-edge; nothing outside these cells changes |
| SecondaryEncoding.WriteLayerCells | src/main/java/com/jnngl/vanillaminimaps/map/renderer/encoder/SecondaryMapEncoder.java:63-73 | the in-place writes leave exactly `LayerWrites` of the old buffer |
| SecondaryEncoding.SecondaryEncodedCells | src/main/java/com/jnngl/vanillaminimaps/map/renderer/encoder/SecondaryMapEncoder.java:32-74 | the secondary encoding is the primary encoding outside the layer cells; the placed flag is set exactly when the marker is shown and inside the map; the depth and keep-on-edge flag are as in the layer |
| SecondaryEncoding.SecondaryEncodedPosition | src/main/java/com/jnngl/vanillaminimaps/map/renderer/encoder/SecondaryMapEncoder.java:59-67 | a placed marker's rounded screen X and Z are written as fractions of 128 in rows 1 and 2 |
| SecondaryEncoding.PlacedPosition | src/main/java/com/jnngl/vanillaminimaps/map/renderer/encoder/SecondaryMapEncoder.java:63-67 | the placed branch writes mapX/128 and mapZ/128 at their runs |
| SecondaryEncoding.EncodeSecondaryLayer | src/main/java/com/jnngl/vanillaminimaps/map/renderer/encoder/SecondaryMapEncoder.java:32-74 | the in-place encoding leaves exactly `SecondaryEncoded` of the old buffer |
| SecondaryEncoding.AxisSwap | src/main/java/com/jnngl/vanillaminimaps/map/renderer/encoder/SecondaryMapEncoder.java:39-42 | moving a marker one scaled step along world Z moves it one pixel left on screen X, and leaves screen Z as it was; the same holds for world X and screen Z (the axes are swapped) |
| SecondaryEncoding.UntrackedRaw | src/main/java/com/jnngl/vanillaminimaps/map/renderer/encoder/SecondaryMapEncoder.java:35-62 | a layer that does not track a location is drawn at its raw position and always counts as tracked |
| SecondaryEncoding.KeptOnEdgeWithinRadius | src/main/java/com/jnngl/vanillaminimaps/map/renderer/encoder/SecondaryMapEncoder.java:43-54 | a keep-on-edge marker is always drawn within the clamp radius of the centre |
| SecondaryEncoding.FarMarkerHidden | src/main/java/com/jnngl/vanillaminimaps/map/renderer/encoder/SecondaryMapEncoder.java:59-70 | a tracking marker 64·scale blocks or more away, not kept on the edge, writes only the "not placed" flag on top of the primary encoding |
| Viewport.BlockOffset | src/main/java/com/jnngl/vanillaminimaps/map/Minimap.java:65-77 | the corrected Java remainder lies in [0, 128), and the aligned origin plus the offset is the block |
| Viewport.ChooseQuadrant | src/main/java/com/jnngl/vanillaminimaps/map/Minimap.java:94-104 | each of the four tiles is chosen exactly under its sign condition on (dataX, dataZ) |
| Viewport.Wrap | src/main/java/com/jnngl/vanillaminimaps/map/Minimap.java:94-104 | adding 128 to a negative difference gives the difference mod 128, in [0, 128) |
| Viewport.SourceWrap | src/main/java/com/jnngl/vanillaminimaps/map/Minimap.java:90-104 | the loop position that adjusts to a given data coordinate is unique: `Source` inverts `Wrap` |
| Viewport.RenderOneToOne | src/main/java/com/jnngl/vanillaminimaps/map/Minimap.java:78-110 | the 1:1 scan over the four fetched tiles produces exactly `OneToOneImage` |
| Viewport.StepOneToOne | src/main/java/com/jnngl/vanillaminimaps/map/Minimap.java:90-108 | one inner-loop pass keeps the scan invariant: every pixel already visited holds its image value, the rest are 0 |
| Viewport.StepSource | src/main/java/com/jnngl/vanillaminimaps/map/Minimap.java:106-107 | the pixel copied from the chosen quadrant is the image's pixel at the written cell |
| Viewport.ScanWrites | src/main/java/com/jnngl/vanillaminimaps/map/Minimap.java:106-107 | a pass with both adjusted coordinates positive writes exactly the one output pixel it targets |
| Viewport.ScanSkips | src/main/java/com/jnngl/vanillaminimaps/map/Minimap.java:106 | a pass with an adjusted coordinate of 0 writes nothing |
| Viewport.ScanComplete | src/main/java/com/jnngl/vanillaminimaps/map/Minimap.java:88-110 | after the last row the buffer is the 1:1 image |
| Viewport.AlignedViewIsContainingTile | src/main/java/com/jnngl/vanillaminimaps/map/Minimap.java:78-108 | with the holder at offset (0, 0) of its tile, every pixel outside row 127 and column 127 is the containing tile's pixel at the same cell; those two stay 0 |
| Viewport.OneToOneKeys | src/main/java/com/jnngl/vanillaminimaps/map/Minimap.java:63-87 | four keys: the tile holding the floored player position, then +X, +X+Z and +Z |
| Viewport.KeysMatchFetchedTiles | src/main/java/com/jnngl/vanillaminimaps/map/Minimap.java:63-87 | the declared keys are the fetched tiles' keys exactly when the floored player coordinates fall in the same tile as the holder's block |
| Viewport.ZoomedData | src/main/java/com/jnngl/vanillaminimaps/map/Minimap.java:126-132 | the position inside a zoomed tile is in [0, 128) and, added to the tile origin minus 64, gives the world coordinate |
| Viewport.WorldAtBounds | src/main/java/com/jnngl/vanillaminimaps/map/Minimap.java:116-130 | the 128 sampled world coordinates stay within the view's start and end |
| Viewport.RenderZoomed | src/main/java/com/jnngl/vanillaminimaps/map/Minimap.java:116-138 | the zoomed scan produces exactly `ZoomedImage`: every output pixel is read from the tile around its sampled world block |
| Viewport.StepZoomed | src/main/java/com/jnngl/vanillaminimaps/map/Minimap.java:129-136 | one inner-loop pass writes its output pixel and keeps the scan invariant |
| Viewport.CollectZoomedKeys | src/main/java/com/jnngl/vanillaminimaps/map/Minimap.java:140-151 | the key loops produce exactly `ZoomedKeys`, X outer and Z inner |
| Viewport.AppendColumn | src/main/java/com/jnngl/vanillaminimaps/map/Minimap.java:148-150 | the inner loop appends one column of keys |
| Viewport.InKeyColumn | src/main/java/com/jnngl/vanillaminimaps/map/Minimap.java:148-150 | a key is in a column exactly when its Z is on the column's 128-step grid up to the end |
| Viewport.InKeyGrid | src/main/java/com/jnngl/vanillaminimaps/map/Minimap.java:147-151 | a key is in the grid exactly when both coordinates are on the grid |
| Viewport.InZoomedKeys | src/main/java/com/jnngl/vanillaminimaps/map/Minimap.java:143-151 | a key is declared exactly when both coordinates are 128-aligned steps from the aligned start and do not pass the aligned end |
| Viewport.OriginOnViewGrid | src/main/java/com/jnngl/vanillaminimaps/map/Minimap.java:126-147 | the tile origin of every sampled coordinate is on the aligned grid between start and end |
| Viewport.ZoomedKeysCoverFetchedTiles | src/main/java/com/jnngl/vanillaminimaps/map/Minimap.java:125-151 | every tile the zoomed scan reads is among the keys declared to the cache |
| Minimaps.DeathMarker | src/main/java/com/jnngl/vanillaminimaps/map/Minimap.java:207-210 | the death marker is an icon marker that tracks the death block, in the death world, with the configured keep-on-edge flag |
| Minimaps.DeathPointOf | src/main/java/com/jnngl/vanillaminimaps/map/Minimap.java:219-222 | a location exists exactly when a `death_point` layer exists, and it is that layer's world and block at height 0 |
| Minimaps.SetThenGetDeathPoint | src/main/java/com/jnngl/vanillaminimaps/map/Minimap.java:199-222 | after setting with an icon, the death point reads back as the floored death block in the death world |
| Minimaps.SetWithoutIconKeepsOld | src/main/java/com/jnngl/vanillaminimaps/map/Minimap.java:205-216 | without a death icon the layers, and so the old death point, are unchanged |
| Minimaps.DeathPointTouchesOnlyItsKey | src/main/java/com/jnngl/vanillaminimaps/map/Minimap.java:192-217 | setting or resetting the death point leaves every other layer as it was |
| Minimaps.ResetThenGetDeathPoint | src/main/java/com/jnngl/vanillaminimaps/map/Minimap.java:192-197 | after a reset there is no death point |
| Minimaps.Minimap.constructor | src/main/java/com/jnngl/vanillaminimaps/map/Minimap.java:49-55 | the fields are the arguments |
| Minimaps.Minimap.Update | src/main/java/com/jnngl/vanillaminimaps/map/Minimap.java:57-162 | the frame sends exactly `FrameEffects`: the declared keys, the encoded primary layer, then the secondary layers |
| Minimaps.Minimap.RenderPrimary | src/main/java/com/jnngl/vanillaminimaps/map/Minimap.java:58-157 | the primary image is the 1:1 image, the zoomed image or the renderer's drawing, and the keys are those of `KeyEffects` |
| Minimaps.Minimap.UpdateSecondaryLayers | src/main/java/com/jnngl/vanillaminimaps/map/Minimap.java:164-179 | the loop over the layers in insertion order sends exactly `SecondaryEffects` |
| Minimaps.Minimap.UpdateSecondaryLayer | src/main/java/com/jnngl/vanillaminimaps/map/Minimap.java:165-177 | a layer pinned to another world sends nothing; any other sends its drawn image, secondary-encoded |
| Minimaps.Minimap.UpdateDefault | src/main/java/com/jnngl/vanillaminimaps/map/Minimap.java:181-183 | a frame at the holder's position that declares no 1:1 keys |
| Minimaps.Minimap.Respawn | src/main/java/com/jnngl/vanillaminimaps/map/Minimap.java:185-190 | despawn, spawn, then a frame at the holder's position that declares keys |
| Minimaps.Minimap.ResetDeathPoint | src/main/java/com/jnngl/vanillaminimaps/map/Minimap.java:192-197 | the death layer is removed and despawned if it existed; the holder and side are unchanged |
| Minimaps.Minimap.SetDeathPoint | src/main/java/com/jnngl/vanillaminimaps/map/Minimap.java:199-217 | the old death layer is despawned; with an icon the new marker replaces it, and it is spawned exactly when it is in the holder's world |
| Minimaps.Minimap.GetDeathPoint | src/main/java/com/jnngl/vanillaminimaps/map/Minimap.java:219-222 | the result is `DeathPointOf` the current layers |
| Minimaps.SecondaryEffectsAreVisibleLayers | src/main/java/com/jnngl/vanillaminimaps/map/Minimap.java:164-178 | the secondary part of a frame is the update of every layer not pinned to another world, in insertion order |
| Minimaps.UpdatesOfAt | src/main/java/com/jnngl/vanillaminimaps/map/Minimap.java:164-178 | the update of the j-th visible layer is at position j |
| Minimaps.FrameDeclaresKeys | src/main/java/com/jnngl/vanillaminimaps/map/Minimap.java:60-153 | a frame declares keys exactly with the cache renderer and (scale ≠ 1 or the caller asks); at scale 1 they are the four 1:1 keys; zoomed, they cover every tile read |
| Minimaps.HolderFrameKeysMatchTiles | src/main/java/com/jnngl/vanillaminimaps/map/Minimap.java:181-190 | at the holder's own position the declared 1:1 keys are those of the tiles the image uses |
| Minimaps.RespawnFrameAddsOnlyKeys | src/main/java/com/jnngl/vanillaminimaps/map/Minimap.java:181-190 | the respawn frame equals the default frame, plus the 1:1 keys at scale 1 with the cache renderer |
| Passengers.AppendNew | src/main/java/com/jnngl/vanillaminimaps/injection/PassengerRewriter.java:96-105 | the accumulator is kept as a prefix; the result holds exactly the ids of both; no duplicates are added; nothing is appended when every id is present |
| Passengers.Merged | src/main/java/com/jnngl/vanillaminimaps/injection/PassengerRewriter.java:95-105 | the merged list has no duplicates and holds exactly the ids of both lists |
| Passengers.Merge | src/main/java/com/jnngl/vanillaminimaps/injection/PassengerRewriter.java:91-107 | corrected merge (see Findings): the packet keeps its original array exactly when there is nothing to merge, or it has no repeats and already carries every extra id, and then the merge would equal it; otherwise it gets the merged list; every existing and extra id is delivered |
| Passengers.MergePassengers | src/main/java/com/jnngl/vanillaminimaps/injection/PassengerRewriter.java:91-107 | the two append loops of the source, with the corrected shortcut of line 106, compute `Merge` |
| Passengers.AsWrittenLosesPassenger | src/main/java/com/jnngl/vanillaminimaps/injection/PassengerRewriter.java:106 | for existing [1, 1] and extra [2], the size shortcut returns the original and id 2 is not delivered, while `Merge` delivers it |
| Passengers.AsWrittenAgreesWithoutRepeats | src/main/java/com/jnngl/vanillaminimaps/injection/PassengerRewriter.java:91-107 | when the packet has no repeated ids the shortcut agrees with `Merge` |
| Passengers.AsWrittenDiffersOnlyWhenLosing | src/main/java/com/jnngl/vanillaminimaps/injection/PassengerRewriter.java:95-106 | the shortcut as written and the corrected one disagree exactly when the as-written result misses a registered passenger |
| Passengers.DuplicatePacketDeduplicated | src/main/java/com/jnngl/vanillaminimaps/injection/PassengerRewriter.java:95-106 | a packet [1, 1] with registered [1] is rewritten to [1] by both the as-written and the corrected merge |
| Passengers.MergedIsExisting | src/main/java/com/jnngl/vanillaminimaps/injection/PassengerRewriter.java:95-105 | the merged list equals the packet's exactly when the packet has no repeats and carries every extra id |
| Passengers.AppendNewLength | src/main/java/com/jnngl/vanillaminimaps/injection/PassengerRewriter.java:95-105 | the append loops add at most one id per input id, and exactly that many only for new ids without repeats |
| Passengers.DeduplicateDistinct | src/main/java/com/jnngl/vanillaminimaps/injection/PassengerRewriter.java:96-100 | the first loop leaves a list without repeats unchanged |
| Passengers.AppendNewOrder | src/main/java/com/jnngl/vanillaminimaps/injection/PassengerRewriter.java:96-105 | appending keeps the ids in order of first occurrence |
| Passengers.MergedOrder | src/main/java/com/jnngl/vanillaminimaps/injection/PassengerRewriter.java:95-105 | the merged list is the existing ids in first-occurrence order, followed by the new extra ids in their order |
| Passengers.RemoveFirst | src/main/java/com/jnngl/vanillaminimaps/injection/PassengerRewriter.java:84 | `rem` drops the first occurrence when there is one and leaves the list alone otherwise; without repeats it removes exactly that id |
| Passengers.AddRegisters | src/main/java/com/jnngl/vanillaminimaps/injection/PassengerRewriter.java:68-75 | after adding, the entity rides the vehicle exactly once, the earlier passengers keep their order, and no other vehicle changes |
| Passengers.AddIdempotent | src/main/java/com/jnngl/vanillaminimaps/injection/PassengerRewriter.java:68-75 | adding the same passenger twice is adding it once |
| Passengers.RemoveUnregistered | src/main/java/com/jnngl/vanillaminimaps/injection/PassengerRewriter.java:77-81 | removing from a vehicle with no registered passengers changes nothing |
| Passengers.RemoveUnregisters | src/main/java/com/jnngl/vanillaminimaps/injection/PassengerRewriter.java:77-89 | after removing, the entity no longer rides the vehicle; the vehicle is dropped exactly when the entity was its only passenger; no other vehicle changes |
| Passengers.AddThenRemove | src/main/java/com/jnngl/vanillaminimaps/injection/PassengerRewriter.java:68-89 | adding a new passenger and removing it again restores the registry |
| Passengers.PassengerRewriter.constructor | src/main/java/com/jnngl/vanillaminimaps/injection/PassengerRewriter.java:33 | the registry starts empty |
| Passengers.PassengerRewriter.AddPassenger | src/main/java/com/jnngl/vanillaminimaps/injection/PassengerRewriter.java:68-75 | the registry becomes `Added` of the old one |
| Passengers.PassengerRewriter.RemovePassenger | src/main/java/com/jnngl/vanillaminimaps/injection/PassengerRewriter.java:77-89 | the registry becomes `Removed` of the old one |
| Passengers.PassengerRewriter.Write | src/main/java/com/jnngl/vanillaminimaps/injection/PassengerRewriter.java:47-62 | with the corrected merge: the packet is rewritten exactly when the vehicle has registered passengers and the packet lacks one of them or repeats a passenger, and then carries the merged list without repeats; every packet and registered passenger is delivered |
| MarkerCommands.CountCustom | src/main/java/com/jnngl/vanillaminimaps/command/MinimapBukkitCommand.java:263-267 | the count of custom markers never exceeds the number of layers |
| MarkerCommands.CountCustomFrame | src/main/java/com/jnngl/vanillaminimaps/command/MinimapBukkitCommand.java:263-267 | a layer outside the counted names does not change the count |
| MarkerCommands.NewMarker | src/main/java/com/jnngl/vanillaminimaps/command/MinimapBukkitCommand.java:275-278 | the new marker is an icon marker that tracks its location in the holder's world, with the configured keep-on-edge flag, at depth at least 0.05 |
| MarkerCommands.AddMarker | src/main/java/com/jnngl/vanillaminimaps/command/MinimapBukkitCommand.java:253-279 | each refusal happens exactly under its guard, in order (reserved name, existing name, limit reached); otherwise the marker is appended last under its name |
| MarkerCommands.AddRespectsLimit | src/main/java/com/jnngl/vanillaminimaps/command/MinimapBukkitCommand.java:263-279 | an accepted add grows the custom-marker count by one, and the count stays within the limit |
| MarkerCommands.RemoveMarker | src/main/java/com/jnngl/vanillaminimaps/command/MinimapBukkitCommand.java:357-366 | reserved names and missing names are refused, each exactly under its guard; otherwise the name is removed and the order of the rest is kept |
| MarkerCommands.ModifyGuard | src/main/java/com/jnngl/vanillaminimaps/command/MinimapBukkitCommand.java:434-443 | modification is refused for reserved names and missing markers, exactly under their guards, and allowed otherwise |
| MarkerCommands.WithIcon | src/main/java/com/jnngl/vanillaminimaps/command/MinimapBukkitCommand.java:314-316 | only that marker's renderer changes, and the order is kept |
| MarkerCommands.Renamed | src/main/java/com/jnngl/vanillaminimaps/command/MinimapBukkitCommand.java:323-326 | the new name holds the marker; the old name is gone unless it is the new one; every other layer is unchanged |
| MarkerCommands.SetIconGuards | src/main/java/com/jnngl/vanillaminimaps/command/MinimapBukkitCommand.java:308-320 | setting the icon is refused exactly for reserved or missing names, and otherwise is `WithIcon` |
| MarkerCommands.RenameGuards | src/main/java/com/jnngl/vanillaminimaps/command/MinimapBukkitCommand.java:321-331 | renaming is refused exactly for reserved or missing old names; otherwise the new name holds the same marker |
| MarkerCommands.RenameOverwritesReserved | src/main/java/com/jnngl/vanillaminimaps/command/MinimapBukkitCommand.java:321-331 | renaming a custom marker to `death_point` is accepted and replaces the death marker |
| MarkerCommands.RenameToFreshNameMovesLast | src/main/java/com/jnngl/vanillaminimaps/command/MinimapBukkitCommand.java:324-326 | a rename to a fresh name moves the marker to the end of the order and keeps the number of layers |
| MarkerCommands.HandleMarkerAdd | src/main/java/com/jnngl/vanillaminimaps/command/MinimapBukkitCommand.java:253-282 | the minimap's layers become `AddMarker`'s outcome; an accepted add spawns the layer and sends a frame, and a refused one sends nothing |
| MarkerCommands.PlaceMarker | src/main/java/com/jnngl/vanillaminimaps/command/MinimapBukkitCommand.java:275-282 | the new marker is put under its name, spawned, and a frame is sent |
| MarkerCommands.HandleMarkerRemove | src/main/java/com/jnngl/vanillaminimaps/command/MinimapBukkitCommand.java:357-369 | the layers become `RemoveMarker`'s outcome; an accepted remove despawns the removed layer and sends a frame |
| MarkerCommands.HandleMarkerSetIcon | src/main/java/com/jnngl/vanillaminimaps/command/MinimapBukkitCommand.java:308-320 | the layers become `SetIcon`'s outcome, and a frame is sent exactly when it is accepted |
| MarkerCommands.HandleMarkerRename | src/main/java/com/jnngl/vanillaminimaps/command/MinimapBukkitCommand.java:321-331 | the layers become `Rename`'s outcome, and a frame is sent exactly when it is accepted |
| MarkerCommands.Install | src/main/java/com/jnngl/vanillaminimaps/command/MinimapBukkitCommand.java:445-446 | the new layers are installed and the `update` frame is sent |
| Suggestions.LowerChar | src/main/java/com/jnngl/vanillaminimaps/command/MinimapBukkitCommand.java:547 | an upper-case ASCII letter is shifted by 32; anything else is kept; the result is never upper case |
| Suggestions.ToLower | src/main/java/com/jnngl/vanillaminimaps/command/MinimapBukkitCommand.java:547-549 | lower-casing keeps the length and lowers each character |
| Suggestions.ToLowerIdempotent | src/main/java/com/jnngl/vanillaminimaps/command/MinimapBukkitCommand.java:547-549 | lower-casing twice is lower-casing once |
| Suggestions.MatchPrefix | src/main/java/com/jnngl/vanillaminimaps/command/MinimapBukkitCommand.java:546-551 | exactly the candidates whose lower case starts with the lowered prefix are kept, and the list never grows |
| Suggestions.MatchPrefixAppend | src/main/java/com/jnngl/vanillaminimaps/command/MinimapBukkitCommand.java:546-551 | the filter keeps order: filtering a concatenation concatenates the filtered parts |
| Suggestions.MatchPrefixIgnoresCase | src/main/java/com/jnngl/vanillaminimaps/command/MinimapBukkitCommand.java:546-551 | a prefix and its lower case match the same candidates; the empty prefix matches all |
| Suggestions.NotAfterTotal | src/main/java/com/jnngl/vanillaminimaps/command/MinimapBukkitCommand.java:576 | the string order of `sorted()` is total |
| Suggestions.NotAfterTransitive | src/main/java/com/jnngl/vanillaminimaps/command/MinimapBukkitCommand.java:576 | the string order is transitive |
| Suggestions.NotAfterAntisymmetric | src/main/java/com/jnngl/vanillaminimaps/command/MinimapBukkitCommand.java:576 | the string order is antisymmetric |
| Suggestions.Insert | src/main/java/com/jnngl/vanillaminimaps/command/MinimapBukkitCommand.java:576 | inserting into a sorted list keeps it sorted and adds exactly that element |
| Suggestions.Sort | src/main/java/com/jnngl/vanillaminimaps/command/MinimapBukkitCommand.java:576 | the result is sorted and a permutation of the input |
| Suggestions.SortedUnique | src/main/java/com/jnngl/vanillaminimaps/command/MinimapBukkitCommand.java:576 | two sorted permutations of the same list are equal, so the sorted output is determined |
| Suggestions.CustomNames | src/main/java/com/jnngl/vanillaminimaps/command/MinimapBukkitCommand.java:573-574 | exactly the layer names that are not reserved, without repeats when the names have none |
| Suggestions.MarkerSuggestions | src/main/java/com/jnngl/vanillaminimaps/command/MinimapBukkitCommand.java:562-578 | no minimap gives no suggestions; otherwise the result is sorted and is a permutation of the custom names matching the prefix |
| Suggestions.SuggestionsDistinct | src/main/java/com/jnngl/vanillaminimaps/command/MinimapBukkitCommand.java:562-578 | the suggestions contain no name twice |

## Left out

- Integer widths: Java `int` and `long` arithmetic is unbounded here. Coordinates and
  counts are assumed to stay far from overflow.
- Floating point: `double` and `float` are reals. `Math.floor`, `Math.round` and the
  `(int)` cast are modelled exactly (`Common.Floor`, `Common.Round`, `Common.Truncate`),
  but IEEE rounding of intermediate results is not. The marker depth
  `0.05F + size * 0.01F` is therefore exact.
- `Math.sqrt` is a parameter (`Env.sqrt`). It is only required to return the non-negative
  square root. `Border.OuterRadius` states the circle radius through its square.
- `MapEncoderUtils` is not part of this model. Its `markCorners` is taken to write four
  given bytes into the four corner cells. Its `encodeFixedPoint` is taken to write an
  opaque 8-byte word (`Env.fixedPoint`) from the given cell. The byte format of that
  word is not modelled.
- `WorldMapCache` is not part of this model: `get` is a pure function from world and
  tile origin to a 128×128 tile (`Env.tiles`). The packed `long` key of `getKey` is the
  triple `TileKey(world, x, z)`. `setViewerChunks` is an effect carrying the key list.
- Renderers other than the cache are a function from renderer to image (`Env.draw`).
  What a renderer draws cannot depend on the minimap or layer it is handed. Icon
  rendering and `PlayerHeadIconCache` are not modelled. An icon is identified by its
  size only.
- Packets (`updateLayer`, `spawnLayer`, `despawnLayer`, spawn and despawn of the
  minimap) are returned as effects, in order, not sent. Netty, `setPassengers`
  reflection and `ctx.write` are not modelled.
- The config values the core reads become parameters: the scale and shape (`Env`), the
  custom marker limit, and the stick-to-border flags.
- `Minimaps.Minimap.SetDeathPoint`: requires a world on the death location when the death
  icon exists. The source calls `getWorld().equals` on it and would fail on a missing world.
- Concurrency: `synchronized` blocks and the thread-safety of the passenger registry are
  not modelled. The registry is a `map` from vehicle to passenger list. The
  `passengers()` accessor, which hands out the live map, is not modelled.
- `Minimaps.Minimap.Valid`, `Minimaps.Minimap.constructor`: a primary layer without a
  renderer is excluded. The source constructor accepts one, and `update` then fails on
  the null renderer (Minimap.java:156). Frames of such a minimap are not modelled.
- The command front end is not modelled: token parsing, usage messages, permission and
  target resolution, the "Minimap is disabled" path, icon lookup and `save`. Only the
  marker guards and the state changes they protect are. A failed save does not undo the
  change in the source either.
- `Suggestions.ToLower`: lower-cases ASCII letters only. `toLowerCase(Locale.ENGLISH)`
  also folds non-ASCII letters.
- `Suggestions.NotAfter`: compares strings lexicographically by character. Java's
  `compareTo` compares UTF-16 code units, which agrees for characters in the basic
  plane only.
- `LinkedMaps.LinkedMap` stands for `LinkedHashMap`: insertion order, replacement
  keeps the position, removal drops the key from the order.
- The icon-set mode of `/minimap marker set` replaces the marker value in the map. The
  source mutates the shared marker object, which is the same thing here because no
  other reference to it is modelled.

## Findings

| source | as written | input that shows it | evidently intended | confidence | as-written member | corrected member |
|---|---|---|---|---|---|---|
| src/main/java/com/jnngl/vanillaminimaps/injection/PassengerRewriter.java:106 | `mergePassengers` returns the packet's original array whenever the merged list has as many ids as the packet had | packet passengers [1, 1], registered extra [2]: the merge is [1, 2], of size 2, so [1, 1] is sent and passenger 2 is not mounted | the original array is kept only when the merged list equals it (the packet has no repeats and carries every registered passenger); the corrected merge differs from the source exactly on the inputs where the source loses a passenger | not executed | Passengers.AsWrittenLosesPassenger | Passengers.Merge |
