# nuthatch core, modelled in Dafny

This project models four data-preparation scripts from the nuthatch
repository and proves properties of the model.

- **hex30.py**: the resumable driver that builds hexagon grid layers.
  - It covers resolutions 1 to 9 in two orientations, 0° and 30°, over Great Britain.
  - Population is first allocated from MSOA areas into `hex30-MSOA.gpkg`.
  - Those layers are then re-read in batches of 1048576 rows, and population is allocated again from OA areas into `hex30-OA.gpkg`.
  - Every layer already in the target file is skipped, so a run can be restarted.
  - The 30° grid is rotated about one pivot, `POINT`. It is computed lazily and stored as the `point` layer.
- **town-data.py**:
  - the `Town` and `ShortTown` names of built-up areas;
  - the `urban` flag;
  - the table of active railway stations;
  - the distance and density class ladder `get_class`.
- **fastesri.py**: the writer that dumps an Esri feature service. It writes CSV, newline-delimited GeoJSON, or a GeoJSON FeatureCollection streamed one feature at a time.
- **xl2tsv.py**: dumps every tab of each spreadsheet, or only the `--tab` one, to `path/filebase+tab.tsv`, optionally without blank rows. With `--tabnames` it only lists the tab names.

Files:

| file | module | models |
|---|---|---|
| `util.dfy` | `Util` | sequence and string helpers: `Option`, `Map`, `Filter`, `Flatten`, `Join`, `str.replace(p, "")`, `rsplit`, `split` |
| `hex_tiling.dfy` | `HexTiling` | hex30.py |
| `town_data.dfy` | `TownData` | town-data.py (the table logic) |
| `fast_esri.dfy` | `FastEsri` | fastesri.py (`main`'s writer) |
| `xl_to_tsv.dfy` | `XlToTsv` | xl2tsv.py |

How the script state is modelled:

- **hex30.py** is a `class Script`.
  - Its fields are the two GeoPackages and `POINT`. A GeoPackage is a map from layer to layer content.
  - Each pass is a method whose `ensures` gives the new state as a function of the old one: `Fill00`, `Fill30`, `FillOA`, `RunMsoa` and `RunOa`.
  - What the script promises is proved about those functions: skip-if-present, nothing already present rewritten, every layer present afterwards, and `POINT` fixed once.
- **Geometry** is opaque.
  - H3 cells, clipping, rotation, the nearest-centroid search and `area_interpolate` are uninterpreted functions, total in the model. They are bundled in `Library`. The one place where this hides an exception is listed under "Left out" (`Pivot30`).
  - The layer a pass computes is therefore exact up to those functions. `np.array_split`, `drop_duplicates` and the row batches are modelled exactly.
- **xl2tsv.py** is a `class Session`.
  - Its fields are the readable spreadsheets, the `.tsv` files written so far and the printed lines.
  - Its methods are proved against the functions `ProcessFiles`, `TabNames` and `Script`.
- **fastesri.py**'s output stream is a `class OutFile` that accumulates the text written.

Two behaviours of hex30.py are easy to miss, and the model follows the code in both:

- **The script never reloads the pivot from the `point` layer.**
  - A fresh process starts with `POINT = None`.
  - The pivot is computed inside the first batch of the first 30° layer that is actually computed. It is the centroid nearest to the outline's centroid.
  - That layer's own cover is built by rotating about the centroid, because rotating about `None` raises `TypeError`.
  - So a restarted run whose first missing 30° layer is not resolution 1 uses a pivot taken from that layer. It does not use the stored one.
  - When every 30° layer is already there, `POINT` stays `None`. The final `point` layer of the OA file is then written with a missing geometry.
  - `SamePivotForEveryLayer` and `PivotStable` prove that it is one pivot for every layer computed within a process.
- **The OA pass can stop the script, at any layer.** Two exceptions end it there (`PassResult.Stopped`), and in both cases the final `point` layer is not written:
  - `read_info` of a layer missing from the MSOA file raises (`StopReason.LayerMissing`);
  - a layer with no features gives an empty `range(0, 0, m)`, so `hx` stays empty and `pd.concat([])` raises ValueError before anything is written (`StopReason.NoFeatures`).

## Model

| member | source | states |
|---|---|---|
| `HexTiling.HexArea` | hex30.py:37-55 | `hareas[resolution]` is defined exactly for resolutions -16..15, and any other index is an IndexError (`None`). Every area is positive. Each finer resolution 0..15 has a strictly smaller area. A negative index gives the same area as the index 16 above it. |
| `HexTiling.HexAreasStrictlyDecreasing` | hex30.py:37-54 | The table has 16 entries, all positive and strictly decreasing, so each finer H3 resolution has smaller hexagons. |
| `HexTiling.LayerName` | hex30.py:82 | `hexagon{n}-{k}` is never `point`, `outer-00` or `outer-30`. |
| `HexTiling.LayerNameInjective` | hex30.py:168 | Two hexagon layer names are equal only if the resolution and the orientation are. |
| `HexTiling.NameInjective` | hex30.py:82-84 | No two of the script's layers share a name, so the skip-if-present test (an exact name match) identifies one layer. |
| `HexTiling.DedupKeepsFirst` | hex30.py:94 | `drop_duplicates(subset="geometry")` keeps exactly the first element of every geometry, at strictly increasing input positions. |
| `HexTiling.DedupIndicesSound` | hex30.py:94 | Every element `drop_duplicates` keeps is the first of its geometry, at strictly increasing positions. |
| `HexTiling.DedupIndicesComplete` | hex30.py:94 | Every first occurrence of a geometry is kept. |
| `HexTiling.DedupKeys` | hex30.py:102 | De-duplication keeps every key of the input and adds no element. |
| `HexTiling.DedupDistinct` | hex30.py:146 | After de-duplication no two tiles share a geometry. |
| `HexTiling.DedupOfDistinct` | hex30.py:137 | Input without a repeated geometry is left unchanged. |
| `HexTiling.DropDuplicates` | hex30.py:102 | A one-pass loop with a set of seen keys computes the keep-first de-duplication. |
| `HexTiling.ChunkStartBounds` | hex30.py:90 | `array_split` chunk boundaries ascend within the input. The first `len % n` chunks hold one item more. |
| `HexTiling.ArraySplit` | hex30.py:90 | `np.array_split(s, n)` gives exactly `n` chunks. |
| `HexTiling.ArraySplitAt` | hex30.py:90 | Chunk `i` is the slice between consecutive chunk starts, of size `len / n` plus one for the first `len % n` chunks. |
| `HexTiling.ArraySplitPrefix` | hex30.py:90 | The first `k` chunks concatenate to the input up to where chunk `k` starts. |
| `HexTiling.ArraySplitFlatten` | hex30.py:121 | The chunks concatenate back to the cover, and their sizes differ by at most one. |
| `HexTiling.BatchRanges` | hex30.py:176-179 | The batch slices are as many as `range(0, count, m)` has steps. |
| `HexTiling.NumBatchesIsCeiling` | hex30.py:176 | The number of batches is the ceiling of `count / m`, which is zero for an empty layer. |
| `HexTiling.BatchStartBelow` | hex30.py:176 | Every batch starts below the layer's feature count. |
| `HexTiling.BatchRangesPartition` | hex30.py:173-179 | The batches are non-empty, within the layer, ascending and disjoint. Row `x` lies in batch `x / m`, so every row is read exactly once. |
| `HexTiling.BatchStep` | hex30.py:176-179 | After `b` steps the loop's start is `b * m`. It passes the feature count exactly after the last batch. |
| `HexTiling.Batches` | hex30.py:100 | `hx` holds one batch per chunk. |
| `HexTiling.BatchesAt` | hex30.py:90-100 | Batch `i` is computed from chunk `i`. |
| `HexTiling.Pivot30` | hex30.py:123-128 | After a 30° layer has been computed, POINT is set. It is kept if it was set already. |
| `HexTiling.InterpolateSound` | hex30.py:95-97 | Interpolation keeps the parts in order and gives each its own allocated population. |
| `HexTiling.BatchSound` | hex30.py:91-97 | A batch holds each clipped part of its hexagons once, each with its MSOA population. |
| `HexTiling.FlattenKeys` | hex30.py:101 | A geometry is in the concatenated batches exactly when it is in one of them. |
| `HexTiling.TilingSound` | hex30.py:89-102 | A layer has pairwise distinct geometries, each with its MSOA population. A geometry is in it exactly when it is a clipped part of a hexagon of some chunk. |
| `HexTiling.Layer00Covers` | hex30.py:86-102 | Chunking loses nothing: `hexagon{n}-00` holds the clipped parts of exactly the hexagons of the whole cover. |
| `HexTiling.BuildBatch` | hex30.py:92-99 | Clipping, de-duplicating and interpolating one chunk's hexagons computes that chunk's batch. |
| `HexTiling.BuildLayer00` | hex30.py:86-102 | The chunk-by-chunk loop computes layer `hexagon{n}-00`. |
| `HexTiling.RefineInBatches` | hex30.py:173-186 | Reading a layer back in `range(0, features, m)` slices visits each batch range in order. The concatenated result is the whole layer re-allocated from OA areas. `pd.concat` fails (`None`) exactly when the layer has no features. |
| `HexTiling.Layer00` | hex30.py:86-102 | Definition: the cover split into `n` chunks, each chunk's batch built, concatenated and de-duplicated. Its properties are in `TilingSound` and `Layer00Covers`. |
| `HexTiling.Layer30` | hex30.py:112-146 | Definition: the same, for the 30° cover, with every chunk rotated about the POINT that `Pivot30` fixes. Its properties are in `TilingSound` and `SamePivotForEveryLayer`. |
| `HexTiling.Fill00` | hex30.py:80-103 | Definition: the 0° loop over resolutions, writing each absent layer and skipping each present one. Its properties are in `Fill00Keeps` and `Fill00Writes`. |
| `HexTiling.Fill30` | hex30.py:105-147 | Definition: the 30° loop, carrying POINT from layer to layer. Its properties are in `Fill30Keeps`, `Fill30Writes` and `Fill30Point`. |
| `HexTiling.Reallocated` | hex30.py:174-186 | Definition: the OA layer written for one MSOA layer, or none when the layer is missing or has no features. |
| `HexTiling.FillOA` | hex30.py:165-189 | Definition: the OA loop for one orientation, stopping at the first layer it cannot re-allocate. Its properties are in `FillOAKeeps`, `FillOADone` and `FillOAMissing`. |
| `HexTiling.RunMsoa` | hex30.py:28-147 | Definition: the outlines, then the 0° pass, then the 30° pass. Its properties are in `RunMsoaLayers` and `RunMsoaKeeps`. |
| `HexTiling.RunOa` | hex30.py:161-193 | Definition: the OA outlines, the OA pass, and the `point` layer when the pass completes. Its properties are in `RunOaSound`. |
| `HexTiling.Fill00Sound` | hex30.py:80-103 | After the 0° pass every `hexagon{n}-00`, n = 1..9, is present. Layers already there are unchanged, absent ones hold the computed layer, and nothing else is written. |
| `HexTiling.Fill00Keeps` | hex30.py:80-103 | The 0° pass keeps every layer already present, and writes only 0° hexagon layers. |
| `HexTiling.Fill00Writes` | hex30.py:80-103 | Every `hexagon{n}-00` is present afterwards, and each that was absent holds its computed layer. |
| `HexTiling.Fill30Point` | hex30.py:120-131 | A set POINT is never replaced. The `point` layer is written exactly when POINT becomes set, with that POINT. Otherwise it is untouched. |
| `HexTiling.Fill30Keeps` | hex30.py:105-147 | The 30° pass keeps every layer already present except `point`, and writes only `point` and 30° hexagon layers. |
| `HexTiling.Fill30Writes` | hex30.py:108-147 | Every `hexagon{n}-30` is present afterwards. A new one is computed about the POINT of its turn. |
| `HexTiling.PivotStable` | hex30.py:123-128 | Once POINT is set, no later resolution changes it. |
| `HexTiling.SamePivotForEveryLayer` | hex30.py:112-133 | Every 30° layer a process computes is rotated about one and the same POINT. |
| `HexTiling.PointWrittenWhenComputed` | hex30.py:123-131 | A fresh process that computes any 30° layer ends with POINT set and the `point` layer written. |
| `HexTiling.FillOAStuck` | hex30.py:174 | Once `read_info` has failed, the OA pass does nothing more. |
| `HexTiling.FillOAKeeps` | hex30.py:168-189 | The OA pass keeps the layers already in the OA file. Each layer it adds is a hexagon layer of its orientation, re-allocated from its MSOA layer. |
| `HexTiling.FillOADone` | hex30.py:164-189 | The OA pass succeeds exactly when every absent layer it meets is a tile layer of the MSOA file with at least one feature, and then all nine layers are present. |
| `HexTiling.FillOAMissing` | hex30.py:174-186 | A stopped OA pass names the first absent layer that the MSOA file does not hold as tiles with features. It also names the exception raised there: `read_info` for a missing layer, `pd.concat` for an empty one. |
| `HexTiling.NoFeaturesStops` | hex30.py:176-186 | A first absent layer that the MSOA file holds without features stops the pass at `pd.concat`, with the OA file unchanged. |
| `HexTiling.FillOASound` | hex30.py:164-189 | For one orientation the OA pass keeps the layers already in the OA file. It succeeds exactly when every absent layer it meets is a tile layer of the MSOA file with features. Then all nine layers are present, each new one re-allocated from its MSOA layer. A stop names the first layer that is missing or empty, and the exception raised there. |
| `HexTiling.Script.constructor` | hex30.py:77-78 | A fresh process starts with POINT unset and the two files as found. |
| `HexTiling.Script.WriteMsoa` | hex30.py:103 | `write_dataframe` replaces one layer of the MSOA file and nothing else. |
| `HexTiling.Script.WriteOa` | hex30.py:189 | `write_dataframe` replaces one layer of the OA file and nothing else. |
| `HexTiling.Script.Pass00` | hex30.py:80-103 | The 0° loop leaves the MSOA file as `Fill00` of the file it found. |
| `HexTiling.Script.BuildChunk30` | hex30.py:121-142 | One 30° chunk sets POINT from its hexagons if POINT is unset, writing `point` then, and yields the batch of its hexagons rotated about POINT. |
| `HexTiling.Script.BuildChunks30` | hex30.py:120-143 | The chunk loop yields one batch per chunk, all rotated about the POINT fixed by the first chunk. `point` is written only if POINT was unset. |
| `HexTiling.Script.BuildLayer30` | hex30.py:112-146 | One 30° layer: POINT is set from the first chunk if it was unset, and `point` is written then. The tiles are that layer's. |
| `HexTiling.Script.Pass30` | hex30.py:105-147 | The 30° loop leaves the MSOA file and POINT as `Fill30` of what it found. |
| `HexTiling.Script.PassOAFor` | hex30.py:165-189 | One orientation of the OA loop leaves the OA file and the outcome as `FillOA` gives them, including the stop at a missing or empty MSOA layer. |
| `HexTiling.Script.PassOA` | hex30.py:164-189 | Orientation 00, then 30 unless 00 failed. |
| `HexTiling.Script.Run` | hex30.py:28-193 | The whole script from the outlines on: the outlines, both MSOA passes, the OA outlines and OA pass, and the final `point` layer. |
| `HexTiling.RunMsoaSound` | hex30.py:28-147 | After a run the MSOA file holds both outlines and all 18 hexagon layers. Layers present before are unchanged, and a set POINT is kept. |
| `HexTiling.RunMsoaLayers` | hex30.py:28-147 | After a run the MSOA file holds both outlines and all 18 hexagon layers. |
| `HexTiling.RunMsoaKeeps` | hex30.py:80-147 | A run keeps the hexagon layers already present and a set POINT. A 0° layer computed from scratch is the 0° pass's layer. |
| `HexTiling.RunOaSound` | hex30.py:161-193 | When the MSOA file holds every hexagon layer as tiles with at least one feature, the OA pass succeeds. The OA file then holds all 18 layers, the new ones re-allocated from OA areas, and the final POINT. |
| `TownData.ClassOf` | town-data.py:216-226 | Definition: the masked-assignment ladder, applied rule by rule to one row. Its properties are in `ClassOfIsTable`, `ClassNear`, `ClassSparse`, `ClassDense` and `ClassRange`. |
| `TownData.ClassOfIsTable` | town-data.py:216-226 | The overwriting ladder of masked assignments, where the last match wins, equals a decision table on distance and density. |
| `TownData.ClassNear` | town-data.py:217-219 | Within 5 km of a station the class is 0. |
| `TownData.ClassSparse` | town-data.py:218-221 | At a density of at most 150 the class is the distance band: 1, 2 or 3 for distances above 5, 10 and 32 km. |
| `TownData.ClassDense` | town-data.py:222-225 | Beyond 5 km, densities above 150, 1500, 2500 and 4500 give the classes 4 to 7, overriding the distance band. |
| `TownData.ClassRange` | town-data.py:216-226 | Every class is in 0..7. |
| `TownData.GetClass` | town-data.py:216-226 | The nested masked-assignment loops give each row, at its own position, the class of that row. |
| `TownData.Promote` | town-data.py:120-124 | The density promotion never lowers a flag and changes only a 0. The 0 becomes 1 exactly above a density of 1000. |
| `TownData.Urban` | town-data.py:110-124 | `urban` is 2 exactly for an urban classification. Otherwise it is 1 exactly above a density of 1000, and 0 otherwise. |
| `TownData.MarkUrban` | town-data.py:110-112 | A column of zeros, with 2 on the rows that have an urban classification. |
| `TownData.PromoteDense` | town-data.py:123-124 | The promotion is done in place on the column, element by element, and nothing else changes. |
| `TownData.NameOf` | town-data.py:55-57 | Definition: the BUA name, or the LA name where the BUA name is the text "None". |
| `TownData.Town` | town-data.py:58-60 | Definition: that name with the three suffixes removed in turn. Its properties are in `TownUnchangedIff` and `DeriveTowns`. |
| `TownData.ShortTown` | town-data.py:209-213 | Definition: the text before the first " (" of a Town that contains "(", otherwise the Town. Its properties are in `ShortTownSound`. |
| `TownData.Rename` | town-data.py:179-192 | Definition: one station row with missing cells filled with "-", TIPLOC and Name derived, and CRS looked up by Name. Its properties are in `StationFields`. |
| `TownData.ActiveStations` | town-data.py:178-192 | Definition: the RLY/MET filter, the renaming, then the active-RLY filter. Its properties are in `ActiveStationsDirect`. |
| `TownData.TownUnchangedIff` | town-data.py:58-60 | A name is its own `Town` exactly when " BUA" does not occur in it. |
| `TownData.DeriveTowns` | town-data.py:55-60 | Each row's `Town` is its name (BUA name, or LA name for "None") with the three suffixes removed in turn. |
| `TownData.ShortTownSound` | town-data.py:209-213 | `ShortTown` is the text before the first " (". It is a prefix of the Town, and the whole Town exactly when " (" does not occur. |
| `TownData.ActiveStationsDirect` | town-data.py:178-191 | `ACTIVE` holds, in NaPTAN order, one renamed station for each row that is "active" and "RLY", and nothing else. |
| `TownData.StationFields` | town-data.py:179-192 | TIPLOC is the ATCO code from character 4 on. Name is the common name, unchanged without " Rail Station". CRS is the code looked up by Name. |
| `FastEsri.FeatureCollection` | fastesri.py:74-84 | Definition: the header, the dumps joined by ",\n", then the footer. Its properties are in `FeatureCollectionShape` and `FeatureCollectionLines`. |
| `FastEsri.JsonLines` | fastesri.py:68-72 | Definition: each dump followed by a newline. Its properties are in `JsonLinesRoundTrip`. |
| `FastEsri.Output` | fastesri.py:63-84 | Definition: the text of the first selected mode, in the order csv, jsonlines, FeatureCollection. `Dump` writes it. |
| `FastEsri.OutFile.Write` | fastesri.py:70-71 | A write appends its text to the stream. |
| `FastEsri.FeatureCollectionShape` | fastesri.py:74-84 | A FeatureCollection is the header, each feature but the last followed by ",\n", then the last feature and "\n]}". Its length follows from that. |
| `FastEsri.FeatureCollectionLines` | fastesri.py:74-84 | With newline-free dumps, the lines are: the opening, each feature with a trailing comma except the last, and "]}". With no features there is an empty line between header and footer. |
| `FastEsri.JsonLinesRoundTrip` | fastesri.py:68-72 | Newline-delimited output splits back into exactly the dumps, in order. It has one newline per feature. |
| `FastEsri.WriteJsonLines` | fastesri.py:68-72 | The loop writes each dump followed by a newline. |
| `FastEsri.WriteFeatures` | fastesri.py:75-81 | The `next`/StopIteration loop writes the dumps in order with one separator between consecutive dumps and none after the last. |
| `FastEsri.WriteFeatureCollection` | fastesri.py:74-84 | The `next`/StopIteration loop writes exactly the FeatureCollection text, with no separator after the last feature. |
| `FastEsri.Dump` | fastesri.py:63-84 | Only the first selected mode writes, in the order csv, jsonlines, FeatureCollection. |
| `XlToTsv.DropBlank` | xl2tsv.py:75-76 | Definition: the rows that have at least one cell present. Its properties are in `DropBlankSound` and `DropBlankIdempotent`. |
| `XlToTsv.FileBase` | xl2tsv.py:82-85 | Definition: the name up to its last ".", or the whole name, followed by ":". Its properties are in `FileBaseSound`. |
| `XlToTsv.OutputPath` | xl2tsv.py:77 | Definition: `{path}/{filebase}{tab}.tsv`. Its properties are in `OutputPathInjective`. |
| `XlToTsv.ProcessFile` | xl2tsv.py:70-90 | Definition: one input file, in `--tab` mode or all-tabs mode, or `FileNotFound` when it cannot be read. |
| `XlToTsv.ProcessFiles` | xl2tsv.py:69-90 | Definition: the inputs in order, up to the first that cannot be read. Its properties are in `ProcessFilesExit`, `TabModeWritesLast` and `ScriptWritesLastFile`. |
| `XlToTsv.TabNames` | xl2tsv.py:56-62 | Definition: the `--tabnames` listing, up to the first input that cannot be read. Its properties are in `TabNamesSound` and `TabNamesLineParses`. |
| `XlToTsv.Script` | xl2tsv.py:56-90 | Definition: the script without lines 64-67, by the `--tabnames` flag. `Session.Run` computes it. |
| `XlToTsv.ScriptAsWritten` | xl2tsv.py:56-90 | Definition: the script as written, where `--filename` without `--tabnames` raises TypeError at line 65. Its properties are in `FilenameFlagCrashes`. |
| `XlToTsv.DropBlankSound` | xl2tsv.py:75-76 | `dropna(how="all")` removes exactly the rows with every cell missing. It works row by row, so the rows it keeps stay in order. |
| `XlToTsv.DropBlankIdempotent` | xl2tsv.py:88-89 | Dropping blank rows twice is dropping them once. |
| `XlToTsv.FileBaseSound` | xl2tsv.py:82-85 | `filebase` ends in ":". It is preceded by the whole name when there is no ".", and otherwise by the part before the last ".". |
| `XlToTsv.OutputPathInjective` | xl2tsv.py:90 | For one directory and base, distinct tabs are written to distinct paths. |
| `XlToTsv.Lookup` | xl2tsv.py:74 | A named tab is found exactly when the workbook has a tab of that name. |
| `XlToTsv.WriteSheetsWrites` | xl2tsv.py:86-90 | In all-tabs mode each tab lands in `path/filebase+tab.tsv`, blank rows removed under `--noempty`. |
| `XlToTsv.WriteSheetsOthers` | xl2tsv.py:86-90 | No file other than the tabs' files changes. |
| `XlToTsv.ProcessFilesExit` | xl2tsv.py:69-81 | A run ends normally exactly when every input can be read; otherwise it ends at the first that cannot. A missing `--tab` is not an error. |
| `XlToTsv.TabModeIgnoresFilename` | xl2tsv.py:70-77 | In `--tab` mode `filebase` is always empty, so `--filename` changes nothing, and only the tab's one file is written. |
| `XlToTsv.TabModeWritesLast` | xl2tsv.py:71-79 | In `--tab` mode the tab's file holds the tab of the last input that has it. Inputs without it are skipped. |
| `XlToTsv.ScriptWritesLastFile` | xl2tsv.py:80-90 | In all-tabs mode every tab of the last input is written, under its file base with `--filename` and with an empty base without it. |
| `XlToTsv.TabNamesSound` | xl2tsv.py:56-62 | `--tabnames` prints, per input, the tab names joined by tabs, preceded by the file name only when there are several inputs. |
| `XlToTsv.TabNamesLineParses` | xl2tsv.py:61 | A printed line splits back into the tab names in workbook order. |
| `XlToTsv.FilenameFlagCrashes` | xl2tsv.py:64-67 | As written, `--filename` raises TypeError before any input is read. Without those lines the same input writes `output/data:Sheet1.tsv`. |
| `XlToTsv.Session.PrintTabNames` | xl2tsv.py:57-61 | The listing loop prints what `TabNames` gives and writes no file. |
| `XlToTsv.Session.WriteTabs` | xl2tsv.py:86-90 | The loop over tabs writes what `WriteSheets` gives. |
| `XlToTsv.Session.ConvertFile` | xl2tsv.py:70-90 | One input file, as `ProcessFile` gives it. |
| `XlToTsv.Session.Convert` | xl2tsv.py:69-90 | The loop over inputs, as `ProcessFiles` gives it. |
| `XlToTsv.Session.Run` | xl2tsv.py:56-90 | The script without lines 64-67, as `Script` gives it. |
| `XlToTsv.Session.RunAsWritten` | xl2tsv.py:56-90 | The script as written, as `ScriptAsWritten` gives it. |

## Left out

- geography.py: not part of this model.
- The GeoPackage and GeoJSON files are abstract.
  - Reading and writing them, coordinate reference systems, `to_crs` and precision rounding are not modelled. A layer is its list of tiles.
  - `area` and `density` columns are derived values and are not modelled.
  - In town-data.py, lines 262-264 and 270-272 pass the `engine` keyword twice. That is a SyntaxError, so Python refuses to compile the whole module, and as written no line of it runs. The model covers lines 55-226 as they would run with the repeated keyword removed. The export steps from line 243 on are not modelled.
- Geometry operations are uninterpreted functions. This covers H3 `h3fy` and its cell boundaries, `clip`, `explode`, `buffer`, `rotate`, the nearest-centroid search and `area_interpolate`. No geometric claim (covering, no gaps) is proved about them.
- `clip` on a frame is modelled per polygon, in order. Pandas' index alignment is not modelled.
- HexTiling.Pivot30: the first chunk's centroids are assumed non-empty. For an empty first 30° chunk, which only an empty cover gives, `p.reshape(-1)[1]` at hex30.py:127 raises IndexError, while the model takes `nearest` of the empty list.
- `get_hside` is modelled only up to the table lookup. The square root and `int` truncation are floating point.
- Progress `print`s, timing and `del` are left out. They have no effect on the files.
- Module-level `MSOA`, `OA`, `NaPTAN` and `CRScode` reused from an interactive session (`if "X" not in globals()`) are left out. Each run is modelled as a fresh process.
- town-data.py's data loading and joins are left out: CSV downloads, `fix_geometry`, `dissolve`, the OA 2011 lookup and the nearest-station search with cKDTree.
  - `get_class` takes the distance and density as given.
  - NaN distances or densities are not modelled. A NaN compares false and would give class 0.
- TownData.NameOf: assumes the text "None" in `bua_name` survives `read_csv` as a string (pandas before 2.0). From pandas 2.0 on, "None" is one of `read_csv`'s default missing values, so the test at town-data.py:56 never holds and the `Town` of those rows is not the LA name. `DeriveTowns` inherits the assumption.
- TownData.Rename: assumes one CRS code per station name. A name listed twice in the CRS table would duplicate the joined NaPTAN row.
- TownData.ActiveStations: `dropna(axis=1, how="all")` never removes a column that the station table needs.
- fastesri.py:
  - argument parsing and the network dumper `EsriDumper` are left out. The feature sequence is a parameter.
  - `json.dumps` is a function parameter, and so is the CSV rendering of the property frame.
- xl2tsv.py:
  - `os.makedirs` of the output directory is left out. The model assumes the directory exists after line 54.
  - Any failure while reading other than a missing file is abstracted to `FileNotFound`.
  - A missing `--tab` is treated as the code intends (`except KeyError: pass`), whatever exception the spreadsheet reader raises.
  - The TSV text `to_csv` writes is not modelled. A written file is the frame it was written from.

## Findings

| source | as written | input that shows it | evidently intended | confidence | as-written member | corrected member |
|---|---|---|---|---|---|---|
| xl2tsv.py:64-67 | Adds the `--filename` flag's value, a bool, to the string ":", which Python refuses with TypeError. | `xl2tsv.py --filename data.xlsx` | No early base at all: line 70 resets `filebase` per file, and lines 82-85 compute it from each input's name. | not executed; Python defines no `bool + str` | `XlToTsv.FilenameFlagCrashes` | `XlToTsv.ScriptWritesLastFile` |
