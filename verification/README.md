# airtiler core, modelled in Dafny

airtiler builds training data for aerial-image segmentation. A configuration
names bounding boxes and zoom levels. For every map tile inside every bbox at
every level, airtiler queries the building footprints of the tile. It
rasterises them into a 256×256 byte mask and saves the mask when it is not
empty. Each processed tile is recorded in the bbox's `tiles.txt`. A pass over
the configuration reports whether nothing was left to do, and the caller
repeats passes until one does.

This project models that core as it is written in `airtiler/__init__.py`:

- `tiles.dfy` (module `Tiles`) covers `_tiles_from_bbox`. It checks the
  bbox's form (dict, list or error), takes the two corner points, and
  enumerates the inclusive rectangle of TMS tiles between the corners' tiles,
  with x in the outer loop and y in the inner one.
- `tile_names.dfy` (module `TileNames`) covers tile names
  `"{z}_{x}_{y}"` and the registry's line format. A name is written as
  `name + "\n"`. The file is read back in text mode, where `"\r\n"` and a
  lone `'\r'` also end a line (universal newlines), with `readlines()`
  and `l[:-1]`.
- `masks.dfy` (module `Masks`) covers `_update_mask`, which composites
  outline and fill pixel sets onto a mask in place (`array2<bv8>`):
  - merged mode overwrites outline pixels with 255;
  - separated mode XORs outline pixels with 255;
  - both modes XOR fill pixels with 255;
  - MultiPolygon parts are painted with separation forced on;
  - other geometries are ignored.

  Each pixel's final value is given by the function `PaintAll` on the old
  value. `PaintAll` is tied to a flat stroke list, and in separated mode to a
  parity.
- `airtiler.dfy` (module `Airtiler`) covers:
  - `_get`;
  - `_process_tile`, limited to painting, the save rule and its verdict,
    which is always false;
  - `_process_bbox` and `_process_internal`, as methods of the class
    `Workspace`. The fields of `Workspace` are the per-bbox registries and
    the set of saved masks.

  Each method is proved equal to a ghost specification function
  (`RunBbox`, `RunConfig`). The lemmas about those functions state the
  completion rules. A pass returns true exactly when every tile was already
  registered. After a pass that does not raise, every tile is registered.
  A second pass therefore returns true and changes nothing.

Foreign code becomes parameters (the datatype `Collaborators`):

- `tileFor` maps a point and a zoom level to a tile's TMS `(x, y)`. This is
  pygeotile's `Tile.for_point`.
- `fetch` gives, for a tile, one entry per way in the Overpass answer. An
  entry is `Some(geometry)` when shapely built and clipped the polygon. It is
  `None` when that raised; the code then skips the way. A polygon is given by
  its rasterised outline and fill pixel sets, which PIL's `ImageDraw.polygon`
  computes.

The bbox visiting order, `random.shuffle` of the keys, is the parameter
`order` of `ProcessInternal`.

Two behaviours of the code are worth knowing:

- The code draws only a polygon's exterior ring (`p.exterior.coords`), so
  its interior rings (holes) are never carved out, in either mode.
- The fill is XOR-ed with 255 in merged mode too. So in merged mode a pixel
  inside two overlapping polygons' fills returns to its old value
  (`MergedOverlapCancels`) instead of staying 255.

## Model

| member | source | states |
|---|---|---|
| Tiles.CornerPoints | airtiler/__init__.py:46-53 | a dict bbox gives the min point from keys "tl"/"tr" and the max point from "bl"/"br", and a missing key is a KeyError naming an absent corner key; a list gives (lat, lon) from indices 1, 0 and 3, 2, and a shorter list is an IndexError; anything else raises the form error |
| Tiles.EnumerateTiles | airtiler/__init__.py:41-60 | definition: the corner points' errors, otherwise the rectangle between the corners' tiles (properties in `EnumerationProperties`) |
| Tiles.ColumnAt | airtiler/__init__.py:58-59 | the inner loop yields Span(y0, y1) tiles, the k-th being (x, y0 + k) |
| Tiles.RectSize | airtiler/__init__.py:56-60 | the enumeration holds exactly max(0, x1-x0+1) · max(0, y1-y0+1) tiles |
| Tiles.RectMembers | airtiler/__init__.py:56-60 | a tile is enumerated iff it has the zoom level and lies in [x0..x1]×[y0..y1] |
| Tiles.RectOrdered | airtiler/__init__.py:57-59 | enumeration order is x-outer, y-inner: each tile strictly precedes the later ones |
| Tiles.RectDistinct | airtiler/__init__.py:56-60 | no tile is enumerated twice |
| Tiles.EnumerationProperties | airtiler/__init__.py:41-60 | for a well-formed bbox: the size, the membership, the order, and emptiness when x1 < x0 or y1 < y0 |
| Tiles.TilesFromBbox | airtiler/__init__.py:41-60 | the nested loops return exactly the enumeration (or the form error) |
| TileNames.DigitChar | airtiler/__init__.py:92 | a digit's character is in '0'..'9' and has that digit's value |
| TileNames.NatToStringDigits | airtiler/__init__.py:92 | a natural number formats to a non-empty digit string that parses back to it |
| TileNames.IntToStringRoundTrip | airtiler/__init__.py:92 | an integer formats to digits with at most a leading '-', and parses back to itself |
| TileNames.Split | airtiler/__init__.py:92 | splitting yields at least one piece |
| TileNames.SplitPiece | airtiler/__init__.py:92 | a separator-free prefix followed by the separator splits off as one piece |
| TileNames.SplitWhole | airtiler/__init__.py:92 | a separator-free string splits into itself alone |
| TileNames.TileName | airtiler/__init__.py:92 | definition: `"{z}_{x}_{y}"` with Python's decimal integers (properties in `TileNameRoundTrip`, `TileNameInjective`) |
| TileNames.TileNameRoundTrip | airtiler/__init__.py:92 | the name "{z}_{x}_{y}" has three '_'-separated fields that read back as the tile |
| TileNames.TileNameInjective | airtiler/__init__.py:92-93 | distinct tiles have distinct names, so the skip test `tile_name in loaded_tiles` identifies tiles |
| TileNames.TileNameHasNoNewline | airtiler/__init__.py:92 | a tile name holds neither '\n' nor '\r', so it occupies exactly one registry line |
| TileNames.Serialize | airtiler/__init__.py:104-105 | definition: the file text after writing `"{}\n".format(name)` for each name in turn |
| TileNames.Translate | airtiler/__init__.py:79 | text mode with `newline=None`: the text read holds no '\r' ("\r\n" and a lone '\r' become '\n') |
| TileNames.Lines | airtiler/__init__.py:80 | `readlines()` cutting of the translated text: every line is non-empty |
| TileNames.LinesJoin | airtiler/__init__.py:80 | the lines join back to the text read |
| TileNames.LinesBreaks | airtiler/__init__.py:80 | every line but the last ends in '\n', and no line holds a '\n' before its end |
| TileNames.ReadLines | airtiler/__init__.py:79-80 | definition: newline translation, then `Lines` |
| TileNames.DropLast | airtiler/__init__.py:81 | definition: `l[:-1]`, all but the last character |
| TileNames.LoadRegistry | airtiler/__init__.py:80-81 | one name per line of `readlines()`; each name is its line's prefix, one character shorter |
| TileNames.ReadLinesLine | airtiler/__init__.py:79-80 | a name with neither '\n' nor '\r', followed by '\n', reads back in text mode as one whole line |
| TileNames.LinesLine | airtiler/__init__.py:80 | helper: a line without '\n', followed by '\n', is cut off as one line |
| TileNames.TranslatePlain | airtiler/__init__.py:79 | helper: text without '\r' is not changed by newline translation |
| TileNames.SerializeAppend | airtiler/__init__.py:104-105 | appending names in append mode appends their lines to the file |
| TileNames.RegistryRoundTrip | airtiler/__init__.py:77-81 | writing names with "\n" and loading them in text mode with `l[:-1]` gives back the same names when none holds '\n' or '\r' |
| Masks.Composite | airtiler/__init__.py:195-200 | definition: one polygon on one pixel: the outline set to 255 (merged) or XOR-ed with 255 (separated), then the fill XOR-ed with 255 |
| Masks.PaintAll | airtiler/__init__.py:183-200 | definition: one pixel's value after `_update_mask` over the list (properties in `PaintAllIsFlat`, `SeparatedIsParity`, `UncoveredPixelKept` and the rest) |
| Masks.PaintAllAppend | airtiler/__init__.py:183-200 | painting a + b equals painting a, then b |
| Masks.PaintStrokesAppend | airtiler/__init__.py:183-200 | applying strokes s + t equals applying s, then t |
| Masks.FlattenAppend | airtiler/__init__.py:183-188 | the strokes of a + b are those of a followed by those of b |
| Masks.PaintAllIsFlat | airtiler/__init__.py:183-200 | the recursive painting equals applying the flat list of (outline, fill, mode) strokes in order |
| Masks.AllSeparated | airtiler/__init__.py:184-185 | every stroke painted in separated mode is separated, MultiPolygon parts included |
| Masks.UncoveredStrokesKeep | airtiler/__init__.py:195-200 | a pixel in no stroke's outline or fill keeps its value |
| Masks.UncoveredPixelKept | airtiler/__init__.py:195-200 | a pixel in no polygon's outline or fill keeps its value, in both modes |
| Masks.ToggledTwice | airtiler/__init__.py:197-200 | helper: XOR-ing 255 by two parities composes to their difference |
| Masks.CompositeSeparated | airtiler/__init__.py:196-200 | in separated mode one polygon inverts a pixel iff it lies in exactly one of its outline and fill |
| Masks.SeparatedIsParity | airtiler/__init__.py:196-200 | separated strokes flip a pixel exactly when it lies in an odd number of outlines and fills |
| Masks.SeparatedCommutes | airtiler/__init__.py:196-200 | in separated mode the order of two polygon lists does not matter |
| Masks.SeparatedTwiceRestores | airtiler/__init__.py:196-200 | painting the same polygons twice in separated mode restores the original mask |
| Masks.BinaryPreserved | airtiler/__init__.py:195-200 | a pixel that is 0 or 255 stays 0 or 255 in both modes |
| Masks.MergedPolygon | airtiler/__init__.py:198-200 | merged mode: an outline pixel outside the fill ends at 255, one inside it at 0, a fill-only pixel is XOR-ed with 255, any other keeps its value |
| Masks.MergedOverlapCancels | airtiler/__init__.py:200 | merged mode: a pixel inside the fills (not outlines) of two polygons returns to its old value |
| Masks.GeometryDispatch | airtiler/__init__.py:183-188 | a MultiPolygon's parts are painted separated whatever the mode; any other geometry leaves the mask unchanged |
| Masks.PaintSingle | airtiler/__init__.py:183-200 | one geometry: a Polygon composites outline then fill, a MultiPolygon paints its parts separated, anything else is skipped |
| Masks.PaintAllStep | airtiler/__init__.py:183 | painting from position i is painting polygons[i], then the rest |
| Masks.PaintArea | airtiler/__init__.py:195-200 | the pixels of the area are set to 255 (overwrite) or XOR-ed with 255; all others are unchanged |
| Masks.PaintPolygon | airtiler/__init__.py:195-200 | every pixel ends at the polygon's outline step followed by its fill step |
| Masks.UpdateMask | airtiler/__init__.py:174-200 | every pixel of the mask ends at PaintAll of its old value |
| Masks.MaxValue | airtiler/__init__.py:155 | `mask.max()`: an upper bound of every pixel that some pixel attains |
| Airtiler.Get | airtiler/__init__.py:122-123 | `coll[index]` when index < len(coll), with Python's negative indexing (IndexError below -len); otherwise the default |
| Airtiler.Shapes | airtiler/__init__.py:147-154 | the geometries kept are exactly those of the ways whose polygon could be built (`None` entries are skipped), never more than the ways |
| Airtiler.ShapesAppend | airtiler/__init__.py:147-154 | the built geometries keep the ways' order: those of `a + b` are those of `a`, then those of `b` |
| Airtiler.MaskSaved | airtiler/__init__.py:155 | definition: `res.ways and mask.max()`, with the mask `PaintAll` from zero |
| Airtiler.ProcessTile | airtiler/__init__.py:125-164 | the verdict is always false; every pixel of the fresh all-zero mask is PaintAll of the buildable ways; the mask is saved iff there are ways and some pixel is non-zero |
| Airtiler.Unregistered | airtiler/__init__.py:88-94 | definition: the enumerated tiles whose names are not loaded, in order (properties in `UnregisteredMembers` and the lemmas below) |
| Airtiler.RunBbox | airtiler/__init__.py:62-106 | definition: `_process_bbox` on the store: enumerate, process the unregistered tiles, verdict "nothing processed" (properties in the `RunBbox` lemmas) |
| Airtiler.UnregisteredMembers | airtiler/__init__.py:88-94 | a tile is processed iff it is enumerated and its name is not in the loaded registry |
| Airtiler.NameAt | airtiler/__init__.py:104-105 | the k-th appended name is the k-th processed tile's name |
| Airtiler.NamesMembers | airtiler/__init__.py:104-105 | a name is appended iff some processed tile has it |
| Airtiler.AllRegisteredIffNothingToDo | airtiler/__init__.py:83-106 | nothing is processed iff every enumerated tile's name was loaded |
| Airtiler.UnregisteredUnique | airtiler/__init__.py:88-94 | the tiles processed are repeat-free, as the enumeration is |
| Airtiler.NamesUnique | airtiler/__init__.py:92 | repeat-free tiles have repeat-free names |
| Airtiler.NamesOfUnregisteredUnique | airtiler/__init__.py:104-105 | each processed tile's name is appended exactly once |
| Airtiler.AppendUnregistered | airtiler/__init__.py:88-105 | after the loop every enumerated tile is registered, only absent names were appended, and a repeat-free registry stays repeat-free |
| Airtiler.RunBboxVerdict | airtiler/__init__.py:83-106 | `_process_bbox` returns true iff every enumerated tile was already registered (true when none is enumerated) |
| Airtiler.RunBboxRegistry | airtiler/__init__.py:88-105 | afterwards every enumerated tile is registered; the old registry is a prefix; appended names were absent; no repeats arise |
| Airtiler.RunBboxFrame | airtiler/__init__.py:62-106 | only this bbox's registry changes and only grows; masks are only added; an error or a true verdict changes nothing |
| Airtiler.RunBboxTwice | airtiler/__init__.py:62-106 | a second `_process_bbox` on the same bbox and zoom returns true and changes nothing |
| Airtiler.TileRegistryRoundTrip | airtiler/__init__.py:77-105 | the names of any tiles, written to `tiles.txt` and loaded back, are the same names |
| Airtiler.Interrupted | airtiler/__init__.py:88-105 | definition: the store when the query of the k-th tile to process raises: the tiles before it processed and registered |
| Airtiler.ResumeAfterInterruption | airtiler/__init__.py:88-105 | after a raise at the k-th tile (the query of line 137; `process` retries it, lines 260-262), that tile is unregistered and the earlier ones registered; running `_process_bbox` again gives the verdict and store of an uninterrupted call |
| Airtiler.EnumerationUnique | airtiler/__init__.py:56-60 | the tiles of a bbox are repeat-free |
| Airtiler.ResumeTodo | airtiler/__init__.py:88-94 | once the first k tiles to process are registered, the tiles left to process are the others |
| Airtiler.ProgressResume | airtiler/__init__.py:93-105 | processing the first k tiles, then the others, gives the store of processing them all |
| Airtiler.ProgressMasksResume | airtiler/__init__.py:155-159 | the same, for the saved masks |
| Airtiler.RegistriesResume | airtiler/__init__.py:104-105 | helper: appending x, then y, to one bbox's registry is appending x + y |
| Airtiler.SavedMasksAppend | airtiler/__init__.py:155-159 | the masks saved for a + b are those saved for a and those saved for b |
| Airtiler.NamesAppend | airtiler/__init__.py:104-105 | the names of a + b are the names of a, then those of b |
| Airtiler.UnregisteredTwice | airtiler/__init__.py:88-94 | skipping the names of a, then those of b, is skipping the names of a + b |
| Airtiler.UnregisteredAfterPrefix | airtiler/__init__.py:88-94 | of repeat-free tiles, those not named among the first k are the rest |
| Airtiler.FilterAppend | airtiler/__init__.py:88-94 | helper: filtering a + b is filtering a, then b |
| Airtiler.FilterKeepsAll | airtiler/__init__.py:88-94 | helper: a filter that accepts every entry keeps the sequence |
| Airtiler.UnregisteredIsFilter | airtiler/__init__.py:88-94 | helper: the tiles to process are the tiles filtered by "name not loaded" |
| Airtiler.UnregisteredAppend | airtiler/__init__.py:88-94 | the tiles of a + b to process are those of a, then those of b |
| Airtiler.UnregisteredNone | airtiler/__init__.py:88-94 | when no tile's name is loaded, every tile is processed |
| Airtiler.AllNamed | airtiler/__init__.py:88-94 | no tile is left once every tile's name is loaded |
| Airtiler.NoDuplicatesFront | airtiler/__init__.py:56-60 | helper: dropping the last entry keeps a sequence free of repeats |
| Airtiler.ZoomLevelsFor | airtiler/__init__.py:232-235 | a dict bbox's own "zoom_levels" overrides the global ones (even when empty); the levels always come from the options or from the bbox's own key |
| Airtiler.GlobalZoomLevels | airtiler/__init__.py:216-217 | definition: `config.get("options", {}).get("zoom_levels", [])` |
| Airtiler.SeparateInstances | airtiler/__init__.py:216-218 | definition: `options.get("separate_instances", False)` |
| Airtiler.RunZooms | airtiler/__init__.py:240-247 | definition: the zoom loop, AND-ing the verdicts and stopping at a raise (properties in the `RunZooms` lemmas) |
| Airtiler.RunBboxes | airtiler/__init__.py:228-247 | definition: the bbox loop in the given order, with the zoom-level check (properties in the `RunBboxes` lemmas) |
| Airtiler.RunConfig | airtiler/__init__.py:209-248 | definition: the "boundingboxes" check, then the bbox loop from a true verdict (properties in `RunConfigVerdict`, `RunConfigErrors`, `SecondRunComplete`) |
| Airtiler.RecordedAtGrows | airtiler/__init__.py:104-105 | a tile registered stays registered when the registry is appended to |
| Airtiler.RecordedGrows | airtiler/__init__.py:104-105 | the same, for all zoom levels |
| Airtiler.RunZoomsFrame | airtiler/__init__.py:240-247 | the zoom loop touches only its bbox's registry, which only grows; a true verdict needs a true start and changes nothing |
| Airtiler.RunZoomsRaises | airtiler/__init__.py:240-245 | the zoom loop raises iff some level cannot be enumerated |
| Airtiler.RunZoomsVerdict | airtiler/__init__.py:240-247 | the zoom loop's verdict is the running verdict AND "every tile at every level was registered" |
| Airtiler.RunZoomsRecords | airtiler/__init__.py:240-245 | after the zoom loop every tile at every level is registered |
| Airtiler.NoDuplicatesTail | airtiler/__init__.py:213-214 | helper: the rest of a repeat-free key order is repeat-free and lacks the first key |
| Airtiler.RunBboxesFrame | airtiler/__init__.py:228-247 | the bbox loop changes only the visited bboxes' registries, which only grow; an all-true pass changes nothing |
| Airtiler.RunBboxesRaises | airtiler/__init__.py:228-245 | the bbox loop raises iff some bbox has no zoom levels or a level that cannot be enumerated |
| Airtiler.RunBboxesVerdict | airtiler/__init__.py:227-248 | the result is the AND of all (bbox, zoom) verdicts: true iff every tile of every bbox at each level was already registered |
| Airtiler.RunBboxesRecords | airtiler/__init__.py:228-245 | after the bbox loop every tile of every bbox at each level is registered |
| Airtiler.RunConfigVerdict | airtiler/__init__.py:202-248 | a pass that does not raise returns true iff every tile of the configuration was already registered |
| Airtiler.RunConfigErrors | airtiler/__init__.py:209-238 | without "boundingboxes" the pass raises before changing anything; a bbox with no zoom levels makes it raise |
| Airtiler.EmptyOverrideRaises | airtiler/__init__.py:232-238 | a dict bbox whose own "zoom_levels" is empty makes the pass raise, even with global zoom levels |
| Airtiler.SecondRunComplete | airtiler/__init__.py:202-248 | after a pass that does not raise, another pass in any key order returns true and changes nothing |
| Airtiler.UnregisteredSnoc | airtiler/__init__.py:93-94 | the next tile joins the processed ones iff its name is not loaded |
| Airtiler.RegistriesStep | airtiler/__init__.py:104-105 | appending the next name to the bbox's registry is the registry after one more processed tile |
| Airtiler.UpdateTwice | airtiler/__init__.py:104-105 | helper: a second write to a map key overrides the first |
| Airtiler.SavedMasksSnoc | airtiler/__init__.py:155-159 | one more processed tile adds its mask exactly when that mask is saved |
| Airtiler.MasksStep | airtiler/__init__.py:155-159 | adding the next tile's mask when saved gives the masks after one more processed tile |
| Airtiler.ProgressStep | airtiler/__init__.py:93-105 | one more processed tile appends its name and saves its mask when non-empty |
| Airtiler.BboxEntry | airtiler/__init__.py:228-240 | the bbox loop at one key: raise on no zoom levels, otherwise that bbox's zoom loop and then the remaining keys |
| Airtiler.ZoomStep | airtiler/__init__.py:240-247 | the zoom loop at one level: `_process_bbox` there, then the remaining levels unless it raised |
| Airtiler.Workspace.RecordTile | airtiler/__init__.py:104-105 | the name is appended to the bbox's registry and the mask recorded when saved; nothing else changes |
| Airtiler.Workspace.ProcessBbox | airtiler/__init__.py:62-106 | the verdict and the new registries and masks are those of `RunBbox` on the old ones |
| Airtiler.Workspace.ProcessInternal | airtiler/__init__.py:202-248 | the result and the new registries and masks are those of `RunConfig` on the old ones, for the given key order |

## Left out

- Network calls are not modelled: the Overpass query, the Bing metadata
  request and the imagery download (`_get_bing_data`, `_download_imagery`).
  A tile's way data is the parameter `fetch`.
- File-system work is not modelled: directory creation, opening and
  appending `tiles.txt`, and writing the mask `.tif`. The registries are a
  map from bbox name to names, and a missing `tiles.txt` is the empty
  registry. The line format is modelled and proved on its own
  (`RegistryRoundTrip`). Saved masks are a set of (bbox, tile name) pairs
  without their contents or paths, and `target_dir` is not modelled.
- pygeotile's floating-point projection (`Point.from_latitude_longitude`,
  `Tile.for_point`, `Point.pixels`, `tile.bounds`) is not modelled. It is
  the parameter `tileFor`, and the per-way node projection lies inside
  `fetch`.
- shapely's polygon construction, `buffer(0)` repair and clipping to the
  tile are not modelled. A failure is a `None` entry from `fetch`.
- PIL's polygon rasterisation is not modelled. A polygon is given as its
  outline and fill pixel sets.
- Polygon interiors are not modelled, because the code itself draws only
  the exterior ring.
- `random.shuffle` is the `order` parameter of `ProcessInternal`, which is
  required to list each bbox key once.
- The retry loop of `process` (rate limiting, `time.sleep`,
  `KeyboardInterrupt`), `main` and argument parsing are left out. The
  model's stand-ins for the retry loop are `SecondRunComplete` and
  `ResumeAfterInterruption`.
- Progress printing is left out.
- Python's dynamic typing of configuration values is left out. Corner
  values are `real`, zoom levels are a list of `int`, and
  `separate_instances` is a boolean.
- The message text of the zoom-level error is left out: the code never
  fills in its `{}` placeholder.
- Airtiler.Workspace.ProcessBbox does not model the directories it creates
  or the Bing URL it builds per tile, because both only feed I/O that is
  left out.
- Airtiler.Workspace.ProcessBbox and Airtiler.RunBbox do not model a
  query that raises partway through the tile loop: `fetch` always answers.
  The store such a raise leaves behind is the function `Interrupted`, and
  `ResumeAfterInterruption` proves that calling `_process_bbox` again ends
  as an uninterrupted call would. The raise itself, and how it passes
  through the zoom and bbox loops, is not modelled.
- Registry text is modelled as characters, not bytes. The file is written
  with the platform's default encoding and read as UTF-8. Written `'\n'` is
  kept as `'\n'`; on a platform whose line separator is `"\r\n"`, universal
  newlines reads that back the same way.
- Airtiler.ProcessTile does not model the Overpass query text or the pixel
  offset of each way's nodes, because both happen inside `fetch`.
