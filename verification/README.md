# EXR viewer loading core — a Dafny model

This project models the logic at the centre of a small Qt viewer/editor for
OpenEXR images:

- **Channel ingestion** (`FileOperationThread._load_exr` and the load half of
  `run`). The OpenEXR format check comes first. The branch that follows
  depends on the installed library, not on the file's layout
  (core/file_operations.py:52). When the library offers
  `MultiPartInputFile`, every file, single-part ones included, goes through
  the part loop. Each part is named as `parts()` reports it, and every channel
  of every part must decode, or the whole read fails. Without that class,
  every file is read through `InputFile` as one pseudo-part named
  `"default"`. That path makes a bulk channel read whose result may be a dict
  or a positional list, and reads channel by channel when the bulk read
  raises. Its decode loop skips only the channels it cannot decode.
- **Layer grouping.** A channel name is filed under the text before its first
  `.`, or under `"default"` when it has no dot. Layers keep header order.
- **Plane decoding.** The pixel-type tag selects an element size: 4 for FLOAT
  and UINT, 2 for anything else. A buffer becomes an `(h, w)` plane exactly
  when its length is `w*h*size`.
- **Preview selection** for a layer, a channel or a tree item. The R/G/B/A
  slots are the first channels ending in `.R`, `.G`, `.B` and `.A`. A
  four-plane stack is built only when R, G and B are all decoded. Otherwise the
  preview is the layer's first channel.
- **Display adjustment**:
  `trunc(clip((v - 0.5) * contrast + 0.5 + brightness, 0, 1) * 255)`. Also the
  sliders that feed it and the row stride of the resulting 8-bit image.
- **Header metadata editing.** The table is read back into a dict, and that
  dict is laid over a copy of the header.

The OpenEXR/Imath library is not modelled; what it reports about a file is an
input. That input is `ExrFile` in module `Reader`, which holds:

- the `isOpenExrFile` verdict;
- the header: data window, channel list with pixel-type tags, and other
  attributes;
- the outcome of the bulk read (`Fetch.Raised` or a returned dict/list);
- the outcome of each per-channel read;
- for multi-part files, each part's `header()` and `pixels()` outcome.

Whether the library offers `MultiPartInputFile` is the parameter
`hasMultiPart`. Two copies of the loader exist: `ReadContainer` models the
package one and `ReadSingle` the single-file one. With `hasMultiPart = false`
they coincide. The preview rule also has two copies
(`ImageProcessor._prepare_layer_preview` and `EXREditor.on_tree_item_selected`).
It is defined once, in `Preview.LayerPreview`, and both entry points use it.

Everything is functional: immutable datatypes, `Option`/`Result`/`Fetch` for
Python `None`, errors and raised calls, and reals for the display arithmetic.
The source's "works on a copy, the input is not mutated" promises hold by
construction in this value semantics. Examples are `apply_display_adjustments`
and `update_header_with_metadata`.

Three consequences of the code are worth stating:

- Any exception in the part loop (core/file_operations.py:164-215) reaches
  `run`, and the whole load fails. A failing part takes its siblings with it
  (`Reader.LoadParts`, `Reader.MultiPartAllOrNothing`).
- RGBA slot matching uses only the exact, case-sensitive suffixes `.R`, `.G`,
  `.B` and `.A` (core/data_processing/image_processor.py:50-53).
- In the `InputFile` path, a part none of whose channels decode is still
  returned, with no planes. In the part loop, any undecodable channel fails
  the read.

The package's `prepare_preview_data` treats an empty layer name as "no
selection". A channel named `.R` is filed under the empty layer name `""`, so
the tree handler previews that layer but `prepare_preview_data` returns `None`
for it (`Preview.EmptyLayerNameOnlyInTree`).

## Model

| member | source | states |
|---|---|---|
| `Planes.DTypeOf` | pyOpenEXR.py:153-160 | A FLOAT tag selects float32 and only it; a UINT tag selects uint32 and only it; every other tag, unknown ones included, selects float16. |
| `Planes.ElemSize` | pyOpenEXR.py:163 | `frombuffer` reads elements of 2 bytes exactly for float16, and of 4 bytes for float32 and uint32. |
| `Planes.Decode` | core/file_operations.py:148-151 | `frombuffer` plus the `(h, w)` reshape succeeds iff both dimensions are non-negative and the length is `w*h*elemSize`. On success the plane has that shape and dtype, and its row-major bytes are the buffer. |
| `Planes.DecodeToBytes` | core/file_operations.py:149-150 | Round trip: re-reading a plane's own bytes with its dtype and shape gives the same plane. |
| `Planes.ChunksOfFlatten` | core/file_operations.py:150 | Cutting the concatenation of equal-length rows back into rows returns the rows. |
| `Layers.LayerOf` | core/file_operations.py:91 | A name without a dot is filed under `"default"`. A dotted name is filed under its dot-free prefix, the text up to its first dot. |
| `Layers.AddChannel` | core/file_operations.py:92 | One `setdefault(layer, []).append(name)` step. Its contract is stated by `Layers.AddChannelExisting` and `Layers.AddChannelNew`. |
| `Layers.Group` | core/file_operations.py:88-92 | The grouping loop over the header's channel names. Its contract is stated by `Layers.GroupSpec`. |
| `Layers.BeforeFirstDotSpec` | core/file_operations.py:91 | `split(".")[0]` is a prefix of the name and contains no dot. When the name has a dot, the next character is the first dot; otherwise it is the whole name. |
| `Layers.LayerOfDotted` | core/file_operations.py:91 | `prefix.rest` with a dot-free prefix belongs to layer `prefix`, whatever follows. |
| `Layers.AddChannelExisting` | core/file_operations.py:92 | `setdefault(layer, []).append(name)` on an existing layer appends `name` to that entry. No other entry changes. |
| `Layers.AddChannelNew` | core/file_operations.py:92 | On a layer without an entry, it adds a new entry `[name]` after all others. |
| `Layers.GroupSpec` | core/file_operations.py:88-92 | Layer names are distinct. Each layer lists exactly the header channels that belong to it, in header order, and is non-empty. Every channel's layer is present. Layers come in first-seen order. |
| `Layers.ExactlyOneLayer` | core/file_operations.py:188-193 | Every header channel is in exactly one layer: the one named by its prefix, or `"default"`. |
| `Layers.MembersContain` | pyOpenEXR.py:104-106 | A name is listed in layer `L` iff it is a header channel whose layer is `L`. |
| `Layers.ChannelsOf` | core/data_processing/image_processor.py:46 | `layers.get(name, [])`: the entry's channel list, or `[]` for an unknown layer. |
| `Layers.GroupLookup` | pyOpenEXR.py:417 | Looking a layer up in the grouped dict gives exactly its header channels, in order. |
| `Reader.WindowSize` | core/file_operations.py:69 | The window spans `width` columns from `min.x` to `max.x` and `height` rows from `min.y` to `max.y`. |
| `Reader.FromList` | core/file_operations.py:113-118 | The dict built from a list result holds header channels only. |
| `Reader.FromListAt` | core/file_operations.py:113-118 | List result: channel `i` gets element `i` iff `i < len(list)`. Later channels get no entry, and surplus elements are ignored. |
| `Reader.ReadEach` | core/file_operations.py:119-128 | Per-channel fallback: a header channel has an entry iff its own read returned, and the entry is what it returned. Nothing but header channels gets an entry. |
| `Reader.PixelDict` | core/file_operations.py:100-128 | `pixels_dict` is the returned dict, the dict built from the returned list, or the per-channel fallback. What each branch stores is stated by `Reader.DictBranchChannels`, `Reader.ListBranchChannels` and `Reader.FallbackChannels`. |
| `Reader.SinglePartImage` | core/file_operations.py:58-159 | The `InputFile` path returns the path and one part named `"default"` with the header as read and the window's size. It stores nothing but header channels. |
| `Reader.Stored` | core/file_operations.py:130-155 | A channel yields a plane iff it has an entry, the entry is not None, and the buffer length fits. |
| `Reader.DecodeAvailable` | core/file_operations.py:130-155 | The single-part decode loop stores header channels only. |
| `Reader.DecodeAvailableAt` | core/file_operations.py:130-155 | Single-part decode loop: channel `i` is stored iff its entry exists, is not None and fits. It is stored as its decoded plane; skipping one channel does not affect the others. |
| `Reader.DecodeAvailableShapes` | core/file_operations.py:149-151 | Every stored plane has the part's `(height, width)` shape. |
| `Reader.DecodeAll` | core/file_operations.py:199-209 | Multi-part decode succeeds iff every header channel decodes. The key set is then exactly the header channels. A failure names a channel with a missing key or a bad buffer. |
| `Reader.DecodeAllAt` | core/file_operations.py:199-209 | After a successful multi-part decode, channel `i` is stored as its own decoded plane. |
| `Reader.LoadPart` | core/file_operations.py:166-212 | A part loads iff its header and pixel reads return and every header channel decodes at the window's size. A raising library call fails it. |
| `Reader.LoadPartStructure` | core/file_operations.py:166-212 | A loaded part has its own name, the header as read, size `(max.x-min.x+1, max.y-min.y+1)`, and exactly the header channels as planes of that size. Its layers are its header channels grouped by prefix in header order. |
| `Reader.MultiPartStructure` | core/file_operations.py:164-215 | Part loop: part `i` of a successful read has source `i`'s name, header and window size, planes of that size, and grouped layers. |
| `Reader.LoadParts` | core/file_operations.py:164-215 | Multi-part read succeeds iff every part loads, giving one part per source in order. |
| `Reader.ReadSingle` | pyOpenEXR.py:67-173 | A file failing the format check gives `NotOpenExr`. A success carries the input path and exactly one part, named `"default"`. |
| `Reader.ReadContainer` | core/file_operations.py:42-62 | A file failing the format check gives `NotOpenExr`, and no data is returned. A success carries the input path. Without `MultiPartInputFile` it is the single-part loader. |
| `Reader.RunLoad` | core/file_operations.py:27-40 | `run` signals `finished` iff the read succeeds, with its data. Otherwise it signals `error`, e.g. for a non-EXR file. |
| `Reader.SinglePartStructure` | core/file_operations.py:61-92 | Single-part layout: one `"default"` part with the path, the header as read, size `(max.x-min.x+1, max.y-min.y+1)`, planes of that size, and layers grouped from all header channels. |
| `Reader.ListBranchChannels` | pyOpenEXR.py:124-169 | List result: channel `i` is stored iff element `i` exists, is not None and fits. |
| `Reader.DictBranchChannels` | core/file_operations.py:110-111 | Dict result: a channel is stored iff its entry exists, is not None and fits. Extra dict keys are not stored. |
| `Reader.FallbackChannels` | core/file_operations.py:119-137 | After a raising bulk read, a channel is stored iff its own read returned a fitting buffer. Skipped channels are still listed in their layer. |
| `Reader.MultiPartAllOrNothing` | core/file_operations.py:199-209 | Multi-part: a success stores every header channel of every part. A missing, None or wrongly sized buffer in any part makes `run` signal an error. |
| `Preview.FirstEndingWith` | core/data_processing/image_processor.py:50-53 | The slot is the first listed channel ending with the suffix, or None iff no channel does. |
| `Preview.LayerPreview` | core/data_processing/image_processor.py:44-70 | Composite iff R, G, B are found and decoded. Its planes are those slots. Alpha is the A plane when decoded, else ones like R. Otherwise: the first listed channel if decoded, else None; an unknown layer gives None. |
| `Preview.ChannelPreview` | core/data_processing/image_processor.py:72-76 | The channel's plane unchanged, or None iff it was not decoded. |
| `Preview.PreparePreviewData` | core/data_processing/image_processor.py:36-41 | None unless the kind is `"layer"` with a non-empty layer name or `"channel"` with a non-empty channel name. Those two cases dispatch to the layer/channel previews. |
| `Preview.SelectTreeItem` | pyOpenEXR.py:389-449 | Nothing happens unless there is data, an item, and an int index in `[0, len(parts))`. Otherwise the part's header is shown and the preview follows the item kind. The sliders reset to 0 and 100. |
| `Preview.DecodedRgbLayerComposes` | pyOpenEXR.py:421-433 | A layer with `.R`, `.G`, `.B` channels, all of whose channels decoded, previews as a four-plane stack. |
| `Preview.CompositePlanesAgree` | core/data_processing/image_processor.py:57-62 | In a loaded part, the planes of a composite share the part's shape, so the stack is well formed. |
| `Preview.EmptyLayerNameOnlyInTree` | core/data_processing/image_processor.py:36-37 | `.R` is filed under layer `""`. The tree handler previews it; `prepare_preview_data` returns None for it. |
| `Display.Trunc` | core/data_processing/image_processor.py:102 | `astype` truncates toward zero: the result is within 1 of the input, on the zero side. |
| `Display.AdjustSample` | core/data_processing/image_processor.py:98-102 | Every output sample lies in 0..255. |
| `Display.NeutralAdjustmentQuantises` | core/data_processing/image_processor.py:79-102 | With brightness 0 and contrast 1, `v` in [0, 1] maps to `trunc(v*255)`. |
| `Display.AdjustMonotone` | core/data_processing/image_processor.py:98-102 | For contrast ≥ 0 the output is non-decreasing in the input. |
| `Display.ZeroContrastIsFlat` | pyOpenEXR.py:465 | With contrast 0 every input shows the same value. |
| `Display.ApplyDisplayAdjustments` | core/data_processing/image_processor.py:91-102 | None maps to None. Otherwise the result is a same-shaped array whose samples are the adjusted input samples, all in 0..255. |
| `Display.NeutralImageQuantises` | core/data_processing/image_processor.py:79-102 | At neutral settings an image in [0, 1] is only quantised, sample by sample. |
| `Display.NumpyToQImage` | core/data_processing/image_processor.py:115-125 | 3-D data gives RGBA8888 with stride `4*width`; otherwise Grayscale8 with stride `width`. A line holds `width` pixels of the format. |
| `Display.BrightnessOf` | pyOpenEXR.py:458 | Brightness is slider/100 and lies in [-1, 1]. |
| `Display.ContrastOf` | pyOpenEXR.py:459 | Contrast is slider/100 and lies in [0, 3]. |
| `Display.UpdateDisplay` | pyOpenEXR.py:451-479 | No data clears the preview. Otherwise each shown sample is the adjusted input sample, using brightness and contrast taken from the sliders over 100, so it lies in 0..255. The image keeps the data's width and height, and the stride is `4*width` for 3-D data and `width` otherwise. |
| `Display.ResetSlidersShowQuantisation` | pyOpenEXR.py:446-449 | After a selection resets the sliders, data in [0, 1] is shown as its plain quantisation. |
| `Metadata.UpdateHeader` | core/data_processing/metadata_handler.py:64-67 | The key set is the union of header and metadata keys. Metadata keys take the metadata value; all other keys keep the header value. |
| `Metadata.UpdateIdempotent` | core/data_processing/metadata_handler.py:64-67 | Applying the same metadata twice equals applying it once. |
| `Metadata.UpdateWithNothing` | core/data_processing/metadata_handler.py:64-67 | Empty metadata returns a map equal to the header. |
| `Metadata.TableMetadata` | core/data_processing/metadata_handler.py:44-50 | A key is present iff some row with both cells carries it. Every key comes from such a row. |
| `Metadata.TableLastWins` | core/data_processing/metadata_handler.py:45-49 | A key's value is the value cell of the last complete row with that key. |
| `Metadata.IncompleteRowIgnored` | core/data_processing/metadata_handler.py:48 | A row lacking its key or value cell changes nothing. |
| `Metadata.LastRowWins` | core/data_processing/metadata_handler.py:49 | A complete row sets its key to its value, overwriting earlier rows. |

## Left out

- The Qt user interface is not modelled. This covers widgets, menus, tree
  population, slider/spinbox wiring, the metadata table widget, pixmap scaling
  and `QImage` construction; only the stride/format choice is modelled. It is
  presentation.
- `QThread` and signal plumbing are not modelled. `run` is modelled only as its
  success/error outcome for the "load" operation. The "save" operation and
  `_save_exr` (the writer path) are thin wrappers over the library.
- OpenEXR/Imath calls are not modelled. `isOpenExrFile`, `InputFile`,
  `MultiPartInputFile`, `channels`, `channel`, `header`, `pixels` and
  `get_part` are inputs of the model. Their internal behaviour is foreign code.
- Header access is not modelled in detail. Whether the header is read as an
  object or a dict (`hasattr` checks) is collapsed into one abstract `Header`.
- Float arithmetic is not modelled: no IEEE semantics, NaN/Inf, float16
  rounding or numpy `astype` on out-of-range values. The display adjustment is
  over reals.
- Decoded plane samples are not connected to display samples. Preview planes
  hold raw element bytes, and the display works on real samples. Turning
  float16/float32/uint32 bytes into numbers is float decoding and is left out.
- `np.stack` dtype promotion is not modelled. A composite keeps its
  constituent planes, and the ones alpha is `OnesLikeRed`.
- Planes.Decode: a negative window dimension is treated as a failed decode. The
  source's shape assignment could also succeed through numpy's `-1` inference
  in one corner. OpenEXR data windows never have negative size.
- `core.file_operations.exr_reader` is not part of this model.
- The `isinstance(ch, str)` filter in slot selection is always true here,
  because channel names are strings in this model.
- Reader.DecodeAll: the failure case is stated as "some failing channel is
  named", not "the first failing channel in header order", although the
  definition does stop at the first one.
