# vkd core, modelled in Dafny

vkd is a node-graph video and photo editor built on Vulkan. Most of it wraps GPU, ffmpeg, OpenEXR, SANE, OCIO and ImGui calls. This project models the bookkeeping and decision logic underneath those calls and proves what that logic promises. Every foreign call is an input of the model or is left out.

- **Node-graph editor** (`NodeGraph`, `NodeWindows`, `NodeBuild`, `NodeLoad`, `InitialInputs`, `LegacyNodes`, `Serialise`, `FakeNodes`, `EngineNodes`):
  - the editor state: nodes, pins, links and their indexes, with the invariant that keeps them consistent;
  - adding and removing links, with one link per input pin;
  - auto-growing extendable inputs;
  - adding and deleting nodes;
  - building the engine graph by a breadth-first walk from the display node;
  - terminal selection;
  - the versioned serialisers;
  - the older editor in src/ui/nodes.cpp.
- **Parameters and caches** (`Parameters`, `ParameterCache`, `MakeParam`, `ParamMaps`, `HostCache`, `Hash`, `BlockEdit`):
  - parameter clamping and the read-and-reset change flag;
  - the parameter cache and the cached factory;
  - the host image cache with its LRU order;
  - 64-bit hash folding;
  - frame translation for a block.
- **GPU memory and compute** (`Memory`, `DispatchPlan`, `Kernels`, `Shaders`, `DescriptorLayouts`, `DescriptorPools`, `ComputePipelines`):
  - memory accounting, the reuse pool and the memory-type search;
  - how a dispatch splits into launches;
  - push-constant handling;
  - reflection mapping;
  - descriptor and specialisation bookkeeping.
- **Vulkan selection rules** (`Images`, `Swapchains`, `Surfaces`, `VulkanEnums`):
  - layout to access-mask rules, and layout restore on copy;
  - the swapchain and surface-format choices;
  - the enum and flag printers.
- **Media and small state machines** (`FfmpegInputs`, `FfmpegLoop`, `ImageUploader`, `ImageDownloader`, `Sand`, `Rotate`, `ExrOutput`, `ImmediateExr`, `NumberedNames`, `Paths`):
  - ffmpeg seeking and blanking outside a block;
  - the packet-blanking step;
  - upload and download sizes;
  - the sand add-location buffer;
  - the rotate output size;
  - numbered output names.
- **Colour spaces, queues, logs and lists** (`Ocio`, `GraphRequestQueue`, `Consoles`, `Performances`, `Timelines`, `Bins`, `PhotoBrowsers`).
- **Scanner support** (`SaneWrapper`, `SaneService`, `SaneFormats`): SANE option descriptors mapped to parameters, as section 4.2.9 of the SANE 1 standard describes option constraints, and the scanner formats mapped to upload formats.
- **The scaffolding script newclass.py** (`NewClass`).

Objects whose fields the source updates in place are classes with `modifies` clauses, and each is specified by functions of its old state. Pure decision logic is functions with lemmas.

## Model

| member | source | states |
|---|---|---|
| Bins.Paths | src/ui/bin.cpp:74-76 | the path list has one entry per bin entry, in order, each the entry's path |
| Bins.RowEntry | src/ui/bin.cpp:18-33 | row 0 is the "new empty sequence" item and row k + 1 shows entry k |
| Bins.Click | src/ui/bin.cpp:19-25 | clicking the selected row deselects it (-1); clicking any other row selects that row |
| Bins.Bin.constructor | src/ui/bin.hpp:45-47 | a new bin has no entries and no selection (-1) |
| Bins.Bin.AddEntry | src/ui/bin.cpp:74-76 | `add_entry` appends one entry with the path and leaves the selection alone |
| Bins.Bin.RemoveEntry | src/ui/bin.cpp:78-80 | `remove_entry` erases position i: entries before it stay, later ones shift down by one |
| Bins.Bin.GetEntry | src/ui/bin.cpp:82-87 | `get_entry` returns the path at a valid position and "" for any other |
| Bins.Bin.ClickRow | src/ui/bin.cpp:32-39 | a click on a shown row toggles the selection as `Click` does; the entries are unchanged |
| Consoles.Console.constructor | src/console.hpp:13 | a new console has an empty pending line, an empty log and has echoed nothing |
| Consoles.Console.Write | src/console.hpp:26-30 | streaming a value appends its text to the pending line only; the log keeps whole lines |
| Consoles.Console.EndLine | src/console.hpp:18-24 | a manipulator appends the pending line plus a newline to the log, echoes that line, and clears the pending line |
| Consoles.Console.Log | src/console.hpp:32-35 | `log()` returns the stored log, which always consists of whole lines |
| Consoles.ReplayGrows | src/console.hpp:18-30 | over any run of writes and line ends the old log is a prefix of the new one, and the log stays whole lines |
| Consoles.StreamThenEndLine | src/console.hpp:18-30 | streaming "woah" leaves the log empty until the line ends, and then the log is exactly "woah\n" |
| Performances.KeepLimit | src/ui/performance.cpp:19 | the limit as the `size_t` comparison sees it: itself when non-negative, at least 2^63 when negative |
| Performances.TrimmedKeepsNewest | src/ui/performance.cpp:19-21 | trimming keeps the newest reports (a suffix), at most `keep` of them for a non-negative limit, all of them for a negative one, and keeps the numbering ascending |
| Performances.Performance.constructor | src/ui/performance.hpp:45-49 | a new log is empty, keeps 10 reports, starts numbering at 0 and is closed |
| Performances.Performance.Open | src/ui/performance.hpp:18 | `open` sets the open flag and nothing else |
| Performances.Performance.Add | src/ui/performance.hpp:19 | `add` appends a report numbered with the current index and moves the index on by one, keeping the numbering ascending |
| Performances.Performance.Trim | src/ui/performance.cpp:19-21 | the trim loop leaves exactly `Trimmed` of the old reports and changes no other field |
| Performances.Performance.Save | src/ui/performance.hpp:38-43 | saving at version 0 writes the four fields; any other version writes nothing |
| Performances.Performance.Load | src/ui/performance.hpp:38-43 | loading at version 0 reads the four fields back; any other version leaves the object unchanged |
| Performances.SaveLoadRoundTrip | src/ui/performance.hpp:38-43 | saving one log and loading the archive into another at version 0 copies every field |
| Timelines.SequencerLine.constructor | src/ui/timeline.hpp:10-19 | a new line starts at 0, ends at 100, has colour 0x999999FF, no frames and no jump |
| Timelines.FirstAt | src/ui/timeline.hpp:73-80 | the search finds the first position holding the same line object, or reports that none does |
| Timelines.WithoutFirstCounts | src/ui/timeline.hpp:73-80 | removing a present line drops exactly one copy of it (the multiset loses one); an absent line leaves the list unchanged |
| Timelines.Timeline.constructor | src/ui/timeline.hpp:52-60 | a new sequencer has no lines, frame max 100, p1 0, p2 100, selected entry 0 and first frame 0 |
| Timelines.Timeline.GetFrameMin | src/ui/timeline.hpp:22 | the first frame is always 0 |
| Timelines.Timeline.GetItemCount | src/ui/timeline.hpp:28 | the item count is the number of lines |
| Timelines.Timeline.Get | src/ui/timeline.hpp:30-42 | an index in range yields that line's start, end and colour; any other index (negative ones included) yields nothing |
| Timelines.Timeline.GetItemLabel | src/ui/timeline.hpp:44-50 | an index in range yields the line's name, any other index "" |
| Timelines.Timeline.AddLine | src/ui/timeline.hpp:71 | `add_line` appends the line and changes no other field |
| Timelines.Timeline.RemoveLine | src/ui/timeline.hpp:73-80 | `remove_line` erases the first entry that is the same object and stops, as `WithoutFirst` states, and changes no other field |
| PhotoBrowsers.ValidExtension | src/ui/photo_browser.cpp:12-24 | an extension is accepted exactly when its lower-case form is ".mp4", ".exr" or ".raf" |
| PhotoBrowsers.CaseInsensitive | src/ui/photo_browser.cpp:15 | extensions that differ only in letter case are accepted alike, and lowering twice changes nothing |
| PhotoBrowsers.Place | src/ui/photo_browser.cpp:55-85 | the i-th listed file sits at column i mod per_column and row i div per_column, and the next one stays on the same line unless this is the last column |
| PhotoBrowsers.CellsNumbered | src/ui/photo_browser.cpp:39-45 | every listed file gets its own cell: there is one per accepted extension and the k-th is `Place(k)` |
| PhotoBrowsers.Draw | src/ui/photo_browser.cpp:39-45 | the directory loop counts and places exactly the accepted files, in listing order |
| PhotoBrowsers.PhotoBrowser.constructor | src/ui/photo_browser.hpp:34-36 | a new browser has no entries and no selection (-1) |
| PhotoBrowsers.PhotoBrowser.AddEntry | src/ui/photo_browser.cpp:88-90 | `add_entry` is set insertion: the path is present afterwards and adding it twice is adding it once |
| PhotoBrowsers.PhotoBrowser.RemoveEntry | src/ui/photo_browser.cpp:92-94 | `remove_entry` is set erasure: the path is absent afterwards and removing an absent path changes nothing |
| GraphRequestQueue.Take | src/services/graph_requests.cpp:31-37 | an empty queue yields nothing and stays empty; otherwise the front request is returned and the rest is the queue without it |
| GraphRequestQueue.TakeAfterAdd | src/services/graph_requests.cpp:19-37 | first in, first out: adding at the back leaves the next take of a non-empty queue unchanged and keeps the added request at the back of the rest |
| GraphRequestQueue.TakeManyInOrder | src/services/graph_requests.cpp:19-37 | taking n requests in turn returns the first n added, in order, and leaves the remaining suffix |
| GraphRequestQueue.GraphRequests.constructor | src/services/graph_requests.hpp:12 | a new queue is empty |
| GraphRequestQueue.GraphRequests.Add | src/services/graph_requests.cpp:19-22 | `add` appends the request at the back |
| GraphRequestQueue.GraphRequests.AddUiRunWith | src/services/graph_requests.cpp:24-29 | `add_ui_run_with` appends a UI request whose only extra node is the terminal |
| GraphRequestQueue.GraphRequests.TakeFront | src/services/graph_requests.cpp:31-37 | `take` returns nothing on an empty queue and otherwise pops the front; the new queue is exactly `Take`'s rest |
| GraphRequestQueue.Singleton.constructor | src/services/graph_requests.cpp:6 | the singleton starts absent |
| GraphRequestQueue.Singleton.Get | src/services/graph_requests.cpp:8-12 | `Get` creates an empty queue on first use and returns the same queue afterwards |
| GraphRequestQueue.Singleton.Shutdown | src/services/graph_requests.cpp:14-17 | `Shutdown` drops the queue so the next `Get` makes a fresh one |
| EngineNodes.NodeTypeRegistry.constructor | src/engine_node.cpp:27 | the type table starts empty |
| EngineNodes.NodeTypeRegistry.RegisterNodeType | src/engine_node.cpp:18-21 | `register_node_type` emplaces the type's name, display name and pin counts, so an already registered name keeps its entry |
| EngineNodes.RegisterTwice | src/engine_node.cpp:14-21 | registering a new name twice leaves exactly what the first registration stored |
| EngineNodes.EngineParams.constructor | src/engine_node.cpp:23-25 | the parameter groups start empty |
| EngineNodes.EngineParams.RegisterParams | src/engine_node.cpp:23-25 | `register_params` sets the group named after the kernel to its public parameters and keeps every other group |
| Hash.FoldAppend | src/hash.hpp:46-53 | combining arguments one at a time composes: folding `a + b` is folding `b` into the fold of `a`, so `Hash(a...) + b` equals `Hash(a..., b)` |
| Hash.Hash.constructor | src/hash.hpp:12-55 | a default hash holds 0 |
| Hash.Hash.Of | src/hash.hpp:14-37 | `Hash(args...)` (and `operator()`, which restarts from 0) holds the left-to-right fold of the arguments' hashes from 0 |
| Hash.Hash.Plus | src/hash.hpp:39-43 | `operator+` folds one more argument's hash into the stored value with the wrapping 64-bit combine step |
| Hash.Hash.Equals | src/hash.hpp:29-31 | two hashes are equal exactly when their stored values are |
| Hash.BelowIsStrictOrder | src/hash.hpp:60-62 | unsigned comparison of the stored words is irreflexive, transitive and asymmetric |
| Hash.BelowIsTotal | src/hash.hpp:60-62 | any two words are ordered one way or are equal |
| Hash.LessIsStrictTotalOrder | src/hash.hpp:29-62 | `operator<` is a strict total order on hashes whose incomparable elements are exactly the `==`-equal ones, as a `std::map` key needs |
| Hash.PlusExtendsFold | src/hash.hpp:14-43 | constructing from `a` and then adding `h` yields the same value as constructing from `a` followed by `h` |
| HostCache.StaticHostImage.constructor | src/host_cache.hpp:18-37 | a default image holds no data, 0 x 0, no channels and element size 0 |
| HostCache.StaticHostImage.CreateImage | src/host_cache.cpp:12-17 | `create_image` records channels and element size, sizes the data to width * height * channels * element size and sets the dimensions |
| HostCache.Make | src/host_cache.cpp:6-10 | `make` returns a fresh image with exactly the layout `create_image` gives it |
| HostCache.WithoutSpec | src/host_cache.cpp:40 | the erase-remove idiom drops every copy of the key and keeps every other key with its multiplicity |
| HostCache.TouchSpec | src/host_cache.cpp:40-41 | after a hit the key occurs exactly once, at the back of the queue, and other keys keep their multiplicity |
| HostCache.TouchIdempotent | src/host_cache.cpp:40-41 | two hits in a row on the same key leave the queue as one hit does |
| HostCache.WithoutAppendSelf | src/host_cache.cpp:40 | removing a key from a queue ending in that key is removing it from the queue without that last element |
| HostCache.WithoutAbsent | src/host_cache.cpp:40 | removing a key that is not queued leaves the queue unchanged |
| HostCache.HostCache.constructor | src/host_cache.hpp:42-54 | a new cache has no images and an empty queue |
| HostCache.HostCache.Add | src/host_cache.cpp:19-27 | `add` stores the image under the key, replacing any earlier one, returns true exactly when the key was new and leaves the queue alone |
| HostCache.HostCache.Remove | src/host_cache.cpp:29-35 | `remove` erases the key, returns whether it was present and leaves the queue alone |
| HostCache.HostCache.Get | src/host_cache.cpp:37-46 | `get` returns the stored image exactly when the key is present, then moving the key to the back of the queue; a miss returns null and changes nothing |
| HostCache.HostCache.Trim | src/host_cache.cpp:48-50 | `trim` changes nothing |
| BlockEdit.TranslateIndex | src/inputs/blockedit.hpp:10-21 | the translated index is the frame shifted by the content-relative start, never below 0 and, when clamping, never above the total frame count; inside the range it is the shifted index itself |
| BlockEdit.Translate | src/inputs/blockedit.hpp:10-21 | `translate` changes only the frame's index, to the translated index |
| BlockEdit.TranslateMonotone | src/inputs/blockedit.hpp:10-21 | translation preserves the order of frame indices, and translating an already translated index with no shift changes nothing |
| BlockEdit.BlockEditParams.constructor | src/inputs/blockedit.cpp:6-18 | the four parameters are the cached int `_total_frame_count` and the frames `frame_start_block`, `frame_end_block`, `content_relative_start` under the hash, and each is emplaced in order into group "_" of the map under its own name |
| ComputePipelines.LocalSizeEntries | src/compute_pipeline.cpp:8-17 | the local-size form builds three entries, the i-th with constant id i, byte offset 4i and size 4 |
| ComputePipelines.SumSizes | src/compute_pipeline.cpp:36-39 | the loop's total is the sum of the entries' sizes |
| ComputePipelines.SizeSumUniform | src/compute_pipeline.cpp:36-42 | entries of n bytes each add up to n bytes apiece, so the three local-size entries give a data size of 12 |
| ComputePipelines.ComputePipeline.constructor | src/pipeline.hpp:79 | a pipeline starts bound to the graphics bind point with no specialisation |
| ComputePipelines.ComputePipeline.CreateWith | src/compute_pipeline.cpp:23-49 | `create` with entries binds to compute and attaches specialisation info (the entries, their size total and the local sizes as data) exactly when the entry list is non-empty |
| ComputePipelines.ComputePipeline.CreateForLocalSizes | src/compute_pipeline.cpp:7-21 | `create` with local sizes stores them and specialises constants 0, 1, 2 at offsets 0, 4, 8 with 12 bytes of data read from them |
| DescriptorLayouts.DescriptorLayout.constructor | src/descriptor_layout.hpp:10-25 | a new layout has no pending and no created bindings |
| DescriptorLayouts.DescriptorLayout.Add | src/descriptor_layout.cpp:6-14 | `add` appends one binding whose number is the current binding count, so the k-th binding is numbered k, and the created bindings stay |
| DescriptorLayouts.DescriptorLayout.Create | src/descriptor_layout.cpp:16-25 | `create` makes the layout from the pending bindings and remembers exactly them as the created bindings |
| DescriptorLayouts.DescriptorLayout.Clear | src/descriptor_layout.hpp:18 | `clear` drops the pending bindings and keeps the created ones |
| DescriptorLayouts.AddAfterCreate | src/descriptor_layout.hpp:18-20 | bindings added after a `create` do not show in the created bindings until the next `create` |
| DescriptorPools.Requested | src/descriptor_pool.cpp:6-28 | the entries a run of `add_*` calls leaves are among the calls, all with positive counts, and never more than the calls |
| DescriptorPools.DescriptorPool.constructor | src/descriptor_pool.hpp:11-26 | a new pool has no size entries |
| DescriptorPools.DescriptorPool.AddSize | src/descriptor_pool.cpp:6-28 | each `add_*` appends one entry of its descriptor type when the count is positive and nothing otherwise |
| DescriptorPools.DescriptorPool.Create | src/descriptor_pool.cpp:30-41 | `create` passes every entry, the set limit and the free-descriptor-set flag |
| DescriptorPools.AddAll | src/descriptor_pool.cpp:6-28 | a run of `add_*` calls appends exactly the requested entries, in call order |
| DescriptorPools.RequestedKeepsOrder | src/descriptor_pool.cpp:6-28 | one more call appends its entry at the end exactly when its count is positive |
| DispatchPlan.SplitAxisSpec | src/compute/kernel.cpp:144-154 | for a non-negative size, the whole groups times the group size plus the leftover is the size, the leftover is shorter than one group, and the leftover starts after the whole groups |
| DispatchPlan.SplitAxisNegative | src/compute/kernel.cpp:148-150 | for a negative size the truncating remainder is never positive, so no overflow launch happens on that axis |
| DispatchPlan.Plan | src/compute/kernel.cpp:139-201 | `dispatch` always issues the main launch first: offset 0, the full local group size and the whole-group counts |
| DispatchPlan.PartsSpec | src/compute/kernel.cpp:168-201 | the overflow branches visit every combination of axes that all have a leftover, each exactly once |
| DispatchPlan.PartsListed | src/compute/kernel.cpp:168-201 | the parts visited, in the branches' order, are exactly the allowed combinations, without repeats |
| DispatchPlan.AxisCover | src/compute/kernel.cpp:144-154 | along one axis the whole groups run [0, full) and the leftover group runs [full, global) |
| DispatchPlan.CornerCovers | src/compute/kernel.cpp:168-201 | a launch for one part of the box runs exactly the points of that part |
| DispatchPlan.IntendedPlanTiles | src/compute/kernel.cpp:139-201 | with the xyz offset at (full_x, full_y, full_z) the launches run every point of the global box exactly once and nothing outside it |
| DispatchPlan.PlanIsIntendedUnlessXyz | src/compute/kernel.cpp:168-201 | the launches as written equal the intended ones whenever the xyz launch is not issued or full_x equals full_y |
| DispatchPlan.PlanMissesCorner | src/compute/kernel.cpp:177 | as written, a 20 x 40 x 3 dispatch with 16 x 16 x 2 groups never runs the in-range invocation (16, 32, 2) |
| ExrOutput.Filename | src/outputs/exr.cpp:102-110 | the intended rule: the file meant for a frame is the path's directory, its stem, "_", the decimal frame counter and ".exr" |
| ExrOutput.FilenameAsWrittenCollides | src/outputs/exr.cpp:105-107 | as written, a file name "s.v.x" whose stem holds a dot loses the counter at the second `replace_extension`, so every frame is written to "s.exr" |
| ExrOutput.FilenameDistinct | src/outputs/exr.cpp:97-110 | distinct frame counters give distinct file names, so no frame overwrites another |
| ExrOutput.FilenameAgrees | src/outputs/exr.cpp:102-110 | for a non-empty stem without dots the code as written produces the intended name |
| ExrOutput.ExrOutput.constructor | src/outputs/exr.cpp:18-24 | a new node holds its path parameter, a zero frame counter and has written nothing |
| ExrOutput.ExrOutput.Init | src/outputs/exr.cpp:49-53 | `init` fails with "No path provided to exr node." exactly when the path is shorter than three characters |
| ExrOutput.ExrOutput.Execute | src/outputs/exr.cpp:76-100 | only an Execution run writes one file, named as `_filename` is written for the current counter, and advances the 32-bit counter with wrap-around; any other run writes nothing |
| FfmpegInputs.Wrap32 | src/inputs/ffmpeg.cpp:95-98 | storing into the `uint32_t` frame count keeps the value modulo 2^32, unchanged when it already fits |
| FfmpegInputs.ToInt32 | src/inputs/ffmpeg.cpp:101 | converting the count to the parameter's `int` keeps it when it is at most 2^31 - 1 and wraps it into the int32 range otherwise |
| FfmpegInputs.CDiv | src/inputs/ffmpeg.cpp:98 | C++ division truncates toward zero: it agrees with floor division for non-negative operands and has the sign of the operands' product |
| FfmpegInputs.CRem | src/inputs/ffmpeg.cpp:95 | C++ remainder agrees with the mathematical remainder for non-negative operands |
| FfmpegInputs.FrameCount | src/inputs/ffmpeg.cpp:95-99 | the frame count is nb_frames + 1 rounded down to even when that is non-zero, else the duration times the frame rate in whole frames, always below 2^32 |
| FfmpegInputs.EvenFramesRounding | src/inputs/ffmpeg.cpp:95 | for a header count that fits, the rounded count is even, nb_frames or one more, and zero exactly for an empty header |
| FfmpegInputs.TotalParamPositive | src/inputs/ffmpeg.cpp:101 | the forced total is the frame count when there is one and 100 otherwise, so always positive |
| FfmpegInputs.ScrubTargetBounds | src/inputs/ffmpeg.cpp:253-260 | `scrub` keeps an index in [0, total] (including total itself), sends one above the total to total - 1 when the header gave a count, and sends a negative one to 0 |
| FfmpegInputs.ClampedTranslationScrubs | src/inputs/ffmpeg.cpp:124 | after the clamped translation `update` uses when the header gave a count, `scrub` moves to exactly the translated index |
| FfmpegInputs.SeekPosNonNegative | src/inputs/ffmpeg.cpp:268-281 | with a positive time base and a non-negative frame rate the seek position is defined and non-negative, so "uh oh" is thrown only for a negative header rational |
| FfmpegInputs.ScrubSettles | src/inputs/ffmpeg.cpp:253-294 | a successful scrub lands on the clamped target with decoding pending unless nothing moved, and scrubbing again to the same index changes nothing |
| FfmpegInputs.ScrubSeeksOnlyOnJumps | src/inputs/ffmpeg.cpp:262-294 | a step of one frame sets decode-next without seeking; any other move seeks to the frame's position, clears end-of-stream, or fails with the source's exception when the seek is refused or the position negative |
| FfmpegInputs.Zeroes | src/inputs/ffmpeg.cpp:129 | the blanked buffer has the buffer's size and every byte 0 |
| FfmpegInputs.BlankReportedOnce | src/inputs/ffmpeg.cpp:126-135 | outside the block the buffer is zeroed and a change is reported exactly when the previous frame was not blanked, so a second out-of-block frame reports nothing |
| FfmpegInputs.InBlockClearsFlags | src/inputs/ffmpeg.cpp:136-143 | inside the block the blank and forced-scrub flags end cleared, and with nothing pending, no forced scrub and no parameter change no change is reported |
| FfmpegInputs.DecodeOutcomes | src/inputs/ffmpeg.cpp:146-216 | a decoded picture replaces the buffer, clears decode-next and reports a change; the end of the stream reports no change and leaves decode-next and the target timestamp as the scrub set them |
| FfmpegInputs.Ffmpeg.Init | src/inputs/ffmpeg.cpp:95-114 | `init` sets the frame count from the header, forces the total parameter to it (100 without a count) and resets the current frame to 0, leaving the playback flags alone |
| FfmpegInputs.Ffmpeg.Scrub | src/inputs/ffmpeg.cpp:253-294 | `scrub` changes the playback state exactly as `Scrubbed` says and, when it throws, leaves the whole state unchanged |
| FfmpegInputs.Ffmpeg.Update | src/inputs/ffmpeg.cpp:120-234 | `update` returns and leaves exactly what `Updated` gives for the call's parameters and decode outcome |
| FfmpegLoop.MarkersUpTo | src/compute/ffmpeg_loop.cpp:196-201 | the positions of 0x01 among the first n bytes are listed ascending, each a 0x01 byte, none missing |
| FfmpegLoop.Markers | src/compute/ffmpeg_loop.cpp:196-201 | the marker list holds exactly the positions of the packet's 0x01 bytes, ascending |
| FfmpegLoop.FindMarkers | src/compute/ffmpeg_loop.cpp:196-201 | the search loop returns exactly the packet's marker list |
| FfmpegLoop.SpanBetweenMarkers | src/compute/ffmpeg_loop.cpp:213-221 | a blanked stretch starts just after its marker, stays inside the packet before its last byte and before the byte preceding the next marker, and holds no 0x01 byte |
| FfmpegLoop.BlankOnce | src/compute/ffmpeg_loop.cpp:213-221 | one blanking keeps the size, the markers and the last byte and only turns non-marker bytes into 0 |
| FfmpegLoop.BlankAll | src/compute/ffmpeg_loop.cpp:210-222 | any run of blankings keeps the size, the markers and the last byte and only turns non-marker bytes into 0 |
| FfmpegLoop.BlankAllStep | src/compute/ffmpeg_loop.cpp:210-222 | each drawn index blanks the packet as damaged so far |
| FfmpegLoop.ZeroedIsBlankOnce | src/compute/ffmpeg_loop.cpp:217-220 | zeroing exactly the stretch computed for a marker is that marker's blanking |
| FfmpegLoop.BlankingKeepsMarkers | src/compute/ffmpeg_loop.cpp:194-222 | after all blankings the packet has the same size, the same 0x01 bytes and so the same markers as before |
| FfmpegLoop.MarkersUnique | src/compute/ffmpeg_loop.cpp:196-201 | a packet's bytes determine its marker list |
| FfmpegLoop.AscendingSameElements | src/compute/ffmpeg_loop.cpp:196-201 | two strictly ascending lists with the same elements are equal |
| FfmpegLoop.ZeroSpan | src/compute/ffmpeg_loop.cpp:217-247 | `memset` zeroes exactly the given stretch and leaves every other byte |
| FfmpegLoop.BlankMarker | src/compute/ffmpeg_loop.cpp:211-221 | one iteration of the blanking loop changes the packet exactly as `BlankOnce` says |
| FfmpegLoop.BlankPacket | src/compute/ffmpeg_loop.cpp:194-222 | for one packet, finding markers and blanking the drawn ones in order leaves exactly `BlankAll` of the original bytes |
| FfmpegLoop.HalfOffsets | src/compute/ffmpeg_loop.cpp:259-262 | for even sizes the C offsets j*w/2, w*h*5/4 and the buffer size w*h*3/2 are those of packed half-size chroma planes |
| FfmpegLoop.RowFits | src/compute/ffmpeg_loop.cpp:258-264 | line r of n lines of a given stride, partly used, lies inside the n lines |
| FfmpegLoop.RowBounds | src/compute/ffmpeg_loop.cpp:258-264 | every source line read and destination line written for row j lies inside its buffer |
| FfmpegLoop.CopyLine | src/compute/ffmpeg_loop.cpp:259-262 | `memcpy` of a line puts the plane's bytes at the destination range and keeps every other byte |
| FfmpegLoop.CopyRow | src/compute/ffmpeg_loop.cpp:258-264 | one row of the copy keeps the buffer's size |
| FfmpegLoop.CopiedRows | src/compute/ffmpeg_loop.cpp:258-264 | after rows 0 .. n-1 each byte comes from the last row whose luma, U or V line covers it, else it is as before |
| FfmpegLoop.CopyRowStep | src/compute/ffmpeg_loop.cpp:258-264 | copying row j onto the first j rows gives the first j + 1 rows |
| FfmpegLoop.LumaAt | src/compute/ffmpeg_loop.cpp:259 | luma pixel (j, x) lands at j * w + x: the Y plane is packed row by row without its stride padding |
| FfmpegLoop.ChromaUAt | src/compute/ffmpeg_loop.cpp:261 | U pixel (j, x) lands at w*h + j*(w/2) + x: the U plane follows Y at half width |
| FfmpegLoop.ChromaVAt | src/compute/ffmpeg_loop.cpp:262 | V pixel (j, x) lands at w*h + (w/2)*(h/2) + j*(w/2) + x: the V plane follows U at half width |
| FfmpegLoop.TailKept | src/compute/ffmpeg_loop.cpp:247-264 | bytes past the three planes are never written by the copy |
| FfmpegLoop.Zeroes | src/compute/ffmpeg_loop.cpp:247 | the cleared buffer has its size and every byte 0 |
| FfmpegLoop.CopyBytes | src/compute/ffmpeg_loop.cpp:259-262 | the in-place `memcpy` leaves exactly `CopyLine` of the old buffer |
| FfmpegLoop.CopyFrameRow | src/compute/ffmpeg_loop.cpp:259-263 | one iteration of the copy loop, at the C offsets, leaves exactly `CopyRow` of the old buffer |
| FfmpegLoop.CopyFrame | src/compute/ffmpeg_loop.cpp:247-268 | the upload buffer is cleared, then, when a frame was received, holds all rows copied; otherwise it stays cleared |
| Images.SrcAccess | src/image.cpp:226-275 | leaving a layout waits for its writes (or reads): none from UNDEFINED, host writes from PREINITIALIZED, transfer reads from TRANSFER_SRC, transfer writes from TRANSFER_DST, and nothing for a layout the table does not list |
| Images.DstAccess | src/image.cpp:279-316 | entering TRANSFER_DST needs transfer writes, TRANSFER_SRC transfer reads, SHADER_READ_ONLY shader reads, and an unlisted layout nothing |
| Images.Transition | src/image.cpp:203-329 | `set_layout` records one barrier for the image from the old to the new layout with those masks, except that entering SHADER_READ_ONLY with nothing to wait for waits for host and transfer writes |
| Images.TrailAppend | src/image.cpp:203-329 | replaying one more command continues from the layout reached so far |
| Images.CopyStepsDst | src/image.cpp:85-114 | the image-to-image copy's commands are consistent for the destination and leave it back in its layout, or in TRANSFER_DST when it started UNDEFINED or PREINITIALIZED |
| Images.CopyStepsSrc | src/image.cpp:85-114 | the same copy is consistent for the source image and leaves it back in its layout, or in TRANSFER_SRC when it started UNDEFINED or PREINITIALIZED |
| Images.UploadStepsTrail | src/image.cpp:116-147 | the buffer-to-image copy is consistent for the image and leaves it back in its layout, or in TRANSFER_DST |
| Images.SizeInMemory | src/image.hpp:26-34 | 16 bytes a pixel for four 32-bit floats, otherwise one byte a pixel |
| Images.Clamp | src/image.hpp:57-58 | `std::clamp` lands in [lo, hi] and keeps a value already inside |
| Images.CommandBuffer.constructor | src/image.hpp:60 | a fresh command buffer has no commands recorded |
| Images.Image.constructor | src/image.hpp:18-139 | a new image is unallocated and has no UI descriptor set |
| Images.Image.CreateImage | src/image.cpp:19-41 | `create_image` records format and size and starts the image UNDEFINED |
| Images.Image.SizeInMemoryOf | src/image.hpp:36 | the member form gives the static size for the image's own size and format |
| Images.Image.SetLayout | src/image.cpp:203-329 | `set_layout` appends exactly the transition barrier and takes the new layout, changing nothing else |
| Images.Image.BarrierInfo | src/image.cpp:167-188 | `barrier_info` keeps the current layout and orders shader reads and writes on both sides |
| Images.Image.Copy | src/image.cpp:85-114 | the image-to-image copy appends exactly its transitions and copy, and both images end where `Restored` says |
| Images.Image.CopyFromBuffer | src/image.cpp:116-147 | the buffer-to-image copy appends exactly its transitions and copy, and the image ends where `Restored` says |
| Images.Image.Sample | src/image.hpp:52-75 | an unallocated image yields the default value and keeps its layout; otherwise the texel at the location clamped into the image is read and the image is left GENERAL |
| Images.Image.UiDescSet | src/image.hpp:97-103 | the first call registers the image as a UI texture in its current layout; later calls return the same set and register nothing |
| ImageDownloader.DispatchesFollowKernels | src/outputs/image_downloader.cpp:67-78 | `commands` dispatches every kernel of the output format exactly once, in order, and nothing else |
| ImageDownloader.YuvDispatchCover | src/outputs/image_downloader.cpp:74-77 | for 4:2:0 the luma pass covers the width four pixels per invocation and each chroma pass eight, up to the remainder, all over the full height |
| ImageDownloader.CommandPlanCopiesBuffer | src/outputs/image_downloader.cpp:67-83 | after the dispatches comes exactly one staging copy of the whole buffer, between two barriers |
| ImageDownloader.InitPushArgsTargets | src/outputs/image_downloader.cpp:20-53 | `init` sets push arguments only on the format's kernels: "_size" = (w, h) on each 4:2:0 kernel, "_srgb" = 1 on the 8-bit kernels, nothing for half |
| ImageDownloader.BufferSizeBounds | src/outputs/image_downloader.cpp:57-65 | the buffer is 8 bytes a pixel for half, 4 for the 8-bit formats and 1.5 truncated for 4:2:0 |
| ImageDownloader.ImageDownloader.constructor | src/outputs/image_downloader.hpp:46-50 | a new downloader is 1 x 1, yuv420p, with nothing bound or recorded |
| ImageDownloader.ImageDownloader.Init | src/outputs/image_downloader.cpp:6-55 | `init` records size and format, binds slot 0 of each of the format's kernels to the image and slot 1 to the GPU buffer, sets the format's push arguments and leaves other kernels alone |
| ImageDownloader.ImageDownloader.Commands | src/outputs/image_downloader.cpp:67-83 | `commands` appends exactly the plan for the recorded size and format and changes nothing else |
| ImageUploader.KernelForInjective | src/inputs/image_uploader.cpp:22-45 | each input format creates its own kernel, so the kernel identifies the format |
| ImageUploader.BufferSizeBounds | src/inputs/image_uploader.cpp:58-68 | the 16-bit formats need 8 bytes a pixel; the 4:2:0 buffer is 1.5 bytes a pixel truncated, at least the luma plane |
| ImageUploader.OutputFormatInjective | src/inputs/image_uploader.cpp:70-76 | the two output formats map to the two distinct four-channel float formats |
| ImageUploader.CommandPlanShape | src/inputs/image_uploader.cpp:78-91 | `commands` copies exactly the buffer once, first, and dispatches the format's kernel once over the full size, last |
| ImageUploader.ImageUploader.constructor | src/inputs/image_uploader.hpp:74-79 | a new uploader is 1 x 1, yuv420p in and float32 out, with no kernel and nothing recorded |
| ImageUploader.ImageUploader.Init | src/inputs/image_uploader.cpp:6-46 | `init` records size and formats, creates the one kernel of the input format and binds its slot 0 to the GPU buffer and slot 1 to the output image |
| ImageUploader.ImageUploader.Commands | src/inputs/image_uploader.cpp:78-91 | `commands` appends exactly the plan for the recorded size and format and changes nothing else |
| ImmediateExr.FormatChoice | src/outputs/immediate_exr.cpp:19-28 | only EXR is downloaded as half floats, PNG and JPG as 8-bit RGBX, and the three extensions are plain and tell the formats apart |
| ImmediateExr.AsWrittenLoopNeverExits | src/outputs/immediate_exr.cpp:35-44 | as written, for a file name "s.v.x" every numbered candidate is "s.ext", so once "s.v.ext" and "s.ext" both exist the loop never finds a free name |
| ImmediateExr.CandidatesDistinct | src/outputs/immediate_exr.cpp:35-44 | the intended candidates base.ext, stem_1.ext, stem_2.ext, ... are pairwise distinct |
| ImmediateExr.CandidateAgrees | src/outputs/immediate_exr.cpp:40-42 | for a non-empty stem without dots the loop as written tries the intended names |
| ImmediateExr.ExportPath | src/outputs/immediate_exr.cpp:35-94 | with the intended numbered candidates, the naming loop ends and returns a path that does not exist, the first candidate in order that does not, every earlier one existing |
| Kernels.FirstNamed | src/compute/kernel.cpp:34-69 | for a member name, the position of the first member carrying it, with no earlier member of that name |
| Kernels.Wrap32 | src/compute/kernel.cpp:128 | the `int32_t` sum of the base offset and a launch offset wraps into the int32 range and is unchanged when it fits |
| Kernels.IVec4Value | src/compute/kernel.cpp:126-132 | the offset pushed as `vkd_offset` is a well-typed ivec4 value |
| Kernels.PushStep | src/compute/kernel.hpp:82-100 | `set_push_arg` never touches the pipeline cache |
| Kernels.ParamPushes | src/compute/kernel.cpp:156-161 | the parameter loop of `dispatch` never touches the pipeline cache |
| Kernels.OffsetPush | src/compute/kernel.cpp:126-132 | pushing an execution offset never touches the pipeline cache |
| Kernels.PushStepBehind | src/compute/kernel.hpp:82-100 | a push records the same whatever was recorded before it |
| Kernels.OffsetPushBehind | src/compute/kernel.cpp:126-132 | an offset push records the same whatever was recorded before it |
| Kernels.OverflowStepBehind | src/compute/kernel.cpp:223-280 | `_dispatch_overflow` records the same whatever was recorded before it |
| Kernels.LaunchStepBehind | src/compute/kernel.cpp:168-201 | one overflow launch records the same whatever was recorded before it |
| Kernels.ParamPushesBehind | src/compute/kernel.cpp:156-161 | the parameter loop records the same whatever was recorded before it |
| Kernels.OverflowLaunchesBehind | src/compute/kernel.cpp:168-201 | the overflow launches record the same whatever was recorded before them |
| Kernels.OverflowLaunchesNext | src/compute/kernel.cpp:168-201 | the overflow launches run one after another, each from where the previous left off |
| Kernels.OverflowLaunchesStuck | src/compute/kernel.cpp:168-201 | once an exception has been thrown no overflow launch records anything |
| Kernels.ParamPushesStuck | src/compute/kernel.cpp:156-161 | an exception in a parameter push ends the loop: later parameters record nothing |
| Kernels.OverflowLaunchesStuckAt | src/compute/kernel.cpp:168-201 | an exception in one overflow launch ends the dispatch: later launches record nothing |
| Kernels.DispatchWithStuck | src/compute/kernel.cpp:156-166 | when a parameter push or the base offset push throws, `dispatch` records nothing after it, not even the main launch |
| Kernels.DispatchedAppend | src/compute/kernel.cpp:166 | the dispatches recorded by two stretches of commands are those of the first, then those of the second |
| Kernels.DispatchedOne | src/compute/kernel.cpp:166 | a single command contributes its group count exactly when it is a dispatch |
| Kernels.OverflowLaunchPartial | src/compute/kernel.cpp:168-201 | every overflow launch of the plan has positive sizes and differs from the local size on some axis, so `_dispatch_overflow` never takes its early return |
| Kernels.PlanPartial | src/compute/kernel.cpp:168-201 | all overflow launches of the plan are partial in that sense |
| Kernels.OffsetPushDispatches | src/compute/kernel.cpp:126-132 | pushing an offset never records a dispatch and cannot clear an earlier exception |
| Kernels.OverflowStepDispatch | src/compute/kernel.cpp:223-280 | a partial overflow step that throws nothing dispatches exactly its group count |
| Kernels.OverflowLaunchesDispatch | src/compute/kernel.cpp:168-201 | overflow launches that complete dispatch exactly their group counts, in order |
| Kernels.ParamPushesNoDispatch | src/compute/kernel.cpp:156-161 | the parameter pushes record no dispatch |
| Kernels.PushesDispatchNothing | src/compute/kernel.cpp:140-164 | binding the full pipeline and pushing the parameters and the base offset dispatch nothing |
| Kernels.CountsFirst | src/compute/kernel.cpp:166-201 | the group counts of a plan are the main launch's followed by the overflow launches' |
| Kernels.DispatchWithFollows | src/compute/kernel.cpp:139-201 | a dispatch over any plan of partial overflow launches that completes records exactly the plan's group counts after what was dispatched before |
| Kernels.DispatchFollowsPlan | src/compute/kernel.cpp:139-201 | a `dispatch` that completes launches exactly the split plan: the main launch's groups, then every overflow launch's, in the source's order |
| Kernels.DispatchWithBehind | src/compute/kernel.cpp:139-221 | a dispatch records the same whatever was recorded before it |
| Kernels.PushStepInBlock | src/compute/kernel.hpp:82-100 | a recorded push is non-empty and lies inside the push-constant block; it throws exactly when the block is non-empty and the range overruns it or is empty |
| Kernels.OverflowStepCaches | src/compute/kernel.cpp:223-275 | a partial pipeline is rebuilt only for new sizes: afterwards its cache holds the size, other caches are untouched, and a second launch of the same size rebuilds nothing |
| Kernels.ParamFor | src/compute/kernel.cpp:35-64 | the switch of `init` makes a fresh valid parameter of the member's type, name and offset for the nine numeric types and null for any other |
| Kernels.EmplaceParams | src/compute/kernel.cpp:34-69 | each name maps to the parameter made for its first member, every one valid, and the public map holds exactly the entries whose names start with neither "_" nor "vkd_" |
| Kernels.Emplace | src/compute/kernel.cpp:65-67 | `std::map::emplace` adds the key, stores the value only for a new key and keeps every existing entry |
| Kernels.PublicPartEmplace | src/compute/kernel.cpp:65-68 | emplacing into both maps, the public one only for a public name, keeps the public map the public part of the full one |
| Kernels.FirstOfEachIsFirst | src/compute/kernel.cpp:34-69 | emplacing the members in order keeps exactly the member names, each with its first member |
| Kernels.ViewsOf | src/compute/kernel.cpp:156-161 | the parameter loop sees, in order, what each named parameter would push |
| Kernels.Kernel.constructor | src/compute/kernel.hpp:161-170 | a new kernel has no parameters, no arguments (with the changed flag set), no descriptor set, no push-constant block and nothing recorded |
| Kernels.Kernel.CreatePipeline | src/compute/kernel.cpp:74-86 | `_create_pipeline` throws for a size below 1 on any axis and otherwise caches the pipeline under these sizes |
| Kernels.Kernel.Init | src/compute/kernel.cpp:28-72 | `init` takes the last push-constant range's size and the local sizes, makes one parameter per member name (first member wins), fills the public map, and builds the full pipeline, failing exactly for a non-positive local size |
| Kernels.Kernel.GetParamByName | src/compute/kernel.hpp:49-55 | `get_param_by_name` returns the parameter stored under the name, or null when there is none |
| Kernels.Kernel.SetPushArgByName | src/compute/kernel.hpp:57-66 | an unknown name changes nothing and gives false; otherwise the value is force-set, marking the parameter changed, and gives true; a value of another type throws |
| Kernels.Kernel.SetPushArg | src/compute/kernel.hpp:82-100 | `set_push_arg` records exactly what `PushStep` gives and throws exactly when it does |
| Kernels.Kernel.SetPushArgByNameOn | src/compute/kernel.hpp:68-80 | as without a command buffer, and then with one the parameter is pushed as `PushStep` says |
| Kernels.Kernel.PushExecutionOffset | src/compute/kernel.cpp:126-132 | `_push_execution_offset` pushes the base offset plus the given offset as `vkd_offset`, as `OffsetPush` says |
| Kernels.Kernel.DispatchOverflow | src/compute/kernel.cpp:223-280 | `_dispatch_overflow` records and caches exactly what `OverflowStep` gives |
| Kernels.Kernel.PushParams | src/compute/kernel.cpp:156-161 | the parameter loop records exactly what `ParamPushes` gives |
| Kernels.Kernel.OverflowLaunch | src/compute/kernel.cpp:169-170 | one overflow launch pushes its offset and runs `_dispatch_overflow`, as `LaunchStep` says |
| Kernels.Kernel.OverflowLaunchLoop | src/compute/kernel.cpp:168-201 | the overflow part records and caches exactly what `OverflowLaunches` gives |
| Kernels.Kernel.Dispatch | src/compute/kernel.cpp:139-221 | `dispatch` records, caches and throws exactly as `DispatchSpec` says for the split plan of the global size |
| Kernels.Kernel.RecordDispatch | src/compute/kernel.cpp:139-221 | the recording part of `dispatch`, for any order of parameter names, is exactly `DispatchSpec` |
| Kernels.Kernel.SetArg | src/compute/kernel.cpp:88-96 | `set_arg` stores the buffer or image at the index and sets the changed flag; nothing else changes |
| Kernels.Kernel.SetOffset | src/compute/kernel.cpp:98-103 | `set_offset` sets the base offset and nothing else |
| Kernels.Kernel.Update | src/compute/kernel.cpp:105-119 | `update` rebuilds the descriptor set from the arguments in index order only when an argument changed, then clears the flag; nothing else changes |
| LegacyNodes.Push | src/ui/nodes.cpp:256 | pushing a link id onto a node's list keeps the node |
| LegacyNodes.Grow | src/ui/nodes.cpp:263-268 | growing the display node keeps it |
| LegacyNodes.AddPins | src/ui/nodes.cpp:344-352 | `_pins(count)` hands out `count` consecutive pins (none for a count below one), each owned by the next node id, and changes nothing else |
| LegacyNodes.SamePinsKeep | src/ui/nodes.cpp:249-277 | changing only link lists keeps every pin owned and below the pin counter |
| LegacyNodes.PushKeeps | src/ui/nodes.cpp:256 | a push appends the id to that node's list only |
| LegacyNodes.GrowKeepsPins | src/ui/nodes.cpp:263-268 | the display pin grown keeps pins owned and below the counter and keeps every other pin, output and link list |
| LegacyNodes.LinkStartNode | src/ui/nodes.cpp:251-258 | the start side of `_add_link` appends the id to the list of the start pin's owner only |
| LegacyNodes.LinkEndNode | src/ui/nodes.cpp:259-272 | the end side appends the id (twice as written) to the end pin's owner, which gains a fresh input exactly when it is the display node and its links, after the first push, are as many as its inputs |
| LegacyNodes.LinkedWithNode | src/ui/nodes.cpp:249-277 | `_add_link` changes each node's link list and inputs only as its start and end sides say, and never its outputs |
| LegacyNodes.ExtendsTrans | src/ui/nodes.cpp:249-277 | extending the pin ownership is transitive |
| LegacyNodes.LinkStartKeepsPins | src/ui/nodes.cpp:251-258 | the start side keeps the pin invariant and the links map |
| LegacyNodes.LinkEndKeepsPins | src/ui/nodes.cpp:259-272 | the end side keeps the pin invariant and the links map |
| LegacyNodes.LinkedWithKeepsPins | src/ui/nodes.cpp:249-277 | `_add_link` keeps the pin invariant, emplaces the link under the counter when that id is free (and keeps the map otherwise) and advances the counter by one |
| LegacyNodes.AddLinkKeepsValid | src/ui/nodes.cpp:249-277 | adding a link keeps the whole window invariant, both as written (the end node recording the id twice) and recording it once |
| LegacyNodes.AddLinkAsWrittenRecords | src/ui/nodes.cpp:249-277 | as written, the start node records the new id once and the end node twice |
| LegacyNodes.AddLinkRecords | src/ui/nodes.cpp:249-277 | recording once, the start and end nodes each record the new id once |
| LegacyNodes.AddLinkKeepsSpare | src/ui/nodes.cpp:259-272 | recording once, the display node always keeps a free input: each link into it adds exactly one pin |
| LegacyNodes.AsWrittenDisplayStalls | src/ui/nodes.cpp:259-272 | as written, the first link into the display node grows it once and from then on it never grows again |
| LegacyNodes.SourcesOfOne | src/ui/nodes.cpp:384-397 | `build_nodes` queues a link's source once per time the link id is recorded |
| LegacyNodes.SourcesOfNewLinkAsWritten | src/ui/nodes.cpp:249-277 | as written, one new link into a node makes `build_nodes` queue its source twice |
| LegacyNodes.SourcesOfNewLink | src/ui/nodes.cpp:249-277 | recording once, the same link queues its source once |
| LegacyNodes.DestroyThenDelete | src/ui/nodes.cpp:144-179 | destroying a link leaves the node lists, keeps the invariant, and commutes with deleting a node |
| LegacyNodes.DeleteNodeKeepsValid | src/ui/nodes.cpp:163-179 | deleting a node keeps the invariant, removes the node, and resets the last added output exactly when it was one of the node's outputs |
| LegacyNodes.DeleteNodeAsWrittenDangles | src/ui/nodes.cpp:164-166 | as written, deleting the node owning the last added output leaves that dead pin as the last added output |
| LegacyNodes.NewNodeFacts | src/ui/nodes.cpp:285-301 | the new node's pins are exactly the freshly allocated range, owned by the next node id, with no links, and all older pins keep their owners |
| LegacyNodes.EmplacedKeepsPins | src/ui/nodes.cpp:319 | emplacing the new node under the fresh node id keeps the pin invariant and every other field |
| LegacyNodes.LinkNewKeeps | src/ui/nodes.cpp:328-330 | linking the last added output into the new node's first input by `_add_link` as written keeps pins and link ids, and stores that link under the counter |
| LegacyNodes.LinkNewKeepsNode | src/ui/nodes.cpp:319-330 | the emplaced node keeps its pins through that link and only the new id is added to the node map |
| LegacyNodes.AddNodeKeepsValid | src/ui/nodes.cpp:285-340 | `_add_node` keeps the window invariant |
| LegacyNodes.AddNodeLinksPrevious | src/ui/nodes.cpp:285-340 | `_add_node` stores the new node under the node counter and advances it, links the previous last output into its first input, and makes its first output the last added one (or none) |
| LegacyNodes.InitialWindow | src/ui/nodes.cpp:47-51 | a new window holds only the display node, with one free input, and satisfies the invariant |
| LegacyNodes.AddInputKeepsValid | src/ui/nodes.cpp:66-77 | `add_input` keeps the window invariant |
| LegacyNodes.AddInputLinksDisplay | src/ui/nodes.cpp:66-77 | `add_input` links the new ffmpeg node's first output to the display node's last input |
| LegacyNodes.ElemsSnoc | src/ui/nodes.cpp:169-177 | the elements of a growing prefix, as the erase loops walk it |
| LegacyNodes.LegacyWindow.constructor | src/ui/nodes.cpp:47-51 | a new window is the empty state with the display node added under id 0 |
| LegacyNodes.LegacyWindow.NextPin | src/ui/nodes.cpp:354-358 | `next_pin_` returns the pin counter and advances it |
| LegacyNodes.LegacyWindow.Pins | src/ui/nodes.cpp:344-352 | `_pins` performs `AddPins` and returns the allocated range |
| LegacyNodes.LegacyWindow.LinkStartAt | src/ui/nodes.cpp:251-258 | the start side, in place |
| LegacyNodes.LegacyWindow.LinkEndAt | src/ui/nodes.cpp:259-272 | the end side in place: the end node records the id, the display node gains a pin when its links match its inputs, and the id is recorded a second time |
| LegacyNodes.LegacyWindow.AddLink | src/ui/nodes.cpp:249-277 | `_add_link` returns the old link counter and leaves the state `LinkedAsWritten` gives: the link stored under the counter, the start node recording it once and the end node twice |
| LegacyNodes.LegacyWindow.CreateLink | src/ui/nodes.cpp:148-160 | a created link is added as `_add_link` is written, and the graph is reported updated exactly when its end is a display input |
| LegacyNodes.LegacyWindow.DestroyLink | src/ui/nodes.cpp:143-146 | a destroyed link leaves `_links` only |
| LegacyNodes.LegacyWindow.NewNodeAt | src/ui/nodes.cpp:286-301 | builds the node and its pins as `NewNode` says |
| LegacyNodes.LegacyWindow.AddNode | src/ui/nodes.cpp:285-340 | `_add_node` returns the old node counter and leaves the state `Added` gives, the link into the new node made by `_add_link` as written |
| LegacyNodes.LegacyWindow.EmplaceAt | src/ui/nodes.cpp:319 | `std::map::emplace` of the node under the counter, keeping an existing entry |
| LegacyNodes.LegacyWindow.LinkNewAt | src/ui/nodes.cpp:328-330 | the link from the last added output into the new node, made in place by `_add_link` as written |
| LegacyNodes.LegacyWindow.AddInput | src/ui/nodes.cpp:66-77 | `add_input` leaves the state `InputAdded` gives, its links made by `_add_link` as written |
| LegacyNodes.LegacyWindow.EraseLinks | src/ui/nodes.cpp:169-171 | removes exactly the listed ids from `_links` |
| LegacyNodes.LegacyWindow.ErasePins | src/ui/nodes.cpp:172-177 | removes exactly the listed pins from `_pin_to_node` |
| LegacyNodes.LegacyWindow.DeleteNode | src/ui/nodes.cpp:163-179 | deleting the hovered node leaves the state `DeletedAsWritten` gives: the last added output is reset only when it equals the node id, then the node's links, pins and entry are erased |
| LegacyNodes.LegacyWindow.ScanLinks | src/ui/nodes.cpp:384-397 | the inner walk of `build_nodes` queues exactly `Sources` of the node's link list |
| FakeNodes.NodeNameInjective | src/graph/fake_node.hpp:21-22 | the node name `id + "_" + name` determines both the editor id and the given name |
| FakeNodes.NoUnderscoreInId | src/graph/fake_node.hpp:22 | a printed editor id holds no underscore |
| FakeNodes.SplitAtFirst | src/graph/fake_node.hpp:22 | two underscore-free prefixes followed by "_" and a rest are equal only when prefixes and rests are equal |
| FakeNodes.RealNode.constructor | src/graph/fake_node.cpp:33 | an engine node starts with its type and name and no inputs |
| FakeNodes.MakeReal | src/graph/fake_node.cpp:33-35 | `vkd::make` returns a fresh engine node of the type and name exactly when the factory knows the type |
| FakeNodes.FakeNode.constructor | src/graph/fake_node.hpp:21-26 | a stand-in is named `id_name`, keeps its type and id, and starts with no links, no engine node and no parameters; the display type is refused |
| FakeNodes.FakeNode.Flush | src/graph/fake_node.cpp:6-10 | `flush` clears this node's inputs and outputs and keeps its engine node and parameters |
| FakeNodes.FakeNode.AddInput | src/graph/fake_node.cpp:12-15 | `add_input(n)` appends `n` to this node's inputs and this node to `n`'s outputs, and changes nothing else |
| FakeNodes.FakeNode.AddOutput | src/graph/fake_node.cpp:17-19 | `add_output` appends to the outputs only |
| FakeNodes.FakeNode.SetParam | src/graph/fake_node.hpp:65-80 | `set_param` creates group "_" when missing, force-sets an existing parameter, and otherwise stores the cached parameter keyed by the node name and "path" with the value as default; other groups are untouched |
| FakeNodes.FakeNode.AddCachedParam | src/graph/fake_node.hpp:75-79 | the new-name branch stores under the name the cached parameter for (type, node name, "path"), now holding the value, creating it only when the cache lacks it |
| FakeNodes.FakeNode.PutParam | src/graph/fake_node.hpp:53-55 | writing `params()[group][name]` creates the group if missing and sets only that entry |
| FakeNodes.FakeNode.SetState | src/graph/fake_node.hpp:82 | `set_state` sets the state only |
| FakeNodes.FakeNode.SetRange | src/graph/fake_node.hpp:85 | `set_range` sets the range only |
| FakeNodes.FakeNode.SetSavedAs | src/graph/fake_node.hpp:89 | `set_saved_as` sets the saved name only |
| FakeNodes.FakeNode.SetParams | src/graph/fake_node.hpp:61-63 | `set_params` replaces the whole parameter map and nothing else |
| FakeNodes.NewFakeNode | src/graph/fake_node.hpp:21-26 | constructing a stand-in fails exactly for the display type and otherwise gives a fresh node with the composed name |
| FakeNodes.SetParamShares | src/graph/fake_node.hpp:75-79 | two new names set on one node share one parameter object, so the second value overwrites the first |
| FakeNodes.Graph.constructor | src/graph/fake_node.cpp:30 | a new graph has no nodes and no terminals |
| FakeNodes.Graph.Add | src/graph/graph.cpp:8-10 | `add` appends a node and keeps the terminals |
| FakeNodes.Graph.AddTerminal | src/graph/fake_node.cpp:48 | `add_terminal` appends a terminal and keeps the nodes |
| FakeNodes.MadeAppend | src/graph/fake_node.cpp:32-45 | the nodes made for a longer list are those made before, then the new one if any |
| FakeNodes.BakeOne | src/graph/fake_node.cpp:33-58 | one step of `bake`: an engine node is made exactly when the factory knows the type; it becomes the stand-in's engine node, gets the engine nodes of the stand-in's inputs in order, is added, and is a terminal exactly when the stand-in has no outputs; nothing changes otherwise |
| FakeNodes.MadeForAppend | src/graph/fake_node.cpp:32-60 | the made-for relation extends by one stand-in |
| FakeNodes.TerminalForAppend | src/graph/fake_node.cpp:47-48 | the terminal relation extends by one stand-in |
| FakeNodes.OutputCounts | src/graph/fake_node.cpp:47 | one output count per stand-in, in order |
| FakeNodes.BakeAll | src/graph/fake_node.cpp:29-65 | the loop of `bake` makes one engine node per stand-in of a known type, adds exactly those in order, marks as terminals only nodes it added, and leaves the stand-ins' links alone |
| FakeNodes.GraphBuilder.constructor | src/graph/fake_node.hpp:107 | a new builder holds no nodes |
| FakeNodes.GraphBuilder.Add | src/graph/fake_node.cpp:25-27 | `add` appends a stand-in |
| FakeNodes.GraphBuilder.Bake | src/graph/fake_node.cpp:29-65 | `bake` over the collected stand-ins, as `BakeAll` states |
| InitialInputs.InputTypeCases | src/ui/node_window.cpp:98-111 | the extension picks the node type ignoring case: .mp4/.mkv/.mov give ffmpeg, .exr gives exr, .raf gives raw, and any other extension is refused |
| InitialInputs.UpperCaseAccepted | src/ui/node_window.cpp:99 | upper-case spellings are accepted like lower-case ones |
| InitialInputs.InitialInputLinksDisplay | src/ui/node_window.cpp:101-121 | the new input node's first output is linked to the display node's last input, as the only link into that pin, and the editor stays valid |
| InitialInputs.AddedFacts | src/ui/node_window.cpp:101-113 | adding the input node keeps the editor valid, gives the new node an output and leaves the display node's inputs alone |
| InitialInputs.LinkIntoOwnedInput | src/ui/node_window.cpp:118-121 | linking into an owned input keeps the editor valid and makes the new link the only one into that input |
| MakeParam.MakeCached | src/make_param.hpp:35-49 | `make_param<T>(hash, name, offset, tags)` returns what the cache then holds under the key; a hit reuses the cached object, marked changed with the tags replaced; a miss caches a fresh parameter of the type with the name, offset and tags; no other entry changes |
| MakeParam.MakeCachedTwice | src/make_param.hpp:35-49 | two calls with the same type, hash and name return the same object, which keeps the first call's name, offset and type |
| MakeParam.NodeParams.constructor | src/make_param.hpp:56-57 | the node seen by the node overload starts with its hash name and no registered parameters |
| MakeParam.MakeForNode | src/make_param.hpp:55-60 | the node overload keys the cache by the node's hash name and registers the returned parameter at the back of the node's list |
| Memory.Count | src/memory/memory_manager.hpp:16-50 | adding or removing `sz` of one kind moves that kind's memory by `sz` and its count by one, and no other counter |
| Memory.RemoveUndoesAdd | src/memory/memory_manager.hpp:16-50 | removing a size undoes adding it, for every kind |
| Memory.DeviceUsedByKind | src/memory/memory_manager.hpp:66-69 | device memory used moves with device buffers and images and never with host buffers |
| Memory.MemoryManager.constructor | src/memory/memory_manager.hpp:52-59 | all six counters start at zero |
| Memory.MemoryManager.Add | src/memory/memory_manager.hpp:16-44 | `add_*` counts the size in as `Count` says |
| Memory.MemoryManager.Remove | src/memory/memory_manager.hpp:22-50 | `remove_*` counts the size out as `Count` says |
| Memory.MemoryManager.DeviceMemoryUsed | src/memory/memory_manager.hpp:66-69 | the device memory used is device buffers plus device images |
| Memory.ShiftedStep | src/memory.hpp:14 | shifting the mask one more time is one more right shift |
| Memory.FindMemoryIndex | src/memory.hpp:7-18 | `find_memory_index` returns the first memory type allowed by the mask with every desired property, and throws exactly when there is none |
| Memory.FirstReusable | src/memory/memory_pool.cpp:10-24 | the first pooled block, in pool order, of the same type and flags, no smaller than the request and less than 5000000 bytes larger; none when no block qualifies |
| Memory.AllocateSpec | src/memory/memory_pool.cpp:9-48 | `allocate` takes a reusable block out of the pool without charging anything, and otherwise records the new allocation with the request and charges device memory unless the flags are host-visible |
| Memory.AllocateSorted | src/memory/memory_pool.cpp:19 | taking a block out keeps the pool sorted by size |
| Memory.TrimSpec | src/memory/memory_pool.cpp:81-95 | `trim` only pops from the back and stops within the limit unless the pool ran out |
| Memory.TrimWithinLimit | src/memory/memory_pool.cpp:84 | a trim within the limit changes nothing |
| Memory.Insert | src/memory/memory_pool.cpp:56-57 | the pool after `push_back` and the sort by size holds one more block, led by the smallest |
| Memory.InsertPermutes | src/memory/memory_pool.cpp:56-57 | the sort adds exactly the new block |
| Memory.InsertSorted | src/memory/memory_pool.cpp:57 | the pool stays sorted by size |
| Memory.DeallocateSpec | src/memory/memory_pool.cpp:50-60 | `deallocate` succeeds exactly for a tracked handle, adds exactly that block to the pool, keeps it sorted, and changes nothing else |
| Memory.DestroyAfterAllocate | src/memory/memory_pool.cpp:9-48 | destroying a freshly allocated block restores the state before the allocation |
| Memory.MemoryPool.constructor | src/memory/memory_pool.hpp:36-40 | a new pool is empty, tracks nothing and is tied to its device's counters |
| Memory.MemoryPool.Allocate | src/memory/memory_pool.cpp:9-48 | `allocate` returns the handle and leaves the state `PoolAllocate` gives |
| Memory.MemoryPool.Deallocate | src/memory/memory_pool.cpp:50-60 | `deallocate` as `PoolDeallocate` says |
| Memory.MemoryPool.Destroy | src/memory/memory_pool.cpp:62-79 | `_destroy` keeps the pool and, for a tracked handle, uncharges its size and forgets it, as `PoolDestroy` says |
| Memory.MemoryPool.Trim | src/memory/memory_pool.cpp:81-95 | `trim` as `PoolTrim` says |
| NewClass.HeaderTextInjective | newclass.py:8-22 | the header starts with `#pragma once`, holds the class name at a fixed place, and so differs for different names |
| NewClass.ImplTextLower | newclass.py:31-35 | two implementation texts are equal exactly when the names agree in lower case |
| NewClass.PathsDiffer | newclass.py:5-28 | header and implementation paths never coincide |
| NewClass.RunFilesSpec | newclass.py:40-41 | a run keeps every existing file, adds exactly the two paths, and writes each template only where no file existed |
| NewClass.RunFilesIdempotent | newclass.py:40-41 | a second run with a name equal in lower case changes nothing |
| NewClass.Scaffold.constructor | newclass.py:1-2 | the script starts from the given files with nothing printed |
| NewClass.Scaffold.WriteHeader | newclass.py:4-25 | `write_header` writes the header only when absent and prints which case happened |
| NewClass.Scaffold.WriteImpl | newclass.py:27-38 | `write_impl` writes the implementation only when absent and prints which case happened |
| NewClass.Scaffold.Run | newclass.py:40-41 | the top level leaves the files `RunFiles` gives and prints the header line, then the implementation line |
| NodeBuild.Feed | src/ui/node_window.cpp:707-718 | one recorded link contributes at most one feeding node: the owner of its start pin, exactly when the link is known, ends at one of the node's inputs and its start pin has an owner |
| NodeBuild.IncomingOfSpec | src/ui/node_window.cpp:707-718 | a node is collected from a link list exactly when some link of the list feeds from it |
| NodeBuild.IncomingSpec | src/ui/node_window.cpp:707-718 | `j` is among the nodes feeding `k` exactly when a link `k` records is known, ends at one of `k`'s inputs and starts at a pin `j` owns |
| NodeBuild.NodesClosed | src/ui/node_window.cpp:691-722 | when every pin's owner exists, the existing nodes already hold every node feeding one of them |
| NodeBuild.FakesOf | src/ui/node_window.cpp:737-741 | one stand-in per id, in order |
| NodeBuild.ConsumersSpec | src/ui/node_window.cpp:733-741 | a built node gains a node as consumer exactly when that node is fed by it |
| NodeBuild.Grow | src/ui/node_window.cpp:740 | appending a stand-in at each entry of a list keeps the set of nodes |
| NodeBuild.GrowAt | src/ui/node_window.cpp:737-741 | each node gains the stand-in once per occurrence in the list |
| NodeBuild.InputsAfter | src/ui/node_window.cpp:733-741 | the second pass keeps the set of nodes whose inputs it tracks |
| NodeBuild.OutputsAfter | src/ui/node_window.cpp:733-741 | the second pass keeps the set of nodes whose outputs it tracks |
| NodeBuild.ParamsAfter | src/ui/node_window.cpp:743-744 | adding the block parameters keeps the set of nodes |
| NodeBuild.InputsAfterAt | src/ui/node_window.cpp:733-741 | each visited node's inputs gain the stand-ins of its feeding nodes, in order; other nodes keep theirs |
| NodeBuild.ParamsAfterAt | src/ui/node_window.cpp:743-744 | each visited node gets both block parameters in group "_"; other nodes keep their parameters |
| NodeBuild.OutputsAfterAt | src/ui/node_window.cpp:733-741 | each node's outputs gain the stand-ins of the nodes it feeds, in the order they are wired |
| NodeBuild.BlockParams | src/ui/node_window.cpp:678-727 | the two block parameters are the cached frame parameters keyed by the window name and id, force-set to the first block's start and end frame, and no other cache entry changes |
| NodeBuild.FlushAll | src/ui/node_window.cpp:729-731 | every built stand-in is flushed: no inputs, no outputs, parameters and ranges kept |
| NodeBuild.AddInputAt | src/ui/node_window.cpp:740 | one `add_input` appends to the consumer's inputs and to the producer's outputs only |
| NodeBuild.PutParamAt | src/ui/node_window.cpp:743-744 | writing one block parameter changes only that node's group "_" entry |
| NodeBuild.SetRangeAt | src/ui/node_window.cpp:746 | `set_range` changes only that node's range |
| NodeBuild.WireInputs | src/ui/node_window.cpp:737-741 | the inner loop gives the node the stand-ins of its feeding list as inputs, in order, and appends the node once to each feeding node's outputs per occurrence |
| NodeBuild.WireInputsStep | src/ui/node_window.cpp:737-741 | one more `add_input` extends both snapshots by one entry |
| NodeBuild.WireAll | src/ui/node_window.cpp:733-749 | the second pass hands the stand-ins to the builder in id order, wires all inputs and outputs, adds the block parameters and sets the range of every built node |
| NodeBuild.WireOne | src/ui/node_window.cpp:734-746 | the body for one node, short of the builder: inputs, outputs, block parameters and range |
| NodeBuild.WireNode | src/ui/node_window.cpp:734-748 | the body for one node, ending with `graph_builder.add` |
| NodeBuild.AddToBuilder | src/ui/node_window.cpp:748 | `add` appends the stand-in to the builder and touches no stand-in |
| NodeBuild.StepInputs | src/ui/node_window.cpp:733-741 | one more node in the second pass extends the inputs as its inner loop does |
| NodeBuild.StepOutputs | src/ui/node_window.cpp:733-741 | one more node in the second pass extends the outputs as its inner loop does |
| NodeBuild.StepParams | src/ui/node_window.cpp:743-744 | one more node in the second pass adds its block parameters |
| NodeBuild.FedFromBuilt | src/ui/node_window.cpp:691-738 | after a complete walk every node feeding a built node is built, so `node_map.at(inp)` always finds it |
| NodeBuild.WiredInputs | src/ui/node_window.cpp:729-741 | from flushed stand-ins, every built node ends with exactly the stand-ins of its feeding nodes as inputs |
| NodeBuild.WiredOutputs | src/ui/node_window.cpp:729-741 | from flushed stand-ins, every built node ends with exactly the stand-ins of the nodes it feeds as outputs |
| NodeBuild.WiredBuilt | src/ui/node_window.cpp:729-749 | the two passes leave the stand-ins wired as the graph says and handed to the builder in id order |
| NodeBuild.WiredParams | src/ui/node_window.cpp:743-744 | every built node ends with both block parameters |
| NodeBuild.WiredRanges | src/ui/node_window.cpp:746 | every built node ends with the window's range |
| NodeBuild.Expand | src/ui/node_window.cpp:707-718 | the link loop of one visit collects exactly the nodes feeding it, one per link |
| NodeBuild.ForcedStep | src/ui/node_window.cpp:714 | a node feeding a node the walk must reach is reached too |
| NodeBuild.DisplayForced | src/ui/node_window.cpp:685 | the walk starts at the display node |
| NodeBuild.VisitMaps | src/ui/node_window.cpp:697-716 | a visit adds the node's stand-in, if any, and its feeding list to the walk's maps |
| NodeBuild.VisitKeeps | src/ui/node_window.cpp:691-716 | a visit keeps every feeding node of a visited node visited or queued |
| NodeBuild.SkipKeeps | src/ui/node_window.cpp:697 | skipping an already visited node keeps that property |
| NodeBuild.VisitFaked | src/ui/node_window.cpp:714 | the feeding nodes queued by a visit have stand-ins |
| NodeBuild.WalkStart | src/ui/node_window.cpp:684-689 | the walk's invariant holds at the start, with the display node queued |
| NodeBuild.WalkVisit | src/ui/node_window.cpp:691-719 | visiting an unbuilt node keeps the invariant and grows the visited set by one, bounded by the node count |
| NodeBuild.WalkSkip | src/ui/node_window.cpp:697 | skipping a built node keeps the invariant |
| NodeBuild.WalkEnd | src/ui/node_window.cpp:691 | an empty queue leaves a closed visited set holding the display node |
| NodeBuild.WalkFail | src/ui/node_window.cpp:695 | `_nodes.at` throws only at an id the walk must reach that has no node, which cannot happen when every pin's owner and the display node exist |
| NodeBuild.MissingForced | src/ui/node_window.cpp:695-714 | a missing node the walk must reach shows a pin whose owner or the display node is missing |
| NodeBuild.Explore | src/ui/node_window.cpp:684-722 | the walk visits exactly nodes it must reach, records each one's stand-in and feeding list, ends with a closed set holding the display node, and fails only at a missing node |
| NodeBuild.FakeMapShape | src/ui/node_window.cpp:687-701 | the recorded stand-ins are distinct and belong to the editor |
| NodeBuild.WireBuilt | src/ui/node_window.cpp:724-749 | after the walk: the block parameters made, every stand-in flushed and wired as the graph says, given both block parameters and the block's range, and handed to the builder in id order |
| NodeBuild.FlushAndWire | src/ui/node_window.cpp:729-749 | the two passes over the built stand-ins, as `WireBuilt` states them |
| NodeBuild.BuildNodes | src/ui/node_window.cpp:677-753 | `build_nodes` reaches exactly the nodes feeding the display node, transitively; when it completes they are wired, given the block parameters and range and handed to the builder in id order; when it throws nothing has changed; with every pin's owner and the display node present it cannot throw |
| NodeLoad.PastIsLeast | src/ui/node_window.cpp:1202-1258 | the recomputed counter is the least value not below the saved counter that is above every id |
| NodeLoad.PastAdd | src/ui/node_window.cpp:1202-1257 | each step of the counter loops raises the counter to `id + 1` when it is below, in any order of ids |
| NodeLoad.SaveMapOfAdd | src/ui/node_window.cpp:1271-1274 | one more node adds its parameters exactly when it holds a stand-in |
| NodeLoad.RebuildAmongAdd | src/ui/node_window.cpp:1211 | the rebuild flag accumulates as a logical or over the nodes, in any order |
| NodeLoad.RebuildAmongEnds | src/ui/node_window.cpp:1199-1211 | the flag starts false and ends true exactly when some node read asks for a rebuild |
| NodeLoad.StandInsStep | src/ui/node_window.cpp:1201-1213 | one step of the node loop raises the node counter and the rebuild flag as the loop body does |
| NodeLoad.NamedAllAdd | src/ui/node_window.cpp:1203-1204 | giving a node the stand-in `load` gives it keeps every stand-in named after its node |
| NodeLoad.WithFakesAll | src/ui/node_window.cpp:1201-1213 | stand-ins given to every node are exactly what the nodes then hold |
| NodeLoad.StandInsAll | src/ui/node_window.cpp:1201-1213 | named stand-ins holding the saved parameters are what the node loop gives |
| NodeLoad.RecordEnd | src/ui/node_window.cpp:1226-1232 | the end side of the rebuild changes only node link indexes |
| NodeLoad.RebuildStep | src/ui/node_window.cpp:1217-1232 | one link of the rebuild changes only link indexes, never a node's type or stand-in |
| NodeLoad.Rebuilt | src/ui/node_window.cpp:1216-1233 | the rebuild over a list of links keeps the node set, types and stand-ins |
| NodeLoad.RebuiltOver | src/ui/node_window.cpp:1216-1233 | the rebuild over a set of links changes only the nodes |
| NodeLoad.RebuiltAdd | src/ui/node_window.cpp:1216 | rebuilding one more link with a larger id is one more step |
| NodeLoad.RebuiltOverSorted | src/ui/node_window.cpp:1216 | the rebuild over the link map walks its ids in ascending order |
| NodeLoad.RebuiltSnoc | src/ui/node_window.cpp:1216-1233 | one more link in the list is one more step |
| NodeLoad.RebuiltStepOver | src/ui/node_window.cpp:1216 | each step of the loop rebuilds the least link id left |
| NodeLoad.RecordEndAt | src/ui/node_window.cpp:1226-1232 | the end side records the link at its end pin in the owner only |
| NodeLoad.StepGrows | src/ui/node_window.cpp:1217-1232 | a rebuild step only adds to what each node records, except that a link into a pin replaces the earlier one there |
| NodeLoad.SameOwners | src/ui/node_window.cpp:1217-1218 | the owner of a pin does not depend on the nodes' link indexes |
| NodeLoad.StepKeepsRecords | src/ui/node_window.cpp:1217-1232 | a rebuild step keeps every earlier record, except the end record of a link into the same pin |
| NodeLoad.StepRecordsOwn | src/ui/node_window.cpp:1217-1232 | a rebuild step records its own link at both ends |
| NodeLoad.RebuiltRecords | src/ui/node_window.cpp:1216-1233 | after the rebuild every link is recorded by its start pin's owner, and by its end pin's owner when no later link ends at the same pin |
| NodeLoad.ResetExceptStep | src/ui/node_window.cpp:1235-1246 | one step of the flag loop resets one more node |
| NodeLoad.ResetExceptNone | src/ui/node_window.cpp:1235-1246 | with nothing left, every flag is reset |
| NodeLoad.Reset | src/ui/node_window.cpp:1235-1246 | the flag reset changes only the nodes' flags, never their stand-ins |
| NodeLoad.ExtendableAsAdded | src/ui/node_window.cpp:575-597 | the flag the reset gives a node is the one `_add_node` gave it |
| NodeLoad.RebuiltState | src/ui/node_window.cpp:1215-1247 | the rebuild changes only the nodes of the state read |
| NodeLoad.Loaded | src/ui/node_window.cpp:1169-1260 | `load` changes the state read only in its nodes and the link and pin counters |
| NodeLoad.Finished | src/ui/node_window.cpp:1215-1258 | the rebuild and counter steps keep every node's stand-in |
| NodeLoad.LoadedFinished | src/ui/node_window.cpp:1169-1260 | a load is the state read, with stand-ins, then rebuilt when a node asks for it, then given its counters |
| NodeLoad.LoadedFakes | src/ui/node_window.cpp:1201-1213 | after a load every node read holds the stand-in it was given |
| NodeLoad.LoadedCountersPast | src/ui/node_window.cpp:1180-1196 | a load keeps the maps read and every counter at least what was read and past every id in use |
| NodeLoad.LoadedKeepsIndexes | src/ui/node_window.cpp:1215 | without a rebuild request the nodes are the ones read, with their stand-ins |
| NodeLoad.ResetKeepsRecords | src/ui/node_window.cpp:1235-1246 | the flag reset keeps every link record |
| NodeLoad.CountersKeepRecords | src/ui/node_window.cpp:1253-1258 | the counters play no part in what a node records |
| NodeLoad.RebuiltInOrder | src/ui/node_window.cpp:1216-1233 | the rebuild records every link at its start, and at its end when it is the last link into that pin |
| NodeLoad.LoadedRebuildsLinks | src/ui/node_window.cpp:1215-1233 | after a load that rebuilds, every link is recorded at its start, and at its end when no later link ends there |
| NodeLoad.LoadedResetsExtendable | src/ui/node_window.cpp:1235-1246 | after a load that rebuilds, every node's extendable flag follows its type: a registered type with -1 inputs, or the display node |
| NodeLoad.ReadBackDecodes | src/ui/node_window.hpp:79-91 | each node read back is what decoding the saved node gives |
| NodeLoad.PastUnmoved | src/ui/node_window.cpp:1202-1258 | a counter already past every id does not move |
| NodeLoad.WithFakesOfKept | src/ui/node_window.hpp:79-91 | nodes read back and given stand-ins are the saved ones with those stand-ins and no pending rebuild |
| NodeLoad.ValidCountersAbove | src/ui/node_window.cpp:534-675 | in a valid editor every counter is past the ids it has handed out |
| NodeLoad.SaveLoadRoundTrip | src/ui/node_window.cpp:1169-1296 | saving an editor whose counters are past its ids and loading it back gives the same state, with new stand-ins and no pending rebuild |
| NodeWindows.ElemsSnoc | src/ui/node_window.cpp:303-314 | the elements of a growing prefix, as the erase loops walk it |
| NodeWindows.ElemsSorted | src/ui/node_window.cpp:303-314 | walking a set in ascending order visits exactly its elements |
| NodeWindows.MinusBoth | src/ui/node_window.cpp:306-314 | erasing the input pins, then the output pins, erases both sets |
| NodeWindows.RemoveLinksSnoc | src/ui/node_window.cpp:302-305 | removing the links of a longer list is one more `_remove_link` |
| NodeWindows.FirstUnused | src/ui/node_window.cpp:633-640 | the first output in ascending order with no link entry is the least unused output |
| NodeWindows.FirstUnusedOutput | src/ui/node_window.cpp:631-641 | the search over the selected node's outputs finds the least output with no outgoing link, or none |
| NodeWindows.FirstMissing | src/ui/node_window.cpp:633-640 | the scan stops at the first output with no entry, after only outputs that have one |
| NodeWindows.FirstUnusedAt | src/ui/node_window.cpp:633-640 | where the ascending scan stops decides the result: the least unused output, or none |
| NodeWindows.AllUsed | src/ui/node_window.cpp:633-640 | when every output has an entry, none is unused |
| NodeWindows.AdvancePast | src/ui/node_window.cpp:1202-1258 | the counter loops raise the counter to the least value not below it that is past every id |
| NodeWindows.StandIns | src/ui/node_window.cpp:1199-1213 | the node loop of `load` gives every non-display node a fresh stand-in named after it with its saved parameters, raises the node counter past every id, and notes whether a node asks for a rebuild |
| NodeWindows.StandInFor | src/ui/node_window.cpp:1203-1210 | a non-display node gets a fresh stand-in named after it, holding its saved parameters when there are any; the display node keeps its own |
| NodeWindows.NodeWindow.constructor | src/ui/node_window.cpp:62-89 | a new window is titled "node window" followed by `(name_id)` or its id, holds an empty sequencer line named "empty", and its graph is the display node added to the empty editor |
| NodeWindows.NodeWindow.NextPin | src/ui/node_window.cpp:671-675 | `next_pin_` returns the pin counter and advances it |
| NodeWindows.NodeWindow.Pins | src/ui/node_window.cpp:661-669 | `_pins` allocates the next `count` pins to the next node id and returns them |
| NodeWindows.NodeWindow.RemoveLink | src/ui/node_window.cpp:510-532 | `_remove_link` leaves the state `NodeGraph.RemoveLink` gives |
| NodeWindows.NodeWindow.LinkStartAt | src/ui/node_window.cpp:536-543 | the start side of `_add_link`, in place |
| NodeWindows.NodeWindow.ExtendAt | src/ui/node_window.cpp:554-560 | an extendable node with every input linked grows one fresh input, in place |
| NodeWindows.NodeWindow.LinkEndAt | src/ui/node_window.cpp:544-562 | the end side of `_add_link`, replacing the link into that input, in place |
| NodeWindows.NodeWindow.AddLink | src/ui/node_window.cpp:534-566 | `_add_link` returns the old link counter and leaves the state `NodeGraph.AddLink` gives |
| NodeWindows.NodeWindow.NewNodeAt | src/ui/node_window.cpp:576-597 | builds the new node's pins and, for a registered type, a fresh stand-in of that type |
| NodeWindows.NodeWindow.LinkNewAt | src/ui/node_window.cpp:625-647 | links the selected node's first free output, or else the last added output, into the new node's first input |
| NodeWindows.NodeWindow.AddNode | src/ui/node_window.cpp:575-659 | `_add_node` returns the old node counter and leaves the state `NodeGraph.AddNode` gives |
| NodeWindows.NodeWindow.EmplaceAt | src/ui/node_window.cpp:616 | `std::map::emplace` of the node under the counter |
| NodeWindows.NodeWindow.FinishAdd | src/ui/node_window.cpp:649-656 | the new node's first output, or none, becomes the last added output and the node counter advances |
| NodeWindows.NodeWindow.RemoveLinksAt | src/ui/node_window.cpp:302-305 | `_remove_link` on each id in turn |
| NodeWindows.NodeWindow.ForgetInputs | src/ui/node_window.cpp:306-308 | erases exactly the input pins from the owner map |
| NodeWindows.NodeWindow.ForgetOutputs | src/ui/node_window.cpp:309-314 | erases exactly the output pins and resets the last added output when it is one of them |
| NodeWindows.NodeWindow.ErasePinsAt | src/ui/node_window.cpp:306-314 | erases the node's pins as `NodeGraph.ErasePins` says |
| NodeWindows.NodeWindow.DeleteNode | src/ui/node_window.cpp:299-317 | deleting the hovered node leaves the state `NodeGraph.DeleteNode` gives |
| NodeWindows.NodeWindow.InitialInput | src/ui/node_window.cpp:94-127 | `initial_input` adds the node the path's extension calls for and links it to the display node, as `InitialInputGraph` says, and names the sequencer line after the path; an unknown extension changes nothing |
| NodeWindows.NodeWindow.Load | src/ui/node_window.cpp:1169-1260 | `load` throws for a version other than 0 and changes nothing; otherwise it leaves the state `NodeLoad.Loaded` gives, with the id and title read and every stand-in named after its node |
| NodeWindows.NodeWindow.Adopt | src/ui/node_window.cpp:1180-1196 | the fields read are copied into the window |
| NodeWindows.NodeWindow.FinishLoad | src/ui/node_window.cpp:1215-1258 | the rebuild when asked for, then the counters, as `NodeLoad.Finished` says |
| NodeWindows.NodeWindow.RebuildLinks | src/ui/node_window.cpp:1216-1233 | the rebuild loop over every link in id order, as `NodeLoad.RebuiltOver` says |
| NodeWindows.NodeWindow.ResetExtendable | src/ui/node_window.cpp:1235-1246 | the flag loop, as `NodeLoad.Reset` says |
| NodeWindows.NodeWindow.Save | src/ui/node_window.cpp:1263-1297 | `save` throws for a version other than 0 and otherwise writes the window's graph fields and the parameters of every stand-in |
| NodeGraph.SetMin | src/ui/node_window.cpp:636-650 | the first element a `std::set` iterates: a member no larger than any other |
| NodeGraph.Sorted | src/ui/node_window.cpp:1216-1235 | the keys of a set in ascending order, each once, as `std::map` iterates them |
| NodeGraph.SortedAdd | src/ui/node_window.cpp:1216 | adding a larger key appends it to the iteration order |
| NodeGraph.PrecedesMin | src/ui/node_window.cpp:1216 | iterating in ascending order, the next key is the least one left |
| NodeGraph.SetMax | src/ui/node_window.cpp:118 | the element `rbegin` of a `std::set` gives: a member no smaller than any other |
| NodeGraph.AttachStart | src/ui/node_window.cpp:540-541 | the start node records the link at its pin and among the links leaving that pin, and keeps its pins |
| NodeGraph.DetachStart | src/ui/node_window.cpp:517-518 | the start node forgets the link at its pin and among the links leaving that pin, and keeps its pins |
| NodeGraph.AttachEnd | src/ui/node_window.cpp:552-553 | the end node records the link at its pin and as the one into that pin, and keeps its pins |
| NodeGraph.DetachEnd | src/ui/node_window.cpp:525-526 | the end node forgets the link and the entry of that pin, and keeps its pins |
| NodeGraph.UnlinkStart | src/ui/node_window.cpp:513-520 | the start side of `_remove_link` changes only nodes |
| NodeGraph.UnlinkEnd | src/ui/node_window.cpp:521-528 | the end side of `_remove_link` changes only nodes |
| NodeGraph.RemoveLink | src/ui/node_window.cpp:510-532 | `_remove_link` erases the id from the links, known or not, and otherwise changes only nodes |
| NodeGraph.LinkStart | src/ui/node_window.cpp:536-543 | the start side of `_add_link` changes only nodes |
| NodeGraph.Extend | src/ui/node_window.cpp:554-560 | growing an extendable node changes only pins and nodes and never lowers the pin counter |
| NodeGraph.LinkEnd | src/ui/node_window.cpp:544-562 | the end side of `_add_link` can only drop links, keeps the node set and never lowers the pin counter |
| NodeGraph.AddLink | src/ui/node_window.cpp:534-566 | `_add_link` advances the link counter by one and keeps the node set, the display node and the last added output |
| NodeGraph.Range | src/ui/node_window.cpp:661-669 | the pins from `lo` up to `hi` |
| NodeGraph.Assign | src/ui/node_window.cpp:666 | each pin of the range is owned by the given node, others keep their owner |
| NodeGraph.AddPins | src/ui/node_window.cpp:661-669 | `_pins(count)` hands out `count` consecutive pins (none for a count below one), owned by the next node id, and changes nothing else |
| NodeGraph.AddNode | src/ui/node_window.cpp:575-659 | `_add_node` advances the node counter by one |
| NodeGraph.OneLinkPerInput | src/ui/node_window.cpp:548-553 | under the invariant an owned input pin has at most one link into it |
| NodeGraph.UnlinkStartAt | src/ui/node_window.cpp:513-520 | the start side of `_remove_link` changes only the start owner |
| NodeGraph.UnlinkEndAt | src/ui/node_window.cpp:521-528 | the end side of `_remove_link` changes only the end owner |
| NodeGraph.RemoveLinkAt | src/ui/node_window.cpp:510-532 | removing a link takes it out of the indexes of the nodes owning its pins only |
| NodeGraph.RemoveLinkKeepsPins | src/ui/node_window.cpp:510-532 | `_remove_link` keeps every pin owned and below the counter |
| NodeGraph.RemoveLinkKeepsRecorded | src/ui/node_window.cpp:510-532 | removing one link leaves every other link recorded |
| NodeGraph.RemoveLinkKeepsSound | src/ui/node_window.cpp:510-532 | removing a link leaves every index pointing at links at that node's pins |
| NodeGraph.RemoveLinkKeepsPinIndex | src/ui/node_window.cpp:517-525 | the link-to-pin index of a node stays sound |
| NodeGraph.RemoveLinkKeepsInIndex | src/ui/node_window.cpp:526 | the input index of a node stays sound |
| NodeGraph.RemoveLinkKeepsOutIndex | src/ui/node_window.cpp:518 | the output index of a node stays sound |
| NodeGraph.RemoveLinkPreservesCore | src/ui/node_window.cpp:510-532 | removing a link, known or not, keeps the invariant |
| NodeGraph.RemoveLinkKeepsStart | src/ui/node_window.cpp:510-532 | removing a link leaves the start record of every other link |
| NodeGraph.EmplaceKeepsMid | src/ui/node_window.cpp:535 | emplacing a new link between handed-out pins keeps the invariant with that link not yet recorded |
| NodeGraph.LinkStartAt | src/ui/node_window.cpp:536-543 | the start side of `_add_link` changes only the start owner |
| NodeGraph.LinkStartKeepsMid | src/ui/node_window.cpp:536-543 | the start owner recording the link keeps the invariant and records its start |
| NodeGraph.LinkStartKeepsPins | src/ui/node_window.cpp:536-543 | the start side keeps every pin owned and below the counter |
| NodeGraph.LinkStartKeepsSound | src/ui/node_window.cpp:536-543 | the start side keeps every index sound |
| NodeGraph.LinkStartKeepsRecorded | src/ui/node_window.cpp:536-543 | the start side keeps every link recorded |
| NodeGraph.AttachEndKeepsMid | src/ui/node_window.cpp:552-553 | recording a link into a pin no other link enters keeps the invariant and records the link fully |
| NodeGraph.GrowKeepsPins | src/ui/node_window.cpp:556-558 | a new input from the pin counter keeps pins owned and below the counter |
| NodeGraph.GrowKeepsRecorded | src/ui/node_window.cpp:556-558 | a new input keeps every link recorded |
| NodeGraph.GrowKeepsSound | src/ui/node_window.cpp:556-558 | a new input keeps every index sound |
| NodeGraph.ExtendKeepsMid | src/ui/node_window.cpp:554-560 | growing an extendable node keeps the invariant |
| NodeGraph.LinkEndKeepsMid | src/ui/node_window.cpp:544-562 | the end side of `_add_link` removes the link already into the pin and records the new one, keeping the invariant |
| NodeGraph.AddLinkPreservesCore | src/ui/node_window.cpp:534-566 | `_add_link` between two handed-out pins keeps the invariant |
| NodeGraph.LinksInto | src/ui/node_window.cpp:548-553 | under the invariant the links into an owned pin are exactly the one its owner records there |
| NodeGraph.LinkEndLinks | src/ui/node_window.cpp:544-562 | the links after the end side: the earlier link into the pin, if any, is gone |
| NodeGraph.AddLinkReplaces | src/ui/node_window.cpp:534-566 | `_add_link(s, e)` stores the new link and drops the link that entered `e` before, if `e` is owned |
| NodeGraph.ReplacedOwned | src/ui/node_window.cpp:548-553 | the links replaced are exactly the earlier link into the pin |
| NodeGraph.AddLinkEntersAlone | src/ui/node_window.cpp:534-566 | after `_add_link` into an owned pin, the new link is the only one into it |
| NodeGraph.NewNodeFacts | src/ui/node_window.cpp:576-597 | the new node's pins are exactly the fresh range, owned by the next node id, with empty indexes; older pins keep their owners |
| NodeGraph.RegisteredPins | src/ui/node_window.cpp:586-592 | allocating inputs, then outputs, makes one range of fresh pins |
| NodeGraph.EmplacedOwnsPins | src/ui/node_window.cpp:616 | emplacing the new node keeps pins owned and below the counter |
| NodeGraph.EmplacedSound | src/ui/node_window.cpp:616 | emplacing the new node keeps every index sound |
| NodeGraph.EmplacedNodeSound | src/ui/node_window.cpp:616 | emplacing the new node keeps each older node's indexes sound |
| NodeGraph.EmplacedRecorded | src/ui/node_window.cpp:616 | emplacing the new node keeps every link recorded |
| NodeGraph.EmplaceNodeKeepsValid | src/ui/node_window.cpp:576-616 | building and emplacing the new node under a fresh id keeps the invariant |
| NodeGraph.CoreIgnoresCounters | src/ui/node_window.cpp:649-656 | the invariant does not depend on the node counter or the last added output |
| NodeGraph.LinkNew | src/ui/node_window.cpp:625-647 | linking the new node keeps the node set and the node counter |
| NodeGraph.LinkNewKeepsCore | src/ui/node_window.cpp:625-647 | linking the new node keeps the invariant |
| NodeGraph.AddNodePreservesValid | src/ui/node_window.cpp:575-659 | `_add_node` keeps the full invariant, whatever the selection |
| NodeGraph.AddNodeSteps | src/ui/node_window.cpp:575-659 | `_add_node` is its steps: the node built, emplaced, linked, then the counters |
| NodeGraph.NewNodePins | src/ui/node_window.cpp:576-597 | a registered type gets its declared inputs (one when it declares -1, and then it is extendable) and outputs and a stand-in; the unregistered display type gets one extendable input; any other type gets no pins |
| NodeGraph.AddNodeLinks | src/ui/node_window.cpp:625-647 | `_add_node` drops no link and adds at most the one from the chosen source into the new node's first input |
| NodeGraph.AddLinkIntoFree | src/ui/node_window.cpp:534-566 | a link into a pin with no link is simply added |
| NodeGraph.AddNodeCreates | src/ui/node_window.cpp:575-659 | the new node is stored under the node counter with its pins and stand-in, its first output becomes the last added output, and older nodes keep their pins |
| NodeGraph.LinkNewReshapes | src/ui/node_window.cpp:625-647 | linking the new node changes only link indexes, and only the new node may gain inputs |
| NodeGraph.UnlinkStartReshapes | src/ui/node_window.cpp:513-520 | the start side of `_remove_link` changes only link indexes |
| NodeGraph.UnlinkEndReshapes | src/ui/node_window.cpp:521-528 | the end side of `_remove_link` changes only link indexes |
| NodeGraph.RemoveLinkReshapes | src/ui/node_window.cpp:510-532 | `_remove_link` changes only link indexes |
| NodeGraph.LinkStartReshapes | src/ui/node_window.cpp:536-543 | the start side of `_add_link` changes only link indexes |
| NodeGraph.AttachEndReshapes | src/ui/node_window.cpp:552-553 | the end node recording the link changes only its link indexes |
| NodeGraph.ExtendReshapes | src/ui/node_window.cpp:554-560 | growing a node changes only its link indexes and inputs |
| NodeGraph.AddLinkNodes | src/ui/node_window.cpp:534-566 | `_add_link` changes only link indexes, except that the end pin's owner may gain an input |
| NodeGraph.RemoveLinks | src/ui/node_window.cpp:302-305 | removing each id in turn leaves exactly the other links, unchanged, and changes nothing else but node indexes |
| NodeGraph.RemoveLinksPreservesCore | src/ui/node_window.cpp:302-305 | removing a node's links keeps the invariant and changes only link indexes |
| NodeGraph.ErasePins | src/ui/node_window.cpp:306-315 | erasing the node and its pins removes exactly that node and keeps the links |
| NodeGraph.RecordedLinks | src/ui/node_window.cpp:302-305 | under the invariant the links a node records are exactly those at its pins |
| NodeGraph.UnlinkedNode | src/ui/node_window.cpp:302-305 | after its recorded links are removed, no link touches a pin of the node |
| NodeGraph.RemoveLinksOwner | src/ui/node_window.cpp:302-305 | removing links changes no pin's owner |
| NodeGraph.ErasedValid | src/ui/node_window.cpp:306-315 | erasing a node no link touches keeps the full invariant |
| NodeGraph.ErasePinsKeepsCore | src/ui/node_window.cpp:306-315 | erasing a node no link touches keeps the invariant |
| NodeGraph.ErasePinsOwner | src/ui/node_window.cpp:306-315 | erasing a node changes the owner of no other node's pin |
| NodeGraph.ErasePinsOwned | src/ui/node_window.cpp:306-315 | erasing a node keeps pins owned and ids below their counters |
| NodeGraph.ErasePinsRecorded | src/ui/node_window.cpp:306-315 | erasing a node no link touches keeps every link recorded |
| NodeGraph.ErasePinsSound | src/ui/node_window.cpp:306-315 | erasing a node keeps the other nodes' indexes sound |
| NodeGraph.DeletePreservesValid | src/ui/node_window.cpp:299-317 | deleting a node keeps the invariant |
| NodeGraph.DeleteRemoves | src/ui/node_window.cpp:299-317 | deleting a node removes it, its pins and exactly the links touching them, resets the last added output when it was one of its outputs, and keeps every other node's pins |
| NodeGraph.SelectedSourceAsWritten | src/ui/node_window.cpp:627-642 | as written, the selected node supplies a source whenever it has an unused output, whether or not the new node has an input |
| NodeGraph.AddNodeDerefsNoInput | src/ui/node_window.cpp:631-638 | a selected source with a free output and a new node with no inputs make the source dereference `*node.inputs.begin()` of an empty set; the corrected `LinkSource` links nothing |
| NumberedNames.DotPlain | src/outputs/exr.cpp:105 | an extension without a dot is written after one dot |
| NumberedNames.DigitsHaveNoDotOrSlash | src/outputs/exr.cpp:106 | the decimal frame number contains no dot and no separator |
| NumberedNames.IntendedDistinct | src/outputs/exr.cpp:105-107 | distinct frame numbers give distinct intended names |
| NumberedNames.IntendedNotBase | src/outputs/immediate_exr.cpp:36-43 | no numbered name equals the unnumbered path with the extension replaced |
| NumberedNames.ReplaceExtensionKeepsStem | src/outputs/exr.cpp:105 | for a stem without dots, the first `replace_extension` keeps the directory and the stem |
| NumberedNames.AsWrittenAgrees | src/outputs/exr.cpp:105-107 | for a stem without dots, the three edits give "dir/stem_N.ext" |
| NumberedNames.RenamedPlainGetsExtension | src/outputs/exr.cpp:106-107 | the second `replace_extension` of "dir/stem_N" appends the extension |
| NumberedNames.AsWrittenCollides | src/outputs/exr.cpp:105-107 | for a file name "s.v.x" the three edits give "s.ext" whatever the number, so every frame gets the same name |
| NumberedNames.FirstReplaceKeepsDottedStem | src/outputs/exr.cpp:105 | the first `replace_extension` of "s.v.x" gives "s.v.ext" |
| NumberedNames.RenameKeepsDottedStem | src/outputs/exr.cpp:106 | renaming "s.v.ext" to its stem plus "_N" gives "s.v_N" |
| NumberedNames.SecondReplaceDropsNumber | src/outputs/exr.cpp:107 | the second `replace_extension` of "s.v_N" cuts at the first dot and drops the number |
| Ocio.FirstIndex | src/ocio/ocio_static.hpp:32-39 | the index of the first equal name, -1 exactly when the name is absent |
| Ocio.IndexFromSpaceName | src/ocio/ocio_static.hpp:32-39 | `index_from_space_name` counts up the names and returns the first match's index, or -1 |
| Ocio.FirstIndexIs | src/ocio/ocio_static.hpp:32-39 | a name at index i that does not occur before i is found at i |
| Ocio.SpaceNameAtIndex | src/ocio/ocio_static.hpp:25-31 | the name at an index in range; any other index throws "Ocio index out of bounds." |
| Ocio.SpaceNameRoundTrip | src/ocio/ocio_static.hpp:25-39 | looking up a present name and reading it back gives the name; an absent name reads back as an error; without duplicates, index to name to index is the identity |
| Ocio.CoversAll | src/ocio/ocio_functional.cpp:16-25 | a map with the five roles covers every role |
| Ocio.SetOutcome | src/ocio/ocio_functional.cpp:51-61 | a known space is taken with its index and true; an unknown one falls back to space 0 and false; with no spaces the fallback throws |
| Ocio.Spaces.constructor | src/ocio/ocio_functional.cpp:16-25 | every slot starts with an empty name and index -1 |
| Ocio.Spaces.Set | src/ocio/ocio_functional.cpp:51-109 | each setter writes only its own slot, as the outcome says, and nothing when it throws |
| Ocio.SetKeepsConsistent | src/ocio/ocio_functional.cpp:51-109 | a successful set keeps every slot naming the space at its own index |
| Ocio.MakeOcioParam | src/ocio/ocio_functional.cpp:28-38 | the enum parameter starts at 0 with the space count as maximum, the given default and the space names; the short form defaults to 0 |
| Ocio.ParamName | src/ocio/ocio_functional.hpp:43-47 | each mirrored slot's parameter name starts with "vkd_" |
| Ocio.Stale | src/ocio/ocio_functional.hpp:51-67 | `update` forces at most the five parameters |
| Ocio.StaleMembers | src/ocio/ocio_functional.hpp:51-67 | a role is forced exactly when its parameter differs from its slot's index |
| Ocio.Synced | src/ocio/ocio_functional.hpp:51-67 | five per-role equalities make the parameters equal the slots for every role |
| Ocio.OcioParams.constructor | src/ocio/ocio_functional.hpp:42-49 | the five parameters start at 0 and the update makes each equal its slot's index |
| Ocio.OcioParams.Update | src/ocio/ocio_functional.hpp:51-67 | afterwards every parameter equals its slot's index, and exactly the differing ones were forced, in order |
| Ocio.TransformSpaces | src/ocio/ocio_functional.cpp:266-270 | an input node converts from its own space to the working space, an output node from the working space to its own |
| Ocio.OcioNode.constructor | src/ocio/ocio_functional.cpp:236-255 | "use ocio" defaults to true, no transform yet, and the space parameter is named for the direction and defaults to the default-input slot or the display slot |
| Ocio.OcioNode.Update | src/ocio/ocio_functional.cpp:261-281 | with "use ocio" set the transform is rebuilt, or the update throws and keeps it; without it nothing changes |
| Ocio.OcioNode.Execute | src/ocio/ocio_functional.cpp:283-287 | the transform is dispatched exactly when "use ocio" is set and one exists |
| ParamMaps.EmplaceIn | src/engine_node.hpp:31 | `map[g].emplace(name, p)` adds the group if missing, leaves other groups alone and inserts into `g` only a new name |
| ParamMaps.ParamMap.constructor | src/engine_node.hpp:31 | a parameter map starts empty |
| ParamMaps.ParamMap.Emplace | src/inputs/blockedit.cpp:14-17 | an emplace changes the map as `EmplaceIn` says |
| Parameters.Ordinal | src/parameter.hpp:39-50 | each type's enumerator position, below twelve |
| Parameters.OrdinalInjective | src/parameter.hpp:39-50 | distinct types have distinct ordinals |
| Parameters.ClampBounds | src/parameter.hpp:149-152 | `min(max(p, lo), hi)` lies in [lo, hi] when lo <= hi, is hi when hi < lo, and leaves a value in range alone |
| Parameters.ClampValueInRange | src/parameter.hpp:149-152 | with an ordered range the clamped value is in range and clamping again changes nothing |
| Parameters.ClampValueFixesInRange | src/parameter.hpp:149-152 | a value already in range is stored unchanged |
| Parameters.ClampValueWellTyped | src/parameter.hpp:149-152 | clamping keeps a value of the parameter's type |
| Parameters.DefaultsConsistent | src/parameter.hpp:86-136 | the defaults are values of the type, the numeric range is ordered and holds the default value |
| Parameters.InitialValue | src/parameter.hpp:86-136 | the constructor's value is of the type, and a non-numeric default is stored as given |
| Parameters.InitialValueIsDefaultWhenBracketed | src/parameter.hpp:92-96 | when the uninitialised range happens to bracket the default, the default is stored |
| Parameters.InitialValueInStorageRange | src/parameter.hpp:92-96 | because `set` runs before `min` and `max`, the initial value lies in the range the storage held |
| Parameters.InitialValueCanEscapeRange | src/parameter.hpp:92-96 | an int parameter whose storage held [200, 300] starts at 200, outside its assigned range [-127, 128] |
| Parameters.Parameter.constructor | src/parameter.hpp:86-136 | the type's defaults: the initial value, the assigned range, data sized for numeric and string types, changed, no tags, empty name, offset 0 |
| Parameters.Parameter.Set | src/parameter.hpp:149-157 | numeric values are clamped to the current range, others stored as given; the data is sized and the flag raised; the range, name, offset and tags are kept |
| Parameters.Parameter.SetForce | src/compute/kernel.hpp:63 | stores the value unclamped, sizes the data and raises the flag, keeping the rest |
| Parameters.Parameter.Changed | src/parameter.hpp:68 | returns the flag and clears it, changing nothing else |
| Parameters.Parameter.MarkChanged | src/make_param.hpp:39 | raises the flag and changes nothing else |
| Parameters.Parameter.SetMin | src/parameter.hpp:164 | assigns the minimum without re-clamping the value |
| Parameters.Parameter.SetMax | src/parameter.hpp:165 | assigns the maximum without re-clamping the value |
| Parameters.Parameter.Tag | src/parameter.hpp:178 | inserts the tag into the set, changing nothing else |
| Parameters.Parameter.SetTags | src/make_param.hpp:40-46 | replaces the tag set, changing nothing else |
| Parameters.Parameter.SetName | src/parameter.hpp:174 | assigns the name, changing nothing else |
| Parameters.Parameter.SetOffset | src/parameter.hpp:171 | assigns the offset, changing nothing else |
| Parameters.TagIdempotent | src/parameter.hpp:178 | tagging twice is tagging once, and a present tag changes nothing |
| Parameters.MakeParam | src/parameter.hpp:208-214 | a new parameter of the type with its defaults, the given name and offset, no tags, reporting changed |
| Parameters.ChangedTwice | src/parameter.hpp:68 | two reads in a row return the old flag and then false |
| ParameterCache.Emplace | src/parameter.cpp:66-68 | `emplace` adds the key, keeps every existing entry and stores the value only under a new key |
| ParameterCache.EmplaceThenRemove | src/parameter.cpp:66-80 | removing a key after an emplace leaves what removing it from the original leaves; emplacing an existing key changes nothing |
| ParameterCache.MakeHashInjective | src/parameter.cpp:62-64 | for names that do not start with a digit, equal keys mean equal types and names |
| ParameterCache.DigitPrefixEqual | src/parameter.cpp:62-64 | a decimal ordinal followed by a non-digit part is read back uniquely |
| ParameterCache.MakeHashCollides | src/parameter.cpp:62-64 | an int parameter named "0" followed by r and a frame parameter named r share a key |
| ParameterCache.ParameterCache.constructor | src/parameter.cpp:32-36 | the singleton starts empty |
| ParameterCache.ParameterCache.Add | src/parameter.cpp:38-42 | `add` emplaces under the key, so an existing entry is never overwritten |
| ParameterCache.ParameterCache.Has | src/parameter.cpp:44-48 | `has` holds exactly when the key is present |
| ParameterCache.ParameterCache.Get | src/parameter.cpp:50-54 | `get` returns the stored parameter when the key is present and fails otherwise |
| ParameterCache.ParameterCache.Remove | src/parameter.cpp:56-60 | `remove` reports whether the key was present and erases only that key |
| Paths.LastIndexOf | src/outputs/exr.cpp:105-107 | the index of the last occurrence of the character, -1 when there is none |
| Paths.LastIndexOfAt | src/outputs/exr.cpp:105-107 | the last occurrence is recognised by its defining property |
| Paths.LastIndexOfNone | src/outputs/exr.cpp:105-107 | a string without the character gives -1 |
| Paths.DirFileName | src/outputs/exr.cpp:106 | the directory and the filename make up the path; the filename has no separator and the directory ends with one or is empty |
| Paths.StemExtension | src/outputs/exr.cpp:106 | the stem and the extension make up the filename |
| Paths.StemHasNoSlash | src/outputs/exr.cpp:106 | a filename's stem has no separator |
| Paths.LastIndexOfAppend | src/outputs/exr.cpp:106 | appending text without the character keeps its last occurrence |
| Paths.DirOfJoin | src/outputs/exr.cpp:106 | replacing the filename keeps the directory and gives the new name back as the filename |
| Paths.ReplaceExtensionOfPlain | src/outputs/immediate_exr.cpp:42 | replacing the extension of a dot-free name appends the extension |
| Paths.ReplaceExtensionOfDotted | src/outputs/exr.cpp:107 | replacing the extension of a bare "a.b" keeps "a" |
| Paths.StemOfDotted | src/outputs/exr.cpp:106 | the stem of "s.e" is s |
| Rotate.ModeRangeIsModes | src/compute/rotate.cpp:25-27 | the mode parameter's range [None, Max - 1] holds exactly the modes' codes, and its default is no rotation |
| Rotate.OutputSizeSwapsOnQuarterTurns | src/compute/rotate.cpp:31-35 | only the two quarter turns swap width and height; every mode keeps the pixel count and applying the rule twice gives the input size back |
| Rotate.RotateNode.constructor | src/compute/rotate.cpp:18 | the output size starts at (0, 0) |
| Rotate.RotateNode.Init | src/compute/rotate.cpp:15-35 | `init` sets the mode's default and range and sizes the output by the mode |
| Sand.AddColumn | src/compute/sand.cpp:116-124 | the intended rule: the corrected column lies within the buffer and is the offset column whenever that is inside |
| Sand.AddColumnOverruns | src/compute/sand.cpp:118-121 | as written, column 8 of a 10-wide buffer with offset 2 writes word 10, one past the last |
| Sand.MarksInRange | src/compute/sand.cpp:116-124 | every mark is a valid column, and a visited column whose offset stays inside is marked there |
| Sand.SandNode.constructor | src/compute/sand.cpp:30-36 | the add-location buffer holds one word per column |
| Sand.SandNode.FillAddLocations | src/compute/sand.cpp:116-124 | every column is zeroed, then exactly the marked columns, placed by the intended rule of `AddColumn`, are set to 1 |
| SaneFormats.SameUploadIsEquality | src/inputs/sane/sane_formats.hpp:12-14 | the field-wise `operator==` is value equality, hence an equivalence |
| SaneFormats.DiffersIsInequality | src/inputs/sane/sane_formats.hpp:34-36 | the field-wise `operator!=` is value inequality, irreflexive and symmetric |
| SaneFormats.DefaultUnusable | src/inputs/sane/sane_formats.hpp:25-32 | the default frame format is RGB with width, height and depth -1 |
| SaneService.DecimalNames | src/inputs/sane/sane_service.cpp:69-73 | one decimal name per list entry, in order |
| SaneService.LastIndexOf | src/inputs/sane/sane_service.cpp:87-93 | the last position holding the current string, or 0 when the list does not hold it |
| SaneService.EnumNames | src/inputs/sane/sane_service.cpp:69-73 | the naming loop yields the decimal name of each entry |
| SaneService.DefaultIndex | src/inputs/sane/sane_service.cpp:87-93 | the default-position loop ends at the last entry equal to the current value, or 0 |
| SaneService.ParamFor | src/inputs/sane/sane_service.cpp:49-111 | the corrected rule: read-only options, unknown types and integers wider than 4 bytes get no parameter; every other option gets one with its name, ordered at its index plus 100; an integer option, integer lists included, defaults to the device's current value |
| SaneService.ParamForAsWritten | src/inputs/sane/sane_service.cpp:49-111 | as written, an option gets a parameter exactly when the corrected rule gives one and it is the same parameter, except that an integer list keeps the initial default 0 |
| SaneService.ParamForShape | src/inputs/sane/sane_service.cpp:49-111 | read-only options, unknown types and integers wider than 32 bits get no parameter; an integer list becomes an enum named by its decimals, a range gets its bounds, a string list becomes an enum of the names; the order is the index plus 100 |
| SaneService.Emplace | src/inputs/sane/sane_service.cpp:110 | `emplace` keeps the map ordered and adds the entry only when the key is new |
| SaneService.ParamsOf | src/inputs/sane/sane_service.cpp:47-114 | the map of parameters the code makes, one per option that gets one, ordered by option index |
| SaneService.ParamsOfStep | src/inputs/sane/sane_service.cpp:49-111 | each option adds its parameter as the code makes it, if any, by `emplace` |
| SaneService.HasKeyOf | src/inputs/sane/sane_service.cpp:110 | an entry's key is among the keys |
| SaneService.ParamsOfFirstWins | src/inputs/sane/sane_service.cpp:49-111 | each entry is the parameter of the first option with that index that gets one |
| SaneService.ParamsOfCoversOptions | src/inputs/sane/sane_service.cpp:49-111 | every option that gets a parameter has its index among the keys |
| SaneService.Request | src/inputs/sane/sane_service.cpp:187-227 | an unpressed button sends nothing, a flag its 0 or 1, a string its text, a string-list enum the value or else the name at its position, and a plain integer itself |
| SaneService.ParamEchoesDevice | src/inputs/sane/sane_service.cpp:49-111 | with the corrected rule, a parameter of any option left at its default sends back the device's current value, integer lists included; a button sends nothing |
| SaneService.IntListDefaultIsZero | src/inputs/sane/sane_service.cpp:66-73 | as written, an integer-list option whose current value is non-zero sends 0 when left at its default |
| SaneService.AppliedStep | src/inputs/sane/sane_service.cpp:188-231 | `set_sane_options` visits the parameters in key order, one call per request |
| SaneService.AppliedLogsFailures | src/inputs/sane/sane_service.cpp:188-231 | every call sent comes from a parameter's request; a throwing call is logged and the loop goes on; with a usable device and good statuses nothing is logged |
| SaneService.UploadFor | src/inputs/sane/sane_service.cpp:131-151 | no format when width or height is not positive; otherwise the frame's size with a kind chosen by channels and depth |
| SaneService.ScanBytesMatchFrame | src/inputs/sane/sane_service.cpp:173-181 | for depth 8 or 16 the buffer is width times height times channels times bytes per channel |
| SaneService.UploadFallback | src/inputs/sane/sane_service.cpp:135-149 | any other depth falls back to an 8-bit RGB buffer |
| SaneService.FormatFor | src/inputs/sane/sane_service.cpp:128-154 | a format only from a usable device whose parameters read back good, and then the one the frame calls for |
| SaneService.Zeroes | src/inputs/sane/sane_service.cpp:181 | the new scan buffer has the requested size |
| SaneService.Service.constructor | src/inputs/sane/sane_service.cpp:9-10 | the service starts with no current device |
| SaneService.Service.Shutdown | src/inputs/sane/sane_service.cpp:21-23 | `shutdown` clears the current device and keeps its index, as `clear_current_device` is written |
| SaneService.Service.Params | src/inputs/sane/sane_service.cpp:39-115 | selects the device, then gives its options' parameters as the code makes them (`ParamsOf`), or the error of the selection or of reading the options |
| SaneService.Service.SetSaneOptions | src/inputs/sane/sane_service.cpp:187-232 | the calls sent and the lines logged are those `Applied` gives for the current device |
| SaneService.Service.Format | src/inputs/sane/sane_service.cpp:122-155 | selects the device, sets its options, then gives the format the reported frame calls for |
| SaneService.Service.Scan | src/inputs/sane/sane_service.cpp:157-185 | no image without a format; otherwise a buffer of the frame's byte size filled by the device's reads, and an error when the reads fail |
| SaneWrapper.TypeOf | src/inputs/sane/sane_wrapper.cpp:120-137 | each known value-type code maps to the type with that code; any other code gives Bool |
| SaneWrapper.UnitOf | src/inputs/sane/sane_wrapper.cpp:139-156 | each known unit code maps to the unit with that code; there is no result for any other code |
| SaneWrapper.ChannelsOf | src/inputs/sane/sane_wrapper.cpp:158-173 | each known frame code maps to the channels with that code; any other code gives Gray |
| SaneWrapper.ConstraintOf | src/inputs/sane/sane_wrapper.cpp:175-188 | each known constraint code maps to its kind; any other code gives None |
| SaneWrapper.ConversionsInvertCodes | src/inputs/sane/sane_wrapper.cpp:120-188 | every enumerator survives the round trip through its SANE code |
| SaneWrapper.Cleared | src/inputs/sane/sane_wrapper.cpp:200-202 | `clear_current_device` drops the device and keeps the index |
| SaneWrapper.ClearedIntended | src/inputs/sane/sane_wrapper.cpp:200-202 | the intended rule: the corrected clearing forgets the device and resets the index to -1 |
| SaneWrapper.SelectReopensOnlyOnChange | src/inputs/sane/sane_wrapper.cpp:190-198 | a different index opens that device; the same index keeps the open device and reports its validity |
| SaneWrapper.ClearedReselectFails | src/inputs/sane/sane_wrapper.cpp:190-202 | as written, after clearing, selecting the index that was current finds no device to ask |
| SaneWrapper.ClearedIntendedReselectOpens | src/inputs/sane/sane_wrapper.cpp:190-202 | with the corrected clearing, selecting any index opens that device |
| SaneWrapper.WordValues | src/inputs/sane/sane_wrapper.cpp:261-266 | exactly the count of words after the count, in order, and none for a count of zero or less |
| SaneWrapper.Terminator | src/inputs/sane/sane_wrapper.cpp:267-273 | the first NULL pointer, with a string at every position before it |
| SaneWrapper.StringValues | src/inputs/sane/sane_wrapper.cpp:267-273 | the strings before the NULL terminator, in order |
| SaneWrapper.DecodeWordList | src/inputs/sane/sane_wrapper.cpp:261-266 | the word-list loop yields `WordValues` |
| SaneWrapper.DecodeStringList | src/inputs/sane/sane_wrapper.cpp:267-273 | the string-list loop yields `StringValues` |
| SaneWrapper.OptionValue | src/inputs/sane/sane_wrapper.cpp:227-249 | an inactive string reads "INACTIVE", a non-string that is inactive or not one word wide reads nothing, and only a failed read of an active option is an error |
| SaneWrapper.Bounds | src/inputs/sane/sane_wrapper.cpp:253-260 | the descriptor's range only for a range constraint that has one, else [0, INT32_MAX] |
| SaneWrapper.OptionFor | src/inputs/sane/sane_wrapper.cpp:224-292 | an option only for a named descriptor, with its index and name and read-only exactly when not settable |
| SaneWrapper.OptionsOrdered | src/inputs/sane/sane_wrapper.cpp:212-295 | the options come out in descriptor order with strictly increasing indices, each describing its descriptor |
| SaneWrapper.ReadStep | src/inputs/sane/sane_wrapper.cpp:362-374 | one read writes its bytes at the current total and then continues only on GOOD |
| SaneWrapper.ReadFromBounded | src/inputs/sane/sane_wrapper.cpp:355-381 | the buffer keeps its size and never overflows, there is at most one request per read, and GOOD at the end means a full buffer |
| SaneWrapper.ReadFromRequests | src/inputs/sane/sane_wrapper.cpp:369 | the first request asks for the whole remaining capacity, each later one for what the previous read left, and every request is positive |
| SaneWrapper.ReadFromKeeps | src/inputs/sane/sane_wrapper.cpp:362-374 | bytes read before stay and the buffer after the last byte read is untouched |
| SaneWrapper.ReadFromDelivers | src/inputs/sane/sane_wrapper.cpp:362-374 | the buffer holds the delivered bytes in order after what was read before |
| SaneWrapper.ResumedStep | src/inputs/sane/sane_wrapper.cpp:362-374 | one step of the read loop with the requests made so far |
| SaneWrapper.Devices.constructor | src/inputs/sane/sane_wrapper.cpp:25 | the index starts at -1 with no device |
| SaneWrapper.Devices.SetCurrentDevice | src/inputs/sane/sane_wrapper.cpp:190-198 | `set_current_device` changes the state as `Selected` says and reports the device's validity, failing when there is none |
| SaneWrapper.Devices.ClearCurrentDevice | src/inputs/sane/sane_wrapper.cpp:200-202 | the state becomes `Cleared` |
| SaneWrapper.Devices.ClearCurrentDeviceIntended | src/inputs/sane/sane_wrapper.cpp:200-202 | the state becomes `ClearedIntended` |
| SaneWrapper.Devices.Options | src/inputs/sane/sane_wrapper.cpp:212-295 | without a valid device "Invalid SANE device in options."; otherwise the options of all descriptors or the first failure |
| SaneWrapper.Devices.SetOption | src/inputs/sane/sane_wrapper.cpp:297-307 | without a valid device, or on a bad status, the named error; otherwise success |
| SaneWrapper.Devices.Format | src/inputs/sane/sane_wrapper.cpp:309-321 | without a valid device or on a bad status an error; otherwise the reported frame as a SaneFormat |
| SaneWrapper.Devices.ReadImage | src/inputs/sane/sane_wrapper.cpp:345-381 | errors without a valid device or a started scan; otherwise the buffer the loop fills, an error unless it ends in GOOD or EOF |
| SaneWrapper.OptionsStep | src/inputs/sane/sane_wrapper.cpp:224-293 | one more descriptor appends its option, skips it, or fails |
| SaneWrapper.OptionsErrStays | src/inputs/sane/sane_wrapper.cpp:236-248 | a failure on a prefix of the descriptors is the result for all of them |
| Serialise.DecodeNode | src/ui/node_window.hpp:80-91 | a node read back has no stand-in node, which is not archived |
| Serialise.NodeRoundTrip | src/ui/node_window.hpp:80-91 | at version 1 or later a node reads back whole except its stand-in and rebuild flag; at version 0 only its base fields survive; the fields after it are left for the next reader |
| Serialise.RebuildIffLegacyLinks | src/ui/node_window.hpp:82-86 | a node asks for its links to be rebuilt exactly when the legacy link vector it read was non-empty |
| Serialise.Version0HasNoIndexes | src/ui/node_window.hpp:81-90 | a version-0 node has empty link indexes and fixed inputs |
| Serialise.LinkRoundTrip | src/ui/node_window.hpp:98-103 | a link round-trips at version 0; any other version archives nothing and the link read keeps its default ends |
| Serialise.GraphLayoutCumulative | src/ui/node_window.hpp:183-202 | a graph member is archived exactly from the version that introduced it, and a later version writes the earlier layout first |
| Serialise.GraphVersionTransfersAll | src/ui/node_window.cpp:48 | version 4, with which graphs are saved, archives every member |
| Shaders.Shader.constructor | src/shader.hpp:32 | a new shader has no stages |
| Shaders.Shader.Add | src/shader.cpp:16-32 | `add` appends exactly one stage with the stage bit, the loaded module and the entry name |
| Shaders.MemberTypeSpec | src/shader.cpp:149-183 | a push-constant member is rejected exactly when it is no vector and not exactly float, int or bool; a vector neither float nor int gets no type; vectors get 2 or 4 components, scalars one, and unsigned types exactly for signedness 0 |
| Shaders.Count32Product | src/shader.cpp:88-94 | the 32-bit descriptor count is the product of the array dimensions modulo 2^32, so it is the product whenever that fits |
| Shaders.DescriptorCount | src/shader.cpp:88-94 | the dimension loop computes the 32-bit count |
| Shaders.NamesOf | src/shader.cpp:90 | every binding name, and only those, is a key of `binding_names` |
| Shaders.NamesOfPositions | src/shader.cpp:90 | each name maps to a position holding it, and no later binding has that name |
| Shaders.BuildLayout | src/shader.cpp:74-105 | the binding loop builds the layout `LayoutOf` describes |
| Shaders.MemberPairs | src/shader.cpp:143-185 | an accepted member list gives one pair per member |
| Shaders.BlockConstantsPrefix | src/shader.cpp:130-190 | each block adds its range and its members' pairs to those of the blocks before it |
| Shaders.BlockConstantsSpec | src/shader.cpp:136-138 | every kept push-constant range has a positive size, at most one per block |
| Shaders.ReflectMembers | src/shader.cpp:143-185 | the member loop gives `MemberPairs` |
| Shaders.MemberPairsError | src/shader.cpp:181-183 | a rejected member fails the whole list |
| Shaders.BlockConstantsError | src/shader.cpp:181-183 | a failed block fails the whole reflection |
| Shaders.ReflectBlocks | src/shader.cpp:116-190 | the push-constant loop gives `BlockConstants` |
| Shaders.CountsOfTotals | src/shader.cpp:213-234 | each `uint16_t` bucket holds the total count of its descriptor type modulo 2^16, and other types are ignored |
| Shaders.TotalsStep | src/shader.cpp:215-232 | adding the last binding's count to the reduced totals of the others gives the reduced totals of all |
| Shaders.CountsOfAppend | src/shader.cpp:215-232 | the nested loop adds one binding at a time |
| Shaders.ComputeShader.constructor | src/shader.hpp:36-55 | a new compute shader has no layouts, ranges or types and no path |
| Shaders.ComputeShader.Create | src/shader.cpp:38-54 | records the path; succeeds exactly when reflection does, and then appends what reflection found; on failure the model records nothing more |
| Shaders.ComputeShader.Reflect | src/shader.cpp:56-193 | succeeds exactly when the reflection is acceptable and appends the layouts, ranges and types it finds; on failure the model records nothing |
| Shaders.ComputeShader.DescriptorCountsOf | src/shader.cpp:213-234 | `descriptor_counts` sums every binding of every layout into its bucket |
| Shaders.ComputeShader.DescSetLayout | src/shader.cpp:195-211 | more than one set is an error; otherwise a created layout holding every binding, renumbered by position |
| Shaders.Renumbered | src/shader.cpp:202-205 | the bindings keep type, count and stage and are numbered by position |
| Strings.NatToStringShape | src/parameter.cpp:63 | std::to_string of a non-negative number is a non-empty run of decimal digits that starts with 0 only for zero |
| Strings.ParseNatToString | src/parameter.cpp:63 | reading the decimal digits back gives the number that was printed |
| Strings.NatToStringInjective | src/parameter.cpp:63 | distinct non-negative numbers print differently |
| Strings.IntToStringInjective | src/parameter.cpp:63 | distinct signed numbers print differently, so the type prefix of a cache key identifies the type |
| Strings.Lower | src/ui/node_window.cpp:99 | lower-casing keeps the length and lower-cases each character in place |
| Strings.LowerIdempotent | src/ui/node_window.cpp:99 | lower-casing an already lower-cased string changes nothing |
| Surfaces.FirstUnorm | src/surface.cpp:83-87 | the search stops at the first B8G8R8A8_UNORM entry, and no earlier entry has that format |
| Surfaces.ChooseListed | src/surface.cpp:76-95 | the chosen format is B8G8R8A8_UNORM or a listed pair, it is B8G8R8A8_UNORM whenever the list offers it, and otherwise it is the first listed pair |
| Surfaces.Surface.ChooseFormat | src/surface.cpp:76-95 | after the selection loop the surface holds the chosen format and colour space |
| Swapchains.ChooseExtent | src/swapchain.cpp:72-81 | the requested size is used when the surface reports the special width 0xFFFFFFFF, otherwise the surface's current extent |
| Swapchains.ChooseImageCount | src/swapchain.cpp:108-111 | one more than the minimum, capped by a positive maximum, and zero when the 32-bit increment wraps |
| Swapchains.ChooseTransform | src/swapchain.cpp:115-118 | the identity transform when supported, else the current transform |
| Swapchains.FirstSupported | src/swapchain.cpp:131-136 | the search stops at the first flag in order that the surface supports, and none before it is supported |
| Swapchains.ChooseAlpha | src/swapchain.cpp:123-137 | the composite alpha is one of the four listed flags and is supported by the surface unless it is the OPAQUE default |
| Swapchains.ChooseUsage | src/swapchain.cpp:164-171 | colour attachment is always requested, and transfer source and destination exactly when the surface supports them |
| Swapchains.PresentModeAvailable | src/swapchain.cpp:87-105 | the present mode is FIFO or one the surface lists, FIFO under vsync, and MAILBOX whenever it is listed and vsync is off |
| Swapchains.Swapchain.constructor | src/swapchain.cpp:13-31 | a new swapchain has no images and no create info |
| Swapchains.Swapchain.PresentModeFor | src/swapchain.cpp:87-105 | the loop with its break yields the preferred present mode |
| Swapchains.Swapchain.AlphaFor | src/swapchain.cpp:123-137 | the loop with its break yields the first supported alpha in order |
| Swapchains.Swapchain.Create | src/swapchain.cpp:65-221 | a queue without surface support fails and leaves the swapchain as it was; otherwise the create info holds each choice, the caller gets the chosen extent, and each driver image is paired with its view in order |
| VulkanEnums.Lookup | src/vulkan_enum.cpp:7-36 | a switch over a code finds a name exactly when some case lists the code, and the name is that case's |
| VulkanEnums.LookupAscending | src/vulkan_enum.cpp:7-36 | in a table of distinct ascending codes every case is reached by its own code |
| VulkanEnums.ResultNamesPrefixed | src/vulkan_enum.cpp:9-32 | every case of the result switch is a VK_ name |
| VulkanEnums.ErrorStringListed | src/vulkan_enum.cpp:5-37 | each listed result code prints as its Vulkan name without the VK_ prefix |
| VulkanEnums.PrefixedEntry | src/vulkan_enum.cpp:9 | a VK_ name is that prefix followed by the printed name |
| VulkanEnums.ErrorStringUnknown | src/vulkan_enum.cpp:34-35 | VK_SUCCESS and every unlisted code print as UNKNOWN_ERROR |
| VulkanEnums.PhysicalDeviceToString | src/vulkan_enum.cpp:39-51 | the four named device types print a name and anything else prints UNKNOWN_DEVICE_TYPE |
| VulkanEnums.FormatToStringNames | src/vulkan_enum.cpp:179-204 | each listed format prints its full name and any other format prints an empty string |
| VulkanEnums.Truths | src/vulkan_enum.cpp:53 | a VkBool32 field reads as true exactly when it is non-zero |
| VulkanEnums.FeatureStringAppend | src/vulkan_enum.cpp:53 | each feature field appends one line after those of the earlier fields |
| VulkanEnums.FeatureStringParses | src/vulkan_enum.cpp:55-136 | the feature string can be read back field by field in order and says exactly which features are on |
| VulkanEnums.BuildFeatureString | src/vulkan_enum.cpp:76-136 | the builder that starts empty and appends one line per field produces the feature string |
| VulkanEnums.FlagStringEmpty | src/vulkan_enum.cpp:139-176 | a flag string is empty exactly when no listed bit is set |
| VulkanEnums.FlagStringListedOnly | src/vulkan_enum.cpp:139-176 | bits that no FLAG line lists do not affect the string |
| VulkanEnums.FlagStringAppend | src/vulkan_enum.cpp:141 | each FLAG line appends a tab, the name and a newline exactly when its bit is set |
| VulkanEnums.BuildFlagString | src/vulkan_enum.cpp:139-176 | the builder with one conditional append per listed bit produces the flag string |

## Left out

- PhotoBrowsers.Draw: requires a positive number of columns; the source computes the column count from the window width and divides by it, so a window narrower than one thumbnail divides by zero.
- The directory listing, thumbnails and buttons of the photo browser are inputs or left out: `Draw` takes the listed files' extensions.
- HostCache.StaticHostImage.CreateImage: requires the byte count to fit in 32 bits (and `Make` likewise); the source multiplies in `int32_t`, where overflow or a negative dimension is undefined behaviour, and the pixel bytes themselves are not modelled.
- HostCache.HostCache: the key is the 64-bit value inside `Hash`, which is what the map's ordering compares.
- BlockEdit.TranslateIndex: requires a non-negative total when clamping; `std::clamp` with an upper bound below its lower bound is undefined behaviour in the source.
- The EXR writer's download, command buffers, fences and pixel data are left out; `ExrOutput.Execute` records the file names written, and `update`'s parameter-change scan (src/outputs/exr.cpp:62-74) is the same check the parameter model states for each parameter.
- FfmpegInputs: opening the file, the codec, packet reading and the pixel conversion are foreign calls; their outcomes (seek success, the decoded bytes, end of stream, a decode error) are inputs of each call.
- FfmpegInputs.Ffmpeg.Init: requires the header's `nb_frames + 1` to fit in 64 bits and a non-zero rate denominator when the fallback is taken; the source divides by that denominator unchecked.
- FfmpegLoop.BlankPacket: takes the random draws as inputs and requires each drawn index to name a marker; with no 0x01 byte in a packet the source's index distribution over [0, -1] is undefined, so the model allows no draw then.
- FfmpegLoop: reading, re-encoding and decoding packets, the random engine, the colour conversion and the upload are left out; the packet bytes and the decoded planes are inputs.
- Images.Image.Sample: requires a non-empty image when allocated; `std::clamp` with `_width - 1 < 0` is undefined behaviour in the source. The staging buffer and the texel read are a function parameter.
- Images: pipeline stage masks, subresource ranges, memory allocation, image views and samplers are not modelled; GPU objects are integer handles.
- ImageDownloader and ImageUploader: staging and storage buffers, memory allocation, shader paths and the kernels' local sizes are not modelled; the 4:2:0 kernels of the downloader are taken as created before `init`.
- ImmediateExr: the download, the background task and the EXR, PNG and JPG writers are left out; the filesystem's `exists` is the set of paths present when the export runs, which the model takes as fixed while the loop runs.
- Kernels: shader compilation, reflection, descriptor pools and the Vulkan calls are not modelled; the push-constant ranges and member types reflected from the shader are inputs of `Init`, and the parameter order of `dispatch` is an input.
- Kernels.Kernel.Dispatch: requires the descriptor set to have been built (`update` called), which the source dereferences unchecked; a null parameter or null `vkd_offset` is an error "null parameter" in the model where the source dereferences it, and the line printed per parameter (src/compute/kernel.cpp:157) is left out.
- LegacyNodes: the imnodes drawing, node placement, the parameter windows and the file dialog of src/ui/nodes.cpp are not modelled; link creation, destruction and node deletion are inputs of the methods.
- LegacyNodes.LegacyWindow.AddInput: `add_input` dereferences the new node's first output without a check; the model makes no link when there is none.
- LegacyNodes.LegacyWindow.ScanLinks: only the inner link walk of `build_nodes` is modelled here; the queue walk and graph building are modelled for the newer editor (NodeBuild).
- FakeNodes: `Graph::init` (fence creation) and `unbaked_terminals`, which has no definition, are not modelled; `vkd::make` is modelled by the set of node types the factory knows.
- InitialInputs: `fs::absolute`, the console message for an unknown extension, the stand-in's path parameter and the sequencer line name are not modelled; the source dereferences the new node's first output unchecked, and the model links only when it exists.
- NodeBuild.BuildNodes: requires every node feeding another to have a stand-in, which the source assumes when it calls `node_map.at`; a missing one would throw there.
- NodeBuild.BuildNodes: requires the sequencer line to have a first block, which the source indexes unchecked.
- NodeLoad: `_name_id` is read by `load` but not written by `save`, and the node positions, `_remove_link_mode`, `_next_node_loc` and the open windows are copied unchanged; the model carries none of them.
- NodeLoad: `load` calls `node->init()` for the display node, whose stand-in pointer is null; the call is not modelled (`FakeNode::init` does nothing).
- NodeLoad.SaveLoadRoundTrip: requires counters past every id, which every valid editor state meets (`ValidCountersAbove`); a state that breaks it loads with raised counters (`LoadedCountersPast`).
- NodeWindows: the imnodes and ImGui drawing, node placement (`_next_node_loc`), `_remove_link_mode`, the open parameter windows, the file dialog and `_ui_for_param` are not modelled; selection, hovering and clicks are parameters of the methods.
- NodeWindows.NodeWindow.LinkNewAt: the source links a selected node's free output into `*node.inputs.begin()` even when the new node has no inputs; the model skips that link.
- NodeWindows.NodeWindow.InitialInput: `fs::absolute` is not modelled; the path is taken as given.
- NodeWindows.NodeWindow.Load: states only that each stand-in is named after its node and has its type (`NamedAll`); the full facts, saved parameters included, are stated by `StandIns`.
- NodeWindows.NodeWindow.constructor: the node, pin and link counters are static in the source and shared by every window; here they are fields whose starting values are parameters.
- NodeGraph: the pin, node and link ids are `int32_t` in the source; the model uses unbounded integers and does not model counter overflow.
- Parameters: src/parameter.hpp as it stands lists ten types and has no `set_force`, `set_changed` or `tags(set)`, while src/parameter.cpp, src/make_param.hpp, src/compute/kernel.hpp and the nodes use `p_frame`, `p_bool` and those three members; the model follows the code that uses them, with `p_frame` and `p_bool` taken as ordinals 10 and 11 after `p_string`.
- Parameters: the bytes of `_data` are not modelled, only their count; float components are exact reals, and cereal serialisation of a parameter is not modelled.
- ParameterCache: the mutex around the singleton is not modelled; `Get` returns `None` where `at` throws.
- Rotate: the kernel, the output image and the parameter-change scan of `update` are not modelled; the mode value and the input size are inputs of `Init`.
- Sand: only the add-location buffer is modelled; the random offsets are an input sequence, and the simulation kernels, images and staging copies are left out.
- Sand.SandNode.constructor: requires a width of at least 5, because for a smaller width `i % (_width/5)` divides by zero in the source; the registered node is 1280 wide.
- SaneFormats: `ImageUploader::InFormat` is reduced to the four kinds the scanner service uses.
- SaneWrapper: loading the library (`init`, dlopen and the device list), the option count read through option 0 and the descriptor pointers are inputs: the descriptors and the values read for them are sequences, and the statuses are parameters.
- SaneWrapper.UnitOf: the source falls off the end of the function for an unknown unit code (undefined behaviour); the model gives no result.
- SaneWrapper.Devices.ReadImage: the drain of a full buffer with `sane_read(nullptr, 0)` and the console lines are not modelled; the reads are a finite sequence whose end the caller guarantees.
- SaneService: the mutexes, the singleton, `init` and the device-name listing are not modelled; `make_param` is replaced by a fresh parameter value, so the parameter cache's sharing of parameters between calls is not carried here.
- SaneService.Service.Params: requires the device index to be within the device list, which the source indexes unchecked.
- SaneService.Service.Scan: requires the device index to be in the list and the reads to end within the buffer (`ScanFits`); the calls sent to the device are not returned.
- Consoles: the echo of each finished line to standard output is not modelled, and neither is formatting a streamed value as text; the caller streams that text.
- Performances: the clock readings and the ImGui drawing are not modelled; each report's duration is an input.
- Timelines: the sequencer widget's drawing and dragging (src/ui/timeline.cpp) are UI and left out.
- Bins: the ImGui list drawing is not modelled; a click on a row is a parameter of the selection toggle.
- GraphRequestQueue: the mutex and the lazily created singleton are not modelled; engine nodes are integer handles.
- EngineNodes: the factory (`clone`) stored with a node type is not modelled.
- Hash: `std::hash` of each argument is an input; the model folds already-hashed 64-bit values.
- Memory: `vkAllocateMemory`, `vkFreeMemory` and the device's memory-property query are foreign calls; allocations are integer handles with their sizes.
- ComputePipelines: the pipeline layout and `vkCreateComputePipelines` are foreign calls; only the specialisation entries are modelled.
- DescriptorLayouts and DescriptorPools: the Vulkan create and destroy calls are foreign; handles are integers.
- Shaders: loading SPIR-V from a file, creating the shader module, the SPIRV-Reflect library itself, and compiling GLSL with glslang in `ManualComputeShader::create` are not modelled; the reflection data is an input.
- Surfaces: creating the surface from the window, and the capability, present-mode and queue-support queries, are foreign calls; the driver's format list is an input.
- Swapchains: acquiring and presenting images, destroying the old chain's image views, and creating the new views are foreign calls; the driver's images and the views made for them are inputs, and the caller's `width` and `height` out-parameters are the extent returned.
- VulkanEnums: the field lists of the three feature structures and the bit tables of the three flag printers are parameters; the model states the builders for any such list.
- Serialise: the cereal archive encoding is not modelled, only the order and kind of the fields; a default-constructed `Link` has uninitialised ends in the source, which the model takes as the parameter `blank`.
- NewClass: the Python file handles, which the script never closes, are not modelled; the file system is a map from path to contents and the printed lines are appended to `output`.
- Ocio: loading the configuration, the processors and the shader generation (`make_shader`) are foreign calls; the space names are an input.
- Paths: only '/' separators are modelled; root names, repeated separators and the trailing-separator rules of ghc::filesystem are not.
- LegacyNodes.LegacyWindow.DeleteNode: follows the code as written, so it does not keep `Valid`; the invariant-keeping deletion is `Deleted`, proved by `DeleteNodeKeepsValid`.
- ImmediateExr.ExportPath: uses the intended numbering of the Findings row; as written the loop in src/outputs/immediate_exr.cpp:35-44 can run forever for a stem holding a dot (`AsWrittenLoopNeverExits`), which a terminating method cannot reproduce.
- Sand.SandNode.FillAddLocations: sets the corrected column of `Sand.AddColumn`; as written a column past the end stores one word beyond the buffer (`AddColumnOverruns`), a write the array model cannot make.
- Shaders.ComputeShader.Reflect: on failure the model leaves the layouts, ranges, types and local size as they were; the source has by then already pushed the set layout (entry point missing) or the earlier ranges and member types and set the local size (rejected member), and those partial pushes are not modelled.
- Shaders.ComputeShader.Create: inherits the atomic failure of `Reflect`; the partial pushes before a thrown exception are not modelled.
- Swapchains.Swapchain.Create: when the queue cannot present to the surface the source has already written the surface's extent into the caller's `width` and `height` before it throws; the model returns only the error.
- FfmpegInputs.SeekPosNonNegative: `SeekPos` multiplies in unbounded integers; the source computes `time_base.den * avg_frame_rate.den` and the product with the frame index in 32-bit `int` (src/inputs/ffmpeg.cpp:272), where overflow is undefined behaviour and can yield a negative position.
- Kernels.Kernel.SetPushArgByName: a null parameter stored under the name is dereferenced by the source; the model reports the error "null parameter" and changes nothing.
- Kernels.Kernel.SetPushArgByNameOn: a null parameter under the name is dereferenced by the source; the model reports "null parameter" and records nothing.
- Kernels.Kernel.PushExecutionOffset: a null `vkd_offset` parameter is dereferenced by the source; the model (`Kernels.OffsetPush`) records the error "null parameter" instead.
- Kernels.OffsetPush: a null `vkd_offset` entry is undefined behaviour in the source; the model records the error "null parameter".
- Kernels.ParamPushes: a null entry in `_params` is dereferenced by the source; the model records the error "null parameter" and pushes nothing after it. The `std::cout` line printed for each parameter (src/compute/kernel.cpp:157) is not modelled.
- Kernels.Kernel.PushParams: inherits `ParamPushes`: the null entry is an error in the model, and the printed line per parameter is left out.
- Kernels.Kernel.RecordDispatch: inherits the "null parameter" error of `ParamPushes` and `OffsetPush` and leaves out the printed line per parameter.
- NewClass.ImplTextLower: lower-casing is ASCII only (`Strings.Lower`); Python's `str.lower` also folds non-ASCII letters, so for non-ASCII names the model can call two names different that Python would lower alike.
- NewClass.RunFilesSpec: both paths use the ASCII-only `Strings.Lower`, not Python's Unicode `str.lower`.
- NewClass.RunFilesIdempotent: "equal in lower case" means ASCII lower case; Python's `str.lower` folds more names together.
- NewClass.Scaffold.WriteHeader: the header path uses the ASCII-only `Strings.Lower` for Python's `str.lower`.
- NewClass.Scaffold.WriteImpl: the implementation path uses the ASCII-only `Strings.Lower` for Python's `str.lower`.
- NewClass.Scaffold.Run: inherits the ASCII-only lower-casing of `WriteImpl`.

## Findings

| source | as written | input that shows it | evidently intended | confidence | as-written member | corrected member |
|---|---|---|---|---|---|---|
| src/compute/kernel.cpp:177 | the launch for the x, y and z remainders pushes `full_x` as its y offset | a 20 x 40 x 3 dispatch with 16 x 16 x 2 groups never runs invocation (16, 32, 2) | the y offset is `full_y` | not executed | DispatchPlan.PlanMissesCorner | DispatchPlan.IntendedPlanTiles |
| src/outputs/exr.cpp:105-107 | the counter is added by `replace_extension` on the stem and is lost when the stem holds a dot | path "s.v.x": every frame is written to "s.exr" | one file "s.v_N.exr" per frame | not executed | NumberedNames.AsWrittenCollides | ExrOutput.FilenameDistinct |
| src/outputs/immediate_exr.cpp:39-43 | each candidate name is built with the same edits, so a dotted stem drops the counter | file "s.v.x" with "s.v.ext" and "s.ext" present: the loop never finds a free name | candidates "s.v_N.ext" until one is free | not executed | ImmediateExr.AsWrittenLoopNeverExits | ImmediateExr.ExportPath |
| src/ui/nodes.cpp:262-270 | a new link id is pushed twice onto the end node's links | one link into the display node: it grows once and never again, and its source is queued twice | the link is recorded once | not executed | LegacyNodes.AsWrittenDisplayStalls | LegacyNodes.AddLinkKeepsSpare |
| src/ui/nodes.cpp:164-166 | deleting a node leaves the last added output pointing at its pin | delete the node whose output was added last | the last added output is reset | not executed | LegacyNodes.DeleteNodeAsWrittenDangles | LegacyNodes.DeleteNodeKeepsValid |
| src/ui/node_window.cpp:631-638 | a selected free output is linked into `*node.inputs.begin()` without checking that the new node has inputs | select a node with a free output, then add a node type with no inputs | no link when the new node has no input | not executed | NodeGraph.AddNodeDerefsNoInput | NodeGraph.AddNodeLinks |
| src/inputs/sane/sane_wrapper.cpp:200-202 | clearing the current device keeps its index | clear, then select the same index again: no device is opened | clearing also forgets the index | not executed | SaneWrapper.ClearedReselectFails | SaneWrapper.ClearedIntendedReselectOpens |
| src/inputs/sane/sane_service.cpp:66-73 | an integer-list parameter starts at 0 instead of the device's value | an integer-list option whose current value is not 0 sends 0 when left alone | the parameter starts at the device's current value | not executed | SaneService.IntListDefaultIsZero | SaneService.ParamEchoesDevice |
| src/compute/sand.cpp:120 | the column with its offset is capped at the width instead of the last column | width 10, column 8, offset 2: word 10 is written, one past the end | the cap is `width - 1` | not executed | Sand.AddColumnOverruns | Sand.AddColumn |
