# RustyBlocks chunk storage and swapchain selection, in Dafny

This project models two parts of the RustyBlocks voxel engine prototype and proves properties of them.

**Chunk voxel storage** (`src/base/voxel.rs`, module `Voxel` in `voxel.dfy`). A `ChunkData` is a fixed cube of 64 x 64 x 64 boolean cells held in one flat array. Cell (x, y, z) lives in slot `64 * (64 * x + y) + z`, so z varies fastest, then y, then x. The model is a class over an `array<bool>` of length 64³:

- `set` writes one slot in place and `get` reads one.
- Both panic on any coordinate of 64 or more. The model states that panic as their precondition `InBounds`.
- The linearisation is proved to keep in-bounds cells inside the array, to be injective and to reach every slot.
- A correctly derived inverse is proved to round-trip in both directions.
- The source's own `coordinates_from_position` is modelled as written, with `usize` subtraction that panics in a Debug build and wraps modulo 2^64 in a Release build. It is shown not to be an inverse (see "## Findings").

**Swapchain parameter selection** (`src/engine/render/render_server.rs`, module `SwapchainSelection` in `render_server.dfy`). These are the pure decision rules `RenderServer` applies to what the Vulkan surface-capabilities query, the physical device's extension list and the graphics and present queues' families report:

- the present mode, by preference Mailbox, then Immediate, then Fifo;
- the surface format, with B8G8R8A8Unorm/SrgbNonLinear preferred and the first reported format as the fallback;
- the extent, either the surface's current extent or 800 x 600 clamped to the allowed range;
- the image count, one more than the minimum but capped at the maximum;
- the device-extension subset test;
- the exclusive-or-concurrent sharing choice.

Each rule is a function over plain records. Its contract states the choice by its meaning: most preferred, a member of the input, within the bounds. `ChooseSwapchainParameters` puts the rules together, listing the results in the order `Swapchain::new` takes them.

`wrappers.dfy` holds the `Option` type. The model uses it for Rust's `Option` and, in `Voxel`, for a computation that panics.

## Model

| member | source | states |
|---|---|---|
| Voxel.PositionFromCoordinates | src/base/voxel.rs:37-39 | every in-bounds cell maps to a slot below 64³, the length of the array |
| Voxel.PositionInjective | src/base/voxel.rs:37-39 | two in-bounds cells with the same slot are the same cell |
| Voxel.PositionCoversChunk | src/base/voxel.rs:37-39 | every slot below 64³ belongs to some in-bounds cell |
| Voxel.CoordinatesFromPosition | src/base/voxel.rs:41-46 | the corrected inverse gives y and z below 64, and x below 64 exactly when the slot is below 64³ |
| Voxel.PositionRoundTrip | src/base/voxel.rs:41-46 | mapping any slot to coordinates with the corrected inverse and back gives the same slot |
| Voxel.CoordinatesRoundTrip | src/base/voxel.rs:41-46 | mapping in-bounds coordinates to a slot and back with the corrected inverse gives the same coordinates |
| Voxel.UsizeSub | src/base/voxel.rs:43-44 | `usize` subtraction is exact when it does not underflow; on underflow it panics in Debug and wraps modulo 2^64 in Release |
| Voxel.CoordinatesFromPositionAsWritten | src/base/voxel.rs:41-46 | the source's formula yields x below 4096 and y, z below 64; a Release build always answers |
| Voxel.AsWrittenFailsAtOne | src/base/voxel.rs:41-46 | slot 1 is cell (0, 0, 1), yet the source's formula panics on it in Debug and answers (1, 1, 1) in Release |
| Voxel.AsWrittenPanicsOnFirstPlane | src/base/voxel.rs:42-43 | in a Debug build the source's formula panics on every slot from 1 to 4095 |
| Voxel.AsWrittenInvertsOnlyOrigin | src/base/voxel.rs:41-46 | in either build, the source's formula returns the right coordinates for no in-bounds cell except (0, 0, 0) |
| Voxel.ChunkData.constructor | src/base/voxel.rs:11-13 | `new` gives a fresh array of 64³ cells, all false |
| Voxel.ChunkData.FromArray | src/base/voxel.rs:15-17 | `from_array` stores the 64³ input unchanged, so cell (x, y, z) is `arr[64 * (64 * x + y) + z]` |
| Voxel.ChunkData.Set | src/base/voxel.rs:19-26 | for an in-bounds cell, the new content is the old one with that cell's slot set to the value; the cell then reads as the value; every other in-bounds cell keeps its old value |
| Voxel.ChunkData.Get | src/base/voxel.rs:28-35 | for an in-bounds cell, returns the value of the cell's slot and changes nothing |
| SwapchainSelection.ChooseSwapPresentMode | src/engine/render/render_server.rs:201-209 | the result is never Relaxed; it is Fifo or a supported mode; no supported non-Relaxed mode is preferred to it |
| SwapchainSelection.PresentModeIsUnique | src/engine/render/render_server.rs:201-209 | any mode that meets those three conditions is the one chosen, so they define the rule completely |
| SwapchainSelection.FindPreferred | src/engine/render/render_server.rs:196-197 | finds the index of the first preferred (format, colour space) pair, or reports that there is none |
| SwapchainSelection.ChooseSwapSurfaceFormat | src/engine/render/render_server.rs:195-199 | for a non-empty list: the result is in the list; it is the preferred pair exactly when the list has one; otherwise it is the first entry |
| SwapchainSelection.ClampDimension | src/engine/render/render_server.rs:217-218 | `max` then `min` yields at most the maximum, at least the minimum when min ≤ max, the default when it is in range, the minimum when the default is below a non-empty range, and the maximum when the default is above it or the range is empty |
| SwapchainSelection.ChooseSwapExtent | src/engine/render/render_server.rs:211-221 | returns the current extent unchanged when there is one; otherwise each dimension is at most the maximum, at least the minimum when min ≤ max, a dimension whose default (800 or 600) is within its range keeps it, and a dimension outside its range becomes the nearer bound (the maximum when the range is empty) |
| SwapchainSelection.ChooseImageCount | src/engine/render/render_server.rs:239-242 | the count is min + 1 when there is no maximum or when min + 1 is within it; it is the maximum when min + 1 exceeds it, so it never exceeds the maximum; it is at least min when min ≤ max |
| SwapchainSelection.ExtensionsSupported | src/engine/render/render_server.rs:79 | `available ∩ required == required` holds exactly when required ⊆ available |
| SwapchainSelection.CheckDeviceExtensionSupport | src/engine/render/render_server.rs:61-80 | a device qualifies exactly when it offers VK_KHR_swapchain, the one extension the renderer enables |
| SwapchainSelection.ChooseSharingMode | src/engine/render/render_server.rs:249-253 | sharing is concurrent exactly when the two queue families differ, and then it lists graphics then present; otherwise the graphics family owns the images exclusively |
| SwapchainSelection.SharingCoversBothQueues | src/engine/render/render_server.rs:249-253 | the chosen mode lets exactly the graphics and present families use the images, and a concurrent mode lists at least two distinct families |
| SwapchainSelection.ChooseSwapchainParameters | src/engine/render/render_server.rs:235-253 | the parameters passed to `Swapchain::new` come from what the surface reports: the format is a reported one; the image count is within [min, max]; the mode is supported when Fifo is; the extent is within range when there is no current extent; both queues may use the images |

## Left out

- `src/base/mesher.rs` is not part of this model. Its greedy mesher is a stub: it returns one hard-coded triangle through an `unsafe` transmute into a raylib FFI struct, and there is no merging algorithm to model.
- No greedy-meshing algorithm is modelled; the source's mesher is a stub.
- `ChunkComponent`, `must_rebuild` and `VoxelSystem` (src/base/voxel.rs:53-64) are data holders with no behaviour.
- All other code in `render_server.rs` is left out: instance, surface, device and swapchain creation, validation layers, the debug callback, `is_device_suitable`, `pick_physical_device` and `render_loop`. It consists of Vulkan and GLFW calls, `unsafe` FFI and console output.
- `render_system.rs`, `components.rs`, `core.rs` and `main.rs` are left out. They are raylib drawing and the `specs` entity-component glue.
- Voxel.ChunkData.Set and Voxel.ChunkData.Get: a panic on an out-of-bounds coordinate is a precondition. The model does not represent the aborted process.
- Voxel.ChunkData.FromArray: the input length is a precondition, because Rust's array type fixes it; `from_array` has no length error path.
- Voxel.UsizeSub: `usize` is taken to be 64 bits wide. The Debug panic and the Release answer (1, 1, 1) at slot 1 are the same for any power-of-two width of 2^12 or more, because 64 divides the modulus.
- Voxel.PositionFromCoordinates: works on unbounded naturals. The `usize` overflow that huge coordinates would cause is not modelled, since every caller checks bounds first.
- SwapchainSelection.ChooseImageCount: requires `min_image_count` below `u32::MAX`. At `u32::MAX` the `+ 1` overflows, which panics in a Debug build and gives 0 in a Release build. That overflow is not modelled.
- SwapchainSelection.ChooseSwapSurfaceFormat: requires a non-empty list, because `[0]` panics on an empty one. The renderer only selects devices that report at least one format.
- SwapchainSelection.ChooseSharingMode: vulkano's `SharingMode::Exclusive` carries no payload. The model records the graphics family as the owner, since that queue uses the images first. The conversions from queues into `SharingMode` belong to vulkano and are not modelled.
- Vulkan formats and colour spaces other than B8G8R8A8Unorm and SrgbNonLinear are reduced to an opaque numeric code. That code names only the other formats and colour spaces, never these two. Device extensions are reduced to a set of names.

## Findings

| source | as written | input that shows it | evidently intended | confidence | as-written member | corrected member |
|---|---|---|---|---|---|---|
| src/base/voxel.rs:41-46 | `x = pos % 4096`, then `y = (pos - x*64) % 64` and `z = (pos - y*64 - x*4096) % 64` | `pos = 1`, which is cell (0, 0, 1): `1 - 64` underflows, so a Debug build panics and a Release build returns (1, 1, 1) | `(pos / 4096, (pos / 64) % 64, pos % 64)`, the inverse of `position_from_coordinates` | high; not executed | Voxel.AsWrittenFailsAtOne | Voxel.CoordinatesRoundTrip |
