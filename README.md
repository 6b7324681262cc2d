# SimpleCamera: a verified model of the preview-size selector and camera lifecycle

SimpleCamera wraps the Android NDK camera API. It opens the back-facing camera,
picks a preview resolution for a display window, and starts or stops a repeating
capture request that streams to a surface. This project models the logic that is
the library's own, all of it in `simple_camera.cpp`:

- `preview_size.dfy`, module `PreviewSize`: `Camera::GetPreviewSize`.
  - The stream configuration list is a flat list of integers, read four at a time as format, width, height and input flag.
  - The window is first turned to landscape (width ≥ height).
  - A record is kept when it is an output stream, its format is YUV_420_888 or JPEG, and its raw width and height fit the window.
  - Each kept record is turned to landscape. The kept size closest to the window wins, and on a tie the earliest one does.
  - With nothing kept the result is (0, 0).
  - The method `GetPreviewSize` has the source's stride-4 loop. It is proved equal to the pure specification `SelectPreviewSize`: filter, then take the arg-min (`BestIndex`, whose contract is the predicate `IsBest`).
  - The lemmas state the source's promises about that specification.
- `camera_lookup.dfy`, module `CameraLookup`: `GetBackFacingCameraId`. A linear search with an early `break`, proved against `FirstBackFacing`.
- `camera.dfy`, module `SimpleCamera`: class `Camera`. Its fields are the nullable handles (manager, device, surface) and the camera id. `Open`, `Close`, `StartStream` and `StopStream` change these handles as the source does. Each platform call becomes a method parameter (the handle or status it yields) or is left out as an outside effect.
- `wrappers.dfy`, module `Wrappers`: an `Option` type.

Distances are compared as squared integers. The source takes `sqrt` in `double` and starts `min_diff` at `INT_MAX`. Under the required bound (window and record dimensions in 0..32767), every squared distance is an integer below 2^31. So `<` on square roots decides the same way as `<` on the squares, and `sqrt(d) < INT_MAX` holds exactly when `d < INT_MAX * INT_MAX`. The model starts from that squared sentinel, `UNSET_DIFF_SQUARED`. The lemma `DistanceFitsInt32` shows that, under the bound, the first kept record always replaces the sentinel and the int32 arithmetic of lines 97-98 does not overflow.

The format values 0x23 (YUV_420_888) and 0x100 (JPEG) are the platform's image-header constants. That header, `media/NdkImage.h`, is not part of this model. The proofs do not depend on the constants' values.

Two behaviours of the code are kept as written:

- The fit test on lines 92-93 uses each record's raw orientation, before the swap on lines 94-96. So a 1080x1920 record never qualifies for a 1920x1080 window (`PortraitRecordIsRejected`).
- The code accepts zero dimensions. So a qualifying 0x0 record can be chosen, and it returns the same (0, 0) as no match. Hence `NothingQualifiesGivesZero` is one-directional, and `ResultComesFromQualifyingRecord` speaks only of non-(0, 0) results.

## Model

| member | source | states |
|---|---|---|
| PreviewSize.GetPreviewSize | simple_camera.cpp:72-110 | The stride-4 loop with its best-so-far locals and strict `<` update returns exactly the filtered arg-min `SelectPreviewSize` of the window and entries, for entry lists whose length is a multiple of 4 and dimensions in 0..32767 |
| PreviewSize.Records | simple_camera.cpp:85-89 | The stride-4 read yields one record per four entries; record k holds entries 4k, 4k+1, 4k+2 and 4k+3 as format, width, height and input flag |
| PreviewSize.RecordsOfFlatten | simple_camera.cpp:85-89 | Reading the flat four-entries-per-record layout of a record list at stride 4 gives back that record list |
| PreviewSize.FlattenOfRecords | simple_camera.cpp:85-89 | An entry list whose length is a multiple of 4 is exactly the flat layout of the records the stride-4 read yields, so no entry is lost or reordered |
| PreviewSize.Qualifies | simple_camera.cpp:90-96 | A qualifying record has input flag 0. For a landscape window, its size after the swap on lines 94-96 still fits the window |
| PreviewSize.DiffSquared | simple_camera.cpp:97-98 | Its only contract is `d >= 0`: the squared Euclidean distance is non-negative |
| PreviewSize.SelectPreviewSize | simple_camera.cpp:72-110 | The pure specification of the selector; its contract says only that the result has width ≥ height. What it computes is stated by the lemmas below |
| PreviewSize.TracksStep | simple_camera.cpp:94-103 | One loop iteration, with its swap and strict `<` update, keeps the locals equal to the arg-min over the records read so far, or to (0, 0) and the sentinel while none qualifies |
| PreviewSize.BestIndex | simple_camera.cpp:90-103 | None exactly when no record is an output in an accepted format with raw size inside the window; otherwise an index of a qualifying record at least as close as every qualifying record and strictly closer than every earlier qualifying one |
| PreviewSize.Landscape | simple_camera.cpp:74-76 | The swapped pair has width ≥ height and is the input pair in one of its two orders |
| PreviewSize.DistanceFitsInt32 | simple_camera.cpp:97-99 | For a size inside a window of dimensions at most 32767, the squared distance is below INT_MAX, hence below the sentinel, so the first qualifying record always replaces it |
| PreviewSize.NothingQualifiesGivesZero | simple_camera.cpp:83-109 | If no record qualifies (empty list, inputs only, unsupported formats, or all too large), the result is (0, 0) |
| PreviewSize.WindowOrientationIrrelevant | simple_camera.cpp:74-76 | Swapping the window's width and height gives the same result |
| PreviewSize.ResultComesFromQualifyingRecord | simple_camera.cpp:90-102 | A result other than (0, 0) is the landscape size of some record with input flag 0, format YUV_420_888 or JPEG, raw width ≤ W and raw height ≤ H |
| PreviewSize.ResultFitsWindow | simple_camera.cpp:74-96 | For a non-negative window, the result has width ≤ W, height ≤ H and width ≥ height, for the normalised window (W, H) |
| PreviewSize.ResultIsEarliestClosest | simple_camera.cpp:97-103 | When some record qualifies, the result is the landscape size of a record that minimises the distance among qualifying records and is the earliest such |
| PreviewSize.BestIsUnique | simple_camera.cpp:99-103 | The minimality and earliest-wins conditions pick out at most one record index |
| PreviewSize.ExactMatchIsChosen | simple_camera.cpp:90-103 | A qualifying record whose landscape size equals the normalised window makes the result equal to the window |
| PreviewSize.PortraitRecordIsRejected | simple_camera.cpp:90-96 | A 1080x1920 record does not fit a 1920x1080 window, although its landscape size matches; alone it yields (0, 0) |
| PreviewSize.ExactMatchExample | simple_camera.cpp:72-110 | Window (1080, 1920) with YUV 1920x1080, YUV 640x480 and JPEG 3000x2000 outputs selects (1920, 1080) |
| PreviewSize.ClosestSizeExample | simple_camera.cpp:97-103 | Window (800, 600) with YUV 640x480 and 720x480 outputs selects (720, 480) |
| CameraLookup.FirstBackFacing | simple_camera.cpp:16-33 | None exactly when no camera faces back; otherwise the index of a back-facing camera with no back-facing camera before it |
| CameraLookup.BackFacingId | simple_camera.cpp:16-36 | The returned id is "" when no camera faces back; otherwise it is the id of a back-facing camera with no back-facing camera before it |
| CameraLookup.GetBackFacingCameraId | simple_camera.cpp:12-37 | The loop with early break returns the id of the first back-facing camera, and "" when none faces back |
| CameraLookup.BackFacingIdIsFirstBack | simple_camera.cpp:28-36 | If camera k faces back and none before it does, the returned id is camera k's |
| SimpleCamera.Camera.constructor | simple_camera.h:22-31 | A new camera holds null manager, device and surface handles and an empty id |
| SimpleCamera.Camera.Open | simple_camera.cpp:50-69 | Stores the created manager. A null manager throws "failed to create camera manager". Otherwise it stores the back-facing id and the opened device handle, and throws "failed to open camera" exactly when the open status is not ACAMERA_OK |
| SimpleCamera.Camera.Close | simple_camera.cpp:112-122 | Afterwards surface, device and manager are all null; the camera id is unchanged |
| SimpleCamera.Camera.StartStream | simple_camera.cpp:198-248 | Sets the surface to its argument first, then throws "failed to start stream" exactly when the device or that surface is null; only the surface changes |
| SimpleCamera.Camera.StopStream | simple_camera.cpp:250-261 | Leaves the surface null and changes nothing else; with no surface held it changes nothing at all |
| SimpleCamera.StopStreamTwice | simple_camera.cpp:250-261 | A second StopStream leaves the state exactly as the first left it: StopStream is idempotent |
| SimpleCamera.StartAfterClose | simple_camera.cpp:198-200 | After Close, StartStream with any surface throws but leaves that surface stored, with device and manager null |

## Left out

- Platform calls are not modelled: metadata queries, id-list retrieval, manager creation, `openCamera`, and capture-request, session-output, output-target and session creation. Also `setRepeatingRequest`, `stopRepeating`, session close, the frees, and window acquire/release. Their results are method parameters (the entry list, the camera list, the created manager, the open status and the device handle). Their other effects belong to the platform service.
- The capture-request, output-target, session and session-output-container fields are written only by platform calls, so they are not part of the class state.
- `GetPreviewSize` is a member of the camera class in the source, but it uses the class only to query metadata. The model makes it a module-level method that takes the queried entries as a parameter.
- The device and session callbacks are empty stubs with no behaviour (lines 42-48, 127-196).
- Logging is not modelled (lines 73, 107).
- Floating point: `double`, `sqrt` and the `INT_MAX` sentinel are replaced by integer squared distances and the squared sentinel. This is exact under the dimension bound.
- PreviewSize.GetPreviewSize: does not model int32 wrap-around in lines 97-98 for dimensions above 32767, because that overflow is undefined behaviour in C++; the bound is a precondition instead.
- SimpleCamera.Camera.constructor: the source leaves the handle fields uninitialised, and calling `Close` or `StopStream` before `Open` is undefined behaviour; the model starts with null handles.
- CameraLookup.GetBackFacingCameraId: the lens-facing metadata byte is modelled by the three enumerated facings, not as an arbitrary byte.
- Calling `Open` twice leaks the first manager and device in the source. The model simply overwrites the handles.
- Concurrency: the platform runs callbacks on its own threads, but they do nothing.
