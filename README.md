# MainView camera core, modelled in Dafny

This project models the logic of `MainView`, the custom `SurfaceView` of the
example-kotlin-android-camera1 sample app. `MainView` opens the device camera,
picks a preview size, works out the display orientation and releases the
camera when the surface goes away. The project has three parts:

- `preview_size.dfy` (module `PreviewSize`) models `getMinCameraSize`. It
  copies the supported preview sizes into an array and sorts it in place by
  area. An insertion sort stands in for `Arrays.sort`. Then a `while` loop
  scans for the first size whose area reaches `MIN_SIZE` = 320 × 240 = 76,800.
  The result is specified by `IsMinCameraSize`: when some supported size
  reaches the floor, the result has the least area among those sizes;
  otherwise it has the greatest area. There is no result exactly when the
  list is empty.
- `orientation.dfy` (module `Orientation`) models the rotation arithmetic of
  `updateView`. This covers the `when` table from `Surface.ROTATION_*` codes to
  degrees, Kotlin's truncating `%` by 360 (`Rem360`), and the front-facing
  (mirrored) and back-facing formulas.
- `camera_lifecycle.dfy` (module `CameraLifecycle`) models the class
  `MainView`. Its `camera` field holds an `Option<Session>`, where `None` is
  Kotlin's `null`. A `Session` is a camera handle plus what the view has done
  to that camera. The methods are the surface callbacks, `openCameraInstance`,
  `releaseCameraInstance`, `startView`, `stopView`, `updateView` and
  `reopen`. Three ghost fields keep the books on cameras:
  - `leaked` collects the cameras that were overwritten without `release()`.
  - `released` logs the cameras given back, in the state they were in when
    released. It shows that the surface-destroyed and reopen paths stop the
    preview and the frame callback before `release()`.
  - `configured` logs each camera as it was when `updateView` began to set
    its preview size and display orientation. It shows that the preview and
    the frame callback are stopped before the camera is reconfigured.

The platform is never called. Its answers are parameters:

- A `Device` gives the outcome of `Camera.open()`, the camera count and the
  outcome of `Camera.open(0)`. Each open outcome is a handle, `null`, or an
  exception.
- A `ViewEnv` gives five things: whether the holder has a surface, the
  supported preview sizes, the display rotation code, the `CameraInfo`
  (facing, orientation) of camera id `CAMERA_FACING_BACK`, and whether
  `setPreviewDisplay` succeeded.

Some details follow the code:

- If `Camera.open()` throws, the assignment to `camera` is skipped, so the
  field keeps its previous value. The model does the same (`OpenOutcome.Threw`).
- `surfaceCreated` opens a camera without checking whether one is already
  held. In that case, unless `Camera.open()` throws, the held camera is
  dropped without `release()`, and `OpenCameraInstance` records it in
  `leaked`. When `Camera.open()` throws, the held camera stays in the field
  and nothing leaks. Every other operation leaves
  `leaked` unchanged. So does `SurfaceCreated` when it starts with no camera,
  which is the normal created/changed/destroyed order (`SurfaceLifetime`).
- The rotation query reads the `CameraInfo` of camera id `CAMERA_FACING_BACK`,
  not of the camera that was actually opened. The model keeps this: the info
  is an input, unrelated to the handle.

## Model

| member | source | states |
|---|---|---|
| `PreviewSize.SortByArea` | app/src/main/java/ar/net/rainbyte/examplecamera1/MainView.kt:226-231 | after the in-place sort the array is non-decreasing by area and a permutation (same multiset) of the input |
| `PreviewSize.GetMinCameraSize` | app/src/main/java/ar/net/rainbyte/examplecamera1/MainView.kt:221-243 | returns no size exactly when the list is empty; otherwise returns an element of the list that has the least area among the sizes reaching 76,800, or the greatest area when none reaches it; the scan keeps the invariant that every size before index i-1 is below the floor |
| `PreviewSize.MinCameraSizeAreaUnique` | app/src/main/java/ar/net/rainbyte/examplecamera1/MainView.kt:231-242 | any two admissible choices have the same area, so the selection is determined up to ties in area |
| `PreviewSize.ExactFloorScenario` | app/src/main/java/ar/net/rainbyte/examplecamera1/MainView.kt:16 | from 160x120, 320x240 and 640x480 the choice is 320x240, whose area equals the floor exactly |
| `PreviewSize.BelowFloorScenario` | app/src/main/java/ar/net/rainbyte/examplecamera1/MainView.kt:237-242 | a single size below the floor (100x100) is still the choice |
| `Orientation.Rem360` | app/src/main/java/ar/net/rainbyte/examplecamera1/MainView.kt:171-174 | Kotlin's `% 360`: the remainder lies strictly between -360 and 360, has the sign of the dividend, and differs from the dividend by a multiple of 360 |
| `Orientation.Degrees` | app/src/main/java/ar/net/rainbyte/examplecamera1/MainView.kt:160-167 | the result is always 0, 90, 180 or 270; a rotation code 0..3 gives 90 degrees per quarter turn, and any other code gives 0 |
| `Orientation.DisplayOrientation` | app/src/main/java/ar/net/rainbyte/examplecamera1/MainView.kt:169-175 | front-facing: the result plus sensor orientation plus display rotation is a multiple of 360 (the mirror image); otherwise the result plus the display rotation equals the sensor orientation modulo 360; the result lies in [0, 360) whenever both inputs do |
| `Orientation.DisplayOrientationInRange` | app/src/main/java/ar/net/rainbyte/examplecamera1/MainView.kt:169-175 | for a sensor orientation in [0, 360) and any rotation code, the display orientation lies in [0, 360) |
| `Orientation.DisplayOrientationClosedForm` | app/src/main/java/ar/net/rainbyte/examplecamera1/MainView.kt:169-175 | on those inputs the result equals `(360 - ((o + d) mod 360)) mod 360` when front-facing and `(o - d + 360) mod 360` otherwise, because no operand of `%` is negative |
| `Orientation.FrontCancelsRotation` | app/src/main/java/ar/net/rainbyte/examplecamera1/MainView.kt:170-172 | front-facing: an angle x in [0, 360) satisfies x + o + d ≡ 0 (mod 360) if and only if x is the computed orientation (mirror compensation) |
| `Orientation.BackUndoesRotation` | app/src/main/java/ar/net/rainbyte/examplecamera1/MainView.kt:173-174 | back-facing: an angle x in [0, 360) satisfies (x + d) mod 360 = o if and only if x is the computed orientation |
| `Orientation.MirrorInvolution` | app/src/main/java/ar/net/rainbyte/examplecamera1/MainView.kt:172 | the mirror step `(360 - x) % 360` applied twice returns x for every x in [0, 360) |
| `Orientation.BackScenario` | app/src/main/java/ar/net/rainbyte/examplecamera1/MainView.kt:173-174 | back-facing, sensor at 90, ROTATION_0: the orientation is 90 |
| `Orientation.FrontScenario` | app/src/main/java/ar/net/rainbyte/examplecamera1/MainView.kt:170-172 | front-facing, sensor at 270, ROTATION_90: the orientation is 0 |
| `CameraLifecycle.AfterDefaultOpen` | app/src/main/java/ar/net/rainbyte/examplecamera1/MainView.kt:89-93 | after `camera = Camera.open()`, the field is null exactly when the open returned null, or threw while the field was already null; the field changes only if the open did not throw; an opened camera arrives with nothing set on it |
| `CameraLifecycle.AfterOpen` | app/src/main/java/ar/net/rainbyte/examplecamera1/MainView.kt:86-117 | the field ends null exactly when the default open left it null and either no camera is counted or `Camera.open(0)` did not yield a camera; a non-null field comes from the default open or from a fresh `Camera.open(0)` handle |
| `CameraLifecycle.IndexOpenOnlyAsFallback` | app/src/main/java/ar/net/rainbyte/examplecamera1/MainView.kt:95-108 | when the default open left a camera in the field, or the count is not positive, the count and the outcome of `Camera.open(0)` do not affect the result |
| `CameraLifecycle.MainView.OpenCameraInstance` | app/src/main/java/ar/net/rainbyte/examplecamera1/MainView.kt:86-117 | the new field is `AfterOpen` of the old one; returns true iff the field is non-null; a held camera that gets overwritten is recorded as leaked |
| `CameraLifecycle.MainView.ReleaseCameraInstance` | app/src/main/java/ar/net/rainbyte/examplecamera1/MainView.kt:119-124 | always leaves the field null, releasing exactly the camera that was held, in the state it had (nothing when none was) |
| `CameraLifecycle.MainView.StartView` | app/src/main/java/ar/net/rainbyte/examplecamera1/MainView.kt:203-210 | no change at all when the field is null; otherwise the frame callback is installed and the preview runs, with nothing else changed |
| `CameraLifecycle.MainView.StopView` | app/src/main/java/ar/net/rainbyte/examplecamera1/MainView.kt:212-219 | no change at all when the field is null; otherwise the frame callback is removed and the preview stops, with nothing else changed |
| `CameraLifecycle.MainView.UpdateView` | app/src/main/java/ar/net/rainbyte/examplecamera1/MainView.kt:126-194 | no change without a surface or a camera; otherwise first stops the preview and frame callback, logging the camera in that stopped state before anything is reconfigured; then it keeps the same camera and records the size selected by getMinCameraSize and the computed display orientation; preview and frame callback end up running exactly when the surface bind succeeded |
| `CameraLifecycle.MainView.SurfaceCreated` | app/src/main/java/ar/net/rainbyte/examplecamera1/MainView.kt:44-62 | the field becomes `AfterOpen` of the old one; if it is non-null, the frame callback is installed and the surface is bound when the bind succeeded; a held camera that the open replaces or clears is recorded as leaked, and nothing leaks when no camera was held |
| `CameraLifecycle.MainView.SurfaceChanged` | app/src/main/java/ar/net/rainbyte/examplecamera1/MainView.kt:64-78 | a held camera is kept, never reopened; with none held, one is opened; the field ends null only when none was held and opening failed; without a surface, a held camera is left untouched and a newly opened one stays as the open left it; with a surface, the camera ends with the chosen size, the computed orientation and the preview running exactly when the bind succeeded, and it is bound if it was before or the bind succeeded; the camera was stopped before it was reconfigured |
| `CameraLifecycle.MainView.SurfaceDestroyed` | app/src/main/java/ar/net/rainbyte/examplecamera1/MainView.kt:80-84 | always leaves the field null, releasing the camera that was held, with its preview and frame callback stopped before the release |
| `CameraLifecycle.MainView.Reopen` | app/src/main/java/ar/net/rainbyte/examplecamera1/MainView.kt:196-201 | stops and releases the held camera, then opens as from a null field; the field ends null exactly when that open fails; without a surface the new camera stays as the open left it; with a surface it ends with the chosen size and computed orientation, and it is bound and previewing exactly when the bind succeeded; the new camera was stopped before it was reconfigured |
| `CameraLifecycle.SurfaceLifetime` | app/src/main/java/ar/net/rainbyte/examplecamera1/MainView.kt:44-84 | created, changed, destroyed from no camera: the field ends null, nothing leaks, and the one camera opened (by created, or else by changed) is the one released, stopped before its release; every reconfiguration happened on a stopped camera |

## Left out

- `MainActivity.kt`: runtime-permission checks and requests, toasts and view lookup are calls into Android whose behaviour is not visible here. It is not part of this model.
- Camera hardware effects are abstracted as flags on `Session` (`previewing`, `frameCallback`, `boundToSurface`, `chosenPreviewSize`, `displayOrientation`). This covers `setPreviewDisplay`, `setPreviewCallback`, `startPreview`, `stopPreview`, `setDisplayOrientation` and `release`.
- `CameraLifecycle.MainView.UpdateView`: the size is written into the `Parameters` object returned by `camera.parameters`, and the code never hands that object back. Whether the device's preview size changes depends on Android's `Camera.getParameters` semantics, which are outside this model. The model only records the chosen size.
- `CameraLifecycle.MainView.UpdateView`: `minSize!!` throws when the camera reports no preview sizes. The model requires a non-empty list whenever that line is reached, and does not model the crash.
- Exceptions are modelled as explicit outcomes and are not propagated. `Camera.open` throwing is `OpenOutcome.Threw`, and an `IOException` from `setPreviewDisplay` is `bindOk == false`. A `stopView` failure inside updateView's `try` cannot happen in the model.
- `PreviewSize.GetMinCameraSize`: it allows any size of the least qualifying area (or of the greatest area on the fallback path). Because `Arrays.sort` is stable, the source returns the first such size in input order (the last one on the fallback path). The model does not state which size wins a tie.
- `PreviewSize.SortByArea`: it proves sortedness by area and permutation only. The stability of `Arrays.sort`, which decides among sizes of equal area, is not stated.
- Integer overflow is not modelled. Areas (`width * height`, and the comparator's `a.w*a.h - b.w*b.h`) are mathematical integers over non-negative dimensions.
- Logging, the view constructors, `initialize`, `setWillNotDraw` and the empty `onPreviewFrame` have no logic to model.
- The `WindowManager` rotation query, `Camera.getCameraInfo` and `Camera.getNumberOfCameras` are inputs (`ViewEnv`, `Device`).
