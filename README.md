# Object-detection overlay demo: a verified model of its core

The demo shows a mirrored webcam feed and draws, for every object a detector
finds in the current frame, a highlighter box and a label at the box's centre.
This project models the logic of `script.js` that is not browser glue:

- **Overlay geometry** (`geometry.dfy`, module `Geometry`): the per-frame
  mapping from a detection's box in video pixels to the on-screen rectangle
  (mirrored, scaled per axis, shifted by the container margins), its label
  anchor, and the separate resize/full-window mapping (letterbox test, one
  uniform scale with a vertical centring offset, no margins). Both formulas are
  kept as written. Lemmas relate them: they agree without margins or
  letterboxing, and they diverge under letterboxing.
- **Label text** (`text.dfy`, module `Text`): ASCII case mapping, the
  case-insensitive "person" test and the rounded confidence percentage.
- **Overlay elements** (`overlay.dfy`, module `Overlay`): the highlighter and
  label elements, the list built for a detection result, and the resize path
  that re-reads each element's retained box through `parseFloat`. JavaScript
  numbers that can become NaN are modelled as `Num`. A style length that is
  assigned NaN keeps its previous value, as the style setter ignores `"NaNpx"`.
- **Controller** (`controller.dfy`, module `Controller`): the module-level
  variables as fields of one class `Demo`: `runningMode`, `lastVideoTime`,
  `children`, `isFullWindow`, the video's `muted` flag, the mute button's text,
  and whether the detector has loaded and the camera is streaming. Each page
  handler is a method. The detector is a function parameter from (frame
  playback time, call timestamp) to a sequence of detections. A ghost log
  records the calls the detector receives. The class invariant says that the
  overlay list is highlighter/label pairs and that the detector is switched to
  VIDEO once, before its first per-frame call.

All geometry is exact arithmetic over `real`. The detector's output,
`performance.now()`, the video's playback time and the element sizes are
parameters.

## Model

| member | source | states |
|---|---|---|
| `Geometry.Mirror` | script.js:109 | the mirrored box's right edge is the reflected left edge, and its other fields are kept |
| `Geometry.MirrorInvolution` | script.js:109 | mirroring twice in the same frame gives back the box |
| `Geometry.MainScaleX` | script.js:99-103 | the horizontal scale maps the whole video width onto the offset width minus twice the left margin |
| `Geometry.MainScaleY` | script.js:100-104 | the vertical scale maps the whole video height onto the offset height minus twice the top margin, independently of the horizontal scale |
| `Geometry.MainRect` | script.js:97-112 | the per-frame rectangle is the mirrored box placed by the per-axis scales plus the margins; its right edge is `(videoWidth - originX) * scaleX + marginLeft` |
| `Geometry.Centre` | script.js:137-142 | the anchor is equidistant from opposite edges and lies inside a rectangle with non-negative size |
| `Geometry.MainAnchor` | script.js:137-138 | the label anchor is the centre of the per-frame rectangle |
| `Geometry.MainRectInvertible` | script.js:109-112 | with a non-degenerate display area, the box can be recovered from its per-frame rectangle |
| `Geometry.PlaceWithinArea` | script.js:109-112 | placing a box that lies in its frame keeps it in the placed frame |
| `Geometry.MainRectWithinDisplay` | script.js:97-112 | a box inside the video frame is drawn inside the displayed area that starts at the margins |
| `Geometry.LetterboxedCross` | script.js:162-170 | the aspect-ratio test `videoWidth/videoHeight > displayWidth/displayHeight` is the cross-multiplied comparison |
| `Geometry.ResizePlacement` | script.js:156-179 | offsetX is 0 and the video width spans the display width; letterboxed: scaleY equals scaleX and the scaled video is centred vertically with a strictly positive offset; otherwise offsetY is 0 and the video height spans the display height |
| `Geometry.LetterboxFacts` | script.js:170-173 | in the letterbox case `(displayHeight - displayWidth/aspectRatio)/2` is positive and centres the scaled video |
| `Geometry.ResizeRect` | script.js:179-190 | the resize rectangle is the mirrored box placed by the resize path's scales and offsets |
| `Geometry.ResizeAnchor` | script.js:182-194 | the label position the resize path computes from the box is the centre of the resize rectangle |
| `Geometry.PlaceWithinBand` | script.js:173-183 | a placed box stays inside the band the scaled video occupies, strictly inside when there is an offset |
| `Geometry.ResizeRectWithinDisplay` | script.js:156-190 | a box inside the video frame lands inside the display; when letterboxed it stays strictly between the bands |
| `Geometry.PathsAgreeWithoutMarginsOrLetterbox` | script.js:97-190 | with zero margins and no letterboxing the two paths give the same rectangle |
| `Geometry.PathsDivergeUnderLetterbox` | script.js:97-179 | with letterboxing the resize path's vertical scale is below the per-frame path's and it adds a positive offset |
| `Text.LowerChar` | script.js:119 | the result is not an upper-case letter, and only upper-case letters change |
| `Text.ToLower` | script.js:119 | the result has the input's length and lower-cases each character |
| `Text.ToUpper` | script.js:134 | the result has the input's length and upper-cases each character |
| `Text.LowerOfUpper` | script.js:119-134 | lower-casing an upper-cased name gives the lower-cased name |
| `Text.LowerIdempotent` | script.js:119 | lower-casing twice is lower-casing once |
| `Text.LowerOfLowerCase` | script.js:119 | a name with no upper-case letter is its own lower-case form |
| `Text.PersonIgnoresCase` | script.js:119-134 | the person test gives the same answer on the upper-cased name the label shows |
| `Text.Percent` | script.js:134 | the percentage is the nearest integer to `score * 100`, halves rounded up, and lies in 0..100 for a score in [0, 1] |
| `Overlay.SourceData` | script.js:182-194 | the data-orig-* attributes hold every key the resize path reads and give back the box |
| `Overlay.ClassName` | script.js:116-120 | a highlighter's class is exactly `"highlighter"` if and only if it is not a person highlighter; a label's is `"detection-label"` |
| `Overlay.HighlighterFor` | script.js:109-129 | the highlighter sits at the per-frame rectangle and is a person highlighter if and only if the lower-cased first category name is `"person"` |
| `Overlay.LabelFor` | script.js:131-145 | the label shows the upper-cased first category name and the rounded percentage of its score, and sits at the centre of the per-frame rectangle |
| `Overlay.Render` | script.js:107-149 | the list holds two elements per detection |
| `Overlay.RenderAt` | script.js:107-148 | element 2k is detection k's highlighter and element 2k+1 its label, in detection order |
| `Overlay.Overlays` | script.js:86-149 | after a frame the overlay list has 2·n elements, is highlighter/label pairs, and each pair retains its detection's box |
| `Overlay.OverlaysAsWritten` | script.js:115-148 | as the program writes them, no element has any data-orig-* attribute |
| `Overlay.Reposition` | script.js:181-196 | repositioning keeps an element's kind, dataset, person class, name and percentage |
| `Overlay.MovedToResizeRect` | script.js:181-196 | an element that retains its box moves to the resize rectangle (highlighter) or its centre (label), with finite positions |
| `Overlay.MovedWithoutSource` | script.js:182-194 | for an element with no retained box the computed left and top are NaN; the style setter drops them, so the element does not change |
| `Overlay.RepositionAsWritten` | script.js:185-195 | the program's className dispatch leaves a person highlighter unchanged and moves every other element as Reposition does |
| `Overlay.RepositionPair` | script.js:181-196 | a highlighter/label pair stays a pair after repositioning |
| `Overlay.RepositionKeepsPairs` | script.js:181-196 | repositioning keeps the overlay list a list of pairs with each label at its highlighter's centre |
| `Overlay.RepositionIdempotent` | script.js:181-196 | repositioning twice for the same viewport is repositioning once |
| `Overlay.RepositionPlacesBoxes` | script.js:181-196 | after a frame and a resize, detection k's highlighter is at the resize rectangle of its own box and its label at that rectangle's centre |
| `Overlay.AsWrittenResizeMovesNothing` | script.js:182-194 | as written, a resize leaves every overlay exactly as the per-frame path drew it: the computed positions are NaN and are dropped |
| `Overlay.PersonHighlighterLeftBehind` | script.js:119-195 | once boxes are retained, the className dispatch breaks a person pair whose box the resize path moves: the label leaves its highlighter's centre |
| `Overlay.PersonHighlighterExample` | script.js:119-195 | a box at the top-left of a 100×100 video: centre (95, 5) per frame, (190, 10) after a resize to 200×200 |
| `Controller.Demo.constructor` | script.js:3-8 | initially IMAGE mode, lastVideoTime −1, no overlays, not full-window, detector not loaded |
| `Controller.Demo.DetectorReady` | script.js:14-25 | the detector becomes available and the invariant holds |
| `Controller.Demo.EnableCam` | script.js:40-65 | before the detector loads nothing changes; afterwards the camera starts exactly when the stream is granted |
| `Controller.Demo.PredictWebcam` | script.js:69-85 | (with boxes retained) the mode ends as VIDEO and is switched only on the call that sees IMAGE; an unchanged playback time runs no detection and leaves the overlays alone; a new one sets lastVideoTime and replaces the overlays with those of exactly one detection |
| `Controller.Demo.DisplayVideoDetections` | script.js:86-150 | the overlay list becomes exactly the pairs of this detection result, each retaining its box; nothing from before remains |
| `Controller.Demo.UpdateDetectionPositions` | script.js:155-197 | every overlay, person highlighters included, is repositioned in place, in order, and the pairs invariant holds; an empty list stays empty |
| `Controller.Demo.ToggleFullWindow` | script.js:202-231 | the full-window flag is negated and the overlays are always repositioned, also before the video has a size when there are none |
| `Controller.Demo.OnResize` | script.js:247-251 | the overlays are repositioned exactly when in full-window mode (an empty list stays empty) |
| `Controller.Demo.ToggleMute` | script.js:237-245 | `muted` is negated and the button reads "UNMUTE" when muted, "MUTE" otherwise |
| `Controller.SameFrameTwice` | script.js:69-85 | two ticks on one frame: the first reconfigures and detects, the second does neither |

## Left out

- Loading the MediaPipe detector (`FilesetResolver`, `ObjectDetector.createFromOptions`) is an asynchronous call into a foreign library. Its completion is the method `DetectorReady`.
- `detectForVideo` is a function parameter. `setOptions` is a logged call. Its `await` is taken as completing within the tick.
- `getUserMedia` and its promise are browser I/O. Their outcome is the `streamGranted` parameter of `EnableCam`. The `loadeddata` listener, hiding the welcome screen and console logging are not modelled.
- `requestAnimationFrame` rescheduling is host scheduling. One call of `PredictWebcam` is one tick. The source has no stop handle, so the model has none either.
- `getComputedStyle` and `parseFloat` of the container margins are DOM reads. The margins are `real` fields of `MainView`.
- DOM operations and styling are not modelled: `createElement`, `appendChild`, `removeChild`, the `"px"` strings (except that a style setter ignores `"NaNpx"`, modelled by `SetLength`), the container and button styles set in `toggleFullWindow`, and the label's `"NAME - p%"` string. A label keeps its upper-cased name and its percentage as separate fields.
- Controller.Demo.UpdateDetectionPositions: the source changes each DOM element's style in place. The model replaces the element value in the `children` sequence, so aliasing of DOM nodes is not captured.
- IEEE-754 floating point, rounding error and Infinity are not modelled: arithmetic is exact over `real`. NaN is modelled only where a missing data attribute produces it.
- Geometry.MainScaleX, Geometry.MainScaleY: require a positive intrinsic video size. Before the video has loaded, the source divides by 0.
- Controller.Demo.UpdateDetectionPositions, Controller.Demo.ToggleFullWindow, Controller.Demo.OnResize: require positive video and display sizes when there are overlays to reposition. A zero video size makes the source compute Infinity or NaN, and which of those strings the style setter accepts is not modelled. A zero display size with a loaded video gives a finite but degenerate placement with scale 0, which collapses the overlays; `ResizeReady` excludes that case.
- Text.ToLower, Text.ToUpper: map only the ASCII letters. JavaScript's full Unicode case mapping is not modelled.
- Controller.Demo.PredictWebcam: requires that the camera is streaming. The `loadeddata` listener starts it, and it then re-schedules itself through `requestAnimationFrame`. That listener is installed only after the camera stream has started, which needs the detector to have loaded.
- Controller.Demo.PredictWebcam, Controller.Demo.DisplayVideoDetections, Controller.Demo.UpdateDetectionPositions, Controller.Demo.ToggleFullWindow, Controller.Demo.OnResize: model the corrected program of "## Findings". The overlays retain their detection's box (`Overlays`), and repositioning dispatches on the element's kind (`Reposition`). The program as written is stated only by `OverlaysAsWritten` and `RepositionAsWritten`, not by the class.
- Overlay.WellFormed: every detection must have a first category. The source reads `categories[0]` and would throw if that category were missing.

## Findings

| source | as written | input that shows it | evidently intended | confidence | as-written member | corrected member |
|---|---|---|---|---|---|---|
| script.js:182-194 | `updateDetectionPositions` reads `dataset.origX/origY/origWidth/origHeight`, but `displayVideoDetections` (script.js:115-148) never sets them. `parseFloat(undefined)` is NaN, so every computed position is NaN. The style setter drops `"NaNpx"`, so a resize moves nothing: the overlays stay at their per-frame positions | any non-empty detection result followed by a full-window toggle that changes the display size | each overlay keeps its detection's box and moves to the resize placement of that box | high; not executed | `Overlay.OverlaysAsWritten` with `Overlay.AsWrittenResizeMovesNothing` | `Overlay.Overlays` with `Overlay.RepositionPlacesBoxes` |
| script.js:185 | `child.className === "highlighter"` is false for a person highlighter, whose class is `"highlighter person-highlight"` (script.js:116-120), so person highlighters are skipped. As written this is hidden by the first row, since nothing moves; it shows once the boxes are retained, when the labels move and person highlighters do not | with boxes retained, a "person" box (0, 0, 10, 10) in a 100×100 video shown at 100×100, then resized to 200×200: the highlighter stays centred at (95, 5) and the label moves to (190, 10) | every highlighter is repositioned, whatever its extra classes | high; not executed | `Overlay.RepositionAsWritten` with `Overlay.PersonHighlighterLeftBehind` and `Overlay.PersonHighlighterExample` | `Overlay.Reposition` with `Overlay.RepositionKeepsPairs` |
