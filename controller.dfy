/**
 The demo's module-level state as one controller object: whether the
 detector has loaded, the camera stream, the detector's running mode, the
 timestamp of the last processed frame, the overlay list, the full-window flag
 and the mute state. Each handler of the page is a method.

 The detector itself is external: a frame's detections are given by a
 function of the frame's playback time and the call's timestamp, and the
 calls the detector receives are recorded in a ghost log.
 */
module Controller {
  import opened Geometry
  import opened Overlay

  datatype Mode = Image | Video

  /** A call the external object detector receives. */
  datatype DetectorCall = SetOptions(runningMode: Mode) | DetectForVideo(frameTime: real, timestampMs: real)

  /**
   The detector is switched to VIDEO exactly once, before it receives any
   per-frame call, and is never switched again.
   */
  ghost predicate CallsOrdered(calls: seq<DetectorCall>)
  {
    calls == [] || (calls[0] == SetOptions(Video) && forall k :: 0 < k < |calls| ==> calls[k].DetectForVideo?)
  }

  class Demo {
    var detectorLoaded: bool
    var cameraActive: bool
    var runningMode: Mode
    var lastVideoTime: real
    var children: seq<Element>
    var isFullWindow: bool
    var muted: bool
    var muteButtonText: string
    ghost var detectorCalls: seq<DetectorCall>

    /**
     The overlay list is highlighter/label pairs, the detector's calls are in
     order, the mode is VIDEO exactly when the detector has been called, and a
     camera stream is only started once the detector is loaded.
     */
    ghost predicate Valid()
      reads this
    {
      && WellPaired(children)
      && CallsOrdered(detectorCalls)
      && (runningMode == Image <==> detectorCalls == [])
      && (cameraActive ==> detectorLoaded)
    }

    /** The page as loaded: the detector is still loading, with the mute control as the page has it. */
    constructor (muted: bool, muteButtonText: string)
      ensures Valid()
      ensures !detectorLoaded && !cameraActive
      ensures runningMode == Image && lastVideoTime == -1.0
      ensures children == [] && !isFullWindow && detectorCalls == []
      ensures this.muted == muted && this.muteButtonText == muteButtonText
    {
      detectorLoaded := false;
      cameraActive := false;
      runningMode := Image;
      lastVideoTime := -1.0;
      children := [];
      isFullWindow := false;
      this.muted := muted;
      this.muteButtonText := muteButtonText;
      detectorCalls := [];
    }

    /** The detector has been created, in the current running mode (IMAGE). */
    method DetectorReady()
      requires Valid()
      modifies this`detectorLoaded
      ensures Valid() && detectorLoaded
    {
      detectorLoaded := true;
    }

    /**
     The welcome-screen click. Before the detector has loaded it does nothing;
     afterwards the camera stream starts if the browser grants it.
     */
    method EnableCam(streamGranted: bool) returns (started: bool)
      requires Valid()
      modifies this`cameraActive
      ensures Valid()
      ensures started <==> detectorLoaded && streamGranted
      ensures cameraActive == (old(cameraActive) || started)
    {
      if !detectorLoaded {
        return false;
      }
      started := streamGranted;
      if streamGranted {
        cameraActive := true;
      }
    }

    /**
     One animation-frame tick. The first tick switches the detector to VIDEO;
     a frame whose playback time equals the last processed one is skipped;
     a new frame is detected once and replaces the overlay list.
     */
    method PredictWebcam(currentTime: real, startTimeMs: real,
                         detectForVideo: (real, real) -> seq<Detection>, view: MainView)
      returns (reconfigured: bool, detected: bool)
      requires Valid() && cameraActive && MainReady(view)
      requires WellFormed(detectForVideo(currentTime, startTimeMs))
      modifies this`runningMode, this`lastVideoTime, this`children, this`detectorCalls
      ensures Valid() && runningMode == Video
      ensures reconfigured <==> old(runningMode) == Image
      ensures detected <==> currentTime != old(lastVideoTime)
      ensures detected ==> lastVideoTime == currentTime
                           && children == Overlays(view, detectForVideo(currentTime, startTimeMs))
      ensures !detected ==> lastVideoTime == old(lastVideoTime) && children == old(children)
      ensures detectorCalls == old(detectorCalls)
                               + (if reconfigured then [SetOptions(Video)] else [])
                               + (if detected then [DetectForVideo(currentTime, startTimeMs)] else [])
    {
      reconfigured := runningMode == Image;
      if runningMode == Image {
        runningMode := Video;
        detectorCalls := detectorCalls + [SetOptions(Video)];
      }
      detected := currentTime != lastVideoTime;
      if currentTime != lastVideoTime {
        lastVideoTime := currentTime;
        var detections := detectForVideo(currentTime, startTimeMs);
        detectorCalls := detectorCalls + [DetectForVideo(currentTime, startTimeMs)];
        DisplayVideoDetections(detections, view);
      }
    }

    /**
     Removes every previous overlay, then pushes a highlighter and a label for
     each detection, in detection order.
     */
    method DisplayVideoDetections(detections: seq<Detection>, view: MainView)
      requires Valid() && MainReady(view) && WellFormed(detections)
      modifies this`children
      ensures Valid() && children == Overlays(view, detections)
    {
      children := [];
      var i := 0;
      while i < |detections|
        invariant 0 <= i <= |detections|
        invariant children == Render(view, detections[..i], true)
      {
        var d := detections[i];
        var dataset := SourceData(d.boundingBox);
        assert detections[..i + 1][..i] == detections[..i];
        children := children + [HighlighterFor(view, d, dataset), LabelFor(view, d, dataset)];
        i := i + 1;
      }
      assert detections[..i] == detections;
      assert children == Overlays(view, detections);
    }

    /**
     Moves every overlay to the resize path's placement of its retained box.
     With no overlays the loop does nothing, so the viewport may be unsized.
     */
    method UpdateDetectionPositions(view: ResizeView)
      requires Valid() && (children != [] ==> ResizeReady(view))
      modifies this`children
      ensures Valid()
      ensures children == if old(children) == [] then [] else RepositionAll(view, old(children))
    {
      var i := 0;
      while i < |children|
        invariant 0 <= i <= |children| == |old(children)|
        invariant forall j :: 0 <= j < i ==> children[j] == Reposition(view, old(children)[j])
        invariant forall j :: i <= j < |children| ==> children[j] == old(children)[j]
      {
        children := children[i := Reposition(view, children[i])];
        i := i + 1;
      }
      if children != [] {
        assert children == RepositionAll(view, old(children));
        RepositionKeepsPairs(view, old(children));
      }
    }

    /** The full-window button: flips the flag and always repositions. */
    method ToggleFullWindow(view: ResizeView)
      requires Valid() && (children != [] ==> ResizeReady(view))
      modifies this`isFullWindow, this`children
      ensures Valid() && isFullWindow == !old(isFullWindow)
      ensures children == if old(children) == [] then [] else RepositionAll(view, old(children))
    {
      isFullWindow := !isFullWindow;
      UpdateDetectionPositions(view);
    }

    /** A window resize repositions the overlays only in full-window mode. */
    method OnResize(view: ResizeView)
      requires Valid() && (isFullWindow && children != [] ==> ResizeReady(view))
      modifies this`children
      ensures Valid()
      ensures children == if isFullWindow && old(children) != [] then RepositionAll(view, old(children)) else old(children)
    {
      if isFullWindow {
        UpdateDetectionPositions(view);
      }
    }

    /** The mute button: flips `muted` and labels the button with the next action. */
    method ToggleMute()
      modifies this`muted, this`muteButtonText
      ensures muted == !old(muted)
      ensures muteButtonText == if muted then "UNMUTE" else "MUTE"
    {
      if muted {
        muted := false;
        muteButtonText := "MUTE";
      } else {
        muted := true;
        muteButtonText := "UNMUTE";
      }
    }
  }

  /**
   Two ticks on the same video frame: the first switches the detector to VIDEO
   and detects, the second neither reconfigures nor detects.
   */
  method SameFrameTwice(frameTime: real, firstMs: real, secondMs: real,
                        detectForVideo: (real, real) -> seq<Detection>, view: MainView)
    returns (reconfiguredFirst: bool, detectedFirst: bool, reconfiguredSecond: bool, detectedSecond: bool)
    requires 0.0 <= frameTime && MainReady(view)
    requires WellFormed(detectForVideo(frameTime, firstMs)) && WellFormed(detectForVideo(frameTime, secondMs))
    ensures reconfiguredFirst && detectedFirst
    ensures !reconfiguredSecond && !detectedSecond
  {
    var demo := new Demo(false, "MUTE");
    demo.DetectorReady();
    var started := demo.EnableCam(true);
    reconfiguredFirst, detectedFirst := demo.PredictWebcam(frameTime, firstMs, detectForVideo, view);
    reconfiguredSecond, detectedSecond := demo.PredictWebcam(frameTime, secondMs, detectForVideo, view);
  }
}
