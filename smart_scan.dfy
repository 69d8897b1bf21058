/**
 * The smart-scan screen: a scanner that analyses camera frames while scanning, keeps a
 * smoothed clarity score, edge flags and warnings, decides readiness, runs the
 * auto-capture countdown and finally captures a burst of three shots.
 */
module SmartScan {
  import opened Wrappers
  import opened FrameAnalysis
  import Countdown
  import Burst

  /** Analyses run at most once per 200 milliseconds. */
  const Throttle: int := 200

  /** The screen is ready when all four edges, clarity 60, no high warning, good light and text are seen. */
  predicate Readiness(e: Edges, clarity: real, ws: seq<ScanWarning>, light: LightLevel, doc: bool) {
    AllEdges(e) && clarity >= 60.0 && NoHighWarning(ws) && light == GoodLight && doc
  }

  /** With warnings built by the analysis, the high-warning test is implied by good light. */
  lemma ReadinessOfAnalysis(raw: real, light: LightLevel, e: Edges, videoWidth: int, clarity: real, doc: bool)
    ensures Readiness(e, clarity, Warnings(raw, light, e, videoWidth), light, doc)
      <==> AllEdges(e) && clarity >= 60.0 && light == GoodLight && doc
  {
    NoHighIff(raw, light, e, videoWidth);
  }

  /** A ready frame raised neither alignment, darkness nor glare, and any blur warning is medium. */
  lemma ReadyRaisesLittle(raw: real, light: LightLevel, e: Edges, videoWidth: int, clarity: real, doc: bool)
    requires Readiness(e, clarity, Warnings(raw, light, e, videoWidth), light, doc)
    ensures !Raised(Warnings(raw, light, e, videoWidth), Alignment)
    ensures !Raised(Warnings(raw, light, e, videoWidth), Lighting)
    ensures !Raised(Warnings(raw, light, e, videoWidth), Glare)
    ensures Warnings(raw, light, e, videoWidth) == BlurWarning(raw, light) + ResolutionWarning(videoWidth)
  {
    WarningsRaised(raw, light, e, videoWidth);
  }

  class Scanner {
    var isScanning: bool
    var clarityScore: real
    var warnings: seq<ScanWarning>
    var edges: Edges
    var lighting: LightLevel
    var resolutionWarning: bool
    var documentDetected: bool
    var ready: bool
    var countdown: Option<nat>
    var lastAnalysisTime: int
    var capturedImage: Option<seq<int>>
    var view: string

    /**
     * Clarity stays in 0..100, the countdown is idle or 3..0 and only runs while ready, a
     * high warning is raised exactly in the dark, and a scanner that is not scanning shows
     * the reset state.
     */
    predicate Valid()
      reads this
    {
      && 0.0 <= clarityScore <= 100.0
      && Countdown.InRange(countdown)
      && (!ready ==> countdown.None?)
      && (NoHighWarning(warnings) <==> lighting != LowLight)
      && (!isScanning ==> clarityScore == 0.0 && warnings == [] && lighting == GoodLight && edges == NoEdges)
    }

    /** The screen as first shown. */
    constructor ()
      ensures Valid()
      ensures !isScanning && clarityScore == 0.0 && warnings == [] && edges == NoEdges
      ensures lighting == GoodLight && !resolutionWarning && !documentDetected
      ensures !ready && countdown == None && lastAnalysisTime == 0
      ensures capturedImage == None && view == "smart-scan"
    {
      isScanning, clarityScore, warnings, edges := false, 0.0, [], NoEdges;
      lighting, resolutionWarning, documentDetected := GoodLight, false, false;
      ready, countdown, lastAnalysisTime := false, None, 0;
      capturedImage, view := None, "smart-scan";
    }

    /** The readiness effect, then the countdown effect, after any change of state. */
    method Settle()
      requires 0.0 <= clarityScore <= 100.0 && Countdown.InRange(countdown)
      requires NoHighWarning(warnings) <==> lighting != LowLight
      requires !isScanning ==> clarityScore == 0.0 && warnings == [] && lighting == GoodLight && edges == NoEdges
      modifies this
      ensures Valid()
      ensures isScanning ==> ready == Readiness(edges, clarityScore, warnings, lighting, documentDetected)
      ensures !isScanning ==> ready == old(ready)
      ensures countdown == Countdown.Reconcile(ready, isScanning, old(countdown))
      ensures isScanning == old(isScanning) && clarityScore == old(clarityScore) && warnings == old(warnings)
      ensures edges == old(edges) && lighting == old(lighting) && resolutionWarning == old(resolutionWarning)
      ensures documentDetected == old(documentDetected) && lastAnalysisTime == old(lastAnalysisTime)
      ensures capturedImage == old(capturedImage) && view == old(view)
    {
      if isScanning {
        ready := Readiness(edges, clarityScore, warnings, lighting, documentDetected);
      }
      countdown := Countdown.Reconcile(ready, isScanning, countdown);
    }

    /** "Start Scanning": scanning from clarity 50; nothing is ready before the first analysis. */
    method StartScan()
      requires Valid() && !isScanning
      modifies this
      ensures Valid()
      ensures isScanning && clarityScore == 50.0 && !ready && countdown == None
      ensures warnings == old(warnings) && edges == old(edges) && lighting == old(lighting)
      ensures resolutionWarning == old(resolutionWarning) && documentDetected == old(documentDetected)
      ensures lastAnalysisTime == old(lastAnalysisTime)
      ensures capturedImage == old(capturedImage) && view == old(view)
    {
      isScanning, clarityScore := true, 50.0;
      Settle();
    }

    /**
     * "Cancel": scanning stops and the screen is reset. Readiness keeps its last value, so
     * a running countdown goes on; its capture finds no camera and does nothing.
     */
    method StopScan()
      requires Valid() && isScanning
      modifies this
      ensures Valid()
      ensures !isScanning && clarityScore == 0.0 && warnings == [] && lighting == GoodLight && edges == NoEdges
      ensures ready == old(ready) && countdown == old(countdown)
      ensures resolutionWarning == old(resolutionWarning) && documentDetected == old(documentDetected)
      ensures lastAnalysisTime == old(lastAnalysisTime)
      ensures capturedImage == old(capturedImage) && view == old(view)
    {
      isScanning := false;
      clarityScore, warnings, lighting, edges := 0.0, [], GoodLight, NoEdges;
      Settle();
    }

    /** "Change Document", shown while not scanning. */
    method ChangeDocument()
      requires Valid() && !isScanning
      modifies this
      ensures Valid() && view == "document-selection"
      ensures isScanning == old(isScanning) && clarityScore == old(clarityScore) && warnings == old(warnings)
      ensures edges == old(edges) && lighting == old(lighting) && resolutionWarning == old(resolutionWarning)
      ensures documentDetected == old(documentDetected) && ready == old(ready) && countdown == old(countdown)
      ensures lastAnalysisTime == old(lastAnalysisTime) && capturedImage == old(capturedImage)
    {
      view := "document-selection";
    }

    /**
     * One animation frame at time `now`: when scanning, with the video playing and 200 ms
     * after the last analysis, the sampled `w` by `h` frame is analysed and the results
     * are stored, clarity smoothed; then readiness and the countdown follow.
     */
    method Tick(now: int, videoReady: bool, frame: array<int>, w: nat, h: nat, videoWidth: int)
      requires Valid() && frame.Length == w * h * 4 && w >= 7 && h >= 7
      modifies this
      ensures Valid()
      ensures !old(isScanning) || !videoReady || now - old(lastAnalysisTime) < Throttle ==> unchanged(this)
      ensures old(isScanning) && videoReady && now - old(lastAnalysisTime) >= Throttle ==>
        Analysed(old(clarityScore), old(countdown), AnalysisOf(frame[..], w, h, videoWidth))
        && lastAnalysisTime == now && capturedImage == old(capturedImage) && view == old(view)
    {
      if !isScanning || !videoReady || now - lastAnalysisTime < Throttle {
        return;
      }
      lastAnalysisTime := now;
      var a := AnalyzeFrame(frame, w, h, videoWidth);
      Store(a, videoWidth);
    }

    /**
     * The state after an analysis `a` from clarity `prev` and countdown `c`: the analysis
     * stored with clarity smoothed, readiness recomputed and the countdown reconciled.
     */
    predicate Analysed(prev: real, c: Option<nat>, a: Analysis)
      reads this
    {
      && isScanning
      && lighting == a.lighting && edges == a.edges && warnings == a.warnings
      && clarityScore == Smooth(prev, a.rawClarity)
      && resolutionWarning == a.resolutionWarning && documentDetected == a.documentDetected
      && ready == Readiness(edges, clarityScore, warnings, lighting, documentDetected)
      && countdown == Countdown.Reconcile(ready, true, c)
    }

    /** Storing the results of one analysis while scanning. */
    method Store(a: Analysis, videoWidth: int)
      requires Valid() && isScanning && 0.0 <= a.rawClarity <= 100.0
      requires a.warnings == Warnings(a.rawClarity, a.lighting, a.edges, videoWidth)
      modifies this
      ensures Valid() && Analysed(old(clarityScore), old(countdown), a)
      ensures lastAnalysisTime == old(lastAnalysisTime)
      ensures capturedImage == old(capturedImage) && view == old(view)
    {
      NoHighIff(a.rawClarity, a.lighting, a.edges, videoWidth);
      SmoothInRange(clarityScore, a.rawClarity);
      lighting := a.lighting;
      clarityScore := Smooth(clarityScore, a.rawClarity);
      edges := a.edges;
      resolutionWarning := a.resolutionWarning;
      documentDetected := a.documentDetected;
      warnings := a.warnings;
      Settle();
    }

    /**
     * One second of a running countdown: it goes down by one, and reaching 0 fires the
     * capture; readiness is not checked again.
     */
    method SecondElapsed() returns (fire: bool)
      requires Valid()
      modifies this
      ensures Valid()
      ensures countdown == Countdown.Tick(old(countdown))
      ensures fire <==> Countdown.TickFires(old(countdown))
      ensures isScanning == old(isScanning) && clarityScore == old(clarityScore) && warnings == old(warnings)
      ensures edges == old(edges) && lighting == old(lighting) && resolutionWarning == old(resolutionWarning)
      ensures documentDetected == old(documentDetected) && ready == old(ready)
      ensures lastAnalysisTime == old(lastAnalysisTime) && capturedImage == old(capturedImage) && view == old(view)
    {
      fire := false;
      if countdown.Some? && countdown.value > 0 {
        var next := countdown.value - 1;
        countdown := Countdown.Reconcile(ready, isScanning, Some(next));
        fire := next == 0;
      }
    }

    /** The "Capture Now" button is enabled exactly when the screen is ready. */
    predicate CaptureEnabled()
      reads this
    {
      ready
    }

    /**
     * `handleCapture`, from the button or the countdown: without a mounted camera (not
     * scanning) nothing happens; otherwise scanning stops and the best of the three shots,
     * enhanced, becomes the captured image for validation.
     */
    method Capture(shots: seq<seq<int>>, w: nat, h: nat)
      requires Valid() && |shots| == Burst.BurstSize && Burst.FramesOf(shots, w, h)
      modifies this
      ensures Valid()
      ensures !old(isScanning) ==> unchanged(this)
      ensures old(isScanning) ==>
        && !isScanning && clarityScore == 0.0 && warnings == [] && lighting == GoodLight && edges == NoEdges
        && ready == old(ready) && countdown == old(countdown)
        && resolutionWarning == old(resolutionWarning) && documentDetected == old(documentDetected)
        && lastAnalysisTime == old(lastAnalysisTime)
        && capturedImage == Some(Burst.Enhanced(Burst.BestShot(shots, w, h))) && view == "validation"
    {
      if !isScanning {
        return;
      }
      StopScan();
      var image := Burst.BurstCapture(shots, w, h);
      capturedImage, view := Some(image), "validation";
    }
  }
}
