/**
 * The selfie screen: a camera session whose face conditions and quality score decide
 * readiness, an auto-capture countdown shared with the document scanner, and the
 * capture, retake and confirm actions.
 */
module SelfieCapture {
  import opened Wrappers
  import opened FrameAnalysis
  import Countdown

  datatype Distance = TooClose | TooFar | GoodDistance

  datatype Angle = Left | Right | Up | Down | GoodAngle

  datatype FacePosition = FacePosition(centered: bool, distance: Distance, angle: Angle)

  datatype Conditions = Conditions(lighting: LightLevel, faceDetected: bool,
                                   facePosition: FacePosition, blinkDetected: bool)

  /** The conditions before any face was found. */
  const Initial := Conditions(GoodLight, false, FacePosition(false, GoodDistance, GoodAngle), false)

  /** The conditions the face finder reports, with quality 85. */
  const Found := Conditions(GoodLight, true, FacePosition(true, GoodDistance, GoodAngle), true)

  const FoundQuality: int := 85

  /** The quality score a new or retaken session starts from. */
  const StartQuality: int := 50

  /** Ready: a centred face at a good distance and angle, in good light, with quality 75. */
  predicate IsReady(c: Conditions, quality: int) {
    && c.faceDetected && c.lighting == GoodLight
    && c.facePosition.centered && c.facePosition.distance == GoodDistance
    && c.facePosition.angle == GoodAngle && quality >= 75
  }

  /** The manual "Capture" button is enabled exactly when a face is detected. */
  predicate CaptureEnabled(c: Conditions) {
    c.faceDetected
  }

  /** Readiness implies the manual button is enabled, and a fresh session is never ready. */
  lemma ReadinessFacts(c: Conditions, quality: int)
    ensures IsReady(c, quality) ==> CaptureEnabled(c)
    ensures !IsReady(c, StartQuality) && !IsReady(Initial, quality)
    ensures IsReady(Found, FoundQuality)
  {
  }

  /** The hint for a face that is turned away, none when it faces the camera. */
  function AnglePrompt(a: Angle): (r: Option<string>)
    ensures r.None? <==> a == GoodAngle
    ensures a == Left ==> r == Some("Turn slightly right")
    ensures a == Right ==> r == Some("Turn slightly left")
    ensures a == Up ==> r == Some("Lower your chin")
    ensures a == Down ==> r == Some("Raise your chin")
  {
    match a
    case GoodAngle => None
    case Left => Some("Turn slightly right")
    case Right => Some("Turn slightly left")
    case Up => Some("Lower your chin")
    case Down => Some("Raise your chin")
  }

  /** The hint for a face at the wrong distance, none at a good distance. */
  function DistancePrompt(d: Distance): (r: Option<string>)
    ensures r.None? <==> d == GoodDistance
    ensures d == TooClose ==> r == Some("Move back slightly")
    ensures d == TooFar ==> r == Some("Move closer")
  {
    if d == GoodDistance then None
    else if d == TooClose then Some("Move back slightly")
    else Some("Move closer")
  }

  /** A ready face needs no hint. */
  lemma ReadyNeedsNoPrompt(c: Conditions, quality: int)
    requires IsReady(c, quality)
    ensures AnglePrompt(c.facePosition.angle).None? && DistancePrompt(c.facePosition.distance).None?
  {
  }

  /** A truthy screenshot: present and not empty. */
  predicate Truthy(shot: Option<string>) {
    shot.Some? && shot.value != ""
  }

  class SelfieScreen {
    var isCapturing: bool
    var conditions: Conditions
    var quality: int
    var countdown: Option<nat>
    var selfie: Option<string>
    var view: string

    /** The webcam is shown while capturing and no selfie is held. */
    predicate CameraOn()
      reads this
    {
      isCapturing && selfie.None?
    }

    /** The countdown is idle or 3..0, runs only while ready, and never with a selfie held. */
    predicate Valid()
      reads this
    {
      && Countdown.InRange(countdown)
      && (!IsReady(conditions, quality) ==> countdown.None?)
      && (selfie.Some? ==> countdown.None?)
    }

    /** The screen as first shown, with the selfie the session already holds. */
    constructor (held: Option<string>)
      ensures Valid()
      ensures !isCapturing && conditions == Initial && quality == 0 && countdown == None
      ensures selfie == held && view == "selfie"
    {
      isCapturing, conditions, quality, countdown := false, Initial, 0, None;
      selfie, view := held, "selfie";
    }

    /** The countdown effect, after any change of state. */
    method Settle()
      requires Countdown.InRange(countdown) && (selfie.Some? ==> countdown.None?)
      modifies this
      ensures Valid()
      ensures countdown == Countdown.Reconcile(IsReady(conditions, quality), CameraOn(), old(countdown))
      ensures isCapturing == old(isCapturing) && conditions == old(conditions) && quality == old(quality)
      ensures selfie == old(selfie) && view == old(view)
    {
      countdown := Countdown.Reconcile(IsReady(conditions, quality), CameraOn(), countdown);
    }

    /** The face finder reporting, which it does only while the camera is on. */
    method FaceFound()
      requires Valid()
      modifies this
      ensures Valid()
      ensures !old(CameraOn()) ==> unchanged(this)
      ensures old(CameraOn()) ==>
        && conditions == Found && quality == FoundQuality
        && countdown == Countdown.Reconcile(true, true, old(countdown))
        && isCapturing && selfie == None && view == old(view)
    {
      if !CameraOn() {
        return;
      }
      conditions, quality := Found, FoundQuality;
      Settle();
    }

    /** "Start Camera": capturing, no selfie, quality 50, so not ready yet. */
    method StartCapture()
      requires Valid() && !isCapturing
      modifies this
      ensures Valid()
      ensures isCapturing && selfie == None && quality == StartQuality && countdown == None
      ensures conditions == old(conditions) && view == old(view)
    {
      isCapturing, selfie, quality := true, None, StartQuality;
      Settle();
    }

    /**
     * `handleCapture`, from the button or the countdown: a truthy screenshot of the shown
     * camera is kept and the countdown cleared; without the camera or a screenshot,
     * nothing changes.
     */
    method Capture(screenshot: Option<string>)
      requires Valid()
      modifies this
      ensures Valid()
      ensures !(old(CameraOn()) && Truthy(screenshot)) ==> unchanged(this)
      ensures old(CameraOn()) && Truthy(screenshot) ==>
        && selfie == screenshot && countdown == None
        && isCapturing && conditions == old(conditions) && quality == old(quality) && view == old(view)
    {
      if !CameraOn() || !Truthy(screenshot) {
        return;
      }
      selfie, countdown := screenshot, None;
      Settle();
    }

    /** "Retake": the selfie is dropped, quality back to 50 and no countdown. */
    method Retake()
      requires Valid() && isCapturing && selfie.Some?
      modifies this
      ensures Valid()
      ensures selfie == None && quality == StartQuality && countdown == None
      ensures isCapturing && conditions == old(conditions) && view == old(view)
    {
      selfie, quality, countdown := None, StartQuality, None;
      Settle();
    }

    /** "Confirm": on to the upload screen. */
    method Confirm()
      requires Valid() && isCapturing && selfie.Some?
      modifies this
      ensures Valid() && view == "upload"
      ensures isCapturing == old(isCapturing) && conditions == old(conditions) && quality == old(quality)
      ensures countdown == old(countdown) && selfie == old(selfie)
    {
      view := "upload";
    }

    /**
     * "Cancel" while the camera is on: capturing stops. Readiness is unchanged, so a
     * running countdown goes on; its capture finds no camera and does nothing.
     */
    method StopCapture()
      requires Valid() && CameraOn()
      modifies this
      ensures Valid()
      ensures !isCapturing && countdown == old(countdown)
      ensures conditions == old(conditions) && quality == old(quality)
      ensures selfie == old(selfie) && view == old(view)
    {
      isCapturing := false;
      Settle();
    }

    /** "Cancel" before the camera is started: back home. */
    method Leave()
      requires Valid() && !isCapturing
      modifies this
      ensures Valid() && view == "home"
      ensures isCapturing == old(isCapturing) && conditions == old(conditions) && quality == old(quality)
      ensures countdown == old(countdown) && selfie == old(selfie)
    {
      view := "home";
    }

    /** One second of a running countdown; reaching 0 fires the capture. */
    method SecondElapsed() returns (fire: bool)
      requires Valid()
      modifies this
      ensures Valid()
      ensures countdown == Countdown.Tick(old(countdown))
      ensures fire <==> Countdown.TickFires(old(countdown))
      ensures isCapturing == old(isCapturing) && conditions == old(conditions) && quality == old(quality)
      ensures selfie == old(selfie) && view == old(view)
    {
      fire := false;
      if countdown.Some? && countdown.value > 0 {
        var next := countdown.value - 1;
        countdown := Countdown.Reconcile(IsReady(conditions, quality), CameraOn(), Some(next));
        fire := next == 0;
      }
    }
  }
}
