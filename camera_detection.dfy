/** The capture dialog's control state. The media devices, the canvas and the
    encoder are outside the model: each call into them is an outcome passed in.
    A stream is a fixed list of tracks; a track is live until it is stopped. */
module CameraDetection {

  /** Which camera the stream is requested from. */
  datatype FacingMode = User | Environment

  /** `prev === "user" ? "environment" : "user"`. */
  function Toggle(m: FacingMode): (r: FacingMode)
    ensures r != m
  {
    if m == User then Environment else User
  }

  /** Switching twice restores the original facing mode. */
  lemma ToggleTwice(m: FacingMode)
    ensures Toggle(Toggle(m)) == m
  {
  }

  /** A media track: the camera stays in use while one of its tracks is live. */
  class MediaTrack {
    var live: bool

    constructor ()
      ensures live
    {
      live := true;
    }

    /** `track.stop()`. */
    method Stop()
      modifies this
      ensures !live
    {
      live := false;
    }
  }

  /** A media stream and the tracks `getTracks()` returns. */
  class MediaStream {
    const tracks: seq<MediaTrack>

    constructor (tracks: seq<MediaTrack>)
      ensures this.tracks == tracks
    {
      this.tracks := tracks;
    }
  }

  /** What `getUserMedia` settled with. */
  datatype MediaOutcome = Granted(stream: MediaStream) | Denied

  /** What `captureImage` found when it asked for the canvas's 2D context. */
  datatype CaptureStart = Skipped | NoContext | Started

  /** How the encode-and-analyse part of a capture ended: it finished, or it threw. */
  datatype EncodeOutcome = Analysed | EncodeFailed

  /** The dialog's state: the three state fields, and the stream attached to the video element. */
  class CameraDialog {
    var isStreaming: bool
    var facingMode: FacingMode
    var processing: bool
    /** `videoRef.current.srcObject`. */
    var srcObject: MediaStream?
    /** A capture is between its context check and its `finally`. */
    ghost var capturing: bool

    /** The video shows a stream exactly while the dialog says it is streaming,
        and an unfinished capture keeps `processing` set. */
    ghost predicate Valid()
      reads this
    {
      (isStreaming <==> srcObject != null) && (capturing ==> processing)
    }

    /** The tracks of the attached stream, or none. */
    ghost function AttachedTracks(): set<MediaTrack>
      reads this
    {
      if srcObject == null then {} else set t | t in srcObject.tracks
    }

    /** Not streaming, rear camera, not processing. */
    constructor ()
      ensures Valid()
      ensures !isStreaming && facingMode == Environment && !processing
      ensures srcObject == null && !capturing
    {
      isStreaming := false;
      facingMode := Environment;
      processing := false;
      srcObject := null;
      capturing := false;
    }

    /** `startCamera` once `getUserMedia({ video: { facingMode } })` has settled:
        a granted stream is attached when the video element is mounted. A denial
        is caught and logged; a stream without a video element is dropped. */
    method StartCamera(outcome: MediaOutcome, videoMounted: bool)
      requires Valid()
      modifies this
      ensures Valid()
      ensures outcome.Granted? && videoMounted ==>
        isStreaming && srcObject == outcome.stream
        && facingMode == old(facingMode) && processing == old(processing) && capturing == old(capturing)
      ensures outcome.Denied? || !videoMounted ==> unchanged(this)
    {
      if outcome.Granted? && videoMounted {
        srcObject := outcome.stream;
        isStreaming := true;
      }
    }

    /** `stopCamera`: with a stream attached, stop each of its tracks, detach it
        and clear `isStreaming`; with none, do nothing. */
    method StopCamera()
      requires Valid()
      modifies this, AttachedTracks()
      ensures Valid()
      ensures old(srcObject) != null ==>
        (forall t :: t in old(srcObject).tracks ==> !t.live) && srcObject == null && !isStreaming
      ensures old(srcObject) == null ==> unchanged(this)
      ensures facingMode == old(facingMode) && processing == old(processing) && capturing == old(capturing)
    {
      if srcObject != null {
        var tracks := srcObject.tracks;
        var i := 0;
        while i < |tracks|
          invariant 0 <= i <= |tracks|
          invariant unchanged(this)
          invariant forall j :: 0 <= j < i ==> !tracks[j].live
        {
          tracks[i].Stop();
          i := i + 1;
        }
        srcObject := null;
        isStreaming := false;
      }
    }

    /** `switchCamera`: stop the stream and flip the facing mode. The stream is
        not requested again; the user starts it with the new mode. */
    method SwitchCamera()
      requires Valid()
      modifies this, AttachedTracks()
      ensures Valid()
      ensures old(srcObject) != null ==> forall t :: t in old(srcObject).tracks ==> !t.live
      ensures srcObject == null && !isStreaming
      ensures facingMode == Toggle(old(facingMode))
      ensures processing == old(processing) && capturing == old(capturing)
    {
      StopCamera();
      facingMode := Toggle(facingMode);
    }

    /** `captureImage` up to its first `await`: nothing happens without the video
        or canvas element or while a capture is processing; otherwise `processing`
        is set, and without a 2D context the handler returns there. */
    method BeginCapture(videoMounted: bool, canvasMounted: bool, hasContext: bool) returns (r: CaptureStart)
      requires Valid()
      modifies this
      ensures Valid()
      ensures r == Skipped <==> !videoMounted || !canvasMounted || old(processing)
      ensures r == Skipped ==> unchanged(this)
      ensures r != Skipped ==> processing && !old(capturing)
      ensures r == NoContext <==> r != Skipped && !hasContext
      ensures capturing == (old(capturing) || r == Started)
      ensures isStreaming == old(isStreaming) && facingMode == old(facingMode) && srcObject == old(srcObject)
    {
      if !videoMounted || !canvasMounted || processing {
        return Skipped;
      }
      processing := true;
      if !hasContext {
        return NoContext;
      }
      capturing := true;
      r := Started;
    }

    /** The `finally` of a started capture: `processing` ends false whether the
        encoding and the simulated analysis finished or threw. */
    method FinishCapture(outcome: EncodeOutcome)
      requires Valid() && capturing
      modifies this
      ensures Valid()
      ensures !processing && !capturing
      ensures isStreaming == old(isStreaming) && facingMode == old(facingMode) && srcObject == old(srcObject)
    {
      processing := false;
      capturing := false;
    }

    /** The dialog's `onOpenChange`: closing it stops the camera. */
    method OnOpenChange(open: bool)
      requires Valid()
      modifies this, AttachedTracks()
      ensures Valid()
      ensures !open ==> srcObject == null && !isStreaming
      ensures !open && old(srcObject) != null ==> forall t :: t in old(srcObject).tracks ==> !t.live
      ensures open ==> unchanged(this)
      ensures facingMode == old(facingMode) && processing == old(processing) && capturing == old(capturing)
    {
      if !open {
        StopCamera();
      }
    }
  }

  /** Start with a two-track stream, then close the dialog: both tracks end stopped. */
  method StartThenClose() returns (stillLive: bool, streaming: bool)
    ensures !stillLive && !streaming
  {
    var dialog := new CameraDialog();
    var first := new MediaTrack();
    var second := new MediaTrack();
    var stream := new MediaStream([first, second]);
    dialog.StartCamera(Granted(stream), true);
    dialog.OnOpenChange(false);
    stillLive := first.live || second.live;
    streaming := dialog.isStreaming;
  }

  /** A second capture while the first is processing is skipped; once the first
      finishes, a new one may start. */
  method CaptureTwice() returns (first: CaptureStart, second: CaptureStart, third: CaptureStart)
    ensures first == Started && second == Skipped && third == Started
  {
    var dialog := new CameraDialog();
    first := dialog.BeginCapture(true, true, true);
    second := dialog.BeginCapture(true, true, true);
    dialog.FinishCapture(Analysed);
    third := dialog.BeginCapture(true, true, true);
  }
}
