/** The two background workers (threads.py): the video thread that names every
    face in every camera frame, and the one-shot image worker used for enrolment.

    The camera and the face library are inputs. For each face found in a
    quarter-size frame the library reports its box and, against every gallery
    encoding, a distance (`face_distance`) and a match flag (`compare_faces`). */
module Threads {
  import opened FaceTypes

  /** The label of a face that is not recognised. */
  const UNKNOWN: Name := "Unknown"

  /** Frames are shrunk to a quarter before detection; boxes are scaled back by this. */
  const SCALE: int := 4

  /** A face box, as (top, right, bottom, left) pixel coordinates. */
  datatype Box = Box(top: int, right: int, bottom: int, left: int)

  /** An OpenCV colour, in blue-green-red order. */
  datatype Bgr = Bgr(b: int, g: int, r: int)

  const GREEN: Bgr := Bgr(0, 255, 0)
  const RED: Bgr := Bgr(0, 0, 255)

  /** One face found in the quarter-size frame, with the library's distance and
      match flag against each gallery encoding, in gallery order. */
  datatype Face = Face(box: Box, distances: seq<real>, matches: seq<bool>)

  /** The result of one `cap.read()`. */
  datatype Capture = ReadFailed | Captured(faces: seq<Face>)

  /** Camera 0 as `cv2.VideoCapture(0)` finds it: it cannot be opened, or it
      delivers these reads and then reports itself closed. */
  datatype Device = CannotOpen | Opened(captures: seq<Capture>)

  /** What is drawn for one face: its full-size box, its label and the box colour. */
  datatype Annotation = Annotation(box: Box, name: Name, colour: Bgr)

  /** The library reported a distance and a match flag for each of `count`
      gallery encodings. */
  predicate Reported(face: Face, count: nat) {
    |face.distances| == count && |face.matches| == count
  }

  predicate AllReported(faces: seq<Face>, count: nat) {
    forall i :: 0 <= i < |faces| ==> Reported(faces[i], count)
  }

  predicate CapturesReported(captures: seq<Capture>, count: nat) {
    forall i :: 0 <= i < |captures| && captures[i].Captured? ==> AllReported(captures[i].faces, count)
  }

  /** `k` is the first position of the least distance. */
  predicate IsFirstMin(d: seq<real>, k: int) {
    && 0 <= k < |d|
    && (forall j :: 0 <= j < |d| ==> d[k] <= d[j])
    && (forall j :: 0 <= j < k ==> d[k] < d[j])
  }

  /** `np.argmin`: the index of the first minimum. */
  function ArgMin(d: seq<real>): (k: nat)
    requires |d| > 0
    ensures IsFirstMin(d, k)
  {
    if |d| == 1 then 0
    else
      var k := 1 + ArgMin(d[1..]);
      if d[0] <= d[k] then 0 else k
  }

  /** Only one position can be the first minimum. */
  lemma FirstMinUnique(d: seq<real>, i: int, j: int)
    requires IsFirstMin(d, i) && IsFirstMin(d, j)
    ensures i == j
  {
    assert d[i] <= d[j] <= d[i];
  }

  /** The label given to one face against a gallery of `count` encodings whose
      names are `names`. It is the name of the closest entry (the first, on a
      tie) if the library says that entry matches, and "Unknown" otherwise, even
      when some farther entry matches. `None` stands for the IndexError raised
      when that entry has no name (the name list is shorter than the encodings). */
  function Identify(names: seq<Name>, count: nat, face: Face): (r: Option<Name>)
    requires Reported(face, count)
    ensures count == 0 ==> r == Some(UNKNOWN)
    ensures forall k :: IsFirstMin(face.distances, k) ==>
              r == if !face.matches[k] then Some(UNKNOWN)
                   else if k < |names| then Some(names[k])
                   else None
  {
    if count == 0 then Some(UNKNOWN)
    else
      var best := ArgMin(face.distances);
      assert forall k :: IsFirstMin(face.distances, k) ==> k == best by {
        forall k | IsFirstMin(face.distances, k) ensures k == best {
          FirstMinUnique(face.distances, k, best);
        }
      }
      if !face.matches[best] then Some(UNKNOWN)
      else if best < |names| then Some(names[best])
      else None
  }

  /** When every gallery encoding has a name, naming a face never raises. */
  lemma IdentifyTotalWhenNamed(names: seq<Name>, count: nat, face: Face)
    requires Reported(face, count) && count <= |names|
    ensures Identify(names, count, face).Some?
  {
    if count > 0 {
      var best := ArgMin(face.distances);
      assert IsFirstMin(face.distances, best);
    }
  }

  /** The box colour: green for a named face, red for "Unknown". */
  function Colour(name: Name): (c: Bgr)
    ensures c == GREEN <==> name != UNKNOWN
    ensures c == RED <==> name == UNKNOWN
  {
    if name != UNKNOWN then GREEN else RED
  }

  /** Each coordinate divided by four, rounded down. */
  function Downscale(b: Box): (r: Box) {
    Box(b.top / SCALE, b.right / SCALE, b.bottom / SCALE, b.left / SCALE)
  }

  /** Scaling a quarter-size box back to the full frame; undone by Downscale. */
  function Upscale(b: Box): (r: Box)
    ensures Downscale(r) == b
    ensures r.top % SCALE == 0 && r.right % SCALE == 0 && r.bottom % SCALE == 0 && r.left % SCALE == 0
    ensures r.top <= r.bottom <==> b.top <= b.bottom
    ensures r.left <= r.right <==> b.left <= b.right
  {
    Box(b.top * SCALE, b.right * SCALE, b.bottom * SCALE, b.left * SCALE)
  }

  /** The annotations drawn on one frame, face by face in detection order, or
      `None` when naming some face raises. */
  function Annotations(names: seq<Name>, count: nat, faces: seq<Face>): (r: Option<seq<Annotation>>)
    requires AllReported(faces, count)
    decreases |faces|
  {
    if faces == [] then Some([])
    else
      var last := faces[|faces| - 1];
      match Annotations(names, count, faces[..|faces| - 1])
      case None => None
      case Some(drawn) =>
        match Identify(names, count, last)
        case None => None
        case Some(name) => Some(drawn + [Annotation(Upscale(last.box), name, Colour(name))])
  }

  /** A frame's annotations fail exactly when naming one of its faces raises. */
  lemma {:induction false} AnnotationsFailIff(names: seq<Name>, count: nat, faces: seq<Face>)
    requires AllReported(faces, count)
    ensures Annotations(names, count, faces).None?
            <==> exists i :: 0 <= i < |faces| && Identify(names, count, faces[i]).None?
    decreases |faces|
  {
    if faces != [] {
      var n := |faces| - 1;
      var shorter := faces[..n];
      AnnotationsFailIff(names, count, shorter);
      assert Annotations(names, count, faces).None?
             <==> Annotations(names, count, shorter).None? || Identify(names, count, faces[n]).None?;
      assert forall i :: 0 <= i < n ==> shorter[i] == faces[i];
    }
  }

  /** Otherwise there is one annotation per face, in detection order, carrying
      that face's name, its box scaled to the full frame and the colour its name
      calls for. */
  lemma {:induction false} AnnotationsPerFace(names: seq<Name>, count: nat, faces: seq<Face>)
    requires AllReported(faces, count)
    ensures var r := Annotations(names, count, faces);
            r.Some? ==>
              && |r.value| == |faces|
              && forall i :: 0 <= i < |faces| ==>
                   && Identify(names, count, faces[i]) == Some(r.value[i].name)
                   && r.value[i].box == Upscale(faces[i].box)
                   && r.value[i].colour == Colour(r.value[i].name)
    decreases |faces|
  {
    var r := Annotations(names, count, faces);
    if faces != [] && r.Some? {
      var shorter := faces[..|faces| - 1];
      var last := faces[|faces| - 1];
      AnnotationsPerFace(names, count, shorter);
      var drawn := Annotations(names, count, shorter).value;
      var name := Identify(names, count, last).value;
      assert r.value == drawn + [Annotation(Upscale(last.box), name, Colour(name))];
      forall i | 0 <= i < |faces|
        ensures && Identify(names, count, faces[i]) == Some(r.value[i].name)
                && r.value[i].box == Upscale(faces[i].box)
                && r.value[i].colour == Colour(r.value[i].name)
      {
        if i < |shorter| {
          assert faces[i] == shorter[i] && r.value[i] == drawn[i];
        }
      }
    }
  }

  /** One face whose naming raises makes the whole frame raise. */
  lemma FaceFailsFrame(names: seq<Name>, count: nat, faces: seq<Face>, i: nat)
    requires AllReported(faces, count) && i < |faces|
    requires Identify(names, count, faces[i]).None?
    ensures Annotations(names, count, faces).None?
  {
    AnnotationsFailIff(names, count, faces);
  }

  /** With an empty gallery every face is labelled "Unknown" and boxed in red. */
  lemma EmptyGalleryAllUnknown(names: seq<Name>, faces: seq<Face>)
    requires AllReported(faces, 0)
    ensures Annotations(names, 0, faces).Some?
    ensures forall a :: a in Annotations(names, 0, faces).value ==> a.name == UNKNOWN && a.colour == RED
  {
    AnnotationsFailIff(names, 0, faces);
    AnnotationsPerFace(names, 0, faces);
  }

  /** The outcome of a run of the capture loop over some reads: the frames
      emitted, in order, and whether naming a face raised (which ends `run`). */
  datatype Stream = Stream(frames: seq<seq<Annotation>>, crashed: bool)

  function CapturedCount(captures: seq<Capture>): (n: nat)
    ensures n <= |captures|
  {
    if captures == [] then 0
    else CapturedCount(captures[..|captures| - 1]) + (if captures[|captures| - 1].Captured? then 1 else 0)
  }

  /** The capture loop over these reads: a failed read emits nothing, a
      successful one emits its annotated frame, and a raise stops everything. */
  function StreamOf(names: seq<Name>, count: nat, captures: seq<Capture>): (r: Stream)
    requires CapturesReported(captures, count)
    ensures |r.frames| <= CapturedCount(captures)
    decreases |captures|
  {
    if captures == [] then Stream([], false)
    else
      var prior := StreamOf(names, count, captures[..|captures| - 1]);
      var last := captures[|captures| - 1];
      if prior.crashed || last.ReadFailed? then prior
      else
        match Annotations(names, count, last.faces)
        case None => Stream(prior.frames, true)
        case Some(drawn) => Stream(prior.frames + [drawn], false)
  }

  /** The loop raises exactly when naming the faces of some successful read raises. */
  lemma {:induction false} StreamCrashesIff(names: seq<Name>, count: nat, captures: seq<Capture>)
    requires CapturesReported(captures, count)
    ensures StreamOf(names, count, captures).crashed
            <==> exists i :: 0 <= i < |captures| && captures[i].Captured?
                             && Annotations(names, count, captures[i].faces).None?
    decreases |captures|
  {
    if captures != [] {
      var shorter := captures[..|captures| - 1];
      StreamCrashesIff(names, count, shorter);
      assert forall i :: 0 <= i < |shorter| ==> shorter[i] == captures[i];
    }
  }

  /** Until it raises, the loop emits exactly one frame per successful read. */
  lemma {:induction false} StreamFrameCount(names: seq<Name>, count: nat, captures: seq<Capture>)
    requires CapturesReported(captures, count)
    ensures !StreamOf(names, count, captures).crashed
            ==> |StreamOf(names, count, captures).frames| == CapturedCount(captures)
    decreases |captures|
  {
    if captures != [] {
      StreamFrameCount(names, count, captures[..|captures| - 1]);
    }
  }

  /** One more read extends the loop's outcome by what that read produces. */
  lemma StreamStep(names: seq<Name>, count: nat, captures: seq<Capture>, i: nat)
    requires CapturesReported(captures, count) && i < |captures|
    ensures var prior := StreamOf(names, count, captures[..i]);
            StreamOf(names, count, captures[..i + 1])
            == if prior.crashed || captures[i].ReadFailed? then prior
               else match Annotations(names, count, captures[i].faces)
                    case None => Stream(prior.frames, true)
                    case Some(drawn) => Stream(prior.frames + [drawn], false)
  {
    assert captures[..i + 1][..i] == captures[..i];
  }

  /** Every prefix of a reported read sequence is reported. */
  lemma ReportedPrefix(captures: seq<Capture>, count: nat, m: nat)
    requires CapturesReported(captures, count) && m <= |captures|
    ensures CapturesReported(captures[..m], count)
  {
    assert forall i :: 0 <= i < m ==> captures[..m][i] == captures[i];
  }

  /** Once naming has raised, later reads change nothing. */
  lemma {:induction false} CrashIsFinal(names: seq<Name>, count: nat, captures: seq<Capture>, m: nat)
    requires CapturesReported(captures, count)
    requires m <= |captures|
    requires StreamOf(names, count, captures[..m]).crashed
    ensures StreamOf(names, count, captures) == StreamOf(names, count, captures[..m])
    decreases |captures| - m
  {
    if m < |captures| {
      var shorter := captures[..|captures| - 1];
      assert shorter[..m] == captures[..m];
      CrashIsFinal(names, count, shorter, m);
    } else {
      assert captures[..m] == captures;
    }
  }

  /** A raise at read `m` ends the run: the outcome over the first `cycles`
      reads is the outcome over the first `m`. */
  lemma CrashEndsRun(names: seq<Name>, count: nat, captures: seq<Capture>, m: nat, cycles: nat)
    requires CapturesReported(captures, count) && m <= cycles <= |captures|
    requires StreamOf(names, count, captures[..m]).crashed
    ensures StreamOf(names, count, captures[..cycles]) == StreamOf(names, count, captures[..m])
  {
    ReportedPrefix(captures, count, cycles);
    assert captures[..cycles][..m] == captures[..m];
    CrashIsFinal(names, count, captures[..cycles], m);
  }

  /** When every gallery encoding has a name, the loop never raises and emits
      exactly one frame per successful read. */
  lemma NamedGalleryNeverCrashes(names: seq<Name>, count: nat, captures: seq<Capture>)
    requires CapturesReported(captures, count) && count <= |names|
    ensures !StreamOf(names, count, captures).crashed
    ensures |StreamOf(names, count, captures).frames| == CapturedCount(captures)
  {
    StreamCrashesIff(names, count, captures);
    StreamFrameCount(names, count, captures);
    forall i | 0 <= i < |captures| && captures[i].Captured?
      ensures Annotations(names, count, captures[i].faces).Some?
    {
      AnnotationsFailIff(names, count, captures[i].faces);
      forall j | 0 <= j < |captures[i].faces| ensures Identify(names, count, captures[i].faces[j]).Some? {
        IdentifyTotalWhenNamed(names, count, captures[i].faces[j]);
      }
    }
  }

  /** How many reads the loop performs: none if it was stopped before it
      started, otherwise until the device runs out of frames or until the cycle
      during which `stop()` was called. */
  function CyclesRun(running: bool, stopDuring: Option<nat>, available: nat): (n: nat)
    ensures n <= available
    ensures !running ==> n == 0
  {
    if !running then 0
    else match stopDuring
      case None => available
      case Some(k) => if k < available then k + 1 else available
  }

  /** Where `run` left the camera. */
  datatype CameraState = NotStarted | OpenFailed | Streaming | Released

  /** The video worker: it owns its copies of the gallery lists, the stop flag and
      the camera; `emitted` is the sequence of frames sent on `frame_ready`. */
  class VideoThread {
    const knownEncodings: seq<Encoding>
    const knownNames: seq<Name>
    var isRunning: bool
    var camera: CameraState
    var emitted: seq<seq<Annotation>>

    constructor (encodings: seq<Encoding>, names: seq<Name>)
      ensures knownEncodings == encodings && knownNames == names
      ensures isRunning && camera == NotStarted && emitted == []
    {
      knownEncodings := encodings;
      knownNames := names;
      isRunning := true;
      camera := NotStarted;
      emitted := [];
    }

    /** `stop`: only clears the flag; the loop sees it at its next check. */
    method Stop()
      modifies this`isRunning
      ensures !isRunning
    {
      isRunning := false;
    }

    /** The body of the per-face `for` loop over one frame: choose the name,
        scale the box by four, pick the colour. */
    method AnnotateFaces(faces: seq<Face>) returns (r: Option<seq<Annotation>>)
      requires AllReported(faces, |knownEncodings|)
      ensures r == Annotations(knownNames, |knownEncodings|, faces)
    {
      var drawn: seq<Annotation> := [];
      var i := 0;
      while i < |faces|
        invariant 0 <= i <= |faces|
        invariant Annotations(knownNames, |knownEncodings|, faces[..i]) == Some(drawn)
      {
        var face := faces[i];
        assert faces[..i + 1][..i] == faces[..i];
        var name := UNKNOWN;
        if |knownEncodings| > 0 {
          var best := ArgMin(face.distances);
          if face.matches[best] {
            if best >= |knownNames| {
              FaceFailsFrame(knownNames, |knownEncodings|, faces, i);
              return None;
            }
            name := knownNames[best];
          }
        }
        assert Identify(knownNames, |knownEncodings|, face) == Some(name);
        var top, right, bottom, left := face.box.top, face.box.right, face.box.bottom, face.box.left;
        top := top * SCALE;
        right := right * SCALE;
        bottom := bottom * SCALE;
        left := left * SCALE;
        drawn := drawn + [Annotation(Box(top, right, bottom, left), name, Colour(name))];
        i := i + 1;
      }
      assert faces[..i] == faces;
      r := Some(drawn);
    }

    /** `run`: open the camera, run the capture loop, and release the camera
        at the end; if the camera cannot be opened, return at once. If naming a
        face raises, `run` ends without releasing the camera. `stopDuring` is
        the cycle (counted from 0) during which the controlling thread calls
        `stop()`, if it does. */
    method Run(device: Device, stopDuring: Option<nat>)
      requires device.Opened? ==> CapturesReported(device.captures, |knownEncodings|)
      modifies this`isRunning, this`camera, this`emitted
      ensures device.CannotOpen? ==> camera == OpenFailed && emitted == old(emitted) && isRunning == old(isRunning)
      ensures device.Opened? ==>
                var trace := StreamOf(knownNames, |knownEncodings|,
                                      device.captures[..CyclesRun(old(isRunning), stopDuring, |device.captures|)]);
                && emitted == old(emitted) + trace.frames
                && camera == (if trace.crashed then Streaming else Released)
    {
      if device.CannotOpen? {
        camera := OpenFailed;
        return;
      }
      camera := Streaming;
      var raised := CaptureLoop(device.captures, stopDuring);
      if !raised {
        camera := Released;
      }
    }

    /** One pass of the loop body: a failed read is skipped; a successful one
        has its faces named and drawn and the frame emitted, unless naming a
        face raises, in which case nothing is emitted. */
    method ProcessRead(capture: Capture) returns (raised: bool)
      requires capture.Captured? ==> AllReported(capture.faces, |knownEncodings|)
      modifies this`emitted
      ensures capture.ReadFailed? ==> !raised && emitted == old(emitted)
      ensures capture.Captured? ==>
                match Annotations(knownNames, |knownEncodings|, capture.faces)
                case None => raised && emitted == old(emitted)
                case Some(drawn) => !raised && emitted == old(emitted) + [drawn]
    {
      raised := false;
      if capture.Captured? {
        var drawn := AnnotateFaces(capture.faces);
        if drawn.Some? {
          emitted := emitted + [drawn.value];
        } else {
          raised := true;
        }
      }
    }

    /** The `while` loop of `run`: while the flag is set and the camera is open,
        read; emit one annotated frame per successful read and skip failed
        reads. `raised` is the IndexError that ends the loop early. */
    method CaptureLoop(captures: seq<Capture>, stopDuring: Option<nat>) returns (raised: bool)
      requires CapturesReported(captures, |knownEncodings|)
      modifies this`isRunning, this`emitted
      ensures var trace := StreamOf(knownNames, |knownEncodings|,
                                    captures[..CyclesRun(old(isRunning), stopDuring, |captures|)]);
              emitted == old(emitted) + trace.frames && raised == trace.crashed
    {
      ghost var names, count := knownNames, |knownEncodings|;
      ghost var running := isRunning;
      ghost var cycles := CyclesRun(running, stopDuring, |captures|);
      var i := 0;
      raised := false;
      ghost var trace := Stream([], false);
      while !raised && isRunning && i < |captures|
        invariant 0 <= i <= cycles <= |captures|
        invariant isRunning == (running && (stopDuring.None? || i <= stopDuring.value))
        invariant stopDuring.Some? && stopDuring.value < i ==> i == stopDuring.value + 1
        invariant !running ==> i == 0
        invariant CapturesReported(captures[..i], count)
        invariant trace == StreamOf(names, count, captures[..i])
        invariant trace.crashed == raised && emitted == old(emitted) + trace.frames
      {
        StreamStep(names, count, captures, i);
        ReportedPrefix(captures, count, i + 1);
        trace := StreamOf(names, count, captures[..i + 1]);
        raised := ProcessRead(captures[i]);
        if stopDuring == Some(i) {
          Stop();
        }
        i := i + 1;
      }
      if raised {
        CrashEndsRun(names, count, captures, i, cycles);
      } else {
        assert i == cycles;
      }
    }
  }

  /** What `detect` gives the image worker: the encodings of the faces found in
      the file, or the exception loading or encoding raised. */
  datatype Detection = Encoded(encodings: seq<Encoding>) | Raised(error: string)

  /** The worker's one `processing_finished` signal: encodings and a message. */
  datatype WorkerResult = WorkerResult(encodings: seq<Encoding>, message: string)

  const IMAGE_LOADED: string := "图像加载成功。"
  const NO_FACE_FOUND: string := "未找到人脸，请选择另一张图像。"
  const LOAD_FAILED: string := "加载失败："

  /** `ImageProcessingThread.run`: every face's encoding with the success
      message, or no encodings with the no-face message, or no encodings with the
      failure message. Encodings are passed on only when a face was found. */
  function ProcessImage(detection: Detection): (r: WorkerResult)
    ensures r.encodings != [] <==> detection.Encoded? && detection.encodings != []
    ensures r.encodings != [] ==> r.encodings == detection.encodings && r.message == IMAGE_LOADED
    ensures detection == Encoded([]) ==> r.message == NO_FACE_FOUND
    ensures detection.Raised? ==> r.message == LOAD_FAILED + detection.error
  {
    match detection
    case Encoded(encodings) =>
      if |encodings| > 0 then WorkerResult(encodings, IMAGE_LOADED)
      else WorkerResult([], NO_FACE_FOUND)
    case Raised(e) => WorkerResult([], LOAD_FAILED + e)
  }
}
