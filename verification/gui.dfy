/** The application window's gallery and control logic (gui.py).

    The gallery is two co-indexed lists, the encodings and their names. The
    window enrols the first face of an uploaded image unless the face library
    says it matches a stored encoding, deletes entries by index, saves after
    every change, and switches the camera thread on and off.

    The pure functions below give the meaning of one enrolment and one deletion
    on a gallery value; the methods of FaceRecognitionApp are proved to change
    the window's lists exactly as these functions say. */
module Gui {
  import opened FaceTypes
  import opened DataManager
  import opened Threads

  /** `compare_faces([known], candidate)[0]`: the face library's verdict on
      whether two encodings show the same person. */
  type Matcher = (Encoding, Encoding) -> bool

  /** The gallery lists, as one value. */
  datatype Gallery = Gallery(encodings: seq<Encoding>, names: seq<Name>)

  /** Every encoding has the name at the same index and vice versa. */
  predicate CoIndexed(g: Gallery) {
    |g.encodings| == |g.names|
  }

  /** The generated label `f"Known ({id})"`. */
  function KnownLabel(id: nat): (s: Name)
    ensures s != UNKNOWN
  {
    "Known (" + Decimal(id) + ")"
  }

  /** Labels of different numbers differ. */
  lemma KnownLabelInjective(m: nat, n: nat)
    requires KnownLabel(m) == KnownLabel(n)
    ensures m == n
  {
    var a, b := KnownLabel(m), KnownLabel(n);
    assert a[7..|a| - 1] == Decimal(m);
    assert b[7..|b| - 1] == Decimal(n);
    DecimalInjective(m, n);
  }

  /** Whether the library says some stored encoding matches the candidate. */
  function AnyMatch(known: seq<Encoding>, candidate: Encoding, matches: Matcher): (r: bool)
    ensures r <==> exists i :: 0 <= i < |known| && matches(known[i], candidate)
    decreases |known|
  {
    if known == [] then false
    else matches(known[0], candidate) || AnyMatch(known[1..], candidate, matches)
  }

  /** How an enrolment ended: the worker found no face, the face is already
      known, or it was added under number `id`. */
  datatype Enrollment = NoFace | Duplicate | Added(id: nat)

  datatype Enrolled = Enrolled(gallery: Gallery, outcome: Enrollment)

  /** `handle_image_result` on the gallery: only the first encoding counts; it is
      rejected if any stored encoding matches it (never, in an empty gallery), and
      otherwise appended under the label numbered one past the encoding count. */
  function Enroll(g: Gallery, encodings: seq<Encoding>, matches: Matcher): (r: Enrolled)
    ensures r.outcome == NoFace <==> encodings == []
    ensures r.outcome == Duplicate
            <==> encodings != [] && exists i :: 0 <= i < |g.encodings| && matches(g.encodings[i], encodings[0])
    ensures g.encodings == [] && encodings != [] ==> r.outcome.Added?
    ensures encodings != [] && !(exists i :: 0 <= i < |g.encodings| && matches(g.encodings[i], encodings[0]))
            ==> r.outcome.Added?
    ensures !r.outcome.Added? ==> r.gallery == g
    ensures r.outcome.Added? ==>
              && r.outcome.id == |g.encodings| + 1
              && r.gallery.encodings == g.encodings + [encodings[0]]
              && r.gallery.names == g.names + [KnownLabel(r.outcome.id)]
    ensures |r.gallery.encodings| <= |g.encodings| + 1 && |r.gallery.names| <= |g.names| + 1
    ensures CoIndexed(g) ==> CoIndexed(r.gallery)
  {
    if encodings == [] then Enrolled(g, NoFace)
    else if g.encodings != [] && AnyMatch(g.encodings, encodings[0], matches) then Enrolled(g, Duplicate)
    else
      var id := |g.encodings| + 1;
      Enrolled(Gallery(g.encodings + [encodings[0]], g.names + [KnownLabel(id)]), Added(id))
  }

  /** However many faces the image holds, enrolment depends on the first only. */
  lemma OnlyFirstFaceCounts(g: Gallery, encodings: seq<Encoding>, matches: Matcher)
    requires encodings != []
    ensures Enroll(g, encodings, matches) == Enroll(g, encodings[..1], matches)
  {
  }

  /** How a deletion ended: the entry was removed, the index was out of range
      (nothing happens), or `del` raised IndexError because the encoding list is
      shorter than the name list (nothing changes). */
  datatype Deletion = Removed(name: Name) | OutOfRange | IndexError

  datatype Deleted = Deleted(gallery: Gallery, outcome: Deletion)

  /** `delete_face` on the gallery: bounds-checked against the names; removes the
      same index from both lists, shifting later entries down by one. */
  function Delete(g: Gallery, index: int): (r: Deleted)
    ensures r.outcome == OutOfRange <==> !(0 <= index < |g.names|)
    ensures r.outcome == IndexError <==> 0 <= index < |g.names| && index >= |g.encodings|
    ensures !r.outcome.Removed? ==> r.gallery == g
    ensures r.outcome.Removed? ==>
              && r.outcome.name == g.names[index]
              && |r.gallery.names| == |g.names| - 1
              && |r.gallery.encodings| == |g.encodings| - 1
              && (forall j :: 0 <= j < index ==> r.gallery.names[j] == g.names[j] && r.gallery.encodings[j] == g.encodings[j])
              && (forall j :: index <= j < |r.gallery.names| ==> r.gallery.names[j] == g.names[j + 1])
              && (forall j :: index <= j < |r.gallery.encodings| ==> r.gallery.encodings[j] == g.encodings[j + 1])
    ensures CoIndexed(g) ==> CoIndexed(r.gallery) && r.outcome != IndexError
  {
    if !(0 <= index < |g.names|) then Deleted(g, OutOfRange)
    else if index >= |g.encodings| then Deleted(g, IndexError)
    else
      Deleted(Gallery(g.encodings[..index] + g.encodings[index + 1..], g.names[..index] + g.names[index + 1..]),
              Removed(g.names[index]))
  }

  /** Labels are numbered by the current size, so after a deletion a new entry
      can repeat the label of one still in the gallery. */
  lemma LabelRepeatsAfterDelete(e1: Encoding, e2: Encoding, e3: Encoding)
    ensures var g := Gallery([e1, e2], [KnownLabel(1), KnownLabel(2)]);
            var after := Enroll(Delete(g, 0).gallery, [e3], (a, b) => false).gallery;
            after.names == [KnownLabel(2), KnownLabel(2)]
  {
    var g := Gallery([e1, e2], [KnownLabel(1), KnownLabel(2)]);
    assert Delete(g, 0).gallery == Gallery([e2], [KnownLabel(2)]);
  }

  /** Enrolling a face into an empty gallery and then showing the camera a face
      that the library reports as a match for it names that face "Known (1)" and
      draws it green. */
  lemma EnrollThenRecognise(e: Encoding, matches: Matcher, face: Face)
    requires face.matches == [true] && |face.distances| == 1
    ensures var g := Enroll(Gallery([], []), [e], matches).gallery;
            && g == Gallery([e], [KnownLabel(1)])
            && Identify(g.names, |g.encodings|, face) == Some(KnownLabel(1))
            && Colour(KnownLabel(1)) == GREEN
  {
    assert IsFirstMin(face.distances, 0);
  }

  /** What the image worker delivers decides the enrolment: an image without a
      face, or one that could not be read, leaves the gallery as it was. */
  lemma WorkerResultEnrollment(g: Gallery, detection: Detection, matches: Matcher)
    ensures var r := Enroll(g, ProcessImage(detection).encodings, matches);
            && (r.outcome == NoFace <==> !(detection.Encoded? && detection.encodings != []))
            && (r.outcome == NoFace ==> r.gallery == g)
  {
  }

  const WELCOME: string := "请上传照片以开始人脸识别。"
  const NO_FILE_CHOSEN: string := "未选择文件，请重试。"
  const PROCESSING: string := "正在处理图像..."
  const ALREADY_KNOWN: string := "此人脸已存在，无需重复添加。"

  /** The information text after a successful enrolment. */
  function SavedText(message: string, id: nat): (r: string)
    ensures |r| == |message| + 4 + |Decimal(id)| + 5
    ensures r[..|message|] == message
    ensures r[|message| + 4..|r| - 5] == Decimal(id)
    ensures r[|message|..|message| + 4] == " 人脸 " && r[|r| - 5..] == " 已保存。"
  {
    message + " 人脸 " + Decimal(id) + " 已保存。"
  }

  /** The information text after a deletion. */
  function DeletedText(name: Name): (r: string)
    ensures |r| == 7 + |name| && r[7..] == name
  {
    "已删除人脸: " + name
  }

  /** The main window's state: the gallery lists, the camera flag and thread,
      the image worker (the path it was given), the upload button's enabled
      state, the information label's text, and the content of the gallery file,
      which is updated wherever the window saves. */
  class FaceRecognitionApp {
    var knownEncodings: seq<Encoding>
    var knownNames: seq<Name>
    var isCameraOn: bool
    var videoThread: VideoThread?
    var imageThread: Option<string>
    var uploadEnabled: bool
    var info: string
    ghost var persisted: Stored

    function Current(): (g: Gallery)
      reads this
    {
      Gallery(knownEncodings, knownNames)
    }

    /** The camera is on exactly when the window holds a video thread, and that
        thread has not been asked to stop. */
    ghost predicate Valid()
      reads this, videoThread
    {
      && (isCameraOn <==> videoThread != null)
      && (videoThread != null ==> videoThread.isRunning)
    }

    /** `__init__`: camera off, no workers, then `load_known_faces` from the
        file's current content. */
    constructor (stored: Stored)
      ensures Valid() && !isCameraOn && imageThread == None && uploadEnabled
      ensures knownEncodings == Load(stored).encodings && knownNames == Load(stored).names
      ensures info == StatusText(Load(stored).status)
      ensures persisted == stored
    {
      knownEncodings := [];
      knownNames := [];
      videoThread := null;
      imageThread := None;
      isCameraOn := false;
      uploadEnabled := true;
      info := WELCOME;
      persisted := stored;
      new;
      var loaded := Load(stored);
      knownEncodings, knownNames, info := loaded.encodings, loaded.names, StatusText(loaded.status);
    }

    /** `save_known_faces`: the file afterwards holds the current lists, unless
        the write failed. */
    method SaveKnownFaces(write: WriteOutcome)
      modifies this`persisted
      ensures persisted == Save(knownEncodings, knownNames, write, old(persisted)).stored
    {
      persisted := Save(knownEncodings, knownNames, write, persisted).stored;
    }

    /** `toggle_camera`: stopping clears the thread's flag and drops the thread;
        starting creates a thread over the current gallery lists. */
    method ToggleCamera()
      requires Valid()
      modifies this`isCameraOn, this`videoThread, videoThread
      ensures Valid()
      ensures isCameraOn == !old(isCameraOn)
      ensures old(isCameraOn) ==> videoThread == null && !old(videoThread).isRunning
      ensures !old(isCameraOn) ==>
                && fresh(videoThread)
                && videoThread.knownEncodings == knownEncodings
                && videoThread.knownNames == knownNames
                && videoThread.camera == NotStarted
    {
      if isCameraOn {
        videoThread.Stop();
        videoThread := null;
        isCameraOn := false;
      } else {
        videoThread := new VideoThread(knownEncodings, knownNames);
        isCameraOn := true;
      }
    }

    /** `upload_image`: turns the camera off first; with no file chosen (the
        dialog returns an empty path) only says so; otherwise disables the
        upload button and hands the path to a new image worker. */
    method UploadImage(filePath: string)
      requires Valid()
      modifies this`isCameraOn, this`videoThread, videoThread, this`info, this`uploadEnabled, this`imageThread
      ensures Valid() && !isCameraOn
      ensures old(isCameraOn) ==> !old(videoThread).isRunning
      ensures filePath == "" ==>
                info == NO_FILE_CHOSEN && uploadEnabled == old(uploadEnabled) && imageThread == old(imageThread)
      ensures filePath != "" ==> info == PROCESSING && !uploadEnabled && imageThread == Some(filePath)
    {
      if isCameraOn {
        ToggleCamera();
      }
      if filePath == "" {
        info := NO_FILE_CHOSEN;
        return;
      }
      info := PROCESSING;
      uploadEnabled := false;
      imageThread := Some(filePath);
    }

    /** `handle_image_result`: re-enables the upload button, then enrols the
        first encoding as Enroll says, saving only when an entry was added. */
    method HandleImageResult(encodings: seq<Encoding>, message: string, matches: Matcher, write: WriteOutcome)
      modifies this`uploadEnabled, this`info, this`knownEncodings, this`knownNames, this`persisted
      ensures uploadEnabled
      ensures Current() == Enroll(old(Current()), encodings, matches).gallery
      ensures match Enroll(old(Current()), encodings, matches).outcome
              case NoFace => info == message && persisted == old(persisted)
              case Duplicate => info == ALREADY_KNOWN && persisted == old(persisted)
              case Added(id) =>
                info == SavedText(message, id)
                && persisted == Save(knownEncodings, knownNames, write, old(persisted)).stored
    {
      uploadEnabled := true;
      if encodings == [] {
        info := message;
        return;
      }
      var newEncoding := encodings[0];
      var isDuplicate := false;
      if knownEncodings != [] {
        isDuplicate := AnyMatch(knownEncodings, newEncoding, matches);
      }
      if isDuplicate {
        info := ALREADY_KNOWN;
      } else {
        var newFaceId := |knownEncodings| + 1;
        var newFaceName := KnownLabel(newFaceId);
        knownEncodings := knownEncodings + [newEncoding];
        knownNames := knownNames + [newFaceName];
        SaveKnownFaces(write);
        info := SavedText(message, newFaceId);
      }
    }

    /** `delete_face`: removes entry `index` as Delete says and saves; an index
        out of range changes nothing. `raised` is the IndexError that escapes
        the handler when the encoding list is shorter than the name list. */
    method DeleteFace(index: int, write: WriteOutcome) returns (raised: bool)
      modifies this`knownEncodings, this`knownNames, this`info, this`persisted
      ensures Current() == Delete(old(Current()), index).gallery
      ensures raised <==> Delete(old(Current()), index).outcome == IndexError
      ensures match Delete(old(Current()), index).outcome
              case Removed(name) =>
                info == DeletedText(name)
                && persisted == Save(knownEncodings, knownNames, write, old(persisted)).stored
              case _ => info == old(info) && persisted == old(persisted)
    {
      raised := false;
      if 0 <= index < |knownNames| {
        var nameToDelete := knownNames[index];
        if index >= |knownEncodings| {
          raised := true;
          return;
        }
        knownEncodings := knownEncodings[..index] + knownEncodings[index + 1..];
        knownNames := knownNames[..index] + knownNames[index + 1..];
        SaveKnownFaces(write);
        info := DeletedText(nameToDelete);
      }
    }
  }
}
