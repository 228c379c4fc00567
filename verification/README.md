# FaceIr gallery and recognition logic in Dafny

FaceIr is a desktop face-recognition tool. It keeps a **gallery** of known faces.
The gallery is two co-indexed lists: face encodings and their names. The tool
enrols the first face of an uploaded photo under a generated label `"Known (n)"`,
unless the face library says it matches a stored face. It deletes entries by
index and saves the gallery to `known_faces.json` after every change. It also
names every face in a live camera stream: a face gets the name of the closest
gallery entry, but only if the library says that entry matches.

This project models that logic and proves its properties:

- `face_types.dfy` (module `FaceTypes`): encodings (`seq<real>`), names, an
  `Option` type, and the decimal rendering of integers used in labels and
  messages. It proves that reading the rendering back gives the number.
- `data_manager.dfy` (module `DataManager`): `load_known_faces` and
  `save_known_faces` over an abstract file content. The file is `Absent`,
  `Unreadable` (open or JSON parsing raised), or `Present` with a record whose
  `encodings` and `names` keys may be missing.
- `threads.dfy` (module `Threads`): the per-face naming decision and
  `np.argmin`'s first-minimum tie-break. Also the ×4 box scaling, the box
  colour, and the video thread as a class. Its capture loop is a `while` loop
  proved against a specification of the frames it emits. The module also holds
  the image worker's three-way outcome.
- `gui.dfy` (module `Gui`): value-level specifications of one enrolment
  (`Enroll`) and one deletion (`Delete`). It also has the window
  `FaceRecognitionApp` as a class whose methods change its gallery lists,
  flags and saved file exactly as those functions say.

The face library is an input. `compare_faces` is a `Matcher` function
parameter. For the video path, each detected face carries the distances and
match flags the library reports against the gallery. The camera is a `Device`
value: either it cannot be opened, or it delivers a finite sequence of reads
and then reports itself closed. The moment when the controlling thread calls
`stop()` is a parameter of `Run`.

Where the system's design description and the code disagree, the model follows
the code:

- The design says the gallery's two lists always have equal length, and that
  malformed content loads as an empty gallery. The code never compares the two
  lengths when loading (data_manager.py:23-30). So the model does not assume
  equal lengths. It models what happens when they differ:
  - `delete_face` raises IndexError when the index is within the names but not
    within the encodings.
  - The video thread raises when the closest matching entry has no name.

  Both append and delete are proved to preserve equal lengths when the lists
  start equal. With equal lengths, neither error can happen.
- The design describes stopping the camera as idempotent and guarding against
  concurrent enrolments. The code flips a flag in `toggle_camera`, and guards
  only by disabling the upload button. The model follows the code.
- The design describes matching as "minimum distance within a threshold". The
  code reads the library's match flag at the minimum-distance index. The model
  uses that flag.

## Model

| member | source | states |
|---|---|---|
| `FaceTypes.Decimal` | gui.py:259-260 | `str(n)` is a non-empty string of digits with no leading zero; it has one digit exactly when n < 10 |
| `FaceTypes.DecimalRoundTrip` | gui.py:260 | reading back the decimal rendering of n gives n |
| `FaceTypes.DecimalInjective` | gui.py:260 | different numbers have different decimal renderings |
| `DataManager.Load` | data_manager.py:15-34 | never fails. A missing file gives empty lists and the no-data status. An unreadable file gives empty lists and the error status carrying the exception text. A present record gives its `encodings` and `names`, each defaulting to empty. The status is "loaded n" exactly when the names are non-empty, with n = number of names, and "file empty" exactly when the record has no names. The encoding count is never checked |
| `DataManager.StatusText` | data_manager.py:17-32 | every status message is non-empty; the "loaded" message carries the count's decimal digits right after its four-character prefix, and the error message ends with the exception's text |
| `DataManager.LoadKeepsUnmatchedEncodings` | data_manager.py:23-30 | a record with one encoding and no `names` key loads as "file empty" yet keeps the encoding: the lengths are not cross-checked |
| `DataManager.StatusTextsDiffer` | data_manager.py:17-32 | the four status messages have pairwise different texts |
| `DataManager.LoadedTextInjective` | data_manager.py:28 | two "loaded n faces" messages are equal only for equal counts |
| `DataManager.SaveRecord` | data_manager.py:46-49 | the record written holds both lists such that loading it gives back exactly those encodings and names |
| `DataManager.Save` | data_manager.py:46-55 | after a successful write, loading the file gives back exactly the saved encodings and names, with the "file empty" status for an empty gallery and "loaded n" (n = number of names) otherwise, and the success line is logged. A failed write is reported, not raised, and leaves the file as it was |
| `DataManager.LoadSaveRoundTrip` | data_manager.py:23-49 | loading the record that save builds returns the same lists, in order, with the status counting the names |
| `Threads.ArgMin` | threads.py:45 | `np.argmin` returns an index of a least distance with no smaller index also least (the first minimum) |
| `Threads.FirstMinUnique` | threads.py:45 | at most one index is the first minimum, so the tie-break is deterministic |
| `Threads.Identify` | threads.py:37-47 | an empty gallery gives "Unknown". Otherwise, at the first-minimum index k: "Unknown" if k's match flag is false, even when another entry matches; `names[k]` if it is set and k is within the names; an IndexError if k is beyond the names |
| `Threads.IdentifyTotalWhenNamed` | threads.py:44-47 | when every gallery encoding has a name, naming a face never raises |
| `Threads.Colour` | threads.py:56 | the box is green exactly when the name is not "Unknown", and red exactly when it is |
| `Threads.Upscale` | threads.py:50-53 | each coordinate is a multiple of 4 whose quarter is the original coordinate, so each is exactly 4 times it; the box's orientation is kept |
| `Threads.Annotations` | threads.py:36-60 | the per-face loop over one frame as a specification: face by face in detection order, `None` once naming a face raises. It carries no contract of its own; what it yields is stated by `AnnotationsFailIff` and `AnnotationsPerFace` |
| `Threads.FaceFailsFrame` | threads.py:36-47 | a single face whose naming raises makes the whole frame raise |
| `Threads.AnnotationsFailIff` | threads.py:36-47 | annotating a frame raises exactly when naming one of its faces raises |
| `Threads.AnnotationsPerFace` | threads.py:36-56 | otherwise a frame gets one annotation per face, in detection order. Each annotation carries that face's chosen name, its box scaled ×4, and the colour for that name |
| `Threads.EmptyGalleryAllUnknown` | threads.py:37-40 | with an empty gallery every face is labelled "Unknown" and boxed in red |
| `Threads.StreamOf` | threads.py:25-66 | the frames the capture loop emits over a sequence of reads: never more frames than successful reads |
| `Threads.CyclesRun` | threads.py:25 | the number of reads the loop performs: none when the running flag is already clear, and never more than the device delivers |
| `Threads.StreamCrashesIff` | threads.py:25-66 | the capture loop raises exactly when annotating some successfully read frame raises |
| `Threads.StreamFrameCount` | threads.py:25-66 | until it raises, the loop emits exactly one frame per successful read; failed reads emit nothing |
| `Threads.CrashIsFinal` | threads.py:25-66 | once naming has raised, no later read changes what was emitted |
| `Threads.NamedGalleryNeverCrashes` | threads.py:44-47 | when every gallery encoding has a name, the loop never raises and emits one frame per successful read |
| `Threads.VideoThread.constructor` | threads.py:11-16 | the thread keeps the gallery lists it is given, starts with the running flag set, no camera and nothing emitted |
| `Threads.VideoThread.Stop` | threads.py:71-73 | `stop()` clears the running flag and changes nothing else |
| `Threads.VideoThread.AnnotateFaces` | threads.py:36-60 | the per-face loop returns exactly the frame's specified annotations, or the IndexError |
| `Threads.VideoThread.ProcessRead` | threads.py:26-66 | one pass of the loop body: a failed read emits nothing and does not raise; a successful read either raises (nothing emitted) exactly when the frame's specified annotations fail, or emits exactly those annotations |
| `Threads.VideoThread.Run` | threads.py:18-69 | if the camera cannot be opened, `run` returns at once and emits nothing. Otherwise the emitted frames are the stream of the reads the loop performs. The loop performs none if the flag was already clear. Otherwise it stops when the device closes or after the cycle in which `stop()` was called. The camera is released at the end unless naming raised |
| `Threads.VideoThread.CaptureLoop` | threads.py:25-66 | the `while` loop appends exactly the specified frames for the reads it performs, and reports the IndexError that ends it early |
| `Threads.ProcessImage` | threads.py:83-94 | the image worker passes on encodings only when a face was found, and then all of them with the success message. No face gives the no-face message. An exception gives the failure message with the exception text |
| `Gui.KnownLabel` | gui.py:259-260 | the generated label is never "Unknown", so a freshly enrolled face is drawn green |
| `Gui.KnownLabelInjective` | gui.py:259-260 | labels generated from different numbers differ |
| `Gui.AnyMatch` | gui.py:249-253 | the duplicate test holds exactly when the library says some stored encoding matches the new one |
| `Gui.Enroll` | gui.py:238-263 | no encodings leave the gallery unchanged. The outcome is "no face" exactly when there are no encodings. Only the first encoding is considered. It is a duplicate exactly when some stored encoding matches it, never in an empty gallery, and then the gallery is unchanged. Otherwise (a first encoding that no stored one matches, whatever the gallery's size) exactly one entry is appended to each list, named `Known (old encoding count + 1)`. At most one entry is added, and equal lengths are preserved |
| `Gui.OnlyFirstFaceCounts` | gui.py:247 | enrolling a result with several encodings is the same as enrolling its first alone |
| `Gui.Delete` | gui.py:298-303 | an index outside the names changes nothing. A valid index removes that position from both lists and returns its name: earlier entries are unchanged and later ones shift down by one. If the encodings are too short, `del` raises and nothing changes. Equal lengths are preserved and then never raise |
| `Gui.LabelRepeatsAfterDelete` | gui.py:259-263 | deleting "Known (1)" from a two-entry gallery and enrolling a new face produces a second "Known (2)" |
| `Gui.EnrollThenRecognise` | gui.py:259-263 | enrolling a face into an empty gallery gives one entry "Known (1)". A camera face the library reports as matching it is then named "Known (1)" and drawn green |
| `Gui.WorkerResultEnrollment` | gui.py:242-245 | the enrolment ends as "no face" exactly when the image worker found no face or failed, and then the gallery is unchanged |
| `Gui.SavedText` | gui.py:267 | the text after an enrolment begins with the worker's message, followed by " 人脸 ", the new entry's number in decimal, and " 已保存。" at the end |
| `Gui.DeletedText` | gui.py:306 | the text after a deletion is the seven-character prefix followed by exactly the deleted name |
| `Gui.FaceRecognitionApp.constructor` | gui.py:169-185 | the window starts with the camera off, no thread, the upload button enabled, and the lists and status text that loading the file gives |
| `Gui.FaceRecognitionApp.SaveKnownFaces` | gui.py:187-189 | the saved file afterwards is what `save_known_faces` makes of the current lists |
| `Gui.FaceRecognitionApp.ToggleCamera` | gui.py:191-211 | flips the camera flag. Turning off stops the thread and clears the reference. Turning on creates a fresh thread over the current lists. The camera is on exactly when a running thread is held |
| `Gui.FaceRecognitionApp.UploadImage` | gui.py:219-236 | turns the camera off first. An empty path only shows the no-file message. Otherwise the upload button is disabled and the path goes to a new image worker |
| `Gui.FaceRecognitionApp.HandleImageResult` | gui.py:238-269 | always re-enables the upload button. The lists change exactly as `Enroll` says. The file is saved only when an entry was added. The text shows the worker's message, the duplicate message, or the saved message with the new number |
| `Gui.FaceRecognitionApp.DeleteFace` | gui.py:298-307 | the lists change exactly as `Delete` says. On a removal the file is saved and the text names the deleted face. Out of range, the lists, file and text are untouched. `raised` is the IndexError |

## Left out

- Qt user interface: the stylesheet, layouts, sidebar rebuilding (`populate_sidebar`), `update_frame`, `closeEvent`, the file dialog, and the camera label and button captions. The dialog's answer is the `filePath` parameter of `UploadImage`; an empty path means no file was chosen.
- Console output (`print`): the save log is modelled as a value, the other printed lines are not.
- The face library (`face_locations`, `face_encodings`, `compare_faces`, `face_distance`): detection results, distances and match flags are inputs, and floats are reals. A NaN distance (for which `np.argmin` returns the NaN's index) is not modelled.
- OpenCV: capturing, resizing, colour conversion, drawing, and conversion to `QImage`. An emitted frame is its list of annotations, not pixels. The label band's geometry (35 pixels high, text at `left + 6`, `bottom - 6`) is not modelled.
- File access and JSON text: the file content is the `Stored` value, and a present record's keys hold lists of encodings and of names or are missing.
- DataManager.Load: values of another JSON type under `encodings` or `names` are not modelled. In the program a string or object there is iterated or measured without error and loads: `{"names": "ab"}` gives the two names `a` and `b` and the message that 2 faces were loaded, and an `encodings` string or object becomes a list of its characters or keys. A number or `null` raises, after the lists may already have been assigned, and the message reports the error. The model only distinguishes well-typed records from files whose reading raised (`Unreadable`).
- `DataManager.Save`: a write that fails part-way can leave a truncated file; the model leaves the file unchanged on any failed write.
- Threads and signals: `start`, `wait`, `frame_ready`, and `processing_finished` are not modelled. `ToggleCamera` does not run the thread; `Run` is verified on its own. The window hands the worker's result to `HandleImageResult` by a call.
- Sharing by reference: the window and the video thread share the same list objects. A deletion made while the camera is on is seen by the running thread in the program but not in the model, where the thread holds copies.
- Concurrency: when `stop()` lands is the `stopDuring` parameter of `Run`. The device delivers finitely many reads and then reports itself closed. An endless stream is not modelled.
- What happens after an exception escapes a Qt slot or a thread's `run` is not modelled. `DeleteFace` reports it as `raised`; `Run` leaves the camera unreleased.
