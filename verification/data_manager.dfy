/** Loading and saving the gallery (data_manager.py).

    The durable record is the file `known_faces.json`. File access and JSON text
    are abstracted: the file is either absent, unreadable (opening or parsing it
    raised an exception), or holds a record whose `encodings` and `names` keys may
    each be missing. */
module DataManager {
  import opened FaceTypes

  /** The JSON object in the file. A key missing from the object is `None`. */
  datatype Record = Record(encodings: Option<seq<Encoding>>, names: Option<seq<Name>>)

  /** What `open` + `json.load` find at the gallery file's path. */
  datatype Stored = Absent | Unreadable(error: string) | Present(record: Record)

  /** The status message `load_known_faces` returns, before rendering. */
  datatype Status = NoFaceData | Loaded(count: nat) | FileEmpty | LoadFailed(error: string)

  datatype LoadResult = LoadResult(encodings: seq<Encoding>, names: seq<Name>, status: Status)

  /** The text of a load status, as shown in the information label. */
  function StatusText(s: Status): (r: string)
    ensures |r| > 0
    ensures s.Loaded? ==> |r| == 4 + |Decimal(s.count)| + 12 && r[4..4 + |Decimal(s.count)|] == Decimal(s.count)
    ensures s.LoadFailed? ==> |r| >= |s.error| && r[|r| - |s.error|..] == s.error
  {
    match s
    case NoFaceData => "未找到人脸数据。请上传照片。"
    case Loaded(n) => "已加载 " + Decimal(n) + " 张已知人脸。准备识别。"
    case FileEmpty => "人脸数据文件为空。请上传照片。"
    case LoadFailed(e) => "加载人脸数据时出错：" + e
  }

  /** `load_known_faces`: never fails; reports what it found in the status.
      The status counts the names only; the two lists are not compared. */
  function Load(stored: Stored): (r: LoadResult)
    ensures r.status == NoFaceData <==> stored.Absent?
    ensures r.status.LoadFailed? <==> stored.Unreadable?
    ensures stored.Unreadable? ==> r.status.error == stored.error
    ensures !stored.Present? ==> r.encodings == [] && r.names == []
    ensures stored.Present? ==> r.encodings == stored.record.encodings.GetOr([])
    ensures stored.Present? ==> r.names == stored.record.names.GetOr([])
    ensures r.status.Loaded? <==> stored.Present? && |r.names| > 0
    ensures r.status.Loaded? ==> r.status.count == |r.names|
    ensures r.status == FileEmpty <==> stored.Present? && r.names == []
  {
    match stored
    case Absent => LoadResult([], [], NoFaceData)
    case Unreadable(e) => LoadResult([], [], LoadFailed(e))
    case Present(record) =>
      var encodings := record.encodings.GetOr([]);
      var names := record.names.GetOr([]);
      LoadResult(encodings, names, if |names| > 0 then Loaded(|names|) else FileEmpty)
  }

  /** The record `save_known_faces` writes: both keys present, encodings and
      names in gallery order. */
  function SaveRecord(encodings: seq<Encoding>, names: seq<Name>): (r: Record)
    ensures Load(Present(r)).encodings == encodings && Load(Present(r)).names == names
  {
    Record(Some(encodings), Some(names))
  }

  /** What the file system did with the write. */
  datatype WriteOutcome = Written | WriteFailed(error: string)

  /** The line `save_known_faces` prints. */
  datatype SaveLog = SaveSucceeded | SaveFailed(error: string)

  datatype SaveResult = SaveResult(stored: Stored, log: SaveLog)

  /** `save_known_faces`: writes the record and reports the outcome; a failed
      write is reported, never raised, and leaves the file as it was. */
  function Save(encodings: seq<Encoding>, names: seq<Name>, write: WriteOutcome, before: Stored): (r: SaveResult)
    ensures write.Written? ==> Load(r.stored).encodings == encodings && Load(r.stored).names == names
    ensures write.Written? ==> r.log == SaveSucceeded
    ensures write.Written? ==>
              Load(r.stored) == LoadResult(encodings, names, if names == [] then FileEmpty else Loaded(|names|))
    ensures write.WriteFailed? ==> r.stored == before && r.log == SaveFailed(write.error)
  {
    match write
    case Written => SaveResult(Present(SaveRecord(encodings, names)), SaveSucceeded)
    case WriteFailed(e) => SaveResult(before, SaveFailed(e))
  }

  /** Loading a saved gallery gives back the same lists, and the status counts
      the saved names. */
  lemma LoadSaveRoundTrip(encodings: seq<Encoding>, names: seq<Name>)
    ensures Load(Present(SaveRecord(encodings, names)))
         == LoadResult(encodings, names, if names == [] then FileEmpty else Loaded(|names|))
  {
  }

  /** The lengths are never compared: a record with an encoding and no `names`
      key loads as an empty file that still carries the encoding. */
  lemma LoadKeepsUnmatchedEncodings(e: Encoding)
    ensures Load(Present(Record(Some([e]), None))) == LoadResult([e], [], FileEmpty)
  {
  }

  /** The four status messages are told apart by their text. */
  lemma StatusTextsDiffer(n: nat, e: string)
    ensures StatusText(NoFaceData) != StatusText(Loaded(n))
    ensures StatusText(NoFaceData) != StatusText(FileEmpty)
    ensures StatusText(Loaded(n)) != StatusText(FileEmpty)
    ensures StatusText(LoadFailed(e)) != StatusText(NoFaceData)
    ensures StatusText(LoadFailed(e)) != StatusText(Loaded(n))
    ensures StatusText(LoadFailed(e)) != StatusText(FileEmpty)
  {
    assert StatusText(NoFaceData)[0] != StatusText(Loaded(n))[0];
    assert StatusText(NoFaceData)[0] != StatusText(FileEmpty)[0];
    assert StatusText(Loaded(n))[0] != StatusText(FileEmpty)[0];
    assert StatusText(LoadFailed(e))[0] != StatusText(NoFaceData)[0];
    assert StatusText(LoadFailed(e))[0] != StatusText(Loaded(n))[0];
    assert StatusText(LoadFailed(e))[0] != StatusText(FileEmpty)[0];
  }

  /** Two loaded-count messages are equal only for equal counts. */
  lemma LoadedTextInjective(m: nat, n: nat)
    requires StatusText(Loaded(m)) == StatusText(Loaded(n))
    ensures m == n
  {
    var prefix := "已加载 ";
    var suffix := " 张已知人脸。准备识别。";
    var a := StatusText(Loaded(m));
    var b := StatusText(Loaded(n));
    assert a[|prefix|..|a| - |suffix|] == Decimal(m);
    assert b[|prefix|..|b| - |suffix|] == Decimal(n);
    DecimalInjective(m, n);
  }
}
