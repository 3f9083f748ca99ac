/** The image uploader: whole-batch admission of selected or dropped files into an
    in-memory list, removal by index, and the simulated upload progress counter. */
module ImageUploader {
  import opened Wrappers

  /** A selected `File`: its name, its MIME type and its size in bytes. */
  datatype UploadFile = UploadFile(name: string, mimeType: string, size: nat)

  /** The per-file size limit, 5 MiB. */
  const MaxFileSize: nat := 5 * 1024 * 1024

  const NotImageMessage: string := "Please upload only image files."
  const TooLargeMessage: string := "One or more files exceed the 5MB size limit."

  /** `type.startsWith("image/")` */
  predicate IsImageType(t: string)
  {
    |t| >= 6 && t[..6] == "image/"
  }

  predicate IsNotImage(f: UploadFile)
  {
    !IsImageType(f.mimeType)
  }

  predicate IsOversized(f: UploadFile)
  {
    f.size > MaxFileSize
  }

  /** `Array.prototype.filter`: only elements satisfying `p`, and every such element. */
  function Filter<T>(s: seq<T>, p: T -> bool): (r: seq<T>)
    ensures |r| <= |s|
    ensures forall x :: x in r ==> x in s && p(x)
    ensures forall i :: 0 <= i < |s| && p(s[i]) ==> s[i] in r
  {
    if s == [] then []
    else if p(s[0]) then [s[0]] + Filter(s[1..], p)
    else Filter(s[1..], p)
  }

  /** Why a batch is refused. The type check runs first. */
  datatype Rejection = NotImage | TooLarge

  function RejectionMessage(e: Rejection): string
  {
    match e
    case NotImage => NotImageMessage
    case TooLarge => TooLargeMessage
  }

  /** The two `filter(...).length > 0` checks of the handlers, in their order. */
  function ValidateBatch(batch: seq<UploadFile>): (r: Option<Rejection>)
    ensures r == Some(NotImage) <==> exists i :: 0 <= i < |batch| && IsNotImage(batch[i])
    ensures r == Some(TooLarge) <==>
      (forall i :: 0 <= i < |batch| ==> !IsNotImage(batch[i])) &&
      (exists i :: 0 <= i < |batch| && IsOversized(batch[i]))
    ensures r == None <==>
      forall i :: 0 <= i < |batch| ==> IsImageType(batch[i].mimeType) && batch[i].size <= MaxFileSize
  {
    var invalidFiles := Filter(batch, IsNotImage);
    var oversizedFiles := Filter(batch, IsOversized);
    if |invalidFiles| > 0 then
      assert invalidFiles[0] in batch;
      Some(NotImage)
    else if |oversizedFiles| > 0 then
      assert oversizedFiles[0] in batch;
      Some(TooLarge)
    else None
  }

  /** What one admission attempt leaves behind: the file list, the error shown and the
      value passed to `onUploadComplete`, if it is called. */
  datatype Admission = Admission(files: seq<UploadFile>, error: Option<string>, callback: Option<bool>)

  /** The common body of `handleFileChange` and `handleDrop`: clear the error; for an
      empty selection stop there; refuse the whole batch if any file fails a check;
      otherwise append the batch and report completion. */
  function Admit(files: seq<UploadFile>, batch: seq<UploadFile>): (r: Admission)
    ensures batch == [] ==> r == Admission(files, None, None)
    ensures batch != [] && (exists i :: 0 <= i < |batch| && !IsImageType(batch[i].mimeType)) ==>
      r == Admission(files, Some(NotImageMessage), None)
    ensures (batch != [] && (forall i :: 0 <= i < |batch| ==> IsImageType(batch[i].mimeType)) &&
             (exists i :: 0 <= i < |batch| && batch[i].size > MaxFileSize)) ==>
      r == Admission(files, Some(TooLargeMessage), None)
    ensures (batch != [] &&
             (forall i :: 0 <= i < |batch| ==> IsImageType(batch[i].mimeType) && batch[i].size <= MaxFileSize)) ==>
      r.files == files + batch && |r.files| == |files| + |batch| && r.error == None && r.callback == Some(true)
    ensures r.callback.Some? ==> r.callback.value && r.files[..|files|] == files && r.files[|files|..] == batch
    ensures r.callback.None? ==> r.files == files
  {
    if batch == [] then Admission(files, None, None)
    else
      match ValidateBatch(batch)
      case Some(e) => Admission(files, Some(RejectionMessage(e)), None)
      case None => Admission(files + batch, None, Some(true))
  }

  /** A file of exactly 5 MiB passes the size check; one byte more does not. */
  lemma SizeLimitBoundary(name: string, mimeType: string)
    requires IsImageType(mimeType)
    ensures ValidateBatch([UploadFile(name, mimeType, 5 * 1024 * 1024)]) == None
    ensures ValidateBatch([UploadFile(name, mimeType, 5 * 1024 * 1024 + 1)]) == Some(TooLarge)
  {
  }

  /** The position `splice(index, 1)` removes at: a negative index counts from the end. */
  function SpliceStart(len: nat, index: int): (k: nat)
    ensures k <= len
    ensures 0 <= index <= len ==> k == index
    ensures index > len ==> k == len
    ensures -(len as int) <= index < 0 ==> k == len + index
    ensures index < -(len as int) ==> k == 0
  {
    if index < 0 then (if len + index < 0 then 0 else len + index)
    else if index > len then len
    else index
  }

  /** `splice(index, 1)` on a copy of the list: exactly one entry goes when the start
      position is inside the list, the others keep their order. */
  function RemoveAt<T>(s: seq<T>, index: int): (r: seq<T>)
    ensures SpliceStart(|s|, index) < |s| ==>
      |r| == |s| - 1 &&
      (forall j :: 0 <= j < SpliceStart(|s|, index) ==> r[j] == s[j]) &&
      (forall j :: SpliceStart(|s|, index) <= j < |r| ==> r[j] == s[j + 1])
    ensures 0 <= index < |s| ==> |r| == |s| - 1 && multiset(r) + multiset{s[index]} == multiset(s)
    ensures SpliceStart(|s|, index) == |s| ==> r == s
  {
    var k := SpliceStart(|s|, index);
    if k < |s| then
      assert s == s[..k] + [s[k]] + s[k + 1..];
      s[..k] + s[k + 1..]
    else s
  }

  /** One firing of the progress interval: stop at 100, otherwise add 5. */
  function NextProgress(p: int): (r: int)
    ensures 0 <= p <= 100 && p % 5 == 0 ==> p <= r <= 100 && r % 5 == 0
    ensures p >= 100 ==> r == 100
    ensures p < 100 ==> r == p + 5
  {
    if p >= 100 then 100 else p + 5
  }

  /** The progress after `k` firings of the interval, starting from `p`. */
  function ProgressAfter(p: int, k: nat): int
  {
    if k == 0 then p else NextProgress(ProgressAfter(p, k - 1))
  }

  /** From a multiple of 5 between 0 and 100, `k` firings give `min(p + 5k, 100)`. */
  lemma {:induction false} ProgressAfterIs(p: int, k: nat)
    requires 0 <= p <= 100 && p % 5 == 0
    ensures ProgressAfter(p, k) == if p + 5 * k <= 100 then p + 5 * k else 100
  {
    if k > 0 {
      ProgressAfterIs(p, k - 1);
    }
  }

  /** The uploader component's state. */
  class ImageUploaderState {
    var files: seq<UploadFile>
    var uploading: bool
    var uploadProgress: int
    var error: Option<string>
    var isDragging: bool

    /** The progress bar never leaves 0..100 and moves in steps of 5. */
    ghost predicate Valid()
      reads this
    {
      0 <= uploadProgress <= 100 && uploadProgress % 5 == 0
    }

    constructor ()
      ensures Valid()
      ensures files == [] && !uploading && uploadProgress == 0 && error == None && !isDragging
    {
      files := [];
      uploading := false;
      uploadProgress := 0;
      error := None;
      isDragging := false;
    }

    /** `handleFileChange`; returns the argument of `onUploadComplete` if it is called. */
    method HandleFileChange(selected: seq<UploadFile>) returns (uploadComplete: Option<bool>)
      modifies this
      ensures Admission(files, error, uploadComplete) == Admit(old(files), selected)
      ensures uploading == old(uploading) && uploadProgress == old(uploadProgress)
      ensures isDragging == old(isDragging)
    {
      uploadComplete := AdmitBatch(selected);
    }

    /** `handleDrop`: the same admission as `HandleFileChange`, and the drag highlight ends. */
    method HandleDrop(dropped: seq<UploadFile>) returns (uploadComplete: Option<bool>)
      modifies this
      ensures Admission(files, error, uploadComplete) == Admit(old(files), dropped)
      ensures uploading == old(uploading) && uploadProgress == old(uploadProgress)
      ensures !isDragging
    {
      isDragging := false;
      uploadComplete := AdmitBatch(dropped);
    }

    method AdmitBatch(batch: seq<UploadFile>) returns (uploadComplete: Option<bool>)
      modifies this
      ensures Admission(files, error, uploadComplete) == Admit(old(files), batch)
      ensures uploading == old(uploading) && uploadProgress == old(uploadProgress)
      ensures isDragging == old(isDragging)
    {
      error := None;
      uploadComplete := None;
      if |batch| > 0 {
        var invalidFiles := Filter(batch, IsNotImage);
        if |invalidFiles| > 0 {
          error := Some(NotImageMessage);
          return;
        }
        var oversizedFiles := Filter(batch, IsOversized);
        if |oversizedFiles| > 0 {
          error := Some(TooLargeMessage);
          return;
        }
        files := files + batch;
        uploadComplete := Some(true);
      }
    }

    /** `removeFile`: drops the entry at `index` and reports whether any file is left. */
    method RemoveFile(index: int) returns (uploadComplete: bool)
      modifies this
      ensures files == RemoveAt(old(files), index)
      ensures 0 <= index < |old(files)| ==>
        |files| == |old(files)| - 1 && files == old(files)[..index] + old(files)[index + 1..]
      ensures uploadComplete <==> files != []
      ensures uploading == old(uploading) && uploadProgress == old(uploadProgress)
      ensures error == old(error) && isDragging == old(isDragging)
    {
      var newFiles := RemoveAt(files, index);
      uploadComplete := |newFiles| > 0;
      files := newFiles;
    }

    /** The Upload button is disabled while uploading or when no file is listed. */
    function UploadDisabled(): (r: bool)
      reads this
      ensures !r ==> files != []
      ensures uploading ==> r
    {
      uploading || |files| == 0
    }

    /** `simulateUpload`: the progress restarts at 0 and the interval starts. */
    method SimulateUpload()
      modifies this
      ensures Valid()
      ensures uploading && uploadProgress == 0
      ensures files == old(files) && error == old(error) && isDragging == old(isDragging)
    {
      uploading := true;
      uploadProgress := 0;
    }

    /** A click on the Upload button starts the simulated upload only when it is enabled. */
    method ClickUpload() returns (started: bool)
      modifies this
      ensures started == !old(UploadDisabled())
      ensures started ==> uploading && uploadProgress == 0 && Valid()
      ensures !started ==> uploading == old(uploading) && uploadProgress == old(uploadProgress)
      ensures files == old(files) && error == old(error) && isDragging == old(isDragging)
    {
      started := !UploadDisabled();
      if started {
        SimulateUpload();
      }
    }

    /** One firing of the interval. The interval runs while `uploading`; the firing that
        finds the progress at 100 clears it and ends the upload. */
    method IntervalTick() returns (cleared: bool)
      requires Valid() && uploading
      modifies this
      ensures Valid()
      ensures uploadProgress == NextProgress(old(uploadProgress))
      ensures cleared <==> old(uploadProgress) >= 100
      ensures uploading == !cleared
      ensures files == old(files) && error == old(error) && isDragging == old(isDragging)
    {
      if uploadProgress >= 100 {
        cleared := true;
        uploading := false;
        uploadProgress := 100;
      } else {
        cleared := false;
        uploadProgress := uploadProgress + 5;
      }
    }

    /** The interval firing until it clears itself: from progress `p` it takes
        `(100 - p) / 5` firings to reach 100 and one more to end the upload. */
    method RunInterval() returns (ticks: nat)
      requires Valid() && uploading
      modifies this
      ensures Valid()
      ensures !uploading && uploadProgress == 100
      ensures ticks == (100 - old(uploadProgress)) / 5 + 1
      ensures files == old(files) && error == old(error) && isDragging == old(isDragging)
    {
      ghost var p := uploadProgress;
      ghost var n := (100 - p) / 5;
      ticks := 0;
      while uploading
        invariant Valid()
        invariant files == old(files) && error == old(error) && isDragging == old(isDragging)
        invariant ticks <= n + 1
        invariant uploadProgress == ProgressAfter(p, ticks)
        invariant uploading <==> ticks <= n
        decreases n + 1 - ticks
      {
        ProgressAfterIs(p, ticks);
        var cleared := IntervalTick();
        ticks := ticks + 1;
        ProgressAfterIs(p, ticks);
      }
      ProgressAfterIs(p, ticks);
    }
  }
}
