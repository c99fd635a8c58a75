/**
 * The profile-picture upload of frontend/src/pages/ProfilePage.jsx: the
 * integer downscaling rule of `compressImage` and the type and size branches
 * of `handleImageUpload`. File reading, canvas drawing and JPEG encoding are
 * outcomes passed in; `updateProfile` is a parameter too.
 */
module ProfilePage {
  import opened Wrappers

  /** The longest side the compressed image may have. */
  const MaxSide: nat := 800

  /** Files above this many bytes (1 MiB) are compressed before upload. */
  const MaxFileSize: nat := 1 * 1024 * 1024

  const TypeError := "Please select an image file (JPEG, PNG, etc.)"
  const ProcessError := "Failed to process image. Please try a smaller file."
  const UploadError := "Failed to upload image. Please try again."
  const ReadError := "Error reading file. Please try again."

  /** `Math.round(a / b)` for a non-negative `a` and a positive `b`: halves round up. */
  function RoundDiv(a: nat, b: nat): (r: nat)
    requires b > 0
    ensures 2 * (b * r) <= 2 * a + b < 2 * (b * r) + 2 * b
  {
    (2 * a + b) / (2 * b)
  }

  function Max(a: int, b: int): int { if a >= b then a else b }

  /** From `b * r < b * (c + 1)` with a positive `b`, `r` is at most `c`. */
  lemma CancelFactor(b: nat, r: nat, c: nat)
    requires b > 0 && b * r < b * (c + 1)
    ensures r <= c
  {
  }

  /**
   * Scaling the shorter side `a` by 800 over the longer side `b` gives at most
   * 800, within half a unit of the exact ratio.
   */
  lemma ScaledSide(a: nat, b: nat)
    requires 0 < b && a <= b
    ensures RoundDiv(a * 800, b) <= 800
    ensures -(b as int) <= 2 * (800 * a - b * RoundDiv(a * 800, b)) <= b
  {
    var r := RoundDiv(a * 800, b);
    assert 2 * (b * r) <= 1601 * b;
    assert b * (800 + 1) == 801 * b;
    CancelFactor(b, r, 800);
  }

  /**
   * The size `compressImage` draws at: a landscape image wider than 800 becomes
   * 800 wide, anything else taller than 800 becomes 800 high (square images
   * included), the other side scaled and rounded; smaller images are kept.
   * Both sides end at most 800 and the aspect ratio is kept up to rounding.
   */
  method ScaleDimensions(w: nat, h: nat) returns (width: nat, height: nat)
    ensures width <= MaxSide && height <= MaxSide
    ensures w <= MaxSide && h <= MaxSide ==> width == w && height == h
    ensures w > h && w > MaxSide ==> width == MaxSide && height == RoundDiv(h * MaxSide, w)
    ensures w <= h && h > MaxSide ==> height == MaxSide && width == RoundDiv(w * MaxSide, h)
    ensures -Max(w, h) <= 2 * (width * h - w * height) <= Max(w, h)
  {
    width, height := w, h;
    if width > height {
      if width > 800 {
        ScaledSide(height, width);
        height := RoundDiv(height * 800, width);
        width := 800;
      }
    } else {
      if height > 800 {
        ScaledSide(width, height);
        width := RoundDiv(width * 800, height);
        height := 800;
      }
    }
  }

  /** The five characters of `s` starting at `k`. */
  function Window(s: string, k: int): string
    requires 0 <= k <= |s| - 5
  {
    s[k..k + 5]
  }

  /** `'image.*'` as a regular expression: the type contains `image` somewhere. */
  predicate MatchesImagePattern(mimeType: string)
  {
    exists k :: 0 <= k <= |mimeType| - 5 && Window(mimeType, k) == "image"
  }

  /** The pattern is unanchored: `image` anywhere in the type matches, and a type shorter than `image` never does. */
  lemma ImagePatternAnywhere(before: string, after: string, short: string)
    requires |short| < 5
    ensures MatchesImagePattern(before + "image" + after)
    ensures !MatchesImagePattern(short)
  {
    var t := before + "image" + after;
    assert Window(t, |before|) == "image";
  }

  /** The selected file: its type and size in bytes. */
  datatype FileInfo = FileInfo(mimeType: string, size: nat)

  /** Which way `handleImageUpload` went. */
  datatype UploadPath = NoFile | RefusedType | Compress | Direct

  /** The branch taken for a file: refused, compressed above 1 MiB, sent as read otherwise. */
  function ChoosePath(file: Option<FileInfo>): (p: UploadPath)
    ensures p == NoFile <==> file.None?
    ensures p == RefusedType <==> file.Some? && !MatchesImagePattern(file.value.mimeType)
    ensures p == Compress <==> file.Some? && MatchesImagePattern(file.value.mimeType) && file.value.size > MaxFileSize
    ensures p == Direct <==> file.Some? && MatchesImagePattern(file.value.mimeType) && file.value.size <= MaxFileSize
  {
    match file
    case None => NoFile
    case Some(f) =>
      if !MatchesImagePattern(f.mimeType) then RefusedType
      else if f.size > 1 * 1024 * 1024 then Compress
      else Direct
  }

  /** A file of exactly 1 MiB is sent as read; one byte more is compressed; any type containing `image` passes. */
  lemma ChoosePathExamples()
    ensures ChoosePath(Some(FileInfo("image/png", 1048576))) == Direct
    ensures ChoosePath(Some(FileInfo("image/png", 1048577))) == Compress
    ensures ChoosePath(Some(FileInfo("text/plain", 10))) == RefusedType
    ensures ChoosePath(Some(FileInfo("x/notimage", 10))) == Direct
  {
    assert Window("image/png", 0) == "image";
    assert Window("x/notimage", 5) == "image";
    var t := "text/plain";
    forall k | 0 <= k <= |t| - 5 ensures Window(t, k) != "image" {
      assert Window(t, k)[0] == t[k] != 'i';
    }
  }

  /** The canvas size a decoded image is drawn at. */
  datatype Dims = Dims(width: nat, height: nat)

  class ProfileUploader {
    /** The preview shown; `""` when none. */
    var selectedImg: string
    /** The error shown under the avatar; `""` when none. */
    var uploadError: string
    /** The pictures passed to `updateProfile`, oldest first. */
    var updateCalls: seq<string>
    /** The size of the last canvas drawn. */
    var lastCanvas: Option<Dims>

    constructor ()
      ensures selectedImg == "" && uploadError == "" && updateCalls == [] && lastCanvas == None
    {
      selectedImg, uploadError, updateCalls, lastCanvas := "", "", [], None;
    }

    /** `handleImageUpload` up to its first `await`: the error is cleared and the branch chosen. */
    method UploadBegin(file: Option<FileInfo>) returns (path: UploadPath)
      modifies this`uploadError
      ensures path == ChoosePath(file)
      ensures uploadError == match path
                             case NoFile => old(uploadError)
                             case RefusedType => TypeError
                             case _ => ""
    {
      path := ChoosePath(file);
      if path == NoFile { return; }
      uploadError := "";
      if path == RefusedType {
        uploadError := TypeError;
      }
    }

    /**
     * The compression path once the image is decoded (or fails to be): the
     * canvas is drawn at the scaled size, the encoded picture becomes the preview
     * and is uploaded; a decode or upload failure sets the processing error.
     */
    method CompressResolve(decoded: Result<Dims>, encoded: string, update: Result<()>)
      modifies this`selectedImg, this`uploadError, this`updateCalls, this`lastCanvas
      ensures decoded.Err? ==> selectedImg == old(selectedImg) && updateCalls == old(updateCalls)
                               && lastCanvas == old(lastCanvas) && uploadError == ProcessError
      ensures decoded.Ok? ==>
                && lastCanvas.Some? && lastCanvas.value.width <= MaxSide && lastCanvas.value.height <= MaxSide
                && (decoded.value.width <= MaxSide && decoded.value.height <= MaxSide ==> lastCanvas == Some(decoded.value))
                && selectedImg == encoded && updateCalls == old(updateCalls) + [encoded]
                && uploadError == if update.Ok? then old(uploadError) else ProcessError
    {
      if decoded.Err? {
        uploadError := ProcessError;
        return;
      }
      var width, height := ScaleDimensions(decoded.value.width, decoded.value.height);
      lastCanvas := Some(Dims(width, height));
      selectedImg := encoded;
      updateCalls := updateCalls + [encoded];
      if update.Err? {
        uploadError := ProcessError;
      }
    }

    /** The direct path once the reader settles: the file's data URL is shown and uploaded. */
    method DirectResolve(read: Result<string>, update: Result<()>)
      modifies this`selectedImg, this`uploadError, this`updateCalls
      ensures read.Err? ==> selectedImg == old(selectedImg) && updateCalls == old(updateCalls) && uploadError == ReadError
      ensures read.Ok? ==>
                && selectedImg == read.value && updateCalls == old(updateCalls) + [read.value]
                && uploadError == if update.Ok? then old(uploadError) else UploadError
    {
      if read.Err? {
        uploadError := ReadError;
        return;
      }
      selectedImg := read.value;
      updateCalls := updateCalls + [read.value];
      if update.Err? {
        uploadError := UploadError;
      }
    }
  }
}
