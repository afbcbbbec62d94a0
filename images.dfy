/** The guard on the image path and the MIME type derived from its extension. */
module Images {
  import opened Options
  import opened Text

  /** The suffixes `validate_image` accepts, in the order the tool lists them. */
  const SupportedExtensions: seq<string> := [".png", ".jpg", ".jpeg", ".bmp", ".webp", ".tiff", ".tif"]

  /** The extension-to-MIME table of `get_image_content_type`. */
  const ContentTypes: map<string, string> := map[
    "png" := "image/png",
    "jpg" := "image/jpeg",
    "jpeg" := "image/jpeg",
    "bmp" := "image/bmp",
    "webp" := "image/webp",
    "tiff" := "image/tiff",
    "tif" := "image/tiff"]

  /** What an unlisted extension maps to. */
  const FallbackContentType: string := "image/png"

  const UnsupportedMessage: string :=
    " is not a valid image file. Supported formats: PNG, JPG, JPEG, BMP, WEBP, TIFF, TIF"

  /** The two exceptions `validate_image` raises, with their messages. */
  datatype ImageError =
    | NotFound(message: string)            // FileNotFoundError
    | UnsupportedFormat(message: string)   // ValueError

  /** The lower-cased text after the last `.` of the path (the whole path without a `.`). */
  function Extension(path: string): (e: string)
    ensures '.' !in e
    ensures '.' !in path ==> e == Lower(path)
  {
    LowerKeepsChar(path, '.');
    LastPiece(Lower(path), '.')
  }

  /** `validate_image`: existence is checked first, then the lower-cased path must end with
      one of the supported suffixes. `found` is what the file system says about the path. */
  function ValidateImage(path: string, found: bool): (r: Outcome<ImageError>)
    ensures !found ==> r == Fail(NotFound(path + " does not exist."))
    ensures found ==>
      (r.Pass? <==> exists i :: 0 <= i < |SupportedExtensions| && EndsWith(Lower(path), SupportedExtensions[i]))
    ensures found && r.Fail? ==> r.error == UnsupportedFormat(path + UnsupportedMessage)
  {
    if !found then Fail(NotFound(path + " does not exist."))
    else if !EndsWithAny(Lower(path), SupportedExtensions) then Fail(UnsupportedFormat(path + UnsupportedMessage))
    else Pass
  }

  /** `get_image_content_type`: the table entry of the extension, else the fallback; always
      one of five MIME strings. */
  function ContentType(path: string): (r: string)
    ensures r == "image/png" || r == "image/jpeg" || r == "image/bmp" || r == "image/webp" || r == "image/tiff"
  {
    var ext := Extension(path);
    if ext in ContentTypes then ContentTypes[ext] else FallbackContentType
  }

  /** Each supported suffix is `.` followed by a key of the content-type table. */
  lemma SuffixShape(i: nat)
    requires i < |SupportedExtensions|
    ensures |SupportedExtensions[i]| >= 1 && SupportedExtensions[i][0] == '.'
    ensures SupportedExtensions[i][1..] in ContentTypes
    ensures '.' !in SupportedExtensions[i][1..]
  {
  }

  /** Each key of the content-type table, behind a `.`, is a supported suffix. */
  lemma SuffixFor(name: string) returns (j: nat)
    requires name in ContentTypes
    ensures j < |SupportedExtensions| && SupportedExtensions[j] == ['.'] + name
  {
    j := if name == "png" then 0 else if name == "jpg" then 1 else if name == "jpeg" then 2
      else if name == "bmp" then 3 else if name == "webp" then 4 else if name == "tiff" then 5 else 6;
  }

  /** A path whose lower-cased form ends with a supported suffix has that suffix, less its
      `.`, as its extension. */
  lemma AcceptedHasListedExtension(path: string)
    requires ValidateImage(path, true).Pass?
    ensures '.' in path && Extension(path) in ContentTypes
  {
    var low := Lower(path);
    var i :| 0 <= i < |SupportedExtensions| && EndsWith(low, SupportedExtensions[i]);
    SuffixShape(i);
    var e := SupportedExtensions[i];
    var head := low[..|low| - |e|];
    assert low == head + ['.'] + e[1..] by {
      assert e == ['.'] + e[1..];
    }
    SplitEndsWithTail(head, e[1..], '.');
    assert low[|head|] == '.';
    LowerKeepsChar(path, '.');
  }

  /** A path with a `.` whose extension is in the table ends with a supported suffix. */
  lemma ListedExtensionIsAccepted(path: string)
    requires '.' in path && Extension(path) in ContentTypes
    ensures ValidateImage(path, true).Pass?
  {
    var low := Lower(path);
    LowerKeepsChar(path, '.');
    var parts := Split(low, '.');
    if |parts| == 1 {
      assert false;
    }
    JoinLast(parts, ".");
    var last := parts[|parts| - 1];
    assert low == Join(parts[..|parts| - 1], ".") + ['.'] + last;
    var j := SuffixFor(last);
    assert EndsWith(low, SupportedExtensions[j]);
  }

  /** An existing path passes validation exactly when it has a `.` and the text after the
      last `.`, lower-cased, is a key of the content-type table; for such a path the content
      type is that key's entry, so the `image/png` fallback is reached only by rejected paths. */
  lemma AcceptedIffListedExtension(path: string)
    ensures ValidateImage(path, true).Pass? <==> '.' in path && Extension(path) in ContentTypes
    ensures ValidateImage(path, true).Pass? ==> ContentType(path) == ContentTypes[Extension(path)]
  {
    if ValidateImage(path, true).Pass? {
      AcceptedHasListedExtension(path);
    }
    if '.' in path && Extension(path) in ContentTypes {
      ListedExtensionIsAccepted(path);
    }
  }

  /** Case does not matter, to the guard or to the content type. */
  lemma CaseInsensitive(path: string, found: bool)
    ensures ValidateImage(Lower(path), found).Pass? == ValidateImage(path, found).Pass?
    ensures ContentType(Lower(path)) == ContentType(path)
  {
    LowerIdempotent(path);
  }

  /** A content type never holds a `;`, so it reads back unambiguously from a data URI. */
  lemma ContentTypeHasNoSemicolon(path: string)
    ensures ';' !in ContentType(path)
  {
  }

  /** A missing file is reported as not found whatever its extension, and the message
      names the path. */
  lemma MissingFileExample()
    ensures ValidateImage("./no.png", false) == Fail(NotFound("./no.png does not exist."))
    ensures ValidateImage("document.pdf", false).error.NotFound?
  {
    assert "./no.png" + " does not exist." == "./no.png does not exist.";
  }

  /** The extension of `name` + `.` + `ext`, for an `ext` without a `.`, is `ext` lowered. */
  lemma ExtensionOf(name: string, ext: string)
    requires '.' !in ext
    ensures Extension(name + ['.'] + ext) == Lower(ext)
  {
    LowerAppend(name, ['.'] + ext);
    LowerAppend(['.'], ext);
    assert Lower(['.']) == ['.'];
    assert name + ['.'] + ext == name + (['.'] + ext);
    assert Lower(name) + (['.'] + Lower(ext)) == Lower(name) + ['.'] + Lower(ext);
    LowerKeepsChar(ext, '.');
    SplitEndsWithTail(Lower(name), Lower(ext), '.');
  }

  /** A file named with a listed extension, in any case, passes validation and gets that
      extension's type. */
  lemma ListedExtension(name: string, ext: string)
    requires '.' !in ext && Lower(ext) in ContentTypes
    ensures ValidateImage(name + ['.'] + ext, true) == Pass
    ensures ContentType(name + ['.'] + ext) == ContentTypes[Lower(ext)]
  {
    ExtensionOf(name, ext);
    AcceptedIffListedExtension(name + ['.'] + ext);
  }

  /** A file named with any other extension is rejected as an unsupported format, and its
      content type is the `image/png` fallback. */
  lemma UnlistedExtension(name: string, ext: string)
    requires '.' !in ext && Lower(ext) !in ContentTypes
    ensures ValidateImage(name + ['.'] + ext, true) == Fail(UnsupportedFormat(name + ['.'] + ext + UnsupportedMessage))
    ensures ContentType(name + ['.'] + ext) == FallbackContentType
  {
    ExtensionOf(name, ext);
    AcceptedIffListedExtension(name + ['.'] + ext);
  }

  /** An upper-case suffix is accepted. */
  lemma UpperCaseSuffixAccepted()
    ensures ValidateImage("X.PNG", true) == Pass
  {
    assert Lower("X.PNG") == "x.png";
    assert EndsWith(Lower("X.PNG"), SupportedExtensions[0]);
  }

  /** An existing path without any `.` is rejected as an unsupported format. */
  lemma NoExtensionRejected(path: string)
    requires '.' !in path
    ensures ValidateImage(path, true) == Fail(UnsupportedFormat(path + UnsupportedMessage))
  {
    AcceptedIffListedExtension(path);
  }

  /** Case is ignored: a file ending in `.JPG` is a JPEG. */
  lemma UpperCaseJpeg(name: string)
    ensures ValidateImage(name + ".JPG", true) == Pass
    ensures ContentType(name + ".JPG") == "image/jpeg"
  {
    assert Lower("JPG") == "jpg";
    assert name + ".JPG" == name + ['.'] + "JPG";
    ListedExtension(name, "JPG");
  }

  /** `jpg` and `jpeg` share a type, as do `tif` and `tiff`. */
  lemma SharedContentTypes()
    ensures ContentTypes["jpg"] == ContentTypes["jpeg"] == "image/jpeg"
    ensures ContentTypes["tif"] == ContentTypes["tiff"] == "image/tiff"
  {
  }
}
