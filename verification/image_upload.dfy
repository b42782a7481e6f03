/** The image picker's naming rules: the stored file's extension and
    content type, the names given to pictures that come without one, the
    storage path, and the URL / remove controls. */
module ImageUpload {
  import opened Wrappers
  import Text

  /** A stored file's extension and content type. */
  datatype FileType = FileType(ext: string, mime: string)

  const Jpeg := FileType("jpg", "image/jpeg")
  const Png := FileType("png", "image/png")
  const Webp := FileType("webp", "image/webp")

  /** The three types an upload can be stored as. */
  predicate Known(t: FileType) {
    t == Jpeg || t == Png || t == Webp
  }

  /** The type named by an already lower-cased extension; anything not
      recognised is stored as JPEG. */
  function TypeOfExtension(ext: string): (t: FileType)
    ensures Known(t)
    ensures ext == "png" ==> t == Png
    ensures ext == "webp" ==> t == Webp
    ensures ext != "png" && ext != "webp" ==> t == Jpeg
  {
    if ext == "png" then Png
    else if ext == "webp" then Webp
    else if ext == "jpeg" || ext == "jpg" then Jpeg
    else Jpeg
  }

  /** `uploadImageToSupabase`'s choice of type: from the lower-cased text
      after the last '.' of the file name (all of it when there is no '.'),
      JPEG when there is no name. */
  function Classify(fileName: Option<string>): (t: FileType)
    ensures Known(t)
    ensures fileName.None? || fileName.value == "" ==> t == Jpeg
    ensures fileName.Some? && fileName.value != "" ==>
              t == TypeOfExtension(Text.Lower(Text.LastSegment(fileName.value, '.')))
  {
    match fileName
    case None => Jpeg
    case Some(name) =>
      if name == "" then Jpeg else TypeOfExtension(Text.Lower(Text.LastSegment(name, '.')))
  }

  /** The extension decides, in any letter case, whatever comes before the
      last dot. */
  lemma ClassifyByLastDot(stem: string, ext: string)
    requires '.' !in ext
    ensures Classify(Some(stem + ['.'] + ext)) == TypeOfExtension(Text.Lower(ext))
  {
    Text.LastSegmentAfterSep(stem, '.', ext);
  }

  /** The name a gallery picture is uploaded under: its own, else "image."
      plus the lower-cased text after the URI's last '.', else
      "image.jpg". */
  function GalleryName(fileName: Option<string>, uri: string): (r: string)
    ensures fileName.Some? && fileName.value != "" ==> r == fileName.value
    ensures (fileName.None? || fileName.value == "") && '.' !in uri ==> r == "image.jpg"
    ensures (fileName.None? || fileName.value == "") && '.' in uri ==>
              r == "image." + Text.Lower(Text.LastSegment(uri, '.'))
  {
    if fileName.Some? && fileName.value != "" then fileName.value
    else if '.' in uri then "image." + Text.Lower(Text.LastSegment(uri, '.'))
    else "image.jpg"
  }

  /** Lower-casing neither adds nor removes dots. */
  lemma LowerKeepsDots(s: string)
    ensures '.' in Text.Lower(s) <==> '.' in s
  {
    var low := Text.Lower(s);
    assert forall i :: 0 <= i < |s| ==> (low[i] == '.' <==> s[i] == '.');
  }

  /** A nameless gallery picture is stored as the type its URI names. */
  lemma GalleryFallbackFollowsUri(uri: string)
    requires '.' in uri
    ensures Classify(Some(GalleryName(None, uri))) == Classify(Some(uri))
  {
    var seg := Text.LastSegment(uri, '.');
    var low := Text.Lower(seg);
    assert '.' !in low by { LowerKeepsDots(seg); }
    assert GalleryName(None, uri) == "image" + ['.'] + low by {
      assert "image." == "image" + ['.'];
    }
    ClassifyByLastDot("image", low);
    Text.LowerIdempotent(seg);
  }

  /** ... or as JPEG when the URI has no dot. */
  lemma GalleryFallbackWithoutDot(uri: string)
    requires '.' !in uri
    ensures Classify(Some(GalleryName(None, uri))) == Jpeg
  {
    JpgNamesAreJpeg("image", "image.jpg");
  }

  /** Any `<stem>.jpg` name is classified as JPEG. */
  lemma JpgNamesAreJpeg(stem: string, name: string)
    requires name == stem + ".jpg"
    ensures Classify(Some(name)) == Jpeg
  {
    var ext := "jpg";
    assert name == stem + ['.'] + ext;
    assert '.' !in ext;
    Text.LowerNoCapitals(ext);
    ClassifyByLastDot(stem, ext);
  }

  /** The name a camera photo is uploaded under. */
  function CameraName(fileName: Option<string>): (r: string)
    ensures fileName.Some? && fileName.value != "" ==> r == fileName.value
    ensures (fileName.None? || fileName.value == "") ==> r == "photo.jpg" && Classify(Some(r)) == Jpeg
  {
    JpgNamesAreJpeg("photo", "photo.jpg");
    if fileName.Some? && fileName.value != "" then fileName.value else "photo.jpg"
  }

  /** `products/<unique>.<ext>`; the unique part (time and randomness in
      the app) is a parameter. */
  function UploadPath(unique: string, fileName: Option<string>): (r: string)
    ensures "products/" <= r
    ensures var ext := Classify(fileName).ext;
            && |r| == |"products/"| + |unique| + 1 + |ext|
            && r[|"products/"|..|"products/"| + |unique|] == unique
            && r[|r| - |ext| - 1..] == "." + ext
  {
    "products/" + unique + "." + Classify(fileName).ext
  }

  /** The stored object's own name carries the type it was uploaded as. */
  lemma UploadPathKeepsType(unique: string, fileName: Option<string>)
    ensures Classify(Some(UploadPath(unique, fileName))) == Classify(fileName)
  {
    var t := Classify(fileName);
    var stem := "products/" + unique;
    assert UploadPath(unique, fileName) == stem + ['.'] + t.ext;
    assert '.' !in t.ext && Text.Lower(t.ext) == t.ext by {
      Text.LowerNoCapitals(t.ext);
    }
    ClassifyByLastDot(stem, t.ext);
  }

  /** The URL box: its text and whether it is shown. */
  datatype UrlBox = UrlBox(text: string, shown: bool)

  /** `handleUrlSubmit`: a non-blank entry is reported trimmed and the box
      is cleared and hidden; a blank one changes nothing. */
  function SubmitUrl(box: UrlBox): (r: (UrlBox, Option<string>))
    ensures Text.AllSpace(box.text) ==> r == (box, None)
    ensures !Text.AllSpace(box.text) ==> r.0 == UrlBox("", false) && r.1 == Some(Text.Trim(box.text)) && r.1.value != ""
  {
    Text.TrimEmptyIffAllSpace(box.text);
    var url := Text.Trim(box.text);
    if url != "" then (UrlBox("", false), Some(url)) else (box, None)
  }

  /** `removeImage` reports the empty URL. */
  const Removed := ""

  /** The upload alert's text: known storage problems are reworded, any
      other error's message is shown as is (even when empty), and a value
      that is not an error gets the generic text; the URL tip follows. */
  function UploadAlert(errorMessage: Option<string>, generic: string): (r: string)
    ensures errorMessage.None? ==> r == generic + Tip
    ensures errorMessage.Some? && Text.Contains(errorMessage.value, "Bucket not found") ==> r == NoBucket + Tip
    ensures (errorMessage.Some? && !Text.Contains(errorMessage.value, "Bucket not found")
             && Text.Contains(errorMessage.value, "storage")) ==> r == StorageIssue + Tip
    ensures (errorMessage.Some? && !Text.Contains(errorMessage.value, "Bucket not found")
             && !Text.Contains(errorMessage.value, "storage")) ==> r == errorMessage.value + Tip
  {
    var shown :=
      match errorMessage
      case None => generic
      case Some(m) =>
        if Text.Contains(m, "Bucket not found") then NoBucket
        else if Text.Contains(m, "storage") then StorageIssue
        else m;
    shown + Tip
  }

  const NoBucket := "Storage bucket not found. Please create a storage bucket named \"images\" in your Supabase dashboard."
  const StorageIssue := "Storage configuration issue. Please check your Supabase storage settings."
  const Tip := "\n\nTip: You can use the URL option to add images from the web instead."
  const GalleryFailed := "Failed to upload image. Please try again."
  const CameraFailed := "Failed to upload photo. Please try again."
}
