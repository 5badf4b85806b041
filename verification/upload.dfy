/**
 The upload widget (components/UploadSection.tsx): which files it accepts, how
 it cuts the base64 payload out of the data URL the browser's FileReader
 produces, and which of several dropped or picked files it uses.

 The FileReader itself is not modelled: what its `result` holds when
 `onloadend` fires (the data URL, or `null` after a failed or aborted read) is
 an input of `HandleFile`.
 */
module Upload {
  import opened Types

  /** The prefix a file's declared media type must start with. */
  const ImagePrefix: string := "image/"

  /** The blocking notice shown for a file that is not an image. */
  const NotAnImageNotice: string := "Please upload an image file"

  /** A file as the widget sees it: only its declared media type (`file.type`) is read. */
  datatype File = File(mimeType: string)

  /** What one call of the widget's handlers makes visible outside it. */
  datatype Effect =
    | Alert(message: string)               // `alert(...)`
    | ImageSelected(image: UploadedImage)  // `onImageSelected(...)`

  // ---------------------------------------------------------------------------
  // Media-type check
  // ---------------------------------------------------------------------------

  /** `s.startsWith(prefix)`: case-sensitive, character by character. */
  predicate StartsWith(s: string, prefix: string)
  {
    prefix <= s
  }

  /** The widget's acceptance test on a declared media type. */
  function IsImageType(mimeType: string): (accepted: bool)
    ensures accepted ==> |mimeType| >= |ImagePrefix| && mimeType[..|ImagePrefix|] == ImagePrefix
    ensures !accepted ==> |mimeType| < |ImagePrefix| || mimeType[..|ImagePrefix|] != ImagePrefix
  {
    StartsWith(mimeType, ImagePrefix)
  }

  /** The acceptance test, stated without sequence prefixes: the first six
      characters spell `image/` exactly, with no case folding. */
  lemma IsImageTypeCharacterwise(mimeType: string)
    ensures IsImageType(mimeType) <==>
              |mimeType| >= 6 && mimeType[0] == 'i' && mimeType[1] == 'm' && mimeType[2] == 'a'
              && mimeType[3] == 'g' && mimeType[4] == 'e' && mimeType[5] == '/'
  {
  }

  // ---------------------------------------------------------------------------
  // String.prototype.split with a one-character separator
  // ---------------------------------------------------------------------------

  /** The index of the first occurrence of `c` in `s`. */
  function IndexOf(s: string, c: char): (i: nat)
    requires c in s
    ensures i < |s| && s[i] == c
    ensures c !in s[..i]
  {
    if s[0] == c then 0
    else
      assert s == [s[0]] + s[1..];
      var k := IndexOf(s[1..], c);
      assert s[..k + 1] == [s[0]] + s[1..][..k];
      k + 1
  }

  /** `s.split(sep)`: the maximal separator-free pieces between occurrences of
      `sep`, in order; a string without `sep` is one piece, so is the empty string. */
  function Split(s: string, sep: char): (parts: seq<string>)
    ensures |parts| >= 1
    ensures forall k :: 0 <= k < |parts| ==> sep !in parts[k]
    ensures |parts| > 1 <==> sep in s
    decreases |s|
  {
    if sep !in s then [s]
    else
      var i := IndexOf(s, sep);
      [s[..i]] + Split(s[i + 1..], sep)
  }

  /** `parts.join(sep)`: the inverse of `Split`. */
  function Join(parts: seq<string>, sep: char): string
    requires |parts| >= 1
  {
    if |parts| == 1 then parts[0]
    else parts[0] + [sep] + Join(parts[1..], sep)
  }

  /** Splitting loses nothing: joining the pieces gives the string back. */
  lemma {:induction false} JoinSplit(s: string, sep: char)
    ensures Join(Split(s, sep), sep) == s
    decreases |s|
  {
    if sep in s {
      var i := IndexOf(s, sep);
      JoinSplit(s[i + 1..], sep);
      assert s == s[..i] + [sep] + s[i + 1..];
    }
  }

  /** The first occurrence of `c` is the only index holding `c` with none before it. */
  lemma IndexOfUnique(s: string, c: char, i: nat)
    requires i < |s| && s[i] == c && c !in s[..i]
    ensures IndexOf(s, c) == i
  {
  }

  /** Splitting a text whose first separator follows `head` yields `head`
      and then the pieces of the rest. */
  lemma SplitAtFirst(head: string, rest: string, sep: char)
    requires sep !in head
    ensures Split(head + [sep] + rest, sep) == [head] + Split(rest, sep)
  {
    var s := head + [sep] + rest;
    assert s[..|head|] == head;
    IndexOfUnique(s, sep, |head|);
    assert s[|head| + 1..] == rest;
  }

  /** Splitting a join of separator-free pieces gives exactly those pieces. */
  lemma {:induction false} SplitJoin(parts: seq<string>, sep: char)
    requires |parts| >= 1
    requires forall k :: 0 <= k < |parts| ==> sep !in parts[k]
    ensures Split(Join(parts, sep), sep) == parts
  {
    if |parts| > 1 {
      SplitAtFirst(parts[0], Join(parts[1..], sep), sep);
      SplitJoin(parts[1..], sep);
      assert parts == [parts[0]] + parts[1..];
    }
  }

  // ---------------------------------------------------------------------------
  // The base64 payload of a data URL
  // ---------------------------------------------------------------------------

  /** `dataUrl.split(',')[1]`: `None` stands for JavaScript's `undefined`,
      which indexing past the end of the array yields. */
  function Base64Field(dataUrl: string): (r: Option<string>)
    ensures r.Some? <==> ',' in dataUrl
    ensures r.Some? ==>
              var rest := dataUrl[IndexOf(dataUrl, ',') + 1..];
              && r.value <= rest
              && ',' !in r.value
              && (|r.value| == |rest| || rest[|r.value|] == ',')
  {
    var parts := Split(dataUrl, ',');
    if |parts| > 1 then
      var i := IndexOf(dataUrl, ',');
      var tail := Split(dataUrl[i + 1..], ',');
      JoinSplit(dataUrl[i + 1..], ',');
      assert parts[1] == tail[0];
      assert |tail| > 1 ==> Join(tail, ',') == tail[0] + ([','] + Join(tail[1..], ','));
      Some(parts[1])
    else None
  }

  /** The base64 alphabet of section 4 of RFC 4648, with its padding character. */
  predicate IsBase64Char(c: char)
  {
    ('A' <= c <= 'Z') || ('a' <= c <= 'z') || ('0' <= c <= '9') || c == '+' || c == '/' || c == '='
  }

  predicate IsBase64(s: string)
  {
    forall k :: 0 <= k < |s| ==> IsBase64Char(s[k])
  }

  /** A base64 text never holds a comma, so a data URL's payload ends at its end. */
  lemma Base64HasNoComma(s: string)
    requires IsBase64(s)
    ensures ',' !in s
  {
  }

  /** The `data:` URL of section 3 of RFC 2397 with a `;base64` marker. */
  function DataUrl(mimeType: string, payload: string): string
  {
    "data:" + mimeType + ";base64," + payload
  }

  /** The payload cut out of `prefix + "," + payload` is `payload` itself,
      provided neither part holds a comma. */
  lemma {:induction false} Base64FieldRoundTrip(prefix: string, payload: string)
    requires ',' !in prefix && ',' !in payload
    ensures Base64Field(prefix + [','] + payload) == Some(payload)
  {
    SplitJoin([prefix, payload], ',');
    assert Join([prefix, payload], ',') == prefix + [','] + payload;
  }

  /** For a well-formed base64 data URL the extracted payload is exactly the
      encoded content. */
  lemma DataUrlRoundTrip(mimeType: string, payload: string)
    requires ',' !in mimeType
    requires IsBase64(payload)
    ensures Base64Field(DataUrl(mimeType, payload)) == Some(payload)
  {
    Base64HasNoComma(payload);
    var prefix := "data:" + mimeType + ";base64";
    assert ',' !in "data:" && ',' !in ";base64";
    assert DataUrl(mimeType, payload) == prefix + [','] + payload;
    Base64FieldRoundTrip(prefix, payload);
  }

  // ---------------------------------------------------------------------------
  // Handlers
  // ---------------------------------------------------------------------------

  /** The number of callback invocations among `effects`. */
  function CallbackCount(effects: seq<Effect>): nat
  {
    if |effects| == 0 then 0
    else (if effects[0].ImageSelected? then 1 else 0) + CallbackCount(effects[1..])
  }

  /**
   `reader.onloadend` for an accepted file. `read` is `reader.result`: the data
   URL, or `None` (`null`) when the read failed or was aborted. `split` on
   `null` throws a TypeError before the callback, so a failed read reports
   nothing; a successful one reports its type, the whole data URL as the
   preview and the text after its first comma as the payload.
   */
  function LoadEnd(file: File, read: Option<string>): (effects: seq<Effect>)
    ensures |effects| <= 1 && CallbackCount(effects) == |effects|
    ensures effects == [] <==> read.None?
    ensures effects != [] ==>
              && effects[0].ImageSelected?
              && effects[0].image.mimeType == file.mimeType
              && effects[0].image.previewUrl == read.value
              && effects[0].image.base64 == Base64Field(read.value)
  {
    match read
    case None => []
    case Some(dataUrl) => [ImageSelected(UploadedImage(Base64Field(dataUrl), file.mimeType, dataUrl))]
  }

  /**
   `handleFile`: a non-image file raises the notice and nothing else; an image
   file starts a read, and the read's end decides, through `LoadEnd`, whether
   the callback runs.
   */
  function HandleFile(file: File, read: Option<string>): (effects: seq<Effect>)
    ensures |effects| <= 1
    ensures CallbackCount(effects) <= 1
    ensures !IsImageType(file.mimeType) <==> effects == [Alert(NotAnImageNotice)]
    ensures CallbackCount(effects) == 1 <==> IsImageType(file.mimeType) && read.Some?
    ensures effects == [] <==> IsImageType(file.mimeType) && read.None?
    ensures IsImageType(file.mimeType) ==> effects == LoadEnd(file, read)
  {
    if !IsImageType(file.mimeType) then [Alert(NotAnImageNotice)]
    else LoadEnd(file, read)
  }

  /** An accepted file whose reader produced a base64 data URL hands the
      encoded content, unchanged, to the callback. */
  lemma HandleFileDeliversPayload(file: File, payload: string)
    requires IsImageType(file.mimeType)
    requires ',' !in file.mimeType
    requires IsBase64(payload)
    ensures HandleFile(file, Some(DataUrl(file.mimeType, payload)))
            == [ImageSelected(UploadedImage(Some(payload), file.mimeType, DataUrl(file.mimeType, payload)))]
  {
    DataUrlRoundTrip(file.mimeType, payload);
  }

  /** The file whose read a drop or a pick starts: the first one, and only
      when it is an image. */
  function ReadStarted(files: seq<File>): (started: Option<File>)
    ensures started.Some? <==> |files| > 0 && IsImageType(files[0].mimeType)
    ensures started.Some? ==> started.value == files[0]
  {
    if |files| > 0 && IsImageType(files[0].mimeType) then Some(files[0]) else None
  }

  /**
   `handleDrop` and the picker's `onChange`: only the first file of the list is
   handed to `HandleFile`; an empty list does nothing. `read` is what the
   FileReader's `result` holds for a file when its read ends.
   */
  function HandleFiles(files: seq<File>, read: File -> Option<string>): (effects: seq<Effect>)
    ensures effects == [] <==> |files| == 0 || (ReadStarted(files).Some? && read(files[0]).None?)
    ensures CallbackCount(effects) <= 1
    ensures CallbackCount(effects) == 1 <==> ReadStarted(files).Some? && read(files[0]).Some?
    ensures |files| > 0 ==> effects == HandleFile(files[0], read(files[0]))
  {
    if |files| > 0 then HandleFile(files[0], read(files[0])) else []
  }

  /** Files after the first never matter. */
  lemma LaterFilesIgnored(files: seq<File>, others: seq<File>, read: File -> Option<string>)
    requires |files| > 0 && |others| > 0 && files[0] == others[0]
    ensures HandleFiles(files, read) == HandleFiles(others, read)
    ensures ReadStarted(files) == ReadStarted(others)
  {
  }
}
