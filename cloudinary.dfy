/** services/cloudinary.ts: the pure URL helpers, the carousel id extraction, the checks
    uploadToCloudinary makes before any request, and the configuration check. */
module Cloudinary {
  import opened Types
  import opened Strings

  const UploadMarker: string := "/upload/"

  // ---------------------------------------------------------------------------------------
  // Upload: validation before the request

  const MaxUploadBytes: nat := 5 * 1024 * 1024
  const AllowedTypes: seq<string> := ["image/jpeg", "image/jpg", "image/png", "image/gif", "image/webp"]
  const FileTooLargeMessage: string := "File size exceeds 5MB limit"
  const InvalidTypeMessage: string := "Invalid file type. Only images are allowed."

  /** What the upload endpoint answers: the secure URL, an HTTP error whose body may carry a
      message, or a failure of `fetch` itself with its message. */
  datatype CloudResponse = Uploaded(secureUrl: string) | HttpError(errorMessage: Option<string>) | NetworkError(reason: string)

  /** One call of uploadToCloudinary: whether the request was sent, and the URL or the message
      of the error it throws. */
  datatype UploadRun = UploadRun(requested: bool, result: Result<string, string>)

  function UploadToCloudinary(size: nat, mimeType: string, response: CloudResponse): (r: UploadRun)
    ensures r.requested <==> size <= MaxUploadBytes && mimeType in AllowedTypes
    ensures size > MaxUploadBytes ==> r.result == Failure(FileTooLargeMessage)
    ensures size <= MaxUploadBytes && mimeType !in AllowedTypes ==> r.result == Failure(InvalidTypeMessage)
    ensures r.result.Success? <==> r.requested && response.Uploaded?
    ensures r.result.Success? ==> r.result.value == response.secureUrl
  {
    if size > MaxUploadBytes then UploadRun(false, Failure(FileTooLargeMessage))
    else if mimeType !in AllowedTypes then UploadRun(false, Failure(InvalidTypeMessage))
    else
      match response
      case Uploaded(u) => UploadRun(true, Success(u))
      case HttpError(m) => UploadRun(true, Failure(if m.Some? && m.value != "" then m.value else "Upload failed"))
      case NetworkError(m) => UploadRun(true, Failure(m))
  }

  /** The size limit is inclusive, and it is checked before the type. */
  lemma UploadLimitBoundary(mimeType: string, response: CloudResponse)
    ensures UploadToCloudinary(MaxUploadBytes, "image/png", response).requested
    ensures UploadToCloudinary(MaxUploadBytes + 1, mimeType, response).result == Failure(FileTooLargeMessage)
  {
    assert "image/png" == AllowedTypes[2];
  }

  // ---------------------------------------------------------------------------------------
  // Configuration

  predicate IsCloudinaryConfigured(cloudName: string) {
    cloudName != "YOUR_CLOUD_NAME" && |cloudName| > 0
  }

  function ValidateCloudinaryConfig(cloudName: string): (r: Outcome<string>)
    ensures r.Pass? <==> cloudName != "YOUR_CLOUD_NAME" && cloudName != ""
  {
    if IsCloudinaryConfigured(cloudName) then Pass
    else Fail("Cloudinary is not configured. Please set CLOUDINARY_CONFIG.cloudName in services/cloudinary.ts")
  }

  // ---------------------------------------------------------------------------------------
  // getOptimizedImageUrl and its presets

  datatype Crop = Fill | Fit | Scale | CropMode
  datatype Quality = QualityAuto | QualityLevel(level: nat)
  datatype Format = FormatAuto | Webp | Jpg | Png

  /** The `options` argument; an absent argument is `NoOptions`. Sizes are whole pixels. */
  datatype TransformOptions = TransformOptions(
    width: Option<nat>, height: Option<nat>, crop: Option<Crop>, quality: Option<Quality>, format: Option<Format>)

  const NoOptions: TransformOptions := TransformOptions(None, None, None, None, None)
  const ThumbnailOptions: TransformOptions := TransformOptions(Some(200), Some(200), Some(Fill), Some(QualityAuto), None)
  const MediumOptions: TransformOptions := TransformOptions(Some(800), Some(600), Some(Fit), Some(QualityAuto), None)

  /** The characters a transformation string is made of. */
  predicate IsTransformChar(c: char) {
    ('a' <= c <= 'z') || IsDigit(c) || c == '_' || c == ','
  }

  predicate AllTransformChars(s: string) {
    forall i :: 0 <= i < |s| ==> IsTransformChar(s[i])
  }

  lemma AllTransformCharsConcat(a: string, b: string)
    requires AllTransformChars(a) && AllTransformChars(b)
    ensures AllTransformChars(a + b)
  {
    forall i | 0 <= i < |a + b| ensures IsTransformChar((a + b)[i]) {
      if i < |a| {
        assert (a + b)[i] == a[i];
      } else {
        assert (a + b)[i] == b[i - |a|];
      }
    }
  }

  function CropName(c: Crop): (r: string)
    ensures AllTransformChars(r)
  {
    match c
    case Fill => "fill"
    case Fit => "fit"
    case Scale => "scale"
    case CropMode => "crop"
  }

  function QualityName(q: Quality): (r: string)
    ensures AllTransformChars(r)
  {
    match q
    case QualityAuto => "auto"
    case QualityLevel(n) => NatToString(n)
  }

  function FormatName(f: Format): (r: string)
    ensures AllTransformChars(r)
  {
    match f
    case FormatAuto => "auto"
    case Webp => "webp"
    case Jpg => "jpg"
    case Png => "png"
  }

  /** `if (width)`: false for an absent size and for 0. */
  predicate Given(d: Option<nat>) {
    d.Some? && d.value != 0
  }

  /** The `transformations` array: w_ and h_ only when given, then crop, quality and format
      with their defaults fill, auto and auto. */
  function TransformationParts(o: TransformOptions): (r: seq<string>)
    ensures |r| == 3 + (if Given(o.width) then 1 else 0) + (if Given(o.height) then 1 else 0)
    ensures Given(o.width) ==> r[0] == "w_" + NatToString(o.width.value)
    ensures Given(o.height) ==> r[if Given(o.width) then 1 else 0] == "h_" + NatToString(o.height.value)
    ensures r[|r| - 3] == "c_" + CropName(o.crop.GetOr(Fill))
    ensures r[|r| - 2] == "q_" + QualityName(o.quality.GetOr(QualityAuto))
    ensures r[|r| - 1] == "f_" + FormatName(o.format.GetOr(FormatAuto))
  {
    var w := if Given(o.width) then ["w_" + NatToString(o.width.value)] else [];
    var h := if Given(o.height) then ["h_" + NatToString(o.height.value)] else [];
    w + h + ["c_" + CropName(o.crop.GetOr(Fill)), "q_" + QualityName(o.quality.GetOr(QualityAuto)), "f_" + FormatName(o.format.GetOr(FormatAuto))]
  }

  /** Every part is a key letter, '_' and a value, all transformation characters. */
  lemma PartsAreTransformChars(o: TransformOptions)
    ensures forall i :: 0 <= i < |TransformationParts(o)| ==> AllTransformChars(TransformationParts(o)[i])
    ensures var p := TransformationParts(o); p[0] != [] && (p[0][0] == 'w' || p[0][0] == 'h' || p[0][0] == 'c')
  {
    var p := TransformationParts(o);
    forall i | 0 <= i < |p| ensures AllTransformChars(p[i]) {
      var key := p[i][..2];
      var value := p[i][2..];
      assert p[i] == key + value;
      assert AllTransformChars(key);
      assert AllTransformChars(value);
      AllTransformCharsConcat(key, value);
    }
  }

  /** `transformations.join(',')`: a run of transformation characters (so no '/' and no line
      terminator) that starts with w, h or c. */
  function Transformation(o: TransformOptions): (t: string)
    ensures |t| >= 2 && AllTransformChars(t)
    ensures t[0] == 'w' || t[0] == 'h' || t[0] == 'c'
  {
    var parts := TransformationParts(o);
    PartsAreTransformChars(o);
    JoinChars(parts, ",", IsTransformChar);
    Join(parts, ",")
  }

  lemma TransformationIsJoin(o: TransformOptions)
    ensures Transformation(o) == Join(TransformationParts(o), ",")
  {
  }

  /** The transformations the two presets insert ("w_200,h_200,c_fill,q_auto,f_auto" and
      "w_800,h_600,c_fit,q_auto,f_auto"), written as their comma-separated parts, and the parts. */
  const ThumbnailTransform: string := "w_200" + "," + "h_200" + "," + "c_fill" + "," + "q_auto" + "," + "f_auto"
  const MediumTransform: string := "w_800" + "," + "h_600" + "," + "c_fit" + "," + "q_auto" + "," + "f_auto"
  const ThumbnailPartList: seq<string> := ["w_200", "h_200", "c_fill", "q_auto", "f_auto"]
  const MediumPartList: seq<string> := ["w_800", "h_600", "c_fit", "q_auto", "f_auto"]

  lemma ThumbnailParts()
    ensures TransformationParts(ThumbnailOptions) == ThumbnailPartList
  {
    assert NatToString(200) == "200" by {
      assert NatToString(2) == "2";
      assert NatToString(20) == NatToString(2) + [DigitChar(0)];
    }
    var p := ThumbnailPartList;
    var parts := TransformationParts(ThumbnailOptions);
    assert parts[0] == p[0] && parts[1] == p[1] && parts[2] == p[2] && parts[3] == p[3] && parts[4] == p[4];
  }

  lemma ThumbnailJoin()
    ensures Join(ThumbnailPartList, ",") == ThumbnailTransform
  {
    JoinFive(ThumbnailPartList);
  }

  /** The thumbnail preset's transformation. */
  lemma ThumbnailTransformation()
    ensures Transformation(ThumbnailOptions) == ThumbnailTransform
  {
    ThumbnailParts();
    TransformationIsJoin(ThumbnailOptions);
    ThumbnailJoin();
  }

  lemma MediumSizes()
    ensures NatToString(800) == "800" && NatToString(600) == "600"
  {
    assert NatToString(800) == "800" by {
      assert NatToString(8) == "8";
      assert NatToString(80) == NatToString(8) + [DigitChar(0)];
    }
    assert NatToString(600) == "600" by {
      assert NatToString(6) == "6";
      assert NatToString(60) == NatToString(6) + [DigitChar(0)];
    }
  }

  lemma MediumParts()
    ensures TransformationParts(MediumOptions) == MediumPartList
  {
    MediumSizes();
    var p := MediumPartList;
    var parts := TransformationParts(MediumOptions);
    assert parts[0] == p[0] && parts[1] == p[1] && parts[2] == p[2] && parts[3] == p[3] && parts[4] == p[4];
  }

  lemma MediumJoin()
    ensures Join(MediumPartList, ",") == MediumTransform
  {
    JoinFive(MediumPartList);
  }

  /** The medium preset's transformation. */
  lemma MediumTransformation()
    ensures Transformation(MediumOptions) == MediumTransform
  {
    MediumParts();
    TransformationIsJoin(MediumOptions);
    MediumJoin();
  }

  /** Replacing the first occurrence of "/upload/" by "/upload/<t>/" is inserting "<t>/" after it. */
  lemma InsertAfterFirstMarker(url: string, t: string)
    ensures Contains(url, UploadMarker) ==>
      var j := IndexOf(url, UploadMarker).value + |UploadMarker|;
      ReplaceFirst(url, UploadMarker, UploadMarker + t + "/") == url[..j] + t + "/" + url[j..]
  {
    if Contains(url, UploadMarker) {
      var i := IndexOf(url, UploadMarker).value;
      var j := i + |UploadMarker|;
      assert url[..j] == url[..i] + UploadMarker;
    }
  }

  /** getOptimizedImageUrl: a URL that is empty, not a Cloudinary URL or without "/upload/" comes
      back unchanged; otherwise the transformation and a '/' are inserted right after the FIRST
      "/upload/" and everything else is kept. */
  function GetOptimizedImageUrl(url: string, o: TransformOptions): (r: string)
    ensures url == "" || !Contains(url, "cloudinary") || !Contains(url, UploadMarker) ==> r == url
    ensures Contains(url, "cloudinary") && Contains(url, UploadMarker) ==>
      var j := IndexOf(url, UploadMarker).value + |UploadMarker|;
      r == url[..j] + Transformation(o) + "/" + url[j..]
  {
    if url == "" || !Contains(url, "cloudinary") then url
    else
      InsertAfterFirstMarker(url, Transformation(o));
      ReplaceFirst(url, UploadMarker, UploadMarker + Transformation(o) + "/")
  }

  /** getThumbnailUrl: inserts exactly "w_200,h_200,c_fill,q_auto,f_auto". */
  function GetThumbnailUrl(url: string): (r: string)
    ensures url == "" || !Contains(url, "cloudinary") || !Contains(url, UploadMarker) ==> r == url
    ensures Contains(url, "cloudinary") && Contains(url, UploadMarker) ==>
      var j := IndexOf(url, UploadMarker).value + |UploadMarker|;
      r == url[..j] + ThumbnailTransform + "/" + url[j..]
  {
    ThumbnailTransformation();
    GetOptimizedImageUrl(url, ThumbnailOptions)
  }

  /** getMediumImageUrl: inserts exactly "w_800,h_600,c_fit,q_auto,f_auto". */
  function GetMediumImageUrl(url: string): (r: string)
    ensures url == "" || !Contains(url, "cloudinary") || !Contains(url, UploadMarker) ==> r == url
    ensures Contains(url, "cloudinary") && Contains(url, UploadMarker) ==>
      var j := IndexOf(url, UploadMarker).value + |UploadMarker|;
      r == url[..j] + MediumTransform + "/" + url[j..]
  {
    MediumTransformation();
    GetOptimizedImageUrl(url, MediumOptions)
  }

  // ---------------------------------------------------------------------------------------
  // getPublicIdFromUrl: `afterUpload.match(/(?:v\d+\/)?(.*?)\.[\w]+$/)`, written out as a scan

  /** `\w`. */
  predicate IsWordChar(c: char) {
    ('a' <= c <= 'z') || ('A' <= c <= 'Z') || IsDigit(c) || c == '_'
  }

  predicate NoLineTerminator(s: string) {
    forall i :: 0 <= i < |s| ==> !IsLineTerminator(s[i])
  }

  /** `\.[\w]+$` matches at index k of s. */
  predicate ExtensionAt(s: string, k: nat) {
    k + 1 < |s| && s[k] == '.' && forall i :: k < i < |s| ==> IsWordChar(s[i])
  }

  /** Since '.' is not a word character, there is at most one place the extension can start. */
  lemma ExtensionUnique(s: string, k1: nat, k2: nat)
    requires ExtensionAt(s, k1) && ExtensionAt(s, k2)
    ensures k1 == k2
  {
    ExtensionAtTrailing(s, k1);
    ExtensionAtTrailing(s, k2);
  }

  /** Number of word characters at the end of s. */
  function TrailingWordLength(s: string): (n: nat)
    ensures n <= |s|
    ensures forall i :: |s| - n <= i < |s| ==> IsWordChar(s[i])
    ensures n < |s| ==> !IsWordChar(s[|s| - n - 1])
  {
    if s != [] && IsWordChar(s[|s| - 1]) then
      var n := TrailingWordLength(s[..|s| - 1]);
      assert forall i :: |s| - 1 - n <= i < |s| - 1 ==> s[..|s| - 1][i] == s[i];
      n + 1
    else 0
  }

  /** Where an extension starts is fixed by the run of word characters at the end. */
  lemma ExtensionAtTrailing(s: string, j: nat)
    requires ExtensionAt(s, j)
    ensures TrailingWordLength(s) == |s| - 1 - j
  {
    var n := TrailingWordLength(s);
    assert !IsWordChar(s[j]);
    assert j < |s| - n;
  }

  /** The index of the '.' of the final extension, if the string ends with one. */
  function ExtensionDot(s: string): (k: Option<nat>)
    ensures k.Some? ==> ExtensionAt(s, k.value)
    ensures k.None? ==> forall j: nat :: !ExtensionAt(s, j)
  {
    var n := TrailingWordLength(s);
    assert forall j: nat :: ExtensionAt(s, j) ==> n == |s| - 1 - j by {
      forall j: nat | ExtensionAt(s, j) ensures n == |s| - 1 - j {
        ExtensionAtTrailing(s, j);
      }
    }
    if 0 < n < |s| && s[|s| - n - 1] == '.' then Some(|s| - n - 1) else None
  }

  /** The leftmost position the regular expression can match from: just past the last line
      terminator before k (`.` does not match line terminators), or 0. */
  function MatchStart(s: string, k: nat): (p: nat)
    requires k <= |s|
    ensures p <= k
    ensures p > 0 ==> IsLineTerminator(s[p - 1])
    ensures forall i :: p <= i < k ==> !IsLineTerminator(s[i])
  {
    if k == 0 then 0
    else if IsLineTerminator(s[k - 1]) then k
    else MatchStart(s, k - 1)
  }

  /** Number of decimal digits at the start of s. */
  function LeadingDigits(s: string): (n: nat)
    ensures n <= |s|
    ensures forall i :: 0 <= i < n ==> IsDigit(s[i])
    ensures n < |s| ==> !IsDigit(s[n])
  {
    if s != [] && IsDigit(s[0]) then LeadingDigits(s[1..]) + 1 else 0
  }

  /** Length of a leading `v\d+\/` of t (the optional group), 0 when there is none. */
  function VersionPrefixLength(t: string): (n: nat)
    ensures n <= |t|
    ensures n > 0 ==> n >= 3 && t[0] == 'v' && t[n - 1] == '/' && forall i :: 1 <= i < n - 1 ==> IsDigit(t[i])
    ensures |t| > 0 && t[0] != 'v' ==> n == 0
  {
    if |t| > 0 && t[0] == 'v' then
      var d := LeadingDigits(t[1..]);
      if d > 0 && 1 + d < |t| && t[1 + d] == '/' then d + 2 else 0
    else 0
  }

  /** The text before the extension with an optional leading `v<digits>/` removed. */
  function StripVersion(t: string): string {
    t[VersionPrefixLength(t)..]
  }

  /** The capture group of the match, or None when the regular expression does not match. */
  function MatchPublicId(seg: string): (r: Option<string>)
    ensures r.None? <==> forall k: nat :: !ExtensionAt(seg, k)
  {
    match ExtensionDot(seg)
    case None => None
    case Some(k) =>
      var p := MatchStart(seg, k);
      Some(StripVersion(seg[p..k]))
  }

  /** Without line terminators the match starts at the beginning of the segment. */
  lemma MatchWithoutLineTerminators(seg: string, k: nat)
    requires NoLineTerminator(seg) && ExtensionAt(seg, k)
    ensures MatchPublicId(seg) == Some(StripVersion(seg[..k]))
  {
    ExtensionUnique(seg, ExtensionDot(seg).value, k);
    assert MatchStart(seg, k) == 0;
    assert seg[0..k] == seg[..k];
  }

  /** getPublicIdFromUrl: null without "/upload/" or when the part after the first "/upload/" (up to
      any second one) does not end with an extension; otherwise the match's capture group. */
  function GetPublicIdFromUrl(url: string): (r: Option<string>)
    ensures !Contains(url, UploadMarker) ==> r.None?
    ensures Contains(url, UploadMarker) ==>
      var seg := SecondPart(url, UploadMarker).value;
      (r.None? <==> forall k: nat :: !ExtensionAt(seg, k))
  {
    match SecondPart(url, UploadMarker)
    case None => None
    case Some(afterUpload) => MatchPublicId(afterUpload)
  }

  /** The first "/upload/" of `pre + "/upload/" + rest` is the one after `pre` when `pre + "/upload"`
      holds none. */
  lemma FirstMarkerAfter(pre: string, rest: string)
    requires !Contains(pre + "/upload", UploadMarker)
    ensures IndexOf(pre + UploadMarker + rest, UploadMarker) == Some(|pre|)
  {
    var url := pre + UploadMarker + rest;
    assert url[|pre|..|pre| + 8] == UploadMarker;
    forall j: nat | j < |pre| ensures !OccursAt(url, UploadMarker, j) {
      assert j + 8 <= |pre| + 7;
      assert url[j..j + 8] == (pre + "/upload")[j..j + 8];
      assert !OccursAt(pre + "/upload", UploadMarker, j);
    }
    IndexOfIs(url, UploadMarker, |pre|);
  }

  /** For such a URL, `split('/upload/')[1]` is what follows the marker, when it holds no other. */
  lemma SegmentAfter(pre: string, seg: string)
    requires !Contains(pre + "/upload", UploadMarker)
    requires !Contains(seg, UploadMarker)
    ensures SecondPart(pre + UploadMarker + seg, UploadMarker) == Some(seg)
  {
    FirstMarkerAfter(pre, seg);
    assert (pre + UploadMarker + seg)[|pre| + 8..] == seg;
  }

  /** A versioned segment `v<digits>/<id>.<ext>` holds no line terminator when the id holds none. */
  lemma VersionedSegmentNoLineTerminator(digits: string, id: string, ext: string)
    requires forall i :: 0 <= i < |digits| ==> IsDigit(digits[i])
    requires NoLineTerminator(id)
    requires forall i :: 0 <= i < |ext| ==> IsWordChar(ext[i])
    ensures NoLineTerminator("v" + digits + "/" + id + "." + ext)
  {
    var seg := "v" + digits + "/" + id + "." + ext;
    var h := |digits| + 2 + |id|;
    forall i | 0 <= i < |seg| ensures !IsLineTerminator(seg[i]) {
      if 1 <= i < 1 + |digits| {
        assert seg[i] == digits[i - 1];
      } else if 2 + |digits| <= i < h {
        assert seg[i] == id[i - 2 - |digits|];
      } else if i > h {
        assert seg[i] == ext[i - h - 1];
      }
    }
  }

  /** The optional group removes exactly `v<digits>/`. */
  lemma StripVersionOfVersioned(digits: string, id: string)
    requires |digits| >= 1 && forall i :: 0 <= i < |digits| ==> IsDigit(digits[i])
    ensures StripVersion("v" + digits + "/" + id) == id
  {
    var head := "v" + digits + "/" + id;
    var tail := head[1..];
    assert tail == digits + "/" + id;
    assert forall i :: 0 <= i < |digits| ==> tail[i] == digits[i];
    assert tail[|digits|] == '/';
    assert LeadingDigits(tail) == |digits|;
    assert head[|digits| + 2..] == id;
  }

  /** A Cloudinary URL `<pre>/upload/v<n>/<id>.<ext>` (one "/upload/", no line break) has the
      public id `<id>`: the id is recovered from the URL it was stored under. */
  lemma PublicIdOfUploadUrl(pre: string, n: nat, id: string, ext: string)
    requires !Contains(pre + "/upload", UploadMarker)
    requires !Contains("v" + NatToString(n) + "/" + id + "." + ext, UploadMarker)
    requires NoLineTerminator(id)
    requires ext != [] && forall i :: 0 <= i < |ext| ==> IsWordChar(ext[i])
    ensures GetPublicIdFromUrl(pre + UploadMarker + ("v" + NatToString(n) + "/" + id + "." + ext)) == Some(id)
  {
    var digits := NatToString(n);
    var head := "v" + digits + "/" + id;
    var seg := head + "." + ext;
    SegmentAfter(pre, seg);
    assert ExtensionAt(seg, |head|);
    VersionedSegmentNoLineTerminator(digits, id, ext);
    MatchWithoutLineTerminators(seg, |head|);
    assert seg[..|head|] == head;
    StripVersionOfVersioned(digits, id);
  }

  /** "/upload/" starts with '/', which is not a transformation character. */
  lemma NoMarkerAtTransformChar(s: string, i: nat)
    requires i < |s| && IsTransformChar(s[i])
    ensures !OccursAt(s, UploadMarker, i)
  {
    assert i + 8 <= |s| ==> s[i..i + 8][0] == s[i];
  }

  /** An occurrence of "/upload/" is followed by "upload/". */
  lemma MarkerTail(s: string, i: nat)
    requires OccursAt(s, UploadMarker, i)
    ensures "upload/" <= s[i + 1..]
  {
    assert s[i + 1..][..7] == s[i..i + 8][1..];
  }

  /** An occurrence inside the tail `s[n..]` of a string is an occurrence in that tail. */
  lemma OccursInTail(s: string, n: nat, i: nat)
    requires n <= i && OccursAt(s, UploadMarker, i)
    ensures OccursAt(s[n..], UploadMarker, i - n)
  {
    assert s[n..][i - n..i - n + 8] == s[i..i + 8];
  }

  /** `<t>/<seg>` holds no "/upload/" when t is made of transformation characters and seg neither
      holds one nor starts with "upload/". */
  lemma NoMarkerAfterTransformation(t: string, seg: string)
    requires AllTransformChars(t)
    requires !Contains(seg, UploadMarker) && !("upload/" <= seg)
    ensures !Contains(t + "/" + seg, UploadMarker)
  {
    var seg2 := t + "/" + seg;
    assert seg2[|t| + 1..] == seg;
    forall i: nat ensures !OccursAt(seg2, UploadMarker, i) {
      if i < |t| {
        assert seg2[i] == t[i];
        NoMarkerAtTransformChar(seg2, i);
      } else if i == |t| {
        if OccursAt(seg2, UploadMarker, i) {
          MarkerTail(seg2, i);
        }
      } else if OccursAt(seg2, UploadMarker, i) {
        OccursInTail(seg2, |t| + 1, i);
      }
    }
  }

  /** Inserting a transformation into `<pre>/upload/<seg>` gives `<pre>/upload/<t>/<seg>`. */
  lemma OptimizedUrlShape(pre: string, seg: string, o: TransformOptions)
    requires Contains(pre + UploadMarker + seg, "cloudinary")
    requires !Contains(pre + "/upload", UploadMarker)
    ensures GetOptimizedImageUrl(pre + UploadMarker + seg, o) == pre + UploadMarker + (Transformation(o) + "/" + seg)
  {
    FirstMarkerAfter(pre, seg);
    var url := pre + UploadMarker + seg;
    assert url[..|pre| + 8] == pre + UploadMarker;
    assert url[|pre| + 8..] == seg;
  }

  /** A final extension stays final when text is put in front. */
  lemma ExtensionAfterPrefix(a: string, seg: string, k: nat)
    requires ExtensionAt(seg, k)
    ensures ExtensionAt(a + seg, |a| + k)
  {
    var s := a + seg;
    forall i | |a| + k < i < |s| ensures IsWordChar(s[i]) {
      assert s[i] == seg[i - |a|];
    }
  }

  lemma NoLineTerminatorConcat(a: string, b: string)
    requires NoLineTerminator(a) && NoLineTerminator(b)
    ensures NoLineTerminator(a + b)
  {
    forall i | 0 <= i < |a + b| ensures !IsLineTerminator((a + b)[i]) {
      if i < |a| {
        assert (a + b)[i] == a[i];
      } else {
        assert (a + b)[i] == b[i - |a|];
      }
    }
  }

  /** A transformation followed by '/' holds no line terminator. */
  lemma TransformationSlashNoLineTerminator(t: string)
    requires AllTransformChars(t)
    ensures NoLineTerminator(t + "/")
  {
    forall i | 0 <= i < |t + "/"| ensures !IsLineTerminator((t + "/")[i]) {
      if i < |t| {
        assert (t + "/")[i] == t[i] && IsTransformChar(t[i]);
      } else {
        assert (t + "/")[i] == '/';
      }
    }
  }

  /** The match on `<transformation>/<seg>` starts at 0 and its optional group does not apply, since a
      transformation starts with w, h or c. */
  lemma MatchAfterTransformation(t: string, seg: string, k: nat)
    requires |t| >= 1 && AllTransformChars(t) && t[0] != 'v'
    requires NoLineTerminator(seg) && ExtensionAt(seg, k)
    ensures MatchPublicId(t + "/" + seg) == Some(t + "/" + seg[..k])
  {
    var a := t + "/";
    var k2 := |a| + k;
    ExtensionAfterPrefix(a, seg, k);
    TransformationSlashNoLineTerminator(t);
    NoLineTerminatorConcat(a, seg);
    MatchWithoutLineTerminators(a + seg, k2);
    assert (a + seg)[..k2] == a + seg[..k];
    assert (a + seg[..k])[0] == t[0];
  }

  /** Contrary to the comment at services/cloudinary.ts:191, a transformation inserted by
      getOptimizedImageUrl is NOT removed by getPublicIdFromUrl: the id of the optimized URL is the
      transformation, a '/' and the whole segment before the extension (version included), which
      differs from the id of the original URL. */
  lemma PublicIdKeepsTransformation(pre: string, seg: string, k: nat, o: TransformOptions)
    requires Contains(pre + UploadMarker + seg, "cloudinary")
    requires !Contains(pre + "/upload", UploadMarker)
    requires !Contains(seg, UploadMarker) && !("upload/" <= seg)
    requires NoLineTerminator(seg) && ExtensionAt(seg, k)
    ensures GetPublicIdFromUrl(pre + UploadMarker + seg) == Some(StripVersion(seg[..k]))
    ensures GetPublicIdFromUrl(GetOptimizedImageUrl(pre + UploadMarker + seg, o)) == Some(Transformation(o) + "/" + seg[..k])
    ensures GetPublicIdFromUrl(GetOptimizedImageUrl(pre + UploadMarker + seg, o)) != GetPublicIdFromUrl(pre + UploadMarker + seg)
  {
    SegmentAfter(pre, seg);
    MatchWithoutLineTerminators(seg, k);
    OptimizedUrlShape(pre, seg, o);
    NoMarkerAfterTransformation(Transformation(o), seg);
    SegmentAfter(pre, Transformation(o) + "/" + seg);
    MatchAfterTransformation(Transformation(o), seg, k);
  }

  // ---------------------------------------------------------------------------------------
  // getPublicIdsFromCarousel

  /** A value JSON.parse can return (numbers are kept integral). */
  datatype Json = JNull | JBool(b: bool) | JNumber(n: int) | JString(s: string) | JArray(items: seq<Json>) | JObject(fields: map<string, Json>)

  /** `data.urls && Array.isArray(data.urls)` on the result of JSON.parse (None when it threw; a
      property read on null throws too): the `urls` array of a carousel value, or None. */
  function CarouselUrls(parsed: Option<Json>): (r: Option<seq<Json>>)
    ensures r.Some? <==> parsed.Some? && parsed.value.JObject? && "urls" in parsed.value.fields && parsed.value.fields["urls"].JArray?
    ensures r.Some? ==> r.value == parsed.value.fields["urls"].items
  {
    match parsed
    case Some(JObject(fields)) =>
      if "urls" in fields && fields["urls"].JArray? then Some(fields["urls"].items) else None
    case _ => None
  }

  /** getPublicIdFromUrl on one array element; on a non-string `url.split` throws and the
      function's own catch returns null. */
  function PublicIdOfItem(item: Json): Option<string> {
    match item
    case JString(s) => GetPublicIdFromUrl(s)
    case _ => None
  }

  /** `.map(getPublicIdFromUrl).filter(id => id !== null)`. */
  function PublicIds(items: seq<Json>): (r: seq<string>)
    ensures |r| <= |items|
    ensures forall i :: 0 <= i < |items| && PublicIdOfItem(items[i]).Some? ==> PublicIdOfItem(items[i]).value in r
    ensures forall x :: x in r ==> exists i :: 0 <= i < |items| && PublicIdOfItem(items[i]) == Some(x)
  {
    if items == [] then []
    else
      var rest := PublicIds(items[1..]);
      assert forall i :: 1 <= i < |items| ==> items[i] == items[1..][i - 1];
      match PublicIdOfItem(items[0])
      case Some(id) => [id] + rest
      case None => rest
  }

  /** The ids come out in the order of their URLs. */
  lemma {:induction false} PublicIdsConcat(a: seq<Json>, b: seq<Json>)
    ensures PublicIds(a + b) == PublicIds(a) + PublicIds(b)
  {
    if a == [] {
      assert a + b == b;
    } else {
      assert (a + b)[0] == a[0];
      assert (a + b)[1..] == a[1..] + b;
      PublicIdsConcat(a[1..], b);
    }
  }

  /** getPublicIdsFromCarousel: [] on unparseable input or a missing or non-array `urls`;
      otherwise the non-null ids of the `urls` elements, in order. */
  function GetPublicIdsFromCarousel(parsed: Option<Json>): (r: seq<string>)
    ensures CarouselUrls(parsed).None? ==> r == []
    ensures CarouselUrls(parsed).Some? ==> |r| <= |CarouselUrls(parsed).value|
    ensures CarouselUrls(parsed).Some? ==>
      forall x :: x in r <==> exists i :: 0 <= i < |CarouselUrls(parsed).value| && PublicIdOfItem(CarouselUrls(parsed).value[i]) == Some(x)
  {
    match CarouselUrls(parsed)
    case None => []
    case Some(items) => PublicIds(items)
  }
}
