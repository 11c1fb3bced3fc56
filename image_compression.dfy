/** utils/imageCompression.ts: the target size of the canvas, the one-shot quality step-down, the
    sequence of browser steps of compressImage (each of which may fail) and compressImages. */
module ImageCompression {
  import opened Types

  /** A positive size in pixels, kept exact on `real`. */
  type PosReal = r: real | r > 0.0 witness 1.0

  /** The natural size of a loaded image. */
  datatype ImageSize = ImageSize(width: PosReal, height: PosReal)

  /** The size the canvas is given. */
  datatype Dimensions = Dimensions(width: real, height: real)

  /** The optional `options` argument; None stands for an absent property. */
  datatype CompressionOptions = CompressionOptions(
    maxWidth: Option<real>, maxHeight: Option<real>, quality: Option<real>, maxSizeMB: Option<real>)

  const NoCompressionOptions: CompressionOptions := CompressionOptions(None, None, None, None)

  /** The options after the destructuring defaults are applied. */
  datatype Settings = Settings(maxWidth: real, maxHeight: real, quality: real, maxSizeMB: real)

  const DefaultMaxWidth: real := 1920.0
  const DefaultMaxHeight: real := 1920.0
  const DefaultQuality: real := 0.85
  const DefaultMaxSizeMB: real := 1.0

  /** Each absent option takes its default; a given one is used as it is. */
  function Resolve(o: CompressionOptions): (s: Settings)
    ensures o.maxWidth.Some? ==> s.maxWidth == o.maxWidth.value
    ensures o.maxHeight.Some? ==> s.maxHeight == o.maxHeight.value
    ensures o.quality.Some? ==> s.quality == o.quality.value
    ensures o.maxSizeMB.Some? ==> s.maxSizeMB == o.maxSizeMB.value
  {
    Settings(o.maxWidth.GetOr(DefaultMaxWidth), o.maxHeight.GetOr(DefaultMaxHeight),
             o.quality.GetOr(DefaultQuality), o.maxSizeMB.GetOr(DefaultMaxSizeMB))
  }

  /** Without options: 1920 x 1920, quality 0.85, 1 MB. */
  lemma DefaultSettings()
    ensures Resolve(NoCompressionOptions) == Settings(1920.0, 1920.0, 0.85, 1.0)
  {
  }

  /** The new canvas size: an image within both bounds keeps its size; otherwise a landscape image
      gets the maximum width and a portrait or square one the maximum height, the other side
      following the aspect ratio. */
  function TargetDimensions(img: ImageSize, maxWidth: real, maxHeight: real): (d: Dimensions)
    ensures img.width <= maxWidth && img.height <= maxHeight ==> d == Dimensions(img.width, img.height)
    ensures (img.width > maxWidth || img.height > maxHeight) && img.width > img.height ==> d.width == maxWidth
    ensures (img.width > maxWidth || img.height > maxHeight) && img.width <= img.height ==> d.height == maxHeight
  {
    var width := img.width;
    var height := img.height;
    if width > maxWidth || height > maxHeight then
      var aspectRatio := width / height;
      if width > height then Dimensions(maxWidth, maxWidth / aspectRatio)
      else Dimensions(maxHeight * aspectRatio, maxHeight)
    else Dimensions(width, height)
  }

  /** In exact arithmetic the new size has the aspect ratio of the image. */
  lemma AspectRatioPreserved(img: ImageSize, maxWidth: real, maxHeight: real)
    ensures var d := TargetDimensions(img, maxWidth, maxHeight);
      d.width * img.height == d.height * img.width
  {
    var w, h := img.width, img.height;
    var ar := w / h;
    assert ar * h == w;
    if w > maxWidth || h > maxHeight {
      if w > h {
        assert (maxWidth / ar) * w == (maxWidth / ar) * (ar * h);
      }
    }
  }

  /** With equal bounds (the defaults are 1920 and 1920) the result fits both of them. */
  lemma EqualBoundsFit(img: ImageSize, bound: real)
    requires bound >= 0.0
    ensures var d := TargetDimensions(img, bound, bound);
      d.width <= bound && d.height <= bound
  {
    var w, h := img.width, img.height;
    var d := TargetDimensions(img, bound, bound);
    if w > bound || h > bound {
      AspectRatioPreserved(img, bound, bound);
      if w > h {
        assert d.height * w == bound * h;
        ScaledSideFits(d.height, bound, h, w);
      } else {
        assert d.width * h == bound * w;
        ScaledSideFits(d.width, bound, w, h);
      }
    }
  }

  /** A side scaled so that `side * longer == bound * shorter` is at most the bound. */
  lemma ScaledSideFits(side: real, bound: real, shorter: real, longer: real)
    requires bound >= 0.0 && 0.0 < shorter <= longer
    requires side * longer == bound * shorter
    ensures side <= bound
  {
    var ratio := shorter / longer;
    assert ratio <= 1.0;
    assert side == bound * ratio;
    assert bound * ratio <= bound * 1.0;
  }

  /** With unequal bounds only the side chosen by the landscape test meets its bound: a 500 x 400
      image under a 1000 x 100 bound becomes 1000 x 800, taller than allowed and larger than it was. */
  lemma UnequalBoundsOverflow()
    ensures TargetDimensions(ImageSize(500.0, 400.0), 1000.0, 100.0) == Dimensions(1000.0, 800.0)
  {
    assert 1000.0 / (500.0 / 400.0) == 800.0;
  }

  /** A portrait image that exceeds only the width bound is scaled UP to the height bound. */
  lemma PortraitUpscale()
    ensures var d := TargetDimensions(ImageSize(200.0, 300.0), 100.0, 1000.0);
      d.height == 1000.0 && d.width > 200.0 && d.width > 100.0
  {
    assert 1000.0 * (200.0 / 300.0) > 600.0;
  }

  const BytesPerMB: real := 1048576.0
  const QualityStep: real := 0.2

  /** The first blob is re-encoded iff it is over the size budget and the quality is above 0.5. */
  predicate NeedsSecondPass(blobSize: nat, s: Settings) {
    blobSize as real / BytesPerMB > s.maxSizeMB && s.quality > 0.5
  }

  /** A file handed to compressImage. */
  datatype ImageFile = ImageFile(name: string, mimeType: string, size: nat)

  /** What the browser does with a file: whether FileReader reads it, the size of the decoded
      image (None: the image fails to load), whether a 2d context is available, and the size of
      the blob toBlob produces at a canvas size and quality (None: a null blob). */
  datatype Browser = Browser(
    readable: ImageFile -> bool,
    decode: ImageFile -> Option<ImageSize>,
    hasContext: bool,
    encode: (ImageFile, Dimensions, real) -> Option<nat>)

  /** The rejections of compressImage. */
  datatype CompressError = ReadFailed | LoadFailed | NoCanvasContext | EncodeFailed

  /** The File compressImage resolves with, with the canvas size and quality of the accepted blob
      and the number of encodings made. */
  datatype CompressedFile = CompressedFile(
    name: string, mimeType: string, size: nat, dims: Dimensions, quality: real, encodings: nat)

  /** compressImage: read, load, size the canvas, get its context, encode at `quality`, and when the
      blob is too large encode once more at `quality - 0.2`, accepting that blob whatever its size. */
  function CompressImage(file: ImageFile, o: CompressionOptions, env: Browser): (r: Result<CompressedFile, CompressError>)
    ensures !env.readable(file) ==> r == Failure(ReadFailed)
    ensures env.readable(file) && env.decode(file).None? ==> r == Failure(LoadFailed)
    ensures env.readable(file) && env.decode(file).Some? && !env.hasContext ==> r == Failure(NoCanvasContext)
    ensures r.Success? ==> r.value.name == file.name && r.value.mimeType == "image/jpeg"
    ensures r.Success? ==>
      var s := Resolve(o);
      var d := TargetDimensions(env.decode(file).value, s.maxWidth, s.maxHeight);
      var first := env.encode(file, d, s.quality);
      r.value.dims == d && first.Some? &&
      (r.value.encodings == 2 <==> NeedsSecondPass(first.value, s)) &&
      (!NeedsSecondPass(first.value, s) ==> r.value.encodings == 1 && r.value.quality == s.quality && r.value.size == first.value) &&
      (NeedsSecondPass(first.value, s) ==> r.value.quality == s.quality - QualityStep && Some(r.value.size) == env.encode(file, d, s.quality - QualityStep))
    ensures r.Failure? && env.readable(file) && env.decode(file).Some? && env.hasContext ==> r.error == EncodeFailed
    ensures r.Success? <==>
      env.readable(file) && env.decode(file).Some? && env.hasContext &&
      var s := Resolve(o);
      var d := TargetDimensions(env.decode(file).value, s.maxWidth, s.maxHeight);
      var first := env.encode(file, d, s.quality);
      first.Some? && (NeedsSecondPass(first.value, s) ==> env.encode(file, d, s.quality - QualityStep).Some?)
  {
    var s := Resolve(o);
    if !env.readable(file) then Failure(ReadFailed)
    else match env.decode(file)
      case None => Failure(LoadFailed)
      case Some(img) =>
        var d := TargetDimensions(img, s.maxWidth, s.maxHeight);
        if !env.hasContext then Failure(NoCanvasContext)
        else match env.encode(file, d, s.quality)
          case None => Failure(EncodeFailed)
          case Some(blob) =>
            if NeedsSecondPass(blob, s) then
              match env.encode(file, d, s.quality - QualityStep)
              case None => Failure(EncodeFailed)
              case Some(newBlob) => Success(CompressedFile(file.name, "image/jpeg", newBlob, d, s.quality - QualityStep, 2))
            else Success(CompressedFile(file.name, "image/jpeg", blob, d, s.quality, 1))
  }

  /** compressImages (`Promise.all` over the map): every file compressed, in order, or a
      rejection of one of them. */
  function CompressImages(files: seq<ImageFile>, o: CompressionOptions, env: Browser): (r: Result<seq<CompressedFile>, CompressError>)
    ensures r.Success? <==> forall i :: 0 <= i < |files| ==> CompressImage(files[i], o, env).Success?
    ensures r.Success? ==> |r.value| == |files|
    ensures r.Success? ==> forall i :: 0 <= i < |files| ==> r.value[i] == CompressImage(files[i], o, env).value
    ensures r.Failure? ==> exists i :: 0 <= i < |files| && CompressImage(files[i], o, env) == Failure(r.error)
  {
    if files == [] then Success([])
    else
      match CompressImage(files[0], o, env)
      case Failure(e) => Failure(e)
      case Success(c) =>
        var rest := CompressImages(files[1..], o, env);
        assert forall i :: 1 <= i < |files| ==> files[i] == files[1..][i - 1];
        match rest
        case Failure(e) => Failure(e)
        case Success(cs) => Success([c] + cs)
  }
}
