/**
 * services/files_service.go: storing one uploaded picture of an entry as
 * WebP. The codecs (go-webp, the standard gif/jpeg/png decoders, libheif),
 * MIME sniffing and UUIDs are not modelled: they come in as functions and
 * values, and only the bounds, the dispatch order and the naming are.
 */
module Files {
  import opened Wrappers
  import Types

  newtype byte = b: int | 0 <= b < 256

  /** maxUpload: 40 << 20 bytes. */
  const MaxUpload := 41943040

  /** "RIFF" and "WEBP" in ASCII. */
  const Riff: seq<byte> := [0x52, 0x49, 0x46, 0x46]
  const WebpTag: seq<byte> := [0x57, 0x45, 0x42, 0x50]

  /** A decoded picture; its pixels are not modelled. */
  datatype Image = Image(id: nat)

  /** What a decoder call leaves in (img, err): a picture, an error, or neither. */
  datatype Decoded = Picture(img: Image) | DecodeError | NoPicture

  /** The three decoders SaveImage may call, in the order it may call them. */
  datatype Codec = WebP | Std | Heif

  function Order(c: Codec): nat {
    match c
    case WebP => 0
    case Std => 1
    case Heif => 2
  }

  /** hasWebPMagic: at least 12 bytes, "RIFF" at 0..4 and "WEBP" at 8..12. */
  function HasWebPMagic(b: seq<byte>): (ok: bool)
    ensures |b| < 12 ==> !ok
    ensures ok <==> |b| >= 12 && b[0..4] == Riff && b[8..12] == WebpTag
  {
    if |b| < 12 then false
    else b[0..4] == Riff && b[8..12] == WebpTag
  }

  /** The media types sent on to libheif. */
  predicate IsHeifType(mediaType: string) {
    mediaType == "image/heic" || mediaType == "image/heif" || mediaType == "image/avif"
  }

  /** Whether go-webp is tried first. */
  predicate WantsWebP(mediaType: string, buf: seq<byte>) {
    mediaType == "image/webp" || HasWebPMagic(buf)
  }

  function Run(c: Codec, buf: seq<byte>, webp: seq<byte> -> Decoded, std: seq<byte> -> Decoded,
               heif: seq<byte> -> Decoded): Decoded
  {
    match c
    case WebP => webp(buf)
    case Std => std(buf)
    case Heif => heif(buf)
  }

  /**
   * The decoders SaveImage calls, in the order it calls them. Which of them
   * run, and when, is StagesOrder.
   */
  function Stages(buf: seq<byte>, mediaType: string, webp: seq<byte> -> Decoded,
                  std: seq<byte> -> Decoded, heif: seq<byte> -> Decoded): (tried: seq<Codec>)
    ensures 1 <= |tried| <= 3
  {
    var first := if WantsWebP(mediaType, buf) then [WebP] else [];
    var second := if first == [] || webp(buf).NoPicture? then first + [Std] else first;
    var last := Run(second[|second| - 1], buf, webp, std, heif);
    if last.DecodeError? && IsHeifType(mediaType) then second + [Heif] else second
  }

  /**
   * The dispatch order: go-webp first, and only if the type or the magic
   * says WebP; the standard decoders only if nothing was decoded and nothing
   * failed so far (so a failed WebP decode is never retried with them);
   * libheif last, only right after a failure and only for HEIC, HEIF or AVIF.
   */
  lemma StagesOrder(buf: seq<byte>, mediaType: string, webp: seq<byte> -> Decoded,
                    std: seq<byte> -> Decoded, heif: seq<byte> -> Decoded)
    ensures var tried := Stages(buf, mediaType, webp, std, heif);
            && (forall i, j :: 0 <= i < j < |tried| ==> Order(tried[i]) < Order(tried[j]))
            && (tried[0] == WebP <==> WantsWebP(mediaType, buf))
            && (Std in tried <==> !WantsWebP(mediaType, buf) || webp(buf).NoPicture?)
            && (WantsWebP(mediaType, buf) && webp(buf).DecodeError? ==> Std !in tried)
            && var pre := if tried[|tried| - 1] == Heif then tried[..|tried| - 1] else tried;
               && pre != [] && Heif !in pre
               && (Heif in tried <==> IsHeifType(mediaType) && Run(pre[|pre| - 1], buf, webp, std, heif).DecodeError?)
  {
  }

  /** What the last decoder called left: the outcome SaveImage acts on. */
  function Outcome(buf: seq<byte>, mediaType: string, webp: seq<byte> -> Decoded,
                   std: seq<byte> -> Decoded, heif: seq<byte> -> Decoded): Decoded
  {
    var tried := Stages(buf, mediaType, webp, std, heif);
    Run(tried[|tried| - 1], buf, webp, std, heif)
  }

  /**
   * Step 4 of SaveImage as the source writes it: `img` and `err` are
   * reassigned by each decoder it reaches.
   */
  method DecodeImage(buf: seq<byte>, mediaType: string, webp: seq<byte> -> Decoded,
                     std: seq<byte> -> Decoded, heif: seq<byte> -> Decoded)
    returns (img: Option<Image>, failed: bool)
    ensures Mirrors(img, failed, Outcome(buf, mediaType, webp, std, heif))
  {
    img, failed := None, false;
    ghost var tried: seq<Codec> := [];
    ghost var last := NoPicture;
    if mediaType == "image/webp" || HasWebPMagic(buf) {
      var d := webp(buf);
      img, failed := if d.Picture? then Some(d.img) else None, d.DecodeError?;
      tried, last := [WebP], d;
      assert Mirrors(img, failed, last);
    }
    if img.None? && !failed {
      var d := std(buf);
      img, failed := if d.Picture? then Some(d.img) else None, d.DecodeError?;
      tried, last := tried + [Std], d;
      assert Mirrors(img, failed, last);
    }
    assert tried != [] && last == Run(tried[|tried| - 1], buf, webp, std, heif);
    if img.None? && failed && IsHeifType(mediaType) {
      var d := heif(buf);
      img, failed := if d.Picture? then Some(d.img) else None, d.DecodeError?;
      tried, last := tried + [Heif], d;
    }
    assert tried == Stages(buf, mediaType, webp, std, heif);
    assert Outcome(buf, mediaType, webp, std, heif) == last;
    assert Mirrors(img, failed, last);
  }

  /** The Go pair (img, err) holds what the decoder returned: the picture, or nil and whether there was an error. */
  predicate Mirrors(img: Option<Image>, failed: bool, d: Decoded) {
    (img.Some? <==> d.Picture?) && (img.Some? ==> img.value == d.img) && (failed <==> d.DecodeError?)
  }

  /** An image file under entries/<key>/images: the encoded picture, or what a failed encode left. */
  datatype ImageFile = Encoded(img: Image) | Unfinished

  datatype FileError =
    | InvalidKeyFormat
    | ReadFailed
    | TooLarge
    | Unsupported(mediaType: string)
    | MkdirFailed
    | DecodeFailed
    | CreateFailed
    | EncodeFailed

  /** The I/O outcomes of one SaveImage call, which the model does not decide. */
  datatype Io = Io(readOk: bool, mkdirOk: bool, createOk: bool, encodeOk: bool)

  /** detectMime (an error carries the type it sniffed) and the three decoders. */
  datatype Codecs = Codecs(
    detect: seq<byte> -> Result<string, string>,
    webp: seq<byte> -> Decoded,
    std: seq<byte> -> Decoded,
    heif: seq<byte> -> Decoded)

  /** Whether SaveImage returns without an error. */
  predicate Saves(key: string, input: seq<byte>, io: Io, codecs: Codecs) {
    && Types.ValidKey(key) && io.readOk && |input| <= MaxUpload && codecs.detect(input).Ok? && io.mkdirOk
    && var o := Outcome(input, codecs.detect(input).value, codecs.webp, codecs.std, codecs.heif);
       && !o.DecodeError?
       && (o.Picture? ==> io.createOk && io.encodeOk)
  }

  /** The name SaveImage returns when it succeeds: "<uuid>.webp", or "" when no decoder produced a picture or an error. */
  function SavedName(input: seq<byte>, codecs: Codecs, uuid: string): string
  {
    if codecs.detect(input).Ok? &&
       Outcome(input, codecs.detect(input).value, codecs.webp, codecs.std, codecs.heif).Picture?
    then uuid + ".webp"
    else ""
  }

  /**
   * What steps 3 to 5 of SaveImage do, given the decode outcome `o`: a failed
   * MkdirAll changes nothing; after it the directory exists; a decode error
   * or no picture writes no file; a failed os.Create writes none either; a
   * failed encode leaves an unfinished file; success leaves the encoded one.
   */
  predicate Written(key: string, o: Decoded, io: Io, uuid: string, r: Result<string, FileError>,
                    dirs0: set<string>, images0: map<(string, string), ImageFile>,
                    dirs1: set<string>, images1: map<(string, string), ImageFile>)
  {
    && (!io.mkdirOk ==> r == Err(MkdirFailed) && dirs1 == dirs0 && images1 == images0)
    && (io.mkdirOk ==> dirs1 == dirs0 + {key})
    && (io.mkdirOk && o.DecodeError? ==> r == Err(DecodeFailed) && images1 == images0)
    && (io.mkdirOk && o.NoPicture? ==> r == Ok("") && images1 == images0)
    && (io.mkdirOk && o.Picture? ==>
          && (!io.createOk ==> r == Err(CreateFailed) && images1 == images0)
          && (io.createOk && !io.encodeOk ==>
                r == Err(EncodeFailed) && images1 == images0[(key, uuid + ".webp") := Unfinished])
          && (io.createOk && io.encodeOk ==>
                r == Ok(uuid + ".webp") && images1 == images0[(key, uuid + ".webp") := Encoded(o.img)]))
  }

  /** The image directories and files on disk. */
  datatype Disk = Disk(dirs: set<string>, images: map<(string, string), ImageFile>)

  /**
   * The disk after one SaveImage call: nothing changes until MkdirAll
   * succeeds; after it the key's directory exists; "<uuid>.webp" is
   * written when a decoder produced a picture and os.Create succeeds,
   * left unfinished if the encoder fails.
   */
  function AfterSave(d: Disk, key: string, input: seq<byte>, io: Io, codecs: Codecs, uuid: string): Disk
  {
    if !(Types.ValidKey(key) && io.readOk && |input| <= MaxUpload && codecs.detect(input).Ok? && io.mkdirOk) then d
    else
      var o := Outcome(input, codecs.detect(input).value, codecs.webp, codecs.std, codecs.heif);
      if o.Picture? && io.createOk then
        Disk(d.dirs + {key}, d.images[(key, uuid + ".webp") := if io.encodeOk then Encoded(o.img) else Unfinished])
      else Disk(d.dirs + {key}, d.images)
  }

  class FilesService {
    /** The keys whose images directory exists. */
    var imageDirs: set<string>
    /** The files under entries/<key>/images, by key and file name. */
    var images: map<(string, string), ImageFile>

    constructor (dirs: set<string>, files: map<(string, string), ImageFile>)
      ensures imageDirs == dirs && images == files
    {
      imageDirs := dirs;
      images := files;
    }

    /**
     * SaveImage: refuse an invalid key before reading anything; refuse more
     * than 40 MiB; sniff the type; create the directory; decode; write
     * "<uuid>.webp". `uuid` is the next uuid.New().String(). removeExif is
     * not used.
     */
    method SaveImage(key: string, input: seq<byte>, removeExif: bool, io: Io, codecs: Codecs, uuid: string)
      returns (r: Result<string, FileError>)
      modifies this
      ensures r.Ok? <==> Saves(key, input, io, codecs)
      ensures r.Ok? ==> r.value == SavedName(input, codecs, uuid)
      ensures !Types.ValidKey(key) ==> r == Err(InvalidKeyFormat)
      ensures Types.ValidKey(key) && !io.readOk ==> r == Err(ReadFailed)
      ensures Types.ValidKey(key) && io.readOk && |input| > MaxUpload ==> r == Err(TooLarge)
      ensures Types.ValidKey(key) && io.readOk && |input| <= MaxUpload && codecs.detect(input).Err? ==>
                r == Err(Unsupported(codecs.detect(input).error))
      ensures !(Types.ValidKey(key) && io.readOk && |input| <= MaxUpload && codecs.detect(input).Ok?) ==>
                imageDirs == old(imageDirs) && images == old(images)
      ensures Types.ValidKey(key) && io.readOk && |input| <= MaxUpload && codecs.detect(input).Ok? ==>
                Written(key, Outcome(input, codecs.detect(input).value, codecs.webp, codecs.std, codecs.heif), io, uuid,
                        r, old(imageDirs), old(images), imageDirs, images)
      ensures Disk(imageDirs, images) == AfterSave(Disk(old(imageDirs), old(images)), key, input, io, codecs, uuid)
    {
      if !Types.ValidKey(key) {
        return Err(InvalidKeyFormat);
      }
      if !io.readOk {
        return Err(ReadFailed);
      }
      // io.LimitReader lets through at most MaxUpload + 1 bytes
      var buf := if |input| <= MaxUpload then input else input[..MaxUpload + 1];
      if |buf| > MaxUpload {
        return Err(TooLarge);
      }
      var sniffed := codecs.detect(buf);
      if sniffed.Err? {
        return Err(Unsupported(sniffed.error));
      }
      r := WriteImage(key, buf, sniffed.value, io, codecs, uuid);
    }

    /** Steps 3 to 5 of SaveImage: the directory, the decoders, the WebP file. */
    method WriteImage(key: string, buf: seq<byte>, mediaType: string, io: Io, codecs: Codecs, uuid: string)
      returns (r: Result<string, FileError>)
      modifies this
      ensures Written(key, Outcome(buf, mediaType, codecs.webp, codecs.std, codecs.heif), io, uuid,
                      r, old(imageDirs), old(images), imageDirs, images)
    {
      if !io.mkdirOk {
        return Err(MkdirFailed);
      }
      imageDirs := imageDirs + {key};

      var img, failed := DecodeImage(buf, mediaType, codecs.webp, codecs.std, codecs.heif);
      if failed {
        return Err(DecodeFailed);
      }
      if img.None? {
        // err == nil and img == nil: the source returns ("", nil)
        return Ok("");
      }

      var name := uuid + ".webp";
      if !io.createOk {
        return Err(CreateFailed);
      }
      if !io.encodeOk {
        images := images[(key, name) := Unfinished];
        return Err(EncodeFailed);
      }
      images := images[(key, name) := Encoded(img.value)];
      return Ok(name);
    }
  }
}
