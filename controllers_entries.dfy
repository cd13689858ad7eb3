/**
 * controllers/entries_controller.go: the QR landing route, the form that
 * creates an entry with its pictures, and the entry page behind its
 * recipient-hash gate. HashString (SHA-256 in hex) comes in as a function.
 */
module EntriesController {
  import opened Wrappers
  import Web
  import Types
  import Keys
  import Entries
  import Files

  /** One part of the multipart "files" field: its bytes, whether fh.Open succeeds, its I/O outcomes and the uuid it gets. */
  datatype Upload = Upload(content: seq<Files.byte>, opens: bool, io: Files.Io, uuid: string)

  /** At most this many pictures per entry. */
  const MaxImages := 9

  /**
   * GetEntryRouteView: a key the registry does not hold (or holds with an
   * empty Key) goes home; a registered key goes to its lookup page once it
   * has an entry, else to the page that creates one.
   */
  function RouteView(keys: Keys.KeysService, entries: Entries.EntriesService, key: string): (resp: Web.Response)
    reads keys, entries
    ensures resp.Redirect? && resp.status == Web.StatusSeeOther
    ensures keys.Get(key).None? ==> resp.location == "/"
    ensures keys.Get(key).Some? && keys.Get(key).value.key == "" ==> resp.location == "/"
    ensures keys.Get(key).Some? && keys.Get(key).value.key != "" ==>
              (resp.location == "/lookup/" + key <==> entries.HasData(key)) &&
              (resp.location == "/create/" + key <==> !entries.HasData(key))
  {
    var info := keys.Get(key);
    if info.None? || info.value.key == "" then Web.Redirect(Web.StatusSeeOther, "/")
    else
      assert ("/lookup/" + key)[1] != ("/create/" + key)[1];
      if entries.HasData(key) then Web.Redirect(Web.StatusSeeOther, "/lookup/" + key)
    else Web.Redirect(Web.StatusSeeOther, "/create/" + key)
  }

  /** Once a registered key holds an entry, its QR code leads to the lookup page. */
  lemma SavedKeyRoutesToLookup(keys: Keys.KeysService, entries: Entries.EntriesService, key: string)
    requires keys.Valid() && key in keys.keys && entries.HasData(key)
    ensures RouteView(keys, entries, key) == Web.Redirect(Web.StatusSeeOther, "/lookup/" + key)
  {
    assert keys.keys[key].key == key;
  }

  /** The entry PostEntry stores: every form field present (possibly empty), the picture names, no Encrypt. */
  function Payload(req: Web.Request, imageIDs: seq<string>): Entries.EntryData {
    Entries.EntryData(
      Some(imageIDs),
      Some(req.PostForm("originLocation")),
      Some(req.PostForm("postDate")),
      Some(req.PostForm("recipientName")),
      Some(req.PostForm("remarks")),
      None)
  }

  function FileErrorText(e: Files.FileError): string {
    match e
    case InvalidKeyFormat => "invalid key format"
    case ReadFailed => "read failed"
    case TooLarge => "file too large"
    case Unsupported(mt) => "unsupported file type: " + mt
    case MkdirFailed => "mkdir failed"
    case DecodeFailed => "decode failed"
    case CreateFailed => "create failed"
    case EncodeFailed => "encode failed"
  }

  function EntryErrorText(e: Entries.EntryError): string {
    match e
    case InvalidKey => "invalid key"
    case KeyNotFound => "key not found"
    case IoFailed => "write failed"
    case NotExist => "no such file or directory"
    case DecodeFailed => "decode failed"
  }

  /** Whether every upload opens and is stored. */
  predicate AllSaved(key: string, uploads: seq<Upload>, codecs: Files.Codecs) {
    forall i :: 0 <= i < |uploads| ==>
      uploads[i].opens && Files.Saves(key, uploads[i].content, uploads[i].io, codecs)
  }

  /** The disk after one turn of the upload loop: an upload that does not open changes nothing. */
  function AfterUpload(d: Files.Disk, key: string, u: Upload, codecs: Files.Codecs): Files.Disk {
    if u.opens then Files.AfterSave(d, key, u.content, u.io, codecs, u.uuid) else d
  }

  /** The disk after the upload loop has gone through `us`, in order. */
  function AfterUploads(d: Files.Disk, key: string, us: seq<Upload>, codecs: Files.Codecs): Files.Disk
    decreases |us|
  {
    if us == [] then d
    else AfterUpload(AfterUploads(d, key, us[..|us| - 1], codecs), key, us[|us| - 1], codecs)
  }

  /** One more upload is one more turn of the loop. */
  lemma AfterUploadsSnoc(d: Files.Disk, key: string, us: seq<Upload>, u: Upload, codecs: Files.Codecs)
    ensures AfterUploads(d, key, us + [u], codecs) == AfterUpload(AfterUploads(d, key, us, codecs), key, u, codecs)
  {
    assert (us + [u])[..|us|] == us;
  }

  /**
   * How many uploads the loop goes through: all of them, or those up to and
   * including the first that fails (`ids` holds the names saved before it).
   */
  function Tried(uploads: seq<Upload>, allSaved: bool, ids: seq<string>): (t: nat)
    ensures t <= |uploads|
  {
    if allSaved || |ids| >= |uploads| then |uploads| else |ids| + 1
  }

  /** Different uuids name different picture files. */
  lemma WebpNamesDiffer(a: string, b: string)
    requires a != b
    ensures a + ".webp" != b + ".webp"
  {
    if |a| == |b| {
      var i :| 0 <= i < |a| && a[i] != b[i];
      assert (a + ".webp")[i] != (b + ".webp")[i];
    }
  }

  /**
   * Nothing removes a picture: a picture an upload stored stays on disk
   * after the later uploads, whether or not one of them fails, as long as
   * the uuids differ (uuid.New()).
   */
  lemma {:induction false} KeptPictures(d: Files.Disk, key: string, us: seq<Upload>, codecs: Files.Codecs, j: nat)
    requires j < |us|
    requires forall a, b :: 0 <= a < b < |us| ==> us[a].uuid != us[b].uuid
    requires us[j].opens && Files.Saves(key, us[j].content, us[j].io, codecs)
    requires Files.SavedName(us[j].content, codecs, us[j].uuid) != ""
    ensures var o := Files.Outcome(us[j].content, codecs.detect(us[j].content).value, codecs.webp, codecs.std, codecs.heif);
            var f := (key, us[j].uuid + ".webp");
            f in AfterUploads(d, key, us, codecs).images && AfterUploads(d, key, us, codecs).images[f] == Files.Encoded(o.img)
    decreases |us|
  {
    var last := |us| - 1;
    var front := us[..last];
    if j < last {
      KeptPictures(d, key, front, codecs, j);
      WebpNamesDiffer(us[last].uuid, us[j].uuid);
    }
  }

  /**
   * PostEntry: check the key's format, then the registry; read the form;
   * accept 1 to 9 pictures; store them in upload order, giving up at the
   * first that fails; save the entry; redirect to its page. `multipartOk`
   * is whether the multipart form parses; `now`, `mkdir`, `write` are
   * SaveData's environment.
   */
  method PostEntry(entries: Entries.EntriesService, files: Files.FilesService, keys: Keys.KeysService,
                   req: Web.Request, multipartOk: bool, uploads: seq<Upload>, codecs: Files.Codecs,
                   hash: string -> string, now: int, mkdir: bool, write: Entries.WriteOutcome)
    returns (resp: Web.Response, imageIDs: seq<string>)
    requires entries.registry == keys
    modifies entries`entries, files
    ensures var key := req.PostForm("entryId");
            && (!Types.ValidKey(key) ==> resp == Web.Json(Web.StatusBadRequest, "invalid key format"))
            && (Types.ValidKey(key) && keys.Get(key).None? ==> resp == Web.Json(Web.StatusBadRequest, "key not found"))
            && (Types.ValidKey(key) && keys.Get(key).Some? && !multipartOk ==>
                  resp == Web.Json(Web.StatusBadRequest, "invalid multipart form"))
            && (Types.ValidKey(key) && keys.Get(key).Some? && multipartOk && |uploads| == 0 ==>
                  resp == Web.Json(Web.StatusBadRequest, "missing file"))
            && (Types.ValidKey(key) && keys.Get(key).Some? && multipartOk && |uploads| > MaxImages ==>
                  resp == Web.Json(Web.StatusBadRequest, "too many images (max 9)"))
    ensures resp.Redirect? <==>
              var key := req.PostForm("entryId");
              && Types.ValidKey(key) && keys.Get(key).Some? && multipartOk
              && 1 <= |uploads| <= MaxImages && AllSaved(key, uploads, codecs)
              && mkdir && write == Entries.Written
    ensures resp.Redirect? ==>
              var key := req.PostForm("entryId");
              && |imageIDs| == |uploads|
              && (forall i :: 0 <= i < |uploads| ==>
                    imageIDs[i] == Files.SavedName(uploads[i].content, codecs, uploads[i].uuid))
              && entries.entries == Entries.Store(old(entries.entries), key, Payload(req, imageIDs), now)
              && resp == Web.Redirect(Web.StatusSeeOther, "/view/" + key + "/" + hash(req.PostForm("recipientName")))
    ensures !resp.Redirect? ==> resp.Json? && resp.status == Web.StatusBadRequest
    ensures |imageIDs| < |uploads| ==> entries.entries == old(entries.entries)
    ensures var key := req.PostForm("entryId");
            var reached := Types.ValidKey(key) && keys.Get(key).Some? && multipartOk && 1 <= |uploads| <= MaxImages;
            && (!reached ==>
                  files.imageDirs == old(files.imageDirs) && files.images == old(files.images) &&
                  entries.entries == old(entries.entries))
            && (reached ==>
                  Files.Disk(files.imageDirs, files.images) ==
                    AfterUploads(Files.Disk(old(files.imageDirs), old(files.images)), key,
                                 uploads[..Tried(uploads, AllSaved(key, uploads, codecs), imageIDs)], codecs))
            && (reached && AllSaved(key, uploads, codecs) ==>
                  entries.entries == Entries.AfterWrite(old(entries.entries), key, Payload(req, imageIDs), now, mkdir, write))
  {
    imageIDs := [];
    var key := req.PostForm("entryId");
    if !Types.ValidKey(key) {
      return Web.Json(Web.StatusBadRequest, "invalid key format"), imageIDs;
    }
    if keys.Get(key).None? {
      return Web.Json(Web.StatusBadRequest, "key not found"), imageIDs;
    }
    var recipientName := req.PostForm("recipientName");
    if !multipartOk {
      return Web.Json(Web.StatusBadRequest, "invalid multipart form"), imageIDs;
    }
    if |uploads| == 0 {
      return Web.Json(Web.StatusBadRequest, "missing file"), imageIDs;
    }
    if |uploads| > MaxImages {
      return Web.Json(Web.StatusBadRequest, "too many images (max 9)"), imageIDs;
    }
    var saved := SaveImages(files, key, uploads, codecs);
    imageIDs := saved.1;
    if saved.0.Some? {
      return Web.Json(Web.StatusBadRequest, saved.0.value), imageIDs;
    }
    var stored := entries.SaveData(key, Payload(req, imageIDs), now, mkdir, write);
    if stored.Err? {
      return Web.Json(Web.StatusBadRequest, EntryErrorText(stored.error)), imageIDs;
    }
    // url.PathEscape leaves a valid key as it is: every key rune is unreserved
    return Web.Redirect(Web.StatusSeeOther, "/view/" + key + "/" + hash(recipientName)), imageIDs;
  }

  /**
   * The loop of PostEntry over the uploaded files: open each and store it,
   * collecting the names in upload order; the first failure ends the loop
   * with its error text and the names collected so far.
   */
  method SaveImages(files: Files.FilesService, key: string, uploads: seq<Upload>, codecs: Files.Codecs)
    returns (result: (Option<string>, seq<string>))
    modifies files
    ensures result.0.None? <==> AllSaved(key, uploads, codecs)
    ensures result.0.None? ==> |result.1| == |uploads|
    ensures result.0.Some? ==> |result.1| < |uploads|
    ensures forall j :: 0 <= j < |result.1| ==>
              result.1[j] == Files.SavedName(uploads[j].content, codecs, uploads[j].uuid)
    ensures Files.Disk(files.imageDirs, files.images) ==
              AfterUploads(Files.Disk(old(files.imageDirs), old(files.images)), key,
                           uploads[..Tried(uploads, result.0.None?, result.1)], codecs)
  {
    var imageIDs: seq<string> := [];
    ghost var before := Files.Disk(files.imageDirs, files.images);
    for i := 0 to |uploads|
      invariant Storing(before, Files.Disk(files.imageDirs, files.images), key, uploads, i, imageIDs, codecs)
    {
      var err;
      err, imageIDs := StoreNext(files, key, uploads, i, imageIDs, before, codecs);
      if err.Some? {
        return (err, imageIDs);
      }
    }
    assert uploads[..|uploads|] == uploads;
    return (None, imageIDs);
  }

  /**
   * What the upload loop has done once it has gone through the first `i`
   * uploads: each of them opened and saved, `ids` holds their names in
   * order, and the disk went from `before` to `now` through them.
   */
  ghost predicate Storing(before: Files.Disk, now: Files.Disk, key: string, uploads: seq<Upload>, i: nat,
                          ids: seq<string>, codecs: Files.Codecs)
  {
    && i <= |uploads| && |ids| == i
    && (forall j :: 0 <= j < i ==> uploads[j].opens && Files.Saves(key, uploads[j].content, uploads[j].io, codecs))
    && (forall j :: 0 <= j < i ==> ids[j] == Files.SavedName(uploads[j].content, codecs, uploads[j].uuid))
    && now == AfterUploads(before, key, uploads[..i], codecs)
  }

  /** The body of the upload loop: store upload `i`, appending its name, or report why it failed. */
  method StoreNext(files: Files.FilesService, key: string, uploads: seq<Upload>, i: nat, ids: seq<string>,
                   ghost before: Files.Disk, codecs: Files.Codecs)
    returns (err: Option<string>, ids': seq<string>)
    requires i < |uploads|
    requires Storing(before, Files.Disk(files.imageDirs, files.images), key, uploads, i, ids, codecs)
    modifies files
    ensures err.None? <==> uploads[i].opens && Files.Saves(key, uploads[i].content, uploads[i].io, codecs)
    ensures err.None? ==> Storing(before, Files.Disk(files.imageDirs, files.images), key, uploads, i + 1, ids', codecs)
    ensures err.Some? ==>
              && ids' == ids
              && Files.Disk(files.imageDirs, files.images) == AfterUploads(before, key, uploads[..i + 1], codecs)
  {
    var u := uploads[i];
    assert uploads[..i + 1] == uploads[..i] + [u];
    AfterUploadsSnoc(before, key, uploads[..i], u, codecs);
    var saved := StoreUpload(files, key, u, codecs);
    if saved.Err? {
      return Some(saved.error), ids;
    }
    ids' := ids + [saved.value];
    err := None;
  }

  /** One turn of that loop: fh.Open, then SaveImage with removeExif set; an error gives its text. */
  method StoreUpload(files: Files.FilesService, key: string, u: Upload, codecs: Files.Codecs)
    returns (r: Result<string, string>)
    modifies files
    ensures r.Ok? <==> u.opens && Files.Saves(key, u.content, u.io, codecs)
    ensures r.Ok? ==> r.value == Files.SavedName(u.content, codecs, u.uuid)
    ensures !u.opens ==> r == Err("open failed")
    ensures Files.Disk(files.imageDirs, files.images) ==
              AfterUpload(Files.Disk(old(files.imageDirs), old(files.images)), key, u, codecs)
  {
    if !u.opens {
      return Err("open failed");
    }
    var saved := files.SaveImage(key, u.content, true, u.io, codecs, u.uuid);
    if saved.Err? {
      return Err(FileErrorText(saved.error));
    }
    return Ok(saved.value);
  }

  /**
   * GetEntryView behind the /view/ guard: an entry that does not load is an
   * invalid key; a missing recipient name panics (the type assertion on
   * it); a recipient hash that differs is refused; otherwise the entry page
   * is shown, and with log=true the visit is appended to the key's log if
   * that log already exists (RecordUAIfHistoryExists).
   */
  method GetEntryView(entries: Entries.EntriesService, req: Web.Request, key: string, hashedRecipient: string,
                      hash: string -> string, now: int, mkdir: bool, write: Entries.WriteOutcome)
    returns (resp: Web.Response)
    modifies entries`history
    ensures entries.LoadData(key).Err? ==>
              resp == Web.Page(Web.StatusBadRequest, "view_check.html", "无效的Key") && entries.history == old(entries.history)
    ensures entries.LoadData(key).Ok? && entries.LoadData(key).value.data.recipientName.None? ==>
              resp == Web.Crash && entries.history == old(entries.history)
    ensures entries.LoadData(key).Ok? && entries.LoadData(key).value.data.recipientName.Some? ==>
              var name := entries.LoadData(key).value.data.recipientName.value;
              && (hash(name) != hashedRecipient ==>
                    resp == Web.Page(Web.StatusBadRequest, "view_check.html", "收件人错误") &&
                    entries.history == old(entries.history))
              && (hash(name) == hashedRecipient ==> resp == Web.Page(Web.StatusOK, "view.html", ""))
    ensures var shown := resp == Web.Page(Web.StatusOK, "view.html", "") && req.Query("log") == "true" &&
                         key in old(entries.history);
            && (shown ==> Entries.Audited(entries.history, old(entries.history), key,
                                          Entries.HistoryRecord(now, req.userAgent, Types.ClientIP(req)), mkdir, write))
            && (!shown ==> entries.history == old(entries.history))
  {
    var loaded := entries.LoadData(key);
    if loaded.Err? {
      return Web.Page(Web.StatusBadRequest, "view_check.html", "无效的Key");
    }
    var name := loaded.value.data.recipientName;
    if name.None? {
      return Web.Crash;
    }
    if hashedRecipient != hash(name.value) {
      return Web.Page(Web.StatusBadRequest, "view_check.html", "收件人错误");
    }
    if req.Query("log") == "true" && key in entries.history {
      var rec := Entries.HistoryRecord(now, req.userAgent, Types.ClientIP(req));
      var _ := entries.RecordUaNewlineJson(key, rec, mkdir, write);
    }
    return Web.Page(Web.StatusOK, "view.html", "");
  }
}
