# Mail tracker core, modelled in Dafny

The mail tracker hands out keys that are printed as QR codes on letters. The
QR code leads to `/s/<key>`. A registered key without an entry leads an admin
to the form that creates one: recipient, remarks, origin, date and up to nine
pictures. After that, the key leads to a lookup form. The lookup form checks
a credential, records the visit and issues a signed ticket (a JWT in the
`qtk` cookie) listing the keys the visitor may see. The entry page itself is
guarded by that ticket and by a hash of the recipient's name.

This project models the core of that flow and proves properties of it:

- key validation, client IP extraction and random key generation
  (`Types`, `Helper`);
- the key registry with its batch generation, rollback, loading and sorted
  listing (`Keys`);
- the entry store and the per-key visit log (`Entries`);
- the ticket's claims (`Jwt`);
- the picture store's bounds and decoder dispatch (`Files`);
- the HTTP handlers and middlewares that tie these together
  (`EntriesController`, `KeysController`, `Admin`, `Turnstile`, `Server`).

Each Go file is one module. Services that change files or maps are classes
whose fields stand for what is on disk:
- `KeysService.keys` and `KeysService.file`;
- `EntriesService.entries` and `EntriesService.history`;
- `FilesService.imageDirs` and `FilesService.images`.

Loops in the source are `while`/`for` loops here, proved against
specification functions. Examples are RandKey's fill loop, Generate's retry
loop, ReadUARecords' decode loop with its in-place reversal, and the upload
loop of PostEntry.

Things outside the core come in as parameters:
- the clock, the random source and the outcome of each file operation;
- the image codecs, MIME sniffing and UUIDs;
- SHA-256, JWT signing and verification;
- Cloudflare's siteverify;
- url.QueryEscape and url.QueryUnescape, which gin's SetCookie and Cookie apply to cookie values, and URL escaping in redirects.

The random source is a stream of draws. Every RandKey call that returns a
key reads `length` draws, and a failing one ends Generate. So the a-th
attempt of a Generate call reads the draws from a * length on; the model
calls its key `Keys.Candidate`. `Keys.Pick` is the outcome of one key's
attempt loop over those candidates, and `Keys.KeyRun` is the reference run of
the whole key loop: the keys it accepts, the error it stops with, and the
attempts it makes.

Shared pieces:
- `Wrappers` holds `Option` and `Result`;
- `Web` holds the slice of a gin request/response and of `gin.Context` that
  the handlers use.

## Model

| member | source | states |
|---|---|---|
| Types.ScanKeyRunes | models/types.go:12-18 | the rune loop accepts iff every rune is an ASCII letter, digit, '-' or '_' |
| Types.ValidKey | models/types.go:8-19 | true iff the rune count is 1..64 and every rune is a key rune; the empty key is invalid |
| Types.ValidKeyIsPathSafe | models/types.go:12-18 | a valid key holds no '/', '.', ':' or '\\' and only ASCII runes |
| Types.LastColon | models/types.go:30-34 | the backward scan finds the last ':' before n, or -1 when there is none |
| Types.ClientIP | models/types.go:22-36 | a non-empty X-Real-IP wins; else a non-empty X-Forwarded-For verbatim; else RemoteAddr cut before its last ':'; else RemoteAddr unchanged |
| Helper.AlphabetShape | helper/helper.go:31 | the alphabet has 29 characters (not 31) and none of 0 O I G U V Z |
| Helper.RandKey | helper/helper.go:30-42 | success iff every draw succeeds; then exactly `length` characters, the i-th being `al[r_i]`, all over the alphabet; a source error returns an error at the first failing draw; the result is exactly the key the draws spell (KeyFrom) |
| Helper.AlphabetHasOnlyKeyRunes | helper/helper.go:31 | every alphabet character is a rune ValidKey admits |
| Helper.RandKeyIsValidKey | helper/helper.go:30-42 | any alphabet string of 1..64 characters passes ValidKey |
| Keys.Insert | services/keys_service.go:59 | one insertion step of the sort adds exactly one element |
| Keys.InsertSorted | services/keys_service.go:59 | inserting into a sorted list keeps it sorted and is a permutation of x plus the list |
| Keys.ConsSorted | services/keys_service.go:59 | a sorted list stays sorted with a head that is in order with its first element |
| Keys.SortByCreated | services/keys_service.go:59 | the result is sorted by CreatedAt (ascending or descending) and is a permutation of the input |
| Keys.ListsExactlyPermuted | services/keys_service.go:55-59 | reordering a list that holds each record once still holds each record once |
| Keys.Index | services/keys_service.go:46-49 | the rebuilt map files every record under its own key, holds every listed record's key, and only listed records |
| Keys.IndexKeepsLast | services/keys_service.go:47-49 | for a duplicated key the later record wins |
| Keys.RepeatCountsTwice | services/keys_service.go:55-58 | a record at two positions occurs twice in the list's multiset |
| Keys.ReloadReproducesRegistry | services/keys_service.go:40-49 | loading a list that holds each record of a registry once gives that registry back |
| Keys.KeysOf | services/keys_service.go:78-114 | newKeys holds, position by position, the keys of out |
| Keys.FreshBatchGrows | services/keys_service.go:92-115 | a fresh, distinct key with the comment and clock reading extends a fresh batch |
| Keys.ExtendsGrows | services/keys_service.go:111-115 | a registry that holds a fresh batch, with one more fresh record filed under its key, holds the batch with that record appended |
| Keys.UpdateKeys | services/keys_service.go:113 | filing a record under its key adds exactly that key to the map's keys |
| Keys.KeysOfSnoc | services/keys_service.go:114-115 | appending a record to out appends its key to newKeys |
| Keys.BatchTaken | services/keys_service.go:92-100 | every key of the batch so far is in the map already, so the batch scan adds nothing to what the map check rejects |
| Keys.IndexSnoc | services/keys_service.go:113 | inserting one more record is the registry with that record filed under its key |
| Keys.NotInIndex | services/keys_service.go:92-105 | a key absent from the rebuilt map is carried by no record of the list |
| Keys.IndexKeySet | services/keys_service.go:113-114 | the keys added are exactly the keys of the batch |
| Keys.CanRollback | services/keys_service.go:119-122 | after a batch, its keys are new and distinct, the registry is the old one plus them, and old records are unchanged |
| Keys.KeysService.constructor | services/keys_service.go:26-28 | NewKeysService starts with an empty map over the file on disk |
| Keys.KeysService.Records | services/keys_service.go:55-58 | the range loop lists every record exactly once |
| Keys.KeysService.FlushLocked | services/keys_service.go:54-71 | success iff the writes succeed; then keys.json holds every record once, oldest first; on failure the file is untouched |
| Keys.KeysService.Load | services/keys_service.go:30-51 | a missing file is flushed from the current map; an unreadable or undecodable one is an error that changes nothing; a decoded list replaces the map, later duplicates winning |
| Keys.KeysService.Rebuild | services/keys_service.go:46-49 | the map becomes the list indexed by key |
| Keys.PickStep | services/keys_service.go:87-105 | one attempt fails the loop (draw error), accepts a key the taken set lacks, or leaves the outcome to the next attempt |
| Keys.PickMeans | services/keys_service.go:87-109 | an attempt loop ends within MaxAttemptsPerKey attempts; every attempt it passes over drew a taken key; Ok is the last candidate and is not taken; RandFailed is a failed last draw; Collision is the MaxAttemptsPerKey-th taken key in a row |
| Keys.FreshRun | services/keys_service.go:83-116 | when the first m candidates draw keys that are fresh and distinct, the key loop accepts the i-th candidate as its i-th key, takes exactly m attempts and does not stop |
| Keys.FreshKeys | services/keys_service.go:83-116 | when the first n attempts draw fresh, distinct keys, the run does not stop and the batch whose keys are the run's holds the i-th attempt's key at position i |
| Keys.FreshKeyAt | services/keys_service.go:83-116 | the same at one position i |
| Keys.RunStops | services/keys_service.go:88-109 | an attempt loop that fails ends the whole key loop with that error and the keys accepted so far |
| Keys.RunAccepts | services/keys_service.go:101-115 | an accepted key is the first key of the run, and the run goes on with one key fewer and that key taken |
| Keys.RunGrows | services/keys_service.go:111-115 | after an accepted key, the run so far is the accepted keys plus that key, followed by the rest of the run |
| Keys.PickTaken | services/keys_service.go:87-109 | the attempt loop, said of the registry and the batch: skipped attempts drew keys one of them holds; an accepted key is in neither |
| Keys.ProgressGrows | services/keys_service.go:83-116 | one more accepted key keeps the key loop in step with KeyRun |
| Keys.ProgressStops | services/keys_service.go:88-109 | a failing attempt loop makes KeyRun stop with that error after the accepted keys |
| Keys.KeysService.Generate | services/keys_service.go:73-126 | with run = KeyRun (the reference run of the key loop over the candidates and the old registry): success iff the run does not stop and the flush writes succeed, so success implies flushWrites; FlushFailed iff the run does not stop and the writes fail, and then the map and file are unchanged; a run that stops with RandFailed or Collision gives exactly that error and leaves its accepted keys in the map, unflushed; the attempts made are the run's; success returns exactly n records whose keys are the run's, distinct, absent before, of the requested length over the alphabet, with the comment and clock reading; the map is the old map plus them and keys.json is flushed sorted; with writes that succeed and n fresh, distinct candidates it succeeds with exactly those keys |
| Keys.KeysService.MakeBatch | services/keys_service.go:83-116 | the key loop adds a fresh batch to the map; its keys, its stop (none on success, with n records) and its attempts are exactly KeyRun's |
| Keys.KeysService.NextKey | services/keys_service.go:84-115 | one turn of the key loop is Pick over the current registry: on Ok it appends that key to the batch and the map; on an error it changes nothing and returns Pick's error; the attempts advance to Pick's |
| Keys.KeysService.AddToBatch | services/keys_service.go:111-115 | one accepted key is filed under itself in the map and appended to newKeys and out: the batch and the map grow by exactly that fresh record |
| Keys.KeysService.DrawFreshKey | services/keys_service.go:84-109 | the outcome and the next attempt are exactly Pick over the map and the batch; every attempt before the last drew a key one of them holds; the last is accepted (its key, new to both, of the requested length over the alphabet), or its draws failed (random-source error), or it is the MaxAttemptsPerKey-th taken key in a row (collision error) |
| Keys.KeysService.AttemptLoop | services/keys_service.go:87-106 | the attempt loop's outcome and next attempt are exactly Pick's; an accepted key has the requested length over the alphabet |
| Keys.KeysService.Attempt | services/keys_service.go:88-105 | one attempt ends the loop with Pick's outcome (a failed draw or a key new to the map and the batch), or leaves Pick's outcome to the next attempt |
| Keys.KeysService.InBatch | services/keys_service.go:94-100 | the scan finds the key iff the batch holds it |
| Keys.KeysService.Commit | services/keys_service.go:118-125 | a successful flush keeps the map and writes it sorted ascending; a failed one restores the map from before the batch |
| Keys.KeysService.Rollback | services/keys_service.go:120-122 | deleting the batch's keys gives back exactly the map before the batch |
| Keys.KeysService.Get | services/keys_service.go:128-133 | Some iff the key is in the map, with its record, which is filed under that key; reads only |
| Keys.KeysService.List | services/keys_service.go:135-145 | every record exactly once, newest first |
| Entries.Stamp | services/entries_service.go:65-79 | CreatedAt is kept from a decodable envelope with a non-zero CreatedAt, else it is now |
| Entries.Store | services/entries_service.go:67-82 | after a successful save the key's envelope holds exactly the new data with the kept or fresh stamp; no other key's file changes |
| Entries.CreatedAtSurvives | services/entries_service.go:73-79 | once a non-zero CreatedAt is stored, any number of later saves keep it |
| Entries.FirstSaveStamps | services/entries_service.go:65-79 | a key's first save stamps it with that save's clock, and later saves keep that stamp |
| Entries.StoreAll | services/entries_service.go:81-82 | after a run of saves the envelope holds the last save's data |
| Entries.Appended | services/audit_service.go:31-38 | one append adds exactly the line after the old ones, creating the log if absent; other logs are unchanged |
| Entries.DecodeLog | services/audit_service.go:53-65 | the decode loop succeeds iff every line decodes, giving the records in file order |
| Entries.Reversed | services/audit_service.go:66-69 | the reversal puts element i at position n-1-i |
| Entries.NewestFirst | services/audit_service.go:40-71 | no log gives an empty result without error; an undecodable line gives an error; otherwise every record, newest first |
| Entries.Lines | services/audit_service.go:37-38 | each successful append writes one decodable line per record |
| Entries.AppendAllExtends | services/audit_service.go:31-38 | the log is append-only: old lines stay in front, in order, followed by the new ones |
| Entries.AppendThenRead | services/audit_service.go:22-71 | records r1..rn appended to an absent log read back as rn..r1 |
| Entries.AppendReadsFirst | services/audit_service.go:22-71 | one more append puts its record in front of everything read before |
| Entries.EntriesService.constructor | services/entries_service.go:41-43 | the service reads the registry and whatever files are on disk |
| Entries.EntriesService.SaveData | services/entries_service.go:53-83 | an invalid key or an unregistered key is refused with no change; otherwise success iff the directory and the write succeed, storing the new data with the kept CreatedAt; a failed mkdir or open changes nothing and a torn write leaves an undecodable file (AfterWrite); then HasData holds and LoadData returns that envelope |
| Entries.EntriesService.LoadData | services/entries_service.go:85-97 | Ok iff entry.json exists and decodes; a missing file and an undecodable one are distinct errors; no ValidKey check |
| Entries.EntriesService.HasData | services/entries_service.go:99-106 | true iff the key is valid and entry.json exists |
| Entries.EntriesService.RecordUaNewlineJson | services/audit_service.go:22-39 | success iff mkdir and the write succeed; it appends exactly one record, creating the log if absent, with no key check; a torn write leaves an undecodable line |
| Entries.EntriesService.RecordUANewlineJSON | services/entries_service.go:108-125 | the same append as RecordUaNewlineJson |
| Entries.EntriesService.ReadUARecords | services/audit_service.go:40-71 | the decode loop and in-place reversal return exactly NewestFirst |
| Entries.ReverseInPlace | services/audit_service.go:67-69 | the two-pointer swap loop leaves the array reversed |
| Jwt.ReadTokenFromRequest | services/jwt_service.go:29-40 | a non-empty qtk cookie wins; otherwise an Authorization header with "Bearer " gives the rest of it; otherwise "" |
| Jwt.ParseClaims | services/jwt_service.go:43-60 | an empty token gives empty claims and no error; a rejected token gives empty claims and an error; only a valid token gives its claims |
| Jwt.AppendAllowKey | services/jwt_service.go:63-71 | the list is a prefix of the result; a non-empty key ends up listed; nothing else is added; an empty or present key leaves the list unchanged |
| Jwt.AppendAllowKeyIdempotent | services/jwt_service.go:63-71 | appending the same key twice equals appending it once |
| Jwt.AppendAllowKeyKeepsDistinct | services/jwt_service.go:67-69 | a list without duplicates stays without duplicates |
| Jwt.AllowAllCovers | services/jwt_service.go:63-71 | appending keys one by one extends the list, keeps it duplicate-free, lists every non-empty key and nothing else |
| Files.HasWebPMagic | services/files_service.go:103-109 | false below 12 bytes; otherwise true iff "RIFF" is at 0..4 and "WEBP" at 8..12 |
| Files.Stages | services/files_service.go:60-74 | one to three decoders are called |
| Files.StagesOrder | services/files_service.go:62-74 | go-webp runs first iff the type or magic says WebP; the standard decoders run iff WebP was not tried or produced nothing, and never after a WebP error; libheif runs last, iff the previous decoder failed and the type is HEIC, HEIF or AVIF |
| Files.DecodeImage | services/files_service.go:60-74 | after the reassignments (img, err) hold exactly what the last decoder called returned |
| Files.FilesService.constructor | services/files_service.go:29 | the service starts over the directories and files on disk |
| Files.FilesService.SaveImage | services/files_service.go:31-99 | success iff the key is valid, the read succeeds, the input is at most 40 MiB, the type is sniffed, mkdir succeeds and decode, create and encode succeed; errors come in that order and the early ones change nothing; the name is "uuid.webp" ("" when no decoder produced a picture and none failed); the disk afterwards is AfterSave: the directory once mkdir succeeds, the picture (or an unfinished file) once create succeeds |
| Files.FilesService.WriteImage | services/files_service.go:53-98 | mkdir failure changes nothing; a decode failure or no picture writes no file; a failed create writes none; a failed encode leaves an unfinished file; success writes the encoded picture |
| EntriesController.RouteView | controllers/entries_controller.go:143-162 | always a 303; an unregistered key, or one with an empty stored Key, goes to "/"; a registered key goes to /lookup/ iff it has data, else to /create/ |
| EntriesController.SavedKeyRoutesToLookup | controllers/entries_controller.go:147-160 | a registered key with data leads to its lookup page |
| EntriesController.PostEntry | controllers/entries_controller.go:17-89 | each early error gives its 400 message in source order; a redirect happens iff the key is valid and registered, 1..9 files all save and SaveData succeeds; then the image IDs are in upload order, the entry stores the form with them, and the target is "/view/"+key+"/"+hash(recipientName); the early errors change neither disk nor entries; past them the disk is what the uploads tried leave, the failing one included; an image failure leaves the entry store unchanged, and after all images SaveData's outcome decides it |
| EntriesController.SaveImages | controllers/entries_controller.go:53-70 | all uploads saved iff no error; names are in upload order; the first failure stops the loop; the disk is what the uploads up to and including the failing one leave, with no cleanup |
| EntriesController.StoreNext | controllers/entries_controller.go:54-70 | one turn of the loop: it succeeds iff the upload opens and saves, then appends the upload's name and applies the upload to the disk; on failure the names are unchanged and the disk has taken the failing upload's effect |
| EntriesController.StoreUpload | controllers/entries_controller.go:55-69 | one upload succeeds iff it opens and SaveImage succeeds, giving SaveImage's name; an upload that does not open leaves the disk as it was, otherwise SaveImage's effect |
| EntriesController.AfterUploadsSnoc | controllers/entries_controller.go:54-70 | each turn of the loop applies one more upload's effect to the disk |
| EntriesController.KeptPictures | controllers/entries_controller.go:54-70 | a picture an earlier upload stored stays on disk after the later uploads, even when one of them fails, given distinct uuids |
| EntriesController.GetEntryView | controllers/entries_controller.go:91-141 | an entry that does not load gives the 400 "无效的Key" page; a missing recipient name crashes; a hash mismatch gives the 400 page without data; otherwise 200; when the 200 page is shown with log=true for a key whose log exists, the history is Audited (the record's line after a full write, unchanged when the directory or the file cannot be made, a garbled line after a torn write); in every other case the history is unchanged |
| KeysController.ReadDigitsMeaning | controllers/keys_controller.go:17-18 | the digit reader accepts exactly non-empty digit runs and reads their decimal value |
| KeysController.Atoi | controllers/keys_controller.go:17-18 | the parsed value always fits in a 64-bit int |
| KeysController.AtoiCases | controllers/keys_controller.go:17-18 | a non-numeral reads as 0; an optionally signed numeral reads as its value clamped to the int64 range |
| KeysController.Decimal | controllers/keys_controller.go:17-18 | the decimal rendering of a natural number is a non-empty digit run |
| KeysController.DecimalValue | controllers/keys_controller.go:17-18 | reading a rendered number gives the number back |
| KeysController.AtoiReadsDecimal | controllers/keys_controller.go:17-18 | Atoi reads back every int64's decimal text, negative ones included |
| KeysController.NonNumeralRejected | controllers/keys_controller.go:17-27 | a non-numeric quantity or length never passes the bounds |
| KeysController.LongKeysUnusable | controllers/keys_controller.go:24-29 | lengths 65..100 pass the bounds, but no key that long is valid |
| KeysController.ShortKeysUsable | controllers/keys_controller.go:24-29 | keys of lengths 6..64 drawn from the alphabet are valid |
| KeysController.Rejection | controllers/keys_controller.go:20-27 | no rejection iff quantity is in 1..1000000 and length in 6..100 (both inclusive); otherwise the first failing bound's 400 page |
| KeysController.KeysGenerate | controllers/keys_controller.go:13-56 | (Minted) a rejected request changes nothing; otherwise the answer is the page or a 500 with Generate's error text; the page appears iff KeyRun does not stop and the writes succeed, so failed writes never show it; the page lists a fresh batch of exactly q keys (KeyRun's keys) added to the registry and flushed sorted to keys.json; a flush failure happens iff the run does not stop and the writes fail, and changes nothing; a run that stops gives the 500 with its error's text and keeps its accepted keys in the map, unflushed; with writes that succeed and q fresh, distinct candidates the page lists exactly those keys |
| KeysController.Mint | controllers/keys_controller.go:20-54 | the bounds, then Generate with an empty comment, with the outcomes KeysGenerate states |
| KeysController.KeyStatus | controllers/keys_controller.go:59-74 | "not_found" iff the key is unregistered; otherwise "used" iff HasData, else "available", with the record's CreatedAt |
| KeysController.KeysList | controllers/keys_controller.go:77-92 | every registered key appears once, newest first, with its CreatedAt and used == HasData |
| KeysController.ListedOnce | services/keys_service.go:135-144 | a list that holds each record once lists each key once, at its own record |
| Admin.GinCookie | middleware/admin.go:17 | gin's Cookie: None iff the cookie was not sent; else its value URL-unescaped, "" when the escape is malformed |
| Admin.AdminFlag | middleware/admin.go:17-21 | admin iff the cookie was sent, ADMIN_TOKEN is non-empty, and they are equal |
| Admin.EmptyTokenNeverAdmin | middleware/admin.go:20 | an empty ADMIN_TOKEN grants admin to nobody |
| Admin.AdminAuthMiddleware | middleware/admin.go:14-25 | the flag, computed on the unescaped cookie, is stored under "isAdmin"; nothing else changes |
| Admin.IsAdmin | middleware/admin.go:42-46 | true iff the value is set and is the bool true |
| Admin.IsAdminReadsFlag | middleware/admin.go:17-46 | after AdminAuthMiddleware, IsAdmin is exactly the computed flag |
| Admin.ReturnPath | middleware/admin.go:34-37 | the return path always starts with '/', and is the request path when that already does |
| Admin.RequireLoginDecision | middleware/admin.go:27-41 | admins go on; everyone else gets 303 to "/login?go="+escaped same-site path and the chain stops |
| Admin.AdminChainPasses | middleware/admin.go:14-41 | after AdminAuthMiddleware, RequireLogin lets a request through iff its raw cookie was sent and unescapes to a non-empty ADMIN_TOKEN |
| Admin.RequireLogin | middleware/admin.go:27-41 | the handler writes the redirect and aborts exactly when the decision says so |
| Turnstile.TurnstileGuard | middleware/turnstile_mw.go:29-41 | nil Verify panics; an empty TokenField becomes "cf-turnstile-response"; a nil OnFail becomes the 400 JSON answer; set values are kept |
| Turnstile.Decide | middleware/turnstile_mw.go:43-59 | no token fails with OnFail; otherwise the chain continues iff Verify returns success without error; every failure answers with OnFail |
| Turnstile.EmptyTokenSkipsVerifier | middleware/turnstile_mw.go:45-49 | with no token the verifier's answer does not matter |
| Turnstile.Handle | middleware/turnstile_mw.go:43-59 | on failure OnFail's answer is written and the chain aborted; on success the result is stored under "turnstile:result" |
| Server.FormGuardConfig | main.go:189-199 | the lookup guard reports success only when siteverify succeeded without error; its OnFail is the 400 captcha page |
| Server.CredentialCheck | main.go:214-239 | no Encrypt or no method passes; "recipient" passes iff the name is present and equals the form value; "password" passes iff no password is set or it equals the form value; other methods pass |
| Server.PostedEntriesAreOpen | main.go:214-239 | entries created by PostEntry carry no Encrypt, so any form value passes |
| Server.MergeClaims | main.go:259-269 | scope becomes "page:view" only if empty; IssuedAt is set only if unset; ExpiresAt is always now + 90 days; the allow list gains the key and nothing else |
| Server.MergeAgainOnlyExtends | main.go:259-269 | looking up the same key again changes only the expiry |
| Server.VisitedKeys | main.go:201 | the keys of a run of lookups, in order |
| Server.SessionAllows | main.go:255-269 | a run of lookups unlocks the visited keys in order, keeps the first IssuedAt, and expires 90 days after the last lookup |
| Server.PostLookup | main.go:200-282 | (LookedUp) a LoadData failure gives 500 with no audit record and no ticket; a failed credential gives 400 with neither; otherwise exactly one audit record is appended, the ticket carries the merged claims, and signing failure gives 500, else 303 to /view/key with the cookie |
| Server.PostLookupRoute | main.go:189-282 | a token that siteverify confirms without error leads to exactly what PostLookup does; anything else (a missing token included) gives the 400 captcha page, no audit record and no ticket |
| Server.ViewGuard | main.go:287-305 | admins pass; others pass iff the ticket parses without error and lists the key; otherwise 403 with the matching message |
| Server.LookupThenView | main.go:254-298 | the ticket a lookup issues for a key, once it verifies and comes back as the cookie, passes the view guard of main.go:287-304 for that key |
| Server.ViewNeedsLookup | main.go:287-302 | a non-admin whose ticket comes from a session that started empty sees only keys that session looked up |
| Server.Login | main.go:116-135 | the right password gets the URL-escaped token as cookie and a 303 to the redirect target ("/" when empty); any other gets the 401 page and no cookie |
| Server.LoginThenAdmin | main.go:116-135 | given that unescaping undoes escaping on the token, the login cookie makes the next request admin iff the password was right and ADMIN_TOKEN is non-empty |

## Left out

- Concurrency: the RWMutexes are not modelled; every operation is sequential and atomic.
- Atomicity of temp-write-plus-rename is not modelled; a failed flush leaves keys.json untouched.
- JSON encoding and decoding is abstracted to "decodes or fails". keys.json is Missing, Unreadable, Malformed or a stored list. entry.json is an envelope or undecodable. A log line is a record or garbled.
- Cryptography is not modelled:
  - HMAC-SHA256 signing and verification are functions;
  - SHA-256 (HashString) is a function;
  - crypto/rand is a stream of draws;
  - ConstantTimeCompare is equality, and its timing is not expressible.
- Image codecs, MIME sniffing (detectMime), UUIDs, geoip, logging, template rendering, startup and route wiring are not modelled; the first four are parameters.
- Strings are sequences of runes. Invalid UTF-8 bytes, which Go's range loop turns into U+FFFD, are not modelled.
- Times are integer seconds, with 0 for Go's zero time. One `now` serves each handler, although Go calls time.Now() several times.
- KeysController.Atoi: a numeral that overflows and then has a stray character reads as the clamped bound rather than 0. Both are refused by the bounds.
- KeysController.KeyErrorText: the texts of OS and random-source errors are placeholders. The collision message is the source's own.
- EntriesController.EntryErrorText and EntriesController.FileErrorText: OS error texts are placeholders. The source's own messages are kept verbatim.
- Keys.SortByCreated: sort.Slice is not stable, so the contract fixes no order among records with equal CreatedAt.
- Keys.KeysService.Generate: the model takes a comment. KeysGenerate passes "" for it, because the controller calls Generate with two arguments while Generate declares three.
- Entries.EntriesService.ReadUARecords: open errors other than a missing file are not modelled.
- Entries.EntriesService.SaveData: a failed os.ReadFile of the old envelope is treated like an undecodable one.
- Entries.EntryData: the Encrypt field is not in the Go struct, but main.go reads `entry.Data.Encrypt`. It is modelled as an optional sub-record.
- Entries.HistoryRecord: UAObj and IPObj are `json:"-"` and never stored, so they are left out.
- EntriesController.PostEntry: SaveData is declared with EntryData but called with marshalled bytes. The model passes the EntryData those bytes encode.
- EntriesController.PostEntry: url.PathEscape is the identity here, because every rune of a valid key is unreserved.
- EntriesController.GetEntryView: the recipient name is read from the loaded data. The source unmarshals `data.Data` into a map and type-asserts its recipientName. When the name is absent the assertion panics, and that case is modelled as Crash.
- EntriesController.GetEntryView: RecordUAIfHistoryExists is called but not defined anywhere. It is modelled, after its name, as an append only when the key's log already exists.
- Files.FilesService.SaveImage: removeExif is accepted and unused, as in the source. The original HEIC file is not preserved.
- Jwt.ParseClaims: the "claims cast error" branch cannot happen with the claims type the parser is given, so it is not modelled.
- Jwt: IssueCookie's cookie attributes (HttpOnly, Secure, SameSite) are not modelled.
- Server.PostLookup: the lookup time window is not enforced, because the source only has a note about it.
- Server.PostLookup: the Key passed to the error templates is not modelled.
- Server.ViewGuard: the route parameters of /view/ are not modelled. The guard and GetEntryView take the key as a parameter.
- EntriesController.GetEntryView: the model takes hashedRecipient as a parameter. The route `/view/:key/` (main.go:285) binds no hashedRecipient, so `c.Param("hashedRecipient")` (controllers/entries_controller.go:94) is always "". The hash gate (controllers/entries_controller.go:114-121) then refuses every request whose recipient name does not hash to "". PostEntry's redirect to `/view/KEY/HASH` (controllers/entries_controller.go:86) matches no route either.
- The /img, /ip, /create and index handlers are not modelled.
- controllers/auth_controller.go repeats the login decision and is not part of this model.
