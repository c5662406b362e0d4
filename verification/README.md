# Verified model of the image service

An image proxy takes a signed URL, parses processing options and a source out of it, derives a cache key, and
downloads, transforms and stores the image, coalescing concurrent requests for one key. This project models the
parts of it that carry real proof obligations and proves properties of the models with Dafny 4.11. Nothing here
executes the service. `dafny verify dfyconfig.toml` checks everything.

| file | what it models |
|---|---|
| `Common`, `Text` | options and results, big-endian numbers, numerals in a radix, splitting and joining |
| `AvifBoxes`, `AvifTables`, `Orientation`, `AvifReader` | the AVIF/HEIF metadata reader: cursor, box scan with a shared budget, `pitm`/`ipma`/`infe`/`iloc`, the composition of `irot` and `imir`, EXIF recovery |
| `AvifRoundTrip`, `AvifSmallTree` | the serialiser of whole files, the theorems that the reader undoes it, with and without EXIF, and trees they apply to |
| `SingleFlight`, `SingleFlightOutcome`, `SingleFlightRefetch` | the resize protocol: leaders, followers, broadcast channels, the two-step drop guard, cancellation; what becomes of each outcome; when a stored key is uploaded again |
| `Params`, `UrlOptions`, `UrlGrammar`, `UrlOrder`, `UrlOverride`, `UrlPrint`, `UrlShorthands`, `UrlNormalForm` | the option grammar: the fold, exactly which texts it accepts, reordering, overriding, printing, other spellings, normal form |
| `UrlPresets`, `UrlRequest` | preset and allowlist configuration, path split, preset expansion, source, the resize query |
| `CacheKey`, `CacheKeyBound`, `RequestKey` | the bytes fed to the cache-key hash, how long a field may be, and which requests share the bytes |
| `CivilDate` | day counts to Gregorian dates and HTTP dates |
| `IpLiteral` | `inet_aton` address literals |
| `MemoryStore`, `FixtureCache`, `QualitySearch` | the lazily expiring store, the write-then-rename fixture cache, the quality bisection |
| `LawfulLibrary` | a library that meets every law assumed of the float and base64 functions |

## How to read it

Code that works by changing things is a method or a class here, with its loops, and is proved equal to a function;
the lemmas are about that function. The serialisers, printers, calendars, grids and reference stores that the lemmas
compare with are defined on their own, from the formats and not from the reading code.

The single-flight protocol and the fixture cache are transition systems over any number of callers: a run is a list
of steps, each enabled when it happens. `ResizeService` is the same protocol as a class whose methods update the map,
the channels and the store, and each of them is proved to take exactly one step; `CacheDirectory` is the fixture cache
in the same form. The invariant is stated over reachable states, so the safety lemmas hold in every run, cancellation at
any await point included.

32-bit and 64-bit floats are type parameters. A `Library` value carries the functions that the code takes from
elsewhere: reading and showing floats, comparisons with 0 and 1, the rounding of a crop dimension, and URL-safe base64.
`Params.Lawful` says what is assumed of them: showing a float and reading it back gives it, shown floats hold no `:`,
`/` or `x` and are not `None`, decimal integers read as themselves, and base64 decoding undoes encoding.
`LawfulLibrary.NaturalsAreLawful` exhibits a library that meets the laws. NaN payloads are identified. Percent-decoding
and the IPv6 parser are parameters about which nothing is assumed beyond what a lemma says.

Some promises turn out narrower than they sound, and for each the exact condition is proved. "Exactly one fetch per
key" does not hold, because the cache check comes before the map entry: `WorkMayRunTwice` and `FailedCheckUploadsTwice`
give the runs, and `UploadedAgainIff` says that, checks of the key not failing, a stored key is uploaded again from a
state if and only if some caller there is past its check and short of its upload. Preset expansion is not always
inlining: `InliningIff` says exactly when it is, and `InliningNeedsColons` with `ColonlessIsConfigurable` gives a
configuration for which it is not. The cache key is injective up to two folds and for fields under 2 to the 32 bytes:
`PrefixBound` shows that the bound is exact, and `CacheKeyBound` carries it to two queries.

## Model

| member | source | states |
|---|---|---|
| `AvifBoxes.Cursor.Remainder` | src/services/image/avif_meta.rs:148-150 | The unread tail of the data; nothing moves. |
| `AvifBoxes.Cursor.ReadBytes` | src/services/image/avif_meta.rs:152-157 | The next n bytes if there are that many; the position moves past them exactly when the read succeeds. |
| `AvifBoxes.Cursor.ReadFixed` | src/services/image/avif_meta.rs:163-181 | The next 1 to 8 bytes as a big-endian number below 256 to that width; a failed read leaves the position. |
| `AvifBoxes.Cursor.ReadUint` | src/services/image/avif_meta.rs:188-197 | Width 0 reads 0 and moves nothing, widths over 8 are refused, every other width is the base-256 value below 2 to the 64, so no bit is lost. |
| `AvifBoxes.ReadBoxHeader` | src/services/image/avif_meta.rs:213-230 | A header, if there is one, fits its data: 8 <= header length <= total size <= length of the data. Its value is fixed by HeaderOfSerialised and SerialisedOfHeader. |
| `AvifBoxes.HeaderOfSerialised` | src/services/image/avif_meta.rs:200-230 | Reading the header of a serialised box (32-bit, 64-bit or size 0) with anything behind it gives its type, form and exact extent. |
| `AvifBoxes.SerialisedOfHeader` | src/services/image/avif_meta.rs:200-230 | Conversely, whatever the header reader accepts is the serialisation of the box it found, to the byte. |
| `AvifBoxes.WalkBoxes` | src/services/image/avif_meta.rs:236-263 | The loop visits exactly the boxes of the recursive scan, in order, and spends one unit of the shared budget for each. |
| `AvifBoxes.FindFirstBox` | src/services/image/avif_meta.rs:269-282 | The content of the first visited box of the type, and the budget the whole scan leaves. |
| `AvifBoxes.WalkTilesPrefix` | src/services/image/avif_meta.rs:232-263 | The visited boxes, serialised, followed by the unread rest are the input: consecutive, in order, without overlap. |
| `AvifBoxes.WalkSpendsBudget` | src/services/image/avif_meta.rs:245-262 | Visited boxes plus remaining budget are the budget given; the visited boxes form a complete container. |
| `AvifBoxes.WalkOfSerialised` | src/services/image/avif_meta.rs:236-263 | Scanning any serialised bounded boxes with data behind them visits exactly those boxes and then scans that data with the rest of the budget. |
| `AvifBoxes.WalkOfContainer` | src/services/image/avif_meta.rs:236-263 | Scanning a serialised container, whose last box may be open-ended, visits exactly the serialised list and leaves nothing. |
| `AvifTables.ParsePrimaryItemId` | src/services/image/avif_meta.rs:410-420 | The cursor-based reader computes the positional definition of the primary item id. |
| `AvifTables.PrimaryItemIdOfSerialised` | src/services/image/avif_meta.rs:410-420 | Reading any encodable `pitm` box, of either version and with trailing bytes, gives its item id. |
| `AvifTables.ReadIndices` | src/services/image/avif_meta.rs:500-514 | Narrow and wide association indices with the essential bit masked off; on success the cursor has moved by exactly their size. |
| `AvifTables.ParseAssociations` | src/services/image/avif_meta.rs:479-520 | The reading loop computes the positional definition of the indices associated with an item. |
| `AvifTables.AssociatedIndicesOfSerialised` | src/services/image/avif_meta.rs:479-520 | Out of any encodable `ipma` table, with narrow or wide ids and indices and trailing bytes, the reader returns the indices of the first entry for the item, and nothing if there is none. |
| `AvifTables.AssociationFields` | src/services/image/avif_meta.rs:500-514 | An association field is one byte or two, half of whose values have the essential bit. |
| `AvifTables.ParseInfeExifItemId` | src/services/image/avif_meta.rs:569-586 | The cursor-based reader computes the positional definition of the declared EXIF item. |
| `AvifTables.ExifItemIdOfSerialised` | src/services/image/avif_meta.rs:569-586 | An encodable `infe` box of version 2 or 3 yields its item id exactly when its type is `Exif`. |
| `AvifTables.ReadExtents` | src/services/image/avif_meta.rs:636-644 | The extents at the cursor for any declared widths; on success the cursor has moved by their number times the total width. |
| `AvifTables.ReadItem` | src/services/image/avif_meta.rs:619-652 | One `iloc` entry in full, wanted or not, and the cursor at the start of the next. |
| `AvifTables.FindIlocEntry` | src/services/image/avif_meta.rs:600-655 | The reading loop computes the positional definition of the location of an item. |
| `AvifTables.ItemOfSerialised` | src/services/image/avif_meta.rs:619-652 | For any field widths from 0 to 8, an entry reads back as its id, method, base and extents, and ends where its serialisation ends: no loss of alignment. |
| `AvifTables.LocationOfSerialised` | src/services/image/avif_meta.rs:600-655 | Out of any encodable `iloc` table (every version, every width) the reader returns the location in the first entry of the item. |
| `AvifTables.WidthsByVersion` | src/services/image/avif_meta.rs:604-635 | Which fields an `iloc` box of each version has: 16-bit ids before version 2 and 32-bit ids from there, method and extent index in versions 1 and 2 only. |
| `Orientation.ThenIsAGroup` | src/services/image/avif_meta.rs:317-336 | `then` is closed, associative, has the identity and has inverses on both sides. |
| `Orientation.ActThen` | src/services/image/avif_meta.rs:320-336 | Composing with `then` and acting on a pixel grid of any size is acting with one after the other. |
| `Orientation.OrientationActs` | src/services/image/avif_meta.rs:345-360 | The orientation picked for a transform does to any grid what the transform does. |
| `Orientation.IntoOrientationInjective` | src/services/image/avif_meta.rs:345-360 | The eight transforms get eight different orientations. |
| `Orientation.OrientationOfProperties` | src/services/image/avif_meta.rs:391-405 | For every list of `irot`/`imir` properties and every image, applying them one at a time equals applying the single composed orientation. |
| `Orientation.StoredIsOriented` | benches/fixtures.rs:529-556 | For all eight EXIF codes the stored image of the fixture, turned by its own code, is the canonical image; other codes have neither. |
| `AvifReader.CollectProperties` | src/services/image/avif_meta.rs:427-472 | The collecting loop yields every property of the list with its 1-based position, other boxes counted but skipped; which bytes are a property is the subject of PropertyReadsBack. |
| `AvifReader.ResolveOrientation` | src/services/image/avif_meta.rs:367-406 | The imperative resolution, budget included, computes the functional definition over the three tables. |
| `AvifReader.FindExifItemId` | src/services/image/avif_meta.rs:542-564 | The first visited `infe` box that declares an EXIF item, and the budget left. |
| `AvifReader.ExtractExifTiff` | src/services/image/avif_meta.rs:661-698 | The extent loop computes the functional definition: joined extents, cap, offset field, byte-order marker, every refusal included. |
| `AvifReader.ExifIsSuffixOfExtents` | src/services/image/avif_meta.rs:657-698 | A recovered TIFF block is a suffix of the concatenated extents and at most the cap less four bytes. |
| `AvifReader.ExtractExifPayload` | src/services/image/avif_meta.rs:528-537 | EXIF extraction over `iinf` and `iloc`, with the budget it leaves. |
| `AvifReader.Parse` | src/services/image/avif_meta.rs:66-100 | The whole imperative parse computes the functional definition `ParseFile`; it always returns. |
| `AvifReader.ParseVisitsWithinBudget` | src/services/image/avif_meta.rs:119-124 | Over all nested scans of one parse, visited boxes plus remaining budget are 4096. |
| `AvifReader.ParsedExifIsCapped` | src/services/image/avif_meta.rs:121-124 | No file makes the parse return more than 1,048,576 - 4 bytes of EXIF. |
| `AvifReader.ParsedExifHasMark` | src/services/image/avif_meta.rs:693-697 | Whatever EXIF a parse returns starts with one of the two TIFF byte-order marks, written out in bytes. |
| `AvifReader.ParsedExifIsSuffix` | src/services/image/avif_meta.rs:657-698 | Any EXIF a parse recovers from any file is a suffix of concatenated ranges of that file, at least four bytes in. |
| `AvifRoundTrip.MetaLengthIgnoresOffset` | src/services/image/avif_meta.rs:827-847 | The length of the `meta` box does not depend on the payload offset stored in it, so the two-pass writer is right. |
| `AvifRoundTrip.NamesAndLimits` | src/services/image/avif_meta.rs:106-124 | The four letters of every box type, the byte-order marks, and the limits of depth 8, 4096 boxes and 1 MiB, each as a literal. |
| `AvifRoundTrip.PropertyReadsBack` | src/services/image/avif_meta.rs:452-464 | A property written from its value (the letters `irot` with a first byte of 4 times anything plus the steps, or `imir` with 2 times anything plus the axis, and any bytes behind) is collected as that value; an empty box or any other type as none. |
| `AvifRoundTrip.ParseOfFile` | src/services/image/avif_meta.rs:66-100 | Parsing the file of any well-formed tree (properties written from their values, other boxes anywhere, tables in any order, any widths, EXIF split over any extents behind `meta`) gives exactly the composed orientation of the values of the primary item and the TIFF block. |
| `AvifRoundTrip.ParseWithoutExif` | src/services/image/avif_meta.rs:66-100 | Parsing the file of any well-formed tree without EXIF (no `iinf`, no `iloc`, no EXIF item, or no location for it in the file) gives no payload, and the composed orientation, or none if `pitm` or `iprp` is missing. |
| `AvifRoundTrip.ParsedOrientationActs` | src/services/image/avif_meta.rs:363-406 | The parsed orientation does to any image what the primary item's properties do one after the other. |
| `SingleFlight.StepKeepsInvariant` | src/services/resize/handler.rs:67-113 | Every step of every caller (cache check, entry, work, finish, the two steps of the drop, receive, cancellation) keeps the protocol invariant. |
| `SingleFlight.RunsKeepInvariant` | src/services/resize/handler.rs:177-245 | Every run from the empty service, over any number of callers and keys, stays in the invariant. |
| `SingleFlight.FollowerHasLeaderOrMessage` | src/services/resize/handler.rs:217-226 | A waiting follower's channel has a live leader that has yet to send, or is closed and holds exactly one message. |
| `SingleFlight.MapEntryIsOneLeader` | src/services/resize/handler.rs:89-95 | A key is in the map exactly when some leader has not removed it yet, and then that leader is the only one. |
| `SingleFlight.StepLowersMeasure` | src/services/resize/handler.rs:177-245 | Every step but an arrival lowers a measure on the callers. |
| `SingleFlight.RunsAreFinite` | src/services/resize/handler.rs:177-245 | With no further arrivals a run is no longer than the measure of its first state. |
| `SingleFlight.NobodyIsStranded` | src/services/resize/handler.rs:217-226 | While a caller has not settled, a step other than an arrival or a cancellation is enabled. |
| `SingleFlight.EveryoneSettles` | src/services/resize/handler.rs:177-245 | From any reachable state a run without arrivals is bounded by the measure, and where it can go on only by an arrival every caller has returned or was cancelled. |
| `SingleFlight.FollowersAgreeWithLeader` | src/services/resize/handler.rs:84-111 | A follower got its leader's own result if the leader finished and the synthetic failure otherwise; all followers of a channel got the same. |
| `SingleFlight.OkMeansUploaded` | src/services/resize/handler.rs:277-294 | Whoever returns a URL returns that of its own key, and that key has been uploaded. |
| `SingleFlight.OneWorkPerKey` | src/services/resize/handler.rs:205-215 | Two callers working on one key are the same caller. |
| `SingleFlight.LateWorkCheckedEarly` | src/services/resize/handler.rs:183-215 | If work starts after an upload of its key, that caller's cache check came before the upload or failed. |
| `SingleFlight.WorkMayRunTwice` | src/services/resize/handler.rs:183-233 | "Exactly one fetch" is not what the code gives: for every key there is a run that uploads it twice. |
| `SingleFlightOutcome.OutcomeReachesAll` | src/services/resize/handler.rs:67-113 | However the work of a leader ends (it returns, it fails with some error, it is cancelled), every continuation delivers that: the leader, if it settles, returns its own result or, only if cancelled, nothing; the channel gets that one message, or the synthetic failure after a cancellation; and every follower that settles on the channel returns it. |
| `SingleFlightOutcome.FinishedReturnsOutcome` | src/services/resize/handler.rs:84-86 | A leader with an outcome, success or error, returns that very outcome in every continuation in which it settles, and its channel holds it. |
| `SingleFlightOutcome.EveryOutcomeHasItsCause` | src/services/resize/handler.rs:177-245 | The converse over whole runs: a caller has an error only if its work failed with that text, has its URL only if its upload returned, and is cancelled only if the run cancels it. |
| `SingleFlightOutcome.AwaitPoints` | src/services/resize/handler.rs:177-245 | A future can be dropped in its cache check, in its receive and in its work, and nowhere else. |
| `SingleFlightOutcome.DroppedFollower` | src/services/resize/handler.rs:217-226 | A dropped caller that does not lead changes nothing but itself. |
| `SingleFlightRefetch.RunKeepsQuiet` | src/services/resize/handler.rs:183-233 | Once a key is stored and no caller of it is between its check and its upload, no run without a failed check of the key uploads it again. |
| `SingleFlightRefetch.UploadedAgainIff` | src/services/resize/handler.rs:183-233 | The exact condition: in any reachable state a stored key can be uploaded again without a failed check of it if and only if some caller of it is past its check and short of its upload. |
| `SingleFlightRefetch.FailedCheckAllowsUpload` | src/services/resize/handler.rs:194-197 | From every reachable state, one more caller whose cache check fails can upload the key again. |
| `SingleFlightRefetch.FailedCheckUploadsTwice` | src/services/resize/handler.rs:194-197 | The run: a key is uploaded, a caller checks after that with an error, and uploads it again. |
| `SingleFlight.ResizeService.CheckCache` | src/services/resize/handler.rs:183-198 | The cache check takes exactly the hit, miss or error step. |
| `SingleFlight.ResizeService.Join` | src/services/resize/handler.rs:205-232 | The map entry: subscribe to the channel there, or insert a fresh one and lead; one atomic step. |
| `SingleFlight.ResizeService.Advance` | src/services/resize/handler.rs:251-295 | Download, process, upload and return, one step at a time. |
| `SingleFlight.ResizeService.Fail` | src/services/resize/handler.rs:254-285 | Any stage of the work may fail, with the error kept for the guard. |
| `SingleFlight.ResizeService.FinishGuard` | src/services/resize/handler.rs:84-86 | The guard records the result. |
| `SingleFlight.ResizeService.RemoveEntry` | src/services/resize/handler.rs:89-107 | First half of the drop: the entry is removed and the recorded or synthetic result taken. |
| `SingleFlight.ResizeService.Broadcast` | src/services/resize/handler.rs:108-112 | Second half of the drop: the message is sent and the channel closes. |
| `SingleFlight.ResizeService.Resolve` | src/services/resize/handler.rs:217-226 | A follower receives the message, or an error when there is none to receive. |
| `SingleFlight.ResizeService.Abort` | src/services/resize/handler.rs:89-107 | A future dropped at an await point: a leader falls into its guard, anyone else just goes. |
| `Params.EnumerationsReadBack` | src/models/params.rs:45-148 | Format, resize type and anchor texts read back as the value they were printed from. |
| `Params.EnumerationTexts` | src/models/params.rs:45-148 | Of all texts, exactly these name a format or a resize type, `jpeg` and the empty type included. |
| `Params.AnchorTexts` | src/models/params.rs:45-148 | Of all texts, exactly nine name an anchor, and which. |
| `UrlOptions.Parse` | src/modules/url/options.rs:213-604 | The loop over the segments computes the fold: the first segment that does not decode is the error, and the crop is resolved after the last. |
| `UrlOverride.LastSegmentWins` | src/modules/url/options.rs:213-604 | Of any accepted list, every field (each slot of `fq`, `jpgo`, `fl` and `wm` one of its own) holds what the last segment that sets it gave, and its default, written out, if none does. The crop, which is resolved later, is the subject of CropTakesFinalGravity. |
| `UrlOverride.LastSetWins` | src/modules/url/options.rs:213-604 | The same for a list of decoded segments, the crop dimensions included. |
| `UrlOverride.LaterOverrides` | src/modules/url/options.rs:213-604 | A segment that sets a field overrides everything in front of it, and is overridden only by later ones that set the field. |
| `UrlGrammar.CodeTexts` | src/modules/url/options.rs:228-599 | The first half of the 28 codes: each is this text and no other. |
| `UrlGrammar.MoreCodeTexts` | src/modules/url/options.rs:228-599 | The second half. |
| `UrlGrammar.CompressionTexts` | src/modules/url/options.rs:305-322 | Only `lossless` and `lossy` are WebP compressions, and which is which. |
| `UrlGrammar.BoundedNumbers` | src/modules/url/options.rs:701-713 | A bounded number is exactly a decimal numeral, with a plus sign or not, of a value up to the maximum. |
| `UrlGrammar.Dimensions` | src/modules/url/options.rs:619-625 | The texts that read as a dimension or a number of bytes, and as which, with the 32-bit and 64-bit bounds. |
| `UrlGrammar.SignedIntegers` | src/modules/url/options.rs:902-916 | The texts that read as a 32-bit integer of either sign, and as which. |
| `UrlGrammar.HexColors` | src/modules/url/options.rs:776-814 | A hex colour is exactly three or six hex digits of either case; six are red, green and blue in that order. |
| `UrlGrammar.Backgrounds` | src/modules/url/options.rs:760-773 | A background is exactly a hex colour or three components up to 255. |
| `UrlGrammar.CropDimensions` | src/modules/url/options.rs:820-840 | What is no number or is out of range is refused; otherwise the size alone decides between full, relative and absolute. |
| `UrlGrammar.Gravities` | src/modules/url/options.rs:854-890 | A gravity is exactly one anchor, or `fp` and two numbers of the unit interval, in that order. |
| `UrlGrammar.FormatQualities` | src/modules/url/options.rs:261-293 | `fq` takes exactly lists of pairs of `jpg`, `jpeg` or `webp` with a quality up to 100, and each format gets the quality of its last pair. |
| `UrlGrammar.MissingIsBlank` | src/modules/url/options.rs:644-670 | For every code with optional slots, a slot missing at the end means the same as a blank one. |
| `UrlGrammar.BlankTrimSlots` | src/modules/url/options.rs:1013-1057 | A blank flag of a trim is false and a blank colour is none. |
| `UrlGrammar.SegmentErrors` | src/modules/url/options.rs:593-605 | A segment with an unknown code is refused under that code, one with bad arguments as a whole. |
| `UrlGrammar.FirstErrorIsReported` | src/modules/url/options.rs:213-604 | A list is refused with an error exactly when it is that of its first segment that does not decode. |
| `UrlOrder.AssignElsewhere` | src/modules/url/options.rs:228-593 | A segment touches only the fields its code owns. |
| `UrlOrder.AssignOwned` | src/modules/url/options.rs:228-593 | What a segment makes of its own fields depends on those fields only, partially overriding codes included. |
| `UrlOrder.OwnedIsAll` | src/modules/url/options.rs:19-150 | The 28 codes own every field between them. |
| `UrlOrder.AssignAllUpToOrder` | src/modules/url/options.rs:213-604 | Updates with the same order within each code give the same options. |
| `UrlOrder.ParseUpToOrder` | src/modules/url/options.rs:213-604 | Any reordering of the segments that keeps the order within each code parses exactly when the original does, to the same options. |
| `UrlOrder.NeighboursCommute` | src/modules/url/options.rs:428-467 | Two neighbouring segments of different codes, `c` and `gr` among them, change places without effect, anywhere in any list. |
| `UrlPrint.ReadsAngle` | src/modules/url/options.rs:902-916 | A printed angle of 0, 90, 180 or 270 reads back. |
| `UrlPrint.ReadsCropDimension` | src/modules/url/options.rs:820-840 | A printed crop dimension reads back, and holds no separator. |
| `UrlPrint.ReadsGravity` | src/modules/url/options.rs:854-890 | Printed gravity tokens read back, and hold no separator. |
| `UrlPrint.DecodesFormatQuality` | src/modules/url/options.rs:261-293 | A printed `fq` list reads back as the qualities it sets, absent ones left alone. |
| `UrlPrint.DecodesTrim` | src/modules/url/options.rs:1013-1057 | A printed trim reads back, threshold, colour and both flags. |
| `UrlPrint.DecodesArgs` | src/modules/url/options.rs:228-593 | For every code, the printed arguments of a valid update decode to that update. |
| `UrlPrint.DecodesPrinted` | src/modules/url/options.rs:224-593 | The same for the whole segment text, code included. |
| `UrlShorthands.PaddingCascade` | src/modules/url/options.rs:970-999 | With any later slot blank or missing: right and bottom follow top, left follows right. |
| `UrlShorthands.HexShorthand` | src/modules/url/options.rs:776-814 | Three characters mean what six with each one doubled mean, also when neither is a colour. |
| `UrlShorthands.BackgroundForms` | src/modules/url/options.rs:760-773 | The hex form and the decimal form of a background are the same colour. |
| `UrlShorthands.AngleNormalised` | src/modules/url/options.rs:902-916 | A 32-bit angle of either sign is accepted exactly when 90 divides it, and becomes the one of 0 to 359 equal to it modulo 360. |
| `UrlShorthands.ZeroIsUnset` | src/modules/url/options.rs:619-625 | For `mw`, `mh`, `mb` and both slots of `rs`, exactly the texts that read as 0 (any number of zeros, a plus sign or not) mean unset. |
| `UrlShorthands.ZeroTakesBack` | src/modules/url/options.rs:537-544 | For each of `mw`, `mh` and `mb`, unset takes back what an earlier segment of the code set, and nothing else. |
| `UrlShorthands.ZoomShorthand` | src/modules/url/options.rs:921-936 | One zoom factor is that factor twice, refusals included. |
| `UrlShorthands.Booleans` | src/modules/url/options.rs:737-746 | Of all texts exactly `1` and `true` mean true, and `0` and `false` mean false. |
| `UrlShorthands.FormatSynonym` | src/modules/url/options.rs:268-273 | In any list of pairs, calling every `jpeg` `jpg` changes neither success nor result. |
| `UrlShorthands.CropTakesFinalGravity` | src/modules/url/options.rs:435-467 | The crop is the last `c` segment's; without a gravity of its own it has the gravity the options end up with, wherever `gr` stands. |
| `UrlShorthands.ArityHolds` | src/modules/url/options.rs:607-615 | A segment that decodes has a number of arguments its code allows. |
| `UrlNormalForm.ParseOfPrint` | src/modules/url/options.rs:213-604 | Printing any well-formed options as segments and parsing them gives the options back. |
| `UrlNormalForm.ParsedIsWellFormed` | src/modules/url/options.rs:213-604 | Everything that parses is well-formed: ranges, angles, positive factors, colours in a byte, unit focus points. |
| `UrlNormalForm.NormalForm` | src/modules/url/options.rs:213-604 | Print-after-parse parses to the same options, and is equal for two accepted lists exactly when they mean the same. |
| `UrlPresets.ParseRegistry` | src/modules/url/presets.rs:76-126 | The loop over the entries, inserting into the map, computes the functional definition with its first error. |
| `UrlPresets.SpacesAre` | src/modules/url/presets.rs:76-126 | What trimming drops: exactly the 25 characters with the property White_Space. |
| `UrlPresets.RegistryIsSound` | src/modules/url/presets.rs:66-75 | A registry that parses has trimmed names without `=`, at least one segment each, none blank, none a `pr`; so no preset names another, and with colons everywhere it can be inlined. |
| `UrlPresets.EntryReadsBack` | src/modules/url/presets.rs:79-118 | A written entry reads as its name and segments, whatever white space and blank segments were put in. |
| `UrlPresets.RegistryReadsBack` | src/modules/url/presets.rs:76-126 | A written registry, blanks and white space included, parses exactly when no name repeats, to the map its entries define. |
| `UrlPresets.ColonlessIsConfigurable` | src/modules/url/presets.rs:76-126 | The registry text `p=plain` parses, to the preset map for which expansion and inlining differ. |
| `UrlPresets.AllowlistReadsBack` | src/modules/url/presets.rs:171-195 | A written allowlist allows exactly the codes it lists, and everything when it lists none. |
| `UrlRequest.SplitPathLosesNothing` | src/modules/url/mod.rs:76-89 | Signature plus signed path is the path without its leading slash, the signature has no slash, and the segments joined are the signed path. |
| `UrlRequest.SplitPathWhen` | src/modules/url/mod.rs:79-82 | A path splits exactly when its first slash after the leading one is not its last character. |
| `UrlRequest.SplicePresets` | src/modules/url/mod.rs:143-149 | The inner loop appends the segments of the named presets in order, or reports the first unknown name. |
| `UrlRequest.Expand` | src/modules/url/mod.rs:137-153 | The outer loop computes the functional expansion, with the allowlist checked on direct segments only. |
| `UrlRequest.ParseWithConfig` | src/modules/url/mod.rs:119-159 | Boundary, expansion, options, source, in that order and with that order of errors. |
| `UrlRequest.ParsePassed` | src/modules/url/mod.rs:119-159 | A request that the configuration passes parses, under any allowlist, as the segments of the preset named `default`, if there is one, then its own with every `pr` replaced. |
| `UrlRequest.DefaultIsPrepended` | src/modules/url/mod.rs:115-134 | Configuring a preset named `default` is writing its segments in front of the options of every request and taking it out of the registry. |
| `UrlRequest.ExpansionRefusal` | src/modules/url/mod.rs:137-153 | A refused expansion is refused for a segment all of whose predecessors pass: for its code, if that is not allowed, or else for the first unknown name in it. |
| `UrlRequest.BoundaryIsFirst` | src/modules/url/mod.rs:126-129 | The source starts at the first segment that is `plain` or has no colon. |
| `UrlRequest.ExpansionWrites` | src/modules/url/mod.rs:137-153 | The expansion succeeds exactly when every named preset exists and every direct code is allowed, and is then the text with each `pr` segment replaced. |
| `UrlRequest.ExpansionIsInlining` | src/modules/url/mod.rs:102-159 | Parsing with presets equals parsing the URL with them written out in it, if every segment written out has a colon and is no `pr`; an unknown name is refused as such. |
| `UrlRequest.InliningIff` | src/modules/url/mod.rs:102-159 | Exactly when the two parses agree, refusals included: every segment written out has a colon, or one before the first without does not decode, or all decode and the source is invalid. |
| `UrlRequest.AcceptedInliningIff` | src/modules/url/mod.rs:102-159 | Where either parse succeeds, they agree if and only if every segment written out is a direct option with a colon. |
| `UrlRequest.InlinableIsDirect` | src/modules/url/presets.rs:66-75 | Presets that the configuration accepts and whose segments have colons meet that condition in every request. |
| `UrlRequest.InliningKeepsBoundary` | src/modules/url/mod.rs:126-129 | Written out, the options end where they did before exactly when every segment written out has a colon. |
| `UrlRequest.ColonlessPresetIsRefused` | src/modules/url/mod.rs:137-156 | A request that expands to a segment without a colon, other than `fl`, is refused for its options. |
| `UrlRequest.InliningNeedsColons` | src/modules/url/mod.rs:126-129 | So without the colon the equality can fail: a preset `plain` is refused, but written out it starts a source. |
| `UrlRequest.ExtensionSplits` | src/modules/url/source.rs:84-97 | Whatever stands before it, dots included, a known extension is split off at the last dot. |
| `UrlRequest.SourceReadsBack` | src/modules/url/source.rs:28-77 | The plain and the base64 form of a source both read back, and are found right behind the options. |
| `UrlRequest.PlainAcceptedExactly` | src/modules/url/source.rs:36-58 | A plain source is accepted as a URL and a format exactly when its segments joined are a text, a dot and an extension naming the format, and the text decodes to that URL, which is not empty. |
| `UrlRequest.EncodedAcceptedExactly` | src/modules/url/source.rs:60-82 | The same for an encoded source, which must be one segment. |
| `UrlRequest.SourceErrors` | src/modules/url/source.rs:28-82 | A source is refused as empty exactly when there are no segments, only `plain`, or a well-formed text for the empty URL; every other refusal is for an invalid source. |
| `UrlRequest.RenderedPathSplits` | src/modules/url/mod.rs:76-89 | A rendered path splits into the signature, the signed path and the segments it was made of, and the boundary search finds the source. |
| `UrlRequest.RequestRoundTrip` | src/modules/url/mod.rs:76-159 | For any signature, well-formed options and source, the rendered path splits and parses to exactly those. |
| `UrlRequest.IntoQueryKeeps` | src/modules/url/mod.rs:169-228 | The query keeps everything of the request but the four filled-in defaults and the slots of a watermark without opacity: the request is read back from it, and two requests become one query exactly when they agree up to that. |
| `UrlRequest.QueryUpToOrder` | src/modules/url/mod.rs:119-228 | Under any presets and allowlist, requests whose options written out differ only in order across codes become the same query, or are both refused at the same stage. |
| `UrlRequest.DirectReordering` | src/modules/url/mod.rs:119-159 | Reorderings of segments that name no preset, keeping the order within each code, are of that kind under every default preset. |
| `CacheKey.Utf8Injective` | src/services/cache/handler.rs:176-179 | Different texts have different UTF-8 bytes. |
| `CacheKey.Utf8StandsFor` | src/services/cache/handler.rs:176-179 | The bytes of a character decode to it by section 3 of RFC 3629, in the shortest form. |
| `CacheKey.VersionFirst` | src/services/cache/handler.rs:176-181 | The stream starts with version 11. |
| `CacheKey.MissingTexts` | src/services/cache/handler.rs:182-184 | Every missing field or group reads `None` in ASCII. |
| `CacheKey.PresentTexts` | src/services/cache/handler.rs:226-230 | Switches read `true` and `false` in ASCII, and a quality is its one byte. |
| `CacheKey.Hasher.UpdateField` | src/services/cache/handler.rs:419-422 | A field is fed as its 32-bit big-endian length and its bytes; the bytes fed remain the encoding of the list of fields. |
| `CacheKey.FeedKey` | src/services/cache/handler.rs:176-411 | Field by field, `generate_key` feeds exactly the stream of the query. |
| `CacheKey.PrefixFree` | src/services/cache/handler.rs:413-422 | A length-prefixed field followed by anything determines the field and what follows. |
| `CacheKey.EncodeFieldsInjective` | src/services/cache/handler.rs:413-422 | The encoding determines the list of fields, lists of different lengths included, for fields under 2 to the 32 bytes. |
| `CacheKey.PrefixBound` | src/services/cache/handler.rs:419-422 | The exact bound: the encoding determines the lists of fields of at most n bytes if and only if n is below 2 to the 32. |
| `CacheKey.GravityTexts` | src/models/params.rs:182-200 | Gravity texts determine the gravity, focus points included. |
| `CacheKey.CropTexts` | src/models/params.rs:215-229 | Crop dimension texts determine the dimension: `full`, `abs:` and `rel:` do not collide. |
| `CacheKey.CropGroup` | src/services/cache/handler.rs:289-309 | One field without a crop or three with one: which, and which crop, is determined whatever follows. |
| `CacheKey.TrimGroup` | src/services/cache/handler.rs:326-340 | The same for one or four fields of a trim. |
| `CacheKey.WatermarkGroup` | src/services/cache/handler.rs:352-381 | The same for one or nine fields of a watermark, up to a URL that spells `None`. |
| `CacheKey.FieldsInjective` | src/services/cache/handler.rs:176-411 | The fields, in spite of groups of different sizes, determine the query up to the two folds. |
| `CacheKey.FieldsOfCanonical` | src/services/cache/handler.rs:424-440 | The two folds do not show in the fields. |
| `CacheKey.SameStreamIff` | src/services/cache/handler.rs:176-440 | Two queries feed the hash the same bytes exactly when they agree on every field up to an inactive blur and a watermark URL `None`. |
| `CacheKeyBound.LongUrlsCollide` | src/services/cache/handler.rs:176-422 | With URLs of 2 to the 32 bytes, two queries of different meaning feed the same bytes: what stands between the URLs of the one is part of a URL of the other. |
| `CacheKeyBound.SomeQueriesCollide` | src/services/cache/handler.rs:176-422 | Such queries exist, in the ranges of the source's fields, for every library that shows 1 in under 128 characters. |
| `RequestKey.SameKeyIff` | src/services/cache/handler.rs:176-411 | For any two accepted requests, each under presets and an allowlist of its own: same bytes exactly when same query up to the folds; the ranges of the fields are what the parser guarantees. |
| `RequestKey.ReorderedRequestSharesKey` | src/modules/url/mod.rs:119-228 | Under any presets and allowlist, such a reordering leaves the key bytes as they were. |
| `CivilDate.YearOfEraBounds` | src/modules/utils/date.rs:48-60 | The closed-form year of the era is in 0 to 399 and is the year whose days contain the day. |
| `CivilDate.MonthBounds` | src/modules/utils/date.rs:53-57 | The closed-form month index is in 0 to 11 and is the month whose days contain the day. |
| `CivilDate.DaysOfCivil` | src/modules/utils/date.rs:48-60 | For every integer day, negative ones included, the result is a Gregorian date, and counting its days gives the day back. |
| `CivilDate.CivilOfDays` | src/modules/utils/date.rs:48-60 | The other way round: every Gregorian date is what its day count converts to. |
| `CivilDate.DaysOfNextDay` | src/modules/utils/date.rs:48-60 | The day count of a date's calendar successor (leap rules 4/100/400) is one more. |
| `CivilDate.CivilOfNextDay` | src/modules/utils/date.rs:48-60 | The closed form commutes with the day-by-day calendar. |
| `CivilDate.Epoch` | src/modules/utils/date.rs:42-48 | Day 0 is 1970-01-01. |
| `CivilDate.ParseOfFormat` | src/modules/utils/date.rs:22-40 | An independent reader of section 7.1.1.1 of RFC 7231, with its own month and day names and a weekday counted day by day from Thursday 1970-01-01, reads the formatted time as its whole seconds since the epoch, and times before the epoch as the epoch. |
| `CivilDate.WeekdayAdvances` | src/modules/utils/date.rs:14-15 | The weekday of that calendar: the next day has the next name, in both directions from the epoch. |
| `CivilDate.WeekdayNames` | src/modules/utils/date.rs:33 | The printed day name of any day is that of its weekday in the calendar. |
| `CivilDate.MonthNames` | src/modules/utils/date.rs:15-17 | Month names are read by their own literal table as the months they were printed for. |
| `IpLiteral.ParsePrintedAddress` | src/services/image/source_guard.rs:292-331 | Every 32-bit address, in 1 to 4 parts, each in decimal, octal with leading zeros or hex, reads back. |
| `IpLiteral.AssembleIsInverse` | src/services/image/source_guard.rs:309-331 | The parts assemble to an address exactly when they are the parts of that address, so nothing else is accepted for it. |
| `IpLiteral.AcceptedExactly` | src/services/image/source_guard.rs:270-331 | A host reads as an address exactly when its parts, read one by one, are that address's parts. |
| `IpLiteral.FlexibleExactly` | src/services/image/source_guard.rs:274-288 | A part reads as a number below 2 to the 64 exactly when it is its hexadecimal form behind `0x` or `0X`, its octal form behind a leading zero, or its decimal form. |
| `IpLiteral.StrictExactly` | src/services/image/source_guard.rs:333-339 | The strict parser accepts exactly the four plain decimal numbers of an address. |
| `IpLiteral.V6Exactly` | src/services/image/source_guard.rs:333-339 | A host reads as an IPv6 address exactly when the IPv6 parser takes it and it is no dotted quad. |
| `Text.DigitTexts` | src/services/image/source_guard.rs:280-288 | Digits in radix 8, 10 and 16, with both cases of the letters, by their literal values. |
| `Text.UnsignedExactly` | src/services/image/source_guard.rs:280-288 | An integer parse succeeds exactly on digits with one plus sign or none in front, of a value below the bound. |
| `IpLiteral.StrictAgreesWithFlexible` | src/services/image/source_guard.rs:333-339 | Whatever strict dotted-quad parsing accepts, the flexible parser reads as the same address. |
| `IpLiteral.LiteralOrderIrrelevant` | src/services/image/source_guard.rs:333-339 | So trying the strict parser first changes nothing. |
| `FixtureCache.StepKeepsInvariant` | benches/fixtures.rs:68-104 | Every step of every call (read, write in parts, rename that may fail, give up) keeps the file-system invariant. |
| `FixtureCache.RunKeepsInvariant` | benches/fixtures.rs:68-104 | So does every interleaving of any number of calls. |
| `FixtureCache.FinalIsAbsentOrComplete` | benches/fixtures.rs:68-104 | The final path is absent or holds the complete payload at every moment. |
| `FixtureCache.EveryCallReturnsPayload` | benches/fixtures.rs:68-104 | Every call that finishes returns exactly the generated bytes. |
| `FixtureCache.TemporaryIsRemoved` | benches/fixtures.rs:96-99 | A call that has ended has left no temporary file, unless its write failed, in every interleaving. |
| `FixtureCache.RunKeepsOthers` | benches/fixtures.rs:68-104 | No run removes the fixture once it is there, or touches any other file of the directory. |
| `FixtureCache.PiecesOfAnySize` | benches/fixtures.rs:54-60 | Reads and writes go in pieces of any size, so a reader can meet a file half written if the protocol lets it. |
| `FixtureCache.CallsRace` | benches/fixtures.rs:50-67 | The race does happen in the model: one call is part of the way through its file when another finds no fixture, and it still ends with the fixture complete. |
| `FixtureCache.CacheDirectory.Open` | benches/fixtures.rs:72-74 | Opening the final path: the inode it names at that moment, or a miss. |
| `FixtureCache.CacheDirectory.Read` | benches/fixtures.rs:72-74 | One piece of a read, taken from the file as it is at that moment, or its end. |
| `FixtureCache.CacheDirectory.Create` | benches/fixtures.rs:78-92 | The temporary file of this call, new or truncated, under a name no other call has. |
| `FixtureCache.CacheDirectory.Write` | benches/fixtures.rs:92 | One piece of the payload, or the end of the write. |
| `FixtureCache.CacheDirectory.RenameTemp` | benches/fixtures.rs:96 | The directory entry of the final path is repointed and the temporary name gone, in one step. |
| `FixtureCache.CacheDirectory.Remove` | benches/fixtures.rs:99 | The temporary name is removed, if it is still there. |
| `FixtureCache.CacheDirectory.GiveUpReading` | benches/fixtures.rs:72-74 | A failed open or read: the call goes on to generate. |
| `FixtureCache.CacheDirectory.GiveUpWriting` | benches/fixtures.rs:78-92 | A failed directory or write: the call returns what it generated, and the temporary file stays. |
| `FixtureCache.CacheDirectory.GiveUpRenaming` | benches/fixtures.rs:96-99 | A failed rename: the call goes on to the removal. |
| `FixtureCache.CacheDirectory.Cached` | benches/fixtures.rs:68-104 | A whole call, in pieces of any size, with any system call failing, while the others stand still in any state of theirs: it ends and returns the payload; the fixture stays complete if it was there, and is complete if nothing failed. Interleavings are the subject of EveryCallReturnsPayload. |
| `MemoryStore.InMemoryStorage.UploadImageWithTtl` | src/services/storage/in_memory_handler.rs:68-82 | The entry is replaced with its data and deadline; an overflowing deadline is no deadline. |
| `MemoryStore.InMemoryStorage.CheckCached` | src/services/storage/in_memory_handler.rs:84-91 | Whether there is an entry that has not expired; the store is not changed. |
| `MemoryStore.InMemoryStorage.Get` | src/services/storage/in_memory_handler.rs:93-105 | The data of an entry that has not expired; the store is not changed. |
| `MemoryStore.InMemoryStorage.Remove` | src/services/storage/in_memory_handler.rs:107-112 | The entry is gone, present or not. |
| `MemoryStore.LazyRefinesEager` | src/services/storage/in_memory_handler.rs:68-112 | From any corresponding states and for any requests under a non-decreasing clock, the lazy store replies as the one that evicts on time. |
| `MemoryStore.StoreRepliesAsEagerStore` | src/services/storage/in_memory_handler.rs:68-112 | In particular from the empty store. |
| `MemoryStore.CheckIsReadability` | src/services/storage/core.rs:45-54 | `check_cache` is true exactly when `get_image` succeeds at that time. |
| `MemoryStore.DeleteIsIdempotent` | src/services/storage/core.rs:56-60 | Deleting twice is deleting once, and nothing is read afterwards. |
| `QualitySearch.LowestQuality` | examples/codec_report.rs:186-202 | For any predicate the bisection ends without wrap-around at a quality that meets the target and whose predecessor does not; nothing is found only if 100 fails; for a monotone predicate it is the least one. |

## Left out

- Image decoding, encoding and pixel operations other than the eight orientations: work steps that succeed or fail in the protocol.
- SHA-256, HMAC, base64 and percent-decoding: library code; the model stops at the bytes fed to the hash.
- The final cache-key text (sub-path, digest, extension): formatting around the digest.
- IEEE floating point: abstract, see above; `positive` and `negative` are only predicates.
- Error texts: an option error keeps the segment, not the reason, and a source error only its kind; results are compared up to that.
- The choice of the first error under reordering: two orders fail together, but may name different segments.
- `parse_watermark` writing fields before a later slot fails: the options are discarded with the error, so an update value stands for the whole segment.
- The watermark position type: one anchor type stands for it and for gravity, with the two texts kept apart.
- Integer widths beyond the inputs: `usize` is taken as 64 bits, file lengths stay below 2 to the 64; `civil_from_days` is on unbounded integers, so the overflow of an `i64` day count near its limits is not modelled.
- Bitwise `|` of disjoint bit ranges: written as sums.
- A bound on the work of `iloc`: zero-width extents consume no bytes, so the model proves termination of each call, not linear work.
- Panics inside the leader: the guard sees them like a cancellation, and they are modelled as one.
- Deletes, expiry and other writers of the store during the protocol: with the constructors' absent TTL an upload stays stored.
- Several uploads of one key by other services: not part of this model.
- The memory orders and wake-ups of the runtime: steps are atomic, as the map's shard lock and the channel make them.
- Lock poisoning in the in-memory store, the moment between reading the clock and taking the lock in an upload, and the content type, which no reply shows.
- The stale-directory clean-up of the fixture cache, and unreadable files: reads see what the directory entry names.
- Local file-system and S3 storage, DNS resolution, blocked ranges, HTTP clients, router, configuration loading, signing, negotiation, metrics, tracing: I/O and plumbing.
- `resize_batch` and `download`: they only call the modelled operations.
- Lower-casing of the format in the cache key: format texts are lower case already.
- The benchmarks and examples other than `cached`, `oriented` and the bisection: drivers and fixtures.
