# A verified model of the gofakes3 storage engine

gofakes3 is a fake S3 server written in Go. This project models the part of it that holds
state: the in-memory versioned object store, its two paginated listings, the multipart
uploader, and the codecs that feed them (chunked uploads, version ids, ranges, listing
tokens). Everything is stated in Dafny and proved by its verifier;
`dafny verify dfyconfig.toml` checks the whole.

Code that updates state in place is modelled by classes and methods with loops
(`Backends.Backend`, `Buckets.Bucket`, `Uploaders.Uploader`, the readers, the cursors, the
listing loops). Each of them is tied by its contract to a function on values, and the laws
are proved about those functions:

| files | what they model |
|---|---|
| `Chunks`, `ChunkReads`, `Readers` | the SigV4 chunk decoder, the hashing reader, exact-length reads |
| `Numerals`, `Encodings`, `BlockCodec`, `VersionIds` | numerals, base32hex, base64url, hexadecimal, the version-id generator |
| `SortedIndex` | the skiplist as a sorted map, its cursor, the cursor adapter |
| `Prefixes` | the prefix/delimiter matcher |
| `BucketModel`, `Buckets`, `Backends`, `BackendRuns`, `BucketWitnesses` | versioned objects, buckets, the backend, runs of requests, and runs that go wrong |
| `Listing`, `ListingWalks`, `ListingLaws`, `BucketListings`, `Tokens` | object listings, walks along their pages, the laws of both, the loop, both listing protocols |
| `ReadingLaws` | what listings, reads and deletes say of the same bucket |
| `VersionListing`, `VersionWalks`, `VersionMarkers` | version listings, their loops, and their markers |
| `Ranges` | range headers and the slices they select |
| `ObjectUploads` | creating an object from a request's body |
| `BackendCalls`, `Serving` | what calls on a backend come to, and the class serving them |
| `UploadHistories`, `ServerModel`, `UploadServing` | the parts accepted for each upload, an uploader and its backend together over any calls, and the classes serving them |
| `UploadIndex`, `UploadParts`, `Uploaders`, `UploadRuns`, `UploadLaws` | multipart uploads, their parts, their life over runs |
| `UploadListing`, `UploadWalks`, `UploadPages`, `UploadMarkers`, `UploadWitnesses` | the listing of multipart uploads, its loop, its pages, its markers, and examples of wrong pages |
| `Basics`, `Order`, `Joining` | results, the order of strings, sequences joined from parts |

Bytes are characters below 256. A Go panic (a nil dereference, an index out of range) is
the error value `Panic`. MD5 is an arbitrary function to sixteen bytes, the splitmix64 step
an arbitrary function to eight.

## Where the code departs from its documentation

The model follows the code, and says exactly when it does what it is for.

- The chunk decoder subtracts the wanted size before a read that may be short
  (`chunk.go:27`). With buffers of one size over a reader that hands out at most `c` bytes at
  a time, it is right for all streams of a payload length exactly when the buffer is no
  larger than `c` or at least as large as the payload (`FaithfulExactly`). An upload is read
  with a buffer of the declared length and then, looking for more, with buffers of 512 bytes
  and up. Over such a reader it comes to what it should, for all streams of a payload length,
  exactly when the declared length is no less than the payload's, or it and every buffer
  that does not take all that is left are no larger than `c` (`DeclaredReadsExactly`,
  `UploadsRightExactly`). Otherwise it may end in an error, or store a part of the payload
  under a declared length that is not the payload's (`MayStoreOther`).
- `put` while versioning is suspended drops the current version, even one stored while it
  was enabled (`PutLosesExactly`; a run in which it happens: `SuspendedPutLoses`).
- Two requests, and no others, leave a key with archived versions and no current one
  (`BeheadedExactly`, `BeheadedRuns`); listing, reading or storing such a key then panics,
  storing because it looks up the metadata to be merged.
- A delimiter of several characters does not do what it is documented for exactly when an
  occurrence of it in the key starts inside the last part of the prefix (`MatchExactly`,
  `LongDelimitersSplitThePrefix`).
- A common prefix that is the empty string is shown only after another one. The pages of a
  listing that shows it lack it exactly when no single page has both a key rolled up into it
  and an earlier key rolled up into another prefix (`EmptyPartExactly`, `EmptyPrefixExactly`,
  `EmptyPrefixMayBeLost`).
- A browser upload can store an object under the empty key (`gofakes3.go:588-592`). If such
  a bucket has further keys and is listed one entry a page, the first page names the empty
  key as the next marker, which means the start, and so comes back for ever. In all other
  cases the pages make up the listing (`PagesMakeTheListing`, `EmptyKeySticks`).
- In the pages of a multipart listing a common prefix is missing exactly when, for each key
  rolled up into it, the number of uploads listed before is a positive multiple of the page
  size (`PagesGivePrefixesExactly`, `PrefixesMayBeLost`). A limit below one acts as one.
- The page after a multipart marker is right (its uploads, `IsTruncated` and the next
  markers are those of the uploads the marker does not pass over) exactly under the
  conditions of `MarkersExactly`. A marker that names a live upload of its key always leads
  to a right page (`LiveMarkersHold`). A key marker without an upload id is inclusive
  (`KeyMarkersMayFail`). A marker above every key gives an empty page whose next markers
  name the first upload of all (`HighMarkersMayFail`). A marker whose upload is gone gives
  an empty page that is not truncated, whatever is left (`GoneMarkersMayFail`).
- A version listing after a marker that names a version shows what follows that version
  exactly if the version is archived; the current version is listed again
  (`VersionMarkersExactly`). The version-id marker is applied to the first key that is
  listed, whichever that is. A key marker above all keys is answered by an empty page that
  says it is truncated, if the bucket has any key (`KeyMarkerExactly`).
- Parts listed after a part-number marker are numbered relative to it, so a page of parts is
  right exactly if it starts from zero or nothing is left (`PartPagesExactly`); a marker
  beyond the last part panics.
- The order of the parts in a complete request is never refused, because the ids are sorted
  before it is asked whether they are (`AnyOrderAccepted`).
- An end of 2^63-1 in a range header makes the arithmetic overflow (`SlicesRightExactly`).
- Version ids stop sorting in issue order when the counter outgrows thirty digits
  (`OrderEndsAtLimit`). The size argument of the generator's constructor is ignored.

## Model

| member | source | states |
|---|---|---|
| `Chunks.DecodeUndoesFraming` | chunk.go:23-71 | decoding any framed list of chunks gives exactly their payloads, then end of file |
| `Chunks.BlanksSkipped` | chunk.go:57-61 | blanks before a chunk's size do not matter |
| `ChunkReads.SignedStreamsDecode` | chunk.go:57-66 | a stream of chunks as clients sign them, "chunk-signature=" and 64 characters after each size, decodes to their data |
| `ChunkReads.AnyBuffersDecode` | chunk.go:23-71 | whatever positive buffer sizes the reads use, they deliver the payloads of a framed stream, as long as the source fills each request |
| `ChunkReads.CutStreamDelivers` | chunk.go:23-71 | reads of a stream cut short anywhere deliver a prefix of its payload |
| `ChunkReads.SafeReadDelivers` | chunk.go:23-71 | one read, in a position where short reads do no harm, delivers the next bytes of the stream and leaves the rest to be delivered |
| `ChunkReads.FaithfulExactly` | chunk.go:24-43 | for which buffers the decoder is right on every stream of a payload length, over a source of short reads: if and only if the buffer fits the source's pieces or holds the whole payload |
| `ChunkReads.SmallPiecesBreak` | chunk.go:26-30 | otherwise there is a framed stream that is decoded wrongly |
| `Readers.ChunkedReader.Read` | chunk.go:23-71 | the resumable Read, with its fields, is the read function the laws are about, from any state |
| `ChunkReads.DeclaredReadsExactly` | chunk.go:23-71 | for which declared lengths, pieces and later buffers every stream of a payload length is read right, first for the declared length and then to its end, if and only if |
| `Readers.HashingReader.Read` | hash.go:54-78 | from any reader, all that passes through is hashed, an end of file comes only with the expected hash, and what is delivered is what the inner reader would have delivered |
| `Readers.ReadFull` | util.go:37-41 | over any source: the next bytes the reader has, as many as asked for, or all there are and the right error |
| `Readers.ReadAll` | util.go:37-58 | over any source: accepted exactly if the reader delivers the declared number of bytes and no more, and which bytes or which error otherwise |
| `VersionIds.VersionGenerator.Next` | backend/s3mem/versionid.go:28-67 | the id holds the next number, zero-padded, and the bytes after it, encoded; the buffer is reused |
| `VersionIds.VersionSource.NextVersion` | backend/s3mem/backend.go:568-572 | each id bears the next number, whatever the scratch buffer held before |
| `VersionIds.IdsSortInIssueOrder` | backend/s3mem/versionid.go:28-67 | below 10^30 ids sort in issue order whatever follows the counter |
| `VersionIds.OrderEndsAtLimit` | backend/s3mem/versionid.go:31-32 | the bound is sharp: the next id sorts below the one before it |
| `VersionIds.IssuedIdsAscend` | backend/s3mem/versionid.go:28-67 | consecutively numbered ids are an ascending sequence |
| `BlockCodec.EncodeKeepsOrder` | backend/s3mem/versionid.go:58-67 | base32hex keeps the byte order of equally long inputs (section 7 of RFC 4648) |
| `BlockCodec.Base64RoundTrip` | gofakes3.go:290 | base64url decoding undoes encoding, for every byte string (section 5 of RFC 4648) |
| `SortedIndex.SetSorted` | backend/s3mem/bucket.go:207-229 | setting a key keeps the index sorted and complete |
| `SortedIndex.DeleteSorted` | backend/s3mem/bucket.go:238-252 | deleting a key keeps it so and takes out one key |
| `SortedIndex.Cursor.Seek` | internal/goskipiter/iter.go:5-9 | a raw seek lands on the first key at or above the target, or stays where it was |
| `SortedIndex.Iterator.Seek` | internal/goskipiter/iter.go:55-62 | the walk goes on from the first key at or above the one sought |
| `SortedIndex.Iterator.Next` | internal/goskipiter/iter.go:22-31 | the adapter reports each key once and in order; only a failed seek is forgotten |
| `Prefixes.Match` | prefix.go:76-149 | the imperative matcher computes the split-based specification |
| `Prefixes.MatchExactly` | prefix.go:107-148 | for any non-empty delimiter, every key and prefix: exactly when it matches, the matched part, and when it is a common prefix |
| `Prefixes.NoDelimiterExactly` | prefix.go:77-95 | without a delimiter exactly the keys that start with the prefix match, character by character, none as a common prefix |
| `Prefixes.MatchIsOnePass` | prefix.go:107-148 | so for a delimiter of one character, in one pass over the key |
| `Prefixes.MatchOfPlainKeys` | prefix.go:107-148 | without leading delimiters: it matches if and only if the key starts with the prefix, and a common prefix is a proper part of the key |
| `Prefixes.LongDelimitersSplitThePrefix` | prefix.go:107-108 | a key that starts with the prefix and does not match, because its delimiter starts inside the prefix |
| `BucketModel.PutEffect` | backend/s3mem/bucket.go:207-229 | put adds its version and, unless versioning is enabled, drops the one it replaces; nothing else changes |
| `BucketModel.RemoveEffect` | backend/s3mem/bucket.go:231-252 | delete without an id adds a marker, a version with that flag and no body, and says so, or drops the current version, or does nothing |
| `BucketModel.MarkerHides` | backend/s3mem/bucket.go:231-252 | on a versioned bucket a delete makes the key unreadable, the marker is found by its id, and every earlier version by its own |
| `BucketModel.RemoveVersionEffect` | backend/s3mem/bucket.go:254-281 | delete with an id is removal from the map of versions and reports what it removed |
| `BucketModel.LookupIsMapLookup` | backend/s3mem/bucket.go:180-205 | objectVersion is lookup in that map |
| `BucketModel.StepKeepsInv` | backend/s3mem/bucket.go:163-281 | every request keeps archived ids below the current one, all ids distinct, and a version in every indexed object |
| `BucketModel.ReachableStatesOK` | backend/s3mem/bucket.go:163-281 | so it is in every reachable state of a bucket |
| `BucketModel.VersioningExactly` | backend/s3mem/bucket.go:163-169 | over any run: never versioned unless it was enabled, whether or not suspended, and else as it was set last |
| `BucketModel.EnabledRunKeeps` | backend/s3mem/bucket.go:207-252 | over any run of puts and deletes while versioning is enabled, what can be fetched by id stays so, unchanged |
| `BucketModel.PutLosesExactly` | backend/s3mem/bucket.go:217-228 | a put loses a version if and only if versioning is not enabled and there is a current one |
| `BucketModel.BeheadedExactly` | backend/s3mem/bucket.go:231-281 | which requests leave an object without a current version, if and only if |
| `BucketWitnesses.BeheadedRuns` | backend/s3mem/bucket.go:231-281 | two runs from a new bucket that do |
| `BucketWitnesses.SuspendedPutLoses` | backend/s3mem/bucket.go:217-228 | a run in which a put loses a version stored while versioning was enabled |
| `BucketModel.EmptyMeansNoVersions` | backend/s3mem/backend.go:159-161 | no object is indexed if and only if no version is left |
| `BucketModel.DeletesExactlyNamed` | backend/s3mem/backend.go:328-363 | deleting a list of versions removes exactly those, in any order |
| `BucketModel.DeletingEmptiesExactly` | backend/s3mem/backend.go:328-363 | it empties the bucket if and only if it names every version of every key |
| `Buckets.Bucket.Put` | backend/s3mem/bucket.go:207-229 | put in place does what the model says, under the next id |
| `Buckets.Bucket.Remove` | backend/s3mem/bucket.go:231-252 | rm in place; an id is minted exactly when a marker is made |
| `Buckets.Bucket.RemoveVersion` | backend/s3mem/bucket.go:254-281 | rmVersion in place |
| `Buckets.Bucket.ObjectVersion` | backend/s3mem/bucket.go:180-205 | objectVersion, for any id |
| `Backends.Backend.DeleteBucket` | backend/s3mem/backend.go:151-166 | deletes a bucket if and only if nothing is indexed in it |
| `Backends.Backend.GetObject` | backend/s3mem/backend.go:204-234 | the current version, its id shown on a versioned bucket only, ranges applied |
| `Backends.Backend.GetObjectVersion` | backend/s3mem/backend.go:397-419 | the version named, from the archive or the current one |
| `Backends.Backend.PutObject` | backend/s3mem/backend.go:236-277 | from any reader: what reading it for the declared length comes to is stored, under the generator's next id; on any error no bucket changes |
| `Backends.Backend.ListBucket` | backend/s3mem/backend.go:76-137 | the page of the bucket's state, or the error |
| `Backends.Backend.DeleteObject` | backend/s3mem/backend.go:283-293 | rm in the named bucket, a marker under the generator's next id; all others stay as they are |
| `Backends.Backend.DeleteMultiVersions` | backend/s3mem/backend.go:328-363 | the entries take effect one after the other, each reported deleted; the markers bear the generator's next ids |
| `BackendRuns.ServeKeepsInv` | backend/s3mem/backend.go:139-179 | every request keeps all buckets well-formed and ids distinct, within and across buckets |
| `BackendRuns.ReachableBackendOK` | backend/s3mem/backend.go:41-59 | so it is after any run of requests against a new backend, ids numbered as the generator does |
| `BackendRuns.DeletesAreServed` | backend/s3mem/backend.go:328-363 | a multi-object delete is the run of its entries, ids included |
| `Serving.ServeCalls` | backend/s3mem/backend.go:139-363 | any sequence of calls on a backend, uploads read through their reader chains: each call is served as precisely the requests it comes to in the state before it, under the generator's ids |
| `BackendCalls.CallsKeepGood` | backend/s3mem/backend.go:139-363 | such calls leave every bucket well-formed and fit to be listed, and ids distinct |
| `BucketListings.Results.AddPrefix` | backend.go:55-63 | each common prefix is kept once |
| `BucketListings.SeekPast` | backend/s3mem/backend.go:93-99 | the walk starts at the first key above the marker, whether or not it exists |
| `BucketListings.ListBucket` | backend/s3mem/backend.go:89-136 | the loop returns the specified page, and panics exactly if the page visits an object without a current version |
| `ListingWalks.NextPageStarts` | backend/s3mem/backend.go:128-132 | a truncated page names the last key it visited, and the next page starts right after it, unless it is stuck at the empty key |
| `Listing.PageWithinLimit` | backend/s3mem/backend.go:126-132 | a page has at most MaxKeys entries |
| `ListingWalks.PagesMakeTheListing` | backend/s3mem/backend.go:89-136 | following NextMarker yields the contents of the unpaged listing once and in order, and its non-empty common prefixes, page by page within the limit and no prefix twice on a page, if and only if the walk is not stuck at the empty key |
| `ListingWalks.WalkCollectsAll` | backend/s3mem/backend.go:89-136 | the same from any marker on, and only the last page is not truncated |
| `BucketWitnesses.EmptyKeySticks` | backend/s3mem/backend.go:93-99 | a bucket in which it is stuck |
| `ListingLaws.PageAfterMarker` | backend/s3mem/backend.go:93-99 | a page depends only on the keys above its marker |
| `ListingLaws.FullPages` | backend/s3mem/backend.go:126-132 | without a delimiter every truncated page has exactly as many contents as were asked for |
| `ReadingLaws.ListingIsWhatReads` | backend/s3mem/backend.go:105-126 | for any prefix, the listing holds exactly the keys that match as themselves and can be read, with the size and the hash of what reading returns |
| `ReadingLaws.PrefixesAreWhatReads` | backend/s3mem/backend.go:105-118 | its non-empty common prefixes are exactly those of the keys that can be read |
| `ReadingLaws.DeletedIsHidden` | backend/s3mem/backend.go:204-234 | after a delete on a versioned bucket the key cannot be read and no page lists it; what could be read by id still can, and the marker by its own |
| `ReadingLaws.ReadsTheNewest` | backend/s3mem/backend.go:204-234 | what is read is the version with the highest id, with its size, hash and body, unless that is a delete marker |
| `ReadingLaws.RangedReadsExactly` | backend/s3mem/bucket.go:126-161 | what a range of an object that can be read comes to |
| `ListingLaws.LastKeyIsNextMarker` | backend/s3mem/backend.go:128-132 | without a delimiter the last key of a truncated page is the next marker |
| `ListingLaws.EmptyPartExactly` | prefix.go:107-148 | when a key is rolled up into the empty prefix |
| `ListingLaws.EmptyPrefixExactly` | backend/s3mem/backend.go:101-118 | exactly when the pages have the same common prefixes as one listing, the empty one included |
| `BucketWitnesses.EmptyPrefixMayBeLost` | backend/s3mem/backend.go:101-118 | a bucket whose pages lack the empty prefix that one listing has |
| `Tokens.WrittenIsRead` | gofakes3.go:1147-1178 | a marker and the token that encodes it ask for the same page |
| `Tokens.MaxKeysIs` | gofakes3.go:1148-1153 | how many keys a page may have, for every decimal number asked for |
| `Tokens.PageStartIs` | gofakes3.go:1155-1177 | where a page starts, for any marker, continuation token and start-after, and how many keys it has if nothing is asked for |
| `Tokens.OffersExactly` | gofakes3.go:258-291 | when a response of each protocol offers something to go on with |
| `Tokens.BothVersionsWalk` | gofakes3.go:258-291 | clients of both listing protocols collect the pages of the walk, if and only if it is not stuck at the empty key |
| `VersionWalks.VersionIterator.Next` | backend/s3mem/bucket.go:77-101 | gives what is left: the archived versions in order, then the current one, then nothing |
| `VersionWalks.VersionIterator.Seek` | backend/s3mem/bucket.go:61-75 | what is left after a seek, and when it fails or panics |
| `VersionWalks.ListBucketVersions` | backend/s3mem/backend.go:454-565 | the nested loops return the specified listing, for any key marker and version-id marker, or the error |
| `VersionMarkers.KeyMarkerExactly` | backend/s3mem/backend.go:479-485 | from a key marker on: a page of the versions of the keys at and above it, what a marker above all keys is answered, and that one that does not match is refused |
| `VersionMarkers.VersionMarkersExactly` | backend/s3mem/backend.go:514-524 | for a marker that names a version: exactly when the page after it shows what follows that version |
| `VersionMarkers.CurrentMarkersRepeat` | backend/s3mem/bucket.go:61-75 | a marker that names the current version: it is listed again, or the listing panics where nothing was ever archived |
| `VersionMarkers.NewerMarkersRefused` | backend/s3mem/backend.go:516-521 | a marker above all versions of its key is refused |
| `VersionListing.ListsEveryVersionOnce` | backend/s3mem/backend.go:505-560 | exactly the versions of the keys that match and are not rolled up, each once, keys and ids ascending |
| `VersionListing.VersionPrefixesExactly` | backend/s3mem/backend.go:505-512 | exactly the common prefixes of the bucket's keys, each once |
| `VersionListing.EntriesShowVersions` | backend/s3mem/backend.go:526-553 | each entry has its version's key, size, hash and delete-marker flag, its id unless the bucket was never versioned, and is the latest if and only if its id is that of the current version |
| `VersionListing.LatestExactly` | backend/s3mem/backend.go:526-553 | of each key with a current version exactly the last entry is marked as latest, of others none |
| `VersionListing.LimitedListing` | backend/s3mem/backend.go:555-565 | with a limit, the first entries of the whole; not truncated implies nothing was left out |
| `Ranges.SlicesRightExactly` | range.go:30-126 | for every header that is accepted: the part served is right, in bounds and not empty, if and only if its end is not 2^63-1 with the start in the object; what happens then |
| `Ranges.HeaderReadsBack` | range.go:71-126 | the header written for a range of bytes is parsed back to it |
| `Ranges.OpenRangeServes` | range.go:108-123 | a header with a start only serves everything from there, or is refused |
| `Ranges.SuffixRangeServes` | range.go:99-106 | a header with an end only serves as many bytes from the end, or is refused |
| `Ranges.BlanksTrimmed` | range.go:86-98 | blanks around the parts of a header do not matter |
| `Ranges.RangesPartition` | backend/s3mem/bucket.go:132-145 | for increasing cut points the bodies of consecutive range requests make up the object |
| `ObjectUploads.CreateObject` | gofakes3.go:638-708 | over any source, in whatever pieces: what the chain of readers makes of the stream is stored, under the generator's next id, and its hash is returned; otherwise nothing changes |
| `ObjectUploads.AcceptedAsDeclared` | gofakes3.go:638-708 | over any source, what is stored has the content length, or for chunks the decoded length, and the hash sent |
| `ObjectUploads.UploadsRightExactly` | gofakes3.go:678-699 | for which decoded lengths, pieces and later buffers every upload of a payload length comes to what it should, if and only if |
| `ObjectUploads.MayStoreOther` | chunk.go:26-43 | an upload of nine bytes of which four are stored, because the source hands out one byte at a time and four were declared |
| `ObjectUploads.FramedAcceptedExactly` | gofakes3.go:678-699 | with a decoded length no less than the payload's, or over a source that fills each request, an upload of chunks is accepted if and only if that length is the payload's and a supplied hash is its hash; the payload is what is stored; and which error it ends in otherwise |
| `ObjectUploads.PlainAcceptedExactly` | gofakes3.go:687-699 | an upload without chunks, over any source, is accepted if and only if its content length is that of its bytes and a supplied hash is theirs; these bytes are stored |
| `ObjectUploads.RefusedExactly` | gofakes3.go:653-682 | which uploads are refused unread, and with which error |
| `ObjectUploads.CreatedExactly` | gofakes3.go:694-708 | when an upload succeeds, the hash and version id it is answered, and what is then read back; and every error |
| `ObjectUploads.AcceptedExactly` | util.go:37-58 | which error any other stream ends in |
| `ObjectUploads.StoredReadsBack` | backend/s3mem/backend.go:236-277 | what was stored is what is read back, as the current version and under its id |
| `UploadIndex.BucketUploads.Add` | uploader.go:89-99 | add in place to both indexes |
| `UploadIndex.BucketUploads.Remove` | uploader.go:102-132 | remove in place, with the loop that ends at the last entry if nothing is found |
| `UploadIndex.AddAgrees` | uploader.go:89-99 | a new upload keeps the two indexes in agreement, at the end of its key's slice |
| `UploadIndex.RemoveExact` | uploader.go:102-132 | remove takes precisely the named upload out of both indexes; they still agree and everything else stays |
| `UploadIndex.InBothIndexes` | uploader.go:64-79 | an upload is in the id map if and only if it is in its key's slice, and there once |
| `UploadParts.LatestBodyIs` | uploader.go:396-407 | the latest body under a number is that of the last upload under it, if and only if |
| `UploadParts.LatestIsKept` | uploader.go:396-407 | a part number holds a part if and only if it was uploaded, and then the latest body with the etag of its hash; there are as many slots as the highest number needs |
| `UploadParts.PartEtagIs` | uploader.go:392-395 | a part's etag is its hash in lower-case hexadecimal, in quotes |
| `UploadParts.SortSorts` | messages.go:63-70 | the ids are sorted, and the same ids |
| `UploadParts.PartsAreSorted` | messages.go:59-61 | the test for order never fails |
| `UploadParts.CheckParts` | uploader.go:437-449 | the error of the first entry that has one |
| `UploadParts.Assemble` | uploader.go:451-461 | the loop that concatenates bodies and hashes |
| `UploadParts.AssembledIs` | uploader.go:451-461 | for parts as they are stored it yields the bodies and hashes in request order; the decode error does not occur |
| `UploadParts.CompleteEtagIs` | uploader.go:459-462 | a completed object's etag, in quotes: the hash of the part hashes in hexadecimal, a dash and the number of parts |
| `UploadParts.ListParts` | uploader.go:219-237 | cut at the marker, or a panic beyond the last part: the first parts up to the limit, and whether more remain |
| `UploadParts.PartPagesExactly` | uploader.go:219-237 | the page from a marker shows the parts from there on, under their numbers, if and only if the marker is zero or nothing is left |
| `UploadParts.PresentAfter` | uploader.go:219-231 | otherwise it shows those parts under numbers too low by the marker |
| `UploadParts.PresentExactly` | uploader.go:219-237 | each uploaded part once, by ascending number, with its etag and size |
| `Uploaders.Uploader.CreateMultipartUpload` | uploader.go:174-198 | issues the next id and indexes the upload |
| `Uploaders.Uploader.AbortMultipartUpload` | uploader.go:356-368 | ends the upload named, if it is live for that bucket and key |
| `Uploaders.Uploader.UploadPart` | uploader.go:370-408 | the checks in order; the part slice grows and holds the part; its quoted hash is answered |
| `Uploaders.Uploader.ListMultipartUploads` | uploader.go:243-354 | the specified page, for any marker |
| `Uploaders.Uploader.CompleteMultipartUpload` | uploader.go:410-472 | stores what was assembled, under the generator's next id, answers the etag of the part hashes and their number, and ends the upload only if that succeeds; on an error nothing changes |
| `UploadLaws.CompletionExactly` | uploader.go:410-461 | for the parts that any uploads leave: a complete request is accepted if and only if each entry names the latest body under its number by its hash, and there are no more entries than the highest number allows; what is assembled is the latest bodies in request order; the decode error does not occur |
| `UploadLaws.AnyOrderAccepted` | messages.go:59-70 | any reordering of an accepted request is accepted |
| `UploadLaws.InRequestOrder` | uploader.go:451-461 | the bodies and hashes are put together in the order of the entries |
| `UploadLaws.OneBody` | uploader.go:451-461 | each entry contributes the body uploaded last under its number, and its hash |
| `UploadLaws.RefusedExactly` | uploader.go:431-449 | what a complete request is answered that is not accepted |
| `UploadHistories.FoundExactly` | uploader.go:474-491 | an upload is found if and only if it is in progress for that bucket and key |
| `UploadHistories.AcceptsExactly` | uploader.go:370-394 | which parts are accepted, if and only if |
| `UploadHistories.PartErrorsExactly` | uploader.go:370-394 | which error a part is answered that is not accepted |
| `UploadHistories.PartsAreSent` | uploader.go:370-408 | over any run, the parts of an upload in progress are precisely those that were accepted for it, in order |
| `ServerModel.CompletableExactly` | uploader.go:410-472 | in any state, a complete request puts the latest bodies of its upload, in request order, if and only if the upload is in progress, the backend can store the object and the entries name the latest parts; otherwise it puts nothing |
| `ServerModel.CompletedReadsBack` | uploader.go:410-472 | from a new server on, after any calls: exactly when a complete request succeeds, in terms of the parts sent in those calls; then the latest bodies are read back, as the current object and by version id, and the upload is gone; else nothing has changed |
| `ServerModel.CompleteAnswers` | uploader.go:463-472 | the answer, spelled out: in quotes, the hash of the hashes of the latest bodies, a dash and their number; the version id on a versioned bucket; or an error, if and only if |
| `ServerModel.OneObject` | uploader.go:410-472 | over any calls, at most one object is put for an upload id |
| `ServerModel.DoAllKeepsSound` | uploader.go:174-472 | over any calls on an uploader and its backend, the indexes stay in agreement, every bucket well-formed and ids distinct |
| `UploadRuns.ReachableAgree` | uploader.go:89-132 | after any run the two indexes of every bucket agree |
| `UploadRuns.OverIsForever` | uploader.go:356-368 | an upload that has ended is never issued, live or stored again |
| `UploadRuns.OneLife` | uploader.go:174-198 | over every run an id is issued at most once and completed at most once |
| `UploadServing.ServeCall` | uploader.go:174-472 | any call on an uploader and its backend does what the model does: uploads, every part of each, buckets and ids minted |
| `UploadServing.ServeCalls` | uploader.go:174-472 | so does any sequence of calls, call by call |
| `UploadServing.ServeFromNew` | uploader.go:165-172 | so from a new backend and uploader, with nothing asked but a version source that has not counted; it leaves the indexes in agreement and every bucket fit to be listed |
| `UploadServing.ListSentParts` | uploader.go:219-237 | the parts listed are those of the parts sent |
| `UploadWalks.ListUploads` | uploader.go:255-351 | the listing loops return the specified page, for every marker and limit |
| `UploadWalks.SeekNext` | uploader.go:333-349 | after a full page, the first upload of the next item is found if there is one |
| `UploadPages.Resumes` | uploader.go:263-300 | the markers of a truncated page lead to the upload they name, also within one key |
| `UploadPages.PagesGiveEachUploadOnce` | uploader.go:243-354 | following the markers returns each listed upload exactly once and in order; a page is not truncated exactly when none remain |
| `UploadPages.ListedAreLive` | uploader.go:289-331 | what is listed: exactly the live uploads whose key matches and is not rolled up |
| `UploadPages.ListedInOrder` | uploader.go:27-60 | uploads are listed by key and then by initiation |
| `UploadPages.PagesGivePrefixesExactly` | uploader.go:333-349 | which common prefixes the pages have, if and only if |
| `UploadWitnesses.PrefixesMayBeLost` | uploader.go:333-349 | two uploads whose pages lack one |
| `UploadMarkers.MarkersExactly` | uploader.go:262-351 | for any marker, prefix and limit: exactly when the page after it has the uploads, the truncation and the next markers of those it does not pass over |
| `UploadMarkers.LiveMarkersHold` | uploader.go:292-300 | a marker that names a live upload of its key meets that condition |
| `UploadWitnesses.KeyMarkersMayFail` | uploader.go:263-265 | a key marker that is inclusive |
| `UploadWitnesses.HighMarkersMayFail` | uploader.go:333-349 | a marker above every key that leads back to the first upload |
| `UploadWitnesses.GoneMarkersMayFail` | uploader.go:292-300 | a marker whose upload is gone: an empty page, not truncated, with an upload left |

## Left out

- HTTP routing, CORS, XML, logging, host rewriting, time skew and command-line flags.
- The `s3afero` and `s3bolt` backends: a file system or a database library decides what they do.
- The skiplist's own structure: it is a sorted map with a cursor.
- The bytes of MD5 and of splitmix64: any functions of the same type.
- Clocks, `LastModified` and creation dates; the order of creation stands for the time an upload was initiated.
- User metadata and its merging, except that looking it up panics for a key without a current version.
- Locks: every operation is one step.
- How the runtime grows the buffer of `ioutil.ReadAll` after its first 512 bytes: any function of what was gathered.
- Automatic creation of missing buckets, browser uploads, copies of objects, and `HeadObject`.
- `DeleteMulti`, which is `DeleteMultiVersions` without version ids.
- Decoding the Content-MD5 header: the expected hash is given as bytes.
- Blanks outside ASCII before a chunk's size, which the scanner would also skip.
- Storing a completed upload reads the assembled body back from memory; the model stores it directly.
- The checks that a version-id marker comes with a key marker, and that neither is empty (`gofakes3.go:347-356`).
- Backends.Backend.ListBucket: it asks that the bucket be in a state its operations can lead to, which it is after any calls (`UploadServing.ServeFromNew`, `UploadServing.ListObjects`); so for `Uploaders.Uploader.ListMultipartUploads` (`UploadServing.ListUploads`).
- The skiplist iterator inside the version iterator is a position in the archive, not an object of its own.
- The set of prefixes already seen in multipart listings is the list of those already in the result.
