# dev-toolkit storage backends in Dafny

This project models two storage backends of the dev-toolkit Go library and
proves properties of the models.

- **S3 backend** (lib/s3/storage.go):
  - `Storage.Copy` and `Storage.CopyWithContext` copy an object inside S3. An
    object of at most `maxUploadSizeBytes` (4294967296) bytes is copied with one
    CopyObject request. A larger object is copied as a multipart upload:
    CreateMultipartUpload, one UploadPartCopy per byte range in order, then
    CompleteMultipartUpload with the part list.
  - `contents` turns the keys of a listing page into names.
  - `prefixes` takes the base name of every common prefix.
- **Local-filesystem backend** (lib/fs/storage.go):
  - `NewStorage` normalises the volume.
  - `fullPath` places a storage path under the volume; `Link` returns it.
  - `Walk` cuts an offset from every file path it reports.
  - `Copy` picks a file mode from its options.
  - `Put`, `Create`, `Get`, `Delete` and `Copy` are modelled over a map from
    host path to file, held in a `Disk` object that the methods update.

Modules follow that structure:

- `Wrappers`: Option and Result.
- `PathStrings`: the parts of Go's `strings` and `path` packages the code uses. These are Split, TrimPrefix and path.Base; HasPrefix is the predicate TrimPrefix is defined by.
- `Options`: the `options ...map[string]interface{}` bag that both Copy methods scan.
- `S3Parts`: the part count and the byte-range arithmetic.
- `S3Listing`: `contents` and `prefixes`.
- `S3Storage`: the copy orchestration.
- `FsStorage`: the local backend.

How collaborators and failures are modelled:

- **The AWS client** is a value `S3Api`. It gives, for each request, the answer
  S3 returns: a value or an error. One Copy never sends the same request twice,
  so an answer that depends only on the request loses nothing. Each Copy also
  returns `calls`, the list of requests it sent, in order. The predicates
  `CopyRun` and `PartsRun` define that list and the returned error for every
  combination of answers. The lemmas next to them state the properties one at
  a time.
- **The godirwalk traversal** is a parameter `walker`. It maps the walk root to
  the entries found, or to the error of the walk itself.
- **Go panics**:
  - `NewStorage("")` panics, and so does a `Walk` of a non-empty path on a
    volume shorter than two characters. These become preconditions.
  - A `Walk` of a non-empty path also panics when the walk reports a file path
    shorter than the strip offset, since `path[slice:]` is out of range. This can
    happen because godirwalk cleans its root: `Walk("../x")` on
    `NewStorage("./testdata")` walks "x", and a file "x/f" is shorter than the
    offset 9. This too is a precondition (`WalkedPathsFit`).
  - `contents` panics when its index `len(p)-1` is out of range for the
    result. That depends on the keys seen so far, so it is modelled as `None`.

The byte-range arithmetic is modelled exactly as the loop computes it:

- Part 0 is `[0, M]`, which is M + 1 bytes.
- Part i > 0 is `[i*M + 1, (i+1)*M]`.
- The end becomes `len - 1` only when `(i+1)*M > len`.

The part count is the integer ceiling of `len / M`. The code never checks the
number of parts against `maxUploadParts`; that constant only configures the
upload manager.

Bucket selection:

- The bucket is `s.bucket` unless an option map supplies a string under
  `"bucket"` (Copy) or `"dstBucket"` (CopyWithContext). The last such map wins.
- HeadObject, CreateMultipartUpload, every UploadPartCopy and
  CompleteMultipartUpload use the selected bucket.
- The direct CopyObject reads its source from `s.bucket`.
- The part copies read their source from the selected bucket.

With an override, a small object is therefore read from the Storage's own
bucket, while a large one is read from the selected bucket. The model keeps
both, as written (`SmallObjectIsCopiedDirectly`, `S3Storage.PartJob.PartRequest`).

## Model

| member | source | states |
|---|---|---|
| PathStrings.Split | lib/s3/storage.go:32 | strings.Split on one separator: at least one part, and no part holds the separator. |
| PathStrings.JoinSplit | lib/s3/storage.go:32 | Joining the parts of Split with the separator gives the original string. |
| PathStrings.TrimPrefix | lib/fs/storage.go:236 | strings.TrimPrefix: when the string starts with the prefix, the result is what follows it (prefix + result is the string); otherwise the string comes back unchanged. |
| PathStrings.Base | lib/s3/storage.go:52 | path.Base: "." for the empty path, "/" for a path of slashes only, otherwise what follows the last "/" once trailing slashes are removed. |
| Options.Choose | lib/s3/storage.go:181-189 | The options loop leaves the value that `Chosen` defines: the default, replaced by every map whose value at the key passes the type assertion, in order. |
| Options.ChosenDefault | lib/fs/storage.go:97-105 | With no map carrying a value of the right type under the key, the default (0644 for the mode, s.bucket for the bucket) stays. |
| Options.ChosenLastWins | lib/s3/storage.go:266-274 | The last map whose value under the key passes the type assertion decides, whatever earlier maps say. |
| Options.ChosenFrom | lib/s3/storage.go:183-188 | The selected value is the default or the value of one of the option maps. |
| S3Parts.PartCount | lib/s3/storage.go:220 | The number of parts k is the integer ceiling of len / M: (k-1)*M < len <= k*M. It is at least 2 on the multipart path, where len > M. |
| S3Parts.PartRange | lib/s3/storage.go:223-232 | The range part i asks for, as the loop computes it: from is i*M, plus 1 when i != 0; to is (i+1)*M, replaced by len - 1 when (i+1)*M > len. |
| S3Parts.FirstPartRange | lib/s3/storage.go:223-232 | Part 0 is requested as [0, M], which is M + 1 bytes. |
| S3Parts.PartRangesAbut | lib/s3/storage.go:223-232 | Every part but the last ends at (i+1)*M, and the next part starts one byte later. |
| S3Parts.LastPartEndsAtLastByte | lib/s3/storage.go:230-232 | When len is not a multiple of M, the last range ends on byte len - 1. |
| S3Parts.LastPartOverrunsOnMultiple | lib/s3/storage.go:220-232 | For len = k*M there are k parts, and the last is [len - M + 1, len], one byte past the object. |
| S3Parts.LastPartEmptyPastMultiple | lib/s3/storage.go:220-232 | For len = (k-1)*M + 1 there are k parts, and the last is [len, len - 1], an empty range. |
| S3Parts.EveryByteInOnePart | lib/s3/storage.go:222-232 | Every byte of the object lies in the range of exactly one part. |
| S3Parts.LastPartWellFormedIff | lib/s3/storage.go:220-232 | The last range is non-empty and inside the object if and only if len % M is neither 0 nor 1. |
| S3Parts.IntendedRangesTile | lib/s3/storage.go:222-232 | The intended ranges [i*M, min((i+1)*M, len) - 1] start at 0, are non-empty and at most M bytes, abut, and end on the last byte. |
| S3Listing.ContentsStep | lib/s3/storage.go:32-42 | One iteration of `contents`: a flat key is appended; a nested key adds its first segment unless result[len(p)-1] equals it; None when that index is out of range. |
| S3Listing.Contents | lib/s3/storage.go:27-46 | The loop computes `ContentsOf(keys)`: the fold of `contents`, with None where an index is out of range. |
| S3Listing.ContentsNoLonger | lib/s3/storage.go:30-43 | The result never holds more names than there are keys. |
| S3Listing.ContentsOfFlatKeys | lib/s3/storage.go:34-36 | Keys without "/" are appended verbatim, so a flat listing comes back unchanged. |
| S3Listing.ContentsProvenance | lib/s3/storage.go:32-42 | Every name in the result is a flat key of the listing or the first segment of a nested key. |
| S3Listing.ContentsPanicsOnLeadingFolder | lib/s3/storage.go:37 | A listing that starts with "dir/a" indexes an empty result, so the index is out of range. |
| S3Listing.FolderAfterTwoFilesRepeats | lib/s3/storage.go:37-42 | After two flat keys, the two keys dir/x and dir/y both add "dir", because the check reads result[1] and not the last name added. |
| S3Listing.ContentsRepeatsFolder | lib/s3/storage.go:37-42 | The listing a, b, dir/x, dir/y gives a, b, dir, dir. |
| S3Listing.IntendedContentsNoRepeats | lib/s3/storage.go:38-41 | When the check compares with the last name added, distinct keys of which no flat key has the name of a folder give a result in which no name follows itself. |
| S3Listing.IntendedAgreesOnFlatKeys | lib/s3/storage.go:34-36 | On flat listings the intended fold and `contents` agree. |
| S3Listing.Prefixes | lib/s3/storage.go:48-56 | One name per common prefix, in order, each being path.Base of the prefix. |
| PathStrings.BaseOfCommonPrefix | lib/s3/storage.go:52 | The common prefixes "dir/" and "parent/dir/" both have base name "dir". |
| PathStrings.BaseIsOneElement | lib/s3/storage.go:52 | A base name is never empty, and has no "/" unless it is "/" itself. |
| S3Storage.CopySource | lib/s3/storage.go:203-236 | fmt.Sprintf("%s/%s", bucket, key): bucket name, "/", then the key. CopyObject (line 203) builds it from the storage's own bucket and src, UploadPartCopy (line 236) from the selected bucket and src. |
| S3Storage.CompleteRequest | lib/s3/storage.go:253-258 | The CompleteMultipartUploadInput: the selected bucket, key dst, the session's UploadId and CompletedParts, the ETag and part number of every part in order. Defined only once every part copy succeeded. |
| S3Storage.PartJob.PartRequest | lib/s3/storage.go:234-241 | The UploadPartCopy input for part i: the selected bucket, CopySource bucket/src, range PartRange(i, len), key dst, part number i + 1 and the session's UploadId. |
| S3Storage.PartsRun | lib/s3/storage.go:219-260 | The calls and error of the part loop and commit: every part then the completion, whose error is returned; or, when part f is the first to fail, parts 0..f and part f's error. |
| S3Storage.CopyRun | lib/s3/storage.go:191-260 | The calls and error of one copy: the probe and its error; or the probe and one CopyObject from s.bucket/src when len <= M; or the probe, the create and its error; or the probe, the create and `PartsRun` for the returned UploadId. |
| S3Storage.Storage.Copy | lib/s3/storage.go:180-261 | The requests sent and the error returned are those `CopyRun` defines for the bucket that the "bucket" option selects. |
| S3Storage.Storage.CopyWithContext | lib/s3/storage.go:265-346 | The same as Copy, except that the "dstBucket" option selects the bucket. |
| S3Storage.Storage.CopyTo | lib/s3/storage.go:191-260 | After the bucket is chosen: probe, then either the direct copy or create plus the part loop, each stopping at its error. |
| S3Storage.Storage.CopyParts | lib/s3/storage.go:219-260 | The part loop and the commit send exactly what `PartsRun` defines: every part in order and then the completion, or the parts up to the first failure and that failure's error. |
| S3Storage.CompletedParts | lib/s3/storage.go:247-250 | Entry i of the part list records the ETag returned for part i and part number i + 1. |
| S3Storage.CompletedPartsStep | lib/s3/storage.go:247-250 | Each successful part appends exactly its own record to the list. |
| S3Storage.FirstFailure | lib/s3/storage.go:243-245 | The index the loop stops at: every earlier part succeeds, and the part at that index fails unless it is past the last part. |
| S3Storage.FirstFailureIs | lib/s3/storage.go:243-245 | A run of successes followed by a failure (or by the end) determines where the loop stops. |
| S3Storage.AllPartsOkIff | lib/s3/storage.go:243-251 | The loop runs to the end exactly when every part copy succeeds. |
| S3Storage.PartsRunOnFailure | lib/s3/storage.go:234-245 | When part f is the first to fail, the session sends parts 0..f and returns part f's error. |
| S3Storage.PartsRunOnSuccess | lib/s3/storage.go:247-260 | When every part succeeds, the session sends every part and then the completion, and returns the completion's error. |
| S3Storage.ProbeFailureStopsCopy | lib/s3/storage.go:191-198 | A HeadObject error is returned, and nothing is sent after the probe. |
| S3Storage.SmallObjectIsCopiedDirectly | lib/s3/storage.go:200-208 | When len <= 4294967296 (bound included), exactly one CopyObject follows the probe. Its source is s.bucket/src, no multipart request is sent, and its error is the result. |
| S3Storage.CreateFailureStopsCopy | lib/s3/storage.go:210-217 | A CreateMultipartUpload error is returned before any part copy, and no completion is sent. |
| S3Storage.MultipartCalls | lib/s3/storage.go:210-260 | A large object's calls are the probe, the create, and then the session that `PartsRun` defines for the returned UploadId. |
| S3Storage.AfterSetupCalls | lib/s3/storage.go:191-217 | The probe and the create add no part copy and no completion to the calls. |
| S3Storage.PartRequestsInOrder | lib/s3/storage.go:222-241 | The k-th request of a session, when it is a part copy, is the one for part k. It has part number k + 1, the range of part k, the selected bucket and the session's UploadId. There are at most PartCount(len) part copies. |
| S3Storage.PartRequestsThenOther | lib/s3/storage.go:222-253 | Part requests followed by the completion hold exactly n part copies, each at its own index. |
| S3Storage.CompletedPartsAscend | lib/s3/storage.go:239-250 | The recorded part numbers start at 1, end at the part count and strictly ascend, with no gaps. |
| S3Storage.AllPartsCopiedThenCompleted | lib/s3/storage.go:219-260 | When every part succeeds, exactly PartCount(len) part copies (at least 2) are sent. Then one CompleteMultipartUpload lists every part with its ETag, and its error is the result. |
| S3Storage.FailedPartAbandonsUpload | lib/s3/storage.go:234-245 | When part f is the first to fail, its request is the last one sent and its error is returned. No later part is attempted and the upload is never completed. |
| S3Storage.SecondOfThreePartsFails | lib/s3/storage.go:222-245 | Of three parts, when the second fails, only parts 1 and 2 are requested and part 2's error is returned. |
| S3Storage.CompletesIffAllPartsOk | lib/s3/storage.go:243-260 | A CompleteMultipartUpload is sent if and only if every part copy succeeded. |
| FsStorage.NewStorage | lib/fs/storage.go:23-33 | The volume ends in "/" and extends the one given by at most that slash. A volume already ending in "/" is kept. |
| FsStorage.NewStorageIdempotent | lib/fs/storage.go:23-33 | Normalising a normalised volume changes nothing, so the slash is never doubled. |
| FsStorage.NewStorageAppendsSlash | lib/fs/storage.go:26-28 | A volume without a trailing "/" gets exactly one. |
| FsStorage.Storage.FullPath | lib/fs/storage.go:229-237 | The location is the volume followed by the path with one leading "/" trimmed. ErrEmptyPath comes back exactly when the path is empty, and the location is returned even then. |
| FsStorage.FullPathOfRootAndEmpty | lib/fs/storage.go:232-236 | fullPath("/") is the volume itself without error; fullPath("") is the volume with ErrEmptyPath. |
| FsStorage.FullPathTrimsOneSlash | lib/fs/storage.go:236 | Only one leading slash is trimmed: "//p" becomes vol + "/p". |
| FsStorage.Storage.Link | lib/fs/storage.go:192-194 | Link is fullPath of the path, whatever the expiry. |
| FsStorage.LinkOfTestFile | lib/fs/storage_test.go:101-104 | Link("test.txt") on NewStorage("./testdata") is "./testdata/test.txt", without error. |
| FsStorage.Storage.Walk | lib/fs/storage.go:62-88 | An empty path gives ErrEmptyPath on any volume, and a failed walk gives its error, with no callback call in either case. Otherwise the callback receives, in walk order, every non-directory entry with StripOffset() characters cut off. |
| FsStorage.Storage.StripOffset | lib/fs/storage.go:69-73 | The offset Walk cuts: len(vol), minus 2 when vol[:2] is "./"; defined only for volumes of at least two characters. |
| FsStorage.Visits | lib/fs/storage.go:80-86 | The callback arguments of a walk: every non-directory entry, in walk order, with its first `offset` characters cut. |
| FsStorage.VisitAll | lib/fs/storage.go:80-86 | The callback loop reports exactly `Visits`: the file entries, in order, with the offset cut off. |
| FsStorage.VisitsAreFiles | lib/fs/storage.go:80-86 | Every reported name comes from a non-directory entry, and there is at most one per entry. |
| FsStorage.WalkOfTestVolume | lib/fs/storage_test.go:48-51 | On NewStorage("./testdata") the offset is 9, so godirwalk's "testdata/testwalk.txt" is reported as "testwalk.txt" and its directory is skipped. |
| FsStorage.RootVolumeCannotWalk | lib/fs/storage.go:69-73 | NewStorage("/") gives the volume "/", which is too short for vol[:2]. |
| FsStorage.WalkEmptyPathOnRootVolume | lib/fs/storage.go:62-73 | On the root volume "/", a Walk of the empty path returns ErrEmptyPath, because fullPath's error is returned before vol[:2]. |
| FsStorage.IntendedStripOffsetAgrees | lib/fs/storage.go:69-73 | The HasPrefix-based offset agrees with Walk's wherever Walk's is defined, and gives 1 for the root volume. |
| FsStorage.Written | lib/fs/storage.go:183 | WriteFile sets the file's bytes. A new file gets the permission given, an existing one keeps its mode, and every other file is unchanged. |
| FsStorage.Storage.Put | lib/fs/storage.go:159-184 | An empty path gives ErrEmptyPath and changes nothing. Otherwise fullPath(path) holds the body, created with mode 0766 when new. |
| FsStorage.Storage.Create | lib/fs/storage.go:121-140 | An empty path gives ErrEmptyPath. Otherwise fullPath(path) is truncated to no bytes, created with mode 0766 when new. |
| FsStorage.Storage.Get | lib/fs/storage.go:143-151 | The bytes at fullPath(path). ErrEmptyPath for an empty path, and a not-exist error for a missing file. |
| FsStorage.Storage.Delete | lib/fs/storage.go:197-205 | Removes fullPath(path) and nothing else. A missing file gives a not-exist error and an empty path gives ErrEmptyPath, both changing nothing. |
| FsStorage.Storage.Copy | lib/fs/storage.go:96-113 | A missing src gives a not-exist error and changes nothing. Otherwise dst holds src's bytes and src is unchanged. A new dst gets the value of the last int "mode" option (0644 without one) converted to a 32-bit FileMode. |
| FsStorage.PutThenGet | lib/fs/storage_test.go:81-89 | Put(p, b) followed by Get(p) yields b. |
| FsStorage.PutThenDelete | lib/fs/storage_test.go:111-114 | Put then Delete leaves every other file as before, and Get then reports the file missing. |
| FsStorage.PutThenCopy | lib/fs/storage_test.go:116-123 | After Put and a Copy between full paths, both paths read back the bytes put, and the new copy has the mode from the options. |
| FsStorage.CopyModesOfTests | lib/fs/storage_test.go:116-135 | {"mode": 0711} selects 0711. No options, or a mode that is not an int, leaves 0644. |
| FsStorage.FileMode | lib/fs/storage.go:112 | fs.FileMode(mode): the int option converted to Go's 32-bit unsigned FileMode, that is reduced modulo 2^32. |
| FsStorage.CopyModeWrapsTo32Bits | lib/fs/storage.go:96-112 | A mode option of 2^32 + 0644 writes a file of mode 0644: the conversion keeps only the low 32 bits. |

## Left out

- S3 `List`, `ListWithContext`, `Walk`, `WalkWithContext`, `Get`, `Put`, `Delete`, `Stat` and the presigned `Link` are thin calls into the AWS SDK. S3 `Create` is unimplemented and always returns an error. `contents` and `prefixes` are modelled on one listing page; pagination is not.
- The `float64` quotient and `math.Ceil` of the part count are modelled as integer ceiling division. Rounding for lengths beyond 2^53 is not modelled.
- Go's 64-bit `int` is modelled as an unbounded integer. An object length cannot come near the overflow of `prt * maxUploadSizeBytes`.
- `maxUploadParts` and `partSize` only configure the upload manager, which is not modelled.
- The `bytes=%d-%d` header text is modelled as the pair of numbers it formats.
- Context cancellation in every `*WithContext` method is not modelled; apart from it, CopyWithContext is modelled in full. The lib/fs `*WithContext` methods only delegate.
- Timing in the AWS client, retries and partial failures inside one request are left out; each request either succeeds or fails.
- lib/fs `List` and `Stat` read directory listings and file metadata from the operating system, which the map from path to file does not hold.
- Directories, `filepath.Split`, the `os.Stat`/`MkdirAll` step of Put and Create, the umask, and real I/O errors other than a missing file are left out. So is reading the body from an `io.Reader`.
- Create returns an open file; the model only states the truncated file it leaves behind.
- godirwalk's traversal order, its error callback (every error is skipped) and its path cleaning are a walk collaborator. The model takes the list of entries the walk reports.
- FsStorage.Storage.Walk: the two slice panics of a non-empty path (a volume shorter than two characters, and a walked file path shorter than the offset) are preconditions, not modelled results.
- Go strings are bytes, while the model uses `seq<char>`, so `len(s.vol)`, `vol[:2]` and `path[slice:]` count characters here. The two agree for the ASCII separators and prefixes involved ("/", "./"), and because walked paths begin with the volume's own characters; paths with multi-byte characters are not distinguished.
- The file-info types (lib/fs/fileinfo.go, lib/s3/fileinfo.go, pkg/storage/fileinfo.go), the interfaces and mock of pkg/storage, and pkg/log are not part of this model.

## Findings

| source | as written | input that shows it | evidently intended | confidence | as-written member | corrected member |
|---|---|---|---|---|---|---|
| lib/s3/storage.go:37 | A nested key is compared with `result[len(p)-1]`, an index set by the key's segment count. | The keys ["dir/a"] index an empty result (Go panics). The keys ["a", "b", "dir/x", "dir/y"] give ["a", "b", "dir", "dir"]. | Compare with the last name added, as the comment on lines 39-40 says, so that, when no flat key has a folder's name, no folder is listed twice in a row. | medium, not executed | S3Listing.ContentsRepeatsFolder | S3Listing.IntendedContentsNoRepeats |
| lib/s3/storage.go:223-232 | Part 0 is [0, M]; part i > 0 is [i*M + 1, (i+1)*M], cut to len - 1 only when (i+1)*M > len. | len = 2*M gives a last range [M+1, 2*M], one byte past the object. len = M + 1 gives an empty last range [M+1, M]. | Part i is [i*M, min((i+1)*M, len) - 1], so the ranges tile the object. | medium, not executed | S3Parts.LastPartEmptyPastMultiple | S3Parts.IntendedRangesTile |
| lib/fs/storage.go:71 | Walk slices `s.vol[:2]`. | NewStorage("/") gives the volume "/", and a Walk of any non-empty path then panics. | Test the "./" prefix with strings.HasPrefix, which is defined for every volume. | low, not executed | FsStorage.RootVolumeCannotWalk | FsStorage.IntendedStripOffsetAgrees |

The operations themselves keep the code's behaviour: `Contents`, `CopyParts`
and `Walk` model the code as written. The corrected definitions
(`IntendedContentsOf`, `IntendedPartRange`, `IntendedStripOffset`) stand
beside them, and the properties above are proved about them.
