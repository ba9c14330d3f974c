# Upload pipeline of a Telegram music bot, in Dafny

This project models the upload pipeline, chat helpers and per-user uploader
settings of a Telegram bot that downloads music and videos and delivers
them to a chat, to Google Drive or to an rclone remote. The model covers
four parts:

- **Packaging** (`bot/helpers/utils.py`):
  - the greedy split-zip partitioner and the single-archive variant;
  - the descriptive Apple archive, with its name sanitising, `_N` collision
    suffixes, file counter and cooperative cancellation;
  - the retry, back-off and cancel loop of `download_file`;
  - `format_string`, the progress bar, `default_metadata` and the
    `config.yaml` save-folder parser.
- **Upload router** (`bot/helpers/uploader.py`):
  - destination resolution (user setting, then `Config.DEFAULT_UPLOAD`,
    then `telegram`) and routing;
  - the Telegram branch: zip or per-track, split or single archive,
    indexed part sends with deletion;
  - the credential and scratch-directory lifecycle of the Google Drive and
    rclone adapters;
  - source cleanup, the folder-size walk and the rclone "manage" context.
- **Chat helpers** (`bot/helpers/message.py`):
  - the `check_user` predicate;
  - the `antiSpam` lock list, as a class over a sequence;
  - the 2-second progress throttle, as a class with a clock argument;
  - the FloodWait wait-and-retry rules of `send_message` and
    `edit_message`;
  - the media metadata defaults and `fetch_user_details`.
- **Uploader settings** (`bot/modules/uploader_settings.py`):
  - the fallback chains of the three settings panels;
  - callback-data handling (set default, toggle stop-duplicate,
    navigation), as a class over the user's settings store;
  - the reply dispatch that stores a token, a config file or a text value.

The filesystem is a `set<string>` of existing paths, threaded by value:
methods take `disk` and return `disk'`. Files to archive are a sequence of
`(relative path, size)` entries in walk order. The per-user database is
`UserSettings`, with separate text, flag and blob maps. Each network,
Telegram or subprocess result is an abstract outcome passed in as a
parameter: an attempt outcome, a FloodWait answer, whether a transfer
raised, or where a cancel event is first seen.

Walked files can fail in two ways, given as the two sets of `Faults`.
An unstatable file cannot be stat'd, so `os.path.getsize` raises on it
and `_get_folder_size` skips it. An unopenable file reports its size but
cannot be opened, so only `zipf.write` raises on it. The split archive
raises at the first unstatable file during its walk, or while writing the
first part that holds an unopenable member. It then leaves the parts
written before, plus the partial one when a write raised, and their
sources are deleted. The single archives raise at the first file of
either kind and keep their partial file. The exception leaves
`_telegram_upload` and `upload_item`, so no cleanup follows.

`MAX_SIZE` is the float `1.9 * 1024**3 = 2040109465.6` in the source.
Sizes are integers, so `size > MAX_SIZE` is the same test as
`size > 2040109465`, and the model uses that integer.

`gdrive_upload` and `rclone_upload` remove their credential scratch
directory in a `finally` block (bot/helpers/uploader.py:68-74 and
bot/helpers/uploader.py:117-135). The early returns for a missing token
(line 64) and a missing destination (line 111) come after the directory is
created but sit outside that block, so they leave it behind. These early
returns are normal returns, so `upload_item` then removes the local source
although nothing was uploaded. All three cases are listed under
"## Findings".

## Model

| member | source | states |
|---|---|---|
| Common.Or | bot/helpers/uploader.py:43 | Python `a or b` on optional strings: the result is truthy exactly when either operand is, and a truthy result is one of the operands |
| Common.OrAssociative | bot/modules/uploader_settings.py:36 | a chain `a or b or c` gives the same value however it is grouped |
| Common.OrElse | bot/modules/uploader_settings.py:35-36 | `a or default` is never empty when the default is not, and it is either the default or the value of `a` |
| Common.OrElseChain | bot/modules/uploader_settings.py:35-36 | `a or b or default` picks the first truthy of `a` and `b`, else the default, however it is grouped |
| Common.Lower | bot/helpers/utils.py:773 | `str.lower`: same length, each character lower-cased |
| Common.Capitalize | bot/modules/uploader_settings.py:16 | `str.capitalize`: first character upper-cased, the rest lower-cased, same length |
| Common.LowerCapitalize | bot/helpers/utils.py:759-773 | lower-casing a capitalised string gives the lower-cased original, so `type.capitalize().lower() == type.lower()` |
| Common.Strip | bot/modules/uploader_settings.py:192 | `str.strip`: the result is a contiguous slice of the input that neither starts nor ends with whitespace, and everything cut off before and after it is whitespace (the whitespace set of `str.isspace`) |
| Common.Title | bot/helpers/utils.py:111 | `str.title`: same length; a character is upper-cased when it starts the text or follows an uncased character, and lower-cased when it follows a cased one |
| Common.StripEmptyIffBlank | bot/helpers/utils.py:768 | the stripped text is empty exactly when every character is whitespace |
| Common.StripUnchanged | bot/helpers/utils.py:847 | text with no surrounding whitespace is left unchanged by strip |
| Common.RFind | bot/helpers/uploader.py:291 | the last index of a character, or -1; no occurrence after it |
| Common.Find | bot/helpers/uploader.py:123 | the first index of a character, or -1; no occurrence before it |
| Common.FindAt | bot/helpers/utils.py:851 | a character at index `k` with none before it is what `Find` returns |
| Common.AfterLast | bot/modules/uploader_settings.py:116 | `s.split(c)[-1]`: a suffix of `s` containing no `c`, which is all of `s` or starts right after a `c` |
| Common.AfterLastSuffix | bot/modules/uploader_settings.py:116 | for `p + c + x` with no `c` in `x`, the segment after the last `c` is exactly `x` |
| Common.AfterFirst | bot/helpers/uploader.py:124 | `s.split(c, 1)[1]`: the part before the first `c`, then `c`, then this result rebuild `s` |
| Common.NatToString | bot/helpers/utils.py:769 | `str(n)` is a non-empty string of digits |
| Common.NatToStringRoundTrip | bot/helpers/utils.py:769 | parsing `str(n)` gives back `n` |
| Common.NatToStringInjective | bot/helpers/utils.py:791 | different numbers print differently |
| Common.PathJoin | bot/helpers/uploader.py:51-53 | `os.path.join` of two parts: an absolute second part wins; a first part that is empty or already ends in `/` is followed directly by the second (as for a `remote:` destination with an empty rest, or a storage root ending in `/`); otherwise the parts are joined with one `/` |
| Common.JoinDirNameBaseName | bot/helpers/uploader.py:291-292 | joining `dirname(p)` and `basename(p)` rebuilds `p` when no double slash precedes the last component |
| Common.RemoveTree | bot/helpers/uploader.py:74 | `shutil.rmtree(dir)`: exactly the paths at or below `dir` disappear; nothing is added |
| Common.TextSetting | bot/modules/uploader_settings.py:10 | a text lookup in the user store is present exactly when the key is stored, and then gives the stored text; what the settings module stores is what this lookup then returns (`UploaderSettings.StoredValueReachesUploader`) |
| Common.FlagSetting | bot/modules/uploader_settings.py:32 | a flag lookup in the user store is present exactly when the key is stored, and then gives the stored flag; what the settings module stores is what this lookup then returns (`UploaderSettings.StoredValueReachesUploader`) |
| Common.BlobSetting | bot/helpers/uploader.py:61 | a blob lookup in the user store is present exactly when the key is stored, and then gives the stored blob; what the settings module stores is what this lookup then returns (`UploaderSettings.StoredValueReachesUploader`) |
| Packaging.PartitionCoversFiles | bot/helpers/utils.py:245-264 | the parts, concatenated, are the walked file list: nothing lost, nothing duplicated, order kept; as multisets too |
| Packaging.PartitionOversizedPartIsSingleFile | bot/helpers/utils.py:252-260 | a part whose total exceeds `MAX_SIZE` holds exactly one file |
| Packaging.PartitionSealsOnlyWhenFull | bot/helpers/utils.py:252-256 | a part is followed by another only when adding that part's first file would push it past `MAX_SIZE` |
| Packaging.PartitionEmptyFirstPart | bot/helpers/utils.py:245-264 | the first part is empty if and only if the first file alone exceeds `MAX_SIZE`; every later part is non-empty |
| Packaging.PartitionSingleWhenFits | bot/helpers/utils.py:245-264 | a non-empty folder whose total fits under `MAX_SIZE` becomes a single part holding every file |
| Packaging.PartNamesDistinct | bot/helpers/utils.py:234-237 | distinct part numbers give distinct archive names (`{folder}.zip`, `{folder}.partN.zip`) |
| Packaging.PartNameOutsideFolder | bot/helpers/utils.py:234-242 | no archive name coincides with a source file inside the folder |
| Packaging.AddToZip | bot/helpers/utils.py:232-243 | part 1 is named `{folder}.zip` and part N is `{folder}.partN.zip`; the archive is created and the members are written and their source files deleted in order, up to the first member in the given set, where `zipf.write` raises (reported as `raised`), leaving the partial archive |
| Packaging.WriteArchivesEffect | bot/helpers/utils.py:239-242 | writing a run of archives leaves the old disk minus every archived source file, plus every archive |
| Packaging.SplitDiskEffect | bot/helpers/utils.py:219-266 | after a split, every walked file has been deleted and exactly the returned archive paths exist |
| Packaging.PartsDiskEffect | bot/helpers/utils.py:239-264 | writing any run of parts named part 1, 2, ... leaves the old disk minus their source files, plus the part names |
| Packaging.SplitZipFolder | bot/helpers/utils.py:219-266 | raises exactly when `SplitRaises` holds, and the archives written are exactly `SplitArchives`, with the disk that of writing them. Without a raise, the archives are the greedy partition named part 1, 2, ... in order, the returned paths are their names, and the disk loses every source file and gains the archives |
| Packaging.WalkFiles | bot/helpers/utils.py:245-260 | on a raise (a size that cannot be read at line 248, or a part that cannot be written at line 253) the archives are exactly `SplitArchives`; otherwise every file was walked, the sealed parts, the open part and its size are the walk state of all files, every sealed part was written whole, and exactly those parts are on the disk |
| Packaging.WalkOne | bot/helpers/utils.py:249-260 | one file whose size was read: the walk state becomes that of one more file, and the open part is sealed first when the file would overflow it; a seal that raises leaves exactly `SplitArchives` written |
| Packaging.SealPart | bot/helpers/utils.py:252-256 | raises exactly when the part holds an unopenable member; otherwise the part, named by its part number, is appended to the parts written; on a raise the partial part holds the members before the failing one; the disk is that of the longer run |
| Packaging.FirstBadPart | bot/helpers/utils.py:239-241 | the index of the first part holding a member `zipf.write` raises on: every part before it is written whole, and the one at it is not; the part count when none is |
| Packaging.StatFaultSplit | bot/helpers/utils.py:245-248 | reaching an unstatable file after sealing only writable parts is a raise of the split, which then has written exactly those parts |
| Packaging.SealFaultSplit | bot/helpers/utils.py:252-253 | sealing a part with an unopenable member during the walk is a raise, and the split has written the earlier parts plus that part up to the failing member |
| Packaging.FinalSeal | bot/helpers/utils.py:262-264 | after the whole walk, the partition is the sealed parts plus the non-empty open part, and the split raises exactly when that last part holds an unopenable member |
| Packaging.SplitWithoutRaise | bot/helpers/utils.py:219-266 | a split that does not raise writes the whole greedy partition |
| Packaging.WalkSealedGrows | bot/helpers/utils.py:245-260 | a part sealed after some files stays sealed as the walk goes on |
| Packaging.SplitRaisesIff | bot/helpers/utils.py:219-266 | the split raises exactly when some walked file is unstatable or unopenable |
| Packaging.ZipRaisesIff | bot/helpers/utils.py:202-286 | in either upload mode, `zip_handler` raises exactly when some walked file is unstatable or unopenable |
| Packaging.SplitArchivesDisk | bot/helpers/utils.py:239-264 | writing a split's archives, interrupted or not, deletes only walked source files and adds only names of parts numbered 1 to the file count plus one |
| Packaging.SplitArchivesMembers | bot/helpers/utils.py:239-264 | the members of a split's archives, in order, are a prefix of the walk |
| Packaging.WalkThenPack | bot/helpers/utils.py:245-264 | walking some files and then packing the rest from the walk state gives the partition of all of them |
| Packaging.WalkConsumesPrefix | bot/helpers/utils.py:245-264 | the sealed parts followed by the open part are exactly the walked files in order, and the partition is the sealed parts plus the open part when it is not empty |
| Packaging.FirstUnreadable | bot/helpers/utils.py:245-248 | the index of the first file in a given failing set: no file before it is in the set, and the one at it is; the file count when none is |
| Packaging.ZipFolder | bot/helpers/utils.py:269-286 | one archive `{folder}.zip`; when `zipf.write` can write every file it holds every file and every source file is deleted; otherwise `zipf.write` raises (line 283) at the first file it cannot write, and the archive holds, and the disk has lost, exactly the files before it |
| Packaging.ZipHandler | bot/helpers/utils.py:202-216 | raises exactly when `ZipRaises` holds (the split's raise in mode `Telegram`, otherwise a file `zipf.write` cannot write), and then leaves the disk `RaisedZipDisk`, as the interrupted split or single archive left it; otherwise upload mode `Telegram` gives the split paths, any other mode `[folder + ".zip"]`, and the disk loses the sources and gains those paths |
| Packaging.RaisedZipRemovesOnlyWalked | bot/helpers/utils.py:239-284 | an interrupted `zip_handler` deletes only walked source files, and the only names it adds are `{folder}.zip` and part names numbered 1 to the file count plus one |
| AppleZip.RemoveForbidden | bot/helpers/utils.py:764 | the result keeps only characters of the input and none of the forbidden characters (backslash, slash, `*?:"<>` and the vertical bar) |
| AppleZip.SafeNameIsSafe | bot/helpers/utils.py:764-770 | the sanitised name has no forbidden character and no space, is at most 100 characters, and is not blank (otherwise it is `Apple_Music_<timestamp>`) |
| AppleZip.SafeNameKeepsSafe | bot/helpers/utils.py:764-770 | a name that is already safe passes through sanitising unchanged |
| AppleZip.SafeNameIdempotent | bot/helpers/utils.py:764-770 | sanitising twice is the same as sanitising once, whatever timestamp the second pass sees |
| AppleZip.ArchiveName | bot/helpers/utils.py:772-782 | the archive name starts with `[` |
| AppleZip.ArchiveNameShape | bot/helpers/utils.py:758-782 | the name is `[provider] safe_name`, with ` (Playlist)`, ` (Artist)` or ` (Video)` added for those lower-cased types and nothing for any other type; provider, title and type fall back to `Apple Music`, `Unknown` and `album` |
| AppleZip.CandidateInjective | bot/helpers/utils.py:786-791 | different counters give different candidate file names |
| AppleZip.CandidatePathInjective | bot/helpers/utils.py:786-791 | different counters give different candidate paths in the same directory |
| AppleZip.CandidatesBelowSize | bot/helpers/utils.py:789-792 | the first `n` candidates are `n` distinct paths |
| AppleZip.CandidatesBelowBound | bot/helpers/utils.py:789-792 | if the first `n` candidates all exist then `n` is at most the number of existing paths, so the search ends |
| AppleZip.UniqueZipPath | bot/helpers/utils.py:788-792 | the returned path is candidate `index`, does not exist, and every earlier candidate exists: it is the first free one |
| AppleZip.FirstFreeIsPath | bot/helpers/utils.py:788-792 | the first free candidate is the one `FirstFreePath` finds within as many steps as there are existing names |
| AppleZip.FirstFreeFromReaches | bot/helpers/utils.py:790-792 | the step-by-step search from any candidate reaches the first free one at or after it |
| AppleZip.FilesWritten | bot/helpers/utils.py:806-817 | the count of written files never exceeds the number of files the walk can reach |
| AppleZip.ZipCounts | bot/helpers/utils.py:817-819 | the progress updates are `(1, total)`, `(2, total)`, ... up to the written count |
| AppleZip.PickArchivePath | bot/helpers/utils.py:785-792 | the archive path does not exist yet and is the first free candidate in the parent of the content folder, which is `FirstFreePath` of the existing names |
| AppleZip.WriteMembers | bot/helpers/utils.py:806-821 | the loop is cancelled exactly when the cancel event is seen before some file at or before the first file `zipf.write` cannot write; it fails exactly when it reaches such a file (`zipf.write` raises) before any cancel, never both; it writes the files before that point and sends one counter update per written file when progress is on |
| AppleZip.CreateAppleZip | bot/helpers/utils.py:748-831 | cancelled exactly when the event is seen before some file at or before the first file `zipf.write` cannot write, and then the disk is unchanged (the partial archive is removed); failed exactly when such a file is reached first, and then the partial archive stays; otherwise created; in both of those, exactly the first free archive path is added and no source file is deleted; the stage and counter events are as the source sends them |
| Download.StreamBody | bot/helpers/utils.py:59-74 | the body loop is cancelled exactly when the event is seen before some chunk; a cancelled download leaves no file, otherwise the file is the concatenated chunks |
| Download.DownloadFile | bot/helpers/utils.py:33-82 | the attempt loop's error text, final file and sleeps equal the recursive specification of the retry rules |
| Download.SuccessWritesBody | bot/helpers/utils.py:47-80 | with at least one attempt, success means some attempt delivered a 200 body after only transient failures, and the file holds exactly that body |
| Download.CancelRemovesFile | bot/helpers/utils.py:49-72 | whenever the result is `Cancelled`, no file is left behind |
| Download.BackoffDoubles | bot/helpers/utils.py:77-80 | the sleeps are `2**attempt` seconds, one after each transient failure that was not the last attempt, and there are fewer sleeps than attempts |
| Download.SleepsStep | bot/helpers/utils.py:78-80 | a transient failure before the last attempt sleeps `2**attempt` and then continues with the next attempt |
| Download.SleepsEmpty | bot/helpers/utils.py:74-82 | a final attempt, or one that does not fail transiently, sleeps no more |
| Download.StopsAtFirstFinal | bot/helpers/utils.py:47-82 | the outcome depends only on the attempts up to the first non-transient one |
| Download.LastFailureKeepsPartialFile | bot/helpers/utils.py:60-79 | a timeout on the only attempt reports `Failed after 1 attempts: ...` and leaves the partially written file |
| Download.NoRetriesReportsSuccess | bot/helpers/utils.py:47-82 | as written: with `retries <= 0` the loop never runs and the call reports success with no file |
| Download.DownloadCorrectedSuccessWritesBody | bot/helpers/utils.py:47-82 | corrected: with at least one attempt always made, success always means a delivered body is on disk |
| TextFormat.ReplaceAbsent | bot/helpers/utils.py:121 | `str.replace` changes nothing when the pattern does not occur |
| TextFormat.ReplaceSelf | bot/helpers/utils.py:121 | replacing a pattern with itself changes nothing |
| TextFormat.ReplaceWhole | bot/helpers/utils.py:121 | a text that is exactly the pattern becomes the replacement |
| TextFormat.Placeholder | bot/helpers/utils.py:95-118 | a placeholder is wrapped in `{` and `}` |
| TextFormat.Replacements | bot/helpers/utils.py:95-118 | the table has the 18 metadata entries in dictionary order, plus `{user}` and `{username}` exactly when a user is given |
| TextFormat.MetadataTable | bot/helpers/utils.py:95-114 | entry `i` maps the `i`-th field's placeholder to that field's value (`provider` title-cased, missing keys as empty text) |
| TextFormat.FormatString | bot/helpers/utils.py:85-123 | the loop applies every replacement of the table, one after the other, in dictionary order |
| TextFormat.ApplyAllUntouched | bot/helpers/utils.py:120-121 | a text containing none of the keys comes back unchanged |
| TextFormat.FormatStringPlainText | bot/helpers/utils.py:120-123 | a template with no `{` is returned unchanged |
| TextFormat.DistinctPlaceholders | bot/helpers/utils.py:95-118 | no placeholder occurs inside a different one, so no entry rewrites another's key |
| TextFormat.FieldPlaceholder | bot/helpers/utils.py:95-123 | each of the 18 metadata placeholders `{f}` becomes that field's value (the provider title-cased, a missing key empty), with or without a user, whenever the value holds no `{` that a later placeholder could match |
| TextFormat.EntryResolves | bot/helpers/utils.py:120-121 | in sequential replacement, an entry's own key becomes its value when no earlier key lies inside it and its value holds no `{` |
| TextFormat.ApplyAllAppend | bot/helpers/utils.py:120-121 | applying the table in two runs is the same as applying it whole |
| TextFormat.UserPlaceholders | bot/helpers/utils.py:116-118 | with a user given, `{user}` becomes the user's name and `{username}` the user name |
| TextFormat.NoUserKeepsPlaceholders | bot/helpers/utils.py:116-121 | without a user, `{user}` and `{username}` stay in the text |
| TextFormat.ProgressBarShape | bot/helpers/utils.py:396-402 | with `total = 0` there is no bar (the source divides by zero); otherwise cell `i` is filled exactly when `(i+1)*total <= done*10`, and the bar is 10 cells when `done <= total` |
| TextFormat.ProgressBarFull | bot/helpers/utils.py:396-402 | for `done <= total`, all cells are filled exactly when `done == total` |
| TextFormat.ProgressBarMonotone | bot/helpers/utils.py:396 | more work done never fills fewer cells |
| TextFormat.ProgressMessageArgs | bot/helpers/utils.py:388-413 | arguments exist exactly when `total > 0`; they carry that bar and the title-cased type |
| TextFormat.DefaultMetadata | bot/helpers/utils.py:737-745 | artist, album, duration and thumbnail are the fixed defaults; the title is a prefix of the file's base name |
| TextFormat.DefaultMetadataTitle | bot/helpers/utils.py:740 | for `dir/name.ext` the title is exactly `name` |
| TextFormat.ExtensionStripped | bot/helpers/utils.py:740 | `splitext` of `name.ext` removes exactly `.ext` |
| AppleConfig.ExpandUser | bot/helpers/utils.py:857-859 | a path not starting with `~` is unchanged |
| AppleConfig.ExpandUserHome | bot/helpers/utils.py:857-859 | `~/rest` expands to `home/rest` |
| AppleConfig.HomeDir | bot/helpers/utils.py:839 | the base of the defaults is `os.path.expanduser("~")`: the home directory with its trailing slashes dropped, or `/` when nothing is left |
| AppleConfig.ReadAppleConfigPaths | bot/helpers/utils.py:834-863 | the line loop gives exactly the specification: the last setting line per key wins, then user expansion; a missing file gives the defaults; an unreadable file gives the empty result |
| AppleConfig.ApplyLine | bot/helpers/utils.py:847-855 | one line updates exactly the folder whose key it sets, to that line's value, and leaves the other two alone |
| AppleConfig.KeysExclusive | bot/helpers/utils.py:850-855 | no line sets two of the three keys |
| AppleConfig.UnsetKeyKeepsDefault | bot/helpers/utils.py:841-855 | a key that no line sets keeps its default |
| AppleConfig.ResolveAppend | bot/helpers/utils.py:846-855 | a later line that sets a key overrides every earlier value; one that does not set it keeps it |
| AppleConfig.ValueAfterKey | bot/helpers/utils.py:850-855 | the value is the stripped text after the key's `:`, that is, after the first `:` of the line |
| AppleConfig.CommentsIgnored | bot/helpers/utils.py:848-849 | blank and `#` lines set nothing |
| AppleConfig.DefaultDirUnderHome | bot/helpers/utils.py:839-843 | for every home directory, the default is `Music/Apple Music/<format>` under it with its trailing slashes dropped, and under `/` when the home directory is empty or only slashes |
| AppleConfig.EmptyHomeDefaults | bot/helpers/utils.py:839-860 | with an empty home directory and no config file the folders are `/Music/Apple Music/alac`, `/Music/Apple Music/atmos` and `/Music/Apple Music/aac` |
| AppleConfig.DefaultDirShape | bot/helpers/utils.py:839-843 | for an absolute home directory without a trailing slash, the defaults are `$HOME/Music/Apple Music/<format>` and user expansion leaves them alone |
| AppleConfig.MissingFileDefaults | bot/helpers/utils.py:844-860 | with no config file the three folders are the defaults for `alac`, `atmos` and `aac` under such a home directory |
| UploadDestinations.ScratchDirShape | bot/helpers/uploader.py:95-97 | the per-user scratch directory (`gdrive_creds` or `rclone_creds`) is a non-empty path without a trailing slash |
| UploadDestinations.TokenInsideScratch | bot/helpers/uploader.py:51-66 | in user-token mode the token file lies inside the scratch directory that the `finally` removes |
| UploadDestinations.GDriveUpload | bot/helpers/uploader.py:34-74 | no folder id: abort with the disk unchanged. Token mode without a token: abort with the scratch directory left on disk. Otherwise the scratch tree is removed on both the normal and the raising exit, and the job uses `sa:<id>` with no token in service-account mode. Outcome and disk are `DriveOutcome` and `DriveDisk` |
| UploadDestinations.DriveTouchesOnlyScratch | bot/helpers/uploader.py:44-74 | the Drive adapter adds or removes only names inside its scratch directory, and it raises only when the transfer raises |
| UploadDestinations.MissingTokenLeavesScratch | bot/helpers/uploader.py:51-64 | as written: the missing-token return leaves the scratch directory behind |
| UploadDestinations.GDriveUploadCorrected | bot/helpers/uploader.py:34-74 | corrected: every abort leaves the disk unchanged and no exit leaves anything under the scratch directory |
| UploadDestinations.RcloneUpload | bot/helpers/uploader.py:77-135 | no user or global config: abort with the disk unchanged. No destination: abort with the scratch directory and `rclone.conf` left on disk. Otherwise the scratch tree is removed on every exit and the outcome is the transfer's. Outcome and disk are `RcloneOutcome` and `RcloneDisk` |
| UploadDestinations.RcloneTouchesOnlyScratch | bot/helpers/uploader.py:86-135 | the rclone adapter adds or removes only names inside its scratch directory, and its two early exits are normal returns |
| UploadDestinations.MissingDestLeavesConfig | bot/helpers/uploader.py:95-111 | as written: the missing-destination return leaves the credential file behind |
| UploadDestinations.RcloneUploadCorrected | bot/helpers/uploader.py:77-135 | corrected: every abort leaves the disk unchanged and no exit leaves anything under the scratch directory |
| UploadDestinations.UploadedRemote | bot/helpers/uploader.py:122-131 | remote info exists exactly when the destination has a `:` and a name is given; then `remote + ":" + rest` rebuilds the destination and the path is `rest` joined with the name |
| UploadDestinations.ManageContextOf | bot/helpers/uploader.py:283-303 | a directory gives `src_path = path` and no `src_file`; a file gives `src_file = path` and its directory as `src_path`; destination empty, mode `copy`, page 0 |
| UploadDestinations.ManageContextLocatesFile | bot/helpers/uploader.py:287-292 | for a file, joining `src_path` with the base name of `src_file` gives back `src_file` |
| Uploader.ResolveUploader | bot/helpers/uploader.py:217-219 | the uploader is the user's non-empty setting, else the non-empty `DEFAULT_UPLOAD`, else `telegram`; never empty |
| Uploader.Route | bot/helpers/uploader.py:224-229 | Google Drive exactly for `gdrive`, rclone exactly for `rclone`, Telegram for every other string |
| Uploader.TelegramByAnotherName | bot/helpers/uploader.py:224-241 | any other string except `telegram` routes to Telegram and also removes the source |
| Uploader.CapitalisedTelegram | bot/helpers/uploader.py:224-241 | as written: `Telegram` routes to Telegram and the source is deleted afterwards |
| Uploader.CorrectedRemovalFollowsRoute | bot/helpers/uploader.py:224-241 | corrected: the source is removed exactly for the two remote destinations, and the as-written rule differs only for Telegram-routed names other than `telegram` |
| Uploader.CleanupSource | bot/helpers/uploader.py:232-241 | a directory is removed recursively; a file is removed, then its thumbnail if one is given |
| Uploader.CleanupRemovesOnlySource | bot/helpers/uploader.py:232-241 | the source path is gone, nothing is added, only the source, its contents and the thumbnail disappear, and a removed directory leaves nothing beneath it |
| Uploader.FolderSize | bot/helpers/uploader.py:263-272 | the walk's sum equals the sizes of the files that can be stat'd |
| Uploader.WalkedSizeBound | bot/helpers/uploader.py:263-272 | the walked size is at most the total size, and equal to it when no file fails to stat |
| Uploader.UnzippedContainerSendsListed | bot/helpers/uploader.py:202-206 | an unzipped container sends the files under `tracks` when that list is non-empty, else those under `items`, the k-th as track k of the list's length |
| Uploader.TrackSendsIndexed | bot/helpers/uploader.py:203-206 | without a reporter, track `k` is sent as audio with index `k + 1` of `n` |
| Uploader.TrackSendsStaged | bot/helpers/uploader.py:137-206 | with a reporter, each track send is preceded by the `Uploading` stage |
| Uploader.SendParts | bot/helpers/uploader.py:193-200 | each part is sent in order as a document with index 1..n of n and deleted after its send |
| Uploader.SendTracks | bot/helpers/uploader.py:202-206 | the per-track loop sends exactly the indexed track sequence |
| Uploader.ZipLargeAndSend | bot/helpers/uploader.py:186-200 | an oversized folder goes through the zip handler; when that raises (`ZipRaises`: an unstatable or unopenable file) nothing is sent and the disk is what the handler left; otherwise its parts are sent indexed and deleted, and sources and archives are gone afterwards |
| Uploader.ZipSmallAndSend | bot/helpers/uploader.py:189-200 | a folder within the ceiling becomes one descriptive archive at the first free path; a cancel before any file `zipf.write` cannot write sends nothing and leaves the disk as it was; such a file reached first raises, sends nothing and leaves the partial archive at that path; otherwise the archive is sent and deleted, and the disk ends as it began |
| Uploader.UploadContainer | bot/helpers/uploader.py:170-206 | without zipping, per-track sends. Zipping without a folder raises. Above `MAX_SIZE` (walked size): unless the zip handler raises, the split parts are sent in order and removed with the source files; if it raises, nothing is sent and the disk is what the zip handler left. Otherwise a cancel during zipping ends with no archive and the zipping progress only; a file that cannot be stat'd or opened reached first raises, leaving the partial archive at the first free path; else one fresh archive, named by the first free `_N` suffix, is sent after the progress, and the disk ends as it began. Outcome and disk are `TelegramOutcomeOf` and `TelegramDisk` |
| Uploader.TelegramUpload | bot/helpers/uploader.py:137-206 | the stage is set first when a reporter exists. A track is sent as audio; a video as a document or a video by the bot setting, index 1 of 1; a missing file path raises. Containers behave as in `UploadContainer` (including the raise on a file that cannot be stat'd or opened and what it leaves on the disk), after the stage. Other types send nothing. Outcome and disk are `TelegramOutcomeOf` and `TelegramDisk` |
| Uploader.TelegramRemovesUnlessRaised | bot/helpers/uploader.py:185-199 | unless it raises, the Telegram branch never adds to the disk; it changes the disk only for a zipped container with a folder, and whatever it removes is a source file of that folder or a part made from it; only a zipped container can be cancelled |
| Uploader.UploadItem | bot/helpers/uploader.py:210-241 | the route follows the resolved uploader. The disk after the adapter is the adapter's own effect, including what a raising Telegram zip leaves. The item finishes exactly when the adapter did not raise (for Telegram: was sent) and, where cleanup follows, a source path exists; a raise skips the cleanup. The source is cleaned up after a finished upload exactly when the uploader is not exactly `telegram` |
| Uploader.AbortedDriveUploadLosesSource | bot/helpers/uploader.py:44-46 | with the Drive route and no folder id, the adapter returns early, yet the router's cleanup removes the local source |
| Uploader.UploadItemCorrected | bot/helpers/uploader.py:224-241 | the source is removed only after a remote adapter finished its transfer; after an early return nothing on the disk is lost |
| Message.CheckUser | bot/helpers/message.py:45-58 | restricted mode admits only admins; a public bot admits everyone; otherwise the sender or the chat must be among admins, authorised chats and authorised users |
| Message.RestrictedIsStricter | bot/helpers/message.py:45-58 | anyone admitted in restricted mode is admitted in normal mode too |
| Message.AuthorisedChatAdmitsAll | bot/helpers/message.py:53-57 | every sender in an authorised chat is admitted |
| Message.Acquired | bot/helpers/message.py:70-79 | after an acquire the key is recorded, nothing else is added, and the list stays duplicate-free |
| Message.RemoveFirst | bot/helpers/message.py:62-68 | `list.remove` when present: one element fewer, nothing new; no change when absent |
| Message.RemoveFirstExact | bot/helpers/message.py:62-68 | on a duplicate-free list, revoke removes exactly the key |
| Message.AcquireThenRevoke | bot/helpers/message.py:61-80 | acquiring a free key and then revoking it restores the list |
| Message.AntiSpam.constructor | bot/helpers/message.py:61-80 | the lock list starts empty |
| Message.AntiSpam.Acquire | bot/helpers/message.py:69-80 | in `CHAT+` or `USER` mode the answer is whether the chat or user was already busy, and it is recorded; any other mode answers not busy and records nothing |
| Message.AntiSpam.Revoke | bot/helpers/message.py:62-68 | the chat or user key is removed if present and absent afterwards; other modes change nothing |
| Message.Step | bot/helpers/message.py:106-114 | an update is forwarded only when not cancelled and at least 2 s have passed, and only then does the timestamp move to now |
| Message.ProgressThrottle.constructor | bot/helpers/message.py:92-99 | the throttle starts with last update time 0 and the given label and indices |
| Message.ProgressThrottle.Callback | bot/helpers/message.py:101-126 | the callback raises exactly when the cancel event is set, before the throttle check; otherwise forwarding happens exactly on the throttle's terms, with label `Uploading` by default |
| Message.ForwardedSpaced | bot/helpers/message.py:106-114 | forwarded updates are at least 2 s after the start time and at least 2 s apart |
| Message.SendMessage | bot/helpers/message.py:133-213 | the retry loop gives exactly the specification: before each try the stage is shown, followed by `update_upload(0, size)` when the item is an existing path whose size was read; each FloodWait sleeps its value and retries, other errors give no message |
| Message.PreStage | bot/helpers/message.py:133-143 | with a reporter on a media send the stage comes first, and the zero-progress update with the file's size follows exactly when that size was read; without one nothing is shown |
| Message.SendSleepsFloodWaits | bot/helpers/message.py:207-209 | `n` FloodWaits in a row sleep exactly their values in order, and the result is decided by the answers after them |
| Message.SleepsAppend | bot/helpers/message.py:207-209 | the sleeps of two event runs are the sleeps of the first, then those of the second |
| Message.SendSpecStep | bot/helpers/message.py:207-213 | one attempt: an accepted answer gives the message after the pre-stage, a FloodWait sleeps its value then retries, any other answer gives no message |
| Message.EditSpec | bot/helpers/message.py:228-232 | without antiflood there is never a sleep |
| Message.EditMessage | bot/helpers/message.py:216-232 | the retry loop gives exactly the specification: not-modified and non-antiflood FloodWait give nothing; antiflood FloodWait sleeps and retries |
| Message.EditWithoutAntifloodTriesOnce | bot/helpers/message.py:225-232 | without antiflood, only the first answer matters |
| Message.AudioParamsOf | bot/helpers/message.py:164-169 | with no metadata: duration 0, `Unknown Artist`, `Unknown Track`, no thumbnail; otherwise per-key fallbacks |
| Message.VideoParamsOf | bot/helpers/message.py:182-187 | with no metadata: duration 0, 1920 by 1080, no thumbnail; otherwise per-key fallbacks |
| Message.MetaFallbacksPerKey | bot/helpers/message.py:164-187 | each missing key falls back on its own, and empty metadata behaves like none |
| Message.FetchUserDetails | bot/helpers/message.py:31-42 | reply mode without a replied-to message raises; otherwise the ids come from the message, the reply id is the replied-to or own id, the name is the sender's first name, and the user name is the username or, when that is empty, the mention |
| UploaderSettings.PanelsShowUploaderValues | bot/modules/uploader_settings.py:28-65 | the panels show the same folder id, rclone destination and flags that the uploaders use, or `Not Set` when those are empty |
| UploaderSettings.IndexUrlFallbacks | bot/modules/uploader_settings.py:36 | the index URL shown is the user's, else `INDEX_URL`, else `INDEX_LINK`, else `Not Set` |
| UploaderSettings.CapitalizeTelegram | bot/modules/uploader_settings.py:12-16 | the unset default displays as `Telegram` |
| UploaderSettings.ShownDefaultIgnoresConfig | bot/modules/uploader_settings.py:10-16 | as written: with no user choice and `DEFAULT_UPLOAD = gdrive`, the panel shows `Telegram` while uploads go to Google Drive |
| UploaderSettings.CorrectedDefaultMatchesRouter | bot/modules/uploader_settings.py:10-16 | corrected: the shown default always names the uploader the router resolves, and equals the as-written display when the user has chosen |
| UploaderSettings.Navigate | bot/modules/uploader_settings.py:96-163 | only `us_close` deletes the panel, and navigation never writes a setting |
| UploaderSettings.ToggleTwiceRestores | bot/modules/uploader_settings.py:139-143 | two toggles restore a stored stop-duplicate flag |
| UploaderSettings.FirstToggleCanKeepPanel | bot/modules/uploader_settings.py:139-143 | as written: the toggle counts a missing flag as true while the panel (lines 37-38) shows `STOP_DUPLICATE`; with no stored flag and `STOP_DUPLICATE` off, the panel shows Disabled both before and after the first toggle |
| UploaderSettings.CorrectedToggleFlipsPanel | bot/modules/uploader_settings.py:139-143 | corrected: every toggle flips what the panel shows, and agrees with the as-written toggle whenever the flag is stored or the config default is on |
| UploaderSettings.ChosenDefaultRoutes | bot/modules/uploader_settings.py:115-117 | for a name without `_`, pressing `us_set_default_<name>` makes the router resolve exactly that name |
| UploaderSettings.DefaultButtonsRoute | bot/modules/uploader_settings.py:107-117 | each of the three menu buttons makes the router resolve `telegram`, `gdrive` or `rclone` |
| UploaderSettings.PromptedKey | bot/modules/uploader_settings.py:177-210 | the chosen key's marker occurs in the prompt and no earlier marker does; no key when no marker occurs |
| UploaderSettings.Received | bot/modules/uploader_settings.py:169-210 | a value is taken exactly when there is a prompt with a marker and the reply has the needed document or text; blob keys take the document, text keys the stripped text |
| UploaderSettings.StoredValueReachesUploader | bot/modules/uploader_settings.py:212-213 | a stored non-empty value is what the uploader and the panel then read for that key |
| UploaderSettings.StoredTextIsStripped | bot/modules/uploader_settings.py:192-208 | a stored text value has no surrounding whitespace, and is empty exactly when the reply was blank |
| UploaderSettings.SettingsStore.constructor | bot/modules/uploader_settings.py:8-10 | the store starts from the given settings |
| UploaderSettings.SettingsStore.Callback | bot/modules/uploader_settings.py:90-163 | `us_set_default_X` stores the segment after the last `_`; the toggle stores the negation (missing counts as true); every other callback navigates and writes nothing |
| UploaderSettings.SettingsStore.ConfigUpload | bot/modules/uploader_settings.py:166-216 | no usable reply: silent and unchanged; an empty value: "No value received" and unchanged; otherwise the value is stored under the prompted key |

## Left out

- Telegram, pyrogram, aiohttp, the database and the `rclone` and Google Drive helper classes are not modelled. Their results are parameters: the attempt outcomes, the FloodWait answers, whether a transfer raised, whether it was cancelled, and the stored settings.
- Zip byte contents, compression and archive member names are left out. An archive is modelled as a path plus its member list.
- `os.makedirs` of parent directories is not modelled. Only the scratch directory itself appears on the disk.
- The walk order of `os.walk` is taken as the given file sequence. Which walked files cannot be stat'd or opened is the `Faults` parameter; permissions, links and races are not modelled beyond these two sets. A file that changes between the walks is not modelled.
- Clocks are parameters: `time.time()` in the fallback archive name, and `time.monotonic()` in the throttle. The throttle uses `real`.
- `run_concurrent_tasks`, `ThreadPoolExecutor`, `loop.create_task` and `asyncio.to_thread` are concurrency and are left out. The model is sequential.
- Message texts, button layouts and captions are left out. Captions are tags, not the formatted caption strings.
- Metadata and cover-art extraction, `cleanup`, `move_sorted_playlist`, `create_link`, the poster helpers and `run_apple_downloader` are not part of this model. They are foreign-library or filesystem plumbing outside the upload core.
- Packaging.ZipHandler: `zip_folder` returns a single path. The model returns it as a one-element list, which is how `_telegram_upload` uses it (bot/helpers/uploader.py:188).
- Message.SendMessage: FloodWait retries are unbounded in the source. The model runs over a finite sequence of answers and reports "still waiting" when they run out. Only the text, document, audio and video kinds are distinguished, through the staged flag. Whether the item is an existing path and its size can be read is the `presized` parameter; the zero-progress update's file index, file total and label are passed through unchanged and not recorded.
- Message.EditMessage: the same finite-answers bound applies to the antiflood retry.
- Message.ProgressThrottle.Callback: a failure to schedule the update is logged and ignored in the source. The model does not include it.
- Download.DownloadFile: the timeout value, the URL and chunk sizes are not modelled. The partial file left by a failing attempt is given as the chunks written before the error.
- UploadDestinations.RcloneUpload: the remote path is derived from the destination text; without a `:` (or without an item name) there is no remote path and the outcome is the raise, as at bot/helpers/uploader.py:124, unless the listener was cancelled. Any other failure of the transfer itself is the `transferRaises` parameter.
- UploaderSettings.PromptedKey: the prompt texts the callbacks send are not tied back to the keys they select. The markers are the substrings the dispatcher tests.
- Common.Lower: only ASCII letters change case. Python's `str.lower` also maps other Unicode letters; the model leaves them as they are.
- Common.Capitalize: the case mapping covers ASCII letters only, as in `Common.Lower`.
- Common.Title: the case mapping and the cased test cover ASCII letters only, so a non-ASCII letter counts as uncased.
- AppleConfig.ExpandUser: `~name/…` for another user needs the password database. The model leaves it unexpanded, as Python does when that user is unknown.
- Message.AudioParamsOf: the `int(...)` conversion of the duration is not modelled. Values are taken as integers, so the truncation of a float and the error for a non-numeric value are left out.
- Message.VideoParamsOf: the `int(...)` conversions of duration, width and height are not modelled, as in `Message.AudioParamsOf`.
- TextFormat.MetadataTable: numeric fields are taken as already converted to text, since `str()` of arbitrary Python values is not modelled.

## Findings

| source | as written | input that shows it | evidently intended | confidence | as-written member | corrected member |
|---|---|---|---|---|---|---|
| bot/helpers/utils.py:47-82 | the loop runs `range(1, retries + 1)` and falls through to an implicit `None`, which callers read as success | `retries = 0` (or negative): no attempt is made and `None` is returned with no file written | at least one attempt; `None` only after a delivered body | high (not executed) | Download.NoRetriesReportsSuccess | Download.DownloadCorrectedSuccessWritesBody |
| bot/helpers/uploader.py:51-64 | the scratch directory is created before the token check, and the missing-token `return` lies outside the `try`/`finally` that removes it | `USE_SERVICE_ACCOUNTS` off, a folder id set, no stored `gdrive_token` | no credential scratch directory left behind on any exit | high (not executed) | UploadDestinations.MissingTokenLeavesScratch | UploadDestinations.GDriveUploadCorrected |
| bot/helpers/uploader.py:95-111 | `rclone.conf` is written before the destination check, and the missing-destination `return` lies outside the `finally` | a user rclone config stored, neither `rclone_dest` nor `RCLONE_DEST` set | no credential file left behind on any exit | high (not executed) | UploadDestinations.MissingDestLeavesConfig | UploadDestinations.RcloneUploadCorrected |
| bot/helpers/uploader.py:224-241 | routing compares with `gdrive`/`rclone`, but cleanup compares with `telegram` | `default_uploader = "Telegram"` (or any other name): the item goes to Telegram and the local source is then deleted | the source kept whenever the upload went to Telegram | medium (not executed) | Uploader.CapitalisedTelegram | Uploader.CorrectedRemovalFollowsRoute |
| bot/helpers/uploader.py:44-46 | the Drive adapter's early returns (also lines 62-64, and the rclone ones at lines 86-93 and 109-111) are normal returns, and `upload_item` then removes the local source | `default_uploader = "gdrive"`, no `gdrive_id` and no `GDRIVE_ID`: nothing is uploaded and the downloaded file is deleted | the source removed only after it was delivered | high (not executed) | Uploader.AbortedDriveUploadLosesSource | Uploader.UploadItemCorrected |
| bot/modules/uploader_settings.py:139-143 | the panel (lines 37-38) treats a missing flag as `Config.STOP_DUPLICATE`, but the toggle treats it as `True` | no stored `stop_duplicate`, `STOP_DUPLICATE = False`: the panel shows Disabled, the first toggle stores False, the panel still shows Disabled | each toggle flips the displayed state | high (not executed) | UploaderSettings.FirstToggleCanKeepPanel | UploaderSettings.CorrectedToggleFlipsPanel |
| bot/modules/uploader_settings.py:10-16 | an unset default uploader displays as `Telegram` without consulting `Config.DEFAULT_UPLOAD`, which the router uses (bot/helpers/uploader.py:218-219) | no user choice, `DEFAULT_UPLOAD = "gdrive"`: the panel shows Telegram and uploads go to Google Drive | the panel names the destination the router will use | medium (not executed) | UploaderSettings.ShownDefaultIgnoresConfig | UploaderSettings.CorrectedDefaultMatchesRouter |

The split partitioner also seals an empty first archive when the first file
alone exceeds `MAX_SIZE` (bot/helpers/utils.py:252-253). The model keeps
this behaviour and characterises it in `Packaging.PartitionEmptyFirstPart`.
