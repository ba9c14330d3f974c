/**
 * The upload router of bot/helpers/uploader.py: which destination an item
 * goes to (`upload_item`), how Telegram receives it (`_telegram_upload`:
 * one file, a zipped container sent part by part, or a container sent track
 * by track), the folder size that decides between a split and a single
 * archive (`_get_folder_size`), and the removal of the local source
 * afterwards.
 *
 * The sends themselves are recorded as events; what Telegram does with them
 * is not modelled. The disk is the set of existing path names and `dirs`
 * the names among them that are directories.
 */
module Uploader {
  import opened Common
  import Packaging
  import AppleZip
  import UploadDestinations

  // ---------------------------------------------------------------------
  // Choosing the destination

  /** `uploader or Config.DEFAULT_UPLOAD or 'telegram'` */
  function ResolveUploader(userChoice: Option<string>, defaultUpload: Option<string>): (r: string)
    ensures r != []
    ensures Truthy(userChoice) ==> r == userChoice.value
    ensures !Truthy(userChoice) && Truthy(defaultUpload) ==> r == defaultUpload.value
    ensures !Truthy(userChoice) && !Truthy(defaultUpload) ==> r == "telegram"
  {
    OrElse(Or(userChoice, defaultUpload), "telegram")
  }

  datatype Destination = GDrive | Rclone | Telegram

  /** Only the exact names `gdrive` and `rclone` leave the Telegram branch. */
  function Route(uploader: string): (d: Destination)
    ensures d == GDrive <==> uploader == "gdrive"
    ensures d == Rclone <==> uploader == "rclone"
    ensures d == Telegram <==> uploader != "gdrive" && uploader != "rclone"
  {
    if uploader == "gdrive" then GDrive
    else if uploader == "rclone" then Rclone
    else Telegram
  }

  /** The router removes the local source unless the name is exactly `telegram`. */
  predicate RemovesSource(uploader: string)
  {
    uploader != "telegram"
  }

  /**
   * Any name other than the three exact ones, `Telegram` among them, is
   * uploaded to Telegram and then has its local source removed as well.
   */
  lemma TelegramByAnotherName(uploader: string)
    requires uploader != "telegram" && uploader != "gdrive" && uploader != "rclone"
    ensures Route(uploader) == Telegram && RemovesSource(uploader)
  {
  }

  lemma CapitalisedTelegram()
    ensures Route("Telegram") == Telegram && RemovesSource("Telegram")
  {
    TelegramByAnotherName("Telegram");
  }

  /** Cleanup tied to the route taken: only sources handed to a remote destination are removed. */
  predicate RemovesSourceCorrected(uploader: string)
  {
    Route(uploader) != Telegram
  }

  lemma CorrectedRemovalFollowsRoute(uploader: string)
    ensures RemovesSourceCorrected(uploader) <==> uploader == "gdrive" || uploader == "rclone"
    ensures RemovesSourceCorrected(uploader) ==> RemovesSource(uploader)
    ensures RemovesSource(uploader) && !RemovesSourceCorrected(uploader) <==>
              Route(uploader) == Telegram && uploader != "telegram"
  {
  }

  // ---------------------------------------------------------------------
  // Removing the local source

  /**
   * The cleanup after a remote upload: a directory is removed with
   * everything beneath it; a file is removed and then its thumbnail; a
   * failed removal of the file skips the thumbnail, and failures are ignored.
   */
  ghost predicate CleanedUp(disk: set<string>, disk': set<string>, dirs: set<string>, path: string, thumbnail: Option<string>)
  {
    if path in dirs then disk' == RemoveTree(disk, path)
    else if path !in disk then disk' == disk
    else if Truthy(thumbnail) then disk' == disk - {path, thumbnail.value}
    else disk' == disk - {path}
  }

  method CleanupSource(disk: set<string>, dirs: set<string>, path: string, thumbnail: Option<string>)
    returns (disk': set<string>)
    ensures CleanedUp(disk, disk', dirs, path, thumbnail)
  {
    if path in dirs {
      disk' := RemoveTree(disk, path);
    } else if path !in disk {
      disk' := disk;
    } else {
      disk' := disk - {path};
      if Truthy(thumbnail) {
        disk' := disk' - {thumbnail.value};
      }
    }
  }

  /**
   * After the cleanup the source is gone, nothing was added, and the only
   * names removed are the source, what lies beneath a source directory, and
   * the thumbnail of a source file.
   */
  lemma CleanupRemovesOnlySource(disk: set<string>, disk': set<string>, dirs: set<string>, path: string, thumbnail: Option<string>)
    requires CleanedUp(disk, disk', dirs, path, thumbnail)
    ensures path !in disk' && disk' <= disk
    ensures forall x :: x in disk && x !in disk' ==> Under(path, x) || (Truthy(thumbnail) && x == thumbnail.value)
    ensures path in dirs ==> forall x :: x in disk' ==> !Under(path, x)
  {
  }

  // ---------------------------------------------------------------------
  // Folder size

  /** Sizes of the walked files, where a file that cannot be stat'd counts nothing. */
  function WalkedSize(files: seq<Packaging.FileEntry>, unstatable: set<string>): nat
  {
    if files == [] then 0
    else
      var last := files[|files| - 1];
      WalkedSize(files[..|files| - 1], unstatable) + (if last.rel in unstatable then 0 else last.size)
  }

  /** `_get_folder_size` over the files of a walk. */
  method FolderSize(files: seq<Packaging.FileEntry>, unstatable: set<string>) returns (total: nat)
    ensures total == WalkedSize(files, unstatable)
  {
    total := 0;
    for i := 0 to |files|
      invariant total == WalkedSize(files[..i], unstatable)
    {
      assert files[..i + 1][..i] == files[..i];
      if files[i].rel !in unstatable {
        total := total + files[i].size;
      }
    }
    assert files[..|files|] == files;
  }

  /** The walked size never exceeds the folder's total, and equals it when every file can be stat'd. */
  lemma {:induction false} WalkedSizeBound(files: seq<Packaging.FileEntry>, unstatable: set<string>)
    ensures WalkedSize(files, unstatable) <= Packaging.Total(files)
    ensures (forall i :: 0 <= i < |files| ==> files[i].rel !in unstatable) ==>
              WalkedSize(files, unstatable) == Packaging.Total(files)
    decreases |files|
  {
    if files != [] {
      var init, last := files[..|files| - 1], files[|files| - 1];
      WalkedSizeBound(init, unstatable);
      assert files == init + [last];
      Packaging.TotalAppend(init, [last]);
      assert Packaging.Total([last]) == last.size by {
        assert [last][1..] == [];
      }
    }
  }

  // ---------------------------------------------------------------------
  // Telegram uploads

  datatype SendKind = Audio | Video | Document

  /** The caption template a send is formatted with. */
  datatype Caption = TrackCaption | VideoCaption | AlbumCaption | PlaylistCaption | ArtistCaption

  /** What the progress reporter and the chat see, in order. */
  datatype UploadEvent =
    | Progress(event: AppleZip.ProgressEvent)
    | Send(path: string, kind: SendKind, caption: Caption, index: Option<nat>, total: Option<nat>)

  /** The `bot_set` switches the Telegram branch reads. */
  datatype BotSettings = BotSettings(uploadMode: string, videoAsDocument: bool,
                                     appleAlbumZip: bool, applePlaylistZip: bool, artistZip: bool)

  /**
   * The metadata of one item: a file or a folder, its thumbnail, its tracks
   * (each given by the path of its file) and the text fields the archive
   * name is made from.
   */
  datatype Item = Item(filepath: Option<string>, folderpath: Option<string>, thumbnail: Option<string>,
                       tracks: Option<seq<string>>, items: Option<seq<string>>, fields: map<string, string>)

  datatype TelegramOutcome = Sent | Cancelled | Raised

  const UPLOADING := "Uploading"

  function StageIf(reporter: bool): seq<UploadEvent>
  {
    if reporter then [Progress(AppleZip.SetStage(UPLOADING))] else []
  }

  predicate IsContainer(contentType: string)
  {
    contentType == "album" || contentType == "playlist" || contentType == "artist"
  }

  /** The zip switch of each container type. */
  function UseZip(contentType: string, bot: BotSettings): bool
  {
    if contentType == "album" then bot.appleAlbumZip
    else if contentType == "playlist" then bot.applePlaylistZip
    else if contentType == "artist" then bot.artistZip
    else false
  }

  function ContainerCaption(contentType: string): Caption
  {
    if contentType == "album" then AlbumCaption
    else if contentType == "playlist" then PlaylistCaption
    else ArtistCaption
  }

  /** `metadata.get('tracks') or metadata.get('items', [])` */
  function TracksOf(item: Item): (r: seq<string>)
    ensures item.tracks.Some? && item.tracks.value != [] ==> r == item.tracks.value
    ensures (item.tracks.None? || item.tracks.value == []) && item.items.Some? ==> r == item.items.value
    ensures (item.tracks.None? || item.tracks.value == []) && item.items.None? ==> r == []
  {
    if item.tracks.Some? && item.tracks.value != [] then item.tracks.value
    else if item.items.Some? then item.items.value
    else []
  }

  /** The `index`-th of `total` sends of a container's archive parts, counting from 1. */
  function PartSend(paths: seq<string>, i: nat, caption: Caption): UploadEvent
    requires i < |paths|
  {
    Send(paths[i], Document, caption, Some(i + 1), Some(|paths|))
  }

  function PartSends(paths: seq<string>, caption: Caption): (r: seq<UploadEvent>)
    ensures |r| == |paths|
  {
    seq(|paths|, i requires 0 <= i < |paths| => PartSend(paths, i, caption))
  }

  /** The events of one track upload, as the recursive call for a track produces them. */
  function TrackUpload(path: string, reporter: bool, index: Option<nat>, total: Option<nat>): seq<UploadEvent>
  {
    StageIf(reporter) + [Send(path, Audio, TrackCaption, index, total)]
  }

  /** The track-by-track upload of a container: track k of n is sent as (k, n). */
  function TrackSends(tracks: seq<string>, n: nat, reporter: bool): seq<UploadEvent>
    decreases |tracks|
  {
    if tracks == [] then []
    else TrackSends(tracks[..|tracks| - 1], n, reporter)
         + TrackUpload(tracks[|tracks| - 1], reporter, Some(|tracks|), Some(n))
  }

  /**
   * Without a progress reporter, a container's tracks are sent one after
   * another as audio, the k-th (from 1) with index k and total n.
   */
  lemma {:induction false} TrackSendsIndexed(tracks: seq<string>, n: nat)
    ensures |TrackSends(tracks, n, false)| == |tracks|
    ensures forall k :: 0 <= k < |tracks| ==>
              TrackSends(tracks, n, false)[k] == Send(tracks[k], Audio, TrackCaption, Some(k + 1), Some(n))
    decreases |tracks|
  {
    if tracks != [] {
      var init := tracks[..|tracks| - 1];
      TrackSendsIndexed(init, n);
      forall k | 0 <= k < |tracks|
        ensures TrackSends(tracks, n, false)[k] == Send(tracks[k], Audio, TrackCaption, Some(k + 1), Some(n))
      {
        if k < |init| {
          assert tracks[k] == init[k];
        }
      }
    }
  }

  /**
   * An unzipped container sends the files listed under `tracks` when that
   * list is non-empty, and otherwise those under `items`: the k-th send
   * (from 1) carries the k-th listed file.
   */
  lemma UnzippedContainerSendsListed(item: Item)
    ensures item.tracks.Some? && item.tracks.value != [] ==>
              |TrackSends(TracksOf(item), |TracksOf(item)|, false)| == |item.tracks.value| &&
              forall k :: 0 <= k < |item.tracks.value| ==>
                TrackSends(TracksOf(item), |TracksOf(item)|, false)[k] ==
                  Send(item.tracks.value[k], Audio, TrackCaption, Some(k + 1), Some(|item.tracks.value|))
    ensures (item.tracks.None? || item.tracks.value == []) && item.items.Some? ==>
              |TrackSends(TracksOf(item), |TracksOf(item)|, false)| == |item.items.value| &&
              forall k :: 0 <= k < |item.items.value| ==>
                TrackSends(TracksOf(item), |TracksOf(item)|, false)[k] ==
                  Send(item.items.value[k], Audio, TrackCaption, Some(k + 1), Some(|item.items.value|))
    ensures (item.tracks.None? || item.tracks.value == []) && item.items.None? ==>
              TrackSends(TracksOf(item), |TracksOf(item)|, false) == []
  {
    TrackSendsIndexed(TracksOf(item), |TracksOf(item)|);
  }

  /** With a reporter, each track's send is preceded by the "Uploading" stage. */
  lemma {:induction false} TrackSendsStaged(tracks: seq<string>, n: nat)
    ensures |TrackSends(tracks, n, true)| == 2 * |tracks|
    ensures forall k :: 0 <= k < |tracks| ==>
              TrackSends(tracks, n, true)[2 * k] == Progress(AppleZip.SetStage(UPLOADING)) &&
              TrackSends(tracks, n, true)[2 * k + 1] == Send(tracks[k], Audio, TrackCaption, Some(k + 1), Some(n))
    decreases |tracks|
  {
    if tracks != [] {
      var init := tracks[..|tracks| - 1];
      TrackSendsStaged(init, n);
      forall k | 0 <= k < |tracks|
        ensures TrackSends(tracks, n, true)[2 * k] == Progress(AppleZip.SetStage(UPLOADING))
        ensures TrackSends(tracks, n, true)[2 * k + 1] == Send(tracks[k], Audio, TrackCaption, Some(k + 1), Some(n))
      {
        if k < |init| {
          assert tracks[k] == init[k];
        }
      }
    }
  }

  /** Sends each archive part as a document and removes it right after its send. */
  method SendParts(paths: seq<string>, caption: Caption, disk: set<string>)
    returns (events: seq<UploadEvent>, disk': set<string>)
    ensures events == PartSends(paths, caption)
    ensures disk' == disk - Packaging.Names(paths)
  {
    events := [];
    disk' := disk;
    for k := 0 to |paths|
      invariant |events| == k
      invariant forall i :: 0 <= i < k ==> events[i] == PartSend(paths, i, caption)
      invariant disk' == disk - Packaging.Names(paths[..k])
    {
      events := events + [Send(paths[k], Document, caption, Some(k + 1), Some(|paths|))];
      NamesSnoc(paths, k);
      disk' := disk' - {paths[k]};
    }
    assert paths[..|paths|] == paths;
  }

  lemma NamesSnoc(paths: seq<string>, k: nat)
    requires k < |paths|
    ensures Packaging.Names(paths[..k + 1]) == Packaging.Names(paths[..k]) + {paths[k]}
  {
    var a, b := Packaging.Names(paths[..k + 1]), Packaging.Names(paths[..k]) + {paths[k]};
    forall x | x in a ensures x in b {
      var j :| 0 <= j < k + 1 && paths[..k + 1][j] == x;
      if j < k {
        assert paths[..k][j] == x;
      }
    }
    forall x | x in b ensures x in a {
      if x == paths[k] {
        assert paths[..k + 1][k] == x;
      } else {
        var j :| 0 <= j < k && paths[..k][j] == x;
        assert paths[..k + 1][j] == x;
      }
    }
  }

  lemma NamesSingle(p: string)
    ensures Packaging.Names([p]) == {p}
  {
    assert [p][0] == p;
  }

  /** Uploads a container's tracks one by one, each as a track of the whole list. */
  method SendTracks(tracks: seq<string>, reporter: bool) returns (events: seq<UploadEvent>)
    ensures events == TrackSends(tracks, |tracks|, reporter)
  {
    events := [];
    for k := 0 to |tracks|
      invariant events == TrackSends(tracks[..k], |tracks|, reporter)
    {
      assert tracks[..k + 1][..k] == tracks[..k];
      events := events + TrackUpload(tracks[k], reporter, Some(k + 1), Some(|tracks|));
    }
    assert tracks[..|tracks|] == tracks;
  }

  /** The archive paths `zip_handler` returns for a folder too large for one archive. */
  function SplitArchivePaths(uploadMode: string, folder: string, files: seq<Packaging.FileEntry>): seq<string>
  {
    if uploadMode == "Telegram" then Packaging.PathsOf(Packaging.NamedParts(folder, Packaging.Partition(files)))
    else [folder + ".zip"]
  }

  /**
   * A folder larger than `MAX_SIZE` is archived by `zip_handler`, which
   * consumes the source files, and its parts are sent and removed. A walked
   * file that cannot be stat'd or opened raises out of `zip_handler`:
   * nothing is sent, and what it wrote and removed so far stays as it is.
   */
  method ZipLargeAndSend(folder: string, files: seq<Packaging.FileEntry>, faults: Packaging.Faults, caption: Caption,
                         bot: BotSettings, disk: set<string>)
    returns (raised: bool, events: seq<UploadEvent>, archives: seq<string>, disk': set<string>)
    ensures raised <==> Packaging.ZipRaises(bot.uploadMode, files, faults)
    ensures !raised ==> archives == SplitArchivePaths(bot.uploadMode, folder, files)
    ensures !raised ==> events == PartSends(archives, caption)
    ensures !raised ==> disk' == disk - Packaging.SourcePaths(folder, files) - Packaging.Names(archives)
    ensures raised ==> events == [] && archives == []
    ensures raised ==> disk' == Packaging.RaisedZipDisk(bot.uploadMode, folder, files, faults, disk)
  {
    var zipped;
    archives, raised, zipped := Packaging.ZipHandler(bot.uploadMode, folder, files, faults, disk);
    if raised {
      return true, [], [], zipped;
    }
    events, disk' := SendParts(archives, caption, zipped);
  }

  /** The path `create_apple_zip` settles on for `folder`. */
  function AppleArchivePath(folder: string, fields: map<string, string>, timestamp: nat, disk: set<string>): string
  {
    AppleZip.FirstFreePath(DirName(folder), AppleZip.ArchiveName(fields, timestamp), disk)
  }

  /** The single-archive walk sees the cancel event before any file it cannot write. */
  predicate SmallCancelled(files: seq<Packaging.FileEntry>, faults: Packaging.Faults, cancelAt: Option<nat>)
  {
    cancelAt.Some? && cancelAt.value < |files| && cancelAt.value <= Packaging.FirstUnreadable(files, Packaging.Unwritable(faults))
  }

  /** The single-archive walk reaches a file it cannot write before any cancel. */
  predicate SmallFailed(files: seq<Packaging.FileEntry>, faults: Packaging.Faults, cancelAt: Option<nat>)
  {
    var k := Packaging.FirstUnreadable(files, Packaging.Unwritable(faults));
    k < |files| && !AppleZip.CancelSeen(cancelAt, k)
  }

  /**
   * A folder within `MAX_SIZE` becomes one archive by `create_apple_zip`,
   * which keeps the source files; a cancel during zipping ends the upload,
   * a file that cannot be stat'd or opened raises and leaves the partial archive,
   * otherwise the archive is sent and removed, so the disk ends as it began.
   */
  method ZipSmallAndSend(folder: string, files: seq<Packaging.FileEntry>, faults: Packaging.Faults,
                         fields: map<string, string>, caption: Caption,
                         reporter: bool, timestamp: nat, cancelAt: Option<nat>, disk: set<string>)
    returns (outcome: TelegramOutcome, events: seq<UploadEvent>, archives: seq<string>, disk': set<string>)
    ensures outcome == Cancelled <==> SmallCancelled(files, faults, cancelAt)
    ensures outcome == Raised <==> SmallFailed(files, faults, cancelAt)
    ensures outcome != Sent ==> archives == [] && events == ZipProgress(reporter, files, faults, cancelAt)
    ensures outcome != Raised ==> disk' == disk
    ensures outcome == Raised ==>
              AppleArchivePath(folder, fields, timestamp, disk) !in disk &&
              disk' == disk + {AppleArchivePath(folder, fields, timestamp, disk)}
    ensures outcome == Sent ==> archives == [AppleArchivePath(folder, fields, timestamp, disk)] && archives[0] !in disk
    ensures outcome == Sent ==> AppleZip.FirstFree(DirName(folder), AppleZip.ArchiveName(fields, timestamp), disk, archives[0])
    ensures outcome == Sent ==> events == ZipProgress(reporter, files, faults, cancelAt) + PartSends(archives, caption)
  {
    var zipOutcome, zipEvents, zipped := AppleZip.CreateAppleZip(folder, files, Packaging.Unwritable(faults), fields, timestamp, reporter, cancelAt, disk);
    events := Wrap(zipEvents);
    if zipOutcome.Cancelled? {
      return Cancelled, events, [], disk;
    }
    if zipOutcome.Failed? {
      return Raised, events, [], zipped;
    }
    archives := [zipOutcome.path];
    var sends;
    sends, disk' := SendParts(archives, caption, zipped);
    NamesSingle(zipOutcome.path);
    events := events + sends;
    outcome := Sent;
  }

  function Wrap(events: seq<AppleZip.ProgressEvent>): (r: seq<UploadEvent>)
    ensures |r| == |events|
  {
    seq(|events|, i requires 0 <= i < |events| => Progress(events[i]))
  }

  /** The reporter events of zipping `files` into one archive, up to a cancel or a file it cannot write. */
  function ZipProgress(reporter: bool, files: seq<Packaging.FileEntry>, faults: Packaging.Faults, cancelAt: Option<nat>)
    : seq<UploadEvent>
  {
    Wrap(AppleZip.ZipEvents(reporter, |files|, AppleZip.FilesWritten(Packaging.FirstUnreadable(files, Packaging.Unwritable(faults)), cancelAt)))
  }

  /** `_telegram_upload` for a container: zipped (by size) or track by track. */
  method UploadContainer(item: Item, contentType: string, bot: BotSettings, reporter: bool,
                         files: seq<Packaging.FileEntry>, faults: Packaging.Faults,
                         timestamp: nat, cancelAt: Option<nat>, disk: set<string>)
    returns (outcome: TelegramOutcome, events: seq<UploadEvent>, archives: seq<string>, disk': set<string>)
    requires IsContainer(contentType)
    ensures !UseZip(contentType, bot) ==>
              outcome == Sent && archives == [] && disk' == disk && events == TrackSends(TracksOf(item), |TracksOf(item)|, reporter)
    ensures UseZip(contentType, bot) && item.folderpath.None? ==> outcome == Raised && events == [] && archives == [] && disk' == disk
    ensures UseZip(contentType, bot) && item.folderpath.Some? && WalkedSize(files, faults.unstatable) > Packaging.MAX_SIZE ==>
              LargeContainerSent(item.folderpath.value, files, faults, ContainerCaption(contentType), bot, disk,
                                 outcome, events, archives, disk')
    ensures UseZip(contentType, bot) && item.folderpath.Some? && WalkedSize(files, faults.unstatable) <= Packaging.MAX_SIZE ==>
              SmallContainerSent(item.folderpath.value, files, faults, item.fields, ContainerCaption(contentType),
                                 reporter, timestamp, cancelAt, disk, outcome, events, archives, disk')
    ensures outcome == TelegramOutcomeOf(item, contentType, bot, files, faults, cancelAt)
    ensures disk' == TelegramDisk(item, contentType, bot, files, faults, timestamp, cancelAt, disk)
  {
    archives := [];
    disk' := disk;
    if !UseZip(contentType, bot) {
      var tracks := TracksOf(item);
      events := SendTracks(tracks, reporter);
      return Sent, events, archives, disk';
    }
    if item.folderpath.None? {
      return Raised, [], archives, disk';
    }
    var folder := item.folderpath.value;
    var size := FolderSize(files, faults.unstatable);
    var caption := ContainerCaption(contentType);
    if size > Packaging.MAX_SIZE {
      var raised;
      raised, events, archives, disk' := ZipLargeAndSend(folder, files, faults, caption, bot, disk);
      outcome := if raised then Raised else Sent;
    } else {
      outcome, events, archives, disk' := ZipSmallAndSend(folder, files, faults, item.fields, caption, reporter, timestamp, cancelAt, disk);
    }
  }

  /**
   * How a folder above `MAX_SIZE` ends: unless `zip_handler` raises, the
   * parts it names are sent and removed with the sources; if it raises,
   * nothing is sent, and what it wrote and removed stays.
   */
  predicate LargeContainerSent(folder: string, files: seq<Packaging.FileEntry>, faults: Packaging.Faults, caption: Caption,
                               bot: BotSettings, disk: set<string>,
                               outcome: TelegramOutcome, events: seq<UploadEvent>, archives: seq<string>, disk': set<string>)
  {
    && (!Packaging.ZipRaises(bot.uploadMode, files, faults) ==>
          outcome == Sent &&
          archives == SplitArchivePaths(bot.uploadMode, folder, files) &&
          events == PartSends(archives, caption) &&
          disk' == disk - Packaging.SourcePaths(folder, files) - Packaging.Names(archives))
    && (Packaging.ZipRaises(bot.uploadMode, files, faults) ==>
          outcome == Raised && events == [] && archives == [] &&
          disk' == Packaging.RaisedZipDisk(bot.uploadMode, folder, files, faults, disk))
  }

  /**
   * How a folder within `MAX_SIZE` ends: cancelled with the disk unchanged,
   * raised on a file it cannot write with the partial archive left at the path
   * picked for it, or sent as that one archive, which is then removed.
   */
  ghost predicate SmallContainerSent(folder: string, files: seq<Packaging.FileEntry>, faults: Packaging.Faults,
                               fields: map<string, string>, caption: Caption, reporter: bool, timestamp: nat,
                               cancelAt: Option<nat>, disk: set<string>,
                               outcome: TelegramOutcome, events: seq<UploadEvent>, archives: seq<string>, disk': set<string>)
  {
    var path := AppleArchivePath(folder, fields, timestamp, disk);
    && (outcome == Cancelled <==> SmallCancelled(files, faults, cancelAt))
    && (outcome == Raised <==> SmallFailed(files, faults, cancelAt))
    && (outcome != Sent ==> archives == [] && events == ZipProgress(reporter, files, faults, cancelAt))
    && (outcome != Raised ==> disk' == disk)
    && (outcome == Raised ==> path !in disk && disk' == disk + {path})
    && (outcome == Sent ==>
          archives == [path] && path !in disk &&
          AppleZip.FirstFree(DirName(folder), AppleZip.ArchiveName(fields, timestamp), disk, path) &&
          events == ZipProgress(reporter, files, faults, cancelAt) + PartSends(archives, caption))
  }

  /**
   * `_telegram_upload`: the "Uploading" stage, then a track as audio, a
   * video as a video or a document, or a container; other types send
   * nothing. A missing file path raises.
   */
  method TelegramUpload(item: Item, contentType: string, index: Option<nat>, total: Option<nat>,
                        bot: BotSettings, reporter: bool, files: seq<Packaging.FileEntry>, faults: Packaging.Faults,
                        timestamp: nat, cancelAt: Option<nat>, disk: set<string>)
    returns (outcome: TelegramOutcome, events: seq<UploadEvent>, archives: seq<string>, disk': set<string>)
    ensures StageIf(reporter) <= events
    ensures !IsContainer(contentType) ==> archives == [] && disk' == disk
    ensures (contentType == "track" || contentType == "video") && item.filepath.None? ==>
              outcome == Raised && events == StageIf(reporter)
    ensures contentType == "track" && item.filepath.Some? ==>
              outcome == Sent && events == TrackUpload(item.filepath.value, reporter, index, total)
    ensures contentType == "video" && item.filepath.Some? ==>
              outcome == Sent &&
              events == StageIf(reporter) + [Send(item.filepath.value, if bot.videoAsDocument then Document else Video,
                                                  VideoCaption, Some(1), Some(1))]
    ensures contentType != "track" && contentType != "video" && !IsContainer(contentType) ==>
              outcome == Sent && events == StageIf(reporter)
    ensures IsContainer(contentType) && !UseZip(contentType, bot) ==>
              outcome == Sent && disk' == disk &&
              events == StageIf(reporter) + TrackSends(TracksOf(item), |TracksOf(item)|, reporter)
    ensures IsContainer(contentType) && UseZip(contentType, bot) && item.folderpath.None? ==>
              outcome == Raised && archives == [] && disk' == disk && events == StageIf(reporter)
    ensures IsContainer(contentType) && UseZip(contentType, bot) && item.folderpath.Some? &&
            WalkedSize(files, faults.unstatable) > Packaging.MAX_SIZE ==>
              LargeContainerSent(item.folderpath.value, files, faults, ContainerCaption(contentType), bot, disk,
                                 outcome, events[|StageIf(reporter)|..], archives, disk')
    ensures IsContainer(contentType) && UseZip(contentType, bot) && item.folderpath.Some? &&
            WalkedSize(files, faults.unstatable) <= Packaging.MAX_SIZE ==>
              SmallContainerSent(item.folderpath.value, files, faults, item.fields, ContainerCaption(contentType),
                                 reporter, timestamp, cancelAt, disk, outcome, events[|StageIf(reporter)|..], archives, disk')
    ensures outcome == TelegramOutcomeOf(item, contentType, bot, files, faults, cancelAt)
    ensures disk' == TelegramDisk(item, contentType, bot, files, faults, timestamp, cancelAt, disk)
  {
    events := StageIf(reporter);
    archives := [];
    disk' := disk;
    if contentType == "track" || contentType == "video" {
      if item.filepath.None? {
        return Raised, events, archives, disk';
      }
      if contentType == "track" {
        events := events + [Send(item.filepath.value, Audio, TrackCaption, index, total)];
      } else {
        var kind := if bot.videoAsDocument then Document else Video;
        events := events + [Send(item.filepath.value, kind, VideoCaption, Some(1), Some(1))];
      }
      outcome := Sent;
    } else if IsContainer(contentType) {
      var more;
      outcome, more, archives, disk' := UploadContainer(item, contentType, bot, reporter, files, faults, timestamp, cancelAt, disk);
      events := events + more;
      assert events[|StageIf(reporter)|..] == more;
    } else {
      outcome := Sent;
    }
  }

  /**
   * How `_telegram_upload` ends: a raise for a missing path or for a walked
   * file that cannot be stat'd or opened while zipping, a cancel while zipping into one
   * archive, or sent.
   */
  function TelegramOutcomeOf(item: Item, contentType: string, bot: BotSettings,
                             files: seq<Packaging.FileEntry>, faults: Packaging.Faults, cancelAt: Option<nat>): TelegramOutcome
  {
    if (contentType == "track" || contentType == "video") && item.filepath.None? then Raised
    else if IsContainer(contentType) && UseZip(contentType, bot) then
      if item.folderpath.None? then Raised
      else if WalkedSize(files, faults.unstatable) > Packaging.MAX_SIZE then
        if Packaging.ZipRaises(bot.uploadMode, files, faults) then Raised else Sent
      else if SmallCancelled(files, faults, cancelAt) then Cancelled
      else if SmallFailed(files, faults, cancelAt) then Raised
      else Sent
    else Sent
  }

  /**
   * The disk `_telegram_upload` leaves: a split archive consumes the source
   * files and its parts; interrupted by a file it cannot stat or open, the
   * split leaves what it wrote so far, and the single archive leaves its partial file.
   */
  function TelegramDisk(item: Item, contentType: string, bot: BotSettings, files: seq<Packaging.FileEntry>,
                        faults: Packaging.Faults, timestamp: nat, cancelAt: Option<nat>, disk: set<string>): set<string>
  {
    if IsContainer(contentType) && UseZip(contentType, bot) && item.folderpath.Some? then
      var folder := item.folderpath.value;
      if WalkedSize(files, faults.unstatable) > Packaging.MAX_SIZE then
        if Packaging.ZipRaises(bot.uploadMode, files, faults) then Packaging.RaisedZipDisk(bot.uploadMode, folder, files, faults, disk)
        else disk - Packaging.SourcePaths(folder, files) - Packaging.Names(SplitArchivePaths(bot.uploadMode, folder, files))
      else if SmallFailed(files, faults, cancelAt) then disk + {AppleArchivePath(folder, item.fields, timestamp, disk)}
      else disk
    else disk
  }

  /**
   * Unless it raises, the Telegram branch only removes names; whatever it
   * removes is a source file of a zipped container's folder or one of the
   * parts made from it; only a zipped container can be cancelled.
   */
  lemma TelegramRemovesUnlessRaised(item: Item, contentType: string, bot: BotSettings, files: seq<Packaging.FileEntry>,
                                    faults: Packaging.Faults, timestamp: nat, cancelAt: Option<nat>, disk: set<string>)
    ensures TelegramOutcomeOf(item, contentType, bot, files, faults, cancelAt) != Raised ==>
              TelegramDisk(item, contentType, bot, files, faults, timestamp, cancelAt, disk) <= disk
    ensures TelegramDisk(item, contentType, bot, files, faults, timestamp, cancelAt, disk) != disk ==>
              IsContainer(contentType) && UseZip(contentType, bot) && item.folderpath.Some?
    ensures item.folderpath.Some? ==>
              disk - TelegramDisk(item, contentType, bot, files, faults, timestamp, cancelAt, disk)
                <= Packaging.SourcePaths(item.folderpath.value, files) +
                   Packaging.Names(SplitArchivePaths(bot.uploadMode, item.folderpath.value, files))
    ensures !IsContainer(contentType) ==> TelegramOutcomeOf(item, contentType, bot, files, faults, cancelAt) != Cancelled
  {
    if IsContainer(contentType) && UseZip(contentType, bot) && item.folderpath.Some? {
      var folder := item.folderpath.value;
      if WalkedSize(files, faults.unstatable) > Packaging.MAX_SIZE && Packaging.ZipRaises(bot.uploadMode, files, faults) {
        Packaging.RaisedZipRemovesOnlyWalked(bot.uploadMode, folder, files, faults, disk);
      }
    }
  }

  // ---------------------------------------------------------------------
  // The router

  datatype ItemOutcome = Finished | ItemCancelled | ItemRaised

  /** Everything the router reads besides the item and the user's settings. */
  datatype Environment = Environment(
    config: UploadDestinations.UploadConfig, bot: BotSettings, reporter: bool,
    dirs: set<string>, files: seq<Packaging.FileEntry>, faults: Packaging.Faults,
    timestamp: nat, cancelAt: Option<nat>, globalRcloneConfig: Blob,
    transferRaises: bool, rcloneCancelled: bool)

  function ResolvedUploader(env: Environment, settings: UserSettings): string
  {
    ResolveUploader(TextSetting(settings, "default_uploader"), env.config.defaultUpload)
  }

  /** `metadata.get('filepath') or metadata.get('folderpath')` */
  function SourcePath(item: Item): Option<string>
  {
    Or(item.filepath, item.folderpath)
  }

  /** The `name` handed to the remote destinations: the item's title, if any. */
  function TitleOf(item: Item): Option<string>
  {
    if "title" in item.fields then Some(item.fields["title"]) else None
  }

  /** How `rclone_upload` ends for this item. */
  function RcloneOutcomeFor(env: Environment, settings: UserSettings, userId: nat, item: Item, disk: set<string>)
    : UploadDestinations.Outcome<UploadDestinations.RcloneJob>
  {
    UploadDestinations.RcloneOutcome(env.config, settings, userId, env.globalRcloneConfig, SourcePath(item), TitleOf(item),
                                     env.dirs, env.transferRaises, env.rcloneCancelled, disk)
  }

  /**
   * `upload_item`: the upload goes to the resolved destination; when that
   * returns normally and the uploader is not exactly `telegram`, the local
   * source is removed. `uploaded` is the disk between the two steps.
   */
  method UploadItem(env: Environment, settings: UserSettings, userId: nat, item: Item, contentType: string,
                    index: Option<nat>, total: Option<nat>, disk: set<string>)
    returns (outcome: ItemOutcome, route: Destination, uploaded: set<string>, disk': set<string>)
    ensures route == Route(ResolvedUploader(env, settings))
    ensures outcome == Finished && RemovesSource(ResolvedUploader(env, settings)) && SourcePath(item).Some? ==>
              CleanedUp(uploaded, disk', env.dirs, SourcePath(item).value, item.thumbnail)
    ensures outcome == Finished ==> !RemovesSource(ResolvedUploader(env, settings)) || SourcePath(item).Some?
    ensures outcome != Finished || !RemovesSource(ResolvedUploader(env, settings)) ==> disk' == uploaded
    ensures route == GDrive ==>
              uploaded == UploadDestinations.DriveDisk(env.config, settings, userId, disk) &&
              outcome != ItemCancelled &&
              (outcome == Finished <==>
                 !UploadDestinations.DriveOutcome(env.config, settings, userId, env.transferRaises).Raised? && SourcePath(item).Some?)
    ensures route == Rclone ==>
              uploaded == UploadDestinations.RcloneDisk(env.config, settings, userId, disk) &&
              outcome != ItemCancelled &&
              (outcome == Finished <==>
                 !RcloneOutcomeFor(env, settings, userId, item, disk).Raised? && SourcePath(item).Some?)
    ensures route == Telegram ==>
              uploaded == TelegramDisk(item, contentType, env.bot, env.files, env.faults, env.timestamp, env.cancelAt, disk) &&
              (outcome == ItemCancelled <==>
                 TelegramOutcomeOf(item, contentType, env.bot, env.files, env.faults, env.cancelAt) == Cancelled) &&
              (outcome == Finished <==>
                 TelegramOutcomeOf(item, contentType, env.bot, env.files, env.faults, env.cancelAt) == Sent &&
                 (!RemovesSource(ResolvedUploader(env, settings)) || SourcePath(item).Some?))
  {
    var uploader := ResolvedUploader(env, settings);
    route := Route(uploader);
    var path := SourcePath(item);
    var name := TitleOf(item);
    var normal: bool;
    if route == GDrive {
      var o;
      o, uploaded := UploadDestinations.GDriveUpload(env.config, settings, userId, env.transferRaises, disk);
      normal := !o.Raised?;
      outcome := if normal then Finished else ItemRaised;
    } else if route == Rclone {
      var o;
      o, uploaded := UploadDestinations.RcloneUpload(env.config, settings, userId, env.globalRcloneConfig, path, name,
                                                      env.dirs, env.transferRaises, env.rcloneCancelled, disk);
      normal := !o.Raised?;
      outcome := if normal then Finished else ItemRaised;
    } else {
      var o, events, archives;
      o, events, archives, uploaded := TelegramUpload(item, contentType, index, total, env.bot, env.reporter,
                                                      env.files, env.faults, env.timestamp, env.cancelAt, disk);
      outcome := if o == Sent then Finished else if o == Cancelled then ItemCancelled else ItemRaised;
    }
    disk' := uploaded;
    if outcome == Finished && RemovesSource(uploader) {
      if path.None? {
        outcome := ItemRaised;
      } else {
        disk' := CleanupSource(uploaded, env.dirs, path.value, item.thumbnail);
      }
    }
  }

  // ---------------------------------------------------------------------
  // Cleanup after an early return

  /**
   * An early return of the Drive adapter (no folder id) is a normal return,
   * so the router goes on to remove the local source: the source is gone
   * although nothing was uploaded.
   */
  lemma AbortedDriveUploadLosesSource(env: Environment, settings: UserSettings, userId: nat, item: Item,
                                      disk: set<string>, disk': set<string>)
    requires ResolvedUploader(env, settings) == "gdrive"
    requires !Truthy(UploadDestinations.DriveFolderId(env.config, settings))
    requires SourcePath(item).Some? && SourcePath(item).value in disk
    requires CleanedUp(UploadDestinations.DriveDisk(env.config, settings, userId, disk), disk', env.dirs,
                       SourcePath(item).value, item.thumbnail)
    ensures UploadDestinations.DriveOutcome(env.config, settings, userId, env.transferRaises) == UploadDestinations.Aborted(UploadDestinations.NoFolderId)
    ensures Route(ResolvedUploader(env, settings)) == GDrive && RemovesSource(ResolvedUploader(env, settings))
    ensures SourcePath(item).value !in disk'
  {
    CleanupRemovesOnlySource(UploadDestinations.DriveDisk(env.config, settings, userId, disk), disk', env.dirs,
                             SourcePath(item).value, item.thumbnail);
  }

  /** The remote adapter taken for this item returned early. */
  predicate RemoteAborted(env: Environment, settings: UserSettings, userId: nat, item: Item, disk: set<string>)
  {
    var route := Route(ResolvedUploader(env, settings));
    || (route == GDrive && UploadDestinations.DriveOutcome(env.config, settings, userId, env.transferRaises).Aborted?)
    || (route == Rclone && RcloneOutcomeFor(env, settings, userId, item, disk).Aborted?)
  }

  /** The remote adapter taken for this item finished its transfer. */
  predicate RemoteDelivered(env: Environment, settings: UserSettings, userId: nat, item: Item, disk: set<string>)
  {
    var route := Route(ResolvedUploader(env, settings));
    || (route == GDrive && UploadDestinations.DriveOutcome(env.config, settings, userId, env.transferRaises).Done?)
    || (route == Rclone && RcloneOutcomeFor(env, settings, userId, item, disk).Done?)
  }

  /**
   * `upload_item` removing the local source only after a remote adapter has
   * finished its transfer: an early return, and any Telegram upload, keep it.
   */
  method UploadItemCorrected(env: Environment, settings: UserSettings, userId: nat, item: Item, contentType: string,
                             index: Option<nat>, total: Option<nat>, disk: set<string>)
    returns (outcome: ItemOutcome, route: Destination, uploaded: set<string>, disk': set<string>)
    ensures route == Route(ResolvedUploader(env, settings))
    ensures route == GDrive ==> uploaded == UploadDestinations.DriveDisk(env.config, settings, userId, disk)
    ensures route == Rclone ==> uploaded == UploadDestinations.RcloneDisk(env.config, settings, userId, disk)
    ensures route == Telegram ==> uploaded == TelegramDisk(item, contentType, env.bot, env.files, env.faults, env.timestamp, env.cancelAt, disk)
    ensures RemoteDelivered(env, settings, userId, item, disk) && SourcePath(item).Some? ==>
              outcome == Finished && CleanedUp(uploaded, disk', env.dirs, SourcePath(item).value, item.thumbnail)
    ensures !RemoteDelivered(env, settings, userId, item, disk) ==> disk' == uploaded
    ensures RemoteAborted(env, settings, userId, item, disk) ==> outcome == Finished && disk <= disk'
  {
    var uploader := ResolvedUploader(env, settings);
    route := Route(uploader);
    var path := SourcePath(item);
    var delivered := false;
    if route == GDrive {
      var o;
      o, uploaded := UploadDestinations.GDriveUpload(env.config, settings, userId, env.transferRaises, disk);
      delivered := o.Done?;
      outcome := if o.Raised? then ItemRaised else Finished;
    } else if route == Rclone {
      var o;
      o, uploaded := UploadDestinations.RcloneUpload(env.config, settings, userId, env.globalRcloneConfig, path, TitleOf(item),
                                                      env.dirs, env.transferRaises, env.rcloneCancelled, disk);
      delivered := o.Done?;
      outcome := if o.Raised? then ItemRaised else Finished;
    } else {
      var o, events, archives;
      o, events, archives, uploaded := TelegramUpload(item, contentType, index, total, env.bot, env.reporter,
                                                      env.files, env.faults, env.timestamp, env.cancelAt, disk);
      outcome := if o == Sent then Finished else if o == Cancelled then ItemCancelled else ItemRaised;
    }
    disk' := uploaded;
    if delivered {
      if path.None? {
        outcome := ItemRaised;
      } else {
        disk' := CleanupSource(uploaded, env.dirs, path.value, item.thumbnail);
      }
    }
  }
}
