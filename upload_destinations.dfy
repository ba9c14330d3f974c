/**
 * The Google Drive and rclone destinations of the upload router
 * (`gdrive_upload`, `rclone_upload` and `_post_rclone_manage_button` in
 * bot/helpers/uploader.py): where the destination and the credentials come
 * from, the per-user scratch directory the credentials are written to, what
 * is left on disk afterwards, and the record stored for the "manage" button.
 *
 * The transfer itself (the Drive client and the rclone subprocess) is not
 * modelled: whether it raises, and whether the rclone listener was
 * cancelled, are inputs. Messages sent to the user are not modelled; an
 * early return after such a message is an `Aborted` outcome.
 */
module UploadDestinations {
  import opened Common

  /** The bot-wide `Config` values the uploader and its settings panels read. */
  datatype UploadConfig = UploadConfig(
    defaultUpload: Option<string>,
    localStorage: string,
    gdriveId: Option<string>,
    useServiceAccounts: bool,
    indexUrl: Option<string>,
    indexLink: Option<string>,
    stopDuplicate: bool,
    rcloneConfig: Option<string>,
    rcloneDest: Option<string>,
    rcloneFlags: Option<string>)

  /** Why an adapter returned early. */
  datatype Abort = NoFolderId | NoToken | NoRcloneConfig | NoDestination

  /** An early return, a finished transfer, or an exception leaving the adapter. */
  datatype Outcome<T> = Aborted(reason: Abort) | Done(job: T) | Raised

  /** What the Drive client is handed: the destination and the token file, if any. */
  datatype DriveJob = DriveJob(dest: string, tokenPath: Option<string>)

  /** What the rclone helper is handed, and the manage record stored afterwards. */
  datatype RcloneJob = RcloneJob(dest: string, flags: Option<string>, configPath: string,
                                 credentials: Blob, manage: Option<ManageContext>)

  // ---------------------------------------------------------------------
  // Scratch directories

  /** `os.path.join(Config.LOCAL_STORAGE, str(user_id), leaf)` */
  function ScratchDir(storage: string, userId: nat, leaf: string): string
  {
    PathJoin(PathJoin(storage, NatToString(userId)), leaf)
  }

  function DriveScratch(config: UploadConfig, userId: nat): string
  {
    ScratchDir(config.localStorage, userId, "gdrive_creds")
  }

  function RcloneScratch(config: UploadConfig, userId: nat): string
  {
    ScratchDir(config.localStorage, userId, "rclone_creds")
  }

  /** A path joined onto a directory name lies beneath that directory. */
  lemma JoinedUnder(dir: string, leaf: string)
    requires dir != [] && dir[|dir| - 1] != '/'
    requires leaf != [] && leaf[0] != '/'
    ensures Under(dir, PathJoin(dir, leaf))
  {
  }

  /** A scratch directory is a non-empty name that does not end in `/`. */
  lemma ScratchDirShape(storage: string, userId: nat, leaf: string)
    requires leaf != [] && leaf[0] != '/' && leaf[|leaf| - 1] != '/'
    ensures ScratchDir(storage, userId, leaf) != []
    ensures ScratchDir(storage, userId, leaf)[|ScratchDir(storage, userId, leaf)| - 1] != '/'
  {
    JoinEndsLikeLeaf(PathJoin(storage, NatToString(userId)), leaf);
  }

  lemma JoinEndsLikeLeaf(a: string, leaf: string)
    requires leaf != [] && leaf[0] != '/'
    ensures PathJoin(a, leaf) != [] && PathJoin(a, leaf)[|PathJoin(a, leaf)| - 1] == leaf[|leaf| - 1]
  {
  }

  /** Removing a tree after adding names beneath it is the same as removing it at once. */
  lemma RemoveTreeAbsorbs(disk: set<string>, dir: string, added: set<string>)
    requires forall x :: x in added ==> Under(dir, x)
    ensures RemoveTree(disk + added, dir) == RemoveTree(disk, dir)
  {
  }

  // ---------------------------------------------------------------------
  // Google Drive

  /** `gdrive_id or Config.GDRIVE_ID` */
  function DriveFolderId(config: UploadConfig, settings: UserSettings): Option<string>
  {
    Or(TextSetting(settings, "gdrive_id"), config.gdriveId)
  }

  function DriveToken(settings: UserSettings): Option<Blob>
  {
    BlobSetting(settings, "gdrive_token")
  }

  /**
   * `gdrive_upload`. Without a folder id nothing is written. Otherwise the
   * scratch directory is created; with service accounts the destination is
   * `sa:<id>` and no token file is used, else the user's token blob is
   * written to `token.pickle` there, and without a token blob the call
   * returns with the scratch directory still on disk. Every path through
   * the transfer removes the scratch directory.
   */
  method GDriveUpload(config: UploadConfig, settings: UserSettings, userId: nat, transferRaises: bool, disk: set<string>)
    returns (outcome: Outcome<DriveJob>, disk': set<string>)
    ensures !Truthy(DriveFolderId(config, settings)) ==> outcome == Aborted(NoFolderId) && disk' == disk
    ensures Truthy(DriveFolderId(config, settings)) && !config.useServiceAccounts && !BlobGiven(DriveToken(settings)) ==>
              outcome == Aborted(NoToken) && disk' == disk + {DriveScratch(config, userId)}
    ensures Truthy(DriveFolderId(config, settings)) && (config.useServiceAccounts || BlobGiven(DriveToken(settings))) ==>
              disk' == RemoveTree(disk, DriveScratch(config, userId)) &&
              outcome == (if transferRaises then Raised else Done(DriveJobFor(config, settings, userId)))
    ensures outcome == DriveOutcome(config, settings, userId, transferRaises)
    ensures disk' == DriveDisk(config, settings, userId, disk)
  {
    var folderId := DriveFolderId(config, settings);
    if !Truthy(folderId) {
      return Aborted(NoFolderId), disk;
    }
    var scratch := DriveScratch(config, userId);
    disk' := disk + {scratch};
    var tokenPath: Option<string> := Some(PathJoin(scratch, "token.pickle"));
    var dest := folderId.value;
    if config.useServiceAccounts {
      dest := "sa:" + folderId.value;
      tokenPath := None;
    } else {
      if !BlobGiven(DriveToken(settings)) {
        return Aborted(NoToken), disk';
      }
      disk' := disk' + {tokenPath.value};
    }
    outcome := if transferRaises then Raised else Done(DriveJob(dest, tokenPath));
    DriveScratchAbsorbs(config, userId, disk, tokenPath);
    disk' := RemoveTree(disk', scratch);
  }

  /** The job handed to the Drive client once the credentials are in place. */
  function DriveJobFor(config: UploadConfig, settings: UserSettings, userId: nat): DriveJob
    requires Truthy(DriveFolderId(config, settings))
  {
    var id := DriveFolderId(config, settings).value;
    if config.useServiceAccounts then DriveJob("sa:" + id, None)
    else DriveJob(id, Some(PathJoin(DriveScratch(config, userId), "token.pickle")))
  }

  /** What `gdrive_upload` ends with: an early return, an exception from the transfer, or the job done. */
  function DriveOutcome(config: UploadConfig, settings: UserSettings, userId: nat, transferRaises: bool): Outcome<DriveJob>
  {
    if !Truthy(DriveFolderId(config, settings)) then Aborted(NoFolderId)
    else if !config.useServiceAccounts && !BlobGiven(DriveToken(settings)) then Aborted(NoToken)
    else if transferRaises then Raised
    else Done(DriveJobFor(config, settings, userId))
  }

  /** The disk `gdrive_upload` leaves behind. */
  function DriveDisk(config: UploadConfig, settings: UserSettings, userId: nat, disk: set<string>): set<string>
  {
    if !Truthy(DriveFolderId(config, settings)) then disk
    else if !config.useServiceAccounts && !BlobGiven(DriveToken(settings)) then disk + {DriveScratch(config, userId)}
    else RemoveTree(disk, DriveScratch(config, userId))
  }

  /**
   * `gdrive_upload` changes nothing on disk outside its scratch directory:
   * the item being uploaded is never touched, and no exit raises unless the
   * transfer does.
   */
  lemma DriveTouchesOnlyScratch(config: UploadConfig, settings: UserSettings, userId: nat, transferRaises: bool, disk: set<string>)
    ensures forall x :: (x in disk) != (x in DriveDisk(config, settings, userId, disk)) ==> Under(DriveScratch(config, userId), x)
    ensures DriveOutcome(config, settings, userId, transferRaises).Raised? <==>
              transferRaises && Truthy(DriveFolderId(config, settings)) && (config.useServiceAccounts || BlobGiven(DriveToken(settings)))
  {
    assert Under(DriveScratch(config, userId), DriveScratch(config, userId));
  }

  lemma DriveScratchAbsorbs(config: UploadConfig, userId: nat, disk: set<string>, tokenPath: Option<string>)
    requires tokenPath.Some? ==> tokenPath.value == PathJoin(DriveScratch(config, userId), "token.pickle")
    ensures RemoveTree(disk + {DriveScratch(config, userId)} + (if tokenPath.Some? then {tokenPath.value} else {}),
                       DriveScratch(config, userId))
            == RemoveTree(disk, DriveScratch(config, userId))
  {
    var scratch := DriveScratch(config, userId);
    ScratchDirShape(config.localStorage, userId, "gdrive_creds");
    JoinedUnder(scratch, "token.pickle");
    RemoveTreeAbsorbs(disk, scratch, {scratch} + (if tokenPath.Some? then {tokenPath.value} else {}));
    assert disk + {scratch} + (if tokenPath.Some? then {tokenPath.value} else {})
        == disk + ({scratch} + (if tokenPath.Some? then {tokenPath.value} else {}));
  }

  /** In user mode the token file lies inside the scratch directory that is removed afterwards. */
  lemma TokenInsideScratch(config: UploadConfig, settings: UserSettings, userId: nat)
    requires Truthy(DriveFolderId(config, settings)) && !config.useServiceAccounts
    ensures DriveJobFor(config, settings, userId).tokenPath.Some?
    ensures Under(DriveScratch(config, userId), DriveJobFor(config, settings, userId).tokenPath.value)
  {
    ScratchDirShape(config.localStorage, userId, "gdrive_creds");
    JoinedUnder(DriveScratch(config, userId), "token.pickle");
  }

  /** No name created beneath the scratch directory outlives the call. */
  predicate NoLeftovers(disk: set<string>, disk': set<string>, scratch: string)
  {
    forall x :: x in disk' && Under(scratch, x) ==> x in disk
  }

  /**
   * The early return for a missing token leaves a scratch directory that
   * was not there before.
   */
  lemma MissingTokenLeavesScratch(config: UploadConfig, userId: nat, disk: set<string>)
    requires DriveScratch(config, userId) !in disk
    ensures !NoLeftovers(disk, disk + {DriveScratch(config, userId)}, DriveScratch(config, userId))
  {
    var scratch := DriveScratch(config, userId);
    assert scratch in disk + {scratch} && Under(scratch, scratch);
  }

  /**
   * `gdrive_upload` with the token check moved ahead of creating the scratch
   * directory, so that no return leaves the directory behind.
   */
  method GDriveUploadCorrected(config: UploadConfig, settings: UserSettings, userId: nat, transferRaises: bool, disk: set<string>)
    returns (outcome: Outcome<DriveJob>, disk': set<string>)
    ensures outcome.Aborted? ==> disk' == disk
    ensures NoLeftovers(disk, disk', DriveScratch(config, userId))
    ensures !Truthy(DriveFolderId(config, settings)) ==> outcome == Aborted(NoFolderId)
    ensures Truthy(DriveFolderId(config, settings)) && !config.useServiceAccounts && !BlobGiven(DriveToken(settings)) ==>
              outcome == Aborted(NoToken)
    ensures Truthy(DriveFolderId(config, settings)) && (config.useServiceAccounts || BlobGiven(DriveToken(settings))) ==>
              disk' == RemoveTree(disk, DriveScratch(config, userId)) &&
              outcome == (if transferRaises then Raised else Done(DriveJobFor(config, settings, userId)))
  {
    var folderId := DriveFolderId(config, settings);
    if !Truthy(folderId) {
      return Aborted(NoFolderId), disk;
    }
    if !config.useServiceAccounts && !BlobGiven(DriveToken(settings)) {
      return Aborted(NoToken), disk;
    }
    var scratch := DriveScratch(config, userId);
    disk' := disk + {scratch};
    var tokenPath: Option<string> := None;
    var dest := "sa:" + folderId.value;
    if !config.useServiceAccounts {
      dest := folderId.value;
      tokenPath := Some(PathJoin(scratch, "token.pickle"));
      disk' := disk' + {tokenPath.value};
    }
    outcome := if transferRaises then Raised else Done(DriveJob(dest, tokenPath));
    DriveScratchAbsorbs(config, userId, disk, tokenPath);
    disk' := RemoveTree(disk', scratch);
  }

  // ---------------------------------------------------------------------
  // rclone

  /** `Config.RCLONE_CONFIG and os.path.exists(Config.RCLONE_CONFIG)` */
  predicate GlobalConfigPresent(config: UploadConfig, disk: set<string>)
  {
    Truthy(config.rcloneConfig) && config.rcloneConfig.value in disk
  }

  /** A configuration blob is found: the user's own, or the global file. */
  predicate RcloneConfigFound(config: UploadConfig, settings: UserSettings, disk: set<string>)
  {
    BlobGiven(BlobSetting(settings, "rclone_config")) || GlobalConfigPresent(config, disk)
  }

  /** The user's `rclone.conf` blob wins over the contents of the global file. */
  function RcloneCredentials(settings: UserSettings, globalContents: Blob): Blob
  {
    var own := BlobSetting(settings, "rclone_config");
    if BlobGiven(own) then own.value else globalContents
  }

  /** `rclone_dest or Config.RCLONE_DEST` */
  function RcloneDest(config: UploadConfig, settings: UserSettings): Option<string>
  {
    Or(TextSetting(settings, "rclone_dest"), config.rcloneDest)
  }

  /** `rclone_flags or Config.RCLONE_FLAGS` */
  function RcloneFlags(config: UploadConfig, settings: UserSettings): Option<string>
  {
    Or(TextSetting(settings, "rclone_flags"), config.rcloneFlags)
  }

  function RcloneConfPath(config: UploadConfig, userId: nat): string
  {
    PathJoin(RcloneScratch(config, userId), "rclone.conf")
  }

  /**
   * The remote name is the destination up to its first `:` and the remote
   * path is the rest joined with the item's name. A destination without `:`
   * or an item without a name raises.
   */
  function UploadedRemote(dest: string, name: Option<string>, isDir: bool): (r: Option<RemoteInfo>)
    ensures r.Some? <==> Find(dest, ':') >= 0 && name.Some?
    ensures r.Some? ==> r.value.remote.Some? && r.value.remote.value + ":" + AfterFirst(dest, ':') == dest
    ensures r.Some? ==> r.value.path == Some(PathJoin(AfterFirst(dest, ':'), name.value))
  {
    if Find(dest, ':') < 0 || name.None? then None
    else Some(RemoteInfo(Some(BeforeFirst(dest, ':')), Some(PathJoin(AfterFirst(dest, ':'), name.value)), isDir, None))
  }

  /** What follows a finished transfer: the manage record, unless the listener was cancelled. */
  function AfterTransfer(config: UploadConfig, settings: UserSettings, userId: nat, globalContents: Blob,
                         path: Option<string>, name: Option<string>, dirs: set<string>, cancelled: bool): Outcome<RcloneJob>
    requires Truthy(RcloneDest(config, settings))
  {
    var dest := RcloneDest(config, settings).value;
    var job := RcloneJob(dest, RcloneFlags(config, settings), RcloneConfPath(config, userId),
                         RcloneCredentials(settings, globalContents), None);
    if cancelled then Done(job)
    else if path.None? then Raised
    else
      match UploadedRemote(dest, name, path.value in dirs)
      case None => Raised
      case Some(info) => Done(job.(manage := Some(ManageContextOf(info))))
  }

  /**
   * `rclone_upload`. Without a configuration blob nothing is written.
   * Otherwise `rclone.conf` is written into the scratch directory before
   * the destination is looked up, and a missing destination returns with
   * both still on disk. Every path through the transfer removes the scratch
   * directory. `globalContents` is what reading the global file yields and
   * `dirs` the existing directories.
   */
  method RcloneUpload(config: UploadConfig, settings: UserSettings, userId: nat, globalContents: Blob,
                      path: Option<string>, name: Option<string>, dirs: set<string>,
                      transferRaises: bool, cancelled: bool, disk: set<string>)
    returns (outcome: Outcome<RcloneJob>, disk': set<string>)
    ensures !RcloneConfigFound(config, settings, disk) ==> outcome == Aborted(NoRcloneConfig) && disk' == disk
    ensures RcloneConfigFound(config, settings, disk) && !Truthy(RcloneDest(config, settings)) ==>
              outcome == Aborted(NoDestination) &&
              disk' == disk + {RcloneScratch(config, userId), RcloneConfPath(config, userId)}
    ensures RcloneConfigFound(config, settings, disk) && Truthy(RcloneDest(config, settings)) ==>
              disk' == RemoveTree(disk, RcloneScratch(config, userId)) &&
              outcome == (if transferRaises then Raised
                          else AfterTransfer(config, settings, userId, globalContents, path, name, dirs, cancelled))
    ensures outcome == RcloneOutcome(config, settings, userId, globalContents, path, name, dirs, transferRaises, cancelled, disk)
    ensures disk' == RcloneDisk(config, settings, userId, disk)
  {
    var blob := BlobSetting(settings, "rclone_config");
    if !BlobGiven(blob) {
      if GlobalConfigPresent(config, disk) {
        blob := Some(globalContents);
      } else {
        return Aborted(NoRcloneConfig), disk;
      }
    }
    var scratch := RcloneScratch(config, userId);
    var confPath := PathJoin(scratch, "rclone.conf");
    disk' := disk + {scratch} + {confPath};
    var dest := RcloneDest(config, settings);
    var flags := RcloneFlags(config, settings);
    if !Truthy(dest) {
      assert disk' == disk + {scratch, confPath};
      return Aborted(NoDestination), disk';
    }
    if transferRaises {
      outcome := Raised;
    } else {
      outcome := Done(RcloneJob(dest.value, flags, confPath, blob.value, None));
      if !cancelled {
        if path.None? {
          outcome := Raised;
        } else {
          var info := UploadedRemote(dest.value, name, path.value in dirs);
          if info.None? {
            outcome := Raised;
          } else {
            outcome := Done(outcome.job.(manage := Some(ManageContextOf(info.value))));
          }
        }
      }
    }
    RcloneScratchAbsorbs(config, userId, disk);
    disk' := RemoveTree(disk', scratch);
  }

  /** What `rclone_upload` ends with: an early return, an exception, or the job done. */
  function RcloneOutcome(config: UploadConfig, settings: UserSettings, userId: nat, globalContents: Blob,
                         path: Option<string>, name: Option<string>, dirs: set<string>,
                         transferRaises: bool, cancelled: bool, disk: set<string>): Outcome<RcloneJob>
  {
    if !RcloneConfigFound(config, settings, disk) then Aborted(NoRcloneConfig)
    else if !Truthy(RcloneDest(config, settings)) then Aborted(NoDestination)
    else if transferRaises then Raised
    else AfterTransfer(config, settings, userId, globalContents, path, name, dirs, cancelled)
  }

  /** The disk `rclone_upload` leaves behind. */
  function RcloneDisk(config: UploadConfig, settings: UserSettings, userId: nat, disk: set<string>): set<string>
  {
    if !RcloneConfigFound(config, settings, disk) then disk
    else if !Truthy(RcloneDest(config, settings)) then disk + {RcloneScratch(config, userId), RcloneConfPath(config, userId)}
    else RemoveTree(disk, RcloneScratch(config, userId))
  }

  /**
   * `rclone_upload` changes nothing on disk outside its scratch directory,
   * and its early returns are normal returns, not exceptions.
   */
  lemma RcloneTouchesOnlyScratch(config: UploadConfig, settings: UserSettings, userId: nat, globalContents: Blob,
                                 path: Option<string>, name: Option<string>, dirs: set<string>,
                                 transferRaises: bool, cancelled: bool, disk: set<string>)
    ensures forall x :: (x in disk) != (x in RcloneDisk(config, settings, userId, disk)) ==> Under(RcloneScratch(config, userId), x)
    ensures !RcloneConfigFound(config, settings, disk) || !Truthy(RcloneDest(config, settings)) ==>
              RcloneOutcome(config, settings, userId, globalContents, path, name, dirs, transferRaises, cancelled, disk).Aborted?
  {
    ScratchDirShape(config.localStorage, userId, "rclone_creds");
    JoinedUnder(RcloneScratch(config, userId), "rclone.conf");
    assert Under(RcloneScratch(config, userId), RcloneScratch(config, userId));
  }

  lemma RcloneScratchAbsorbs(config: UploadConfig, userId: nat, disk: set<string>)
    ensures RemoveTree(disk + {RcloneScratch(config, userId)} + {RcloneConfPath(config, userId)}, RcloneScratch(config, userId))
            == RemoveTree(disk, RcloneScratch(config, userId))
  {
    var scratch := RcloneScratch(config, userId);
    ScratchDirShape(config.localStorage, userId, "rclone_creds");
    JoinedUnder(scratch, "rclone.conf");
    RemoveTreeAbsorbs(disk, scratch, {scratch, RcloneConfPath(config, userId)});
    assert disk + {scratch} + {RcloneConfPath(config, userId)} == disk + {scratch, RcloneConfPath(config, userId)};
  }

  /** The early return for a missing destination leaves `rclone.conf` behind. */
  lemma MissingDestLeavesConfig(config: UploadConfig, userId: nat, disk: set<string>)
    requires RcloneConfPath(config, userId) !in disk
    ensures !NoLeftovers(disk, disk + {RcloneScratch(config, userId), RcloneConfPath(config, userId)},
                         RcloneScratch(config, userId))
  {
    var scratch := RcloneScratch(config, userId);
    ScratchDirShape(config.localStorage, userId, "rclone_creds");
    JoinedUnder(scratch, "rclone.conf");
  }

  /**
   * `rclone_upload` with the destination looked up before anything is
   * written, so that no return leaves credentials behind.
   */
  method RcloneUploadCorrected(config: UploadConfig, settings: UserSettings, userId: nat, globalContents: Blob,
                               path: Option<string>, name: Option<string>, dirs: set<string>,
                               transferRaises: bool, cancelled: bool, disk: set<string>)
    returns (outcome: Outcome<RcloneJob>, disk': set<string>)
    ensures outcome.Aborted? ==> disk' == disk
    ensures NoLeftovers(disk, disk', RcloneScratch(config, userId))
    ensures !RcloneConfigFound(config, settings, disk) ==> outcome == Aborted(NoRcloneConfig)
    ensures RcloneConfigFound(config, settings, disk) && !Truthy(RcloneDest(config, settings)) ==>
              outcome == Aborted(NoDestination)
    ensures RcloneConfigFound(config, settings, disk) && Truthy(RcloneDest(config, settings)) ==>
              disk' == RemoveTree(disk, RcloneScratch(config, userId)) &&
              outcome == (if transferRaises then Raised
                          else AfterTransfer(config, settings, userId, globalContents, path, name, dirs, cancelled))
  {
    var blob := BlobSetting(settings, "rclone_config");
    if !BlobGiven(blob) {
      if GlobalConfigPresent(config, disk) {
        blob := Some(globalContents);
      } else {
        return Aborted(NoRcloneConfig), disk;
      }
    }
    var dest := RcloneDest(config, settings);
    if !Truthy(dest) {
      return Aborted(NoDestination), disk;
    }
    var scratch := RcloneScratch(config, userId);
    var confPath := PathJoin(scratch, "rclone.conf");
    disk' := disk + {scratch} + {confPath};
    if transferRaises {
      outcome := Raised;
    } else {
      outcome := AfterTransfer(config, settings, userId, globalContents, path, name, dirs, cancelled);
    }
    RcloneScratchAbsorbs(config, userId, disk);
    disk' := RemoveTree(disk', scratch);
  }

  // ---------------------------------------------------------------------
  // The manage record

  /** The `remote_info` dictionary passed to `_post_rclone_manage_button`. */
  datatype RemoteInfo = RemoteInfo(remote: Option<string>, path: Option<string>, isDir: bool, base: Option<string>)

  /** The session context stored for the copy/move browser. */
  datatype ManageContext = ManageContext(
    srcRemote: Option<string>, base: Option<string>, srcPath: string, srcFile: Option<string>,
    dstRemote: Option<string>, dstPath: string, ccMode: string, srcPage: nat)

  /**
   * `_post_rclone_manage_button`'s context: a directory is browsed from the
   * uploaded path itself; a file from its directory, with the file selected.
   * No destination is chosen yet and the mode starts as copy on page 0.
   */
  function ManageContextOf(info: RemoteInfo): (c: ManageContext)
    ensures c.srcRemote == info.remote && c.base == info.base
    ensures c.dstRemote == None && c.dstPath == "" && c.ccMode == "copy" && c.srcPage == 0
    ensures info.isDir ==> c.srcFile == None && c.srcPath == OrElse(info.path, "")
    ensures !info.isDir ==> c.srcFile == Some(OrElse(info.path, "")) && c.srcPath <= c.srcFile.value
  {
    var rel := OrElse(info.path, "");
    var srcPath := if info.isDir then rel else DirName(rel);
    var srcFile := if info.isDir then None else Some(rel);
    ManageContext(info.remote, info.base, srcPath, srcFile, None, "", "copy", 0)
  }

  /**
   * For an uploaded file, the browsing directory joined with the file's own
   * name gives the file back, so the browser opens where the file is.
   */
  lemma ManageContextLocatesFile(info: RemoteInfo)
    requires !info.isDir
    requires var rel := OrElse(info.path, ""); RFind(rel, '/') <= 0 || rel[RFind(rel, '/') - 1] != '/'
    ensures PathJoin(ManageContextOf(info).srcPath, BaseName(ManageContextOf(info).srcFile.value))
            == ManageContextOf(info).srcFile.value
  {
    JoinDirNameBaseName(OrElse(info.path, ""));
  }
}
