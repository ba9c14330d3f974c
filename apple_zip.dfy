/**
 * The single-archive path with a descriptive name (`create_apple_zip` in
 * bot/helpers/utils.py): the archive name is derived from the content title,
 * provider and type, made unique in the folder's parent directory with a
 * numeric suffix, and the walk is cancellable and reports files done out of
 * the files counted beforehand. Unlike the split path it never removes a
 * source file.
 */
module AppleZip {
  import opened Common
  import Packaging

  type Metadata = map<string, string>

  /** `metadata.get(key, default)` */
  function Get(m: Metadata, key: string, default: string): string
  {
    if key in m then m[key] else default
  }

  // ---------------------------------------------------------------------
  // Descriptive name

  /** The characters the title sanitiser deletes: backslash, slash, star, question mark, colon, double quote, angle brackets and bar. */
  predicate Forbidden(c: char)
  {
    c == '\\' || c == '/' || c == '*' || c == '?' || c == ':' || c == '"' || c == '<' || c == '>' || c == '|'
  }

  /** Deletes every `Forbidden` character (the `re.sub` call). */
  function RemoveForbidden(s: string): (r: string)
    ensures |r| <= |s|
    ensures forall i :: 0 <= i < |r| ==> !Forbidden(r[i]) && r[i] in s
    decreases |s|
  {
    if s == [] then []
    else if Forbidden(s[0]) then RemoveForbidden(s[1..])
    else [s[0]] + RemoveForbidden(s[1..])
  }

  /** `s.replace(' ', '_')` */
  function SpacesToUnderscores(s: string): (r: string)
    ensures |r| == |s|
  {
    seq(|s|, i requires 0 <= i < |s| => if s[i] == ' ' then '_' else s[i])
  }

  /** `s[:n]` */
  function Truncate(s: string, n: nat): (r: string)
    ensures |r| <= n && r <= s
  {
    if |s| <= n then s else s[..n]
  }

  const MAX_NAME_LENGTH: nat := 100

  /**
   * The sanitised title: forbidden characters dropped, spaces turned into
   * underscores, cut to 100 characters, and `Apple_Music_<timestamp>` when what
   * is left is blank. `timestamp` stands for `int(time.time())`.
   */
  function SafeName(title: string, timestamp: nat): string
  {
    var s := Truncate(SpacesToUnderscores(RemoveForbidden(title)), MAX_NAME_LENGTH);
    if Strip(s) == [] then "Apple_Music_" + NatToString(timestamp) else s
  }

  /** A name that sanitising leaves as it is. */
  predicate IsSafe(s: string)
  {
    && Strip(s) != []
    && |s| <= MAX_NAME_LENGTH
    && forall i :: 0 <= i < |s| ==> !Forbidden(s[i]) && s[i] != ' '
  }

  lemma {:induction false} RemoveForbiddenKeeps(s: string)
    requires forall i :: 0 <= i < |s| ==> !Forbidden(s[i])
    ensures RemoveForbidden(s) == s
    decreases |s|
  {
    if s != [] {
      RemoveForbiddenKeeps(s[1..]);
    }
  }

  /**
   * A sanitised title is safe. The fallback is not cut to 100 characters, so
   * this needs a timestamp of at most 88 digits.
   */
  lemma SafeNameIsSafe(title: string, timestamp: nat)
    requires |NatToString(timestamp)| <= MAX_NAME_LENGTH - 12
    ensures IsSafe(SafeName(title, timestamp))
  {
    var s := Truncate(SpacesToUnderscores(RemoveForbidden(title)), MAX_NAME_LENGTH);
    if Strip(s) == [] {
      FallbackIsSafe(timestamp);
    } else {
      CleanedIsSafe(title);
    }
  }

  /** `Apple_Music_<timestamp>` is safe when it fits in 100 characters. */
  lemma FallbackIsSafe(timestamp: nat)
    requires |NatToString(timestamp)| <= MAX_NAME_LENGTH - 12
    ensures IsSafe("Apple_Music_" + NatToString(timestamp))
  {
    var fallback := "Apple_Music_" + NatToString(timestamp);
    assert !IsWhitespace(fallback[0]) && !IsWhitespace(fallback[|fallback| - 1]);
    StripUnchanged(fallback);
    forall i | 0 <= i < |fallback| ensures !Forbidden(fallback[i]) && fallback[i] != ' ' {
      if i >= 12 { assert IsDigit(NatToString(timestamp)[i - 12]); }
    }
  }

  /** The cleaned, cut title holds no forbidden character and no space. */
  lemma CleanedIsSafe(title: string)
    ensures var s := Truncate(SpacesToUnderscores(RemoveForbidden(title)), MAX_NAME_LENGTH);
      forall i :: 0 <= i < |s| ==> !Forbidden(s[i]) && s[i] != ' '
  {
    var cleaned := RemoveForbidden(title);
    var s := Truncate(SpacesToUnderscores(cleaned), MAX_NAME_LENGTH);
    forall i | 0 <= i < |s| ensures !Forbidden(s[i]) && s[i] != ' ' {
      assert s[i] == SpacesToUnderscores(cleaned)[i];
    }
  }

  lemma SafeNameKeepsSafe(s: string, timestamp: nat)
    requires IsSafe(s)
    ensures SafeName(s, timestamp) == s
  {
    RemoveForbiddenKeeps(s);
    assert SpacesToUnderscores(s) == s;
  }

  /** Sanitising is idempotent. */
  lemma SafeNameIdempotent(title: string, t1: nat, t2: nat)
    requires |NatToString(t1)| <= MAX_NAME_LENGTH - 12
    ensures SafeName(SafeName(title, t1), t2) == SafeName(title, t1)
  {
    SafeNameIsSafe(title, t1);
    SafeNameKeepsSafe(SafeName(title, t1), t2);
  }

  /** The type-qualified suffix for a lower-cased content type. */
  function TypeSuffix(lowerType: string): string
  {
    if lowerType == "playlist" then " (Playlist)"
    else if lowerType == "artist" then " (Artist)"
    else if lowerType == "video" then " (Video)"
    else ""
  }

  /** `f"[{provider}] {safe_name}"` plus the suffix chosen by `content_type.lower()`. */
  function ZipName(provider: string, safeName: string, contentType: string): string
  {
    "[" + provider + "] " + safeName + TypeSuffix(Lower(contentType))
  }

  /**
   * The archive name for `metadata`: type (default `album`) capitalised as
   * the source does, title (default `Unknown`) sanitised, provider (default
   * `Apple Music`) in brackets.
   */
  function ArchiveName(metadata: Metadata, timestamp: nat): (r: string)
    ensures r != [] && r[0] == '['
  {
    var contentType := Capitalize(Get(metadata, "type", "album"));
    var safeName := SafeName(Get(metadata, "title", "Unknown"), timestamp);
    ZipName(Get(metadata, "provider", "Apple Music"), safeName, contentType)
  }

  /** The name is `[provider] safe-title` followed by the suffix its type selects. */
  lemma ArchiveNameShape(metadata: Metadata, timestamp: nat)
    ensures (var provider := Get(metadata, "provider", "Apple Music");
      var safeName := SafeName(Get(metadata, "title", "Unknown"), timestamp);
      var t := Lower(Get(metadata, "type", "album"));
      && ArchiveName(metadata, timestamp) == "[" + provider + "] " + safeName + TypeSuffix(t)
      && (t == "playlist" ==> ArchiveName(metadata, timestamp) == "[" + provider + "] " + safeName + " (Playlist)")
      && (t == "artist" ==> ArchiveName(metadata, timestamp) == "[" + provider + "] " + safeName + " (Artist)")
      && (t == "video" ==> ArchiveName(metadata, timestamp) == "[" + provider + "] " + safeName + " (Video)")
      && (t !in {"playlist", "artist", "video"} ==> ArchiveName(metadata, timestamp) == "[" + provider + "] " + safeName))
  {
    LowerCapitalize(Get(metadata, "type", "album"));
  }

  // ---------------------------------------------------------------------
  // Collision avoidance

  /** The file name tried at step `j`: `name.zip`, then `name_1.zip`, `name_2.zip`, ... */
  function Candidate(name: string, j: nat): string
  {
    if j == 0 then name + ".zip" else name + "_" + NatToString(j) + ".zip"
  }

  function CandidatePath(dir: string, name: string, j: nat): string
  {
    PathJoin(dir, Candidate(name, j))
  }

  lemma CandidateInjective(name: string, j: nat, k: nat)
    requires Candidate(name, j) == Candidate(name, k)
    ensures j == k
  {
    if j != 0 && k != 0 {
      var sj, sk := NatToString(j), NatToString(k);
      assert |sj| == |sk|;
      assert sj == Candidate(name, j)[|name| + 1..|name| + 1 + |sj|];
      assert sk == Candidate(name, k)[|name| + 1..|name| + 1 + |sk|];
      NatToStringInjective(j, k);
    }
  }

  lemma CandidatePathInjective(dir: string, name: string, j: nat, k: nat)
    requires name != [] && name[0] != '/'
    requires CandidatePath(dir, name, j) == CandidatePath(dir, name, k)
    ensures j == k
  {
    var cj, ck := Candidate(name, j), Candidate(name, k);
    assert cj[0] == name[0] && ck[0] == name[0];
    if dir == [] || dir[|dir| - 1] == '/' {
      assert cj == CandidatePath(dir, name, j)[|dir|..];
      assert ck == CandidatePath(dir, name, k)[|dir|..];
    } else {
      assert cj == CandidatePath(dir, name, j)[|dir| + 1..];
      assert ck == CandidatePath(dir, name, k)[|dir| + 1..];
    }
    CandidateInjective(name, j, k);
  }

  function CandidatesBelow(dir: string, name: string, n: nat): set<string>
  {
    set j | 0 <= j < n :: CandidatePath(dir, name, j)
  }

  lemma {:induction false} CandidatesBelowSize(dir: string, name: string, n: nat)
    requires name != [] && name[0] != '/'
    ensures |CandidatesBelow(dir, name, n)| == n
  {
    if n > 0 {
      var below, last := CandidatesBelow(dir, name, n - 1), CandidatePath(dir, name, n - 1);
      CandidatesBelowSize(dir, name, n - 1);
      CandidatesBelowSnoc(dir, name, n - 1);
      if last in below {
        var j :| 0 <= j < n - 1 && CandidatePath(dir, name, j) == last;
        CandidatePathInjective(dir, name, j, n - 1);
      }
      assert |below + {last}| == |below| + 1;
    }
  }

  lemma CandidatesBelowSnoc(dir: string, name: string, n: nat)
    ensures CandidatesBelow(dir, name, n + 1) == CandidatesBelow(dir, name, n) + {CandidatePath(dir, name, n)}
  {
  }

  /** Every candidate before the `n`-th exists: then `existing` holds at least `n` names. */
  lemma CandidatesBelowBound(dir: string, name: string, n: nat, existing: set<string>)
    requires name != [] && name[0] != '/'
    requires forall j :: 0 <= j < n ==> CandidatePath(dir, name, j) in existing
    ensures n <= |existing|
  {
    CandidatesBelowSize(dir, name, n);
    SubsetSize(CandidatesBelow(dir, name, n), existing);
  }

  lemma AddThenRemove(disk: set<string>, p: string)
    requires p !in disk
    ensures (disk + {p}) - {p} == disk
  {
  }

  lemma {:induction false} SubsetSize<T>(a: set<T>, b: set<T>)
    requires a <= b
    ensures |a| <= |b|
    decreases |a|
  {
    if a != {} {
      var x :| x in a;
      SubsetSize(a - {x}, b - {x});
    }
  }

  /** `path` is the first candidate in `dir` that is not in `existing`. */
  ghost predicate FirstFree(dir: string, name: string, existing: set<string>, path: string)
  {
    exists k: nat :: FirstFreeAt(dir, name, existing, path, k)
  }

  ghost predicate FirstFreeAt(dir: string, name: string, existing: set<string>, path: string, k: nat)
  {
    && path == CandidatePath(dir, name, k)
    && path !in existing
    && forall j :: 0 <= j < k ==> CandidatePath(dir, name, j) in existing
  }

  /** The first candidate from step `j` on that is not in `existing`, trying at most `fuel` further steps. */
  function FirstFreeFrom(dir: string, name: string, existing: set<string>, j: nat, fuel: nat): string
    decreases fuel
  {
    if CandidatePath(dir, name, j) !in existing || fuel == 0 then CandidatePath(dir, name, j)
    else FirstFreeFrom(dir, name, existing, j + 1, fuel - 1)
  }

  /**
   * The path the collision loop settles on, as a function of the existing
   * names: at most `|existing|` candidates can be taken, so that many steps
   * always reach a free one.
   */
  function FirstFreePath(dir: string, name: string, existing: set<string>): string
  {
    FirstFreeFrom(dir, name, existing, 0, |existing|)
  }

  lemma {:induction false} FirstFreeFromReaches(dir: string, name: string, existing: set<string>, j: nat, fuel: nat, k: nat)
    requires j <= k <= j + fuel
    requires CandidatePath(dir, name, k) !in existing
    requires forall i :: j <= i < k ==> CandidatePath(dir, name, i) in existing
    ensures FirstFreeFrom(dir, name, existing, j, fuel) == CandidatePath(dir, name, k)
    decreases fuel
  {
    if j < k {
      assert CandidatePath(dir, name, j) in existing && fuel > 0;
      assert FirstFreeFrom(dir, name, existing, j, fuel) == FirstFreeFrom(dir, name, existing, j + 1, fuel - 1);
      FirstFreeFromReaches(dir, name, existing, j + 1, fuel - 1, k);
    }
  }

  /** The first free candidate is the one `FirstFreePath` names. */
  lemma FirstFreeIsPath(dir: string, name: string, existing: set<string>, path: string)
    requires name != [] && name[0] != '/'
    requires FirstFree(dir, name, existing, path)
    ensures path == FirstFreePath(dir, name, existing)
  {
    var k: nat :| FirstFreeAt(dir, name, existing, path, k);
    CandidatesBelowBound(dir, name, k, existing);
    FirstFreeFromReaches(dir, name, existing, 0, |existing|, k);
  }

  /**
   * The `while os.path.exists(zip_path)` loop: the result is the first of
   * `name.zip`, `name_1.zip`, ... in `dir` that is not in `existing`.
   */
  method UniqueZipPath(dir: string, name: string, existing: set<string>) returns (zipPath: string, index: nat)
    requires name != [] && name[0] != '/'
    ensures zipPath == CandidatePath(dir, name, index)
    ensures zipPath !in existing
    ensures forall j :: 0 <= j < index ==> CandidatePath(dir, name, j) in existing
  {
    zipPath := PathJoin(dir, name + ".zip");
    var counter := 1;
    while zipPath in existing
      invariant 1 <= counter <= |existing| + 1
      invariant zipPath == CandidatePath(dir, name, counter - 1)
      invariant forall j :: 0 <= j < counter - 1 ==> CandidatePath(dir, name, j) in existing
      decreases |existing| + 1 - counter
    {
      CandidatesBelowBound(dir, name, counter, existing);
      zipPath := PathJoin(dir, name + "_" + NatToString(counter) + ".zip");
      counter := counter + 1;
    }
    index := counter - 1;
  }

  // ---------------------------------------------------------------------
  // The cancellable, counted walk

  datatype ProgressEvent = SetStage(stage: string) | ZipProgress(done: nat, total: nat)

  /**
   * `Created` returns the path; `Failed` is a write that raised part-way,
   * leaving the partial archive at `path`; `Cancelled` is the cancellation.
   */
  datatype ZipOutcome = Created(path: string) | Failed(path: string) | Cancelled

  /** Whether the check before the file at `i` sees the cancel event set. */
  predicate CancelSeen(cancelAt: Option<nat>, i: nat)
  {
    cancelAt.Some? && cancelAt.value <= i
  }

  /** How many files are written before the walk ends or is cancelled. */
  function FilesWritten(total: nat, cancelAt: Option<nat>): (d: nat)
    ensures d <= total
  {
    if CancelSeen(cancelAt, 0) then 0
    else if cancelAt.Some? && cancelAt.value < total then cancelAt.value
    else total
  }

  /** `update_zip(1, total)` ... `update_zip(d, total)`. */
  function ZipCounts(d: nat, total: nat): (r: seq<ProgressEvent>)
    ensures |r| == d
    ensures forall i :: 0 <= i < d ==> r[i] == ZipProgress(i + 1, total)
  {
    seq(d, i requires 0 <= i < d => ZipProgress(i + 1, total))
  }

  lemma ZipCountsSnoc(d: nat, total: nat)
    ensures ZipCounts(d + 1, total) == ZipCounts(d, total) + [ZipProgress(d + 1, total)]
  {
  }

  /** What a progress reporter receives: the stage, `(0, total)` when there is a file, then one update per file. */
  function ZipEvents(hasProgress: bool, total: nat, written: nat): seq<ProgressEvent>
  {
    ZipHeader(hasProgress, total) + (if hasProgress then ZipCounts(written, total) else [])
  }

  const ZIPPING: string := "Zipping"

  function ZipHeader(hasProgress: bool, total: nat): seq<ProgressEvent>
  {
    if !hasProgress then []
    else if total > 0 then [SetStage(ZIPPING), ZipProgress(0, total)]
    else [SetStage(ZIPPING)]
  }

  /** The archive path `create_apple_zip` settles on before it writes anything. */
  method PickArchivePath(directory: string, metadata: Metadata, timestamp: nat, disk: set<string>) returns (zipPath: string)
    ensures zipPath !in disk
    ensures FirstFree(DirName(directory), ArchiveName(metadata, timestamp), disk, zipPath)
    ensures zipPath == FirstFreePath(DirName(directory), ArchiveName(metadata, timestamp), disk)
  {
    var name := ArchiveName(metadata, timestamp);
    var zipDir := DirName(directory);
    var index;
    zipPath, index := UniqueZipPath(zipDir, name, disk);
    assert FirstFreeAt(zipDir, name, disk, zipPath, index);
    FirstFreeIsPath(zipDir, name, disk, zipPath);
  }

  /**
   * The walk over the counted files: before each file the cancel event is
   * checked; `zipf.write` raises on a file that cannot be read, ending the
   * walk; each file written bumps the done count and, with a reporter,
   * sends it.
   */
  method WriteMembers(files: seq<Packaging.FileEntry>, unwritable: set<string>, hasProgress: bool, cancelAt: Option<nat>)
    returns (doneFiles: nat, cancelled: bool, failed: bool, updates: seq<ProgressEvent>)
    ensures var k := Packaging.FirstUnreadable(files, unwritable);
      cancelled <==> cancelAt.Some? && cancelAt.value < |files| && cancelAt.value <= k
    ensures var k := Packaging.FirstUnreadable(files, unwritable);
      failed <==> k < |files| && !CancelSeen(cancelAt, k)
    ensures !(cancelled && failed)
    ensures doneFiles == FilesWritten(Packaging.FirstUnreadable(files, unwritable), cancelAt)
    ensures updates == if hasProgress then ZipCounts(doneFiles, |files|) else []
  {
    var totalFiles := |files|;
    doneFiles := 0;
    updates := [];
    cancelled, failed := false, false;
    var i := 0;
    while i < |files|
      invariant 0 <= i <= |files| && doneFiles == i
      invariant cancelAt.Some? ==> i <= cancelAt.value
      invariant forall j :: 0 <= j < i ==> files[j].rel !in unwritable
      invariant updates == if hasProgress then ZipCounts(doneFiles, totalFiles) else []
    {
      if cancelAt.Some? && cancelAt.value <= i {
        cancelled := true;
        break;
      }
      if files[i].rel in unwritable {
        failed := true;
        break;
      }
      ZipCountsSnoc(doneFiles, totalFiles);
      doneFiles := doneFiles + 1;
      if hasProgress {
        updates := updates + [ZipProgress(doneFiles, totalFiles)];
      }
      i := i + 1;
    }
    if cancelled {
      assert i <= Packaging.FirstUnreadable(files, unwritable);
    } else {
      assert i == Packaging.FirstUnreadable(files, unwritable);
    }
  }

  /**
   * `create_apple_zip`: picks a unique archive path next to `directory`,
   * writes the files of the walk into it, checking for cancellation before
   * each file; on cancellation the partial archive is removed and the outcome
   * is `Cancelled`; a file that cannot be read raises out of the `with`
   * block, leaving the partial archive (`Failed`). `disk` is the set of
   * existing names, `cancelAt` the index of the first file whose check sees
   * the cancel event set, if any, `unwritable` the files `zipf.write` raises on.
   */
  method CreateAppleZip(directory: string, files: seq<Packaging.FileEntry>, unwritable: set<string>,
                        metadata: Metadata, timestamp: nat, hasProgress: bool, cancelAt: Option<nat>, disk: set<string>)
    returns (outcome: ZipOutcome, events: seq<ProgressEvent>, disk': set<string>)
    ensures var k := Packaging.FirstUnreadable(files, unwritable);
      outcome.Cancelled? <==> cancelAt.Some? && cancelAt.value < |files| && cancelAt.value <= k
    ensures var k := Packaging.FirstUnreadable(files, unwritable);
      outcome.Failed? <==> k < |files| && !CancelSeen(cancelAt, k)
    ensures events == ZipEvents(hasProgress, |files|, FilesWritten(Packaging.FirstUnreadable(files, unwritable), cancelAt))
    ensures !outcome.Cancelled? ==> outcome.path !in disk && disk' == disk + {outcome.path}
    ensures !outcome.Cancelled? ==> FirstFree(DirName(directory), ArchiveName(metadata, timestamp), disk, outcome.path)
    ensures !outcome.Cancelled? ==> outcome.path == FirstFreePath(DirName(directory), ArchiveName(metadata, timestamp), disk)
    ensures outcome.Cancelled? ==> disk' == disk
  {
    var zipPath := PickArchivePath(directory, metadata, timestamp, disk);
    var totalFiles := |files|;
    if !hasProgress {
      events := [];
    } else if totalFiles > 0 {
      events := [SetStage(ZIPPING), ZipProgress(0, totalFiles)];
    } else {
      events := [SetStage(ZIPPING)];
    }
    disk' := disk + {zipPath};
    var doneFiles, cancelled, failed, updates := WriteMembers(files, unwritable, hasProgress, cancelAt);
    events := events + updates;
    if cancelled {
      AddThenRemove(disk, zipPath);
      disk' := disk' - {zipPath};
      outcome := Cancelled;
    } else if failed {
      outcome := Failed(zipPath);
    } else {
      outcome := Created(zipPath);
    }
  }
}
