/**
 * Archiving a content folder for upload (`split_zip_folder`, `zip_folder` and
 * `zip_handler` in bot/helpers/utils.py).
 *
 * A folder is the sequence of its files in walk order; each file carries the
 * path relative to the folder (its name inside the archive) and its size.
 * Archiving is destructive: every file is removed from the folder right after
 * it is written into an archive. The disk is the set of existing path names.
 */
module Packaging {
  import opened Common

  /**
   * `MAX_SIZE = 1.9 * 1024 * 1024 * 1024`, i.e. 2040109465.6 bytes. Sizes are
   * whole numbers, so `size > MAX_SIZE` holds exactly when `size > 2040109465`.
   */
  const MAX_SIZE: nat := 2040109465

  datatype FileEntry = FileEntry(rel: string, size: nat)

  /** An archive written to `path` holding `members`, in order. */
  datatype Archive = Archive(path: string, members: seq<FileEntry>)

  /** `os.path.join(root, file)` for a file found by walking `folder`. */
  function SourcePath(folder: string, e: FileEntry): string
  {
    folder + "/" + e.rel
  }

  function SourcePaths(folder: string, files: seq<FileEntry>): set<string>
  {
    set i | 0 <= i < |files| :: SourcePath(folder, files[i])
  }

  function Total(files: seq<FileEntry>): nat
  {
    if files == [] then 0 else files[0].size + Total(files[1..])
  }

  lemma {:induction false} TotalAppend(a: seq<FileEntry>, b: seq<FileEntry>)
    ensures Total(a + b) == Total(a) + Total(b)
  {
    if a == [] {
      assert a + b == b;
    } else {
      assert (a + b)[0] == a[0];
      assert (a + b)[1..] == a[1..] + b;
      TotalAppend(a[1..], b);
    }
  }

  function Flatten(parts: seq<seq<FileEntry>>): seq<FileEntry>
  {
    if parts == [] then [] else parts[0] + Flatten(parts[1..])
  }

  /**
   * The walked files that make archiving raise. `os.stat` fails on an
   * `unstatable` file (a dangling link, a file removed meanwhile), so both
   * `os.path.getsize` and `zipf.write` raise on it. An `unopenable` file
   * reports its size but cannot be opened (no read permission), so only
   * `zipf.write` raises on it.
   */
  datatype Faults = Faults(unstatable: set<string>, unopenable: set<string>)

  /** The files `zipf.write` raises on. */
  function Unwritable(faults: Faults): set<string>
  {
    faults.unstatable + faults.unopenable
  }

  /**
   * The index of the first file in `files` that lies in `failing`, the set
   * of files an operation raises on, or the number of files when none does.
   */
  function FirstUnreadable(files: seq<FileEntry>, failing: set<string>): (k: nat)
    ensures k <= |files|
    ensures forall i :: 0 <= i < k ==> files[i].rel !in failing
    ensures k < |files| ==> files[k].rel in failing
  {
    if files == [] || files[0].rel in failing then 0
    else 1 + FirstUnreadable(files[1..], failing)
  }

  // ---------------------------------------------------------------------
  // The greedy partition of `split_zip_folder`

  /**
   * The parts still to be sealed when the walk has `files` left, the open part
   * holds `cur` and the running size is `curSize`: a part is sealed as soon as
   * the next file would take the running size past `MAX_SIZE`, whether or not
   * the open part holds any file; what is left open at the end is sealed when
   * it is not empty.
   */
  function Pack(files: seq<FileEntry>, cur: seq<FileEntry>, curSize: nat): seq<seq<FileEntry>>
    decreases |files|
  {
    if files == [] then (if cur != [] then [cur] else [])
    else if curSize + files[0].size > MAX_SIZE then [cur] + Pack(files[1..], [files[0]], files[0].size)
    else Pack(files[1..], cur + [files[0]], curSize + files[0].size)
  }

  /** The members of each archive `split_zip_folder` writes, in order. */
  function Partition(files: seq<FileEntry>): seq<seq<FileEntry>>
  {
    Pack(files, [], 0)
  }

  /** `f"{zip_name}.zip"` for part 1 and `f"{zip_name}.part{part_num}.zip"` after. */
  function PartName(folder: string, partNum: nat): string
  {
    if partNum == 1 then folder + ".zip" else folder + ".part" + NatToString(partNum) + ".zip"
  }

  /** The open part with its running size as `split_zip_folder` keeps them. */
  ghost predicate OpenPart(cur: seq<FileEntry>, curSize: nat)
  {
    curSize == Total(cur) && (curSize > MAX_SIZE ==> |cur| == 1)
  }

  /** What `PackShape` establishes of a sequence of sealed parts. */
  ghost predicate PackedShape(ps: seq<seq<FileEntry>>)
  {
    && (forall k :: 0 <= k < |ps| ==> Total(ps[k]) > MAX_SIZE ==> |ps[k]| == 1)
    && (forall k :: 1 <= k < |ps| ==> ps[k] != [])
    && (forall k :: 0 <= k < |ps| - 1 ==> Total(ps[k]) + ps[k + 1][0].size > MAX_SIZE)
  }

  lemma {:induction false} PackFlatten(files: seq<FileEntry>, cur: seq<FileEntry>, curSize: nat)
    ensures Flatten(Pack(files, cur, curSize)) == cur + files
    decreases |files|
  {
    if files == [] {
      assert Flatten([cur]) == cur + Flatten([]);
    } else {
      var f := files[0];
      assert files == [f] + files[1..];
      if curSize + f.size > MAX_SIZE {
        var rest := Pack(files[1..], [f], f.size);
        PackFlatten(files[1..], [f], f.size);
        assert ([cur] + rest)[1..] == rest;
      } else {
        PackFlatten(files[1..], cur + [f], curSize + f.size);
      }
    }
  }

  /** The open part, when it holds a file, begins the next part sealed. */
  lemma {:induction false} PackKeepsOpenPart(files: seq<FileEntry>, cur: seq<FileEntry>, curSize: nat)
    requires cur != []
    ensures Pack(files, cur, curSize) != [] && cur <= Pack(files, cur, curSize)[0]
    decreases |files|
  {
    if files != [] && curSize + files[0].size <= MAX_SIZE {
      PackKeepsOpenPart(files[1..], cur + [files[0]], curSize + files[0].size);
    }
  }

  /**
   * Every part is sealed with the running size it had; a part over the ceiling
   * holds a single file; a part is only sealed because the first file of the
   * next part did not fit, and every part but the first holds a file.
   */
  lemma {:induction false} PackShape(files: seq<FileEntry>, cur: seq<FileEntry>, curSize: nat)
    requires OpenPart(cur, curSize)
    ensures PackedShape(Pack(files, cur, curSize))
    decreases |files|
  {
    if files != [] {
      var f := files[0];
      if curSize + f.size > MAX_SIZE {
        var rest := Pack(files[1..], [f], f.size);
        assert Total([f]) == f.size;
        PackShape(files[1..], [f], f.size);
        PackKeepsOpenPart(files[1..], [f], f.size);
        var ps := [cur] + rest;
        forall k | 1 <= k < |ps| ensures ps[k] == rest[k - 1] { }
      } else {
        TotalAppend(cur, [f]);
        assert Total([f]) == f.size;
        PackShape(files[1..], cur + [f], curSize + f.size);
        assert Pack(files, cur, curSize) == Pack(files[1..], cur + [f], curSize + f.size);
      }
    }
  }

  /** Round trip: the parts, concatenated, are the walked files in walk order. */
  lemma PartitionCoversFiles(files: seq<FileEntry>)
    ensures Flatten(Partition(files)) == files
    ensures multiset(Flatten(Partition(files))) == multiset(files)
  {
    PackFlatten(files, [], 0);
  }

  /** A part is over the ceiling only when it holds exactly one file. */
  lemma PartitionOversizedPartIsSingleFile(files: seq<FileEntry>, k: nat)
    requires k < |Partition(files)|
    requires Total(Partition(files)[k]) > MAX_SIZE
    ensures |Partition(files)[k]| == 1
  {
    assert OpenPart([], 0);
    PackShape(files, [], 0);
    var ps := Pack(files, [], 0);
    assert Partition(files) == ps;
  }

  /** A part is sealed only when the next file would push it past the ceiling. */
  lemma PartitionSealsOnlyWhenFull(files: seq<FileEntry>, k: nat)
    requires k + 1 < |Partition(files)|
    ensures Partition(files)[k + 1] != []
    ensures Total(Partition(files)[k]) + Partition(files)[k + 1][0].size > MAX_SIZE
  {
    assert OpenPart([], 0);
    PackShape(files, [], 0);
    var ps := Pack(files, [], 0);
    assert Partition(files) == ps;
  }

  /**
   * The first part is empty exactly when the first walked file alone exceeds
   * the ceiling; no later part is ever empty.
   */
  lemma PartitionEmptyFirstPart(files: seq<FileEntry>)
    ensures Partition(files) != [] && Partition(files)[0] == [] <==> files != [] && files[0].size > MAX_SIZE
    ensures forall k :: 1 <= k < |Partition(files)| ==> Partition(files)[k] != []
  {
    assert OpenPart([], 0);
    PackShape(files, [], 0);
    var ps := Pack(files, [], 0);
    assert Partition(files) == ps;
    if files != [] {
      var f := files[0];
      if f.size <= MAX_SIZE {
        PackKeepsOpenPart(files[1..], [f], f.size);
        assert [] + [f] == [f];
        assert Partition(files) == Pack(files[1..], [f], f.size);
      } else {
        assert Partition(files) == [[]] + Pack(files[1..], [f], f.size);
      }
    }
  }

  /** A folder that fits under the ceiling becomes exactly one part. */
  lemma {:induction false} PackFits(files: seq<FileEntry>, cur: seq<FileEntry>, curSize: nat)
    requires cur != [] || files != []
    requires curSize + Total(files) <= MAX_SIZE
    ensures Pack(files, cur, curSize) == [cur + files]
    decreases |files|
  {
    if files == [] {
      assert cur + files == cur;
    } else {
      var f := files[0];
      assert files == [f] + files[1..];
      PackFits(files[1..], cur + [f], curSize + f.size);
      assert (cur + [f]) + files[1..] == cur + files;
    }
  }

  lemma PartitionSingleWhenFits(files: seq<FileEntry>)
    requires files != [] && Total(files) <= MAX_SIZE
    ensures Partition(files) == [files]
  {
    PackFits(files, [], 0);
    assert [] + files == files;
  }

  /** Distinct part numbers give distinct archive names. */
  lemma PartNamesDistinct(folder: string, j: nat, k: nat)
    requires 1 <= j && 1 <= k && j != k
    ensures PartName(folder, j) != PartName(folder, k)
  {
    if j != 1 && k != 1 && PartName(folder, j) == PartName(folder, k) {
      var sj, sk := NatToString(j), NatToString(k);
      var p := folder + ".part";
      assert |sj| == |sk|;
      assert sj == PartName(folder, j)[|p|..|p| + |sj|];
      assert sk == PartName(folder, k)[|p|..|p| + |sk|];
      NatToStringInjective(j, k);
    }
  }

  // ---------------------------------------------------------------------
  // The effect of writing archives on the disk

  /** The zip file is created, then each member is removed from the folder. */
  function WriteArchive(disk: set<string>, folder: string, a: Archive): set<string>
  {
    (disk + {a.path}) - SourcePaths(folder, a.members)
  }

  function WriteArchives(disk: set<string>, folder: string, archives: seq<Archive>): set<string>
  {
    if archives == [] then disk
    else WriteArchive(WriteArchives(disk, folder, archives[..|archives| - 1]), folder, archives[|archives| - 1])
  }

  /**
   * `add_to_zip`: writes `members` into the part numbered `partNum`, removing
   * each source file as soon as it is in the archive.
   */
  method AddToZip(folder: string, partNum: nat, members: seq<FileEntry>, unwritable: set<string>, disk: set<string>)
    returns (zipPath: string, raised: bool, disk': set<string>)
    ensures zipPath == PartName(folder, partNum)
    ensures raised <==> FirstUnreadable(members, unwritable) < |members|
    ensures disk' == WriteArchive(disk, folder, Archive(zipPath, members[..FirstUnreadable(members, unwritable)]))
  {
    zipPath := if partNum == 1 then folder + ".zip" else folder + ".part" + NatToString(partNum) + ".zip";
    disk' := disk + {zipPath};
    raised := false;
    var j := 0;
    while j < |members|
      invariant 0 <= j <= |members|
      invariant forall i :: 0 <= i < j ==> members[i].rel !in unwritable
      invariant disk' == (disk + {zipPath}) - SourcePaths(folder, members[..j])
    {
      if members[j].rel in unwritable {
        raised := true;
        break;
      }
      disk' := disk' - {SourcePath(folder, members[j])};
      assert SourcePaths(folder, members[..j + 1]) == SourcePaths(folder, members[..j]) + {SourcePath(folder, members[j])} by {
        assert forall i :: 0 <= i < j ==> members[..j + 1][i] == members[..j][i];
      }
      j := j + 1;
    }
    assert j == FirstUnreadable(members, unwritable);
  }

  lemma WriteArchivesSnoc(disk: set<string>, folder: string, archives: seq<Archive>, a: Archive)
    ensures WriteArchives(disk, folder, archives + [a]) == WriteArchive(WriteArchives(disk, folder, archives), folder, a)
  {
    assert (archives + [a])[..|archives|] == archives;
  }

  lemma {:induction false} FlattenSnoc(parts: seq<seq<FileEntry>>, p: seq<FileEntry>)
    ensures Flatten(parts + [p]) == Flatten(parts) + p
  {
    if parts == [] {
      assert Flatten([p]) == p + Flatten([]);
    } else {
      assert (parts + [p])[1..] == parts[1..] + [p];
      FlattenSnoc(parts[1..], p);
    }
  }

  lemma SourcePathsAppend(folder: string, a: seq<FileEntry>, b: seq<FileEntry>)
    ensures SourcePaths(folder, a + b) == SourcePaths(folder, a) + SourcePaths(folder, b)
  {
    var ab := a + b;
    forall x | x in SourcePaths(folder, ab) ensures x in SourcePaths(folder, a) + SourcePaths(folder, b) {
      var i :| 0 <= i < |ab| && x == SourcePath(folder, ab[i]);
      if i < |a| { assert ab[i] == a[i]; } else { assert ab[i] == b[i - |a|]; }
    }
    forall x | x in SourcePaths(folder, b) ensures x in SourcePaths(folder, ab) {
      var i :| 0 <= i < |b| && x == SourcePath(folder, b[i]);
      assert ab[|a| + i] == b[i];
    }
    forall x | x in SourcePaths(folder, a) ensures x in SourcePaths(folder, ab) {
      var i :| 0 <= i < |a| && x == SourcePath(folder, a[i]);
      assert ab[i] == a[i];
    }
  }

  /** Archive names never fall inside the folder being archived. */
  lemma PartNameOutsideFolder(folder: string, n: nat, e: FileEntry)
    ensures PartName(folder, n) != SourcePath(folder, e)
  {
    assert PartName(folder, n)[|folder|] == '.';
    assert SourcePath(folder, e)[|folder|] == '/';
  }

  function Names(paths: seq<string>): set<string>
  {
    set k | 0 <= k < |paths| :: paths[k]
  }

  function MembersOf(archives: seq<Archive>): seq<seq<FileEntry>>
  {
    seq(|archives|, k requires 0 <= k < |archives| => archives[k].members)
  }

  function ArchivePaths(archives: seq<Archive>): set<string>
  {
    set k | 0 <= k < |archives| :: archives[k].path
  }

  /**
   * Writing archives whose names are not among the files they consume leaves
   * the disk without any consumed file and with every archive.
   */
  lemma {:induction false} WriteArchivesEffect(disk: set<string>, folder: string, archives: seq<Archive>)
    requires ArchivePaths(archives) !! SourcePaths(folder, Flatten(MembersOf(archives)))
    ensures WriteArchives(disk, folder, archives)
      == (disk - SourcePaths(folder, Flatten(MembersOf(archives)))) + ArchivePaths(archives)
  {
    if archives != [] {
      var n := |archives| - 1;
      var init, a := archives[..n], archives[n];
      assert archives == init + [a];
      assert MembersOf(archives) == MembersOf(init) + [a.members];
      FlattenSnoc(MembersOf(init), a.members);
      SourcePathsAppend(folder, Flatten(MembersOf(init)), a.members);
      assert ArchivePaths(archives) == ArchivePaths(init) + {a.path} by {
        forall x | x in ArchivePaths(archives) ensures x in ArchivePaths(init) + {a.path} {
          var k :| 0 <= k < |archives| && x == archives[k].path;
          if k < n { assert archives[k] == init[k]; }
        }
        forall x | x in ArchivePaths(init) ensures x in ArchivePaths(archives) {
          var k :| 0 <= k < |init| && x == init[k].path;
          assert archives[k] == init[k];
        }
      }
      WriteArchivesEffect(disk, folder, init);
    }
  }

  /** The archives `split_zip_folder` writes for `parts`, numbered from 1. */
  function NamedParts(folder: string, parts: seq<seq<FileEntry>>): (r: seq<Archive>)
    ensures |r| == |parts|
    ensures forall k :: 0 <= k < |parts| ==> r[k] == Archive(PartName(folder, k + 1), parts[k])
  {
    seq(|parts|, k requires 0 <= k < |parts| => Archive(PartName(folder, k + 1), parts[k]))
  }

  function PathsOf(archives: seq<Archive>): (r: seq<string>)
    ensures |r| == |archives|
    ensures forall k :: 0 <= k < |archives| ==> r[k] == archives[k].path
  {
    seq(|archives|, k requires 0 <= k < |archives| => archives[k].path)
  }

  lemma NamedPartsSnoc(folder: string, parts: seq<seq<FileEntry>>, p: seq<FileEntry>)
    ensures NamedParts(folder, parts + [p]) == NamedParts(folder, parts) + [Archive(PartName(folder, |parts| + 1), p)]
  {
  }

  lemma PathsOfSnoc(archives: seq<Archive>, a: Archive)
    ensures PathsOf(archives + [a]) == PathsOf(archives) + [a.path]
  {
  }

  /** The disk after `parts` are written as `split_zip_folder` names them. */
  lemma PartsDiskEffect(disk: set<string>, folder: string, parts: seq<seq<FileEntry>>)
    ensures WriteArchives(disk, folder, NamedParts(folder, parts))
      == (disk - SourcePaths(folder, Flatten(parts))) + Names(PathsOf(NamedParts(folder, parts)))
  {
    var archives := NamedParts(folder, parts);
    assert MembersOf(archives) == parts;
    assert ArchivePaths(archives) == Names(PathsOf(archives));
    forall k, e | 0 <= k < |archives| ensures archives[k].path != SourcePath(folder, e) {
      PartNameOutsideFolder(folder, k + 1, e);
    }
    WriteArchivesEffect(disk, folder, archives);
  }

  /** The disk after the parts of `files` are written as `split_zip_folder` names them. */
  lemma SplitDiskEffect(disk: set<string>, folder: string, files: seq<FileEntry>)
    ensures WriteArchives(disk, folder, NamedParts(folder, Partition(files)))
      == (disk - SourcePaths(folder, files)) + Names(PathsOf(NamedParts(folder, Partition(files))))
  {
    PartitionCoversFiles(files);
    PartsDiskEffect(disk, folder, Partition(files));
  }

  /** What the walk of `split_zip_folder` holds after some files: the sealed parts, the open part and its size. */
  datatype WalkState = WalkState(sealed: seq<seq<FileEntry>>, open: seq<FileEntry>, openSize: nat)

  /** The walk state after `files`, one file at a time in walk order. */
  function Walk(files: seq<FileEntry>): WalkState
    decreases |files|
  {
    if files == [] then WalkState([], [], 0)
    else
      var s := Walk(files[..|files| - 1]);
      var f := files[|files| - 1];
      if s.openSize + f.size > MAX_SIZE then WalkState(s.sealed + [s.open], [f], f.size)
      else WalkState(s.sealed, s.open + [f], s.openSize + f.size)
  }

  /** Walking `p` and then packing the rest gives the partition of the whole walk. */
  lemma {:induction false} WalkThenPack(p: seq<FileEntry>, q: seq<FileEntry>)
    ensures Partition(p + q) == Walk(p).sealed + Pack(q, Walk(p).open, Walk(p).openSize)
    decreases |p|
  {
    if p == [] {
      assert p + q == q;
    } else {
      var init, f := p[..|p| - 1], p[|p| - 1];
      assert p + q == init + ([f] + q);
      WalkThenPack(init, [f] + q);
      assert ([f] + q)[0] == f && ([f] + q)[1..] == q;
    }
  }

  /**
   * The parts sealed during a walk, followed by the open part, hold exactly
   * the walked files in order: the files a raise interrupts are a prefix of
   * the walk, and those in sealed parts come first.
   */
  lemma WalkConsumesPrefix(p: seq<FileEntry>)
    ensures Flatten(Walk(p).sealed) + Walk(p).open == p
    ensures Partition(p) == Walk(p).sealed + (if Walk(p).open != [] then [Walk(p).open] else [])
  {
    WalkThenPack(p, []);
    assert p + [] == p;
    PartitionCoversFiles(p);
    var w := Walk(p);
    if w.open != [] {
      FlattenSnoc(w.sealed, w.open);
    } else {
      assert w.sealed + [] == w.sealed;
    }
  }

  lemma WalkStep(files: seq<FileEntry>, i: nat)
    requires i < |files|
    ensures files[..i + 1][..i] == files[..i] && files[..i + 1][i] == files[i]
  {
  }

  /**
   * The parts `split_zip_folder` seals before its walk ends: those sealed
   * before the first file whose size cannot be read, or the whole partition
   * when every size can be read.
   */
  function SealList(files: seq<FileEntry>, unstatable: set<string>): seq<seq<FileEntry>>
  {
    var k := FirstUnreadable(files, unstatable);
    if k < |files| then Walk(files[..k]).sealed else Partition(files)
  }

  /** A part with a member `zipf.write` raises on. */
  predicate BadPart(part: seq<FileEntry>, unopenable: set<string>)
  {
    FirstUnreadable(part, unopenable) < |part|
  }

  /** The index of the first part with an unopenable member, or the number of parts. */
  function FirstBadPart(parts: seq<seq<FileEntry>>, unopenable: set<string>): (m: nat)
    ensures m <= |parts|
    ensures forall j :: 0 <= j < m ==> !BadPart(parts[j], unopenable)
    ensures m < |parts| ==> BadPart(parts[m], unopenable)
  {
    if parts == [] || BadPart(parts[0], unopenable) then 0
    else 1 + FirstBadPart(parts[1..], unopenable)
  }

  /**
   * The archives `split_zip_folder` writes. Each sealed part before the
   * first part with an unopenable member is written whole. That part is
   * written up to the member `zipf.write` raises on.
   */
  function SplitArchives(folder: string, files: seq<FileEntry>, faults: Faults): seq<Archive>
  {
    var parts := SealList(files, faults.unstatable);
    var m := FirstBadPart(parts, faults.unopenable);
    NamedParts(folder, parts[..m]) +
      (if m < |parts| then [Archive(PartName(folder, m + 1), parts[m][..FirstUnreadable(parts[m], faults.unopenable)])]
       else [])
  }

  /** `split_zip_folder` raises, at a member it cannot write or at a size it cannot read. */
  predicate SplitRaises(files: seq<FileEntry>, faults: Faults)
  {
    || FirstBadPart(SealList(files, faults.unstatable), faults.unopenable) < |SealList(files, faults.unstatable)|
    || FirstUnreadable(files, faults.unstatable) < |files|
  }

  /**
   * Seals the open part of `split_zip_folder` as part `partNum` with
   * `add_to_zip`, and appends it to the parts written so far; a member that
   * cannot be opened raises part-way through the part.
   */
  method SealPart(folder: string, partNum: nat, members: seq<FileEntry>, unopenable: set<string>,
                  ghost parts: seq<seq<FileEntry>>, archives: seq<Archive>, zipPaths: seq<string>,
                  ghost disk0: set<string>, disk: set<string>)
    returns (zipPaths': seq<string>, archives': seq<Archive>, raised: bool, disk': set<string>)
    requires partNum == |parts| + 1
    requires archives == NamedParts(folder, parts) && zipPaths == PathsOf(archives)
    requires disk == WriteArchives(disk0, folder, archives)
    ensures raised <==> BadPart(members, unopenable)
    ensures !raised ==> archives' == NamedParts(folder, parts + [members])
    ensures raised ==>
              archives' == archives + [Archive(PartName(folder, partNum), members[..FirstUnreadable(members, unopenable)])]
    ensures zipPaths' == PathsOf(archives')
    ensures disk' == WriteArchives(disk0, folder, archives')
  {
    var zp;
    zp, raised, disk' := AddToZip(folder, partNum, members, unopenable, disk);
    var a := Archive(zp, members[..FirstUnreadable(members, unopenable)]);
    WriteArchivesSnoc(disk0, folder, archives, a);
    PathsOfSnoc(archives, a);
    zipPaths' := zipPaths + [zp];
    archives' := archives + [a];
    if !raised {
      assert members[..|members|] == members;
      NamedPartsSnoc(folder, parts, members);
    }
  }

  /**
   * `split_zip_folder`: walks the files keeping a running size and file list,
   * seals a part whenever the next file would push the running size past
   * `MAX_SIZE`, and seals what is left at the end. It raises at the first
   * size it cannot read, or in the first part with a member it cannot write.
   */
  method SplitZipFolder(folder: string, files: seq<FileEntry>, faults: Faults, disk: set<string>)
    returns (zipPaths: seq<string>, archives: seq<Archive>, raised: bool, disk': set<string>)
    ensures raised <==> SplitRaises(files, faults)
    ensures archives == SplitArchives(folder, files, faults)
    ensures zipPaths == PathsOf(archives)
    ensures disk' == WriteArchives(disk, folder, archives)
    ensures !raised ==> archives == NamedParts(folder, Partition(files))
    ensures !raised ==> disk' == (disk - SourcePaths(folder, files)) + Names(zipPaths)
  {
    var partNum, currentFiles, currentSize, i;
    ghost var parts;
    zipPaths, archives, raised, i, parts, partNum, currentFiles, currentSize, disk' := WalkFiles(folder, files, faults, disk);
    if raised {
      return;
    }
    FinalSeal(folder, files, faults, parts, currentFiles, currentSize);
    if currentFiles != [] {
      zipPaths, archives, raised, disk' := SealPart(folder, partNum, currentFiles, faults.unopenable, parts, archives, zipPaths, disk, disk');
      if raised {
        return;
      }
    }
    SplitWithoutRaise(folder, files, faults);
    SplitDiskEffect(disk, folder, files);
  }

  /**
   * The loop of `split_zip_folder`. It stops at the first file whose size
   * cannot be read, or at the first part it cannot write; otherwise it
   * walks every file and leaves the last part open.
   */
  method WalkFiles(folder: string, files: seq<FileEntry>, faults: Faults, disk: set<string>)
    returns (zipPaths: seq<string>, archives: seq<Archive>, raised: bool, i: nat, ghost parts: seq<seq<FileEntry>>,
             partNum: nat, currentFiles: seq<FileEntry>, currentSize: nat, disk': set<string>)
    ensures zipPaths == PathsOf(archives)
    ensures disk' == WriteArchives(disk, folder, archives)
    ensures raised ==> SplitRaises(files, faults) && archives == SplitArchives(folder, files, faults)
    ensures !raised ==> i == |files| && FirstUnreadable(files, faults.unstatable) == |files|
    ensures !raised ==> WalkState(parts, currentFiles, currentSize) == Walk(files)
    ensures !raised ==> forall j :: 0 <= j < |parts| ==> !BadPart(parts[j], faults.unopenable)
    ensures !raised ==> partNum == |parts| + 1 && archives == NamedParts(folder, parts)
  {
    zipPaths, archives, disk' := [], [], disk;
    raised := false;
    partNum := 1;
    currentSize := 0;
    currentFiles := [];
    parts := [];
    i := 0;
    while i < |files|
      invariant 0 <= i <= |files|
      invariant forall j :: 0 <= j < i ==> files[j].rel !in faults.unstatable
      invariant partNum == |parts| + 1
      invariant WalkState(parts, currentFiles, currentSize) == Walk(files[..i])
      invariant forall j :: 0 <= j < |parts| ==> !BadPart(parts[j], faults.unopenable)
      invariant archives == NamedParts(folder, parts) && zipPaths == PathsOf(archives)
      invariant disk' == WriteArchives(disk, folder, archives)
    {
      if files[i].rel in faults.unstatable {
        StatFaultSplit(folder, files, faults, i, parts);
        raised := true;
        return;
      }
      var stepRaised;
      stepRaised, parts, partNum, currentFiles, currentSize, archives, zipPaths, disk' :=
        WalkOne(folder, files, faults, disk, i, parts, partNum, currentFiles, currentSize, archives, zipPaths, disk');
      if stepRaised {
        raised := true;
        return;
      }
      i := i + 1;
    }
    assert files[..i] == files;
  }

  /**
   * One file of the walk of `split_zip_folder`, whose size has been read:
   * the open part is sealed first when the file would push it past
   * `MAX_SIZE`, and that seal raises on a member it cannot write.
   */
  method WalkOne(folder: string, files: seq<FileEntry>, faults: Faults, ghost disk0: set<string>, i: nat,
                 ghost parts: seq<seq<FileEntry>>, partNum: nat, currentFiles: seq<FileEntry>, currentSize: nat,
                 archives: seq<Archive>, zipPaths: seq<string>, disk: set<string>)
    returns (raised: bool, ghost parts': seq<seq<FileEntry>>, partNum': nat, currentFiles': seq<FileEntry>,
             currentSize': nat, archives': seq<Archive>, zipPaths': seq<string>, disk': set<string>)
    requires i < |files| && forall j :: 0 <= j <= i ==> files[j].rel !in faults.unstatable
    requires partNum == |parts| + 1
    requires WalkState(parts, currentFiles, currentSize) == Walk(files[..i])
    requires forall j :: 0 <= j < |parts| ==> !BadPart(parts[j], faults.unopenable)
    requires archives == NamedParts(folder, parts) && zipPaths == PathsOf(archives)
    requires disk == WriteArchives(disk0, folder, archives)
    ensures zipPaths' == PathsOf(archives') && disk' == WriteArchives(disk0, folder, archives')
    ensures raised ==> SplitRaises(files, faults) && archives' == SplitArchives(folder, files, faults)
    ensures !raised ==> partNum' == |parts'| + 1 && WalkState(parts', currentFiles', currentSize') == Walk(files[..i + 1])
    ensures !raised ==> forall j :: 0 <= j < |parts'| ==> !BadPart(parts'[j], faults.unopenable)
    ensures !raised ==> archives' == NamedParts(folder, parts')
  {
    var f := files[i];
    WalkStep(files, i);
    parts', partNum', archives', zipPaths', disk' := parts, partNum, archives, zipPaths, disk;
    currentFiles', currentSize' := currentFiles, currentSize;
    raised := false;
    if currentSize + f.size > MAX_SIZE {
      zipPaths', archives', raised, disk' :=
        SealPart(folder, partNum, currentFiles, faults.unopenable, parts, archives, zipPaths, disk0, disk);
      if raised {
        SealFaultSplit(folder, files, faults, i, parts, currentFiles);
        return;
      }
      parts' := parts + [currentFiles];
      partNum' := partNum + 1;
      currentFiles' := [f];
      currentSize' := f.size;
    } else {
      currentFiles' := currentFiles + [f];
      currentSize' := currentSize + f.size;
    }
  }

  /** The parts sealed after a prefix of the walk stay sealed as the walk goes on. */
  lemma {:induction false} WalkSealedGrows(files: seq<FileEntry>, i: nat, j: nat)
    requires i <= j <= |files|
    ensures Walk(files[..i]).sealed <= Walk(files[..j]).sealed
    decreases j - i
  {
    if i < j {
      WalkSealedGrows(files, i, j - 1);
      assert files[..j][..j - 1] == files[..j - 1];
    }
  }

  /** The parts sealed before any size fails to be read begin the seal list. */
  lemma SealedBeginSealList(files: seq<FileEntry>, unstatable: set<string>, n: nat)
    requires n <= FirstUnreadable(files, unstatable)
    ensures Walk(files[..n]).sealed <= SealList(files, unstatable)
  {
    var k := FirstUnreadable(files, unstatable);
    WalkSealedGrows(files, n, k);
    if k == |files| {
      assert files[..k] == files;
      WalkConsumesPrefix(files);
    }
  }

  /** The walk reaches a size it cannot read after sealing only writable parts. */
  lemma StatFaultSplit(folder: string, files: seq<FileEntry>, faults: Faults, i: nat, parts: seq<seq<FileEntry>>)
    requires i < |files| && files[i].rel in faults.unstatable
    requires forall j :: 0 <= j < i ==> files[j].rel !in faults.unstatable
    requires Walk(files[..i]).sealed == parts
    requires forall j :: 0 <= j < |parts| ==> !BadPart(parts[j], faults.unopenable)
    ensures SplitRaises(files, faults)
    ensures SplitArchives(folder, files, faults) == NamedParts(folder, parts)
  {
    assert FirstUnreadable(files, faults.unstatable) == i;
    assert parts[..|parts|] == parts;
  }

  /** Sealing file `i`'s predecessor part fails: that is the first part that cannot be written. */
  lemma SealFaultSplit(folder: string, files: seq<FileEntry>, faults: Faults, i: nat,
                       parts: seq<seq<FileEntry>>, cur: seq<FileEntry>)
    requires i < |files| && forall j :: 0 <= j <= i ==> files[j].rel !in faults.unstatable
    requires Walk(files[..i + 1]).sealed == parts + [cur]
    requires forall j :: 0 <= j < |parts| ==> !BadPart(parts[j], faults.unopenable)
    requires BadPart(cur, faults.unopenable)
    ensures SplitRaises(files, faults)
    ensures SplitArchives(folder, files, faults) ==
              NamedParts(folder, parts) + [Archive(PartName(folder, |parts| + 1), cur[..FirstUnreadable(cur, faults.unopenable)])]
  {
    var sl := SealList(files, faults.unstatable);
    SealedBeginSealList(files, faults.unstatable, i + 1);
    assert sl[|parts|] == (parts + [cur])[|parts|] == cur;
    assert forall j :: 0 <= j < |parts| ==> sl[j] == parts[j];
    assert FirstBadPart(sl, faults.unopenable) == |parts|;
    assert sl[..|parts|] == parts;
  }

  /** The part left open after the whole walk is the last one sealed, and decides the raise. */
  lemma FinalSeal(folder: string, files: seq<FileEntry>, faults: Faults,
                  parts: seq<seq<FileEntry>>, cur: seq<FileEntry>, curSize: nat)
    requires FirstUnreadable(files, faults.unstatable) == |files|
    requires Walk(files) == WalkState(parts, cur, curSize)
    requires forall j :: 0 <= j < |parts| ==> !BadPart(parts[j], faults.unopenable)
    ensures Partition(files) == parts + (if cur != [] then [cur] else [])
    ensures SplitRaises(files, faults) <==> BadPart(cur, faults.unopenable)
    ensures BadPart(cur, faults.unopenable) ==>
              SplitArchives(folder, files, faults) ==
                NamedParts(folder, parts) + [Archive(PartName(folder, |parts| + 1), cur[..FirstUnreadable(cur, faults.unopenable)])]
  {
    WalkConsumesPrefix(files);
    var sl := SealList(files, faults.unstatable);
    assert sl == parts + (if cur != [] then [cur] else []);
    if BadPart(cur, faults.unopenable) {
      assert sl[|parts|] == cur;
      assert FirstBadPart(sl, faults.unopenable) == |parts|;
      assert sl[..|parts|] == parts;
    } else {
      assert FirstBadPart(sl, faults.unopenable) == |sl|;
    }
  }

  /** Without a raise the split writes the whole partition. */
  lemma SplitWithoutRaise(folder: string, files: seq<FileEntry>, faults: Faults)
    requires !SplitRaises(files, faults)
    ensures SplitArchives(folder, files, faults) == NamedParts(folder, Partition(files))
  {
    var sl := SealList(files, faults.unstatable);
    assert sl[..|sl|] == sl;
  }

  /**
   * `zip_folder`: one archive `{folder}.zip` holding every file of the walk,
   * each source file removed right after it is written; this is `add_to_zip`
   * for part 1 with the whole walk.
   */
  method ZipFolder(folder: string, files: seq<FileEntry>, unwritable: set<string>, disk: set<string>)
    returns (zipPath: string, archive: Archive, raised: bool, disk': set<string>)
    ensures raised <==> FirstUnreadable(files, unwritable) < |files|
    ensures zipPath == folder + ".zip" && archive == Archive(zipPath, files[..FirstUnreadable(files, unwritable)])
    ensures !raised ==> archive.members == files
    ensures disk' == (disk - SourcePaths(folder, archive.members)) + {zipPath}
  {
    zipPath, raised, disk' := AddToZip(folder, 1, files, unwritable, disk);
    archive := Archive(zipPath, files[..FirstUnreadable(files, unwritable)]);
    forall e ensures zipPath != SourcePath(folder, e) {
      PartNameOutsideFolder(folder, 1, e);
    }
  }

  /**
   * `zip_handler`: splits into size-bounded parts when the upload mode is
   * `'Telegram'`, and writes a single archive otherwise. Either way every
   * walked file leaves the folder and every returned archive is on disk.
   */
  method ZipHandler(uploadMode: string, folder: string, files: seq<FileEntry>, faults: Faults, disk: set<string>)
    returns (zipPaths: seq<string>, raised: bool, disk': set<string>)
    ensures raised <==> ZipRaises(uploadMode, files, faults)
    ensures !raised && uploadMode == "Telegram" ==> zipPaths == PathsOf(NamedParts(folder, Partition(files)))
    ensures !raised && uploadMode != "Telegram" ==> zipPaths == [folder + ".zip"]
    ensures !raised ==> disk' == (disk - SourcePaths(folder, files)) + Names(zipPaths)
    ensures raised ==> zipPaths == [] && disk' == RaisedZipDisk(uploadMode, folder, files, faults, disk)
  {
    if uploadMode == "Telegram" {
      var archives;
      zipPaths, archives, raised, disk' := SplitZipFolder(folder, files, faults, disk);
    } else {
      var zipPath, archive;
      zipPath, archive, raised, disk' := ZipFolder(folder, files, Unwritable(faults), disk);
      zipPaths := [zipPath];
      assert Names(zipPaths) == {zipPath} by {
        assert zipPaths[0] == zipPath;
        assert zipPath in Names(zipPaths);
      }
    }
    if raised {
      zipPaths := [];
    }
  }

  /**
   * `zip_handler` raises: the split at a size it cannot read or a member it
   * cannot write, the single archive at a member it cannot write.
   */
  predicate ZipRaises(uploadMode: string, files: seq<FileEntry>, faults: Faults)
  {
    if uploadMode == "Telegram" then SplitRaises(files, faults)
    else FirstUnreadable(files, Unwritable(faults)) < |files|
  }

  /**
   * What `zip_handler` leaves when it raises: the split leaves the archives
   * it wrote, the last one possibly partial, and removes their members; the
   * single archive holds, and has removed, every file before the one it
   * cannot write.
   */
  function RaisedZipDisk(uploadMode: string, folder: string, files: seq<FileEntry>, faults: Faults,
                         disk: set<string>): set<string>
  {
    if uploadMode == "Telegram" then WriteArchives(disk, folder, SplitArchives(folder, files, faults))
    else (disk - SourcePaths(folder, files[..FirstUnreadable(files, Unwritable(faults))])) + {folder + ".zip"}
  }

  /**
   * An interrupted `zip_handler` removes only walked source files, and adds
   * only archive names.
   */
  lemma RaisedZipRemovesOnlyWalked(uploadMode: string, folder: string, files: seq<FileEntry>, faults: Faults,
                                   disk: set<string>)
    ensures disk - RaisedZipDisk(uploadMode, folder, files, faults, disk) <= SourcePaths(folder, files)
    ensures forall x :: x in RaisedZipDisk(uploadMode, folder, files, faults, disk) && x !in disk ==>
              x == folder + ".zip" || exists n :: 1 <= n <= |files| + 1 && x == PartName(folder, n)
  {
    if uploadMode == "Telegram" {
      SplitArchivesDisk(folder, files, faults, disk);
    } else {
      SourcePathsPrefix(folder, files[..FirstUnreadable(files, Unwritable(faults))], files);
    }
  }

  /**
   * Writing the archives of a split, interrupted or not, removes only walked
   * source files and adds only part names.
   */
  lemma SplitArchivesDisk(folder: string, files: seq<FileEntry>, faults: Faults, disk: set<string>)
    ensures disk - WriteArchives(disk, folder, SplitArchives(folder, files, faults)) <= SourcePaths(folder, files)
    ensures forall x :: x in WriteArchives(disk, folder, SplitArchives(folder, files, faults)) && x !in disk ==>
              exists n :: 1 <= n <= |files| + 1 && x == PartName(folder, n)
  {
    var archives := SplitArchives(folder, files, faults);
    var members := Flatten(MembersOf(archives));
    SplitArchivesMembers(folder, files, faults);
    SplitArchivesNames(folder, files, faults);
    PartPathsOutsideFolder(folder, archives, |files| + 1, members);
    WriteArchivesEffect(disk, folder, archives);
    SourcePathsPrefix(folder, members, files);
  }

  /** Archives named as parts never collide with a source file. */
  lemma PartPathsOutsideFolder(folder: string, archives: seq<Archive>, bound: nat, files: seq<FileEntry>)
    requires forall x :: x in ArchivePaths(archives) ==> exists n :: 1 <= n <= bound && x == PartName(folder, n)
    ensures ArchivePaths(archives) !! SourcePaths(folder, files)
  {
    forall x | x in ArchivePaths(archives) && x in SourcePaths(folder, files) ensures false {
      var n :| 1 <= n <= bound && x == PartName(folder, n);
      var i :| 0 <= i < |files| && x == SourcePath(folder, files[i]);
      PartNameOutsideFolder(folder, n, files[i]);
    }
  }

  /** The members of a split's archives, in order, are a prefix of the walk. */
  lemma SplitArchivesMembers(folder: string, files: seq<FileEntry>, faults: Faults)
    ensures Flatten(MembersOf(SplitArchives(folder, files, faults))) <= files
  {
    var archives := SplitArchives(folder, files, faults);
    var sl := SealList(files, faults.unstatable);
    var m := FirstBadPart(sl, faults.unopenable);
    SealListCoversPrefix(files, faults.unstatable);
    if m < |sl| {
      var x := FirstUnreadable(sl[m], faults.unopenable);
      assert MembersOf(archives) == sl[..m] + [sl[m][..x]];
      FlattenSnoc(sl[..m], sl[m][..x]);
      FlattenThroughPart(sl, m, x);
    } else {
      assert MembersOf(archives) == sl[..m];
      assert sl[..m] == sl;
    }
  }

  /** The parts before part `m`, then the first `x` files of part `m`, begin the flattened parts. */
  lemma FlattenThroughPart(parts: seq<seq<FileEntry>>, m: nat, x: nat)
    requires m < |parts| && x <= |parts[m]|
    ensures Flatten(parts[..m]) + parts[m][..x] <= Flatten(parts)
  {
    assert parts == parts[..m] + parts[m..];
    FlattenAppend(parts[..m], parts[m..]);
    assert parts[m..][1..] == parts[m + 1..];
    assert Flatten(parts[m..]) == parts[m] + Flatten(parts[m + 1..]);
  }

  /** A split's archives are numbered parts, no more than one per walked file plus one. */
  lemma SplitArchivesNames(folder: string, files: seq<FileEntry>, faults: Faults)
    ensures forall x :: x in ArchivePaths(SplitArchives(folder, files, faults)) ==>
              exists n :: 1 <= n <= |files| + 1 && x == PartName(folder, n)
  {
    SplitArchivesNumbered(folder, files, faults);
    NumberedNames(folder, SplitArchives(folder, files, faults), |files| + 1);
  }

  /** A split writes at most one archive per walked file plus one, numbered from 1. */
  lemma SplitArchivesNumbered(folder: string, files: seq<FileEntry>, faults: Faults)
    ensures |SplitArchives(folder, files, faults)| <= |files| + 1
    ensures forall k :: 0 <= k < |SplitArchives(folder, files, faults)| ==>
              SplitArchives(folder, files, faults)[k].path == PartName(folder, k + 1)
  {
    var sl := SealList(files, faults.unstatable);
    SealListCoversPrefix(files, faults.unstatable);
    assert |SplitArchives(folder, files, faults)| <= |sl|;
  }

  lemma NumberedNames(folder: string, archives: seq<Archive>, bound: nat)
    requires |archives| <= bound
    requires forall k :: 0 <= k < |archives| ==> archives[k].path == PartName(folder, k + 1)
    ensures forall x :: x in ArchivePaths(archives) ==> exists n :: 1 <= n <= bound && x == PartName(folder, n)
  {
    forall x | x in ArchivePaths(archives) ensures exists n :: 1 <= n <= bound && x == PartName(folder, n) {
      var k :| 0 <= k < |archives| && x == archives[k].path;
      assert x == PartName(folder, k + 1);
    }
  }

  /** The seal list holds a prefix of the walk, one part per walked file at most, plus one. */
  lemma SealListCoversPrefix(files: seq<FileEntry>, unstatable: set<string>)
    ensures Flatten(SealList(files, unstatable)) <= files
    ensures |SealList(files, unstatable)| <= |files| + 1
  {
    var k := FirstUnreadable(files, unstatable);
    if k < |files| {
      WalkConsumesPrefix(files[..k]);
      PartCountBound(files[..k]);
    } else {
      PartitionCoversFiles(files);
      WalkConsumesPrefix(files);
      PartCountBound(files);
    }
  }

  lemma {:induction false} FlattenAppend(a: seq<seq<FileEntry>>, b: seq<seq<FileEntry>>)
    ensures Flatten(a + b) == Flatten(a) + Flatten(b)
  {
    if a == [] {
      assert a + b == b;
    } else {
      assert (a + b)[1..] == a[1..] + b;
      FlattenAppend(a[1..], b);
    }
  }

  lemma SourcePathsPrefix(folder: string, p: seq<FileEntry>, files: seq<FileEntry>)
    requires p <= files
    ensures SourcePaths(folder, p) <= SourcePaths(folder, files)
  {
    assert files == p + files[|p|..];
    SourcePathsAppend(folder, p, files[|p|..]);
  }

  /**
   * Both archivers raise exactly when a walked file cannot be stat'd or
   * cannot be opened; only where they stop differs.
   */
  lemma ZipRaisesIff(uploadMode: string, files: seq<FileEntry>, faults: Faults)
    ensures ZipRaises(uploadMode, files, faults) <==> FirstUnreadable(files, Unwritable(faults)) < |files|
  {
    if uploadMode == "Telegram" {
      SplitRaisesIff(files, faults);
    }
  }

  lemma SplitRaisesIff(files: seq<FileEntry>, faults: Faults)
    ensures SplitRaises(files, faults) <==> FirstUnreadable(files, Unwritable(faults)) < |files|
  {
    var k := FirstUnreadable(files, faults.unstatable);
    var sl := SealList(files, faults.unstatable);
    var m := FirstBadPart(sl, faults.unopenable);
    var u := FirstUnreadable(files, Unwritable(faults));
    if u < |files| && k == |files| {
      PartitionCoversFiles(files);
      FlattenIndex(sl, u);
      var j, x :| 0 <= j < |sl| && 0 <= x < |sl[j]| && sl[j][x] == files[u];
      assert BadPart(sl[j], faults.unopenable);
    }
    if m < |sl| {
      var x := FirstUnreadable(sl[m], faults.unopenable);
      SealListCoversPrefix(files, faults.unstatable);
      FlattenHas(sl, m, x);
      var i :| 0 <= i < |Flatten(sl)| && Flatten(sl)[i] == sl[m][x];
      assert files[i] == sl[m][x];
    }
  }

  lemma {:induction false} FlattenIndex(parts: seq<seq<FileEntry>>, i: nat)
    requires i < |Flatten(parts)|
    ensures exists j, x :: 0 <= j < |parts| && 0 <= x < |parts[j]| && parts[j][x] == Flatten(parts)[i]
  {
    if i >= |parts[0]| {
      FlattenIndex(parts[1..], i - |parts[0]|);
      var j, x :| 0 <= j < |parts[1..]| && 0 <= x < |parts[1..][j]| && parts[1..][j][x] == Flatten(parts[1..])[i - |parts[0]|];
      assert parts[j + 1][x] == Flatten(parts)[i];
    } else {
      assert parts[0][i] == Flatten(parts)[i];
    }
  }

  lemma {:induction false} FlattenHas(parts: seq<seq<FileEntry>>, j: nat, x: nat)
    requires j < |parts| && x < |parts[j]|
    ensures exists i :: 0 <= i < |Flatten(parts)| && Flatten(parts)[i] == parts[j][x]
  {
    if j == 0 {
      assert Flatten(parts)[x] == parts[0][x];
    } else {
      FlattenHas(parts[1..], j - 1, x);
      var i :| 0 <= i < |Flatten(parts[1..])| && Flatten(parts[1..])[i] == parts[1..][j - 1][x];
      assert Flatten(parts)[|parts[0]| + i] == parts[j][x];
    }
  }

  /** A walk seals at most one part per walked file. */
  lemma {:induction false} PartCountBound(walked: seq<FileEntry>)
    ensures |Walk(walked).sealed| <= |walked|
    decreases |walked|
  {
    if walked != [] {
      PartCountBound(walked[..|walked| - 1]);
    }
  }
}
