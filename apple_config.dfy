/**
 * `_read_apple_config_paths` (bot/helpers/utils.py): the save folders for
 * the ALAC, Atmos and AAC downloads, read from `key: value` lines of the
 * downloader's configuration file, with defaults under the home directory.
 * The file is given as its lines, or as missing or unreadable.
 */
module AppleConfig {
  import opened Common

  datatype ConfigFile = Missing | Unreadable | Lines(lines: seq<string>)

  datatype ApplePaths = ApplePaths(alac: string, atmos: string, aac: string)

  /** A configuration key: a name ending in `:`. */
  type Key = k: string | k != [] && k[|k| - 1] == ':' witness ":"

  const ALAC_KEY: Key := "alac-save-folder:"
  const ATMOS_KEY: Key := "atmos-save-folder:"
  const AAC_KEY: Key := "aac-save-folder:"

  /** The default folders sit under this path below the home directory. */
  const MUSIC_SUBDIR: string := "/Music/Apple Music/"

  /** `os.path.expanduser(p)` for `~` and `~/...`; `~user` forms are left as they are. */
  function ExpandUser(p: string, home: string): (r: string)
    ensures (p == [] || p[0] != '~') ==> r == p
  {
    if p != [] && p[0] == '~' && (|p| == 1 || p[1] == '/') then
      var expanded := RStripSlashes(home) + p[1..];
      if expanded == [] then "/" else expanded
    else p
  }

  /** `~/x` expands to the home directory followed by `/x`. */
  lemma ExpandUserHome(rest: string, home: string)
    requires home != [] && home[|home| - 1] != '/'
    ensures ExpandUser("~/" + rest, home) == home + "/" + rest
  {
    assert ("~/" + rest)[1..] == "/" + rest;
  }

  /**
   * `os.path.expanduser("~")`: the home directory without trailing slashes,
   * or `/` when nothing is left.
   */
  function HomeDir(home: string): (r: string)
    ensures r != []
    ensures RStripSlashes(home) == [] ==> r == "/"
    ensures RStripSlashes(home) != [] ==> r == RStripSlashes(home) && r[|r| - 1] != '/'
  {
    ExpandUser("~", home)
  }

  /** The folder used for `format` when the file does not name one. */
  function DefaultDir(home: string, format: string): string
  {
    PathJoin(PathJoin(PathJoin(HomeDir(home), "Music"), "Apple Music"), format)
  }

  /** A stripped, non-blank, non-comment line whose lower-cased form starts with `key`. */
  predicate Sets(line: string, key: string)
  {
    var l := Strip(line);
    l != [] && l[0] != '#' && key <= Lower(l)
  }

  /** The configured value on a line that sets a key ending in its only `:`. */
  function ValueOf(line: string, key: Key): (v: string)
    requires Sets(line, key)
  {
    var l := Strip(line);
    assert Lower(l)[|key| - 1] == ':';
    assert l[|key| - 1] == ':';
    Strip(AfterFirst(l, ':'))
  }

  /** The value of `key` after the lines: the last line that sets it wins. */
  function Resolve(lines: seq<string>, key: Key, default: string): string
    decreases |lines|
  {
    if lines == [] then default
    else if Sets(lines[|lines| - 1], key) then ValueOf(lines[|lines| - 1], key)
    else Resolve(lines[..|lines| - 1], key, default)
  }

  function ReadSpec(home: string, config: ConfigFile): Option<ApplePaths>
  {
    match config
    case Unreadable => None
    case Missing => Some(ApplePaths(ExpandUser(DefaultDir(home, "alac"), home), ExpandUser(DefaultDir(home, "atmos"), home), ExpandUser(DefaultDir(home, "aac"), home)))
    case Lines(lines) =>
      Some(ApplePaths(
        ExpandUser(Resolve(lines, ALAC_KEY, DefaultDir(home, "alac")), home),
        ExpandUser(Resolve(lines, ATMOS_KEY, DefaultDir(home, "atmos")), home),
        ExpandUser(Resolve(lines, AAC_KEY, DefaultDir(home, "aac")), home)))
  }

  /**
   * The line loop: each line is stripped, blank and `#` lines are skipped,
   * and the first of the three keys its lower-cased form starts with takes
   * the value after the first `:`. `None` stands for the empty dictionary
   * returned when reading fails.
   */
  method ReadAppleConfigPaths(home: string, config: ConfigFile) returns (paths: Option<ApplePaths>)
    ensures paths == ReadSpec(home, config)
  {
    if config.Unreadable? {
      return None;
    }
    var alacDir := DefaultDir(home, "alac");
    var atmosDir := DefaultDir(home, "atmos");
    var aacDir := DefaultDir(home, "aac");
    if config.Lines? {
      var lines := config.lines;
      for i := 0 to |lines|
        invariant alacDir == Resolve(lines[..i], ALAC_KEY, DefaultDir(home, "alac"))
        invariant atmosDir == Resolve(lines[..i], ATMOS_KEY, DefaultDir(home, "atmos"))
        invariant aacDir == Resolve(lines[..i], AAC_KEY, DefaultDir(home, "aac"))
      {
        PrefixSnoc(lines, i);
        ResolveAppend(lines[..i], lines[i], ALAC_KEY, DefaultDir(home, "alac"));
        ResolveAppend(lines[..i], lines[i], ATMOS_KEY, DefaultDir(home, "atmos"));
        ResolveAppend(lines[..i], lines[i], AAC_KEY, DefaultDir(home, "aac"));
        alacDir, atmosDir, aacDir := ApplyLine(lines[i], alacDir, atmosDir, aacDir);
      }
      PrefixWhole(lines);
    }
    return Some(ApplePaths(ExpandUser(alacDir, home), ExpandUser(atmosDir, home), ExpandUser(aacDir, home)));
  }

  /** One pass of the loop body over a single line. */
  method ApplyLine(raw: string, alac: string, atmos: string, aac: string)
    returns (alac': string, atmos': string, aac': string)
    ensures alac' == (if Sets(raw, ALAC_KEY) then ValueOf(raw, ALAC_KEY) else alac)
    ensures atmos' == (if Sets(raw, ATMOS_KEY) then ValueOf(raw, ATMOS_KEY) else atmos)
    ensures aac' == (if Sets(raw, AAC_KEY) then ValueOf(raw, AAC_KEY) else aac)
  {
    KeysExclusive(raw);
    alac', atmos', aac' := alac, atmos, aac;
    var line := Strip(raw);
    if line == [] || line[0] == '#' {
      return;
    }
    var lowered := Lower(line);
    if ALAC_KEY <= lowered {
      alac' := ValueOf(raw, ALAC_KEY);
    } else if ATMOS_KEY <= lowered {
      atmos' := ValueOf(raw, ATMOS_KEY);
    } else if AAC_KEY <= lowered {
      aac' := ValueOf(raw, AAC_KEY);
    }
  }

  lemma PrefixSnoc(lines: seq<string>, i: nat)
    requires i < |lines|
    ensures lines[..i + 1] == lines[..i] + [lines[i]]
  {
  }

  lemma PrefixWhole(lines: seq<string>)
    ensures lines[..|lines|] == lines
  {
  }

  // ---------------------------------------------------------------------
  // Properties

  lemma PrefixesApart(s: string, k1: string, k2: string, i: nat)
    requires i < |k1| && i < |k2| && k1[i] != k2[i]
    ensures !(k1 <= s && k2 <= s)
  {
  }

  /** A line sets at most one of the three keys, so the `elif` order never hides a key. */
  lemma KeysExclusive(line: string)
    ensures !(Sets(line, ALAC_KEY) && Sets(line, ATMOS_KEY))
    ensures !(Sets(line, ALAC_KEY) && Sets(line, AAC_KEY))
    ensures !(Sets(line, ATMOS_KEY) && Sets(line, AAC_KEY))
  {
    KeysApart(line, ALAC_KEY, ATMOS_KEY, 1);
    KeysApart(line, ALAC_KEY, AAC_KEY, 1);
    KeysApart(line, ATMOS_KEY, AAC_KEY, 1);
  }

  lemma KeysApart(line: string, k1: string, k2: string, i: nat)
    requires i < |k1| && i < |k2| && k1[i] != k2[i]
    ensures !(Sets(line, k1) && Sets(line, k2))
  {
    PrefixesApart(Lower(Strip(line)), k1, k2, i);
  }

  /** Lines that set nothing leave every key at its default. */
  lemma {:induction false} UnsetKeyKeepsDefault(lines: seq<string>, key: Key, default: string)
    requires forall i :: 0 <= i < |lines| ==> !Sets(lines[i], key)
    ensures Resolve(lines, key, default) == default
    decreases |lines|
  {
    if lines != [] {
      UnsetKeyKeepsDefault(lines[..|lines| - 1], key, default);
    }
  }

  /** Appending a line that does not set the key changes nothing; one that does decides the value. */
  lemma ResolveAppend(lines: seq<string>, line: string, key: Key, default: string)
    ensures !Sets(line, key) ==> Resolve(lines + [line], key, default) == Resolve(lines, key, default)
    ensures Sets(line, key) ==> Resolve(lines + [line], key, default) == ValueOf(line, key)
  {
    assert (lines + [line])[..|lines|] == lines;
  }

  /**
   * The value is what follows the key on the stripped line, stripped again;
   * the key is matched without regard to case.
   */
  lemma ValueAfterKey(line: string, key: Key)
    requires forall i :: 0 <= i < |key| - 1 ==> key[i] != ':'
    requires Sets(line, key)
    ensures ValueOf(line, key) == Strip(Strip(line)[|key|..])
  {
    var l := Strip(line);
    KeyColonFirst(l, key);
    FindAt(l, ':', |key| - 1);
    assert AfterFirst(l, ':') == l[|key|..];
  }

  /** On a line whose lower-cased text starts with the key, the key's `:` is the line's first. */
  lemma KeyColonFirst(l: string, key: Key)
    requires forall i :: 0 <= i < |key| - 1 ==> key[i] != ':'
    requires key <= Lower(l)
    ensures |key| <= |l| && l[|key| - 1] == ':'
    ensures forall i :: 0 <= i < |key| - 1 ==> l[i] != ':'
  {
    var lowered := Lower(l);
    forall i | 0 <= i < |key| ensures (l[i] == ':') == (key[i] == ':') {
      assert lowered[i] == key[i] && lowered[i] == LowerChar(l[i]);
    }
  }

  /** Blank lines and `#` comments set nothing. */
  lemma CommentsIgnored(line: string, key: string)
    requires Strip(line) == [] || Strip(line)[0] == '#'
    ensures !Sets(line, key)
  {
  }

  /**
   * Whatever the home directory, the default folder is `Music/Apple Music/<format>`
   * under it with its trailing slashes dropped, and under `/` when the home
   * directory is empty or only slashes.
   */
  lemma DefaultDirUnderHome(home: string, format: string)
    requires format != [] && format[0] != '/'
    ensures var h := RStripSlashes(home);
            DefaultDir(home, format) == (if h == [] then "" else h) + MUSIC_SUBDIR + format
  {
    var h := HomeDir(home);
    if RStripSlashes(home) == [] {
      assert PathJoin(h, "Music") == "" + "/Music";
      MusicUnder("", format);
    } else {
      assert PathJoin(h, "Music") == h + "/Music";
      MusicUnder(h, format);
    }
  }

  lemma MusicUnder(base: string, format: string)
    requires format != [] && format[0] != '/'
    ensures PathJoin(PathJoin(base + "/Music", "Apple Music"), format) == base + MUSIC_SUBDIR + format
  {
    var music := base + "/Music";
    assert music[|music| - 1] == 'c';
    var apple := PathJoin(music, "Apple Music");
    assert apple == base + "/Music/Apple Music";
    assert apple[|apple| - 1] == 'c';
  }

  /** An empty home directory gives the three standard folders under `/`. */
  lemma EmptyHomeDefaults()
    ensures ReadSpec("", Missing) == Some(ApplePaths(
      MUSIC_SUBDIR + "alac", MUSIC_SUBDIR + "atmos", MUSIC_SUBDIR + "aac"))
  {
    EmptyHomeDefault("alac");
    EmptyHomeDefault("atmos");
    EmptyHomeDefault("aac");
  }

  lemma EmptyHomeDefault(format: string)
    requires format != [] && format[0] != '/'
    ensures ExpandUser(DefaultDir("", format), "") == MUSIC_SUBDIR + format
  {
    DefaultDirUnderHome("", format);
    assert DefaultDir("", format)[0] == '/';
  }

  lemma DefaultDirShape(home: string, format: string)
    requires home != [] && home[0] == '/' && home[|home| - 1] != '/'
    requires format != [] && format[0] != '/'
    ensures DefaultDir(home, format) == home + MUSIC_SUBDIR + format
    ensures ExpandUser(DefaultDir(home, format), home) == DefaultDir(home, format)
  {
    var music := PathJoin(home, "Music");
    assert music == home + "/Music";
    var apple := PathJoin(music, "Apple Music");
    assert apple == home + "/Music/Apple Music";
    assert DefaultDir(home, format)[0] == '/';
  }

  /** A missing file gives the three standard folders under the home directory. */
  lemma MissingFileDefaults(home: string)
    requires home != [] && home[0] == '/' && home[|home| - 1] != '/'
    ensures ReadSpec(home, Missing) == Some(ApplePaths(
      home + MUSIC_SUBDIR + "alac", home + MUSIC_SUBDIR + "atmos", home + MUSIC_SUBDIR + "aac"))
  {
    DefaultDirShape(home, "alac");
    DefaultDirShape(home, "atmos");
    DefaultDirShape(home, "aac");
  }
}
