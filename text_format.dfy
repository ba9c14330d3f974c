/**
 * Text helpers of bot/helpers/utils.py: placeholder substitution
 * (`format_string`), the ten-cell progress bar of `progress_message`, and
 * the fallback metadata of `default_metadata`.
 */
module TextFormat {
  import opened Common

  // ---------------------------------------------------------------------
  // `str.replace`

  /** `s.replace(pat, repl)`: every leftmost, non-overlapping occurrence of `pat` replaced. */
  function Replace(s: string, pat: string, repl: string): (r: string)
    requires pat != []
    decreases |s|
  {
    if |s| < |pat| then s
    else if pat <= s then repl + Replace(s[|pat|..], pat, repl)
    else [s[0]] + Replace(s[1..], pat, repl)
  }

  /** A text without the pattern is left as it is. */
  lemma {:induction false} ReplaceAbsent(s: string, pat: string, repl: string)
    requires pat != []
    requires !Contains(s, pat)
    ensures Replace(s, pat, repl) == s
    decreases |s|
  {
    if |s| >= |pat| {
      assert !(pat <= s);
      ReplaceAbsent(s[1..], pat, repl);
    }
  }

  /** Replacing a pattern by itself changes nothing. */
  lemma {:induction false} ReplaceSelf(s: string, pat: string)
    requires pat != []
    ensures Replace(s, pat, pat) == s
    decreases |s|
  {
    if |s| >= |pat| {
      if pat <= s {
        ReplaceSelf(s[|pat|..], pat);
        assert s == pat + s[|pat|..];
      } else {
        ReplaceSelf(s[1..], pat);
      }
    }
  }

  /** The whole text equal to the pattern becomes the replacement. */
  lemma ReplaceWhole(pat: string, repl: string)
    requires pat != []
    ensures Replace(pat, pat, repl) == repl
  {
    assert pat[|pat|..] == [];
  }

  predicate NoBrace(s: string)
  {
    forall i :: 0 <= i < |s| ==> s[i] != '{' && s[i] != '}'
  }

  /** `{name}` */
  function Placeholder(name: string): (r: string)
    ensures r != [] && r[0] == '{' && r[|r| - 1] == '}'
  {
    "{" + name + "}"
  }

  predicate OccursAt(s: string, pat: string, i: int)
  {
    0 <= i && i + |pat| <= |s| && s[i..i + |pat|] == pat
  }

  lemma {:induction false} ContainsSomewhere(s: string, pat: string)
    requires Contains(s, pat)
    ensures exists i :: OccursAt(s, pat, i)
    decreases |s|
  {
    if pat <= s {
      assert OccursAt(s, pat, 0);
    } else {
      ContainsSomewhere(s[1..], pat);
      var i :| OccursAt(s[1..], pat, i);
      assert s[i + 1..i + 1 + |pat|] == s[1..][i..i + |pat|];
      assert OccursAt(s, pat, i + 1);
    }
  }

  /** No placeholder occurs inside a different, brace-free one. */
  lemma PlaceholderInPlaceholder(a: string, b: string)
    requires NoBrace(a)
    requires Contains(Placeholder(a), Placeholder(b))
    ensures a == b
  {
    var ka, kb := Placeholder(a), Placeholder(b);
    ContainsSomewhere(ka, kb);
    var i :| OccursAt(ka, kb, i);
    assert forall j :: 0 < j < |ka| - 1 ==> ka[j] == a[j - 1];
    assert ka[i] == kb[0] == '{';
    assert i == 0;
    assert ka[|kb| - 1] == kb[|kb| - 1] == '}';
    assert |kb| == |ka|;
    assert ka == kb;
    assert a == ka[1..|ka| - 1] && b == kb[1..|kb| - 1];
  }

  // ---------------------------------------------------------------------
  // `format_string`

  type Data = map<string, string>

  /** `d.get(key, '')` */
  function GetText(d: Data, key: string): string
  {
    if key in d then d[key] else ""
  }

  /** The metadata fields a template may name. */
  datatype Field =
    | TitleField | Album | Artist | AlbumArtist | TrackNumber | Date | Upc | Isrc
    | TotalTracks | Volume | TotalVolume | Extension | Duration | Copyright
    | Genre | Provider | Quality | Explicit

  /** The metadata fields, in the order the substitution applies them. */
  const FIELDS: seq<Field> := [
    TitleField, Album, Artist, AlbumArtist, TrackNumber, Date, Upc, Isrc,
    TotalTracks, Volume, TotalVolume, Extension, Duration, Copyright,
    Genre, Provider, Quality, Explicit]

  /** The metadata key of a field, which is also its placeholder name. */
  function FieldName(f: Field): string
  {
    match f
    case TitleField => "title"
    case Album => "album"
    case Artist => "artist"
    case AlbumArtist => "albumartist"
    case TrackNumber => "tracknumber"
    case Date => "date"
    case Upc => "upc"
    case Isrc => "isrc"
    case TotalTracks => "totaltracks"
    case Volume => "volume"
    case TotalVolume => "totalvolume"
    case Extension => "extension"
    case Duration => "duration"
    case Copyright => "copyright"
    case Genre => "genre"
    case Provider => "provider"
    case Quality => "quality"
    case Explicit => "explicit"
  }

  datatype Replacement = Replacement(key: string, value: string)

  /** The value for a field: the provider is title-cased, the rest are taken as they are. */
  function MetadataValue(data: Data, f: Field): string
  {
    if f == Provider then Title(GetText(data, FieldName(f))) else GetText(data, FieldName(f))
  }

  /** Python truthiness of the optional user dictionary. */
  predicate UserGiven(user: Option<Data>)
  {
    user.Some? && user.value != map[]
  }

  /** The substitution table: the metadata keys, then `{user}` and `{username}` when a user is given. */
  function Replacements(data: Data, user: Option<Data>): (r: seq<Replacement>)
    ensures |r| == |FIELDS| + (if UserGiven(user) then 2 else 0)
    ensures KeysWellFormed(r) && KeysOpenBrace(r)
    ensures r[..|FIELDS|] == MetadataTable(data)
  {
    MetadataTable(data) + UserTable(user)
  }

  /** One entry per field, keyed by the field's placeholder. */
  function MetadataTable(data: Data): (r: seq<Replacement>)
    ensures |r| == |FIELDS|
    ensures forall i :: 0 <= i < |FIELDS| ==> r[i] == Replacement(Placeholder(FieldName(FIELDS[i])), MetadataValue(data, FIELDS[i]))
  {
    seq(|FIELDS|, i requires 0 <= i < |FIELDS| =>
      Replacement(Placeholder(FieldName(FIELDS[i])), MetadataValue(data, FIELDS[i])))
  }

  /** `{user}` and `{username}` with the user's name and handle, when a user is given. */
  function UserTable(user: Option<Data>): seq<Replacement>
  {
    if UserGiven(user) then
      [Replacement(Placeholder("user"), GetText(user.value, "name")),
       Replacement(Placeholder("username"), GetText(user.value, "user_name"))]
    else []
  }

  predicate KeysWellFormed(r: seq<Replacement>)
  {
    forall i :: 0 <= i < |r| ==> r[i].key != []
  }

  /** The replacements applied one after the other, left to right. */
  function ApplyAll(text: string, r: seq<Replacement>): string
    requires KeysWellFormed(r)
    decreases |r|
  {
    if r == [] then text
    else Replace(ApplyAll(text, r[..|r| - 1]), r[|r| - 1].key, r[|r| - 1].value)
  }

  /** `format_string(text, data, user)`: the loop over the substitution table. */
  method FormatString(text: string, data: Data, user: Option<Data>) returns (r: string)
    ensures r == ApplyAll(text, Replacements(data, user))
  {
    var table := Replacements(data, user);
    r := text;
    for i := 0 to |table|
      invariant r == ApplyAll(text, table[..i])
    {
      ApplyAllStep(text, table, i);
      r := Replace(r, table[i].key, table[i].value);
    }
    assert table[..|table|] == table;
  }

  /** One more replacement extends the prefix applied so far. */
  lemma ApplyAllStep(text: string, r: seq<Replacement>, i: nat)
    requires KeysWellFormed(r) && i < |r|
    ensures ApplyAll(text, r[..i + 1]) == Replace(ApplyAll(text, r[..i]), r[i].key, r[i].value)
  {
    assert r[..i + 1][..i] == r[..i];
  }

  /** A text holding none of the keys comes through every substitution unchanged. */
  lemma {:induction false} ApplyAllUntouched(text: string, r: seq<Replacement>)
    requires KeysWellFormed(r)
    requires forall i :: 0 <= i < |r| ==> !Contains(text, r[i].key)
    ensures ApplyAll(text, r) == text
    decreases |r|
  {
    if r != [] {
      ApplyAllUntouched(text, r[..|r| - 1]);
      ReplaceAbsent(text, r[|r| - 1].key, r[|r| - 1].value);
    }
  }

  /** A key that starts with `{` cannot occur in a text without `{`. */
  lemma BraceKeyNeedsBrace(s: string, key: string)
    requires key != [] && key[0] == '{'
    ensures Contains(s, key) ==> exists i :: 0 <= i < |s| && s[i] == '{'
  {
    if Contains(s, key) {
      ContainsSomewhere(s, key);
      var i :| OccursAt(s, key, i);
      assert s[i] == key[0];
    }
  }

  predicate KeysOpenBrace(r: seq<Replacement>)
  {
    forall i :: 0 <= i < |r| ==> r[i].key != [] && r[i].key[0] == '{'
  }

  lemma ApplyAllBraceFree(text: string, r: seq<Replacement>)
    requires KeysOpenBrace(r)
    requires forall i :: 0 <= i < |text| ==> text[i] != '{'
    ensures ApplyAll(text, r) == text
  {
    forall i | 0 <= i < |r| ensures !Contains(text, r[i].key) {
      BraceKeyNeedsBrace(text, r[i].key);
    }
    ApplyAllUntouched(text, r);
  }

  /** A template with no `{` comes back unchanged. */
  lemma FormatStringPlainText(text: string, data: Data, user: Option<Data>)
    requires forall i :: 0 <= i < |text| ==> text[i] != '{'
    ensures ApplyAll(text, Replacements(data, user)) == text
  {
    ApplyAllBraceFree(text, Replacements(data, user));
  }

  lemma UserNotMetadata()
    ensures forall f: Field :: FieldName(f) != "user" && FieldName(f) != "username"
  {
    forall f: Field ensures FieldName(f) != "user" && FieldName(f) != "username" {
      assert FieldName(f)[0] != 'u' || FieldName(f)[1] != 's';
    }
  }

  /** Distinct brace-free names have placeholders that do not contain one another. */
  lemma DistinctPlaceholders(a: string, b: string)
    requires NoBrace(a) && a != b
    ensures !Contains(Placeholder(a), Placeholder(b))
  {
    if Contains(Placeholder(a), Placeholder(b)) {
      PlaceholderInPlaceholder(a, b);
    }
  }

  /** A brace-free name that is no field's name has a placeholder holding no metadata key. */
  lemma NonFieldApart(name: string, data: Data)
    requires NoBrace(name)
    requires forall f: Field :: FieldName(f) != name
    ensures forall j :: 0 <= j < |FIELDS| ==> !Contains(Placeholder(name), MetadataTable(data)[j].key)
  {
    forall j | 0 <= j < |FIELDS| ensures !Contains(Placeholder(name), MetadataTable(data)[j].key) {
      DistinctPlaceholders(name, FieldName(FIELDS[j]));
    }
  }

  /**
   * The two entries appended after `meta` resolve their own keys when
   * neither key lies in an earlier key and the first value holds no later key.
   */
  lemma TailEntriesResolve(meta: seq<Replacement>, u: Replacement, v: Replacement)
    requires KeysWellFormed(meta + [u, v])
    requires forall j :: 0 <= j < |meta| ==> !Contains(u.key, meta[j].key) && !Contains(v.key, meta[j].key)
    requires !Contains(v.key, u.key) && !Contains(u.value, v.key)
    ensures ApplyAll(u.key, meta + [u, v]) == u.value
    ensures ApplyAll(v.key, meta + [u, v]) == v.value
  {
    var r := meta + [u, v];
    assert r[..|r| - 1] == meta + [u];
    assert (meta + [u])[..|meta|] == meta;
    ApplyAllUntouched(u.key, meta);
    ApplyAllUntouched(v.key, meta);
    ReplaceWhole(u.key, u.value);
    ReplaceAbsent(u.value, v.key, v.value);
    ReplaceAbsent(v.key, u.key, u.value);
    ReplaceWhole(v.key, v.value);
  }

  /** With a user given, `{user}` and `{username}` become the user's name and handle. */
  lemma UserPlaceholders(data: Data, user: Option<Data>)
    requires UserGiven(user)
    requires forall c :: 0 <= c < |GetText(user.value, "name")| ==> GetText(user.value, "name")[c] != '{'
    ensures ApplyAll(Placeholder("user"), Replacements(data, user)) == GetText(user.value, "name")
    ensures ApplyAll(Placeholder("username"), Replacements(data, user)) == GetText(user.value, "user_name")
  {
    var meta := MetadataTable(data);
    var u := Replacement(Placeholder("user"), GetText(user.value, "name"));
    var v := Replacement(Placeholder("username"), GetText(user.value, "user_name"));
    assert Replacements(data, user) == meta + [u, v];
    UserNotMetadata();
    NonFieldApart("user", data);
    NonFieldApart("username", data);
    DistinctPlaceholders("username", "user");
    BraceKeyNeedsBrace(u.value, v.key);
    TailEntriesResolve(meta, u, v);
  }

  /** The position of a field in the substitution order. */
  function FieldIndex(f: Field): (k: nat)
    ensures k < |FIELDS| && FIELDS[k] == f
  {
    match f
    case TitleField => 0
    case Album => 1
    case Artist => 2
    case AlbumArtist => 3
    case TrackNumber => 4
    case Date => 5
    case Upc => 6
    case Isrc => 7
    case TotalTracks => 8
    case Volume => 9
    case TotalVolume => 10
    case Extension => 11
    case Duration => 12
    case Copyright => 13
    case Genre => 14
    case Provider => 15
    case Quality => 16
    case Explicit => 17
  }

  /** Field names hold no brace, and different fields have different names. */
  lemma FieldNamesApart(f: Field, g: Field)
    ensures NoBrace(FieldName(f))
    ensures f != g ==> FieldName(f) != FieldName(g)
  {
  }

  /** Applying a table in two runs is applying the whole table. */
  lemma {:induction false} ApplyAllAppend(text: string, a: seq<Replacement>, b: seq<Replacement>)
    requires KeysWellFormed(a) && KeysWellFormed(b)
    ensures KeysWellFormed(a + b)
    ensures ApplyAll(text, a + b) == ApplyAll(ApplyAll(text, a), b)
    decreases |b|
  {
    if b != [] {
      var b' := b[..|b| - 1];
      assert (a + b)[..|a + b| - 1] == a + b';
      ApplyAllAppend(text, a, b');
    } else {
      assert a + b == a;
    }
  }

  /**
   * Entry `k` of a table resolves its own key when no earlier key lies in
   * it and its value holds no `{` for a later key to match.
   */
  lemma EntryResolves(r: seq<Replacement>, k: nat)
    requires KeysOpenBrace(r) && k < |r|
    requires forall j :: 0 <= j < k ==> !Contains(r[k].key, r[j].key)
    requires forall c :: 0 <= c < |r[k].value| ==> r[k].value[c] != '{'
    ensures KeysWellFormed(r)
    ensures ApplyAll(r[k].key, r) == r[k].value
  {
    var key, v := r[k].key, r[k].value;
    ApplyAllUntouched(key, r[..k]);
    ApplyAllStep(key, r, k);
    ReplaceWhole(key, v);
    ApplyAllBraceFree(v, r[k + 1..]);
    assert r == r[..k + 1] + r[k + 1..];
    ApplyAllAppend(key, r[..k + 1], r[k + 1..]);
  }

  /**
   * A metadata placeholder `{f}` becomes the field's value, provided that
   * value holds no `{` which a later entry could match.
   */
  lemma FieldPlaceholder(data: Data, user: Option<Data>, f: Field)
    requires forall c :: 0 <= c < |MetadataValue(data, f)| ==> MetadataValue(data, f)[c] != '{'
    ensures ApplyAll(Placeholder(FieldName(f)), Replacements(data, user)) == MetadataValue(data, f)
  {
    var r := Replacements(data, user);
    var t := MetadataTable(data);
    var k := FieldIndex(f);
    assert r[k] == r[..|FIELDS|][k] == t[k];
    forall j | 0 <= j < k ensures !Contains(r[k].key, r[j].key) {
      assert r[j] == r[..|FIELDS|][j] == t[j];
      FieldIndexInverse(j);
      FieldNamesApart(f, FIELDS[j]);
      DistinctPlaceholders(FieldName(f), FieldName(FIELDS[j]));
    }
    EntryResolves(r, k);
  }

  /** `FieldIndex` finds every field where `FIELDS` lists it. */
  lemma FieldIndexInverse(j: nat)
    requires j < |FIELDS|
    ensures FieldIndex(FIELDS[j]) == j
  {
  }

  /** Without a user, `{user}` and `{username}` stay in the text. */
  lemma NoUserKeepsPlaceholders(data: Data, user: Option<Data>)
    requires !UserGiven(user)
    ensures ApplyAll(Placeholder("user"), Replacements(data, user)) == Placeholder("user")
    ensures ApplyAll(Placeholder("username"), Replacements(data, user)) == Placeholder("username")
  {
    var r := Replacements(data, user);
    assert r == MetadataTable(data);
    UserNotMetadata();
    NonFieldApart("user", data);
    NonFieldApart("username", data);
    ApplyAllUntouched(Placeholder("user"), r);
    ApplyAllUntouched(Placeholder("username"), r);
  }

  // ---------------------------------------------------------------------
  // The progress bar of `progress_message`

  const BAR_CELLS: nat := 10
  const FILLED_CELL: char := '▰'
  const EMPTY_CELL: char := '▱'

  function Repeat(c: char, n: nat): (r: string)
    ensures |r| == n && forall i :: 0 <= i < n ==> r[i] == c
  {
    seq(n, _ => c)
  }

  /** `None` stands for the `ZeroDivisionError` raised for `total == 0`. */
  function ProgressBar(done: nat, total: nat): (r: Option<string>)
  {
    if total == 0 then None
    else
      var filled := done * BAR_CELLS / total;
      var empty := BAR_CELLS as int - filled;
      Some(Repeat(FILLED_CELL, filled) + Repeat(EMPTY_CELL, if empty < 0 then 0 else empty))
  }

  /** The number of filled cells, `floor(done / total * 10)`, for `total > 0`. */
  function FilledCount(done: nat, total: nat): nat
    requires total > 0
  {
    done * BAR_CELLS / total
  }

  lemma DivBracket(n: nat, t: nat)
    requires t > 0
    ensures (n / t) * t <= n < (n / t) * t + t
  {
  }

  lemma {:induction false} MulLe(a: nat, b: nat, t: nat)
    requires a <= b
    ensures a * t <= b * t
    decreases b - a
  {
    if a < b {
      MulLe(a + 1, b, t);
    }
  }

  /** Cell `i` is among the first `floor(n / t)` exactly when `(i + 1) * t <= n`. */
  lemma FloorCells(n: nat, t: nat, i: nat)
    requires t > 0
    ensures i < n / t <==> (i + 1) * t <= n
  {
    DivBracket(n, t);
    if i < n / t {
      MulLe(i + 1, n / t, t);
    } else {
      MulLe(n / t + 1, i + 1, t);
    }
  }

  /**
   * For `done <= total` the bar has exactly ten cells; cell `i` is filled
   * exactly when `(i + 1) / 10` of the work is done, so the filled cells come
   * first.
   */
  lemma ProgressBarShape(done: nat, total: nat)
    ensures ProgressBar(done, total).None? <==> total == 0
    ensures total > 0 ==> (var bar := ProgressBar(done, total).value;
      && |bar| >= BAR_CELLS
      && (done <= total ==> |bar| == BAR_CELLS)
      && forall i :: 0 <= i < |bar| ==> (bar[i] == FILLED_CELL <==> (i + 1) * total <= done * BAR_CELLS))
  {
    if total > 0 {
      var bar := ProgressBar(done, total).value;
      var f := FilledCount(done, total);
      FloorCells(done * BAR_CELLS, total, BAR_CELLS);
      forall i | 0 <= i < |bar| ensures bar[i] == FILLED_CELL <==> (i + 1) * total <= done * BAR_CELLS {
        FloorCells(done * BAR_CELLS, total, i);
      }
    }
  }

  /** With `done <= total` the bar is all filled cells exactly when the work is complete. */
  lemma ProgressBarFull(done: nat, total: nat)
    requires 0 < total && done <= total
    ensures ProgressBar(done, total) == Some(Repeat(FILLED_CELL, BAR_CELLS)) <==> done == total
  {
    var bar := ProgressBar(done, total).value;
    ProgressBarShape(done, total);
    assert bar[BAR_CELLS - 1] == FILLED_CELL <==> done == total;
    if done == total {
      assert bar == Repeat(FILLED_CELL, BAR_CELLS);
    }
  }

  /** More work done never shows fewer filled cells. */
  lemma ProgressBarMonotone(d1: nat, d2: nat, total: nat)
    requires total > 0 && d1 <= d2
    ensures FilledCount(d1, total) <= FilledCount(d2, total)
  {
    var f2 := FilledCount(d2, total);
    FloorCells(d1 * BAR_CELLS, total, f2);
    FloorCells(d2 * BAR_CELLS, total, f2);
  }

  /** The argument list handed to the caption template: bar, done, total, title and title-cased type. */
  datatype ProgressArgs = ProgressArgs(bar: string, done: nat, total: nat, title: string, kind: string)

  function ProgressMessageArgs(done: nat, total: nat, title: string, kind: string): (r: Option<ProgressArgs>)
    ensures r.Some? <==> total > 0
    ensures r.Some? ==> Some(r.value.bar) == ProgressBar(done, total) && r.value.kind == Title(kind)
  {
    var bar := ProgressBar(done, total);
    if bar.None? then None else Some(ProgressArgs(bar.value, done, total, title, Title(kind)))
  }

  // ---------------------------------------------------------------------
  // `default_metadata`

  datatype TrackMetadata = TrackMetadata(title: string, artist: string, album: string, duration: nat, thumbnail: Option<string>)

  function DefaultMetadata(filePath: string): (r: TrackMetadata)
    ensures r.artist == "Unknown Artist" && r.album == "Unknown Album"
    ensures r.duration == 0 && r.thumbnail == None
    ensures r.title <= BaseName(filePath)
  {
    TrackMetadata(SplitExtRoot(BaseName(filePath)), "Unknown Artist", "Unknown Album", 0, None)
  }

  /** The title is the file name without its directory and extension. */
  lemma DefaultMetadataTitle(dir: string, name: string, ext: string)
    requires name != [] && name[0] != '.'
    requires forall i :: 0 <= i < |name| ==> name[i] != '/' && name[i] != '.'
    requires forall i :: 0 <= i < |ext| ==> ext[i] != '/' && ext[i] != '.'
    ensures DefaultMetadata(dir + "/" + name + "." + ext).title == name
  {
    var base := name + "." + ext;
    assert dir + "/" + name + "." + ext == dir + ['/'] + base;
    assert forall i :: 0 <= i < |base| ==> base[i] != '/' by {
      forall i | 0 <= i < |base| ensures base[i] != '/' {
        if i > |name| {
          assert base[i] == ext[i - |name| - 1];
        }
      }
    }
    AfterLastSuffix(dir, '/', base);
    ExtensionStripped(name, ext);
  }

  lemma ExtensionStripped(name: string, ext: string)
    requires name != [] && name[0] != '.'
    requires forall i :: 0 <= i < |name| ==> name[i] != '/' && name[i] != '.'
    requires forall i :: 0 <= i < |ext| ==> ext[i] != '/' && ext[i] != '.'
    ensures SplitExtRoot(name + "." + ext) == name
  {
    var base := name + "." + ext;
    assert base == name + ['.'] + ext;
    RFindLast(name, '.', ext);
    assert forall i :: 0 <= i < |base| ==> base[i] != '/' by {
      forall i | 0 <= i < |base| ensures base[i] != '/' {
        if i > |name| {
          assert base[i] == ext[i - |name| - 1];
        }
      }
    }
    assert RFind(base, '/') == -1;
    assert base[0] != '.';
    assert base[..|name|] == name;
  }
}
