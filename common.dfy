/**
 * Small value types and the Python string and path builtins that the bot's
 * helpers rely on (`str.strip`, `str.lower`, `str.capitalize`, `str.title`,
 * `str(int)`, `os.path.join`, `os.path.dirname`, `os.path.basename`,
 * `os.path.splitext`). Case mapping covers ASCII letters only; whitespace is
 * the set Python's `str.isspace` accepts.
 * The filesystem is a set of existing path names.
 */
module Common {

  datatype Option<+T> = None | Some(value: T)

  /** Python truthiness of an optional text value: `None` and `''` are falsy. */
  predicate Truthy(s: Option<string>)
  {
    s.Some? && s.value != ""
  }

  /** Python `a or b` over optional text values. */
  function Or(a: Option<string>, b: Option<string>): (r: Option<string>)
    ensures Truthy(r) <==> Truthy(a) || Truthy(b)
    ensures Truthy(r) ==> r == a || r == b
  {
    if Truthy(a) then a else b
  }

  /** Fallback chains group either way: `(a or b) or c == a or (b or c)`. */
  lemma OrAssociative(a: Option<string>, b: Option<string>, c: Option<string>)
    ensures Or(Or(a, b), c) == Or(a, Or(b, c))
  {
  }

  /** `a or b` where the last alternative is a literal default. */
  function OrElse(a: Option<string>, default: string): (r: string)
    ensures default != [] ==> r != []
    ensures r == default || (a.Some? && r == a.value)
  {
    if Truthy(a) then a.value else default
  }

  /** `a or b or default` picks the first truthy value, whichever way it is grouped. */
  lemma OrElseChain(a: Option<string>, b: Option<string>, default: string)
    ensures OrElse(Or(a, b), default) == OrElse(a, OrElse(b, default))
    ensures Truthy(a) ==> OrElse(Or(a, b), default) == a.value
    ensures !Truthy(a) && Truthy(b) ==> OrElse(Or(a, b), default) == b.value
    ensures !Truthy(a) && !Truthy(b) ==> OrElse(Or(a, b), default) == default
  {
  }

  /** `value if value is not None else default` */
  function GetOr<T>(o: Option<T>, default: T): T
  {
    if o.Some? then o.value else default
  }

  // ---------------------------------------------------------------------
  // Characters

  /** The characters `str.isspace` accepts, which `str.strip()` removes. */
  predicate IsWhitespace(c: char)
  {
    || c == ' ' || c == '\t' || c == '\n' || c == '\r' || c == '\U{0B}' || c == '\U{0C}'
    || ('\U{1C}' <= c <= '\U{1F}') || c == '\U{85}' || c == '\U{A0}' || c == '\U{1680}'
    || ('\U{2000}' <= c <= '\U{200A}') || c == '\U{2028}' || c == '\U{2029}'
    || c == '\U{202F}' || c == '\U{205F}' || c == '\U{3000}'
  }

  predicate IsUpper(c: char) { 'A' <= c <= 'Z' }
  predicate IsLower(c: char) { 'a' <= c <= 'z' }
  predicate IsCased(c: char) { IsUpper(c) || IsLower(c) }
  predicate IsDigit(c: char) { '0' <= c <= '9' }

  function LowerChar(c: char): (r: char)
    ensures !IsUpper(r)
    ensures !IsCased(c) ==> r == c
  {
    if IsUpper(c) then (c as int + 32) as char else c
  }

  function UpperChar(c: char): (r: char)
    ensures !IsLower(r)
    ensures !IsCased(c) ==> r == c
  {
    if IsLower(c) then (c as int - 32) as char else c
  }

  // ---------------------------------------------------------------------
  // Strings

  /** `str.lower()` */
  function Lower(s: string): (r: string)
    ensures |r| == |s|
    ensures forall i :: 0 <= i < |s| ==> r[i] == LowerChar(s[i])
  {
    seq(|s|, i requires 0 <= i < |s| => LowerChar(s[i]))
  }

  /** `str.capitalize()`: first character upper case, the rest lower case. */
  function Capitalize(s: string): (r: string)
    ensures |r| == |s|
    ensures s != [] ==> r[0] == UpperChar(s[0]) && r[1..] == Lower(s[1..])
  {
    if s == [] then [] else [UpperChar(s[0])] + Lower(s[1..])
  }

  /** Capitalising changes the case of letters only. */
  lemma LowerCapitalize(s: string)
    ensures Lower(Capitalize(s)) == Lower(s)
  {
    if s != [] {
      assert LowerChar(UpperChar(s[0])) == LowerChar(s[0]);
      forall i | 1 <= i < |s| ensures LowerChar(Lower(s[1..])[i - 1]) == LowerChar(s[i]) { }
    }
  }

  /**
   * `str.title()`: a cased character is upper-cased when the character before
   * it is not cased and lower-cased otherwise; `prevCased` says whether the
   * character before `s` was cased.
   */
  function TitleFrom(s: string, prevCased: bool): (r: string)
    ensures |r| == |s|
    ensures forall i :: 0 <= i < |s| ==>
      r[i] == if (if i == 0 then prevCased else IsCased(s[i - 1])) then LowerChar(s[i]) else UpperChar(s[i])
    decreases |s|
  {
    if s == [] then []
    else
      var c := if prevCased then LowerChar(s[0]) else UpperChar(s[0]);
      [c] + TitleFrom(s[1..], IsCased(s[0]))
  }

  function Title(s: string): (r: string)
    ensures |r| == |s|
    ensures s != [] ==> r[0] == UpperChar(s[0])
    ensures forall i :: 0 < i < |s| ==> r[i] == if IsCased(s[i - 1]) then LowerChar(s[i]) else UpperChar(s[i])
  {
    TitleFrom(s, false)
  }

  /** `pat in s` for strings. */
  predicate Contains(s: string, pat: string)
    decreases |s|
  {
    pat <= s || (s != [] && Contains(s[1..], pat))
  }

  /** `s.lstrip()` */
  function LStrip(s: string): (r: string)
    ensures |r| <= |s| && r == s[|s| - |r|..]
    ensures r == [] || !IsWhitespace(r[0])
    ensures forall i :: 0 <= i < |s| - |r| ==> IsWhitespace(s[i])
    decreases |s|
  {
    if s != [] && IsWhitespace(s[0]) then LStrip(s[1..]) else s
  }

  /** `s.rstrip()` */
  function RStrip(s: string): (r: string)
    ensures |r| <= |s| && r == s[..|r|]
    ensures r == [] || !IsWhitespace(r[|r| - 1])
    ensures forall i :: |r| <= i < |s| ==> IsWhitespace(s[i])
    decreases |s|
  {
    if s != [] && IsWhitespace(s[|s| - 1]) then RStrip(s[..|s| - 1]) else s
  }

  /** `s.strip()` */
  function Strip(s: string): (r: string)
    ensures r == [] || (!IsWhitespace(r[0]) && !IsWhitespace(r[|r| - 1]))
    ensures var n := |s| - |LStrip(s)|;
      && n + |r| <= |s| && r == s[n..n + |r|]
      && (forall i :: 0 <= i < n ==> IsWhitespace(s[i]))
      && (forall i :: n + |r| <= i < |s| ==> IsWhitespace(s[i]))
  {
    RStrip(LStrip(s))
  }

  lemma StripEmptyIffBlank(s: string)
    ensures Strip(s) == [] <==> forall i :: 0 <= i < |s| ==> IsWhitespace(s[i])
  {
    var l := LStrip(s);
    if l != [] {
      assert !IsWhitespace(l[0]);
      assert !IsWhitespace(s[|s| - |l|]);
    }
  }

  lemma StripUnchanged(s: string)
    requires s == [] || (!IsWhitespace(s[0]) && !IsWhitespace(s[|s| - 1]))
    ensures Strip(s) == s
  {
  }

  /** Index of the last occurrence of `c` in `s`, or -1 (`str.rfind`). */
  function RFind(s: string, c: char): (r: int)
    ensures -1 <= r < |s|
    ensures r >= 0 ==> s[r] == c
    ensures forall i :: r < i < |s| ==> s[i] != c
    decreases |s|
  {
    if s == [] then -1
    else if s[|s| - 1] == c then |s| - 1
    else RFind(s[..|s| - 1], c)
  }

  /** Index of the first occurrence of `c` in `s`, or -1 (`str.find`). */
  function Find(s: string, c: char): (r: int)
    ensures -1 <= r < |s|
    ensures r >= 0 ==> s[r] == c
    ensures forall i :: 0 <= i < |s| && (r < 0 || i < r) ==> s[i] != c
    decreases |s|
  {
    if s == [] then -1
    else if s[0] == c then 0
    else
      var k := Find(s[1..], c);
      if k < 0 then -1 else k + 1
  }

  /** `s.split(c)[-1]`: the text after the last `c`, or all of `s`. */
  function AfterLast(s: string, c: char): (r: string)
    ensures |r| <= |s| && r == s[|s| - |r|..]
    ensures forall i :: 0 <= i < |r| ==> r[i] != c
    ensures |r| < |s| ==> s[|s| - |r| - 1] == c
  {
    s[RFind(s, c) + 1..]
  }

  /** `c` first occurs at `k`. */
  lemma {:induction false} FindAt(s: string, c: char, k: nat)
    requires k < |s| && s[k] == c
    requires forall i :: 0 <= i < k ==> s[i] != c
    ensures Find(s, c) == k
    decreases k
  {
    if k > 0 {
      FindAt(s[1..], c, k - 1);
    }
  }

  /** The last `c` of `p + [c] + x` is the one after `p` when `x` has none. */
  lemma RFindLast(p: string, c: char, x: string)
    requires forall i :: 0 <= i < |x| ==> x[i] != c
    ensures RFind(p + [c] + x, c) == |p|
  {
    var s := p + [c] + x;
    assert s[|p|] == c;
  }

  /** `(p + c + x).split(c)[-1] == x` when `x` has no `c`. */
  lemma AfterLastSuffix(p: string, c: char, x: string)
    requires forall i :: 0 <= i < |x| ==> x[i] != c
    ensures AfterLast(p + [c] + x, c) == x
  {
    RFindLast(p, c, x);
  }

  /** `s.split(c)[0]`: the text before the first `c`, or all of `s`. */
  function BeforeFirst(s: string, c: char): (r: string)
    ensures r <= s
    ensures forall i :: 0 <= i < |r| ==> r[i] != c
  {
    var k := Find(s, c);
    if k < 0 then s else s[..k]
  }

  /** `s.split(c, 1)[1]`: the text after the first `c`. */
  function AfterFirst(s: string, c: char): (r: string)
    requires Find(s, c) >= 0
    ensures BeforeFirst(s, c) + [c] + r == s
  {
    s[Find(s, c) + 1..]
  }

  // ---------------------------------------------------------------------
  // Decimal rendering of naturals (`str(n)`) and its inverse

  function DigitChar(d: nat): (c: char)
    requires d < 10
    ensures IsDigit(c)
  {
    "0123456789"[d]
  }

  function DigitValue(c: char): (d: nat)
    requires IsDigit(c)
    ensures d < 10
  {
    (c as int - '0' as int) as nat
  }

  predicate AllDigits(s: string)
  {
    forall i :: 0 <= i < |s| ==> IsDigit(s[i])
  }

  function NatToString(n: nat): (r: string)
    ensures r != [] && AllDigits(r)
    decreases n
  {
    if n < 10 then [DigitChar(n)] else NatToString(n / 10) + [DigitChar(n % 10)]
  }

  function ParseNat(s: string): nat
    requires AllDigits(s)
    decreases |s|
  {
    if s == [] then 0 else ParseNat(s[..|s| - 1]) * 10 + DigitValue(s[|s| - 1])
  }

  lemma {:induction false} NatToStringRoundTrip(n: nat)
    ensures ParseNat(NatToString(n)) == n
    decreases n
  {
    if n >= 10 {
      var s := NatToString(n);
      NatToStringRoundTrip(n / 10);
      assert s[..|s| - 1] == NatToString(n / 10);
    }
  }

  lemma NatToStringInjective(a: nat, b: nat)
    requires NatToString(a) == NatToString(b)
    ensures a == b
  {
    NatToStringRoundTrip(a);
    NatToStringRoundTrip(b);
  }

  // ---------------------------------------------------------------------
  // POSIX paths

  /** `os.path.join(a, b)` */
  function PathJoin(a: string, b: string): (r: string)
    ensures b != [] && b[0] == '/' ==> r == b
    ensures (b == [] || b[0] != '/') && a != [] && a[|a| - 1] != '/' ==> r == a + "/" + b
    ensures (b == [] || b[0] != '/') && (a == [] || a[|a| - 1] == '/') ==> r == a + b
  {
    if b != [] && b[0] == '/' then b
    else if a == [] || a[|a| - 1] == '/' then a + b
    else a + "/" + b
  }

  predicate AllSlashes(s: string)
  {
    forall i :: 0 <= i < |s| ==> s[i] == '/'
  }

  /** `s.rstrip('/')` */
  function RStripSlashes(s: string): (r: string)
    ensures r <= s
    ensures r == [] || r[|r| - 1] != '/'
    decreases |s|
  {
    if s != [] && s[|s| - 1] == '/' then RStripSlashes(s[..|s| - 1]) else s
  }

  /** `os.path.dirname(p)` */
  function DirName(p: string): (r: string)
    ensures r <= p
  {
    var head := p[..RFind(p, '/') + 1];
    if head != [] && !AllSlashes(head) then RStripSlashes(head) else head
  }

  /** `os.path.basename(p)` */
  function BaseName(p: string): (r: string)
    ensures forall i :: 0 <= i < |r| ==> r[i] != '/'
  {
    AfterLast(p, '/')
  }

  /**
   * Joining the directory part of a path with its last component gives the
   * path back, unless the last separator is doubled (`a//b`).
   */
  lemma JoinDirNameBaseName(p: string)
    requires RFind(p, '/') <= 0 || p[RFind(p, '/') - 1] != '/'
    ensures PathJoin(DirName(p), BaseName(p)) == p
  {
    var k := RFind(p, '/');
    if k > 0 {
      JoinInner(p, k);
    } else if k == 0 {
      JoinRoot(p);
    } else {
      DirNameNoSlash(p);
      assert BaseName(p) == p;
    }
  }

  lemma JoinInner(p: string, k: nat)
    requires k == RFind(p, '/') && k > 0 && p[k - 1] != '/'
    ensures PathJoin(DirName(p), BaseName(p)) == p
  {
    DirNameSingleSlash(p, k);
    assert BaseName(p) == p[k + 1..];
    JoinParts(p, k);
  }

  lemma JoinParts(p: string, k: nat)
    requires 0 < k < |p| && p[k] == '/' && p[k - 1] != '/'
    requires forall i :: k < i < |p| ==> p[i] != '/'
    ensures PathJoin(p[..k], p[k + 1..]) == p
  {
    assert p == p[..k] + [p[k]] + p[k + 1..];
  }

  lemma JoinRoot(p: string)
    requires RFind(p, '/') == 0
    ensures PathJoin(DirName(p), BaseName(p)) == p
  {
    var b := p[1..];
    assert BaseName(p) == b;
    DirNameRootSlash(p);
    assert PathJoin("/", b) == "/" + b;
    assert "/" + b == p;
  }

  lemma DirNameSingleSlash(p: string, k: nat)
    requires k == RFind(p, '/') && k > 0 && p[k - 1] != '/'
    ensures DirName(p) == p[..k]
  {
    var head := p[..k + 1];
    assert !AllSlashes(head) by {
      assert head[k - 1] != '/';
    }
    assert head[..|head| - 1] == p[..k];
    assert RStripSlashes(head) == RStripSlashes(p[..k]);
    assert RStripSlashes(p[..k]) == p[..k];
  }

  lemma DirNameNoSlash(p: string)
    requires RFind(p, '/') < 0
    ensures DirName(p) == [] && PathJoin([], p) == p
  {
    assert p[..0] == [];
  }

  lemma DirNameRootSlash(p: string)
    requires RFind(p, '/') == 0
    ensures DirName(p) == "/"
  {
    assert p[..1] == "/";
    assert AllSlashes(p[..1]);
  }

  /** The root part of `os.path.splitext(p)` (posixpath semantics). */
  function SplitExtRoot(p: string): (r: string)
    ensures r <= p
  {
    var sep := RFind(p, '/');
    var dot := RFind(p, '.');
    if dot > sep && exists i :: sep + 1 <= i < dot && p[i] != '.' then p[..dot] else p
  }

  // ---------------------------------------------------------------------
  // The filesystem as a set of existing names

  /** `x` is `dir` itself or lies beneath it. */
  predicate Under(dir: string, x: string)
  {
    x == dir || dir + "/" <= x
  }

  /** `shutil.rmtree(dir, ignore_errors=True)` */
  function RemoveTree(disk: set<string>, dir: string): (r: set<string>)
    ensures r <= disk
    ensures forall x :: x in r <==> x in disk && !Under(dir, x)
  {
    set x | x in disk && !Under(dir, x)
  }

  // ---------------------------------------------------------------------
  // The per-user settings store

  type Blob = seq<bv8>

  /**
   * One user's stored settings, as `get_user_setting` returns them: a text or
   * boolean value and, for uploaded files, a blob. A key written as text is
   * read back as text, a boolean as a boolean and a file as a blob.
   */
  datatype UserSettings = UserSettings(texts: map<string, string>, flags: map<string, bool>, blobs: map<string, Blob>)

  function TextSetting(st: UserSettings, key: string): (r: Option<string>)
    ensures r.Some? <==> key in st.texts
    ensures r.Some? ==> r.value == st.texts[key]
  {
    if key in st.texts then Some(st.texts[key]) else None
  }

  function FlagSetting(st: UserSettings, key: string): (r: Option<bool>)
    ensures r.Some? <==> key in st.flags
    ensures r.Some? ==> r.value == st.flags[key]
  {
    if key in st.flags then Some(st.flags[key]) else None
  }

  function BlobSetting(st: UserSettings, key: string): (r: Option<Blob>)
    ensures r.Some? <==> key in st.blobs
    ensures r.Some? ==> r.value == st.blobs[key]
  {
    if key in st.blobs then Some(st.blobs[key]) else None
  }

  /** Python truthiness of an optional blob: `None` and `b''` are falsy. */
  predicate BlobGiven(b: Option<Blob>)
  {
    b.Some? && b.value != []
  }
}
