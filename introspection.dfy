/** Reading and post-processing Meson's introspection output (src/meson/introspection.ts):
    the cache-first `introspect`, the version check, the normalisation of `getMesonTargets`
    and the executable filter. Reading files, running the tool and parsing JSON are
    parameters; what is modelled is the choice between them and the computation on the
    parsed records. */
module Introspection {
  import opened Seqs
  import opened Paths
  import opened MesonTypes

  /** The kinds of introspection data the extension asks for. */
  datatype Kind = Targets | BuildsystemFiles | BuildOptions | ProjectInfoKind | Dependencies | Tests | Benchmarks

  function KindName(k: Kind): string
  {
    match k
    case Targets => "targets"
    case BuildsystemFiles => "buildsystem_files"
    case BuildOptions => "buildoptions"
    case ProjectInfoKind => "projectinfo"
    case Dependencies => "dependencies"
    case Tests => "tests"
    case Benchmarks => "benchmarks"
  }

  /** `path.join(build, "meson-info/intro-<kind>.json")`. */
  function CachePath(build: Path, k: Kind): Path
  {
    Join(build, Path(false, ["meson-info", "intro-" + KindName(k) + ".json"]))
  }

  /** The cache file lies in the build directory's `meson-info` folder and is named after
      the kind. */
  lemma CachePathShape(build: Path, k: Kind)
    ensures Dirname(CachePath(build, k)) == Join(build, Seg("meson-info"))
    ensures Basename(CachePath(build, k)) == "intro-" + KindName(k) + ".json"
  {
    var file := "intro-" + KindName(k) + ".json";
    assert IsName(file) by {
      assert |file| > 2;
    }
    assert Normal(Path(false, ["meson-info", file]));
    JoinNormal(build, Path(false, ["meson-info", file]));
    JoinNormal(build, Seg("meson-info"));
    assert (build.segs + ["meson-info", file])[..|build.segs| + 1] == build.segs + ["meson-info"];
  }

  /** The command line `introspect` falls back to. */
  function IntrospectCommand(mesonPath: string, k: Kind): string
  {
    mesonPath + " introspect --" + KindName(k)
  }

  /** Where `introspect` took its answer from: the cache file, or the tool run in the build
      directory. */
  datatype Origin = FromCache(file: Path) | FromTool(command: string, cwd: Path)

  /** `introspect(kind, build)`: the parsed cache file when it exists and parses to a truthy
      value (`readCache` gives `None` otherwise); only without one is the tool run, and its
      output parsed (`run`; its failures are errors). */
  function Introspect<T>(k: Kind, build: Path, mesonPath: string,
                         readCache: Path -> Option<T>, run: (string, Path) -> Result<T, string>): (r: (Result<T, string>, Origin))
    ensures readCache(CachePath(build, k)).Some? ==>
      r.0 == Ok(readCache(CachePath(build, k)).value) && r.1 == FromCache(CachePath(build, k))
    ensures readCache(CachePath(build, k)).None? ==>
      r.0 == run(IntrospectCommand(mesonPath, k), build) && r.1 == FromTool(IntrospectCommand(mesonPath, k), build)
  {
    var file := CachePath(build, k);
    var parsed := readCache(file);
    if parsed.Some? then (Ok(parsed.value), FromCache(file))
    else
      var command := IntrospectCommand(mesonPath, k);
      (run(command, build), FromTool(command, build))
  }

  // ---------------------------------------------------------------------------------------
  // The version check

  /** The characters `String.prototype.trim` removes that Meson's output can contain. */
  predicate IsSpace(c: char)
  {
    c == ' ' || c == '\t' || c == '\n' || c == '\r' || c == '\U{000B}' || c == '\U{000C}' || c == '\U{00A0}' || c == '\U{FEFF}'
  }

  function TrimStart(s: string): (r: string)
    ensures |r| <= |s| && r == s[|s| - |r|..]
    ensures r == [] || !IsSpace(r[0])
  {
    if s != [] && IsSpace(s[0]) then TrimStart(s[1..]) else s
  }

  function TrimEnd(s: string): (r: string)
    ensures |r| <= |s| && r == s[..|r|]
    ensures r == [] || !IsSpace(r[|r| - 1])
  {
    if s != [] && IsSpace(s[|s| - 1]) then TrimEnd(s[..|s| - 1]) else s
  }

  /** `s.trim()`. */
  function Trim(s: string): string
  {
    TrimEnd(TrimStart(s))
  }

  predicate AllSpace(w: string)
  {
    forall i :: 0 <= i < |w| ==> IsSpace(w[i])
  }

  lemma {:induction false} TrimStartSpaces(w: string, s: string)
    requires AllSpace(w) && (s == [] || !IsSpace(s[0]))
    ensures TrimStart(w + s) == s
  {
    if w != [] {
      assert (w + s)[1..] == w[1..] + s;
      TrimStartSpaces(w[1..], s);
    } else {
      assert w + s == s;
    }
  }

  lemma {:induction false} TrimEndSpaces(s: string, w: string)
    requires AllSpace(w) && (s == [] || !IsSpace(s[|s| - 1]))
    ensures TrimEnd(s + w) == s
  {
    if w != [] {
      var n := |w| - 1;
      assert (s + w)[..|s + w| - 1] == s + w[..n];
      TrimEndSpaces(s, w[..n]);
    } else {
      assert s + w == s;
    }
  }

  /** Whitespace around a string with no whitespace at its ends is what `trim` removes. */
  lemma TrimSurrounding(w1: string, s: string, w2: string)
    requires AllSpace(w1) && AllSpace(w2)
    requires s == [] || (!IsSpace(s[0]) && !IsSpace(s[|s| - 1]))
    ensures Trim(w1 + s + w2) == s
  {
    if s == [] {
      assert w1 + s + w2 == w1 + w2;
      assert AllSpace(w1 + w2);
      TrimStartSpaces(w1 + w2, []);
      assert w1 + w2 + [] == w1 + w2;
    } else {
      assert w1 + s + w2 == w1 + (s + w2);
      TrimStartSpaces(w1, s + w2);
      TrimEndSpaces(s, w2);
    }
  }

  predicate IsDigit(c: char)
  {
    '0' <= c <= '9'
  }

  /** The length of the run of digits `\d+` takes at the start of `s`. */
  function DigitRun(s: string): (n: nat)
    ensures n <= |s|
    ensures forall i :: 0 <= i < n ==> IsDigit(s[i])
    ensures n < |s| ==> !IsDigit(s[n])
  {
    if s != [] && IsDigit(s[0]) then 1 + DigitRun(s[1..]) else 0
  }

  /** The three groups of `^(\d+)\.(\d+)\.(\d+)` at the start of `s`, if it matches. */
  datatype VersionMatch = VersionMatch(major: string, minor: string, patch: string)

  function MatchVersion(s: string): Option<VersionMatch>
  {
    var a := DigitRun(s);
    if a == 0 || a == |s| || s[a] != '.' then None else MatchMinor(s[..a], s[a + 1..])
  }

  /** The rest of the pattern once the major numeral and its dot are taken. */
  function MatchMinor(major: string, rest: string): Option<VersionMatch>
  {
    var b := DigitRun(rest);
    if b == 0 || b == |rest| || rest[b] != '.' then None else MatchPatch(major, rest[..b], rest[b + 1..])
  }

  /** The last numeral of the pattern. */
  function MatchPatch(major: string, minor: string, last: string): Option<VersionMatch>
  {
    var c := DigitRun(last);
    if c == 0 then None else Some(VersionMatch(major, minor, last[..c]))
  }

  predicate IsNumeral(d: string)
  {
    |d| > 0 && forall i :: 0 <= i < |d| ==> IsDigit(d[i])
  }

  /** The digits `\d+` takes from a numeral followed by a non-digit, or by nothing. */
  lemma {:induction false} DigitRunOfNumeral(d: string, rest: string)
    requires forall i :: 0 <= i < |d| ==> IsDigit(d[i])
    requires rest == [] || !IsDigit(rest[0])
    ensures DigitRun(d + rest) == |d|
  {
    if d != [] {
      assert (d + rest)[1..] == d[1..] + rest;
      DigitRunOfNumeral(d[1..], rest);
    } else {
      assert d + rest == rest;
    }
  }

  /** A numeral followed by a dot: `\d+` takes the numeral and the dot comes next. */
  lemma NumeralThenDot(d: string, t: string)
    requires IsNumeral(d)
    ensures DigitRun(d + "." + t) == |d|
    ensures (d + "." + t)[|d|] == '.' && (d + "." + t)[..|d|] == d && (d + "." + t)[|d| + 1..] == t
  {
    assert d + "." + t == d + ("." + t);
    DigitRunOfNumeral(d, "." + t);
  }

  /** The pattern takes exactly the three numerals of a version, whatever follows that does
      not start with a digit. */
  lemma MatchVersionOf(a: string, b: string, c: string, rest: string)
    requires IsNumeral(a) && IsNumeral(b) && IsNumeral(c)
    requires rest == [] || !IsDigit(rest[0])
    ensures MatchVersion(a + "." + b + "." + c + rest) == Some(VersionMatch(a, b, c))
  {
    var tail := b + "." + (c + rest);
    assert a + "." + b + "." + c + rest == a + "." + tail;
    NumeralThenDot(a, tail);
    MatchMinorOf(a, b, c, rest);
  }

  lemma MatchMinorOf(a: string, b: string, c: string, rest: string)
    requires IsNumeral(b) && IsNumeral(c)
    requires rest == [] || !IsDigit(rest[0])
    ensures MatchMinor(a, b + "." + (c + rest)) == Some(VersionMatch(a, b, c))
  {
    NumeralThenDot(b, c + rest);
    DigitRunOfNumeral(c, rest);
    assert (c + rest)[..|c|] == c;
  }

  /** The whole text a match covers. */
  function MatchText(m: VersionMatch): string
  {
    m.major + "." + m.minor + "." + m.patch
  }

  /** Text that starts with a version: three numerals joined by dots, and no digit after
      the last one. */
  ghost predicate StartsWithVersion(s: string)
  {
    exists a, b, c, rest ::
      IsNumeral(a) && IsNumeral(b) && IsNumeral(c) && (rest == [] || !IsDigit(rest[0])) &&
      s == a + ("." + (b + ("." + (c + rest))))
  }

  /** `last` starts with the numeral `patch`, and no digit follows it. */
  predicate PatchAt(last: string, patch: string)
  {
    && IsNumeral(patch) && |patch| <= |last| && last == patch + last[|patch|..]
    && (|patch| == |last| || !IsDigit(last[|patch|]))
  }

  /** `rest` starts with the minor and patch numerals of `m` joined by a dot, and no digit
      follows them. */
  predicate TailAt(rest: string, m: VersionMatch)
  {
    && IsNumeral(m.minor) && IsNumeral(m.patch)
    && TailLength(m) <= |rest| && rest == m.minor + ("." + (m.patch + rest[TailLength(m)..]))
    && (TailLength(m) == |rest| || !IsDigit(rest[TailLength(m)]))
  }

  /** The length of the text a match covers, and of its part after the major numeral's dot. */
  function MatchLength(m: VersionMatch): nat
  {
    |m.major| + 1 + TailLength(m)
  }

  function TailLength(m: VersionMatch): nat
  {
    |m.minor| + 1 + |m.patch|
  }

  /** `s` starts with the version `m`: three numerals joined by dots, and no digit after the
      last one. */
  predicate VersionAt(s: string, m: VersionMatch)
  {
    && IsNumeral(m.major) && IsNumeral(m.minor) && IsNumeral(m.patch)
    && MatchLength(m) <= |s| && s == m.major + ("." + (m.minor + ("." + (m.patch + s[MatchLength(m)..]))))
    && (MatchLength(m) == |s| || !IsDigit(s[MatchLength(m)]))
  }

  /** What the last stage takes: a numeral, not followed by a digit. */
  lemma MatchPatchShape(major: string, minor: string, last: string)
    requires MatchPatch(major, minor, last).Some?
    ensures var m := MatchPatch(major, minor, last).value;
      m.major == major && m.minor == minor && PatchAt(last, m.patch)
  {
    var c := DigitRun(last);
    assert last == last[..c] + last[c..];
  }

  /** What the last two stages take: a numeral, a dot and a numeral, not followed by a digit. */
  lemma MatchMinorShape(major: string, rest: string)
    requires MatchMinor(major, rest).Some?
    ensures MatchMinor(major, rest).value.major == major && TailAt(rest, MatchMinor(major, rest).value)
  {
    var b := DigitRun(rest);
    MatchPatchShape(major, rest[..b], rest[b + 1..]);
    assert MatchMinor(major, rest) == MatchPatch(major, rest[..b], rest[b + 1..]);
    AssembleTail(rest, b, MatchMinor(major, rest).value);
  }

  lemma AssembleTail(rest: string, b: nat, m: VersionMatch)
    requires b < |rest| && rest[b] == '.' && m.minor == rest[..b] && IsNumeral(m.minor)
    requires PatchAt(rest[b + 1..], m.patch)
    ensures TailAt(rest, m)
  {
    var last := rest[b + 1..];
    var k := TailLength(m);
    assert last[|m.patch|..] == rest[k..];
    assert k == |rest| || rest[k] == last[|m.patch|];
    JoinAtDot(rest, b, m.minor, m.patch + rest[k..]);
  }

  /** Whatever the pattern matches is a version at the start of the text. */
  lemma MatchVersionShape(s: string)
    requires MatchVersion(s).Some?
    ensures VersionAt(s, MatchVersion(s).value)
  {
    var a := DigitRun(s);
    MatchMinorShape(s[..a], s[a + 1..]);
    assert MatchVersion(s) == MatchMinor(s[..a], s[a + 1..]);
    AssembleVersion(s, a, MatchMinor(s[..a], s[a + 1..]).value);
  }

  /** The major numeral, its dot, and what the last two stages take, put back together. */
  lemma AssembleVersion(s: string, a: nat, m: VersionMatch)
    requires a < |s| && s[a] == '.' && m.major == s[..a] && IsNumeral(m.major)
    requires TailAt(s[a + 1..], m)
    ensures VersionAt(s, m)
  {
    var rest := s[a + 1..];
    var k, n := TailLength(m), MatchLength(m);
    assert |m.major| == a;
    assert rest[k..] == s[n..];
    assert n == |s| || s[n] == rest[k];
    JoinAtDot(s, a, m.major, m.minor + ("." + (m.patch + s[n..])));
  }

  /** A text cut at a dot is what comes before the dot, the dot, and what comes after. */
  lemma JoinAtDot(s: string, a: nat, x: string, tail: string)
    requires a < |s| && s[a] == '.' && x == s[..a] && tail == s[a + 1..]
    ensures s == x + ("." + tail)
  {
    assert s == s[..a] + [s[a]] + s[a + 1..];
  }

  /** The pattern matches exactly the texts that start with a version. */
  lemma MatchVersionIff(s: string)
    ensures MatchVersion(s).Some? <==> StartsWithVersion(s)
  {
    if MatchVersion(s).Some? {
      MatchVersionShape(s);
      VersionAtStarts(s, MatchVersion(s).value);
    }
    if StartsWithVersion(s) {
      var a, b, c, rest :|
        IsNumeral(a) && IsNumeral(b) && IsNumeral(c) && (rest == [] || !IsDigit(rest[0])) &&
        s == a + ("." + (b + ("." + (c + rest))));
      MatchVersionOfNested(a, b, c, rest);
    }
  }

  lemma VersionAtStarts(s: string, m: VersionMatch)
    requires VersionAt(s, m)
    ensures StartsWithVersion(s)
  {
    var rest := s[MatchLength(m)..];
    assert IsNumeral(m.major) && IsNumeral(m.minor) && IsNumeral(m.patch) && (rest == [] || !IsDigit(rest[0])) &&
      s == m.major + ("." + (m.minor + ("." + (m.patch + rest))));
  }

  /** `MatchVersionOf`, with the text grouped from the right. */
  lemma MatchVersionOfNested(a: string, b: string, c: string, rest: string)
    requires IsNumeral(a) && IsNumeral(b) && IsNumeral(c)
    requires rest == [] || !IsDigit(rest[0])
    ensures MatchVersion(a + ("." + (b + ("." + (c + rest))))) == Some(VersionMatch(a, b, c))
  {
    var u := c + rest;
    var tail := b + ("." + u);
    NumeralThenDot(a, tail);
    assert a + "." + tail == a + ("." + tail);
    MatchMinorOf(a, b, c, rest);
    assert b + "." + u == tail;
  }

  /** `Number.parseInt` of a run of decimal digits. */
  function DigitsValue(s: string): nat
  {
    if s == [] then 0 else DigitsValue(s[..|s| - 1]) * 10 + ((s[|s| - 1] as int - '0' as int) % 10)
  }

  /** The decimal numeral of `n`, without leading zeros. */
  function Numeral(n: nat): (s: string)
    ensures IsNumeral(s)
  {
    var d := ['0' + (n % 10) as char];
    if n < 10 then d else Numeral(n / 10) + d
  }

  lemma {:induction false} NumeralValue(n: nat)
    ensures DigitsValue(Numeral(n)) == n
  {
    var d := ['0' + (n % 10) as char];
    if n >= 10 {
      NumeralValue(n / 10);
      var s := Numeral(n / 10) + d;
      assert s[..|s| - 1] == Numeral(n / 10);
    }
  }

  /** The message `getMesonVersion` throws when the trimmed output does not match. */
  function VersionError(trimmed: string): string
  {
    "Meson version doesn't match expected output: " + trimmed
  }

  /** A JavaScript number or `undefined`, as far as the version check needs it. */
  datatype JsValue = Undefined | Number(n: int)

  /** `array.slice(start, end)`, with JavaScript's clamping to the array's length. */
  function JsSlice<T>(s: seq<T>, start: nat, end: nat): (r: seq<T>)
    ensures |r| <= |s|
  {
    var lo := if start < |s| then start else |s|;
    var hi := if end < lo then lo else if end < |s| then end else |s|;
    s[lo..hi]
  }

  /** `getMesonVersion()` as written: with the `g` flag, `match` gives the array of whole
      matches, not the groups; the anchored pattern matches once, so `slice(1, 3)` of that
      one-element array is empty, and the numbers resolved are none. */
  function GetMesonVersionAsWritten(stdout: string): Result<seq<JsValue>, string>
  {
    VersionOfTrimmedAsWritten(Trim(stdout))
  }

  function VersionOfTrimmedAsWritten(trimmed: string): Result<seq<JsValue>, string>
  {
    match MatchVersion(trimmed)
    case None => Err(VersionError(trimmed))
    case Some(m) =>
      var matches := [MatchText(m)];
      var picked := JsSlice(matches, 1, 3);
      Ok(seq(|picked|, i requires 0 <= i < |picked| => Number(DigitsValue(picked[i]))))
  }

  /** As written, every accepted version resolves to the empty array. */
  lemma VersionAsWrittenIsEmpty(stdout: string)
    ensures GetMesonVersionAsWritten(stdout).Ok? ==> GetMesonVersionAsWritten(stdout).value == []
  {
  }

  /** A Meson version. */
  datatype Version = Version(major: nat, minor: nat, patch: nat)

  /** The evidently intended `getMesonVersion`: the three numbers of the groups. */
  function ParseMesonVersion(stdout: string): Result<Version, string>
  {
    VersionOfTrimmed(Trim(stdout))
  }

  function VersionOfTrimmed(trimmed: string): Result<Version, string>
  {
    match MatchVersion(trimmed)
    case None => Err(VersionError(trimmed))
    case Some(m) => Ok(Version(DigitsValue(m.major), DigitsValue(m.minor), DigitsValue(m.patch)))
  }

  /** Both readings accept the same outputs: exactly those whose trimmed form starts with
      a version; a rejected output's message ends with the trimmed output. */
  lemma VersionAcceptance(stdout: string)
    ensures ParseMesonVersion(stdout).Err? <==> !StartsWithVersion(Trim(stdout))
    ensures GetMesonVersionAsWritten(stdout).Err? <==> !StartsWithVersion(Trim(stdout))
    ensures ParseMesonVersion(stdout).Err? ==>
      var e := ParseMesonVersion(stdout).error;
      |e| >= |Trim(stdout)| && e[|e| - |Trim(stdout)|..] == Trim(stdout)
    ensures GetMesonVersionAsWritten(stdout).Err? ==>
      var e := GetMesonVersionAsWritten(stdout).error;
      |e| >= |Trim(stdout)| && e[|e| - |Trim(stdout)|..] == Trim(stdout)
  {
    MatchVersionIff(Trim(stdout));
  }

  /** The corrected parse reads back the version Meson prints, whatever follows it that does
      not start with a digit. */
  lemma ParseMesonVersionRoundTrip(v: Version, rest: string)
    requires rest == [] || !IsDigit(rest[0])
    ensures ParseMesonVersion(Numeral(v.major) + "." + Numeral(v.minor) + "." + Numeral(v.patch) + rest) == Ok(v)
  {
    var a, b, c := Numeral(v.major), Numeral(v.minor), Numeral(v.patch);
    var x := a + "." + b + "." + c;
    assert x[0] == a[0] && x[|x| - 1] == c[|c| - 1];
    TrimAfter(x, rest);
    var r := TrimEnd(rest);
    assert r == [] || r[0] == rest[0];
    MatchVersionOf(a, b, c, r);
    NumeralValue(v.major);
    NumeralValue(v.minor);
    NumeralValue(v.patch);
  }

  /** `trim` of a text whose first part has no white space at its ends trims only the rest's
      end. */
  lemma TrimAfter(x: string, y: string)
    requires x != [] && !IsSpace(x[0]) && !IsSpace(x[|x| - 1])
    ensures Trim(x + y) == x + TrimEnd(y)
  {
    assert (x + y)[0] == x[0];
    TrimEndAfter(x, y);
  }

  /** `trim` keeps everything up to a last character that is not white space. */
  lemma {:induction false} TrimEndAfter(x: string, y: string)
    requires x != [] && !IsSpace(x[|x| - 1])
    ensures TrimEnd(x + y) == x + TrimEnd(y)
  {
    if y == [] {
      assert x + y == x;
    } else if IsSpace(y[|y| - 1]) {
      var n := |y| - 1;
      assert (x + y)[..|x + y| - 1] == x + y[..n];
      TrimEndAfter(x, y[..n]);
    }
  }

  /** Whitespace around the output changes neither reading. */
  lemma VersionIgnoresWhitespace(w1: string, s: string, w2: string)
    requires AllSpace(w1) && AllSpace(w2)
    requires s == [] || (!IsSpace(s[0]) && !IsSpace(s[|s| - 1]))
    ensures ParseMesonVersion(w1 + s + w2) == ParseMesonVersion(s)
    ensures GetMesonVersionAsWritten(w1 + s + w2) == GetMesonVersionAsWritten(s)
  {
    TrimSurrounding(w1, s, w2);
    TrimSurrounding([], s, []);
    assert [] + s + [] == s;
  }

  /** A concrete output on which the two readings differ: "0.55.3" gives no numbers as
      written, and 0, 55 and 3 as intended. */
  lemma VersionSliceCounterexample()
    ensures GetMesonVersionAsWritten("0.55.3" + "\n") == Ok([])
    ensures ParseMesonVersion("0.55.3" + "\n") == Ok(Version(0, 55, 3))
  {
    ExampleNumerals();
    ParseMesonVersionRoundTrip(Version(0, 55, 3), []);
    ExampleWhitespace();
    VersionAcceptance("0.55.3" + "\n");
    VersionAsWrittenIsEmpty("0.55.3" + "\n");
  }

  lemma ExampleNumerals()
    ensures Numeral(0) + "." + Numeral(55) + "." + Numeral(3) + [] == "0.55.3"
  {
    assert Numeral(0) == "0" && Numeral(3) == "3";
    assert Numeral(5) == "5";
    assert Numeral(55) == "55";
  }

  lemma ExampleWhitespace()
    ensures ParseMesonVersion("0.55.3" + "\n") == ParseMesonVersion("0.55.3")
  {
    assert AllSpace("\n");
    VersionIgnoresWhitespace([], "0.55.3", "\n");
    assert [] + "0.55.3" == "0.55.3";
  }

  // ---------------------------------------------------------------------------------------
  // getMesonTargets

  /** `getMesonVersion()[1] < 50` as written: the call is not awaited, so the index is taken
      of a promise, which gives `undefined`; and `undefined < 50` is false. The old-format
      branch is never taken, whatever the version. */
  function IsOldFormatAsWritten(v: Version): bool
  {
    var promiseIndex := Undefined;
    match promiseIndex
    case Undefined => false
    case Number(n) => n < 50
  }

  /** The evidently intended check: introspection from Meson before 0.50 is in the old
      format. */
  function IsOldFormat(v: Version): bool
  {
    v.major == 0 && v.minor < 50
  }

  /** The check as written never holds, while Meson 0.49.0 is of the old format; a release
      after 1.0 is not, whatever its minor number. */
  lemma OldFormatCounterexample()
    ensures forall v :: !IsOldFormatAsWritten(v)
    ensures IsOldFormat(Version(0, 49, 0)) && !IsOldFormatAsWritten(Version(0, 49, 0))
    ensures !IsOldFormat(Version(1, 2, 0))
  {
  }

  /** The old-format branch: a plain `filename` string becomes a one-element list. */
  function NormalizeOld(t: Target): (r: Target)
    ensures r.filename.FileList?
    ensures t.filename.OneFile? ==> r.filename == FileList([t.filename.path])
    ensures t.filename.FileList? ==> r == t
    ensures r.(filename := t.filename) == t
  {
    if t.filename.OneFile? then t.(filename := FileList([t.filename.path])) else t
  }

  /** `adapt(p)`: the symlink-resolved directory of `p`, joined with its base name. */
  function Adapt(root: Path, resolve: Resolver, p: Path): Path
  {
    Join(resolve(root, Dirname(p)), Seg(Basename(p)))
  }

  /** `adapt` keeps the base name and moves the file to its resolved directory. */
  lemma AdaptKeepsBasename(root: Path, resolve: Resolver, p: Path)
    requires IsName(Basename(p))
    ensures Basename(Adapt(root, resolve, p)) == Basename(p)
    ensures Dirname(Adapt(root, resolve, p)) == resolve(root, Dirname(p))
  {
    DirnameJoinName(resolve(root, Dirname(p)), Basename(p));
  }

  /** The `TypeError` the rewrite raises: `.map` of a missing key, or of a string. */
  datatype TypeError = MapOfUndefined(key: string) | MapOfString(key: string)

  /** The callback of the rewrite on one target. `extra_files` and the source groups are
      mapped but the results dropped, so only their absence matters. */
  function AdaptTarget(root: Path, resolve: Resolver, t: Target): Result<Target, TypeError>
  {
    if t.extraFiles.None? then Err(MapOfUndefined("extra_files"))
    else if t.filename.OneFile? then Err(MapOfString("filename"))
    else if t.targetSources.None? then Err(MapOfUndefined("target_sources"))
    else
      var files := t.filename.paths;
      Ok(t.(definedIn := Adapt(root, resolve, t.definedIn),
            filename := FileList(seq(|files|, i requires 0 <= i < |files| => Adapt(root, resolve, files[i])))))
  }

  /** A rewritten target differs from the original in `defined_in` and in each `filename`
      entry only; `extra_files` and `target_sources` are unchanged, and base names are kept.
      The rewrite fails exactly when one of the mapped keys is missing or `filename` is a
      string. */
  lemma AdaptTargetChanges(root: Path, resolve: Resolver, t: Target)
    ensures AdaptTarget(root, resolve, t).Err? <==>
      t.extraFiles.None? || t.filename.OneFile? || t.targetSources.None?
    ensures AdaptTarget(root, resolve, t).Ok? ==>
      var r := AdaptTarget(root, resolve, t).value;
      && r.(definedIn := t.definedIn, filename := t.filename) == t
      && r.extraFiles == t.extraFiles && r.targetSources == t.targetSources
      && r.filename.FileList? && |r.filename.paths| == |t.filename.paths|
      && (IsName(Basename(t.definedIn)) ==> Basename(r.definedIn) == Basename(t.definedIn))
      && forall i :: 0 <= i < |t.filename.paths| && IsName(Basename(t.filename.paths[i])) ==>
           Basename(r.filename.paths[i]) == Basename(t.filename.paths[i])
  {
    if AdaptTarget(root, resolve, t).Ok? {
      var r := AdaptTarget(root, resolve, t).value;
      if IsName(Basename(t.definedIn)) {
        AdaptKeepsBasename(root, resolve, t.definedIn);
      }
      forall i | 0 <= i < |t.filename.paths| && IsName(Basename(t.filename.paths[i]))
        ensures Basename(r.filename.paths[i]) == Basename(t.filename.paths[i])
      {
        AdaptKeepsBasename(root, resolve, t.filename.paths[i]);
      }
    }
  }

  /** The outcome of the callback on every target. */
  function AdaptOutcomes(root: Path, resolve: Resolver, parsed: seq<Target>): seq<Result<Target, TypeError>>
  {
    seq(|parsed|, i requires 0 <= i < |parsed| => AdaptTarget(root, resolve, parsed[i]))
  }

  /** `parsed.map(t => { ...; return t; })` of the rewrite branch: each target rewritten in
      turn; the first target that raises ends the call with its error. Otherwise the result
      keeps the number and order of the targets. */
  method RewriteTargets(root: Path, resolve: Resolver, parsed: seq<Target>) returns (r: Result<seq<Target>, TypeError>)
    ensures var outcomes := AdaptOutcomes(root, resolve, parsed);
      && (r.Err? <==> FirstError(outcomes).Some?)
      && (r.Err? ==> r.error == FirstError(outcomes).value)
      && (r.Ok? ==> |r.value| == |parsed| && forall i :: 0 <= i < |parsed| ==> outcomes[i] == Ok(r.value[i]))
  {
    ghost var outcomes := AdaptOutcomes(root, resolve, parsed);
    var out: seq<Target> := [];
    for i := 0 to |parsed|
      invariant FirstError(outcomes[..i]).None?
      invariant |out| == i && forall j :: 0 <= j < i ==> outcomes[j] == Ok(out[j])
    {
      var t := AdaptTarget(root, resolve, parsed[i]);
      FirstErrorSnoc(outcomes[..i], outcomes[i]);
      assert outcomes[..i + 1] == outcomes[..i] + [outcomes[i]];
      if t.Err? {
        FirstErrorPrefix(outcomes, i + 1);
        return Err(t.error);
      }
      out := out + [t.value];
    }
    assert outcomes[..|parsed|] == outcomes;
    return Ok(out);
  }

  /** An error in a prefix is the first error of the whole. */
  lemma {:induction false} FirstErrorPrefix<T, E>(rs: seq<Result<T, E>>, n: nat)
    requires n <= |rs| && FirstError(rs[..n]).Some?
    ensures FirstError(rs) == FirstError(rs[..n])
  {
    if rs != [] && rs[0].Ok? {
      assert rs[..n][1..] == rs[1..][..n - 1];
      FirstErrorPrefix(rs[1..], n - 1);
    }
  }

  /** `getMesonTargets` on the parsed records, with the intended version check (the
      version check as written is `IsOldFormatAsWritten`): old-format records get their
      `filename` normalised; newer ones are rewritten against the workspace root. */
  method GetMesonTargets(parsed: seq<Target>, version: Version, root: Path, resolve: Resolver)
    returns (r: Result<seq<Target>, TypeError>)
    ensures IsOldFormat(version) ==>
      r.Ok? && |r.value| == |parsed| && forall i :: 0 <= i < |parsed| ==> r.value[i] == NormalizeOld(parsed[i])
    ensures !IsOldFormat(version) ==>
      var outcomes := AdaptOutcomes(root, resolve, parsed);
      && (r.Err? <==> FirstError(outcomes).Some?)
      && (r.Err? ==> r.error == FirstError(outcomes).value)
      && (r.Ok? ==> |r.value| == |parsed| && forall i :: 0 <= i < |parsed| ==> outcomes[i] == Ok(r.value[i]))
  {
    if IsOldFormat(version) {
      return Ok(seq(|parsed|, i requires 0 <= i < |parsed| => NormalizeOld(parsed[i])));
    }
    r := RewriteTargets(root, resolve, parsed);
  }

  /** `getMesonExecutables`: the targets whose type is "executable", every copy of them, in
      their order. */
  function Executables(targets: seq<Target>): (r: seq<Target>)
    ensures forall t :: t in r <==> t in targets && t.targetType == Executable
    ensures forall t :: multiset(r)[t] == if t.targetType == Executable then multiset(targets)[t] else 0
    ensures IsSubsequence(r, targets)
  {
    FilterMembership(targets, IsExecutable);
    FilterCounts(targets, IsExecutable);
    Filter(targets, IsExecutable)
  }

  predicate IsExecutable(t: Target)
  {
    TypeName(t.targetType) == "executable"
  }
}
