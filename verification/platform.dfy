/** Client versions and client-type detection from the executable's path. */
module Platform {
  import opened Wrappers
  import opened Strings

  type U16 = x: nat | x < 0x1_0000

  datatype Version = Version(major: U16, minor: U16, patch: U16, build: U16)

  /** `Version`'s Display: `major.minor.patch.build` in decimal. */
  function VersionString(v: Version): string {
    Join([DecimalString(v.major), DecimalString(v.minor), DecimalString(v.patch), DecimalString(v.build)], ".")
  }

  /** Splits `s` at every '.'. */
  function SplitDots(s: string): (r: seq<string>)
    ensures |r| >= 1
  {
    if s == [] then [""]
    else
      var rest := SplitDots(s[1..]);
      if s[0] == '.' then [""] + rest else [[s[0]] + rest[0]] + rest[1..]
  }

  predicate NoDot(s: string) {
    forall i :: 0 <= i < |s| ==> s[i] != '.'
  }

  lemma {:induction false} SplitDotsAfter(x: string, rest: string)
    requires NoDot(x)
    ensures SplitDots(x + "." + rest) == [x] + SplitDots(rest)
    decreases |x|
  {
    if x == [] {
      assert x + "." + rest == ['.'] + rest;
    } else {
      var s := x + "." + rest;
      assert s[0] == x[0] && s[0] != '.';
      assert s[1..] == x[1..] + "." + rest;
      SplitDotsAfter(x[1..], rest);
      assert [x[0]] + x[1..] == x;
    }
  }

  lemma {:induction false} SplitDotsNone(x: string)
    requires NoDot(x)
    ensures SplitDots(x) == [x]
    decreases |x|
  {
    if x != [] {
      assert x[0] != '.';
      SplitDotsNone(x[1..]);
      assert [x[0]] + x[1..] == x;
    }
  }

  predicate IsNumeral(s: string) {
    |s| > 0 && forall i :: 0 <= i < |s| ==> IsDigit(s[i])
  }

  /** Reads a version back from its text form: four dot-separated decimal
      numerals, each below 2^16. */
  function ParseVersion(s: string): Option<Version> {
    var parts := SplitDots(s);
    if |parts| != 4 || !IsNumeral(parts[0]) || !IsNumeral(parts[1]) || !IsNumeral(parts[2]) || !IsNumeral(parts[3]) then None
    else
      var a := ParseDecimal(parts[0]);
      var b := ParseDecimal(parts[1]);
      var c := ParseDecimal(parts[2]);
      var d := ParseDecimal(parts[3]);
      if a < 0x1_0000 && b < 0x1_0000 && c < 0x1_0000 && d < 0x1_0000 then Some(Version(a, b, c, d)) else None
  }

  /** Splitting undoes joining with '.' when no part holds a dot. */
  lemma {:induction false} SplitJoin(parts: seq<string>)
    requires |parts| >= 1
    requires forall i :: 0 <= i < |parts| ==> NoDot(parts[i])
    ensures SplitDots(Join(parts, ".")) == parts
    decreases |parts|
  {
    if |parts| == 1 {
      SplitDotsNone(parts[0]);
    } else {
      SplitJoin(parts[1..]);
      SplitDotsAfter(parts[0], Join(parts[1..], "."));
      assert [parts[0]] + parts[1..] == parts;
    }
  }

  lemma DecimalIsNumeral(n: nat)
    ensures IsNumeral(DecimalString(n)) && NoDot(DecimalString(n)) && ParseDecimal(DecimalString(n)) == n
  {
    DecimalRoundTrip(n);
  }

  /** The display form loses nothing: it reads back as the same version. */
  lemma VersionStringRoundTrip(v: Version)
    ensures ParseVersion(VersionString(v)) == Some(v)
  {
    DecimalIsNumeral(v.major);
    DecimalIsNumeral(v.minor);
    DecimalIsNumeral(v.patch);
    DecimalIsNumeral(v.build);
    var parts := [DecimalString(v.major), DecimalString(v.minor), DecimalString(v.patch), DecimalString(v.build)];
    SplitJoin(parts);
  }

  datatype ClientType = Retail | Classic | ClassicEra | Unknown

  /** `uses_ed25519`: every client but Classic Era checks an Ed25519 key. */
  predicate UsesEd25519(t: ClientType) {
    match t
    case Retail => true
    case Classic => true
    case ClassicEra => false
    case Unknown => true
  }

  /** `ClientType`'s Display. */
  function ClientTypeName(t: ClientType): string {
    match t
    case Retail => "Retail"
    case Classic => "Classic"
    case ClassicEra => "Classic Era"
    case Unknown => "Unknown"
  }

  /** Different client types display differently, and only Classic Era goes without Ed25519. */
  lemma ClientTypeFacts(t: ClientType, u: ClientType)
    ensures ClientTypeName(t) == ClientTypeName(u) <==> t == u
    ensures !UsesEd25519(t) <==> t == ClassicEra
  {
  }

  /** A path separator; Windows also accepts the backslash. */
  predicate IsSeparator(c: char, windows: bool) {
    c == '/' || (windows && c == '\\')
  }

  function TrimTrailingSeparators(s: string, windows: bool): string {
    if |s| > 0 && IsSeparator(s[|s| - 1], windows) then TrimTrailingSeparators(s[..|s| - 1], windows) else s
  }

  /** The characters after the last separator. */
  function LastComponent(s: string, windows: bool): string {
    if |s| == 0 || IsSeparator(s[|s| - 1], windows) then "" else LastComponent(s[..|s| - 1], windows) + [s[|s| - 1]]
  }

  /** `Path::file_name` of a text path, `""` when there is none. */
  function FileName(path: string, windows: bool): string {
    var c := LastComponent(TrimTrailingSeparators(path, windows), windows);
    if c == ".." then "" else c
  }

  /** `detect_client_type`: directory markers in the whole path first, then the file name. */
  function DetectClientType(path: string, windows: bool): ClientType {
    var lowered := ToLower(path);
    var file := ToLower(FileName(path, windows));
    if Contains(lowered, "_retail_") then Retail
    else if Contains(lowered, "_classic_era_") then ClassicEra
    else if Contains(lowered, "_classic_") then Classic
    else if Contains(file, "wowclassic") then Classic
    else if file == "wow.exe" || file == "world of warcraft" then Retail
    else Unknown
  }

  lemma ClassicMarkerInEraMarker()
    ensures Contains("_classic_era_", "_classic_")
  {
    assert OccursAt("_classic_era_", "_classic_", 0);
  }

  /** The precedence of the markers: `_retail_` wins; a `_classic_era_` path
      is Classic Era although it also holds the `_classic_` marker; then the
      `_classic_` marker or a "wowclassic" file name gives Classic; Retail
      otherwise comes only from the file name, and anything else is Unknown. */
  lemma DetectionPrecedence(path: string, windows: bool)
    ensures var lowered := ToLower(path);
      Contains(lowered, "_classic_era_") && !Contains(lowered, "_retail_") ==>
        Contains(lowered, "_classic_") && DetectClientType(path, windows) == ClassicEra
    ensures var lowered := ToLower(path);
      var file := ToLower(FileName(path, windows));
      DetectClientType(path, windows) == Retail <==>
        Contains(lowered, "_retail_") ||
        (!Contains(lowered, "_classic_") && !Contains(file, "wowclassic") &&
         (file == "wow.exe" || file == "world of warcraft"))
    ensures var lowered := ToLower(path);
      DetectClientType(path, windows) == ClassicEra <==>
        !Contains(lowered, "_retail_") && Contains(lowered, "_classic_era_")
    ensures var lowered := ToLower(path);
      var file := ToLower(FileName(path, windows));
      DetectClientType(path, windows) == Classic <==>
        !Contains(lowered, "_retail_") && !Contains(lowered, "_classic_era_") &&
        (Contains(lowered, "_classic_") || Contains(file, "wowclassic"))
    ensures var lowered := ToLower(path);
      var file := ToLower(FileName(path, windows));
      DetectClientType(path, windows) == Unknown <==>
        !Contains(lowered, "_retail_") && !Contains(lowered, "_classic_") && !Contains(file, "wowclassic") &&
        file != "wow.exe" && file != "world of warcraft"
  {
    var lowered := ToLower(path);
    if Contains(lowered, "_classic_era_") {
      ClassicMarkerInEraMarker();
      ContainsTransitive(lowered, "_classic_era_", "_classic_");
    }
  }

  lemma LowerCharIdempotent(c: char)
    ensures LowerChar(LowerChar(c)) == LowerChar(c)
  {
  }

  lemma ToLowerIdempotent(s: string)
    ensures ToLower(ToLower(s)) == ToLower(s)
  {
    forall i | 0 <= i < |s| ensures ToLower(ToLower(s))[i] == ToLower(s)[i] {
      LowerCharIdempotent(s[i]);
    }
  }

  lemma ToLowerPrefix(s: string, k: nat)
    requires k <= |s|
    ensures ToLower(s)[..k] == ToLower(s[..k])
  {
  }

  lemma {:induction false} TrimCommutesWithLower(s: string, windows: bool)
    ensures TrimTrailingSeparators(ToLower(s), windows) == ToLower(TrimTrailingSeparators(s, windows))
    decreases |s|
  {
    if |s| > 0 && IsSeparator(s[|s| - 1], windows) {
      ToLowerPrefix(s, |s| - 1);
      TrimCommutesWithLower(s[..|s| - 1], windows);
    }
  }

  lemma {:induction false} LastComponentCommutesWithLower(s: string, windows: bool)
    ensures LastComponent(ToLower(s), windows) == ToLower(LastComponent(s, windows))
    decreases |s|
  {
    if |s| > 0 && !IsSeparator(s[|s| - 1], windows) {
      ToLowerPrefix(s, |s| - 1);
      LastComponentCommutesWithLower(s[..|s| - 1], windows);
      assert ToLower(LastComponent(s[..|s| - 1], windows) + [s[|s| - 1]]) ==
        ToLower(LastComponent(s[..|s| - 1], windows)) + [LowerChar(s[|s| - 1])];
    }
  }

  lemma FileNameCommutesWithLower(path: string, windows: bool)
    ensures FileName(ToLower(path), windows) == ToLower(FileName(path, windows))
  {
    TrimCommutesWithLower(path, windows);
    LastComponentCommutesWithLower(TrimTrailingSeparators(path, windows), windows);
    var c := LastComponent(TrimTrailingSeparators(path, windows), windows);
    assert ToLower(c) == ".." <==> c == ".." by {
      if ToLower(c) == ".." {
        assert LowerChar(c[0]) == '.' && LowerChar(c[1]) == '.';
      }
    }
  }

  /** Detection ignores letter case: a path and its lower-case form are
      classified alike. */
  lemma DetectionIgnoresCase(path: string, windows: bool)
    ensures DetectClientType(ToLower(path), windows) == DetectClientType(path, windows)
  {
    ToLowerIdempotent(path);
    FileNameCommutesWithLower(path, windows);
    ToLowerIdempotent(FileName(path, windows));
  }

  /** The upper-case Windows path of a retail client is detected as Retail. */
  lemma UpperCaseRetailPath()
    ensures DetectClientType("C:\\Games\\WoW\\_RETAIL_\\WOW.EXE", true) == Retail
  {
    var lowered := ToLower("C:\\Games\\WoW\\_RETAIL_\\WOW.EXE");
    assert lowered[13..21] == "_retail_";
    assert OccursAt(lowered, "_retail_", 13);
  }
}
