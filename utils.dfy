/** Parsing of pip's version string (`major.minor[.micro]`) and the
    "pip 6 or higher" capability check that picks the unpack routine. */
module Utils {
  import opened Strings
  import opened Wrappers

  /** The three components the parser returns; `micro` is never validated. */
  datatype Version = Version(major: string, minor: string, micro: string)

  /** Each way parsing can fail, in the order the checks are made. */
  datatype VersionError =
    | MissingVersion
    | NotDotDelimited(version: string)
    | MajorNotNumber(version: string, major: string)
    | MinorNotNumber(version: string, minor: string)

  /** The text of the non-recoverable error raised for each failure: every
      message after the first names the version string, and the last two
      name the offending component. */
  function Message(e: VersionError): (m: string)
    ensures !e.MissingVersion? ==> Contains(m, e.version)
    ensures e.MajorNotNumber? ==> Contains(m, e.major)
    ensures e.MinorNotNumber? ==> Contains(m, e.minor)
    ensures e.NotDotDelimited? ==> Contains(m, "expected dot-delimited numbers")
    ensures e.MajorNotNumber? ==> Contains(m, "major version is")
    ensures e.MinorNotNumber? ==> Contains(m, "minor version is")
  {
    match e
    case MissingVersion =>
      "Failed to get pip version"
    case NotDotDelimited(v) =>
      var a := "Unknown formatting of pip version: \"";
      var b := "\", ";
      var expected := "expected dot-delimited numbers";
      var c := " (e.g. \"1.5.4\", \"6.0\")";
      InsideTwo(a, v, b, expected, c);
      a + v + b + expected + c
    case MajorNotNumber(v, major) =>
      NotANumber(v, "major version is", major)
    case MinorNotNumber(v, minor) =>
      NotANumber(v, "minor version is", minor)
  }

  /** The message for a component that is not a number. */
  function NotANumber(version: string, heading: string, component: string): (m: string)
    ensures Contains(m, version) && Contains(m, heading) && Contains(m, component)
  {
    var a := "Invalid pip version: \"";
    var b := "\", ";
    var d := " \"";
    var c := "\" while expected to be a number";
    InsideThree(a, version, b, heading, d, component, c);
    a + version + b + heading + d + component + c
  }

  /** Each of the two texts slotted into a message occurs in it. */
  lemma InsideTwo(s0: string, x: string, s1: string, y: string, s2: string)
    ensures var m := s0 + x + s1 + y + s2;
      Contains(m, x) && Contains(m, y)
  {
    var m := s0 + x + s1 + y + s2;
    Inside(s0, x, s1 + y + s2);
    assert s0 + x + (s1 + y + s2) == m;
    Inside(s0 + x + s1, y, s2);
  }

  /** Each of the three texts slotted into a message occurs in it. */
  lemma InsideThree(s0: string, x: string, s1: string, y: string, s2: string, z: string, s3: string)
    ensures var m := s0 + x + s1 + y + s2 + z + s3;
      Contains(m, x) && Contains(m, y) && Contains(m, z)
  {
    var m := s0 + x + s1 + y + s2 + z + s3;
    Inside(s0, x, s1 + y + s2 + z + s3);
    assert s0 + x + (s1 + y + s2 + z + s3) == m;
    Inside(s0 + x + s1, y, s2 + z + s3);
    assert s0 + x + s1 + y + (s2 + z + s3) == m;
    Inside(s0 + x + s1 + y + s2, z, s3);
  }

  lemma Inside(a: string, b: string, c: string)
    ensures Contains(a + b + c, b)
  {
    var s := a + b + c;
    assert s[|a|..|a| + |b|] == b;
    var i: nat := |a|;
    assert i <= |s| && OccursAt(s, b, i);
  }

  /** `parse_pip_version`: the checks run in a fixed order (present, has a dot,
      numeric major, numeric minor); components past the third are ignored. */
  function ParsePipVersion(version: string): (r: Result<Version, VersionError>)
    ensures r.Ok? ==> IsDigits(r.value.major) && IsDigits(r.value.minor)
    ensures r.Ok? ==> '.' !in r.value.major && '.' !in r.value.minor && '.' !in r.value.micro
    ensures r.Err? && r.error.MissingVersion? <==> version == ""
    ensures r.Err? && r.error.NotDotDelimited? <==> version != "" && '.' !in version
  {
    ContainsChar(version, '.');
    if version == "" then
      Err(MissingVersion)
    else if !Contains(version, ".") then
      Err(NotDotDelimited(version))
    else
      var parts := Split(version, ".");
      SplitPiecesFree(version, ".");
      ContainsChar(parts[0], '.');
      ContainsChar(parts[1], '.');
      var major := parts[0];
      var minor := parts[1];
      var micro := if |parts| > 2 then parts[2] else "";
      assert |parts| > 2 ==> !Contains(parts[2], ".");
      ContainsChar(micro, '.');
      if !IsDigits(major) then
        Err(MajorNotNumber(version, major))
      else if !IsDigits(minor) then
        Err(MinorNotNumber(version, minor))
      else
        Ok(Version(major, minor, micro))
  }

  /** A numeric major and a numeric minor are always accepted, whatever
      component follows: the major and minor errors arise only for a
      component that is not a number. */
  lemma ParseAccepts(major: string, minor: string, rest: string)
    requires IsDigits(major) && IsDigits(minor) && (rest == "" || rest[0] == '.')
    ensures var r := ParsePipVersion(major + "." + minor + rest);
      r.Ok? && r.value.major == major && r.value.minor == minor
  {
    assert '.' !in major && '.' !in minor;
    SplitMajorMinor(major, minor, rest);
    assert (major + "." + minor + rest)[|major|] == '.';
    ParseByParts(major + "." + minor + rest);
  }

  /** `is_pip6_or_higher`: the major component, read as a decimal number, is at
      least 6; any parse error is passed on unchanged. */
  function IsPip6OrHigher(version: string): (r: Result<bool, VersionError>)
    ensures r.Err? <==> ParsePipVersion(version).Err?
    ensures r.Err? ==> r.error == ParsePipVersion(version).error
    ensures r.Ok? ==>
      ParsePipVersion(version).Ok? && r.value == (DecimalValue(ParsePipVersion(version).value.major) >= 6)
  {
    match ParsePipVersion(version)
    case Err(e) => Err(e)
    case Ok(v) => Ok(DecimalValue(v.major) >= 6)
  }

  /** The canonical text of a version: the inverse of the parser on
      well-formed versions. */
  function Render(v: Version): string {
    v.major + "." + v.minor + (if v.micro == "" then "" else "." + v.micro)
  }

  /** How the parser decides once the input is known to hold a dot. */
  lemma ParseByParts(version: string)
    requires '.' in version
    ensures var parts := Split(version, ".");
      |parts| >= 2 &&
      ParsePipVersion(version) ==
        if !IsDigits(parts[0]) then Err(MajorNotNumber(version, parts[0]))
        else if !IsDigits(parts[1]) then Err(MinorNotNumber(version, parts[1]))
        else Ok(Version(parts[0], parts[1], if |parts| > 2 then parts[2] else ""))
  {
    ContainsChar(version, '.');
  }

  /** How a rendering splits at its dots. */
  lemma SplitRender(v: Version)
    requires '.' !in v.major && '.' !in v.minor && '.' !in v.micro
    ensures Split(Render(v), ".") == if v.micro == "" then [v.major, v.minor] else [v.major, v.minor, v.micro]
  {
    if v.micro == "" {
      assert Render(v) == v.major + "." + v.minor;
      SplitAtFirst(v.major, '.', v.minor);
      SplitWithout(v.minor, '.');
    } else {
      SplitRenderMicro(v);
    }
  }

  lemma SplitRenderMicro(v: Version)
    requires '.' !in v.major && '.' !in v.minor && '.' !in v.micro && v.micro != ""
    ensures Split(Render(v), ".") == [v.major, v.minor, v.micro]
  {
    var tail := v.minor + "." + v.micro;
    assert Render(v) == v.major + "." + tail;
    SplitAtFirst(v.major, '.', tail);
    SplitAtFirst(v.minor, '.', v.micro);
    SplitWithout(v.micro, '.');
    assert Split(tail, ".") == [v.minor, v.micro];
  }

  /** A version with numeric major and minor and a dot-free micro is read
      back from its rendering unchanged. */
  lemma ParseRender(v: Version)
    requires IsDigits(v.major) && IsDigits(v.minor) && '.' !in v.micro
    ensures ParsePipVersion(Render(v)) == Ok(v)
  {
    assert '.' !in v.major && '.' !in v.minor;
    SplitRender(v);
    assert Render(v)[|v.major|] == '.';
    ParseByParts(Render(v));
  }

  /** Components past the third are ignored: a version with numeric major and
      minor, a dot-free micro and any further text after a third dot is
      accepted with exactly those three components. */
  lemma ParseIgnoresTail(major: string, minor: string, micro: string, more: string)
    requires IsDigits(major) && IsDigits(minor) && '.' !in micro
    ensures ParsePipVersion(major + "." + minor + "." + micro + "." + more) == Ok(Version(major, minor, micro))
  {
    assert '.' !in major && '.' !in minor;
    var version := major + "." + minor + "." + micro + "." + more;
    var afterMinor := micro + "." + more;
    var afterMajor := minor + "." + afterMinor;
    assert version == major + "." + afterMajor;
    SplitAtFirst(major, '.', afterMajor);
    SplitAtFirst(minor, '.', afterMinor);
    SplitAtFirst(micro, '.', more);
    var parts := Split(version, ".");
    assert parts[0] == major && parts[1] == minor && parts[2] == micro;
    assert version[|major|] == '.';
    ParseByParts(version);
  }

  /** Whatever the parser accepts begins with the rendering of what it
      returns, and what follows (if anything) starts a further component. */
  lemma RenderParse(version: string)
    requires ParsePipVersion(version).Ok?
    ensures var v := ParsePipVersion(version).value;
      StartsWith(version, Render(v)) &&
      (|version| == |Render(v)| || version[|Render(v)|] == '.')
  {
    ParseByParts(version);
    var parts := Split(version, ".");
    JoinSplit(version, ".");
    JoinedPrefix(parts);
  }

  /** The rendering of the first three pieces is where their join begins. */
  lemma JoinedPrefix(parts: seq<string>)
    requires |parts| >= 2
    ensures var r := Render(Version(parts[0], parts[1], if |parts| > 2 then parts[2] else ""));
      var joined := Join(parts, ".");
      StartsWith(joined, r) && (|joined| == |r| || joined[|r|] == '.')
  {
    var v := Version(parts[0], parts[1], if |parts| > 2 then parts[2] else "");
    var tail: string;
    JoinCons(parts, ".");
    if |parts| == 2 {
      JoinPair(parts, ".");
      tail := "";
    } else {
      var rest := Join(parts[2..], ".");
      JoinCons(parts[1..], ".");
      assert parts[1..][1..] == parts[2..];
      assert Join(parts, ".") == v.major + "." + v.minor + "." + rest;
      if v.micro == "" {
        tail := "." + rest;
      } else if |parts| == 3 {
        assert rest == v.micro;
        tail := "";
      } else {
        JoinCons(parts[2..], ".");
        assert parts[2..][1..] == parts[3..];
        tail := "." + Join(parts[3..], ".");
      }
    }
    assert Join(parts, ".") == Render(v) + tail;
    PrefixThen(Render(v), tail);
  }

  /** `a` begins `a + b`, and what follows it is the start of `b`. */
  lemma PrefixThen(a: string, b: string)
    ensures StartsWith(a + b, a)
    ensures |a + b| == |a| || (a + b)[|a|] == b[0]
  {
    assert (a + b)[..|a|] == a;
  }

  /** With exactly two components the input is `major.minor`; with exactly
      three it is `major.minor.micro`. */
  lemma ComponentsRoundTrip(version: string)
    requires ParsePipVersion(version).Ok?
    ensures var v := ParsePipVersion(version).value;
      (|Split(version, ".")| == 2 ==> v.micro == "" && v.major + "." + v.minor == version) &&
      (|Split(version, ".")| == 3 ==> v.major + "." + v.minor + "." + v.micro == version)
  {
    ParseByParts(version);
    var parts := Split(version, ".");
    JoinSplit(version, ".");
    if |parts| == 2 {
      JoinPair(parts, ".");
    } else if |parts| == 3 {
      JoinThree(parts, ".");
    }
  }

  /** A non-numeric major is reported before the minor is looked at, whatever follows it. */
  lemma MajorCheckedFirst(major: string, rest: string)
    requires '.' !in major && !IsDigits(major)
    ensures ParsePipVersion(major + "." + rest) == Err(MajorNotNumber(major + "." + rest, major))
  {
    SplitAtFirst(major, '.', rest);
    assert (major + "." + rest)[|major|] == '.';
    ParseByParts(major + "." + rest);
  }

  /** The first two pieces of `major.minor` followed by nothing or by a further component. */
  lemma SplitMajorMinor(major: string, minor: string, rest: string)
    requires '.' !in major && '.' !in minor
    requires rest == "" || rest[0] == '.'
    ensures var parts := Split(major + "." + minor + rest, ".");
      |parts| >= 2 && parts[0] == major && parts[1] == minor
  {
    if rest == "" {
      SplitTwo(major, minor);
    } else {
      var more := rest[1..];
      assert rest == "." + more;
      SplitThree(major, minor, more);
    }
  }

  lemma SplitTwo(major: string, minor: string)
    requires '.' !in major && '.' !in minor
    ensures var parts := Split(major + "." + minor + "", ".");
      |parts| >= 2 && parts[0] == major && parts[1] == minor
  {
    assert major + "." + minor + "" == major + "." + minor;
    SplitAtFirst(major, '.', minor);
    SplitWithout(minor, '.');
  }

  lemma SplitThree(major: string, minor: string, more: string)
    requires '.' !in major && '.' !in minor
    ensures var parts := Split(major + "." + minor + ("." + more), ".");
      |parts| >= 2 && parts[0] == major && parts[1] == minor
  {
    var tail := minor + "." + more;
    assert major + "." + minor + ("." + more) == major + "." + tail;
    SplitAtFirst(major, '.', tail);
    SplitAtFirst(minor, '.', more);
  }

  /** A numeric major followed by a non-numeric (or empty) minor is reported as a bad minor. */
  lemma MinorChecked(major: string, minor: string, rest: string)
    requires IsDigits(major) && '.' !in minor && !IsDigits(minor)
    requires rest == "" || rest[0] == '.'
    ensures var version := major + "." + minor + rest;
      ParsePipVersion(version) == Err(MinorNotNumber(version, minor))
  {
    assert '.' !in major;
    SplitMajorMinor(major, minor, rest);
    assert (major + "." + minor + rest)[|major|] == '.';
    ParseByParts(major + "." + minor + rest);
  }

  /** For a well-formed version the capability check compares the numeric value of major with 6. */
  lemma Pip6Check(v: Version)
    requires IsDigits(v.major) && IsDigits(v.minor) && '.' !in v.micro
    ensures IsPip6OrHigher(Render(v)) == Ok(DecimalValue(v.major) >= 6)
  {
    ParseRender(v);
  }

  /** A major of two or more digits without a leading zero (pip 10 and later)
      always passes the check: the comparison is numeric, not textual. */
  lemma MultiDigitMajorIsPip6(version: string)
    requires ParsePipVersion(version).Ok?
    requires var major := ParsePipVersion(version).value.major; |major| >= 2 && major[0] != '0'
    ensures IsPip6OrHigher(version) == Ok(true)
  {
    var major := ParsePipVersion(version).value.major;
    NoLeadingZeroBound(major);
    assert Power10(|major| - 1) >= 10 by {
      assert Power10(1) == 10;
      Power10Grows(1, |major| - 1);
    }
  }

  lemma {:induction false} Power10Grows(j: nat, k: nat)
    requires j <= k
    ensures Power10(j) <= Power10(k)
    decreases k
  {
    if j < k {
      Power10Grows(j, k - 1);
    }
  }
}
