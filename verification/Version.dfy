/** Version strings and their precedence, as golang.org/x/mod/semver reads them. */
module SemVer {
  import opened Options

  predicate IsDigit(c: char) { '0' <= c <= '9' }

  predicate IsIdentChar(c: char) { 'A' <= c <= 'Z' || 'a' <= c <= 'z' || IsDigit(c) || c == '-' }

  /** The length of the longest prefix of digits. */
  function Digits(s: string): (n: nat)
    ensures n <= |s| && (forall i :: 0 <= i < n ==> IsDigit(s[i])) && (n < |s| ==> !IsDigit(s[n]))
  {
    if s == "" || !IsDigit(s[0]) then 0 else 1 + Digits(s[1..])
  }

  predicate IsNum(s: string) { Digits(s) == |s| }

  predicate IsBadNum(s: string) { IsNum(s) && |s| > 1 && s[0] == '0' }

  /** Where the first such character is, or the end. */
  function Until(s: string, c: char): (n: nat)
    ensures n <= |s| && c !in s[..n] && (n < |s| ==> s[n] == c)
  {
    if s == "" || s[0] == c then 0
    else assert s[..1 + Until(s[1..], c)] == [s[0]] + s[1..][..Until(s[1..], c)]; 1 + Until(s[1..], c)
  }

  datatype Token = Token(text: string, rest: string)

  predicate AllDigits(s: string) { forall i :: 0 <= i < |s| ==> IsDigit(s[i]) }

  predicate IsNumeral(s: string) { s != "" && AllDigits(s) && (s[0] == '0' ==> |s| == 1) }

  function ParseInt(s: string): (r: Option<Token>)
    ensures r.Some? ==>
      && IsNumeral(r.value.text) && s == r.value.text + r.value.rest
      && (r.value.rest != "" ==> !IsDigit(r.value.rest[0]))
  {
    if s == "" || !IsDigit(s[0]) || (s[0] == '0' && Digits(s) != 1) then None
    else Some(Token(s[..Digits(s)], s[Digits(s)..]))
  }

  function NextIdent(s: string): Token { Token(s[..Until(s, '.')], s[Until(s, '.')..]) }

  /** Identifiers with dots between them, none empty; numeric ones of a pre-release have no leading zero. */
  predicate Identifiers(s: string, plainNumbers: bool)
    decreases |s|
  {
    var next := NextIdent(s);
    && next.text != "" && (forall i :: 0 <= i < |next.text| ==> IsIdentChar(next.text[i]))
    && (plainNumbers ==> !IsBadNum(next.text))
    && (next.rest != "" ==> Identifiers(next.rest[1..], plainNumbers))
  }

  /** A pre-release with its hyphen, or nothing. */
  predicate IsPrerelease(s: string) { s == "" || (s[0] == '-' && Identifiers(s[1..], true)) }

  function ParsePrerelease(s: string): (r: Option<Token>)
    ensures r.Some? ==> IsPrerelease(r.value.text) && s == r.value.text + r.value.rest
  {
    if s == "" || s[0] != '-' then Some(Token("", s))
    else
      var t := s[..Until(s, '+')];
      if IsPrerelease(t) then Some(Token(t, s[Until(s, '+')..])) else None
  }

  predicate BuildOrNothing(s: string) { s == "" || (s[0] == '+' && Identifiers(s[1..], false)) }

  datatype Version = Version(major: string, minor: string, patch: string, prerelease: string)

  predicate Proper(v: Version) {
    IsNumeral(v.major) && IsNumeral(v.minor) && IsNumeral(v.patch) && IsPrerelease(v.prerelease)
  }

  function ParsePatch(major: string, minor: string, s: string): (r: Option<Version>)
    requires IsNumeral(major) && IsNumeral(minor)
    ensures r.Some? ==> Proper(r.value) && (r.value.major, r.value.minor) == (major, minor)
  {
    if ParseInt(s).None? then None
    else
      var patch := ParseInt(s).value;
      if ParsePrerelease(patch.rest).None? || !BuildOrNothing(ParsePrerelease(patch.rest).value.rest) then None
      else Some(Version(major, minor, patch.text, ParsePrerelease(patch.rest).value.text))
  }

  function ParseMinor(major: string, s: string): (r: Option<Version>)
    requires IsNumeral(major)
    ensures r.Some? ==> Proper(r.value) && r.value.major == major
  {
    if ParseInt(s).None? then None
    else
      var minor := ParseInt(s).value;
      if minor.rest == "" then Some(Version(major, minor.text, "0", ""))
      else if minor.rest[0] != '.' then None
      else ParsePatch(major, minor.text, minor.rest[1..])
  }

  /** None is a string that is not a version; `vMAJOR` and `vMAJOR.MINOR` are short forms. */
  function Parse(s: string): (r: Option<Version>)
    ensures r.Some? ==> Proper(r.value)
  {
    if s == "" || s[0] != 'v' || ParseInt(s[1..]).None? then None
    else
      var major := ParseInt(s[1..]).value;
      if major.rest == "" then Some(Version(major.text, "0", "0", ""))
      else if major.rest[0] != '.' then None
      else ParseMinor(major.text, major.rest[1..])
  }

  function CompareString(a: string, b: string): int {
    if a == b then 0
    else if a == "" then -1
    else if b == "" then 1
    else if a[0] != b[0] then (if a[0] < b[0] then -1 else 1)
    else CompareString(a[1..], b[1..])
  }

  /** Digit strings: the longer one is greater. */
  function CompareInt(a: string, b: string): int {
    if |a| != |b| then (if |a| < |b| then -1 else 1) else CompareString(a, b)
  }

  function CompareIdent(a: string, b: string): int {
    if IsNum(a) != IsNum(b) then (if IsNum(a) then -1 else 1)
    else if IsNum(a) then CompareInt(a, b)
    else CompareString(a, b)
  }

  /** Field by field, each with its hyphen or dot in front; with all shared fields equal the longer one is greater. */
  function CompareFields(a: string, b: string): int
    decreases |a|
  {
    if a == "" || b == "" then (if a == "" then -1 else 1)
    else
      var x, y := NextIdent(a[1..]), NextIdent(b[1..]);
      if x.text != y.text then CompareIdent(x.text, y.text) else CompareFields(x.rest, y.rest)
  }

  /** A pre-release comes before its release. */
  function ComparePrerelease(a: string, b: string): int {
    if a == b then 0 else if a == "" then 1 else if b == "" then -1 else CompareFields(a, b)
  }

  function CompareVersions(v: Version, w: Version): int {
    if CompareInt(v.major, w.major) != 0 then CompareInt(v.major, w.major)
    else if CompareInt(v.minor, w.minor) != 0 then CompareInt(v.minor, w.minor)
    else if CompareInt(v.patch, w.patch) != 0 then CompareInt(v.patch, w.patch)
    else ComparePrerelease(v.prerelease, w.prerelease)
  }

  /** A string that is not a version comes before all that are. */
  function Compare(v: string, w: string): int {
    if Parse(v).None? || Parse(w).None? then
      (if Parse(v).None? && Parse(w).None? then 0 else if Parse(v).None? then -1 else 1)
    else CompareVersions(Parse(v).value, Parse(w).value)
  }

  // ---- Numbers ----

  function Pow10(n: nat): (p: nat)
    ensures p > 0
  {
    if n == 0 then 1 else 10 * Pow10(n - 1)
  }

  function DigitValue(c: char): (d: nat)
    requires IsDigit(c)
    ensures d < 10
  {
    (c - '0') as int
  }

  function Value(s: string): nat
    requires AllDigits(s)
  {
    if s == "" then 0 else 10 * Value(s[..|s| - 1]) + DigitValue(s[|s| - 1])
  }

  /** A number in decimal. */
  function Decimal(n: nat): (s: string)
    ensures IsNumeral(s) && (n > 0 ==> s[0] != '0')
  {
    if n < 10 then ['0' + (n as char)] else Decimal(n / 10) + ['0' + ((n % 10) as char)]
  }

  lemma {:induction false} ValueBound(s: string)
    requires AllDigits(s)
    ensures Value(s) < Pow10(|s|)
    ensures s != "" && s[0] != '0' ==> Value(s) >= Pow10(|s| - 1)
  {
    if s != "" {
      ValueBound(s[..|s| - 1]);
    }
  }

  lemma {:induction false} PowGrows(m: nat, n: nat)
    requires m <= n
    ensures Pow10(m) <= Pow10(n)
  {
    if m < n {
      PowGrows(m, n - 1);
    }
  }

  lemma {:induction false} DecimalValue(n: nat)
    ensures Value(Decimal(n)) == n
  {
    if n >= 10 {
      DecimalValue(n / 10);
      assert Decimal(n)[..|Decimal(n)| - 1] == Decimal(n / 10);
    }
  }

  lemma {:induction false} CompareAppended(a: string, b: string, c: char, d: char)
    requires |a| == |b|
    ensures CompareString(a + [c], b + [d]) == if a != b then CompareString(a, b) else CompareString([c], [d])
  {
    if a == "" {
      assert a + [c] == [c] && b + [d] == [d];
    } else {
      assert (a + [c])[1..] == a[1..] + [c] && (b + [d])[1..] == b[1..] + [d];
      assert a == [a[0]] + a[1..] && b == [b[0]] + b[1..];
      CompareAppended(a[1..], b[1..], c, d);
    }
  }

  /** Numerals of one length in the order of their characters are in the order of their values. */
  lemma {:induction false} SameLength(a: string, b: string)
    requires AllDigits(a) && AllDigits(b) && |a| == |b|
    ensures CompareString(a, b) < 0 <==> Value(a) < Value(b)
    ensures CompareString(a, b) > 0 <==> Value(a) > Value(b)
  {
    if a != "" {
      var x, y, c, d := a[..|a| - 1], b[..|b| - 1], a[|a| - 1], b[|b| - 1];
      assert a == x + [c] && b == y + [d];
      SameLength(x, y);
      CompareAppended(x, y, c, d);
      OrderOrEqual(x, y);
    }
  }

  lemma {:induction false} OrderOrEqual(a: string, b: string)
    ensures CompareString(a, b) == 0 <==> a == b
  {
    if a != "" && b != "" {
      assert a == [a[0]] + a[1..] && b == [b[0]] + b[1..];
      OrderOrEqual(a[1..], b[1..]);
    }
  }

  /** Comparing numerals as strings compares their values. */
  lemma CompareIntIsNumeric(a: string, b: string)
    requires IsNumeral(a) && IsNumeral(b)
    ensures CompareInt(a, b) < 0 <==> Value(a) < Value(b)
    ensures CompareInt(a, b) > 0 <==> Value(a) > Value(b)
  {
    if |a| == |b| {
      SameLength(a, b);
    } else {
      ValueBound(a);
      ValueBound(b);
      if |a| < |b| {
        PowGrows(|a|, |b| - 1);
      } else {
        PowGrows(|b|, |a| - 1);
      }
    }
  }

  // ---- What parses ----

  lemma {:induction false} DigitsOf(a: string, b: string)
    requires AllDigits(a) && (b != "" ==> !IsDigit(b[0]))
    ensures Digits(a + b) == |a|
  {
    if a == "" {
      assert a + b == b;
    } else {
      assert (a + b)[1..] == a[1..] + b;
      DigitsOf(a[1..], b);
    }
  }

  lemma ParseNumeral(a: string, b: string)
    requires IsNumeral(a) && (b != "" ==> !IsDigit(b[0]))
    ensures ParseInt(a + b) == Some(Token(a, b))
  {
    DigitsOf(a, b);
    assert (a + b)[0] == a[0] && (a + b)[..|a|] == a && (a + b)[|a|..] == b;
  }

  lemma ParseFromMajor(a: string, rest: string)
    requires IsNumeral(a)
    ensures Parse("v" + a + "." + rest) == ParseMinor(a, rest)
  {
    ParseNumeral(a, "." + rest);
    assert ("v" + a + "." + rest)[1..] == a + ("." + rest);
    assert ("." + rest)[1..] == rest;
  }

  lemma ParseFromMinor(a: string, b: string, rest: string)
    requires IsNumeral(a) && IsNumeral(b)
    ensures ParseMinor(a, b + "." + rest) == ParsePatch(a, b, rest)
  {
    ParseNumeral(b, "." + rest);
    assert b + "." + rest == b + ("." + rest);
    assert ("." + rest)[1..] == rest;
  }

  /** `vMAJOR` stands for `vMAJOR.0.0` and `vMAJOR.MINOR` for `vMAJOR.MINOR.0`. */
  lemma ShortForms(major: nat, minor: nat)
    ensures Parse("v" + Decimal(major)) == Some(Version(Decimal(major), "0", "0", ""))
    ensures Parse("v" + Decimal(major) + "." + Decimal(minor)) == Some(Version(Decimal(major), Decimal(minor), "0", ""))
  {
    var a, b := Decimal(major), Decimal(minor);
    ParseNumeral(a, "");
    assert ("v" + a)[1..] == a + "";
    ParseFromMajor(a, b);
    ParseNumeral(b, "");
    assert b == b + "";
  }

  lemma FullForm(major: nat, minor: nat, patch: nat, pre: string)
    requires IsPrerelease(pre) && '+' !in pre
    ensures Parse("v" + Decimal(major) + "." + (Decimal(minor) + "." + (Decimal(patch) + pre)))
            == Some(Version(Decimal(major), Decimal(minor), Decimal(patch), pre))
  {
    var a, b, c := Decimal(major), Decimal(minor), Decimal(patch);
    ParseFromMajor(a, b + "." + (c + pre));
    ParseFromMinor(a, b, c + pre);
    FullPatch(a, b, c, pre);
  }

  lemma FullPatch(a: string, b: string, c: string, pre: string)
    requires IsNumeral(a) && IsNumeral(b) && IsNumeral(c) && IsPrerelease(pre) && '+' !in pre
    ensures ParsePatch(a, b, c + pre) == Some(Version(a, b, c, pre))
  {
    ParseNumeral(c, pre);
    if pre != "" {
      assert Until(pre, '+') == |pre|;
      assert pre[..|pre|] == pre && pre[|pre|..] == "";
    }
  }

  // ---- The same without a parser: how a version is spelled ----

  /** A number in decimal. */
  ghost predicate Number(s: string) { exists n: nat :: s == Decimal(n) }

  /** Letters, digits and hyphens; a plain one does not begin with a zero if it is a number of several digits. */
  ghost predicate Word(s: string, plain: bool) {
    && s != ""
    && (forall i :: 0 <= i < |s| ==> 'a' <= s[i] <= 'z' || 'A' <= s[i] <= 'Z' || '0' <= s[i] <= '9' || s[i] == '-')
    && (plain && |s| > 1 && (forall i :: 0 <= i < |s| ==> '0' <= s[i] <= '9') ==> s[0] != '0')
  }

  ghost predicate AllWords(words: seq<string>, plain: bool) { forall i :: 0 <= i < |words| ==> Word(words[i], plain) }

  function Dotted(words: seq<string>): string {
    if |words| == 0 then "" else if |words| == 1 then words[0] else words[0] + "." + Dotted(words[1..])
  }

  ghost predicate Words(s: string, plain: bool) {
    exists words :: words != [] && AllWords(words, plain) && s == Dotted(words)
  }

  /** Words with dots between them after a sign, or nothing. */
  ghost predicate Suffix(s: string, sign: char, plain: bool) { s == "" || (s[0] == sign && Words(s[1..], plain)) }

  ghost predicate Spelled(s: string, v: Version) {
    && Number(v.major) && Number(v.minor) && Number(v.patch) && Suffix(v.prerelease, '-', true)
    && (|| (s == "v" + v.major && (v.minor, v.patch, v.prerelease) == ("0", "0", ""))
        || (s == "v" + v.major + "." + v.minor && (v.patch, v.prerelease) == ("0", ""))
        || exists build :: Suffix(build, '+', false)
             && s == "v" + v.major + "." + (v.minor + "." + (v.patch + (v.prerelease + build))))
  }

  lemma {:induction false} NumeralIsDecimal(s: string)
    requires IsNumeral(s)
    ensures s == Decimal(Value(s))
  {
    var init, c := s[..|s| - 1], s[|s| - 1];
    assert s == init + [c];
    if |s| == 1 {
      assert init == "" && Value(s) == DigitValue(c);
    } else {
      NumeralIsDecimal(init);
      ValueBound(init);
      DecimalAppends(Value(init), c);
    }
  }

  lemma DecimalAppends(n: nat, c: char)
    requires n > 0 && IsDigit(c)
    ensures Decimal(10 * n + DigitValue(c)) == Decimal(n) + [c]
  {
  }

  lemma NumberIff(s: string)
    ensures IsNumeral(s) <==> Number(s)
  {
    if IsNumeral(s) {
      NumeralIsDecimal(s);
    }
  }

  lemma {:induction false} UntilIs(a: string, b: string, c: char)
    requires c !in a && (b != "" ==> b[0] == c)
    ensures Until(a + b, c) == |a|
  {
    if a == "" {
      assert a + b == b;
    } else {
      assert (a + b)[1..] == a[1..] + b;
      UntilIs(a[1..], b, c);
    }
  }

  /** One word in front of identifiers. */
  lemma WordParses(w: string, rest: string, plain: bool)
    requires Word(w, plain) && (rest != "" ==> rest[0] == '.' && Identifiers(rest[1..], plain))
    ensures Identifiers(w + rest, plain)
  {
    UntilIs(w, rest, '.');
    assert (w + rest)[..|w|] == w && (w + rest)[|w|..] == rest;
  }

  lemma {:induction false} DottedParses(words: seq<string>, plain: bool)
    requires words != [] && AllWords(words, plain)
    ensures Identifiers(Dotted(words), plain)
  {
    if |words| == 1 {
      WordParses(words[0], "", plain);
      assert words[0] + "" == words[0];
    } else {
      DottedParses(words[1..], plain);
      var rest := "." + Dotted(words[1..]);
      assert rest[1..] == Dotted(words[1..]);
      WordParses(words[0], rest, plain);
      assert words[0] + rest == words[0] + "." + Dotted(words[1..]);
    }
  }

  lemma FirstWord(s: string, plain: bool) returns (w: string, more: Option<string>)
    requires Identifiers(s, plain)
    ensures Word(w, plain)
    ensures more.None? ==> s == w
    ensures more.Some? ==> s == w + "." + more.value && |more.value| < |s| && Identifiers(more.value, plain)
  {
    var n := Until(s, '.');
    CutAtDot(s, n);
    w, more := NextIdent(s).text, None;
    if n < |s| {
      more := Some(NextIdent(s).rest[1..]);
    }
  }

  lemma CutAtDot(s: string, n: nat)
    requires n <= |s| && (n < |s| ==> s[n] == '.')
    ensures if n == |s| then s == s[..n] && s[n..] == "" else s[n..] != "" && s == s[..n] + "." + s[n..][1..]
  {
    if n < |s| {
      assert s[n..] == "." + s[n..][1..];
    }
  }

  lemma {:induction false} IdentifiersSpelled(s: string, plain: bool)
    requires Identifiers(s, plain)
    ensures Words(s, plain)
    decreases |s|
  {
    var w, more := FirstWord(s, plain);
    if more.None? {
      OneWord(w, plain);
    } else {
      IdentifiersSpelled(more.value, plain);
      MoreWords(w, more.value, plain);
    }
  }

  lemma OneWord(w: string, plain: bool)
    requires Word(w, plain)
    ensures Words(w, plain)
  {
    var words := [w];
    assert AllWords(words, plain) && Dotted(words) == w;
  }

  lemma MoreWords(w: string, s: string, plain: bool)
    requires Word(w, plain) && Words(s, plain)
    ensures Words(w + "." + s, plain)
  {
    var more :| more != [] && AllWords(more, plain) && s == Dotted(more);
    Prepended(w, more, plain);
  }

  lemma Prepended(w: string, more: seq<string>, plain: bool)
    requires Word(w, plain) && AllWords(more, plain) && more != []
    ensures AllWords([w] + more, plain) && Dotted([w] + more) == w + "." + Dotted(more)
  {
    assert ([w] + more)[1..] == more;
  }

  lemma IdentifiersIff(s: string, plain: bool)
    ensures Identifiers(s, plain) <==> Words(s, plain)
  {
    if Identifiers(s, plain) {
      IdentifiersSpelled(s, plain);
    }
    if Words(s, plain) {
      var words :| words != [] && AllWords(words, plain) && s == Dotted(words);
      DottedParses(words, plain);
    }
  }

  lemma SuffixIff(s: string)
    ensures IsPrerelease(s) <==> Suffix(s, '-', true)
    ensures BuildOrNothing(s) <==> Suffix(s, '+', false)
  {
    if s != "" {
      IdentifiersIff(s[1..], true);
      IdentifiersIff(s[1..], false);
    }
  }

  lemma {:induction false} NoPlus(s: string)
    requires Identifiers(s, true)
    ensures '+' !in s
    decreases |s|
  {
    var w, more := FirstWord(s, true);
    assert '+' !in w;
    if more.Some? {
      NoPlus(more.value);
    }
  }

  lemma SuffixesParse(pre: string, build: string)
    requires IsPrerelease(pre) && BuildOrNothing(build)
    ensures ParsePrerelease(pre + build) == Some(Token(pre, build))
  {
    if pre == "" {
      assert pre + build == build;
    } else {
      assert pre == "-" + pre[1..];
      NoPlus(pre[1..]);
      UntilIs(pre, build, '+');
      assert (pre + build)[..|pre|] == pre && (pre + build)[|pre|..] == build;
    }
  }

  lemma PatchIff(a: string, b: string, s: string, v: Version)
    requires IsNumeral(a) && IsNumeral(b)
    ensures ParsePatch(a, b, s) == Some(v) <==>
      && (v.major, v.minor) == (a, b) && IsNumeral(v.patch) && IsPrerelease(v.prerelease)
      && exists build :: BuildOrNothing(build) && s == v.patch + (v.prerelease + build)
  {
    if ParsePatch(a, b, s) == Some(v) {
      var rest := ParseInt(s).value.rest;
      var build := ParsePrerelease(rest).value.rest;
      assert BuildOrNothing(build) && s == v.patch + (v.prerelease + build);
    }
    if (v.major, v.minor) == (a, b) && IsNumeral(v.patch) && IsPrerelease(v.prerelease)
       && exists build :: BuildOrNothing(build) && s == v.patch + (v.prerelease + build) {
      var build :| BuildOrNothing(build) && s == v.patch + (v.prerelease + build);
      ParseNumeral(v.patch, v.prerelease + build);
      SuffixesParse(v.prerelease, build);
    }
  }

  lemma AfterMinor(a: string, s: string, v: Version) returns (rest: string)
    requires IsNumeral(a) && ParseMinor(a, s) == Some(v)
    ensures || (s == v.minor && (v.patch, v.prerelease) == ("0", ""))
            || (s == v.minor + "." + rest && ParsePatch(a, v.minor, rest) == Some(v))
  {
    var minor := ParseInt(s).value;
    if minor.rest == "" {
      rest := "";
      assert s == minor.text;
    } else {
      rest := minor.rest[1..];
      assert minor.rest == "." + rest;
      assert s == minor.text + "." + rest;
    }
  }

  lemma AfterMajor(s: string, v: Version) returns (rest: string)
    ensures Parse(s) == Some(v) ==>
      || (s == "v" + v.major && (v.minor, v.patch, v.prerelease) == ("0", "0", ""))
      || (s == "v" + v.major + "." + rest && ParseMinor(v.major, rest) == Some(v))
  {
    rest := "";
    if Parse(s) == Some(v) {
      var major := ParseInt(s[1..]).value;
      rest := if major.rest == "" then "" else major.rest[1..];
      Rejoin(s, major.text, major.rest, rest);
    }
  }

  lemma Rejoin(s: string, text: string, after: string, rest: string)
    requires s != "" && s[0] == 'v' && s[1..] == text + after
    requires rest == if after == "" then "" else after[1..]
    ensures after == "" ==> s == "v" + text
    ensures after != "" && after[0] == '.' ==> s == "v" + text + "." + rest
  {
    assert s == "v" + s[1..];
    if after != "" && after[0] == '.' {
      assert after == "." + rest;
      assert "v" + (text + ("." + rest)) == "v" + text + "." + rest;
    }
  }

  /** The parser accepts exactly the strings that are spelled as versions, and finds their parts. */
  lemma ParseIffSpelled(s: string, v: Version)
    ensures Parse(s) == Some(v) <==> Spelled(s, v)
  {
    ParsedIsSpelled(s, v);
    if Spelled(s, v) {
      SpelledParses(s, v);
    }
  }

  lemma ParsedIsSpelled(s: string, v: Version)
    ensures Parse(s) == Some(v) ==> Spelled(s, v)
  {
    NumberIff(v.major);
    NumberIff(v.minor);
    NumberIff(v.patch);
    SuffixIff(v.prerelease);
    var rest := AfterMajor(s, v);
    if Parse(s) == Some(v) && !(s == "v" + v.major && (v.minor, v.patch, v.prerelease) == ("0", "0", "")) {
      var more := AfterMinor(v.major, rest, v);
      if !(rest == v.minor && (v.patch, v.prerelease) == ("0", "")) {
        PatchIff(v.major, v.minor, more, v);
        var build :| BuildOrNothing(build) && more == v.patch + (v.prerelease + build);
        SuffixIff(build);
      }
    }
  }

  lemma SpelledParses(s: string, v: Version)
    requires Spelled(s, v)
    ensures Parse(s) == Some(v)
  {
    NumberIff(v.major);
    NumberIff(v.minor);
    NumberIff(v.patch);
    SuffixIff(v.prerelease);
    if s == "v" + v.major && (v.minor, v.patch, v.prerelease) == ("0", "0", "") {
      ParseNumeral(v.major, "");
      assert s[1..] == v.major + "";
    } else if s == "v" + v.major + "." + v.minor && (v.patch, v.prerelease) == ("0", "") {
      ParseNumeral(v.minor, "");
      assert v.minor + "" == v.minor;
      ParseFromMajor(v.major, v.minor);
    } else {
      var build :| Suffix(build, '+', false)
                   && s == "v" + v.major + "." + (v.minor + "." + (v.patch + (v.prerelease + build)));
      SuffixIff(build);
      PatchIff(v.major, v.minor, v.patch + (v.prerelease + build), v);
      ParseFromMinor(v.major, v.minor, v.patch + (v.prerelease + build));
      ParseFromMajor(v.major, v.minor + "." + (v.patch + (v.prerelease + build)));
    }
  }
}

/** The version gate that chooses between declarative and legacy hot-plugging. */
module VersionGate {
  import opened Options
  import opened SemVer

  function Formatted(n: int): string { if n < 0 then "-" + Decimal(-n) else Decimal(n) }

  function Target(major: int, minor: int): string { "v" + Formatted(major) + "." + (Formatted(minor) + "." + "0-0") }

  /** Whether a version string is at least vMAJOR.MINOR; one that is not a version passes. */
  function IsVersionAtLeast(version: string, major: int, minor: int): bool {
    Parse(version).None? || Compare(version, Target(major, minor)) >= 0
  }

  /** No pre-release comes before `-0`. */
  lemma ZeroIsLeast(p: string)
    requires IsPrerelease(p)
    ensures ComparePrerelease(p, "-0") >= 0
  {
    assert "-0"[1..] == "0" && NextIdent("0") == Token("0", "");
    if p != "" && p != "-0" {
      var x := NextIdent(p[1..]);
      assert p == "-" + x.text + x.rest;
      if x.text == "0" {
        assert x.rest != "";
        assert CompareFields(x.rest, "") == 1;
      } else {
        LeastIdent(x.text);
      }
    }
  }

  lemma LeastIdent(x: string)
    requires x != "" && x != "0" && !IsBadNum(x)
    ensures CompareIdent(x, "0") > 0
  {
    assert IsNum("0");
    if IsNum(x) && |x| == 1 {
      assert IsDigit(x[0]) && x == [x[0]];
    }
  }

  lemma NoMinus(s: string)
    requires |s| > 1 && s[1] == '-'
    ensures Parse(s) == None
  {
    assert s[1..][0] == '-';
  }

  lemma NoMinusMinor(major: string, s: string)
    requires IsNumeral(major) && s != "" && s[0] == '-'
    ensures ParseMinor(major, s) == None
  {
  }

  /** The version the gate compares with is one exactly when neither number is negative. */
  lemma TargetParses(major: int, minor: int)
    ensures Parse(Target(major, minor)) ==
      if major < 0 || minor < 0 then None else Some(Version(Decimal(major), Decimal(minor), "0", "-0"))
  {
    if major < 0 {
      NoMinus(Target(major, minor));
    } else if minor < 0 {
      var rest := Formatted(minor) + "." + "0-0";
      ParseFromMajor(Decimal(major), rest);
      NoMinusMinor(Decimal(major), rest);
    } else {
      ZeroIdentifier();
      FullForm(major, minor, 0, "-0");
      assert Decimal(0) + "-0" == "0-0";
    }
  }

  lemma ZeroIdentifier()
    ensures Decimal(0) == "0" && "-0"[1..] == "0" && Identifiers("0", true)
  {
    assert NextIdent("0") == Token("0", "");
  }

  lemma CompareWithTarget(v: Version, major: nat, minor: nat)
    requires Proper(v)
    ensures CompareVersions(v, Version(Decimal(major), Decimal(minor), "0", "-0")) >= 0 <==>
            Value(v.major) > major || (Value(v.major) == major && Value(v.minor) >= minor)
  {
    DecimalValue(major);
    DecimalValue(minor);
    CompareIntIsNumeric(v.major, Decimal(major));
    CompareIntIsNumeric(v.minor, Decimal(minor));
    NotBelowZero(v.patch);
    ZeroIsLeast(v.prerelease);
  }

  lemma NotBelowZero(patch: string)
    requires IsNumeral(patch)
    ensures CompareInt(patch, "0") >= 0
  {
    ZeroIdentifier();
    DecimalValue(0);
    CompareIntIsNumeric(patch, "0");
  }

  /**
   * The gate looks at major and minor only: pre-releases of the minor pass it, patches and short forms too.
   * A negative bound makes it pass everything.
   */
  lemma GateIsMajorMinor(s: string, major: int, minor: int)
    ensures IsVersionAtLeast(s, major, minor) <==>
      match Parse(s)
      case None => true
      case Some(v) =>
        major < 0 || minor < 0 || Value(v.major) > major || (Value(v.major) == major && Value(v.minor) >= minor)
  {
    TargetParses(major, minor);
    if Parse(s).Some? && major >= 0 && minor >= 0 {
      CompareWithTarget(Parse(s).value, major, minor);
    }
  }

  /** A later version never closes the gate. */
  lemma GateIsMonotone(s: string, t: string, major: int, minor: int)
    ensures Parse(s).Some? && Compare(s, t) <= 0 && IsVersionAtLeast(s, major, minor) ==>
      IsVersionAtLeast(t, major, minor)
  {
    if Parse(s).Some? && Parse(t).Some? {
      GateIsMajorMinor(s, major, minor);
      GateIsMajorMinor(t, major, minor);
      CompareIntIsNumeric(Parse(s).value.major, Parse(t).value.major);
      CompareIntIsNumeric(Parse(s).value.minor, Parse(t).value.minor);
    }
  }

  /** A string that is no version comes before every version and yet passes every gate, so it is the one
      exception: some later version does not pass. */
  lemma NoVersionPasses(s: string, major: nat, minor: nat)
    requires Parse(s).None? && (major, minor) != (0, 0)
    ensures IsVersionAtLeast(s, major, minor)
    ensures Compare(s, "v0") < 0 && !IsVersionAtLeast("v0", major, minor)
  {
    ZeroIdentifier();
    ShortForms(0, 0);
    assert "v" + Decimal(0) == "v0";
    GateIsMajorMinor("v0", major, minor);
    DecimalValue(0);
  }
}
