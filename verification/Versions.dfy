/** Registry version strings: `_bump_minor`, `_version_sort_key` and Python's `int()`/`str()`. */
module Versions {
  import opened Wrappers
  import opened Text

  predicate IsDigit(c: char) { '0' <= c <= '9' }

  function DigitValue(c: char): (n: nat)
    requires IsDigit(c)
  {
    c as int - '0' as int
  }

  function DigitChar(n: nat): (c: char)
    requires n < 10
    ensures IsDigit(c) && DigitValue(c) == n
  {
    ('0' as int + n) as char
  }

  /** The digit strings `int()` takes: digits with single underscores between them. */
  predicate IsDigits(s: string) {
    && |s| > 0
    && (forall i :: 0 <= i < |s| ==> IsDigit(s[i]) || s[i] == '_')
    && IsDigit(s[0]) && IsDigit(s[|s| - 1])
    && (forall i :: 0 <= i < |s| - 1 ==> IsDigit(s[i]) || IsDigit(s[i + 1]))
  }

  function DigitsValue(s: string): nat
    requires forall i :: 0 <= i < |s| ==> IsDigit(s[i]) || s[i] == '_'
  {
    if s == "" then 0
    else
      var last := s[|s| - 1];
      if last == '_' then DigitsValue(s[..|s| - 1])
      else DigitsValue(s[..|s| - 1]) * 10 + DigitValue(last)
  }

  /** `int(s)`: None stands for ValueError. */
  function ParseInt(s: string): Option<int> {
    var t := Strip(s);
    if t != "" && t[0] == '-' then
      if IsDigits(t[1..]) then Some(-(DigitsValue(t[1..]) as int)) else None
    else if t != "" && t[0] == '+' then
      if IsDigits(t[1..]) then Some(DigitsValue(t[1..])) else None
    else if IsDigits(t) then Some(DigitsValue(t))
    else None
  }

  function PrintNat(n: nat): (s: string)
    ensures |s| > 0 && forall i :: 0 <= i < |s| ==> IsDigit(s[i])
  {
    if n < 10 then [DigitChar(n)] else PrintNat(n / 10) + [DigitChar(n % 10)]
  }

  /** `str(n)`. */
  function PrintInt(n: int): string {
    if n < 0 then "-" + PrintNat(-n) else PrintNat(n)
  }

  lemma {:induction false} PrintNatValue(n: nat)
    ensures DigitsValue(PrintNat(n)) == n
  {
    if n >= 10 {
      PrintNatValue(n / 10);
      var s := PrintNat(n);
      assert s[..|s| - 1] == PrintNat(n / 10);
    }
  }

  /** Parsing undoes printing, for every integer. */
  lemma ParsePrint(n: int)
    ensures ParseInt(PrintInt(n)) == Some(n)
  {
    var digits := PrintNat(if n < 0 then -n else n);
    PrintNatValue(if n < 0 then -n else n);
    var s := PrintInt(n);
    assert !IsSpace(s[0]) && !IsSpace(s[|s| - 1]);
    assert Strip(s) == s;
    if n < 0 {
      assert s[1..] == digits;
    }
  }

  /** A plus sign is read over. */
  lemma ParsePlus(n: nat)
    ensures ParseInt("+" + PrintInt(n)) == Some(n)
  {
    hide PrintNat;
    var digits := PrintNat(n);
    PrintNatValue(n);
    var t := "+" + digits;
    assert t[1..] == digits && !IsSpace(t[0]) && !IsSpace(t[|t| - 1]);
    assert Strip(t) == t;
  }

  lemma DottedIsNotAnInt(s: string)
    requires '.' in s
    ensures ParseInt(s) == None
  {
    StripKeeps(s, '.');
    var t := Strip(s);
    var i :| 0 <= i < |t| && t[i] == '.';
    assert i > 0 ==> t[1..][i - 1] == '.';
  }

  lemma EmptyIsNotAnInt()
    ensures ParseInt("") == None
  {
  }

  lemma PrintIntHasNoDot(n: int)
    ensures '.' !in PrintInt(n)
  {
  }

  /** Index of the first `sep`, or |s|. */
  function IndexOf(s: string, sep: char): (i: nat)
    ensures i <= |s| && sep !in s[..i]
    ensures i < |s| ==> s[i] == sep
  {
    if s == "" then 0
    else if s[0] == sep then 0
    else
      var j := IndexOf(s[1..], sep);
      assert s[..j + 1] == [s[0]] + s[1..][..j];
      j + 1
  }

  /** The part of `s` after its first `sep`, or "" (the last part of `s.partition(sep)`). */
  function AfterFirst(s: string, sep: char): (rest: string)
    ensures sep in rest ==> sep in s
    ensures IndexOf(s, sep) < |s| ==> s == s[..IndexOf(s, sep)] + [sep] + rest
    ensures IndexOf(s, sep) == |s| ==> rest == ""
  {
    var i := IndexOf(s, sep);
    if i < |s| then
      assert s == s[..i] + [sep] + s[i + 1..];
      s[i + 1..]
    else ""
  }

  /** `_bump_minor`: None stands for the raised ProposalApplyError. */
  function BumpMinor(version: string): Option<string> {
    match ParseInt(AfterFirst(version, '.'))
    case None => None
    case Some(n) => Some(version[..IndexOf(version, '.')] + "." + PrintInt(n + 1))
  }

  function SegmentKey(segment: string): int {
    ParseInt(segment).GetOr(0)
  }

  /** `_version_sort_key`: one integer per dot segment, 0 where a segment is no number. */
  function SortKey(version: string): (key: seq<int>) {
    var parts := Split(version, '.');
    seq(|parts|, i requires 0 <= i < |parts| => SegmentKey(parts[i]))
  }

  /** Tuple order: lexicographic, a proper prefix comes first. */
  predicate KeyLess(a: seq<int>, b: seq<int>) {
    if b == [] then false
    else if a == [] then true
    else a[0] < b[0] || (a[0] == b[0] && KeyLess(a[1..], b[1..]))
  }

  /** A key has one integer for each dot-separated part, 0 for a part that is no number. */
  lemma SortKeyIs(parts: seq<string>)
    requires parts != [] && forall p :: p in parts ==> '.' !in p
    ensures
      var key := SortKey(Join(parts, '.'));
      && |key| == |parts|
      && forall i :: 0 <= i < |parts| ==>
           key[i] == match ParseInt(parts[i]) case Some(n) => n case None => 0
  {
    SplitJoin(parts, '.');
  }

  /** Equal up to a place where `b` is larger, or goes on when `a` has ended. */
  lemma {:induction false} KeyLessIff(a: seq<int>, b: seq<int>)
    ensures KeyLess(a, b) <==>
            exists k :: 0 <= k <= |a| && k < |b| && a[..k] == b[..k] && (k == |a| || a[k] < b[k])
  {
    if a != [] && b != [] {
      KeyLessIff(a[1..], b[1..]);
      if a[0] < b[0] { assert a[..0] == b[..0]; }
      if a[0] == b[0] && KeyLess(a[1..], b[1..]) {
        var k :| 0 <= k <= |a| - 1 && k < |b| - 1 && a[1..][..k] == b[1..][..k] && (k == |a| - 1 || a[1..][k] < b[1..][k]);
        assert a[..k + 1] == [a[0]] + a[1..][..k] && b[..k + 1] == [b[0]] + b[1..][..k];
        assert k + 1 == |a| || a[k + 1] < b[k + 1];
      }
      if k :| 0 <= k <= |a| && k < |b| && a[..k] == b[..k] && (k == |a| || a[k] < b[k]) {
        if k > 0 {
          assert a[0] == a[..k][0] == b[..k][0];
          assert a[1..][..k - 1] == a[..k][1..] == b[..k][1..] == b[1..][..k - 1];
        }
      }
    } else if b != [] {
      assert a[..0] == b[..0];
    }
  }

  lemma {:induction false} KeyLessTransitive(a: seq<int>, b: seq<int>, c: seq<int>)
    requires KeyLess(a, b) && KeyLess(b, c)
    ensures KeyLess(a, c)
  {
    if a != [] && a[0] == b[0] == c[0] {
      KeyLessTransitive(a[1..], b[1..], c[1..]);
    }
  }

  /** A version that can be bumped is exactly "major.minor" with a numeric minor. */
  lemma BumpShape(version: string) returns (major: string, minor: string, n: int)
    requires BumpMinor(version).Some?
    ensures version == major + "." + minor && ParseInt(minor) == Some(n)
    ensures '.' !in major && '.' !in minor
    ensures BumpMinor(version) == Some(major + "." + PrintInt(n + 1))
  {
    minor := AfterFirst(version, '.');
    major := version[..IndexOf(version, '.')];
    EmptyIsNotAnInt();
    if '.' in minor {
      DottedIsNotAnInt(minor);
    }
    n := ParseInt(minor).value;
  }

  lemma TwoSegmentKey(major: string, minor: string)
    requires '.' !in major && '.' !in minor
    ensures SortKey(major + "." + minor) == [SegmentKey(major), SegmentKey(minor)]
  {
    SplitAtSep(major, '.', minor);
    SplitWithoutSep(minor, '.');
    assert major + "." + minor == major + ['.'] + minor;
  }

  /** A successful bump is strictly newer, so "0.9" is followed by "0.10" and not passed by it. */
  lemma BumpIncreases(version: string)
    requires BumpMinor(version).Some?
    ensures KeyLess(SortKey(version), SortKey(BumpMinor(version).value))
    ensures BumpMinor(BumpMinor(version).value).Some?
  {
    var major, minor, n := BumpShape(version);
    var next := PrintInt(n + 1);
    ParsePrint(n + 1);
    PrintIntHasNoDot(n + 1);
    TwoSegmentKey(major, minor);
    TwoSegmentKey(major, next);
    assert KeyLess([SegmentKey(minor)], [SegmentKey(next)]);
    assert [SegmentKey(major), SegmentKey(minor)][1..] == [SegmentKey(minor)];
    assert [SegmentKey(major), SegmentKey(next)][1..] == [SegmentKey(next)];
    var bumped := major + "." + next;
    SplitAtSep(major, '.', next);
    FirstSep(major, '.', next);
  }

  lemma {:induction false} FirstSep(head: string, sep: char, rest: string)
    requires sep !in head
    ensures IndexOf(head + [sep] + rest, sep) == |head|
    ensures AfterFirst(head + [sep] + rest, sep) == rest
    ensures (head + [sep] + rest)[..|head|] == head
  {
    if head == "" {
      assert "" + [sep] + rest == [sep] + rest;
    } else {
      assert head[0] in head && forall c :: c in head[1..] ==> c in head;
      FirstSep(head[1..], sep, rest);
      assert (head + [sep] + rest)[1..] == head[1..] + [sep] + rest;
    }
  }

  /** The version of a profile's k-th bump after seeding. */
  function VersionAt(k: nat): string {
    "0." + PrintInt(k + 1)
  }

  lemma VersionAtBumps(k: nat)
    ensures BumpMinor(VersionAt(k)) == Some(VersionAt(k + 1))
    ensures VersionAt(0) == "0.1"
  {
    FirstSep("0", '.', PrintInt(k + 1));
    ParsePrint(k + 1);
    assert VersionAt(k) == "0" + "." + PrintInt(k + 1);
    assert "0" + "." + PrintInt(k + 2) == VersionAt(k + 1);
  }

  lemma VersionAtInjective(j: nat, k: nat)
    requires VersionAt(j) == VersionAt(k)
    ensures j == k
  {
    hide PrintInt, ParseInt;
    assert VersionAt(j)[2..] == PrintInt(j + 1);
    assert VersionAt(k)[2..] == PrintInt(k + 1);
    ParsePrint(j + 1);
    ParsePrint(k + 1);
  }
}
