/** Strings as the routes' JavaScript sees them: whitespace as `String.prototype.trim`
    and the regular-expression class `\s` see it, `split` and `join` on a one-character
    separator, and the decimal text of a non-negative integer in a template literal
    (the `material-<n>`, `user-<n>`, `product-<n>` and `profile-<n>` ids). */
module Text {

  /** WhiteSpace and LineTerminator code points of ECMAScript (ECMA-262, sections
      12.2 and 12.3): what `trim` strips and what `\s` matches. */
  predicate IsSpace(c: char) {
    || c == ' ' || c == '\t' || c == '\n' || c == '\r' || c == '\U{000B}' || c == '\U{000C}'
    || c == '\U{00A0}' || c == '\U{1680}' || ('\U{2000}' <= c <= '\U{200A}')
    || c == '\U{2028}' || c == '\U{2029}' || c == '\U{202F}' || c == '\U{205F}'
    || c == '\U{3000}' || c == '\U{FEFF}'
  }

  /** The characters the regular-expression `.` does not match (no `s` flag). */
  predicate IsLineTerminator(c: char) {
    c == '\n' || c == '\r' || c == '\U{2028}' || c == '\U{2029}'
  }

  /** `\d`: ASCII decimal digits only. */
  predicate IsDigit(c: char) {
    '0' <= c <= '9'
  }

  predicate AllDigits(s: string) {
    forall i :: 0 <= i < |s| ==> IsDigit(s[i])
  }

  predicate IsBlank(s: string) {
    forall i :: 0 <= i < |s| ==> IsSpace(s[i])
  }

  // ---------------------------------------------------------------- trim

  /** A whitespace character in front of a blank string leaves it blank. */
  lemma BlankCons(c: char, a: string)
    requires IsSpace(c) && IsBlank(a)
    ensures IsBlank([c] + a)
  {
    forall i | 0 <= i < |[c] + a| ensures IsSpace(([c] + a)[i]) {
      if i > 0 {
        assert ([c] + a)[i] == a[i - 1];
      }
    }
  }

  /** A whitespace character after a blank string leaves it blank. */
  lemma BlankSnoc(a: string, c: char)
    requires IsBlank(a) && IsSpace(c)
    ensures IsBlank(a + [c])
  {
    forall i | 0 <= i < |a + [c]| ensures IsSpace((a + [c])[i]) {
      if i < |a| {
        assert (a + [c])[i] == a[i];
      }
    }
  }

  /** `String.prototype.trimStart`: drops the leading run of whitespace. */
  function TrimStart(s: string): (r: string)
    ensures |r| <= |s| && r == s[|s| - |r|..]
    ensures IsBlank(s[..|s| - |r|])
    ensures r == [] || !IsSpace(r[0])
  {
    if s != [] && IsSpace(s[0]) then
      var t := s[1..];
      var r := TrimStart(t);
      BlankCons(s[0], t[..|t| - |r|]);
      assert s[..|s| - |r|] == [s[0]] + t[..|t| - |r|];
      r
    else s
  }

  /** `String.prototype.trimEnd`: drops the trailing run of whitespace. */
  function TrimEnd(s: string): (r: string)
    ensures |r| <= |s| && r == s[..|r|]
    ensures IsBlank(s[|r|..])
    ensures r == [] || !IsSpace(r[|r| - 1])
  {
    if s != [] && IsSpace(s[|s| - 1]) then
      var t := s[..|s| - 1];
      var r := TrimEnd(t);
      BlankSnoc(t[|r|..], s[|s| - 1]);
      assert s[|r|..] == t[|r|..] + [s[|s| - 1]];
      r
    else s
  }

  /** `String.prototype.trim`. */
  function Trim(s: string): string {
    TrimEnd(TrimStart(s))
  }

  /** `x.trim().length === 0` holds exactly of the whitespace-only strings. */
  lemma TrimmedEmptyIffBlank(s: string)
    ensures Trim(s) == [] <==> IsBlank(s)
  {
    var t := TrimStart(s);
    if Trim(s) == [] {
      assert t[0..] == t;
      assert s[..|s| - |t|] == s;
    }
  }

  // ---------------------------------------------------------------- split and join

  /** `Array.prototype.join(sep)` of a list of strings. */
  function Join(parts: seq<string>, sep: char): string {
    if |parts| == 0 then []
    else if |parts| == 1 then parts[0]
    else parts[0] + [sep] + Join(parts[1..], sep)
  }

  /** `String.prototype.split(sep)` for a one-character separator: the pieces
      between consecutive separators, empty pieces kept, never an empty list. */
  function Split(s: string, sep: char): (parts: seq<string>)
    ensures |parts| >= 1
    ensures forall i :: 0 <= i < |parts| ==> sep !in parts[i]
  {
    if s == [] then [[]]
    else
      var rest := Split(s[1..], sep);
      if s[0] == sep then [[]] + rest
      else [[s[0]] + rest[0]] + rest[1..]
  }

  /** Splitting a string that starts with a separator-free piece `a`. */
  lemma {:induction false} SplitAfterPrefix(a: string, t: string, sep: char)
    requires sep !in a
    ensures Split(a + t, sep) == [a + Split(t, sep)[0]] + Split(t, sep)[1..]
  {
    if a == [] {
      var parts := Split(t, sep);
      assert a + t == t && a + parts[0] == parts[0];
      assert [parts[0]] + parts[1..] == parts;
    } else {
      assert (a + t)[0] == a[0] && (a + t)[1..] == a[1..] + t;
      SplitAfterPrefix(a[1..], t, sep);
      assert [a[0]] + (a[1..] + Split(t, sep)[0]) == a + Split(t, sep)[0];
    }
  }

  /** `join` then `split` on the same separator gives the list back, provided the
      list is not empty and no element contains the separator. */
  lemma {:induction false} SplitAfterJoin(parts: seq<string>, sep: char)
    requires |parts| >= 1
    requires forall i :: 0 <= i < |parts| ==> sep !in parts[i]
    ensures Split(Join(parts, sep), sep) == parts
  {
    if |parts| == 1 {
      SplitAfterPrefix(parts[0], [], sep);
      assert Split([], sep) == [[]];
      assert parts[0] + [] == parts[0];
    } else {
      var rest := parts[1..];
      SplitAfterJoin(rest, sep);
      var t := [sep] + Join(rest, sep);
      assert t[1..] == Join(rest, sep);
      assert Split(t, sep) == [[]] + rest;
      assert Join(parts, sep) == parts[0] + t;
      SplitAfterPrefix(parts[0], t, sep);
      assert parts[0] + [] == parts[0];
      assert parts == [parts[0]] + rest;
    }
  }

  /** A property every character of every piece has is had by every character
      of the text other than the separator. */
  lemma {:induction false} SplitPiecesCover(s: string, sep: char, keep: char -> bool)
    requires forall j, k :: 0 <= j < |Split(s, sep)| && 0 <= k < |Split(s, sep)[j]| ==> keep(Split(s, sep)[j][k])
    ensures forall i :: 0 <= i < |s| ==> s[i] == sep || keep(s[i])
  {
    if s != [] {
      var parts, rest := Split(s, sep), Split(s[1..], sep);
      if s[0] == sep {
        assert forall j :: 0 <= j < |rest| ==> rest[j] == parts[j + 1];
      } else {
        assert parts[0] == [s[0]] + rest[0];
        assert parts[0][0] == s[0];
        assert forall k :: 0 <= k < |rest[0]| ==> rest[0][k] == parts[0][k + 1];
        assert forall j :: 1 <= j < |rest| ==> rest[j] == parts[j];
      }
      SplitPiecesCover(s[1..], sep, keep);
      assert forall i :: 1 <= i < |s| ==> s[i] == s[1..][i - 1];
    }
  }

  /** `split` then `join` on the same separator gives the string back. */
  lemma {:induction false} JoinAfterSplit(s: string, sep: char)
    ensures Join(Split(s, sep), sep) == s
  {
    if s != [] {
      var rest := Split(s[1..], sep);
      JoinAfterSplit(s[1..], sep);
      if s[0] == sep {
        assert ([[]] + rest)[1..] == rest;
        assert s == [s[0]] + s[1..];
      } else {
        var parts := [[s[0]] + rest[0]] + rest[1..];
        if |rest| == 1 {
          assert s == [s[0]] + s[1..];
        } else {
          assert parts[1..] == rest[1..];
          assert Join(rest, sep) == rest[0] + [sep] + Join(rest[1..], sep);
          assert s == [s[0]] + s[1..];
        }
      }
    }
  }

  /** The last piece of a split is whatever follows the last separator. */
  lemma {:induction false} SplitLastPiece(a: string, b: string, sep: char)
    requires sep !in b
    ensures |Split(a + [sep] + b, sep)| >= 2
    ensures Split(a + [sep] + b, sep)[|Split(a + [sep] + b, sep)| - 1] == b
  {
    var s := a + [sep] + b;
    if a == [] {
      assert s[1..] == b + [];
      SplitAfterPrefix(b, [], sep);
    } else {
      assert s[1..] == a[1..] + [sep] + b;
      SplitLastPiece(a[1..], b, sep);
    }
  }

  /** The empty list is where the round trip breaks: `[].join(',')` is the empty
      string, and `''.split(',')` is a list of one empty string. */
  lemma SplitOfEmptyJoin(sep: char)
    ensures Join([], sep) == [] && Split(Join([], sep), sep) == [[]]
  {
  }

  // ---------------------------------------------------------------- decimal ids

  function DigitChar(d: nat): (c: char)
    requires d < 10
    ensures IsDigit(c)
  {
    ('0' as int + d) as char
  }

  function DigitValue(c: char): (d: nat)
    requires IsDigit(c)
    ensures d < 10 && DigitChar(d) == c
  {
    c as int - '0' as int
  }

  /** `${n}` for a non-negative integer: its decimal digits, no leading zero. */
  function NatToDecimal(n: nat): (r: string)
    ensures r != [] && AllDigits(r)
    ensures r[0] == '0' ==> n == 0
  {
    if n < 10 then [DigitChar(n)]
    else NatToDecimal(n / 10) + [DigitChar(n % 10)]
  }

  /** The number a string of decimal digits denotes. */
  function DecimalValue(s: string): nat
    requires AllDigits(s)
  {
    if s == [] then 0
    else DecimalValue(s[..|s| - 1]) * 10 + DigitValue(s[|s| - 1])
  }

  lemma {:induction false} DecimalRoundTrip(n: nat)
    ensures DecimalValue(NatToDecimal(n)) == n
  {
    var r := NatToDecimal(n);
    if n < 10 {
      assert r[..|r| - 1] == [];
    } else {
      DecimalRoundTrip(n / 10);
      assert r[..|r| - 1] == NatToDecimal(n / 10);
      assert DigitValue(r[|r| - 1]) == n % 10;
    }
  }

  /** The rendered id of a row: `<prefix>-<n>`, as in `material-${id}`. */
  function FormatId(prefix: string, n: nat): string {
    prefix + "-" + NatToDecimal(n)
  }

  /** Distinct rows get distinct rendered ids under the same prefix. */
  lemma FormatIdInjective(prefix: string, a: nat, b: nat)
    requires FormatId(prefix, a) == FormatId(prefix, b)
    ensures a == b
  {
    var k := |prefix| + 1;
    assert NatToDecimal(a) == FormatId(prefix, a)[k..];
    assert NatToDecimal(b) == FormatId(prefix, b)[k..];
    DecimalRoundTrip(a);
    DecimalRoundTrip(b);
  }

  /** `${x}` of a nullable integer column: SQL NULL reads as "null". */
  function NullableDecimal(x: Option<nat>): string {
    if x.Some? then NatToDecimal(x.value) else "null"
  }

  /** A possibly-absent value: SQL NULL, an absent body field or upload. */
  datatype Option<+T> = None | Some(value: T)

  // ---------------------------------------------------------------- case

  /** Lower-casing of one character, restricted to ASCII letters. */
  function LowerChar(c: char): char {
    if 'A' <= c <= 'Z' then (c as int + 32) as char else c
  }

  /** `String.prototype.toLowerCase`, restricted to ASCII letters. */
  function ToLower(s: string): (r: string)
  {
    seq(|s|, i requires 0 <= i < |s| => LowerChar(s[i]))
  }

  /** No upper-case ASCII letter: the text `toLowerCase` leaves alone. */
  predicate NoUpper(s: string) {
    forall i :: 0 <= i < |s| ==> !('A' <= s[i] <= 'Z')
  }

  /** Lower-casing leaves a text unchanged exactly when it has no upper-case
      letter. */
  lemma LowerCaseFixed(s: string)
    ensures ToLower(s) == s <==> NoUpper(s)
  {
    if ToLower(s) == s {
      forall i | 0 <= i < |s|
        ensures !('A' <= s[i] <= 'Z')
      {
        assert ToLower(s)[i] == LowerChar(s[i]);
      }
    }
  }

  /** Lower-cased text has no upper-case letter left, so lower-casing twice
      is lower-casing once. */
  lemma ToLowerIdempotent(s: string)
    ensures NoUpper(ToLower(s))
    ensures ToLower(ToLower(s)) == ToLower(s)
  {
    LowerCaseFixed(ToLower(s));
  }

  /** Lower-casing works character by character, so it distributes over
      concatenation. */
  lemma ToLowerAppend(a: string, b: string)
    ensures ToLower(a + b) == ToLower(a) + ToLower(b)
  {
    assert forall i :: 0 <= i < |a + b| ==> ToLower(a + b)[i] == (ToLower(a) + ToLower(b))[i];
  }
}
