/**
 * The JavaScript string and number built-ins that the bot's core relies on,
 * stated as functions over `seq<char>`: `String.prototype.split` with a
 * non-empty separator, `Array.prototype.join`, `toLowerCase` (ASCII letters),
 * `parseInt` and the decimal rendering of an integer in a template literal.
 */
module JsText {
  import opened Wrappers

  // ---------------------------------------------------------------------------
  // join and split
  // ---------------------------------------------------------------------------

  /** `parts.join(sep)`: the parts with `sep` between consecutive elements. */
  function Join(parts: seq<string>, sep: string): string
  {
    if |parts| == 0 then ""
    else if |parts| == 1 then parts[0]
    else parts[0] + sep + Join(parts[1..], sep)
  }

  /** Joining two non-empty lists puts exactly one separator between their joins. */
  lemma {:induction false} JoinAppend(a: seq<string>, b: seq<string>, sep: string)
    requires |a| > 0 && |b| > 0
    ensures Join(a + b, sep) == Join(a, sep) + sep + Join(b, sep)
  {
    if |a| == 1 {
      assert a + b == [a[0]] + b;
      assert (a + b)[1..] == b;
    } else {
      assert (a + b)[1..] == a[1..] + b;
      JoinAppend(a[1..], b, sep);
    }
  }

  /** Appending one part to a non-empty list adds one separator and that part. */
  lemma JoinSnoc(a: seq<string>, x: string, sep: string)
    requires |a| > 0
    ensures Join(a + [x], sep) == Join(a, sep) + sep + x
  {
    JoinAppend(a, [x], sep);
  }

  /** The length of a join is the sum of the parts plus one separator per gap. */
  function TotalLength(parts: seq<string>): nat
  {
    if parts == [] then 0 else |parts[0]| + TotalLength(parts[1..])
  }

  lemma {:induction false} JoinLength(parts: seq<string>, sep: string)
    requires |parts| > 0
    ensures |Join(parts, sep)| == TotalLength(parts) + (|parts| - 1) * |sep|
  {
    if |parts| > 1 {
      JoinLength(parts[1..], sep);
    }
  }

  /** `sep` occurs in `s` starting at index `i`. */
  predicate OccursAt(s: string, sep: string, i: int)
  {
    0 <= i && i + |sep| <= |s| && s[i..i + |sep|] == sep
  }

  /** `sep` occurs somewhere in `s`. */
  predicate Contains(s: string, sep: string)
  {
    exists i :: 0 <= i <= |s| && OccursAt(s, sep, i)
  }

  /** `s.indexOf(sep)`: the first index at which `sep` occurs, if any. */
  function IndexOf(s: string, sep: string): (r: Option<nat>)
    requires |sep| > 0
    ensures r.Some? ==> OccursAt(s, sep, r.value)
    ensures r.Some? ==> forall j :: 0 <= j < r.value ==> !OccursAt(s, sep, j)
    ensures r.None? <==> !Contains(s, sep)
    decreases |s|
  {
    if |s| < |sep| then None
    else if s[..|sep|] == sep then Some(0)
    else
      var rest := IndexOf(s[1..], sep);
      ShiftOccurrence(s, sep);
      assert !OccursAt(s, sep, 0);
      match rest
      case None =>
        assert forall j :: 0 <= j <= |s| ==> !OccursAt(s, sep, j) by {
          forall j | 0 <= j <= |s| ensures !OccursAt(s, sep, j) {
            if j > 0 { assert !OccursAt(s[1..], sep, j - 1); }
          }
        }
        None
      case Some(i) =>
        assert forall j :: 0 <= j < i + 1 ==> !OccursAt(s, sep, j) by {
          forall j | 0 <= j < i + 1 ensures !OccursAt(s, sep, j) {
            if j > 0 { assert !OccursAt(s[1..], sep, j - 1); }
          }
        }
        Some(i + 1)
  }

  /** An occurrence in `s[1..]` is an occurrence in `s` one position later. */
  lemma ShiftOccurrence(s: string, sep: string)
    requires |s| > 0
    ensures forall j :: 0 <= j ==> (OccursAt(s[1..], sep, j) <==> OccursAt(s, sep, j + 1))
  {
    forall j | 0 <= j
      ensures OccursAt(s[1..], sep, j) <==> OccursAt(s, sep, j + 1)
    {
      if j + |sep| <= |s| - 1 {
        assert s[1..][j..j + |sep|] == s[j + 1..j + 1 + |sep|];
      }
    }
  }

  /** `s.split(sep)` for a non-empty separator: the pieces between the
   *  non-overlapping occurrences of `sep`, found from left to right. */
  function Split(s: string, sep: string): (pieces: seq<string>)
    requires |sep| > 0
    ensures |pieces| >= 1
    decreases |s|
  {
    match IndexOf(s, sep)
    case None => [s]
    case Some(i) => [s[..i]] + Split(s[i + |sep|..], sep)
  }

  /** Splitting and re-joining with the same separator gives back the text. */
  lemma {:induction false} JoinSplit(s: string, sep: string)
    requires |sep| > 0
    ensures Join(Split(s, sep), sep) == s
    decreases |s|
  {
    match IndexOf(s, sep)
    case None =>
    case Some(i) =>
      var rest := s[i + |sep|..];
      var pieces := Split(s, sep);
      JoinSplit(rest, sep);
      assert pieces == [s[..i]] + Split(rest, sep);
      assert pieces[1..] == Split(rest, sep);
      assert Join(pieces, sep) == s[..i] + sep + Join(Split(rest, sep), sep);
      assert s[i..i + |sep|] == sep;
      assert s == s[..i] + sep + rest;
  }

  /** A text without the separator is a single piece. */
  lemma SplitWithoutSeparator(s: string, sep: string)
    requires |sep| > 0 && !Contains(s, sep)
    ensures Split(s, sep) == [s]
  {
  }

  /** A separator whose first character is absent from `s[..n]` does not
   *  occur before index `n`. */
  lemma NoOccurrenceBefore(s: string, sep: string, n: nat)
    requires |sep| > 0 && n <= |s| && sep[0] !in s[..n]
    ensures forall j :: 0 <= j < n ==> !OccursAt(s, sep, j)
  {
    forall j | 0 <= j < n ensures !OccursAt(s, sep, j) {
      assert s[..n][j] == s[j];
      if j + |sep| <= |s| {
        assert s[j..j + |sep|][0] == s[j];
      }
    }
  }

  /** The first occurrence is found at the index where it starts. */
  lemma IndexOfFirst(s: string, sep: string, i: nat)
    requires |sep| > 0 && OccursAt(s, sep, i)
    requires forall j :: 0 <= j < i ==> !OccursAt(s, sep, j)
    ensures IndexOf(s, sep) == Some(i)
  {
    assert Contains(s, sep) by {
      assert i <= |s| && OccursAt(s, sep, i);
    }
  }

  /** Splitting at an occurrence with no earlier start of the separator. */
  lemma SplitAtFirst(s: string, sep: string, i: nat)
    requires |sep| > 0 && OccursAt(s, sep, i) && sep[0] !in s[..i]
    ensures Split(s, sep) == [s[..i]] + Split(s[i + |sep|..], sep)
  {
    NoOccurrenceBefore(s, sep, i);
    IndexOfFirst(s, sep, i);
  }

  /** A text without the separator's first character is a single piece. */
  lemma SplitWithoutFirstChar(s: string, sep: string)
    requires |sep| > 0 && sep[0] !in s
    ensures Split(s, sep) == [s]
  {
    assert s[..|s|] == s;
    NoOccurrenceBefore(s, sep, |s|);
    SplitWithoutSeparator(s, sep);
  }

  /** Two pieces around one separator split back into those pieces. */
  lemma SplitPair(a: string, b: string, sep: string)
    requires |sep| > 0 && sep[0] !in a && sep[0] !in b
    ensures Split(a + sep + b, sep) == [a, b]
  {
    var s := a + sep + b;
    assert s[..|a|] == a;
    assert s[|a|..|a| + |sep|] == sep;
    assert s[|a| + |sep|..] == b;
    SplitAtFirst(s, sep, |a|);
    SplitWithoutFirstChar(b, sep);
  }

  /** Every piece of a split is no longer than the text itself. */
  lemma {:induction false} SplitPiecesShorter(s: string, sep: string)
    requires |sep| > 0
    ensures forall k :: 0 <= k < |Split(s, sep)| ==> |Split(s, sep)[k]| <= |s|
    decreases |s|
  {
    match IndexOf(s, sep)
    case None =>
    case Some(i) =>
      SplitPiecesShorter(s[i + |sep|..], sep);
  }

  /** `s.endsWith(suffix)`. */
  predicate EndsWith(s: string, suffix: string)
  {
    |suffix| <= |s| && s[|s| - |suffix|..] == suffix
  }

  /** `xs.slice(0, n)`, and `s.substring(0, n)` on strings, for `n >= 0`:
   *  indexes past the end are clamped. */
  function Take<T>(xs: seq<T>, n: nat): (r: seq<T>)
    ensures |r| == if n <= |xs| then n else |xs|
    ensures r <= xs
  {
    if n <= |xs| then xs[..n] else xs
  }

  // ---------------------------------------------------------------------------
  // toLowerCase
  // ---------------------------------------------------------------------------

  /** Lower-cases an ASCII capital letter and leaves every other character alone. */
  function LowerChar(c: char): char
  {
    if 'A' <= c <= 'Z' then (c as int + 32) as char else c
  }

  /** `s.toLowerCase()`, restricted to the ASCII letters. */
  function ToLowerCase(s: string): (r: string)
    ensures |r| == |s|
    decreases |s|
  {
    if s == [] then [] else [LowerChar(s[0])] + ToLowerCase(s[1..])
  }

  /** Lower-casing is idempotent. */
  lemma {:induction false} ToLowerCaseIdempotent(s: string)
    ensures ToLowerCase(ToLowerCase(s)) == ToLowerCase(s)
    decreases |s|
  {
    if s != [] {
      var t := ToLowerCase(s);
      assert t[0] == LowerChar(s[0]) && t[1..] == ToLowerCase(s[1..]);
      ToLowerCaseIdempotent(s[1..]);
    }
  }

  /** A lower-cased text has no ASCII capital letter. */
  predicate IsLower(s: string)
  {
    forall i :: 0 <= i < |s| ==> !('A' <= s[i] <= 'Z')
  }

  lemma {:induction false} ToLowerCaseIsLower(s: string)
    ensures IsLower(ToLowerCase(s))
    decreases |s|
  {
    if s != [] {
      ToLowerCaseIsLower(s[1..]);
      var t := ToLowerCase(s);
      assert t == [LowerChar(s[0])] + ToLowerCase(s[1..]);
      forall i | 0 <= i < |t| ensures !('A' <= t[i] <= 'Z') {
        if i > 0 { assert t[i] == ToLowerCase(s[1..])[i - 1]; }
      }
    }
  }

  /** Lower-casing leaves an already lower-case text unchanged. */
  lemma {:induction false} ToLowerCaseOfLower(s: string)
    requires IsLower(s)
    ensures ToLowerCase(s) == s
    decreases |s|
  {
    if s != [] {
      assert IsLower(s[1..]) by {
        forall i | 0 <= i < |s[1..]| ensures !('A' <= s[1..][i] <= 'Z') {
          assert s[1..][i] == s[i + 1];
        }
      }
      ToLowerCaseOfLower(s[1..]);
      assert s == [s[0]] + s[1..];
    }
  }

  // ---------------------------------------------------------------------------
  // parseInt and number rendering
  // ---------------------------------------------------------------------------

  /** The result of `parseInt`: an integer, or `NaN` when no digit was read. */
  datatype ParsedInt = Int(value: int) | NaN {
    /** JavaScript truthiness of the number: `NaN` and `0` are falsy. */
    predicate Truthy() {
      Int? && value != 0
    }
  }

  /** How `parseInt` chooses its base: no radix argument (decimal, or
   *  hexadecimal after a `0x` prefix), or an explicit radix of 16. */
  datatype Radix = Auto | Hex

  /** The white space that `parseInt` skips before the number. */
  predicate IsJsWhitespace(c: char)
  {
    c == ' ' || c == '\t' || c == '\n' || c == '\r' || c == '\U{000B}' || c == '\U{000C}'
    || c == '\U{00A0}' || c == '\U{1680}' || ('\U{2000}' <= c <= '\U{200A}')
    || c == '\U{2028}' || c == '\U{2029}' || c == '\U{202F}' || c == '\U{205F}'
    || c == '\U{3000}' || c == '\U{FEFF}'
  }

  function TrimStart(s: string): (r: string)
    ensures |r| <= |s|
    decreases |s|
  {
    if s != [] && IsJsWhitespace(s[0]) then TrimStart(s[1..]) else s
  }

  /** The two bases the bot's numbers are read and written in. */
  datatype Base = Decimal | Hexadecimal {
    function Size(): nat {
      match this
      case Decimal => 10
      case Hexadecimal => 16
    }
    /** `n * Size()`, written out per base so that it stays linear arithmetic. */
    function Times(n: nat): (r: nat)
      ensures r == n * Size()
    {
      match this
      case Decimal => n * 10
      case Hexadecimal => n * 16
    }
    function Quot(n: nat): (r: nat)
      ensures r == n / Size()
    {
      match this
      case Decimal => n / 10
      case Hexadecimal => n / 16
    }
    function Rem(n: nat): (r: nat)
      ensures r == n % Size()
    {
      match this
      case Decimal => n % 10
      case Hexadecimal => n % 16
    }
  }

  /** The value of `c` as a digit of base `b`, if it is one. */
  function DigitValue(c: char, b: Base): Option<nat>
  {
    var d :=
      if '0' <= c <= '9' then c as int - '0' as int
      else if 'a' <= c <= 'z' then c as int - 'a' as int + 10
      else if 'A' <= c <= 'Z' then c as int - 'A' as int + 10
      else 36;
    if d < b.Size() then Some(d) else None
  }

  /** The length of the longest prefix of `s` made of base-`b` digits. */
  function DigitRun(s: string, b: Base): (n: nat)
    ensures n <= |s|
    decreases |s|
  {
    if s != [] && DigitValue(s[0], b).Some? then 1 + DigitRun(s[1..], b) else 0
  }

  /** The value of a string of base-`b` digits, most significant first. */
  function DigitsValue(ds: string, b: Base): nat
    decreases |ds|
  {
    if ds == [] then 0
    else b.Times(DigitsValue(ds[..|ds| - 1], b)) + DigitValue(ds[|ds| - 1], b).GetOr(0)
  }

  /** `parseInt(s)` (radix Auto) or `parseInt(s, 16)` (radix Hex). */
  function ParseInt(s: string, radix: Radix): ParsedInt
  {
    var t := TrimStart(s);
    var negative := |t| > 0 && t[0] == '-';
    var unsigned := if |t| > 0 && (t[0] == '-' || t[0] == '+') then t[1..] else t;
    var hexPrefix := |unsigned| >= 2 && unsigned[0] == '0' && (unsigned[1] == 'x' || unsigned[1] == 'X');
    var body := if hexPrefix then unsigned[2..] else unsigned;
    var base := if hexPrefix || radix == Hex then Hexadecimal else Decimal;
    var n := DigitRun(body, base);
    if n == 0 then NaN
    else
      var magnitude: int := DigitsValue(body[..n], base);
      Int(if negative then -magnitude else magnitude)
  }

  /** The digit character for `d < 16`, in lower case. */
  function DigitChar(d: nat): char
    requires d < 16
  {
    if d < 10 then ('0' as int + d) as char else ('a' as int + d - 10) as char
  }

  /** The base-`b` digits of `n`, most significant first, no leading zeros. */
  function Digits(n: nat, b: Base): (ds: string)
    ensures |ds| >= 1
    decreases n
  {
    if n < b.Size() then [DigitChar(n)] else Digits(b.Quot(n), b) + [DigitChar(b.Rem(n))]
  }

  /** `${n}` for an integer `n`. */
  function IntToString(n: int): string
  {
    if n < 0 then "-" + Digits(-n, Decimal) else Digits(n, Decimal)
  }

  /** `n.toString(16)` for a non-negative integer `n`. */
  function HexString(n: nat): string
  {
    Digits(n, Hexadecimal)
  }

  lemma DigitCharValue(d: nat, b: Base)
    requires d < b.Size()
    ensures DigitValue(DigitChar(d), b) == Some(d)
  {
  }

  /** Every character of `Digits(n, b)` is a base-`b` digit. */
  lemma {:induction false} DigitsAreDigits(n: nat, b: Base)
    ensures forall i :: 0 <= i < |Digits(n, b)| ==> DigitValue(Digits(n, b)[i], b).Some?
    decreases n
  {
    var ds := Digits(n, b);
    if n < b.Size() {
      DigitCharValue(n, b);
    } else {
      var hi := Digits(b.Quot(n), b);
      DigitsAreDigits(b.Quot(n), b);
      DigitCharValue(b.Rem(n), b);
      assert ds == hi + [DigitChar(b.Rem(n))];
      forall i | 0 <= i < |ds| ensures DigitValue(ds[i], b).Some? {
        if i < |hi| { assert ds[i] == hi[i]; }
      }
    }
  }

  /** Appending a digit multiplies the value read so far by the base. */
  lemma DigitsValueSnoc(xs: string, c: char, b: Base)
    ensures DigitsValue(xs + [c], b) == b.Times(DigitsValue(xs, b)) + DigitValue(c, b).GetOr(0)
  {
    assert (xs + [c])[..|xs|] == xs;
  }

  /** Reading back the digits of `n` gives `n`. */
  lemma {:induction false} DigitsRoundTrip(n: nat, b: Base)
    ensures DigitsValue(Digits(n, b), b) == n
    decreases n
  {
    if n < b.Size() {
      DigitCharValue(n, b);
      DigitsValueSnoc([], DigitChar(n), b);
      assert [] + [DigitChar(n)] == Digits(n, b);
    } else {
      var q, r := b.Quot(n), b.Rem(n);
      var hi := Digits(q, b);
      assert Digits(n, b) == hi + [DigitChar(r)];
      DigitsRoundTrip(q, b);
      DigitCharValue(r, b);
      DigitsValueSnoc(hi, DigitChar(r), b);
    }
  }

  /** A string made only of digits is read to its end. */
  lemma {:induction false} DigitRunAll(s: string, b: Base)
    requires forall i :: 0 <= i < |s| ==> DigitValue(s[i], b).Some?
    ensures DigitRun(s, b) == |s|
    decreases |s|
  {
    if s != [] {
      assert forall i :: 0 <= i < |s[1..]| ==> s[1..][i] == s[i + 1];
      DigitRunAll(s[1..], b);
    }
  }

  /** A non-empty run of base-`b` digits, read with the radix that selects `b`. */
  ghost predicate DigitString(ds: string, radix: Radix, b: Base)
  {
    && b == (if radix == Hex then Hexadecimal else Decimal)
    && |ds| > 0
    && forall i :: 0 <= i < |ds| ==> DigitValue(ds[i], b).Some?
  }

  lemma ParseIntUnsigned(ds: string, radix: Radix, b: Base)
    requires DigitString(ds, radix, b)
    ensures ParseInt(ds, radix) == Int(DigitsValue(ds, b))
  {
    assert DigitValue(ds[0], b).Some?;
    assert TrimStart(ds) == ds;
    assert !(ds[0] == '-' || ds[0] == '+');
    assert |ds| >= 2 ==> DigitValue(ds[1], b).Some?;
    DigitRunAll(ds, b);
    assert ds[..|ds|] == ds;
  }

  lemma ParseIntNegative(ds: string, radix: Radix, b: Base)
    requires DigitString(ds, radix, b)
    ensures ParseInt("-" + ds, radix) == Int(-(DigitsValue(ds, b) as int))
  {
    var s := "-" + ds;
    assert TrimStart(s) == s;
    assert s[1..] == ds;
    assert DigitValue(ds[0], b).Some?;
    assert |ds| >= 2 ==> DigitValue(ds[1], b).Some?;
    DigitRunAll(ds, b);
    assert ds[..|ds|] == ds;
  }

  /** `parseInt` reads back what a template literal renders. */
  lemma IntToStringRoundTrip(n: int)
    ensures ParseInt(IntToString(n), Auto) == Int(n)
  {
    var m: nat := if n < 0 then -n else n;
    DigitsAreDigits(m, Decimal);
    DigitsRoundTrip(m, Decimal);
    if n < 0 {
      ParseIntNegative(Digits(m, Decimal), Auto, Decimal);
    } else {
      ParseIntUnsigned(Digits(m, Decimal), Auto, Decimal);
    }
  }

  /** `parseInt(s, 16)` reads back the hexadecimal rendering of `n`. */
  lemma HexStringRoundTrip(n: nat)
    ensures ParseInt(HexString(n), Hex) == Int(n)
  {
    DigitsAreDigits(n, Hexadecimal);
    DigitsRoundTrip(n, Hexadecimal);
    ParseIntUnsigned(Digits(n, Hexadecimal), Hex, Hexadecimal);
  }
}
