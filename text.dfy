/**
 * Go strings and the handful of standard-library string helpers the core
 * relies on (strings.Split, strings.Join, strings.Cut, strings.TrimSpace,
 * strconv.Itoa/Atoi, hex encoding, byte-wise comparison).
 *
 * A Go string is a sequence of bytes.  It is modelled as a sequence of chars
 * below 256, one char per byte, so that ASCII literals read as they do in Go.
 */
module Text {
  import opened Wrappers

  type byte = x: int | 0 <= x < 256
  type ByteChar = c: char | c as int < 256 witness 'a'
  type GoString = seq<ByteChar>

  const MinInt64: int := -0x8000_0000_0000_0000
  const MaxInt64: int := 0x7fff_ffff_ffff_ffff
  type int64 = x: int | MinInt64 <= x <= MaxInt64

  // ---------------------------------------------------------------- bytes

  function ToBytes(s: GoString): (b: seq<byte>)
    ensures |b| == |s| && forall i :: 0 <= i < |s| ==> b[i] == s[i] as int
  {
    seq(|s|, i requires 0 <= i < |s| => s[i] as int)
  }

  function FromBytes(b: seq<byte>): (s: GoString)
    ensures |s| == |b| && forall i :: 0 <= i < |b| ==> s[i] as int == b[i]
  {
    seq(|b|, i requires 0 <= i < |b| => b[i] as char)
  }

  lemma BytesRoundTrip(s: GoString, b: seq<byte>)
    ensures FromBytes(ToBytes(s)) == s
    ensures ToBytes(FromBytes(b)) == b
  {
  }

  // ------------------------------------------------------- ASCII classes

  predicate IsDigit(c: char) { '0' <= c <= '9' }
  predicate IsLower(c: char) { 'a' <= c <= 'z' }
  predicate IsUpper(c: char) { 'A' <= c <= 'Z' }
  predicate IsLetter(c: char) { IsLower(c) || IsUpper(c) }
  predicate IsAlnum(c: char) { IsLetter(c) || IsDigit(c) }

  /** unicode.ToLower / unicode.ToUpper restricted to ASCII letters. */
  function ToLower(c: ByteChar): ByteChar { if IsUpper(c) then (c as int + 32) as char else c }
  function ToUpper(c: ByteChar): ByteChar { if IsLower(c) then (c as int - 32) as char else c }

  // ------------------------------------------------------------------ hex

  /** The lower-case hex digit of a nibble, as encoding/hex writes it. */
  function HexDigit(n: nat): (c: ByteChar)
    requires n < 16
    ensures IsDigit(c) || ('a' <= c <= 'f')
  {
    if n < 10 then ('0' as int + n) as char else ('a' as int + n - 10) as char
  }

  /** The value of a hex digit of either case, as encoding/hex reads it. */
  function HexValue(c: char): (r: Option<nat>)
    ensures r.Some? ==> r.value < 16
  {
    if IsDigit(c) then Some(c as int - '0' as int)
    else if 'a' <= c <= 'f' then Some(c as int - 'a' as int + 10)
    else if 'A' <= c <= 'F' then Some(c as int - 'A' as int + 10)
    else None
  }

  lemma HexDigitValue(n: nat)
    requires n < 16
    ensures HexValue(HexDigit(n)) == Some(n)
  {
  }

  /** hex.EncodeToString: two lower-case digits per byte, high nibble first. */
  function HexEncode(b: seq<byte>): (s: GoString)
    ensures |s| == 2 * |b|
  {
    if b == [] then [] else [HexDigit(b[0] / 16), HexDigit(b[0] % 16)] + HexEncode(b[1..])
  }

  /** hex.DecodeString: fails on an odd length or a non-hex digit. */
  function HexDecode(s: string): (r: Option<seq<byte>>)
    ensures r.Some? ==> 2 * |r.value| == |s|
  {
    if s == [] then Some([])
    else if |s| == 1 then None
    else match (HexValue(s[0]), HexValue(s[1]), HexDecode(s[2..]))
      case (Some(hi), Some(lo), Some(rest)) => Some([hi * 16 + lo] + rest)
      case _ => None
  }

  lemma {:induction false} HexRoundTrip(b: seq<byte>)
    ensures HexDecode(HexEncode(b)) == Some(b)
  {
    if b != [] {
      HexRoundTrip(b[1..]);
      HexDigitValue(b[0] / 16);
      HexDigitValue(b[0] % 16);
      var s := HexEncode(b);
      assert s[0] == HexDigit(b[0] / 16) && s[1] == HexDigit(b[0] % 16);
      assert s[2..] == HexEncode(b[1..]);
      assert [(b[0] / 16) * 16 + b[0] % 16] + b[1..] == b;
    }
  }

  // -------------------------------------------------------------- decimal

  function DigitChar(d: nat): (c: ByteChar)
    requires d < 10
    ensures IsDigit(c)
  {
    ('0' as int + d) as char
  }

  /** The decimal digits of a natural number, most significant first, no leading zero. */
  function Digits(n: nat): (s: GoString)
    ensures |s| >= 1 && (forall i :: 0 <= i < |s| ==> IsDigit(s[i]))
    ensures |s| > 1 ==> s[0] != '0'
  {
    if n < 10 then [DigitChar(n)] else Digits(n / 10) + [DigitChar(n % 10)]
  }

  function DigitOf(c: char): (d: nat)
    requires IsDigit(c)
    ensures d < 10
  {
    c as int - '0' as int
  }

  /** The value of a run of decimal digits. */
  function DigitsValue(s: string): (n: nat)
    requires forall i :: 0 <= i < |s| ==> IsDigit(s[i])
  {
    if s == [] then 0 else DigitsValue(s[..|s| - 1]) * 10 + DigitOf(s[|s| - 1])
  }

  lemma {:induction false} DigitsRoundTrip(n: nat)
    ensures DigitsValue(Digits(n)) == n
  {
    if n >= 10 {
      DigitsRoundTrip(n / 10);
      var s := Digits(n);
      assert s[..|s| - 1] == Digits(n / 10);
    }
  }

  /** strconv.Itoa / fmt.Sprint of an integer. */
  function Itoa(n: int): (s: GoString)
    ensures |s| >= 1
  {
    if n < 0 then "-" + Digits(-n) else Digits(n)
  }

  predicate AllDigits(s: string) { forall i :: 0 <= i < |s| ==> IsDigit(s[i]) }

  /**
   * strconv.Atoi on a 64-bit platform: an optional sign followed by at least
   * one decimal digit, whose value fits in an int64.
   */
  function Atoi(s: string): (r: Option<int64>)
  {
    var neg := |s| > 0 && s[0] == '-';
    var body := if |s| > 0 && (s[0] == '-' || s[0] == '+') then s[1..] else s;
    if body == [] || !AllDigits(body) then None
    else
      var v: int := if neg then -(DigitsValue(body) as int) else DigitsValue(body);
      if MinInt64 <= v <= MaxInt64 then Some(v) else None
  }

  lemma ItoaAtoi(n: int64)
    ensures Atoi(Itoa(n)) == Some(n)
  {
    if n < 0 {
      NegativeItoaAtoi(n);
    } else {
      var s := Itoa(n);
      assert s == Digits(n) && IsDigit(s[0]);
      assert DigitsValue(s) == n by {
        DigitsRoundTrip(n);
      }
    }
  }

  lemma NegativeItoaAtoi(n: int64)
    requires n < 0
    ensures Atoi(Itoa(n)) == Some(n)
  {
    var s := Itoa(n);
    var body := Digits(-(n as int));
    assert s[0] == '-' && s[1..] == body;
    assert AllDigits(body);
    assert DigitsValue(body) == -(n as int) by {
      DigitsRoundTrip(-(n as int));
    }
  }

  // ------------------------------------------------------ searching, cutting

  /** The index of the first occurrence of `c` in `s`. */
  function IndexOf(s: string, c: char): (r: Option<nat>)
    ensures r.Some? ==> r.value < |s| && s[r.value] == c && forall j :: 0 <= j < r.value ==> s[j] != c
    ensures r.None? ==> forall j :: 0 <= j < |s| ==> s[j] != c
  {
    if s == [] then None
    else if s[0] == c then Some(0)
    else match IndexOf(s[1..], c)
      case None => None
      case Some(k) => Some(k + 1)
  }

  /** strings.Cut on a one-byte separator: the text before and after its first occurrence. */
  function Cut(s: GoString, c: ByteChar): (r: Option<(GoString, GoString)>)
    ensures r.Some? <==> c in s
    ensures r.Some? ==> r.value.0 + [c] + r.value.1 == s && c !in r.value.0
  {
    match IndexOf(s, c)
    case None => None
    case Some(k) =>
      assert s[..k] + [c] + s[k + 1..] == s;
      Some((s[..k], s[k + 1..]))
  }

  // ---------------------------------------------------------- split, join

  /** strings.Join. */
  function Join(parts: seq<GoString>, sep: GoString): GoString
  {
    if parts == [] then []
    else if |parts| == 1 then parts[0]
    else parts[0] + sep + Join(parts[1..], sep)
  }

  /** Joining one more part appends the separator and the part. */
  lemma {:induction false} JoinSnoc(parts: seq<GoString>, p: GoString, sep: GoString)
    requires parts != []
    ensures Join(parts + [p], sep) == Join(parts, sep) + sep + p
    decreases |parts|
  {
    if |parts| == 1 {
      assert parts + [p] == [parts[0], p];
      assert Join([p], sep) == p;
    } else {
      assert (parts + [p])[1..] == parts[1..] + [p];
      JoinSnoc(parts[1..], p, sep);
    }
  }

  /**
   * strings.Split with a non-empty separator: the pieces between the leftmost
   * non-overlapping occurrences of `sep`, scanning from the left.
   */
  function Split(s: GoString, sep: GoString): (parts: seq<GoString>)
    requires |sep| > 0
    ensures |parts| >= 1
    decreases |s|
  {
    if sep <= s then [[]] + Split(s[|sep|..], sep)
    else if s == [] then [[]]
    else
      var rest := Split(s[1..], sep);
      [[s[0]] + rest[0]] + rest[1..]
  }

  /** No occurrence of `sep` begins inside `p` when `p` is followed by `sep`. */
  predicate NoSepInside(p: GoString, sep: GoString)
  {
    forall i :: 0 <= i < |p| ==> !(sep <= (p + sep)[i..])
  }

  lemma PrefixOfLonger(sep: GoString, u: GoString, v: GoString)
    requires |sep| <= |u|
    ensures sep <= u + v <==> sep <= u
  {
    if sep <= u + v { assert sep == (u + v)[..|sep|] == u[..|sep|]; }
  }

  lemma {:induction false} SplitStep(p: GoString, sep: GoString, rest: GoString)
    requires |sep| > 0 && NoSepInside(p, sep)
    ensures Split(p + sep + rest, sep) == [p] + Split(rest, sep)
    decreases |p|, 1
  {
    if p == [] {
      var s := p + sep + rest;
      assert s == sep + rest && s[|sep|..] == rest;
    } else {
      SplitStepCons(p, sep, rest);
    }
  }

  lemma {:induction false} SplitStepCons(p: GoString, sep: GoString, rest: GoString)
    requires |sep| > 0 && NoSepInside(p, sep) && p != []
    ensures Split(p + sep + rest, sep) == [p] + Split(rest, sep)
    decreases |p|, 0
  {
    var s := p + sep + rest;
    assert !(sep <= s) by {
      assert (p + sep)[0..] == p + sep;
      PrefixOfLonger(sep, p + sep, rest);
    }
    assert s != [] && s[1..] == p[1..] + sep + rest;
    assert Split(p[1..] + sep + rest, sep) == [p[1..]] + Split(rest, sep) by {
      forall i | 0 <= i < |p[1..]| ensures !(sep <= (p[1..] + sep)[i..]) {
        assert (p[1..] + sep)[i..] == (p + sep)[i + 1..];
      }
      SplitStep(p[1..], sep, rest);
    }
    assert [s[0]] + p[1..] == p;
  }

  lemma {:induction false} SplitNoSep(p: GoString, sep: GoString)
    requires |sep| > 0
    requires forall i :: 0 <= i < |p| ==> !(sep <= p[i..])
    ensures Split(p, sep) == [p]
    decreases |p|
  {
    if p != [] {
      assert p[0..] == p;
      forall i | 0 <= i < |p[1..]| ensures !(sep <= p[1..][i..]) {
        assert p[1..][i..] == p[i + 1..];
      }
      SplitNoSep(p[1..], sep);
      assert [p[0]] + p[1..] == p;
    }
  }

  /** Splitting a join recovers the parts when no separator hides inside a part. */
  lemma {:induction false} SplitJoin(parts: seq<GoString>, sep: GoString)
    requires |sep| > 0 && |parts| >= 1
    requires forall k :: 0 <= k < |parts| ==> NoSepInside(parts[k], sep)
    ensures Split(Join(parts, sep), sep) == parts
  {
    if |parts| == 1 {
      var p := parts[0];
      forall i | 0 <= i < |p| ensures !(sep <= p[i..]) {
        assert (p + sep)[i..] == p[i..] + sep;
      }
      SplitNoSep(p, sep);
    } else {
      SplitJoin(parts[1..], sep);
      SplitStep(parts[0], sep, Join(parts[1..], sep));
    }
  }

  // -------------------------------------------------------------- trimming

  /** The ASCII white space bytes. */
  predicate IsSpace(c: char) { c == ' ' || c == '\t' || c == '\n' || c == '\r' || c == '\U{0b}' || c == '\U{0c}' }

  /**
   * `t` is the UTF-8 encoding of a rune unicode.IsSpace accepts: an ASCII
   * white space byte, U+0085 or U+00A0 (two bytes), or U+1680,
   * U+2000-U+200A, U+2028, U+2029, U+202F, U+205F or U+3000 (three bytes).
   */
  predicate IsSpaceRune(t: GoString)
  {
    (|t| == 1 && IsSpace(t[0]))
    || (|t| == 2 && t[0] == '\U{c2}' && (t[1] == '\U{85}' || t[1] == '\U{a0}'))
    || (|t| == 3 &&
        (t == ['\U{e1}', '\U{9a}', '\U{80}']
         || (t[0] == '\U{e2}' && t[1] == '\U{80}' &&
             ('\U{80}' <= t[2] <= '\U{8a}' || t[2] == '\U{a8}' || t[2] == '\U{a9}' || t[2] == '\U{af}'))
         || t == ['\U{e2}', '\U{81}', '\U{9f}']
         || t == ['\U{e3}', '\U{80}', '\U{80}']))
  }

  /** The second byte of a two-byte white-space rune after its lead byte 0xc2. */
  predicate IsSpaceTail2(b: char) { b == '\U{85}' || b == '\U{a0}' }

  /** The three bytes of a three-byte white-space rune. */
  predicate IsSpace3(a: char, b: char, c: char)
  {
    (a == '\U{e1}' && b == '\U{9a}' && c == '\U{80}')
    || (a == '\U{e2}' && b == '\U{80}' && ('\U{80}' <= c <= '\U{8a}' || c == '\U{a8}' || c == '\U{a9}' || c == '\U{af}'))
    || (a == '\U{e2}' && b == '\U{81}' && c == '\U{9f}')
    || (a == '\U{e3}' && b == '\U{80}' && c == '\U{80}')
  }

  /** The length of the white-space rune `s` starts with, 0 when it starts with none. */
  function LeadingSpace(s: GoString): (n: nat)
    ensures n <= |s|
  {
    if |s| >= 1 && IsSpace(s[0]) then 1
    else if |s| >= 2 && s[0] == '\U{c2}' && IsSpaceTail2(s[1]) then 2
    else if |s| >= 3 && IsSpace3(s[0], s[1], s[2]) then 3
    else 0
  }

  /** The length of the white-space rune `s` ends with, 0 when it ends with none. */
  function TrailingSpace(s: GoString): (n: nat)
    ensures n <= |s|
  {
    var k := |s|;
    if k >= 1 && IsSpace(s[k - 1]) then 1
    else if k >= 2 && s[k - 2] == '\U{c2}' && IsSpaceTail2(s[k - 1]) then 2
    else if k >= 3 && IsSpace3(s[k - 3], s[k - 2], s[k - 1]) then 3
    else 0
  }

  /**
   * LeadingSpace reads one rune: a positive length is that of a
   * white-space rune at the start, and 0 means no prefix of one to three
   * bytes is one.
   */
  lemma LeadingSpaceRune(s: GoString)
    ensures LeadingSpace(s) > 0 ==> IsSpaceRune(s[..LeadingSpace(s)])
    ensures LeadingSpace(s) == 0 ==> forall k :: 1 <= k <= 3 && k <= |s| ==> !IsSpaceRune(s[..k])
  {
    if LeadingSpace(s) == 0 {
      forall k | 1 <= k <= 3 && k <= |s| ensures !IsSpaceRune(s[..k]) {
        var t := s[..k];
        assert k >= 1 ==> t[0] == s[0];
        assert k >= 2 ==> t[1] == s[1];
        assert k >= 3 ==> t[2] == s[2];
      }
    }
  }

  /** TrailingSpace reads one rune from the end, as LeadingSpace does from the start. */
  lemma TrailingSpaceRune(s: GoString)
    ensures TrailingSpace(s) > 0 ==> IsSpaceRune(s[|s| - TrailingSpace(s)..])
    ensures TrailingSpace(s) == 0 ==> forall j :: 0 <= j < |s| && |s| - 3 <= j ==> !IsSpaceRune(s[j..])
  {
    if TrailingSpace(s) == 0 {
      forall j | 0 <= j < |s| && |s| - 3 <= j ensures !IsSpaceRune(s[j..]) {
        var t := s[j..];
        assert |t| >= 1 ==> t[|t| - 1] == s[|s| - 1];
        assert |t| >= 2 ==> t[|t| - 2] == s[|s| - 2];
        assert |t| >= 3 ==> t[0] == s[|s| - 3];
      }
    }
  }

  /** strings.TrimLeftFunc(s, unicode.IsSpace): white-space runes removed from the start. */
  function TrimLeft(s: GoString): GoString
    decreases |s|
  {
    var n := LeadingSpace(s);
    if n > 0 then TrimLeft(s[n..]) else s
  }

  /** strings.TrimRightFunc(s, unicode.IsSpace): white-space runes removed from the end. */
  function TrimRight(s: GoString): GoString
    decreases |s|
  {
    var n := TrailingSpace(s);
    if n > 0 then TrimRight(s[..|s| - n]) else s
  }

  /** strings.TrimSpace: white-space runes, ASCII or not, removed from both ends. */
  function TrimSpace(s: GoString): GoString
  {
    TrimRight(TrimLeft(s))
  }

  /** TrimLeft leaves a suffix of its input that starts with no white-space rune. */
  lemma {:induction false} TrimLeftTrimmed(s: GoString)
    ensures |TrimLeft(s)| <= |s| && TrimLeft(s) == s[|s| - |TrimLeft(s)|..]
    ensures LeadingSpace(TrimLeft(s)) == 0
    decreases |s|
  {
    var n := LeadingSpace(s);
    if n > 0 {
      TrimLeftTrimmed(s[n..]);
      assert s[n..][|s[n..]| - |TrimLeft(s)|..] == s[|s| - |TrimLeft(s)|..];
    }
  }

  /** TrimRight leaves a prefix of its input that ends with no white-space rune. */
  lemma {:induction false} TrimRightTrimmed(s: GoString)
    ensures |TrimRight(s)| <= |s| && TrimRight(s) == s[..|TrimRight(s)|]
    ensures TrailingSpace(TrimRight(s)) == 0
    decreases |s|
  {
    var n := TrailingSpace(s);
    if n > 0 {
      TrimRightTrimmed(s[..|s| - n]);
      assert s[..|s| - n][..|TrimRight(s)|] == s[..|TrimRight(s)|];
    }
  }

  /** Cutting the end off a string that starts with no white space leaves one that starts with none. */
  lemma LeadingSpacePrefix(s: GoString, m: nat)
    requires m <= |s| && LeadingSpace(s) == 0
    ensures LeadingSpace(s[..m]) == 0
  {
    var t := s[..m];
    assert m >= 1 ==> t[0] == s[0];
    assert m >= 2 ==> t[1] == s[1];
    assert m >= 3 ==> t[2] == s[2];
  }

  /** TrimSpace leaves a piece of its input that neither starts nor ends with a white-space rune. */
  lemma TrimSpaceTrimmed(s: GoString)
    ensures LeadingSpace(TrimSpace(s)) == 0 && TrailingSpace(TrimSpace(s)) == 0
  {
    var l := TrimLeft(s);
    TrimLeftTrimmed(s);
    TrimRightTrimmed(l);
    LeadingSpacePrefix(l, |TrimRight(l)|);
  }

  /** A string that starts and ends with an ASCII byte other than white space is its own TrimSpace. */
  lemma TrimSpaceKeeps(s: GoString)
    requires s != [] && s[0] < '\U{80}' && !IsSpace(s[0]) && s[|s| - 1] < '\U{80}' && !IsSpace(s[|s| - 1])
    ensures TrimSpace(s) == s
  {
    assert LeadingSpace(s) == 0;
    assert TrailingSpace(s) == 0;
  }

  // ------------------------------------------------------------ ordering

  /** Go's `a < b` on strings: byte-wise lexicographic order. */
  predicate Less(a: string, b: string)
  {
    if a == [] then b != []
    else if b == [] then false
    else a[0] < b[0] || (a[0] == b[0] && Less(a[1..], b[1..]))
  }

  lemma {:induction false} LessIrreflexive(a: string)
    ensures !Less(a, a)
  {
    if a != [] { LessIrreflexive(a[1..]); }
  }

  lemma {:induction false} LessTotal(a: string, b: string)
    ensures a == b || Less(a, b) || Less(b, a)
  {
    if a != [] && b != [] && a[0] == b[0] {
      LessTotal(a[1..], b[1..]);
      if a[1..] == b[1..] { assert a == [a[0]] + a[1..] && b == [b[0]] + b[1..]; }
    }
  }

  lemma {:induction false} LessTransitive(a: string, b: string, c: string)
    requires Less(a, b) && Less(b, c)
    ensures Less(a, c)
  {
    if a != [] && a[0] == b[0] && b[0] == c[0] {
      LessTransitive(a[1..], b[1..], c[1..]);
    }
  }

  lemma {:induction false} LessAsymmetric(a: string, b: string)
    requires Less(a, b)
    ensures !Less(b, a)
  {
    if a != [] && a[0] == b[0] {
      LessAsymmetric(a[1..], b[1..]);
    }
  }

  // ------------------------------------------------------------- builder

  /** strings.Builder: a string grown by appending. */
  class Builder {
    var data: GoString

    constructor ()
      ensures data == []
    {
      data := [];
    }

    method WriteString(s: GoString)
      modifies this
      ensures data == old(data) + s
    {
      data := data + s;
    }
  }
}
