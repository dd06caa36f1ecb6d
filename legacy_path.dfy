/**
 * The older file naming of the collector daemon (eventkitd/path.go).  Its
 * escape lets letters of both cases through unchanged and knows no '+'; the
 * file name is the base, the hour directories, the escaped scope segments
 * joined by "_-", a separator and the escaped event name.  The source has
 * no parser; Decoded below is a reference reading of the escape, used to
 * state that escaping is injective.  The escaping functions here parallel
 * those of Path on purpose: the two files name things with different
 * escapes (Path lowercases and has '+'), so each keeps its own copy.
 */
module LegacyPath {
  import opened Wrappers
  import opened Text
  import P = Path

  const Separator: ByteChar := '/'
  const ScopeSep: GoString := "_-"

  // ------------------------------------------------------------ escaping

  /** The characters an escape is made of. */
  predicate IsEscapedChar(c: char)
  {
    IsLetter(c) || IsDigit(c) || c == '_' || c == '-'
  }

  predicate AllEscapedChars(s: GoString)
  {
    forall i :: 0 <= i < |s| ==> IsEscapedChar(s[i])
  }

  /**
   * The escape of one byte: letters, digits and '-' stand for themselves,
   * '_' doubles, and every other byte is '_' and its two lower-case hex
   * digits.
   */
  function EscapeByte(b: ByteChar): (r: GoString)
    ensures 1 <= |r| <= 3
  {
    if IsLetter(b) || IsDigit(b) || b == '-' then [b]
    else if b == '_' then "__"
    else ['_', HexDigit(b as int / 16), HexDigit(b as int % 16)]
  }

  function Escaped(s: GoString): (r: GoString)
    ensures |r| >= |s|
    decreases |s|
  {
    if s == [] then [] else EscapeByte(s[0]) + Escaped(s[1..])
  }

  lemma {:induction false} EscapedAppend(s: GoString, t: GoString)
    ensures Escaped(s + t) == Escaped(s) + Escaped(t)
    decreases |s|
  {
    if s != [] {
      assert (s + t)[0] == s[0] && (s + t)[1..] == s[1..] + t;
      EscapedAppend(s[1..], t);
    } else {
      assert s + t == t;
    }
  }

  /** The escape of one more byte of `val`, after whatever came before. */
  lemma EscapedPrefixAfter(start: GoString, val: GoString, i: nat)
    requires i < |val|
    ensures start + Escaped(val[..i + 1]) == (start + Escaped(val[..i])) + EscapeByte(val[i])
  {
    EscapedAppend(val[..i], [val[i]]);
    assert val[..i + 1] == val[..i] + [val[i]];
    assert Escaped([val[i]]) == EscapeByte(val[i]) + [];
  }

  /** pathEscapeTo: the escape of `val` appended to the builder, byte by byte. */
  method EscapeTo(val: GoString, out: Builder)
    modifies out
    ensures out.data == old(out.data) + Escaped(val)
  {
    ghost var start := out.data;
    for i := 0 to |val|
      invariant out.data == start + Escaped(val[..i])
    {
      var b := val[i];
      EscapedPrefixAfter(start, val, i);
      if IsLower(b) {
        assert EscapeByte(b) == [b];
        out.WriteString([b]);
      } else if IsUpper(b) {
        assert EscapeByte(b) == [b];
        out.WriteString([b]);
      } else if IsDigit(b) {
        assert EscapeByte(b) == [b];
        out.WriteString([b]);
      } else if b == '-' {
        assert EscapeByte(b) == [b];
        out.WriteString([b]);
      } else if b == '_' {
        assert EscapeByte(b) == "__";
        out.WriteString("__");
      } else {
        var buf := ['_', HexDigit(b as int / 16), HexDigit(b as int % 16)];
        assert EscapeByte(b) == buf;
        out.WriteString(buf);
      }
    }
    assert val[..|val|] == val;
  }

  /** Escaped output uses only letters, digits, '_' and '-': never a path separator. */
  lemma {:induction false} EscapedChars(s: GoString)
    ensures AllEscapedChars(Escaped(s)) && Separator !in Escaped(s)
    decreases |s|
  {
    if s != [] {
      EscapedChars(s[1..]);
      var e, r := EscapeByte(s[0]), Escaped(s[1..]);
      assert AllEscapedChars(e);
      assert forall i :: 0 <= i < |e + r| ==> (e + r)[i] == if i < |e| then e[i] else r[i - |e|];
    }
  }

  // ------------------------------------------------------ reading it back

  /**
   * One step of the reference decoder: a letter, digit or '-' is itself;
   * '_' needs a second '_' or two hex digits.
   */
  function DecodeStep(s: GoString): (r: Result<(GoString, nat)>)
    requires s != []
    ensures r.Ok? ==> 1 <= r.value.1 <= |s| && |r.value.0| == 1
  {
    var b := s[0];
    if IsLetter(b) || IsDigit(b) || b == '-' then Ok(([b], 1))
    else if b == '_' then
      if |s| > 1 && s[1] == '_' then Ok(("_", 2))
      else if |s| < 3 then Err(P.ErrUnparsable)
      else
        match HexDecode(s[1..3])
        case Some(d) => Ok(([d[0] as char], 3))
        case None => Err(P.ErrInvalidHex)
    else Err(P.ErrUnparsable)
  }

  /** The reference decoder: the steps from the front, failing at the first that fails. */
  function Decoded(s: GoString): (r: Result<GoString>)
    decreases |s|
  {
    if s == [] then Ok([])
    else
      match DecodeStep(s)
      case Err(e) => Err(e)
      case Ok((d, k)) => P.Prepend(d, Decoded(s[k..]))
  }

  /** The step that reads back the escape of one byte uses it up exactly. */
  lemma StepEscapeByte(b: ByteChar, rest: GoString)
    ensures DecodeStep(EscapeByte(b) + rest) == Ok(([b], |EscapeByte(b)|))
  {
    var s := EscapeByte(b) + rest;
    if IsLetter(b) || IsDigit(b) || b == '-' {
      assert s[0] == b;
    } else if b == '_' {
      assert s[0] == '_' && s[1] == '_';
    } else {
      var hi, lo := HexDigit(b as int / 16), HexDigit(b as int % 16);
      assert s[0] == '_' && s[1] == hi && hi != '_';
      assert s[1..3] == [hi, lo];
      HexRoundTrip([b as int]);
      assert HexEncode([b as int]) == [hi, lo] + HexEncode([]);
      assert HexDecode(s[1..3]) == Some([b as int]);
      assert ((b as int) as char) == b;
    }
  }

  /** Every byte string is read back from its escape. */
  lemma {:induction false} DecodeEscape(s: GoString)
    ensures Decoded(Escaped(s)) == Ok(s)
    decreases |s|
  {
    if s != [] {
      var e := EscapeByte(s[0]);
      StepEscapeByte(s[0], Escaped(s[1..]));
      DecodeEscape(s[1..]);
      assert (e + Escaped(s[1..]))[|e|..] == Escaped(s[1..]);
      assert [s[0]] + s[1..] == s;
    }
  }

  /** Escaping is injective: different strings never share a file name. */
  lemma EscapeInjective(s: GoString, t: GoString)
    requires Escaped(s) == Escaped(t)
    ensures s == t
  {
    DecodeEscape(s);
    DecodeEscape(t);
  }

  /** Unlike the newer escape, both "Ab" and "ab" keep their case and so name different files. */
  lemma CaseKept()
    ensures Escaped("Ab") == "Ab" && Escaped("ab") == "ab"
    ensures P.Escaped("Ab") == "+Ab"
  {
    assert Escaped("b") == "b";
    assert P.Escaped("b") == "b";
  }

  // ---------------------------------------------------------- full paths

  function EscapedAll(scope: seq<GoString>): (r: seq<GoString>)
    ensures |r| == |scope| && forall k :: 0 <= k < |scope| ==> r[k] == Escaped(scope[k])
  {
    seq(|scope|, k requires 0 <= k < |scope| => Escaped(scope[k]))
  }

  /** The scope element: escaped segments joined by "_-". */
  function EncodedScope(scope: seq<GoString>): GoString
  {
    Join(EscapedAll(scope), ScopeSep)
  }

  lemma EncodedScopePrefix(scope: seq<GoString>, i: nat)
    requires i < |scope|
    ensures EncodedScope(scope[..i + 1]) == EncodedScope(scope[..i]) + (if i != 0 then ScopeSep else []) + Escaped(scope[i])
  {
    assert EscapedAll(scope[..i + 1]) == EscapedAll(scope[..i]) + [Escaped(scope[i])];
    if i != 0 {
      JoinSnoc(EscapedAll(scope[..i]), Escaped(scope[i]), ScopeSep);
    } else {
      assert EscapedAll(scope[..1]) == [Escaped(scope[0])];
    }
  }

  /** computePath: base, "YYYY-MM/DD-HH/", the scope element, a separator and the escaped name. */
  function Computed(base: GoString, t: P.Hour, scope: seq<GoString>, name: GoString): GoString
  {
    base + P.DateDirs(t) + EncodedScope(scope) + [Separator] + Escaped(name)
  }

  /** The encoding of one more segment, after whatever came before. */
  lemma EncodedScopeAfter(start: GoString, scope: seq<GoString>, i: nat)
    requires i < |scope|
    ensures start + EncodedScope(scope[..i + 1]) == start + EncodedScope(scope[..i]) + (if i != 0 then ScopeSep else []) + Escaped(scope[i])
  {
    EncodedScopePrefix(scope, i);
  }

  /** The scope loop of computePath: segments escaped into the builder, "_-" between them. */
  method WriteScope(scope: seq<GoString>, out: Builder)
    modifies out
    ensures out.data == old(out.data) + EncodedScope(scope)
  {
    ghost var start := out.data;
    for i := 0 to |scope|
      invariant out.data == start + EncodedScope(scope[..i])
    {
      EncodedScopeAfter(start, scope, i);
      if i != 0 {
        out.WriteString(ScopeSep);
      }
      EscapeTo(scope[i], out);
    }
    assert scope[..|scope|] == scope;
  }

  method ComputePath(base: GoString, t: P.Hour, scope: seq<GoString>, name: GoString) returns (r: GoString)
    ensures r == Computed(base, t, scope, name)
  {
    var out := new Builder();
    out.WriteString(base);
    out.WriteString(P.DateDirs(t));
    ghost var head := out.data;
    assert head == base + P.DateDirs(t);
    WriteScope(scope, out);
    ghost var encoded := out.data;
    out.WriteString([Separator]);
    EscapeTo(name, out);
    assert out.data == encoded + [Separator] + Escaped(name);
    assert encoded == head + EncodedScope(scope);
    return out.data;
  }

  // ------------------------------------------------------ directory depth

  /** The number of times `c` occurs in `s`. */
  function Count(s: GoString, c: ByteChar): (n: nat)
    ensures n <= |s|
    decreases |s|
  {
    if s == [] then 0 else (if s[|s| - 1] == c then 1 else 0) + Count(s[..|s| - 1], c)
  }

  lemma {:induction false} CountAppend(s: GoString, t: GoString, c: ByteChar)
    ensures Count(s + t, c) == Count(s, c) + Count(t, c)
    decreases |t|
  {
    if t == [] {
      assert s + t == s;
    } else {
      assert (s + t)[..|s + t| - 1] == s + t[..|t| - 1];
      CountAppend(s, t[..|t| - 1], c);
    }
  }

  lemma {:induction false} CountAbsent(s: GoString, c: ByteChar)
    requires c !in s
    ensures Count(s, c) == 0
    decreases |s|
  {
    if s != [] {
      assert s[..|s| - 1] <= s;
      CountAbsent(s[..|s| - 1], c);
    }
  }

  lemma {:induction false} JoinNoSeparator(parts: seq<GoString>)
    requires forall k :: 0 <= k < |parts| ==> Separator !in parts[k]
    ensures Separator !in Join(parts, ScopeSep)
    decreases |parts|
  {
    if |parts| > 1 {
      JoinNoSeparator(parts[1..]);
    }
  }

  /** The hour directories hold exactly two separators. */
  lemma DateDirsSeparators(t: P.Hour)
    ensures Count(P.DateDirs(t), Separator) == 2
  {
    var m, d := P.MonthDir(t), P.DayHourDir(t);
    CountAbsent(m, Separator);
    CountAbsent(d, Separator);
    CountAppend(m, [Separator], Separator);
    CountAppend(m + [Separator], d, Separator);
    CountAppend(m + [Separator] + d, [Separator], Separator);
  }

  /**
   * Whatever the scope and name, the part of the path after the base holds
   * exactly three separators: every file sits three directories below the
   * base.
   */
  lemma SeparatorsAfterBase(base: GoString, t: P.Hour, scope: seq<GoString>, name: GoString)
    ensures Count(Computed(base, t, scope, name)[|base|..], Separator) == 3
  {
    var enc, n := EncodedScope(scope), Escaped(name);
    var tail := P.DateDirs(t) + enc + [Separator] + n;
    assert Computed(base, t, scope, name)[|base|..] == tail;
    forall k | 0 <= k < |scope| ensures Separator !in EscapedAll(scope)[k] {
      EscapedChars(scope[k]);
    }
    JoinNoSeparator(EscapedAll(scope));
    EscapedChars(name);
    DateDirsSeparators(t);
    CountAbsent(enc, Separator);
    CountAbsent(n, Separator);
    CountAppend(P.DateDirs(t), enc, Separator);
    CountAppend(P.DateDirs(t) + enc, [Separator], Separator);
    CountAppend(P.DateDirs(t) + enc + [Separator], n, Separator);
  }
}
