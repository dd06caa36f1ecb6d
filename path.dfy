/**
 * Where the daemon files a stream of events (eventkitd/private/path): a
 * reversible escaping of arbitrary bytes into file-name characters, the
 * scope encoding, the full path of an hour's file, and the parse of such a
 * path back into event name and scope.
 */
module Path {
  import opened Wrappers
  import opened Text

  const Separator: ByteChar := '/'
  const ScopeSep: GoString := "_-"
  const ErrUnparsable: string := "unparsable"
  /** Go appends ": %#U" of the offending byte to this message; the model keeps only its fixed prefix. */
  const ErrInvalidHex: string := "encoding/hex: invalid byte"

  /** The characters an escaped string is made of: never a path separator. */
  predicate IsEscapedChar(c: char)
  {
    IsLetter(c) || IsDigit(c) || c == '+' || c == '_' || c == '-'
  }

  predicate AllEscapedChars(s: GoString)
  {
    forall i :: 0 <= i < |s| ==> IsEscapedChar(s[i])
  }

  // ------------------------------------------------------------ escaping

  /**
   * The escape of one byte: lower-case letters, digits and '-' stand for
   * themselves, an upper-case letter gets a '+' before it, '_' doubles, and
   * every other byte is '_' and its two lower-case hex digits.
   */
  function EscapeByte(b: ByteChar): (r: GoString)
    ensures 1 <= |r| <= 3
  {
    if IsLower(b) || IsDigit(b) || b == '-' then [b]
    else if IsUpper(b) then ['+', b]
    else if b == '_' then "__"
    else ['_', HexDigit(b as int / 16), HexDigit(b as int % 16)]
  }

  /** The escape of a string: its bytes escaped one by one. */
  function Escaped(s: GoString): (r: GoString)
    ensures |r| >= |s|
    decreases |s|
  {
    if s == [] then [] else EscapeByte(s[0]) + Escaped(s[1..])
  }

  /** What an escaped byte looks like at its edges and inside. */
  lemma EscapeByteShape(b: ByteChar)
    ensures AllEscapedChars(EscapeByte(b))
    ensures EscapeByte(b)[0] == '-' <==> b == '-'
    ensures EscapeByte(b)[|EscapeByte(b)| - 1] == '_' <==> b == '_'
    ensures NoUnderscoreDash(EscapeByte(b))
  {
  }

  /** Escaped output uses only letters, digits, '+', '_' and '-': never a path separator. */
  lemma {:induction false} EscapedChars(s: GoString)
    ensures AllEscapedChars(Escaped(s)) && Separator !in Escaped(s)
    decreases |s|
  {
    if s != [] {
      EscapeByteShape(s[0]);
      EscapedChars(s[1..]);
      var e, r := EscapeByte(s[0]), Escaped(s[1..]);
      assert forall i :: 0 <= i < |e + r| ==> (e + r)[i] == if i < |e| then e[i] else r[i - |e|];
    }
  }

  lemma {:induction false} EscapedAppend(s: GoString, t: GoString)
    ensures Escaped(s + t) == Escaped(s) + Escaped(t)
    decreases |s|
  {
    if s != [] {
      assert (s + t)[0] == s[0] && (s + t)[1..] == s[1..] + t;
      EscapedAppend(s[1..], t);
    } else {
      assert s + t == t;
    }
  }

  /** The escape of one more byte of `val`. */
  lemma EscapedPrefix(val: GoString, i: nat)
    requires i < |val|
    ensures Escaped(val[..i + 1]) == Escaped(val[..i]) + EscapeByte(val[i])
  {
    EscapedAppend(val[..i], [val[i]]);
    assert val[..i + 1] == val[..i] + [val[i]];
    assert Escaped([val[i]]) == EscapeByte(val[i]) + [];
  }

  /** The escape of one more byte of `val`, after whatever came before. */
  lemma EscapedPrefixAfter(start: GoString, val: GoString, i: nat)
    requires i < |val|
    ensures start + Escaped(val[..i + 1]) == (start + Escaped(val[..i])) + EscapeByte(val[i])
  {
    EscapedPrefix(val, i);
  }

  /** EscapeTo: the escape of `val` appended to the builder, byte by byte. */
  method EscapeTo(val: GoString, out: Builder)
    modifies out
    ensures out.data == old(out.data) + Escaped(val)
  {
    ghost var start := out.data;
    for i := 0 to |val|
      invariant out.data == start + Escaped(val[..i])
    {
      var b := val[i];
      EscapedPrefixAfter(start, val, i);
      if IsLower(b) {
        assert EscapeByte(b) == [b];
        out.WriteString([b]);
      } else if IsUpper(b) {
        assert EscapeByte(b) == ['+', b];
        out.WriteString(['+', b]);
      } else if IsDigit(b) {
        assert EscapeByte(b) == [b];
        out.WriteString([b]);
      } else if b == '-' {
        assert EscapeByte(b) == [b];
        out.WriteString([b]);
      } else if b == '_' {
        assert EscapeByte(b) == "__";
        out.WriteString("__");
      } else {
        assert EscapeByte(b) == ['_', HexDigit(b as int / 16), HexDigit(b as int % 16)];
        out.WriteString(['_', HexDigit(b as int / 16), HexDigit(b as int % 16)]);
      }
    }
    assert val[..|val|] == val;
  }

  // ---------------------------------------------------------- unescaping

  /**
   * One step of Unescape on a non-empty rest: the bytes it stands for and
   * how many characters it uses up, or why it is unparsable.  Bare letters
   * come out lower-case; '+' needs a letter after it, which comes out
   * upper-case; '_' needs a second '_' or two hex digits of either case.
   */
  function UnescapeStep(s: GoString): (r: Result<(GoString, nat)>)
    requires s != []
    ensures r.Ok? ==> 1 <= r.value.1 <= |s| && |r.value.0| == 1
  {
    var b := s[0];
    if IsLetter(b) || IsDigit(b) || b == '-' then Ok(([ToLower(b)], 1))
    else if b == '+' then
      if |s| < 2 then Err(ErrUnparsable)
      else if IsLetter(s[1]) then Ok(([ToUpper(s[1])], 2))
      else Err(ErrUnparsable)
    else if b == '_' then
      if |s| > 1 && s[1] == '_' then Ok(("_", 2))
      else if |s| < 3 then Err(ErrUnparsable)
      else
        match HexDecode(s[1..3])
        case Some(d) => Ok(([d[0] as char], 3))
        case None => Err(ErrInvalidHex)
    else Err(ErrUnparsable)
  }

  /** `d` in front of a successful result. */
  function Prepend(d: GoString, r: Result<GoString>): Result<GoString>
  {
    if r.Ok? then Ok(d + r.value) else r
  }

  /** Unescape: the steps from the front, failing at the first unparsable one. */
  function Unescaped(s: GoString): (r: Result<GoString>)
    decreases |s|
  {
    if s == [] then Ok([])
    else
      match UnescapeStep(s)
      case Err(e) => Err(e)
      case Ok((d, k)) => Prepend(d, Unescaped(s[k..]))
  }

  /** A successful step in front of the rest. */
  lemma UnescapedStep(s: GoString)
    requires s != [] && UnescapeStep(s).Ok?
    ensures Unescaped(s) == Prepend(UnescapeStep(s).value.0, Unescaped(s[UnescapeStep(s).value.1..]))
  {
  }

  lemma PrependAssociative(a: GoString, b: GoString, r: Result<GoString>)
    ensures Prepend(a, Prepend(b, r)) == Prepend(a + b, r)
  {
    if r.Ok? {
      assert a + (b + r.value) == (a + b) + r.value;
    }
  }

  method Unescape(val: GoString) returns (r: Result<GoString>)
    ensures r == Unescaped(val)
  {
    var bytes := val;
    var out: GoString := [];
    assert Prepend(out, Unescaped(bytes)) == Unescaped(val) by {
      if Unescaped(val).Ok? {
        assert [] + Unescaped(val).value == Unescaped(val).value;
      }
    }
    while |bytes| > 0
      invariant Unescaped(val) == Prepend(out, Unescaped(bytes))
      decreases |bytes|
    {
      var b := bytes[0];
      var piece: GoString;
      var k: nat;
      if IsLetter(b) || IsDigit(b) || b == '-' {
        piece, k := [ToLower(b)], 1;
      } else if b == '+' {
        if |bytes| < 2 {
          return Err(ErrUnparsable);
        }
        var c := bytes[1];
        if IsLetter(c) {
          piece, k := [ToUpper(c)], 2;
        } else {
          return Err(ErrUnparsable);
        }
      } else if b == '_' {
        if |bytes| > 1 && bytes[1] == '_' {
          piece, k := "_", 2;
        } else if |bytes| < 3 {
          return Err(ErrUnparsable);
        } else {
          var res := HexDecode(bytes[1..][..2]);
          assert bytes[1..][..2] == bytes[1..3];
          if res.None? {
            return Err(ErrInvalidHex);
          }
          piece, k := [res.value[0] as char], 3;
        }
      } else {
        return Err(ErrUnparsable);
      }
      assert UnescapeStep(bytes) == Ok((piece, k));
      UnescapedStep(bytes);
      PrependAssociative(out, piece, Unescaped(bytes[k..]));
      out := out + piece;
      bytes := bytes[k..];
    }
    assert out + [] == out;
    return Ok(out);
  }

  /** The step that reads back the escape of one byte uses it up exactly. */
  lemma StepEscapeByte(b: ByteChar, rest: GoString)
    ensures UnescapeStep(EscapeByte(b) + rest) == Ok(([b], |EscapeByte(b)|))
  {
    var s := EscapeByte(b) + rest;
    if IsLower(b) || IsDigit(b) || b == '-' {
      assert s[0] == b && ToLower(b) == b;
    } else if IsUpper(b) {
      assert s[0] == '+' && s[1] == b && ToUpper(b) == b;
    } else if b == '_' {
      assert s[0] == '_' && s[1] == '_';
    } else {
      var hi, lo := HexDigit(b as int / 16), HexDigit(b as int % 16);
      assert s[0] == '_' && s[1] == hi && hi != '_';
      assert s[1..3] == [hi, lo];
      HexRoundTrip([b as int]);
      assert HexEncode([b as int]) == [hi, lo] + HexEncode([]);
      assert HexDecode(s[1..3]) == Some([b as int]);
      assert ((b as int) as char) == b;
    }
  }

  /** Round trip: every byte string is recovered from its escape. */
  lemma {:induction false} UnescapeEscape(s: GoString)
    ensures Unescaped(Escaped(s)) == Ok(s)
    decreases |s|
  {
    if s != [] {
      var e := EscapeByte(s[0]);
      StepEscapeByte(s[0], Escaped(s[1..]));
      UnescapeEscape(s[1..]);
      assert (e + Escaped(s[1..]))[|e|..] == Escaped(s[1..]);
      assert [s[0]] + s[1..] == s;
    }
  }

  /** Escaping is injective: different strings never share a file name. */
  lemma EscapeInjective(s: GoString, t: GoString)
    requires Escaped(s) == Escaped(t)
    ensures s == t
  {
    UnescapeEscape(s);
    UnescapeEscape(t);
  }

  /** Unescape reads bare letters as lower-case, so it accepts more than escapes produce. */
  lemma UnescapeLowercases()
    ensures Unescaped("Ab") == Ok("ab")
  {
    assert UnescapeStep("b") == Ok(("b", 1)) && "b"[1..] == [];
    UnescapedStep("b");
    assert Unescaped("b") == Ok("b" + []) && "b" + [] == "b";
    assert Unescaped("b") == Ok("b");
    assert UnescapeStep("Ab") == Ok(("a", 1)) && "Ab"[1..] == "b";
    UnescapedStep("Ab");
    assert "a" + "b" == "ab";
  }

  /** '+' must be followed by a letter. */
  lemma UnescapePlusErrors()
    ensures Unescaped("+") == Err(ErrUnparsable)
    ensures Unescaped("+1") == Err(ErrUnparsable)
  {
  }

  /** '_' must be followed by '_' or two hex digits, which may be upper-case. */
  lemma UnescapeUnderscoreCases()
    ensures Unescaped("_4") == Err(ErrUnparsable)
    ensures Unescaped("_g0") == Err(ErrInvalidHex)
    ensures Unescaped("_4A") == Ok("J")
  {
    assert "_g0"[1..3] == "g0";
    assert "_4A"[1..3] == "4A";
    assert "4A"[0] == '4' && "4A"[1] == 'A' && "4A"[2..] == [];
    assert HexValue('4') == Some(4) && HexValue('A') == Some(10) && HexDecode([]) == Some([]);
    assert [4 * 16 + 10] + [] == [0x4a];
    assert HexDecode("4A") == Some([0x4a]);
    assert UnescapeStep("_4A") == Ok(("J", 3)) && "_4A"[3..] == [];
    UnescapedStep("_4A");
    assert "J" + [] == "J";
  }

  /** Any other byte, a separator included, is unparsable. */
  lemma UnescapeOtherErrors()
    ensures Unescaped("a/b") == Err(ErrUnparsable)
  {
    assert "a/b"[1..] == "/b";
  }

  // ------------------------------------------------------------- scopes

  /** The escapes of the segments of a scope. */
  function EscapedAll(scope: seq<GoString>): (r: seq<GoString>)
    ensures |r| == |scope| && forall k :: 0 <= k < |scope| ==> r[k] == Escaped(scope[k])
  {
    seq(|scope|, k requires 0 <= k < |scope| => Escaped(scope[k]))
  }

  /** EncodeScope: the escaped segments joined by "_-". */
  function EncodedScope(scope: seq<GoString>): GoString
  {
    Join(EscapedAll(scope), ScopeSep)
  }

  /** The encoding of one more segment of `scope`. */
  lemma EncodedScopePrefix(scope: seq<GoString>, i: nat)
    requires i < |scope|
    ensures EncodedScope(scope[..i + 1]) == EncodedScope(scope[..i]) + (if i != 0 then ScopeSep else []) + Escaped(scope[i])
  {
    assert EscapedAll(scope[..i + 1]) == EscapedAll(scope[..i]) + [Escaped(scope[i])];
    if i != 0 {
      JoinSnoc(EscapedAll(scope[..i]), Escaped(scope[i]), ScopeSep);
    } else {
      assert EscapedAll(scope[..1]) == [Escaped(scope[0])];
    }
  }

  method EncodeScope(scope: seq<GoString>) returns (r: GoString)
    ensures r == EncodedScope(scope)
  {
    var out := new Builder();
    for i := 0 to |scope|
      invariant out.data == EncodedScope(scope[..i])
    {
      EncodedScopePrefix(scope, i);
      if i != 0 {
        out.WriteString(ScopeSep);
      }
      EscapeTo(scope[i], out);
    }
    assert scope[..|scope|] == scope;
    return out.data;
  }

  /** Joining parts without the character `c`, which the scope separator lacks, gives a string without it. */
  lemma {:induction false} JoinAvoids(parts: seq<GoString>, c: ByteChar)
    requires c !in ScopeSep && forall k :: 0 <= k < |parts| ==> c !in parts[k]
    ensures c !in Join(parts, ScopeSep)
    decreases |parts|
  {
    if |parts| > 1 {
      JoinAvoids(parts[1..], c);
    }
  }

  /** An encoded scope is empty exactly for no segments or one empty segment. */
  lemma EncodedScopeEmpty(scope: seq<GoString>)
    ensures Separator !in EncodedScope(scope) && '.' !in EncodedScope(scope)
    ensures EncodedScope(scope) == [] <==> scope == [] || scope == [[]]
  {
    forall k | 0 <= k < |scope| ensures Separator !in EscapedAll(scope)[k] && '.' !in EscapedAll(scope)[k] {
      EscapedChars(scope[k]);
      assert !IsEscapedChar('.');
    }
    JoinAvoids(EscapedAll(scope), Separator);
    JoinAvoids(EscapedAll(scope), '.');
    if |scope| > 1 {
      assert |EncodedScope(scope)| >= |ScopeSep|;
    } else if |scope| == 1 {
      assert EncodedScope(scope) == Escaped(scope[0]);
    }
  }

  // ---------------------------------------------------------------- time

  /** The hour a file covers, in the location the timestamp is formatted in. */
  datatype Hour = Hour(year: nat, month: nat, day: nat, hour: nat)

  /** `s` left-padded with zeros to `width` characters. */
  function Pad(s: GoString, width: nat): (r: GoString)
    ensures |r| >= width
    ensures (forall i :: 0 <= i < |s| ==> IsDigit(s[i])) ==> forall i :: 0 <= i < |r| ==> IsDigit(r[i])
    decreases width - |s|
  {
    if |s| >= width then s else Pad("0" + s, width)
  }

  /** "YYYY-MM" of the hour: the month directory. */
  function MonthDir(t: Hour): (r: GoString)
    ensures forall i :: 0 <= i < |r| ==> IsDigit(r[i]) || r[i] == '-'
  {
    Pad(Digits(t.year), 4) + "-" + Pad(Digits(t.month), 2)
  }

  /** "DD-HH" of the hour: the day-and-hour directory. */
  function DayHourDir(t: Hour): (r: GoString)
    ensures r != [] && forall i :: 0 <= i < |r| ==> IsDigit(r[i]) || r[i] == '-'
  {
    Pad(Digits(t.day), 2) + "-" + Pad(Digits(t.hour), 2)
  }

  /** timestamp.Format of "2006-01/02-15/". */
  function DateDirs(t: Hour): GoString
  {
    MonthDir(t) + [Separator] + DayHourDir(t) + [Separator]
  }

  // ---------------------------------------------------------- full paths

  /** Compute: base, date directories, encoded scope, a separator and the escaped name. */
  function Computed(base: GoString, t: Hour, scope: seq<GoString>, name: GoString): GoString
  {
    base + DateDirs(t) + EncodedScope(scope) + [Separator] + Escaped(name)
  }

  lemma Associative(a: GoString, b: GoString, c: GoString, d: GoString)
    ensures a + b + c + d == a + (b + c + d)
  {
  }

  method Compute(base: GoString, t: Hour, scope: seq<GoString>, name: GoString) returns (r: GoString)
    ensures r == Computed(base, t, scope, name)
  {
    var out := new Builder();
    out.WriteString(base);
    out.WriteString(DateDirs(t));
    var start := out.data;
    assert start == base + DateDirs(t);
    for i := 0 to |scope|
      invariant out.data == start + EncodedScope(scope[..i])
    {
      EncodedScopePrefix(scope, i);
      ghost var sep: GoString := if i != 0 then ScopeSep else [];
      if i != 0 {
        out.WriteString(ScopeSep);
      }
      assert out.data == start + EncodedScope(scope[..i]) + sep;
      EscapeTo(scope[i], out);
      Associative(start, EncodedScope(scope[..i]), sep, Escaped(scope[i]));
    }
    assert scope[..|scope|] == scope;
    ghost var encoded := out.data;
    out.WriteString([Separator]);
    EscapeTo(name, out);
    assert out.data == encoded + [Separator] + Escaped(name);
    return out.data;
  }

  // ------------------------------------------------------------- parsing

  /** The index of the last separator. */
  function LastSeparator(s: GoString): (r: Option<nat>)
    ensures r.Some? ==> r.value < |s| && s[r.value] == Separator && Separator !in s[r.value + 1..]
    ensures r.None? ==> Separator !in s
  {
    if s == [] then None
    else if s[|s| - 1] == Separator then Some(|s| - 1)
    else
      assert s == s[..|s| - 1] + [s[|s| - 1]];
      match LastSeparator(s[..|s| - 1])
      case None => None
      case Some(k) =>
        assert s[k + 1..] == s[..|s| - 1][k + 1..] + [s[|s| - 1]];
        Some(k)
  }

  /** `s` without its trailing separators. */
  function TrimTrailing(s: GoString): (r: GoString)
    ensures |r| <= |s| && r == s[..|r|] && (r == [] || r[|r| - 1] != Separator)
  {
    if s != [] && s[|s| - 1] == Separator then TrimTrailing(s[..|s| - 1]) else s
  }

  /** filepath.Base: the last element, trailing separators removed; "." for "" and "/" for separators only. */
  function Base(p: GoString): GoString
  {
    var q := TrimTrailing(p);
    if p == [] then "."
    else if q == [] then [Separator]
    else match LastSeparator(q)
      case None => q
      case Some(k) => q[k + 1..]
  }

  /** A path element filepath.Clean keeps as it is: neither empty, "." nor "..". */
  predicate IsName(e: GoString)
  {
    e != [] && e != "." && e != ".."
  }

  /**
   * One element of filepath.Clean's scan added to the elements kept so
   * far: "" and "." are dropped; ".." removes the last kept name, and when
   * there is none it is kept in a relative path and dropped at the root.
   */
  function Push(kept: seq<GoString>, e: GoString, rooted: bool): seq<GoString>
  {
    if e == [] || e == "." then kept
    else if e == ".." then
      if kept != [] && kept[|kept| - 1] != ".." then kept[..|kept| - 1]
      else if rooted then kept
      else kept + [e]
    else kept + [e]
  }

  /** The elements filepath.Clean keeps of `p`, scanned left to right. */
  function Kept(p: GoString, rooted: bool): seq<GoString>
    decreases |p|
  {
    match LastSeparator(p)
    case None => Push([], p, rooted)
    case Some(k) => Push(Kept(p[..k], rooted), p[k + 1..], rooted)
  }

  /** Kept elements joined by single separators. */
  function JoinPath(kept: seq<GoString>): GoString
    decreases |kept|
  {
    if kept == [] then []
    else if |kept| == 1 then kept[0]
    else JoinPath(kept[..|kept| - 1]) + [Separator] + kept[|kept| - 1]
  }

  /**
   * filepath.Clean: the kept elements joined, after a separator when the
   * path is rooted; "." when nothing is kept of a relative path and "/"
   * when nothing is kept of a rooted one.
   */
  function Clean(p: GoString): GoString
  {
    var rooted := p != [] && p[0] == Separator;
    var kept := Kept(p, rooted);
    if kept == [] then (if rooted then [Separator] else ".")
    else (if rooted then [Separator] else []) + JoinPath(kept)
  }

  /** filepath.Dir: Clean of everything up to and including the last separator, of "" without one. */
  function Dir(p: GoString): GoString
  {
    match LastSeparator(p)
    case None => Clean([])
    case Some(k) => Clean(p[..k + 1])
  }

  /** Unescape of each part in turn, failing at the first that fails. */
  function UnescapedAll(parts: seq<GoString>): (r: Result<seq<GoString>>)
    ensures r.Ok? ==> |r.value| == |parts|
  {
    if parts == [] then Ok([])
    else
      match Unescaped(parts[0])
      case Err(e) => Err(e)
      case Ok(p) =>
        match UnescapedAll(parts[1..])
        case Err(e) => Err(e)
        case Ok(ps) => Ok([p] + ps)
  }

  /** Parse: the name from the last element, the scope from the one before, split at "_-". */
  function Parsed(path: GoString): Result<(GoString, seq<GoString>)>
  {
    match Unescaped(Base(path))
    case Err(e) => Err(e)
    case Ok(name) =>
      match UnescapedAll(Split(Base(Dir(path)), ScopeSep))
      case Err(e) => Err(e)
      case Ok(scope) => Ok((name, scope))
  }

  method Parse(path: GoString) returns (r: Result<(GoString, seq<GoString>)>)
    ensures r == Parsed(path)
  {
    var name := Unescape(Base(path));
    if name.Err? {
      return Err(name.error);
    }
    var parts := Split(Base(Dir(path)), ScopeSep);
    var scope: seq<GoString> := [];
    assert parts[0..] == parts;
    assert PrependAll(scope, UnescapedAll(parts)) == UnescapedAll(parts) by {
      if UnescapedAll(parts).Ok? {
        assert [] + UnescapedAll(parts).value == UnescapedAll(parts).value;
      }
    }
    for i := 0 to |parts|
      invariant UnescapedAll(parts) == PrependAll(scope, UnescapedAll(parts[i..]))
    {
      var part := Unescape(parts[i]);
      UnescapedAllStep(parts, i);
      if part.Err? {
        return Err(part.error);
      }
      PrependAllAssociative(scope, [part.value], UnescapedAll(parts[i + 1..]));
      scope := scope + [part.value];
    }
    assert parts[|parts|..] == [];
    assert scope + [] == scope;
    return Ok((name.value, scope));
  }

  lemma UnescapedAllStep(parts: seq<GoString>, i: nat)
    requires i < |parts|
    ensures Unescaped(parts[i]).Err? ==> UnescapedAll(parts[i..]) == Err(Unescaped(parts[i]).error)
    ensures Unescaped(parts[i]).Ok? ==>
      UnescapedAll(parts[i..]) == PrependAll([Unescaped(parts[i]).value], UnescapedAll(parts[i + 1..]))
  {
    assert parts[i..][0] == parts[i] && parts[i..][1..] == parts[i + 1..];
  }

  lemma PrependAllAssociative(a: seq<GoString>, b: seq<GoString>, r: Result<seq<GoString>>)
    ensures PrependAll(a, PrependAll(b, r)) == PrependAll(a + b, r)
  {
    if r.Ok? {
      assert a + (b + r.value) == (a + b) + r.value;
    }
  }

  /** `ps` in front of a successful result. */
  function PrependAll(ps: seq<GoString>, r: Result<seq<GoString>>): Result<seq<GoString>>
  {
    if r.Ok? then Ok(ps + r.value) else r
  }

  // ------------------------------------------------------- parse ∘ compute

  /** No '_' directly followed by '-': the condition under which a segment survives the scope split. */
  predicate NoUnderscoreDash(s: GoString)
  {
    forall i :: 0 <= i < |s| - 1 ==> !(s[i] == '_' && s[i + 1] == '-')
  }

  lemma {:induction false} EscapedNoUnderscoreDash(s: GoString)
    requires NoUnderscoreDash(s)
    ensures NoUnderscoreDash(Escaped(s))
    ensures Escaped(s) != [] ==> (Escaped(s)[0] == '-' <==> s[0] == '-')
    decreases |s|
  {
    if s != [] {
      var e := EscapeByte(s[0]);
      var rest := Escaped(s[1..]);
      EscapeByteShape(s[0]);
      assert NoUnderscoreDash(s[1..]) by {
        forall i | 0 <= i < |s[1..]| - 1 ensures !(s[1..][i] == '_' && s[1..][i + 1] == '-') {
          assert s[1..][i] == s[i + 1] && s[1..][i + 1] == s[i + 2];
        }
      }
      EscapedNoUnderscoreDash(s[1..]);
      var r := e + rest;
      forall i | 0 <= i < |r| - 1 ensures !(r[i] == '_' && r[i + 1] == '-') {
        if i < |e| - 1 {
          assert r[i] == e[i] && r[i + 1] == e[i + 1];
        } else if i == |e| - 1 {
          assert r[i] == e[|e| - 1] && r[i + 1] == rest[0];
          assert |s| > 1 ==> !(s[0] == '_' && s[1] == '-');
        } else {
          assert r[i] == rest[i - |e|] && r[i + 1] == rest[i + 1 - |e|];
        }
      }
    }
  }

  /** The escape of a segment without "_-" hides no scope separator. */
  lemma EscapedNoSepInside(s: GoString)
    requires NoUnderscoreDash(s)
    ensures NoSepInside(Escaped(s), ScopeSep)
  {
    var e := Escaped(s);
    EscapedNoUnderscoreDash(s);
    forall i | 0 <= i < |e| ensures !(ScopeSep <= (e + ScopeSep)[i..]) {
      var x := (e + ScopeSep)[i..];
      assert |x| >= 2 && x[0] == e[i];
      if i == |e| - 1 {
        assert x[1] == '_';
      } else {
        assert x[1] == e[i + 1];
      }
    }
  }

  lemma {:induction false} UnescapedAllEscaped(scope: seq<GoString>)
    ensures UnescapedAll(EscapedAll(scope)) == Ok(scope)
    decreases |scope|
  {
    if scope != [] {
      UnescapeEscape(scope[0]);
      assert EscapedAll(scope)[1..] == EscapedAll(scope[1..]);
      UnescapedAllEscaped(scope[1..]);
      assert [scope[0]] + scope[1..] == scope;
    }
  }

  /** The last separator is at `k` when none follows it. */
  lemma {:induction false} LastSeparatorAt(s: GoString, k: nat)
    requires k < |s| && s[k] == Separator && Separator !in s[k + 1..]
    ensures LastSeparator(s) == Some(k)
    decreases |s|
  {
    if k < |s| - 1 {
      var init := s[..|s| - 1];
      assert s[|s| - 1] == s[k + 1..][|s| - 2 - k];
      assert init[k + 1..] == s[k + 1..|s| - 1];
      assert s[k + 1..] == init[k + 1..] + [s[|s| - 1]];
      LastSeparatorAt(init, k);
    }
  }

  /** The last element of a path that ends in a separator and then `n`. */
  lemma BaseAfter(head: GoString, n: GoString)
    requires head != [] && head[|head| - 1] == Separator && n != [] && Separator !in n
    ensures Base(head + n) == n
    ensures LastSeparator(head + n) == Some(|head| - 1)
  {
    var p := head + n;
    assert p[|p| - 1] == n[|n| - 1];
    assert TrimTrailing(p) == p;
    assert p[|head|..] == n;
    LastSeparatorAt(p, |head| - 1);
  }

  /** A separator-free element is its own base. */
  lemma BaseName(e: GoString)
    requires e != [] && Separator !in e
    ensures Base(e) == e
  {
    assert e[|e| - 1] in e;
  }

  /** The base of a cleaned path is its last kept element. */
  lemma BaseOfJoin(prefix: GoString, kept: seq<GoString>, e: GoString)
    requires prefix == [] || prefix == [Separator]
    requires e != [] && Separator !in e
    ensures Base(prefix + JoinPath(kept + [e])) == e
  {
    var all := kept + [e];
    if kept == [] {
      assert JoinPath(all) == e;
      if prefix == [] {
        assert prefix + e == e;
        BaseName(e);
      } else {
        BaseAfter(prefix, e);
      }
    } else {
      assert all[..|all| - 1] == kept;
      var head := prefix + JoinPath(kept) + [Separator];
      assert prefix + JoinPath(all) == head + e;
      BaseAfter(head, e);
    }
  }

  /** Clean's elements of `h` then a separator-free `e` are those of `h` with `e` pushed. */
  lemma KeptAfter(h: GoString, e: GoString, rooted: bool)
    requires Separator !in e
    ensures Kept(h + [Separator] + e, rooted) == Push(Kept(h, rooted), e, rooted)
  {
    var p := h + [Separator] + e;
    assert p[|h| + 1..] == e;
    LastSeparatorAt(p, |h|);
    assert p[..|h|] == h;
  }

  /** A trailing separator adds no element. */
  lemma KeptSeparator(q: GoString, rooted: bool)
    ensures Kept(q + [Separator], rooted) == Kept(q, rooted)
  {
    assert q + [Separator] + [] == q + [Separator];
    KeptAfter(q, [], rooted);
  }

  /** The directory of `q`, a separator and a separator-free `n` is Clean of `q` and that separator. */
  lemma DirSplit(q: GoString, n: GoString)
    requires Separator !in n
    ensures Dir(q + [Separator] + n) == Clean(q + [Separator])
  {
    var p := q + [Separator] + n;
    assert p[|q| + 1..] == n;
    LastSeparatorAt(p, |q|);
    assert p[..|q| + 1] == q + [Separator];
  }

  /** The base of a cleaned path is the last element kept. */
  lemma BaseCleanLast(q: GoString, kept: seq<GoString>, e: GoString)
    requires e != [] && Separator !in e
    requires Kept(q, q != [] && q[0] == Separator) == kept + [e]
    ensures Base(Clean(q)) == e
  {
    BaseOfJoin(if q != [] && q[0] == Separator then [Separator] else [], kept, e);
  }

  /** filepath.Dir cleans: the directory of `a`, a separator and `n` is Clean(a). */
  lemma DirAfter(a: GoString, n: GoString)
    requires a != [] && Separator !in n
    ensures Dir(a + [Separator] + n) == Clean(a)
  {
    DirSplit(a, n);
    assert (a + [Separator])[0] == a[0];
    KeptSeparator(a, a[0] == Separator);
  }

  /** After a directory `head`, a name `e` is the one element `head + e` adds to what Clean keeps. */
  lemma KeptName(head: GoString, e: GoString, rooted: bool)
    requires head != [] && head[|head| - 1] == Separator
    requires IsName(e) && Separator !in e
    ensures Kept(head + e, rooted) == Kept(head[..|head| - 1], rooted) + [e]
  {
    var h := head[..|head| - 1];
    assert head + e == h + [Separator] + e;
    KeptAfter(h, e, rooted);
  }

  /** The element before the name is read from the cleaned directory: here the name `e`. */
  lemma BaseDirAfter(head: GoString, e: GoString, n: GoString)
    requires head != [] && head[|head| - 1] == Separator
    requires IsName(e) && Separator !in e && Separator !in n
    ensures Base(Dir(head + e + [Separator] + n)) == e
  {
    var q := head + e;
    DirSplit(q, n);
    var rooted := q[0] == Separator;
    assert (q + [Separator])[0] == q[0];
    KeptSeparator(q, rooted);
    KeptName(head, e, rooted);
    BaseCleanLast(q + [Separator], Kept(head[..|head| - 1], rooted), e);
  }

  /** A "." element is dropped: "x/./n" has the directory base "x". */
  lemma DotSkipped(head: GoString, e: GoString, n: GoString)
    requires head != [] && head[|head| - 1] == Separator
    requires IsName(e) && Separator !in e && Separator !in n
    ensures Base(Dir(head + e + [Separator] + "." + [Separator] + n)) == e
  {
    var q0 := head + e;
    var q := q0 + [Separator] + ".";
    DirSplit(q, n);
    var rooted := q0[0] == Separator;
    assert (q + [Separator])[0] == q0[0];
    KeptSeparator(q, rooted);
    KeptAfter(q0, ".", rooted);
    KeptName(head, e, rooted);
    BaseCleanLast(q + [Separator], Kept(head[..|head| - 1], rooted), e);
  }

  /** A name followed by ".." adds nothing to what Clean keeps. */
  lemma KeptDotDot(q: GoString, y: GoString, rooted: bool)
    requires IsName(y) && Separator !in y
    ensures Kept(q + [Separator] + y + [Separator] + "..", rooted) == Kept(q, rooted)
  {
    KeptAfter(q + [Separator] + y, "..", rooted);
    KeptAfter(q, y, rooted);
    var kept := Kept(q, rooted);
    assert (kept + [y])[..|kept|] == kept;
  }

  /** A ".." element removes the name before it: "x/y/../n" has the directory base "x". */
  lemma DotDotRemoves(head: GoString, e: GoString, y: GoString, n: GoString)
    requires head != [] && head[|head| - 1] == Separator
    requires IsName(e) && Separator !in e && IsName(y) && Separator !in y && Separator !in n
    ensures Base(Dir(head + e + [Separator] + y + [Separator] + ".." + [Separator] + n)) == e
  {
    var q0 := head + e;
    var q := q0 + [Separator] + y + [Separator] + "..";
    DirSplit(q, n);
    var rooted := q0[0] == Separator;
    assert (q + [Separator])[0] == q0[0];
    KeptSeparator(q, rooted);
    KeptDotDot(q0, y, rooted);
    KeptName(head, e, rooted);
    BaseCleanLast(q + [Separator], Kept(head[..|head| - 1], rooted), e);
  }

  /** The last two elements of a computed path: the encoded scope and the escaped name. */
  lemma ComputedElements(base: GoString, t: Hour, scope: seq<GoString>, name: GoString)
    requires name != [] && EncodedScope(scope) != []
    ensures Base(Computed(base, t, scope, name)) == Escaped(name)
    ensures Base(Dir(Computed(base, t, scope, name))) == EncodedScope(scope)
  {
    var enc := EncodedScope(scope);
    EncodedScopeEmpty(scope);
    var head := base + DateDirs(t);
    var a := head + enc;
    assert a[|a| - 1] == enc[|enc| - 1];
    EscapedChars(name);
    BaseAfter(a + [Separator], Escaped(name));
    assert enc[0] in enc;
    BaseDirAfter(head, enc, Escaped(name));
  }

  /**
   * Parse recovers what Compute encoded when the name is non-empty, the
   * scope encodes to a non-empty element, and no segment holds '_'
   * directly followed by '-'.
   */
  lemma ParseCompute(base: GoString, t: Hour, scope: seq<GoString>, name: GoString)
    requires name != [] && scope != [] && scope != [[]]
    requires forall k :: 0 <= k < |scope| ==> NoUnderscoreDash(scope[k])
    ensures Parsed(Computed(base, t, scope, name)) == Ok((name, scope))
  {
    EncodedScopeEmpty(scope);
    ComputedElements(base, t, scope, name);
    UnescapeEscape(name);
    forall k | 0 <= k < |scope| ensures NoSepInside(EscapedAll(scope)[k], ScopeSep) {
      EscapedNoSepInside(scope[k]);
    }
    SplitJoin(EscapedAll(scope), ScopeSep);
    UnescapedAllEscaped(scope);
  }

  /** Digits and '-' unescape to themselves. */
  lemma {:induction false} UnescapedPlain(s: GoString)
    requires forall i :: 0 <= i < |s| ==> IsDigit(s[i]) || s[i] == '-'
    ensures Unescaped(s) == Ok(s)
    decreases |s|
  {
    if s != [] {
      assert UnescapeStep(s) == Ok(([s[0]], 1));
      UnescapedStep(s);
      UnescapedPlain(s[1..]);
      assert [s[0]] + s[1..] == s;
    }
  }

  /** The last two elements of a path computed with no scope. */
  lemma ComputedEmptyElements(base: GoString, t: Hour, name: GoString)
    requires name != []
    ensures Base(Computed(base, t, [], name)) == Escaped(name)
    ensures Base(Dir(Computed(base, t, [], name))) == DayHourDir(t)
  {
    var dh := DayHourDir(t);
    var head := base + MonthDir(t) + [Separator];
    var n := Escaped(name);
    assert Computed(base, t, [], name) == head + dh + [Separator] + [Separator] + n by {
      assert EncodedScope([]) == [];
    }
    assert Separator !in n && n != [] by {
      EscapedChars(name);
    }
    assert dh[0] != '.' && Separator !in dh;
    BaseAfter(head + dh + [Separator] + [Separator], n);
    var q0 := head + dh;
    var q := q0 + [Separator];
    DirSplit(q, n);
    var rooted := q0[0] == Separator;
    assert (q + [Separator])[0] == q0[0];
    KeptSeparator(q, rooted);
    KeptSeparator(q0, rooted);
    KeptName(head, dh, rooted);
    BaseCleanLast(q + [Separator], Kept(head[..|head| - 1], rooted), dh);
  }

  /**
   * With no scope the element before the name is empty, and filepath.Clean
   * drops it: Parse then reports the day-and-hour
   * directory as the one scope segment.
   */
  lemma ParseComputeEmptyScope(base: GoString, t: Hour, name: GoString)
    requires name != []
    ensures Parsed(Computed(base, t, [], name)) == Ok((name, [DayHourDir(t)]))
  {
    var dh := DayHourDir(t);
    var p := Computed(base, t, [], name);
    ComputedEmptyElements(base, t, name);
    assert Split(Base(Dir(p)), ScopeSep) == [dh] by {
      forall i | 0 <= i < |dh| ensures !(ScopeSep <= dh[i..]) {
        assert dh[i..][0] == dh[i];
      }
      SplitNoSep(dh, ScopeSep);
    }
    assert UnescapedAll([dh]) == Ok([dh]) by {
      UnescapedPlain(dh);
      assert [dh][1..] == [];
    }
    assert Unescaped(Base(p)) == Ok(name) by {
      UnescapeEscape(name);
    }
  }

  /** "a__-b" splits at its "_-" into "a_" and "b", and "a_" does not unescape. */
  lemma UnderscoreDashSplit()
    ensures Escaped("a_-b") == "a__-b"
    ensures UnescapedAll(Split("a__-b", ScopeSep)) == Err(ErrUnparsable)
  {
    assert Escaped("a_-b") == "a__-b";
    SplitUnderscoreDash();
    TrailingUnderscore();
  }

  lemma SplitUnderscoreDash()
    ensures Split("a__-b", ScopeSep) == ["a_", "b"]
  {
    assert NoSepInside("a_", ScopeSep) by {
      assert ("a_" + ScopeSep)[0..] == "a__-";
      assert ("a_" + ScopeSep)[1..] == "__-";
    }
    SplitStep("a_", ScopeSep, "b");
    assert "a_" + ScopeSep + "b" == "a__-b";
    assert "b"[0..] == "b";
    SplitNoSep("b", ScopeSep);
  }

  lemma TrailingUnderscore()
    ensures Unescaped("a_") == Err(ErrUnparsable)
  {
    assert UnescapeStep("_") == Err(ErrUnparsable);
    assert UnescapeStep("a_") == Ok(("a", 1));
    UnescapedStep("a_");
    assert "a_"[1..] == "_";
  }

  /**
   * A segment holding "_-" does not come back: its escape "a__-b" splits
   * into "a_" and "b", and a lone trailing '_' is unparsable.
   */
  lemma ParseComputeUnderscoreDash(base: GoString, t: Hour, name: GoString)
    requires name != []
    ensures Parsed(Computed(base, t, ["a_-b"], name)) == Err(ErrUnparsable)
  {
    UnderscoreDashSplit();
    assert EscapedAll(["a_-b"]) == ["a__-b"];
    assert EncodedScope(["a_-b"]) == "a__-b";
    ComputedElements(base, t, ["a_-b"], name);
    UnescapeEscape(name);
  }
}
