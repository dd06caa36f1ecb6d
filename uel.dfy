/**
 * The cursor of the event-query language parser (eventkitd/private/uel/
 * uel.go): a position in the source runes with its line and column, the
 * rune under the cursor, and the moves the parser is built from (advance,
 * checkpoint and restore, lookahead, and skipping comments and white
 * space).
 *
 * The source is given as its runes; Go's UTF-8 decoding of the string is
 * not modelled.  A rune is an `int`, with -1 for "no rune".
 */
module Uel {
  import opened Wrappers

  const NoChar: int := -1
  const ErrUnexpectedEof: string := "unexpected eof"

  /** The rune at position `k`, or -1 outside the source. */
  function CharAt(source: seq<char>, k: int): int
  {
    if 0 <= k < |source| then source[k] as int else NoChar
  }

  /** The number of newlines in `s`: how far the line number moves when `s` is consumed. */
  function Lines(s: seq<char>): (n: nat)
    ensures n <= |s|
    ensures '\n' !in s ==> n == 0
  {
    if s == [] then 0 else Lines(s[..|s| - 1]) + (if s[|s| - 1] == '\n' then 1 else 0)
  }

  /**
   * The column after consuming `s` from column `col`: a newline resets it to
   * 1 and any other rune moves it by one.
   */
  function ColAfter(s: seq<char>, col: int): (c: int)
    ensures '\n' !in s ==> c == col + |s|
    ensures col >= 1 ==> c >= 1
    ensures s != [] && s[|s| - 1] == '\n' ==> c == 1
  {
    if s == [] then col
    else if s[|s| - 1] == '\n' then 1
    else ColAfter(s[..|s| - 1], col) + 1
  }

  /** Consuming `a` and then `b` moves line and column as consuming `a + b` does. */
  lemma {:induction false} ConsumeConcat(a: seq<char>, b: seq<char>, col: int)
    ensures Lines(a + b) == Lines(a) + Lines(b)
    ensures ColAfter(a + b, col) == ColAfter(b, ColAfter(a, col))
    decreases |b|
  {
    if b == [] {
      assert a + b == a;
    } else {
      var b' := b[..|b| - 1];
      assert (a + b)[..|a + b| - 1] == a + b';
      ConsumeConcat(a, b', col);
    }
  }

  /** After the column resets, it counts the runes since the last newline. */
  lemma {:induction false} ColAfterLastLine(s: seq<char>, col: int, k: nat)
    requires k < |s| && s[k] == '\n' && forall j :: k < j < |s| ==> s[j] != '\n'
    ensures ColAfter(s, col) == |s| - k
    decreases |s|
  {
    if k < |s| - 1 {
      ColAfterLastLine(s[..|s| - 1], col, k);
    }
  }

  /** Line and column moved over two adjacent stretches are moved over their union. */
  lemma Chain(source: seq<char>, p0: int, p1: int, p2: int, l0: int, c0: int, l1: int, c1: int, l2: int, c2: int)
    requires 0 <= p0 <= p1 <= p2 <= |source|
    requires l1 == l0 + Lines(source[p0..p1]) && c1 == ColAfter(source[p0..p1], c0)
    requires l2 == l1 + Lines(source[p1..p2]) && c2 == ColAfter(source[p1..p2], c1)
    ensures l2 == l0 + Lines(source[p0..p2]) && c2 == ColAfter(source[p0..p2], c0)
  {
    assert source[p0..p2] == source[p0..p1] + source[p1..p2];
    ConsumeConcat(source[p0..p1], source[p1..p2], c0);
  }

  /** The first newline at or after `q`, or the end of the source. */
  function NextNewline(source: seq<char>, q: nat): (r: nat)
    ensures q <= r && (r >= |source| || source[r] == '\n')
    ensures r <= q || r <= |source|
    ensures forall j :: q <= j < r && j < |source| ==> source[j] != '\n'
    decreases |source| - q
  {
    if q >= |source| || source[q] == '\n' then q else NextNewline(source, q + 1)
  }

  /**
   * Where skipComment stops from position `p`: nowhere unless on '#';
   * otherwise the rune after '#' is consumed whatever it is, and the
   * comment runs to the next newline (not consumed) or the end.
   */
  function CommentEnd(source: seq<char>, p: nat): nat
  {
    if CharAt(source, p) != '#' as int then p
    else if p + 1 >= |source| then p + 1
    else NextNewline(source, p + 2)
  }

  predicate IsBlank(c: int)
  {
    c == ' ' as int || c == '\t' as int || c == '\r' as int || c == '\n' as int
  }

  /** One skipWhitespace from position `p`: whether it skipped, and where it stops. */
  function WhitespaceStep(source: seq<char>, p: nat): (bool, nat)
  {
    if p >= |source| then (false, p)
    else if CharAt(source, p) == '#' as int then (true, CommentEnd(source, p))
    else if IsBlank(CharAt(source, p)) then (true, p + 1)
    else (false, p)
  }

  /** Every step that skips moves strictly forward and stays within the source. */
  lemma WhitespaceStepAdvances(source: seq<char>, p: nat)
    ensures var (skipped, q) := WhitespaceStep(source, p);
      (skipped ==> p < q <= |source|) && (!skipped ==> q == p)
      && (skipped <==> p < |source| && (source[p] == '#' || IsBlank(source[p] as int)))
  {
  }

  /** Where skipAllWhitespace stops: steps are taken until one skips nothing. */
  function SkipAllEnd(source: seq<char>, p: nat): nat
    decreases |source| - p
  {
    var (skipped, q) := WhitespaceStep(source, p);
    WhitespaceStepAdvances(source, p);
    if !skipped || p >= |source| then p else SkipAllEnd(source, q)
  }

  /** skipAllWhitespace stops at the end or on a rune that neither opens a comment nor is white space. */
  lemma {:induction false} SkipAllStops(source: seq<char>, p: nat)
    requires p <= |source|
    ensures var q := SkipAllEnd(source, p);
      p <= q <= |source| && (q == |source| || (source[q] != '#' && !IsBlank(source[q] as int)))
    decreases |source| - p
  {
    WhitespaceStepAdvances(source, p);
    var (skipped, q) := WhitespaceStep(source, p);
    if skipped && p < |source| {
      SkipAllStops(source, q);
    }
  }

  /** An empty comment does not end at the newline right after '#': the next line is skipped too. */
  lemma EmptyCommentRunsOn(source: seq<char>, p: nat)
    requires p + 2 < |source| && source[p] == '#' && source[p + 1] == '\n' && source[p + 2] != '\n'
    ensures CommentEnd(source, p) > p + 2
  {
  }

  class Parser {
    const source: seq<char>
    var pos: int
    var line: int
    var col: int
    var currentChar: int

    /** The cursor is in the source (or just past it) and currentChar is the rune under it. */
    predicate Valid()
      reads this
    {
      0 <= pos <= |source| && currentChar == CharAt(source, pos)
    }

    /** Line and column moved from (p0, l0, c0) by the runes consumed since p0. */
    predicate MovedFrom(p0: int, l0: int, c0: int)
      reads this
    {
      0 <= p0 <= pos <= |source| && line == l0 + Lines(source[p0..pos]) && col == ColAfter(source[p0..pos], c0)
    }

    /** NewParser: at the first rune, line 1, column 1. */
    constructor(source: seq<char>)
      ensures this.source == source && Valid()
      ensures pos == 0 && line == 1 && col == 1
      ensures currentChar == (if |source| > 0 then source[0] as int else NoChar)
    {
      this.source := source;
      pos := 0;
      line := 1;
      col := 1;
      currentChar := if |source| > 0 then source[0] as int else NoChar;
    }

    /** eof: the cursor is at or past the end. */
    function Eof(): (r: bool)
      reads this
      requires Valid()
      ensures r <==> currentChar == NoChar
    {
      pos >= |source|
    }

    /** char: the rune `lookahead` places from the cursor, or -1. */
    function Char(lookahead: int): (r: int)
      reads this
      requires Valid()
      ensures lookahead == 0 ==> r == currentChar
      ensures r == NoChar <==> !(0 <= pos + lookahead < |source|)
    {
      CharAt(source, pos + lookahead)
    }

    /** One iteration of advance's loop: consumes the rune under the cursor. */
    method Step()
      requires Valid() && pos < |source|
      modifies this
      ensures Valid() && pos == old(pos) + 1 && MovedFrom(old(pos), old(line), old(col))
    {
      assert source[pos..pos + 1] == [source[pos]];
      if currentChar == '\n' as int {
        line := line + 1;
        col := 1;
      } else {
        col := col + 1;
      }
      pos := pos + 1;
      if pos >= |source| {
        currentChar := NoChar;
      } else {
        currentChar := source[pos] as int;
      }
    }

    /**
     * advance: moves `distance` runes forward, keeping line, column and
     * currentChar in step; running out of source stops at the end with
     * "unexpected eof".
     */
    method Advance(distance: int) returns (err: Option<string>)
      requires Valid()
      modifies this
      ensures Valid() && MovedFrom(old(pos), old(line), old(col))
      ensures err.Some? <==> distance > 0 && old(pos) + distance > |source|
      ensures err.Some? ==> err.value == ErrUnexpectedEof && pos == |source|
      ensures err.None? ==> pos == old(pos) + (if distance > 0 then distance else 0)
    {
      var i := 0;
      while i < distance
        invariant 0 <= i && (distance > 0 ==> i <= distance) && (distance <= 0 ==> i == 0)
        invariant Valid() && pos == old(pos) + i
        invariant MovedFrom(old(pos), old(line), old(col))
      {
        if Eof() {
          return Some(ErrUnexpectedEof);
        }
        ghost var p1, l1, c1 := pos, line, col;
        Step();
        Chain(source, old(pos), p1, pos, old(line), old(col), l1, c1, line, col);
        i := i + 1;
      }
      return None;
    }

    /** checkpoint: the cursor's position, column and line. */
    function Checkpoint(): (r: (int, int, int))
      reads this
      ensures r.0 == pos && r.1 == col && r.2 == line
    {
      (pos, col, line)
    }

    /** restore: puts the cursor back and re-reads the rune under it. */
    method Restore(pos: int, col: int, line: int)
      requires 0 <= pos <= |source|
      modifies this
      ensures Valid() && this.pos == pos && this.col == col && this.line == line
    {
      this.pos, this.col, this.line := pos, col, line;
      if this.pos >= |source| {
        currentChar := NoChar;
      } else {
        currentChar := source[this.pos] as int;
      }
    }

    /** Restoring a checkpoint changes nothing. */
    method RestoreCheckpoint()
      requires Valid()
      modifies this
      ensures pos == old(pos) && col == old(col) && line == old(line) && currentChar == old(currentChar)
    {
      var (p, c, l) := Checkpoint();
      Restore(p, c, l);
    }

    /**
     * skipComment: on '#', skips to the next newline (left unconsumed) or
     * to the end, reporting that it skipped; elsewhere it does nothing.
     * Its advances never run out of source, so it never fails.
     */
    method SkipComment() returns (skipped: bool, err: Option<string>)
      requires Valid()
      modifies this
      ensures Valid() && MovedFrom(old(pos), old(line), old(col)) && err.None?
      ensures skipped <==> old(currentChar) == '#' as int
      ensures pos == CommentEnd(source, old(pos))
    {
      if currentChar != '#' as int {
        return false, None;
      }
      ghost var p0, l0, c0 := pos, line, col;
      err := Advance(1);
      assert pos == p0 + 1;
      while true
        invariant Valid() && MovedFrom(p0, l0, c0) && p0 + 1 <= pos
        invariant pos == p0 + 1 || (CharAt(source, pos) != '\n' as int && NextNewline(source, pos) == NextNewline(source, p0 + 2))
        decreases |source| - pos
      {
        if Eof() {
          return true, None;
        }
        ghost var p1, l1, c1 := pos, line, col;
        Step();
        Chain(source, p0, p1, pos, l0, c0, l1, c1, line, col);
        if currentChar == '\n' as int {
          return true, None;
        }
      }
    }

    /** skipWhitespace: one comment or one white-space rune, as WhitespaceStep says. */
    method SkipWhitespace() returns (skipped: bool, err: Option<string>)
      requires Valid()
      modifies this
      ensures Valid() && MovedFrom(old(pos), old(line), old(col)) && err.None?
      ensures (skipped, pos) == WhitespaceStep(source, old(pos))
    {
      if Eof() {
        return false, None;
      }
      skipped, err := SkipComment();
      if skipped {
        return true, None;
      }
      if IsBlank(currentChar) {
        err := Advance(1);
        return true, err;
      }
      return false, None;
    }

    /** skipAllWhitespace: skips until nothing more is skipped, reporting whether anything was. */
    method SkipAllWhitespace() returns (anySkipped: bool, err: Option<string>)
      requires Valid()
      modifies this
      ensures Valid() && MovedFrom(old(pos), old(line), old(col)) && err.None?
      ensures pos == SkipAllEnd(source, old(pos))
      ensures anySkipped <==> pos > old(pos)
    {
      anySkipped := false;
      ghost var p0, l0, c0 := pos, line, col;
      while true
        invariant Valid() && MovedFrom(p0, l0, c0)
        invariant SkipAllEnd(source, pos) == SkipAllEnd(source, p0)
        invariant anySkipped <==> pos > p0
        decreases |source| - pos
      {
        ghost var p1, l1, c1 := pos, line, col;
        var skipped;
        skipped, err := SkipWhitespace();
        WhitespaceStepAdvances(source, p1);
        Chain(source, p0, p1, pos, l0, c0, l1, c1, line, col);
        if !skipped {
          return anySkipped, None;
        }
        anySkipped := true;
      }
    }
  }
}
