/** The few JavaScript string primitives the core relies on, stated over `seq<char>`. */
module Text {

  /** The characters JavaScript's `\s` matches and `String.prototype.trim` removes:
      the WhiteSpace and LineTerminator code points of ECMAScript. */
  predicate IsSpace(c: char) {
    || c == '\t' || c == '\n' || c == '\U{0B}' || c == '\U{0C}' || c == '\r' || c == ' '
    || c == '\U{A0}' || c == '\U{1680}' || ('\U{2000}' <= c <= '\U{200A}')
    || c == '\U{2028}' || c == '\U{2029}' || c == '\U{202F}' || c == '\U{205F}'
    || c == '\U{3000}' || c == '\U{FEFF}'
  }

  predicate IsAsciiDigit(c: char) {
    '0' <= c <= '9'
  }

  predicate NoSpace(s: string) {
    forall i :: 0 <= i < |s| ==> !IsSpace(s[i])
  }

  /** `toUpperCase` restricted to ASCII: other characters are left as they are. */
  function UpperChar(c: char): (u: char)
    ensures 'a' <= c <= 'z' ==> u as int == c as int - 32
    ensures !('a' <= c <= 'z') ==> u == c
  {
    if 'a' <= c <= 'z' then (c as int - 32) as char else c
  }

  function Upper(s: string): (u: string)
    ensures |u| == |s|
    ensures forall i :: 0 <= i < |s| ==> u[i] == UpperChar(s[i])
  {
    if s == [] then [] else [UpperChar(s[0])] + Upper(s[1..])
  }

  /** Equality under the case folding of a non-unicode `/i` regular expression, which only
      ever identifies ASCII letters with each other. */
  predicate SameIgnoringCase(c: char, d: char) {
    UpperChar(c) == UpperChar(d)
  }

  /** `lit` occurs at the start of `s`, ignoring ASCII case. */
  predicate StartsWithIgnoreCase(s: string, lit: string) {
    && |lit| <= |s|
    && forall i :: 0 <= i < |lit| ==> SameIgnoringCase(s[i], lit[i])
  }

  predicate StartsWith(s: string, p: string) {
    |p| <= |s| && s[..|p|] == p
  }

  predicate EndsWith(s: string, p: string) {
    |p| <= |s| && s[|s| - |p|..] == p
  }

  /** A suffix of a suffix is a suffix. */
  lemma EndsWithTrans(a: string, b: string, c: string)
    requires EndsWith(a, b) && EndsWith(b, c)
    ensures EndsWith(a, c)
  {
    assert a[|a| - |c|..] == a[|a| - |b|..][|b| - |c|..];
  }

  /** A suffix of the right operand is a suffix of the concatenation. */
  lemma EndsWithConcat(a: string, b: string, c: string)
    requires EndsWith(b, c)
    ensures EndsWith(a + b, c)
  {
    assert (a + b)[|a + b| - |c|..] == b[|b| - |c|..];
  }

  predicate OccursAt(s: string, p: string, k: int) {
    0 <= k && k + |p| <= |s| && s[k..k + |p|] == p
  }

  /** An occurrence fixes the characters it covers. */
  lemma OccursAtChar(s: string, p: string, k: int, j: nat)
    requires j < |p|
    ensures OccursAt(s, p, k) ==> s[k + j] == p[j]
  {
    if OccursAt(s, p, k) {
      assert s[k..k + |p|][j] == p[j];
    }
  }

  /** A suffix fixes the last character. */
  lemma EndsWithLast(s: string, p: string)
    requires |p| > 0
    ensures EndsWith(s, p) ==> s[|s| - 1] == p[|p| - 1]
  {
    if EndsWith(s, p) {
      assert s[|s| - |p|..][|p| - 1] == p[|p| - 1];
    }
  }

  /** `s.indexOf(p, from)` for a non-empty needle: the first occurrence at or after `from`,
      or -1 when there is none. */
  function IndexOf(s: string, p: string, from: nat): (r: int)
    requires |p| > 0
    ensures r == -1 || (from <= r && OccursAt(s, p, r))
    ensures r == -1 ==> forall k :: from <= k ==> !OccursAt(s, p, k)
    ensures r != -1 ==> forall k :: from <= k < r ==> !OccursAt(s, p, k)
    decreases |s| - from
  {
    if from + |p| > |s| then -1
    else if s[from..from + |p|] == p then from
    else IndexOf(s, p, from + 1)
  }

  /** Length of the run of white space at the start of `t` (the greedy `\s+`). */
  function SpaceRun(t: string): (n: nat)
    ensures n <= |t|
    ensures forall i :: 0 <= i < n ==> IsSpace(t[i])
    ensures n == |t| || !IsSpace(t[n])
  {
    if |t| > 0 && IsSpace(t[0]) then 1 + SpaceRun(t[1..]) else 0
  }

  /** `s.trimStart()`: drops the leading run of white space and nothing else. */
  function TrimStart(s: string): (r: string)
    ensures |r| <= |s| && r == s[|s| - |r|..]
    ensures forall i :: 0 <= i < |s| - |r| ==> IsSpace(s[i])
    ensures r == [] || !IsSpace(r[0])
  {
    s[SpaceRun(s)..]
  }

  /** `s.trimEnd()`: drops the trailing run of white space and nothing else. */
  function TrimEnd(s: string): (r: string)
    ensures |r| <= |s| && r == s[..|r|]
    ensures forall i :: |r| <= i < |s| ==> IsSpace(s[i])
    ensures r == [] || !IsSpace(r[|r| - 1])
  {
    s[..|s| - TrailingSpaceRun(s)]
  }

  /** Length of the run of white space at the end of `t`. */
  function TrailingSpaceRun(t: string): (n: nat)
    ensures n <= |t|
    ensures forall i :: |t| - n <= i < |t| ==> IsSpace(t[i])
    ensures n == |t| || !IsSpace(t[|t| - n - 1])
  {
    if |t| > 0 && IsSpace(t[|t| - 1]) then 1 + TrailingSpaceRun(t[..|t| - 1]) else 0
  }

  /** `s.trim()`. */
  function Trim(s: string): string {
    TrimEnd(TrimStart(s))
  }

  lemma ConcatAssoc(x: string, y: string, z: string)
    ensures x + (y + z) == (x + y) + z
  {
  }

  /** A string with no white space is its own trim. */
  lemma TrimNoSpace(s: string)
    requires NoSpace(s)
    ensures Trim(s) == s
  {
  }

  /** `s.trim()` keeps a middle slice of `s`, so no character it did not have; what it
      keeps begins and ends with a non-space character. */
  lemma TrimSlice(s: string)
    ensures forall c :: c in Trim(s) ==> c in s
    ensures Trim(s) == [] || (!IsSpace(Trim(s)[0]) && !IsSpace(Trim(s)[|Trim(s)| - 1]))
  {
    var t := TrimStart(s);
    var a := |s| - |t|;
    assert Trim(s) == t[..|Trim(s)|];
    assert Trim(s) == s[a..a + |Trim(s)|];
    forall c | c in Trim(s) ensures c in s {
      var i :| 0 <= i < |Trim(s)| && Trim(s)[i] == c;
      assert s[a + i] == c;
    }
  }

  /** A string that begins with a non-space character does not trim to nothing. */
  lemma TrimSolidHead(s: string)
    requires |s| > 0 && !IsSpace(s[0])
    ensures Trim(s) != []
  {
    assert TrimStart(s) == s;
    assert !IsSpace(TrimStart(s)[0]);
  }

  /** A string that begins and ends with non-space characters is its own trim. */
  lemma TrimSolid(s: string)
    requires |s| > 0 && !IsSpace(s[0]) && !IsSpace(s[|s| - 1])
    ensures Trim(s) == s
  {
    TrimKeepsSolidSuffix([], s);
    assert [] + s == s;
  }

  /** Trimming `u + v` where `v` begins and ends with non-space characters keeps `v` whole. */
  lemma TrimKeepsSolidSuffix(u: string, v: string)
    requires |v| > 0 && !IsSpace(v[0]) && !IsSpace(v[|v| - 1])
    ensures EndsWith(Trim(u + v), v)
  {
    TrimStartStopsAt(u, v);
    var a := TrimStart(u) + v;
    assert a[|a| - 1] == v[|v| - 1];
    assert TrimEnd(a) == a;
    assert a[|a| - |v|..] == v;
  }

  lemma {:induction false} TrimStartStopsAt(u: string, v: string)
    requires |v| > 0 && !IsSpace(v[0])
    ensures TrimStart(u + v) == TrimStart(u) + v
  {
    if u == [] {
      assert u + v == v;
    } else {
      assert (u + v)[0] == u[0];
      assert (u + v)[1..] == u[1..] + v;
      TrimStartStopsAt(u[1..], v);
    }
  }

  // ---------------------------------------------------------------------------
  // `split('\n')` and `join('\n')`

  /** `s.split('\n')`: the pieces between newlines, always at least one. */
  function Lines(s: string): (r: seq<string>)
    ensures |r| >= 1
    ensures forall i :: 0 <= i < |r| ==> '\n' !in r[i]
  {
    if s == [] then [[]]
    else
      var rest := Lines(s[1..]);
      if s[0] == '\n' then [[]] + rest else [[s[0]] + rest[0]] + rest[1..]
  }

  /** `lines.join('\n')`. */
  function JoinLines(lines: seq<string>): string {
    if |lines| == 0 then []
    else if |lines| == 1 then lines[0]
    else lines[0] + "\n" + JoinLines(lines[1..])
  }

  /** Joining the pieces of a split gives the string back. */
  lemma {:induction false} JoinLinesOfLines(s: string)
    ensures JoinLines(Lines(s)) == s
  {
    if s != [] {
      var rest := Lines(s[1..]);
      JoinLinesOfLines(s[1..]);
      if s[0] == '\n' {
        assert Lines(s) == [[]] + rest;
        assert JoinLines([[]] + rest) == [] + "\n" + JoinLines(rest);
      } else {
        var r := Lines(s);
        assert r == [[s[0]] + rest[0]] + rest[1..];
        if |rest| == 1 {
          assert JoinLines(r) == [s[0]] + rest[0];
        } else {
          assert JoinLines(rest) == rest[0] + "\n" + JoinLines(rest[1..]);
          assert JoinLines(r) == ([s[0]] + rest[0]) + "\n" + JoinLines(rest[1..]);
        }
      }
    }
  }

  /** The first piece of a split runs up to the first newline. */
  lemma LinesHead(s: string)
    requires |s| > 0 && s[0] != '\n'
    ensures |Lines(s)[0]| > 0 && Lines(s)[0][0] == s[0]
  {
  }

  /** The last piece of a split keeps any newline-free ending of the string. */
  lemma {:induction false} LinesLast(s: string, v: string)
    requires '\n' !in v && EndsWith(s, v)
    ensures EndsWith(Lines(s)[|Lines(s)| - 1], v)
  {
    if |s| == |v| {
      assert s == v;
      LinesOfNewlineFree(s);
    } else {
      var rest := Lines(s[1..]);
      assert s[1..][|s[1..]| - |v|..] == s[|s| - |v|..];
      LinesLast(s[1..], v);
      var last := rest[|rest| - 1];
      if s[0] != '\n' && |rest| == 1 {
        var first := [s[0]] + rest[0];
        assert Lines(s) == [first];
        assert first[|first| - |v|..] == last[|last| - |v|..];
      }
    }
  }

  /** A join whose first line is not empty is not empty. */
  lemma JoinLinesNonEmpty(lines: seq<string>)
    requires |lines| >= 1 && lines[0] != []
    ensures JoinLines(lines) != []
  {
    if |lines| > 1 {
      assert JoinLines(lines)[0] == lines[0][0];
    }
  }

  /** A join ends with its last line. */
  lemma {:induction false} JoinLinesLast(lines: seq<string>)
    requires |lines| >= 1
    ensures EndsWith(JoinLines(lines), lines[|lines| - 1])
  {
    if |lines| > 1 {
      JoinLinesLast(lines[1..]);
      var tail := JoinLines(lines[1..]);
      var j := lines[0] + "\n" + tail;
      var last := lines[|lines| - 1];
      assert j[|j| - |last|..] == tail[|tail| - |last|..];
    }
  }

  /** Splitting newline-free pieces joined by newlines gives the pieces back. */
  lemma {:induction false} LinesOfJoinLines(lines: seq<string>)
    requires |lines| >= 1
    requires forall i :: 0 <= i < |lines| ==> '\n' !in lines[i]
    ensures Lines(JoinLines(lines)) == lines
  {
    if |lines| == 1 {
      LinesOfNewlineFree(lines[0]);
    } else {
      LinesOfJoinLines(lines[1..]);
      LinesOfPieceAndRest(lines[0], JoinLines(lines[1..]));
      assert Lines(JoinLines(lines[1..])) == lines[1..];
      assert [lines[0]] + lines[1..] == lines;
    }
  }

  lemma {:induction false} LinesOfNewlineFree(s: string)
    requires '\n' !in s
    ensures Lines(s) == [s]
  {
    if s != [] {
      LinesOfNewlineFree(s[1..]);
      assert [s[0]] + s[1..] == s;
    }
  }

  lemma {:induction false} LinesOfPieceAndRest(p: string, t: string)
    requires '\n' !in p
    ensures Lines(p + "\n" + t) == [p] + Lines(t)
  {
    if p == [] {
      assert p + "\n" + t == "\n" + t;
      assert ("\n" + t)[1..] == t;
    } else {
      var s := p + "\n" + t;
      assert s[1..] == p[1..] + "\n" + t;
      LinesOfPieceAndRest(p[1..], t);
      assert [p[0]] + p[1..] == p;
    }
  }
}
