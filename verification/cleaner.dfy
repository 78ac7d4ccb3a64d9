/** `cleanChannelName` (splitter.js:18-29): two global regular-expression rewrites of a
    display name, then `trim`, memoised per raw name.

    Each rewrite is the left-to-right scan of JavaScript's global `replace`: at each
    position the pattern's alternatives are tried in order; a match is replaced and the scan
    resumes right after it, otherwise the character is kept and the scan moves one place
    on. Neither pattern looks behind or is anchored, so whether a match starts at a position
    depends only on the suffix from there, and each pass is a recursion on suffixes. */
module Cleaner {
  import opened Wrappers
  import opened Text

  // ---------------------------------------------------------------------------
  // Pass 1: /\s+|[()（）－_—·•-]|频道|超清|HD|高清(?![^()（）]*[电影])/gi, replaced by ''

  /** The single characters of the class `[()（）－_—·•-]`. */
  predicate IsDecoration(c: char) {
    || c == '(' || c == ')' || c == '（' || c == '）' || c == '－'
    || c == '_' || c == '—' || c == '·' || c == '•' || c == '-'
  }

  predicate NoDecoration(s: string) {
    forall i :: 0 <= i < |s| ==> !IsDecoration(s[i])
  }

  /** The characters excluded by `[^()（）]`, which bound the look-ahead after 高清. */
  predicate IsBracket(c: char) {
    c == '(' || c == ')' || c == '（' || c == '）'
  }

  predicate IsFilmChar(c: char) {
    c == '电' || c == '影'
  }

  /** `[^()（）]*[电影]` matches at the start of `t`. */
  predicate FilmAhead(t: string) {
    |t| > 0 && !IsBracket(t[0]) && (IsFilmChar(t[0]) || FilmAhead(t[1..]))
  }

  /** The look-ahead succeeds exactly when a 电 or 影 occurs before the first bracket. */
  lemma {:induction false} FilmAheadMeans(t: string)
    ensures FilmAhead(t) <==>
      exists k :: 0 <= k < |t| && IsFilmChar(t[k]) && forall j :: 0 <= j < k ==> !IsBracket(t[j])
  {
    if |t| > 0 {
      FilmAheadMeans(t[1..]);
      if FilmAhead(t) && !IsFilmChar(t[0]) {
        var k :| 0 <= k < |t[1..]| && IsFilmChar(t[1..][k]) && forall j :: 0 <= j < k ==> !IsBracket(t[1..][j]);
        assert IsFilmChar(t[k + 1]) && forall j :: 0 <= j < k + 1 ==> !IsBracket(t[j]);
      }
      if !FilmAhead(t) {
        forall k | 0 <= k < |t| && IsFilmChar(t[k])
          ensures exists j :: 0 <= j < k && IsBracket(t[j])
        {
          if !IsBracket(t[0]) {
            assert k > 0;
            assert IsFilmChar(t[1..][k - 1]);
            var j :| 0 <= j < k - 1 && IsBracket(t[1..][j]);
            assert IsBracket(t[j + 1]);
          }
        }
      }
    }
  }

  /** Length of the pass-1 match at the start of `t`, alternatives in the pattern's order;
      0 when no alternative matches there. */
  function StripMatch(t: string): (n: nat)
    ensures n <= |t|
    ensures |t| > 0 && (IsSpace(t[0]) || IsDecoration(t[0])) ==> n > 0
  {
    if |t| == 0 then 0
    else if IsSpace(t[0]) then SpaceRun(t)
    else if IsDecoration(t[0]) then 1
    else if StartsWith(t, "频道") || StartsWith(t, "超清") then 2
    else if StartsWithIgnoreCase(t, "HD") then 2
    else if StartsWith(t, "高清") && !FilmAhead(t[2..]) then 2
    else 0
  }

  /** The first `replace` of `cleanChannelName`. */
  function Strip(s: string): (r: string)
    ensures |r| <= |s|
    decreases |s|
  {
    if s == [] then []
    else
      var n := StripMatch(s);
      if n > 0 then Strip(s[n..]) else [s[0]] + Strip(s[1..])
  }

  /** Pass 1 leaves no white space and no character of the class `[()（）－_—·•-]`. */
  lemma {:induction false} StripIsClean(s: string)
    ensures NoSpace(Strip(s)) && NoDecoration(Strip(s))
    decreases |s|
  {
    if s != [] {
      var n := StripMatch(s);
      if n > 0 {
        StripIsClean(s[n..]);
      } else {
        StripIsClean(s[1..]);
        var r := Strip(s[1..]);
        assert Strip(s) == [s[0]] + r;
        assert forall i :: 1 <= i < |r| + 1 ==> ([s[0]] + r)[i] == r[i - 1];
      }
    }
  }

  /** 高清 is removed unless a 电 or 影 follows it before the next bracket; a bracket ends
      the look-ahead, so 高清 before a bracketed 电影 is still removed. */
  lemma HighDefinitionRule(t: string)
    ensures Strip("高清" + t) == (if FilmAhead(t) then "高清" else "") + Strip(t)
  {
    StripMatchAtHigh(t);
    if FilmAhead(t) {
      HighDefinitionKept(t);
    } else {
      HighDefinitionDropped(t);
      assert "" + Strip(t) == Strip(t);
    }
  }

  lemma HighDefinitionKept(t: string)
    requires StripMatch("高清" + t) == 0
    ensures Strip("高清" + t) == "高清" + Strip(t)
  {
    var s := "高清" + t;
    assert s[1..] == "清" + t;
    StripKeeps(s);
    StripMatchAtClear(t);
    StripKeeps("清" + t);
    assert ("清" + t)[1..] == t;
  }

  lemma HighDefinitionDropped(t: string)
    requires StripMatch("高清" + t) == 2
    ensures Strip("高清" + t) == Strip(t)
  {
    var s := "高清" + t;
    assert s[2..] == t;
    StripDrops(s);
  }

  lemma StripMatchAtHigh(t: string)
    ensures StripMatch("高清" + t) == (if FilmAhead(t) then 0 else 2)
  {
    var s := "高清" + t;
    assert s[0] == '高' && s[1] == '清' && s[2..] == t;
    assert !IsSpace(s[0]) && !IsDecoration(s[0]);
    assert !StartsWithIgnoreCase(s, "HD") by {
      assert !SameIgnoringCase(s[0], "HD"[0]);
    }
  }

  lemma StripMatchAtClear(t: string)
    ensures StripMatch("清" + t) == 0
  {
    var s := "清" + t;
    assert s[0] == '清';
    assert !IsSpace(s[0]) && !IsDecoration(s[0]);
    assert !StartsWithIgnoreCase(s, "HD") by {
      assert !SameIgnoringCase(s[0], "HD"[0]);
    }
  }

  /** Where no pass-1 alternative matches, the character is kept. */
  lemma StripKeeps(s: string)
    requires s != [] && StripMatch(s) == 0
    ensures Strip(s) == [s[0]] + Strip(s[1..])
  {
  }

  /** Where pass 1 matches, the match is dropped and the scan resumes after it. */
  lemma StripDrops(s: string)
    requires s != [] && StripMatch(s) > 0
    ensures Strip(s) == Strip(s[StripMatch(s)..])
  {
  }

  /** 频道, 超清 and HD in any ASCII case are removed wherever the scan meets them, whatever
      follows. */
  lemma TokenRemoved(tok: string, t: string)
    requires tok == "频道" || tok == "超清" || (|tok| == 2 && StartsWithIgnoreCase(tok, "HD"))
    ensures Strip(tok + t) == Strip(t)
  {
    var s := tok + t;
    StripMatchAtToken(tok, t);
    StripDrops(s);
    assert s[2..] == t;
  }

  lemma StripMatchAtToken(tok: string, t: string)
    requires tok == "频道" || tok == "超清" || (|tok| == 2 && StartsWithIgnoreCase(tok, "HD"))
    ensures StripMatch(tok + t) == 2
  {
    var s := tok + t;
    assert s[0] == tok[0] && s[1] == tok[1];
    if tok == "频道" || tok == "超清" {
      assert !IsSpace(s[0]) && !IsDecoration(s[0]);
      assert StartsWith(s, tok);
    } else {
      assert tok[0] == 'H' || tok[0] == 'h';
      assert !IsSpace(s[0]) && !IsDecoration(s[0]);
      assert !StartsWith(s, "频道") && !StartsWith(s, "超清");
      assert StartsWithIgnoreCase(s, "HD");
    }
  }

  /** A character no pass-1 alternative can start with. */
  predicate IsPlain(c: char) {
    !IsSpace(c) && !IsDecoration(c) && c != '频' && c != '超' && c != 'H' && c != 'h' && c != '高'
  }

  /** Characters no alternative can start with pass through pass 1 unchanged, whatever
      follows them. */
  lemma {:induction false} StripPlainPrefix(a: string, b: string)
    requires forall i :: 0 <= i < |a| ==> IsPlain(a[i])
    ensures Strip(a + b) == a + Strip(b)
  {
    if a == [] {
      assert a + b == b;
    } else {
      var s := a + b;
      assert s[0] == a[0] && s[1..] == a[1..] + b;
      assert Strip(s) == [a[0]] + Strip(a[1..] + b) by {
        StripKeepsPlain(s);
      }
      StripPlainPrefix(a[1..], b);
      ConcatAssoc([a[0]], a[1..], Strip(b));
      assert [a[0]] + a[1..] == a;
    }
  }

  lemma StripKeepsPlain(s: string)
    requires s != [] && IsPlain(s[0])
    ensures Strip(s) == [s[0]] + Strip(s[1..])
  {
    assert !StartsWithIgnoreCase(s, "HD") by {
      assert !SameIgnoringCase(s[0], "HD"[0]);
    }
    StripKeeps(s);
  }

  // ---------------------------------------------------------------------------
  // Pass 2: /(CCTV)(\d+)(\+?)[\u4e00-\u9fa5]+(?!欧洲|美洲)/gi, replaced by '$1$2$3'

  predicate IsCjk(c: char) {
    '\U{4E00}' <= c <= '\U{9FA5}'
  }

  /** Length of the run of `[\u4e00-\u9fa5]` at the start of `t`. */
  function CjkRun(t: string): (n: nat)
    ensures n <= |t|
    ensures forall i :: 0 <= i < n ==> IsCjk(t[i])
    ensures n == |t| || !IsCjk(t[n])
  {
    if |t| > 0 && IsCjk(t[0]) then 1 + CjkRun(t[1..]) else 0
  }

  /** Length of the run of `\d` (ASCII digits only) at the start of `t`. */
  function DigitRun(t: string): (n: nat)
    ensures n <= |t|
    ensures forall i :: 0 <= i < n ==> IsAsciiDigit(t[i])
    ensures n == |t| || !IsAsciiDigit(t[n])
  {
    if |t| > 0 && IsAsciiDigit(t[0]) then 1 + DigitRun(t[1..]) else 0
  }

  /** The negative look-ahead `(?!欧洲|美洲)` fails at the start of `t`. */
  predicate ContinentAhead(t: string) {
    StartsWith(t, "欧洲") || StartsWith(t, "美洲")
  }

  /** `[\u4e00-\u9fa5]+(?!欧洲|美洲)` at the start of `t`, with the engine's backtracking:
      the greedy quantifier first tries `k` characters, then gives them back one by one
      until the look-ahead passes. Yields the number of characters consumed. */
  function CjkTail(t: string, k: nat): (r: Option<nat>)
    requires k <= CjkRun(t)
    ensures r.Some? ==> 1 <= r.value <= k
    decreases k
  {
    if k == 0 then None
    else if !ContinentAhead(t[k..]) then Some(k)
    else CjkTail(t, k - 1)
  }

  /** `(\+?)` followed by the CJK tail at the start of `t`. The optional '+' is greedy; giving
      it back would leave the '+' itself in front of `[\u4e00-\u9fa5]`, which cannot match
      it, so only the first choice can succeed. Yields (length of '+', length of CJK run). */
  function PlusTail(t: string): (r: Option<(nat, nat)>)
    ensures r.Some? ==> r.value.0 <= 1 && 1 <= r.value.1 && r.value.0 + r.value.1 <= |t|
  {
    var plus := if |t| > 0 && t[0] == '+' then 1 else 0;
    match CjkTail(t[plus..], CjkRun(t[plus..]))
    case Some(k) => Some((plus, k))
    case None => None
  }

  /** `(\d+)` followed by the rest of the pattern at the start of `t`, trying `i` digits
      and then fewer. Yields (digits, length of '+', length of CJK run). */
  function DigitsTail(t: string, i: nat): (r: Option<(nat, nat, nat)>)
    requires i <= DigitRun(t)
    ensures r.Some? ==> 1 <= r.value.0 <= i && r.value.1 <= 1 && 1 <= r.value.2
    ensures r.Some? ==> r.value.0 + r.value.1 + r.value.2 <= |t|
    decreases i
  {
    if i == 0 then None
    else
      match PlusTail(t[i..])
      case Some((p, k)) => Some((i, p, k))
      case None => DigitsTail(t, i - 1)
  }

  /** The pass-2 match at the start of `t`: (length kept as `$1$2$3`, length consumed). */
  function CollapseMatch(t: string): (r: Option<(nat, nat)>)
    ensures r.Some? ==> 4 < r.value.0 < r.value.1 <= |t|
  {
    if StartsWithIgnoreCase(t, "CCTV") then
      match DigitsTail(t[4..], DigitRun(t[4..]))
      case Some((d, p, k)) => Some((4 + d + p, 4 + d + p + k))
      case None => None
    else None
  }

  /** The second `replace` of `cleanChannelName`: the matched "CCTV" (in its own case),
      digits and '+' are kept, the CJK run after them is dropped. */
  function Collapse(s: string): (r: string)
    ensures |r| <= |s|
    decreases |s|
  {
    if s == [] then []
    else
      match CollapseMatch(s)
      case Some((keep, len)) => s[..keep] + Collapse(s[len..])
      case None => [s[0]] + Collapse(s[1..])
  }

  /** Pass 2 only copies characters of its input: it adds no white space and no decoration. */
  lemma {:induction false} CollapseKeepsClean(s: string)
    ensures NoSpace(s) ==> NoSpace(Collapse(s))
    ensures NoDecoration(s) ==> NoDecoration(Collapse(s))
    decreases |s|
  {
    if s != [] {
      match CollapseMatch(s)
      case Some((keep, len)) =>
        CollapseKeepsClean(s[len..]);
        SliceClean(s, len);
        ConcatClean(s[..keep], Collapse(s[len..]), s);
      case None =>
        CollapseKeepsClean(s[1..]);
        SliceClean(s, 1);
        ConcatClean(s[..1], Collapse(s[1..]), s);
        assert s[..1] == [s[0]];
    }
  }

  lemma SliceClean(s: string, k: nat)
    requires k <= |s|
    ensures NoSpace(s) ==> NoSpace(s[k..])
    ensures NoDecoration(s) ==> NoDecoration(s[k..])
  {
    if NoSpace(s) {
      assert forall i :: 0 <= i < |s| - k ==> s[k..][i] == s[k + i];
    }
  }

  /** A prefix of `s` followed by a string free of white space and decoration characters is
      free of them whenever `s` is. */
  lemma ConcatClean(head: string, rest: string, s: string)
    requires |head| <= |s| && head == s[..|head|]
    ensures NoSpace(s) && NoSpace(rest) ==> NoSpace(head + rest)
    ensures NoDecoration(s) && NoDecoration(rest) ==> NoDecoration(head + rest)
  {
  }

  /** Pass 2 read without backtracking: "CCTV" in any case, every digit that follows (at
      least one), a '+' if one comes next, and the whole non-empty CJK run after that. */
  function GreedyMatch(t: string): Option<(nat, nat)> {
    if StartsWithIgnoreCase(t, "CCTV") then
      match GreedyTail(t[4..])
      case Some((d, p, k)) => Some((4 + d + p, 4 + d + p + k))
      case None => None
    else None
  }

  /** The greedy reading after "CCTV": (digits, length of '+', length of CJK run). */
  function GreedyTail(t4: string): Option<(nat, nat, nat)> {
    var d := DigitRun(t4);
    var u := t4[d..];
    var p := if |u| > 0 && u[0] == '+' then 1 else 0;
    var k := CjkRun(u[p..]);
    if d == 0 || k == 0 then None else Some((d, p, k))
  }

  /** The 欧洲/美洲 exemption never fires: 欧, 洲 and 美 are themselves in the CJK range, so the
      greedy run has already swallowed any continent name and the look-ahead, placed after
      it, always passes. Backtracking never changes the match either. */
  lemma ContinentExemptionNeverFires(t: string)
    ensures CollapseMatch(t) == GreedyMatch(t)
  {
    if StartsWithIgnoreCase(t, "CCTV") {
      var t4 := t[4..];
      DigitsTailGreedy(t4);
      assert CollapseMatch(t) == match GreedyTail(t4)
        case Some((d, p, k)) => Some((4 + d + p, 4 + d + p + k))
        case None => None;
    }
  }

  /** With backtracking or without, `(\d+)(\+?)[\u4e00-\u9fa5]+(?!欧洲|美洲)` matches the same. */
  lemma DigitsTailGreedy(t4: string)
    ensures DigitsTail(t4, DigitRun(t4)) == GreedyTail(t4)
  {
    var d := DigitRun(t4);
    if d > 0 {
      PlusTailGreedy(t4[d..]);
      if PlusTail(t4[d..]).None? {
        DigitsBacktrackFails(t4, d - 1);
      }
    }
  }

  /** "CCTV" in any case, at least one digit, an optional '+' and a run of CJK characters
      form one pass-2 match that keeps the prefix, digits and '+' and drops the whole run,
      whatever the run says, continent names included. Here the digits are `s[4..4+d]`, the
      '+' (when `p == 1`) is `s[4+d]` and the run is the next `k` characters. */
  lemma CctvQualifierDropped(s: string, d: nat, p: nat, k: nat)
    requires p <= 1 && k > 0 && 4 + d + p + k <= |s| && StartsWithIgnoreCase(s, "CCTV")
    requires d > 0 && forall i :: 4 <= i < 4 + d ==> IsAsciiDigit(s[i])
    requires p == 1 <==> s[4 + d] == '+'
    requires forall i :: 4 + d + p <= i < 4 + d + p + k ==> IsCjk(s[i])
    requires 4 + d + p + k == |s| || !IsCjk(s[4 + d + p + k])
    ensures CollapseMatch(s) == Some((4 + d + p, 4 + d + p + k))
  {
    GreedyMatchOf(s, d, p, k);
    ContinentExemptionNeverFires(s);
  }

  /** Where pass 2 matches, the kept part is copied and the scan resumes after the match. */
  lemma CollapseOnMatch(s: string, keep: nat, len: nat)
    requires CollapseMatch(s) == Some((keep, len))
    ensures Collapse(s) == s[..keep] + Collapse(s[len..])
  {
  }

  lemma GreedyMatchOf(s: string, d: nat, p: nat, k: nat)
    requires p <= 1 && k > 0 && 4 + d + p + k <= |s| && StartsWithIgnoreCase(s, "CCTV")
    requires d > 0 && forall i :: 4 <= i < 4 + d ==> IsAsciiDigit(s[i])
    requires p == 1 <==> s[4 + d] == '+'
    requires forall i :: 4 + d + p <= i < 4 + d + p + k ==> IsCjk(s[i])
    requires 4 + d + p + k == |s| || !IsCjk(s[4 + d + p + k])
    ensures GreedyMatch(s) == Some((4 + d + p, 4 + d + p + k))
  {
    var t4 := s[4..];
    assert !IsAsciiDigit(s[4 + d]);
    DigitRunAt(t4, d);
    var u := s[4 + d..];
    assert u == t4[d..];
    CjkRunAt(u[p..], k);
  }

  lemma {:induction false} DigitRunAt(t: string, n: nat)
    requires n <= |t| && forall i :: 0 <= i < n ==> IsAsciiDigit(t[i])
    requires n == |t| || !IsAsciiDigit(t[n])
    ensures DigitRun(t) == n
  {
    if n > 0 {
      DigitRunAt(t[1..], n - 1);
    }
  }

  lemma {:induction false} CjkRunAt(t: string, n: nat)
    requires n <= |t| && forall i :: 0 <= i < n ==> IsCjk(t[i])
    requires n == |t| || !IsCjk(t[n])
    ensures CjkRun(t) == n
  {
    if n > 0 {
      CjkRunAt(t[1..], n - 1);
    }
  }

  /** Pass 2 can only start at a 'C' or 'c': anything else is copied. */
  lemma {:induction false} CollapseNoCPrefix(a: string, b: string)
    requires forall i :: 0 <= i < |a| ==> a[i] != 'C' && a[i] != 'c'
    ensures Collapse(a + b) == a + Collapse(b)
  {
    if a == [] {
      assert a + b == b;
    } else {
      var s := a + b;
      assert s[0] == a[0] && s[1..] == a[1..] + b;
      assert Collapse(s) == [a[0]] + Collapse(a[1..] + b) by {
        CollapseKeepsNoC(s);
      }
      CollapseNoCPrefix(a[1..], b);
      ConcatAssoc([a[0]], a[1..], Collapse(b));
      assert [a[0]] + a[1..] == a;
    }
  }

  lemma CollapseKeepsNoC(s: string)
    requires s != [] && s[0] != 'C' && s[0] != 'c'
    ensures Collapse(s) == [s[0]] + Collapse(s[1..])
  {
    assert !StartsWithIgnoreCase(s, "CCTV") by {
      assert !SameIgnoringCase(s[0], "CCTV"[0]);
    }
    CollapseNoMatch(s);
  }

  /** Where pass 2 does not match, the character is copied. */
  lemma CollapseNoMatch(s: string)
    requires s != [] && CollapseMatch(s) == None
    ensures Collapse(s) == [s[0]] + Collapse(s[1..])
  {
  }

  /** A maximal CJK run is never followed by 欧 or 美, so the look-ahead passes at once. */
  lemma CjkTailGreedy(t: string)
    ensures CjkTail(t, CjkRun(t)) == (if CjkRun(t) == 0 then None else Some(CjkRun(t)))
  {
  }

  lemma PlusTailGreedy(u: string)
    ensures var p := if |u| > 0 && u[0] == '+' then 1 else 0;
            var k := CjkRun(u[p..]);
            PlusTail(u) == (if k == 0 then None else Some((p, k)))
  {
    var p := if |u| > 0 && u[0] == '+' then 1 else 0;
    CjkTailGreedy(u[p..]);
  }

  /** Giving back digits never helps: the next character is then a digit, which neither
      '+' nor the CJK class accepts. */
  lemma {:induction false} DigitsBacktrackFails(t: string, i: nat)
    requires i < DigitRun(t)
    ensures DigitsTail(t, i) == None
  {
    if i > 0 {
      var u := t[i..];
      assert IsAsciiDigit(u[0]);
      PlusTailGreedy(u);
      assert CjkRun(u) == 0;
      DigitsBacktrackFails(t, i - 1);
    }
  }

  // ---------------------------------------------------------------------------
  // The whole cleaner and its cache

  /** The `cleaned` string of `cleanChannelName(name)`. The final `trim` never changes
      anything: pass 1 removed every white-space character and pass 2 adds none. */
  function Clean(name: string): (r: string)
    ensures |r| <= |name|
    ensures NoSpace(r)
    ensures NoDecoration(r)
  {
    var collapsed := Collapse(Strip(name));
    StripIsClean(name);
    CollapseKeepsClean(Strip(name));
    TrimNoSpace(collapsed);
    Trim(collapsed)
  }

  /** The final `trim` of `cleanChannelName` never changes anything. */
  lemma TrimIsIdle(name: string)
    ensures Clean(name) == Collapse(Strip(name))
  {
    StripIsClean(name);
    CollapseKeepsClean(Strip(name));
    TrimNoSpace(Collapse(Strip(name)));
  }

  /** The record `cleanChannelName` returns and caches. */
  datatype NameResult = NameResult(original: string, cleaned: string, upper: string)

  function CleanResult(name: string): NameResult {
    var cleaned := Clean(name);
    NameResult(name, cleaned, Upper(cleaned))
  }

  /** `nameCache`: a map from raw names to results. */
  type NameCache = map<string, NameResult>

  /** Every cached entry is what cleaning its key computes; the empty cache the constructor
      creates is coherent, and `CleanCached` keeps it so. */
  ghost predicate Coherent(cache: NameCache) {
    forall n {:trigger CleanResult(n)} :: n in cache ==> cache[n] == CleanResult(n)
  }

  /** `cleanChannelName` with its cache: a hit returns the stored record, a miss computes
      and stores it. With a coherent cache the memo is invisible. */
  function CleanCached(cache: NameCache, name: string): (out: (NameResult, NameCache))
    ensures name in out.1 && cache.Keys <= out.1.Keys
    ensures Coherent(cache) ==> out.0 == CleanResult(name) && Coherent(out.1)
    ensures Coherent(cache) ==> out.0.original == name && out.0.cleaned == Clean(name)
  {
    if name in cache then
      CoherentLookup(cache, name);
      (cache[name], cache)
    else
      var r := CleanResult(name);
      CoherentStore(cache, name);
      (r, cache[name := r])
  }

  lemma CoherentLookup(cache: NameCache, name: string)
    requires name in cache
    ensures Coherent(cache) ==> cache[name] == CleanResult(name)
  {
  }

  lemma CoherentStore(cache: NameCache, name: string)
    ensures Coherent(cache) ==> Coherent(cache[name := CleanResult(name)])
  {
    if Coherent(cache) {
      var c' := cache[name := CleanResult(name)];
      forall n | n in c' ensures c'[n] == CleanResult(n) {
        if n != name {
          assert c'[n] == cache[n];
        }
      }
    }
  }
}
