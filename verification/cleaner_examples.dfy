/** What `cleanChannelName`'s rewrites and `trim` yield on concrete display names. */
module CleanerExamples {
  import opened Wrappers
  import opened Text
  import opened Cleaner

  /** A plain suffix survives pass 1 whole. */
  lemma StripPlain(a: string)
    requires AllPlain(a)
    ensures Strip(a) == a
  {
    StripPlainPrefix(a, []);
    assert a + [] == a;
  }

  /** A suffix without 'C' or 'c' survives pass 2 whole. */
  lemma CollapseNoC(a: string)
    requires NoC(a)
    ensures Collapse(a) == a
  {
    CollapseNoCPrefix(a, []);
    assert a + [] == a;
  }

  /** When pass 1 leaves a string with no 'C' or 'c', pass 2 and the trim leave it alone. */
  lemma CleanViaStrip(s: string, w: string)
    requires Strip(s) == w && NoC(w)
    ensures Clean(s) == w
  {
    TrimIsIdle(s);
    CollapseNoC(w);
  }

  predicate AllDigits(d: string) {
    forall i :: 0 <= i < |d| ==> IsAsciiDigit(d[i])
  }

  /** Characters both in the CJK range and untouched by pass 1 (so not 频, 超 or 高). */
  predicate PlainCjk(q: string) {
    forall i :: 0 <= i < |q| ==> IsCjk(q[i]) && IsPlain(q[i])
  }

  predicate AllPlain(w: string) {
    forall i :: 0 <= i < |w| ==> IsPlain(w[i])
  }

  predicate NoC(w: string) {
    forall i :: 0 <= i < |w| ==> w[i] != 'C' && w[i] != 'c'
  }

  /** "CCTV", a number, an optional '+' and a Chinese qualifier clean to "CCTV", the number
      and the '+': "CCTV5+体育" becomes "CCTV5+", and "CCTV4欧洲" becomes "CCTV4" even though
      the pattern's look-ahead names 欧洲. */
  lemma CctvQualifierRemoved(d: string, p: string, q: string)
    requires |d| > 0 && AllDigits(d)
    requires p == "" || p == "+"
    requires |q| > 0 && PlainCjk(q)
    ensures Clean("CCTV" + d + p + q) == "CCTV" + d + p
  {
    var head := "CCTV" + d + p;
    var s := head + q;
    TrimIsIdle(s);
    QualifiedNamePlain(d, p, q);
    StripPlain(s);
    QualifiedNameMatch(d, p, q);
    CollapseOnMatch(s, |head|, |s|);
    assert s[..|head|] == head && s[|s|..] == [];
  }

  lemma QualifiedNamePlain(d: string, p: string, q: string)
    requires AllDigits(d) && (p == "" || p == "+") && PlainCjk(q)
    ensures AllPlain("CCTV" + d + p + q)
  {
    var s := "CCTV" + d + p + q;
    forall i | 0 <= i < |s| ensures IsPlain(s[i]) {
      if i < 4 { assert s[i] == "CCTV"[i]; }
      else if i < 4 + |d| { assert s[i] == d[i - 4]; }
      else if i < 4 + |d| + |p| { assert s[i] == '+'; }
      else { assert s[i] == q[i - 4 - |d| - |p|]; }
    }
  }

  lemma QualifiedNameMatch(d: string, p: string, q: string)
    requires |d| > 0 && AllDigits(d)
    requires p == "" || p == "+"
    requires |q| > 0 && PlainCjk(q)
    ensures var s := "CCTV" + d + p + q;
            CollapseMatch(s) == Some((4 + |d| + |p|, |s|))
  {
    var s := "CCTV" + d + p + q;
    QualifiedNameShape(d, p, q);
    CctvQualifierDropped(s, |d|, |p|, |q|);
  }

  lemma QualifiedNameShape(d: string, p: string, q: string)
    requires |d| > 0 && AllDigits(d)
    requires p == "" || p == "+"
    requires |q| > 0 && PlainCjk(q)
    ensures var s := "CCTV" + d + p + q;
            && |s| == 4 + |d| + |p| + |q|
            && StartsWithIgnoreCase(s, "CCTV")
            && (forall i :: 4 <= i < 4 + |d| ==> IsAsciiDigit(s[i]))
            && (|p| == 1 <==> s[4 + |d|] == '+')
            && (forall i :: 4 + |d| + |p| <= i < |s| ==> IsCjk(s[i]))
  {
    var s := "CCTV" + d + p + q;
    var h := 4 + |d| + |p|;
    assert forall i :: 0 <= i < 4 ==> s[i] == "CCTV"[i];
    assert forall i :: 4 <= i < 4 + |d| ==> s[i] == d[i - 4];
    if p == "" { assert s[4 + |d|] == q[0]; }
    assert forall i :: h <= i < |s| ==> s[i] == q[i - h];
  }

  /** "CCTV" and a number with nothing after it are left as they are: "CCTV13" stays. */
  lemma BareCctvNumberKept(d: string)
    requires |d| > 0 && AllDigits(d)
    ensures Clean("CCTV" + d) == "CCTV" + d
  {
    TrimIsIdle("CCTV" + d);
    BareCctvStripped(d);
    BareCctvCollapsed(d);
  }

  lemma BareCctvStripped(d: string)
    requires AllDigits(d)
    ensures Strip("CCTV" + d) == "CCTV" + d
  {
    QualifiedNamePlain(d, "", "");
    assert "CCTV" + d + "" + "" == "CCTV" + d;
    StripPlain("CCTV" + d);
  }

  lemma BareCctvCollapsed(d: string)
    requires |d| > 0 && AllDigits(d)
    ensures Collapse("CCTV" + d) == "CCTV" + d
  {
    var s := "CCTV" + d;
    BareNumberNoMatch(d);
    CollapseNoMatch(s);
    assert s[1..] == "CTV" + d;
    CtvCollapsed(d);
    assert [s[0]] + ("CTV" + d) == s;
  }

  lemma CtvCollapsed(d: string)
    requires AllDigits(d)
    ensures Collapse("CTV" + d) == "CTV" + d
  {
    var t := "CTV" + d;
    CtvNoMatch(d);
    CollapseNoMatch(t);
    TvdNoC(d);
    CollapseNoC(t[1..]);
    assert [t[0]] + t[1..] == t;
  }

  lemma BareNumberNoMatch(d: string)
    requires |d| > 0 && AllDigits(d)
    ensures CollapseMatch("CCTV" + d) == None
  {
    var s := "CCTV" + d;
    ContinentExemptionNeverFires(s);
    assert StartsWithIgnoreCase(s, "CCTV") by {
      assert forall i :: 0 <= i < 4 ==> s[i] == "CCTV"[i];
    }
    assert s[4..] == d;
    DigitRunAt(d, |d|);
    assert s[4 + |d|..] == [];
  }

  lemma CtvNoMatch(d: string)
    ensures CollapseMatch("CTV" + d) == None
  {
    var t := "CTV" + d;
    assert !StartsWithIgnoreCase(t, "CCTV") by {
      assert t[1] == 'T';
      assert !SameIgnoringCase(t[1], "CCTV"[1]);
    }
  }

  lemma TvdNoC(d: string)
    requires AllDigits(d)
    ensures NoC(("CTV" + d)[1..])
  {
    var t := ("CTV" + d)[1..];
    forall i | 0 <= i < |t| ensures t[i] != 'C' && t[i] != 'c' {
      if i < 2 { assert t[i] == "TV"[i]; } else { assert t[i] == d[i - 2]; }
    }
  }

  /** A bracket ends the look-ahead after 高清, so 高清 before a bracketed word is removed
      with the brackets even when the word is 电影: "高清(电影)" becomes "电影". */
  lemma QualityBeforeBracketedWordRemoved(w: string)
    requires AllPlain(w) && NoC(w)
    ensures Clean("高清(" + w + ")") == w
  {
    var s := "高清(" + w + ")";
    assert s == "高清" + ("(" + w + ")");
    BracketedStripped(w);
    CleanViaStrip(s, w);
  }

  lemma BracketedStripped(w: string)
    requires AllPlain(w)
    ensures Strip("高清" + ("(" + w + ")")) == w
  {
    var t := "(" + w + ")";
    HighDefinitionRule(t);
    assert !FilmAhead(t);
    BracketedWordStripped(w);
  }

  /** Pass 1 drops the brackets around a plain word. */
  lemma BracketedWordStripped(w: string)
    requires AllPlain(w)
    ensures Strip("(" + w + ")") == w
  {
    assert "(" + w + ")" == ['('] + (w + ")");
    DecorationDropped('(', w + ")");
    StripPlainPrefix(w, ")");
    ClosingStripped();
    assert w + [] == w;
  }

  lemma ClosingStripped()
    ensures Strip(")") == []
  {
    DecorationDropped(')', []);
    assert [')'] + [] == ")";
  }

  /** A character of the class `[()（）－_—·•-]` is removed on its own. */
  lemma DecorationDropped(c: char, x: string)
    requires IsDecoration(c)
    ensures Strip([c] + x) == Strip(x)
  {
    var s := [c] + x;
    assert s[0] == c && s[1..] == x;
    assert StripMatch(s) == 1;
    StripDrops(s);
  }

  /** 高清 is kept when 电 or 影 follows before any bracket: "高清电影" stays. */
  lemma QualityBeforeFilmKept(w: string)
    requires AllPlain(w) && NoC(w) && FilmAhead(w)
    ensures Clean("高清" + w) == "高清" + w
  {
    var s := "高清" + w;
    TrimIsIdle(s);
    HighDefinitionRule(w);
    StripPlain(w);
    assert NoC(s) by {
      forall i | 0 <= i < |s| ensures s[i] != 'C' && s[i] != 'c' {
        if i < 2 { assert s[i] == "高清"[i]; } else { assert s[i] == w[i - 2]; }
      }
    }
    CollapseNoC(s);
  }

  lemma CctvFivePlusSport(name: string, out: string)
    requires name == "CCTV5+体育" && out == "CCTV5+"
    ensures Clean(name) == out
  {
    var d, p, q := "5", "+", "体育";
    assert name == "CCTV" + d + p + q && out == "CCTV" + d + p;
    CctvQualifierRemoved(d, p, q);
  }

  /** The qualifier is one the look-ahead names, and it is dropped all the same. */
  lemma CctvFourEurope(name: string, out: string)
    requires name == "CCTV4欧洲" && out == "CCTV4"
    ensures ContinentAhead(name[5..])
    ensures Clean(name) == out
  {
    var d, p, q := "4", "", "欧洲";
    assert name == "CCTV" + d + p + q && out == "CCTV" + d + p;
    assert name[5..] == q;
    CctvQualifierRemoved(d, p, q);
  }

  lemma CctvThirteen(name: string)
    requires name == "CCTV13"
    ensures Clean(name) == name
  {
    var d := "13";
    assert name == "CCTV" + d;
    BareCctvNumberKept(d);
  }

  lemma QualityBracketedFilm(name: string, out: string)
    requires name == "高清(电影)" && out == "电影"
    ensures Clean(name) == out
  {
    var w := out;
    assert name == "高清(" + w + ")";
    QualityBeforeBracketedWordRemoved(w);
  }

  /** Pass 1 is a single scan: removing a separator can bring together the letters of a
      word it removes, so cleaning a cleaned name can change it again. */
  lemma CleanNotIdempotentOnSpacedLetters(s: string, t: string)
    requires s == "H D" && t == "HD"
    ensures Clean(s) == t
    ensures Clean(t) == ""
  {
    SpacedLettersStripped(s, t);
    CleanViaStrip(s, t);
    TrimIsIdle(t);
    WordStripped(t);
  }

  lemma SpacedLettersStripped(s: string, t: string)
    requires s == "H D" && t == "HD"
    ensures Strip(s) == t
  {
    assert StripMatch(s) == 0 by {
      assert !SameIgnoringCase(s[1], "HD"[1]);
    }
    StripKeeps(s);
    var x := s[1..];
    assert x[0] == ' ' && x[1] == 'D' && x[1..] == "D";
    assert StripMatch(x) == 1;
    StripDrops(x);
    StripPlain("D");
    assert t == [s[0]] + "D";
  }

  /** A removable word on its own strips and collapses to nothing. */
  lemma WordStripped(tok: string)
    requires tok == "频道" || tok == "超清" || (|tok| == 2 && StartsWithIgnoreCase(tok, "HD"))
    ensures Collapse(Strip(tok)) == ""
  {
    TokenRemoved(tok, "");
    assert tok + "" == tok;
  }

  lemma CleanNotIdempotentOnNestedWord(s: string, t: string)
    requires s == "频频道道" && t == "频道"
    ensures Clean(s) == t
    ensures Clean(t) == ""
  {
    NestedWordStripped(s, t);
    CleanViaStrip(s, t);
    TrimIsIdle(t);
    WordStripped(t);
  }

  lemma NestedWordStripped(s: string, t: string)
    requires s == "频频道道" && t == "频道"
    ensures Strip(s) == t
  {
    var x := s[1..];
    NestedWordSplit(s, t);
    NestedWordHead(x);
    InnerWordStripped(t);
  }

  lemma NestedWordSplit(s: string, t: string)
    requires s == "频频道道" && t == "频道"
    ensures s[1..] == t + "道" && s == ['频'] + s[1..] && t == ['频'] + "道"
  {
  }

  lemma InnerWordStripped(t: string)
    requires t == "频道"
    ensures Strip(t + "道") == "道"
  {
    TokenRemoved(t, "道");
    StripPlain("道");
  }

  /** 频 followed by 频 starts no match, so it is kept. */
  lemma NestedWordHead(x: string)
    requires |x| > 0 && x[0] == '频'
    ensures Strip(['频'] + x) == ['频'] + Strip(x)
  {
    var s := ['频'] + x;
    assert s[1..] == x;
    StripMatchAtLoneChannel(s);
    StripKeeps(s);
  }

  lemma StripMatchAtLoneChannel(s: string)
    requires |s| >= 2 && s[0] == '频' && s[1] != '道'
    ensures StripMatch(s) == 0
  {
    assert !StartsWith(s, "频道") by { assert s[..2][1] == s[1]; }
    assert !StartsWith(s, "超清") && !StartsWith(s, "高清") by { assert s[..2][0] == s[0]; }
    assert !StartsWithIgnoreCase(s, "HD") by { assert !SameIgnoringCase(s[0], "HD"[0]); }
  }

  /** Hence cleaning is not idempotent. */
  lemma CleanNotIdempotent()
    ensures exists s :: Clean(Clean(s)) != Clean(s)
  {
    var s, t := "H D", "HD";
    CleanNotIdempotentOnSpacedLetters(s, t);
    assert Clean(Clean(s)) != Clean(s);
  }
}
