/** `formatXmlFragment` (splitter.js:51-72): how each channel or programme fragment is laid
    out in the generated files. The fragment is trimmed; a `<programme` fragment that does
    not end with `>` gets one appended; then every line is trimmed, blank lines are dropped
    and the others are indented. */
module Formatter {
  import opened Text
  import Processor

  /** The default indent, two spaces. */
  const DefaultIndent: nat := 2

  /** `' '.repeat(n)`. */
  function Spaces(n: nat): (r: string)
    ensures |r| == n
    ensures forall i :: 0 <= i < n ==> r[i] == ' '
  {
    if n == 0 then [] else [' '] + Spaces(n - 1)
  }

  /** The closing-tag repair on the trimmed fragment: a fragment that starts with
      `<programme` and ends neither with `</programme>` nor with `>` gets a `>`. */
  function Repair(clean: string): (r: string)
    ensures r == clean || r == clean + ">"
    ensures StartsWith(clean, Processor.ProgrammeOpen) ==> EndsWith(r, ">")
    ensures !StartsWith(clean, Processor.ProgrammeOpen) || EndsWith(clean, ">") ==> r == clean
  {
    if StartsWith(clean, Processor.ProgrammeOpen) && !EndsWith(clean, Processor.ProgrammeClose)
       && !EndsWith(clean, ">")
    then clean + ">"
    else clean
  }

  /** An output line: the indent, then a non-empty text that begins and ends with a
      non-space character. */
  predicate Indented(line: string, indent: nat) {
    && |line| > indent
    && (forall k :: 0 <= k < indent ==> line[k] == ' ')
    && !IsSpace(line[indent])
    && !IsSpace(line[|line| - 1])
  }

  /** What one line becomes: nothing when it is blank, else its trim behind the indent. */
  function Laid(line: string, indent: nat): (r: seq<string>)
    ensures |r| <= 1 && (r == [] <==> Trim(line) == [])
  {
    if Trim(line) == [] then [] else [Spaces(indent) + Trim(line)]
  }

  /** The `map` and `filter` over the lines: each line trimmed, the blank ones dropped, the
      others indented. */
  function IndentLines(lines: seq<string>, indent: nat): (r: seq<string>)
    ensures |r| <= |lines|
  {
    if lines == [] then [] else Laid(lines[0], indent) + IndentLines(lines[1..], indent)
  }

  /** A non-blank trimmed text with the indent in front is an output line. */
  lemma IndentedLine(t: string, indent: nat)
    requires t != [] && !IsSpace(t[0]) && !IsSpace(t[|t| - 1])
    ensures Indented(Spaces(indent) + t, indent)
  {
    var line := Spaces(indent) + t;
    assert line[indent] == t[0];
    assert line[|line| - 1] == t[|t| - 1];
  }

  /** Every line the layout keeps is an output line. */
  lemma {:induction false} IndentLinesIndented(lines: seq<string>, indent: nat)
    ensures forall i :: 0 <= i < |IndentLines(lines, indent)| ==> Indented(IndentLines(lines, indent)[i], indent)
  {
    if lines != [] {
      IndentLinesIndented(lines[1..], indent);
      var t := Trim(lines[0]);
      if t != [] {
        TrimSlice(lines[0]);
        IndentedLine(t, indent);
      }
    }
  }

  /** Nothing is left exactly when every line is blank. */
  lemma {:induction false} IndentLinesEmpty(lines: seq<string>, indent: nat)
    ensures IndentLines(lines, indent) == [] <==> forall l :: l in lines ==> Trim(l) == []
  {
    if lines != [] {
      IndentLinesEmpty(lines[1..], indent);
      assert lines == [lines[0]] + lines[1..];
      assert IndentLines(lines, indent) == Laid(lines[0], indent) + IndentLines(lines[1..], indent);
    }
  }

  /** Lines without a newline stay without one. */
  lemma {:induction false} IndentLinesNoNewline(lines: seq<string>, indent: nat)
    requires forall j :: 0 <= j < |lines| ==> '\n' !in lines[j]
    ensures forall i :: 0 <= i < |IndentLines(lines, indent)| ==> '\n' !in IndentLines(lines, indent)[i]
  {
    if lines != [] {
      IndentLinesNoNewline(lines[1..], indent);
      TrimSlice(lines[0]);
      assert '\n' !in Spaces(indent);
    }
  }

  /** `formatXmlFragment(fragment, indent)`. */
  function Format(fragment: string, indent: nat): string {
    JoinLines(IndentLines(Lines(Repair(Trim(fragment))), indent))
  }

  /** The output is empty exactly when the fragment is all white space. */
  lemma FormatEmpty(fragment: string, indent: nat)
    ensures Format(fragment, indent) == [] <==> Trim(fragment) == []
  {
    var clean := Repair(Trim(fragment));
    var lines := Lines(clean);
    var kept := IndentLines(lines, indent);
    IndentLinesEmpty(lines, indent);
    if Trim(fragment) != [] {
      FirstLineSolid(fragment);
      IndentLinesIndented(lines, indent);
      JoinLinesNonEmpty(kept);
    } else {
      assert clean == [];
    }
  }

  /** The first line of a fragment that is not all white space is not blank. */
  lemma FirstLineSolid(fragment: string)
    requires Trim(fragment) != []
    ensures Trim(Lines(Repair(Trim(fragment)))[0]) != []
  {
    var clean := Repair(Trim(fragment));
    TrimSlice(fragment);
    assert clean[0] == Trim(fragment)[0];
    LinesHead(clean);
    TrimSolidHead(Lines(clean)[0]);
  }

  /** Every output line is the indent followed by non-blank, trimmed text. */
  lemma FormatIndented(fragment: string, indent: nat)
    ensures Format(fragment, indent) != [] ==>
              forall l :: l in Lines(Format(fragment, indent)) ==> Indented(l, indent)
  {
    var lines := Lines(Repair(Trim(fragment)));
    var kept := IndentLines(lines, indent);
    if kept != [] {
      IndentLinesIndented(lines, indent);
      IndentLinesNoNewline(lines, indent);
      LinesOfJoinLines(kept);
    }
  }

  /** The layout works line by line: laying out two runs of lines lays out each. */
  lemma {:induction false} IndentLinesAppend(a: seq<string>, b: seq<string>, indent: nat)
    ensures IndentLines(a + b, indent) == IndentLines(a, indent) + IndentLines(b, indent)
    decreases |a|
  {
    if a != [] {
      assert (a + b)[0] == a[0] && (a + b)[1..] == a[1..] + b;
      IndentLinesAppend(a[1..], b, indent);
      var head := Laid(a[0], indent);
      assert head + (IndentLines(a[1..], indent) + IndentLines(b, indent))
          == (head + IndentLines(a[1..], indent)) + IndentLines(b, indent);
    } else {
      assert a + b == b;
    }
  }

  /** The last output line is the indented trim of the last line, when that is not blank. */
  lemma IndentLinesLast(lines: seq<string>, indent: nat)
    requires |lines| >= 1 && Trim(lines[|lines| - 1]) != []
    ensures var r := IndentLines(lines, indent);
            |r| >= 1 && r[|r| - 1] == Spaces(indent) + Trim(lines[|lines| - 1])
  {
    var n := |lines| - 1;
    assert lines == lines[..n] + [lines[n]];
    IndentLinesAppend(lines[..n], [lines[n]], indent);
    assert IndentLines([lines[n]], indent) == [Spaces(indent) + Trim(lines[n])] by {
      assert [lines[n]][1..] == [];
    }
  }

  /** A text that ends with a newline-free `v` which begins and ends with non-space
      characters still ends with `v` once its lines are trimmed, filtered, indented and
      joined again. */
  lemma LayoutKeepsEnding(clean: string, v: string, indent: nat)
    requires |v| > 0 && '\n' !in v && !IsSpace(v[0]) && !IsSpace(v[|v| - 1])
    requires EndsWith(clean, v)
    ensures EndsWith(JoinLines(IndentLines(Lines(clean), indent)), v)
  {
    var lines := Lines(clean);
    LastLineKeepsEnding(clean, v);
    IndentedLastKeepsEnding(lines, v, indent);
  }

  /** The last line of the text, trimmed, still ends with `v`. */
  lemma LastLineKeepsEnding(clean: string, v: string)
    requires |v| > 0 && '\n' !in v && !IsSpace(v[0]) && !IsSpace(v[|v| - 1])
    requires EndsWith(clean, v)
    ensures EndsWith(Trim(Lines(clean)[|Lines(clean)| - 1]), v)
  {
    var lines := Lines(clean);
    LinesLast(clean, v);
    var last := lines[|lines| - 1];
    var u := last[..|last| - |v|];
    assert u + v == last;
    TrimKeepsSolidSuffix(u, v);
  }

  /** When the last line trims to something ending with `v`, so does the layout. */
  lemma IndentedLastKeepsEnding(lines: seq<string>, v: string, indent: nat)
    requires |v| > 0 && |lines| >= 1 && EndsWith(Trim(lines[|lines| - 1]), v)
    ensures EndsWith(JoinLines(IndentLines(lines, indent)), v)
  {
    IndentLinesLast(lines, indent);
    var kept := IndentLines(lines, indent);
    EndsWithConcat(Spaces(indent), Trim(lines[|lines| - 1]), v);
    JoinLinesLast(kept);
    EndsWithTrans(JoinLines(kept), kept[|kept| - 1], v);
  }

  /** A programme fragment is already trimmed, and the repair leaves it ending with
      `</programme>` whether it ended with `</programme` or with the whole tag. */
  lemma RepairCloses(fragment: string)
    requires StartsWith(fragment, Processor.ProgrammeOpen)
    requires EndsWith(fragment, "</programme") || EndsWith(fragment, Processor.ProgrammeClose)
    ensures Trim(fragment) == fragment
    ensures EndsWith(Repair(fragment), Processor.ProgrammeClose)
  {
    var close := Processor.ProgrammeClose;
    EndsWithLast(fragment, "</programme");
    EndsWithLast(fragment, close);
    assert fragment[0] == '<';
    TrimSolid(fragment);
    var clean := Repair(fragment);
    assert EndsWith(fragment, close) || clean[|clean| - 12..] == fragment[|fragment| - 11..] + ">";
  }

  /** A programme fragment cut one character short, as the processor cuts them, and a
      whole one alike come out of the formatter ending with `</programme>`. */
  lemma ProgrammeRepaired(fragment: string, indent: nat)
    requires StartsWith(fragment, Processor.ProgrammeOpen)
    requires EndsWith(fragment, "</programme") || EndsWith(fragment, Processor.ProgrammeClose)
    ensures EndsWith(Format(fragment, indent), Processor.ProgrammeClose)
  {
    var close := Processor.ProgrammeClose;
    RepairCloses(fragment);
    CloseSolid(close);
    var clean := Repair(fragment);
    assert Format(fragment, indent) == JoinLines(IndentLines(Lines(clean), indent));
    LayoutKeepsEnding(clean, close, indent);
  }

  /** `</programme>` holds no newline and begins and ends with non-space characters. */
  lemma CloseSolid(v: string)
    requires v == Processor.ProgrammeClose
    ensures |v| > 0 && '\n' !in v && !IsSpace(v[0]) && !IsSpace(v[|v| - 1])
  {
  }

  /** Were the programme fragments the processor cuts, one character short of their `>`,
      handed to the formatter, each would come out with the whole `</programme>` again. */
  lemma ProcessorProgrammesRepaired(xml: string, indent: nat)
    ensures forall f :: f in Processor.Scan(xml, Processor.ProgrammeOpen, Processor.ProgrammeClose, Processor.ProgrammeWidth)
              ==> EndsWith(Format(f, indent), Processor.ProgrammeClose)
  {
    Processor.TagsScannable();
    Processor.ProgrammeFragmentsCutShort(xml);
    forall f | f in Processor.Scan(xml, Processor.ProgrammeOpen, Processor.ProgrammeClose, Processor.ProgrammeWidth)
      ensures EndsWith(Format(f, indent), Processor.ProgrammeClose)
    {
      ProgrammeRepaired(f, indent);
    }
  }
}
