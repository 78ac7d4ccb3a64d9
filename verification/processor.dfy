/** `EPGProcessor.process` (processor.js:5-36): two independent `indexOf`-driven cursor
    loops that cut the channel and the programme fragments out of the XML text. Each loop
    finds the next opening tag at the cursor, then the first closing tag at or after it,
    takes the slice up to a fixed width past the closing tag's start, and moves the cursor
    to the slice's end; it stops at the first opening tag with no closing tag after it. */
module Processor {
  import opened Wrappers
  import opened Text

  const ChannelOpen: string := "<channel"
  const ChannelClose: string := "</channel>"
  const ProgrammeOpen: string := "<programme"
  const ProgrammeClose: string := "</programme>"

  /** The slice widths past the closing tag's start, as written: `end + 10` for channels,
      `end + 11` for programmes, whose closing tag is 12 characters long. */
  const ChannelWidth: nat := 10
  const ProgrammeWidth: nat := 11

  /** The slice width that keeps the whole `</programme>`. */
  const ProgrammeWidthFixed: nat := 12

  /** The searched tags and the slice width fit together: the width stays within the
      closing tag, and a closing tag cannot begin inside an opening one. */
  predicate Scannable(open: string, close: string, width: nat) {
    && |open| >= 2 && |close| >= 2
    && 0 < width <= |close|
    && (forall k :: 1 <= k < |open| ==> open[k] != close[0])
    && (open[0] != close[0] || open[1] != close[1])
  }

  lemma TagsScannable()
    ensures Scannable(ChannelOpen, ChannelClose, ChannelWidth)
    ensures Scannable(ProgrammeOpen, ProgrammeClose, ProgrammeWidth)
    ensures Scannable(ProgrammeOpen, ProgrammeClose, ProgrammeWidthFixed)
  {
  }

  /** A slice `xml[start..end]`. */
  datatype Span = Span(start: nat, end: nat)

  /** The two `indexOf` calls of one turn: the first opening tag at or after `pos`, and the
      first closing tag at or after it; `None` when either is missing. */
  function NextTags(xml: string, open: string, close: string, pos: nat): (r: Option<(nat, nat)>)
    requires Scannable(open, close, 1)
    ensures r.Some? ==> pos <= r.value.0 <= r.value.1 && r.value.1 + |close| <= |xml|
  {
    var p := IndexOf(xml, open, pos);
    if p == -1 then None
    else
      var e := IndexOf(xml, close, p);
      if e == -1 then None else Some((p, e))
  }

  /** The slices one loop cuts from cursor `pos` on. */
  function Spans(xml: string, open: string, close: string, width: nat, pos: nat): seq<Span>
    requires Scannable(open, close, width)
    decreases |xml| - pos
  {
    match NextTags(xml, open, close, pos)
    case None => []
    case Some((p, e)) => [Span(p, e + width)] + Spans(xml, open, close, width, e + width)
  }

  /** The text of one slice (empty for a slice that does not fit, which `Spans` never
      yields). */
  function Piece(xml: string, s: Span): string {
    if s.start <= s.end <= |xml| then xml[s.start..s.end] else []
  }

  /** The fragments of the slices. */
  function Cut(xml: string, spans: seq<Span>): (r: seq<string>)
    ensures |r| == |spans|
  {
    if spans == [] then [] else [Piece(xml, spans[0])] + Cut(xml, spans[1..])
  }

  /** The `i`-th fragment is the text of the `i`-th slice. */
  lemma {:induction false} CutAt(xml: string, spans: seq<Span>, i: nat)
    requires i < |spans|
    ensures Cut(xml, spans)[i] == Piece(xml, spans[i])
  {
    if i > 0 {
      CutAt(xml, spans[1..], i - 1);
    }
  }

  /** The fragments one loop collects, from cursor 0. */
  function Scan(xml: string, open: string, close: string, width: nat): seq<string>
    requires Scannable(open, close, width)
  {
    Cut(xml, Spans(xml, open, close, width, 0))
  }

  /** The result of `process`. */
  datatype Fragments = Fragments(channelFragments: seq<string>, programmeFragments: seq<string>)

  /** `process` as written: the two loops, each from position 0. */
  method Process(xml: string) returns (out: Fragments)
    ensures out.channelFragments == Scan(xml, ChannelOpen, ChannelClose, ChannelWidth)
    ensures out.programmeFragments == Scan(xml, ProgrammeOpen, ProgrammeClose, ProgrammeWidth)
  {
    TagsScannable();
    var channels := Collect(xml, ChannelOpen, ChannelClose, ChannelWidth);
    var programmes := Collect(xml, ProgrammeOpen, ProgrammeClose, ProgrammeWidth);
    out := Fragments(channels, programmes);
  }

  /** `process` with the programme slice ending after the whole closing tag. */
  method ProcessFixed(xml: string) returns (out: Fragments)
    ensures out.channelFragments == Scan(xml, ChannelOpen, ChannelClose, ChannelWidth)
    ensures out.programmeFragments == Scan(xml, ProgrammeOpen, ProgrammeClose, ProgrammeWidthFixed)
  {
    TagsScannable();
    var channels := Collect(xml, ChannelOpen, ChannelClose, ChannelWidth);
    var programmes := Collect(xml, ProgrammeOpen, ProgrammeClose, ProgrammeWidthFixed);
    out := Fragments(channels, programmes);
  }

  /** One cursor loop (processor.js:10-18 and 21-30). */
  method Collect(xml: string, open: string, close: string, width: nat) returns (fragments: seq<string>)
    requires Scannable(open, close, width)
    ensures fragments == Scan(xml, open, close, width)
  {
    fragments := [];
    var pos: nat := 0;
    while true
      invariant pos <= |xml|
      invariant fragments + Cut(xml, Spans(xml, open, close, width, pos)) == Scan(xml, open, close, width)
      decreases |xml| - pos
    {
      var p := IndexOf(xml, open, pos);
      if p == -1 {
        Done(xml, open, close, width, pos, fragments);
        break;
      }
      var end := IndexOf(xml, close, p);
      if end == -1 {
        Done(xml, open, close, width, pos, fragments);
        break;
      }
      var next: nat := end + width;
      Advance(xml, open, close, width, pos, p, end, next, fragments);
      fragments := fragments + [xml[p..next]];
      pos := next;
    }
  }

  /** One turn keeps the loop invariant: the slice taken, and the cursor past it. */
  lemma Advance(xml: string, open: string, close: string, width: nat, pos: nat, p: nat, e: nat,
                next: nat, fragments: seq<string>)
    requires Scannable(open, close, width)
    requires IndexOf(xml, open, pos) == p && IndexOf(xml, close, p) == e && next == e + width
    requires fragments + Cut(xml, Spans(xml, open, close, width, pos)) == Scan(xml, open, close, width)
    ensures pos < next <= |xml| && p <= next
    ensures (fragments + [xml[p..next]]) + Cut(xml, Spans(xml, open, close, width, next))
         == Scan(xml, open, close, width)
  {
    assert NextTags(xml, open, close, pos) == Some((p, e));
    CutStep(xml, open, close, width, pos, p, e);
    Shift(fragments, xml[p..next], Cut(xml, Spans(xml, open, close, width, pos)),
          Cut(xml, Spans(xml, open, close, width, next)), Scan(xml, open, close, width));
  }

  /** The loop stops with everything taken once `NextTags` finds nothing. */
  lemma Done(xml: string, open: string, close: string, width: nat, pos: nat, fragments: seq<string>)
    requires Scannable(open, close, width)
    requires IndexOf(xml, open, pos) == -1 || IndexOf(xml, close, IndexOf(xml, open, pos)) == -1
    requires fragments + Cut(xml, Spans(xml, open, close, width, pos)) == Scan(xml, open, close, width)
    ensures fragments == Scan(xml, open, close, width)
  {
    assert NextTags(xml, open, close, pos) == None;
    assert Spans(xml, open, close, width, pos) == [];
    assert fragments + [] == fragments;
  }

  /** Taking the head of what is left onto what was taken keeps the whole. */
  lemma Shift<T>(taken: seq<T>, x: T, left: seq<T>, rest: seq<T>, all: seq<T>)
    requires taken + left == all && left == [x] + rest
    ensures (taken + [x]) + rest == all
  {
    assert taken + ([x] + rest) == (taken + [x]) + rest;
  }

  /** One turn, on the fragments: the slice at the tags `NextTags` finds, then the
      fragments from its end. */
  lemma CutStep(xml: string, open: string, close: string, width: nat, pos: nat, p: nat, e: nat)
    requires Scannable(open, close, width)
    requires NextTags(xml, open, close, pos) == Some((p, e))
    ensures p <= e + width <= |xml|
    ensures Cut(xml, Spans(xml, open, close, width, pos))
         == [xml[p..e + width]] + Cut(xml, Spans(xml, open, close, width, e + width))
  {
    assert Piece(xml, Span(p, e + width)) == xml[p..e + width];
    var r := Spans(xml, open, close, width, pos);
    assert r == [Span(p, e + width)] + Spans(xml, open, close, width, e + width);
    assert r[1..] == Spans(xml, open, close, width, e + width);
  }

  // ---------------------------------------------------------------------------
  // What the loops cut

  /** A closing tag found at or after an opening tag starts after the opening tag ends. */
  lemma CloseAfterOpen(xml: string, open: string, close: string, width: nat, p: nat, e: nat)
    requires Scannable(open, close, width)
    requires OccursAt(xml, open, p) && OccursAt(xml, close, e) && p <= e
    ensures p + |open| <= e
  {
    forall k | p <= k < p + |open| ensures xml[k] == open[k - p] {
      assert xml[p..p + |open|][k - p] == open[k - p];
    }
    assert xml[e] == close[0] && xml[e + 1] == close[1] by {
      assert xml[e..e + |close|][0] == close[0] && xml[e..e + |close|][1] == close[1];
    }
  }

  /** A slice cut from cursor `from`: it starts at an opening tag with none between the
      cursor and it, and stops `width` characters into the first closing tag after it, which
      starts after the opening tag ends. */
  predicate SliceOk(xml: string, open: string, close: string, width: nat, from: nat, s: Span) {
    && from <= s.start
    && OccursAt(xml, open, s.start)
    && s.start + |open| + width <= s.end
    && OccursAt(xml, close, s.end - width)
    && (forall k :: s.start <= k < s.end - width ==> !OccursAt(xml, close, k))
    && (forall k :: from <= k < s.start ==> !OccursAt(xml, open, k))
  }

  /** The slice one turn cuts from the tags `NextTags` finds. */
  lemma NextTagsOk(xml: string, open: string, close: string, width: nat, pos: nat)
    requires Scannable(open, close, width)
    requires NextTags(xml, open, close, pos).Some?
    ensures var t := NextTags(xml, open, close, pos).value;
            SliceOk(xml, open, close, width, pos, Span(t.0, t.1 + width))
  {
    var p := IndexOf(xml, open, pos);
    var e := IndexOf(xml, close, p);
    CloseAfterOpen(xml, open, close, width, p, e);
  }

  /** Where the cursor stands before the `i`-th slice. */
  function Before(r: seq<Span>, pos: nat, i: nat): nat
    requires i <= |r|
  {
    if i == 0 then pos else r[i - 1].end
  }

  /** The first slice comes from the tags `NextTags` finds at the cursor, and the others
      follow from its end. */
  lemma SpansHead(xml: string, open: string, close: string, width: nat, pos: nat)
    requires Scannable(open, close, width)
    requires Spans(xml, open, close, width, pos) != []
    ensures NextTags(xml, open, close, pos).Some?
    ensures var t := NextTags(xml, open, close, pos).value;
            var r := Spans(xml, open, close, width, pos);
            r[0] == Span(t.0, t.1 + width) && r == [r[0]] + Spans(xml, open, close, width, r[0].end)
  {
  }

  /** Every slice is cut as `SliceOk` says, from where the previous one ended: nothing is
      skipped, and each slice ends at the first closing tag after its opening tag. */
  lemma {:induction false} SpansCutAt(xml: string, open: string, close: string, width: nat, pos: nat, i: nat)
    requires Scannable(open, close, width)
    requires i < |Spans(xml, open, close, width, pos)|
    ensures var r := Spans(xml, open, close, width, pos);
            pos <= r[i].start && SliceOk(xml, open, close, width, Before(r, pos, i), r[i])
    decreases i
  {
    var r := Spans(xml, open, close, width, pos);
    SpansHead(xml, open, close, width, pos);
    if i == 0 {
      NextTagsOk(xml, open, close, width, pos);
    } else {
      var next := r[0].end;
      var rest := Spans(xml, open, close, width, next);
      SpansCutAt(xml, open, close, width, next, i - 1);
      assert r[i] == rest[i - 1];
      assert Before(r, pos, i) == Before(rest, next, i - 1);
    }
  }

  /** The loop ends where `NextTags` finds nothing: no opening tag is left, or the first
      opening tag left has no closing tag at or after it. The rest of the text is not
      looked at. */
  lemma {:induction false} SpansStop(xml: string, open: string, close: string, width: nat, pos: nat)
    requires Scannable(open, close, width)
    ensures var r := Spans(xml, open, close, width, pos);
            var b := Before(r, pos, |r|);
            var q := IndexOf(xml, open, b);
            && NextTags(xml, open, close, b) == None
            && (q == -1 ==> forall k :: b <= k ==> !OccursAt(xml, open, k))
            && (q != -1 ==> OccursAt(xml, open, q) && forall k :: q <= k ==> !OccursAt(xml, close, k))
    decreases |xml| - pos
  {
    var r := Spans(xml, open, close, width, pos);
    if r != [] {
      SpansHead(xml, open, close, width, pos);
      var next := r[0].end;
      var rest := Spans(xml, open, close, width, next);
      SpansStop(xml, open, close, width, next);
      assert rest != [] ==> r[|r| - 1] == rest[|rest| - 1];
      assert Before(r, pos, |r|) == Before(rest, next, |rest|);
    }
  }

  /** The slices lie inside the text after the cursor, are non-empty, and do not overlap:
      each starts where or after the previous one ended. */
  lemma SpansInOrder(xml: string, open: string, close: string, width: nat, pos: nat)
    requires Scannable(open, close, width)
    ensures var r := Spans(xml, open, close, width, pos);
            forall i :: 0 <= i < |r| ==> pos <= r[i].start < r[i].end <= |xml|
    ensures var r := Spans(xml, open, close, width, pos);
            forall i :: 0 <= i < |r| - 1 ==> r[i].end <= r[i + 1].start
  {
    var r := Spans(xml, open, close, width, pos);
    forall i | 0 <= i < |r| ensures pos <= r[i].start < r[i].end <= |xml| {
      SpansCutAt(xml, open, close, width, pos, i);
    }
    forall i | 0 <= i < |r| - 1 ensures r[i].end <= r[i + 1].start {
      SpansCutAt(xml, open, close, width, pos, i + 1);
    }
  }

  /** Each fragment is the text of its slice: it starts with the opening tag and ends with
      the first `width` characters of the closing tag. */
  lemma ScanFragments(xml: string, open: string, close: string, width: nat)
    requires Scannable(open, close, width)
    ensures |Scan(xml, open, close, width)| == |Spans(xml, open, close, width, 0)|
    ensures var r := Spans(xml, open, close, width, 0);
            forall i :: 0 <= i < |r| ==>
              r[i].start <= r[i].end <= |xml| && Scan(xml, open, close, width)[i] == xml[r[i].start..r[i].end]
    ensures forall f :: f in Scan(xml, open, close, width) ==>
              StartsWith(f, open) && EndsWith(f, close[..width])
  {
    var r := Spans(xml, open, close, width, 0);
    SpansInOrder(xml, open, close, width, 0);
    forall i | 0 <= i < |r|
      ensures r[i].start <= r[i].end <= |xml|
      ensures Scan(xml, open, close, width)[i] == xml[r[i].start..r[i].end]
      ensures StartsWith(Scan(xml, open, close, width)[i], open)
      ensures EndsWith(Scan(xml, open, close, width)[i], close[..width])
    {
      CutAt(xml, r, i);
      SpansCutAt(xml, open, close, width, 0, i);
      FragmentEnds(xml, open, close, width, Before(r, 0, i), r[i]);
    }
  }

  /** The fragment of one slice. */
  lemma FragmentEnds(xml: string, open: string, close: string, width: nat, from: nat, s: Span)
    requires Scannable(open, close, width)
    requires SliceOk(xml, open, close, width, from, s)
    ensures StartsWith(xml[s.start..s.end], open) && EndsWith(xml[s.start..s.end], close[..width])
  {
    assert s.end <= |xml|;
    var f := xml[s.start..s.end];
    assert f[..|open|] == xml[s.start..s.start + |open|];
    assert f[|f| - width..] == xml[s.end - width..s.end];
    assert xml[s.end - width..s.end] == xml[s.end - width..s.end - width + |close|][..width];
  }

  // ---------------------------------------------------------------------------
  // The two loops of `process`

  /** Every channel fragment is `<channel…</channel>`. */
  lemma ChannelFragmentsWhole(xml: string)
    ensures forall f :: f in Scan(xml, ChannelOpen, ChannelClose, ChannelWidth) ==>
              StartsWith(f, ChannelOpen) && EndsWith(f, ChannelClose)
  {
    TagsScannable();
    ScanFragments(xml, ChannelOpen, ChannelClose, ChannelWidth);
    assert ChannelClose[..ChannelWidth] == ChannelClose;
  }

  /** As written, every programme fragment stops one character short: it ends with
      `</programme` and never with `</programme>`. */
  lemma ProgrammeFragmentsCutShort(xml: string)
    ensures forall f :: f in Scan(xml, ProgrammeOpen, ProgrammeClose, ProgrammeWidth) ==>
              StartsWith(f, ProgrammeOpen) && EndsWith(f, "</programme") && !EndsWith(f, ProgrammeClose)
  {
    TagsScannable();
    ScanFragments(xml, ProgrammeOpen, ProgrammeClose, ProgrammeWidth);
    assert ProgrammeClose[..ProgrammeWidth] == "</programme";
    forall f | f in Scan(xml, ProgrammeOpen, ProgrammeClose, ProgrammeWidth)
      ensures !EndsWith(f, ProgrammeClose)
    {
      EndsWithLast(f, "</programme");
      EndsWithLast(f, ProgrammeClose);
    }
  }

  /** A one-programme document whose fragment loses its `>`. */
  lemma ProgrammeCutExample(xml: string)
    requires xml == "<programme>x</programme>"
    ensures Scan(xml, ProgrammeOpen, ProgrammeClose, ProgrammeWidth) == ["<programme>x</programme"]
  {
    TagsScannable();
    assert OccursAt(xml, ProgrammeOpen, 0);
    assert IndexOf(xml, ProgrammeOpen, 0) == 0;
    assert OccursAt(xml, ProgrammeClose, 12);
    ProgrammeCloseFirst(xml);
    assert IndexOf(xml, ProgrammeClose, 0) == 12;
    assert IndexOf(xml, ProgrammeOpen, 23) == -1;
    assert NextTags(xml, ProgrammeOpen, ProgrammeClose, 0) == Some((0, 12));
    assert NextTags(xml, ProgrammeOpen, ProgrammeClose, 23) == None;
    assert Spans(xml, ProgrammeOpen, ProgrammeClose, ProgrammeWidth, 0) == [Span(0, 23)];
    assert xml[0..23] == "<programme>x</programme";
  }

  lemma ProgrammeCloseFirst(xml: string)
    requires xml == "<programme>x</programme>"
    ensures forall k :: 0 <= k < 12 ==> !OccursAt(xml, ProgrammeClose, k)
  {
    forall k | 0 <= k < 12 ensures !OccursAt(xml, ProgrammeClose, k) {
      OccursAtChar(xml, ProgrammeClose, k, 1);
    }
  }

  /** With the width of the whole closing tag, every programme fragment is
      `<programme…</programme>`. */
  lemma ProgrammeFragmentsWhole(xml: string)
    ensures forall f :: f in Scan(xml, ProgrammeOpen, ProgrammeClose, ProgrammeWidthFixed) ==>
              StartsWith(f, ProgrammeOpen) && EndsWith(f, ProgrammeClose)
  {
    TagsScannable();
    ScanFragments(xml, ProgrammeOpen, ProgrammeClose, ProgrammeWidthFixed);
    assert ProgrammeClose[..ProgrammeWidthFixed] == ProgrammeClose;
  }
}
