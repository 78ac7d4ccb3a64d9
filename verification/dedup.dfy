/** The deduplicating loop of `extractChannelFragments` (splitter.js:76-117), the channel
    statistics of `split` (splitter.js:194-198) and `extractChannelInfo`
    (splitter.js:202-212).

    The regular-expression scan of the raw document is not modelled: its matches arrive as a
    sequence of `(id, display name)` captures. A rewritten channel fragment is abstracted by
    the two things later steps read back out of it: its `id="…"` attribute and the text of
    its first `display-name` element. */
module Dedup {
  import opened Wrappers
  import opened Text
  import opened Cleaner

  /** One match of the channel pattern: the `id` capture, the display-name capture, and the
      texts of the `display-name` elements that follow the captured one inside the matched
      text, in order ("" for one whose text is empty and so cannot be captured). */
  datatype ChannelMatch = ChannelMatch(id: string, rawName: string, later: seq<string>)

  /** A channel fragment: its `id` attribute (absent when the fragment has none), the text
      of the `display-name` element the rewrite fills in, and the texts of the later ones. */
  datatype ChannelFragment = ChannelFragment(id: Option<string>, displayName: string, later: seq<string>)

  /** A value of `channelMap`. */
  datatype ChannelEntry = ChannelEntry(id: string, name: string, originalName: string, xml: ChannelFragment)

  /** The dedup key: the cleaned form of the trimmed display name, case-sensitive. */
  function Key(m: ChannelMatch): string {
    Clean(Trim(m.rawName))
  }

  /** A match with its key computed: the key, the id, the trimmed display name and the
      later display names. */
  datatype Candidate = Candidate(key: string, id: string, channelName: string, later: seq<string>)

  function CandidateOf(m: ChannelMatch): Candidate {
    Candidate(Key(m), m.id, Trim(m.rawName), m.later)
  }

  function Candidates(ms: seq<ChannelMatch>): (cs: seq<Candidate>)
    ensures |cs| == |ms|
  {
    seq(|ms|, j requires 0 <= j < |ms| => CandidateOf(ms[j]))
  }

  /** The fragment with its display name replaced by the cleaned name. */
  function Rewrite(c: Candidate): ChannelFragment {
    ChannelFragment(Some(c.id), c.key, c.later)
  }

  function EntryOf(c: Candidate): (string, ChannelEntry) {
    (c.key, ChannelEntry(c.id, c.key, c.channelName, Rewrite(c)))
  }

  predicate KeyIn(cs: seq<Candidate>, k: string) {
    exists j :: 0 <= j < |cs| && cs[j].key == k
  }

  // ---------------------------------------------------------------------------
  // Reference: the candidates the loop keeps

  /** The candidates whose key has not been seen before, in input order. */
  function Kept(cs: seq<Candidate>): (r: seq<Candidate>)
    ensures |r| <= |cs|
    ensures forall c :: c in r ==> c in cs
  {
    if cs == [] then []
    else
      var prev := Kept(cs[..|cs| - 1]);
      var last := cs[|cs| - 1];
      if KeyIn(prev, last.key) then prev else prev + [last]
  }

  function Rewrites(cs: seq<Candidate>): (r: seq<ChannelFragment>)
    ensures |r| == |cs|
  {
    seq(|cs|, j requires 0 <= j < |cs| => Rewrite(cs[j]))
  }

  function Entries(cs: seq<Candidate>): (r: seq<(string, ChannelEntry)>)
    ensures |r| == |cs|
  {
    seq(|cs|, j requires 0 <= j < |cs| => EntryOf(cs[j]))
  }

  /** `channelMap.has(key)` on the association list that stands for the insertion-ordered
      `Map`. */
  predicate HasKey(entries: seq<(string, ChannelEntry)>, k: string) {
    exists j :: 0 <= j < |entries| && entries[j].0 == k
  }

  // ---------------------------------------------------------------------------
  // The loop

  /** `extractChannelFragments`: the fragments kept, in order, and `channelMap` as an
      association list, threading the name cache. */
  method ExtractChannelFragments(ms: seq<ChannelMatch>, cache: NameCache)
    returns (fragments: seq<ChannelFragment>, channelMap: seq<(string, ChannelEntry)>, cacheOut: NameCache)
    requires Coherent(cache)
    ensures fragments == Rewrites(Kept(Candidates(ms)))
    ensures channelMap == Entries(Kept(Candidates(ms)))
    ensures |channelMap| == |fragments|
    ensures Coherent(cacheOut) && cache.Keys <= cacheOut.Keys
  {
    fragments := [];
    channelMap := [];
    cacheOut := cache;
    ghost var cs := Candidates(ms);
    var i := 0;
    while i < |ms|
      invariant 0 <= i <= |ms|
      invariant Coherent(cacheOut) && cache.Keys <= cacheOut.Keys
      invariant Tracks(fragments, channelMap, Kept(cs[..i]))
    {
      fragments, channelMap, cacheOut := Step(ms, cs, i, fragments, channelMap, cacheOut);
      i := i + 1;
    }
    PrefixStep(cs, |cs|);
  }

  /** The body of the `while`: the `i`-th match is trimmed and cleaned through the cache,
      and added to the fragments and to `channelMap` when `channelMap` does not have its
      cleaned name yet. */
  method Step(ms: seq<ChannelMatch>, ghost cs: seq<Candidate>, i: nat,
              fragments: seq<ChannelFragment>, channelMap: seq<(string, ChannelEntry)>, cache: NameCache)
    returns (fragments': seq<ChannelFragment>, channelMap': seq<(string, ChannelEntry)>, cache': NameCache)
    requires i < |ms| && cs == Candidates(ms)
    requires Coherent(cache) && Tracks(fragments, channelMap, Kept(cs[..i]))
    ensures Coherent(cache') && cache.Keys <= cache'.Keys
    ensures Tracks(fragments', channelMap', Kept(cs[..i + 1]))
  {
    var c;
    c, cache' := Visit(ms[i], cache);
    KeepStep(cs, i, fragments, channelMap);
    if !HasKey(channelMap, c.key) {
      fragments' := fragments + [Rewrite(c)];
      channelMap' := channelMap + [EntryOf(c)];
    } else {
      fragments', channelMap' := fragments, channelMap;
    }
  }

  /** The body of the loop up to the `has` test: trim the display name and clean it through
      the cache. */
  method Visit(m: ChannelMatch, cache: NameCache) returns (c: Candidate, cacheOut: NameCache)
    requires Coherent(cache)
    ensures c == CandidateOf(m)
    ensures Coherent(cacheOut) && cache.Keys <= cacheOut.Keys
  {
    var channelName := Trim(m.rawName);
    var looked := CleanCached(cache, channelName);
    cacheOut := looked.1;
    c := Candidate(looked.0.cleaned, m.id, channelName, m.later);
  }

  /** One turn of the loop: the candidate is added to the fragments and to `channelMap`
      exactly when `channelMap` does not have its key yet, and then both still describe the
      kept candidates. */
  lemma KeepStep(cs: seq<Candidate>, i: nat, fragments: seq<ChannelFragment>, channelMap: seq<(string, ChannelEntry)>)
    requires i < |cs| && Tracks(fragments, channelMap, Kept(cs[..i]))
    ensures HasKey(channelMap, cs[i].key) ==> Tracks(fragments, channelMap, Kept(cs[..i + 1]))
    ensures !HasKey(channelMap, cs[i].key) ==>
      Tracks(fragments + [Rewrite(cs[i])], channelMap + [EntryOf(cs[i])], Kept(cs[..i + 1]))
  {
    var k := Kept(cs[..i]);
    KeptStep(cs, i);
    HasKeyOfEntries(k, cs[i].key);
    AppendOne(k, cs[i]);
  }

  /** One more candidate: kept exactly when its key is new. */
  lemma KeptStep(cs: seq<Candidate>, i: nat)
    requires i < |cs|
    ensures Kept(cs[..i + 1]) ==
      if KeyIn(Kept(cs[..i]), cs[i].key) then Kept(cs[..i]) else Kept(cs[..i]) + [cs[i]]
  {
    PrefixStep(cs, i);
  }

  lemma PrefixStep<T>(s: seq<T>, i: nat)
    requires i <= |s|
    ensures s[..|s|] == s
    ensures i < |s| ==> s[..i + 1][..i] == s[..i] && s[..i + 1][i] == s[i]
  {
  }

  /** The fragments and `channelMap` are those of the kept candidates `k`. */
  predicate Tracks(fragments: seq<ChannelFragment>, channelMap: seq<(string, ChannelEntry)>, k: seq<Candidate>) {
    fragments == Rewrites(k) && channelMap == Entries(k)
  }

  lemma AppendOne(k: seq<Candidate>, c: Candidate)
    ensures Rewrites(k + [c]) == Rewrites(k) + [Rewrite(c)]
    ensures Entries(k + [c]) == Entries(k) + [EntryOf(c)]
  {
  }

  lemma HasKeyOfEntries(ks: seq<Candidate>, k: string)
    ensures HasKey(Entries(ks), k) <==> KeyIn(ks, k)
  {
    if KeyIn(ks, k) {
      var j :| 0 <= j < |ks| && ks[j].key == k;
      assert Entries(ks)[j].0 == k;
    }
  }

  // ---------------------------------------------------------------------------
  // What the kept matches are

  /** `i` is the first position of its key. */
  predicate IsFirst(cs: seq<Candidate>, i: int) {
    0 <= i < |cs| && forall j :: 0 <= j < i ==> cs[j].key != cs[i].key
  }

  /** No two kept matches share a key. */
  lemma {:induction false} KeptDistinct(cs: seq<Candidate>)
    ensures forall i, j :: 0 <= i < j < |Kept(cs)| ==> Kept(cs)[i].key != Kept(cs)[j].key
  {
    if cs != [] {
      KeptDistinct(cs[..|cs| - 1]);
    }
  }

  /** Every key of the input is the key of some kept match. */
  lemma {:induction false} KeptCoversKeys(cs: seq<Candidate>)
    ensures forall i :: 0 <= i < |cs| ==> KeyIn(Kept(cs), cs[i].key)
  {
    if cs != [] {
      var init := cs[..|cs| - 1];
      KeptCoversKeys(init);
      var prev := Kept(init);
      var r := Kept(cs);
      forall i | 0 <= i < |cs| ensures KeyIn(r, cs[i].key) {
        if i < |cs| - 1 {
          assert cs[i] == init[i];
          var j :| 0 <= j < |prev| && prev[j].key == cs[i].key;
          assert r[j] == prev[j];
        } else if !KeyIn(prev, cs[i].key) {
          assert r[|prev|] == cs[i];
        }
      }
    }
  }

  /** Every kept candidate is the first of its key in the input. */
  lemma {:induction false} KeptAreFirsts(cs: seq<Candidate>)
    ensures forall c :: c in Kept(cs) ==> exists i :: IsFirst(cs, i) && cs[i] == c
  {
    if cs != [] {
      var init := cs[..|cs| - 1];
      KeptAreFirsts(init);
      var prev := Kept(init);
      forall c | c in Kept(cs) ensures exists i :: IsFirst(cs, i) && cs[i] == c {
        if c in prev {
          var i :| IsFirst(init, i) && init[i] == c;
          FirstOfInit(cs, i);
        } else {
          LastIsFirst(cs);
        }
      }
    }
  }

  lemma FirstOfInit(cs: seq<Candidate>, i: int)
    requires cs != [] && IsFirst(cs[..|cs| - 1], i)
    ensures IsFirst(cs, i) && cs[i] == cs[..|cs| - 1][i]
  {
  }

  /** The last candidate, when kept, is the first of its key. */
  lemma LastIsFirst(cs: seq<Candidate>)
    requires cs != [] && !KeyIn(Kept(cs[..|cs| - 1]), cs[|cs| - 1].key)
    ensures IsFirst(cs, |cs| - 1)
  {
    var init := cs[..|cs| - 1];
    KeptCoversKeys(init);
    forall j | 0 <= j < |cs| - 1 ensures cs[j].key != cs[|cs| - 1].key {
      assert cs[j] == init[j];
    }
  }

  /** Every candidate that is the first of its key is kept. */
  lemma {:induction false} FirstsAreKept(cs: seq<Candidate>)
    ensures forall i :: IsFirst(cs, i) ==> cs[i] in Kept(cs)
  {
    if cs != [] {
      var init := cs[..|cs| - 1];
      var last := cs[|cs| - 1];
      FirstsAreKept(init);
      var prev := Kept(init);
      forall i | IsFirst(cs, i) ensures cs[i] in Kept(cs) {
        if i < |cs| - 1 {
          assert IsFirst(init, i) by {
            forall j | 0 <= j < i ensures init[j].key != init[i].key {
              assert init[j] == cs[j];
            }
          }
        } else {
          KeptAreFirsts(init);
          forall j | 0 <= j < |prev| ensures prev[j].key != last.key {
            assert prev[j] in prev;
            var h :| IsFirst(init, h) && init[h] == prev[j];
            assert cs[h] == init[h];
          }
        }
      }
    }
  }

  /** Later matches never displace a kept one: the kept matches of a prefix of the input
      are a prefix of the kept matches of the whole. */
  lemma {:induction false} KeptExtends(cs: seq<Candidate>, more: seq<Candidate>)
    ensures |Kept(cs)| <= |Kept(cs + more)|
    ensures Kept(cs + more)[..|Kept(cs)|] == Kept(cs)
    decreases |more|
  {
    if more == [] {
      assert cs + more == cs;
    } else {
      var init := more[..|more| - 1];
      KeptExtends(cs, init);
      assert (cs + more)[..|cs + more| - 1] == cs + init;
    }
  }

  // ---------------------------------------------------------------------------
  // `channelStats` in `split`

  datatype ChannelStats = ChannelStats(originalCount: int, cleanedCount: int, duplicateRemoved: int)

  /** The statistics as written: `channelMap.size` for the original count, the number of
      fragments for the cleaned count, and their difference as the number removed. */
  function StatsAsWritten(fragments: seq<ChannelFragment>, channelMap: seq<(string, ChannelEntry)>): ChannelStats {
    ChannelStats(|channelMap|, |fragments|, |channelMap| - |fragments|)
  }

  /** Both counts grow together in the loop, so the reported number of duplicates removed
      is always 0, even when duplicates were dropped. */
  lemma DuplicateRemovedAlwaysZero(cs: seq<Candidate>)
    ensures StatsAsWritten(Rewrites(Kept(cs)), Entries(Kept(cs))).duplicateRemoved == 0
  {
  }

  /** A channel listed twice: two matches go in, one fragment comes out, and the statistics
      as written report nothing removed. */
  lemma DuplicateRemovedMissesRepeat(m: Candidate)
    ensures |Kept([m, m])| == 1
    ensures StatsAsWritten(Rewrites(Kept([m, m])), Entries(Kept([m, m]))).duplicateRemoved == 0
  {
    assert [m, m][..1] == [m];
    assert [m][..0] == [];
    assert Kept([m]) == [m];
    assert KeyIn([m], m.key);
  }

  /** The statistics as evidently intended: matches seen, fragments kept, and the
      difference as the number of duplicates removed, which is positive exactly when two
      matches share a cleaned name. */
  function Stats(cs: seq<Candidate>): (s: ChannelStats)
    ensures s.duplicateRemoved > 0 <==> exists i, j :: 0 <= i < j < |cs| && cs[i].key == cs[j].key
    ensures s.duplicateRemoved == 0 <==> Kept(cs) == cs
  {
    DuplicatesCounted(cs);
    ChannelStats(|cs|, |Kept(cs)|, |cs| - |Kept(cs)|)
  }

  /** Some match is dropped exactly when two matches share a key; otherwise all are kept. */
  lemma {:induction false} DuplicatesCounted(cs: seq<Candidate>)
    ensures |Kept(cs)| < |cs| <==> exists i, j :: 0 <= i < j < |cs| && cs[i].key == cs[j].key
    ensures |Kept(cs)| == |cs| <==> Kept(cs) == cs
  {
    if exists i, j :: 0 <= i < j < |cs| && cs[i].key == cs[j].key {
      var i, j :| 0 <= i < j < |cs| && cs[i].key == cs[j].key;
      RepeatShrinks(cs, i, j);
    } else {
      NoRepeatKeepsAll(cs);
    }
  }

  lemma {:induction false} RepeatShrinks(cs: seq<Candidate>, i: int, j: int)
    requires 0 <= i < j < |cs| && cs[i].key == cs[j].key
    ensures |Kept(cs)| < |cs|
  {
    var init := cs[..|cs| - 1];
    if j < |cs| - 1 {
      assert init[i] == cs[i] && init[j] == cs[j];
      RepeatShrinks(init, i, j);
    } else {
      KeptCoversKeys(init);
      assert init[i] == cs[i];
    }
  }

  lemma {:induction false} NoRepeatKeepsAll(cs: seq<Candidate>)
    requires forall i, j :: 0 <= i < j < |cs| ==> cs[i].key != cs[j].key
    ensures Kept(cs) == cs
  {
    if cs != [] {
      var init := cs[..|cs| - 1];
      var last := cs[|cs| - 1];
      NoRepeatKeepsAll(init);
      assert !KeyIn(init, last.key) by {
        forall j | 0 <= j < |init| ensures init[j].key != last.key {
          assert init[j] == cs[j];
        }
      }
      assert init + [last] == cs;
    }
  }

  // ---------------------------------------------------------------------------
  // `extractChannelInfo`

  /** A channel record as `extractChannelInfo` builds it. */
  datatype Channel = Channel(id: string, name: string)

  /** The name given to a fragment whose display name is empty. */
  const UnknownName: string := "未知频道"

  /** The first non-empty text in `names`: what `/<display-name[^>]*>([^<]+)<\/display-name>/`
      finds, since an element with empty text fails `[^<]+` and the search moves on. */
  function FirstNonEmpty(names: seq<string>): (r: Option<string>)
    ensures r.None? <==> forall i :: 0 <= i < |names| ==> names[i] == ""
    ensures r.Some? ==> exists i :: 0 <= i < |names| && names[i] == r.value && r.value != "" &&
                          forall j :: 0 <= j < i ==> names[j] == ""
  {
    if names == [] then None
    else if names[0] != "" then Some(names[0])
    else
      var r := FirstNonEmpty(names[1..]);
      assert forall i :: 1 <= i < |names| ==> names[i] == names[1..][i - 1];
      r
  }

  /** `extractChannelInfo` on one fragment: the name is the first display-name text the
      pattern captures, 未知频道 when there is none; a missing id becomes the empty string. */
  function ChannelInfo(f: ChannelFragment): (c: Channel)
    ensures c.name != ""
    ensures f.displayName != "" ==> c.name == f.displayName
    ensures f.displayName == "" && (exists i :: 0 <= i < |f.later| && f.later[i] != "") ==>
      exists i :: 0 <= i < |f.later| && c.name == f.later[i] && forall j :: 0 <= j < i ==> f.later[j] == ""
    ensures f.displayName == "" && (forall i :: 0 <= i < |f.later| ==> f.later[i] == "") ==>
      c.name == UnknownName
    ensures f.id.Some? ==> c.id == f.id.value
    ensures f.id.None? ==> c.id == ""
  {
    var names := [f.displayName] + f.later;
    FirstNonEmptyOfCons(f.displayName, f.later);
    Channel(f.id.GetOr(""), FirstNonEmpty(names).GetOr(UnknownName))
  }

  function ExtractChannelInfo(fragments: seq<ChannelFragment>): (cs: seq<Channel>)
    ensures |cs| == |fragments|
    ensures forall i :: 0 <= i < |fragments| ==> cs[i] == ChannelInfo(fragments[i])
  {
    seq(|fragments|, i requires 0 <= i < |fragments| => ChannelInfo(fragments[i]))
  }

  /** A kept channel is identified by its match's id and named by its cleaned name. When that
      is empty, the rewritten element cannot be captured and the name comes, uncleaned, from
      the next display-name element with text, or is 未知频道 when none follows. */
  lemma InfoOfKept(c: Candidate)
    ensures c.key != "" ==> ChannelInfo(Rewrite(c)) == Channel(c.id, c.key)
    ensures c.key == "" ==> ChannelInfo(Rewrite(c)) == Channel(c.id, FirstNonEmpty(c.later).GetOr(UnknownName))
  {
    FirstNonEmptyOfCons(c.key, c.later);
  }

  /** The search looks at the first text, then at the rest. */
  lemma FirstNonEmptyOfCons(h: string, rest: seq<string>)
    ensures h != "" ==> FirstNonEmpty([h] + rest) == Some(h)
    ensures h == "" ==> FirstNonEmpty([h] + rest) == FirstNonEmpty(rest)
  {
    assert ([h] + rest)[1..] == rest;
  }

  /** All display names that clean to the empty string share one key, so at most one kept
      channel has an empty name. */
  lemma AtMostOneEmptyName(cs: seq<Candidate>)
    ensures forall i, j :: 0 <= i < j < |Kept(cs)| ==> Kept(cs)[i].key != "" || Kept(cs)[j].key != ""
  {
    KeptDistinct(cs);
  }
}
