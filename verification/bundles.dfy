/** What the per-province and per-category files contain, reduced to their channel id lists
    and counts (splitter.js:307-385, 473-545, 587-609), and `filterProgrammesByChannels`,
    which picks the programmes of those ids. */
module Bundles {
  import opened Wrappers
  import opened Text
  import opened Categories
  import opened Partition
  import Dedup

  // ---------------------------------------------------------------------------
  // `fragment.match(/channel="([^"]+)"/)`

  const ChannelAttrOpen: string := "channel=\""

  /** Length of the run of characters other than '"' at the start of `t` (the greedy
      `[^"]+`, which never needs to back off: the character after a maximal run is a
      quote or nothing). */
  function QuoteFreeRun(t: string): (n: nat)
    ensures n <= |t|
    ensures forall i :: 0 <= i < n ==> t[i] != '"'
    ensures n == |t| || t[n] == '"'
  {
    if |t| > 0 && t[0] != '"' then 1 + QuoteFreeRun(t[1..]) else 0
  }

  /** The pattern matches at `k`: `channel="`, then at least one non-quote, then a quote. */
  predicate AttrAt(s: string, k: nat) {
    && k <= |s|
    && StartsWith(s[k..], ChannelAttrOpen)
    && 0 < QuoteFreeRun(s[k + |ChannelAttrOpen|..]) < |s[k + |ChannelAttrOpen|..]|
  }

  /** The captured value of a match at `k`. */
  function AttrValue(s: string, k: nat): string
    requires AttrAt(s, k)
  {
    var t := s[k + |ChannelAttrOpen|..];
    t[..QuoteFreeRun(t)]
  }

  /** The first match at or after `k`, scanning left to right as `String.prototype.match`
      does, and the value it captures. */
  function AttrFrom(s: string, k: nat): (r: Option<string>)
    ensures r.None? ==> forall j :: k <= j ==> !AttrAt(s, j)
    ensures r.Some? ==> exists j :: k <= j && AttrAt(s, j) && r.value == AttrValue(s, j)
                                && forall j' :: k <= j' < j ==> !AttrAt(s, j')
    decreases |s| - k
  {
    if k > |s| then None
    else if AttrAt(s, k) then Some(AttrValue(s, k))
    else AttrFrom(s, k + 1)
  }

  /** The value of the first `channel="…"` attribute of a programme fragment, if any. */
  function ChannelAttr(fragment: string): Option<string> {
    AttrFrom(fragment, 0)
  }

  // ---------------------------------------------------------------------------
  // `filterProgrammesByChannels`

  /** Whether the filter keeps a fragment: it has a `channel="…"` value among `ids`. */
  predicate Wanted(fragment: string, ids: seq<string>) {
    ChannelAttr(fragment).Some? && ChannelAttr(fragment).value in ids
  }

  /** The fragments the filter keeps, in their order. */
  function KeepWanted(ps: seq<string>, ids: seq<string>): seq<string>
    decreases |ps|
  {
    if ps == [] then []
    else (if Wanted(ps[0], ids) then [ps[0]] else []) + KeepWanted(ps[1..], ids)
  }

  /** `filterProgrammesByChannels(programmeFragments, channelIds)` (splitter.js:307-317). */
  function FilterProgrammes(ps: seq<string>, ids: seq<string>): (r: seq<string>)
    ensures |ps| == 0 ==> r == []
    ensures |r| <= |ps|
    ensures forall p :: p in r <==> p in ps && Wanted(p, ids)
  {
    KeepWantedMembers(ps, ids);
    if |ps| == 0 then [] else KeepWanted(ps, ids)
  }

  lemma {:induction false} KeepWantedMembers(ps: seq<string>, ids: seq<string>)
    ensures |KeepWanted(ps, ids)| <= |ps|
    ensures forall p :: p in KeepWanted(ps, ids) <==> p in ps && Wanted(p, ids)
    decreases |ps|
  {
    if ps != [] {
      KeepWantedMembers(ps[1..], ids);
      assert ps == [ps[0]] + ps[1..];
    }
  }

  /** The filter works fragment by fragment and keeps the order: filtering a concatenation
      concatenates the filtered parts. */
  lemma FilterAppend(a: seq<string>, b: seq<string>, ids: seq<string>)
    ensures FilterProgrammes(a + b, ids) == FilterProgrammes(a, ids) + FilterProgrammes(b, ids)
  {
    KeepAppend(a, b, ids);
    FilterKeeps(a, ids);
    FilterKeeps(b, ids);
    FilterKeeps(a + b, ids);
  }

  lemma FilterKeeps(ps: seq<string>, ids: seq<string>)
    ensures FilterProgrammes(ps, ids) == KeepWanted(ps, ids)
  {
  }

  lemma {:induction false} KeepAppend(a: seq<string>, b: seq<string>, ids: seq<string>)
    ensures KeepWanted(a + b, ids) == KeepWanted(a, ids) + KeepWanted(b, ids)
    decreases |a|
  {
    if a != [] {
      assert (a + b)[0] == a[0] && (a + b)[1..] == a[1..] + b;
      KeepAppend(a[1..], b, ids);
      var h := if Wanted(a[0], ids) then [a[0]] else [];
      assert h + (KeepWanted(a[1..], ids) + KeepWanted(b, ids))
          == (h + KeepWanted(a[1..], ids)) + KeepWanted(b, ids);
    } else {
      assert a + b == b;
    }
  }


  /** One fragment is kept exactly when its first `channel="…"` value is one of the ids. */
  lemma FilterOne(p: string, ids: seq<string>)
    ensures FilterProgrammes([p], ids) == (if Wanted(p, ids) then [p] else [])
  {
    assert [p][1..] == [];
    assert KeepWanted([p], ids) == (if Wanted(p, ids) then [p] else []) + KeepWanted([], ids);
  }

  // ---------------------------------------------------------------------------
  // `generateProvinceFiles`

  function Ids(cs: seq<Placed>): (r: seq<string>)
    ensures |r| == |cs|
    ensures forall i :: 0 <= i < |cs| ==> r[i] == cs[i].id
  {
    seq(|cs|, i requires 0 <= i < |cs| => cs[i].id)
  }

  /** `pool.filter(c => c.category === '其他')`. */
  function OfOther(pool: seq<Placed>): seq<Placed>
    decreases |pool|
  {
    if pool == [] then []
    else (if pool[0].category == Other then [pool[0]] else []) + OfOther(pool[1..])
  }

  /** `pool.filter(c => c.category !== '其他')`. */
  function NotOfOther(pool: seq<Placed>): seq<Placed>
    decreases |pool|
  {
    if pool == [] then []
    else (if pool[0].category != Other then [pool[0]] else []) + NotOfOther(pool[1..])
  }

  /** The record a province file contributes to the index, with `allChannelIds`, the ids
      whose programmes the file carries. */
  datatype ProvinceFile = ProvinceFile(
    province: string, pinyin: string, channelIds: seq<string>,
    localChannelCount: nat, universalChannelCount: nat, otherChannelCount: nat,
    programmeCount: nat, totalChannelCount: nat)

  /** The universal part every province file shares: the universal channels outside 其他,
      then the 其他 channels, in pool order. */
  function SharedIds(pool: seq<Placed>): seq<string> {
    Ids(NotOfOther(pool)) + Ids(OfOther(pool))
  }

  /** One province's record (splitter.js:340-379). */
  function ProvinceFileOf(name: string, pinyin: string, local: seq<Placed>, pool: seq<Placed>,
                          programmes: seq<string>): ProvinceFile
  {
    var ruled := NotOfOther(pool);
    var others := OfOther(pool);
    var ids := Ids(local) + Ids(ruled) + Ids(others);
    ProvinceFile(name, pinyin, ids, |local|, |ruled|, |others|,
                 |FilterProgrammes(programmes, ids)|, |local| + |ruled| + |others|)
  }

  /** Whether a province has a file: `provincePinyinMap[provinceName]` is truthy. */
  predicate HasProvincePinyin(name: string) {
    name in ProvincePinyin && ProvincePinyin[name] != ""
  }

  /** `generateProvinceFiles`: one record per province key in insertion order, skipping a
      province without a pinyin mapping (splitter.js:333-338). */
  function ProvinceFiles(province: Groups, pool: seq<Placed>, programmes: seq<string>): seq<ProvinceFile>
    decreases |province|
  {
    if province == [] then []
    else
      var name := province[0].0;
      var rest := ProvinceFiles(province[1..], pool, programmes);
      if HasProvincePinyin(name)
      then [ProvinceFileOf(name, ProvincePinyin[name], province[0].1, pool, programmes)] + rest
      else rest
  }

  /** The province keys that have a pinyin mapping, in insertion order. */
  function MappedProvinces(province: Groups): seq<string>
    decreases |province|
  {
    if province == [] then []
    else (if HasProvincePinyin(province[0].0) then [province[0].0] else []) + MappedProvinces(province[1..])
  }

  function FileProvinces(files: seq<ProvinceFile>): (r: seq<string>)
    ensures |r| == |files|
    ensures forall i :: 0 <= i < |files| ==> r[i] == files[i].province
  {
    seq(|files|, i requires 0 <= i < |files| => files[i].province)
  }

  /** Exactly the mapped provinces get a file, in the object's key order. */
  lemma {:induction false} ProvinceFilesSkipUnmapped(province: Groups, pool: seq<Placed>, programmes: seq<string>)
    ensures FileProvinces(ProvinceFiles(province, pool, programmes)) == MappedProvinces(province)
    decreases |province|
  {
    if province != [] {
      ProvinceFilesSkipUnmapped(province[1..], pool, programmes);
    }
  }

  /** Each province file lists its own channels, then the shared universal part; the list
      is as long as `totalChannelCount`, and the counts split it into its three parts. */
  lemma {:induction false} ProvinceFileIds(province: Groups, pool: seq<Placed>, programmes: seq<string>, f: ProvinceFile)
    requires f in ProvinceFiles(province, pool, programmes)
    ensures HasProvincePinyin(f.province) && f.pinyin == ProvincePinyin[f.province]
    ensures exists j :: 0 <= j < |province| && province[j].0 == f.province
                     && f.channelIds == Ids(province[j].1) + SharedIds(pool)
    ensures |f.channelIds| == f.totalChannelCount
    ensures f.localChannelCount + f.universalChannelCount + f.otherChannelCount == f.totalChannelCount
    ensures f.channelIds[f.localChannelCount..] == SharedIds(pool)
    ensures f.programmeCount == |FilterProgrammes(programmes, f.channelIds)|
    decreases |province|
  {
    var rest := ProvinceFiles(province[1..], pool, programmes);
    if f in rest {
      ProvinceFileIds(province[1..], pool, programmes, f);
      var j :| 0 <= j < |province[1..]| && province[1..][j].0 == f.province
               && f.channelIds == Ids(province[1..][j].1) + SharedIds(pool);
      assert province[j + 1] == province[1..][j];
    } else {
      var local := province[0].1;
      assert f == ProvinceFileOf(province[0].0, ProvincePinyin[province[0].0], local, pool, programmes);
      assert f.channelIds == Ids(local) + SharedIds(pool);
      assert f.channelIds[|local|..] == SharedIds(pool);
    }
  }

  /** Every province file carries the same universal part. */
  lemma SameSharedPart(province: Groups, pool: seq<Placed>, programmes: seq<string>, f: ProvinceFile, g: ProvinceFile)
    requires f in ProvinceFiles(province, pool, programmes) && g in ProvinceFiles(province, pool, programmes)
    ensures f.localChannelCount <= |f.channelIds| && g.localChannelCount <= |g.channelIds|
    ensures f.channelIds[f.localChannelCount..] == g.channelIds[g.localChannelCount..]
  {
    ProvinceFileIds(province, pool, programmes, f);
    ProvinceFileIds(province, pool, programmes, g);
  }

  // ---------------------------------------------------------------------------
  // `generateUniversalFiles`

  /** The record a category file contributes to the index. */
  datatype UniversalFile = UniversalFile(category: string, pinyin: string, channelCount: nat, programmeCount: nat)

  /** Whether a category has a file: `universalPinyinMap[category]` is truthy. */
  predicate HasUniversalPinyin(category: string) {
    category in UniversalPinyin && UniversalPinyin[category] != ""
  }

  /** `generateUniversalFiles`: one record per universal key in insertion order, skipping an
      empty array and a category without a pinyin mapping (splitter.js:487-494). */
  function UniversalFiles(universal: Groups, programmes: seq<string>): seq<UniversalFile>
    decreases |universal|
  {
    if universal == [] then []
    else
      var (category, chans) := universal[0];
      var rest := UniversalFiles(universal[1..], programmes);
      if |chans| == 0 || !HasUniversalPinyin(category) then rest
      else [UniversalFile(category, UniversalPinyin[category], |chans|,
                          |FilterProgrammes(programmes, Ids(chans))|)] + rest
  }

  /** The universal keys whose array is non-empty and which have a pinyin mapping. */
  function FiledCategories(universal: Groups): seq<string>
    decreases |universal|
  {
    if universal == [] then []
    else
      var (category, chans) := universal[0];
      (if |chans| > 0 && HasUniversalPinyin(category) then [category] else []) + FiledCategories(universal[1..])
  }

  function FileCategories(files: seq<UniversalFile>): (r: seq<string>)
    ensures |r| == |files|
    ensures forall i :: 0 <= i < |files| ==> r[i] == files[i].category
  {
    seq(|files|, i requires 0 <= i < |files| => files[i].category)
  }

  /** Exactly the non-empty, mapped categories get a file, in the object's key order. */
  lemma {:induction false} UniversalFilesSkip(universal: Groups, programmes: seq<string>)
    ensures FileCategories(UniversalFiles(universal, programmes)) == FiledCategories(universal)
    decreases |universal|
  {
    if universal != [] {
      UniversalFilesSkip(universal[1..], programmes);
    }
  }

  /** Each category file counts the channels of its category's array and the programmes of
      their ids. */
  lemma {:induction false} UniversalFileCounts(universal: Groups, programmes: seq<string>, f: UniversalFile)
    requires f in UniversalFiles(universal, programmes)
    ensures HasUniversalPinyin(f.category) && f.pinyin == UniversalPinyin[f.category]
    ensures exists j :: 0 <= j < |universal| && universal[j].0 == f.category && |universal[j].1| > 0
                     && f.channelCount == |universal[j].1|
                     && f.programmeCount == |FilterProgrammes(programmes, Ids(universal[j].1))|
    decreases |universal|
  {
    if f in UniversalFiles(universal[1..], programmes) {
      UniversalFileCounts(universal[1..], programmes, f);
      var j :| 0 <= j < |universal[1..]| && universal[1..][j].0 == f.category && |universal[1..][j].1| > 0
               && f.channelCount == |universal[1..][j].1|
               && f.programmeCount == |FilterProgrammes(programmes, Ids(universal[1..][j].1))|;
      assert universal[j + 1] == universal[1..][j];
    }
  }

  /** The 其他 bucket never gets a category file of its own: it has no pinyin mapping. */
  lemma NoOtherFile(universal: Groups, programmes: seq<string>, f: UniversalFile)
    requires f in UniversalFiles(universal, programmes)
    ensures f.category != Other
  {
    UniversalFileCounts(universal, programmes, f);
    OtherHasNoRuleAndNoFile();
  }

  // ---------------------------------------------------------------------------
  // The pool `generateProvinceFiles` receives from `getAllUniversalChannels`

  lemma {:induction false} SplitAppend(a: seq<Placed>, b: seq<Placed>)
    ensures OfOther(a + b) == OfOther(a) + OfOther(b)
    ensures NotOfOther(a + b) == NotOfOther(a) + NotOfOther(b)
    decreases |a|
  {
    if a != [] {
      assert (a + b)[0] == a[0] && (a + b)[1..] == a[1..] + b;
      SplitAppend(a[1..], b);
    } else {
      assert a + b == b;
    }
  }

  lemma {:induction false} SplitAllOther(a: seq<Placed>)
    requires forall x :: x in a ==> x.category == Other
    ensures OfOther(a) == a && NotOfOther(a) == []
    decreases |a|
  {
    if a != [] {
      SplitAllOther(a[1..]);
      assert a == [a[0]] + a[1..];
    }
  }

  lemma {:induction false} SplitNoOther(a: seq<Placed>)
    requires forall x :: x in a ==> x.category != Other
    ensures OfOther(a) == [] && NotOfOther(a) == a
    decreases |a|
  {
    if a != [] {
      SplitNoOther(a[1..]);
      assert a == [a[0]] + a[1..];
    }
  }

  /** The pool a province file draws on splits into the first round's universal arrays, in
      key order, and the second round's 其他 list, exactly. */
  lemma PoolSplits(verdict: Verdict, cs: seq<Dedup.Channel>)
    requires Consistent(verdict)
    ensures NotOfOther(AllUniversal(Separate(verdict, cs))) == Flatten(Round1(verdict, cs).universal)
    ensures OfOther(AllUniversal(Separate(verdict, cs))) == Separate(verdict, cs).others
  {
    var s := Separate(verdict, cs);
    var u := Round1(verdict, cs).universal;
    AllUniversalSplits(verdict, cs);
    Round1Grouped(verdict, cs);
    forall x | x in Flatten(u) ensures x.category != Other {
      FlattenMembers(u, x);
    }
    forall x | x in s.others ensures x.category == Other {
      OthersUnremembered(cs, Round1(verdict, cs).matchedIds, x);
    }
    SplitAppend(Flatten(u), s.others);
    SplitNoOther(Flatten(u));
    SplitAllOther(s.others);
  }

  /** With the partition's pool, every province file lists its own channels, then the
      first round's universal channels, then the 其他 channels. */
  lemma ProvinceIdsFromPartition(verdict: Verdict, cs: seq<Dedup.Channel>, programmes: seq<string>, f: ProvinceFile)
    requires Consistent(verdict)
    requires f in ProvinceFiles(Separate(verdict, cs).province, AllUniversal(Separate(verdict, cs)), programmes)
    ensures exists j :: 0 <= j < |Separate(verdict, cs).province| && Separate(verdict, cs).province[j].0 == f.province
              && f.channelIds == Ids(Separate(verdict, cs).province[j].1)
                               + Ids(Flatten(Round1(verdict, cs).universal)) + Ids(Separate(verdict, cs).others)
  {
    PoolSplits(verdict, cs);
    ProvinceFileIds(Separate(verdict, cs).province, AllUniversal(Separate(verdict, cs)), programmes, f);
  }

  // ---------------------------------------------------------------------------
  // The `summary` of index.json (splitter.js:597-608)

  datatype IndexSummary = IndexSummary(
    totalProvinces: nat, totalUniversalCategories: nat, provinceChannelCount: nat,
    universalChannelCount: nat, otherChannelCount: nat, totalChannels: nat,
    totalProgrammes: nat, generatedFiles: nat)

  /** `Object.values(g).reduce((sum, channels) => sum + channels.length, 0)`. */
  function SumLengths(g: Groups): nat
    decreases |g|
  {
    if g == [] then 0 else |g[0].1| + SumLengths(g[1..])
  }

  lemma {:induction false} SumLengthsFlatten(g: Groups)
    ensures SumLengths(g) == |Flatten(g)|
    decreases |g|
  {
    if g != [] {
      SumLengthsFlatten(g[1..]);
    }
  }

  /** The summary, given the separation, the two file lists and the complete file's channel
      and programme counts. */
  function Summary(s: Separation, provinceFiles: seq<ProvinceFile>, universalFiles: seq<UniversalFile>,
                   channelCount: nat, programmeCount: nat): IndexSummary
  {
    IndexSummary(|s.province|, |s.universal|, SumLengths(s.province), SumLengths(s.universal),
                 |s.others|, channelCount, programmeCount, |provinceFiles| + |universalFiles| + 2)
  }

  /** The channel counts of the summary add up to at most `totalChannels`, and to exactly
      that when the channel ids are distinct; the universal count includes the 其他 ones. */
  lemma SummaryCounts(verdict: Verdict, cs: seq<Dedup.Channel>, pf: seq<ProvinceFile>, uf: seq<UniversalFile>, programmeCount: nat)
    requires Consistent(verdict)
    ensures var m := Summary(Separate(verdict, cs), pf, uf, |cs|, programmeCount);
            m.provinceChannelCount + m.universalChannelCount <= m.totalChannels
    ensures var m := Summary(Separate(verdict, cs), pf, uf, |cs|, programmeCount);
            IdsDistinct(cs) ==> m.provinceChannelCount + m.universalChannelCount == m.totalChannels
    ensures var m := Summary(Separate(verdict, cs), pf, uf, |cs|, programmeCount);
            m.universalChannelCount == |Flatten(Round1(verdict, cs).universal)| + m.otherChannelCount
  {
    var s := Separate(verdict, cs);
    SumLengthsFlatten(s.province);
    SumLengthsFlatten(s.universal);
    BucketsCount(verdict, cs);
    AllUniversalSplits(verdict, cs);
  }
}
