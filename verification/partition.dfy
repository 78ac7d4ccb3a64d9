/** `separateChannels` and `getAllUniversalChannels` (splitter.js:215-304). The channels are
    bucketed in two rounds. The first round classifies each channel by its name and pushes
    the matched ones into per-category arrays, remembering their ids. The second round
    collects, as 其他, every channel whose id the first round did not remember. The buckets
    are insertion-ordered JavaScript objects, modelled as association lists. */
module Partition {
  import opened Wrappers
  import opened Categories
  import opened Classifier
  import Dedup

  /** A channel object once `separateChannels` has set its `category` and `isUniversal`. */
  datatype Placed = Placed(id: string, name: string, category: string, isUniversal: bool)

  /** How the first round judges one name. The rounds are stated for any such judgement;
      `SeparateChannels` uses the rule table of categories.js through `TableVerdict`. */
  type Verdict = string -> Classification

  /** The first round's judgement in the source: first match over the sorted rule table. */
  function TableVerdict(name: string): Classification {
    Classify(CategoryRules, name)
  }

  /** What the rounds rely on from a judgement, and what the rule table gives: a matched
      name never gets the category 其他, and an unmatched one gets 其他, universal. */
  ghost predicate Consistent(verdict: Verdict) {
    forall n :: if verdict(n).matched then verdict(n).category != Other
                else verdict(n) == Classification(Other, true, false)
  }

  /** The category and universality a channel's name earns: the rule's, or the fallback
      其他 for a name no rule matches. */
  function Place(verdict: Verdict, c: Dedup.Channel): Placed {
    var v := verdict(c.name);
    Placed(c.id, c.name, v.category, v.isUniversal)
  }

  /** Whether some rule matches the channel's name. */
  predicate IsMatched(verdict: Verdict, c: Dedup.Channel) {
    verdict(c.name).matched
  }

  // ---------------------------------------------------------------------------
  // Insertion-ordered objects from category names to channel arrays

  type Groups = seq<(string, seq<Placed>)>

  predicate KeysDistinct(g: Groups) {
    forall i, j :: 0 <= i < j < |g| ==> g[i].0 != g[j].0
  }

  /** `g[k]`: the array stored under `k`, if any. */
  function Get(g: Groups, k: string): (r: Option<seq<Placed>>)
    ensures r.None? <==> forall i :: 0 <= i < |g| ==> g[i].0 != k
    ensures r.Some? ==> exists i :: 0 <= i < |g| && g[i] == (k, r.value)
  {
    if g == [] then None else if g[0].0 == k then Some(g[0].1) else Get(g[1..], k)
  }

  /** `if (!g[k]) g[k] = []; g[k].push(x)`: appends `x` to the array under `k`; a new key
      goes to the end of the insertion order, and every other key keeps its array. */
  function Push(g: Groups, k: string, x: Placed): (r: Groups)
    ensures Get(r, k) == Some(Get(g, k).GetOr([]) + [x])
    ensures forall k' :: k' != k ==> Get(r, k') == Get(g, k')
  {
    if g == [] then
      var r := [(k, [x])];
      assert r[0].0 == k && Get(g, k).GetOr([]) + [x] == [x];
      r
    else if g[0].0 == k then [(k, g[0].1 + [x])] + g[1..]
    else [g[0]] + Push(g[1..], k, x)
  }

  /** `g[k] = v`: stores `v` under `k`, in place when the key exists and at the end of the
      insertion order when it is new; every other key keeps its array. */
  function Put(g: Groups, k: string, v: seq<Placed>): (r: Groups)
    ensures Get(r, k) == Some(v)
    ensures forall k' :: k' != k ==> Get(r, k') == Get(g, k')
  {
    if g == [] then [(k, v)]
    else if g[0].0 == k then [(k, v)] + g[1..]
    else [g[0]] + Put(g[1..], k, v)
  }

  /** The arrays of `g` concatenated in key order, as `getAllUniversalChannels` builds its
      pool with `Object.entries` and `push(...channels)`. */
  function Flatten(g: Groups): seq<Placed> {
    if g == [] then [] else g[0].1 + Flatten(g[1..])
  }

  lemma FlattenCons(e: (string, seq<Placed>), g: Groups)
    ensures Flatten([e] + g) == e.1 + Flatten(g)
  {
    assert ([e] + g)[1..] == g;
  }

  /** A pushed channel adds exactly one element to the flattened object. */
  lemma {:induction false} PushFlatten(g: Groups, k: string, x: Placed)
    ensures multiset(Flatten(Push(g, k, x))) == multiset(Flatten(g)) + multiset{x}
  {
    if g == [] {
    } else if g[0].0 == k {
      FlattenCons((k, g[0].1 + [x]), g[1..]);
    } else {
      PushFlatten(g[1..], k, x);
      FlattenCons(g[0], Push(g[1..], k, x));
    }
  }

  /** Storing an array under a new key appends it to the flattened object. */
  lemma {:induction false} PutNewFlatten(g: Groups, k: string, v: seq<Placed>)
    requires Get(g, k).None?
    ensures Flatten(Put(g, k, v)) == Flatten(g) + v
  {
    if g != [] {
      PutNewFlatten(g[1..], k, v);
      FlattenCons(g[0], Put(g[1..], k, v));
    }
  }

  /** Every element of the flattened object sits in the array of some key. */
  lemma {:induction false} FlattenMembers(g: Groups, x: Placed)
    ensures x in Flatten(g) <==> exists i :: 0 <= i < |g| && x in g[i].1
  {
    if g != [] {
      FlattenMembers(g[1..], x);
      if x in Flatten(g[1..]) {
        var i :| 0 <= i < |g[1..]| && x in g[1..][i].1;
        assert x in g[i + 1].1;
      }
      if exists i :: 0 <= i < |g| && x in g[i].1 {
        var i :| 0 <= i < |g| && x in g[i].1;
        if i > 0 {
          assert x in g[1..][i - 1].1;
        }
      }
    }
  }

  /** The shape the first round gives each of its objects: distinct keys, none of them
      其他, and each array holding only channels of its key's category and universality. */
  predicate Grouped(g: Groups, universal: bool) {
    KeysDistinct(g) && Avoids(g, Other) && Fits(g, universal)
  }

  /** No key of `g` is `bad`. */
  predicate Avoids(g: Groups, bad: string) {
    forall i :: 0 <= i < |g| ==> g[i].0 != bad
  }

  /** Each array holds only channels of its key's category and of universality `u`. */
  predicate Fits(g: Groups, u: bool) {
    forall i, x :: 0 <= i < |g| && x in g[i].1 ==> x.category == g[i].0 && x.isUniversal == u
  }

  lemma PushGrouped(g: Groups, universal: bool, x: Placed)
    requires Grouped(g, universal)
    requires x.category != Other && x.isUniversal == universal
    ensures Grouped(Push(g, x.category, x), universal)
  {
    var k := x.category;
    PushKeysDistinct(g, k, x);
    PushAvoids(g, k, x, Other);
    PushMembers(g, k, x, universal);
  }

  /** Pushing under a key other than `bad` into an object without `bad` leaves it without
      `bad`. */
  lemma {:induction false} PushAvoids(g: Groups, k: string, x: Placed, bad: string)
    requires Avoids(g, bad) && k != bad
    ensures Avoids(Push(g, k, x), bad)
  {
    if g != [] && g[0].0 != k {
      PushAvoids(g[1..], k, x, bad);
      assert Push(g, k, x) == [g[0]] + Push(g[1..], k, x);
    }
  }

  lemma {:induction false} PushKeysDistinct(g: Groups, k: string, x: Placed)
    requires KeysDistinct(g)
    ensures KeysDistinct(Push(g, k, x))
  {
    if g != [] && g[0].0 != k {
      PushKeysDistinct(g[1..], k, x);
      var t := Push(g[1..], k, x);
      var r := Push(g, k, x);
      assert r == [g[0]] + t;
      assert Get(g[1..], g[0].0).None?;
      assert Get(t, g[0].0).None?;
      forall i, j | 0 <= i < j < |r| ensures r[i].0 != r[j].0 {
        if i == 0 {
          assert r[j] == t[j - 1];
        } else {
          assert r[i] == t[i - 1] && r[j] == t[j - 1];
        }
      }
    }
  }

  lemma {:induction false} PushMembers(g: Groups, k: string, x: Placed, u: bool)
    requires Fits(g, u) && x.category == k && x.isUniversal == u
    ensures Fits(Push(g, k, x), u)
  {
    if g != [] && g[0].0 != k {
      PushMembers(g[1..], k, x, u);
      var t := Push(g[1..], k, x);
      assert Push(g, k, x) == [g[0]] + t;
    }
  }

  // ---------------------------------------------------------------------------
  // The two rounds

  /** The objects and the id set after the first `forEach` (splitter.js:229-271). */
  datatype FirstRound = FirstRound(universal: Groups, province: Groups, matchedIds: set<string>)

  /** The first round over the channels in input order. A matched channel is pushed into
      the array of its rule's name, in the universal or the province object, and its id is
      remembered; an unmatched channel is passed over. */
  function Round1(verdict: Verdict, cs: seq<Dedup.Channel>): FirstRound
    decreases |cs|
  {
    if cs == [] then FirstRound([], [], {})
    else
      var r := Round1(verdict, cs[..|cs| - 1]);
      var c := cs[|cs| - 1];
      var p := Place(verdict, c);
      if !IsMatched(verdict, c) then r
      else if p.isUniversal then FirstRound(Push(r.universal, p.category, p), r.province, r.matchedIds + {c.id})
      else FirstRound(r.universal, Push(r.province, p.category, p), r.matchedIds + {c.id})
  }

  /** The second `forEach` (splitter.js:274-280): every channel whose id is not in `ids`,
      in input order, as 其他 and universal. */
  function Others(cs: seq<Dedup.Channel>, ids: set<string>): seq<Placed>
    decreases |cs|
  {
    if cs == [] then []
    else
      var c := cs[|cs| - 1];
      Others(cs[..|cs| - 1], ids) + (if c.id in ids then [] else [Placed(c.id, c.name, Other, true)])
  }

  /** The result of `separateChannels`. */
  datatype Separation = Separation(universal: Groups, province: Groups, others: seq<Placed>)

  /** `separateChannels` with the judgement `verdict`: both rounds, then the 其他 array is
      stored in the universal object when it is not empty (splitter.js:283-285). */
  function Separate(verdict: Verdict, cs: seq<Dedup.Channel>): Separation {
    var r := Round1(verdict, cs);
    var others := Others(cs, r.matchedIds);
    Separation(if |others| > 0 then Put(r.universal, Other, others) else r.universal, r.province, others)
  }

  /** `separateChannels` as written, with the table of categories.js. */
  function SeparateChannels(cs: seq<Dedup.Channel>): Separation {
    Separate(TableVerdict, cs)
  }

  /** `getAllUniversalChannels`: the universal pool, 其他 included. */
  function AllUniversal(s: Separation): seq<Placed> {
    Flatten(s.universal)
  }

  // ---------------------------------------------------------------------------
  // Reference sequences the buckets are compared with

  /** Every channel with the category its name earns, in input order. */
  function PlaceAll(verdict: Verdict, cs: seq<Dedup.Channel>): seq<Placed>
    decreases |cs|
  {
    if cs == [] then [] else PlaceAll(verdict, cs[..|cs| - 1]) + [Place(verdict, cs[|cs| - 1])]
  }

  /** The channels some rule matches, placed, in input order. */
  function MatchedPlaced(verdict: Verdict, cs: seq<Dedup.Channel>): seq<Placed>
    decreases |cs|
  {
    if cs == [] then []
    else
      var c := cs[|cs| - 1];
      MatchedPlaced(verdict, cs[..|cs| - 1]) + (if IsMatched(verdict, c) then [Place(verdict, c)] else [])
  }

  /** The channels no rule matches, placed, in input order. */
  function UnmatchedPlaced(verdict: Verdict, cs: seq<Dedup.Channel>): seq<Placed>
    decreases |cs|
  {
    if cs == [] then []
    else
      var c := cs[|cs| - 1];
      UnmatchedPlaced(verdict, cs[..|cs| - 1]) + (if IsMatched(verdict, c) then [] else [Place(verdict, c)])
  }

  predicate IdsDistinct(cs: seq<Dedup.Channel>) {
    forall i, j :: 0 <= i < j < |cs| ==> cs[i].id != cs[j].id
  }

  // ---------------------------------------------------------------------------
  // What the first round computes

  /** The first round's id set holds exactly the ids of the channels some rule matches. */
  lemma {:induction false} MatchedIdsAre(verdict: Verdict, cs: seq<Dedup.Channel>, id: string)
    ensures id in Round1(verdict, cs).matchedIds <==>
            exists i :: 0 <= i < |cs| && cs[i].id == id && IsMatched(verdict, cs[i])
    decreases |cs|
  {
    if cs != [] {
      var init := cs[..|cs| - 1];
      MatchedIdsAre(verdict, init, id);
      if exists i :: 0 <= i < |init| && init[i].id == id && IsMatched(verdict, init[i]) {
        var i :| 0 <= i < |init| && init[i].id == id && IsMatched(verdict, init[i]);
        assert cs[i] == init[i];
      }
      if exists i :: 0 <= i < |cs| && cs[i].id == id && IsMatched(verdict, cs[i]) {
        var i :| 0 <= i < |cs| && cs[i].id == id && IsMatched(verdict, cs[i]);
        if i < |init| {
          assert init[i] == cs[i];
        }
      }
    }
  }

  /** The first round's objects have distinct keys, none of them 其他, and each array
      holds channels of its key's category: universal ones in the universal object, the
      others in the province object. */
  lemma {:induction false} Round1Grouped(verdict: Verdict, cs: seq<Dedup.Channel>)
    requires Consistent(verdict)
    ensures Grouped(Round1(verdict, cs).universal, true)
    ensures Grouped(Round1(verdict, cs).province, false)
    decreases |cs|
  {
    if cs != [] {
      var c := cs[|cs| - 1];
      Round1Grouped(verdict, cs[..|cs| - 1]);
      if IsMatched(verdict, c) {
        var r := Round1(verdict, cs[..|cs| - 1]);
        var p := Place(verdict, c);
        if p.isUniversal {
          PushGrouped(r.universal, true, p);
        } else {
          PushGrouped(r.province, false, p);
        }
      }
    }
  }

  /** The first round's two objects together hold exactly the matched channels. */
  lemma {:induction false} Round1Holds(verdict: Verdict, cs: seq<Dedup.Channel>)
    ensures multiset(Flatten(Round1(verdict, cs).universal)) + multiset(Flatten(Round1(verdict, cs).province))
         == multiset(MatchedPlaced(verdict, cs))
    decreases |cs|
  {
    if cs != [] {
      var c := cs[|cs| - 1];
      var r := Round1(verdict, cs[..|cs| - 1]);
      Round1Holds(verdict, cs[..|cs| - 1]);
      if IsMatched(verdict, c) {
        var p := Place(verdict, c);
        if p.isUniversal {
          PushFlatten(r.universal, p.category, p);
        } else {
          PushFlatten(r.province, p.category, p);
        }
      }
    }
  }

  // ---------------------------------------------------------------------------
  // What the second round computes

  /** Matched and unmatched channels together are all the channels. */
  lemma {:induction false} MatchedAndUnmatched(verdict: Verdict, cs: seq<Dedup.Channel>)
    ensures multiset(MatchedPlaced(verdict, cs)) + multiset(UnmatchedPlaced(verdict, cs))
         == multiset(PlaceAll(verdict, cs))
    decreases |cs|
  {
    if cs != [] {
      var init := cs[..|cs| - 1];
      MatchedAndUnmatched(verdict, init);
    }
  }

  /** When an id is remembered exactly for the matched channels, the second round collects
      exactly the unmatched ones. */
  lemma {:induction false} OthersAreUnmatched(verdict: Verdict, cs: seq<Dedup.Channel>, ids: set<string>)
    requires Consistent(verdict)
    requires forall i :: 0 <= i < |cs| ==> (cs[i].id in ids <==> IsMatched(verdict, cs[i]))
    ensures Others(cs, ids) == UnmatchedPlaced(verdict, cs)
    decreases |cs|
  {
    if cs != [] {
      var init := cs[..|cs| - 1];
      var c := cs[|cs| - 1];
      assert forall i :: 0 <= i < |init| ==> init[i] == cs[i];
      OthersAreUnmatched(verdict, init, ids);
      assert verdict(c.name).matched || verdict(c.name) == Classification(Other, true, false);
    }
  }

  /** The second round never collects more channels than the unmatched ones: a channel it
      collects is unmatched, though an unmatched one may be passed over. */
  lemma {:induction false} OthersFewer(verdict: Verdict, cs: seq<Dedup.Channel>, ids: set<string>)
    requires forall i :: 0 <= i < |cs| && IsMatched(verdict, cs[i]) ==> cs[i].id in ids
    ensures |Others(cs, ids)| <= |UnmatchedPlaced(verdict, cs)|
    decreases |cs|
  {
    if cs != [] {
      var init := cs[..|cs| - 1];
      assert forall i :: 0 <= i < |init| ==> init[i] == cs[i];
      OthersFewer(verdict, init, ids);
    }
  }

  /** A channel the second round collects has an id the first round did not remember. */
  lemma {:induction false} OthersUnremembered(cs: seq<Dedup.Channel>, ids: set<string>, x: Placed)
    requires x in Others(cs, ids)
    ensures x.id !in ids && x.category == Other && x.isUniversal
    decreases |cs|
  {
    if cs != [] && x in Others(cs[..|cs| - 1], ids) {
      OthersUnremembered(cs[..|cs| - 1], ids, x);
    }
  }

  /** A placed matched channel is the placement of some matched input channel. */
  lemma {:induction false} MatchedPlacedMembers(verdict: Verdict, cs: seq<Dedup.Channel>, x: Placed)
    requires x in MatchedPlaced(verdict, cs)
    ensures exists i :: 0 <= i < |cs| && IsMatched(verdict, cs[i]) && x == Place(verdict, cs[i])
    decreases |cs|
  {
    var init := cs[..|cs| - 1];
    if x in MatchedPlaced(verdict, init) {
      MatchedPlacedMembers(verdict, init, x);
      var i :| 0 <= i < |init| && IsMatched(verdict, init[i]) && x == Place(verdict, init[i]);
      assert init[i] == cs[i];
    } else {
      assert x == Place(verdict, cs[|cs| - 1]);
    }
  }

  /** With distinct ids, each channel's placement occurs once among all placements. */
  lemma {:induction false} PlacedOnce(verdict: Verdict, cs: seq<Dedup.Channel>, i: nat)
    requires IdsDistinct(cs) && i < |cs|
    ensures multiset(PlaceAll(verdict, cs))[Place(verdict, cs[i])] == 1
    decreases |cs|
  {
    var init := cs[..|cs| - 1];
    var n := |cs| - 1;
    assert IdsDistinct(init) by {
      assert forall k :: 0 <= k < |init| ==> init[k] == cs[k];
    }
    if i < n {
      PlacedOnce(verdict, init, i);
      assert init[i] == cs[i];
      assert Place(verdict, cs[n]).id != Place(verdict, cs[i]).id;
    } else {
      PlaceAllIds(verdict, init, cs[n].id);
      assert Place(verdict, cs[i]) !in PlaceAll(verdict, init) by {
        assert forall k :: 0 <= k < |init| ==> init[k].id == cs[k].id != cs[n].id;
      }
    }
  }

  lemma {:induction false} PlaceAllIds(verdict: Verdict, cs: seq<Dedup.Channel>, id: string)
    requires forall k :: 0 <= k < |cs| ==> cs[k].id != id
    ensures forall x :: x in PlaceAll(verdict, cs) ==> x.id != id
    decreases |cs|
  {
    if cs != [] {
      var init := cs[..|cs| - 1];
      assert forall k :: 0 <= k < |init| ==> init[k] == cs[k];
      PlaceAllIds(verdict, init, id);
    }
  }

  // ---------------------------------------------------------------------------
  // What `separateChannels` promises

  /** The rule table judges consistently: no rule is named 其他, and a name no rule matches
      gets 其他, universal. */
  lemma TableConsistent()
    ensures Consistent(TableVerdict)
  {
    OtherHasNoRuleAndNoFile();
    forall n: string ensures
      if TableVerdict(n).matched then TableVerdict(n).category != Other
      else TableVerdict(n) == Classification(Other, true, false)
    {
      MatchedIsNotOther(CategoryRules, n);
    }
  }

  /** `universalChannels['其他']` exists exactly when the second round collected a channel,
      and then it is that very list; every other key keeps what the first round stored. */
  lemma OtherBucket(verdict: Verdict, cs: seq<Dedup.Channel>)
    requires Consistent(verdict)
    ensures Get(Separate(verdict, cs).universal, Other).Some? <==> |Separate(verdict, cs).others| > 0
    ensures |Separate(verdict, cs).others| > 0 ==>
              Get(Separate(verdict, cs).universal, Other) == Some(Separate(verdict, cs).others)
    ensures forall k :: k != Other ==>
              Get(Separate(verdict, cs).universal, k) == Get(Round1(verdict, cs).universal, k)
  {
    Round1Grouped(verdict, cs);
  }

  /** The universal pool is the first round's universal arrays in key order followed by the
      其他 channels. */
  lemma AllUniversalSplits(verdict: Verdict, cs: seq<Dedup.Channel>)
    requires Consistent(verdict)
    ensures AllUniversal(Separate(verdict, cs)) == Flatten(Round1(verdict, cs).universal) + Separate(verdict, cs).others
  {
    var r := Round1(verdict, cs);
    Round1Grouped(verdict, cs);
    if |Separate(verdict, cs).others| > 0 {
      PutNewFlatten(r.universal, Other, Separate(verdict, cs).others);
    } else {
      assert Separate(verdict, cs).others == [];
    }
  }

  /** With distinct ids, the second round collects exactly the channels no rule matches. */
  lemma OthersWhenIdsDistinct(verdict: Verdict, cs: seq<Dedup.Channel>)
    requires Consistent(verdict) && IdsDistinct(cs)
    ensures Separate(verdict, cs).others == UnmatchedPlaced(verdict, cs)
  {
    var ids := Round1(verdict, cs).matchedIds;
    forall i | 0 <= i < |cs| ensures cs[i].id in ids <==> IsMatched(verdict, cs[i]) {
      MatchedIdsAre(verdict, cs, cs[i].id);
    }
    OthersAreUnmatched(verdict, cs, ids);
  }

  /** With distinct ids, the universal pool (其他 included) and the province arrays together
      hold every channel exactly once, each with the category its name earns. */
  lemma {:induction false} EveryChannelOnce(verdict: Verdict, cs: seq<Dedup.Channel>)
    requires Consistent(verdict) && IdsDistinct(cs)
    ensures multiset(AllUniversal(Separate(verdict, cs))) + multiset(Flatten(Separate(verdict, cs).province))
         == multiset(PlaceAll(verdict, cs))
    ensures forall i :: 0 <= i < |cs| ==>
              (multiset(AllUniversal(Separate(verdict, cs))) + multiset(Flatten(Separate(verdict, cs).province)))[Place(verdict, cs[i])] == 1
  {
    AllUniversalSplits(verdict, cs);
    Round1Holds(verdict, cs);
    OthersWhenIdsDistinct(verdict, cs);
    MatchedAndUnmatched(verdict, cs);
    forall i | 0 <= i < |cs| ensures multiset(PlaceAll(verdict, cs))[Place(verdict, cs[i])] == 1 {
      PlacedOnce(verdict, cs, i);
    }
  }

  /** An unmatched channel whose id a matched channel shares is in no bucket at all: the
      second round asks for its id, not for its name. */
  lemma CollisionDropped(verdict: Verdict, cs: seq<Dedup.Channel>, i: nat, j: nat)
    requires Consistent(verdict)
    requires i < |cs| && j < |cs|
    requires !IsMatched(verdict, cs[i]) && IsMatched(verdict, cs[j]) && cs[i].id == cs[j].id
    ensures forall x :: x in AllUniversal(Separate(verdict, cs)) || x in Flatten(Separate(verdict, cs).province) ==>
              !(x.id == cs[i].id && x.name == cs[i].name)
  {
    var r := Round1(verdict, cs);
    AllUniversalSplits(verdict, cs);
    Round1Holds(verdict, cs);
    MatchedIdsAre(verdict, cs, cs[i].id);
    forall x | x in AllUniversal(Separate(verdict, cs)) || x in Flatten(Separate(verdict, cs).province)
      ensures !(x.id == cs[i].id && x.name == cs[i].name)
    {
      if x in Separate(verdict, cs).others {
        OthersUnremembered(cs, r.matchedIds, x);
      } else {
        assert x in multiset(MatchedPlaced(verdict, cs));
        MatchedPlacedMembers(verdict, cs, x);
      }
    }
  }

  /** The buckets never hold more channels than there are, and with distinct ids exactly as
      many: the counts `provinceChannelCount` and `universalChannelCount` of the index sum
      to at most its `totalChannels`. */
  lemma BucketsCount(verdict: Verdict, cs: seq<Dedup.Channel>)
    requires Consistent(verdict)
    ensures |AllUniversal(Separate(verdict, cs))| + |Flatten(Separate(verdict, cs).province)| <= |cs|
    ensures IdsDistinct(cs) ==>
              |AllUniversal(Separate(verdict, cs))| + |Flatten(Separate(verdict, cs).province)| == |cs|
  {
    var r := Round1(verdict, cs);
    AllUniversalSplits(verdict, cs);
    SizesAdd(verdict, cs);
    forall i | 0 <= i < |cs| && IsMatched(verdict, cs[i]) ensures cs[i].id in r.matchedIds {
      MatchedIdsAre(verdict, cs, cs[i].id);
    }
    OthersFewer(verdict, cs, r.matchedIds);
    if IdsDistinct(cs) {
      OthersWhenIdsDistinct(verdict, cs);
    }
  }

  /** The first round stores every matched channel and the rest are unmatched. */
  lemma SizesAdd(verdict: Verdict, cs: seq<Dedup.Channel>)
    ensures |Flatten(Round1(verdict, cs).universal)| + |Flatten(Round1(verdict, cs).province)|
          + |UnmatchedPlaced(verdict, cs)| == |cs|
  {
    var r := Round1(verdict, cs);
    Round1Holds(verdict, cs);
    MatchedAndUnmatched(verdict, cs);
    PlaceAllLength(verdict, cs);
    assert |multiset(Flatten(r.universal)) + multiset(Flatten(r.province))| == |multiset(MatchedPlaced(verdict, cs))|;
    assert |multiset(MatchedPlaced(verdict, cs)) + multiset(UnmatchedPlaced(verdict, cs))| == |multiset(PlaceAll(verdict, cs))|;
  }

  lemma {:induction false} PlaceAllLength(verdict: Verdict, cs: seq<Dedup.Channel>)
    ensures |PlaceAll(verdict, cs)| == |cs|
    decreases |cs|
  {
    if cs != [] {
      PlaceAllLength(verdict, cs[..|cs| - 1]);
    }
  }

  /** The placements in `ps` of category `k` and universality `u`, in order. */
  function Bucket(ps: seq<Placed>, k: string, u: bool): seq<Placed>
    decreases |ps|
  {
    if ps == [] then []
    else
      var p := ps[|ps| - 1];
      Bucket(ps[..|ps| - 1], k, u) + (if p.category == k && p.isUniversal == u then [p] else [])
  }

  lemma BucketSnoc(ps: seq<Placed>, p: Placed, k: string, u: bool)
    ensures Bucket(ps + [p], k, u) == Bucket(ps, k, u) + (if p.category == k && p.isUniversal == u then [p] else [])
  {
    assert (ps + [p])[..|ps + [p]| - 1] == ps;
  }

  /** Each array of the first round holds exactly the matched channels of its category, in
      input order: `universalChannels[k]` the universal ones, `provinceChannels[k]` the
      others; a category no channel earned has no key. */
  lemma {:induction false} Round1Buckets(verdict: Verdict, cs: seq<Dedup.Channel>, k: string)
    ensures Get(Round1(verdict, cs).universal, k).GetOr([]) == Bucket(MatchedPlaced(verdict, cs), k, true)
    ensures Get(Round1(verdict, cs).province, k).GetOr([]) == Bucket(MatchedPlaced(verdict, cs), k, false)
    decreases |cs|
  {
    if cs != [] {
      var init := cs[..|cs| - 1];
      var c := cs[|cs| - 1];
      var r := Round1(verdict, init);
      var p := Place(verdict, c);
      Round1Buckets(verdict, init, k);
      if IsMatched(verdict, c) {
        assert MatchedPlaced(verdict, cs) == MatchedPlaced(verdict, init) + [p];
        BucketSnoc(MatchedPlaced(verdict, init), p, k, !p.isUniversal);
        if p.isUniversal {
          assert Round1(verdict, cs) == FirstRound(Push(r.universal, p.category, p), r.province, r.matchedIds + {c.id});
          PushBucket(r.universal, MatchedPlaced(verdict, init), p, k);
        } else {
          assert Round1(verdict, cs) == FirstRound(r.universal, Push(r.province, p.category, p), r.matchedIds + {c.id});
          PushBucket(r.province, MatchedPlaced(verdict, init), p, k);
        }
      } else {
        assert Round1(verdict, cs) == r;
        assert MatchedPlaced(verdict, cs) == MatchedPlaced(verdict, init);
      }
    }
  }

  lemma PushBucket(g: Groups, ps: seq<Placed>, p: Placed, k: string)
    requires Get(g, k).GetOr([]) == Bucket(ps, k, p.isUniversal)
    ensures Get(Push(g, p.category, p), k).GetOr([]) == Bucket(ps + [p], k, p.isUniversal)
  {
    BucketSnoc(ps, p, k, p.isUniversal);
  }

  /** A channel is in the second round's list when its id is not in `ids`. */
  lemma {:induction false} OthersMembers(cs: seq<Dedup.Channel>, ids: set<string>, x: Placed)
    ensures x in Others(cs, ids) <==>
            exists i :: 0 <= i < |cs| && cs[i].id !in ids && x == Placed(cs[i].id, cs[i].name, Other, true)
    decreases |cs|
  {
    if cs != [] {
      var init := cs[..|cs| - 1];
      OthersMembers(init, ids, x);
      if exists i :: 0 <= i < |init| && init[i].id !in ids && x == Placed(init[i].id, init[i].name, Other, true) {
        var i :| 0 <= i < |init| && init[i].id !in ids && x == Placed(init[i].id, init[i].name, Other, true);
        assert cs[i] == init[i];
      }
      if exists i :: 0 <= i < |cs| && cs[i].id !in ids && x == Placed(cs[i].id, cs[i].name, Other, true) {
        var i :| 0 <= i < |cs| && cs[i].id !in ids && x == Placed(cs[i].id, cs[i].name, Other, true);
        if i < |init| {
          assert init[i] == cs[i];
        }
      }
    }
  }

  /** `otherChannels` holds, as 其他, exactly the channels that no channel sharing their id
      was matched: being unmatched is not enough (splitter.js:275). */
  lemma OthersMeans(verdict: Verdict, cs: seq<Dedup.Channel>, x: Placed)
    ensures x in Separate(verdict, cs).others <==>
            exists i :: 0 <= i < |cs| && x == Placed(cs[i].id, cs[i].name, Other, true)
                     && forall j :: 0 <= j < |cs| && cs[j].id == cs[i].id ==> !IsMatched(verdict, cs[j])
  {
    var ids := Round1(verdict, cs).matchedIds;
    OthersMembers(cs, ids, x);
    forall i | 0 <= i < |cs|
      ensures cs[i].id !in ids <==> forall j :: 0 <= j < |cs| && cs[j].id == cs[i].id ==> !IsMatched(verdict, cs[j])
    {
      MatchedIdsAre(verdict, cs, cs[i].id);
    }
  }
}
