/** The classification step of `separateChannels` (splitter.js:234-268): the rules are
    sorted by ascending priority with a stable sort, then tried in that order; the first
    whose pattern matches the channel's name decides its category and whether it is
    universal. A name no rule matches is left to the second round, which is decided by the
    channel's id rather than by its name and is modelled in `Partition`. */
module Classifier {
  import opened Wrappers
  import opened Categories

  // ---------------------------------------------------------------------------
  // The stable sort `[...categoryRules].sort((a, b) => a.priority - b.priority)`

  predicate Sorted(rs: seq<Rule>) {
    forall i, j :: 0 <= i < j < |rs| ==> rs[i].priority <= rs[j].priority
  }

  /** Places `x` in front of the first rule whose priority is not smaller than its own, so
      that `x` stays ahead of the rules of equal priority that came after it. */
  function Insert(x: Rule, s: seq<Rule>): (r: seq<Rule>)
    ensures multiset(r) == multiset(s) + multiset{x}
  {
    if s == [] || x.priority <= s[0].priority then [x] + s
    else
      assert s == [s[0]] + s[1..];
      [s[0]] + Insert(x, s[1..])
  }

  lemma {:induction false} InsertSorted(x: Rule, s: seq<Rule>)
    requires Sorted(s)
    ensures Sorted(Insert(x, s))
  {
    if s != [] && x.priority > s[0].priority {
      InsertSorted(x, s[1..]);
      var t := Insert(x, s[1..]);
      forall j | 0 <= j < |t| ensures s[0].priority <= t[j].priority {
        assert t[j] in multiset(s[1..]) + multiset{x};
        if t[j] != x {
          var k :| 0 <= k < |s[1..]| && s[1..][k] == t[j];
          assert s[k + 1] == t[j];
        }
      }
      var r := [s[0]] + t;
      assert forall j :: 1 <= j < |r| ==> r[j] == t[j - 1];
    }
  }

  /** Stable sort by ascending priority, as `Array.prototype.sort` with a comparator is. */
  function SortByPriority(rules: seq<Rule>): (r: seq<Rule>)
    ensures multiset(r) == multiset(rules)
  {
    if rules == [] then []
    else
      assert rules == [rules[0]] + rules[1..];
      Insert(rules[0], SortByPriority(rules[1..]))
  }

  lemma {:induction false} SortSorts(rules: seq<Rule>)
    ensures Sorted(SortByPriority(rules))
  {
    if rules != [] {
      SortSorts(rules[1..]);
      InsertSorted(rules[0], SortByPriority(rules[1..]));
    }
  }

  lemma SortSameMembers(rules: seq<Rule>)
    ensures forall r :: r in SortByPriority(rules) <==> r in rules
  {
    forall r ensures r in SortByPriority(rules) <==> r in rules {
      assert r in SortByPriority(rules) <==> r in multiset(SortByPriority(rules));
      assert r in rules <==> r in multiset(rules);
    }
  }

  /** The rules of one priority, in their order. */
  function WithPriority(rs: seq<Rule>, p: int): seq<Rule> {
    if rs == [] then []
    else (if rs[0].priority == p then [rs[0]] else []) + WithPriority(rs[1..], p)
  }

  lemma {:induction false} InsertWithPriority(x: Rule, s: seq<Rule>, p: int)
    ensures WithPriority(Insert(x, s), p) == (if x.priority == p then [x] else []) + WithPriority(s, p)
  {
    if s == [] || x.priority <= s[0].priority {
      assert ([x] + s)[1..] == s;
    } else {
      InsertWithPriority(x, s[1..], p);
      var t := [s[0]] + Insert(x, s[1..]);
      assert t[1..] == Insert(x, s[1..]);
    }
  }

  /** The sort is stable: the rules of each priority keep their relative order. */
  lemma {:induction false} SortIsStable(rules: seq<Rule>, p: int)
    ensures WithPriority(SortByPriority(rules), p) == WithPriority(rules, p)
  {
    if rules != [] {
      SortIsStable(rules[1..], p);
      InsertWithPriority(rules[0], SortByPriority(rules[1..]), p);
    }
  }

  /** A table already in priority order is left as it is. */
  lemma {:induction false} SortKeepsSorted(rules: seq<Rule>)
    requires Sorted(rules)
    ensures SortByPriority(rules) == rules
  {
    if rules != [] {
      SortKeepsSorted(rules[1..]);
      assert rules == [rules[0]] + rules[1..];
    }
  }

  /** The table's priorities ascend in array order, so the per-channel sort never
      reorders it. */
  lemma SortKeepsTable()
    ensures SortByPriority(CategoryRules) == CategoryRules
  {
    PrioritiesAscend();
    SortKeepsSorted(CategoryRules);
  }

  // ---------------------------------------------------------------------------
  // First match, and the rule it is meant to find

  /** The loop `for (const rule of sortedRules) if (regex.test(name)) { …; break; }`. */
  function FirstMatch(rules: seq<Rule>, name: string): (r: Option<Rule>)
    ensures r.Some? ==> r.value in rules && Matches(r.value.pattern, name)
    ensures r.None? <==> forall i :: 0 <= i < |rules| ==> !Matches(rules[i].pattern, name)
  {
    if rules == [] then None
    else if Matches(rules[0].pattern, name) then Some(rules[0])
    else
      var r := FirstMatch(rules[1..], name);
      assert forall i :: 1 <= i < |rules| ==> rules[i] == rules[1..][i - 1];
      r
  }

  /** Reference definition, read off the table without sorting: among the matching rules,
      one of least priority, the earliest in array order among those. */
  function Best(rules: seq<Rule>, name: string): Option<Rule> {
    if rules == [] then None
    else
      var b := Best(rules[1..], name);
      if Matches(rules[0].pattern, name) && (b.None? || rules[0].priority <= b.value.priority)
      then Some(rules[0])
      else b
  }

  /** `rules[i]` matches, no matching rule has a smaller priority, and every matching rule
      before it has a strictly greater one. */
  predicate IsBestAt(rules: seq<Rule>, name: string, i: int) {
    && 0 <= i < |rules|
    && Matches(rules[i].pattern, name)
    && (forall j :: 0 <= j < |rules| && Matches(rules[j].pattern, name) ==>
          rules[i].priority <= rules[j].priority)
    && (forall j :: 0 <= j < i && Matches(rules[j].pattern, name) ==>
          rules[i].priority < rules[j].priority)
  }

  /** What `Best` means, in both directions. */
  lemma {:induction false} BestMeans(rules: seq<Rule>, name: string)
    ensures Best(rules, name).None? <==> forall i :: 0 <= i < |rules| ==> !Matches(rules[i].pattern, name)
    ensures Best(rules, name).Some? ==>
      exists i :: IsBestAt(rules, name, i) && rules[i] == Best(rules, name).value
  {
    if rules != [] {
      var rest := rules[1..];
      BestMeans(rest, name);
      assert forall j :: 1 <= j < |rules| ==> rules[j] == rest[j - 1];
      var b := Best(rest, name);
      if b.Some? {
        var k :| IsBestAt(rest, name, k) && rest[k] == b.value;
        if !(Matches(rules[0].pattern, name) && rules[0].priority <= b.value.priority) {
          assert IsBestAt(rules, name, k + 1);
        } else {
          assert IsBestAt(rules, name, 0);
        }
      } else if Matches(rules[0].pattern, name) {
        assert IsBestAt(rules, name, 0);
      }
    }
  }

  lemma {:induction false} FirstMatchInsert(x: Rule, s: seq<Rule>, name: string)
    requires Sorted(s)
    ensures var f := FirstMatch(s, name);
      FirstMatch(Insert(x, s), name) ==
        if Matches(x.pattern, name) && (f.None? || x.priority <= f.value.priority) then Some(x) else f
  {
    if s == [] || x.priority <= s[0].priority {
      var f := FirstMatch(s, name);
      assert ([x] + s)[1..] == s;
      if f.Some? {
        var k :| 0 <= k < |s| && s[k] == f.value;
        assert s[0].priority <= s[k].priority;
      }
    } else {
      FirstMatchInsert(x, s[1..], name);
      var t := [s[0]] + Insert(x, s[1..]);
      assert t[1..] == Insert(x, s[1..]);
    }
  }

  /** Trying the sorted rules in order finds exactly the reference rule: priorities
      ascending, ties in array order. */
  lemma {:induction false} FirstMatchOfSortedIsBest(rules: seq<Rule>, name: string)
    ensures FirstMatch(SortByPriority(rules), name) == Best(rules, name)
  {
    if rules != [] {
      FirstMatchOfSortedIsBest(rules[1..], name);
      SortSorts(rules[1..]);
      FirstMatchInsert(rules[0], SortByPriority(rules[1..]), name);
    }
  }

  // ---------------------------------------------------------------------------
  // Classification of one channel name

  /** The verdict of the first round for one name: whether a rule matched (which puts the
      channel's id in `matchedChannelIds`) and, if so, the category and universality it sets.
      An unmatched name carries the fallback 其他, universal, which the second round gives the
      channel only when no matched channel shares its id (`Partition.Others`). */
  datatype Classification = Classification(category: string, isUniversal: bool, matched: bool)

  /** Classification of `name` by the rule table `rules`. */
  function Classify(rules: seq<Rule>, name: string): (c: Classification)
    ensures c.matched <==> exists r :: r in rules && Matches(r.pattern, name)
    ensures !c.matched ==> c.category == Other && c.isUniversal
    ensures c.matched ==> exists r :: r in rules && Matches(r.pattern, name)
                                    && c.category == r.name && c.isUniversal == r.isUniversal
  {
    SortSameMembers(rules);
    match FirstMatch(SortByPriority(rules), name)
    case Some(r) => Classification(r.name, r.isUniversal, true)
    case None => Classification(Other, true, false)
  }

  /** A name is classified by its reference rule. */
  lemma ClassifyByBest(rules: seq<Rule>, name: string, r: Rule)
    requires Best(rules, name) == Some(r)
    ensures Classify(rules, name) == Classification(r.name, r.isUniversal, true)
  {
    ClassifyPicksBest(rules, name);
  }

  /** A name no rule matches falls back to 其他. */
  lemma ClassifyUnmatched(rules: seq<Rule>, name: string)
    requires forall i :: 0 <= i < |rules| ==> !Matches(rules[i].pattern, name)
    ensures Classify(rules, name) == Classification(Other, true, false)
  {
  }

  /** With no rule named 其他, a channel gets the fallback category exactly when no rule
      matched it. */
  lemma MatchedIsNotOther(rules: seq<Rule>, name: string)
    requires forall r :: r in rules ==> r.name != Other
    ensures Classify(rules, name).matched <==> Classify(rules, name).category != Other
  {
  }

  /** The rule that classifies a matched name is the reference rule of the table. */
  lemma ClassifyPicksBest(rules: seq<Rule>, name: string)
    ensures Classify(rules, name).matched <==> Best(rules, name).Some?
    ensures Classify(rules, name).matched ==>
      Classify(rules, name).category == Best(rules, name).value.name &&
      Classify(rules, name).isUniversal == Best(rules, name).value.isUniversal
  {
    FirstMatchOfSortedIsBest(rules, name);
  }
}
