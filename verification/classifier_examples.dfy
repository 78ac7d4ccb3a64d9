/** How the table of categories.js classifies some channel names. */
module ClassifierExamples {
  import opened Wrappers
  import opened Text
  import opened Categories
  import opened Classifier

  /** A whole name of "CCTV" and one or two digits is 央视, whatever else it might match. */
  lemma CctvNumberIsCentral(name: string)
    requires IsCctvNumber(name)
    ensures Classify(CategoryRules, name) == Classification("央视", true, true)
  {
    CentralIsBest(name);
    ClassifyByBest(CategoryRules, name, CategoryRules[0]);
  }

  lemma CentralIsBest(name: string)
    requires IsCctvNumber(name)
    ensures Best(CategoryRules, name) == Some(CategoryRules[0])
  {
    PrioritiesAscend();
    BestOfFirst(CategoryRules, name);
  }

  /** A name containing 卫视 is 卫视 even when it also names a province: 北京卫视 and
      深圳卫视 are universal. */
  lemma SatelliteBeatsProvince(name: string)
    requires !IsCctvNumber(name) && ContainsIgnoreCase(name, "卫视")
    ensures Classify(CategoryRules, name) == Classification("卫视", true, true)
  {
    SatelliteIsBest(name);
    ClassifyByBest(CategoryRules, name, CategoryRules[1]);
  }

  lemma SatelliteIsBest(name: string)
    requires !IsCctvNumber(name) && ContainsIgnoreCase(name, "卫视")
    ensures Best(CategoryRules, name) == Some(CategoryRules[1])
  {
    var rest := CategoryRules[1..];
    PrioritiesAscend();
    assert Matches(rest[0].pattern, name) by {
      assert rest[0].pattern.alts[0] == "卫视";
    }
    BestOfFirst(rest, name);
  }

  /** 北京卫视 and 深圳卫视 are 卫视, not 北京 or 广东. */
  lemma SatelliteExamples(name: string)
    requires name == "北京卫视" || name == "深圳卫视"
    ensures Classify(CategoryRules, name) == Classification("卫视", true, true)
  {
    SatelliteNamed(name);
    SatelliteBeatsProvince(name);
  }

  lemma SatelliteNamed(name: string)
    requires name == "北京卫视" || name == "深圳卫视"
    ensures !IsCctvNumber(name) && ContainsIgnoreCase(name, "卫视")
  {
    assert StartsWithIgnoreCase(name[2..], "卫视");
    assert name[1..][1..] == name[2..];
  }

  /** The 央视 pattern is anchored at both ends and takes one or two digits. */
  lemma CentralPatternExamples()
    ensures IsCctvNumber("cctv1") && IsCctvNumber("CCTV13")
    ensures !IsCctvNumber("CCTV5+") && !IsCctvNumber("CCTV123")
  {
    assert "CCTV5+"[5] == '+';
  }

  /** "CCTV5+" is not 央视, and with no other keyword it falls through to 其他. */
  lemma CctvPlusFallsThrough()
    ensures Classify(CategoryRules, "CCTV5+") == Classification(Other, true, false)
  {
    CentralPatternExamples();
    NoKeyword("CCTV5+");
    ClassifyUnmatched(CategoryRules, "CCTV5+");
  }

  lemma NoKeyword(name: string)
    requires name == "CCTV5+"
    ensures forall i :: 1 <= i < |CategoryRules| ==> !Matches(CategoryRules[i].pattern, name)
  {
    forall lit | lit in ["卫视", "北京", "BTV", "广东", "广州", "深圳"]
      ensures !ContainsIgnoreCase(name, lit)
    {
      ContainsIgnoreCaseMeans(name, lit);
      forall k | 0 <= k <= |name| - |lit| ensures !StartsWithIgnoreCase(name[k..], lit) {
        assert !SameIgnoringCase(name[k..][0], lit[0]);
      }
    }
  }

  /** When the first rule matches and no rule has a smaller priority, it is the best one. */
  lemma {:induction false} BestOfFirst(rules: seq<Rule>, name: string)
    requires |rules| > 0 && Matches(rules[0].pattern, name)
    requires forall i :: 0 <= i < |rules| ==> rules[0].priority <= rules[i].priority
    ensures Best(rules, name) == Some(rules[0])
  {
    BestMeans(rules[1..], name);
    var b := Best(rules[1..], name);
    if b.Some? {
      var k :| IsBestAt(rules[1..], name, k) && rules[1..][k] == b.value;
      assert rules[k + 1] == b.value;
    }
  }
}
