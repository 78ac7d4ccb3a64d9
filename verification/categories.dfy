/** The category table (categories.js): four classification rules and the two pinyin maps
    that name the output files. Each rule's regular expression is written out as a string
    predicate; every pattern is matched case-insensitively, because the classifier adds the
    `i` flag to any rule that lacks it. */
module Categories {
  import opened Text

  /** The shapes of pattern the table uses. */
  datatype Pattern =
    | CctvNumber                   // /^CCTV\d{1,2}$/i: the whole name
    | ContainsAny(alts: seq<string>) // /a|b|c/i: one of the alternatives anywhere

  datatype Rule = Rule(name: string, pattern: Pattern, isUniversal: bool, priority: int)

  /** `lit` occurs somewhere in `s`, ignoring ASCII case. */
  predicate ContainsIgnoreCase(s: string, lit: string)
    decreases |s|
  {
    |lit| <= |s| && (StartsWithIgnoreCase(s, lit) || ContainsIgnoreCase(s[1..], lit))
  }

  /** The recursive search finds exactly the positions where `lit` starts. */
  lemma {:induction false} ContainsIgnoreCaseMeans(s: string, lit: string)
    ensures ContainsIgnoreCase(s, lit) <==>
      exists k :: 0 <= k <= |s| - |lit| && StartsWithIgnoreCase(s[k..], lit)
    decreases |s|
  {
    if |lit| <= |s| && StartsWithIgnoreCase(s, lit) {
      assert s[0..] == s;
    } else if |lit| <= |s| {
      ContainsIgnoreCaseMeans(s[1..], lit);
      if ContainsIgnoreCase(s, lit) {
        var k :| 0 <= k <= |s[1..]| - |lit| && StartsWithIgnoreCase(s[1..][k..], lit);
        assert s[1..][k..] == s[k + 1..];
      } else {
        forall k | 0 <= k <= |s| - |lit| ensures !StartsWithIgnoreCase(s[k..], lit) {
          if k > 0 {
            assert s[1..][k - 1..] == s[k..];
          }
        }
      }
    }
  }

  /** `^CCTV\d{1,2}$`: "CCTV" in any case and one or two ASCII digits, nothing more. */
  predicate IsCctvNumber(s: string) {
    && (|s| == 5 || |s| == 6)
    && StartsWithIgnoreCase(s, "CCTV")
    && forall i :: 4 <= i < |s| ==> IsAsciiDigit(s[i])
  }

  predicate AnyOccurs(s: string, alts: seq<string>) {
    exists i :: 0 <= i < |alts| && ContainsIgnoreCase(s, alts[i])
  }

  /** `regex.test(name)` for a rule's pattern. */
  predicate Matches(p: Pattern, name: string) {
    match p
    case CctvNumber => IsCctvNumber(name)
    case ContainsAny(alts) => AnyOccurs(name, alts)
  }

  /** `categoryRules`. */
  const CategoryRules: seq<Rule> := [
    Rule("央视", CctvNumber, true, 1),
    Rule("卫视", ContainsAny(["卫视"]), true, 2),
    Rule("北京", ContainsAny(["北京", "BTV"]), false, 3),
    Rule("广东", ContainsAny(["广东", "广州", "深圳"]), false, 4)
  ]

  /** `provincePinyinMap`. */
  const ProvincePinyin: map<string, string> := map[
    "北京" := "bj", "上海" := "sh", "广东" := "guangdong", "浙江" := "zhejiang",
    "江苏" := "jiangsu", "湖南" := "hunan", "四川" := "sichuan", "天津" := "tianjin",
    "重庆" := "chongqing"
  ]

  /** `universalPinyinMap`. */
  const UniversalPinyin: map<string, string> := map[
    "央视" := "cctv", "卫视" := "ws", "数字付费" := "sz", "高清" := "hq", "购物" := "gw",
    "教育" := "jy"
  ]

  /** The name of the bucket for channels no rule matches. */
  const Other: string := "其他"

  /** The priorities are 1, 2, 3, 4 in array order: strictly ascending. */
  lemma PrioritiesAscend()
    ensures forall i, j :: 0 <= i < j < |CategoryRules| ==>
      CategoryRules[i].priority < CategoryRules[j].priority
    ensures forall i :: 0 <= i < |CategoryRules| ==> CategoryRules[i].priority == i + 1
  {
  }

  /** Every rule has a pinyin entry in the map its kind of file is named from. */
  lemma RuleNamesMapped()
    ensures forall r :: r in CategoryRules && r.isUniversal ==> r.name in UniversalPinyin
    ensures forall r :: r in CategoryRules && !r.isUniversal ==> r.name in ProvincePinyin
  {
  }

  /** The fallback bucket is neither a rule nor a universal file. */
  lemma OtherHasNoRuleAndNoFile()
    ensures forall r :: r in CategoryRules ==> r.name != Other
    ensures Other !in UniversalPinyin
  {
  }
}
