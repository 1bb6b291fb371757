/** The `-N/--no-ipv6` rule language (`parse_noaaaa_rules`): a string of
    rule letters turned into the set of AAAA-filter flags. */
module AaaaFilter {
  import opened Wrappers
  import opened Types

  /** The eight `NOAAAA_*` flags; `All` is `NOAAAA_ALL`. */
  datatype Rule = All | TagGfw | TagChn | TagNone | ChinaDns | TrustDns | ChinaIpChk | TrustIpChk

  type Mask = set<Rule>

  /** The flag a rule letter names. */
  function RuleOf(c: char): Option<Rule> {
    match c
    case 'a' => Some(All)
    case 'g' => Some(TagGfw)
    case 'm' => Some(TagChn)
    case 'n' => Some(TagNone)
    case 'c' => Some(ChinaDns)
    case 't' => Some(TrustDns)
    case 'C' => Some(ChinaIpChk)
    case 'T' => Some(TrustIpChk)
    case _ => None
  }

  predicate ValidRules(s: string) {
    forall i :: 0 <= i < |s| ==> RuleOf(s[i]).Some?
  }

  /** `is_filter_all_v6`: the `NOAAAA_ALL` flag is set. */
  predicate IsFilterAll(m: Mask) {
    All in m
  }

  /** The mask filters every AAAA query, whatever the name's tag and the
      upstream: all of it, every tag, or both upstreams. */
  predicate FiltersEverything(m: Mask) {
    All in m || {TagGfw, TagChn, TagNone} <= m || {ChinaDns, TrustDns} <= m
  }

  /** The form the simplification leaves behind: a mask that filters
      everything says so with the `All` flag. */
  predicate Simplified(m: Mask) {
    FiltersEverything(m) ==> IsFilterAll(m)
  }

  /** The final "try simplify to NOAAAA_ALL" step. The contract pins the
      result down completely: it keeps what the mask filters, it is either
      the mask itself or exactly `{All}`, and it leaves a mask that already
      has `All` alone. */
  function Simplify(m: Mask): (r: Mask)
    ensures r == m || r == {All}
    ensures All in m ==> r == m
    ensures FiltersEverything(r) <==> FiltersEverything(m)
    ensures Simplified(r)
  {
    if !IsFilterAll(m) then
      if TagGfw in m && TagChn in m && TagNone in m then {All}
      else if ChinaDns in m && TrustDns in m then {All}
      else m
    else m
  }

  /** The flags the letters of `s` name, in no particular order. */
  function Flags(s: string): Mask
    decreases |s|
  {
    if |s| == 0 then {}
    else
      (match RuleOf(s[0]) case Some(f) => {f} case None => {}) + Flags(s[1..])
  }

  /** The letter loop: 'a' assigns `{All}`, every other letter adds its
      flag, and the first unknown letter aborts. */
  function Apply(m: Mask, rules: string): (r: Result<Mask, Error>)
    ensures r.Success? <==> ValidRules(rules)
    decreases |rules|
  {
    if |rules| == 0 then Success(m)
    else
      match RuleOf(rules[0])
      case None => Failure(InvalidNoAaaaRule(rules[0]))
      case Some(All) => Apply({All}, rules[1..])
      case Some(f) => Apply(m + {f}, rules[1..])
  }

  /** One leading '=' is dropped: getopt hands `-N=gm` over as "=gm". */
  function StripEquals(s: string): (r: string)
    ensures |s| > 0 && s[0] == '=' ==> "=" + r == s
    ensures |s| == 0 || s[0] != '=' ==> r == s
  {
    if |s| > 0 && s[0] == '=' then s[1..] else s
  }

  /** `parse_noaaaa_rules`: `incoming` is the mask left by earlier `-N`
      options and `arg` the optional argument of this one. */
  function ParseRules(incoming: Mask, arg: Option<string>): (r: Result<Mask, Error>)
    ensures arg.None? ==> r == Success({All})
    ensures arg.Some? && StripEquals(arg.value) == "" ==> r == Failure(NoIpv6NeedsArgument)
    ensures arg.Some? && !ValidRules(StripEquals(arg.value)) ==> r.Failure?
    ensures arg.Some? && StripEquals(arg.value) != "" && ValidRules(StripEquals(arg.value)) ==> r.Success?
    ensures r.Success? ==> Simplified(r.value)
  {
    match arg
    case None => Success({All})
    case Some(s) =>
      var rules := StripEquals(s);
      if |rules| == 0 then Failure(NoIpv6NeedsArgument)
      else
        var m :- Apply(incoming, rules);
        Success(Simplify(m))
  }

  /** `-N=gm`, whose argument is "=gm", reads the same rules as `-Ngm`
      and `--no-ipv6=gm`, whose argument is "gm": one leading '=' makes
      no difference to the outcome. */
  lemma EqualsPrefixIgnored(m: Mask, s: string)
    requires s == "" || s[0] != '='
    ensures ParseRules(m, Some("=" + s)) == ParseRules(m, Some(s))
  {
    assert ("=" + s)[1..] == s;
  }

  /** Only one '=' is dropped: a second one is read as a rule letter and
      reported as an unknown rule. */
  lemma SecondEqualsRejected(m: Mask, s: string)
    ensures ParseRules(m, Some("==" + s)) == Failure(InvalidNoAaaaRule('='))
  {
    assert ("==" + s)[1..] == "=" + s;
    assert ("=" + s)[0] == '=';
  }

  /** A flag is named by `s` exactly when one of its letters names it. */
  lemma {:induction false} FlagsMembers(s: string, f: Rule)
    ensures f in Flags(s) <==> exists c :: c in s && RuleOf(c) == Some(f)
    decreases |s|
  {
    if |s| > 0 {
      FlagsMembers(s[1..], f);
      assert s == [s[0]] + s[1..];
      assert forall c :: c in s <==> c == s[0] || c in s[1..];
    }
  }

  /** The first unknown letter is the one reported. */
  lemma {:induction false} FirstInvalidRuleReported(m: Mask, rules: string, k: nat)
    requires k < |rules| && RuleOf(rules[k]).None?
    requires ValidRules(rules[..k])
    ensures Apply(m, rules) == Failure(InvalidNoAaaaRule(rules[k]))
    decreases k
  {
    if k > 0 {
      assert rules[..k][0] == rules[0];
      assert rules[1..][..k - 1] == rules[..k][1..];
      match RuleOf(rules[0])
      case Some(All) => FirstInvalidRuleReported({All}, rules[1..], k - 1);
      case Some(f) => FirstInvalidRuleReported(m + {f}, rules[1..], k - 1);
    }
  }

  /** Without 'a', the letters only add flags to the incoming mask. */
  lemma {:induction false} ApplyAddsFlags(m: Mask, rules: string)
    requires ValidRules(rules) && 'a' !in rules
    ensures Apply(m, rules) == Success(m + Flags(rules))
    decreases |rules|
  {
    if |rules| > 0 {
      assert rules[0] in rules;
      assert forall i :: 0 <= i < |rules[1..]| ==> rules[1..][i] == rules[i + 1];
      var f := RuleOf(rules[0]).value;
      assert f != All;
      assert Apply(m, rules) == Apply(m + {f}, rules[1..]);
      ApplyAddsFlags(m + {f}, rules[1..]);
      assert Flags(rules) == {f} + Flags(rules[1..]);
      assert m + Flags(rules) == (m + {f}) + Flags(rules[1..]);
    } else {
      assert m + Flags(rules) == m;
    }
  }

  /** An 'a' discards everything before it, the incoming mask included:
      only the flags of the letters after the last 'a' survive. */
  lemma {:induction false} ApplyAfterReset(m: Mask, before: string, after: string)
    requires ValidRules(before) && ValidRules(after) && 'a' !in after
    ensures Apply(m, before + "a" + after) == Success({All} + Flags(after))
    decreases |before|
  {
    var s := before + "a" + after;
    if |before| == 0 {
      assert s == "a" + after;
      assert s[1..] == after;
      ApplyAddsFlags({All}, after);
    } else {
      assert s[0] == before[0];
      assert s[1..] == before[1..] + "a" + after;
      match RuleOf(before[0])
      case Some(All) => ApplyAfterReset({All}, before[1..], after);
      case Some(f) => ApplyAfterReset(m + {f}, before[1..], after);
    }
  }

  /** Validity depends only on which letters occur. */
  lemma ValidRulesByLetters(s: string, t: string)
    requires ValidRules(s)
    requires forall c :: c in t ==> c in s
    ensures ValidRules(t)
  {
    forall i | 0 <= i < |t|
      ensures RuleOf(t[i]).Some?
    {
      assert t[i] in s;
      var j :| 0 <= j < |s| && s[j] == t[i];
    }
  }

  /** Without 'a', neither the order of the letters nor repeated letters
      change the outcome: only which letters occur matters. */
  lemma RulesOrderIrrelevant(m: Mask, s: string, t: string)
    requires forall c :: c in s <==> c in t
    requires 'a' !in s
    requires |s| > 0 && s[0] != '='
    requires |t| > 0 && t[0] != '='
    ensures ParseRules(m, Some(s)).Success? <==> ParseRules(m, Some(t)).Success?
    ensures ParseRules(m, Some(s)).Success? ==> ParseRules(m, Some(s)) == ParseRules(m, Some(t))
  {
    if ValidRules(s) {
      ValidRulesByLetters(s, t);
    }
    if ValidRules(t) {
      ValidRulesByLetters(t, s);
    }
    if ValidRules(s) {
      ApplyAddsFlags(m, s);
      ApplyAddsFlags(m, t);
      forall f ensures f in Flags(s) <==> f in Flags(t) {
        FlagsMembers(s, f);
        FlagsMembers(t, f);
      }
      assert Flags(s) == Flags(t);
    }
  }

  /** Rules naming every tag, or both upstreams, collapse to exactly
      `NOAAAA_ALL` ("gmn", "ngm", "gggmn", "ct"), whatever earlier `-N`
      options left, as long as they did not set `All` themselves. */
  lemma CoveringRulesCollapse(m: Mask, s: string)
    requires ValidRules(s) && 'a' !in s && All !in m
    requires |s| > 0 && s[0] != '='
    requires ('g' in s && 'm' in s && 'n' in s) || ('c' in s && 't' in s)
    ensures ParseRules(m, Some(s)) == Success({All})
  {
    ApplyAddsFlags(m, s);
    FlagsMembers(s, TagGfw);
    FlagsMembers(s, TagChn);
    FlagsMembers(s, TagNone);
    FlagsMembers(s, ChinaDns);
    FlagsMembers(s, TrustDns);
    FlagsMembers(s, All);
    assert RuleOf('g') == Some(TagGfw) && RuleOf('m') == Some(TagChn) && RuleOf('n') == Some(TagNone);
    assert RuleOf('c') == Some(ChinaDns) && RuleOf('t') == Some(TrustDns);
  }

  /** Rules that do not cover everything just add their flags: "c" alone
      filters the china upstream only. */
  lemma PartialRulesKept(m: Mask, s: string)
    requires ValidRules(s) && 'a' !in s
    requires |s| > 0 && s[0] != '='
    requires !FiltersEverything(m + Flags(s))
    ensures ParseRules(m, Some(s)) == Success(m + Flags(s))
  {
    ApplyAddsFlags(m, s);
  }
}
