/** ProductionRuleSet.cs: a rule store over a dictionary of lists, filled by
    `Add`, queried by `Contains` and `Match`, validated by
    `CheckProbabilities`. */
module RuleSets {
  import opened Productions

  /** The first rule, in list order, whose own probability is at most
      `chance`. */
  function FirstAtMost(list: seq<Production>, chance: real): Selection {
    if list == [] then NothingSelected
    else if list[0].probability <= chance then Selected(list[0])
    else FirstAtMost(list[1..], chance)
  }

  /** `ProductionRuleSet.Match` for a draw `chance` of `Random.value`. */
  function OwnMatch(t: Table, m: string, chance: real): Selection {
    if m !in t then NoRules
    else if |t[m]| == 1 then Selected(t[m][0])
    else FirstAtMost(t[m], chance)
  }

  /** Rule `i` is the first of `list` whose own probability is at most `chance`. */
  predicate IsFirstAtMost(list: seq<Production>, i: int, chance: real) {
    && 0 <= i < |list|
    && list[i].probability <= chance
    && forall j :: 0 <= j < i ==> list[j].probability > chance
  }

  lemma {:induction false} FirstAtMostMeaning(list: seq<Production>, chance: real)
    ensures FirstAtMost(list, chance) != NoRules
    ensures FirstAtMost(list, chance).Selected? ==>
      exists i :: IsFirstAtMost(list, i, chance) && list[i] == FirstAtMost(list, chance).production
    ensures FirstAtMost(list, chance) == NothingSelected <==>
      forall i :: 0 <= i < |list| ==> list[i].probability > chance
  {
    if list != [] && list[0].probability > chance {
      var rest := list[1..];
      FirstAtMostMeaning(rest, chance);
      if FirstAtMost(rest, chance).Selected? {
        var i :| IsFirstAtMost(rest, i, chance) && rest[i] == FirstAtMost(rest, chance).production;
        assert IsFirstAtMost(list, i + 1, chance);
      }
      if FirstAtMost(rest, chance) == NothingSelected {
        forall i | 0 <= i < |list| ensures list[i].probability > chance {
          if i > 0 { assert list[i] == rest[i - 1]; }
        }
      }
    } else if list != [] {
      assert IsFirstAtMost(list, 0, chance);
    }
  }

  /** The meaning of `Match`: null for a symbol without rules; the only rule
      when there is one, whatever the draw; otherwise the first rule whose
      own probability is at most the draw, and the exception when every
      probability is above it. */
  lemma OwnMatchMeaning(t: Table, m: string, chance: real)
    ensures OwnMatch(t, m, chance) == NoRules <==> m !in t
    ensures m in t && |t[m]| == 1 ==> OwnMatch(t, m, chance) == Selected(t[m][0])
    ensures m in t && |t[m]| != 1 && OwnMatch(t, m, chance).Selected? ==>
      exists i :: IsFirstAtMost(t[m], i, chance) && t[m][i] == OwnMatch(t, m, chance).production
    ensures m in t && |t[m]| != 1 ==>
      (OwnMatch(t, m, chance) == NothingSelected <==>
         forall i :: 0 <= i < |t[m]| ==> t[m][i].probability > chance)
  {
    if m in t {
      FirstAtMostMeaning(t[m], chance);
    }
  }

  /** `Match` as written throws on a valid grammar: two rules of
      probability 1/2 and a draw of 1/4. */
  lemma OwnMatchThrows()
    ensures var t := map["A" := [Production("A", "x", 0.5), Production("A", "y", 0.5)]];
      && ProbabilitiesValid(t)
      && OwnMatch(t, "A", 0.25) == NothingSelected
  {
    var list := [Production("A", "x", 0.5), Production("A", "y", 0.5)];
    assert SumOf(list) == 1.0 by {
      assert list[..1] == [list[0]] && list[..1][..0] == [];
    }
  }

  /** With the first rule's probability at most the second's, the second
      rule is never chosen. */
  lemma OwnMatchSkipsLater(t: Table, m: string, chance: real)
    requires m in t && |t[m]| >= 2 && t[m][0].probability <= t[m][1].probability
    ensures OwnMatch(t, m, chance) != Selected(t[m][1]) || t[m][1] == t[m][0]
  {
    FirstAtMostMeaning(t[m], chance);
  }

  class ProductionRuleSet {
    /** `_lookupTable`. */
    var lookupTable: Table
    /** The rules added so far, in order. */
    ghost var added: seq<Production>

    ghost predicate Valid()
      reads this
    {
      lookupTable == Group(added)
    }

    constructor ()
      ensures Valid() && added == [] && lookupTable == map[]
    {
      lookupTable := map[];
      added := [];
    }

    /** `Add`: the rule goes to the end of its predecessor's list, which is
        created when the predecessor is new; the other lists are unchanged. */
    method Add(rule: Production)
      requires Valid()
      modifies this
      ensures Valid()
      ensures added == old(added) + [rule]
      ensures lookupTable == Insert(old(lookupTable), rule)
    {
      var list: seq<Production>;
      if rule.predecessor !in lookupTable {
        list := [];
        lookupTable := lookupTable[rule.predecessor := list];
      } else {
        list := lookupTable[rule.predecessor];
      }
      lookupTable := lookupTable[rule.predecessor := list + [rule]];
      added := added + [rule];
      assert added[..|added| - 1] == old(added);
    }

    /** `Contains`: some added rule has predecessor `module`. */
    function Contains(symbol: string): (b: bool)
      requires Valid()
      reads this
      ensures b <==> Mentions(added, symbol)
    {
      GroupIsFilter(added, symbol);
      symbol in lookupTable
    }

    /** `Match`, with the value of `Random.value` passed in as `chance`. */
    method Match(symbol: string, chance: real) returns (r: Selection)
      ensures r == OwnMatch(lookupTable, symbol, chance)
    {
      if symbol !in lookupTable {
        return NoRules;
      }
      var list := lookupTable[symbol];
      if |list| == 1 {
        return Selected(list[0]);
      }
      var i := 0;
      while i < |list|
        invariant 0 <= i <= |list|
        invariant FirstAtMost(list, chance) == FirstAtMost(list[i..], chance)
      {
        if list[i].probability <= chance {
          return Selected(list[i]);
        }
        assert list[i..][1..] == list[i + 1..];
        i := i + 1;
      }
      return NothingSelected;
    }

    /** `CheckProbabilities`: every list sums exactly to 1 (the shortcut
        for single-rule lists is subsumed by the sum test). */
    method CheckProbabilities() returns (ok: bool)
      ensures ok == ProbabilitiesValid(lookupTable)
    {
      var remaining := lookupTable.Keys;
      while remaining != {}
        invariant remaining <= lookupTable.Keys
        invariant forall k :: k in lookupTable && k !in remaining ==> SumOf(lookupTable[k]) == 1.0
        decreases remaining
      {
        var k :| k in remaining;
        var list := lookupTable[k];
        if |list| == 1 && list[0].probability != 1.0 {
          assert SumOf(list) == list[0].probability by { SumOfNext(list, 0); assert list[..1] == list; }
          return false;
        }
        var acc := SumProbabilities(list);
        if acc != 1.0 {
          return false;
        }
        remaining := remaining - {k};
      }
      return true;
    }
  }
}
