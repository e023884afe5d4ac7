/** ProductionMatcher.cs: matching and validation over a plain
    `Dictionary<string, List<Production>>`. The dictionary is a value here,
    so neither operation can change it. */
module ProductionMatcher {
  import opened Productions

  /** The first rule whose running prefix sum, starting from `acc`, is at
      most `chance`. */
  function FirstPrefixAtMost(list: seq<Production>, acc: real, chance: real): Selection {
    if list == [] then NothingSelected
    else
      var sum := acc + list[0].probability;
      if sum <= chance then Selected(list[0]) else FirstPrefixAtMost(list[1..], sum, chance)
  }

  /** `ProductionMatcher.Match` for a draw `chance` of `Random.value`. */
  function CumulativeMatch(t: Table, m: string, chance: real): Selection {
    if m !in t then NoRules
    else if |t[m]| == 1 then Selected(t[m][0])
    else FirstPrefixAtMost(t[m], 0.0, chance)
  }

  /** The running sum after rule `i`, its own probability included. */
  function SumThrough(list: seq<Production>, i: int): real
    requires 0 <= i < |list|
  {
    SumOf(list[..i + 1])
  }

  /** Rule `i` is the first whose prefix sum (its own probability included)
      is at most `chance`. */
  predicate IsFirstPrefixAtMost(list: seq<Production>, i: int, chance: real) {
    && 0 <= i < |list|
    && SumThrough(list, i) <= chance
    && forall j :: 0 <= j < i ==> SumThrough(list, j) > chance
  }

  lemma {:induction false} PrefixScan(list: seq<Production>, k: nat, chance: real)
    requires k <= |list|
    requires forall j :: 0 <= j < k ==> SumThrough(list, j) > chance
    ensures FirstPrefixAtMost(list[k..], SumOf(list[..k]), chance).Selected? ==>
      exists i :: IsFirstPrefixAtMost(list, i, chance) &&
        list[i] == FirstPrefixAtMost(list[k..], SumOf(list[..k]), chance).production
    ensures FirstPrefixAtMost(list[k..], SumOf(list[..k]), chance) == NothingSelected <==>
      forall i :: 0 <= i < |list| ==> SumThrough(list, i) > chance
    decreases |list| - k
  {
    if k < |list| {
      SumOfNext(list, k);
      assert list[k..][1..] == list[k + 1..];
      if SumThrough(list, k) <= chance {
        assert IsFirstPrefixAtMost(list, k, chance);
      } else {
        PrefixScan(list, k + 1, chance);
      }
    }
  }

  /** The meaning of `Match`: null for a symbol without rules; the only rule
      when there is one, whatever the draw; otherwise the first rule whose
      running prefix sum is at most the draw, and the exception when no
      prefix sum is. */
  lemma CumulativeMatchMeaning(t: Table, m: string, chance: real)
    ensures CumulativeMatch(t, m, chance) == NoRules <==> m !in t
    ensures m in t && |t[m]| == 1 ==> CumulativeMatch(t, m, chance) == Selected(t[m][0])
    ensures m in t && |t[m]| != 1 && CumulativeMatch(t, m, chance).Selected? ==>
      exists i :: IsFirstPrefixAtMost(t[m], i, chance) &&
        t[m][i] == CumulativeMatch(t, m, chance).production
    ensures m in t && |t[m]| != 1 ==>
      (CumulativeMatch(t, m, chance) == NothingSelected <==>
         forall i :: 0 <= i < |t[m]| ==> SumThrough(t[m], i) > chance)
  {
    if m in t {
      assert t[m][0..] == t[m] && t[m][..0] == [];
      PrefixScan(t[m], 0, chance);
      if FirstPrefixAtMost(t[m], 0.0, chance) == NoRules {
        FirstPrefixNeverNull(t[m], 0.0, chance);
      }
    }
  }

  lemma {:induction false} FirstPrefixNeverNull(list: seq<Production>, acc: real, chance: real)
    ensures FirstPrefixAtMost(list, acc, chance) != NoRules
  {
    if list != [] && acc + list[0].probability > chance {
      FirstPrefixNeverNull(list[1..], acc + list[0].probability, chance);
    }
  }

  predicate NonNegative(list: seq<Production>) {
    forall i :: 0 <= i < |list| ==> list[i].probability >= 0.0
  }

  /** Once the running sum is above the draw, non-negative probabilities
      never bring it back down. */
  lemma {:induction false} StaysAbove(list: seq<Production>, acc: real, chance: real)
    requires NonNegative(list) && acc > chance
    ensures FirstPrefixAtMost(list, acc, chance) == NothingSelected
  {
    if list != [] {
      StaysAbove(list[1..], acc + list[0].probability, chance);
    }
  }

  /** With non-negative probabilities the prefix sums never decrease, so for
      a symbol with several rules `Match` returns the first rule exactly
      when its probability is at most the draw, and throws otherwise: no
      later rule is ever chosen. */
  lemma FirstOrNothing(t: Table, m: string, chance: real)
    requires m in t && |t[m]| >= 2 && NonNegative(t[m])
    ensures CumulativeMatch(t, m, chance) ==
      if t[m][0].probability <= chance then Selected(t[m][0]) else NothingSelected
  {
    var list := t[m];
    if list[0].probability > chance {
      assert NonNegative(list[1..]) by {
        forall i | 0 <= i < |list[1..]| ensures list[1..][i].probability >= 0.0 {
          assert list[1..][i] == list[i + 1];
        }
      }
      StaysAbove(list[1..], 0.0 + list[0].probability, chance);
    }
  }

  /** `Match`, with the value of `Random.value` passed in as `chance`. */
  method Match(symbol: string, productions: Table, chance: real) returns (r: Selection)
    ensures r == CumulativeMatch(productions, symbol, chance)
  {
    if symbol !in productions {
      return NoRules;
    }
    var matches := productions[symbol];
    if |matches| == 1 {
      return Selected(matches[0]);
    }
    var accProbability := 0.0;
    var i := 0;
    while i < |matches|
      invariant 0 <= i <= |matches|
      invariant FirstPrefixAtMost(matches, 0.0, chance) ==
        FirstPrefixAtMost(matches[i..], accProbability, chance)
    {
      accProbability := accProbability + matches[i].probability;
      if accProbability <= chance {
        return Selected(matches[i]);
      }
      assert matches[i..][1..] == matches[i + 1..];
      i := i + 1;
    }
    return NothingSelected;
  }

  /** `CheckProbabilities`: false when a single-rule list has probability
      other than 1 or any list does not sum exactly to 1; true otherwise. */
  method CheckProbabilities(productions: Table) returns (ok: bool)
    ensures ok == ProbabilitiesValid(productions)
  {
    var remaining := productions.Keys;
    while remaining != {}
      invariant remaining <= productions.Keys
      invariant forall k :: k in productions && k !in remaining ==> SumOf(productions[k]) == 1.0
      decreases remaining
    {
      var k :| k in remaining;
      var matches := productions[k];
      if |matches| == 1 && matches[0].probability != 1.0 {
        assert SumOf(matches) == matches[0].probability by {
          SumOfNext(matches, 0);
          assert matches[..1] == matches;
        }
        return false;
      }
      var accProbabilities := SumProbabilities(matches);
      if accProbabilities != 1.0 {
        return false;
      }
      remaining := remaining - {k};
    }
    return true;
  }

  /** The running sums of non-negative probabilities never decrease. */
  lemma {:induction false} SumMonotone(list: seq<Production>, a: nat, b: nat)
    requires a <= b <= |list| && NonNegative(list)
    ensures SumOf(list[..a]) <= SumOf(list[..b])
    decreases b - a
  {
    if a < b {
      SumOfNext(list, b - 1);
      SumMonotone(list, a, b - 1);
    }
  }

  /** The draw falls in the interval of rule `i`: at or above the sum of
      the rules before it, and below the sum through it unless `i` is the
      last rule, which also takes every draw above the total. */
  predicate InInterval(list: seq<Production>, i: int, chance: real) {
    && 0 <= i < |list|
    && SumOf(list[..i]) <= chance
    && (i == |list| - 1 || chance < SumThrough(list, i))
  }

  /** Corrected selection: the first rule whose running sum exceeds the
      draw, and the last rule when rounding leaves none. */
  function WeightedIndex(list: seq<Production>, acc: real, chance: real): (i: nat)
    requires list != []
    ensures i < |list|
  {
    var sum := acc + list[0].probability;
    if |list| == 1 || chance < sum then 0 else 1 + WeightedIndex(list[1..], sum, chance)
  }

  /** `Match` as evidently intended. */
  function WeightedMatch(t: Table, m: string, chance: real): Selection {
    if m !in t then NoRules
    else if |t[m]| == 1 then Selected(t[m][0])
    else if t[m] == [] then NothingSelected
    else Selected(t[m][WeightedIndex(t[m], 0.0, chance)])
  }

  lemma {:induction false} WeightedFrom(list: seq<Production>, k: nat, chance: real)
    requires k < |list| && SumOf(list[..k]) <= chance
    ensures InInterval(list, k + WeightedIndex(list[k..], SumOf(list[..k]), chance), chance)
    decreases |list| - k
  {
    SumOfNext(list, k);
    if k + 1 < |list| && chance >= SumThrough(list, k) {
      assert list[k..][1..] == list[k + 1..];
      WeightedFrom(list, k + 1, chance);
    }
  }

  /** With non-negative probabilities the intervals do not overlap. */
  lemma IntervalsDisjoint(list: seq<Production>, i: int, j: int, chance: real)
    requires NonNegative(list) && InInterval(list, i, chance) && InInterval(list, j, chance)
    ensures i == j
  {
    if i < j {
      SumMonotone(list, i + 1, j);
    } else if j < i {
      SumMonotone(list, j + 1, i);
    }
  }

  /** The corrected matcher never throws on a non-empty list and picks rule
      `i` exactly when the draw falls in the interval of rule `i`, whose
      width is its probability. */
  lemma WeightedMatchMeaning(t: Table, m: string, chance: real, i: int)
    requires m in t && t[m] != [] && NonNegative(t[m]) && 0.0 <= chance
    ensures WeightedMatch(t, m, chance) == Selected(t[m][WeightedIndex(t[m], 0.0, chance)])
    ensures WeightedIndex(t[m], 0.0, chance) == i <==> InInterval(t[m], i, chance)
  {
    var list := t[m];
    assert list[0..] == list && list[..0] == [];
    WeightedFrom(list, 0, chance);
    if InInterval(list, i, chance) {
      IntervalsDisjoint(list, i, WeightedIndex(list, 0.0, chance), chance);
    }
  }

  /** `Match` as written throws on a valid grammar: two rules of
      probability 1/2 and a draw of 1/4. */
  lemma CumulativeMatchThrows()
    ensures var t := map["A" := [Production("A", "x", 0.5), Production("A", "y", 0.5)]];
      && ProbabilitiesValid(t)
      && CumulativeMatch(t, "A", 0.25) == NothingSelected
      && WeightedMatch(t, "A", 0.25) == Selected(Production("A", "x", 0.5))
      && WeightedMatch(t, "A", 0.75) == Selected(Production("A", "y", 0.5))
  {
    var list := [Production("A", "x", 0.5), Production("A", "y", 0.5)];
    assert SumOf(list) == 1.0 by {
      assert list[..1] == [list[0]] && list[..1][..0] == [];
    }
  }
}
