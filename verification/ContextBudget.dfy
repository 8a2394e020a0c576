/**
 How the context builder divides the context window: a fixed part, a reserve for the answer, and as much of
 the newest history as fits, or the newest messages behind a summary of the older ones.
 */
module ContextBudget {
  import opened Common

  const INT_MAX: int := 0x7FFF_FFFF
  const DEFAULT_KEEP_RECENT: nat := 20

  datatype Result<+T> = Success(value: T) | Failure(error: Status)

  /** Where the kept history starts, and the cost of the summary in front of it, if one is used. */
  datatype Plan = Plan(start: nat, summary: Option<nat>)

  function Sum(costs: seq<nat>): nat {
    if costs == [] then 0 else costs[0] + Sum(costs[1..])
  }

  lemma {:induction false} SumFrom(costs: seq<nat>, i: nat, j: nat)
    requires i <= j <= |costs|
    ensures Sum(costs[j..]) <= Sum(costs[i..])
    decreases j - i
  {
    if i < j {
      assert costs[i..][1..] == costs[i + 1..];
      SumFrom(costs, i + 1, j);
    }
  }

  /** The cost of every suffix, built from the end; an estimate that does not fit an int is an error. */
  method BuildSuffixCosts(costs: seq<nat>) returns (r: Result<seq<nat>>)
    ensures r.Success? <==> Sum(costs) <= INT_MAX
    ensures r.Success? ==> |r.value| == |costs| + 1 && forall i :: 0 <= i <= |costs| ==> r.value[i] == Sum(costs[i..])
    ensures r.Failure? ==> r.error == LimitExceeded
  {
    var suffix := new nat[|costs| + 1](i => 0);
    var i := |costs|;
    assert costs[i..] == [] && costs[0..] == costs;
    while i > 0
      invariant 0 <= i <= |costs|
      invariant forall k :: i <= k <= |costs| ==> suffix[k] == Sum(costs[k..])
      invariant Sum(costs[i..]) <= INT_MAX
    {
      var cost := costs[i - 1];
      assert costs[i - 1..][0] == cost && costs[i - 1..][1..] == costs[i..];
      if suffix[i] > INT_MAX - cost {
        SumFrom(costs, 0, i - 1);
        return Failure(LimitExceeded);
      }
      suffix[i - 1] := suffix[i] + cost;
      i := i - 1;
    }
    r := Success(suffix[..]);
  }

  /** What the request costs in the builder's own accounting. */
  function Total(costs: seq<nat>, plan: Plan, fixed: nat, reserve: nat): nat
    requires plan.start <= |costs|
  {
    fixed + reserve + Sum(costs[plan.start..]) + if plan.summary.Some? then plan.summary.value else 0
  }

  /**
   Choose the history to send. `tooLong` says that the history exceeds the compression threshold, `heading`
   and `summary` are the estimates of the summary's label and, if one could be made, of its text.
   */
  method ChooseHistory(costs: seq<nat>, window: int, fixed: nat, maxTokens: int, keepRecent: int,
                       tooLong: bool, heading: nat, summary: Option<nat>) returns (r: Result<Plan>)
    requires window <= INT_MAX && fixed <= INT_MAX && maxTokens <= INT_MAX
    ensures r.Failure? <==> Sum(costs) > INT_MAX
    ensures r.Failure? ==> r.error == LimitExceeded
    ensures r.Success? ==>
              var reserve := if maxTokens > 0 then maxTokens else 0;
              var keep := if keepRecent > 0 then keepRecent else DEFAULT_KEEP_RECENT;
              var plan := r.value;
              && plan.start <= |costs|
              // nothing is cut without a limit
              && (window <= 0 ==> plan == Plan(0, None))
              // the window is kept exactly if its fixed part leaves that possible
              && (window > 0 ==> (Total(costs, plan, fixed, reserve) <= window <==> fixed + reserve <= window))
              // without a summary, no longer suffix fits beside the fixed part; if that fills the window, nothing does
              && (window > 0 && plan.summary.None? ==>
                    forall s :: 0 <= s < plan.start ==> Sum(costs[s..]) > 0 && fixed + reserve + Sum(costs[s..]) > window)
              && (window > 0 && plan.summary.None? && fixed + reserve >= window ==> Sum(costs[plan.start..]) == 0)
              // a summary is used exactly if it fits beside the fixed part and the recent messages
              && (plan.summary.Some? <==>
                    tooLong && |costs| > keep + 2 && summary.Some? && fixed + reserve < window
                    && fixed + reserve + heading + summary.value + Sum(costs[|costs| - keep..]) <= window)
              && (plan.summary.Some? ==> plan == Plan(|costs| - keep, Some(heading + summary.value)))
  {
    hide Sum;
    var suffixes := BuildSuffixCosts(costs);
    if suffixes.Failure? { return Failure(suffixes.error); }
    var suffix := suffixes.value;
    SumEnds(costs);
    var keep := if keepRecent > 0 then keepRecent else DEFAULT_KEEP_RECENT;
    var reserve := if maxTokens > 0 then maxTokens else 0;
    var budget := window;
    if budget > 0 {
      var reserved := if fixed > INT_MAX - reserve then INT_MAX else fixed + reserve;
      budget := if reserved >= budget then 0 else budget - reserved;
    }
    if budget > 0 && tooLong && |costs| > keep + 2 && summary.Some? {
      var end := |costs| - keep;
      var cost := summary.value;
      if heading <= INT_MAX - cost && heading + cost <= budget && suffix[end] <= budget - (heading + cost) {
        return Success(Plan(end, Some(heading + cost)));
      }
    }
    var start := 0;
    if window > 0 && suffix[0] > budget && |costs| > 0 {
      start := |costs|;
      while start > 0 && suffix[start - 1] <= budget
        invariant 0 <= start <= |costs| && suffix[start] <= budget
      {
        start := start - 1;
      }
      forall s | 0 <= s < start
        ensures Sum(costs[s..]) > budget
      {
        SumFrom(costs, s, start - 1);
      }
    }
    r := Success(Plan(start, None));
  }

  lemma SumEnds(costs: seq<nat>)
    ensures Sum(costs[0..]) == Sum(costs) && Sum(costs[|costs|..]) == 0
  {
    assert costs[0..] == costs;
  }
}
