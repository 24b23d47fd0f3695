/** The reward cycle: the two counter-update rules of the accrual
    handlers and the two stats projections of the lookup handlers. */
module Rewards {

  /** Visits per reward cycle: `REWARD_THRESHOLD` in trigger_pass_creation.ts
      and get_user_by_id.ts, `VISITS_REQUIRED_FOR_REWARD` in
      get_user_with_stats.ts, and the literal 5 of the accrual handlers. */
  const RewardThreshold: nat := 5

  /** Counters after one accrual, and whether it completed a cycle. */
  datatype Accrual = Accrual(totalVisits: nat, rewardPoints: nat, rewardTriggered: bool)

  /** The invariant the cycle is meant to keep: the point counter is the
      visit count modulo the cycle length. */
  predicate InCycle(totalVisits: nat, rewardPoints: nat)
  {
    rewardPoints == totalVisits % RewardThreshold
  }

  /** recordVisit's rule: the cycle completes when the point counter
      reaches 5, and the points are then reset to 0. */
  function PointsRule(totalVisits: nat, rewardPoints: nat): (a: Accrual)
    ensures a.totalVisits == totalVisits + 1
    ensures a.rewardTriggered <==> rewardPoints + 1 >= RewardThreshold
    ensures a.rewardPoints < RewardThreshold
    ensures a.rewardTriggered ==> a.rewardPoints == 0
    ensures !a.rewardTriggered ==> a.rewardPoints == rewardPoints + 1
  {
    var raw := rewardPoints + 1;
    var triggered := raw >= RewardThreshold;
    Accrual(totalVisits + 1, if triggered then 0 else raw, triggered)
  }

  /** handlePassScanWebhook's rule: the cycle completes when the new
      visit count is a multiple of 5, whatever the stored points were. */
  function ModuloRule(totalVisits: nat, rewardPoints: nat): (a: Accrual)
    ensures a.totalVisits == totalVisits + 1
    ensures a.rewardTriggered <==> a.totalVisits % RewardThreshold == 0
    ensures a.rewardTriggered ==> a.rewardPoints == 0
    ensures !a.rewardTriggered ==> a.rewardPoints == rewardPoints + 1
  {
    var total := totalVisits + 1;
    var triggered := total % RewardThreshold == 0;
    Accrual(total, if triggered then 0 else rewardPoints + 1, triggered)
  }

  /** From an in-cycle user, recordVisit's rule stays in cycle and
      triggers exactly on the multiples of 5. */
  lemma PointsRuleKeepsCycle(totalVisits: nat, rewardPoints: nat)
    requires InCycle(totalVisits, rewardPoints)
    ensures var a := PointsRule(totalVisits, rewardPoints);
      InCycle(a.totalVisits, a.rewardPoints) && (a.rewardTriggered <==> a.totalVisits % RewardThreshold == 0)
  {
    var a := PointsRule(totalVisits, rewardPoints);
    if rewardPoints == 4 {
      assert totalVisits == 5 * (totalVisits / 5) + 4;
      assert a.totalVisits == 5 * (totalVisits / 5 + 1);
    } else {
      assert totalVisits == 5 * (totalVisits / 5) + rewardPoints;
      assert a.totalVisits == 5 * (totalVisits / 5) + rewardPoints + 1;
    }
  }

  /** The webhook's rule keeps an in-cycle user in cycle. */
  lemma ModuloRuleKeepsCycle(totalVisits: nat, rewardPoints: nat)
    requires InCycle(totalVisits, rewardPoints)
    ensures var a := ModuloRule(totalVisits, rewardPoints);
      InCycle(a.totalVisits, a.rewardPoints) && a.rewardPoints < RewardThreshold
  {
    var a := ModuloRule(totalVisits, rewardPoints);
    assert totalVisits == 5 * (totalVisits / 5) + rewardPoints;
    assert a.totalVisits == 5 * (totalVisits / 5) + rewardPoints + 1;
  }

  /** While the counters are in cycle the two handlers compute the same
      counters and the same reward flag. */
  lemma RulesAgree(totalVisits: nat, rewardPoints: nat)
    requires InCycle(totalVisits, rewardPoints)
    ensures PointsRule(totalVisits, rewardPoints) == ModuloRule(totalVisits, rewardPoints)
  {
    PointsRuleKeepsCycle(totalVisits, rewardPoints);
  }

  /** Counters of a new user after `n` recordVisit calls. */
  function Replay(n: nat): Accrual
  {
    if n == 0 then Accrual(0, 0, false)
    else
      var prev := Replay(n - 1);
      PointsRule(prev.totalVisits, prev.rewardPoints)
  }

  /** After N accruals a new user has N visits and N mod 5 points, and
      the N-th accrual triggered a reward iff N is a multiple of 5. */
  lemma {:induction false} ReplayCounts(n: nat)
    ensures Replay(n).totalVisits == n
    ensures Replay(n).rewardPoints == n % RewardThreshold
    ensures n > 0 ==> (Replay(n).rewardTriggered <==> n % RewardThreshold == 0)
  {
    if n > 0 {
      ReplayCounts(n - 1);
      var prev := Replay(n - 1);
      PointsRuleKeepsCycle(prev.totalVisits, prev.rewardPoints);
      assert Replay(n) == PointsRule(prev.totalVisits, prev.rewardPoints);
    }
  }

  /** The webhook's "eligible" flag: `5 - (points % 5) === 1`, that is,
      the next visit completes the cycle. */
  function OneVisitAway(finalPoints: nat): (eligible: bool)
    ensures eligible <==> finalPoints % RewardThreshold == RewardThreshold - 1
  {
    RewardThreshold - finalPoints % RewardThreshold == 1
  }

  /** The two derived fields of a user-with-stats view. */
  datatype Stats = Stats(isEligibleForReward: bool, visitsUntilReward: int)

  /** getUserWithStats: eligible at 5 points, otherwise the shortfall. */
  function StatsWithThreshold(points: int): (s: Stats)
    ensures s.isEligibleForReward <==> points >= RewardThreshold
    ensures s.visitsUntilReward >= 0
    ensures s.visitsUntilReward == 0 <==> s.isEligibleForReward
    ensures !s.isEligibleForReward ==> points + s.visitsUntilReward == RewardThreshold
    ensures 0 <= points < RewardThreshold ==> 1 <= s.visitsUntilReward <= RewardThreshold
  {
    var eligible := points >= RewardThreshold;
    Stats(eligible, if eligible then 0 else RewardThreshold - points)
  }

  /** getUserById: the same flag, and `Math.max(0, 5 - points)`. */
  function StatsWithMax(points: int): (s: Stats)
    ensures s.isEligibleForReward <==> points >= RewardThreshold
    ensures s.visitsUntilReward >= 0 && s.visitsUntilReward >= RewardThreshold - points
    ensures s.visitsUntilReward == 0 || s.visitsUntilReward == RewardThreshold - points
  {
    var shortfall := RewardThreshold - points;
    Stats(points >= RewardThreshold, if shortfall > 0 then shortfall else 0)
  }

  /** The two projections, written differently, agree on every value. */
  lemma ProjectionsAgree(points: int)
    ensures StatsWithThreshold(points) == StatsWithMax(points)
  {
  }
}
