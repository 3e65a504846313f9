/** `rewardEcoFriendlyAction` (server/utils/ecoGamification.ts): one eco-friendly action earns
    a badge; the tenth resets the badges and adds one seed, one plant and one fruit at once,
    with no threshold on seeds or plants. */
module EcoGamification {
  import opened Common
  import opened Schema
  import opened UsersTable

  /** How the async function ends: it resolves, or it throws with that message. */
  datatype Completion = Resolved | Threw(message: string)

  /** The counters after one action under the flat rule. */
  function FlatReward(p: Progress): (r: Progress)
    ensures p.ecoBadges + 1 < 10 ==>
              r == p.(ecoBadges := p.ecoBadges + 1)
    ensures p.ecoBadges + 1 >= 10 ==>
              r == Progress(0, p.seeds + 1, p.plants + 1, p.fruits + 1)
    ensures r.seeds - p.seeds == r.plants - p.plants == r.fruits - p.fruits
    ensures 0 <= p.ecoBadges <= 9 ==>
              0 <= r.ecoBadges <= 9 && r.ecoBadges + 10 * r.fruits == p.ecoBadges + 10 * p.fruits + 1
  {
    var badges := p.ecoBadges + 1;
    if badges >= 10 then Progress(0, p.seeds + 1, p.plants + 1, p.fruits + 1)
    else p.(ecoBadges := badges)
  }

  /** Reads the user, applies the flat rule with missing counters read as 0, and writes the
      four counters back; a missing user throws before anything is written. */
  method RewardEcoFriendlyAction(db: UserTable, userId: int) returns (c: Completion)
    modifies db
    ensures userId !in old(db.rows) ==> c == Threw("User not found") && db.rows == old(db.rows)
    ensures userId in old(db.rows) ==>
              && c == Resolved
              && db.rows == old(db.rows)[userId := WithProgress(old(db.rows)[userId], FlatReward(ProgressOf(old(db.rows)[userId])))]
  {
    var user := db.FindFirst(userId);
    if user.None? {
      return Threw("User not found");
    }
    var u := user.value;
    var updatedBadges := u.ecoBadges.GetOr(0) + 1;
    var updatedSeeds := u.seeds.GetOr(0);
    var updatedPlants := u.plants.GetOr(0);
    var updatedFruits := u.fruits.GetOr(0);
    if updatedBadges >= 10 {
      updatedBadges := 0;
      updatedSeeds := updatedSeeds + 1;
      updatedPlants := updatedPlants + 1;
      updatedFruits := updatedFruits + 1;
    }
    db.SetProgress(userId, Progress(updatedBadges, updatedSeeds, updatedPlants, updatedFruits));
    c := Resolved;
  }

  /** The counters after `n` actions of a user whose counters start out missing. */
  function FlatFromZero(n: nat): Progress
  {
    if n == 0 then Progress(0, 0, 0, 0) else FlatReward(FlatFromZero(n - 1))
  }

  /** After `n` actions from nothing there are `n % 10` badges and `n / 10` of each of seeds,
      plants and fruits: every tenth action pays out on all three tiers at once. */
  lemma {:induction false} FlatCountsActions(n: nat)
    ensures FlatFromZero(n) == Progress(n % 10, n / 10, n / 10, n / 10)
  {
    if n > 0 {
      var m := n - 1;
      FlatCountsActions(m);
      var q, b := m / 10, m % 10;
      assert m == 10 * q + b;
      assert FlatFromZero(n) == FlatReward(Progress(b, q, q, q));
      if b == 9 {
        DivModTen(n, q + 1, 0);
        assert FlatReward(Progress(b, q, q, q)) == Progress(0, q + 1, q + 1, q + 1);
      } else {
        DivModTen(n, q, b + 1);
        assert FlatReward(Progress(b, q, q, q)) == Progress(b + 1, q, q, q);
      }
    }
  }

  /** Division by ten recovers quotient and remainder. */
  lemma DivModTen(n: int, q: int, b: int)
    requires n == 10 * q + b && 0 <= b < 10
    ensures n / 10 == q && n % 10 == b
  {
  }

  /** Seeds (and with them plants) have no ceiling: for any bound some number of actions
      takes the count past it. */
  lemma SeedsGrowWithoutBound(bound: nat)
    ensures FlatFromZero(10 * bound + 10).seeds > bound
    ensures FlatFromZero(10 * bound + 10).plants > bound
  {
    FlatCountsActions(10 * bound + 10);
  }
}
