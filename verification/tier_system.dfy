/** The progression tiers of `tierSystem.js`: the tier table, the tier a lifetime score reaches,
    the progress towards the next tier, NFT eligibility, the milestone list, the player summary,
    the achievement ladders and the session multiplier. Icons, colours, gradients and badges are
    presentation and are not part of the records. */
module TierSystem {
  import opened Common

  /** A tier; `maxScore` is `None` for the open-ended top tier (`Infinity`). */
  datatype Tier = Tier(id: nat, name: string, minScore: int, maxScore: Option<int>, requiredGames: nat,
                       canMintNFT: bool, nftReward: Option<string>, title: string)

  const Tiers: seq<Tier> := [
    Tier(1, "Wooden Blade", 0, Some(499), 0, false, None, "Beginner"),
    Tier(2, "Bronze Blade", 500, Some(999), 5, false, None, "Novice Ninja"),
    Tier(3, "Silver Blade", 1000, Some(2499), 15, true, Some("Silver Ninja NFT"), "Skilled Slicer"),
    Tier(4, "Gold Blade", 2500, Some(4999), 30, false, None, "Master Slasher"),
    Tier(5, "Platinum Blade", 5000, Some(9999), 50, true, Some("Platinum Ninja NFT"), "Elite Ninja"),
    Tier(6, "Diamond Blade", 10000, Some(19999), 100, false, None, "Diamond Warrior"),
    Tier(7, "Legendary Blade", 20000, Some(49999), 200, true, Some("Legendary Ninja NFT"), "Legendary Ninja"),
    Tier(8, "Mythic Blade", 50000, Some(99999), 500, false, None, "Mythic Slayer"),
    Tier(9, "Godlike Blade", 100000, None, 1000, true, Some("Godlike Ninja NFT (Ultra Rare)"), "God of Ninjas")
  ]

  /** The table is well formed: ids are the positions counted from 1, the first tier starts at 0,
      each tier ends one point before the next begins, only the last is open-ended, and exactly
      the tiers that mint name a reward. */
  ghost predicate WellFormed(ts: seq<Tier>) {
    |ts| > 0 && ts[0].minScore == 0 &&
    (forall i :: 0 <= i < |ts| ==> ts[i].id == i + 1) &&
    (forall i :: 0 <= i < |ts| - 1 ==> ts[i].maxScore == Some(ts[i + 1].minScore - 1)) &&
    (forall i :: 0 <= i < |ts| - 1 ==> ts[i].minScore < ts[i + 1].minScore) &&
    ts[|ts| - 1].maxScore.None? &&
    (forall i :: 0 <= i < |ts| ==> (ts[i].canMintNFT <==> ts[i].nftReward.Some?))
  }

  lemma TiersWellFormed()
    ensures WellFormed(Tiers)
  {
    var t := Tiers;
    forall i | 0 <= i < |t|
      ensures t[i].id == i + 1 && (t[i].canMintNFT <==> t[i].nftReward.Some?)
      ensures i < |t| - 1 ==> t[i].maxScore == Some(t[i + 1].minScore - 1) && t[i].minScore < t[i + 1].minScore
    {
      if i == 0 {} else if i == 1 {} else if i == 2 {} else if i == 3 {} else if i == 4 {}
      else if i == 5 {} else if i == 6 {} else if i == 7 {} else {}
    }
  }

  /** Strictly increasing thresholds, for any two tiers and not only neighbours. */
  lemma {:induction false} MinScoresIncrease(i: nat, j: nat)
    requires i < j < |Tiers|
    ensures Tiers[i].minScore < Tiers[j].minScore
    decreases j - i
  {
    TiersWellFormed();
    if i + 1 < j {
      MinScoresIncrease(i + 1, j);
    }
  }

  /** The backward scan of `getTierByScore` from position `i` down: the first tier from the top
      whose threshold the score meets, or the first tier when none does. */
  function ScanDown(score: int, i: int): (r: nat)
    requires -1 <= i < |Tiers|
    ensures r < |Tiers| && r <= if i < 0 then 0 else i
    ensures Tiers[r].minScore <= score || r == 0
    ensures forall j :: r < j <= i ==> score < Tiers[j].minScore
    decreases i + 1
  {
    if i < 0 then 0
    else if score >= Tiers[i].minScore then i
    else ScanDown(score, i - 1)
  }

  /** The position of the tier `getTierByScore` returns. */
  function TierIndex(score: int): (r: nat)
    ensures r < |Tiers|
    ensures score >= 0 ==> Tiers[r].minScore <= score
    ensures forall j :: r < j < |Tiers| ==> score < Tiers[j].minScore
  {
    TiersWellFormed();
    ScanDown(score, |Tiers| - 1)
  }

  function GetTierByScore(score: int): (t: Tier)
    ensures t in Tiers
  {
    Tiers[TierIndex(score)]
  }

  /** The tier reached is the one whose range holds the score (the first one for a negative
      score): the highest tier whose threshold the score meets. */
  lemma TierHoldsScore(score: int)
    requires score >= 0
    ensures var t := GetTierByScore(score);
      t.minScore <= score && (t.maxScore.None? || score <= t.maxScore.value)
  {
    TiersWellFormed();
    var r := TierIndex(score);
    if r < |Tiers| - 1 {
      assert score < Tiers[r + 1].minScore;
    }
  }

  /** A higher lifetime score never reaches a lower tier. */
  lemma TierMonotone(a: int, b: int)
    requires a <= b
    ensures TierIndex(a) <= TierIndex(b)
    ensures GetTierByScore(a).minScore <= GetTierByScore(b).minScore
  {
    var ia := TierIndex(a);
    var ib := TierIndex(b);
    if ia < ib {
      MinScoresIncrease(ia, ib);
    }
  }

  /** What `getProgressToNextTier` returns. */
  datatype Progress = Progress(current: Tier, next: Option<Tier>, progress: real, scoreNeeded: int,
                               scoreInCurrentTier: int)

  function ProgressToNextTier(score: int): (r: Progress)
    ensures r.current == GetTierByScore(score)
    ensures r.scoreInCurrentTier == score - r.current.minScore
    ensures r.progress <= 100.0
    ensures r.next.None? <==> r.current == Tiers[|Tiers| - 1]
    ensures r.next.None? ==> r.progress == 100.0 && r.scoreNeeded == 0
    ensures r.next.Some? ==> r.next.value == Tiers[TierIndex(score) + 1] &&
                             r.scoreNeeded > 0 && score + r.scoreNeeded == r.next.value.minScore
    ensures r.next.Some? && score >= 0 ==> 0.0 <= r.progress < 100.0
  {
    TiersWellFormed();
    var i := TierIndex(score);
    var current := Tiers[i];
    if i == |Tiers| - 1 then
      Progress(current, None, 100.0, 0, score - current.minScore)
    else
      var next := Tiers[i + 1];
      var inTier := score - current.minScore;
      var range := next.minScore - current.minScore;
      var progress := (inTier as real / range as real) * 100.0;
      FractionBelowOne(inTier, range);
      Progress(current, Some(next), if progress < 100.0 then progress else 100.0,
               Max(0, next.minScore - score), inTier)
  }

  function Max(a: int, b: int): int { if a >= b then a else b }

  /** `a / b * 100` stays below 100 when `a < b`, and is not negative when `a` is not. */
  lemma FractionBelowOne(a: int, b: int)
    requires b > 0
    ensures a < b ==> (a as real / b as real) * 100.0 < 100.0
    ensures a >= 0 ==> (a as real / b as real) * 100.0 >= 0.0
  {
  }

  /** What `canMintNFTAtTier` returns; the reasons are the messages shown to the player. */
  datatype MintCheck =
    | NotAvailable(tier: Tier)
    | NeedGames(tier: Tier, gamesNeeded: int)
    | CanMint(tier: Tier, nftReward: Option<string>)

  function CanMintNFTAtTier(score: int, gamesPlayed: int): (r: MintCheck)
    ensures r.tier == GetTierByScore(score)
    ensures r.NotAvailable? <==> !r.tier.canMintNFT
    ensures r.NeedGames? <==> r.tier.canMintNFT && gamesPlayed < r.tier.requiredGames
    ensures r.NeedGames? ==> r.gamesNeeded > 0 && gamesPlayed + r.gamesNeeded == r.tier.requiredGames
    ensures r.CanMint? <==> r.tier.canMintNFT && gamesPlayed >= r.tier.requiredGames
    ensures r.CanMint? ==> r.nftReward.Some? && r.nftReward == r.tier.nftReward
  {
    var t := GetTierByScore(score);
    TiersWellFormed();
    if !t.canMintNFT then NotAvailable(t)
    else if gamesPlayed < t.requiredGames then NeedGames(t, t.requiredGames - gamesPlayed)
    else CanMint(t, t.nftReward)
  }

  /** `getNFTMilestones`: the tiers that mint, in table order. */
  function Milestones(): seq<Tier> {
    MintTiersFrom(0)
  }

  /** The minting tiers from position `i` of the table on, in table order. */
  function MintTiersFrom(i: nat): (m: seq<Tier>)
    requires i <= |Tiers|
    ensures |m| <= |Tiers| - i
    decreases |Tiers| - i
  {
    if i == |Tiers| then []
    else (if Tiers[i].canMintNFT then [Tiers[i]] else []) + MintTiersFrom(i + 1)
  }

  /** The minting tiers from position `i` on are exactly the tiers there that mint. */
  lemma {:induction false} MintTiersCover(i: nat)
    requires i <= |Tiers|
    ensures forall t :: t in MintTiersFrom(i) <==> t in Tiers[i..] && t.canMintNFT
    decreases |Tiers| - i
  {
    if i < |Tiers| {
      MintTiersCover(i + 1);
      assert Tiers[i..] == [Tiers[i]] + Tiers[i + 1..];
    }
  }

  /** `getNFTMilestones` returns exactly the tiers that mint. */
  lemma MilestonesAreMintTiers()
    ensures forall t :: t in Milestones() <==> t in Tiers && t.canMintNFT
  {
    MintTiersCover(0);
    assert Tiers[0..] == Tiers;
  }

  /** The milestones are the Silver, Platinum, Legendary and Godlike tiers. */
  lemma MilestoneIds()
    ensures |Milestones()| == 4
    ensures Milestones() == [Tiers[2], Tiers[4], Tiers[6], Tiers[8]]
  {
    var t := Tiers;
    assert !t[0].canMintNFT && !t[1].canMintNFT && !t[3].canMintNFT && !t[5].canMintNFT && !t[7].canMintNFT;
    assert t[2].canMintNFT && t[4].canMintNFT && t[6].canMintNFT && t[8].canMintNFT;
    MintStep(8); MintStep(7); MintStep(6); MintStep(5); MintStep(4);
    MintStep(3); MintStep(2); MintStep(1); MintStep(0);
  }

  /** There are four milestones. */
  lemma MilestoneCount()
    ensures |Milestones()| == 4
  {
    MilestoneIds();
  }

  lemma MintStep(i: nat)
    requires i < |Tiers|
    ensures MintTiersFrom(i) == (if Tiers[i].canMintNFT then [Tiers[i]] else []) + MintTiersFrom(i + 1)
  {
  }

  /** A milestone unlocked by both its score and its game count. */
  predicate Unlocks(t: Tier, score: int, gamesPlayed: int) {
    score >= t.minScore && gamesPlayed >= t.requiredGames
  }

  function UnlockedNFTs(score: int, gamesPlayed: int): (u: seq<Tier>)
    ensures forall t :: t in u <==> t in Milestones() && Unlocks(t, score, gamesPlayed)
  {
    Filter(Milestones(), (t: Tier) => Unlocks(t, score, gamesPlayed))
  }

  /** More score and more games never lock a milestone again; and a tier whose NFT may be
      minted is among the unlocked milestones. */
  lemma UnlockedGrows(s1: int, g1: int, s2: int, g2: int)
    requires s1 <= s2 && g1 <= g2
    ensures forall t :: t in UnlockedNFTs(s1, g1) ==> t in UnlockedNFTs(s2, g2)
  {
    var u1 := UnlockedNFTs(s1, g1);
    var u2 := UnlockedNFTs(s2, g2);
    forall t | t in u1 ensures t in u2 {
      assert t in Milestones() && Unlocks(t, s1, g1);
      assert Unlocks(t, s2, g2);
    }
  }

  lemma MintableIsUnlocked(score: int, gamesPlayed: int)
    requires CanMintNFTAtTier(score, gamesPlayed).CanMint?
    ensures GetTierByScore(score) in UnlockedNFTs(score, gamesPlayed)
  {
    var t := GetTierByScore(score);
    TiersWellFormed();
    assert t.minScore <= score;
  }

  /** An achievement ladder: the badge earned at each threshold, thresholds increasing. */
  datatype Rung = Rung(threshold: int, achievement: string)

  const ScoreLadder: seq<Rung> := [Rung(1000, "Slice Master"), Rung(5000, "Score Hunter"),
                                   Rung(25000, "Point Crusher"), Rung(100000, "Score God")]
  const GamesLadder: seq<Rung> := [Rung(10, "Dedicated"), Rung(50, "Addicted"),
                                   Rung(100, "No Life"), Rung(500, "Ninja Legend")]
  const BestLadder: seq<Rung> := [Rung(500, "Half K Club"), Rung(1000, "1K Club"),
                                  Rung(2500, "Elite Scorer"), Rung(5000, "Unstoppable")]

  predicate Increasing(ladder: seq<Rung>) {
    forall i, j :: 0 <= i < j < |ladder| ==> ladder[i].threshold < ladder[j].threshold
  }

  /** The achievements of a ladder that value `v` reaches, in ladder order. */
  function Earned(v: int, ladder: seq<Rung>): (r: seq<string>)
    ensures |r| <= |ladder|
  {
    if ladder == [] then []
    else (if v >= ladder[0].threshold then [ladder[0].achievement] else []) + Earned(v, ladder[1..])
  }

  /** On an increasing ladder, the achievements earned are exactly the first rungs up to the
      value. */
  lemma {:induction false} EarnedIsPrefix(v: int, ladder: seq<Rung>)
    requires Increasing(ladder)
    ensures var r := Earned(v, ladder);
      forall i :: 0 <= i < |ladder| ==> (i < |r| <==> v >= ladder[i].threshold)
    ensures var r := Earned(v, ladder);
      forall i :: 0 <= i < |r| ==> r[i] == ladder[i].achievement
  {
    if ladder != [] {
      EarnedIsPrefix(v, ladder[1..]);
      var r := Earned(v, ladder);
      var rest := Earned(v, ladder[1..]);
      if v < ladder[0].threshold {
        assert r == rest;
      } else {
        assert r == [ladder[0].achievement] + rest;
        forall i | 0 <= i < |ladder|
          ensures i < |r| <==> v >= ladder[i].threshold
        {
          if i > 0 { assert ladder[i] == ladder[1..][i - 1]; }
        }
      }
    }
  }

  /** A higher value never loses an achievement of the ladder. */
  lemma EarnedGrows(v1: int, v2: int, ladder: seq<Rung>)
    requires Increasing(ladder) && v1 <= v2
    ensures |Earned(v1, ladder)| <= |Earned(v2, ladder)|
    ensures Earned(v1, ladder) == Earned(v2, ladder)[..|Earned(v1, ladder)|]
  {
    EarnedIsPrefix(v1, ladder);
    EarnedIsPrefix(v2, ladder);
    var r1 := Earned(v1, ladder);
    var r2 := Earned(v2, ladder);
  }

  /** `calculateAchievements`: score, then game count, then best-score achievements. */
  function Achievements(totalScore: int, gamesPlayed: int, bestScore: int): (r: seq<string>)
    ensures |r| <= 12
  {
    Earned(totalScore, ScoreLadder) + Earned(gamesPlayed, GamesLadder) + Earned(bestScore, BestLadder)
  }

  /** Each input only ever adds achievements. */
  lemma AchievementsGrow(t1: int, g1: int, b1: int, t2: int, g2: int, b2: int)
    requires t1 <= t2 && g1 <= g2 && b1 <= b2
    ensures forall a :: a in Achievements(t1, g1, b1) ==> a in Achievements(t2, g2, b2)
  {
    EarnedGrows(t1, t2, ScoreLadder);
    EarnedGrows(g1, g2, GamesLadder);
    EarnedGrows(b1, b2, BestLadder);
    var e1 := Earned(t1, ScoreLadder);
    var e2 := Earned(t2, ScoreLadder);
    var f1 := Earned(g1, GamesLadder);
    var f2 := Earned(g2, GamesLadder);
    var h1 := Earned(b1, BestLadder);
    var h2 := Earned(b2, BestLadder);
    forall a | a in e1 + f1 + h1 ensures a in e2 + f2 + h2 {
      if a in e1 {
        var i :| 0 <= i < |e1| && e1[i] == a;
        assert e2[i] == a;
      } else if a in f1 {
        var i :| 0 <= i < |f1| && f1[i] == a;
        assert f2[i] == a;
      } else {
        var i :| 0 <= i < |h1| && h1[i] == a;
        assert h2[i] == a;
      }
    }
  }

  /** What `calculatePlayerStats` returns. */
  datatype Stats = Stats(totalScore: int, gamesPlayed: int, bestScore: int, averageScore: int,
                         progress: Progress, nft: MintCheck, unlockedNFTs: seq<Tier>,
                         totalNFTsAvailable: nat, achievements: seq<string>)

  function PlayerStats(totalScore: int, gamesPlayed: int, bestScore: int): (r: Stats)
    ensures FloorAverage(r.averageScore, totalScore, gamesPlayed)
    ensures forall t :: t in r.unlockedNFTs <==> t in Milestones() && Unlocks(t, totalScore, gamesPlayed)
    ensures r.totalNFTsAvailable == 4
    ensures r.progress.current == r.nft.tier
    ensures r.totalScore == totalScore && r.gamesPlayed == gamesPlayed && r.bestScore == bestScore
    ensures r.progress == ProgressToNextTier(totalScore)
    ensures r.nft == CanMintNFTAtTier(totalScore, gamesPlayed)
    ensures r.achievements == Achievements(totalScore, gamesPlayed, bestScore)
  {
    MilestoneCount();
    Stats(totalScore, gamesPlayed, bestScore, AverageScore(totalScore, gamesPlayed),
          ProgressToNextTier(totalScore), CanMintNFTAtTier(totalScore, gamesPlayed),
          UnlockedNFTs(totalScore, gamesPlayed), |Milestones()|,
          Achievements(totalScore, gamesPlayed, bestScore))
  }

  /** `avg` is the average score rounded down: times the number of games it is at most the
      total and within one game of it; 0 before any game. */
  predicate FloorAverage(avg: int, totalScore: int, gamesPlayed: int) {
    if gamesPlayed > 0 then avg * gamesPlayed <= totalScore < (avg + 1) * gamesPlayed else avg == 0
  }

  /** The average score: `Math.floor(totalScore / gamesPlayed)`, and 0 before any game. */
  function AverageScore(totalScore: int, gamesPlayed: int): (avg: int)
    ensures FloorAverage(avg, totalScore, gamesPlayed)
  {
    if gamesPlayed > 0 then totalScore / gamesPlayed else 0
  }

  /** `getSessionMultiplier`: a step function of the run of consecutive games. */
  function SessionMultiplier(consecutiveGames: int): (m: real)
    ensures 1.0 <= m <= 2.0
    ensures consecutiveGames < 3 <==> m == 1.0
    ensures consecutiveGames >= 10 <==> m == 2.0
  {
    if consecutiveGames >= 10 then 2.0
    else if consecutiveGames >= 5 then 1.5
    else if consecutiveGames >= 3 then 1.25
    else 1.0
  }

  lemma SessionMultiplierMonotone(a: int, b: int)
    requires a <= b
    ensures SessionMultiplier(a) <= SessionMultiplier(b)
  {
  }
}
