/**
 * The progress dashboard: statistics over the history of solved puzzles
 * (solved count per difficulty tier, solved count per topic, an overall
 * percentage against fixed goals), the per-tier quest log with its
 * "next", "locked" and "+N more" tiles, the newest-first review list and
 * its expand/collapse toggle.
 */
module Progress {
  import opened Types

  // ---------------------------------------------------------------------
  // Goals
  // ---------------------------------------------------------------------

  const EasyGoal: nat := 15
  const MediumGoal: nat := 25
  const HardGoal: nat := 10
  const TotalGoal: nat := EasyGoal + MediumGoal + HardGoal

  /** The recommended number of problems for a tier. */
  function Goal(d: string): (g: nat)
    requires IsTier(d)
    ensures g > 0
  {
    if d == Easy then EasyGoal else if d == Medium then MediumGoal else HardGoal
  }

  lemma TotalGoalIsFifty()
    ensures TotalGoal == 50
    ensures TotalGoal == Goal(Easy) + Goal(Medium) + Goal(Hard)
  {
    TierNamesDistinct();
  }

  // ---------------------------------------------------------------------
  // Statistics, specified by folds over the history in order
  // ---------------------------------------------------------------------

  /** The number of history items whose question has difficulty `d`. */
  function CountTier(history: seq<HistoryItem>, d: string): (n: nat)
    ensures n <= |history|
  {
    if history == [] then 0
    else
      CountTier(history[..|history| - 1], d) +
      (if history[|history| - 1].question.difficulty == d then 1 else 0)
  }

  /** The topic a question is filed under: its own, or "General" when it has none. */
  function TopicKey(q: Question): (key: string)
    ensures key != ""
    ensures q.topic != "" ==> key == q.topic
    ensures q.topic == "" ==> key == "General"
  {
    if q.topic == "" then "General" else q.topic
  }

  /** The number of solved puzzles per topic key, built item by item. */
  function TopicCounts(history: seq<HistoryItem>): (counts: map<string, nat>)
    ensures forall t :: t in counts ==> 0 < counts[t] <= |history|
  {
    if history == [] then map[]
    else
      var earlier := TopicCounts(history[..|history| - 1]);
      var key := TopicKey(history[|history| - 1].question);
      earlier[key := (if key in earlier then earlier[key] else 0) + 1]
  }

  /** A topic appears on the dashboard exactly when some solved puzzle is filed under it. */
  lemma {:induction false} TopicCountsKeys(history: seq<HistoryItem>)
    ensures TopicCounts(history).Keys == set i | 0 <= i < |history| :: TopicKey(history[i].question)
  {
    if history != [] {
      var init := history[..|history| - 1];
      TopicCountsKeys(init);
      assert forall i :: 0 <= i < |init| ==> init[i] == history[i];
    }
  }

  /** The number of history items filed under topic key `t`. */
  function CountTopic(history: seq<HistoryItem>, t: string): (n: nat)
    ensures n <= |history|
  {
    if history == [] then 0
    else
      CountTopic(history[..|history| - 1], t) +
      (if TopicKey(history[|history| - 1].question) == t then 1 else 0)
  }

  /** Each topic's count is the number of solved puzzles filed under it, and topics without one are absent. */
  lemma {:induction false} TopicCountsValues(history: seq<HistoryItem>, t: string)
    ensures t in TopicCounts(history) <==> CountTopic(history, t) > 0
    ensures t in TopicCounts(history) ==> TopicCounts(history)[t] == CountTopic(history, t)
  {
    if history != [] {
      TopicCountsValues(history[..|history| - 1], t);
    }
  }

  /** Appending a solved puzzle adds one to its own tier's count and leaves the others. */
  lemma CountTierAppend(history: seq<HistoryItem>, x: HistoryItem, d: string)
    ensures CountTier(history + [x], d) == CountTier(history, d) + (if x.question.difficulty == d then 1 else 0)
    ensures CountTier(history, d) <= CountTier(history + [x], d)
  {
    assert (history + [x])[..|history|] == history;
  }

  /** Appending a solved puzzle keeps every topic on the dashboard and never lowers its count. */
  lemma TopicCountsAppend(history: seq<HistoryItem>, x: HistoryItem, t: string)
    ensures CountTopic(history + [x], t) == CountTopic(history, t) + (if TopicKey(x.question) == t then 1 else 0)
    ensures t in TopicCounts(history) ==>
      t in TopicCounts(history + [x]) && TopicCounts(history)[t] <= TopicCounts(history + [x])[t]
  {
    assert (history + [x])[..|history|] == history;
    TopicCountsValues(history, t);
    TopicCountsValues(history + [x], t);
  }

  /** Taking one more item of the history into account, as each round of the walk does. */
  lemma FoldStep(history: seq<HistoryItem>, i: nat)
    requires i < |history|
    ensures forall d :: (CountTier(history[..i + 1], d) ==
      CountTier(history[..i], d) + (if history[i].question.difficulty == d then 1 else 0))
    ensures var earlier := TopicCounts(history[..i]);
      var key := TopicKey(history[i].question);
      TopicCounts(history[..i + 1]) == earlier[key := (if key in earlier then earlier[key] else 0) + 1]
  {
    assert history[..i + 1][..i] == history[..i];
  }

  /**
   * `num / den` rounded to the nearest integer, halves upwards, for
   * non-negative values: `r - 1/2 <= num / den < r + 1/2`.
   */
  function RoundHalfUp(num: nat, den: nat): (r: nat)
    requires den > 0
    ensures 2 * num < (2 * r + 1) * den && (2 * r - 1) * den <= 2 * num
  {
    (2 * num + den) / (2 * den)
  }

  /** The overall percentage: the solved share of the total goal, rounded, capped at 100. */
  function OverallProgress(totalSolved: nat): (p: nat)
    ensures p <= 100
  {
    var rounded := RoundHalfUp(100 * totalSolved, TotalGoal);
    if rounded < 100 then rounded else 100
  }

  /** Each solved puzzle is worth two percent, up to the cap. */
  lemma ProgressIsTwoPerSolved(totalSolved: nat)
    ensures OverallProgress(totalSolved) == if 2 * totalSolved < 100 then 2 * totalSolved else 100
  {
    assert 2 * (100 * totalSolved) + TotalGoal == (4 * totalSolved + 1) * 50;
    assert (2 * (100 * totalSolved) + TotalGoal) / (2 * TotalGoal) == 2 * totalSolved by {
      DivideExactly(4 * totalSolved + 1, 2 * totalSolved);
    }
  }

  lemma DivideExactly(a: nat, q: nat)
    requires q * 100 <= a * 50 < (q + 1) * 100
    ensures (a * 50) / 100 == q
  {
  }

  lemma ProgressBounds(totalSolved: nat)
    ensures 0 <= OverallProgress(totalSolved) <= 100
    ensures OverallProgress(totalSolved) == 0 <==> totalSolved == 0
    ensures OverallProgress(totalSolved) == 100 <==> totalSolved >= TotalGoal
  {
    ProgressIsTwoPerSolved(totalSolved);
  }

  /** More solved puzzles never lower the percentage. */
  lemma ProgressMonotone(a: nat, b: nat)
    requires a <= b
    ensures OverallProgress(a) <= OverallProgress(b)
  {
    ProgressIsTwoPerSolved(a);
    ProgressIsTwoPerSolved(b);
  }

  /** Appending a solved puzzle to the history never lowers the percentage. */
  lemma ProgressGrowsWithHistory(history: seq<HistoryItem>, item: HistoryItem)
    ensures OverallProgress(|history|) <= OverallProgress(|history + [item]|)
  {
    ProgressMonotone(|history|, |history + [item]|);
  }

  /** The three tier counts together never exceed the history, and equal it when every difficulty is a tier. */
  lemma {:induction false} TierCountsCoverHistory(history: seq<HistoryItem>)
    ensures CountTier(history, Easy) + CountTier(history, Medium) + CountTier(history, Hard) <= |history|
    ensures (forall i :: 0 <= i < |history| ==> IsTyped(history[i].question)) ==>
      CountTier(history, Easy) + CountTier(history, Medium) + CountTier(history, Hard) == |history|
  {
    if history != [] {
      var init := history[..|history| - 1];
      TierCountsCoverHistory(init);
      TierNamesDistinct();
      if forall i :: 0 <= i < |history| ==> IsTyped(history[i].question) {
        assert forall i :: 0 <= i < |init| ==> init[i] == history[i];
        assert IsTyped(history[|history| - 1].question);
      }
    }
  }

  /** Sum of the values of a map. */
  ghost function SumValues(m: map<string, nat>): nat
    decreases |m.Keys|
  {
    if m == map[] then 0
    else
      var k :| k in m;
      m[k] + SumValues(m - {k})
  }

  /** The sum does not depend on which key is taken out first. */
  lemma {:induction false} SumValuesRemove(m: map<string, nat>, k: string)
    requires k in m
    ensures SumValues(m) == m[k] + SumValues(m - {k})
    decreases |m.Keys|
  {
    var j :| j in m && SumValues(m) == m[j] + SumValues(m - {j});
    if j != k {
      assert |(m - {j}).Keys| < |m.Keys| by {
        assert (m - {j}).Keys < m.Keys;
      }
      assert |(m - {k}).Keys| < |m.Keys| by {
        assert (m - {k}).Keys < m.Keys;
      }
      SumValuesRemove(m - {j}, k);
      SumValuesRemove(m - {k}, j);
      assert (m - {j}) - {k} == (m - {k}) - {j};
    }
  }

  /** Every solved puzzle is counted under exactly one topic: the topic counts add up to the history's length. */
  lemma {:induction false} TopicCountsSumToHistory(history: seq<HistoryItem>)
    ensures SumValues(TopicCounts(history)) == |history|
  {
    if history != [] {
      var init := history[..|history| - 1];
      var earlier := TopicCounts(init);
      var key := TopicKey(history[|history| - 1].question);
      var now := TopicCounts(history);
      TopicCountsSumToHistory(init);
      SumValuesRemove(now, key);
      assert now - {key} == earlier - {key};
      if key in earlier {
        SumValuesRemove(earlier, key);
      } else {
        assert earlier - {key} == earlier;
      }
    }
  }

  /** The statistics shown on the dashboard. */
  datatype Stats = Stats(
    easy: nat,
    medium: nat,
    hard: nat,
    topics: map<string, nat>,
    totalSolved: nat,
    overallProgress: nat)

  /**
   * Walks the history once, bumping the count of the item's tier (an item
   * of any other difficulty bumps none) and of its topic key.
   */
  method ComputeStats(history: seq<HistoryItem>) returns (stats: Stats)
    ensures stats.easy == CountTier(history, Easy)
    ensures stats.medium == CountTier(history, Medium)
    ensures stats.hard == CountTier(history, Hard)
    ensures stats.topics == TopicCounts(history)
    ensures stats.totalSolved == |history|
    ensures stats.overallProgress == OverallProgress(|history|)
  {
    TierNamesDistinct();
    var easy, medium, hard := 0, 0, 0;
    var topics: map<string, nat> := map[];
    for i := 0 to |history|
      invariant easy == CountTier(history[..i], Easy)
      invariant medium == CountTier(history[..i], Medium)
      invariant hard == CountTier(history[..i], Hard)
      invariant topics == TopicCounts(history[..i])
    {
      FoldStep(history, i);
      var item := history[i];
      var d := item.question.difficulty;
      if d == Easy {
        easy := easy + 1;
      } else if d == Medium {
        medium := medium + 1;
      } else if d == Hard {
        hard := hard + 1;
      }
      var topic := TopicKey(item.question);
      topics := topics[topic := (if topic in topics then topics[topic] else 0) + 1];
    }
    assert history[..|history|] == history;
    stats := Stats(easy, medium, hard, topics, |history|, OverallProgress(|history|));
  }

  // ---------------------------------------------------------------------
  // Quest log
  // ---------------------------------------------------------------------

  /** The solved puzzles of tier `d`, in history order. */
  function SolvedInTier(history: seq<HistoryItem>, d: string): (solved: seq<HistoryItem>)
    ensures |solved| == CountTier(history, d)
    ensures forall x :: x in solved <==> x in history && x.question.difficulty == d
  {
    if history == [] then []
    else
      var init := history[..|history| - 1];
      var last := history[|history| - 1];
      assert history == init + [last];
      SolvedInTier(init, d) + (if last.question.difficulty == d then [last] else [])
  }

  /** A single item is kept exactly when it belongs to the tier. */
  lemma SolvedInTierSingle(x: HistoryItem, d: string)
    ensures SolvedInTier([x], d) == if x.question.difficulty == d then [x] else []
  {
    assert [x][..0] == [];
  }

  /** Filtering distributes over concatenation, so the track keeps the history's order and repetitions. */
  lemma {:induction false} SolvedInTierAppend(a: seq<HistoryItem>, b: seq<HistoryItem>, d: string)
    ensures SolvedInTier(a + b, d) == SolvedInTier(a, d) + SolvedInTier(b, d)
    decreases |b|
  {
    if b == [] {
      assert a + b == a;
    } else {
      var init := b[..|b| - 1];
      var last := b[|b| - 1];
      assert (a + b)[..|a + b| - 1] == a + init;
      assert (a + b)[|a + b| - 1] == last;
      SolvedInTierAppend(a, init, d);
    }
  }

  /** The tiles after the solved ones: a "next" tile, some locked tiles, and possibly a "+N more" tile. */
  datatype Tiles = Tiles(next: bool, locked: nat, more: Maybe<nat>)

  /**
   * The tiles of a track with `solved` of `goal` done: "next" while the goal
   * is not reached, then up to seven locked tiles (none when the count
   * would be negative), and "+N more" for the rest beyond those.
   */
  function QuestTiles(solved: nat, goal: nat): (t: Tiles)
    ensures t.next <==> solved < goal
    ensures t.locked <= 7
    ensures t.locked == 0 <==> solved + 1 >= goal
    ensures t.more.Some? <==> goal > solved + 8
    ensures t.more.Some? ==> t.locked == 7 && t.more.value > 0
  {
    var lockedRaw := if goal - solved - 1 < 7 then goal - solved - 1 else 7;
    var locked := if lockedRaw < 0 then 0 else lockedRaw;
    var more := if goal - solved - 1 > 7 then Some(goal - solved - 8) else None;
    Tiles(solved < goal, locked, more)
  }

  /** Below the goal, the tiles after the solved ones stand for exactly the unsolved problems. */
  lemma TilesCoverRemaining(solved: nat, goal: nat)
    requires solved < goal
    ensures var t := QuestTiles(solved, goal);
      1 + t.locked + (if t.more.Some? then t.more.value else 0) == goal - solved
  {
  }

  /** At or past the goal only the solved tiles remain. */
  lemma NoTilesPastGoal(solved: nat, goal: nat)
    requires solved >= goal
    ensures QuestTiles(solved, goal) == Tiles(false, 0, None)
  {
  }

  /** The opening layout of the three tracks. */
  lemma EmptyTracks()
    ensures QuestTiles(0, Goal(Easy)) == Tiles(true, 7, Some(7))
    ensures QuestTiles(0, Goal(Medium)) == Tiles(true, 7, Some(17))
    ensures QuestTiles(0, Goal(Hard)) == Tiles(true, 7, Some(2))
  {
    TierNamesDistinct();
  }

  // ---------------------------------------------------------------------
  // Review list
  // ---------------------------------------------------------------------

  /** The history, newest first. */
  function ReviewOrder(history: seq<HistoryItem>): (review: seq<HistoryItem>)
    ensures |review| == |history|
    ensures forall i :: 0 <= i < |history| ==> review[i] == history[|history| - 1 - i]
  {
    if history == [] then [] else [history[|history| - 1]] + ReviewOrder(history[..|history| - 1])
  }

  /** The review list drops and adds nothing. */
  lemma ReviewIsPermutation(history: seq<HistoryItem>)
    ensures multiset(ReviewOrder(history)) == multiset(history)
  {
    if history != [] {
      var init := history[..|history| - 1];
      var last := history[|history| - 1];
      ReviewIsPermutation(init);
      assert history == init + [last];
      calc {
        multiset(ReviewOrder(history));
        multiset([last] + ReviewOrder(init));
        multiset{last} + multiset(ReviewOrder(init));
        multiset{last} + multiset(init);
        multiset(init + [last]);
      }
    }
  }

  /** The newest solved puzzle is listed first. */
  lemma NewestFirst(history: seq<HistoryItem>, item: HistoryItem)
    ensures ReviewOrder(history + [item]) == [item] + ReviewOrder(history)
  {
    assert (history + [item])[..|history|] == history;
  }

  // ---------------------------------------------------------------------
  // Expand / collapse
  // ---------------------------------------------------------------------

  /** The expanded item after a click on `clicked`: collapses it when it was open, otherwise opens it alone. */
  function Toggle(expanded: Maybe<string>, clicked: string): (r: Maybe<string>)
    ensures r.None? <==> expanded == Some(clicked)
    ensures r.Some? ==> r.value == clicked
  {
    if expanded == Some(clicked) then None else Some(clicked)
  }

  /** Two clicks on the same item leave it open only if it was open before; any other open item is closed. */
  lemma ToggleTwice(expanded: Maybe<string>, clicked: string)
    ensures Toggle(Toggle(expanded, clicked), clicked) == if expanded == Some(clicked) then expanded else None
  {
  }

  /** The review panel's open item; at most one item is open at a time. */
  class ReviewPanel {
    var expandedItem: Maybe<string>

    constructor ()
      ensures expandedItem.None?
    {
      expandedItem := None;
    }

    method Click(id: string)
      modifies this
      ensures expandedItem == Toggle(old(expandedItem), id)
    {
      if expandedItem == Some(id) {
        expandedItem := None;
      } else {
        expandedItem := Some(id);
      }
    }
  }
}
