/**
  The statistics and the winner the results screen computes from the session
  snapshot once a game is over. Everything here is a pure function of the
  snapshot and of the values the engine's selectors return.
 */
module Results {
  import opened Options
  import opened Config

  /** One completed card in the session history (the fields read here). */
  datatype HistoryRecord = HistoryRecord(player: string, isCorrect: bool)

  /** The parts of the session snapshot the results screen reads. A missing
      or non-array `players`, a missing `gameHistory` and missing `scores`
      are `None`. */
  datatype Snapshot = Snapshot(
    gameMode: Option<Mode>,
    players: Option<seq<string>>,
    gameHistory: Option<seq<HistoryRecord>>,
    scores: Option<map<string, int>>)

  /** What the engine's selectors return for the current player (used in
      individual mode); `None` stands for a falsy result. */
  datatype SelectorValues = SelectorValues(
    currentPlayer: Option<string>,
    totalScore: Option<int>,
    correctAnswers: Option<int>,
    totalCards: Option<int>,
    accuracyRate: Option<int>)

  /** One row of the statistics table. */
  datatype PlayerStats = PlayerStats(name: string, score: int, correct: int, total: int, accuracy: int)

  /** `x || 0` for a selector's numeric result. */
  function OrZero(x: Option<int>): (r: int)
    ensures x.Some? ==> r == x.value
    ensures x.None? ==> r == 0
  {
    if x.Some? then x.value else 0
  }

  /** The records of `history` whose player is `p`, in order. */
  function PlayerHistory(history: seq<HistoryRecord>, p: string): (r: seq<HistoryRecord>)
    ensures |r| <= |history|
    ensures forall i :: 0 <= i < |r| ==> r[i].player == p && r[i] in history
  {
    if history == [] then []
    else if history[0].player == p then [history[0]] + PlayerHistory(history[1..], p)
    else PlayerHistory(history[1..], p)
  }

  /** The number of records of `history` marked correct. */
  function CountCorrect(history: seq<HistoryRecord>): (n: nat)
    ensures n <= |history|
  {
    if history == [] then 0
    else (if history[0].isCorrect then 1 else 0) + CountCorrect(history[1..])
  }

  /** `Math.round((correct / total) * 100)`, or 0 for no cards, in integer
      arithmetic: half-up rounding of 100 * correct / total. */
  function Accuracy(correct: int, total: int): (a: int)
    ensures total <= 0 ==> a == 0
    ensures total > 0 ==> 2 * total * a <= 200 * correct + total < 2 * total * (a + 1)
    ensures 0 <= correct <= total ==> 0 <= a <= 100
  {
    if total > 0 then
      var n, d := 200 * correct + total, 2 * total;
      DivBounds(n, d);
      assert 0 <= correct <= total ==> 0 <= n / d <= 100 by {
        if 0 <= correct <= total {
          DivBelow(n, d, 101);
          DivAtLeast(n, d, 0);
        }
      }
      n / d
    else 0
  }

  /** `(scores && scores[player]) || 0`. */
  function ScoreOf(scores: Option<map<string, int>>, player: string): (r: int)
    ensures scores.Some? && player in scores.value ==> r == scores.value[player]
    ensures scores.None? || player !in scores.value ==> r == 0
  {
    if scores.Some? && player in scores.value then scores.value[player] else 0
  }

  /** The statistics of one player of a pair game. */
  function StatsOf(player: string, history: seq<HistoryRecord>, scores: Option<map<string, int>>): (r: PlayerStats)
    ensures r.name == player && r.score == ScoreOf(scores, player)
    ensures r.total == |PlayerHistory(history, player)| && r.correct == CountCorrect(PlayerHistory(history, player))
    ensures 0 <= r.correct <= r.total <= |history|
    ensures r.accuracy == Accuracy(r.correct, r.total)
    ensures 0 <= r.accuracy <= 100
  {
    var mine := PlayerHistory(history, player);
    var correct := CountCorrect(mine);
    PlayerStats(player, ScoreOf(scores, player), correct, |mine|, Accuracy(correct, |mine|))
  }

  /** `players.map(...)`: one entry per player, in the order of `players`. */
  function StatsForAll(players: seq<string>, history: seq<HistoryRecord>, scores: Option<map<string, int>>): (r: seq<PlayerStats>)
    ensures |r| == |players|
    ensures forall i :: 0 <= i < |r| ==> r[i] == StatsOf(players[i], history, scores)
  {
    if players == [] then []
    else [StatsOf(players[0], history, scores)] + StatsForAll(players[1..], history, scores)
  }

  /** `getPlayerStats()`. */
  function GetPlayerStats(s: Snapshot, sel: SelectorValues): (r: seq<PlayerStats>)
    ensures s.gameMode == Some(Individual) ==> |r| == 1
    ensures s.gameMode != Some(Individual) ==>
      |r| == (if s.players.Some? then |s.players.value| else 0) &&
      forall i :: 0 <= i < |r| ==>
        r[i].name == s.players.value[i] && 0 <= r[i].correct <= r[i].total && 0 <= r[i].accuracy <= 100
  {
    if s.gameMode == Some(Individual) then
      [PlayerStats(
        if sel.currentPlayer.Some? && sel.currentPlayer.value != "" then sel.currentPlayer.value else SoloPlayerName,
        OrZero(sel.totalScore),
        OrZero(sel.correctAnswers),
        OrZero(sel.totalCards),
        OrZero(sel.accuracyRate))]
    else if s.players.None? || s.players.value == [] then []
    else StatsForAll(s.players.value, if s.gameHistory.Some? then s.gameHistory.value else [], s.scores)
  }

  /** The callback of `reduce`: keep `prev` only when it scores strictly more. */
  function Reduce(prev: PlayerStats, rest: seq<PlayerStats>): (r: PlayerStats)
    ensures prev.score <= r.score
    ensures forall j :: 0 <= j < |rest| ==> rest[j].score <= r.score
    decreases |rest|
  {
    if rest == [] then prev
    else Reduce(if prev.score > rest[0].score then prev else rest[0], rest[1..])
  }

  /** The winner: `null` for no entries, else the `reduce` over the entries. */
  function Winner(stats: seq<PlayerStats>): (w: Option<PlayerStats>)
    ensures w.None? <==> stats == []
  {
    if stats == [] then None else Some(Reduce(stats[0], stats[1..]))
  }

  // ---------------------------------------------------------------------
  // Properties of the statistics
  // ---------------------------------------------------------------------

  /** In individual mode there is exactly one entry, named after the current
      player or `'Jogador'` when there is none, with missing values read as 0. */
  lemma IndividualStats(s: Snapshot, sel: SelectorValues)
    requires s.gameMode == Some(Individual)
    ensures |GetPlayerStats(s, sel)| == 1
    ensures var e := GetPlayerStats(s, sel)[0];
      (e.name == SoloPlayerName <==> sel.currentPlayer.None? || sel.currentPlayer.value in {"", SoloPlayerName}) &&
      (sel.currentPlayer.Some? && sel.currentPlayer.value != "" ==> e.name == sel.currentPlayer.value) &&
      (sel.totalScore.None? ==> e.score == 0) &&
      (sel.correctAnswers.None? ==> e.correct == 0) &&
      (sel.totalCards.None? ==> e.total == 0) &&
      (sel.accuracyRate.None? ==> e.accuracy == 0) &&
      (sel.totalScore.Some? ==> e.score == sel.totalScore.value) &&
      (sel.correctAnswers.Some? ==> e.correct == sel.correctAnswers.value) &&
      (sel.totalCards.Some? ==> e.total == sel.totalCards.value) &&
      (sel.accuracyRate.Some? ==> e.accuracy == sel.accuracyRate.value)
  {
  }

  /** Outside individual mode, a missing or empty player list gives no entries. */
  lemma NoPlayersNoStats(s: Snapshot, sel: SelectorValues)
    requires s.gameMode != Some(Individual)
    ensures GetPlayerStats(s, sel) == [] <==> s.players.None? || s.players.value == []
  {
  }

  /** Outside individual mode there is one entry per player, in the order of
      the player list, each named after its player, with that player's score
      (0 when missing), counts taken from that player's records only, and
      the rounded percentage of those counts as accuracy. */
  lemma PairStats(s: Snapshot, sel: SelectorValues, i: int)
    requires s.gameMode != Some(Individual) && s.players.Some?
    requires 0 <= i < |s.players.value|
    ensures var stats := GetPlayerStats(s, sel);
      var p := s.players.value[i];
      var h := if s.gameHistory.Some? then s.gameHistory.value else [];
      |stats| == |s.players.value| &&
      stats[i].name == p &&
      stats[i].score == (if s.scores.Some? && p in s.scores.value then s.scores.value[p] else 0) &&
      stats[i].total == |PlayerHistory(h, p)| &&
      stats[i].correct == CountCorrect(PlayerHistory(h, p)) &&
      stats[i].accuracy == Accuracy(stats[i].correct, stats[i].total)
  {
  }

  /** Filtering the extended history adds `rec` exactly when it is `p`'s. */
  lemma {:induction false} PlayerHistoryAppend(history: seq<HistoryRecord>, rec: HistoryRecord, p: string)
    ensures PlayerHistory(history + [rec], p) ==
      PlayerHistory(history, p) + (if rec.player == p then [rec] else [])
  {
    if history == [] {
      assert [] + [rec] == [rec];
    } else {
      assert (history + [rec])[1..] == history[1..] + [rec];
      PlayerHistoryAppend(history[1..], rec, p);
    }
  }

  /** The correct count of a concatenation is the sum of the parts' counts. */
  lemma {:induction false} CountCorrectAppend(a: seq<HistoryRecord>, b: seq<HistoryRecord>)
    ensures CountCorrect(a + b) == CountCorrect(a) + CountCorrect(b)
  {
    if a == [] {
      assert a + b == b;
    } else {
      assert (a + b)[1..] == a[1..] + b;
      CountCorrectAppend(a[1..], b);
    }
  }

  /** Recording one more completed card changes only the statistics of the
      player it belongs to: that player's total grows by one and the correct
      count by one exactly when the record is correct. */
  lemma StatsAfterRecord(history: seq<HistoryRecord>, rec: HistoryRecord, p: string, scores: Option<map<string, int>>)
    ensures var before := StatsOf(p, history, scores);
      var after := StatsOf(p, history + [rec], scores);
      after.total == before.total + (if rec.player == p then 1 else 0) &&
      after.correct == before.correct + (if rec.player == p && rec.isCorrect then 1 else 0) &&
      after.score == before.score
  {
    PlayerHistoryAppend(history, rec, p);
    CountCorrectAppend(PlayerHistory(history, p), if rec.player == p then [rec] else []);
  }

  /** Euclidean division of `n` by a positive `d`: `d * q <= n < d * (q + 1)`. */
  lemma DivBounds(n: int, d: int)
    requires d > 0
    ensures d * (n / d) <= n < d * (n / d + 1)
  {
    assert n == d * (n / d) + n % d;
    assert d * (n / d + 1) == d * (n / d) + d;
  }

  /** A quotient is below `m` when the dividend is below `d * m`. */
  lemma DivBelow(n: int, d: int, m: int)
    requires d > 0 && n < d * m
    ensures n / d < m
  {
    DivBounds(n, d);
  }

  /** A quotient is at least `m` when the dividend is at least `d * m`. */
  lemma DivAtLeast(n: int, d: int, m: int)
    requires d > 0 && n >= d * m
    ensures n / d >= m
  {
    DivBounds(n, d);
  }

  /** Accuracy is the nearest integer to 100 * correct / total (halves
      round up), 0 for no cards, and lies in 0..100 whenever the correct
      count does not exceed the total. */
  lemma AccuracyBounds(correct: int, total: int)
    requires 0 <= correct <= total
    ensures var a := Accuracy(correct, total);
      0 <= a <= 100 &&
      (total > 0 ==> 2 * total * a <= 200 * correct + total < 2 * total * (a + 1)) &&
      (correct == total && total > 0 ==> a == 100) &&
      (correct == 0 ==> a == 0)
  {
    if total > 0 {
      var n, d := 200 * correct + total, 2 * total;
      DivBounds(n, d);
      DivBelow(n, d, 101);
      DivAtLeast(n, d, 0);
      if correct == total {
        DivAtLeast(n, d, 100);
      }
      if correct == 0 {
        DivBelow(n, d, 1);
      }
    }
  }

  /** Every entry of a pair game has correct <= total <= |history| and an
      accuracy in 0..100. */
  lemma PairStatsBounded(s: Snapshot, sel: SelectorValues, i: int)
    requires s.gameMode != Some(Individual) && s.players.Some?
    requires 0 <= i < |s.players.value|
    ensures var e := GetPlayerStats(s, sel)[i];
      0 <= e.correct <= e.total &&
      e.total <= (if s.gameHistory.Some? then |s.gameHistory.value| else 0) &&
      0 <= e.accuracy <= 100
  {
    var e := GetPlayerStats(s, sel)[i];
    AccuracyBounds(e.correct, e.total);
  }

  // ---------------------------------------------------------------------
  // Properties of the winner
  // ---------------------------------------------------------------------

  /** The reduce from position `i` on, where `stats[b]` is the entry kept so
      far (a maximum of `stats[..i]` beaten by nothing after it), ends on the
      last maximum of the whole list. */
  lemma {:induction false} ReduceFindsLastMaximum(stats: seq<PlayerStats>, b: nat, i: nat) returns (k: nat)
    requires b < i <= |stats|
    requires forall j :: 0 <= j < i ==> stats[j].score <= stats[b].score
    requires forall j :: b < j < i ==> stats[j].score < stats[b].score
    ensures k < |stats| && Reduce(stats[b], stats[i..]) == stats[k]
    ensures forall j :: 0 <= j < |stats| ==> stats[j].score <= stats[k].score
    ensures forall j :: k < j < |stats| ==> stats[j].score < stats[k].score
    decreases |stats| - i
  {
    if i == |stats| {
      k := b;
    } else {
      var rest := stats[i..];
      assert rest[0] == stats[i] && rest[1..] == stats[i + 1..];
      if stats[b].score > stats[i].score {
        assert Reduce(stats[b], rest) == Reduce(stats[b], stats[i + 1..]);
        assert forall j :: b < j < i + 1 ==> stats[j].score < stats[b].score;
        k := ReduceFindsLastMaximum(stats, b, i + 1);
      } else {
        assert Reduce(stats[b], rest) == Reduce(stats[i], stats[i + 1..]);
        assert forall j :: 0 <= j < i + 1 ==> stats[j].score <= stats[i].score;
        k := ReduceFindsLastMaximum(stats, i, i + 1);
      }
    }
  }

  /** The winner of a non-empty list is the entry at some position `k`
      whose score is at least every entry's score, and every later entry
      scores strictly less: on a tie the later entry wins. */
  lemma WinnerIsLastMaximum(stats: seq<PlayerStats>) returns (k: nat)
    requires stats != []
    ensures k < |stats| && Winner(stats) == Some(stats[k])
    ensures forall j :: 0 <= j < |stats| ==> stats[j].score <= stats[k].score
    ensures forall j :: k < j < |stats| ==> stats[j].score < stats[k].score
  {
    k := ReduceFindsLastMaximum(stats, 0, 1);
  }

  /** The winner of a non-empty list has the maximum score. */
  lemma WinnerHasMaximumScore(stats: seq<PlayerStats>)
    ensures Winner(stats).Some? ==>
      Winner(stats).value in stats &&
      forall e :: e in stats ==> e.score <= Winner(stats).value.score
  {
    if stats != [] {
      var k := WinnerIsLastMaximum(stats);
    }
  }
}
