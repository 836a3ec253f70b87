/**
 * Scoring at the end of a round: each player pays the points of the cards
 * left in hand, the holder of the asken (the last to pass) pays fifty more,
 * and the round is won by everyone with the lowest round total.
 */
module Scoring {
  import opened Options
  import opened Seqs
  import opened Cards
  import opened Players

  const AskenPenalty: nat := 50

  /** The score at which a full game ends. */
  const GameTarget: nat := 500

  /** One line of the round's score sheet. */
  datatype RoundScore = RoundScore(playerId: string, name: string, cardPoints: nat, askenPoints: nat, roundTotal: nat)

  function AskenPoints(p: Player, asken: Option<string>): nat {
    if asken == Some(p.id) then AskenPenalty else 0
  }

  function RoundTotal(p: Player, asken: Option<string>): nat {
    HandPoints(p.hand) + AskenPoints(p, asken)
  }

  function ScoreLine(p: Player, asken: Option<string>): RoundScore {
    RoundScore(p.id, p.name, HandPoints(p.hand), AskenPoints(p, asken), RoundTotal(p, asken))
  }

  /** The score sheet, one line per seat in seat order. */
  function ScoreLines(ps: seq<Player>, asken: Option<string>): seq<RoundScore> {
    seq(|ps|, i requires 0 <= i < |ps| => ScoreLine(ps[i], asken))
  }

  /** The seats after the round total is added to each score. */
  function CreditAll(ps: seq<Player>, asken: Option<string>): seq<Player> {
    seq(|ps|, i requires 0 <= i < |ps| => ps[i].(score := ps[i].score + RoundTotal(ps[i], asken)))
  }

  /** The lowest round total on the sheet; `None` for an empty sheet, where `Math.min` gives infinity. */
  function LowestTotal(lines: seq<RoundScore>): Option<nat> {
    if lines == [] then None
    else
      match LowestTotal(lines[1..])
      case None => Some(lines[0].roundTotal)
      case Some(m) => Some(if lines[0].roundTotal <= m then lines[0].roundTotal else m)
  }

  /** The lowest total exists for a non-empty sheet, is no more than any line's total, and is some line's total. */
  lemma {:induction false} LowestTotalIsLowest(lines: seq<RoundScore>)
    ensures LowestTotal(lines).Some? <==> lines != []
    ensures LowestTotal(lines).Some? ==> forall l :: l in lines ==> LowestTotal(lines).value <= l.roundTotal
    ensures LowestTotal(lines).Some? ==> exists l :: l in lines && l.roundTotal == LowestTotal(lines).value
  {
    if lines != [] {
      LowestTotalIsLowest(lines[1..]);
      assert forall l :: l in lines ==> l == lines[0] || l in lines[1..];
    }
  }

  function PlayerIds(ps: seq<Player>): seq<string> {
    seq(|ps|, i requires 0 <= i < |ps| => ps[i].id)
  }

  function LineIds(lines: seq<RoundScore>): seq<string> {
    seq(|lines|, i requires 0 <= i < |lines| => lines[i].playerId)
  }

  /** The ids on the sheet whose round total is the lowest. */
  function LowestIds(lines: seq<RoundScore>): seq<string> {
    LineIds(Filter(lines, (l: RoundScore) => Some(l.roundTotal) == LowestTotal(lines)))
  }

  /** The seats, in seat order, whose id is one of `ids`. */
  function SeatsAmong(ps: seq<Player>, ids: seq<string>): seq<Player> {
    Filter(ps, (p: Player) => p.id in ids)
  }

  /** The ids of the seats, in seat order, whose id is one of `ids`. */
  function IdsAmong(ps: seq<Player>, ids: seq<string>): seq<string> {
    PlayerIds(SeatsAmong(ps, ids))
  }

  /** The round's winners, in seat order, as the seats whose id is among the lowest. */
  function RoundWinners(ps: seq<Player>, asken: Option<string>): seq<string> {
    IdsAmong(ps, LowestIds(ScoreLines(ps, asken)))
  }

  /**
   * The winners as the room keeps them: the seats, with their scores already
   * credited, whose id is among the lowest round totals.
   */
  function Winners(ps: seq<Player>, asken: Option<string>): seq<Player> {
    SeatsAmong(CreditAll(ps, asken), LowestIds(ScoreLines(ps, asken)))
  }

  ghost predicate IdsDistinct(ps: seq<Player>) {
    forall i, j :: 0 <= i < j < |ps| ==> ps[i].id != ps[j].id
  }

  /** A lowest-total line is exactly a line whose total is no more than any seat's. */
  lemma LowestLine(ps: seq<Player>, asken: Option<string>, i: nat)
    requires i < |ps|
    ensures var lines := ScoreLines(ps, asken);
      Some(lines[i].roundTotal) == LowestTotal(lines) <==>
      forall j :: 0 <= j < |ps| ==> RoundTotal(ps[i], asken) <= RoundTotal(ps[j], asken)
  {
    var lines := ScoreLines(ps, asken);
    LowestTotalIsLowest(lines);
    if Some(lines[i].roundTotal) == LowestTotal(lines) {
      forall j | 0 <= j < |ps| ensures RoundTotal(ps[i], asken) <= RoundTotal(ps[j], asken) {
        assert lines[j] in lines;
      }
    }
    if forall j :: 0 <= j < |ps| ==> RoundTotal(ps[i], asken) <= RoundTotal(ps[j], asken) {
      assert lines[i] in lines;
      var l :| l in lines && l.roundTotal == LowestTotal(lines).value;
      var j :| 0 <= j < |lines| && lines[j] == l;
    }
  }

  /** A winner's id belongs to a seat with a lowest total. */
  lemma WinnerIsLowest(ps: seq<Player>, asken: Option<string>, i: nat)
    requires IdsDistinct(ps) && i < |ps| && ps[i].id in RoundWinners(ps, asken)
    ensures forall j :: 0 <= j < |ps| ==> RoundTotal(ps[i], asken) <= RoundTotal(ps[j], asken)
  {
    var lines := ScoreLines(ps, asken);
    var best := Filter(lines, (l: RoundScore) => Some(l.roundTotal) == LowestTotal(lines));
    FilterMembers(lines, (l: RoundScore) => Some(l.roundTotal) == LowestTotal(lines));
    var ids := LineIds(best);
    var winners := Filter(ps, (p: Player) => p.id in ids);
    FilterMembers(ps, (p: Player) => p.id in ids);
    var w :| 0 <= w < |winners| && winners[w].id == ps[i].id;
    assert winners[w] in winners;
    var k :| 0 <= k < |best| && best[k].playerId == ps[i].id;
    assert best[k] in best;
    var j :| 0 <= j < |lines| && lines[j] == best[k];
    assert j == i;
    LowestLine(ps, asken, i);
  }

  /** A seat with a lowest total is among the winners. */
  lemma LowestIsWinner(ps: seq<Player>, asken: Option<string>, i: nat)
    requires i < |ps|
    requires forall j :: 0 <= j < |ps| ==> RoundTotal(ps[i], asken) <= RoundTotal(ps[j], asken)
    ensures ps[i].id in RoundWinners(ps, asken)
  {
    var lines := ScoreLines(ps, asken);
    LowestLine(ps, asken, i);
    var best := Filter(lines, (l: RoundScore) => Some(l.roundTotal) == LowestTotal(lines));
    FilterMembers(lines, (l: RoundScore) => Some(l.roundTotal) == LowestTotal(lines));
    assert lines[i] in best;
    var k :| 0 <= k < |best| && best[k] == lines[i];
    var ids := LineIds(best);
    assert ids[k] == ps[i].id;
    var winners := Filter(ps, (p: Player) => p.id in ids);
    FilterMembers(ps, (p: Player) => p.id in ids);
    assert ps[i] in winners;
    var w :| 0 <= w < |winners| && winners[w] == ps[i];
    assert PlayerIds(winners)[w] == ps[i].id;
  }

  /**
   * With distinct ids, a seat is among the winners exactly when no seat has a
   * lower round total.
   */
  lemma WinnersAreLowest(ps: seq<Player>, asken: Option<string>, i: nat)
    requires IdsDistinct(ps) && i < |ps|
    ensures ps[i].id in RoundWinners(ps, asken) <==> forall j :: 0 <= j < |ps| ==> RoundTotal(ps[i], asken) <= RoundTotal(ps[j], asken)
  {
    if ps[i].id in RoundWinners(ps, asken) {
      WinnerIsLowest(ps, asken, i);
    }
    if forall j :: 0 <= j < |ps| ==> RoundTotal(ps[i], asken) <= RoundTotal(ps[j], asken) {
      LowestIsWinner(ps, asken, i);
    }
  }

  /** Someone always wins a round that has players. */
  lemma WinnersNonEmpty(ps: seq<Player>, asken: Option<string>)
    requires ps != []
    ensures RoundWinners(ps, asken) != []
  {
    var lines := ScoreLines(ps, asken);
    var low := LowestTotal(lines);
    LowestTotalIsLowest(lines);
    var pass := (l: RoundScore) => Some(l.roundTotal) == LowestTotal(lines);
    FilterMembers(lines, pass);
    var l :| l in lines && l.roundTotal == low.value;
    var best := Filter(lines, pass);
    assert l in best;
    var k :| 0 <= k < |best| && best[k] == l;
    var ids := LineIds(best);
    assert ids[k] in ids;
    var j :| 0 <= j < |lines| && lines[j] == l;
    var keep := (p: Player) => p.id in ids;
    FilterMembers(ps, keep);
    assert ps[j] in Filter(ps, keep);
  }

  function SumTotals(lines: seq<RoundScore>): nat {
    if lines == [] then 0 else lines[0].roundTotal + SumTotals(lines[1..])
  }

  function SumHandPoints(ps: seq<Player>): nat {
    if ps == [] then 0 else HandPoints(ps[0].hand) + SumHandPoints(ps[1..])
  }

  predicate HoldsAsken(ps: seq<Player>, asken: Option<string>) {
    asken.Some? && exists p :: p in ps && p.id == asken.value
  }

  /**
   * With distinct ids, the round hands out the points of every card still
   * held, plus one asken penalty if the holder is still at the table.
   */
  lemma {:induction false} RoundPointsAddUp(ps: seq<Player>, asken: Option<string>)
    requires IdsDistinct(ps)
    ensures SumTotals(ScoreLines(ps, asken)) ==
            SumHandPoints(ps) + (if HoldsAsken(ps, asken) then AskenPenalty else 0)
  {
    if ps != [] {
      assert ScoreLines(ps, asken)[1..] == ScoreLines(ps[1..], asken);
      RoundPointsAddUp(ps[1..], asken);
      if asken == Some(ps[0].id) {
        assert !HoldsAsken(ps[1..], asken) by {
          forall p | p in ps[1..] ensures p.id != ps[0].id {
            var j :| 0 <= j < |ps[1..]| && ps[1..][j] == p;
            assert ps[j + 1] == p;
          }
        }
      } else {
        assert HoldsAsken(ps, asken) <==> HoldsAsken(ps[1..], asken) by {
          assert forall p :: p in ps ==> p == ps[0] || p in ps[1..];
        }
      }
    }
  }

  /** The game is over in quick mode, or once some score reaches the target. */
  predicate GameOver(mode: string, ps: seq<Player>) {
    mode == "quick" || exists p :: p in ps && p.score >= GameTarget
  }

  /** Scores only grow, so a finished game stays finished after another round's scoring. */
  lemma GameOverStays(mode: string, ps: seq<Player>, asken: Option<string>)
    requires GameOver(mode, ps)
    ensures GameOver(mode, CreditAll(ps, asken))
  {
    if mode != "quick" {
      var p :| p in ps && p.score >= GameTarget;
      var i :| 0 <= i < |ps| && ps[i] == p;
      assert CreditAll(ps, asken)[i] in CreditAll(ps, asken);
    }
  }

  /**
   * Crediting scores changes no id, so picking seats by id picks the same ids
   * before and after.
   */
  lemma {:induction false} CreditedIds(ps: seq<Player>, asken: Option<string>, ids: seq<string>)
    ensures IdsAmong(CreditAll(ps, asken), ids) == IdsAmong(ps, ids)
  {
    if ps != [] {
      var credited := CreditAll(ps, asken);
      assert credited[1..] == CreditAll(ps[1..], asken);
      CreditedIds(ps[1..], asken, ids);
      var keep := (p: Player) => p.id in ids;
      var a, b := Filter(credited[1..], keep), Filter(ps[1..], keep);
      assert credited[0].id == ps[0].id;
      if ps[0].id in ids {
        assert Filter(credited, keep) == [credited[0]] + a;
        assert Filter(ps, keep) == [ps[0]] + b;
        assert PlayerIds([credited[0]] + a) == [ps[0].id] + PlayerIds(a);
        assert PlayerIds([ps[0]] + b) == [ps[0].id] + PlayerIds(b);
      } else {
        assert Filter(credited, keep) == a;
        assert Filter(ps, keep) == b;
      }
    }
  }

  /** The winners kept after crediting are the seats picked before crediting, id for id. */
  lemma WinnersIds(ps: seq<Player>, asken: Option<string>)
    ensures PlayerIds(Winners(ps, asken)) == RoundWinners(ps, asken)
  {
    CreditedIds(ps, asken, LowestIds(ScoreLines(ps, asken)));
  }
}
