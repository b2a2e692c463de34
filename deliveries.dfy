/** Deliveries and overs: the pure part of models.py (Ball, Over and their
    computed properties). */
module Deliveries {
  import opened Common

  datatype ExtraType = Wide | NoBall | Bye | LegBye

  datatype WicketType = Bowled | Caught | Lbw | RunOut | Stumped | HitWicket | Retired

  /** One delivery as recorded by the scorer. `prevStriker` and `prevNonStriker`
      keep the batting pair as it stood before the ball, for undo. */
  datatype Ball = Ball(
    runs: int,
    isWicket: bool,
    wicketType: Option<WicketType>,
    dismissedPlayer: Option<string>,
    extraType: Option<ExtraType>,
    extraRuns: int,
    bowler: string,
    prevStriker: Option<string>,
    prevNonStriker: Option<string>)

  /** Runs off the bat plus extras: what the batting side is credited with. */
  function TotalRuns(b: Ball): int
  {
    b.runs + b.extraRuns
  }

  /** Wides and no-balls have to be bowled again; every other ball counts. */
  predicate IsLegalDelivery(b: Ball)
  {
    b.extraType != Some(Wide) && b.extraType != Some(NoBall)
  }

  datatype Over = Over(overNumber: int, bowler: string, balls: seq<Ball>)

  /** Runs conceded in a run of balls (Over.runs). */
  function Runs(balls: seq<Ball>): int
    decreases |balls|
  {
    if |balls| == 0 then 0 else TotalRuns(balls[0]) + Runs(balls[1..])
  }

  /** Wickets that fell in a run of balls (Over.wickets). */
  function Wickets(balls: seq<Ball>): (n: nat)
    ensures n <= |balls|
    decreases |balls|
  {
    if |balls| == 0 then 0 else (if balls[0].isWicket then 1 else 0) + Wickets(balls[1..])
  }

  /** Legal deliveries in a run of balls (Over.legal_balls). */
  function LegalBalls(balls: seq<Ball>): (n: nat)
    ensures n <= |balls|
    decreases |balls|
  {
    if |balls| == 0 then 0 else (if IsLegalDelivery(balls[0]) then 1 else 0) + LegalBalls(balls[1..])
  }

  /** An over is over once six legal balls have been bowled in it. */
  predicate IsComplete(o: Over)
  {
    LegalBalls(o.balls) >= 6
  }

  lemma {:induction false} RunsAppend(balls: seq<Ball>, b: Ball)
    ensures Runs(balls + [b]) == Runs(balls) + TotalRuns(b)
    decreases |balls|
  {
    if |balls| > 0 {
      assert (balls + [b])[1..] == balls[1..] + [b];
      RunsAppend(balls[1..], b);
    }
  }

  lemma {:induction false} WicketsAppend(balls: seq<Ball>, b: Ball)
    ensures Wickets(balls + [b]) == Wickets(balls) + (if b.isWicket then 1 else 0)
    decreases |balls|
  {
    if |balls| > 0 {
      assert (balls + [b])[1..] == balls[1..] + [b];
      WicketsAppend(balls[1..], b);
    }
  }

  lemma {:induction false} LegalBallsAppend(balls: seq<Ball>, b: Ball)
    ensures LegalBalls(balls + [b]) == LegalBalls(balls) + (if IsLegalDelivery(b) then 1 else 0)
    decreases |balls|
  {
    if |balls| > 0 {
      assert (balls + [b])[1..] == balls[1..] + [b];
      LegalBallsAppend(balls[1..], b);
    }
  }

  /** Every ball of an over counts towards its six exactly when none of
      them is a wide or a no-ball. */
  lemma {:induction false} LegalBallsAll(balls: seq<Ball>)
    ensures LegalBalls(balls) == |balls| <==> forall i :: 0 <= i < |balls| ==> IsLegalDelivery(balls[i])
    decreases |balls|
  {
    if |balls| > 0 {
      LegalBallsAll(balls[1..]);
      if forall i :: 0 <= i < |balls| ==> IsLegalDelivery(balls[i]) {
        assert forall i :: 0 <= i < |balls[1..]| ==> IsLegalDelivery(balls[1..][i]);
      } else if IsLegalDelivery(balls[0]) {
        var i :| 0 <= i < |balls| && !IsLegalDelivery(balls[i]);
        assert !IsLegalDelivery(balls[1..][i - 1]);
      }
    }
  }

  /** Adding a ball to an unfinished over finishes it exactly when the ball is
      the sixth legal delivery; a wide or no-ball never finishes an over. */
  lemma CompletingBall(o: Over, b: Ball)
    requires !IsComplete(o)
    ensures IsComplete(o.(balls := o.balls + [b])) <==> IsLegalDelivery(b) && LegalBalls(o.balls) == 5
  {
    LegalBallsAppend(o.balls, b);
  }

  /** One summary token per ball: W, Wd{extra runs}, Nb{total}, {total}b or the bat runs. */
  function BallToken(b: Ball): string
  {
    if b.isWicket then "W"
    else if b.extraType == Some(Wide) then "Wd" + IntToString(b.extraRuns)
    else if b.extraType == Some(NoBall) then "Nb" + IntToString(TotalRuns(b))
    else if b.extraType == Some(Bye) || b.extraType == Some(LegBye) then IntToString(TotalRuns(b)) + "b"
    else IntToString(b.runs)
  }

  /** One token per ball, each free of the space that separates them. */
  function Tokens(balls: seq<Ball>): (r: seq<string>)
    ensures |r| == |balls|
    ensures forall i :: 0 <= i < |r| ==> Free(r[i], ' ')
  {
    TokensHaveNoSpace(balls);
    seq(|balls|, i requires 0 <= i < |balls| => BallToken(balls[i]))
  }

  lemma TokensHaveNoSpace(balls: seq<Ball>)
    ensures forall i :: 0 <= i < |balls| ==> Free(BallToken(balls[i]), ' ')
  {
    forall i | 0 <= i < |balls| {
      TokenHasNoSpace(balls[i]);
    }
  }

  /** Over.summary: the tokens of the over's balls separated by single spaces. */
  function Summary(o: Over): string
  {
    Join(" ", Tokens(o.balls))
  }

  lemma TokenHasNoSpace(b: Ball)
    ensures Free(BallToken(b), ' ')
  {
    IntToStringHasNo(b.extraRuns, ' ');
    IntToStringHasNo(TotalRuns(b), ' ');
    IntToStringHasNo(b.runs, ' ');
  }

  /** The summary of a non-empty over splits back into exactly one token per ball,
      in bowling order. */
  lemma SummaryTokens(o: Over)
    requires |o.balls| > 0
    ensures Split(Summary(o), ' ') == Tokens(o.balls)
    ensures |Split(Summary(o), ' ')| == |o.balls|
  {
    SplitJoin(Tokens(o.balls), ' ');
  }
}
