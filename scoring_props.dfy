/** What the Match bookkeeping guarantees: the invariant is kept by every
    operation, and add_ball / undo_last_ball / set_toss / set_new_batter /
    _end_innings / _determine_winner do what a scorer expects of them. */
module ScoringProperties {
  import opened Common
  import opened Deliveries
  import opened Scoring

  // ------------------------------------------------------------ ball counts

  lemma {:induction false} BallCountAppend(overs: seq<Over>, o: Over)
    ensures BallCount(overs + [o]) == BallCount(overs) + |o.balls|
    decreases |overs|
  {
    if |overs| > 0 {
      assert (overs + [o])[1..] == overs[1..] + [o];
      BallCountAppend(overs[1..], o);
    }
  }

  /** Every recorded ball sits in some over: no balls in the overs means
      every over is empty. */
  lemma {:induction false} BallCountZero(overs: seq<Over>)
    ensures BallCount(overs) == 0 <==> forall i :: 0 <= i < |overs| ==> overs[i].balls == []
    decreases |overs|
  {
    if |overs| > 0 {
      BallCountZero(overs[1..]);
      if BallCount(overs) == 0 {
        forall i | 0 <= i < |overs| ensures overs[i].balls == [] {
          if i > 0 { assert overs[i] == overs[1..][i - 1]; }
        }
      }
    }
  }

  /** Replacing the last over changes the count by the difference in its balls. */
  lemma ReplaceLastOver(overs: seq<Over>, o: Over)
    requires |overs| > 0
    ensures BallCount(overs[..|overs| - 1] + [o]) == BallCount(overs) - |overs[|overs| - 1].balls| + |o.balls|
  {
    var front := overs[..|overs| - 1];
    assert overs == front + [overs[|overs| - 1]];
    BallCountAppend(front, overs[|overs| - 1]);
    BallCountAppend(front, o);
  }

  /** What both versions of undo_last_ball need in order to find the last
      ball: the batting side is set and an empty last over follows one that
      has balls. */
  predicate Steppable(s: State)
  {
    HasBallToUndo(s) ==> s.batting.Some? && FindsBall(s)
  }

  /** Under the invariant, a match has a ball to undo exactly when some ball
      is recorded in its overs. */
  lemma HasBallToUndoIffBalls(s: State)
    requires Steppable(s)
    ensures HasBallToUndo(s) <==> BallCount(s.overs) > 0
  {
    BallCountZero(s.overs);
    if HasBallToUndo(s) && LastOver(s).balls == [] {
      assert s.overs[|s.overs| - 2].balls != [];
    } else if HasBallToUndo(s) {
      assert LastOver(s).balls != [];
    }
  }

  // ------------------------------------------------------------ the invariant

  lemma NewMatchWellFormed(team1Name: string, team2Name: string, totalOvers: int)
    ensures WellFormed(NewMatch(team1Name, team2Name, totalOvers))
    ensures !NewMatch(team1Name, team2Name, totalOvers).isStarted
  {
  }

  lemma AddPlayerWellFormed(s: State, name: string, team: string)
    requires WellFormed(s)
    ensures WellFormed(AddPlayer(s, name, team))
  {
    WellFormedFrame(s, AddPlayer(s, name, team));
  }

  lemma SetTossWellFormed(s: State, winner: string, decision: string)
    requires WellFormed(s)
    ensures WellFormed(SetToss(s, winner, decision))
  {
  }

  lemma StartInningsWellFormed(s: State, striker: string, nonStriker: string, bowler: string)
    requires WellFormed(s)
    ensures WellFormed(StartInnings(s, striker, nonStriker, bowler))
  {
    BowledByAppend(s.overs, Over(1, bowler, []), s.players);
  }

  lemma StartSecondInningsWellFormed(s: State, striker: string, nonStriker: string, bowler: string)
    requires WellFormed(s)
    ensures WellFormed(StartSecondInnings(s, striker, nonStriker, bowler).0)
  {
  }

  lemma SetNewBowlerWellFormed(s: State, bowler: string)
    requires WellFormed(s)
    ensures WellFormed(SetNewBowler(s, bowler))
  {
    BowledByAppend(s.overs, Over(s.currentOver, bowler, []), s.players);
    BallCountAppend(s.overs, Over(s.currentOver, bowler, []));
  }

  lemma SetNewBatterWellFormed(s: State, batter: string)
    requires WellFormed(s)
    ensures WellFormed(SetNewBatter(s, batter))
  {
    WellFormedFrame(s, SetNewBatter(s, batter));
  }

  /** A step that leaves the overs alone, keeps every registered player and
      keeps the team and partnership links in order keeps the invariant. */
  lemma WellFormedFrame(s: State, r: State)
    requires WellFormed(s)
    requires r.overs == s.overs && Retains(s.players, r.players) && r.isStarted == s.isStarted
    requires (r.batting.Some? <==> r.bowling.Some?) && (r.batting.Some? ==> r.batting.value != r.bowling.value)
    requires r.partnerships != [] ==> r.currentPartnership == Some(r.partnerships[|r.partnerships| - 1])
    requires r.isStarted ==> r.currentPartnership.Some?
    ensures WellFormed(r)
  {
    BowledByMore(s.overs, s.players, r.players);
  }

  lemma AppendBallWellFormed(s: State, b: Ball)
    requires WellFormed(s) && s.isStarted && |s.overs| > 0 && b.bowler in s.players
    ensures WellFormed(AppendBall(s, b))
  {
    var last := LastOver(s);
    BowledByTrim(s.overs, s.players, 0);
    BowledByAppend(s.overs[..|s.overs| - 1], last.(balls := last.balls + [b]), s.players);
  }

  /** The three crediting steps of add_ball keep the invariant. */
  lemma StepsWellFormed(t1: State, b: Ball)
    requires WellFormed(t1) && Scorable(t1)
    ensures var t4 := RecordWicket(CreditRuns(FaceBall(t1, b), b), b); WellFormed(t4) && Scorable(t4)
  {
    var t2 := FaceBall(t1, b);
    FaceBallKeeps(t1, b);
    KeepsWellFormed(t1, t2);
    var t3 := CreditRuns(t2, b);
    CreditRunsKeeps(t2, b);
    KeepsWellFormed(t2, t3);
    RecordWicketKeeps(t3, b);
    KeepsWellFormed(t3, RecordWicket(t3, b));
  }

  /** An add_ball step that keeps what Keeps names keeps the invariant. */
  lemma KeepsWellFormed(s: State, r: State)
    requires WellFormed(s) && Keeps(s, r)
    ensures WellFormed(r)
  {
    WellFormedFrame(s, r);
  }

  lemma DeliveredWellFormed(s: State, b: Ball)
    requires WellFormed(s) && Scorable(s) && s.isStarted && b.bowler in s.players
    ensures WellFormed(Credited(s, b)) && WellFormed(Delivered(s, b))
  {
    StepsWellFormed(s, b);
    var t4 := RecordWicket(CreditRuns(FaceBall(s, b), b), b);
    assert Credited(s, b) == RotateStrike(t4, b);
    WellFormedFrame(t4, RotateStrike(t4, b));
    AppendBallWellFormed(Credited(s, b), b);
  }

  lemma EndInningsWellFormed(s: State)
    requires WellFormed(s) && s.batting.Some? && s.isStarted
    ensures WellFormed(EndInnings(s)) && EndInnings(s).isStarted
  {
    WellFormedFrame(s, EndInnings(s));
  }

  lemma CompleteOverWellFormed(s: State)
    requires WellFormed(s) && Registered(s, s.bowler) && s.batting.Some? && s.isStarted
    ensures WellFormed(CompleteOver(s)) && CompleteOver(s).isStarted
  {
    var t := CreditOver(s);
    WellFormedFrame(s, t);
    WellFormedFrame(t, SwapEnds(t));
    t := SwapEnds(t);
    WellFormedFrame(t, AdvanceOver(t));
    t := AdvanceOver(t);
    if InningsOver(t) {
      EndInningsWellFormed(t);
    }
  }

  lemma ConcludeWellFormed(d: State, isWicket: bool, dismissed: string)
    requires WellFormed(d) && d.isStarted && Registered(d, d.bowler) && d.batting.Some?
    ensures WellFormed(Conclude(d, isWicket, dismissed).0)
    ensures WellFormed(ConcludeFixed(d, isWicket, dismissed).0)
  {
    if IsComplete(LastOver(d)) {
      assert Conclude(d, isWicket, dismissed) == OverPath(d, isWicket, dismissed);
      assert ConcludeFixed(d, isWicket, dismissed) == OverPath(d, isWicket, dismissed);
      OverPathWellFormed(d, isWicket, dismissed);
    } else if isWicket && BattingTeam(d).wickets >= 10 {
      assert Conclude(d, isWicket, dismissed) == AllOut(d);
      assert ConcludeFixed(d, isWicket, dismissed) == AllOutFixed(d);
      AllOutWellFormed(d);
    } else if !isWicket {
      assert Conclude(d, isWicket, dismissed) == ChaseOrBall(d);
      assert ConcludeFixed(d, isWicket, dismissed) == ChaseOrBall(d);
      ChaseOrBallWellFormed(d);
    }
  }

  lemma OverPathWellFormed(d: State, isWicket: bool, dismissed: string)
    requires WellFormed(d) && d.isStarted && Registered(d, d.bowler) && d.batting.Some?
    ensures WellFormed(OverPath(d, isWicket, dismissed).0)
  {
    CompleteOverWellFormed(d);
    var c := CompleteOver(d);
    WellFormedFrame(c, c.(inningsJustEnded := false));
  }

  lemma AllOutWellFormed(d: State)
    requires WellFormed(d) && d.isStarted && d.batting.Some?
    ensures WellFormed(AllOut(d).0) && WellFormed(AllOutFixed(d).0)
  {
    EndInningsWellFormed(d);
    var e := EndInnings(d);
    WellFormedFrame(e, e.(inningsJustEnded := false));
  }

  lemma ChaseOrBallWellFormed(d: State)
    requires WellFormed(d) && d.batting.Some?
    ensures WellFormed(ChaseOrBall(d).0)
  {
    WellFormedFrame(d, DetermineWinner(d.(isFinished := true)));
  }

  lemma AddBallWellFormed(s: State, runs: int, isWicket: bool, wicketType: Option<WicketType>,
                          dismissedPlayer: Option<string>, extraType: Option<ExtraType>, extraRuns: int)
    requires WellFormed(s) && (s.isStarted ==> Scorable(s))
    ensures WellFormed(AddBall(s, runs, isWicket, wicketType, dismissedPlayer, extraType, extraRuns).0)
    ensures WellFormed(AddBallFixed(s, runs, isWicket, wicketType, dismissedPlayer, extraType, extraRuns).0)
  {
    if s.isStarted {
      var b := MakeBall(s, runs, isWicket, wicketType, dismissedPlayer, extraType, extraRuns);
      DeliveredWellFormed(s, b);
      ConcludeWellFormed(Delivered(s, b), isWicket, DismissedName(s, dismissedPlayer));
    }
  }

  lemma StepBackOverWellFormed(s: State)
    requires WellFormed(s) && |s.overs| > 1 && s.batting.Some?
    requires !s.isStarted ==> LastOver(s).balls == []
    ensures WellFormed(StepBackOver(s)) && StepBackOver(s).isStarted == s.isStarted
    ensures WellFormed(StepBackOverFixed(s))
  {
    BowledByTrim(s.overs, s.players, 0);
    BowledByMore(StepBackOver(s).overs, s.players, StepBackOver(s).players);
    if !s.isStarted {
      var front := s.overs[..|s.overs| - 1];
      assert s.overs == front + [LastOver(s)];
      BallCountAppend(front, LastOver(s));
    }
  }

  lemma ReverseBallEffectsFixedWellFormed(s: State, b: Ball)
    requires WellFormed(s) && s.isStarted && CanReverse(RotateStrike(s, b), b)
    ensures WellFormed(ReverseBallEffectsFixed(s, b))
  {
    var t0 := RotateStrike(s, b);
    RotateStrikeWellFormed(s, b);
    var t1 := TakeBackRuns(t0, b);
    WellFormedFrame(t0, t1);
    var t2 := TakeBackLegal(t1, b);
    WellFormedFrame(t1, t2);
    WellFormedFrame(t2, TakeBackWicket(t2, b));
  }

  lemma ReverseBallEffectsWellFormed(s: State, b: Ball)
    requires WellFormed(s) && s.isStarted && CanReverse(s, b)
    ensures WellFormed(ReverseBallEffects(s, b))
  {
    var t1 := TakeBackRuns(s, b);
    WellFormedFrame(s, t1);
    var t2 := TakeBackLegal(t1, b);
    WellFormedFrame(t1, t2);
    var t3 := TakeBackWicket(t2, b);
    WellFormedFrame(t2, t3);
    RotateStrikeWellFormed(t3, b);
  }

  /** Changing ends touches nothing the invariant speaks of. */
  lemma RotateStrikeWellFormed(s: State, b: Ball)
    requires WellFormed(s)
    ensures WellFormed(RotateStrike(s, b))
  {
    assert RotateStrike(s, b) == s.(striker := RotateStrike(s, b).striker, nonStriker := RotateStrike(s, b).nonStriker);
  }

  /** Stepping back to the over that holds the last ball keeps the
      invariant and every recorded ball. */
  lemma UndoSteps(s: State)
    requires WellFormed(s) && Steppable(s) && HasBallToUndo(s)
    ensures s.isStarted && BallCount(s.overs) > 0
    ensures LastOver(s).balls == [] ==> |s.overs| > 1
    ensures var t := StepToBall(s);
            WellFormed(t) && t.isStarted && BallCount(t.overs) == BallCount(s.overs)
  {
    HasBallToUndoIffBalls(s);
    if LastOver(s).balls == [] {
      StepBackOverWellFormed(s);
      DropEmptyOverCount(s.overs);
    }
  }

  /** The same with the corrected ball count, which the invariant does not
      speak of. */
  lemma UndoStepsFixed(s: State)
    requires WellFormed(s) && Steppable(s) && HasBallToUndo(s)
    ensures s.isStarted && BallCount(s.overs) > 0
    ensures var t := StepToBallFixed(s);
            WellFormed(t) && t.isStarted && BallCount(t.overs) == BallCount(s.overs)
  {
    UndoSteps(s);
    if LastOver(s).balls == [] {
      StepBackOverWellFormed(s);
    }
  }

  /** undo_last_ball, once it has reached a ball: the last ball is popped
      off the stepped state and its effects reversed. */
  lemma UndoReversesWritten(s: State)
    requires WellFormed(s) && Steppable(s) && HasBallToUndo(s) && Undoable(s)
    ensures var (u, b) := PopBall(StepToBall(s));
            CanReverse(u, b) && Undo(s) == (ReverseBallEffects(u, b), UndoResult(true, "Last ball undone successfully"))
  {
    UndoSteps(s);
  }

  lemma UndoReversesFixed(s: State)
    requires WellFormed(s) && Steppable(s) && HasBallToUndo(s) && UndoableFixed(s)
    ensures var (u, b) := PopBall(StepToBallFixed(s));
            CanReverse(RotateStrike(u, b), b) &&
            UndoFixed(s) == (ReverseBallEffectsFixed(u, b), UndoResult(true, "Last ball undone successfully"))
  {
    UndoStepsFixed(s);
  }

  /** The corrected undo, once it has reached a ball, gathered into the facts
      a step-by-step implementation needs at each step. */
  lemma UndoFixedFound(s: State)
    requires WellFormed(s) && UndoableFixed(s) && HasBallToUndo(s) && FindsBall(s)
    ensures Steppable(s)
    ensures var t := StepToBallFixed(s);
            |t.overs| > 0 && LastOver(t).balls != [] && BowledBy(t.overs, t.players) &&
            var (u, b) := PopBall(t);
            CanReverse(RotateStrike(u, b), b) && WellFormed(ReverseBallEffectsFixed(u, b)) &&
            UndoFixed(s) == (ReverseBallEffectsFixed(u, b), UndoResult(true, "Last ball undone successfully"))
  {
    UndoStepsFixed(s);
    UndoReversesFixed(s);
    var (u, b) := PopBall(StepToBallFixed(s));
    assert WellFormed(u);
    ReverseBallEffectsFixedWellFormed(u, b);
  }

  /** On the IndexError path both versions leave the match stepped back over
      the empty last over, still well formed. */
  lemma UndoRaisedWellFormed(s: State)
    requires WellFormed(s) && HasBallToUndo(s) && s.batting.Some? && !FindsBall(s)
    ensures |s.overs| > 1 && WellFormed(StepBackOver(s)) && WellFormed(StepBackOverFixed(s))
  {
    StepBackOverWellFormed(s);
  }

  /** The corrected undo when there is nothing to undo. */
  lemma UndoFixedRefuses(s: State)
    requires WellFormed(s) && UndoableFixed(s) && !HasBallToUndo(s)
    ensures UndoFixed(s) == (s, UndoResult(false, "No balls to undo"))
  {
  }

  /** The corrected undo on the IndexError path. */
  lemma UndoFixedRaised(s: State)
    requires WellFormed(s) && UndoableFixed(s) && HasBallToUndo(s) && !FindsBall(s)
    ensures |s.overs| > 1 && UndoFixed(s) == (StepBackOverFixed(s), UndoRaised)
    ensures WellFormed(StepBackOverFixed(s))
  {
    UndoRaisedWellFormed(s);
  }

  lemma UndoWellFormed(s: State)
    requires WellFormed(s)
    ensures Undoable(s) ==> WellFormed(Undo(s).0)
    ensures UndoableFixed(s) ==> WellFormed(UndoFixed(s).0)
  {
    if Undoable(s) {
      UndoWellFormedWritten(s);
    }
    if UndoableFixed(s) {
      UndoWellFormedFixed(s);
    }
  }

  lemma UndoWellFormedWritten(s: State)
    requires WellFormed(s) && Undoable(s)
    ensures WellFormed(Undo(s).0)
  {
    if HasBallToUndo(s) && !FindsBall(s) {
      UndoRaisedWellFormed(s);
    } else if HasBallToUndo(s) {
      UndoSteps(s);
      UndoReversesWritten(s);
      var (u, b) := PopBall(StepToBall(s));
      assert WellFormed(u);
      ReverseBallEffectsWellFormed(u, b);
    }
  }

  lemma UndoWellFormedFixed(s: State)
    requires WellFormed(s) && UndoableFixed(s)
    ensures WellFormed(UndoFixed(s).0)
  {
    if HasBallToUndo(s) && !FindsBall(s) {
      UndoRaisedWellFormed(s);
    } else if HasBallToUndo(s) {
      UndoFixedFound(s);
    }
  }

  /** The replies of undo_last_ball and what each leaves behind. It refuses
      exactly when no over holds a ball where it looks (no over, or one
      empty over), and a refusal changes nothing. It raises exactly when it
      steps back over an empty last over onto an empty over: then the match
      is left stepped back, every recorded ball still there. Otherwise it
      succeeds and takes away exactly one ball. */
  predicate UndoReplies(s: State, r: (State, UndoResult))
  {
    (r == (s, UndoResult(false, "No balls to undo")) <==> !HasBallToUndo(s)) &&
    (!HasBallToUndo(s) ==> BallCount(s.overs) == 0) &&
    (r.1 == UndoRaised <==> HasBallToUndo(s) && !FindsBall(s)) &&
    (r.1 == UndoRaised ==> BallCount(r.0.overs) == BallCount(s.overs) && |r.0.overs| == |s.overs| - 1) &&
    (r.1 == UndoResult(true, "Last ball undone successfully") <==> HasBallToUndo(s) && FindsBall(s)) &&
    (r.1 == UndoResult(true, "Last ball undone successfully") ==>
       BallCount(s.overs) > 0 && BallCount(r.0.overs) == BallCount(s.overs) - 1)
  }

  /** Both versions of undo_last_ball keep to UndoReplies. */
  lemma UndoOutcome(s: State)
    requires WellFormed(s)
    ensures Undoable(s) ==> UndoReplies(s, Undo(s))
    ensures UndoableFixed(s) ==> UndoReplies(s, UndoFixed(s))
  {
    if Undoable(s) {
      UndoOutcomeWritten(s);
    }
    if UndoableFixed(s) {
      UndoOutcomeFixed(s);
    }
  }

  lemma UndoOutcomeWritten(s: State)
    requires WellFormed(s) && Undoable(s)
    ensures UndoReplies(s, Undo(s))
  {
    BallCountZero(s.overs);
    if !HasBallToUndo(s) {
      assert Undo(s) == (s, UndoResult(false, "No balls to undo"));
    } else if !FindsBall(s) {
      DropEmptyOverCount(s.overs);
      assert Undo(s).1 == UndoRaised;
    } else {
      UndoSucceedsWritten(s);
    }
  }

  lemma UndoOutcomeFixed(s: State)
    requires WellFormed(s) && UndoableFixed(s)
    ensures UndoReplies(s, UndoFixed(s))
  {
    BallCountZero(s.overs);
    if !HasBallToUndo(s) {
      assert UndoFixed(s) == (s, UndoResult(false, "No balls to undo"));
    } else if !FindsBall(s) {
      DropEmptyOverCount(s.overs);
      assert UndoFixed(s).1 == UndoRaised;
    } else {
      UndoSucceedsFixed(s);
    }
  }

  lemma UndoSucceedsWritten(s: State)
    requires WellFormed(s) && Undoable(s) && HasBallToUndo(s) && FindsBall(s)
    ensures Undo(s).1 == UndoResult(true, "Last ball undone successfully")
    ensures BallCount(s.overs) > 0 && BallCount(Undo(s).0.overs) == BallCount(s.overs) - 1
  {
    UndoSteps(s);
    UndoReversesWritten(s);
    PopBallCount(StepToBall(s));
  }

  lemma UndoSucceedsFixed(s: State)
    requires WellFormed(s) && UndoableFixed(s) && HasBallToUndo(s) && FindsBall(s)
    ensures UndoFixed(s).1 == UndoResult(true, "Last ball undone successfully")
    ensures BallCount(s.overs) > 0 && BallCount(UndoFixed(s).0.overs) == BallCount(s.overs) - 1
  {
    UndoStepsFixed(s);
    UndoReversesFixed(s);
    PopBallCount(StepToBallFixed(s));
  }

  /** Dropping an empty last over keeps the ball count. */
  lemma DropEmptyOverCount(overs: seq<Over>)
    requires |overs| > 0 && overs[|overs| - 1].balls == []
    ensures BallCount(overs[..|overs| - 1]) == BallCount(overs)
  {
    var front := overs[..|overs| - 1];
    assert overs == front + [overs[|overs| - 1]];
    BallCountAppend(front, overs[|overs| - 1]);
  }

  /** Popping the last ball takes exactly one ball away. */
  lemma PopBallCount(t: State)
    requires |t.overs| > 0 && LastOver(t).balls != [] && BowledBy(t.overs, t.players)
    ensures BallCount(PopBall(t).0.overs) == BallCount(t.overs) - 1
  {
    var last := LastOver(t);
    ReplaceLastOver(t.overs, last.(balls := last.balls[..|last.balls| - 1]));
  }

  // ------------------------------------------------------------ one delivery

  function Legal(b: Ball): nat
  {
    if IsLegalDelivery(b) then 1 else 0
  }

  function Fell(b: Ball): nat
  {
    if b.isWicket then 1 else 0
  }

  /** The numbers one ball can move: the batting side's score, the striker's
      and the bowler's figures, the current partnership and the ball count. */
  datatype Figures = Figures(
    teamRuns: int, teamWickets: int, teamOvers: int,
    batRuns: int, batBalls: int, fours: int, sixes: int,
    bowlRuns: int, bowlWickets: int, bowlOvers: int, maidens: int,
    standRuns: int, standBalls: int, ball: int)

  function FiguresOf(s: State, side: Side, st: string, bw: string): Figures
    requires st in s.players && bw in s.players && s.currentPartnership.Some?
  {
    var t, p, q, cp := TeamAt(s, side), s.players[st], s.players[bw], s.currentPartnership.value;
    Figures(t.runs, t.wickets, t.overs, p.runs, p.ballsFaced, p.fours, p.sixes,
            q.runsConceded, q.wicketsTaken, q.oversBowled, q.maidens, cp.runs, cp.balls, s.currentBall)
  }

  /** What one ball adds to the figures, as the scorer credits it. */
  function Credit(f: Figures, b: Ball): Figures
  {
    f.(teamRuns := f.teamRuns + TotalRuns(b), teamWickets := f.teamWickets + Fell(b),
       batRuns := f.batRuns + b.runs, batBalls := f.batBalls + Legal(b),
       fours := f.fours + (if b.runs == 4 then 1 else 0), sixes := f.sixes + (if b.runs == 6 then 1 else 0),
       bowlRuns := f.bowlRuns + TotalRuns(b), bowlWickets := f.bowlWickets + Fell(b),
       standRuns := f.standRuns + TotalRuns(b), standBalls := f.standBalls + Legal(b),
       ball := f.ball + Legal(b))
  }

  lemma FaceBallFigures(s: State, b: Ball)
    requires Scorable(s)
    ensures var st, bw := s.striker.value, s.bowler.value; var f := FiguresOf(s, s.batting.value, st, bw);
            FiguresOf(FaceBall(s, b), s.batting.value, st, bw) ==
              f.(batBalls := f.batBalls + Legal(b), standBalls := f.standBalls + Legal(b), ball := f.ball + Legal(b))
  {
    if IsLegalDelivery(b) {
      var st, bw, side := s.striker.value, s.bowler.value, s.batting.value;
      var f := FiguresOf(s, side, st, bw);
      var s1 := FaceStriker(s);
      assert FiguresOf(s1, side, st, bw) == f.(batBalls := f.batBalls + 1);
      var s2 := FaceStand(s1);
      assert FiguresOf(s2, side, st, bw) == f.(batBalls := f.batBalls + 1, standBalls := f.standBalls + 1);
    }
  }

  lemma CreditRunsFigures(s: State, b: Ball)
    requires Scorable(s)
    ensures var st, bw := s.striker.value, s.bowler.value; var f := FiguresOf(s, s.batting.value, st, bw);
            FiguresOf(CreditRuns(s, b), s.batting.value, st, bw) ==
              f.(teamRuns := f.teamRuns + TotalRuns(b), batRuns := f.batRuns + b.runs,
                 fours := f.fours + (if b.runs == 4 then 1 else 0), sixes := f.sixes + (if b.runs == 6 then 1 else 0),
                 bowlRuns := f.bowlRuns + TotalRuns(b), standRuns := f.standRuns + TotalRuns(b))
  {
  }

  lemma RecordWicketFigures(s: State, b: Ball)
    requires Scorable(s)
    ensures var st, bw := s.striker.value, s.bowler.value; var f := FiguresOf(s, s.batting.value, st, bw);
            FiguresOf(RecordWicket(s, b), s.batting.value, st, bw) ==
              f.(teamWickets := f.teamWickets + Fell(b), bowlWickets := f.bowlWickets + Fell(b))
  {
  }

  /** The add_ball steps keep the striker, bowler and batting side in place. */
  lemma StepsScorable(s: State, b: Ball)
    requires Scorable(s)
    ensures var s2 := FaceBall(s, b); Scorable(s2) && s2.striker == s.striker && s2.bowler == s.bowler && s2.batting == s.batting
    ensures var s3 := CreditRuns(FaceBall(s, b), b); Scorable(s3) && s3.striker == s.striker && s3.bowler == s.bowler && s3.batting == s.batting
  {
  }

  /** Crediting a ball adds exactly its credit to the figures, whoever ends
      up on strike. */
  lemma CreditedFigures(s: State, b: Ball)
    requires Scorable(s)
    ensures var st, bw := s.striker.value, s.bowler.value;
            FiguresOf(Credited(s, b), s.batting.value, st, bw) == Credit(FiguresOf(s, s.batting.value, st, bw), b)
  {
    var st, bw, side := s.striker.value, s.bowler.value, s.batting.value;
    StepsScorable(s, b);
    var s2 := FaceBall(s, b);
    var s3 := CreditRuns(s2, b);
    RecordWicketKeeps(s3, b);
    var s4 := RecordWicket(s3, b);
    FaceBallFigures(s, b);
    CreditRunsFigures(s2, b);
    RecordWicketFigures(s3, b);
    assert FiguresOf(s4, side, st, bw) == Credit(FiguresOf(s, side, st, bw), b);
    assert Credited(s, b) == RotateStrike(s4, b);
    RotateStrikeFigures(s4, b, side, st, bw);
  }

  /** Changing ends moves none of the figures. */
  lemma RotateStrikeFigures(s: State, b: Ball, side: Side, st: string, bw: string)
    requires st in s.players && bw in s.players && s.currentPartnership.Some?
    ensures FiguresOf(RotateStrike(s, b), side, st, bw) == FiguresOf(s, side, st, bw)
  {
  }

  /** Recording a ball adds exactly its credit to the figures, and moves no
      other player's figures and nothing of the fielding side. */
  lemma DeliveredFigures(s: State, b: Ball)
    requires Scorable(s)
    ensures var st, bw := s.striker.value, s.bowler.value;
            FiguresOf(Delivered(s, b), s.batting.value, st, bw) == Credit(FiguresOf(s, s.batting.value, st, bw), b)
    ensures FramedStep(s, Delivered(s, b))
  {
    CreditedFigures(s, b);
    CreditedFrame(s, b);
    var c, d := Credited(s, b), Delivered(s, b);
    assert d == c.(overs := d.overs);
    assert d.players == c.players && d.team1 == c.team1 && d.team2 == c.team2;
  }

  /** A step that touches only the striker's and the bowler's records and
      the batting side. */
  predicate FramedStep(s: State, r: State)
    requires s.striker.Some? && s.bowler.Some? && s.batting.Some?
  {
    (forall k :: k in s.players && k != s.striker.value && k != s.bowler.value ==> k in r.players && r.players[k] == s.players[k]) &&
    TeamAt(r, Other(s.batting.value)) == TeamAt(s, Other(s.batting.value))
  }

  lemma FaceBallFrame(s: State, b: Ball)
    requires Scorable(s)
    ensures FramedStep(s, FaceBall(s, b))
  {
  }

  lemma CreditRunsFrame(s: State, b: Ball)
    requires Scorable(s)
    ensures FramedStep(s, CreditRuns(s, b))
  {
  }

  lemma RecordWicketFrame(s: State, b: Ball)
    requires Scorable(s)
    ensures FramedStep(s, RecordWicket(s, b))
  {
  }

  /** Crediting a ball touches only the striker's and the bowler's records
      among the players, and only the batting side among the teams. */
  lemma CreditedFrame(s: State, b: Ball)
    requires Scorable(s)
    ensures FramedStep(s, Credited(s, b))
  {
    StepsScorable(s, b);
    var s2 := FaceBall(s, b);
    var s3 := CreditRuns(s2, b);
    RecordWicketKeeps(s3, b);
    var s4 := RecordWicket(s3, b);
    FaceBallFrame(s, b);
    CreditRunsFrame(s2, b);
    RecordWicketFrame(s3, b);
    assert FramedStep(s, s4);
    assert Credited(s, b) == RotateStrike(s4, b);
  }
}
