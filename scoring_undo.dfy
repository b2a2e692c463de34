/** Undoing a ball after add_ball: which balls undo_last_ball takes back
    exactly, the batter it takes the runs from after an odd number of runs,
    and the corrected reversal, which takes back every ball that took no
    wicket. */
module UndoLaws {
  import opened Common
  import opened Deliveries
  import opened Scoring
  import opened ScoringProperties
  import ScoringLaws

  lemma LegalInverse(x: State, b: Ball)
    requires Scorable(x) && PartnershipLinked(x) && b.bowler in x.players
    ensures TakeBackLegal(FaceBall(x, b), b) == x
  {
  }

  lemma RunsInversePlayers(x: State, b: Ball)
    requires Scorable(x) && b.bowler == x.bowler.value
    ensures TakeBackRuns(CreditRuns(x, b), b).players == x.players
  {
    var y := TakeBackRuns(CreditRuns(x, b), b);
    assert y.players.Keys == x.players.Keys;
    forall k | k in x.players ensures y.players[k] == x.players[k] {
    }
  }

  lemma RunsInverseTeams(x: State, b: Ball)
    requires Scorable(x) && b.bowler == x.bowler.value
    ensures var y := TakeBackRuns(CreditRuns(x, b), b); y.team1 == x.team1 && y.team2 == x.team2
  {
  }

  lemma LastSplit<T>(q: seq<T>)
    requires |q| > 0
    ensures q == q[..|q| - 1] + [q[|q| - 1]]
  {
  }

  /** Crediting runs moves the current partnership on by the ball's runs
      and touches no other partnership. */
  lemma CreditRunsStand(x: State, b: Ball, p: Partnership)
    requires Scorable(x) && x.currentPartnership == Some(p)
    ensures var c := CreditRuns(x, b);
            c.partnerships == WithPartnership(x, p.(runs := p.runs + TotalRuns(b))).partnerships &&
            c.currentPartnership == Some(p.(runs := p.runs + TotalRuns(b)))
  {
    var x3 := ChargeBowler(CreditTeam(CreditBatter(x, b), b), b);
    assert x3.partnerships == x.partnerships && x3.currentPartnership == x.currentPartnership;
  }

  /** Taking runs back moves the current partnership back by the ball's
      runs and touches no other partnership. */
  lemma TakeBackRunsStand(c: State, b: Ball, p: Partnership)
    requires CanReverse(c, b) && c.currentPartnership == Some(p)
    ensures var y := TakeBackRuns(c, b);
            y.partnerships == WithPartnership(c, p.(runs := p.runs - TotalRuns(b))).partnerships &&
            y.currentPartnership == Some(p.(runs := p.runs - TotalRuns(b)))
  {
    var y3 := DebitBowler(DebitTeam(DebitBatter(c, b), b), b);
    assert y3.partnerships == c.partnerships && y3.currentPartnership == c.currentPartnership;
  }

  lemma RunsInverseStand(x: State, b: Ball)
    requires Scorable(x) && PartnershipLinked(x) && b.bowler == x.bowler.value
    ensures var y := TakeBackRuns(CreditRuns(x, b), b);
            y.partnerships == x.partnerships && y.currentPartnership == x.currentPartnership
  {
    var c := CreditRuns(x, b);
    var p := x.currentPartnership.value;
    var up := p.(runs := p.runs + TotalRuns(b));
    CreditRunsStand(x, b, p);
    TakeBackRunsStand(c, b, up);
    assert up.(runs := up.runs - TotalRuns(b)) == p;
    RestandTwice(x, c, up, p);
  }

  /** Setting the current partnership twice leaves the list as setting it
      once to the second value; setting it to the current one changes
      nothing in a linked state. */
  lemma RestandTwice(x: State, c: State, p: Partnership, q: Partnership)
    requires PartnershipLinked(x) && x.currentPartnership == Some(q)
    requires c.partnerships == WithPartnership(x, p).partnerships
    ensures WithPartnership(c, q).partnerships == x.partnerships
  {
    if |x.partnerships| > 0 {
      LastSplit(x.partnerships);
      assert c.partnerships[..|c.partnerships| - 1] == x.partnerships[..|x.partnerships| - 1];
    }
  }

  lemma RunsInverse(x: State, b: Ball)
    requires Scorable(x) && PartnershipLinked(x) && b.bowler == x.bowler.value
    ensures TakeBackRuns(CreditRuns(x, b), b) == x
  {
    RunsInversePlayers(x, b);
    RunsInverseTeams(x, b);
    RunsInverseStand(x, b);
    var y := TakeBackRuns(CreditRuns(x, b), b);
    assert y == x.(players := y.players, team1 := y.team1, team2 := y.team2,
                   partnerships := y.partnerships, currentPartnership := y.currentPartnership);
  }

  /** Putting a ball on the last over and taking the last ball off again
      gives back the overs and that ball. */
  lemma PopAppended(overs: seq<Over>, b: Ball)
    requires |overs| > 0
    ensures var last := overs[|overs| - 1];
            var o2 := overs[..|overs| - 1] + [last.(balls := last.balls + [b])];
            var top := o2[|o2| - 1];
            top.balls != [] && top.balls[|top.balls| - 1] == b &&
            o2[..|o2| - 1] + [top.(balls := top.balls[..|top.balls| - 1])] == overs
  {
    var last := overs[|overs| - 1];
    var appended := last.(balls := last.balls + [b]);
    var o2 := overs[..|overs| - 1] + [appended];
    assert o2[|o2| - 1] == appended && o2[..|o2| - 1] == overs[..|overs| - 1];
    assert appended.balls[..|appended.balls| - 1] == last.balls;
    assert appended.(balls := last.balls) == last;
    LastSplit(overs);
  }

  /** Popping the ball just appended gives back the state and the ball. */
  lemma PopAppendBall(c: State, b: Ball)
    requires |c.overs| > 0 && BowledBy(c.overs, c.players) && b.bowler in c.players
    ensures var d := AppendBall(c, b);
            LastOver(d).balls != [] && BowledBy(d.overs, d.players) && PopBall(d) == (c, b)
  {
    var last := LastOver(c);
    var appended := last.(balls := last.balls + [b]);
    PopAppended(c.overs, b);
    BowledByTrim(c.overs, c.players, 0);
    BowledByAppend(c.overs[..|c.overs| - 1], appended, c.players);
  }

  /** The ball taken off by undo_last_ball right after add_ball recorded it
      is that ball, and what is left is the credited state. */
  lemma PopDelivered(s: State, b: Ball)
    requires Scorable(s) && BowledBy(s.overs, s.players) && b.bowler in s.players
    ensures var d := Delivered(s, b);
            LastOver(d).balls != [] && BowledBy(d.overs, d.players) && PopBall(d) == (Credited(s, b), b)
  {
    var c := Credited(s, b);
    BowledByMore(s.overs, s.players, c.players);
    PopAppendBall(c, b);
  }

  /** The corrected reversal takes back exactly what crediting a ball that
      took no wicket did. */
  lemma ReverseFixedCredited(s: State, b: Ball)
    requires Scorable(s) && PartnershipLinked(s) && b.bowler == s.bowler.value && !b.isWicket
    ensures CanReverse(RotateStrike(Credited(s, b), b), b)
    ensures ReverseBallEffectsFixed(Credited(s, b), b) == s
  {
    var s2 := FaceBall(s, b);
    FaceBallKeeps(s, b);
    var s3 := CreditRuns(s2, b);
    assert Credited(s, b) == RotateStrike(s3, b);
    assert RotateStrike(RotateStrike(s3, b), b) == s3;
    RunsInverse(s2, b);
    LegalInverse(s, b);
  }

  /** As written, the reversal takes back a ball that took no wicket exactly
      when its bat runs were even. */
  lemma ReverseCreditedEven(s: State, b: Ball)
    requires Scorable(s) && PartnershipLinked(s) && b.bowler == s.bowler.value && !b.isWicket && b.runs % 2 == 0
    ensures CanReverse(Credited(s, b), b)
    ensures ReverseBallEffects(Credited(s, b), b) == s
  {
    ReverseFixedCredited(s, b);
  }

  /** The bat runs of one player through the crediting steps and the
      reversing steps: only the batter on strike gains or loses them. */
  lemma CreditRunsOf(s: State, b: Ball, k: string)
    requires Scorable(s) && k in s.players
    ensures var s3 := CreditRuns(FaceBall(s, b), b);
            k in s3.players && s3.players[k].runs == s.players[k].runs + (if k == s.striker.value then b.runs else 0)
  {
    FaceRunsOf(s, b, k);
    FaceBallKeeps(s, b);
    CreditBatterRunsOf(FaceBall(s, b), b, k);
  }

  lemma FaceRunsOf(s: State, b: Ball, k: string)
    requires Scorable(s) && k in s.players
    ensures var s2 := FaceBall(s, b); k in s2.players && s2.players[k].runs == s.players[k].runs
  {
  }

  lemma CreditBatterRunsOf(s: State, b: Ball, k: string)
    requires Scorable(s) && k in s.players
    ensures var s3 := CreditRuns(s, b);
            k in s3.players && s3.players[k].runs == s.players[k].runs + (if k == s.striker.value then b.runs else 0)
  {
  }

  lemma TakeBackRunsOf(c: State, b: Ball, k: string)
    requires CanReverse(c, b) && k in c.players
    ensures var t := TakeBackLegal(TakeBackRuns(c, b), b);
            k in t.players && t.players[k].runs == c.players[k].runs - (if k == c.striker.value then b.runs else 0)
  {
    DebitRunsOf(c, b, k);
    UnfaceRunsOf(TakeBackRuns(c, b), b, k);
  }

  lemma DebitRunsOf(c: State, b: Ball, k: string)
    requires CanReverse(c, b) && k in c.players
    ensures var y := TakeBackRuns(c, b);
            k in y.players && y.players[k].runs == c.players[k].runs - (if k == c.striker.value then b.runs else 0)
  {
  }

  lemma UnfaceRunsOf(y: State, b: Ball, k: string)
    requires CanReverse(y, b) && k in y.players
    ensures var t := TakeBackLegal(y, b); k in t.players && t.players[k].runs == y.players[k].runs
  {
  }

  /** As written, after odd runs off a ball that took no wicket the runs are
      taken from the batter who did not score them: the scorer keeps them and
      the partner loses them. */
  lemma ReverseCreditedOdd(s: State, b: Ball)
    requires Scorable(s) && Registered(s, s.nonStriker) && s.striker != s.nonStriker
    requires b.bowler == s.bowler.value && !b.isWicket && b.runs % 2 == 1
    ensures CanReverse(Credited(s, b), b)
    ensures var u, st, ns := ReverseBallEffects(Credited(s, b), b), s.striker.value, s.nonStriker.value;
            st in u.players && ns in u.players &&
            u.players[st].runs == s.players[st].runs + b.runs &&
            u.players[ns].runs == s.players[ns].runs - b.runs &&
            u.striker == s.striker && u.nonStriker == s.nonStriker
  {
    var st, ns := s.striker.value, s.nonStriker.value;
    CreditRunsOf(s, b, st);
    CreditRunsOf(s, b, ns);
    var c := Credited(s, b);
    CreditedOddSwaps(s, b);
    TakeBackRunsOf(c, b, st);
    TakeBackRunsOf(c, b, ns);
    var t := TakeBackLegal(TakeBackRuns(c, b), b);
    assert ReverseBallEffects(c, b) == SwapEnds(t);
  }

  /** After odd runs off a ball that took no wicket the credited state has
      the batters at each other's ends. */
  lemma CreditedOddSwaps(s: State, b: Ball)
    requires Scorable(s) && b.bowler == s.bowler.value && !b.isWicket && b.runs % 2 == 1
    ensures var s3 := CreditRuns(FaceBall(s, b), b);
            Credited(s, b) == SwapEnds(s3) && s3.striker == s.striker && s3.nonStriker == s.nonStriker
  {
    FaceBallKeeps(s, b);
  }

  /** The corrected add_ball differs from the one as written only on the
      tenth wicket. */
  lemma ConcludeFixedAgrees(d: State, isWicket: bool, dismissed: string)
    requires Registered(d, d.bowler) && d.batting.Some? && d.bowling.Some? && |d.overs| > 0
    requires !isWicket
    ensures ConcludeFixed(d, isWicket, dismissed) == Conclude(d, isWicket, dismissed)
  {
  }

  /** What undo_last_ball sees right after add_ball answered "ball added". */
  lemma UndoSeesDelivered(s: State, b: Ball)
    requires WellFormed(s) && s.isStarted && Scorable(s) && Registered(s, s.nonStriker) && b.bowler == s.bowler.value
    ensures var d := Delivered(s, b);
            WellFormed(d) && Steppable(d) && HasBallToUndo(d) && StepToBall(d) == d && StepToBallFixed(d) == d &&
            PopBall(d) == (Credited(s, b), b) &&
            Undoable(d) && UndoableFixed(d)
  {
    var d := Delivered(s, b);
    DeliveredWellFormed(s, b);
    PopDelivered(s, b);
    ScoringLaws.DeliveredStrike(s, b);
  }

  /** Undo right after a ball that took no wicket and was just added: the
      corrected undo restores the match exactly, and so does the undo as
      written when the bat runs were even. */
  lemma UndoAfterAddBall(s: State, runs: int, wicketType: Option<WicketType>, dismissedPlayer: Option<string>,
                         extraType: Option<ExtraType>, extraRuns: int)
    requires WellFormed(s) && s.isStarted && Scorable(s) && Registered(s, s.nonStriker)
    ensures var (r, out) := AddBallFixed(s, runs, false, wicketType, dismissedPlayer, extraType, extraRuns);
            out.BallAdded? ==>
              WellFormed(r) && UndoableFixed(r) && UndoFixed(r) == (s, UndoResult(true, "Last ball undone successfully"))
    ensures var (r, out) := AddBall(s, runs, false, wicketType, dismissedPlayer, extraType, extraRuns);
            out.BallAdded? && runs % 2 == 0 ==>
              WellFormed(r) && Undoable(r) && Undo(r) == (s, UndoResult(true, "Last ball undone successfully"))
  {
    UndoAfterAddBallFixed(s, runs, wicketType, dismissedPlayer, extraType, extraRuns);
    UndoAfterAddBallEven(s, runs, wicketType, dismissedPlayer, extraType, extraRuns);
  }

  lemma UndoAfterAddBallFixed(s: State, runs: int, wicketType: Option<WicketType>, dismissedPlayer: Option<string>,
                              extraType: Option<ExtraType>, extraRuns: int)
    requires WellFormed(s) && s.isStarted && Scorable(s) && Registered(s, s.nonStriker)
    ensures var (r, out) := AddBallFixed(s, runs, false, wicketType, dismissedPlayer, extraType, extraRuns);
            out.BallAdded? ==>
              WellFormed(r) && UndoableFixed(r) && UndoFixed(r) == (s, UndoResult(true, "Last ball undone successfully"))
  {
    var b := MakeBall(s, runs, false, wicketType, dismissedPlayer, extraType, extraRuns);
    var d := Delivered(s, b);
    ConcludeFixedAgrees(d, false, DismissedName(s, dismissedPlayer));
    var (r, out) := AddBall(s, runs, false, wicketType, dismissedPlayer, extraType, extraRuns);
    ScoringLaws.AddBallOutcomes(s, runs, false, wicketType, dismissedPlayer, extraType, extraRuns);
    if out.BallAdded? {
      UndoSeesDelivered(s, b);
      UndoReversesFixed(d);
      ReverseFixedCredited(s, b);
    }
  }

  lemma UndoAfterAddBallEven(s: State, runs: int, wicketType: Option<WicketType>, dismissedPlayer: Option<string>,
                             extraType: Option<ExtraType>, extraRuns: int)
    requires WellFormed(s) && s.isStarted && Scorable(s) && Registered(s, s.nonStriker)
    ensures var (r, out) := AddBall(s, runs, false, wicketType, dismissedPlayer, extraType, extraRuns);
            out.BallAdded? && runs % 2 == 0 ==>
              WellFormed(r) && Undoable(r) && Undo(r) == (s, UndoResult(true, "Last ball undone successfully"))
  {
    var b := MakeBall(s, runs, false, wicketType, dismissedPlayer, extraType, extraRuns);
    var d := Delivered(s, b);
    var (r, out) := AddBall(s, runs, false, wicketType, dismissedPlayer, extraType, extraRuns);
    ScoringLaws.AddBallOutcomes(s, runs, false, wicketType, dismissedPlayer, extraType, extraRuns);
    if out.BallAdded? && runs % 2 == 0 {
      UndoSeesDelivered(s, b);
      UndoReversesWritten(d);
      ReverseCreditedEven(s, b);
    }
  }

  /** As written, undo right after odd runs off a ball that took no wicket
      leaves the runs with the batter who scored them and takes them from the
      partner, so the match is not restored. */
  lemma UndoAfterOddRuns(s: State, runs: int, wicketType: Option<WicketType>, dismissedPlayer: Option<string>,
                         extraType: Option<ExtraType>, extraRuns: int)
    requires WellFormed(s) && s.isStarted && Scorable(s) && Registered(s, s.nonStriker) && s.striker != s.nonStriker
    requires runs % 2 == 1
    ensures var (r, out) := AddBall(s, runs, false, wicketType, dismissedPlayer, extraType, extraRuns);
            var st, ns := s.striker.value, s.nonStriker.value;
            out.BallAdded? ==>
              WellFormed(r) && Undoable(r) && st in Undo(r).0.players && ns in Undo(r).0.players &&
              Undo(r).0.players[st].runs == s.players[st].runs + runs &&
              Undo(r).0.players[ns].runs == s.players[ns].runs - runs
  {
    var b := MakeBall(s, runs, false, wicketType, dismissedPlayer, extraType, extraRuns);
    var d := Delivered(s, b);
    var (r, out) := AddBall(s, runs, false, wicketType, dismissedPlayer, extraType, extraRuns);
    ScoringLaws.AddBallOutcomes(s, runs, false, wicketType, dismissedPlayer, extraType, extraRuns);
    if out.BallAdded? {
      UndoSeesDelivered(s, b);
      UndoReversesWritten(d);
      ReverseCreditedOdd(s, b);
      assert Undo(r).0 == ReverseBallEffects(Credited(s, b), b);
    }
  }

  // ------------------------------------------------------------ undo across an over boundary

  /** Stepping back over the boundary that completing an over crossed and
      set_new_bowler opened gives back the state the over was completed
      from, all but the current ball: the corrected step sets it to the
      over's legal deliveries, the step as written to its raw number of balls. */
  lemma StepBackCompletedOver(d: State, bowler: string)
    requires Registered(d, d.bowler) && d.batting.Some? && d.bowling.Some? && |d.overs| > 0
    requires d.currentOver + 1 <= d.totalOvers && BattingTeam(d).wickets < 10
    requires d.bowler == Some(LastOver(d).bowler)
    ensures var e := SetNewBowler(CompleteOver(d), bowler);
            |e.overs| > 1 && e.batting.Some? && e.overs[|e.overs| - 2] == LastOver(d) &&
            StepBackOver(e) == d.(currentBall := |LastOver(d).balls|) &&
            StepBackOverFixed(e) == d.(currentBall := LegalBalls(LastOver(d).balls))
  {
    var c := CompleteOver(d);
    var e := SetNewBowler(c, bowler);
    ScoringLaws.CompleteOverFacts(d);
    StepBackOverFacts(e);
    var r := StepBackOver(e);
    assert e.overs[|e.overs| - 2] == LastOver(d);
    assert e.overs[..|e.overs| - 1] == d.overs;
    assert r.players == d.players;
    assert r.team1 == d.team1 && r.team2 == d.team2;
  }

  /** When the over-completing branch reports only the end of the over,
      the innings goes on: overs are left and fewer than ten wickets are down. */
  lemma OverPathContinues(d: State, isWicket: bool, dismissed: string)
    requires Registered(d, d.bowler) && d.batting.Some? && d.bowling.Some? && |d.overs| > 0
    ensures OverPath(d, isWicket, dismissed).1.OverComplete? ==>
              OverPath(d, isWicket, dismissed).0 == CompleteOver(d) &&
              d.currentOver + 1 <= d.totalOvers && BattingTeam(d).wickets < 10
  {
    var a := AdvanceOver(SwapEnds(CreditOver(d)));
    assert BattingTeam(a).wickets == BattingTeam(d).wickets;
  }

  /** A ball that took no wicket and that add_ball answers with "over
      complete" leaves the innings running, so completing the over only
      credits the bowler, changes ends and moves on an over. */
  lemma OverCompleteKeepsInnings(s: State, runs: int, wicketType: Option<WicketType>, dismissedPlayer: Option<string>,
                                 extraType: Option<ExtraType>, extraRuns: int)
    requires s.isStarted && Scorable(s)
    ensures var b := MakeBall(s, runs, false, wicketType, dismissedPlayer, extraType, extraRuns);
            var d := Delivered(s, b);
            var (r, out) := AddBallFixed(s, runs, false, wicketType, dismissedPlayer, extraType, extraRuns);
            out.OverComplete? ==>
              r == CompleteOver(d) && IsComplete(LastOver(d)) &&
              d.currentOver + 1 <= d.totalOvers && BattingTeam(d).wickets < 10
  {
    var b := MakeBall(s, runs, false, wicketType, dismissedPlayer, extraType, extraRuns);
    var d := Delivered(s, b);
    var dismissed := DismissedName(s, dismissedPlayer);
    ConcludeFixedAgrees(d, false, dismissed);
    assert AddBallFixed(s, runs, false, wicketType, dismissedPlayer, extraType, extraRuns) == Conclude(d, false, dismissed);
    ScoringLaws.ConcludeOutcomes(d, false, dismissed);
    if Conclude(d, false, dismissed).1.OverComplete? {
      assert Conclude(d, false, dismissed) == OverPath(d, false, dismissed);
      OverPathContinues(d, false, dismissed);
    }
  }

  /** Undo once set_new_bowler has opened the over after a completed one
      does what undo did just before the over was completed: the corrected
      undo steps back with the ball count at the over's legal deliveries,
      which is the count the match kept. */
  lemma UndoAcrossBoundary(d: State, bowler: string)
    requires WellFormed(d) && d.isStarted && Registered(d, d.bowler) && d.batting.Some?
    requires Registered(d, d.striker) && Registered(d, d.nonStriker)
    requires d.currentOver + 1 <= d.totalOvers && BattingTeam(d).wickets < 10
    requires LastOver(d).balls != [] && d.bowler == Some(LastOver(d).bowler)
    requires d.currentBall == LegalBalls(LastOver(d).balls)
    ensures var e := SetNewBowler(CompleteOver(d), bowler);
            WellFormed(e) && UndoableFixed(e) && UndoableFixed(d) && UndoFixed(e) == UndoFixed(d)
  {
    var e := SetNewBowler(CompleteOver(d), bowler);
    StepBackCompletedOver(d, bowler);
    CompleteOverWellFormed(d);
    SetNewBowlerWellFormed(CompleteOver(d), bowler);
    ScoringLaws.CompleteOverFacts(d);
    assert StepToBallFixed(e) == d;
    UndoReversesFixed(e);
    UndoReversesFixed(d);
  }

  /** Undo after the ball that completed an over, once set_new_bowler has
      opened the next one: the corrected undo steps back over the boundary
      and takes the ball back, restoring the match exactly. */
  lemma UndoAfterOverComplete(s: State, runs: int, wicketType: Option<WicketType>, dismissedPlayer: Option<string>,
                              extraType: Option<ExtraType>, extraRuns: int, bowler: string)
    requires WellFormed(s) && s.isStarted && Scorable(s) && Registered(s, s.nonStriker)
    requires s.bowler == Some(LastOver(s).bowler) && s.currentBall == LegalBalls(LastOver(s).balls)
    ensures var (r, out) := AddBallFixed(s, runs, false, wicketType, dismissedPlayer, extraType, extraRuns);
            var e := SetNewBowler(r, bowler);
            out.OverComplete? ==>
              WellFormed(e) && UndoableFixed(e) && UndoFixed(e) == (s, UndoResult(true, "Last ball undone successfully"))
  {
    var b := MakeBall(s, runs, false, wicketType, dismissedPlayer, extraType, extraRuns);
    var d := Delivered(s, b);
    var (r, out) := AddBallFixed(s, runs, false, wicketType, dismissedPlayer, extraType, extraRuns);
    OverCompleteKeepsInnings(s, runs, wicketType, dismissedPlayer, extraType, extraRuns);
    if out.OverComplete? {
      DeliveredAtOverEnd(s, b);
      UndoDelivered(s, b);
      UndoAcrossBoundary(d, bowler);
    }
  }

  /** The corrected undo right after a ball that took no wicket was
      recorded gives back the match as it was before the ball, whatever
      add_ball then concludes. */
  lemma UndoDelivered(s: State, b: Ball)
    requires WellFormed(s) && s.isStarted && Scorable(s) && Registered(s, s.nonStriker)
    requires b.bowler == s.bowler.value && !b.isWicket
    ensures var d := Delivered(s, b);
            WellFormed(d) && Registered(d, d.striker) && Registered(d, d.nonStriker) && LastOver(d).balls != [] &&
            UndoableFixed(d) && UndoFixed(d) == (s, UndoResult(true, "Last ball undone successfully"))
  {
    var d := Delivered(s, b);
    UndoSeesDelivered(s, b);
    ScoringLaws.DeliveredStrike(s, b);
    UndoReversesFixed(d);
    ReverseFixedCredited(s, b);
  }

  /** Reversing a ball takes one off the ball count when the ball was
      legal. */
  lemma ReverseBallCount(x: State, b: Ball)
    requires CanReverse(x, b)
    ensures ReverseBallEffects(x, b).currentBall == x.currentBall - Legal(b)
  {
    var y := TakeBackRuns(x, b);
    assert y.currentBall == x.currentBall;
    var z := TakeBackLegal(y, b);
    assert z.currentBall == x.currentBall - Legal(b);
    var w := TakeBackWicket(z, b);
    assert w.currentBall == z.currentBall;
  }

  /** As written, undo once set_new_bowler has opened the over after a
      completed one steps back to the state the over was completed from
      with the ball count rebuilt from the over's raw number of balls,
      wides and no-balls included, and takes the last ball back from there. */
  lemma UndoAcrossBoundaryWritten(d: State, bowler: string)
    requires WellFormed(d) && d.isStarted && Registered(d, d.bowler) && d.batting.Some?
    requires Registered(d, d.striker) && Registered(d, d.nonStriker)
    requires d.currentOver + 1 <= d.totalOvers && BattingTeam(d).wickets < 10
    requires LastOver(d).balls != [] && d.bowler == Some(LastOver(d).bowler)
    ensures var e, balls := SetNewBowler(CompleteOver(d), bowler), LastOver(d).balls;
            WellFormed(e) && Undoable(e) && StepToBall(e) == d.(currentBall := |balls|) &&
            Undo(e).1 == UndoResult(true, "Last ball undone successfully") &&
            Undo(e).0.currentBall == |balls| - Legal(balls[|balls| - 1])
  {
    var e := SetNewBowler(CompleteOver(d), bowler);
    var k := |LastOver(d).balls|;
    StepBackCompletedOver(d, bowler);
    CompleteOverWellFormed(d);
    SetNewBowlerWellFormed(CompleteOver(d), bowler);
    ScoringLaws.CompleteOverFacts(d);
    assert StepToBall(e) == d.(currentBall := k);
    UndoReversesWritten(e);
    var (u, b) := PopBall(d.(currentBall := k));
    ReverseBallCount(u, b);
  }

  /** As written, undo after the ball that completed an over, once
      set_new_bowler has opened the next one, sets the ball count to the
      over's raw number of balls, so an over that held a wide or a no-ball
      is not restored. */
  lemma UndoAfterOverCompleteWritten(s: State, runs: int, wicketType: Option<WicketType>, dismissedPlayer: Option<string>,
                                     extraType: Option<ExtraType>, extraRuns: int, bowler: string)
    requires WellFormed(s) && s.isStarted && Scorable(s) && Registered(s, s.nonStriker)
    requires s.bowler == Some(LastOver(s).bowler) && s.currentBall == LegalBalls(LastOver(s).balls)
    requires !IsComplete(LastOver(s))
    ensures var (r, out) := AddBall(s, runs, false, wicketType, dismissedPlayer, extraType, extraRuns);
            var e, balls := SetNewBowler(r, bowler), LastOver(s).balls;
            out.OverComplete? ==>
              WellFormed(e) && Undoable(e) && Undo(e).0.currentBall == |balls| &&
              ((exists i :: 0 <= i < |balls| && !IsLegalDelivery(balls[i])) ==> Undo(e).0 != s)
  {
    var b := MakeBall(s, runs, false, wicketType, dismissedPlayer, extraType, extraRuns);
    var d := Delivered(s, b);
    ConcludeFixedAgrees(d, false, DismissedName(s, dismissedPlayer));
    var (r, out) := AddBall(s, runs, false, wicketType, dismissedPlayer, extraType, extraRuns);
    OverCompleteKeepsInnings(s, runs, wicketType, dismissedPlayer, extraType, extraRuns);
    if out.OverComplete? {
      UndoAfterCompletingBallWritten(s, b, bowler);
    }
  }

  /** The case of UndoAfterOverCompleteWritten stated for the ball itself:
      a ball without a wicket that completes the over, with the innings
      going on. */
  lemma UndoAfterCompletingBallWritten(s: State, b: Ball, bowler: string)
    requires WellFormed(s) && s.isStarted && Scorable(s) && Registered(s, s.nonStriker)
    requires s.bowler == Some(LastOver(s).bowler) && s.currentBall == LegalBalls(LastOver(s).balls)
    requires b.bowler == s.bowler.value && !b.isWicket
    requires !IsComplete(LastOver(s)) && IsComplete(LastOver(Delivered(s, b)))
    requires Delivered(s, b).currentOver + 1 <= Delivered(s, b).totalOvers && BattingTeam(Delivered(s, b)).wickets < 10
    ensures var e, balls := SetNewBowler(CompleteOver(Delivered(s, b)), bowler), LastOver(s).balls;
            WellFormed(e) && Undoable(e) && Undo(e).0.currentBall == |balls| &&
            ((exists i :: 0 <= i < |balls| && !IsLegalDelivery(balls[i])) ==> Undo(e).0 != s)
  {
    var d := Delivered(s, b);
    var e, balls := SetNewBowler(CompleteOver(d), bowler), LastOver(s).balls;
    DeliveredAtOverEnd(s, b);
    ScoringLaws.DeliveredCompletesOver(s, b);
    UndoSeesDelivered(s, b);
    UndoAcrossBoundaryWritten(d, bowler);
    assert Undo(e).0.currentBall == |balls|;
    CountShowsIllegal(s, Undo(e).0, balls);
  }

  /** A ball count at the raw number of balls differs from one at the
      legal-ball count once a ball is a wide or a no-ball. */
  lemma CountShowsIllegal(s: State, u: State, balls: seq<Ball>)
    requires s.currentBall == LegalBalls(balls) && u.currentBall == |balls|
    ensures (exists i :: 0 <= i < |balls| && !IsLegalDelivery(balls[i])) ==> u != s
  {
    LegalBallsAll(balls);
  }

  /** Recording a ball keeps the over's bowler on and moves the ball count
      by its legal deliveries, as it moves the over's legal deliveries. */
  lemma DeliveredAtOverEnd(s: State, b: Ball)
    requires Scorable(s)
    ensures var d := Delivered(s, b);
            LastOver(d) == LastOver(s).(balls := LastOver(s).balls + [b]) &&
            d.currentBall == s.currentBall + Legal(b) &&
            LegalBalls(LastOver(d).balls) == LegalBalls(LastOver(s).balls) + Legal(b)
  {
    ScoringLaws.DeliveredOvers(s, b);
    DeliveredFigures(s, b);
    LegalBallsAppend(LastOver(s).balls, b);
  }

  // ------------------------------------------------------------ undo of a wicket

  /** A state with one wicket more for the batting side and for a bowler,
      and one more fall-of-wicket entry. */
  function Wicketed(x: State, bw: string, e: Wicket): State
    requires x.batting.Some? && bw in x.players
  {
    var t := BattingTeam(x);
    var q := x.players[bw];
    WithPlayer(WithBattingTeam(x, t.(wickets := t.wickets + 1)), bw, q.(wicketsTaken := q.wicketsTaken + 1))
      .(fallOfWickets := x.fallOfWickets + [e])
  }

  lemma RecordWicketIsWicketed(c: State, b: Ball)
    requires Scorable(c) && b.isWicket
    ensures RecordWicket(c, b) == Wicketed(c, c.bowler.value, FallEntry(c, b.dismissedPlayer))
  {
  }

  /** Taking back the dismissal's figures undoes exactly the wicket added. */
  lemma DismissalInverse(y: State, b: Ball, e: Wicket)
    requires CanReverse(y, b)
    ensures CanReverse(Wicketed(y, b.bowler, e), b) && TakeBackDismissal(Wicketed(y, b.bowler, e), b) == y
  {
    var w := Wicketed(y, b.bowler, e);
    var w1 := DropTeamWicket(w, b);
    var w2 := DropBowlerWicket(w1, b);
    assert w2 == y.(fallOfWickets := w.fallOfWickets);
  }

  /** Two states that agree on the players and on everything else are equal. */
  lemma SamePlayersAndRest(s: State, t: State, m: map<string, Player>)
    requires s.players == t.players && s.(players := m) == t.(players := m)
    ensures s == t
  {
    assert s == s.(players := m).(players := s.players);
  }

  lemma DebitBatterWicketed(x: State, b: Ball, bw: string, e: Wicket)
    requires CanReverse(x, b) && bw in x.players
    ensures CanReverse(Wicketed(x, bw, e), b) && CanReverse(DebitBatter(x, b), b)
    ensures DebitBatter(Wicketed(x, bw, e), b) == Wicketed(DebitBatter(x, b), bw, e)
  {
    var l, r := DebitBatter(Wicketed(x, bw, e), b), Wicketed(DebitBatter(x, b), bw, e);
    DebitBatterWicketedPlayers(x, b, bw, e);
    assert l.(players := x.players) == r.(players := x.players);
    SamePlayersAndRest(l, r, x.players);
  }

  lemma DebitBatterWicketedPlayers(x: State, b: Ball, bw: string, e: Wicket)
    requires CanReverse(x, b) && bw in x.players
    requires CanReverse(Wicketed(x, bw, e), b) && CanReverse(DebitBatter(x, b), b)
    ensures DebitBatter(Wicketed(x, bw, e), b).players == Wicketed(DebitBatter(x, b), bw, e).players
  {
    var l, r := DebitBatter(Wicketed(x, bw, e), b).players, Wicketed(DebitBatter(x, b), bw, e).players;
    assert l.Keys == r.Keys;
    forall k | k in l
      ensures l[k] == r[k]
    {
    }
  }

  lemma DebitTeamWicketed(x: State, b: Ball, bw: string, e: Wicket)
    requires CanReverse(x, b) && bw in x.players
    ensures CanReverse(Wicketed(x, bw, e), b) && CanReverse(DebitTeam(x, b), b)
    ensures DebitTeam(Wicketed(x, bw, e), b) == Wicketed(DebitTeam(x, b), bw, e)
  {
  }

  lemma DebitBowlerWicketed(x: State, b: Ball, bw: string, e: Wicket)
    requires CanReverse(x, b) && bw in x.players
    ensures CanReverse(Wicketed(x, bw, e), b) && CanReverse(DebitBowler(x, b), b)
    ensures DebitBowler(Wicketed(x, bw, e), b) == Wicketed(DebitBowler(x, b), bw, e)
  {
    var l, r := DebitBowler(Wicketed(x, bw, e), b), Wicketed(DebitBowler(x, b), bw, e);
    DebitBowlerWicketedPlayers(x, b, bw, e);
    assert l.(players := x.players) == r.(players := x.players);
    SamePlayersAndRest(l, r, x.players);
  }

  lemma DebitBowlerWicketedPlayers(x: State, b: Ball, bw: string, e: Wicket)
    requires CanReverse(x, b) && bw in x.players
    requires CanReverse(Wicketed(x, bw, e), b) && CanReverse(DebitBowler(x, b), b)
    ensures DebitBowler(Wicketed(x, bw, e), b).players == Wicketed(DebitBowler(x, b), bw, e).players
  {
    var l, r := DebitBowler(Wicketed(x, bw, e), b).players, Wicketed(DebitBowler(x, b), bw, e).players;
    assert l.Keys == r.Keys;
    forall k | k in l
      ensures l[k] == r[k]
    {
    }
  }

  lemma DebitStandWicketed(x: State, b: Ball, bw: string, e: Wicket)
    requires CanReverse(x, b) && bw in x.players
    ensures CanReverse(Wicketed(x, bw, e), b) && CanReverse(DebitStand(x, b), b)
    ensures DebitStand(Wicketed(x, bw, e), b) == Wicketed(DebitStand(x, b), bw, e)
  {
  }

  lemma UncountBoundaryWicketed(x: State, b: Ball, bw: string, e: Wicket)
    requires CanReverse(x, b) && bw in x.players
    ensures CanReverse(Wicketed(x, bw, e), b) && CanReverse(UncountBoundary(x, b), b)
    ensures UncountBoundary(Wicketed(x, bw, e), b) == Wicketed(UncountBoundary(x, b), bw, e)
  {
    var l, r := UncountBoundary(Wicketed(x, bw, e), b), Wicketed(UncountBoundary(x, b), bw, e);
    UncountBoundaryWicketedPlayers(x, b, bw, e);
    assert l.(players := x.players) == r.(players := x.players);
    SamePlayersAndRest(l, r, x.players);
  }

  lemma UncountBoundaryWicketedPlayers(x: State, b: Ball, bw: string, e: Wicket)
    requires CanReverse(x, b) && bw in x.players
    requires CanReverse(Wicketed(x, bw, e), b) && CanReverse(UncountBoundary(x, b), b)
    ensures UncountBoundary(Wicketed(x, bw, e), b).players == Wicketed(UncountBoundary(x, b), bw, e).players
  {
    var l, r := UncountBoundary(Wicketed(x, bw, e), b).players, Wicketed(UncountBoundary(x, b), bw, e).players;
    assert l.Keys == r.Keys;
    forall k | k in l
      ensures l[k] == r[k]
    {
    }
  }

  lemma UnfaceStrikerWicketed(x: State, b: Ball, bw: string, e: Wicket)
    requires CanReverse(x, b) && bw in x.players
    ensures CanReverse(Wicketed(x, bw, e), b) && CanReverse(UnfaceStriker(x, b), b)
    ensures UnfaceStriker(Wicketed(x, bw, e), b) == Wicketed(UnfaceStriker(x, b), bw, e)
  {
    var l, r := UnfaceStriker(Wicketed(x, bw, e), b), Wicketed(UnfaceStriker(x, b), bw, e);
    UnfaceStrikerWicketedPlayers(x, b, bw, e);
    assert l.(players := x.players) == r.(players := x.players);
    SamePlayersAndRest(l, r, x.players);
  }

  lemma UnfaceStrikerWicketedPlayers(x: State, b: Ball, bw: string, e: Wicket)
    requires CanReverse(x, b) && bw in x.players
    requires CanReverse(Wicketed(x, bw, e), b) && CanReverse(UnfaceStriker(x, b), b)
    ensures UnfaceStriker(Wicketed(x, bw, e), b).players == Wicketed(UnfaceStriker(x, b), bw, e).players
  {
    var l, r := UnfaceStriker(Wicketed(x, bw, e), b).players, Wicketed(UnfaceStriker(x, b), bw, e).players;
    assert l.Keys == r.Keys;
    forall k | k in l
      ensures l[k] == r[k]
    {
    }
  }

  lemma UnfaceStandWicketed(x: State, b: Ball, bw: string, e: Wicket)
    requires CanReverse(x, b) && bw in x.players
    ensures CanReverse(Wicketed(x, bw, e), b) && CanReverse(UnfaceStand(x, b), b)
    ensures UnfaceStand(Wicketed(x, bw, e), b) == Wicketed(UnfaceStand(x, b), bw, e)
  {
  }

  lemma UncountBallWicketed(x: State, b: Ball, bw: string, e: Wicket)
    requires CanReverse(x, b) && bw in x.players
    ensures CanReverse(Wicketed(x, bw, e), b) && CanReverse(UncountBall(x, b), b)
    ensures UncountBall(Wicketed(x, bw, e), b) == Wicketed(UncountBall(x, b), bw, e)
  {
  }

  /** Taking back the runs and the legal ball does not touch the wicket
      figures, so it can be done before or after the wicket is added. */
  lemma RunsWicketed(x: State, b: Ball, bw: string, e: Wicket)
    requires CanReverse(x, b) && bw in x.players
    ensures CanReverse(Wicketed(x, bw, e), b)
    ensures TakeBackRuns(Wicketed(x, bw, e), b) == Wicketed(TakeBackRuns(x, b), bw, e)
  {
    DebitBatterWicketed(x, b, bw, e);
    var x1 := DebitBatter(x, b);
    DebitTeamWicketed(x1, b, bw, e);
    var x2 := DebitTeam(x1, b);
    DebitBowlerWicketed(x2, b, bw, e);
    var x3 := DebitBowler(x2, b);
    DebitStandWicketed(x3, b, bw, e);
    var x4 := DebitStand(x3, b);
    UncountBoundaryWicketed(x4, b, bw, e);
  }

  lemma LegalWicketed(y: State, b: Ball, bw: string, e: Wicket)
    requires CanReverse(y, b) && bw in y.players
    ensures CanReverse(Wicketed(y, bw, e), b)
    ensures TakeBackLegal(Wicketed(y, bw, e), b) == Wicketed(TakeBackLegal(y, b), bw, e)
  {
    if IsLegalDelivery(b) {
      UnfaceStrikerWicketed(y, b, bw, e);
      var y1 := UnfaceStriker(y, b);
      UnfaceStandWicketed(y1, b, bw, e);
      var y2 := UnfaceStand(y1, b);
      UncountBallWicketed(y2, b, bw, e);
    }
  }

  /** The match as undo leaves it after taking back a wicket ball: as it
      was before the ball, except that when both batters were named and an
      earlier partnership is listed, the latest partnership is dropped and
      the earlier one is current again. */
  function WicketTakenBack(s: State): State
  {
    var n := |s.partnerships|;
    if Truthy(s.striker) && Truthy(s.nonStriker) && n > 1 then
      s.(partnerships := s.partnerships[..n - 1], currentPartnership := Some(s.partnerships[n - 2]))
    else s
  }

  /** A credited wicket ball is the ball's runs and legal delivery with
      the wicket added on top, and no change of ends. */
  lemma CreditedWicketShape(s: State, b: Ball)
    requires Scorable(s) && b.bowler == s.bowler.value && b.isWicket
    ensures var c3 := CreditRuns(FaceBall(s, b), b);
            Scorable(c3) && c3.bowler == s.bowler &&
            Credited(s, b) == Wicketed(c3, b.bowler, FallEntry(c3, b.dismissedPlayer)) &&
            RotateStrike(Credited(s, b), b) == Credited(s, b)
  {
    StepsScorable(s, b);
    var c3 := CreditRuns(FaceBall(s, b), b);
    RecordWicketIsWicketed(c3, b);
  }

  /** Taking back the runs and the legal ball of a credited wicket ball
      leaves the match before the ball with only the wicket added. */
  lemma TakeBackToWicket(s: State, b: Ball)
    requires Scorable(s) && PartnershipLinked(s) && b.bowler == s.bowler.value && b.isWicket
    ensures var c3 := CreditRuns(FaceBall(s, b), b);
            Scorable(c3) && CanReverse(Credited(s, b), b) && CanReverse(s, b) &&
            TakeBackLegal(TakeBackRuns(Credited(s, b), b), b) == Wicketed(s, b.bowler, FallEntry(c3, b.dismissedPlayer))
  {
    CreditedWicketShape(s, b);
    var x2 := FaceBall(s, b);
    FaceBallKeeps(s, b);
    var c3 := CreditRuns(x2, b);
    var bw, entry := b.bowler, FallEntry(c3, b.dismissedPlayer);
    RunsWicketed(c3, b, bw, entry);
    RunsInverse(x2, b);
    assert TakeBackRuns(Credited(s, b), b) == Wicketed(x2, bw, entry);
    LegalWicketed(x2, b, bw, entry);
    LegalInverse(s, b);
  }

  /** Reversing a credited wicket ball, as written or corrected (no change
      of ends follows a wicket, so the two agree): the runs, the legal ball
      and the wicket are all taken back, and the batters recorded on the
      ball are put back, which drops the partnership in progress when an
      earlier one is listed. */
  lemma ReverseCreditedWicket(s: State, b: Ball)
    requires Scorable(s) && PartnershipLinked(s) && b.bowler == s.bowler.value && b.isWicket
    requires b.prevStriker == s.striker && b.prevNonStriker == s.nonStriker
    ensures CanReverse(Credited(s, b), b) && CanReverse(RotateStrike(Credited(s, b), b), b)
    ensures ReverseBallEffects(Credited(s, b), b) == WicketTakenBack(s)
    ensures ReverseBallEffectsFixed(Credited(s, b), b) == WicketTakenBack(s)
  {
    CreditedWicketShape(s, b);
    TakeBackToWicket(s, b);
    var c := Credited(s, b);
    var c3 := CreditRuns(FaceBall(s, b), b);
    var entry := FallEntry(c3, b.dismissedPlayer);
    var z := TakeBackLegal(TakeBackRuns(c, b), b);
    DismissalInverse(s, b, entry);
    TakeBackWicketAfter(z, s, b);
    RestorePairBefore(s, b);
    assert ReverseBallEffects(c, b) == TakeBackWicket(z, b);
  }

  lemma TakeBackWicketAfter(z: State, s: State, b: Ball)
    requires CanReverse(z, b) && b.isWicket && TakeBackDismissal(z, b) == s
    ensures TakeBackWicket(z, b) == RestorePair(s, b)
  {
  }

  /** Putting back the batters who were in when the match was in state s
      leaves s but for the partnership dropped. */
  lemma RestorePairBefore(s: State, b: Ball)
    requires s.currentPartnership.Some? && b.prevStriker == s.striker && b.prevNonStriker == s.nonStriker
    ensures RestorePair(s, b) == WicketTakenBack(s)
  {
  }

  /** Undo right after add_ball answered "wicket": both versions take back
      the runs, the legal ball, the team's and the bowler's wicket and the
      fall-of-wicket entry, and put back the batters who were in. When an
      earlier partnership is listed, the partnership the wicket fell in is
      dropped as well and the earlier one is current again. */
  lemma UndoAfterWicket(s: State, runs: int, wicketType: Option<WicketType>, dismissedPlayer: Option<string>,
                        extraType: Option<ExtraType>, extraRuns: int)
    requires WellFormed(s) && s.isStarted && Scorable(s) && Registered(s, s.nonStriker)
    ensures var (r, out) := AddBall(s, runs, true, wicketType, dismissedPlayer, extraType, extraRuns);
            out.WicketFell? ==>
              WellFormed(r) && Undoable(r) && UndoableFixed(r) &&
              Undo(r) == (WicketTakenBack(s), UndoResult(true, "Last ball undone successfully")) &&
              UndoFixed(r) == (WicketTakenBack(s), UndoResult(true, "Last ball undone successfully"))
  {
    var b := MakeBall(s, runs, true, wicketType, dismissedPlayer, extraType, extraRuns);
    var d := Delivered(s, b);
    var (r, out) := AddBall(s, runs, true, wicketType, dismissedPlayer, extraType, extraRuns);
    ScoringLaws.AddBallOutcomes(s, runs, true, wicketType, dismissedPlayer, extraType, extraRuns);
    if out.WicketFell? {
      UndoSeesDelivered(s, b);
      UndoReversesWritten(d);
      UndoReversesFixed(d);
      ReverseCreditedWicket(s, b);
    }
  }
}
