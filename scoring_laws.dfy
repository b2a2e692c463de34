/** What a scorer expects of the individual Match operations: the toss, the
    order of the batters, the over boundary, the fall of a wicket, the end of
    an innings and the result. */
module ScoringLaws {
  import opened Common
  import opened Deliveries
  import opened Scoring
  import opened ScoringProperties

  // ------------------------------------------------------------ set-up

  /** add_player registers the name with zero figures and lists it, last,
      under exactly one team: team1 when the names match ignoring case. */
  lemma AddPlayerRoster(s: State, name: string, team: string)
    ensures var r, side := AddPlayer(s, name, team), (if Lower(team) == Lower(s.team1.name) then Team1 else Team2);
            name in r.players && r.players[name] == NewPlayer(name) &&
            (forall k :: k in s.players && k != name ==> k in r.players && r.players[k] == s.players[k]) &&
            r.players.Keys == s.players.Keys + {name} &&
            TeamAt(r, side).players == TeamAt(s, side).players + [name] &&
            TeamAt(r, Other(side)) == TeamAt(s, Other(side)) &&
            r.overs == s.overs && r.batting == s.batting && r.isStarted == s.isStarted
  {
  }

  /** start_innings opens with the given pair and bowler at over 1 ball 0,
      appends an empty over 1 and a fresh partnership of the pair. */
  lemma StartInningsOpens(s: State, striker: string, nonStriker: string, bowler: string)
    ensures var r := StartInnings(s, striker, nonStriker, bowler);
            r.isStarted && r.striker == Some(striker) && r.nonStriker == Some(nonStriker) && r.bowler == Some(bowler) &&
            r.currentOver == 1 && r.currentBall == 0 &&
            r.overs == s.overs + [Over(1, bowler, [])] && BallCount(r.overs) == BallCount(s.overs) &&
            r.partnerships == s.partnerships + [Partnership(Some(striker), Some(nonStriker), 0, 0)] &&
            r.currentPartnership == Some(r.partnerships[|r.partnerships| - 1])
  {
    BallCountAppend(s.overs, Over(1, bowler, []));
  }

  /** set_new_bowler opens an empty over under the current over number; no
      ball is added or lost. */
  lemma SetNewBowlerOpensOver(s: State, bowler: string)
    ensures var r := SetNewBowler(s, bowler);
            r.bowler == Some(bowler) && r.overs == s.overs + [Over(s.currentOver, bowler, [])] &&
            BallCount(r.overs) == BallCount(s.overs) && r.currentOver == s.currentOver && r.players == s.players
  {
    BallCountAppend(s.overs, Over(s.currentOver, bowler, []));
  }

  /** set_new_batter: with a partnership open, the batter takes the
      non-striker's end only when the last wicket named the non-striker
      (and not the striker), and the striker's end otherwise; the batter who
      stays and the new batter open a fresh partnership. With no partnership
      open nothing changes. */
  lemma SetNewBatterTakesEnd(s: State, batter: string)
    ensures s.currentPartnership.None? ==> SetNewBatter(s, batter) == s
    ensures var r := SetNewBatter(s, batter);
            var toNonStriker := LastDismissed(s) == s.nonStriker && LastDismissed(s) != s.striker;
            s.currentPartnership.Some? ==>
              (toNonStriker ==> r.striker == s.striker && r.nonStriker == Some(batter)) &&
              (!toNonStriker ==> r.striker == Some(batter) && r.nonStriker == s.nonStriker) &&
              r.partnerships == s.partnerships + [Partnership(if toNonStriker then s.striker else s.nonStriker, Some(batter), 0, 0)] &&
              r.currentPartnership == Some(r.partnerships[|r.partnerships| - 1]) &&
              r.players == s.players && r.overs == s.overs && r.fallOfWickets == s.fallOfWickets
  {
  }

  // ------------------------------------------------------------ toss

  /** set_toss always puts different teams in and in the field; the winner
      bats exactly when the decision is "bat". */
  lemma SetTossSides(s: State, winner: string, decision: string)
    ensures var r := SetToss(s, winner, decision);
            r.batting.Some? && r.bowling.Some? && r.batting.value != r.bowling.value &&
            (r.batting.value == TossWinnerSide(s, winner) <==> decision == "bat") &&
            r.tossWinner == winner && r.tossDecision == decision
  {
  }

  /** The winner's side is team1 exactly when the names agree ignoring case. */
  lemma TossWinnerSideByName(s: State, winner: string)
    ensures TossWinnerSide(s, winner) == Team1 <==> Lower(winner) == Lower(s.team1.name)
  {
  }

  // ------------------------------------------------------------ second innings

  lemma StartSecondInningsOutcome(s: State, striker: string, nonStriker: string, bowler: string)
    ensures var (r, ok) := StartSecondInnings(s, striker, nonStriker, bowler);
            (ok <==> s.currentInnings == 2) && (!ok ==> r == s) &&
            (ok ==> r.striker == Some(striker) && r.nonStriker == Some(nonStriker) && r.bowler == Some(bowler) &&
                    |r.partnerships| == 1 && r.currentPartnership == Some(r.partnerships[0]) &&
                    r.partnerships[0].runs == 0 && r.partnerships[0].balls == 0 &&
                    BallCount(r.overs) == 0 && |r.overs| == 1 && r.overs[0].bowler == bowler)
  {
  }

  // ------------------------------------------------------------ the chase

  /** The value comparison of the batting team with team2 always finds the
      score of the side in the field, even when the two teams are equal as
      values. */
  lemma ChaseTargetIsOpponent(s: State)
    requires s.batting.Some?
    ensures ChaseTarget(s) == TeamAt(s, Other(s.batting.value)).runs
  {
  }

  // ------------------------------------------------------------ the result

  /** The winner is the side with more runs, "Tie" on equal runs, the
      result text "Match tied" exactly when the runs are equal, and nothing
      but the winner and the result text changes. */
  lemma DetermineWinnerNames(s: State)
    ensures var r := DetermineWinner(s);
            r == s.(winner := r.winner, matchResult := r.matchResult) &&
            (s.team1.runs > s.team2.runs ==> r.winner == s.team1.name) &&
            (s.team2.runs > s.team1.runs ==> r.winner == s.team2.name) &&
            (s.team1.runs == s.team2.runs ==> r.winner == "Tie") &&
            (s.team1.runs == s.team2.runs <==> r.matchResult == "Match tied")
  {
    var (w, text) := Verdict(s);
    if s.team1.runs != s.team2.runs {
      assert |text| > |w| + 10;
    }
  }

  /** `t` reads as a decimal number, one space and `unit`, with a plural "s"
      exactly when the number is not 1; the number reads back as n (after
      its minus sign when n is negative). */
  predicate ReadsMargin(t: string, n: int, unit: string)
  {
    exists k :: 0 < k < |t| && t[k] == ' ' &&
      (n >= 0 ==> AllDigits(t[..k]) && ParseNat(t[..k]) == n) &&
      (n < 0 ==> t[0] == '-' && AllDigits(t[1..k]) && ParseNat(t[1..k]) == -n) &&
      (t[k + 1..] == unit || t[k + 1..] == unit + "s") &&
      (t[k + 1..] == unit + "s" <==> n != 1)
  }

  /** Helper: the text WonBy builds is the name, " won by " and a margin that reads back. */
  lemma WonByReads(name: string, n: int, unit: string)
    ensures var r := WonBy(name, n, unit);
            |r| > |name| + 8 && r[..|name| + 8] == name + " won by " &&
            ReadsMargin(r[|name| + 8..], n, unit)
  {
    var t := IntToString(n) + " " + unit + (if n != 1 then "s" else "");
    assert WonBy(name, n, unit) == name + " won by " + t;
    MarginReads(n, unit, t);
  }

  lemma MarginReads(n: int, unit: string, t: string)
    requires t == IntToString(n) + " " + unit + (if n != 1 then "s" else "")
    ensures ReadsMargin(t, n, unit)
  {
    var num, plural := IntToString(n), (if n != 1 then "s" else "");
    var k := |num|;
    assert t[..k] == num;
    assert t[k] == ' ';
    assert t[k + 1..] == unit + plural;
    if n >= 0 {
      ParseNatToString(n);
    } else {
      assert t[1..k] == num[1..] == NatToString(-n);
      ParseNatToString(-n);
    }
    if n == 1 {
      assert |unit + "s"| != |unit|;
    }
  }

  /** A side that batted second and won is credited with the wickets it had
      in hand; a side that batted first, with its margin in runs. The result
      text is the winner's name, " won by " and that number, then "wicket"
      or "run", plural unless the number is 1. Each side's chase is read off
      the toss on its own. */
  lemma DetermineWinnerMargin(s: State)
    ensures var r, w := DetermineWinner(s).matchResult, s.team1.name;
            s.team1.runs > s.team2.runs ==>
              |r| > |w| + 8 && r[..|w| + 8] == w + " won by " &&
              (Team1Chased(s) ==> ReadsMargin(r[|w| + 8..], 10 - s.team1.wickets, "wicket")) &&
              (!Team1Chased(s) ==> ReadsMargin(r[|w| + 8..], s.team1.runs - s.team2.runs, "run"))
    ensures var r, w := DetermineWinner(s).matchResult, s.team2.name;
            s.team2.runs > s.team1.runs ==>
              |r| > |w| + 8 && r[..|w| + 8] == w + " won by " &&
              (Team2Chased(s) ==> ReadsMargin(r[|w| + 8..], 10 - s.team2.wickets, "wicket")) &&
              (!Team2Chased(s) ==> ReadsMargin(r[|w| + 8..], s.team2.runs - s.team1.runs, "run"))
  {
    var t1, t2, r := s.team1, s.team2, DetermineWinner(s).matchResult;
    assert r == Verdict(s).1;
    if t1.runs > t2.runs {
      SideMargin(t1.name, r, Team1Chased(s), 10 - t1.wickets, t1.runs - t2.runs);
    } else if t2.runs > t1.runs {
      SideMargin(t2.name, r, Team2Chased(s), 10 - t2.wickets, t2.runs - t1.runs);
    }
  }

  /** Helper: one side's result text, by wickets in hand or by runs. */
  lemma SideMargin(w: string, r: string, chased: bool, inHand: int, margin: int)
    requires r == if chased then WonBy(w, inHand, "wicket") else WonBy(w, margin, "run")
    ensures |r| > |w| + 8 && r[..|w| + 8] == w + " won by "
    ensures chased ==> ReadsMargin(r[|w| + 8..], inHand, "wicket")
    ensures !chased ==> ReadsMargin(r[|w| + 8..], margin, "run")
  {
    if chased {
      WonByReads(w, inHand, "wicket");
    } else {
      WonByReads(w, margin, "run");
    }
  }

  /** The two chase tests: with team names that differ ignoring case at
      most one side chased; a toss won by a named side with a decision of
      "bat" or "bowl" makes one of them the chaser; a toss winner matching
      neither name makes neither the chaser, so both margins are in runs. */
  lemma ChasedSides(s: State)
    ensures !SameIgnoringCase(s.team1.name, s.team2.name) ==> !(Team1Chased(s) && Team2Chased(s))
    ensures (s.tossDecision == "bat" || s.tossDecision == "bowl") &&
            (SameIgnoringCase(s.tossWinner, s.team1.name) || SameIgnoringCase(s.tossWinner, s.team2.name)) ==>
              Team1Chased(s) || Team2Chased(s)
    ensures !SameIgnoringCase(s.tossWinner, s.team1.name) && !SameIgnoringCase(s.tossWinner, s.team2.name) ==>
              !Team1Chased(s) && !Team2Chased(s)
  {
  }

  // ------------------------------------------------------------ one delivery

  /** The ball is appended to the last over, which then holds one more ball. */
  lemma DeliveredOvers(s: State, b: Ball)
    requires Scorable(s)
    ensures var d := Delivered(s, b);
            d.overs == s.overs[..|s.overs| - 1] + [LastOver(s).(balls := LastOver(s).balls + [b])] &&
            BallCount(d.overs) == BallCount(s.overs) + 1
  {
    ReplaceLastOver(s.overs, LastOver(s).(balls := LastOver(s).balls + [b]));
  }

  /** Odd runs off a ball that took no wicket leave the batters at the other
      ends; every other ball leaves them where they were. */
  lemma DeliveredStrike(s: State, b: Ball)
    requires Scorable(s)
    ensures var d := Delivered(s, b);
            if !b.isWicket && b.runs % 2 == 1 then d.striker == s.nonStriker && d.nonStriker == s.striker
            else d.striker == s.striker && d.nonStriker == s.nonStriker
  {
    FaceBallKeeps(s, b);
    var s2 := FaceBall(s, b);
    CreditRunsKeeps(s2, b);
    var s3 := CreditRuns(s2, b);
    RecordWicketKeeps(s3, b);
    var s4 := RecordWicket(s3, b);
    assert s4.striker == s.striker && s4.nonStriker == s.nonStriker;
    var c := Credited(s, b);
    assert c == RotateStrike(s4, b);
    assert Delivered(s, b).striker == c.striker && Delivered(s, b).nonStriker == c.nonStriker;
  }

  lemma RecordWicketFall(s: State, b: Ball)
    requires Scorable(s)
    ensures RecordWicket(s, b).fallOfWickets == s.fallOfWickets + (if b.isWicket then [FallEntry(s, b.dismissedPlayer)] else [])
  {
  }

  /** A wicket appends exactly one fall-of-wickets entry: the named dismissed
      player (or the striker), the score and the stand with this ball's runs
      counted, and "over.ball" with this ball counted. Any other ball adds none. */
  lemma DeliveredFallOfWickets(s: State, b: Ball)
    requires Scorable(s)
    ensures var d := Delivered(s, b);
            if b.isWicket then
              d.fallOfWickets == s.fallOfWickets + [Wicket(
                DismissedName(s, b.dismissedPlayer), BattingTeam(s).runs + TotalRuns(b),
                IntToString(s.currentOver) + "." + IntToString(s.currentBall + Legal(b)),
                s.currentPartnership.value.runs + TotalRuns(b))]
            else d.fallOfWickets == s.fallOfWickets
  {
    var s3 := CreditRuns(FaceBall(s, b), b);
    CreditedFallEntry(s, b);
    RecordWicketFall(s3, b);
    DeliveredFall(s, b);
  }

  /** The fall-of-wickets entry written after the ball is faced and its runs
      credited counts this ball's runs and, when legal, the ball itself. */
  lemma CreditedFallEntry(s: State, b: Ball)
    requires Scorable(s)
    ensures var s3 := CreditRuns(FaceBall(s, b), b);
            Scorable(s3) && s3.fallOfWickets == s.fallOfWickets &&
            FallEntry(s3, b.dismissedPlayer) == Wicket(
              DismissedName(s, b.dismissedPlayer), BattingTeam(s).runs + TotalRuns(b),
              IntToString(s.currentOver) + "." + IntToString(s.currentBall + Legal(b)),
              s.currentPartnership.value.runs + TotalRuns(b))
  {
    StepsScorable(s, b);
    FaceBallFigures(s, b);
    var s2 := FaceBall(s, b);
    CreditRunsFigures(s2, b);
    var s3 := CreditRuns(s2, b);
    assert s3.fallOfWickets == s.fallOfWickets && s3.currentOver == s.currentOver;
  }

  /** The delivered state carries the fall of wickets RecordWicket wrote. */
  lemma DeliveredFall(s: State, b: Ball)
    requires Scorable(s)
    ensures var s3 := CreditRuns(FaceBall(s, b), b);
            Scorable(s3) && Delivered(s, b).fallOfWickets == RecordWicket(s3, b).fallOfWickets
  {
    StepsScorable(s, b);
    var s3 := CreditRuns(FaceBall(s, b), b);
    var d := RecordWicket(s3, b);
    assert Credited(s, b) == RotateStrike(d, b);
  }

  // ------------------------------------------------------------ the over boundary

  /** Completing an over that does not end the innings: the bowler is
      credited with the over, and with a maiden exactly when it cost no runs
      and took no wicket; the batters change ends; the batting side has one
      more over; the next over starts at ball 0. */
  lemma CompleteOverFacts(s: State)
    requires Registered(s, s.bowler) && s.batting.Some? && s.bowling.Some? && |s.overs| > 0
    requires s.currentOver + 1 <= s.totalOvers && BattingTeam(s).wickets < 10
    ensures var c, n, last := CompleteOver(s), s.bowler.value, LastOver(s);
            var p := s.players[n];
            c.striker == s.nonStriker && c.nonStriker == s.striker &&
            c.currentOver == s.currentOver + 1 && c.currentBall == 0 &&
            c.batting == s.batting && c.bowling == s.bowling && c.overs == s.overs &&
            BattingTeam(c) == BattingTeam(s).(overs := BattingTeam(s).overs + 1) &&
            c.players == s.players[n := p.(oversBowled := p.oversBowled + 1,
                                           maidens := p.maidens + (if Runs(last.balls) == 0 && Wickets(last.balls) == 0 then 1 else 0))] &&
            c.currentInnings == s.currentInnings && !c.isFinished == !s.isFinished
  {
    var a := AdvanceOver(SwapEnds(CreditOver(s)));
    assert !InningsOver(a);
  }

  /** An over that uses up the last over, or one bowled with ten wickets
      down, ends the innings. */
  lemma CompleteOverEndsInnings(s: State)
    requires Registered(s, s.bowler) && s.batting.Some? && s.bowling.Some? && |s.overs| > 0
    requires s.currentOver + 1 > s.totalOvers || BattingTeam(s).wickets >= 10
    ensures var a := AdvanceOver(SwapEnds(CreditOver(s)));
            CompleteOver(s) == EndInnings(a) && a.batting == s.batting && a.bowling == s.bowling
  {
  }

  // ------------------------------------------------------------ ending an innings

  /** Ending innings 1: innings 2 begins with the sides swapped, over 1 ball 0,
      no partnerships and no fall of wickets, the new batting side on 0 for 0
      in 0 overs, the side that batted first keeping its total, and nobody at
      the crease or bowling. */
  lemma EndFirstInnings(s: State)
    requires s.batting.Some? && s.bowling.Some? && s.batting.value != s.bowling.value && s.currentInnings == 1
    ensures var e := EndInnings(s);
            e.currentInnings == 2 && e.inningsJustEnded && !e.isFinished == !s.isFinished &&
            e.batting == s.bowling && e.bowling == s.batting &&
            e.currentOver == 1 && e.currentBall == 0 && e.partnerships == [] && e.fallOfWickets == [] &&
            BattingTeam(e) == TeamAt(s, s.bowling.value).(runs := 0, wickets := 0, overs := 0) &&
            TeamAt(e, s.batting.value) == BattingTeam(s) &&
            e.striker == None && e.nonStriker == None && e.bowler == None &&
            e.overs == s.overs && e.players == s.players
  {
  }

  /** Ending innings 2 finishes the match and decides it on the totals. */
  lemma EndSecondInnings(s: State)
    requires s.batting.Some? && s.bowling.Some? && s.currentInnings != 1
    ensures var e := EndInnings(s);
            e.isFinished && e == DetermineWinner(s.(isFinished := true)) &&
            (e.matchResult == "Match tied" <==> s.team1.runs == s.team2.runs)
  {
    DetermineWinnerNames(s.(isFinished := true));
  }

  // ------------------------------------------------------------ what add_ball reports

  /** Each reply of add_ball, with the state it leaves: an over-path reply
      exactly when the ball completed the over; a wicket reply with the
      recorded state untouched; the chase reply only in innings 2 once the
      batting side has passed the other side's total; otherwise "ball added"
      with the recorded state untouched. */
  lemma ConcludeOutcomes(d: State, isWicket: bool, dismissed: string)
    requires Registered(d, d.bowler) && d.batting.Some? && d.bowling.Some? && |d.overs| > 0
    ensures var (r, out) := Conclude(d, isWicket, dismissed);
            (IsComplete(LastOver(d)) ==> !out.WicketFell? && !out.BallAdded? && !(out.MatchComplete? && out.targetReached)) &&
            (out.OverComplete? ==> IsComplete(LastOver(d)) && r == CompleteOver(d) &&
                                   out.dismissed == (if isWicket then Some(dismissed) else None)) &&
            (out.WicketFell? ==> r == d && isWicket && out.fallen == dismissed && BattingTeam(d).wickets < 10) &&
            (out.BallAdded? ==> r == d && !isWicket && !IsComplete(LastOver(d)) &&
                                !(d.currentInnings == 2 && BattingTeam(d).runs > TeamAt(d, Other(d.batting.value)).runs)) &&
            (out.MatchComplete? && out.targetReached ==>
               !IsComplete(LastOver(d)) && !isWicket && d.currentInnings == 2 &&
               BattingTeam(d).runs > TeamAt(d, Other(d.batting.value)).runs &&
               r == DetermineWinner(d.(isFinished := true))) &&
            (out.InningsComplete? ==> out.newInnings == r.currentInnings && !r.isFinished &&
                                      (r == CompleteOver(d).(inningsJustEnded := false) || r == EndInnings(d))) &&
            (out.MatchComplete? ==> r.isFinished && out.winner == r.winner && out.result == r.matchResult) &&
            !out.NotStarted?
  {
    ChaseTargetIsOpponent(d);
    if IsComplete(LastOver(d)) {
      assert Conclude(d, isWicket, dismissed) == OverPath(d, isWicket, dismissed);
      OverPathOutcomes(d, isWicket, dismissed);
    } else if isWicket && BattingTeam(d).wickets >= 10 {
      assert Conclude(d, isWicket, dismissed) == AllOut(d);
      AllOutOutcomes(d);
    } else if isWicket {
      assert Conclude(d, isWicket, dismissed) == (d, WicketFell(dismissed));
    } else {
      assert Conclude(d, isWicket, dismissed) == ChaseOrBall(d);
      ChaseOrBallOutcomes(d);
    }
  }

  /** Once the over is complete add_ball replies with the end of the match,
      of the innings or of the over, and the end of the over leaves the state
      complete_over left. */
  lemma OverPathOutcomes(d: State, isWicket: bool, dismissed: string)
    requires Registered(d, d.bowler) && d.batting.Some? && d.bowling.Some? && |d.overs| > 0
    ensures var (r, out) := OverPath(d, isWicket, dismissed);
            (out.MatchComplete? || out.InningsComplete? || out.OverComplete?) &&
            (out.OverComplete? ==> r == CompleteOver(d) && out.dismissed == (if isWicket then Some(dismissed) else None)) &&
            (out.InningsComplete? ==> r == CompleteOver(d).(inningsJustEnded := false) && !r.isFinished &&
                                      out.newInnings == r.currentInnings &&
                                      out.dismissed == (if isWicket then Some(dismissed) else None)) &&
            (out.MatchComplete? ==> !out.targetReached && r.isFinished && out.winner == r.winner && out.result == r.matchResult)
  {
    var c := CompleteOver(d);
    if !InningsOver(AdvanceOver(SwapEnds(CreditOver(d)))) {
      assert c.isFinished == d.isFinished;
    }
  }

  /** On the tenth wicket add_ball replies with the end of the match or of
      the innings. */
  lemma AllOutOutcomes(d: State)
    requires d.batting.Some? && d.bowling.Some?
    ensures var (r, out) := AllOut(d);
            (out.MatchComplete? || out.InningsComplete?) &&
            (out.InningsComplete? ==> r == EndInnings(d) && !r.isFinished && r.inningsJustEnded &&
                                      out.newInnings == r.currentInnings == 2 && out.dismissed.None?) &&
            (out.MatchComplete? ==> !out.targetReached && r.isFinished && out.winner == r.winner && out.result == r.matchResult)
  {
    if d.currentInnings != 1 {
      EndSecondInnings(d);
    }
  }

  /** Off the over and the wicket, add_ball replies that the chase is won
      exactly when innings 2 has passed the other side's total, and
      otherwise that the ball was added. */
  lemma ChaseOrBallOutcomes(d: State)
    requires d.batting.Some?
    ensures var (r, out) := ChaseOrBall(d);
            var won := d.currentInnings == 2 && BattingTeam(d).runs > TeamAt(d, Other(d.batting.value)).runs;
            (out.MatchComplete? || out.BallAdded?) &&
            (out.BallAdded? <==> !won) && (out.BallAdded? ==> r == d) &&
            (out.MatchComplete? ==> out.targetReached && r == DetermineWinner(d.(isFinished := true)) &&
                                    r.isFinished && out.winner == r.winner && out.result == r.matchResult)
  {
    ChaseTargetIsOpponent(d);
    if d.currentInnings == 2 && BattingTeam(d).runs > ChaseTarget(d) {
      DetermineWinnerNames(d.(isFinished := true));
    }
  }

  /** The ball completes the over exactly when it is the sixth legal one. */
  lemma DeliveredCompletesOver(s: State, b: Ball)
    requires Scorable(s) && !IsComplete(LastOver(s))
    ensures IsComplete(LastOver(Delivered(s, b))) <==> IsLegalDelivery(b) && LegalBalls(LastOver(s).balls) == 5
  {
    DeliveredOvers(s, b);
    assert LastOver(Delivered(s, b)) == LastOver(s).(balls := LastOver(s).balls + [b]);
    CompletingBall(LastOver(s), b);
  }

  /** add_ball on a started match, reply by reply: the ball is recorded with
      its credit (Delivered, whose figures DeliveredFigures gives) and then
      the over, the innings or the match is concluded. */
  lemma AddBallOutcomes(s: State, runs: int, isWicket: bool, wicketType: Option<WicketType>,
                        dismissedPlayer: Option<string>, extraType: Option<ExtraType>, extraRuns: int)
    requires s.isStarted && Scorable(s)
    ensures var b := MakeBall(s, runs, isWicket, wicketType, dismissedPlayer, extraType, extraRuns);
            var d := Delivered(s, b);
            var (r, out) := AddBall(s, runs, isWicket, wicketType, dismissedPlayer, extraType, extraRuns);
            (out.BallAdded? ==> r == d) &&
            (out.WicketFell? ==> r == d && out.fallen == DismissedName(s, dismissedPlayer)) &&
            (out.OverComplete? ==> r == CompleteOver(d) && IsComplete(LastOver(d))) &&
            (out.InningsComplete? ==> out.newInnings == r.currentInnings && !r.isFinished &&
                                      (r == CompleteOver(d).(inningsJustEnded := false) || r == EndInnings(d))) &&
            (out.MatchComplete? ==> r.isFinished && out.winner == r.winner && out.result == r.matchResult) &&
            !out.NotStarted?
  {
    var b := MakeBall(s, runs, isWicket, wicketType, dismissedPlayer, extraType, extraRuns);
    var d := Delivered(s, b);
    assert AddBall(s, runs, isWicket, wicketType, dismissedPlayer, extraType, extraRuns) ==
           Conclude(d, isWicket, DismissedName(s, dismissedPlayer));
    ConcludeOutcomes(d, isWicket, DismissedName(s, dismissedPlayer));
  }

  // ------------------------------------------------------------ the "innings just ended" flag

  /** As written, a tenth wicket that does not complete the over ends
      innings 1 and reports it, but leaves the flag up. */
  lemma AllOutLeavesFlag(d: State)
    requires d.batting.Some? && d.bowling.Some? && d.currentInnings == 1 && !d.isFinished
    ensures AllOut(d).0.inningsJustEnded && AllOut(d).1 == InningsComplete(2, None)
  {
  }

  /** With the flag left up, the next over completed in innings 2 that does
      not end the innings is reported as the end of an innings, though the
      match stays in innings 2 and goes on. */
  lemma RaisedFlagMisreports(d: State, isWicket: bool, dismissed: string)
    requires Registered(d, d.bowler) && d.batting.Some? && d.bowling.Some? && |d.overs| > 0
    requires d.inningsJustEnded && d.currentInnings == 2 && !d.isFinished && IsComplete(LastOver(d))
    requires d.currentOver + 1 <= d.totalOvers && BattingTeam(d).wickets < 10
    ensures var (r, out) := Conclude(d, isWicket, dismissed);
            out.InningsComplete? && r.currentInnings == 2 && !r.isFinished
  {
    CompleteOverFacts(d);
  }

  /** Corrected: while the match is on, the flag is down after every
      add_ball, and "innings complete" is reported only when innings 1 has
      just ended. */
  lemma ConcludeFixedFlag(d: State, isWicket: bool, dismissed: string)
    requires Registered(d, d.bowler) && d.batting.Some? && d.bowling.Some? && |d.overs| > 0
    requires !d.inningsJustEnded && !d.isFinished
    ensures var (r, out) := ConcludeFixed(d, isWicket, dismissed);
            !r.inningsJustEnded && (out.InningsComplete? ==> d.currentInnings == 1 && r.currentInnings == 2)
  {
    if IsComplete(LastOver(d)) {
      var a := AdvanceOver(SwapEnds(CreditOver(d)));
      if !InningsOver(a) {
        assert !CompleteOver(d).inningsJustEnded;
      }
    }
  }

  lemma AddBallFixedFlag(s: State, runs: int, isWicket: bool, wicketType: Option<WicketType>,
                         dismissedPlayer: Option<string>, extraType: Option<ExtraType>, extraRuns: int)
    requires (s.isStarted ==> Scorable(s)) && !s.inningsJustEnded && !s.isFinished
    ensures var (r, out) := AddBallFixed(s, runs, isWicket, wicketType, dismissedPlayer, extraType, extraRuns);
            !r.inningsJustEnded && (out.InningsComplete? ==> s.currentInnings == 1 && r.currentInnings == 2)
  {
    if s.isStarted {
      var b := MakeBall(s, runs, isWicket, wicketType, dismissedPlayer, extraType, extraRuns);
      ConcludeFixedFlag(Delivered(s, b), isWicket, DismissedName(s, dismissedPlayer));
    }
  }
}
