/** models.py's Match as an object whose methods change its fields in place.
    Snapshot() reads the fields as a Scoring.State; every method is proved to
    leave exactly the state (and give exactly the reply) that the Scoring
    function of the same name describes, and to keep WellFormed. add_ball and
    undo_last_ball follow the corrected behaviour (AddBallFixed, UndoFixed). */
module MatchModel {
  import opened Common
  import opened Deliveries
  import opened Scoring
  import opened ScoringProperties

  class Match {
    var team1: Team
    var team2: Team
    var totalOvers: int
    var currentInnings: int
    var tossWinner: string
    var tossDecision: string
    var batting: Option<Side>
    var bowling: Option<Side>
    var striker: Option<string>
    var nonStriker: Option<string>
    var bowler: Option<string>
    var currentOver: int
    var currentBall: int
    var overs: seq<Over>
    var players: map<string, Player>
    var partnerships: seq<Partnership>
    var currentPartnership: Option<Partnership>
    var fallOfWickets: seq<Wicket>
    var isStarted: bool
    var isFinished: bool
    var winner: string
    var matchResult: string
    var inningsJustEnded: bool

    /** The fields as a value. */
    function Snapshot(): State
      reads this
    {
      State(team1, team2, totalOvers, currentInnings, tossWinner, tossDecision, batting, bowling,
            striker, nonStriker, bowler, currentOver, currentBall, overs, players, partnerships,
            currentPartnership, fallOfWickets, isStarted, isFinished, winner, matchResult, inningsJustEnded)
    }

    predicate Valid()
      reads this
    {
      WellFormed(Snapshot())
    }

    /** The team batting_team refers to. */
    function CurrentBattingTeam(): Team
      reads this
      requires batting.Some?
    {
      if batting.value == Team1 then team1 else team2
    }

    constructor (team1Name: string, team2Name: string, total: int)
      ensures Snapshot() == Scoring.NewMatch(team1Name, team2Name, total) && Valid()
    {
      team1 := Team(team1Name, [], 0, 0, 0, 0);
      team2 := Team(team2Name, [], 0, 0, 0, 0);
      totalOvers := total;
      currentInnings := 1;
      tossWinner, tossDecision := "", "";
      batting, bowling := None, None;
      striker, nonStriker, bowler := Some(""), Some(""), Some("");
      currentOver, currentBall := 0, 0;
      overs := [];
      players := map[];
      partnerships := [];
      currentPartnership := None;
      fallOfWickets := [];
      isStarted, isFinished := false, false;
      winner, matchResult := "", "";
      inningsJustEnded := false;
      new;
      NewMatchWellFormed(team1Name, team2Name, total);
    }

    // ------------------------------------------------------------ helpers

    /** Write to the team batting_team refers to. */
    method SetBattingTeam(t: Team)
      requires batting.Some?
      modifies this
      ensures Snapshot() == WithBattingTeam(old(Snapshot()), t)
    {
      if batting.value == Team1 {
        team1 := t;
      } else {
        team2 := t;
      }
    }

    /** Write to one entry of the players dictionary. */
    method SetPlayer(name: string, p: Player)
      modifies this
      ensures Snapshot() == WithPlayer(old(Snapshot()), name, p)
    {
      players := players[name := p];
    }

    /** Write to current_partnership, which is also the last entry of
        partnerships whenever that list is non-empty. */
    method SetPartnership(p: Partnership)
      modifies this
      ensures Snapshot() == WithPartnership(old(Snapshot()), p)
    {
      currentPartnership := Some(p);
      if partnerships != [] {
        partnerships := partnerships[..|partnerships| - 1] + [p];
      }
    }

    /** Write both ends of the pitch. */
    method SetEnds(st: Option<string>, ns: Option<string>)
      modifies this
      ensures Snapshot() == old(Snapshot()).(striker := st, nonStriker := ns)
    {
      striker, nonStriker := st, ns;
    }

    method SetBowler(bw: Option<string>)
      modifies this
      ensures Snapshot() == old(Snapshot()).(bowler := bw)
    {
      bowler := bw;
    }

    /** Write the over and ball counters. */
    method SetCount(over: int, ball: int)
      modifies this
      ensures Snapshot() == old(Snapshot()).(currentOver := over, currentBall := ball)
    {
      currentOver, currentBall := over, ball;
    }

    /** Point batting_team and bowling_team at the two sides. */
    method SetSides(bat: Option<Side>, bowl: Option<Side>)
      modifies this
      ensures Snapshot() == old(Snapshot()).(batting := bat, bowling := bowl)
    {
      batting, bowling := bat, bowl;
    }

    /** Replace the list of partnerships and the current one. */
    method SetPartnerships(ps: seq<Partnership>, current: Option<Partnership>)
      modifies this
      ensures Snapshot() == old(Snapshot()).(partnerships := ps, currentPartnership := current)
    {
      partnerships, currentPartnership := ps, current;
    }

    /** Record the toss: who won it and what they chose. */
    method SetTossCall(winner: string, decision: string)
      modifies this
      ensures Snapshot() == old(Snapshot()).(tossWinner := winner, tossDecision := decision)
    {
      tossWinner, tossDecision := winner, decision;
    }

    /** A fresh partnership, appended and made current. */
    method OpenPartnership(p: Partnership)
      modifies this
      ensures Snapshot() == OpenStand(old(Snapshot()), p)
    {
      currentPartnership := Some(p);
      partnerships := partnerships + [p];
    }

    /** A new, empty over. */
    method OpenOver(n: int, bw: string)
      modifies this
      ensures Snapshot() == old(Snapshot()).(overs := old(overs) + [Over(n, bw, [])])
    {
      overs := overs + [Over(n, bw, [])];
    }

    // ------------------------------------------------------------ set-up

    method AddPlayer(name: string, team: string)
      requires Valid()
      modifies this
      ensures Snapshot() == Scoring.AddPlayer(old(Snapshot()), name, team)
      ensures Valid()
    {
      AddPlayerWellFormed(Snapshot(), name, team);
      SetPlayer(name, NewPlayer(name));
      if SameIgnoringCase(team, team1.name) {
        team1 := team1.(players := team1.players + [name]);
      } else {
        team2 := team2.(players := team2.players + [name]);
      }
    }

    method SetToss(winner: string, decision: string)
      requires Valid()
      modifies this
      ensures Snapshot() == Scoring.SetToss(old(Snapshot()), winner, decision)
      ensures Valid()
    {
      SetTossWellFormed(Snapshot(), winner, decision);
      SetTossCall(winner, decision);
      if decision == "bat" {
        if SameIgnoringCase(winner, team1.name) {
          SetSides(Some(Team1), Some(Team2));
        } else {
          SetSides(Some(Team2), Some(Team1));
        }
      } else {
        if SameIgnoringCase(winner, team1.name) {
          SetSides(Some(Team2), Some(Team1));
        } else {
          SetSides(Some(Team1), Some(Team2));
        }
      }
    }

    method StartInnings(st: string, ns: string, bw: string)
      requires Valid()
      modifies this
      ensures Snapshot() == Scoring.StartInnings(old(Snapshot()), st, ns, bw)
      ensures Valid()
    {
      StartInningsWellFormed(Snapshot(), st, ns, bw);
      SetEnds(Some(st), Some(ns));
      SetBowler(Some(bw));
      SetCount(1, 0);
      isStarted := true;
      OpenPartnership(Partnership(Some(st), Some(ns), 0, 0));
      OpenOver(currentOver, bw);
    }

    /** start_second_innings; false where the source raises ValueError. */
    method StartSecondInnings(st: string, ns: string, bw: string) returns (ok: bool)
      requires Valid()
      modifies this
      ensures (Snapshot(), ok) == Scoring.StartSecondInnings(old(Snapshot()), st, ns, bw)
      ensures Valid()
    {
      StartSecondInningsWellFormed(Snapshot(), st, ns, bw);
      if currentInnings != 2 {
        return false;
      }
      SetEnds(Some(st), Some(ns));
      SetBowler(Some(bw));
      var p := Partnership(Some(st), Some(ns), 0, 0);
      SetPartnerships([p], Some(p));
      overs := [Over(1, bw, [])];
      ok := true;
    }

    method SetNewBowler(bw: string)
      requires Valid()
      modifies this
      ensures Snapshot() == Scoring.SetNewBowler(old(Snapshot()), bw)
      ensures Valid()
    {
      SetNewBowlerWellFormed(Snapshot(), bw);
      SetBowler(Some(bw));
      OpenOver(currentOver, bw);
    }

    method SetNewBatter(batter: string)
      requires Valid()
      modifies this
      ensures Snapshot() == Scoring.SetNewBatter(old(Snapshot()), batter)
      ensures Valid()
    {
      SetNewBatterWellFormed(Snapshot(), batter);
      var dismissed: Option<string> := None;
      if fallOfWickets != [] {
        dismissed := Some(fallOfWickets[|fallOfWickets| - 1].player);
      }
      if currentPartnership.Some? {
        var st, ns, staying := striker, nonStriker, nonStriker;
        if dismissed == striker {
          staying := nonStriker;
          st := Some(batter);
        } else if dismissed == nonStriker {
          staying := striker;
          ns := Some(batter);
        } else {
          staying := nonStriker;
          st := Some(batter);
        }
        assert dismissed == LastDismissed(Snapshot());
        assert (st, ns, staying) == NewBatterEnds(dismissed, striker, nonStriker, batter);
        SetEnds(st, ns);
        OpenPartnership(Partnership(staying, Some(batter), 0, 0));
      }
    }

    // ------------------------------------------------------------ result, overs, innings

    method DetermineWinner()
      modifies this
      ensures Snapshot() == Scoring.DetermineWinner(old(Snapshot()))
    {
      var w, r;
      if team1.runs > team2.runs {
        w := team1.name;
        if Team1Chased(Snapshot()) {
          r := WonBy(team1.name, 10 - team1.wickets, "wicket");
        } else {
          r := WonBy(team1.name, team1.runs - team2.runs, "run");
        }
      } else if team2.runs > team1.runs {
        w := team2.name;
        if Team2Chased(Snapshot()) {
          r := WonBy(team2.name, 10 - team2.wickets, "wicket");
        } else {
          r := WonBy(team2.name, team2.runs - team1.runs, "run");
        }
      } else {
        w, r := "Tie", "Match tied";
      }
      assert (w, r) == Verdict(Snapshot());
      winner, matchResult := w, r;
    }

    /** The match is over: finished, and the winner settled. */
    method FinishMatch()
      modifies this
      ensures Snapshot() == Scoring.DetermineWinner(old(Snapshot()).(isFinished := true))
    {
      isFinished := true;
      DetermineWinner();
    }

    /** Innings 2 is due, and the "innings just ended" flag is raised. */
    method NextInnings()
      modifies this
      ensures Snapshot() == old(Snapshot()).(currentInnings := 2, inningsJustEnded := true)
    {
      currentInnings := 2;
      inningsJustEnded := true;
    }

    /** The partnerships and the fall of wickets start again empty. */
    method ClearRecords()
      modifies this
      ensures Snapshot() == old(Snapshot()).(partnerships := [], fallOfWickets := [])
    {
      partnerships := [];
      fallOfWickets := [];
    }

    method EndInnings()
      requires batting.Some? && bowling.Some?
      modifies this
      ensures Snapshot() == Scoring.EndInnings(old(Snapshot()))
    {
      if currentInnings == 1 {
        NextInnings();
        SetSides(bowling, batting);
        SetCount(1, 0);
        ClearRecords();
        var t := CurrentBattingTeam();
        SetBattingTeam(t.(runs := 0, wickets := 0, overs := 0));
        SetEnds(None, None);
        SetBowler(None);
      } else {
        FinishMatch();
      }
    }

    method SwapEnds()
      modifies this
      ensures Snapshot() == Scoring.SwapEnds(old(Snapshot()))
    {
      striker, nonStriker := nonStriker, striker;
    }

    /** The bowler's over, and maiden when it cost nothing. */
    method CreditOver()
      requires Registered(Snapshot(), bowler) && |overs| > 0
      modifies this
      ensures Snapshot() == Scoring.CreditOver(old(Snapshot()))
    {
      var name := bowler.value;
      var p := players[name].(oversBowled := players[name].oversBowled + 1);
      var last := overs[|overs| - 1];
      if Runs(last.balls) == 0 && Wickets(last.balls) == 0 {
        p := p.(maidens := p.maidens + 1);
      }
      players := players[name := p];
    }

    method AdvanceOver()
      requires batting.Some?
      modifies this
      ensures Snapshot() == Scoring.AdvanceOver(old(Snapshot()))
    {
      var t := CurrentBattingTeam();
      SetBattingTeam(t.(overs := t.overs + 1));
      SetCount(currentOver + 1, 0);
    }

    /** _complete_over. */
    method CompleteOver()
      requires Registered(Snapshot(), bowler) && batting.Some? && bowling.Some? && |overs| > 0
      modifies this
      ensures Snapshot() == Scoring.CompleteOver(old(Snapshot()))
    {
      CreditOver();
      SwapEnds();
      AdvanceOver();
      if currentOver > totalOvers || CurrentBattingTeam().wickets >= 10 {
        EndInnings();
      }
    }

    // ------------------------------------------------------------ add_ball

    method FaceStriker()
      requires Scorable(Snapshot())
      modifies this
      ensures Snapshot() == Scoring.FaceStriker(old(Snapshot()))
    {
      var name := striker.value;
      players := players[name := players[name].(ballsFaced := players[name].ballsFaced + 1)];
    }

    method FaceStand()
      requires Scorable(Snapshot())
      modifies this
      ensures Snapshot() == Scoring.FaceStand(old(Snapshot()))
    {
      var cp := currentPartnership.value;
      SetPartnership(cp.(balls := cp.balls + 1));
    }

    method CountBall()
      requires Scorable(Snapshot())
      modifies this
      ensures Snapshot() == Scoring.CountBall(old(Snapshot()))
    {
      currentBall := currentBall + 1;
    }

    /** The legal-delivery block of add_ball. */
    method FaceBall(ball: Ball)
      requires Scorable(Snapshot())
      modifies this
      ensures Snapshot() == Scoring.FaceBall(old(Snapshot()), ball)
    {
      if IsLegalDelivery(ball) {
        FaceStriker();
        FaceStand();
        CountBall();
      }
    }

    method CreditBatter(ball: Ball)
      requires Scorable(Snapshot())
      modifies this
      ensures Snapshot() == Scoring.CreditBatter(old(Snapshot()), ball)
    {
      var name := striker.value;
      players := players[name := players[name].(runs := players[name].runs + ball.runs)];
    }

    method CreditTeam(ball: Ball)
      requires Scorable(Snapshot())
      modifies this
      ensures Snapshot() == Scoring.CreditTeam(old(Snapshot()), ball)
    {
      var t := CurrentBattingTeam();
      SetBattingTeam(t.(runs := t.runs + TotalRuns(ball)));
    }

    method ChargeBowler(ball: Ball)
      requires Scorable(Snapshot())
      modifies this
      ensures Snapshot() == Scoring.ChargeBowler(old(Snapshot()), ball)
    {
      var q := players[bowler.value];
      players := players[bowler.value := q.(runsConceded := q.runsConceded + TotalRuns(ball))];
    }

    method CreditStand(ball: Ball)
      requires Scorable(Snapshot())
      modifies this
      ensures Snapshot() == Scoring.CreditStand(old(Snapshot()), ball)
    {
      var cp := currentPartnership.value;
      SetPartnership(cp.(runs := cp.runs + TotalRuns(ball)));
    }

    method CountBoundary(ball: Ball)
      requires Scorable(Snapshot())
      modifies this
      ensures Snapshot() == Scoring.CountBoundary(old(Snapshot()), ball)
    {
      var p := players[striker.value];
      players := players[striker.value := p.(fours := p.fours + (if ball.runs == 4 then 1 else 0),
                                             sixes := p.sixes + (if ball.runs == 6 then 1 else 0))];
    }

    /** The runs and boundaries block of add_ball. */
    method CreditRuns(ball: Ball)
      requires Scorable(Snapshot())
      modifies this
      ensures Snapshot() == Scoring.CreditRuns(old(Snapshot()), ball)
    {
      CreditBatter(ball);
      CreditTeam(ball);
      ChargeBowler(ball);
      CreditStand(ball);
      CountBoundary(ball);
    }

    method TeamWicket()
      requires Scorable(Snapshot())
      modifies this
      ensures Snapshot() == Scoring.TeamWicket(old(Snapshot()))
    {
      var t := CurrentBattingTeam();
      SetBattingTeam(t.(wickets := t.wickets + 1));
    }

    method BowlerWicket()
      requires Scorable(Snapshot())
      modifies this
      ensures Snapshot() == Scoring.BowlerWicket(old(Snapshot()))
    {
      var q := players[bowler.value];
      players := players[bowler.value := q.(wicketsTaken := q.wicketsTaken + 1)];
    }

    /** The wicket block of add_ball. */
    method RecordWicket(ball: Ball)
      requires Scorable(Snapshot())
      modifies this
      ensures Snapshot() == Scoring.RecordWicket(old(Snapshot()), ball)
    {
      if ball.isWicket {
        ghost var s := Snapshot();
        TeamWicket();
        BowlerWicket();
        var entry := Wicket(if Truthy(ball.dismissedPlayer) then ball.dismissedPlayer.value else striker.value,
                            CurrentBattingTeam().runs,
                            IntToString(currentOver) + "." + IntToString(currentBall),
                            currentPartnership.value.runs);
        assert entry == FallEntry(s, ball.dismissedPlayer);
        fallOfWickets := fallOfWickets + [entry];
      }
    }

    /** The ball goes on the end of the last over. */
    method AppendBall(ball: Ball)
      requires |overs| > 0
      modifies this
      ensures Snapshot() == Scoring.AppendBall(old(Snapshot()), ball)
    {
      var last := overs[|overs| - 1];
      overs := overs[..|overs| - 1] + [last.(balls := last.balls + [ball])];
    }

    /** The recording half of add_ball: the ball credited, the ends changed
        after odd runs, and the ball put on the last over. add_ball puts it
        there first; none of the crediting reads the overs. */
    method Record(ball: Ball)
      requires Scorable(Snapshot())
      modifies this
      ensures Snapshot() == Delivered(old(Snapshot()), ball)
    {
      FaceBallKeeps(Snapshot(), ball);
      FaceBall(ball);
      CreditRunsKeeps(Snapshot(), ball);
      CreditRuns(ball);
      RecordWicketKeeps(Snapshot(), ball);
      RecordWicket(ball);
      if !ball.isWicket && ball.runs % 2 == 1 {
        SwapEnds();
      }
      AppendBall(ball);
    }

    /** The reporting half of add_ball, once the ball is recorded. */
    method Conclude(isWicket: bool, dismissed: string) returns (outcome: AddBallOutcome)
      requires Registered(Snapshot(), bowler) && batting.Some? && bowling.Some? && |overs| > 0
      modifies this
      ensures (Snapshot(), outcome) == ConcludeFixed(old(Snapshot()), isWicket, dismissed)
    {
      if IsComplete(overs[|overs| - 1]) {
        outcome := ConcludeOver(isWicket, dismissed);
      } else if isWicket {
        if CurrentBattingTeam().wickets >= 10 {
          outcome := ConcludeAllOut();
        } else {
          outcome := WicketFell(dismissed);
        }
      } else if currentInnings == 2 && CurrentBattingTeam().runs > (if CurrentBattingTeam() == team2 then team1.runs else team2.runs) {
        ghost var d := Snapshot();
        FinishMatch();
        outcome := MatchComplete(winner, matchResult, true);
        assert (Snapshot(), outcome) == ChaseOrBall(d);
      } else {
        outcome := BallAdded;
      }
    }

    /** The over-completing branch of add_ball. */
    method ConcludeOver(isWicket: bool, dismissed: string) returns (outcome: AddBallOutcome)
      requires Registered(Snapshot(), bowler) && batting.Some? && bowling.Some? && |overs| > 0
      modifies this
      ensures (Snapshot(), outcome) == OverPath(old(Snapshot()), isWicket, dismissed)
    {
      CompleteOver();
      if isFinished {
        outcome := MatchComplete(winner, matchResult, false);
      } else if inningsJustEnded {
        inningsJustEnded := false;
        outcome := InningsComplete(currentInnings, if isWicket then Some(dismissed) else None);
      } else {
        outcome := OverComplete(if isWicket then Some(dismissed) else None);
      }
    }

    /** The tenth-wicket branch of add_ball, lowering the flag. */
    method ConcludeAllOut() returns (outcome: AddBallOutcome)
      requires batting.Some? && bowling.Some?
      modifies this
      ensures (Snapshot(), outcome) == AllOutFixed(old(Snapshot()))
    {
      EndInnings();
      if isFinished {
        outcome := MatchComplete(winner, matchResult, false);
      } else {
        inningsJustEnded := false;
        outcome := InningsComplete(currentInnings, None);
      }
    }

    /** add_ball, with the "innings just ended" flag lowered on the
        tenth-wicket path as on the over-completing path. */
    method AddBall(runs: int, isWicket: bool, wicketType: Option<WicketType>, dismissedPlayer: Option<string>,
                   extraType: Option<ExtraType>, extraRuns: int) returns (outcome: AddBallOutcome)
      requires Valid() && (isStarted ==> Scorable(Snapshot()))
      modifies this
      ensures Valid()
      ensures (Snapshot(), outcome) ==
              Scoring.AddBallFixed(old(Snapshot()), runs, isWicket, wicketType, dismissedPlayer, extraType, extraRuns)
    {
      if !isStarted {
        return NotStarted;
      }
      ghost var s := Snapshot();
      AddBallWellFormed(s, runs, isWicket, wicketType, dismissedPlayer, extraType, extraRuns);
      var ball := Ball(runs, isWicket, wicketType, dismissedPlayer, extraType, extraRuns,
                       bowler.value, striker, nonStriker);
      assert ball == MakeBall(s, runs, isWicket, wicketType, dismissedPlayer, extraType, extraRuns);
      var dismissed := if Truthy(dismissedPlayer) then dismissedPlayer.value else striker.value;
      Record(ball);
      outcome := Conclude(isWicket, dismissed);
    }

    // ------------------------------------------------------------ undo_last_ball

    method DropOver()
      requires |overs| > 1
      modifies this
      ensures Snapshot() == Scoring.DropOver(old(Snapshot()))
    {
      overs := overs[..|overs| - 1];
    }

    method RewindOver()
      requires |overs| > 0 && batting.Some?
      modifies this
      ensures Snapshot() == Scoring.RewindOverFixed(old(Snapshot()))
    {
      var done := overs[|overs| - 1];
      SetCount(currentOver - 1, LegalBalls(done.balls));
      var t := CurrentBattingTeam();
      SetBattingTeam(t.(overs := t.overs - 1));
      SetBowler(Some(done.bowler));
    }

    method UncreditOver()
      requires |overs| > 0
      modifies this
      ensures Snapshot() == Scoring.UncreditOver(old(Snapshot()))
    {
      var done := overs[|overs| - 1];
      if done.bowler in players {
        var p := players[done.bowler].(oversBowled := players[done.bowler].oversBowled - 1);
        if Runs(done.balls) == 0 && Wickets(done.balls) == 0 {
          p := p.(maidens := p.maidens - 1);
        }
        players := players[done.bowler := p];
      }
    }

    /** The over-boundary block of undo_last_ball. */
    method StepBackOver()
      requires |overs| > 1 && batting.Some?
      modifies this
      ensures Snapshot() == Scoring.StepBackOverFixed(old(Snapshot()))
    {
      DropOver();
      RewindOver();
      UncreditOver();
      SwapEnds();
    }

    method DebitBatter(ball: Ball)
      requires CanReverse(Snapshot(), ball)
      modifies this
      ensures Snapshot() == Scoring.DebitBatter(old(Snapshot()), ball)
    {
      var name := striker.value;
      players := players[name := players[name].(runs := players[name].runs - ball.runs)];
    }

    method DebitTeam(ball: Ball)
      requires CanReverse(Snapshot(), ball)
      modifies this
      ensures Snapshot() == Scoring.DebitTeam(old(Snapshot()), ball)
    {
      var t := CurrentBattingTeam();
      SetBattingTeam(t.(runs := t.runs - TotalRuns(ball)));
    }

    method DebitBowler(ball: Ball)
      requires CanReverse(Snapshot(), ball)
      modifies this
      ensures Snapshot() == Scoring.DebitBowler(old(Snapshot()), ball)
    {
      var q := players[ball.bowler];
      players := players[ball.bowler := q.(runsConceded := q.runsConceded - TotalRuns(ball))];
    }

    method DebitStand(ball: Ball)
      requires CanReverse(Snapshot(), ball)
      modifies this
      ensures Snapshot() == Scoring.DebitStand(old(Snapshot()), ball)
    {
      var cp := currentPartnership.value;
      SetPartnership(cp.(runs := cp.runs - TotalRuns(ball)));
    }

    method UncountBoundary(ball: Ball)
      requires CanReverse(Snapshot(), ball)
      modifies this
      ensures Snapshot() == Scoring.UncountBoundary(old(Snapshot()), ball)
    {
      var p := players[striker.value];
      players := players[striker.value := p.(fours := p.fours - (if ball.runs == 4 then 1 else 0),
                                             sixes := p.sixes - (if ball.runs == 6 then 1 else 0))];
    }

    method TakeBackRuns(ball: Ball)
      requires CanReverse(Snapshot(), ball)
      modifies this
      ensures Snapshot() == Scoring.TakeBackRuns(old(Snapshot()), ball)
    {
      DebitBatter(ball);
      DebitTeam(ball);
      DebitBowler(ball);
      DebitStand(ball);
      UncountBoundary(ball);
    }

    method UnfaceStriker(ball: Ball)
      requires CanReverse(Snapshot(), ball)
      modifies this
      ensures Snapshot() == Scoring.UnfaceStriker(old(Snapshot()), ball)
    {
      var name := striker.value;
      players := players[name := players[name].(ballsFaced := players[name].ballsFaced - 1)];
    }

    method UnfaceStand(ball: Ball)
      requires CanReverse(Snapshot(), ball)
      modifies this
      ensures Snapshot() == Scoring.UnfaceStand(old(Snapshot()), ball)
    {
      var cp := currentPartnership.value;
      SetPartnership(cp.(balls := cp.balls - 1));
    }

    method UncountBall(ball: Ball)
      requires CanReverse(Snapshot(), ball)
      modifies this
      ensures Snapshot() == Scoring.UncountBall(old(Snapshot()), ball)
    {
      currentBall := currentBall - 1;
    }

    method TakeBackLegal(ball: Ball)
      requires CanReverse(Snapshot(), ball)
      modifies this
      ensures Snapshot() == Scoring.TakeBackLegal(old(Snapshot()), ball)
    {
      if IsLegalDelivery(ball) {
        UnfaceStriker(ball);
        UnfaceStand(ball);
        UncountBall(ball);
      }
    }

    method DropTeamWicket(ball: Ball)
      requires CanReverse(Snapshot(), ball)
      modifies this
      ensures Snapshot() == Scoring.DropTeamWicket(old(Snapshot()), ball)
    {
      var t := CurrentBattingTeam();
      SetBattingTeam(t.(wickets := t.wickets - 1));
    }

    method DropBowlerWicket(ball: Ball)
      requires CanReverse(Snapshot(), ball)
      modifies this
      ensures Snapshot() == Scoring.DropBowlerWicket(old(Snapshot()), ball)
    {
      var q := players[ball.bowler];
      players := players[ball.bowler := q.(wicketsTaken := q.wicketsTaken - 1)];
    }

    method DropFall()
      modifies this
      ensures Snapshot() == Scoring.DropFall(old(Snapshot()))
    {
      if fallOfWickets != [] {
        fallOfWickets := fallOfWickets[..|fallOfWickets| - 1];
      }
    }

    /** Back to the partnership before the latest one. */
    method DropPartnership()
      requires |partnerships| > 1
      modifies this
      ensures Snapshot() == old(Snapshot()).(partnerships := old(partnerships)[..|old(partnerships)| - 1],
                                             currentPartnership := Some(old(partnerships)[|old(partnerships)| - 2]))
    {
      partnerships := partnerships[..|partnerships| - 1];
      currentPartnership := Some(partnerships[|partnerships| - 1]);
    }

    method RestorePair(ball: Ball)
      requires currentPartnership.Some?
      modifies this
      ensures Snapshot() == Scoring.RestorePair(old(Snapshot()), ball)
    {
      if Truthy(ball.prevStriker) && Truthy(ball.prevNonStriker) {
        SetEnds(ball.prevStriker, ball.prevNonStriker);
        if |partnerships| > 1 {
          DropPartnership();
        }
      }
    }

    method TakeBackWicket(ball: Ball)
      requires CanReverse(Snapshot(), ball)
      modifies this
      ensures Snapshot() == Scoring.TakeBackWicket(old(Snapshot()), ball)
    {
      if ball.isWicket {
        DropTeamWicket(ball);
        DropBowlerWicket(ball);
        DropFall();
        RestorePair(ball);
      }
    }

    /** _reverse_ball_effects, with the change of ends after odd runs taken
        back first so that the batter who faced the ball loses its runs. */
    method ReverseBallEffects(ball: Ball)
      requires CanReverse(RotateStrike(Snapshot(), ball), ball)
      modifies this
      ensures Snapshot() == ReverseBallEffectsFixed(old(Snapshot()), ball)
    {
      if !ball.isWicket && ball.runs % 2 == 1 {
        SwapEnds();
      }
      TakeBackRuns(ball);
      TakeBackLegal(ball);
      TakeBackWicket(ball);
    }

    /** Take the last ball off the last over. */
    method PopBall() returns (ball: Ball)
      requires |overs| > 0 && overs[|overs| - 1].balls != [] && BowledBy(overs, players)
      modifies this
      ensures (Snapshot(), ball) == Scoring.PopBall(old(Snapshot()))
    {
      var last := overs[|overs| - 1];
      ball := last.balls[|last.balls| - 1];
      overs := overs[..|overs| - 1] + [last.(balls := last.balls[..|last.balls| - 1])];
    }

    /** Step back over an over boundary when the last over is still empty,
        so that the last over holds the ball to undo. */
    method StepToBall()
      requires |overs| > 0 && batting.Some? && BowledBy(overs, players)
      requires FindsBall(Snapshot())
      modifies this
      ensures Snapshot() == Scoring.StepToBallFixed(old(Snapshot()))
    {
      if overs[|overs| - 1].balls == [] {
        StepBackOver();
      }
    }

    /** undo_last_ball, with the corrected reversal and ball count. */
    method UndoLastBall() returns (result: UndoResult)
      requires Valid() && UndoableFixed(Snapshot())
      modifies this
      ensures (Snapshot(), result) == UndoFixed(old(Snapshot()))
      ensures Valid()
    {
      if overs == [] || (|overs| == 1 && overs[0].balls == []) {
        UndoFixedRefuses(Snapshot());
        return UndoResult(false, "No balls to undo");
      }
      // The source tests once more for a single empty over; the test above
      // has already ruled that out.
      if overs[|overs| - 1].balls == [] && overs[|overs| - 2].balls == [] {
        result := StepBackOntoEmptyOver();
      } else {
        result := TakeBackLastBall();
      }
    }

    /** The over boundary is stepped back, and the pop from the over before,
        which is empty too, raises IndexError. */
    method StepBackOntoEmptyOver() returns (result: UndoResult)
      requires Valid() && UndoableFixed(Snapshot()) && HasBallToUndo(Snapshot()) && !FindsBall(Snapshot())
      modifies this
      ensures (Snapshot(), result) == UndoFixed(old(Snapshot())) && Valid()
    {
      UndoFixedRaised(Snapshot());
      StepBackOver();
      result := UndoRaised;
    }

    /** The part of undo_last_ball after a ball has been reached: step back
        to it, pop it and reverse its effects. */
    method TakeBackLastBall() returns (result: UndoResult)
      requires Valid() && UndoableFixed(Snapshot()) && HasBallToUndo(Snapshot()) && FindsBall(Snapshot())
      modifies this
      ensures (Snapshot(), result) == UndoFixed(old(Snapshot())) && Valid()
    {
      ghost var s0 := Snapshot();
      UndoFixedFound(s0);
      ghost var popped := Scoring.PopBall(StepToBallFixed(s0));
      StepToBall();
      var ball := PopBall();
      assert (Snapshot(), ball) == popped;
      ReverseBallEffects(ball);
      result := UndoResult(true, "Last ball undone successfully");
    }
  }
}
