/** The control panel: the scorer's page. It shows the score line and the
    chase, offers players in its selects, keeps the ball being entered and
    the batter still to be asked for, decides whether undo is on offer, and
    checks its forms before anything is sent to the server. */
module Control {
  import opened Common
  import opened Deliveries
  import opened Scoring
  import opened ScoringProperties
  import opened MatchStatus
  import opened Scoreboard

  // ------------------------------------------------------------ score line

  /** The panel's overs: "0.0" before the first over or before the first ball
      of an over, otherwise completed overs and balls. */
  function ControlOvers(currentOver: int, currentBall: int): string
  {
    if currentOver == 0 || currentBall == 0 then "0.0" else DotPair(currentOver - 1, currentBall)
  }

  /** The panel and the scoreboard agree once a ball of an over has been
      bowled; at the start of the second or a later over the panel shows
      "0.0" while the scoreboard shows the completed overs. */
  lemma ControlOversVersusScoreboard(currentOver: int, currentBall: int)
    ensures currentOver >= 1 && currentBall != 0 ==> ControlOvers(currentOver, currentBall) == OversText(currentOver, currentBall)
    ensures currentOver >= 2 && currentBall == 0 ==>
              ControlOvers(currentOver, currentBall) == "0.0" && OversText(currentOver, currentBall) != "0.0"
  {
    if currentOver >= 2 && currentBall == 0 {
      var x := IntToString(currentOver - 1);
      var shown := OversText(currentOver, currentBall);
      assert IntToString(0) == [DigitChar(0)] == "0";
      if x == IntToString(0) {
        IntToStringInjective(currentOver - 1, 0);
      }
      assert shown[..|x|] == x;
    }
  }

  /** A number as a template literal prints it: "NaN" when it is missing. */
  function NumText(n: Option<int>): string
  {
    if n.Some? then IntToString(n.value) else "NaN"
  }

  /** The chase block: hidden in the first innings; in the second, the
      target line and the "Need … runs in … balls" line. */
  datatype TargetBlock = TargetHidden | TargetShown(target: string, required: string)

  function ControlTarget(st: Status): TargetBlock
  {
    if st.currentInnings != 2 then TargetHidden
    else
      var teams := LiveTeams(st);
      var target := if teams.1.runs.Some? then Some(teams.1.runs.value + 1) else None;
      var needed := if target.Some? then Some(target.value - OrZero(teams.0.runs)) else None;
      var remaining := st.totalOvers * 6 - ((st.currentOver - 1) * 6 + st.currentBall);
      TargetShown("Target: " + NumText(target), "Need " + NumText(needed) + " runs in " + IntToString(remaining) + " balls")
  }

  /** The panel's chase uses the scoreboard's formulas: with the bowling
      side's runs known, both show the same target, runs needed and balls
      remaining; the block is hidden outside the second innings. */
  lemma ControlTargetAgrees(st: Status)
    ensures st.currentInnings != 2 <==> ControlTarget(st) == TargetHidden
    ensures st.currentInnings == 2 && LiveTeams(st).1.runs.Some? ==>
              var c := ChaseOf(LiveTeams(st).1.runs.value, OrZero(LiveTeams(st).0.runs), st.totalOvers, st.currentOver, st.currentBall);
              ControlTarget(st) == TargetShown("Target: " + IntToString(c.target),
                                               "Need " + IntToString(c.runsNeeded) + " runs in " + IntToString(c.ballsRemaining) + " balls") &&
              TargetInfo(st) == ChaseText(c)
  {
    if st.currentInnings == 2 && LiveTeams(st).1.runs.Some? {
      var teams := LiveTeams(st);
      var c := ChaseOf(teams.1.runs.value, OrZero(teams.0.runs), st.totalOvers, st.currentOver, st.currentBall);
      assert NumText(Some(teams.1.runs.value + 1)) == IntToString(c.target);
      assert NumText(Some(teams.1.runs.value + 1 - OrZero(teams.0.runs))) == IntToString(c.runsNeeded);
    }
  }

  // ------------------------------------------------------------ player selects

  /** The names that have fallen in the fall of wickets. */
  function Fallen(fall: seq<Wicket>): set<string>
  {
    set w | w in fall :: w.player
  }

  /** The names of a list that are not excluded, in list order. */
  function Without(names: seq<string>, excluded: set<string>): seq<string>
    decreases |names|
  {
    if |names| == 0 then []
    else
      var n := names[|names| - 1];
      Without(names[..|names| - 1], excluded) + (if n in excluded then [] else [n])
  }

  /** A name is offered exactly when it is listed and not excluded. */
  lemma {:induction false} WithoutMembers(names: seq<string>, excluded: set<string>)
    ensures forall n :: n in Without(names, excluded) <==> n in names && n !in excluded
    decreases |names|
  {
    if |names| > 0 {
      var init := names[..|names| - 1];
      WithoutMembers(init, excluded);
      assert names == init + [names[|names| - 1]];
    }
  }

  /** Offers keep list order: filtering two lists joined is filtering each in turn. */
  lemma {:induction false} WithoutAppend(a: seq<string>, b: seq<string>, excluded: set<string>)
    ensures Without(a + b, excluded) == Without(a, excluded) + Without(b, excluded)
    decreases |b|
  {
    if |b| > 0 {
      var bInit := b[..|b| - 1];
      assert (a + b)[..|a + b| - 1] == a + bInit;
      WithoutAppend(a, bInit, excluded);
    } else {
      assert a + b == a;
    }
  }

  /** Excluding nothing offers the whole list. */
  lemma {:induction false} WithoutNothing(names: seq<string>)
    ensures Without(names, {}) == names
    decreases |names|
  {
    if |names| > 0 {
      WithoutNothing(names[..|names| - 1]);
      assert names == names[..|names| - 1] + [names[|names| - 1]];
    }
  }

  /** Builds a select's options: each listed name not excluded, in order. */
  method FillSelect(names: seq<string>, excluded: set<string>) returns (options: seq<string>)
    ensures options == Without(names, excluded)
  {
    options := [];
    var i := 0;
    while i < |names|
      invariant 0 <= i <= |names|
      invariant options == Without(names[..i], excluded)
    {
      assert names[..i + 1][..i] == names[..i];
      if names[i] !in excluded {
        options := options + [names[i]];
      }
      i := i + 1;
    }
    assert names[..i] == names;
  }

  /** populatePlayerSelects' "new-batter-select": the batting side's players
      who have not fallen. The opening selects offer the whole list. */
  method NewBatterSelect(st: Status) returns (options: seq<string>)
    ensures forall n :: n in options <==> n in LiveTeams(st).0.players && n !in Fallen(st.fallOfWickets)
    ensures options == Without(LiveTeams(st).0.players, Fallen(st.fallOfWickets))
  {
    options := FillSelect(LiveTeams(st).0.players, Fallen(st.fallOfWickets));
    WithoutMembers(LiveTeams(st).0.players, Fallen(st.fallOfWickets));
  }

  /** The two current batters, as a set of names. */
  function AtCrease(st: Status): set<string>
  {
    (if st.striker.Some? then {st.striker.value} else {}) + (if st.nonStriker.Some? then {st.nonStriker.value} else {})
  }

  /** showNewBatterModal: the batting side's players who have neither fallen
      nor are at the crease. */
  method NewBatterModal(st: Status) returns (options: seq<string>)
    ensures forall n :: n in options <==>
              n in LiveTeams(st).0.players && n !in Fallen(st.fallOfWickets) &&
              st.striker != Some(n) && st.nonStriker != Some(n)
    ensures options == Without(LiveTeams(st).0.players, Fallen(st.fallOfWickets) + AtCrease(st))
  {
    options := FillSelect(LiveTeams(st).0.players, Fallen(st.fallOfWickets) + AtCrease(st));
    WithoutMembers(LiveTeams(st).0.players, Fallen(st.fallOfWickets) + AtCrease(st));
  }

  /** showSecondInningsModal's bowler select: every player, in list order,
      of the team it picks as bowling (team1 when its name is the bowling
      team's name, team2 otherwise). */
  function SecondInningsBowlers(st: Status): seq<string>
  {
    (if st.bowlingTeam == st.team1.name then st.team1 else st.team2).players
  }

  /** With distinct team names the bowler select offers exactly the players
      of the match's bowling side; once the first innings has ended, those
      are the players of the side that batted first. */
  lemma SecondInningsBowlersOfState(s: State)
    requires s.bowling.Some? && s.team1.name != s.team2.name
    ensures SecondInningsBowlers(StatusOf(s)) == TeamAt(s, s.bowling.value).players
    ensures s.batting.Some? && s.bowling == Some(Other(s.batting.value)) && s.currentInnings == 1 ==>
              SecondInningsBowlers(StatusOf(EndInnings(s))) == BattingTeam(s).players
  {
    if s.batting.Some? && s.bowling == Some(Other(s.batting.value)) && s.currentInnings == 1 {
      var r := EndInnings(s);
      assert r.bowling == s.batting && r.team1.name == s.team1.name && r.team2.name == s.team2.name;
      assert TeamAt(r, s.batting.value).players == BattingTeam(s).players;
    }
  }

  /** showSecondInningsModal's batting selects: the new batting side's
      players, less those of them in the fall of wickets. */
  method SecondInningsBatters(st: Status) returns (options: seq<string>)
    ensures options == Without(LiveTeams(st).0.players, Fallen(st.fallOfWickets))
  {
    var team := LiveTeams(st).0;
    var dismissed: set<string> := {};
    var i := 0;
    while i < |st.fallOfWickets|
      invariant 0 <= i <= |st.fallOfWickets|
      invariant dismissed == set w | w in st.fallOfWickets[..i] && w.player in team.players :: w.player
    {
      var w := st.fallOfWickets[i];
      assert st.fallOfWickets[..i + 1] == st.fallOfWickets[..i] + [w];
      if w.player in team.players {
        dismissed := dismissed + {w.player};
      }
      i := i + 1;
    }
    assert st.fallOfWickets[..i] == st.fallOfWickets;
    options := FillSelect(team.players, dismissed);
    WithoutMembers(team.players, dismissed);
    WithoutMembers(team.players, Fallen(st.fallOfWickets));
    WithoutSameOffers(team.players, dismissed, Fallen(st.fallOfWickets));
  }

  /** Two exclusions that agree on the listed names offer the same names. */
  lemma {:induction false} WithoutSameOffers(names: seq<string>, x: set<string>, y: set<string>)
    requires forall n :: n in names ==> (n in x <==> n in y)
    ensures Without(names, x) == Without(names, y)
    decreases |names|
  {
    if |names| > 0 {
      WithoutSameOffers(names[..|names| - 1], x, y);
    }
  }

  /** After the first innings ends the fall of wickets is empty, so the
      whole new batting side is offered to open. */
  lemma SecondInningsOffersWholeSide(s: State)
    requires s.batting.Some? && s.bowling.Some? && s.currentInnings == 1
    ensures Without(LiveTeams(StatusOf(EndInnings(s))).0.players, Fallen(StatusOf(EndInnings(s)).fallOfWickets)) ==
            LiveTeams(StatusOf(EndInnings(s))).0.players
  {
    var st := StatusOf(EndInnings(s));
    assert Fallen(st.fallOfWickets) == {};
    WithoutNothing(LiveTeams(st).0.players);
  }

  /** updateDismissedPlayerSelect: the striker, then the non-striker, each
      only when set. */
  function DismissedOptions(st: Status): (r: seq<string>)
  {
    (if Truthy(st.striker) then [st.striker.value] else []) + (if Truthy(st.nonStriker) then [st.nonStriker.value] else [])
  }

  /** Only the batters at the crease can be given out, the striker first. */
  lemma DismissedOptionsAtCrease(st: Status)
    ensures forall n :: n in DismissedOptions(st) <==> n != "" && (st.striker == Some(n) || st.nonStriker == Some(n))
    ensures |DismissedOptions(st)| <= 2
    ensures Truthy(st.striker) ==> DismissedOptions(st)[0] == st.striker.value
  {
  }

  // ------------------------------------------------------------ undo button

  /** updateUndoButtonState: on offer once the match has started and its
      overs hold a ball. */
  method UndoEnabled(st: Status) returns (enabled: bool)
    ensures enabled <==> st.isStarted && BallCount(st.overs) > 0
  {
    if !st.isStarted {
      return false;
    }
    var total := 0;
    var i := 0;
    while i < |st.overs|
      invariant 0 <= i <= |st.overs|
      invariant total + BallCount(st.overs[i..]) == BallCount(st.overs)
    {
      assert st.overs[i..][1..] == st.overs[i + 1..];
      total := total + |st.overs[i].balls|;
      i := i + 1;
    }
    enabled := total > 0;
  }

  /** When the button is on, undo_last_ball never answers "No balls to
      undo": it takes back a ball when it reaches one, and otherwise (an
      empty last over after an empty over) it steps back and raises. */
  lemma UndoButtonSafe(s: State)
    requires WellFormed(s) && Undoable(s)
    requires s.isStarted && BallCount(StatusOf(s).overs) > 0
    ensures HasBallToUndo(s)
    ensures FindsBall(s) ==> Undo(s).1 == UndoResult(true, "Last ball undone successfully")
    ensures !FindsBall(s) ==> Undo(s).1 == UndoRaised
  {
    if |s.overs| == 1 {
      assert BallCount(s.overs) == |s.overs[0].balls| + BallCount(s.overs[1..]);
    }
    UndoOutcome(s);
  }

  // ------------------------------------------------------------ forms

  /** The lines of a player list that are not blank, as typed. */
  function PlayerLines(text: string): seq<string>
  {
    Kept(Split(text, '\n'))
  }

  /** `filter((p) => p.trim())`: the lines whose trimmed text is not empty. */
  function Kept(lines: seq<string>): seq<string>
    decreases |lines|
  {
    if |lines| == 0 then []
    else (if Trim(lines[0]) == "" then [] else [lines[0]]) + Kept(lines[1..])
  }

  lemma {:induction false} KeptMembers(lines: seq<string>)
    ensures forall l :: l in Kept(lines) <==> l in lines && !IsBlank(l)
    decreases |lines|
  {
    if |lines| > 0 {
      KeptMembers(lines[1..]);
      TrimIsEmpty(lines[0]);
      assert lines == [lines[0]] + lines[1..];
    }
  }

  lemma {:induction false} KeptAll(lines: seq<string>)
    requires forall i :: 0 <= i < |lines| ==> !IsBlank(lines[i])
    ensures Kept(lines) == lines
    decreases |lines|
  {
    if |lines| > 0 {
      KeptAll(lines[1..]);
      TrimIsEmpty(lines[0]);
    }
  }

  /** A list typed one name per line comes back as the same names, in order. */
  lemma PlayerLinesRoundTrip(names: seq<string>)
    requires |names| > 0
    requires forall i :: 0 <= i < |names| ==> Free(names[i], '\n') && !IsBlank(names[i])
    ensures PlayerLines(Join("\n", names)) == names
  {
    SplitJoin(names, '\n');
    KeptAll(names);
  }

  /** What createMatch does with the form. */
  datatype CreateRequest =
    | MissingFields
    | TooFewPlayers
    | Create(team1: string, team2: string, totalOvers: string, tossWinner: string, tossDecision: string,
             team1Players: seq<string>, team2Players: seq<string>)

  function CreateMatchRequest(team1: string, team2: string, totalOvers: string, tossWinner: string, tossDecision: string,
                              team1Text: string, team2Text: string): CreateRequest
  {
    if team1 == "" || team2 == "" || totalOvers == "" || tossWinner == "" then MissingFields
    else
      var p1 := PlayerLines(team1Text);
      var p2 := PlayerLines(team2Text);
      if |p1| < 11 || |p2| < 11 then TooFewPlayers
      else Create(team1, team2, totalOvers, tossWinner, tossDecision, p1, p2)
  }

  /** A match is requested exactly when the four fields are filled and each
      list has at least eleven non-blank lines; the lists sent are those
      lines, none of them blank. */
  lemma CreateMatchRules(team1: string, team2: string, totalOvers: string, tossWinner: string, tossDecision: string,
                         team1Text: string, team2Text: string)
    ensures var r := CreateMatchRequest(team1, team2, totalOvers, tossWinner, tossDecision, team1Text, team2Text);
            (r.Create? <==> team1 != "" && team2 != "" && totalOvers != "" && tossWinner != "" &&
                            |PlayerLines(team1Text)| >= 11 && |PlayerLines(team2Text)| >= 11) &&
            (r.MissingFields? <==> team1 == "" || team2 == "" || totalOvers == "" || tossWinner == "") &&
            (r.Create? ==> forall l :: l in r.team1Players + r.team2Players ==>
                             !IsBlank(l) && (l in Split(team1Text, '\n') || l in Split(team2Text, '\n')))
  {
    KeptMembers(Split(team1Text, '\n'));
    KeptMembers(Split(team2Text, '\n'));
  }

  /** What startInnings and startSecondInnings do with their three selects. */
  datatype StartRequest = Refused(message: string) | Start(striker: string, nonStriker: string, bowler: string)

  function StartRequestOf(striker: string, nonStriker: string, bowler: string, missing: string): StartRequest
  {
    if striker == "" || nonStriker == "" || bowler == "" then Refused(missing)
    else if striker == nonStriker then Refused("Striker and non-striker must be different players")
    else Start(striker, nonStriker, bowler)
  }

  /** startInnings. */
  function StartInningsRequest(striker: string, nonStriker: string, bowler: string): StartRequest
  {
    StartRequestOf(striker, nonStriker, bowler, "Please select all opening players")
  }

  /** startSecondInnings. */
  function StartSecondInningsRequest(striker: string, nonStriker: string, bowler: string): StartRequest
  {
    StartRequestOf(striker, nonStriker, bowler, "Please select all players")
  }

  /** An innings is started exactly when all three players are chosen and
      the two openers differ; then the request carries them unchanged. */
  lemma StartRules(striker: string, nonStriker: string, bowler: string)
    ensures StartInningsRequest(striker, nonStriker, bowler).Start? <==> striker != "" && nonStriker != "" && bowler != "" && striker != nonStriker
    ensures StartSecondInningsRequest(striker, nonStriker, bowler).Start? <==> striker != "" && nonStriker != "" && bowler != "" && striker != nonStriker
    ensures StartInningsRequest(striker, nonStriker, bowler).Start? ==> StartInningsRequest(striker, nonStriker, bowler) == Start(striker, nonStriker, bowler)
    ensures StartSecondInningsRequest(striker, nonStriker, bowler).Start? ==> StartSecondInningsRequest(striker, nonStriker, bowler) == Start(striker, nonStriker, bowler)
  {
  }

  // ------------------------------------------------------------ ball entry

  /** The ball being entered. */
  datatype PendingBall = PendingBall(runs: int, isWicket: bool, extraType: Option<ExtraType>, extraRuns: int)

  const FreshBall := PendingBall(0, false, None, 0)

  /** What submitBall sends: extra runs only with an extra, the wicket type
      and the dismissed player only with a wicket. */
  datatype BallPayload = BallPayload(runs: int, isWicket: bool, extraType: Option<ExtraType>, extraRuns: Option<int>,
                                     wicketType: Option<string>, dismissedPlayer: Option<string>)

  /** `parseInt(field) || 1`: a missing or zero parse counts as one. */
  function ExtraRunsOrOne(parsed: Option<int>): (r: int)
  {
    if parsed.None? || parsed.value == 0 then 1 else parsed.value
  }

  /** The modal the panel opens after a ball_added report. */
  datatype Prompt = NoPrompt | MatchCompletePrompt | SecondInningsPrompt | NewBatterPrompt | NewBowlerPrompt

  /** Which modal a ball_added report opens, and the batter to ask for once
      the new bowler is set (only after an over that ended with a wicket). */
  function ReportPrompt(result: AddBallOutcome): (Prompt, Option<string>)
  {
    match result
    case MatchComplete(_, _, _) => (MatchCompletePrompt, None)
    case InningsComplete(n, _) => (if n == 2 then SecondInningsPrompt else NoPrompt, None)
    case WicketFell(_) => (NewBatterPrompt, None)
    case OverComplete(d) => (NewBowlerPrompt, d)
    case BallAdded => (NoPrompt, None)
    case NotStarted => (NoPrompt, None)
  }

  /** A batter is held back for later exactly when an over ended with a
      wicket, and it is the batter add_ball reported out. */
  lemma ReportPromptHoldsBatter(result: AddBallOutcome)
    ensures ReportPrompt(result).1.Some? <==> result.OverComplete? && result.dismissed.Some?
    ensures ReportPrompt(result).1.Some? ==> ReportPrompt(result).1 == result.dismissed && ReportPrompt(result).0 == NewBowlerPrompt
    ensures ReportPrompt(result).0 == NewBatterPrompt <==> result.WicketFell?
  {
  }

  class ControlPanel {
    var pendingBall: PendingBall
    var pendingNewBatter: Option<string>

    constructor()
      ensures pendingBall == FreshBall && pendingNewBatter == None
    {
      pendingBall := FreshBall;
      pendingNewBatter := None;
    }

    /** addRuns: the runs off the bat. */
    method AddRuns(runs: int)
      modifies this
      ensures pendingBall == old(pendingBall).(runs := runs) && pendingNewBatter == old(pendingNewBatter)
    {
      pendingBall := pendingBall.(runs := runs);
    }

    /** addExtra: choosing the selected kind again clears it; any other kind replaces it. */
    method AddExtra(kind: ExtraType)
      modifies this
      ensures old(pendingBall).extraType == Some(kind) ==> pendingBall == old(pendingBall).(extraType := None)
      ensures old(pendingBall).extraType != Some(kind) ==> pendingBall == old(pendingBall).(extraType := Some(kind))
      ensures pendingNewBatter == old(pendingNewBatter)
    {
      if pendingBall.extraType == Some(kind) {
        pendingBall := pendingBall.(extraType := None);
      } else {
        pendingBall := pendingBall.(extraType := Some(kind));
      }
    }

    /** toggleWicket. */
    method ToggleWicket()
      modifies this
      ensures pendingBall == old(pendingBall).(isWicket := !old(pendingBall).isWicket)
      ensures pendingNewBatter == old(pendingNewBatter)
    {
      pendingBall := pendingBall.(isWicket := !pendingBall.isWicket);
    }

    /** resetBallInput. */
    method ResetBallInput()
      modifies this
      ensures pendingBall == FreshBall && pendingNewBatter == old(pendingNewBatter)
    {
      pendingBall := FreshBall;
    }

    /** submitBall, given the parsed extra-runs field and the two wicket
      selects: nothing is sent for a wicket without a dismissed player. */
    function SubmitBall(extraRunsField: Option<int>, wicketTypeField: string, dismissedField: string): (r: Option<BallPayload>)
      reads this
    {
      if pendingBall.isWicket && dismissedField == "" then None
      else
        Some(BallPayload(pendingBall.runs, pendingBall.isWicket, pendingBall.extraType,
                         if pendingBall.extraType.Some? then Some(ExtraRunsOrOne(extraRunsField)) else None,
                         if pendingBall.isWicket then Some(wicketTypeField) else None,
                         if pendingBall.isWicket then Some(dismissedField) else None))
    }

    /** ball_added: the entry is cleared, the prompt chosen, and a batter is
      held back after an over that ended with a wicket. */
    method OnBallAdded(result: AddBallOutcome) returns (prompt: Prompt)
      modifies this
      ensures prompt == ReportPrompt(result).0
      ensures pendingBall == FreshBall
      ensures pendingNewBatter == (if result.OverComplete? && result.dismissed.Some? then result.dismissed else old(pendingNewBatter))
    {
      ResetBallInput();
      var p := ReportPrompt(result);
      prompt := p.0;
      if p.1.Some? {
        pendingNewBatter := p.1;
      }
    }

    /** bowler_set: a held-back batter is asked for now, and only once. */
    method OnBowlerSet() returns (askBatter: bool)
      modifies this
      ensures askBatter <==> Truthy(old(pendingNewBatter))
      ensures pendingNewBatter == (if askBatter then None else old(pendingNewBatter))
      ensures pendingBall == old(pendingBall)
    {
      askBatter := Truthy(pendingNewBatter);
      if askBatter {
        pendingNewBatter := None;
      }
    }
  }

  /** What the panel sends for a ball, by the pending entry: extra runs go
      with an extra only and are at least one unless typed negative; the
      wicket details go with a wicket only; a wicket without a dismissed
      player sends nothing. */
  lemma SubmitBallRules(panel: ControlPanel, extraRunsField: Option<int>, wicketTypeField: string, dismissedField: string)
    ensures var r := panel.SubmitBall(extraRunsField, wicketTypeField, dismissedField);
            (r.None? <==> panel.pendingBall.isWicket && dismissedField == "") &&
            (r.Some? ==> r.value.runs == panel.pendingBall.runs && r.value.isWicket == panel.pendingBall.isWicket &&
                         r.value.extraType == panel.pendingBall.extraType &&
                         (r.value.extraRuns.Some? <==> panel.pendingBall.extraType.Some?) &&
                         (r.value.extraRuns.Some? && (extraRunsField.None? || extraRunsField.value >= 0) ==> r.value.extraRuns.value >= 1) &&
                         (r.value.dismissedPlayer.Some? <==> panel.pendingBall.isWicket) &&
                         (r.value.dismissedPlayer.Some? ==> r.value.dismissedPlayer.value != ""))
  {
  }

  /** An over that ends with a wicket asks for the new bowler first and for
      the new batter once the bowler is set, and only that once. */
  method OverEndingWicket(panel: ControlPanel, dismissed: string) returns (prompt: Prompt, first: bool, second: bool)
    requires dismissed != ""
    modifies panel
    ensures prompt == NewBowlerPrompt && first && !second
  {
    prompt := panel.OnBallAdded(OverComplete(Some(dismissed)));
    first := panel.OnBowlerSet();
    second := panel.OnBowlerSet();
  }
}
