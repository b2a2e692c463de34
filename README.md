# Cricket live scorer — a verified model

The system scores a limited-overs cricket match. The scorer works from a control panel in the browser. The server keeps one `Match` object and changes it with every scoring event. A scoreboard page shows the match state, projected from the dictionary that `Match.get_current_status` returns.

This project models three parts of the system:

- **The scoring state machine** (`models.py`):
  - what a delivery, an over and its summary are;
  - the toss, the start of each innings and the opening partnership;
  - `add_ball`, with its over, wicket, all-out and chase endings;
  - `undo_last_ball` and the reversal of a ball's effects;
  - the end of an innings, the result line, and new bowlers and batters.
- **The scoreboard's projections** (`static/display.js`):
  - the team line's overs, the chase line and the toss line;
  - the partnership line and the bowler-card overs;
  - the strip of recent balls, with its text and markup;
  - the last-wicket line;
  - which team bats in which innings on the scorecard, the innings header, and the batting and bowling tables.
- **The control panel's own decisions** (`static/control.js`):
  - the panel's overs string and chase block;
  - which players each select offers;
  - the ball being entered and what is sent for it;
  - the follow-up prompts after a ball;
  - when undo is on offer;
  - the checks on the create-match and start-innings forms.

Layout, one module per file:

- `common.dfy` (`Common`): shared helpers.
  - `Option`;
  - number-to-text conversion and its read-back;
  - join and split;
  - ASCII case folding;
  - JavaScript `trim`.
- `deliveries.dfy` (`Deliveries`): `Ball` and `Over`, and the over summary.
- `scoring.dfy` (`Scoring`): the match as a value.
  - `State` holds a `Match`'s fields.
  - There is one function per `Match` method. Each method's private steps become smaller functions.
  - `WellFormed` is the invariant the methods keep.
- `scoring_props.dfy` (`ScoringProperties`): every operation keeps `WellFormed`. It also holds the ball-count facts and the figures one delivery adds.
- `scoring_laws.dfy` (`ScoringLaws`): what each operation does, as a scorer expects it.
- `scoring_undo.dfy` (`UndoLaws`): undo reverses add_ball, step by step.
- `match.dfy` (`MatchModel`): `Match` as a class whose methods update its fields in place.
  - Each method is proved to leave exactly the state given by the `Scoring` function of the same name.
  - Each method keeps `Valid()`.
- `status.dfy` (`MatchStatus`): the status dictionary the pages receive.
- `scoreboard.dfy` (`Scoreboard`): the scoreboard's projections.
- `control.dfy` (`Control`): the control panel, including the `ControlPanel` class that holds the pending ball and the batter still to be asked for.

Conventions:

- Python's `None` and JavaScript's `null`/`undefined` become `Option`.
- A value is truthy when it is present and not the empty string.
- Dictionary keys that the status never carries read as missing.
- Python raises `KeyError` or `AttributeError` when a named player is not registered, or when no team is batting. Those crash paths are kept out by preconditions; see "Left out".

## Model

| member | source | states |
|---|---|---|
| Deliveries.RunsAppend | models.py:93-95 | Runs conceded grow by exactly the new ball's runs plus extras. |
| Deliveries.WicketsAppend | models.py:97-99 | An over's wicket count grows by one exactly when the new ball is a wicket. |
| Deliveries.LegalBallsAppend | models.py:101-103 | Only balls that are neither a wide nor a no-ball add to the legal-ball count. |
| Deliveries.CompletingBall | models.py:105-107 | An unfinished over becomes complete exactly when a legal ball arrives after five legal balls. |
| Deliveries.Tokens | models.py:109-124 | There is one summary token per ball, and no token contains the space that separates them. |
| Deliveries.TokenHasNoSpace | models.py:113-123 | No summary token contains a space, whichever of the W / Wd / Nb / b / runs forms it takes. |
| Deliveries.SummaryTokens | models.py:109-124 | Splitting a summary at spaces gives back exactly one token per ball. |
| Deliveries.LegalBallsAll | models.py:101-103 | An over's legal-ball count equals its number of balls exactly when every ball is neither a wide nor a no-ball. |
| Scoring.AddBall | models.py:228-231 | add_ball on a match that has not started changes nothing and reports an error. |
| Scoring.AddBallFixed | models.py:228-231 | The corrected add_ball keeps the same refusal of an unstarted match. |
| Scoring.Credited | models.py:248-283 | Recording a ball keeps the teams batting and bowling, the bowler, the registered players, the overs, and the innings and finish flags. |
| Scoring.Delivered | models.py:248-287 | The same holds once strike has rotated, and the number of overs is unchanged. |
| Scoring.StepToBall | models.py:336-369 | Undo steps back over an empty trailing over onto the over before it: that over is dropped and the ends are swapped back. Otherwise nothing changes. The last over then holds a ball exactly when undo will find one; when it does not, the pop at line 372 raises. |
| Scoring.StepBackOverFacts | models.py:345-369 | Stepping back drops the empty over and nothing else: the over before becomes current under its own bowler, with current_ball set to its raw number of balls. The ends swap back. The batting team loses one over. The completed over's bowler loses one over, and a maiden when it had no runs and no wickets. Every other player, the other team and every other field are unchanged. |
| Scoring.PopBall | models.py:372 | Popping removes the last ball only; that ball's bowler is registered. |
| ScoringProperties.BallCountAppend | models.py:225-226 | Appending an over adds exactly its balls to the ball count. |
| ScoringProperties.BallCountZero | models.py:332-333 | No balls are recorded exactly when every over is empty. |
| ScoringProperties.HasBallToUndoIffBalls | models.py:333-342 | undo_last_ball's guard finds a ball exactly when at least one ball is recorded, for a started match whose only empty over is the trailing one. |
| ScoringProperties.NewMatchWellFormed | models.py:151-182 | A new match satisfies the invariant and has not started. |
| ScoringProperties.AddPlayerWellFormed | models.py:184-190 | add_player keeps the invariant. |
| ScoringProperties.SetTossWellFormed | models.py:192-210 | set_toss keeps the invariant. |
| ScoringProperties.StartInningsWellFormed | models.py:212-226 | start_innings keeps the invariant. |
| ScoringProperties.StartSecondInningsWellFormed | models.py:484-500 | start_second_innings keeps the invariant. |
| ScoringProperties.SetNewBowlerWellFormed | models.py:532-535 | set_new_bowler keeps the invariant. |
| ScoringProperties.SetNewBatterWellFormed | models.py:537-561 | set_new_batter keeps the invariant. |
| ScoringProperties.DeliveredWellFormed | models.py:248-287 | Recording a ball keeps the invariant. |
| ScoringProperties.EndInningsWellFormed | models.py:453-482 | _end_innings keeps the invariant. |
| ScoringProperties.CompleteOverWellFormed | models.py:428-451 | _complete_over keeps the invariant. |
| ScoringProperties.AddBallWellFormed | models.py:228-328 | add_ball, as written and corrected, keeps the invariant on every path. |
| ScoringProperties.UndoWellFormed | models.py:330-377 | undo_last_ball, as written and corrected, keeps the invariant. |
| ScoringProperties.UndoOutcome | models.py:332-377 | For every well-formed match, both versions of undo reply "No balls to undo" and change nothing exactly when no ball is recorded. They raise (IndexError) exactly when they step back onto an empty over, and then every recorded ball is still there, with one over fewer. They succeed exactly when they reach a ball, and then take away exactly one ball. |
| ScoringProperties.PopBallCount | models.py:372 | Popping the last ball lowers the ball count by one. |
| ScoringProperties.FaceBallFigures | models.py:253-256 | A legal ball adds one to the striker's balls, the partnership's balls and current_ball; other balls add nothing. No other figure changes. |
| ScoringProperties.CreditRunsFigures | models.py:259-268 | The striker gets the bat runs. The team, the bowler and the partnership get the total. A four or a six adds to the striker's boundary count. |
| ScoringProperties.RecordWicketFigures | models.py:273-283 | A wicket adds one to the team's wickets and the bowler's wickets, and to nothing else among the figures. |
| ScoringProperties.DeliveredFigures | models.py:248-287 | One delivery changes the striker's, the bowler's, the team's and the partnership's figures exactly as the three steps above describe. Every other player stays registered and unchanged, and so does the fielding team. |
| ScoringProperties.CreditedFrame | models.py:248-283 | Recording a ball, before strike rotates, touches no player other than the striker and the bowler, and leaves the fielding team unchanged. |
| ScoringLaws.AddPlayerRoster | models.py:184-190 | The player is registered with zero figures and listed last under exactly one team: team1 when the names match ignoring case. The other team is untouched. |
| ScoringLaws.StartInningsOpens | models.py:212-226 | The innings opens with the given pair and bowler at over 1, ball 0. A fresh partnership of the pair and an empty over 1 are appended. No ball is added. |
| ScoringLaws.SetNewBowlerOpensOver | models.py:532-535 | A new empty over opens under the current over number for the new bowler. No ball is added or lost. |
| ScoringLaws.SetNewBatterTakesEnd | models.py:537-561 | The new batter takes the non-striker's end only when the last wicket names the non-striker; otherwise they take the striker's end. The batter who stays and the new batter open a fresh partnership. Without a partnership nothing changes. |
| ScoringLaws.SetTossSides | models.py:192-210 | The batting and bowling teams always differ. The toss winner bats exactly when the decision is "bat". |
| ScoringLaws.TossWinnerSideByName | models.py:196-209 | The winner is team1 exactly when the names match ignoring case. |
| ScoringLaws.StartSecondInningsOutcome | models.py:484-500 | The call is refused unless innings 2 is due, and a refusal changes nothing. Otherwise the opening pair and bowler are set, with one fresh partnership and one empty over. |
| ScoringLaws.ChaseTargetIsOpponent | models.py:320-322 | The chase target is the other team's runs. |
| ScoringLaws.DetermineWinnerNames | models.py:502-530 | Only the winner and the result change. The higher scorer wins. When the runs are level the winner is "Tie" and the result "Match tied". |
| ScoringLaws.DetermineWinnerMargin | models.py:504-526 | Whichever team wins, team1 or team2, the result text is its name, " won by " and a margin. The margin's number reads back as 10 − wickets when the winner chased, and as the run difference otherwise. It ends in "wicket" or "run", with a plural "s" exactly when the number is not 1. |
| ScoringLaws.ChasedSides | models.py:505-524 | At most one team counts as having chased when the names differ ignoring case. When the toss winner matches a name and chose bat or bowl, at least one did, so exactly one when the names differ. When the toss winner matches neither name, neither did, and the result is given in runs. |
| ScoringLaws.DeliveredOvers | models.py:249-250 | The ball is appended to the last over and the ball count rises by one. |
| ScoringLaws.DeliveredStrike | models.py:285-287 | Odd bat runs without a wicket swap striker and non-striker; anything else keeps them. |
| ScoringLaws.DeliveredFallOfWickets | models.py:273-283 | A wicket appends exactly one fall-of-wickets entry. It names the dismissed player, or else the striker, and gives the team score, "over.ball" and the stand after the ball. Other balls leave the list alone. |
| ScoringLaws.CompleteOverFacts | models.py:428-451 | Completing an over swaps the ends and moves to the next over at ball 0. It adds one over to the team and to the bowler, and adds a maiden exactly when the over had no runs and no wickets. |
| ScoringLaws.CompleteOverEndsInnings | models.py:445-448 | Once the overs run out or ten wickets are down, completing the over ends the innings. |
| ScoringLaws.EndFirstInnings | models.py:455-475 | After innings 1: innings 2 starts and the teams swap. Play resets to over 1, ball 0. Partnerships and the fall of wickets are cleared. The new batting side starts at 0/0 in 0 overs, and the three player slots are emptied. |
| ScoringLaws.EndSecondInnings | models.py:477-482 | After innings 2 the match is finished and the winner decided; it is tied exactly when the runs are level. |
| ScoringLaws.ConcludeOutcomes | models.py:289-328 | After a ball, each report matches its case. "over_complete" comes with a completed over and names the dismissed batter after a wicket. "wicket" comes with fewer than ten down. "ball_added" comes only with no wicket, an open over and no chase won. A reached target finishes the match. "innings_complete" names the innings now current and leaves either the completed over with the flag lowered or the ended innings. "match_complete" reports the finished match's winner and result. |
| ScoringLaws.OverPathOutcomes | models.py:289-307 | A completed over reports the match complete, the innings complete or the over complete. "innings_complete" leaves the completed over with the flag lowered, the match not finished, and names the innings now current. "match_complete" reports the winner and result of the finished match. |
| ScoringLaws.AllOutOutcomes | models.py:311-317 | The tenth wicket reports the match complete or the innings complete. "innings_complete" leaves the ended innings, with innings 2 current, the match not finished and the flag still raised. "match_complete" reports the winner and result of the finished match. |
| ScoringLaws.ChaseOrBallOutcomes | models.py:320-328 | In innings 2 the match ends exactly when the batting side passes the other side's runs. Otherwise the report is "ball_added" and nothing changes. |
| ScoringLaws.DeliveredCompletesOver | models.py:105-107 | A ball completes the over exactly when it is the sixth legal ball. |
| ScoringLaws.AddBallOutcomes | models.py:228-328 | A started match never reports "not started". "ball_added" and "wicket" leave the recorded ball and nothing more. "over_complete" leaves the completed over. "innings_complete" names the innings now current and leaves either the completed over with the flag lowered or the ended innings. "match_complete" leaves a finished match whose winner and result it reports. |
| ScoringLaws.AllOutLeavesFlag | models.py:311-317 | As written: the all-out path in innings 1 leaves the innings-ended flag raised. |
| ScoringLaws.RaisedFlagMisreports | models.py:294-301 | As written: with that flag raised, the next completed over in innings 2 reports "innings_complete" although the innings goes on. |
| ScoringLaws.ConcludeFixedFlag | models.py:289-317 | Corrected: the flag never stays raised, and "innings_complete" is reported only when innings 1 gives way to innings 2. |
| ScoringLaws.AddBallFixedFlag | models.py:228-328 | Corrected add_ball never leaves the flag raised, and reports "innings_complete" only when moving to innings 2. |
| UndoLaws.LegalInverse | models.py:400-403 | Taking back a legal ball's counts restores the state from before they were added. |
| UndoLaws.RunsInverse | models.py:382-397 | Taking back the runs of a ball restores the players, the teams and the partnerships exactly. |
| UndoLaws.PopDelivered | models.py:249-250 | Popping the last ball after a delivery gives back that ball and the state before it was appended. |
| UndoLaws.ReverseFixedCredited | models.py:379-426 | Corrected: reversing a ball without a wicket, strike rotation first, restores the state from before the ball. |
| UndoLaws.ReverseCreditedEven | models.py:379-426 | As written, reversing works for balls without a wicket and with even runs. |
| UndoLaws.ReverseCreditedOdd | models.py:381-426 | As written, for odd runs the striker's runs stay credited and the non-striker loses them, because the runs are taken from the post-swap striker. |
| UndoLaws.CreditedOddSwaps | models.py:285-287 | After odd runs without a wicket the recorded state is the credited state with the ends swapped. |
| UndoLaws.UndoAfterAddBall | models.py:228-377 | Corrected undo right after a "ball_added" ball without a wicket gives back the match exactly. As written, this holds only when the runs are even. |
| UndoLaws.UndoAfterOddRuns | models.py:228-426 | As written, undo right after odd runs leaves the striker with those runs and takes them off the non-striker. |
| UndoLaws.UndoDelivered | models.py:330-426 | Corrected undo right after a ball without a wicket gives back the match before the ball, whatever add_ball then concluded. |
| UndoLaws.StepBackCompletedOver | models.py:345-369 | After _complete_over and set_new_bowler, stepping back gives the state the over was completed from, except current_ball. The corrected step sets current_ball to the over's legal balls, the step as written to its raw number of balls. |
| UndoLaws.UndoAcrossBoundary | models.py:330-377 | Corrected: undo after set_new_bowler has opened the next over does what undo did before the over was completed. |
| UndoLaws.UndoAfterOverComplete | models.py:330-377 | Corrected: after an "over_complete" ball and set_new_bowler, undo gives back the match before the ball exactly. |
| UndoLaws.UndoAcrossBoundaryWritten | models.py:345-377 | As written: undo after set_new_bowler steps back with current_ball at the over's raw number of balls. It then succeeds with current_ball one lower for a legal last ball. |
| UndoLaws.UndoAfterOverCompleteWritten | models.py:345-377 | As written: after an "over_complete" ball and set_new_bowler, undo leaves current_ball at the over's raw number of balls. When the over held a wide or a no-ball the match is not restored. |
| UndoLaws.ReverseCreditedWicket | models.py:379-426 | Reversing a wicket ball, as written or corrected, takes back its runs, its legal ball, the team's and the bowler's wicket and the fall-of-wickets entry, and puts back the batters. It also drops the latest partnership and makes the one before current when both batters are named and more than one partnership is listed. |
| UndoLaws.UndoAfterWicket | models.py:330-426 | Undo right after a "wicket" reply, as written or corrected, gives back the match before the ball, except for that partnership step. |
| MatchModel.Match.constructor | models.py:151-182 | The fields start as in Match.__init__. |
| MatchModel.Match.AddPlayer | models.py:184-190 | The fields change as add_player describes, and the invariant holds. |
| MatchModel.Match.SetToss | models.py:192-210 | The fields change as set_toss describes. |
| MatchModel.Match.StartInnings | models.py:212-226 | The fields change as start_innings describes. |
| MatchModel.Match.StartSecondInnings | models.py:484-500 | The fields change as start_second_innings describes, with the refusal. |
| MatchModel.Match.SetNewBowler | models.py:532-535 | The fields change as set_new_bowler describes. |
| MatchModel.Match.SetNewBatter | models.py:537-561 | The fields change as set_new_batter describes. |
| MatchModel.Match.DetermineWinner | models.py:502-530 | Winner and result are set as _determine_winner describes. |
| MatchModel.Match.EndInnings | models.py:453-482 | The fields change as _end_innings describes. |
| MatchModel.Match.CompleteOver | models.py:428-451 | The fields change as _complete_over describes. |
| MatchModel.Match.AddBall | models.py:228-328 | The fields and the report are those of the corrected add_ball, and the invariant holds. |
| MatchModel.Match.ReverseBallEffects | models.py:379-426 | The fields change as the corrected reversal describes. |
| MatchModel.Match.UndoLastBall | models.py:330-377 | The fields and the reply are those of the corrected undo_last_ball on every path, the IndexError path included, and the invariant holds. |
| MatchStatus.PlayersViewOf | models.py:590 | Every registered player appears in the status under their own name, with the eight figures a player carries. is_out, dismissal_type, bowler_name, balls and balls_bowled are never present. |
| MatchStatus.StatusPlayersRoundTrip | models.py:590 | Reading a player's status record back, under the player's name, gives exactly that player. |
| MatchStatus.LiveTeamsOfState | static/display.js:244-251 | The scoreboard's batting/bowling pick, matched by name, gives the batting team and the other team. |
| Scoreboard.DotPairSplits | static/display.js:282-287 | An "a.b" string splits back into the two numbers. |
| Scoreboard.OversTextReadsBack | static/display.js:282-287 | The team line's overs read back as completed overs and balls, and stand for (current_over − 1)·6 + current_ball balls. |
| Scoreboard.ChaseOfState | static/display.js:348-363 | Target = other side's runs + 1. Runs needed ≤ 0 exactly when the chase is won. Balls remaining plus balls bowled equal total_overs·6. In innings 2 the target line shows those numbers. |
| Scoreboard.TossLine | static/display.js:398-411 | Otherwise the line reads "{winner} OPT TO BAT" or "{winner} OPT TO BOWL". |
| Scoreboard.GlyphClassCases | static/display.js:748-793 | "wicket-ball" exactly for wickets. "extra-ball" exactly for non-wicket extras. "six-ball" or "four-ball" only for plain 6s and 4s. No class otherwise. |
| Scoreboard.GlyphShape | static/display.js:717-746 | A glyph is never empty and has no space or angle bracket. It is "W" exactly for a wicket. |
| Scoreboard.GlyphAgreesWithSummary | static/display.js:717-746 | For a wicket or a ball without extras, the glyph equals the over-summary token. |
| Scoreboard.AllBallsCount | static/display.js:607-625 | The strip collects exactly as many balls as are recorded. |
| Scoreboard.CollectBalls | static/display.js:607-625 | The loop collects every ball of every over in play order, each tagged with its over and position. |
| Scoreboard.FormatOverBallsSplits | static/display.js:717-746 | Space-separated glyph text splits back into one glyph per ball. |
| Scoreboard.InOverMembers | static/display.js:690-700 | "This over" holds exactly the recent balls tagged with the current over. |
| Scoreboard.StripWindows | static/display.js:607-713 | The strip is shown exactly when a ball exists. It holds the last min(12, n) balls, and the total is their runs. "previous-over" followed by "over-balls" is the whole recent text when there are more than six balls; otherwise "previous-over" is empty. |
| Scoreboard.StripOfState | static/display.js:607-625 | For any match, the strip is shown exactly when a ball has been recorded. |
| Scoreboard.BallHtmlVisible | static/display.js:795-840 | A ball's markup shows exactly its glyph as text, and its tags are closed. |
| Scoreboard.BallsHtmlVisible | static/display.js:748-840 | The markup of a strip shows exactly the glyphs, in order. |
| Scoreboard.PartnershipBallsAlwaysZero | static/display.js:441-468 | As written, the partnership line always shows 0 balls. |
| Scoreboard.PartnershipBallsMissed | static/display.js:441-468 | As written, a striker who has faced a ball still gives "0 (0)"; the corrected line gives "0 (1)". |
| Scoreboard.PartnershipLineShowsPair | static/display.js:441-468 | Corrected: the line shows the two batters' runs and balls faced. |
| Scoreboard.BowlerOversAgree | static/display.js:557-565 | The bowler card and the scorecard agree for the active bowler mid-over. At ball 0 the card shows "n.0" and the scorecard "n". Other bowlers show "n". |
| Scoreboard.LastWicketOfState | static/display.js:876-915 | "Last Wkt: {player} ({runs}/{team wickets}, {over})" for the last fall-of-wickets entry. |
| Scoreboard.NoWicketsYet | static/display.js:876-915 | With no wicket down the line reads "No wickets". |
| Scoreboard.InningsSides | static/display.js:1100-1195 | The two innings always get different batting teams. The bowling team of an innings is the batting team of the other. |
| Scoreboard.TossDecidesFirstInnings | static/display.js:1100-1147 | A toss winner with "bat" bats first and with "bowl" bowls first. With no usable toss, team1 bats first. |
| Scoreboard.ScorecardAgreesWithToss | static/display.js:1100-1147 | After set_toss, the scorecard's first batting team is the one the match sent in. |
| Scoreboard.ScorecardAgreesAfterInnings | static/display.js:1100-1147 | After the first innings the scorecard's second batting team is the one now batting. |
| Scoreboard.HeaderMatchesTeamLine | static/display.js:1221-1254 | The current innings' header shows the batting team's runs/wickets and the same overs as the team line. |
| Scoreboard.HeaderTeamNames | static/display.js:1221-1232 | When the scorecard agrees on who bats now, the current innings' header names the batting team and the other header the bowling team. An empty name shows as "Team". |
| Scoreboard.BattingRowsMembers | static/display.js:1256-1332 | A row appears exactly for listed players who scored, faced a ball or are out, with their own figures. |
| Scoreboard.BattingRowsAppend | static/display.js:1256-1332 | Rows keep team-list order. |
| Scoreboard.ExtrasPartsShape | static/display.js:1316-1332 | The extras text lists only the non-zero kinds, b before lb before w before nb. |
| Scoreboard.LiveExtrasText | static/display.js:1316-1332 | The live status carries no extras breakdown, so the text is "0 ()". |
| Scoreboard.LiveBattingRows | static/display.js:1270-1301 | In the live status every batter is "not out". A batter has a row exactly when they have runs or have faced a ball. |
| Scoreboard.BattingTable | static/display.js:1256-1332 | The loop builds the rows and extras of the innings' batting team. |
| Scoreboard.BowlingRowsMembers | static/display.js:1335-1406 | A row appears exactly for listed players who have bowled, with their own figures. |
| Scoreboard.BowlingTable | static/display.js:1335-1406 | The loop builds the rows of the innings' bowling team. |
| Control.ControlOversVersusScoreboard | static/control.js:398-408 | The panel agrees with the scoreboard once a ball of the over is bowled. At ball 0 of the second or a later over the panel shows "0.0" and the scoreboard does not. |
| Control.ControlTargetAgrees | static/control.js:416-457 | The chase block is hidden exactly outside innings 2. In innings 2 it shows the scoreboard's target, runs needed and balls remaining. |
| Control.WithoutMembers | static/control.js:604-637 | A name is offered exactly when it is listed and not excluded. |
| Control.WithoutAppend | static/control.js:604-637 | Offers keep list order. |
| Control.FillSelect | static/control.js:325-335 | The loop offers the listed names that are not excluded, in order. |
| Control.NewBatterSelect | static/control.js:295-335 | The new-batter select offers exactly the batting side's players who have not fallen. |
| Control.NewBatterModal | static/control.js:604-637 | The new-batter modal also leaves out the two batters at the crease. |
| Control.SecondInningsBatters | static/control.js:176-216 | The second-innings selects offer the new batting side less its fallen players. |
| Control.SecondInningsBowlersOfState | static/control.js:183-227 | With distinct team names, the bowler select offers exactly the bowling side's players, in order. After the first innings that is the side that batted first. |
| Control.SecondInningsOffersWholeSide | static/control.js:176-216 | After the first innings ends, the whole new batting side is offered. |
| Control.DismissedOptionsAtCrease | static/control.js:355-376 | Only the batters at the crease can be given out, striker first. Empty names are skipped. |
| Control.UndoEnabled | static/control.js:532-571 | Undo is on offer exactly when the match has started and a ball is recorded. |
| Control.UndoButtonSafe | static/control.js:532-571 | When the button is on, undo_last_ball never replies "No balls to undo": it succeeds when it reaches a ball, and raises when it steps back from an empty last over onto an empty over. |
| Control.PlayerLinesRoundTrip | static/control.js:704-711 | A list typed one name per line reads back as the same names. |
| Control.CreateMatchRules | static/control.js:698-738 | A match is requested exactly when the four fields are filled and each team lists at least 11 non-blank lines. Missing fields are refused first. Only non-blank lines are sent. |
| Control.StartRules | static/control.js:751-775 | An innings starts exactly when all three players are chosen and the openers differ. |
| Control.ReportPromptHoldsBatter | static/control.js:80-95 | A batter is held back exactly after an over that ended with a wicket. "wicket" alone asks for a batter. |
| Control.ControlPanel.constructor | static/control.js:2-24 | The panel starts with a fresh ball and no batter held back. |
| Control.ControlPanel.AddRuns | static/control.js:776-786 | Only the pending runs change. |
| Control.ControlPanel.AddExtra | static/control.js:788-805 | The same extra clears the selection; another extra replaces it. |
| Control.ControlPanel.ToggleWicket | static/control.js:807-824 | The wicket flag flips. |
| Control.ControlPanel.ResetBallInput | static/control.js:496-503 | The pending ball returns to 0 runs, no wicket, no extra. |
| Control.ControlPanel.OnBallAdded | static/control.js:76-100 | The entry is cleared, the prompt follows the report, and the dismissed batter is held back after an over that ended with a wicket. |
| Control.ControlPanel.OnBowlerSet | static/control.js:103-112 | A held batter is asked for once, then cleared. |
| Control.SubmitBallRules | static/control.js:826-850 | A wicket without a dismissed player sends nothing. Extra runs are sent only with an extra, at least 1 unless typed negative. Wicket details are sent only with a wicket. |
| Control.OverEndingWicket | static/control.js:86-112 | After an over ending in a wicket the panel asks for the bowler, then the batter once, and not again. |

## Left out

- Network and browser plumbing is not modelled: app.py's routes and Socket.IO handlers, the DOM, modals, toasts, timers and console logging. The pages receive the status as a value.
- Saving and loading a match and the reflective serializer are not modelled. Neither is the timestamp-based match id.
- Floating-point rates are left out: strike rate, economy, average, run rates, the required run rate and its colour tiers.
- The Python crash paths are excluded by preconditions: a striker or bowler not in `players` (`KeyError`), and add_ball or undo with no batting team (`AttributeError`).
- `Scoring.CompleteOver`, `Scoring.Credited` and `MatchModel.Match.AddBall` require the named players to be registered. The source raises `KeyError` there instead.
- Control.UndoButtonSafe: the button stays on when undo steps back from an empty last over onto an empty over and raises IndexError. The lemma states that reply; it does not claim a ball is taken back then.
- MatchModel.Match.UndoLastBall, Scoring.Undo and Scoring.UndoFixed require, once a ball is reached, an open partnership and registered batters. The source raises `AttributeError` or `KeyError` there instead. The IndexError raised when undo steps back onto an empty over is modelled, as the reply `UndoRaised`.
- UndoLaws: no lemma states what undo does once set_new_batter has followed a wicket. Scoring.Undo computes it: the ball's runs come off whoever is on strike then, and the partnership set_new_batter opened is dropped. UndoLaws.UndoAfterWicket covers undo before set_new_batter. Likewise no lemma states undo after a ball that ended an innings, or after a wicket that also completed an over.
- `overs_bowled` and `Team.overs` are floats in the source. They are modelled as integers because they only change by ±1; the scorecard's `Math.floor` and rounding of them are therefore the identity.
- Scoreboard.ScorecardOvers: does not model the floating-point `overs + e/10` sum. It states the "c.e" split for e from 0 to 9 only.
- Scoreboard.ChaseOfState: requires current_over ≥ 1. At current_over 0 the ball arithmetic goes negative, and the source shows it as is.
- Scoreboard.LiveTeamsOfState: requires distinct team names. The scoreboard picks the batting team by name, and equal names make the pick ambiguous.
- The display's toss resolution on the scorecard compares names case-sensitively. The server compares them ignoring case. The model keeps both, and Scoreboard.ScorecardAgreesWithToss requires names that differ ignoring case.
- The status never carries an extras breakdown, a batter's `is_out` or a `dismissal_type`. The tables are modelled over them, and the live values are what Scoreboard.LiveExtrasText and Scoreboard.LiveBattingRows state.
- The batter and bowler cards' other text is not modelled: names, "Yet to bat", the "1st/2nd Innings" label and the stats bar.
- `parseInt` of the total-overs field is not modelled. The overs field is passed on as text.
- Control.SubmitBall takes the extra-runs field already parsed: `None` when `parseInt` gives NaN.
- Python `str.lower` and JavaScript `toUpperCase` are modelled for ASCII letters only.
- JavaScript `trim` uses the fixed list of whitespace code points the language defines; line terminators beyond `\n` are treated as whitespace.
- The flag and image fields of a team are not modelled.

## Findings

| source | as written | input that shows it | evidently intended | confidence | as-written member | corrected member |
|---|---|---|---|---|---|---|
| models.py:379-426 | After odd runs, add_ball swaps the ends. `_reverse_ball_effects` then takes the runs, boundaries and balls faced off the current striker, who is the old non-striker, and only afterwards swaps back. | Striker A, non-striker B. add_ball(1) then undo_last_ball(): A keeps the run and B goes to −1. | Swap back first, then take the figures off the batter who faced the ball. | high (not executed) | UndoLaws.ReverseCreditedOdd, UndoLaws.UndoAfterOddRuns | UndoLaws.ReverseFixedCredited, UndoLaws.UndoAfterAddBall, MatchModel.Match.UndoLastBall |
| static/display.js:441-468 | The partnership line adds up `players[name].balls`, a key the status never has, so balls always show as 0. | Striker "a" with balls_faced 1 shows "0 (0)". | Add up `balls_faced`, giving "0 (1)". | high (not executed) | Scoreboard.PartnershipBallsMissed, Scoreboard.PartnershipBallsAlwaysZero | Scoreboard.PartnershipLineShowsPair |
| models.py:311-317 | The tenth-wicket path calls `_end_innings`, which raises `_innings_just_ended`, and never lowers it again. | All out in innings 1 mid-over. In innings 2 the first over that completes, with the innings going on, reports "innings_complete". | Lower the flag on that path, as the over path does at line 297. | high (not executed) | ScoringLaws.AllOutLeavesFlag, ScoringLaws.RaisedFlagMisreports | ScoringLaws.AddBallFixedFlag, ScoringLaws.ConcludeFixedFlag, MatchModel.Match.AddBall |
| models.py:353 | Stepping back over an over boundary sets `current_ball` to the completed over's number of balls, wides and no-balls included. `current_ball` counts legal balls only. | An over of six legal balls and one wide. Its last ball completes it, set_new_bowler opens the next over, then undo_last_ball(): `current_ball` becomes 7 − 1 = 6, not 5. The over shows ball 6 although it now holds five legal balls. | Set `current_ball` to the over's legal-ball count. | high (not executed) | UndoLaws.UndoAcrossBoundaryWritten, UndoLaws.UndoAfterOverCompleteWritten | UndoLaws.StepBackCompletedOver, UndoLaws.UndoAcrossBoundary, UndoLaws.UndoAfterOverComplete, MatchModel.Match.UndoLastBall |
