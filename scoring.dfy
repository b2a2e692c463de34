/** The ball-by-ball bookkeeping of models.py's Match, stated on values: a
    State holds every field of a Match, and each function below gives the
    state (and the reply) that the Match method of the same name produces.
    The class in match.dfy performs the same updates in place and is proved
    to agree with these functions. */
module Scoring {
  import opened Common
  import opened Deliveries

  datatype Player = Player(
    name: string,
    runs: int,
    ballsFaced: int,
    fours: int,
    sixes: int,
    oversBowled: int,
    runsConceded: int,
    wicketsTaken: int,
    maidens: int)

  function NewPlayer(name: string): Player
  {
    Player(name, 0, 0, 0, 0, 0, 0, 0, 0)
  }

  datatype Team = Team(name: string, players: seq<string>, runs: int, wickets: int, overs: int, extras: int)

  /** batter1/batter2 are optional because a new partnership can be opened
      while the other end is empty (between innings). */
  datatype Partnership = Partnership(batter1: Option<string>, batter2: Option<string>, runs: int, balls: int)

  /** One fall-of-wickets entry: who, the team score, "over.ball" and the stand. */
  datatype Wicket = Wicket(player: string, runs: int, over: string, partnership: int)

  datatype Side = Team1 | Team2

  function Other(side: Side): (r: Side)
    ensures r != side
  {
    if side == Team1 then Team2 else Team1
  }

  /** Every field of a Match. `batting`/`bowling` say which of team1/team2
      the batting_team/bowling_team references point at. */
  datatype State = State(
    team1: Team,
    team2: Team,
    totalOvers: int,
    currentInnings: int,
    tossWinner: string,
    tossDecision: string,
    batting: Option<Side>,
    bowling: Option<Side>,
    striker: Option<string>,
    nonStriker: Option<string>,
    bowler: Option<string>,
    currentOver: int,
    currentBall: int,
    overs: seq<Over>,
    players: map<string, Player>,
    partnerships: seq<Partnership>,
    currentPartnership: Option<Partnership>,
    fallOfWickets: seq<Wicket>,
    isStarted: bool,
    isFinished: bool,
    winner: string,
    matchResult: string,
    inningsJustEnded: bool)

  /** What add_ball reports back to the control panel. */
  datatype AddBallOutcome =
    | NotStarted
    | MatchComplete(winner: string, result: string, targetReached: bool)
    | InningsComplete(newInnings: int, dismissed: Option<string>)
    | OverComplete(dismissed: Option<string>)
    | WicketFell(fallen: string)
    | BallAdded

  /** What undo_last_ball reports, or the IndexError it raises when it has
      stepped back over an empty last over onto an over that is empty too. */
  datatype UndoResult = UndoResult(success: bool, message: string) | UndoRaised

  // ------------------------------------------------------------ accessors

  function TeamAt(s: State, side: Side): Team
  {
    if side == Team1 then s.team1 else s.team2
  }

  function WithTeam(s: State, side: Side, t: Team): State
  {
    s.(team1 := if side == Team1 then t else s.team1, team2 := if side == Team2 then t else s.team2)
  }

  function BattingTeam(s: State): Team
    requires s.batting.Some?
  {
    TeamAt(s, s.batting.value)
  }

  function WithBattingTeam(s: State, t: Team): State
    requires s.batting.Some?
  {
    WithTeam(s, s.batting.value, t)
  }

  function WithPlayer(s: State, name: string, p: Player): State
  {
    s.(players := s.players[name := p])
  }

  /** current_partnership is the same object as the last entry of
      partnerships whenever that list is non-empty, so changing one changes
      the other. */
  function WithPartnership(s: State, p: Partnership): State
  {
    s.(currentPartnership := Some(p),
       partnerships := if s.partnerships == [] then [] else s.partnerships[..|s.partnerships| - 1] + [p])
  }

  function LastOver(s: State): Over
    requires |s.overs| > 0
  {
    s.overs[|s.overs| - 1]
  }

  predicate Registered(s: State, name: Option<string>)
  {
    name.Some? && name.value in s.players
  }

  /** Total number of balls recorded in a list of overs. */
  function BallCount(overs: seq<Over>): nat
    decreases |overs|
  {
    if |overs| == 0 then 0 else |overs[0].balls| + BallCount(overs[1..])
  }

  // ------------------------------------------------------------ invariant

  /** Every player registered in m is still registered in m2. */
  predicate Retains(m: map<string, Player>, m2: map<string, Player>)
  {
    forall k :: k in m ==> k in m2
  }

  predicate BallsBowledBy(balls: seq<Ball>, names: map<string, Player>)
  {
    forall j :: 0 <= j < |balls| ==> balls[j].bowler in names
  }

  /** Every ball in the overs was bowled by one of the named players. */
  predicate BowledBy(overs: seq<Over>, names: map<string, Player>)
    decreases |overs|
  {
    |overs| == 0 || (BallsBowledBy(overs[0].balls, names) && BowledBy(overs[1..], names))
  }

  lemma {:induction false} BowledByAppend(overs: seq<Over>, o: Over, names: map<string, Player>)
    ensures BowledBy(overs + [o], names) <==> BowledBy(overs, names) && BallsBowledBy(o.balls, names)
    decreases |overs|
  {
    if |overs| == 0 {
      assert (overs + [o])[0] == o && (overs + [o])[1..] == [];
    } else {
      assert (overs + [o])[0] == overs[0] && (overs + [o])[1..] == overs[1..] + [o];
      BowledByAppend(overs[1..], o, names);
    }
  }

  lemma {:induction false} BowledByMore(overs: seq<Over>, names: map<string, Player>, more: map<string, Player>)
    requires BowledBy(overs, names) && Retains(names, more)
    ensures BowledBy(overs, more)
    decreases |overs|
  {
    if |overs| > 0 {
      BowledByMore(overs[1..], names, more);
    }
  }

  /** Every bowler of a run of overs bowled the overs before the last one
      and every ball of the last one. */
  lemma BowledByFront(overs: seq<Over>, names: map<string, Player>)
    requires |overs| > 0 && BowledBy(overs, names)
    ensures BowledBy(overs[..|overs| - 1], names) && BallsBowledBy(overs[|overs| - 1].balls, names)
  {
    assert overs == overs[..|overs| - 1] + [overs[|overs| - 1]];
    BowledByAppend(overs[..|overs| - 1], overs[|overs| - 1], names);
  }

  /** Dropping the last over and putting back a prefix of its balls keeps every bowler known. */
  lemma BowledByTrim(overs: seq<Over>, names: map<string, Player>, k: nat)
    requires |overs| > 0 && BowledBy(overs, names) && k <= |overs[|overs| - 1].balls|
    ensures BowledBy(overs[..|overs| - 1], names)
    ensures var last := overs[|overs| - 1];
            BowledBy(overs[..|overs| - 1] + [last.(balls := last.balls[..k])], names)
    ensures BallsBowledBy(overs[|overs| - 1].balls, names)
  {
    BowledByFront(overs, names);
    var front, last := overs[..|overs| - 1], overs[|overs| - 1];
    var cut := last.(balls := last.balls[..k]);
    assert BallsBowledBy(cut.balls, names) by {
      forall j | 0 <= j < |cut.balls|
        ensures cut.balls[j].bowler in names
      {
        assert cut.balls[j] == last.balls[j];
      }
    }
    BowledByAppend(front, cut, names);
  }

  predicate BowlersRegistered(s: State)
  {
    BowledBy(s.overs, s.players)
  }

  /** The current partnership is the last one listed (the same object in the source). */
  predicate PartnershipLinked(s: State)
  {
    s.partnerships != [] ==> s.currentPartnership == Some(s.partnerships[|s.partnerships| - 1])
  }

  /** What every Match keeps true between calls: the two team references are
      both set or both unset and never the same team; the current partnership
      is the last one listed; a started match has a partnership and an over;
      no ball is recorded before the start; every recorded bowler is a player. */
  predicate WellFormed(s: State)
  {
    (s.batting.Some? <==> s.bowling.Some?) &&
    (s.batting.Some? ==> s.batting.value != s.bowling.value) &&
    PartnershipLinked(s) &&
    (s.isStarted ==> s.currentPartnership.Some? && |s.overs| > 0) &&
    (!s.isStarted ==> BallCount(s.overs) == 0) &&
    BowlersRegistered(s)
  }

  /** What add_ball needs beyond the invariant in order not to raise: the
      striker and the bowler are registered players and the toss has set the
      batting side. */
  predicate Scorable(s: State)
  {
    Registered(s, s.striker) && Registered(s, s.bowler) &&
    s.batting.Some? && s.bowling.Some? && s.currentPartnership.Some? && |s.overs| > 0
  }

  // ------------------------------------------------------------ set-up

  /** Match.__init__: the three player slots start as empty names, and the
      "innings just ended" flag starts down (the attribute is absent). */
  function NewMatch(team1Name: string, team2Name: string, totalOvers: int): State
  {
    State(Team(team1Name, [], 0, 0, 0, 0), Team(team2Name, [], 0, 0, 0, 0), totalOvers, 1, "", "",
          None, None, Some(""), Some(""), Some(""), 0, 0, [], map[], [], None, [], false, false, "", "", false)
  }

  /** add_player: (re)registers the player with zero figures and lists the
      name under team1 when the team name matches team1's ignoring case,
      under team2 otherwise. */
  function AddPlayer(s: State, name: string, team: string): State
  {
    var side := if SameIgnoringCase(team, s.team1.name) then Team1 else Team2;
    var t := TeamAt(s, side);
    WithTeam(WithPlayer(s, name, NewPlayer(name)), side, t.(players := t.players + [name]))
  }

  /** The side named by the toss winner: team1 when the names match ignoring
      case, otherwise team2. */
  function TossWinnerSide(s: State, winner: string): Side
  {
    if SameIgnoringCase(winner, s.team1.name) then Team1 else Team2
  }

  /** set_toss: the winner bats on "bat" and bowls on anything else. */
  function SetToss(s: State, winner: string, decision: string): State
  {
    var w := TossWinnerSide(s, winner);
    var bat := if decision == "bat" then w else Other(w);
    s.(tossWinner := winner, tossDecision := decision, batting := Some(bat), bowling := Some(Other(bat)))
  }

  /** A new partnership, appended to the list and made the current one. */
  function OpenStand(s: State, p: Partnership): State
  {
    s.(currentPartnership := Some(p), partnerships := s.partnerships + [p])
  }

  /** start_innings: opening pair and bowler, over 1 ball 0, a fresh
      partnership and an empty first over. */
  function StartInnings(s: State, striker: string, nonStriker: string, bowler: string): State
  {
    var p := Partnership(Some(striker), Some(nonStriker), 0, 0);
    s.(striker := Some(striker), nonStriker := Some(nonStriker), bowler := Some(bowler),
       currentOver := 1, currentBall := 0, isStarted := true,
       currentPartnership := Some(p), partnerships := s.partnerships + [p],
       overs := s.overs + [Over(1, bowler, [])])
  }

  /** start_second_innings: refused (ValueError) unless innings 2 is due;
      otherwise the opening pair, a single fresh partnership and a single
      empty over 1. */
  function StartSecondInnings(s: State, striker: string, nonStriker: string, bowler: string): (State, bool)
  {
    if s.currentInnings != 2 then (s, false)
    else
      var p := Partnership(Some(striker), Some(nonStriker), 0, 0);
      (s.(striker := Some(striker), nonStriker := Some(nonStriker), bowler := Some(bowler),
          currentPartnership := Some(p), partnerships := [p], overs := [Over(1, bowler, [])]), true)
  }

  /** set_new_bowler: opens a new, empty over under the current over number. */
  function SetNewBowler(s: State, bowler: string): State
  {
    s.(bowler := Some(bowler), overs := s.overs + [Over(s.currentOver, bowler, [])])
  }

  /** The player named by the last fall-of-wicket entry, if any. */
  function LastDismissed(s: State): Option<string>
  {
    if s.fallOfWickets != [] then Some(s.fallOfWickets[|s.fallOfWickets| - 1].player) else None
  }

  /** Where the incoming batter goes, as (striker, non-striker, batter who
      stays): to the dismissed batter's end, or to the striker's end when the
      dismissed batter is at neither end. */
  function NewBatterEnds(dismissed: Option<string>, striker: Option<string>, nonStriker: Option<string>, batter: string)
    : (Option<string>, Option<string>, Option<string>)
  {
    if dismissed == striker then (Some(batter), nonStriker, nonStriker)
    else if dismissed == nonStriker then (striker, Some(batter), striker)
    else (Some(batter), nonStriker, nonStriker)
  }

  /** set_new_batter: only while a partnership is open; the batter takes the
      vacated end and opens a new partnership with the batter who stays. */
  function SetNewBatter(s: State, batter: string): State
  {
    if s.currentPartnership.None? then s
    else
      var (st, ns, staying) := NewBatterEnds(LastDismissed(s), s.striker, s.nonStriker, batter);
      OpenStand(s.(striker := st, nonStriker := ns), Partnership(staying, Some(batter), 0, 0))
  }

  // ------------------------------------------------------------ result

  /** "{name} won by {n} {unit}", with a plural "s" unless n is 1. */
  function WonBy(name: string, n: int, unit: string): string
  {
    name + " won by " + IntToString(n) + " " + unit + (if n != 1 then "s" else "")
  }

  /** Whether team1 batted second, read off the toss (names compared ignoring case). */
  predicate Team1Chased(s: State)
  {
    (s.tossDecision == "bat" && SameIgnoringCase(s.tossWinner, s.team2.name)) ||
    (s.tossDecision == "bowl" && SameIgnoringCase(s.tossWinner, s.team1.name))
  }

  predicate Team2Chased(s: State)
  {
    (s.tossDecision == "bat" && SameIgnoringCase(s.tossWinner, s.team1.name)) ||
    (s.tossDecision == "bowl" && SameIgnoringCase(s.tossWinner, s.team2.name))
  }

  /** The winner and the result line _determine_winner settles on: the side
      with more runs wins, by wickets in hand when it batted second and by
      the run margin otherwise; equal totals are a tie. */
  function Verdict(s: State): (string, string)
  {
    var t1, t2 := s.team1, s.team2;
    if t1.runs > t2.runs then
      (t1.name, if Team1Chased(s) then WonBy(t1.name, 10 - t1.wickets, "wicket")
                else WonBy(t1.name, t1.runs - t2.runs, "run"))
    else if t2.runs > t1.runs then
      (t2.name, if Team2Chased(s) then WonBy(t2.name, 10 - t2.wickets, "wicket")
                else WonBy(t2.name, t2.runs - t1.runs, "run"))
    else
      ("Tie", "Match tied")
  }

  /** _determine_winner. */
  function DetermineWinner(s: State): State
  {
    s.(winner := Verdict(s).0, matchResult := Verdict(s).1)
  }

  // ------------------------------------------------------------ innings and overs

  /** _end_innings. After innings 1: innings 2, teams swapped, over 1 ball 0,
      partnerships and fall of wickets cleared, the new batting side's runs,
      wickets and overs zeroed and the three player slots emptied. After
      innings 2: the match is finished and the winner decided. */
  function EndInnings(s: State): State
    requires s.batting.Some? && s.bowling.Some?
  {
    if s.currentInnings == 1 then
      var s1 := s.(currentInnings := 2, inningsJustEnded := true, batting := s.bowling, bowling := s.batting,
                   currentOver := 1, currentBall := 0, partnerships := [], fallOfWickets := []);
      var t := BattingTeam(s1);
      WithBattingTeam(s1, t.(runs := 0, wickets := 0, overs := 0)).(striker := None, nonStriker := None, bowler := None)
    else
      DetermineWinner(s.(isFinished := true))
  }

  /** The bowler of the finished over is credited with it, and with a
      maiden when it cost no runs and took no wicket. */
  function CreditOver(s: State): (r: State)
    requires Registered(s, s.bowler) && |s.overs| > 0
    ensures r == s.(players := r.players) && Retains(s.players, r.players)
  {
    var name := s.bowler.value;
    var p := s.players[name].(oversBowled := s.players[name].oversBowled + 1);
    var last := LastOver(s);
    WithPlayer(s, name, if Runs(last.balls) == 0 && Wickets(last.balls) == 0 then p.(maidens := p.maidens + 1) else p)
  }

  /** One more over for the batting side; the next over starts at ball 0. */
  function AdvanceOver(s: State): (r: State)
    requires s.batting.Some?
  {
    var t := BattingTeam(s);
    WithBattingTeam(s, t.(overs := t.overs + 1)).(currentOver := s.currentOver + 1, currentBall := 0)
  }

  /** Whether the innings is over: the overs are used up or ten wickets are down. */
  predicate InningsOver(s: State)
    requires s.batting.Some?
  {
    s.currentOver > s.totalOvers || BattingTeam(s).wickets >= 10
  }

  /** _complete_over: credit the bowler, change ends, move to the next over,
      and end the innings when it is over. */
  function CompleteOver(s: State): State
    requires Registered(s, s.bowler) && s.batting.Some? && s.bowling.Some? && |s.overs| > 0
  {
    var s1 := AdvanceOver(SwapEnds(CreditOver(s)));
    if InningsOver(s1) then EndInnings(s1) else s1
  }

  // ------------------------------------------------------------ add_ball, step by step

  /** What each add_ball step leaves alone: the same players registered, the
      same batters, bowler and teams in play, the same overs, and the
      partnership link. */
  predicate Keeps(s: State, r: State)
  {
    Scorable(r) && Retains(s.players, r.players) &&
    r.striker == s.striker && r.nonStriker == s.nonStriker && r.bowler == s.bowler &&
    r.batting == s.batting && r.bowling == s.bowling && r.overs == s.overs &&
    r.currentOver == s.currentOver && r.currentInnings == s.currentInnings && r.isStarted == s.isStarted &&
    r.isFinished == s.isFinished && r.inningsJustEnded == s.inningsJustEnded && r.totalOvers == s.totalOvers &&
    (PartnershipLinked(s) ==> PartnershipLinked(r))
  }

  /** The ball goes on the end of the last over. */
  function AppendBall(s: State, b: Ball): (r: State)
    requires |s.overs| > 0
    ensures r == s.(overs := r.overs) && |r.overs| == |s.overs|
  {
    var last := LastOver(s);
    s.(overs := s.overs[..|s.overs| - 1] + [last.(balls := last.balls + [b])])
  }

  /** One more ball faced by the striker. */
  function FaceStriker(s: State): (r: State)
    requires Scorable(s)
    ensures r == s.(players := r.players) && r.players.Keys == s.players.Keys
  {
    var name := s.striker.value;
    WithPlayer(s, name, s.players[name].(ballsFaced := s.players[name].ballsFaced + 1))
  }

  /** One more ball in the current partnership. */
  function FaceStand(s: State): (r: State)
    requires Scorable(s)
    ensures r == s.(partnerships := r.partnerships, currentPartnership := r.currentPartnership)
    ensures r.currentPartnership.Some? && (PartnershipLinked(s) ==> PartnershipLinked(r))
  {
    var cp := s.currentPartnership.value;
    WithPartnership(s, cp.(balls := cp.balls + 1))
  }

  /** One more legal ball in the over. */
  function CountBall(s: State): (r: State)
    requires Scorable(s)
    ensures r == s.(currentBall := r.currentBall)
  {
    s.(currentBall := s.currentBall + 1)
  }

  /** A legal ball: one more ball faced by the striker and by the partnership,
      one more ball in the over. Wides and no-balls change none of these. */
  function FaceBall(s: State, b: Ball): State
    requires Scorable(s)
  {
    if !IsLegalDelivery(b) then s else CountBall(FaceStand(FaceStriker(s)))
  }

  /** Bat runs to the striker. */
  function CreditBatter(s: State, b: Ball): (r: State)
    requires Scorable(s)
    ensures r == s.(players := r.players) && r.players.Keys == s.players.Keys
  {
    var name := s.striker.value;
    WithPlayer(s, name, s.players[name].(runs := s.players[name].runs + b.runs))
  }

  /** Bat runs plus extras to the batting side. */
  function CreditTeam(s: State, b: Ball): (r: State)
    requires Scorable(s)
    ensures r == s.(team1 := r.team1, team2 := r.team2)
  {
    var t := BattingTeam(s);
    WithBattingTeam(s, t.(runs := t.runs + TotalRuns(b)))
  }

  /** Bat runs plus extras against the bowler. */
  function ChargeBowler(s: State, b: Ball): (r: State)
    requires Scorable(s)
    ensures r == s.(players := r.players) && r.players.Keys == s.players.Keys
  {
    var q := s.players[s.bowler.value];
    WithPlayer(s, s.bowler.value, q.(runsConceded := q.runsConceded + TotalRuns(b)))
  }

  /** Bat runs plus extras to the current partnership. */
  function CreditStand(s: State, b: Ball): (r: State)
    requires Scorable(s)
    ensures r == s.(partnerships := r.partnerships, currentPartnership := r.currentPartnership)
    ensures r.currentPartnership.Some? && (PartnershipLinked(s) ==> PartnershipLinked(r))
  {
    var cp := s.currentPartnership.value;
    WithPartnership(s, cp.(runs := cp.runs + TotalRuns(b)))
  }

  /** A four or a six to the striker's count of boundaries. */
  function CountBoundary(s: State, b: Ball): (r: State)
    requires Scorable(s)
    ensures r == s.(players := r.players) && r.players.Keys == s.players.Keys
  {
    var p := s.players[s.striker.value];
    WithPlayer(s, s.striker.value, p.(fours := p.fours + (if b.runs == 4 then 1 else 0),
                                      sixes := p.sixes + (if b.runs == 6 then 1 else 0)))
  }

  /** Bat runs to the striker; bat runs plus extras to the team, against the
      bowler and to the partnership; a four or a six to the striker's count. */
  function CreditRuns(s: State, b: Ball): State
    requires Scorable(s)
  {
    CountBoundary(CreditStand(ChargeBowler(CreditTeam(CreditBatter(s, b), b), b), b), b)
  }

  /** The dismissed batter: the named player when one is given, else the striker. */
  function DismissedName(s: State, dismissedPlayer: Option<string>): string
    requires s.striker.Some?
  {
    if Truthy(dismissedPlayer) then dismissedPlayer.value else s.striker.value
  }

  /** The fall-of-wicket entry: who, the team score, "over.ball" and the stand. */
  function FallEntry(s: State, dismissedPlayer: Option<string>): Wicket
    requires Scorable(s)
  {
    Wicket(DismissedName(s, dismissedPlayer), BattingTeam(s).runs,
           IntToString(s.currentOver) + "." + IntToString(s.currentBall),
           s.currentPartnership.value.runs)
  }

  /** One more wicket for the batting side. */
  function TeamWicket(s: State): (r: State)
    requires Scorable(s)
    ensures r == s.(team1 := r.team1, team2 := r.team2)
  {
    var t := BattingTeam(s);
    WithBattingTeam(s, t.(wickets := t.wickets + 1))
  }

  /** One more wicket for the bowler. */
  function BowlerWicket(s: State): (r: State)
    requires Scorable(s)
    ensures r == s.(players := r.players) && r.players.Keys == s.players.Keys
  {
    var q := s.players[s.bowler.value];
    WithPlayer(s, s.bowler.value, q.(wicketsTaken := q.wicketsTaken + 1))
  }

  /** One more wicket for the batting side and for the bowler. */
  function CountWicket(s: State): (r: State)
    requires Scorable(s)
    ensures r == s.(team1 := r.team1, team2 := r.team2, players := r.players) && r.players.Keys == s.players.Keys
  {
    BowlerWicket(TeamWicket(s))
  }

  /** A wicket: one more for the batting side's wickets and the bowler's,
      and an entry in the fall of wickets. */
  function RecordWicket(s: State, b: Ball): State
    requires Scorable(s)
  {
    if !b.isWicket then s
    else
      var s1 := CountWicket(s);
      s1.(fallOfWickets := s1.fallOfWickets + [FallEntry(s, b.dismissedPlayer)])
  }

  function SwapEnds(s: State): State
  {
    s.(striker := s.nonStriker, nonStriker := s.striker)
  }

  /** An odd number of runs off a ball that took no wicket leaves the batters
      at the other ends. */
  function RotateStrike(s: State, b: Ball): State
  {
    if !b.isWicket && b.runs % 2 == 1 then SwapEnds(s) else s
  }

  /** The runs the batting side has to beat in innings 2. The source compares
      the batting team with team2 by value (dataclass equality). */
  function ChaseTarget(s: State): int
    requires s.batting.Some?
  {
    if BattingTeam(s) == s.team2 then s.team1.runs else s.team2.runs
  }

  function MakeBall(s: State, runs: int, isWicket: bool, wicketType: Option<WicketType>,
                    dismissedPlayer: Option<string>, extraType: Option<ExtraType>, extraRuns: int): Ball
    requires s.bowler.Some?
  {
    Ball(runs, isWicket, wicketType, dismissedPlayer, extraType, extraRuns, s.bowler.value, s.striker, s.nonStriker)
  }

  lemma FaceBallKeeps(s: State, b: Ball)
    requires Scorable(s)
    ensures Keeps(s, FaceBall(s, b))
  {
    if IsLegalDelivery(b) {
      var s1 := FaceStriker(s);
      assert Keeps(s, s1);
      assert Keeps(s, FaceStand(s1));
    }
  }

  lemma CreditRunsKeeps(s: State, b: Ball)
    requires Scorable(s)
    ensures Keeps(s, CreditRuns(s, b))
  {
  }

  lemma RecordWicketKeeps(s: State, b: Ball)
    requires Scorable(s)
    ensures Keeps(s, RecordWicket(s, b))
  {
    assert Keeps(s, CountWicket(s));
  }

  /** The ball credited: faced, its runs, its wicket and the change of ends. */
  function Credited(s: State, b: Ball): (r: State)
    requires Scorable(s)
    ensures Registered(r, r.bowler) && r.batting == s.batting && r.bowling == s.bowling
    ensures r.overs == s.overs && Retains(s.players, r.players) && r.bowler == s.bowler
    ensures r.isStarted == s.isStarted
    ensures r.inningsJustEnded == s.inningsJustEnded && r.currentInnings == s.currentInnings && r.isFinished == s.isFinished
  {
    FaceBallKeeps(s, b);
    var s2 := FaceBall(s, b);
    CreditRunsKeeps(s2, b);
    var s3 := CreditRuns(s2, b);
    RecordWicketKeeps(s3, b);
    RotateStrike(RecordWicket(s3, b), b)
  }

  /** The state after the ball is recorded and credited, before any over,
      innings or match completion is looked at. add_ball appends the ball
      before crediting it; no crediting step reads the overs, so appending
      it last gives the same state. */
  function Delivered(s: State, b: Ball): (r: State)
    requires Scorable(s)
    ensures Registered(r, r.bowler) && r.batting == s.batting && r.bowling == s.bowling
    ensures |r.overs| == |s.overs| && Retains(s.players, r.players) && r.bowler == s.bowler
    ensures r.isStarted == s.isStarted
    ensures r.inningsJustEnded == s.inningsJustEnded && r.currentInnings == s.currentInnings && r.isFinished == s.isFinished
  {
    AppendBall(Credited(s, b), b)
  }

  /** The over-completing branch of add_ball: complete the over, then report
      the end of the match, the end of the innings (lowering the flag that
      _end_innings raised) or just the end of the over. */
  function OverPath(d: State, isWicket: bool, dismissed: string): (State, AddBallOutcome)
    requires Registered(d, d.bowler) && d.batting.Some? && d.bowling.Some? && |d.overs| > 0
  {
    var c := CompleteOver(d);
    if c.isFinished then (c, MatchComplete(c.winner, c.matchResult, false))
    else if c.inningsJustEnded then
      (c.(inningsJustEnded := false), InningsComplete(c.currentInnings, if isWicket then Some(dismissed) else None))
    else (c, OverComplete(if isWicket then Some(dismissed) else None))
  }

  /** The tenth-wicket branch of add_ball as written: the innings ends and the
      end is reported, but the flag _end_innings raised stays up. */
  function AllOut(d: State): (State, AddBallOutcome)
    requires d.batting.Some? && d.bowling.Some?
  {
    var e := EndInnings(d);
    if e.isFinished then (e, MatchComplete(e.winner, e.matchResult, false))
    else (e, InningsComplete(e.currentInnings, None))
  }

  /** The tenth-wicket branch with the flag lowered once the end of the
      innings has been reported, as the over-completing branch does. */
  function AllOutFixed(d: State): (State, AddBallOutcome)
    requires d.batting.Some? && d.bowling.Some?
  {
    var e := EndInnings(d);
    if e.isFinished then (e, MatchComplete(e.winner, e.matchResult, false))
    else (e.(inningsJustEnded := false), InningsComplete(e.currentInnings, None))
  }

  /** The last branch of add_ball: in innings 2 the match is won once the
      batting side has passed the target; otherwise the ball is just added. */
  function ChaseOrBall(d: State): (State, AddBallOutcome)
    requires d.batting.Some?
  {
    if d.currentInnings == 2 && BattingTeam(d).runs > ChaseTarget(d) then
      var e := DetermineWinner(d.(isFinished := true));
      (e, MatchComplete(e.winner, e.matchResult, true))
    else (d, BallAdded)
  }

  /** The second half of add_ball: with the ball recorded, finish the over
      (and perhaps the innings or the match), or the innings on the tenth
      wicket, or the match when the chase is won. */
  function Conclude(d: State, isWicket: bool, dismissed: string): (State, AddBallOutcome)
    requires Registered(d, d.bowler) && d.batting.Some? && d.bowling.Some? && |d.overs| > 0
  {
    if IsComplete(LastOver(d)) then OverPath(d, isWicket, dismissed)
    else if isWicket then
      if BattingTeam(d).wickets >= 10 then AllOut(d) else (d, WicketFell(dismissed))
    else ChaseOrBall(d)
  }

  /** Conclude with the tenth-wicket branch lowering the flag. */
  function ConcludeFixed(d: State, isWicket: bool, dismissed: string): (State, AddBallOutcome)
    requires Registered(d, d.bowler) && d.batting.Some? && d.bowling.Some? && |d.overs| > 0
  {
    if IsComplete(LastOver(d)) then OverPath(d, isWicket, dismissed)
    else if isWicket then
      if BattingTeam(d).wickets >= 10 then AllOutFixed(d) else (d, WicketFell(dismissed))
    else ChaseOrBall(d)
  }

  /** add_ball. */
  function AddBall(s: State, runs: int, isWicket: bool, wicketType: Option<WicketType>,
                   dismissedPlayer: Option<string>, extraType: Option<ExtraType>, extraRuns: int): (r: (State, AddBallOutcome))
    requires s.isStarted ==> Scorable(s)
    ensures !s.isStarted ==> r == (s, NotStarted)
  {
    if !s.isStarted then (s, NotStarted)
    else
      var b := MakeBall(s, runs, isWicket, wicketType, dismissedPlayer, extraType, extraRuns);
      Conclude(Delivered(s, b), isWicket, DismissedName(s, dismissedPlayer))
  }

  /** add_ball with the "innings just ended" flag lowered on the tenth-wicket
      path as well. */
  function AddBallFixed(s: State, runs: int, isWicket: bool, wicketType: Option<WicketType>,
                        dismissedPlayer: Option<string>, extraType: Option<ExtraType>, extraRuns: int): (r: (State, AddBallOutcome))
    requires s.isStarted ==> Scorable(s)
    ensures !s.isStarted ==> r == (s, NotStarted)
  {
    if !s.isStarted then (s, NotStarted)
    else
      var b := MakeBall(s, runs, isWicket, wicketType, dismissedPlayer, extraType, extraRuns);
      ConcludeFixed(Delivered(s, b), isWicket, DismissedName(s, dismissedPlayer))
  }

  // ------------------------------------------------------------ undo

  /** Whether undo_last_ball gets past its "No balls to undo" guard: not when
      there is no over, nor when the only over is empty. Passing it does not
      mean a ball is reached; FindsBall says when one is. */
  predicate HasBallToUndo(s: State)
  {
    !(s.overs == [] || (|s.overs| == 1 && s.overs[0].balls == []))
  }

  /** The batter who is on strike when the ball's effects are reversed: after
      an over boundary is stepped back the ends are swapped first. */
  function UndoStriker(s: State): Option<string>
    requires |s.overs| > 0
  {
    if LastOver(s).balls == [] then s.nonStriker else s.striker
  }

  /** Whether undo_last_ball reaches a ball: the last over has one, or the
      last over is empty and the over before it has one. */
  predicate FindsBall(s: State)
    requires |s.overs| > 0
  {
    LastOver(s).balls != [] || (|s.overs| > 1 && s.overs[|s.overs| - 2].balls != [])
  }

  /** What undo_last_ball needs beyond the invariant in order not to raise a
      KeyError or an AttributeError: the batting side is set, and when a ball
      is reached, a partnership is open and the batter on strike at reversal
      time is a registered player. */
  predicate Undoable(s: State)
  {
    HasBallToUndo(s) ==>
      s.batting.Some? && s.bowling.Some? &&
      (FindsBall(s) ==> s.currentPartnership.Some? && Registered(s, UndoStriker(s)))
  }

  /** Drop the last (empty) over. */
  function DropOver(s: State): (r: State)
    requires |s.overs| > 1
    ensures r == s.(overs := s.overs[..|s.overs| - 1])
  {
    s.(overs := s.overs[..|s.overs| - 1])
  }

  /** Go back into the last over: its number, its raw ball count as the
      current ball, one team over fewer and its bowler back on. */
  function RewindOver(s: State): (r: State)
    requires |s.overs| > 0 && s.batting.Some?
    ensures r == s.(team1 := r.team1, team2 := r.team2, currentOver := r.currentOver,
                    currentBall := r.currentBall, bowler := r.bowler)
    ensures r.currentOver == s.currentOver - 1 && r.currentBall == |LastOver(s).balls|
    ensures r.bowler == Some(LastOver(s).bowler)
    ensures TeamAt(r, s.batting.value) == BattingTeam(s).(overs := BattingTeam(s).overs - 1)
    ensures TeamAt(r, Other(s.batting.value)) == TeamAt(s, Other(s.batting.value))
  {
    var done := LastOver(s);
    var t := BattingTeam(s);
    WithBattingTeam(s, t.(overs := t.overs - 1)).(currentOver := s.currentOver - 1, currentBall := |done.balls|,
                                                   bowler := Some(done.bowler))
  }

  /** RewindOver with the current ball set to the over's legal deliveries,
      the count add_ball keeps. */
  function RewindOverFixed(s: State): (r: State)
    requires |s.overs| > 0 && s.batting.Some?
    ensures r == RewindOver(s).(currentBall := r.currentBall)
    ensures r.currentBall == LegalBalls(LastOver(s).balls)
  {
    RewindOver(s).(currentBall := LegalBalls(LastOver(s).balls))
  }

  /** The over's bowler, with one over and, for a maiden, one maiden fewer. */
  function Uncredited(p: Player, done: Over): Player
  {
    var q := p.(oversBowled := p.oversBowled - 1);
    if Runs(done.balls) == 0 && Wickets(done.balls) == 0 then q.(maidens := q.maidens - 1) else q
  }

  /** Take back the over, and the maiden if it was one, from its bowler
      when the bowler is a registered player. */
  function UncreditOver(s: State): (r: State)
    requires |s.overs| > 0
    ensures r == s.(players := r.players) && r.players.Keys == s.players.Keys
    ensures forall k :: k in s.players && k != LastOver(s).bowler ==> r.players[k] == s.players[k]
    ensures LastOver(s).bowler in s.players ==>
              r.players[LastOver(s).bowler] == Uncredited(s.players[LastOver(s).bowler], LastOver(s))
  {
    var done := LastOver(s);
    if done.bowler in s.players then WithPlayer(s, done.bowler, Uncredited(s.players[done.bowler], done))
    else s
  }

  /** The over-boundary part of undo: drop the empty over, go back to the
      completed one (ball count = its raw number of balls), take back the
      team over, the bowler's over and maiden, and swap the ends back. */
  function StepBackOver(s: State): (r: State)
    requires |s.overs| > 1 && s.batting.Some?
    ensures r.overs == s.overs[..|s.overs| - 1] && Retains(s.players, r.players)
    ensures r.striker == s.nonStriker && r.nonStriker == s.striker
    ensures r.batting == s.batting && r.currentPartnership == s.currentPartnership
  {
    SwapEnds(UncreditOver(RewindOver(DropOver(s))))
  }

  /** Everything stepping back over a boundary changes: the over count and
      the ball count go back to the completed over (its raw number of balls),
      the batting side loses an over, the completed over's bowler is back on
      and loses that over and any maiden, the ends are swapped back, and
      nothing else moves. */
  lemma StepBackOverFacts(s: State)
    requires |s.overs| > 1 && s.batting.Some?
    ensures var r, done := StepBackOver(s), s.overs[|s.overs| - 2];
            r == s.(overs := r.overs, striker := r.striker, nonStriker := r.nonStriker, team1 := r.team1, team2 := r.team2,
                    currentOver := r.currentOver, currentBall := r.currentBall, bowler := r.bowler, players := r.players) &&
            r.overs == s.overs[..|s.overs| - 1] && r.striker == s.nonStriker && r.nonStriker == s.striker &&
            r.currentOver == s.currentOver - 1 && r.currentBall == |done.balls| && r.bowler == Some(done.bowler) &&
            TeamAt(r, s.batting.value) == BattingTeam(s).(overs := BattingTeam(s).overs - 1) &&
            TeamAt(r, Other(s.batting.value)) == TeamAt(s, Other(s.batting.value)) &&
            r.players.Keys == s.players.Keys &&
            (forall k :: k in s.players && k != done.bowler ==> r.players[k] == s.players[k]) &&
            (done.bowler in s.players ==> r.players[done.bowler] == Uncredited(s.players[done.bowler], done))
  {
    var d := DropOver(s);
    assert LastOver(d) == s.overs[|s.overs| - 2];
  }

  /** StepBackOver with the current ball set to the completed over's legal
      deliveries. */
  function StepBackOverFixed(s: State): (r: State)
    requires |s.overs| > 1 && s.batting.Some?
    ensures r == StepBackOver(s).(currentBall := LegalBalls(s.overs[|s.overs| - 2].balls))
  {
    var d := DropOver(s);
    assert LastOver(d) == s.overs[|s.overs| - 2];
    SwapEnds(UncreditOver(RewindOverFixed(d)))
  }

  /** The state undo_last_ball takes the last ball from: the match itself,
      or, when the last over is still empty, the match with the over
      boundary stepped back, so that the last over is the completed one. */
  function StepToBall(s: State): (r: State)
    requires |s.overs| > 0 && s.batting.Some? && BowledBy(s.overs, s.players)
    requires LastOver(s).balls == [] ==> |s.overs| > 1
    ensures |r.overs| > 0 && BowledBy(r.overs, r.players)
    ensures FindsBall(s) ==> LastOver(r).balls != []
    ensures !FindsBall(s) ==> LastOver(r).balls == []
    ensures Retains(s.players, r.players) && r.batting == s.batting && r.currentPartnership == s.currentPartnership
    ensures LastOver(s).balls == [] ==> r == StepBackOver(s)
    ensures LastOver(s).balls != [] ==> r == s
  {
    if LastOver(s).balls == [] then
      BowledByTrim(s.overs, s.players, 0);
      var r := StepBackOver(s);
      BowledByMore(r.overs, s.players, r.players);
      r
    else s
  }

  /** StepToBall with the corrected ball count. */
  function StepToBallFixed(s: State): (r: State)
    requires |s.overs| > 0 && s.batting.Some? && BowledBy(s.overs, s.players) && FindsBall(s)
    ensures |r.overs| > 0 && LastOver(r).balls != [] && BowledBy(r.overs, r.players)
    ensures Retains(s.players, r.players) && r.batting == s.batting && r.currentPartnership == s.currentPartnership
    ensures LastOver(s).balls == [] ==> r == StepBackOverFixed(s)
    ensures LastOver(s).balls != [] ==> r == s
  {
    if LastOver(s).balls == [] then
      var r := StepBackOverFixed(s);
      assert r == StepToBall(s).(currentBall := r.currentBall);
      r
    else s
  }

  /** What reversing a ball needs: the striker and the ball's bowler are
      registered, the batting side is set and a partnership is open. */
  predicate CanReverse(s: State, b: Ball)
  {
    Registered(s, s.striker) && b.bowler in s.players && s.batting.Some? && s.currentPartnership.Some?
  }

  predicate KeepsReversal(s: State, b: Ball, r: State)
  {
    CanReverse(r, b) && r.striker == s.striker && r.nonStriker == s.nonStriker &&
    r.batting == s.batting && r.bowling == s.bowling && Retains(s.players, r.players) &&
    r.overs == s.overs && r.isStarted == s.isStarted && (PartnershipLinked(s) ==> PartnershipLinked(r))
  }

  /** Bat runs back from the striker now at the crease. */
  function DebitBatter(s: State, b: Ball): (r: State)
    requires CanReverse(s, b)
    ensures r == s.(players := r.players) && r.players.Keys == s.players.Keys
  {
    var name := s.striker.value;
    WithPlayer(s, name, s.players[name].(runs := s.players[name].runs - b.runs))
  }

  /** Bat runs plus extras back from the batting side. */
  function DebitTeam(s: State, b: Ball): (r: State)
    requires CanReverse(s, b)
    ensures r == s.(team1 := r.team1, team2 := r.team2)
  {
    var t := BattingTeam(s);
    WithBattingTeam(s, t.(runs := t.runs - TotalRuns(b)))
  }

  /** Bat runs plus extras back off the ball's bowler. */
  function DebitBowler(s: State, b: Ball): (r: State)
    requires CanReverse(s, b)
    ensures r == s.(players := r.players) && r.players.Keys == s.players.Keys
  {
    var q := s.players[b.bowler];
    WithPlayer(s, b.bowler, q.(runsConceded := q.runsConceded - TotalRuns(b)))
  }

  /** Bat runs plus extras back from the current partnership. */
  function DebitStand(s: State, b: Ball): (r: State)
    requires CanReverse(s, b)
    ensures r == s.(partnerships := r.partnerships, currentPartnership := r.currentPartnership)
    ensures r.currentPartnership.Some? && (PartnershipLinked(s) ==> PartnershipLinked(r))
  {
    var cp := s.currentPartnership.value;
    WithPartnership(s, cp.(runs := cp.runs - TotalRuns(b)))
  }

  /** A four or a six back from the striker now at the crease. */
  function UncountBoundary(s: State, b: Ball): (r: State)
    requires CanReverse(s, b)
    ensures r == s.(players := r.players) && r.players.Keys == s.players.Keys
  {
    var p := s.players[s.striker.value];
    WithPlayer(s, s.striker.value, p.(fours := p.fours - (if b.runs == 4 then 1 else 0),
                                      sixes := p.sixes - (if b.runs == 6 then 1 else 0)))
  }

  /** Take back the runs: from the striker now at the crease, the batting
      side, the ball's bowler, the partnership and the boundary count. */
  function TakeBackRuns(s: State, b: Ball): (r: State)
    requires CanReverse(s, b)
    ensures KeepsReversal(s, b, r)
  {
    UncountBoundary(DebitStand(DebitBowler(DebitTeam(DebitBatter(s, b), b), b), b), b)
  }

  /** One ball faced fewer for the striker now at the crease. */
  function UnfaceStriker(s: State, b: Ball): (r: State)
    requires CanReverse(s, b)
    ensures r == s.(players := r.players) && r.players.Keys == s.players.Keys
  {
    var name := s.striker.value;
    WithPlayer(s, name, s.players[name].(ballsFaced := s.players[name].ballsFaced - 1))
  }

  /** One ball fewer in the current partnership. */
  function UnfaceStand(s: State, b: Ball): (r: State)
    requires CanReverse(s, b)
    ensures r == s.(partnerships := r.partnerships, currentPartnership := r.currentPartnership)
    ensures r.currentPartnership.Some? && (PartnershipLinked(s) ==> PartnershipLinked(r))
  {
    var cp := s.currentPartnership.value;
    WithPartnership(s, cp.(balls := cp.balls - 1))
  }

  /** One legal ball fewer in the over. */
  function UncountBall(s: State, b: Ball): (r: State)
    requires CanReverse(s, b)
    ensures r == s.(currentBall := r.currentBall)
  {
    s.(currentBall := s.currentBall - 1)
  }

  /** Take back a legal ball: faced by the striker, in the partnership, in the over. */
  function TakeBackLegal(s: State, b: Ball): (r: State)
    requires CanReverse(s, b)
    ensures KeepsReversal(s, b, r)
  {
    if IsLegalDelivery(b) then UncountBall(UnfaceStand(UnfaceStriker(s, b), b), b) else s
  }

  /** One wicket fewer for the batting side. */
  function DropTeamWicket(s: State, b: Ball): (r: State)
    requires CanReverse(s, b)
    ensures r == s.(team1 := r.team1, team2 := r.team2)
  {
    var t := BattingTeam(s);
    WithBattingTeam(s, t.(wickets := t.wickets - 1))
  }

  /** One wicket fewer for the ball's bowler. */
  function DropBowlerWicket(s: State, b: Ball): (r: State)
    requires CanReverse(s, b)
    ensures r == s.(players := r.players) && r.players.Keys == s.players.Keys
  {
    var q := s.players[b.bowler];
    WithPlayer(s, b.bowler, q.(wicketsTaken := q.wicketsTaken - 1))
  }

  /** The last fall-of-wicket entry removed, when there is one. */
  function DropFall(s: State): (r: State)
    ensures r == s.(fallOfWickets := r.fallOfWickets)
  {
    if s.fallOfWickets != [] then s.(fallOfWickets := s.fallOfWickets[..|s.fallOfWickets| - 1]) else s
  }

  /** Take back a wicket's figures: the team's wicket, the bowler's wicket
      and the last fall-of-wicket entry. */
  function TakeBackDismissal(s: State, b: Ball): (r: State)
    requires CanReverse(s, b)
    ensures r.batting == s.batting && r.bowling == s.bowling && Retains(s.players, r.players)
    ensures r.overs == s.overs && r.isStarted == s.isStarted
    ensures r.partnerships == s.partnerships && r.currentPartnership == s.currentPartnership
  {
    DropFall(DropBowlerWicket(DropTeamWicket(s, b), b))
  }

  /** When the ball recorded both batters: put them back, and drop the latest
      partnership when there is an earlier one to return to. */
  function RestorePair(s: State, b: Ball): (r: State)
    requires s.currentPartnership.Some?
    ensures r == s.(striker := r.striker, nonStriker := r.nonStriker,
                    partnerships := r.partnerships, currentPartnership := r.currentPartnership)
    ensures r.currentPartnership.Some? && (PartnershipLinked(s) ==> PartnershipLinked(r))
  {
    if Truthy(b.prevStriker) && Truthy(b.prevNonStriker) then
      var s1 := s.(striker := b.prevStriker, nonStriker := b.prevNonStriker);
      if |s1.partnerships| > 1 then
        var ps := s1.partnerships[..|s1.partnerships| - 1];
        s1.(partnerships := ps, currentPartnership := Some(ps[|ps| - 1]))
      else s1
    else s
  }

  /** Take back a wicket, when the ball was one. */
  function TakeBackWicket(s: State, b: Ball): (r: State)
    requires CanReverse(s, b)
    ensures r.batting == s.batting && r.bowling == s.bowling && Retains(s.players, r.players)
    ensures r.overs == s.overs && r.isStarted == s.isStarted && r.currentPartnership.Some?
    ensures PartnershipLinked(s) ==> PartnershipLinked(r)
  {
    if b.isWicket then RestorePair(TakeBackDismissal(s, b), b) else s
  }

  /** _reverse_ball_effects: runs, the legal ball, the wicket, and the
      change of ends after an odd number of runs. */
  function ReverseBallEffects(s: State, b: Ball): State
    requires CanReverse(s, b)
  {
    RotateStrike(TakeBackWicket(TakeBackLegal(TakeBackRuns(s, b), b), b), b)
  }

  /** _reverse_ball_effects with the change of ends taken back first, so
      that the runs, the boundary and the ball faced are taken from the
      batter who received the ball. */
  function ReverseBallEffectsFixed(s: State, b: Ball): State
    requires CanReverse(RotateStrike(s, b), b)
  {
    TakeBackWicket(TakeBackLegal(TakeBackRuns(RotateStrike(s, b), b), b), b)
  }

  /** Take the last ball off the last over. */
  function PopBall(s: State): (r: (State, Ball))
    requires |s.overs| > 0 && LastOver(s).balls != [] && BowledBy(s.overs, s.players)
    ensures r.1.bowler in s.players && r.0 == s.(overs := r.0.overs)
    ensures BowledBy(r.0.overs, s.players)
  {
    var last := LastOver(s);
    BowledByTrim(s.overs, s.players, |last.balls| - 1);
    (s.(overs := s.overs[..|s.overs| - 1] + [last.(balls := last.balls[..|last.balls| - 1])]), last.balls[|last.balls| - 1])
  }

  /** undo_last_ball. When it steps back over an empty last over onto an
      over that is empty too, the pop raises IndexError and the steps
      already taken stay in place. */
  function Undo(s: State): (r: (State, UndoResult))
    requires WellFormed(s) && Undoable(s)
  {
    if !HasBallToUndo(s) then (s, UndoResult(false, "No balls to undo"))
    else if LastOver(s).balls == [] && |s.overs| == 1 then (s, UndoResult(false, "No balls to undo"))
    else if !FindsBall(s) then (StepBackOver(s), UndoRaised)
    else
      var (s2, b) := PopBall(StepToBall(s));
      (ReverseBallEffects(s2, b), UndoResult(true, "Last ball undone successfully"))
  }

  /** What the corrected undo needs beyond the invariant: as Undoable, with
      both batters registered, since either may be the one who faced the ball. */
  predicate UndoableFixed(s: State)
  {
    HasBallToUndo(s) ==>
      s.batting.Some? && s.bowling.Some? &&
      (FindsBall(s) ==> s.currentPartnership.Some? && Registered(s, s.striker) && Registered(s, s.nonStriker))
  }

  /** Either batter can be on strike after the ends are put back, and both
      are still registered once the last ball is popped. */
  lemma PoppedBattersRegistered(s: State)
    requires WellFormed(s) && UndoableFixed(s) && HasBallToUndo(s) && FindsBall(s)
    ensures |s.overs| > 0 && s.batting.Some? && BowledBy(s.overs, s.players)
    ensures var (s2, b) := PopBall(StepToBallFixed(s)); CanReverse(RotateStrike(s2, b), b)
  {
    var t := StepToBallFixed(s);
    var (s2, b) := PopBall(t);
    assert Registered(s2, s2.striker) && Registered(s2, s2.nonStriker);
  }

  /** undo_last_ball with the corrected reversal and the corrected ball count
      after stepping back over an over boundary. */
  function UndoFixed(s: State): (r: (State, UndoResult))
    requires WellFormed(s) && UndoableFixed(s)
  {
    if !HasBallToUndo(s) then (s, UndoResult(false, "No balls to undo"))
    else if LastOver(s).balls == [] && |s.overs| == 1 then (s, UndoResult(false, "No balls to undo"))
    else if !FindsBall(s) then (StepBackOverFixed(s), UndoRaised)
    else
      PoppedBattersRegistered(s);
      var (s2, b) := PopBall(StepToBallFixed(s));
      (ReverseBallEffectsFixed(s2, b), UndoResult(true, "Last ball undone successfully"))
  }
}
