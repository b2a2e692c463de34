/** The match snapshot the two browser panels receive: get_current_status
    turns a Match into a dictionary of plain values, and the scoreboard and
    the control panel read only that dictionary. */
module MatchStatus {
  import opened Common
  import opened Deliveries
  import opened Scoring

  /** A team's `extras` as the scoreboard reads it: the server sends the
      integer Team.extras, while the scorecard expects an object with one
      count per kind of extra. */
  datatype ExtrasField =
    | ExtrasCount(count: int)
    | ExtrasByKind(byes: int, legByes: int, wides: int, noBalls: int)

  /** A serialized Team. `runs` and `overs` are optional because the
      scoreboard tests them against `undefined`. */
  datatype TeamView = TeamView(
    name: string,
    players: seq<string>,
    runs: Option<int>,
    wickets: int,
    overs: Option<int>,
    extras: ExtrasField)

  /** A serialized Player. The last five fields are keys the scoreboard reads
      that a serialized Player does not carry (`is_out`, `dismissal_type`,
      `bowler_name`, `balls`, `balls_bowled`); a missing key reads as
      false or None. */
  datatype PlayerView = PlayerView(
    runs: int,
    ballsFaced: int,
    fours: int,
    sixes: int,
    oversBowled: int,
    runsConceded: int,
    wicketsTaken: int,
    maidens: int,
    isOut: bool,
    dismissalType: Option<string>,
    bowlerName: Option<string>,
    balls: Option<int>,
    ballsBowled: Option<int>)

  /** The dictionary get_current_status returns, restricted to the keys the
      panels read. `battingTeam`/`bowlingTeam` are team names ("" before the
      toss). */
  datatype Status = Status(
    team1: TeamView,
    team2: TeamView,
    currentInnings: int,
    battingTeam: string,
    bowlingTeam: string,
    tossWinner: string,
    tossDecision: string,
    striker: Option<string>,
    nonStriker: Option<string>,
    bowler: Option<string>,
    currentOver: int,
    currentBall: int,
    lastOverSummary: string,
    fallOfWickets: seq<Wicket>,
    isStarted: bool,
    isFinished: bool,
    players: map<string, PlayerView>,
    totalOvers: int,
    overs: seq<Over>)

  function TeamViewOf(t: Team): TeamView
  {
    TeamView(t.name, t.players, Some(t.runs), t.wickets, Some(t.overs), ExtrasCount(t.extras))
  }

  function PlayerViewOf(p: Player): PlayerView
  {
    PlayerView(p.runs, p.ballsFaced, p.fours, p.sixes, p.oversBowled, p.runsConceded, p.wicketsTaken, p.maidens,
               false, None, None, None, None)
  }

  /** Every registered player under the same name, with the eight figures
      a Player carries and none of the five keys it does not. */
  function PlayersViewOf(m: map<string, Player>): (r: map<string, PlayerView>)
    ensures r.Keys == m.Keys
    ensures forall k :: k in m ==>
              r[k].runs == m[k].runs && r[k].ballsFaced == m[k].ballsFaced &&
              r[k].fours == m[k].fours && r[k].sixes == m[k].sixes &&
              r[k].oversBowled == m[k].oversBowled && r[k].runsConceded == m[k].runsConceded &&
              r[k].wicketsTaken == m[k].wicketsTaken && r[k].maidens == m[k].maidens &&
              !r[k].isOut && r[k].dismissalType.None? && r[k].bowlerName.None? &&
              r[k].balls.None? && r[k].ballsBowled.None?
  {
    map k | k in m :: PlayerViewOf(m[k])
  }

  /** The player a serialized record describes, given the player's name. */
  function PlayerOfView(name: string, v: PlayerView): Player
  {
    Player(name, v.runs, v.ballsFaced, v.fours, v.sixes, v.oversBowled, v.runsConceded, v.wicketsTaken, v.maidens)
  }

  /** The status loses nothing of a player but the name it is filed under:
      each record read back under its player's name is that player. */
  lemma StatusPlayersRoundTrip(s: State)
    ensures StatusOf(s).players.Keys == s.players.Keys
    ensures forall k :: k in s.players ==> PlayerOfView(s.players[k].name, StatusOf(s).players[k]) == s.players[k]
  {
  }

  function SideName(s: State, side: Option<Side>): string
  {
    if side.Some? then TeamAt(s, side.value).name else ""
  }

  /** get_current_status. */
  function StatusOf(s: State): Status
  {
    Status(TeamViewOf(s.team1), TeamViewOf(s.team2), s.currentInnings,
           SideName(s, s.batting), SideName(s, s.bowling), s.tossWinner, s.tossDecision,
           s.striker, s.nonStriker, s.bowler, s.currentOver, s.currentBall,
           if |s.overs| > 0 then Summary(s.overs[|s.overs| - 1]) else "",
           s.fallOfWickets, s.isStarted, s.isFinished, PlayersViewOf(s.players), s.totalOvers, s.overs)
  }

  /** The batting and the bowling team as both panels pick them: team1 when
      its name is the batting team's name, team2 otherwise, and the other
      team bowls. */
  function LiveTeams(st: Status): (TeamView, TeamView)
  {
    if st.team1.name == st.battingTeam then (st.team1, st.team2) else (st.team2, st.team1)
  }

  /** With distinct team names the panels pick exactly the match's batting
      and bowling sides. */
  lemma LiveTeamsOfState(s: State)
    requires s.batting.Some? && s.team1.name != s.team2.name
    ensures LiveTeams(StatusOf(s)) == (TeamViewOf(BattingTeam(s)), TeamViewOf(TeamAt(s, Other(s.batting.value))))
  {
  }
}
