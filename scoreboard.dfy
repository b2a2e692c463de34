/** The scoreboard page: the text it derives from a match snapshot — the
    team line with its overs and chase block, the ball strip, the bowler
    card, the partnership and last-wicket lines, and the two-innings
    scorecard. */
module Scoreboard {
  import opened Common
  import opened Deliveries
  import opened Scoring
  import opened MatchStatus

  // ------------------------------------------------------------ overs text

  /** "{a}.{b}": overs and balls in cricket notation. */
  function DotPair(a: int, b: int): string
  {
    IntToString(a) + "." + IntToString(b)
  }

  /** A dotted pair splits back into the two numbers it was made of. */
  lemma DotPairSplits(a: int, b: int)
    ensures Split(DotPair(a, b), '.') == [IntToString(a), IntToString(b)]
  {
    IntToStringHasNo(a, '.');
    IntToStringHasNo(b, '.');
    var parts := [IntToString(a), IntToString(b)];
    assert Join(".", parts[1..]) == IntToString(b);
    assert Join(".", parts) == DotPair(a, b);
    SplitJoin(parts, '.');
  }

  /** current_over counts from 1, so one fewer overs are complete, never below 0. */
  function CompletedOvers(currentOver: int): nat
  {
    if currentOver < 1 then 0 else currentOver - 1
  }

  /** The team line's overs: completed overs, then the balls of the over in progress. */
  function OversText(currentOver: int, currentBall: int): string
  {
    DotPair(CompletedOvers(currentOver), currentBall)
  }

  /** Read back, the overs text gives the completed overs and the ball count;
      from over 1 on, six per completed over plus the balls is the number of
      balls the chase block counts as played. */
  lemma OversTextReadsBack(currentOver: int, currentBall: nat)
    ensures var parts := Split(OversText(currentOver, currentBall), '.');
            parts == [IntToString(CompletedOvers(currentOver)), IntToString(currentBall)] &&
            ParseNat(parts[0]) == CompletedOvers(currentOver) && ParseNat(parts[1]) == currentBall &&
            (currentOver >= 1 ==> ParseNat(parts[0]) * 6 + ParseNat(parts[1]) == (currentOver - 1) * 6 + currentBall)
  {
    DotPairSplits(CompletedOvers(currentOver), currentBall);
    ParseNatToString(CompletedOvers(currentOver));
    ParseNatToString(currentBall);
  }

  // ------------------------------------------------------------ chase block

  datatype Chase = Chase(target: int, runsNeeded: int, ballsRemaining: int)

  /** Target, runs needed and balls remaining in the second innings. */
  function ChaseOf(bowlingRuns: int, battingRuns: int, totalOvers: int, currentOver: int, currentBall: int): Chase
  {
    var target := bowlingRuns + 1;
    Chase(target, target - battingRuns, totalOvers * 6 - ((currentOver - 1) * 6 + currentBall))
  }

  function ChaseText(c: Chase): string
  {
    "Target: " + IntToString(c.target) + " | Need " + IntToString(c.runsNeeded) + " in " + IntToString(c.ballsRemaining)
  }

  /** "{winner} OPT TO {DECISION}", or the bowling team opting to bowl when
      the toss fields are empty. */
  function TossText(st: Status): string
  {
    if st.tossWinner != "" && st.tossDecision != "" then st.tossWinner + " OPT TO " + Upper(st.tossDecision)
    else st.bowlingTeam + " OPT TO BOWL"
  }

  /** The target line: the chase in innings 2 once the bowling side's runs
      are known, the toss otherwise. */
  function TargetInfo(st: Status): string
  {
    var teams := LiveTeams(st);
    if st.currentInnings == 2 && teams.1.runs.Some? then
      ChaseText(ChaseOf(teams.1.runs.value, OrZero(teams.0.runs), st.totalOvers, st.currentOver, st.currentBall))
    else TossText(st)
  }

  /** On a live match the chase block tracks the server's own chase test: no
      runs are needed exactly when the batting side has passed the score
      add_ball compares it with; balls remaining and the balls the overs
      text reads back as played add up to the innings' allowance. In the second
      innings the block is always shown, since the server always sends runs. */
  lemma ChaseOfState(s: State)
    requires s.batting.Some? && s.team1.name != s.team2.name && s.currentOver >= 1 && s.currentBall >= 0
    ensures var st := StatusOf(s);
            var c := ChaseOf(LiveTeams(st).1.runs.value, OrZero(LiveTeams(st).0.runs), st.totalOvers, st.currentOver, st.currentBall);
            (c.runsNeeded <= 0 <==> BattingTeam(s).runs > ChaseTarget(s)) &&
            c.target == ChaseTarget(s) + 1 &&
            c.ballsRemaining + CompletedOvers(s.currentOver) * 6 + s.currentBall == s.totalOvers * 6 &&
            (s.currentInnings == 2 ==> TargetInfo(st) == ChaseText(c))
  {
    LiveTeamsOfState(s);
  }

  lemma UpperDecisions()
    ensures Upper("bat") == "BAT" && Upper("bowl") == "BOWL"
  {
    assert Upper("bat") == [UpperChar('b'), UpperChar('a'), UpperChar('t')];
    assert Upper("bowl") == [UpperChar('b'), UpperChar('o'), UpperChar('w'), UpperChar('l')];
  }

  /** Before the chase the line reports the toss, the decision in capitals. */
  lemma TossLine(s: State)
    requires s.currentInnings == 1 && s.tossWinner != ""
    ensures s.tossDecision == "bat" ==> TargetInfo(StatusOf(s)) == s.tossWinner + " OPT TO BAT"
    ensures s.tossDecision == "bowl" ==> TargetInfo(StatusOf(s)) == s.tossWinner + " OPT TO BOWL"
  {
    UpperDecisions();
  }

  // ------------------------------------------------------------ ball glyphs

  /** The glyph of one ball in the strip: W for a wicket; wides and no-balls
      carry their total only above 1, byes and leg byes only above 0; else
      the runs off the bat. */
  function Glyph(b: Ball): string
  {
    if b.isWicket then "W"
    else if b.extraType.Some? then
      var total := TotalRuns(b);
      match b.extraType.value
      case Wide => if total > 1 then IntToString(total) + "wd" else "wd"
      case NoBall => if total > 1 then IntToString(total) + "nb" else "nb"
      case Bye => if total > 0 then IntToString(total) + "b" else "b"
      case LegBye => if total > 0 then IntToString(total) + "lb" else "lb"
    else IntToString(b.runs)
  }

  /** The highlight class of a ball's glyph. */
  function GlyphClass(b: Ball): string
  {
    if b.isWicket then " wicket-ball"
    else if b.extraType.Some? then " extra-ball"
    else if b.runs == 6 then " six-ball"
    else if b.runs == 4 then " four-ball"
    else ""
  }

  /** Each highlight names exactly one kind of ball: a wicket outranks an
      extra, and the boundary classes go only to plain deliveries. */
  lemma GlyphClassCases(b: Ball)
    ensures GlyphClass(b) == " wicket-ball" <==> b.isWicket
    ensures GlyphClass(b) == " extra-ball" <==> !b.isWicket && b.extraType.Some?
    ensures GlyphClass(b) == " six-ball" <==> !b.isWicket && b.extraType.None? && b.runs == 6
    ensures GlyphClass(b) == " four-ball" <==> !b.isWicket && b.extraType.None? && b.runs == 4
    ensures GlyphClass(b) == "" <==> !b.isWicket && b.extraType.None? && b.runs != 4 && b.runs != 6
  {
  }

  /** A glyph is never empty, never holds a space or a tag bracket, and is
      "W" exactly for a wicket. */
  lemma GlyphShape(b: Ball)
    ensures |Glyph(b)| > 0
    ensures Free(Glyph(b), ' ') && Free(Glyph(b), '<') && Free(Glyph(b), '>')
    ensures Glyph(b) == "W" <==> b.isWicket
  {
    var g := Glyph(b);
    IntToStringHasNo(TotalRuns(b), ' ');
    IntToStringHasNo(TotalRuns(b), '<');
    IntToStringHasNo(TotalRuns(b), '>');
    IntToStringHasNo(b.runs, ' ');
    IntToStringHasNo(b.runs, '<');
    IntToStringHasNo(b.runs, '>');
    if !b.isWicket && b.extraType.None? {
      assert g[0] == '-' || IsDigit(g[0]);
    }
  }

  /** The strip and the server's over summary agree on wickets and on plain
      deliveries; they differ only in how extras are written. */
  lemma GlyphAgreesWithSummary(b: Ball)
    requires b.isWicket || b.extraType.None?
    ensures Glyph(b) == BallToken(b)
  {
  }

  // ------------------------------------------------------------ ball strip

  /** A ball as the strip collects it: tagged with its over's number (1 when
      the over has none) and its position in the over, counting from 1. */
  datatype Tagged = Tagged(ball: Ball, overNumber: int, ballInOver: int)

  function OverTag(o: Over): int
  {
    if o.overNumber == 0 then 1 else o.overNumber
  }

  function TaggedBalls(o: Over): (r: seq<Tagged>)
    ensures |r| == |o.balls|
    ensures forall j :: 0 <= j < |r| ==> r[j] == Tagged(o.balls[j], OverTag(o), j + 1)
  {
    seq(|o.balls|, j requires 0 <= j < |o.balls| => Tagged(o.balls[j], OverTag(o), j + 1))
  }

  /** Every ball of every over, in the order bowled. */
  function AllBalls(overs: seq<Over>): seq<Tagged>
    decreases |overs|
  {
    if |overs| == 0 then [] else TaggedBalls(overs[0]) + AllBalls(overs[1..])
  }

  lemma {:induction false} AllBallsAppend(overs: seq<Over>, o: Over)
    ensures AllBalls(overs + [o]) == AllBalls(overs) + TaggedBalls(o)
    decreases |overs|
  {
    if |overs| == 0 {
      assert AllBalls([o]) == TaggedBalls(o) + AllBalls([]);
    } else {
      assert (overs + [o])[1..] == overs[1..] + [o];
      AllBallsAppend(overs[1..], o);
    }
  }

  /** The strip holds as many balls as the overs do. */
  lemma {:induction false} AllBallsCount(overs: seq<Over>)
    ensures |AllBalls(overs)| == BallCount(overs)
    decreases |overs|
  {
    if |overs| > 0 {
      AllBallsCount(overs[1..]);
    }
  }

  /** Collects the tagged balls over by over, ball by ball. */
  method CollectBalls(overs: seq<Over>) returns (all: seq<Tagged>)
    ensures all == AllBalls(overs)
    ensures |all| == BallCount(overs)
  {
    all := [];
    var i := 0;
    while i < |overs|
      invariant 0 <= i <= |overs|
      invariant all == AllBalls(overs[..i])
    {
      var o := overs[i];
      if |o.balls| > 0 {
        var j := 0;
        while j < |o.balls|
          invariant 0 <= j <= |o.balls|
          invariant all == AllBalls(overs[..i]) + TaggedBalls(o)[..j]
        {
          all := all + [Tagged(o.balls[j], OverTag(o), j + 1)];
          assert TaggedBalls(o)[..j + 1] == TaggedBalls(o)[..j] + [TaggedBalls(o)[j]];
          j := j + 1;
        }
        assert TaggedBalls(o)[..j] == TaggedBalls(o);
      }
      AllBallsAppend(overs[..i], o);
      assert overs[..i + 1] == overs[..i] + [o];
      i := i + 1;
    }
    assert overs[..i] == overs;
    AllBallsCount(overs);
  }

  /** `s.slice(-k)`: the last k elements, or all of them when there are fewer. */
  function Last<T>(s: seq<T>, k: nat): (r: seq<T>)
    ensures |r| == if |s| < k then |s| else k
  {
    if |s| < k then s else s[|s| - k..]
  }

  function Untag(ts: seq<Tagged>): (r: seq<Ball>)
    ensures |r| == |ts|
    ensures forall i :: 0 <= i < |ts| ==> r[i] == ts[i].ball
  {
    seq(|ts|, i requires 0 <= i < |ts| => ts[i].ball)
  }

  function Glyphs(ts: seq<Tagged>): (r: seq<string>)
    ensures |r| == |ts|
    ensures forall i :: 0 <= i < |ts| ==> r[i] == Glyph(ts[i].ball)
  {
    seq(|ts|, i requires 0 <= i < |ts| => Glyph(ts[i].ball))
  }

  /** The plain-text strip: glyphs separated by single spaces. */
  function FormatOverBalls(ts: seq<Tagged>): string
  {
    if |ts| == 0 then "" else Join(" ", Glyphs(ts))
  }

  /** The plain-text strip splits back into one glyph per ball, in order. */
  lemma FormatOverBallsSplits(ts: seq<Tagged>)
    requires |ts| > 0
    ensures Split(FormatOverBalls(ts), ' ') == Glyphs(ts)
  {
    var gs := Glyphs(ts);
    forall i | 0 <= i < |gs| ensures Free(gs[i], ' ') {
      GlyphShape(ts[i].ball);
    }
    SplitJoin(gs, ' ');
  }

  lemma {:induction false} JoinAppend(sep: string, a: seq<string>, b: seq<string>)
    requires |a| > 0 && |b| > 0
    ensures Join(sep, a + b) == Join(sep, a) + sep + Join(sep, b)
    decreases |a|
  {
    if |a| == 1 {
      assert (a + b)[1..] == b;
    } else {
      assert (a + b)[1..] == a[1..] + b;
      JoinAppend(sep, a[1..], b);
    }
  }

  /** The balls of the strip that belong to the given over number. */
  function InOver(ts: seq<Tagged>, n: int): seq<Tagged>
    decreases |ts|
  {
    if |ts| == 0 then []
    else (if ts[0].overNumber == n then [ts[0]] else []) + InOver(ts[1..], n)
  }

  lemma {:induction false} InOverMembers(ts: seq<Tagged>, n: int)
    ensures forall t :: t in InOver(ts, n) <==> t in ts && t.overNumber == n
    decreases |ts|
  {
    if |ts| > 0 {
      InOverMembers(ts[1..], n);
      assert ts == [ts[0]] + ts[1..];
    }
  }

  /** The over section: hidden, or the last twelve balls as markup with their
      run total, the last six, those of the current over, and the six before
      the last six. */
  datatype Strip =
    | Hidden
    | Shown(count: nat, ballsHtml: string, total: int, overBalls: string, thisOver: string, previousOver: string)

  /** updateOverInfo over the collected balls. */
  function StripOf(all: seq<Tagged>, currentOver: int): Strip
  {
    var recent := Last(all, 12);
    if |recent| == 0 then Hidden
    else
      var n := if currentOver == 0 then 1 else currentOver;
      Shown(|recent|, BallsHtml(recent), Runs(Untag(recent)), FormatOverBalls(Last(recent, 6)),
            FormatOverBalls(InOver(recent, n)),
            if |recent| > 6 then FormatOverBalls(recent[..|recent| - 6]) else "")
  }

  /** The section shows exactly when a ball has been bowled, with the last
      twelve balls in play order; the previous six followed by the last six
      read as the whole strip; "this over" holds exactly the shown balls of
      the current over. */
  lemma StripWindows(all: seq<Tagged>, currentOver: int)
    ensures StripOf(all, currentOver).Shown? <==> |all| > 0
    ensures var strip := StripOf(all, currentOver);
            var recent := Last(all, 12);
            strip.Shown? ==>
              recent == all[|all| - strip.count..] &&
              strip.count == (if |all| < 12 then |all| else 12) &&
              strip.total == Runs(Untag(recent)) &&
              (strip.count > 6 ==> strip.previousOver + " " + strip.overBalls == FormatOverBalls(recent)) &&
              (strip.count <= 6 ==> strip.previousOver == "" && strip.overBalls == FormatOverBalls(recent))
    ensures var n := if currentOver == 0 then 1 else currentOver;
            forall t :: t in InOver(Last(all, 12), n) <==> t in Last(all, 12) && t.overNumber == n
  {
    var recent := Last(all, 12);
    InOverMembers(recent, if currentOver == 0 then 1 else currentOver);
    if |recent| > 6 {
      var prev := recent[..|recent| - 6];
      assert prev + Last(recent, 6) == recent;
      assert Glyphs(prev) + Glyphs(Last(recent, 6)) == Glyphs(recent);
      JoinAppend(" ", Glyphs(prev), Glyphs(Last(recent, 6)));
    }
  }

  /** On a live match the section shows exactly when the overs hold a ball. */
  lemma StripOfState(s: State)
    ensures StripOf(AllBalls(StatusOf(s).overs), StatusOf(s).currentOver).Shown? <==> BallCount(s.overs) > 0
  {
    AllBallsCount(s.overs);
    StripWindows(AllBalls(s.overs), s.currentOver);
  }

  // ------------------------------------------------------------ markup

  /** One ball as markup: a span with the ball's highlight class around its
      glyph. The literal text is written piece by piece so that each tag
      bracket stands alone. */
  function BallHtml(b: Ball): string
  {
    Tag(SpanOpening(b)) + Glyph(b) + Tag("/span")
  }

  /** A tag around its inner text. */
  function Tag(inner: string): string
  {
    "<" + inner + ">"
  }

  /** The inside of a ball's opening span tag. */
  function SpanOpening(b: Ball): string
  {
    "span class=\"ball-display" + GlyphClass(b) + "\""
  }

  function BallsHtml(ts: seq<Tagged>): string
    decreases |ts|
  {
    if |ts| == 0 then "" else BallHtml(ts[0].ball) + BallsHtml(ts[1..])
  }

  /** The text a browser shows for markup: every character outside `<…>` tags. */
  function VisibleText(s: string, inTag: bool): string
    decreases |s|
  {
    if |s| == 0 then ""
    else if s[0] == '<' then VisibleText(s[1..], true)
    else if inTag then VisibleText(s[1..], s[0] != '>')
    else [s[0]] + VisibleText(s[1..], false)
  }

  /** Whether the markup leaves a tag open. */
  function EndsInTag(s: string, inTag: bool): bool
    decreases |s|
  {
    if |s| == 0 then inTag
    else if s[0] == '<' then EndsInTag(s[1..], true)
    else if inTag then EndsInTag(s[1..], s[0] != '>')
    else EndsInTag(s[1..], false)
  }

  lemma {:induction false} VisibleAppend(a: string, b: string, inTag: bool)
    ensures VisibleText(a + b, inTag) == VisibleText(a, inTag) + VisibleText(b, EndsInTag(a, inTag))
    ensures EndsInTag(a + b, inTag) == EndsInTag(b, EndsInTag(a, inTag))
    decreases |a|
  {
    if |a| == 0 {
      assert a + b == b;
    } else {
      assert (a + b)[0] == a[0] && (a + b)[1..] == a[1..] + b;
      VisibleAppend(a[1..], b, if a[0] == '<' then true else if inTag then a[0] != '>' else false);
    }
  }

  /** Text without brackets outside a tag shows as itself. */
  lemma {:induction false} PlainVisible(s: string)
    requires Free(s, '<')
    ensures VisibleText(s, false) == s && !EndsInTag(s, false)
    decreases |s|
  {
    if |s| > 0 {
      PlainVisible(s[1..]);
      assert s == [s[0]] + s[1..];
    }
  }

  /** Inside a tag, text without brackets shows nothing and leaves the tag open. */
  lemma {:induction false} TagHidden(s: string)
    requires Free(s, '<') && Free(s, '>')
    ensures VisibleText(s, true) == "" && EndsInTag(s, true)
    decreases |s|
  {
    if |s| > 0 {
      TagHidden(s[1..]);
    }
  }

  /** A character is absent from two strings joined exactly when it is absent from each. */
  lemma FreeConcat(a: string, b: string, c: char)
    ensures Free(a + b, c) <==> Free(a, c) && Free(b, c)
  {
    if Free(a, c) && Free(b, c) {
      forall k | 0 <= k < |a + b| ensures (a + b)[k] != c {
        if k >= |a| { assert (a + b)[k] == b[k - |a|]; }
      }
    }
    if Free(a + b, c) {
      forall k | 0 <= k < |a| ensures a[k] != c {
        assert (a + b)[k] == a[k];
      }
      forall k | 0 <= k < |b| ensures b[k] != c {
        assert (a + b)[|a| + k] == b[k];
      }
    }
  }

  /** The inside of a ball's opening tag holds no bracket. */
  lemma SpanOpeningFree(b: Ball)
    ensures Free(SpanOpening(b), '<') && Free(SpanOpening(b), '>')
  {
    var cls := GlyphClass(b);
    assert Free("span class=\"ball-display", '<') && Free("span class=\"ball-display", '>');
    assert Free(cls, '<') && Free(cls, '>');
    assert Free("\"", '<') && Free("\"", '>');
    FreeConcat("span class=\"ball-display", cls, '<');
    FreeConcat("span class=\"ball-display", cls, '>');
    FreeConcat("span class=\"ball-display" + cls, "\"", '<');
    FreeConcat("span class=\"ball-display" + cls, "\"", '>');
  }

  /** A tag whose inside holds no bracket shows nothing and closes. */
  lemma TagInvisible(inner: string)
    requires Free(inner, '<') && Free(inner, '>')
    ensures VisibleText(Tag(inner), false) == "" && !EndsInTag(Tag(inner), false)
  {
    TagHidden(inner);
    assert VisibleText("<", false) == "" && EndsInTag("<", false);
    assert VisibleText(">", true) == "" && !EndsInTag(">", true);
    VisibleAppend("<", inner, false);
    VisibleAppend("<" + inner, ">", false);
  }

  /** Bracket-free text between two bracket-free tags shows as itself. */
  lemma ElementVisible(opening: string, text: string, closing: string)
    requires Free(opening, '<') && Free(opening, '>') && Free(closing, '<') && Free(closing, '>')
    requires Free(text, '<')
    ensures VisibleText(Tag(opening) + text + Tag(closing), false) == text
    ensures !EndsInTag(Tag(opening) + text + Tag(closing), false)
  {
    TagInvisible(opening);
    TagInvisible(closing);
    PlainVisible(text);
    VisibleAppend(Tag(opening), text, false);
    VisibleAppend(Tag(opening) + text, Tag(closing), false);
  }

  /** A ball's markup shows its glyph and nothing else. */
  lemma BallHtmlVisible(b: Ball)
    ensures VisibleText(BallHtml(b), false) == Glyph(b) && !EndsInTag(BallHtml(b), false)
  {
    SpanOpeningFree(b);
    assert Free("/span", '<') && Free("/span", '>');
    GlyphShape(b);
    ElementVisible(SpanOpening(b), Glyph(b), "/span");
  }

  /** formatBallsAsHtml shows the same glyphs as the plain strip, in the same
      order, without the separating spaces. */
  lemma {:induction false} BallsHtmlVisible(ts: seq<Tagged>)
    ensures VisibleText(BallsHtml(ts), false) == Join("", Glyphs(ts))
    ensures !EndsInTag(BallsHtml(ts), false)
    decreases |ts|
  {
    if |ts| > 0 {
      var head, tail := BallHtml(ts[0].ball), BallsHtml(ts[1..]);
      assert BallsHtml(ts) == head + tail;
      BallHtmlVisible(ts[0].ball);
      BallsHtmlVisible(ts[1..]);
      VisibleAppend(head, tail, false);
      var g := Glyphs(ts);
      assert g[0] == Glyph(ts[0].ball) && g[1..] == Glyphs(ts[1..]);
      JoinUnspaced(g);
    }
  }

  /** Joining with no separator puts the first part before the rest. */
  lemma JoinUnspaced(parts: seq<string>)
    requires |parts| > 0
    ensures Join("", parts) == parts[0] + Join("", parts[1..])
  {
    if |parts| == 1 {
      assert parts[0] + "" == parts[0];
    }
  }

  // ------------------------------------------------------------ partnership

  /** "{runs} ({balls})", the partnership line. */
  function StandLine(runs: int, balls: int): string
  {
    IntToString(runs) + " (" + IntToString(balls) + ")"
  }

  /** What one current batter adds to the partnership line: nothing when the
      name is empty or unknown. As written the balls are read from the key
      `balls`; corrected, from `balls_faced`, the key the batter cards read. */
  function BatterShare(st: Status, name: Option<string>, asWritten: bool): (int, int)
  {
    if Truthy(name) && name.value in st.players then
      var p := st.players[name.value];
      (p.runs, if asWritten then OrZero(p.balls) else p.ballsFaced)
    else (0, 0)
  }

  /** updatePartnership as written. */
  function PartnershipLineAsWritten(st: Status): string
  {
    var a := BatterShare(st, st.striker, true);
    var b := BatterShare(st, st.nonStriker, true);
    StandLine(a.0 + b.0, a.1 + b.1)
  }

  /** updatePartnership reading the balls each batter has faced. */
  function PartnershipLine(st: Status): string
  {
    var a := BatterShare(st, st.striker, false);
    var b := BatterShare(st, st.nonStriker, false);
    StandLine(a.0 + b.0, a.1 + b.1)
  }

  /** The two current batters' figures in the match state (0 for an empty or
      unknown name). */
  function StandFigures(s: State): (int, int)
  {
    var a := if Truthy(s.striker) && s.striker.value in s.players then s.players[s.striker.value] else NewPlayer("");
    var b := if Truthy(s.nonStriker) && s.nonStriker.value in s.players then s.players[s.nonStriker.value] else NewPlayer("");
    (a.runs + b.runs, a.ballsFaced + b.ballsFaced)
  }

  /** As written, the line fed by the server always shows 0 balls: a
      serialized Player has no `balls` key. */
  lemma PartnershipBallsAlwaysZero(s: State)
    ensures PartnershipLineAsWritten(StatusOf(s)) == StandLine(StandFigures(s).0, 0)
  {
  }

  /** A striker who has faced a ball, yet the line as written shows none. */
  lemma PartnershipBallsMissed()
    ensures var st := StatusOf(BallFacedState());
            PartnershipLineAsWritten(st) == "0 (0)" && PartnershipLine(st) == "0 (1)"
  {
    var st := StatusOf(BallFacedState());
    assert st.players["a"].ballsFaced == 1;
    assert IntToString(0) == "0" && IntToString(1) == "1";
  }

  /** A match where the striker has faced one dot ball. */
  function BallFacedState(): State
  {
    var s := NewMatch("X", "Y", 1);
    s.(striker := Some("a"), players := map["a" := NewPlayer("a").(ballsFaced := 1)])
  }

  /** Corrected, the line shows the current pair's runs and balls faced. */
  lemma PartnershipLineShowsPair(s: State)
    ensures PartnershipLine(StatusOf(s)) == StandLine(StandFigures(s).0, StandFigures(s).1)
  {
  }

  // ------------------------------------------------------------ bowler figures

  /** The bowler card's overs: completed overs, then the current ball count
      when this is the match's bowler and a ball of the over has been
      bowled, else ".0". */
  function BowlerCardOvers(st: Status, name: string, p: PlayerView): string
  {
    if Some(name) == st.bowler && st.currentBall > 0 then DotPair(p.oversBowled, st.currentBall)
    else DotPair(p.oversBowled, 0)
  }

  /** The scorecard's overs for a bowler: the current ball count is added as
      tenths for the bowler on, and the decimal part is shown only when it is
      not zero. */
  function ScorecardOvers(st: Status, name: string, p: PlayerView): string
  {
    var e := if Some(name) == st.bowler && st.currentBall > 0 then st.currentBall else 0;
    var complete := p.oversBowled + e / 10;
    var extra := e % 10;
    if extra > 0 then DotPair(complete, extra) else IntToString(complete)
  }

  /** The card and the scorecard agree for the bowler on with one to nine
      balls of the over bowled, and both read back as completed overs and
      balls; before the first ball of an over the card shows ".0" and the
      scorecard the bare count; for any other bowler the scorecard shows the
      bare count. */
  lemma BowlerOversAgree(st: Status, name: string, p: PlayerView)
    ensures Some(name) == st.bowler && 0 < st.currentBall < 10 ==>
              BowlerCardOvers(st, name, p) == ScorecardOvers(st, name, p) &&
              Split(BowlerCardOvers(st, name, p), '.') == [IntToString(p.oversBowled), IntToString(st.currentBall)]
    ensures st.currentBall == 0 ==>
              BowlerCardOvers(st, name, p) == IntToString(p.oversBowled) + ".0" &&
              ScorecardOvers(st, name, p) == IntToString(p.oversBowled)
    ensures Some(name) != st.bowler ==> ScorecardOvers(st, name, p) == IntToString(p.oversBowled)
  {
    DotPairSplits(p.oversBowled, st.currentBall);
    assert IntToString(0) == "0";
  }

  // ------------------------------------------------------------ last wicket

  /** "Last Wkt: {player} ({runs}/{wickets}, {over})", or "No wickets". The
      wicket count is the batting team's current count, or the length of the
      list when the batting team's name matches neither team. */
  function LastWicketText(st: Status): string
  {
    if |st.fallOfWickets| == 0 then "No wickets"
    else
      var w := st.fallOfWickets[|st.fallOfWickets| - 1];
      if w.player == "" then "No wickets"
      else
        var wickets := if st.battingTeam == st.team1.name then st.team1.wickets
                       else if st.battingTeam == st.team2.name then st.team2.wickets
                       else |st.fallOfWickets|;
        "Last Wkt: " + w.player + " (" + IntToString(w.runs) + "/" + IntToString(wickets) + ", " + w.over + ")"
  }

  /** The line names the last entry, with the batting side's wicket count
      whenever the batting team is one of the two teams. */
  lemma LastWicketNamesLast(st: Status, w: Wicket)
    requires |st.fallOfWickets| > 0 && st.fallOfWickets[|st.fallOfWickets| - 1] == w && w.player != ""
    requires st.battingTeam == st.team1.name || st.battingTeam == st.team2.name
    ensures LastWicketText(st) ==
              "Last Wkt: " + w.player + " (" + IntToString(w.runs) + "/" + IntToString(LiveTeams(st).0.wickets) + ", " + w.over + ")"
  {
  }

  /** On a live match with distinct team names, the line names the last
      batter out (the entry add_ball appends for a wicket), the score at the
      fall and the batting side's current wicket count. */
  lemma LastWicketOfState(d: State)
    requires d.batting.Some? && d.team1.name != d.team2.name
    requires |d.fallOfWickets| > 0 && d.fallOfWickets[|d.fallOfWickets| - 1].player != ""
    ensures var w := d.fallOfWickets[|d.fallOfWickets| - 1];
            LastWicketText(StatusOf(d)) ==
              "Last Wkt: " + w.player + " (" + IntToString(w.runs) + "/" + IntToString(BattingTeam(d).wickets) + ", " + w.over + ")"
  {
    LiveTeamsOfState(d);
    LastWicketNamesLast(StatusOf(d), d.fallOfWickets[|d.fallOfWickets| - 1]);
  }

  /** Before any wicket the line reads "No wickets". */
  lemma NoWicketsYet(s: State)
    requires s.fallOfWickets == []
    ensures LastWicketText(StatusOf(s)) == "No wickets"
  {
  }

  // ------------------------------------------------------------ scorecard

  /** The side that bats first as the scorecard reads the toss: the winner
      bats on "bat" and bowls on "bowl", matched to team1 by exact name; with
      no toss or any other decision team1 bats first. */
  function FirstBatting(st: Status): Side
  {
    if st.tossWinner != "" && st.tossDecision == "bat" then (if st.tossWinner == st.team1.name then Team1 else Team2)
    else if st.tossWinner != "" && st.tossDecision == "bowl" then (if st.tossWinner == st.team1.name then Team2 else Team1)
    else Team1
  }

  /** getTeamForInnings: the first batting side for innings 1, the other for any other number. */
  function TeamForInnings(st: Status, innings: int): Side
  {
    if innings == 1 then FirstBatting(st) else Other(FirstBatting(st))
  }

  /** getBowlingTeamForInnings. */
  function BowlingTeamForInnings(st: Status, innings: int): Side
  {
    if innings == 1 then Other(FirstBatting(st)) else FirstBatting(st)
  }

  function SideView(st: Status, side: Side): TeamView
  {
    if side == Team1 then st.team1 else st.team2
  }

  /** The two innings get different batting sides; the bowling side of an
      innings is the batting side of the other one and never its own batting
      side. */
  lemma InningsSides(st: Status, innings: int)
    ensures TeamForInnings(st, 1) != TeamForInnings(st, 2)
    ensures BowlingTeamForInnings(st, innings) == TeamForInnings(st, if innings == 1 then 2 else 1)
    ensures BowlingTeamForInnings(st, innings) != TeamForInnings(st, innings)
  {
  }

  /** The toss winner, named exactly, bats first on "bat" and bowls first on
      "bowl"; without a toss team1 bats first. */
  lemma TossDecidesFirstInnings(st: Status)
    requires st.tossWinner == st.team1.name || st.tossWinner == st.team2.name
    ensures st.tossWinner != "" && st.tossDecision == "bat" ==> SideView(st, TeamForInnings(st, 1)).name == st.tossWinner
    ensures st.tossWinner != "" && st.tossDecision == "bowl" ==> SideView(st, BowlingTeamForInnings(st, 1)).name == st.tossWinner
    ensures st.tossWinner == "" || (st.tossDecision != "bat" && st.tossDecision != "bowl") ==> TeamForInnings(st, 1) == Team1
  {
  }

  /** When the toss winner is one of the two names as entered, the decision is
      "bat" or "bowl" and the names differ even ignoring case, the scorecard's
      first batting side is the side set_toss sends in. */
  lemma ScorecardAgreesWithToss(s: State, winner: string, decision: string)
    requires winner != "" && (winner == s.team1.name || winner == s.team2.name)
    requires decision == "bat" || decision == "bowl"
    requires !SameIgnoringCase(s.team1.name, s.team2.name)
    ensures var r := SetToss(s, winner, decision);
            r.batting.Some? && TeamForInnings(StatusOf(r), 1) == r.batting.value
  {
    if winner == s.team1.name {
      SameIgnoringCaseFromEqual(winner, s.team1.name);
    } else {
      assert !SameIgnoringCase(winner, s.team1.name);
    }
  }

  /** After the first innings ends, the scorecard's second-innings side is
      the side now batting, provided it agreed on the first. */
  lemma ScorecardAgreesAfterInnings(s: State)
    requires s.batting.Some? && s.bowling == Some(Other(s.batting.value)) && s.currentInnings == 1
    requires TeamForInnings(StatusOf(s), 1) == s.batting.value
    ensures var r := EndInnings(s);
            r.batting.Some? && r.currentInnings == 2 && TeamForInnings(StatusOf(r), 2) == r.batting.value
  {
    var r := EndInnings(s);
    assert r.team1.name == s.team1.name && r.team2.name == s.team2.name;
    assert FirstBatting(StatusOf(r)) == FirstBatting(StatusOf(s));
  }

  /** The innings header's team name ("Team" when empty). */
  function InningsTeamName(st: Status, innings: int): string
  {
    var t := SideView(st, TeamForInnings(st, innings));
    if t.name == "" then "Team" else t.name
  }

  /** When the scorecard agrees with the server on who bats now, the header
      of the innings in play names the batting side and the other header
      names the bowling side, each as "Team" when its name is empty; the
      header name is never empty. */
  lemma HeaderTeamNames(s: State)
    requires s.batting.Some? && TeamForInnings(StatusOf(s), s.currentInnings) == s.batting.value
    ensures var now, other := BattingTeam(s).name, TeamAt(s, Other(s.batting.value)).name;
            var r, o := InningsTeamName(StatusOf(s), s.currentInnings),
                        InningsTeamName(StatusOf(s), if s.currentInnings == 1 then 2 else 1);
            r != "" && o != "" &&
            (now != "" ==> r == now) && (now == "" ==> r == "Team") &&
            (other != "" ==> o == other) && (other == "" ==> o == "Team")
  {
    InningsSides(StatusOf(s), s.currentInnings);
  }

  /** The innings header's score: "{runs}/{wickets}", then the live overs
      text for the innings in play, else the team's overs when known. */
  function InningsScore(st: Status, innings: int): string
  {
    var t := SideView(st, TeamForInnings(st, innings));
    var score := IntToString(OrZero(t.runs)) + "/" + IntToString(t.wickets);
    if innings == st.currentInnings && st.currentOver != 0 then score + " (" + OversText(st.currentOver, st.currentBall) + " ov)"
    else if t.overs.Some? then score + " (" + IntToString(t.overs.value) + " ov)"
    else score
  }

  /** When the scorecard and the server agree on who bats in the current
      innings, its header shows the team of the team line, the batting
      side's score and the team line's overs text. */
  lemma HeaderMatchesTeamLine(s: State)
    requires s.batting.Some? && s.team1.name != s.team2.name && s.currentOver != 0
    requires TeamForInnings(StatusOf(s), s.currentInnings) == s.batting.value
    ensures var st := StatusOf(s);
            SideView(st, TeamForInnings(st, s.currentInnings)) == LiveTeams(st).0 &&
            InningsScore(st, s.currentInnings) ==
              IntToString(BattingTeam(s).runs) + "/" + IntToString(BattingTeam(s).wickets) +
              " (" + OversText(s.currentOver, s.currentBall) + " ov)"
  {
    LiveTeamsOfState(s);
  }

  // ------------------------------------------------------------ batting table

  /** A player appears in the batting table once they have scored, faced a
      ball or been dismissed. */
  predicate Batted(p: PlayerView)
  {
    p.runs > 0 || p.ballsFaced > 0 || p.isOut
  }

  /** "not out", unless the player is out with a dismissal type, then the
      type and " b {bowler}" when a bowler is named. */
  function DismissalText(p: PlayerView): string
  {
    if p.isOut && Truthy(p.dismissalType) then
      p.dismissalType.value + (if Truthy(p.bowlerName) then " b " + p.bowlerName.value else "")
    else "not out"
  }

  datatype BattingRow = BattingRow(name: string, runs: int, balls: int, fours: int, sixes: int, dismissal: string)

  function BattingRowOf(name: string, p: PlayerView): BattingRow
  {
    BattingRow(name, p.runs, p.ballsFaced, p.fours, p.sixes, DismissalText(p))
  }

  /** The batting rows for a team list, in list order. */
  function BattingRows(names: seq<string>, players: map<string, PlayerView>): seq<BattingRow>
    decreases |names|
  {
    if |names| == 0 then []
    else
      var n := names[|names| - 1];
      BattingRows(names[..|names| - 1], players) + (if n in players && Batted(players[n]) then [BattingRowOf(n, players[n])] else [])
  }

  /** A row stands for a listed player exactly when that player is known and
      has batted, and it carries that player's figures. */
  lemma {:induction false} BattingRowsMembers(names: seq<string>, players: map<string, PlayerView>)
    ensures forall r :: r in BattingRows(names, players) ==>
              r.name in names && r.name in players && Batted(players[r.name]) && r == BattingRowOf(r.name, players[r.name])
    ensures forall n :: n in names && n in players && Batted(players[n]) ==> BattingRowOf(n, players[n]) in BattingRows(names, players)
    decreases |names|
  {
    if |names| > 0 {
      var init := names[..|names| - 1];
      BattingRowsMembers(init, players);
      assert names == init + [names[|names| - 1]];
    }
  }

  /** Rows keep team-list order: the rows of two lists joined are the rows of
      the first followed by those of the second. */
  lemma {:induction false} BattingRowsAppend(a: seq<string>, b: seq<string>, players: map<string, PlayerView>)
    ensures BattingRows(a + b, players) == BattingRows(a, players) + BattingRows(b, players)
    decreases |b|
  {
    if |b| > 0 {
      var bInit := b[..|b| - 1];
      assert (a + b)[..|a + b| - 1] == a + bInit;
      BattingRowsAppend(a, bInit, players);
    } else {
      assert a + b == a;
    }
  }

  /** The extras counts by kind: byes, leg byes, wides, no-balls. The
      server's single integer has no such fields, so it reads as all zero. */
  function ExtrasKinds(e: ExtrasField): (int, int, int, int)
  {
    match e
    case ExtrasCount(_) => (0, 0, 0, 0)
    case ExtrasByKind(b, lb, w, nb) => (b, lb, w, nb)
  }

  function ExtrasParts(e: ExtrasField): seq<string>
  {
    var (b, lb, w, nb) := ExtrasKinds(e);
    (if b != 0 then ["b " + IntToString(b)] else []) +
    (if lb != 0 then ["lb " + IntToString(lb)] else []) +
    (if w != 0 then ["w " + IntToString(w)] else []) +
    (if nb != 0 then ["nb " + IntToString(nb)] else [])
  }

  /** "{total} ({parts})". */
  function ExtrasText(e: ExtrasField): string
  {
    var (b, lb, w, nb) := ExtrasKinds(e);
    IntToString(b + lb + w + nb) + " (" + Join(", ", ExtrasParts(e)) + ")"
  }

  /** The breakdown lists one part per non-zero kind, byes first when there
      are any, and nothing when all are zero. */
  lemma ExtrasPartsShape(e: ExtrasField)
    ensures var (b, lb, w, nb) := ExtrasKinds(e);
            |ExtrasParts(e)| == (if b != 0 then 1 else 0) + (if lb != 0 then 1 else 0) + (if w != 0 then 1 else 0) + (if nb != 0 then 1 else 0) &&
            (ExtrasParts(e) == [] <==> b == 0 && lb == 0 && w == 0 && nb == 0) &&
            (b != 0 ==> ExtrasParts(e)[0] == "b " + IntToString(b)) &&
            (b == 0 && lb != 0 ==> ExtrasParts(e)[0] == "lb " + IntToString(lb))
  {
  }

  /** With the server's data the scorecard's extras line is always "0 ()",
      whatever extras the team conceded. */
  lemma LiveExtrasText(t: Team)
    ensures ExtrasText(TeamViewOf(t).extras) == "0 ()"
  {
    assert IntToString(0) == "0";
  }

  /** With the server's data nobody is shown as out: the dismissal column
      reads "not out", and a row appears only for players with runs or balls
      faced. */
  lemma LiveBattingRows(s: State, name: string)
    requires name in s.players
    ensures DismissalText(StatusOf(s).players[name]) == "not out"
    ensures Batted(StatusOf(s).players[name]) <==> s.players[name].runs > 0 || s.players[name].ballsFaced > 0
  {
  }

  /** updateBattingTable: appends a row for each listed player who batted,
      and works out the extras line. */
  method BattingTable(st: Status, innings: int) returns (rows: seq<BattingRow>, extras: string)
    ensures rows == BattingRows(SideView(st, TeamForInnings(st, innings)).players, st.players)
    ensures extras == ExtrasText(SideView(st, TeamForInnings(st, innings)).extras)
  {
    var team := SideView(st, TeamForInnings(st, innings));
    var names := team.players;
    rows := [];
    var i := 0;
    while i < |names|
      invariant 0 <= i <= |names|
      invariant rows == BattingRows(names[..i], st.players)
    {
      var n := names[i];
      assert names[..i + 1][..i] == names[..i];
      if n in st.players && Batted(st.players[n]) {
        rows := rows + [BattingRowOf(n, st.players[n])];
      }
      i := i + 1;
    }
    assert names[..i] == names;
    extras := ExtrasText(team.extras);
  }

  // ------------------------------------------------------------ bowling table

  /** A player appears in the bowling table once they have bowled an over or
      a ball, conceded a run or taken a wicket. */
  predicate Bowled(p: PlayerView)
  {
    p.oversBowled > 0 || OrZero(p.ballsBowled) > 0 || p.runsConceded > 0 || p.wicketsTaken > 0
  }

  datatype BowlingRow = BowlingRow(name: string, overs: string, maidens: int, runs: int, wickets: int)

  function BowlingRowOf(st: Status, name: string, p: PlayerView): BowlingRow
  {
    BowlingRow(name, ScorecardOvers(st, name, p), p.maidens, p.runsConceded, p.wicketsTaken)
  }

  function BowlingRows(st: Status, names: seq<string>): seq<BowlingRow>
    decreases |names|
  {
    if |names| == 0 then []
    else
      var n := names[|names| - 1];
      BowlingRows(st, names[..|names| - 1]) + (if n in st.players && Bowled(st.players[n]) then [BowlingRowOf(st, n, st.players[n])] else [])
  }

  /** A row stands for a listed player exactly when that player is known and
      has bowled, and it carries that player's figures. */
  lemma {:induction false} BowlingRowsMembers(st: Status, names: seq<string>)
    ensures forall r :: r in BowlingRows(st, names) ==>
              r.name in names && r.name in st.players && Bowled(st.players[r.name]) && r == BowlingRowOf(st, r.name, st.players[r.name])
    ensures forall n :: n in names && n in st.players && Bowled(st.players[n]) ==> BowlingRowOf(st, n, st.players[n]) in BowlingRows(st, names)
    decreases |names|
  {
    if |names| > 0 {
      var init := names[..|names| - 1];
      BowlingRowsMembers(st, init);
      assert names == init + [names[|names| - 1]];
    }
  }

  /** updateBowlingTable: appends a row for each listed player of the
      innings' bowling side who bowled. */
  method BowlingTable(st: Status, innings: int) returns (rows: seq<BowlingRow>)
    ensures rows == BowlingRows(st, SideView(st, BowlingTeamForInnings(st, innings)).players)
  {
    var names := SideView(st, BowlingTeamForInnings(st, innings)).players;
    rows := [];
    var i := 0;
    while i < |names|
      invariant 0 <= i <= |names|
      invariant rows == BowlingRows(st, names[..i])
    {
      var n := names[i];
      assert names[..i + 1][..i] == names[..i] && names[..i + 1][i] == n;
      ghost var next := BowlingRows(st, names[..i + 1]);
      if n in st.players && Bowled(st.players[n]) {
        rows := rows + [BowlingRowOf(st, n, st.players[n])];
      }
      i := i + 1;
    }
    assert names[..i] == names;
  }
}
