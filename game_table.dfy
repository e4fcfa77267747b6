/**
 * The table page of the client (frontend/src/pages/GameTable.jsx): the hand
 * winner and game-end rules, and the handlers and effects that drive a hand:
 * the loop that advances the bots one request at a time, the human's action
 * and bet submission, and the timers that start the next hand or leave the
 * table.
 *
 * Server replies are parameters: each handler receives the replies its
 * requests would get, in order, and None stands for a failed request. What
 * the page does is recorded, in order, as a log of events (requests, waits,
 * comments shown and cleared, game states published, timers armed), and the
 * page's state is always the replay of that log from the state it was
 * mounted with.
 */
module GameTable {
  import opened Common
  import opened Snapshot

  datatype Outcome = Lost | Won

  /** Where the end-of-game timer navigates. */
  function OutcomePage(o: Outcome): string {
    if o == Lost then "/game-lost" else "/game-won"
  }

  /** A reply of the game endpoints: the new state, its status, and a bot's table comment ("" for none). */
  datatype Reply = Reply(state: GameView, status: string, tableComment: string, commentIndex: int)

  /** Who won the hand, and whether it counts as a hand won by the human. */
  datatype HandResult = HandResult(winner: nat, humanWon: bool)

  datatype Event =
    | RequestBotAction
    | RequestStartHand
    | RequestPlayerAction(action: Option<string>, amount: Option<int>)
    | ShowComment(text: string, speaker: string)
    | Hold(ms: nat)
    | ClearComment
    | Publish(state: GameView)
    | HandOver(result: HandResult)
    | Failure(message: string)
    | HandStarted
    | WinnerCleared
    | GameEnded(outcome: Outcome)
    | HandCompleteReset
    | ScheduleNextHand(ms: nat)
    | ScheduleRedirect(page: string, ms: nat)

  const BotFailure := "Failed to process bot actions"
  const StartFailure := "Failed to start game"
  const PlayerFailure := "Failed to process player action"
  const InvalidBet := "Please enter a valid bet amount"

  const CommentHold: nat := 3000
  const NextHandDelay: nat := 3000
  const RedirectDelay: nat := 5000

  // ---------------------------------------------------------------------
  // Hand winner and game end
  // ---------------------------------------------------------------------

  /** `players.find(p => !p.is_bot)`: the first human seat. */
  function FirstHuman(ps: seq<PlayerView>): (h: Option<nat>)
    ensures h.Some? ==> h.value < |ps| && !ps[h.value].isBot && forall j :: 0 <= j < h.value ==> ps[j].isBot
    ensures h.None? <==> forall j :: 0 <= j < |ps| ==> ps[j].isBot
  {
    if ps == [] then None
    else if !ps[0].isBot then Some(0)
    else
      var rest := FirstHuman(ps[1..]);
      if rest.None? then None else Some(rest.value + 1)
  }

  /** The seats still in the hand, in seat order. */
  function NonFolded(ps: seq<PlayerView>): (ix: seq<nat>)
    ensures forall k :: 0 <= k < |ix| ==> ix[k] < |ps| && ps[ix[k]].status != "folded"
    ensures forall i :: 0 <= i < |ps| && ps[i].status != "folded" ==> i in ix
    ensures forall k, m :: 0 <= k < m < |ix| ==> ix[k] < ix[m]
  {
    if ps == [] then []
    else
      var before := NonFolded(ps[..|ps| - 1]);
      if ps[|ps| - 1].status != "folded" then before + [|ps| - 1] else before
  }

  /** The seats with chips left, in seat order. */
  function WithChips(ps: seq<PlayerView>): (ix: seq<nat>)
    ensures forall k :: 0 <= k < |ix| ==> ix[k] < |ps| && ps[ix[k]].chips > 0
    ensures forall i :: 0 <= i < |ps| && ps[i].chips > 0 ==> i in ix
    ensures forall k, m :: 0 <= k < m < |ix| ==> ix[k] < ix[m]
  {
    if ps == [] then []
    else
      var before := WithChips(ps[..|ps| - 1]);
      if ps[|ps| - 1].chips > 0 then before + [|ps| - 1] else before
  }

  /** The `reduce` that keeps the earlier player unless a later one has strictly more chips. */
  function Richest(ps: seq<PlayerView>): (w: nat)
    requires ps != []
    ensures w < |ps|
    ensures forall j :: 0 <= j < |ps| ==> ps[j].chips <= ps[w].chips
    ensures forall j :: 0 <= j < w ==> ps[j].chips < ps[w].chips
  {
    if |ps| == 1 then 0
    else
      var w := Richest(ps[..|ps| - 1]);
      if ps[|ps| - 1].chips > ps[w].chips then |ps| - 1 else w
  }

  /**
   * `handleHandComplete`'s choice: the only player not folded, else the first
   * player with the most chips; None where the `reduce` over no players
   * throws. The second case counts a win for the human when their chips
   * exceed the `finalChips` the handler saw when it started.
   */
  function HandOutcome(ps: seq<PlayerView>, staleChips: Option<int>): (r: Option<HandResult>)
    ensures r.None? <==> ps == []
    ensures |NonFolded(ps)| == 1 ==> r == Some(HandResult(NonFolded(ps)[0], FirstHuman(ps) == Some(NonFolded(ps)[0])))
    ensures |NonFolded(ps)| != 1 && r.Some? ==>
              r.value.winner < |ps| &&
              (forall j :: 0 <= j < |ps| ==> ps[j].chips <= ps[r.value.winner].chips) &&
              (forall j :: 0 <= j < r.value.winner ==> ps[j].chips < ps[r.value.winner].chips)
    ensures |NonFolded(ps)| != 1 && r.Some? ==>
              (r.value.humanWon <==> FirstHuman(ps).Some? && staleChips.Some? &&
                                     ps[FirstHuman(ps).value].chips > staleChips.value)
  {
    var nonFolded := NonFolded(ps);
    if |nonFolded| == 1 then Some(HandResult(nonFolded[0], FirstHuman(ps) == Some(nonFolded[0])))
    else if ps == [] then None
    else
      var h := FirstHuman(ps);
      Some(HandResult(Richest(ps), h.Some? && staleChips.Some? && ps[h.value].chips > staleChips.value))
  }

  /**
   * The game-end check: lost when the first human has no chips (checked
   * first), won when exactly one player has chips and that player is human.
   */
  function EndOf(g: GameView): (r: Option<Outcome>)
    ensures r == Some(Lost) <==> FirstHuman(g.players).Some? && g.players[FirstHuman(g.players).value].chips <= 0
    ensures r == Some(Won) <==>
              !(FirstHuman(g.players).Some? && g.players[FirstHuman(g.players).value].chips <= 0) &&
              |WithChips(g.players)| == 1 && !g.players[WithChips(g.players)[0]].isBot
  {
    var h := FirstHuman(g.players);
    if h.Some? && g.players[h.value].chips <= 0 then Some(Lost)
    else
      var rich := WithChips(g.players);
      if |rich| == 1 && !g.players[rich[0]].isBot then Some(Won) else None
  }

  /** With one human at the table, 'won' means every bot is out of chips and the human is not. */
  lemma {:induction false} WonMeansBotsBroke(g: GameView, h: nat)
    requires h < |g.players| && forall j :: 0 <= j < |g.players| ==> (g.players[j].isBot <==> j != h)
    ensures EndOf(g) == Some(Won) <==>
              g.players[h].chips > 0 && forall j :: 0 <= j < |g.players| && j != h ==> g.players[j].chips <= 0
  {
    var ps := g.players;
    assert FirstHuman(ps) == Some(h);
    if g.players[h].chips > 0 && forall j :: 0 <= j < |ps| && j != h ==> ps[j].chips <= 0 {
      OnlyOneWithChips(ps, h);
    }
  }

  /** When a single seat has chips, `WithChips` is that seat alone. */
  lemma {:induction false} OnlyOneWithChips(ps: seq<PlayerView>, h: nat)
    requires h < |ps| && ps[h].chips > 0
    requires forall j :: 0 <= j < |ps| && j != h ==> ps[j].chips <= 0
    ensures WithChips(ps) == [h]
  {
    var last := |ps| - 1;
    var prefix := ps[..last];
    if h == last {
      NoneWithChips(prefix);
    } else {
      OnlyOneWithChips(prefix, h);
    }
  }

  lemma {:induction false} NoneWithChips(ps: seq<PlayerView>)
    requires forall j :: 0 <= j < |ps| ==> ps[j].chips <= 0
    ensures WithChips(ps) == []
  {
    if ps != [] {
      NoneWithChips(ps[..|ps| - 1]);
    }
  }

  // ---------------------------------------------------------------------
  // The page state and its event log
  // ---------------------------------------------------------------------

  datatype Stats = Stats(handsPlayed: nat, handsWon: nat, finalChips: Option<int>)

  datatype Comment = Comment(text: string, speaker: string)

  /** The page's state variables. */
  datatype Screen = Screen(
    state: Option<GameView>,
    comment: Option<Comment>,
    stats: Stats,
    winner: Option<nat>,
    handComplete: bool,
    endState: Option<Outcome>,
    error: Option<string>,
    started: bool)

  /** The state a page starts with before any game state is shown. */
  const Blank := Screen(None, None, Stats(0, 0, None), None, false, None, None, false)

  /**
   * The statistics effect on a newly shown game state: a hand is counted when
   * there are no community cards, and `finalChips` follows the human's chips.
   */
  function AfterPublish(s: Stats, g: GameView): (t: Stats)
    ensures t.handsPlayed == s.handsPlayed + (if |g.communityCards| == 0 then 1 else 0)
    ensures t.handsWon == s.handsWon
    ensures FirstHuman(g.players).Some? ==> t.finalChips == Some(g.players[FirstHuman(g.players).value].chips)
    ensures FirstHuman(g.players).None? ==> t.finalChips == s.finalChips
  {
    var h := FirstHuman(g.players);
    Stats(if |g.communityCards| == 0 then s.handsPlayed + 1 else s.handsPlayed,
          s.handsWon,
          if h.Some? then Some(g.players[h.value].chips) else s.finalChips)
  }

  /** What one event does to the page state. */
  function Apply(v: Screen, e: Event): Screen {
    match e
    case ShowComment(text, speaker) => v.(comment := Some(Comment(text, speaker)))
    case ClearComment => v.(comment := None)
    case Publish(g) => v.(state := Some(g), stats := AfterPublish(v.stats, g))
    case HandOver(r) =>
      v.(winner := Some(r.winner), handComplete := true,
         stats := v.stats.(handsWon := if r.humanWon then v.stats.handsWon + 1 else v.stats.handsWon))
    case Failure(m) => v.(error := Some(m))
    case HandStarted => v.(started := true)
    case WinnerCleared => v.(winner := None)
    case GameEnded(o) => v.(endState := Some(o))
    case HandCompleteReset => v.(handComplete := false)
    case _ => v
  }

  /** The state after a run of events. */
  function Replay(v: Screen, evs: seq<Event>): Screen
  {
    if evs == [] then v else Apply(Replay(v, evs[..|evs| - 1]), evs[|evs| - 1])
  }

  lemma AppendAssoc<T>(a: seq<T>, b: seq<T>, c: seq<T>)
    ensures a + b + c == a + (b + c)
  {
  }

  lemma {:induction false} ReplayAppend(v: Screen, a: seq<Event>, b: seq<Event>)
    ensures Replay(v, a + b) == Replay(Replay(v, a), b)
  {
    if b == [] {
      assert a + b == a;
    } else {
      var b' := b[..|b| - 1];
      ReplayAppend(v, a, b');
      assert (a + b)[..|a + b| - 1] == a + b';
    }
  }

  // ---------------------------------------------------------------------
  // What each handler does, as a run of events
  // ---------------------------------------------------------------------

  /** The comment part of one bot reply: shown, held and cleared; None where the speaker lookup throws. */
  function CommentEvents(d: Reply): (r: Option<seq<Event>>)
    ensures d.tableComment == "" ==> r == Some([])
    ensures d.tableComment != "" && r.Some? ==>
              0 <= d.commentIndex < |d.state.players| &&
              r.value == [ShowComment(d.tableComment, d.state.players[d.commentIndex].name), Hold(CommentHold), ClearComment]
    ensures r.None? <==> d.tableComment != "" && !(0 <= d.commentIndex < |d.state.players|)
  {
    if d.tableComment == "" then Some([])
    else if 0 <= d.commentIndex < |d.state.players| then
      Some([ShowComment(d.tableComment, d.state.players[d.commentIndex].name), Hold(CommentHold), ClearComment])
    else None
  }

  /** What a bot reply does once its comment is done: publish the state, then end or go on. */
  function PublishEvents(d: Reply, staleChips: Option<int>): (seq<Event>, bool)
  {
    if d.status == "hand_complete" then
      var r := HandOutcome(d.state.players, staleChips);
      if r.None? then ([Publish(d.state), Failure(BotFailure)], false) else ([Publish(d.state), HandOver(r.value)], false)
    else if !HasCurrent(d.state) then ([Publish(d.state), Failure(BotFailure)], false)
    else ([Publish(d.state)], d.state.players[d.state.currentPlayer].isBot)
  }

  /** What one bot reply makes the loop do, and whether the loop goes on. */
  function ReplyEvents(d: Reply, staleChips: Option<int>): (seq<Event>, bool)
  {
    var c := CommentEvents(d);
    if c.None? then ([Failure(BotFailure)], false)
    else
      var p := PublishEvents(d, staleChips);
      (c.value + p.0, p.1)
  }

  /** `processBotActions` from turn i on: one request per turn until a hand ends, a human is to act, or something fails. */
  function BotRun(replies: seq<Option<Reply>>, i: nat, staleChips: Option<int>): seq<Event>
    requires i <= |replies|
    decreases |replies| - i
  {
    var t := TurnEvents(replies, i, staleChips);
    t.0 + (if t.1 then BotRun(replies, i + 1, staleChips) else [])
  }

  /** The whole bot loop, one reply per turn. */
  function BotEvents(replies: seq<Option<Reply>>, staleChips: Option<int>): seq<Event>
  {
    BotRun(replies, 0, staleChips)
  }

  /** `handleStartGame`. */
  function StartEvents(reply: Option<Reply>, botReplies: seq<Option<Reply>>, staleChips: Option<int>): seq<Event>
  {
    if reply.None? then [RequestStartHand, Failure(StartFailure)]
    else [RequestStartHand] + StartReplyEvents(reply.value.state, botReplies, staleChips)
  }

  /** `handleStartGame` once the new hand's state has arrived: show it, then hand over to the bots if one is to act. */
  function StartReplyEvents(g: GameView, botReplies: seq<Option<Reply>>, staleChips: Option<int>): seq<Event>
  {
    [Publish(g), HandStarted] +
    (if !HasCurrent(g) then [Failure(StartFailure)]
     else if g.players[g.currentPlayer].isBot then BotEvents(botReplies, staleChips)
     else [])
  }

  /** `handlePlayerAction`. */
  function PlayerEvents(action: Option<string>, amount: Option<int>, reply: Option<Reply>,
                        botReplies: seq<Option<Reply>>, staleChips: Option<int>): seq<Event>
  {
    if reply.None? then [RequestPlayerAction(action, amount), Failure(PlayerFailure)]
    else [RequestPlayerAction(action, amount)] + PlayerReplyEvents(reply.value, botReplies, staleChips)
  }

  /** `handlePlayerAction` once the reply has arrived: show it, then end the hand, fail, or hand over to the bots. */
  function PlayerReplyEvents(d: Reply, botReplies: seq<Option<Reply>>, staleChips: Option<int>): seq<Event>
  {
    [Publish(d.state), ClearComment] +
    (if d.status == "hand_complete" then
       (var r := HandOutcome(d.state.players, staleChips);
        if r.None? then [Failure(PlayerFailure)] else [HandOver(r.value)])
     else if !HasCurrent(d.state) then [Failure(PlayerFailure)]
     else if d.state.players[d.state.currentPlayer].isBot then BotEvents(botReplies, staleChips)
     else [])
  }

  /** `handleActionClick`: 'bet' and 'raise' only open the amount form; anything else is sent at once. */
  function ActionClickEvents(action: string, reply: Option<Reply>, botReplies: seq<Option<Reply>>,
                             staleChips: Option<int>): (evs: seq<Event>)
    ensures action == "bet" || action == "raise" ==> evs == []
    ensures action != "bet" && action != "raise" ==> evs == PlayerEvents(Some(action), None, reply, botReplies, staleChips)
  {
    if action == "bet" || action == "raise" then []
    else PlayerEvents(Some(action), None, reply, botReplies, staleChips)
  }

  /** `handleBetSubmit`: an empty or non-positive amount is refused before any request. */
  function BetSubmitEvents(betAmount: Option<int>, selected: Option<string>, reply: Option<Reply>,
                           botReplies: seq<Option<Reply>>, staleChips: Option<int>): (evs: seq<Event>)
    ensures betAmount.None? || betAmount.value <= 0 ==> evs == [Failure(InvalidBet)]
    ensures betAmount.Some? && betAmount.value > 0 ==>
              evs == PlayerEvents(selected, betAmount, reply, botReplies, staleChips)
  {
    if betAmount.None? || betAmount.value <= 0 then [Failure(InvalidBet)]
    else PlayerEvents(selected, betAmount, reply, botReplies, staleChips)
  }

  /** The game-end effect: runs only after a hand, with a state shown and no end decided yet. */
  function EndCheckEvents(v: Screen): (evs: seq<Event>)
    ensures !(v.handComplete && v.state.Some? && v.endState.None?) ==> evs == []
    ensures v.handComplete && v.state.Some? && v.endState.None? ==>
              (EndOf(v.state.value).Some? ==> evs == [GameEnded(EndOf(v.state.value).value)]) &&
              (EndOf(v.state.value).None? ==> evs == [HandCompleteReset])
  {
    if v.handComplete && v.state.Some? && v.endState.None? then
      var o := EndOf(v.state.value);
      if o.Some? then [GameEnded(o.value)] else [HandCompleteReset]
    else []
  }

  /**
   * The two timer effects: an end state leaves for its page after 5000 ms;
   * otherwise a winner banner starts the next hand after 3000 ms.
   */
  function TimerEvents(v: Screen): (evs: seq<Event>)
    ensures v.endState.Some? ==> evs == [ScheduleRedirect(OutcomePage(v.endState.value), RedirectDelay)]
    ensures v.endState.None? && v.winner.Some? ==> evs == [ScheduleNextHand(NextHandDelay)]
    ensures v.endState.None? && v.winner.None? ==> evs == []
  {
    if v.endState.Some? then [ScheduleRedirect(OutcomePage(v.endState.value), RedirectDelay)]
    else if v.winner.Some? then [ScheduleNextHand(NextHandDelay)]
    else []
  }

  /** The next-hand timer firing: the banner is cleared and a new hand is requested. */
  function NextHandEvents(reply: Option<Reply>, botReplies: seq<Option<Reply>>, staleChips: Option<int>): seq<Event>
  {
    [WinnerCleared] + StartEvents(reply, botReplies, staleChips)
  }

  // ---------------------------------------------------------------------
  // Properties of the runs
  // ---------------------------------------------------------------------

  /**
   * One bot reply: either the speaker lookup throws before anything is shown,
   * or the comment (if any) is shown, held 3000 ms and cleared, then the state
   * is published exactly once, then at most a hand result or a failure.
   * The loop goes on only when the new player to act is a bot and the hand
   * is not complete.
   */
  lemma ReplyEventsShape(d: Reply, staleChips: Option<int>)
    ensures var (evs, more) := ReplyEvents(d, staleChips);
            var c := CommentEvents(d);
            (c.None? ==> evs == [Failure(BotFailure)] && !more) &&
            (c.Some? ==>
               |evs| >= |c.value| + 1 && evs[..|c.value|] == c.value && evs[|c.value|] == Publish(d.state) &&
               |evs| <= |c.value| + 2 &&
               (|evs| == |c.value| + 2 ==> evs[|c.value| + 1].HandOver? || evs[|c.value| + 1].Failure?)) &&
            (more <==> c.Some? && d.status != "hand_complete" && HasCurrent(d.state) &&
                       d.state.players[d.state.currentPlayer].isBot) &&
            (more ==> |evs| == |c.value| + 1)
  {
  }

  /** Turn i of the bot loop: its request and what its reply does, and whether the loop goes on. */
  function TurnEvents(replies: seq<Option<Reply>>, i: nat, staleChips: Option<int>): (t: (seq<Event>, bool))
    requires i <= |replies|
    ensures t.1 ==> i < |replies|
  {
    if i == |replies| || replies[i].None? then ([RequestBotAction, Failure(BotFailure)], false)
    else
      var r := ReplyEvents(replies[i].value, staleChips);
      ([RequestBotAction] + r.0, r.1)
  }

  /** An event after which the bot loop makes no further request. */
  predicate StopsLoop(e: Event) {
    e.HandOver? || e.Failure? ||
    (e.Publish? && HasCurrent(e.state) && !e.state.players[e.state.currentPlayer].isBot)
  }

  /** A run with a request and a reply whose last event stops the loop. */
  predicate EndsLoop(evs: seq<Event>) {
    |evs| >= 2 && StopsLoop(evs[|evs| - 1])
  }

  predicate NoFailure(evs: seq<Event>) {
    forall k :: 0 <= k < |evs| ==> !evs[k].Failure?
  }

  /** A failure, if any, is the last event. */
  predicate FailureOnlyLast(evs: seq<Event>) {
    forall k :: 0 <= k < |evs| - 1 ==> !evs[k].Failure?
  }

  /** An event that is not `GameEnded` leaves the end state alone. */
  predicate KeepsEnd(evs: seq<Event>) {
    forall i :: 0 <= i < |evs| ==> !evs[i].GameEnded?
  }

  lemma EndsLoopAppend(a: seq<Event>, b: seq<Event>)
    requires EndsLoop(b)
    ensures EndsLoop(a + b)
  {
    assert (a + b)[|a + b| - 1] == b[|b| - 1];
  }

  lemma FailureOnlyLastAppend(a: seq<Event>, b: seq<Event>)
    requires NoFailure(a) && FailureOnlyLast(b)
    ensures FailureOnlyLast(a + b)
  {
    forall k | 0 <= k < |a + b| - 1
      ensures !(a + b)[k].Failure?
    {
      if k >= |a| {
        assert (a + b)[k] == b[k - |a|];
      }
    }
  }

  lemma KeepsEndAppend(a: seq<Event>, b: seq<Event>)
    requires KeepsEnd(a) && KeepsEnd(b)
    ensures KeepsEnd(a + b)
  {
    forall k | 0 <= k < |a + b|
      ensures !(a + b)[k].GameEnded?
    {
      if k >= |a| {
        assert (a + b)[k] == b[k - |a|];
      }
    }
  }

  /**
   * What one reply adds, as the loop needs it: no game end; a failure only
   * as the last event, and none at all when the loop goes on; and when it
   * stops, a last event that is a hand result, a failure, or a published
   * state with a human to act.
   */
  lemma ReplyEnds(d: Reply, staleChips: Option<int>)
    ensures var r := ReplyEvents(d, staleChips);
            |r.0| >= 1 && KeepsEnd(r.0) && FailureOnlyLast(r.0) &&
            (r.1 ==> NoFailure(r.0)) && (!r.1 ==> StopsLoop(r.0[|r.0| - 1]))
  {
    var c := CommentEvents(d);
    if c.Some? {
      var p := PublishEvents(d, staleChips);
      var evs := c.value + p.0;
      assert ReplyEvents(d, staleChips).0 == evs;
      assert evs[|evs| - 1] == p.0[|p.0| - 1];
      forall k | 0 <= k < |evs|
        ensures !evs[k].GameEnded? && (k < |evs| - 1 ==> !evs[k].Failure?)
      {
        if k < |c.value| {
          assert evs[k] == c.value[k];
        } else {
          assert evs[k] == p.0[k - |c.value|];
        }
      }
    }
  }

  /** One turn: the request, then what its reply adds (or the failure when there is none). */
  lemma TurnShape(replies: seq<Option<Reply>>, i: nat, staleChips: Option<int>)
    requires i <= |replies|
    ensures var t := TurnEvents(replies, i, staleChips);
            KeepsEnd(t.0) && FailureOnlyLast(t.0) &&
            (t.1 ==> NoFailure(t.0)) && (!t.1 ==> EndsLoop(t.0))
  {
    if i < |replies| && replies[i].Some? {
      var r := ReplyEvents(replies[i].value, staleChips);
      ReplyEnds(replies[i].value, staleChips);
      var evs := [RequestBotAction] + r.0;
      assert TurnEvents(replies, i, staleChips).0 == evs;
      assert evs[|evs| - 1] == r.0[|r.0| - 1];
      forall k | 1 <= k < |evs|
        ensures evs[k] == r.0[k - 1]
      {
      }
    }
  }

  /** How a run of bot turns ends: a hand result, a failure, or a published state with a human to act. */
  lemma {:induction false} BotRunEnd(replies: seq<Option<Reply>>, i: nat, staleChips: Option<int>)
    requires i <= |replies|
    ensures EndsLoop(BotRun(replies, i, staleChips))
    decreases |replies| - i
  {
    var t := TurnEvents(replies, i, staleChips);
    TurnShape(replies, i, staleChips);
    if t.1 {
      BotRunEnd(replies, i + 1, staleChips);
      EndsLoopAppend(t.0, BotRun(replies, i + 1, staleChips));
    }
  }

  /** A failure ends the run: it is never followed by another event, so nothing is retried. */
  lemma {:induction false} BotFailureIsLast(replies: seq<Option<Reply>>, i: nat, staleChips: Option<int>)
    requires i <= |replies|
    ensures FailureOnlyLast(BotRun(replies, i, staleChips))
    decreases |replies| - i
  {
    var t := TurnEvents(replies, i, staleChips);
    TurnShape(replies, i, staleChips);
    if t.1 {
      BotFailureIsLast(replies, i + 1, staleChips);
      FailureOnlyLastAppend(t.0, BotRun(replies, i + 1, staleChips));
    }
  }

  /** No run of bot turns ends the game. */
  lemma {:induction false} BotRunKeepsEnd(replies: seq<Option<Reply>>, i: nat, staleChips: Option<int>)
    requires i <= |replies|
    ensures KeepsEnd(BotRun(replies, i, staleChips))
    decreases |replies| - i
  {
    var t := TurnEvents(replies, i, staleChips);
    TurnShape(replies, i, staleChips);
    if t.1 {
      BotRunKeepsEnd(replies, i + 1, staleChips);
      KeepsEndAppend(t.0, BotRun(replies, i + 1, staleChips));
    }
  }

  /** Appending turn i and then the run from turn i + 1 is appending the run from turn i. */
  lemma RunStep(log: seq<Event>, replies: seq<Option<Reply>>, i: nat, staleChips: Option<int>)
    requires i <= |replies|
    ensures var t := TurnEvents(replies, i, staleChips);
            (t.1 ==> log + t.0 + BotRun(replies, i + 1, staleChips) == log + BotRun(replies, i, staleChips)) &&
            (!t.1 ==> log + t.0 == log + BotRun(replies, i, staleChips))
  {
    var t := TurnEvents(replies, i, staleChips);
    if t.1 {
      AppendAssoc(log, t.0, BotRun(replies, i + 1, staleChips));
    }
  }

  lemma {:induction false} ReplayKeepsEnd(v: Screen, evs: seq<Event>)
    requires KeepsEnd(evs)
    ensures Replay(v, evs).endState == v.endState
  {
    if evs != [] {
      ReplayKeepsEnd(v, evs[..|evs| - 1]);
    }
  }

  /**
   * Once an end state is set it stays: neither the game-end effect nor a hand
   * started by the timer nor a human action changes it.
   */
  lemma EndStateSticks(v: Screen, reply: Option<Reply>, botReplies: seq<Option<Reply>>,
                       action: Option<string>, amount: Option<int>)
    requires v.endState.Some?
    ensures EndCheckEvents(v) == []
    ensures Replay(v, NextHandEvents(reply, botReplies, v.stats.finalChips)).endState == v.endState
    ensures Replay(v, PlayerEvents(action, amount, reply, botReplies, v.stats.finalChips)).endState == v.endState
  {
    StartKeepsEnd(reply, botReplies, v.stats.finalChips);
    KeepsEndAppend([WinnerCleared], StartEvents(reply, botReplies, v.stats.finalChips));
    ReplayKeepsEnd(v, NextHandEvents(reply, botReplies, v.stats.finalChips));
    PlayerKeepsEnd(action, amount, reply, botReplies, v.stats.finalChips);
    ReplayKeepsEnd(v, PlayerEvents(action, amount, reply, botReplies, v.stats.finalChips));
  }

  /** Starting a hand never ends the game. */
  lemma StartKeepsEnd(reply: Option<Reply>, botReplies: seq<Option<Reply>>, staleChips: Option<int>)
    ensures KeepsEnd(StartEvents(reply, botReplies, staleChips))
  {
    if reply.Some? {
      var g := reply.value.state;
      BotRunKeepsEnd(botReplies, 0, staleChips);
      var tail := if !HasCurrent(g) then [Failure(StartFailure)]
                  else if g.players[g.currentPlayer].isBot then BotEvents(botReplies, staleChips)
                  else [];
      KeepsEndAppend([Publish(g), HandStarted], tail);
      KeepsEndAppend([RequestStartHand], StartReplyEvents(g, botReplies, staleChips));
    }
  }

  /** A human action never ends the game. */
  lemma PlayerKeepsEnd(action: Option<string>, amount: Option<int>, reply: Option<Reply>,
                       botReplies: seq<Option<Reply>>, staleChips: Option<int>)
    ensures KeepsEnd(PlayerEvents(action, amount, reply, botReplies, staleChips))
  {
    if reply.Some? {
      var d := reply.value;
      BotRunKeepsEnd(botReplies, 0, staleChips);
      var tail := PlayerReplyEvents(d, botReplies, staleChips)[2..];
      assert PlayerReplyEvents(d, botReplies, staleChips) == [Publish(d.state), ClearComment] + tail;
      KeepsEndAppend([Publish(d.state), ClearComment], tail);
      KeepsEndAppend([RequestPlayerAction(action, amount)], PlayerReplyEvents(d, botReplies, staleChips));
    }
  }

  /** The published states that have no community cards yet. */
  function FreshDeals(evs: seq<Event>): nat {
    if evs == [] then 0
    else
      var last := evs[|evs| - 1];
      FreshDeals(evs[..|evs| - 1]) + (if last.Publish? && |last.state.communityCards| == 0 then 1 else 0)
  }

  /** `handsPlayed` grows by one for every published state with no community cards, and only then. */
  lemma {:induction false} HandsPlayedCountsFreshDeals(v: Screen, evs: seq<Event>)
    ensures Replay(v, evs).stats.handsPlayed == v.stats.handsPlayed + FreshDeals(evs)
  {
    if evs != [] {
      HandsPlayedCountsFreshDeals(v, evs[..|evs| - 1]);
    }
  }

  // ---------------------------------------------------------------------
  // The page
  // ---------------------------------------------------------------------

  class TablePage {
    var state: Option<GameView>
    var comment: Option<Comment>
    var stats: Stats
    var winner: Option<nat>
    var handComplete: bool
    var endState: Option<Outcome>
    var error: Option<string>
    var started: bool
    /** Everything the page has done, in order. */
    var log: seq<Event>

    function Now(): Screen
      reads this`state, this`comment, this`stats, this`winner, this`handComplete, this`endState, this`error, this`started
    {
      Screen(state, comment, stats, winner, handComplete, endState, error, started)
    }

    /** The page state is the replay of its log. */
    predicate Valid()
      reads this
    {
      Now() == Replay(Blank, log)
    }

    /** Mounting the page, with the game state the bot-choice page passed along (if any). */
    constructor (initialState: Option<GameView>)
      ensures Valid()
      ensures initialState.None? ==> log == []
      ensures initialState.Some? ==> log == [Publish(initialState.value)]
    {
      state, comment, stats, winner, handComplete, endState, error, started :=
        Blank.state, Blank.comment, Blank.stats, Blank.winner, Blank.handComplete, Blank.endState, Blank.error, Blank.started;
      log := [];
      new;
      if initialState.Some? {
        Record(Publish(initialState.value));
      }
    }

    /** Carry out one event on the state variables. */
    method Record(e: Event)
      requires Valid()
      modifies this
      ensures log == old(log) + [e] && Valid()
      ensures Now() == Apply(old(Now()), e)
    {
      var next := Apply(Now(), e);
      assert (log + [e])[..|log|] == log;
      state, comment, stats, winner, handComplete, endState, error, started, log :=
        next.state, next.comment, next.stats, next.winner, next.handComplete, next.endState, next.error,
        next.started, log + [e];
    }

    /** Carry out a run of events in order. */
    method RecordAll(evs: seq<Event>)
      requires Valid()
      modifies this
      ensures log == old(log) + evs && Valid()
    {
      var k := 0;
      while k < |evs|
        invariant 0 <= k <= |evs|
        invariant log == old(log) + evs[..k] && Valid()
      {
        Record(evs[k]);
        assert evs[..k + 1] == evs[..k] + [evs[k]];
        k := k + 1;
      }
      assert evs[..k] == evs;
    }

    /** `handleHandComplete`, minus the exception of `reduce` over no players, which the caller catches. */
    method HandleHandComplete(final: GameView, staleChips: Option<int>) returns (ok: bool)
      requires Valid()
      modifies this
      ensures ok <==> HandOutcome(final.players, staleChips).Some?
      ensures ok ==> log == old(log) + [HandOver(HandOutcome(final.players, staleChips).value)]
      ensures !ok ==> log == old(log)
      ensures Valid()
    {
      var nonFolded := NonFolded(final.players);
      var human := FirstHuman(final.players);
      if |nonFolded| == 1 {
        Record(HandOver(HandResult(nonFolded[0], human == Some(nonFolded[0]))));
        return true;
      }
      if final.players == [] {
        return false;
      }
      var w := Richest(final.players);
      var humanWon := human.Some? && staleChips.Some? && final.players[human.value].chips > staleChips.value;
      Record(HandOver(HandResult(w, humanWon)));
      return true;
    }

    /** The comment of a bot reply: shown, held 3000 ms and cleared; false where the speaker lookup throws. */
    method ShowTableComment(d: Reply) returns (ok: bool)
      requires Valid()
      modifies this
      ensures ok <==> CommentEvents(d).Some?
      ensures ok ==> log == old(log) + CommentEvents(d).value
      ensures !ok ==> log == old(log)
      ensures Valid()
    {
      if d.tableComment == "" {
        return true;
      }
      if !(0 <= d.commentIndex < |d.state.players|) {
        return false;
      }
      RecordAll([ShowComment(d.tableComment, d.state.players[d.commentIndex].name), Hold(CommentHold), ClearComment]);
      return true;
    }

    /** The state of a bot reply published, then the hand ended or the loop told whether to go on. */
    method PublishBotReply(d: Reply, staleChips: Option<int>) returns (more: bool)
      requires Valid()
      modifies this
      ensures log == old(log) + PublishEvents(d, staleChips).0
      ensures more == PublishEvents(d, staleChips).1
      ensures Valid()
    {
      Record(Publish(d.state));
      if d.status == "hand_complete" {
        var ok := HandleHandComplete(d.state, staleChips);
        if !ok {
          Record(Failure(BotFailure));
        }
        return false;
      }
      if !HasCurrent(d.state) {
        Record(Failure(BotFailure));
        return false;
      }
      more := d.state.players[d.state.currentPlayer].isBot;
    }

    /** The body of one turn of the bot loop, after its reply has arrived. */
    method HandleBotReply(d: Reply, staleChips: Option<int>) returns (more: bool)
      requires Valid()
      modifies this
      ensures log == old(log) + ReplyEvents(d, staleChips).0
      ensures more == ReplyEvents(d, staleChips).1
      ensures Valid()
    {
      var ok := ShowTableComment(d);
      if !ok {
        Record(Failure(BotFailure));
        return false;
      }
      more := PublishBotReply(d, staleChips);
      AppendAssoc(old(log), CommentEvents(d).value, PublishEvents(d, staleChips).0);
    }

    /**
     * `processBotActions`: request, wait for the reply, show it, and go on while
     * a bot is to act. `staleChips` is the `finalChips` the calling handler saw.
     */
    method ProcessBotActions(replies: seq<Option<Reply>>, staleChips: Option<int>)
      requires Valid()
      modifies this
      ensures log == old(log) + BotEvents(replies, staleChips)
      ensures Valid()
    {
      var i := 0;
      var going := true;
      while going
        invariant 0 <= i <= |replies|
        invariant Valid()
        invariant going ==> old(log) + BotRun(replies, 0, staleChips) == log + BotRun(replies, i, staleChips)
        invariant !going ==> log == old(log) + BotRun(replies, 0, staleChips)
        decreases |replies| - i + (if going then 1 else 0)
      {
        going := BotStep(replies, i, staleChips);
        if going {
          i := i + 1;
        }
      }
    }

    /** One turn of the bot loop, stated as the part of the run it adds to the log. */
    method BotStep(replies: seq<Option<Reply>>, i: nat, staleChips: Option<int>) returns (more: bool)
      requires i <= |replies| && Valid()
      modifies this
      ensures more ==> i < |replies| && log + BotRun(replies, i + 1, staleChips) == old(log) + BotRun(replies, i, staleChips)
      ensures !more ==> log == old(log) + BotRun(replies, i, staleChips)
      ensures Valid()
    {
      more := BotTurn(replies, i, staleChips);
      RunStep(old(log), replies, i, staleChips);
    }

    /** One turn of `processBotActions`: the request, then its reply handled, or the failure when there is none. */
    method BotTurn(replies: seq<Option<Reply>>, i: nat, staleChips: Option<int>) returns (more: bool)
      requires i <= |replies| && Valid()
      modifies this
      ensures log == old(log) + TurnEvents(replies, i, staleChips).0
      ensures more == TurnEvents(replies, i, staleChips).1
      ensures Valid()
    {
      if i == |replies| || replies[i].None? {
        RecordAll([RequestBotAction, Failure(BotFailure)]);
        return false;
      }
      Record(RequestBotAction);
      more := HandleBotReply(replies[i].value, staleChips);
      AppendAssoc(old(log), [RequestBotAction], ReplyEvents(replies[i].value, staleChips).0);
    }

    /** `handleStartGame`. */
    method HandleStartGame(reply: Option<Reply>, botReplies: seq<Option<Reply>>)
      requires Valid()
      modifies this
      ensures log == old(log) + StartEvents(reply, botReplies, old(stats).finalChips)
      ensures Valid()
    {
      var staleChips := stats.finalChips;
      if reply.None? {
        RecordAll([RequestStartHand, Failure(StartFailure)]);
        return;
      }
      Record(RequestStartHand);
      StartHand(reply.value.state, botReplies, staleChips);
      AppendAssoc(old(log), [RequestStartHand], StartReplyEvents(reply.value.state, botReplies, staleChips));
    }

    /** The new hand shown and started; the bots run when one of them is first to act. */
    method StartHand(g: GameView, botReplies: seq<Option<Reply>>, staleChips: Option<int>)
      requires Valid()
      modifies this
      ensures log == old(log) + StartReplyEvents(g, botReplies, staleChips)
      ensures Valid()
    {
      if !HasCurrent(g) {
        RecordAll([Publish(g), HandStarted, Failure(StartFailure)]);
        return;
      }
      RecordAll([Publish(g), HandStarted]);
      if g.players[g.currentPlayer].isBot {
        ProcessBotActions(botReplies, staleChips);
        AppendAssoc(old(log), [Publish(g), HandStarted], BotEvents(botReplies, staleChips));
      }
    }

    /** `handlePlayerAction`. */
    method HandlePlayerAction(action: Option<string>, amount: Option<int>, reply: Option<Reply>,
                              botReplies: seq<Option<Reply>>)
      requires Valid()
      modifies this
      ensures log == old(log) + PlayerEvents(action, amount, reply, botReplies, old(stats).finalChips)
      ensures Valid()
    {
      var staleChips := stats.finalChips;
      if reply.None? {
        RecordAll([RequestPlayerAction(action, amount), Failure(PlayerFailure)]);
        return;
      }
      Record(RequestPlayerAction(action, amount));
      ShowPlayerReply(reply.value, botReplies, staleChips);
      AppendAssoc(old(log), [RequestPlayerAction(action, amount)], PlayerReplyEvents(reply.value, botReplies, staleChips));
    }

    /** The reply to a human action shown, then the hand ended, a failure, or the bots' turn. */
    method ShowPlayerReply(d: Reply, botReplies: seq<Option<Reply>>, staleChips: Option<int>)
      requires Valid()
      modifies this
      ensures log == old(log) + PlayerReplyEvents(d, botReplies, staleChips)
      ensures Valid()
    {
      RecordAll([Publish(d.state), ClearComment]);
      if d.status == "hand_complete" {
        var ok := HandleHandComplete(d.state, staleChips);
        if !ok {
          Record(Failure(PlayerFailure));
        }
      } else if !HasCurrent(d.state) {
        Record(Failure(PlayerFailure));
      } else if d.state.players[d.state.currentPlayer].isBot {
        ProcessBotActions(botReplies, staleChips);
        AppendAssoc(old(log), [Publish(d.state), ClearComment], BotEvents(botReplies, staleChips));
      }
    }

    /** `handleActionClick`. */
    method HandleActionClick(action: string, reply: Option<Reply>, botReplies: seq<Option<Reply>>)
      requires Valid()
      modifies this
      ensures log == old(log) + ActionClickEvents(action, reply, botReplies, old(stats).finalChips)
      ensures Valid()
    {
      if action != "bet" && action != "raise" {
        HandlePlayerAction(Some(action), None, reply, botReplies);
      }
    }

    /** `handleBetSubmit`, with the bet amount and chosen action the form holds. */
    method HandleBetSubmit(betAmount: Option<int>, selected: Option<string>, reply: Option<Reply>,
                           botReplies: seq<Option<Reply>>)
      requires Valid()
      modifies this
      ensures log == old(log) + BetSubmitEvents(betAmount, selected, reply, botReplies, old(stats).finalChips)
      ensures Valid()
    {
      if betAmount.None? || betAmount.value <= 0 {
        Record(Failure(InvalidBet));
        return;
      }
      HandlePlayerAction(selected, betAmount, reply, botReplies);
    }

    /** The game-end effect. */
    method CheckGameEnd()
      requires Valid()
      modifies this
      ensures log == old(log) + EndCheckEvents(old(Now()))
      ensures Valid()
    {
      if handComplete && state.Some? && endState.None? {
        var o := EndOf(state.value);
        if o.Some? {
          Record(GameEnded(o.value));
        } else {
          Record(HandCompleteReset);
        }
      }
    }

    /** The timer effects that follow a render. */
    method ArmTimers()
      requires Valid()
      modifies this
      ensures log == old(log) + TimerEvents(old(Now()))
      ensures Valid()
    {
      if endState.Some? {
        Record(ScheduleRedirect(OutcomePage(endState.value), RedirectDelay));
      } else if winner.Some? {
        Record(ScheduleNextHand(NextHandDelay));
      }
    }

    /** The next-hand timer firing. */
    method FireNextHand(reply: Option<Reply>, botReplies: seq<Option<Reply>>)
      requires Valid()
      modifies this
      ensures log == old(log) + NextHandEvents(reply, botReplies, old(stats).finalChips)
      ensures Valid()
    {
      Record(WinnerCleared);
      assert stats == old(stats);
      HandleStartGame(reply, botReplies);
      AppendAssoc(old(log), [WinnerCleared], StartEvents(reply, botReplies, old(stats).finalChips));
    }
  }
}
