/**
 * The betting controls of the client (frontend/src/pages/ActionButtons.jsx):
 * the bounds of a bet or raise, the preset amounts, the filter on a typed
 * amount, the confirm button, and the effect that resets the amount on each
 * new game state.
 */
module ActionButtons {
  import opened Common
  import opened Snapshot

  /** `minBet`: the big blind when a bet is offered, else the minimum raise when a raise is, else 0. */
  function MinBet(g: GameView, actions: seq<string>): (m: int)
    ensures "bet" in actions ==> m == g.bigBlind
    ensures "bet" !in actions && "raise" in actions ==> m == g.minRaise
    ensures "bet" !in actions && "raise" !in actions ==> m == 0
    ensures m != 0 ==> "bet" in actions || "raise" in actions
  {
    if "bet" in actions then g.bigBlind
    else if "raise" in actions then g.minRaise
    else 0
  }

  /** `maxBet`: the chips of the player to act. */
  function MaxBet(g: GameView): int
    requires HasCurrent(g)
  {
    g.players[g.currentPlayer].chips
  }

  /** The controls render only on a human player's turn (`isUserTurn`). */
  predicate ControlsShown(g: GameView)
    requires HasCurrent(g)
  {
    !g.players[g.currentPlayer].isBot
  }

  datatype Preset = Preset(caption: string, value: int)

  /** `Math.floor(n / 2)`: Dafny's division by a positive divisor already rounds down. */
  function FloorHalf(n: int): int {
    n / 2
  }

  /** The four candidate buttons before the filter, in their display order. */
  function Candidates(g: GameView): (c: seq<Preset>)
    requires HasCurrent(g)
    ensures |c| == 4
    ensures c[0] == Preset("Min", MinBet(g, CurrentActions(g)))
    ensures c[1] == Preset("1/2 Pot", Min(FloorHalf(g.totalPot), MaxBet(g)))
    ensures c[2] == Preset("Pot", Min(g.totalPot, MaxBet(g)))
    ensures c[1].value <= c[2].value || g.totalPot < 0
    ensures c[3].value == MaxBet(g) + g.players[g.currentPlayer].streetContribution
  {
    var maxBet := MaxBet(g);
    [ Preset("Min", MinBet(g, CurrentActions(g))),
      Preset("1/2 Pot", Min(FloorHalf(g.totalPot), maxBet)),
      Preset("Pot", Min(g.totalPot, maxBet)),
      Preset("All In", maxBet + g.players[g.currentPlayer].streetContribution) ]
  }

  /** `self.findIndex(o => o.value === v)`, with |s| when no entry has that value. */
  function FirstWithValue(s: seq<Preset>, v: int): (i: nat)
    ensures i <= |s|
    ensures i < |s| ==> s[i].value == v
    ensures forall j :: 0 <= j < i ==> s[j].value != v
  {
    if s == [] then 0
    else if s[0].value == v then 0
    else 1 + FirstWithValue(s[1..], v)
  }

  /** The filter's test on entry i: the first with its value, and at least minBet. */
  predicate Kept(s: seq<Preset>, minBet: int, i: nat)
    requires i < |s|
  {
    FirstWithValue(s, s[i].value) == i && s[i].value >= minBet
  }

  /** The indices among the first k candidates that the filter keeps, in order. */
  function KeptIndices(s: seq<Preset>, minBet: int, k: nat): (ix: seq<nat>)
    requires k <= |s|
    ensures forall i :: 0 <= i < |ix| ==> ix[i] < k
    ensures forall i, j :: 0 <= i < j < |ix| ==> ix[i] < ix[j]
    ensures forall i :: 0 <= i < k ==> (i in ix <==> Kept(s, minBet, i))
  {
    if k == 0 then []
    else
      var before := KeptIndices(s, minBet, k - 1);
      if Kept(s, minBet, k - 1) then before + [k - 1] else before
  }

  function Select(s: seq<Preset>, ix: seq<nat>): (r: seq<Preset>)
    requires forall i :: 0 <= i < |ix| ==> ix[i] < |s|
    ensures |r| == |ix|
    ensures forall i :: 0 <= i < |ix| ==> r[i] == s[ix[i]]
  {
    if ix == [] then [] else [s[ix[0]]] + Select(s, ix[1..])
  }

  /** `getPresetBetAmounts()`: no presets without chips, else the candidates through the filter. */
  function Presets(g: GameView): (r: seq<Preset>)
    requires HasCurrent(g)
    ensures MaxBet(g) == 0 ==> r == []
  {
    if MaxBet(g) == 0 then []
    else
      var c := Candidates(g);
      Select(c, KeptIndices(c, MinBet(g, CurrentActions(g)), 4))
  }

  /**
   * What the preset row shows: values pairwise distinct and at least minBet,
   * captions in Min, 1/2 Pot, Pot, All In order, and "Min" first whenever there
   * are chips.
   */
  lemma {:induction false} PresetsShape(g: GameView)
    requires HasCurrent(g)
    ensures var r := Presets(g);
            (forall i, j :: 0 <= i < j < |r| ==> r[i].value != r[j].value) &&
            (forall i :: 0 <= i < |r| ==> r[i].value >= MinBet(g, CurrentActions(g))) &&
            (forall i, j :: 0 <= i < j < |r| ==> CaptionOrder(r[i].caption) < CaptionOrder(r[j].caption)) &&
            (MaxBet(g) != 0 ==> |r| > 0 && r[0] == Preset("Min", MinBet(g, CurrentActions(g))))
  {
    if MaxBet(g) != 0 {
      var c := Candidates(g);
      var minBet := MinBet(g, CurrentActions(g));
      assert |c| == 4;
      assert Presets(g) == Select(c, KeptIndices(c, minBet, |c|));
      CandidateOrder(g);
      FilterOrdered(c, minBet);
      FilterKeepsFirst(c, minBet);
    }
  }

  lemma CandidateOrder(g: GameView)
    requires HasCurrent(g)
    ensures forall k :: 0 <= k < 4 ==> CaptionOrder(Candidates(g)[k].caption) == k
  {
  }

  /** Entries whose captions follow their positions keep their caption order through the filter. */
  lemma FilterOrdered(s: seq<Preset>, minBet: int)
    requires forall k :: 0 <= k < |s| ==> CaptionOrder(s[k].caption) == k
    ensures var r := Select(s, KeptIndices(s, minBet, |s|));
            (forall i, j :: 0 <= i < j < |r| ==> r[i].value != r[j].value) &&
            (forall i :: 0 <= i < |r| ==> r[i].value >= minBet) &&
            (forall i, j :: 0 <= i < j < |r| ==> CaptionOrder(r[i].caption) < CaptionOrder(r[j].caption))
  {
    var ix := KeptIndices(s, minBet, |s|);
    var r := Select(s, ix);
    FilterShape(s, minBet);
    forall i, j | 0 <= i < j < |r|
      ensures CaptionOrder(r[i].caption) < CaptionOrder(r[j].caption)
    {
      assert r[i] == s[ix[i]] && r[j] == s[ix[j]];
    }
  }

  /** The filter's output: distinct values, each at least minBet, in the input's order. */
  lemma FilterShape(s: seq<Preset>, minBet: int)
    ensures var ix := KeptIndices(s, minBet, |s|);
            var r := Select(s, ix);
            (forall i, j :: 0 <= i < j < |r| ==> r[i].value != r[j].value) &&
            (forall i :: 0 <= i < |r| ==> r[i].value >= minBet) &&
            (forall i, j :: 0 <= i < j < |r| ==> ix[i] < ix[j])
  {
    var ix := KeptIndices(s, minBet, |s|);
    forall i | 0 <= i < |ix|
      ensures Kept(s, minBet, ix[i])
    {
      assert ix[i] in ix;
    }
  }

  /** An input whose first value reaches minBet keeps that first entry at the head. */
  lemma FilterKeepsFirst(s: seq<Preset>, minBet: int)
    requires |s| > 0 && s[0].value >= minBet
    ensures var ix := KeptIndices(s, minBet, |s|);
            |ix| > 0 && ix[0] == 0
  {
    var ix := KeptIndices(s, minBet, |s|);
    assert Kept(s, minBet, 0);
    assert 0 in ix;
  }

  /** The display position of a preset caption. */
  function CaptionOrder(caption: string): nat {
    if caption == "Min" then 0
    else if caption == "1/2 Pot" then 1
    else if caption == "Pot" then 2
    else 3
  }

  /** The "All In" preset is the chips plus this street's stake, so with a stake down it lies above maxBet. */
  lemma AllInAboveMaxBet(g: GameView)
    requires HasCurrent(g) && g.players[g.currentPlayer].streetContribution > 0
    ensures Candidates(g)[3].value > MaxBet(g)
  {
  }

  /**
   * The amount field: `parseInt(text) || 0`, where `parsed` is parseInt's
   * result (None for NaN), kept only when it lies in minBet..maxBet.
   */
  function TypedValue(parsed: Option<int>): (v: int)
    ensures parsed.None? ==> v == 0
    ensures parsed.Some? ==> v == parsed.value
    ensures v == 0 <==> parsed.None? || parsed.value == 0
  {
    if parsed.None? then 0 else parsed.value
  }

  predicate Accepted(g: GameView, v: int)
    requires HasCurrent(g)
  {
    MinBet(g, CurrentActions(g)) <= v <= MaxBet(g)
  }

  /** The confirm button's action: 'bet' when a bet is offered, else 'raise'. */
  function ConfirmAction(actions: seq<string>): (a: string)
    ensures a == "bet" <==> "bet" in actions
    ensures a == "raise" <==> "bet" !in actions
    ensures a in actions <==> "bet" in actions || "raise" in actions
  {
    if "bet" in actions then "bet" else "raise"
  }

  /**
   * The two amounts the controls keep: `betAmount`, which the table page owns
   * and passes in with its setter (None is its initial empty string), and the
   * slider position.
   */
  class BetControls {
    var betAmount: Option<int>
    var sliderValue: int

    constructor ()
      ensures betAmount == None && sliderValue == 0
    {
      betAmount := None;
      sliderValue := 0;
    }

    /** The effect run on each new game state. */
    method OnNewState(g: GameView)
      modifies this
      ensures var actions := CurrentActions(g);
              var m := MinBet(g, actions);
              if m > 0 && ("bet" in actions || "raise" in actions)
              then betAmount == Some(m) && sliderValue == m
              else betAmount == old(betAmount) && sliderValue == old(sliderValue)
    {
      var actions := CurrentActions(g);
      var minBet := MinBet(g, actions);
      if minBet > 0 && ("bet" in actions || "raise" in actions) {
        sliderValue := minBet;
        betAmount := Some(minBet);
      }
    }

    /** The amount field's change handler. */
    method OnTyped(g: GameView, parsed: Option<int>)
      requires HasCurrent(g)
      modifies this
      ensures Accepted(g, TypedValue(parsed)) ==>
                betAmount == Some(TypedValue(parsed)) && sliderValue == TypedValue(parsed)
      ensures !Accepted(g, TypedValue(parsed)) ==>
                betAmount == old(betAmount) && sliderValue == old(sliderValue)
    {
      var value := if parsed.None? then 0 else parsed.value;
      if value >= MinBet(g, CurrentActions(g)) && value <= MaxBet(g) {
        betAmount := Some(value);
        sliderValue := value;
      }
    }

    /** The slider's change handler. */
    method OnSlider(value: int)
      modifies this
      ensures betAmount == Some(value) && sliderValue == value
    {
      sliderValue := value;
      betAmount := Some(value);
    }

    /** A preset button. */
    method OnPreset(p: Preset)
      modifies this
      ensures betAmount == Some(p.value) && sliderValue == p.value
    {
      betAmount := Some(p.value);
      sliderValue := p.value;
    }

    /** The confirm button: the action and `parseInt(betAmount)`, with no check of the bounds. */
    method Confirm(g: GameView) returns (action: string, amount: Option<int>)
      requires HasCurrent(g) && ControlsShown(g)
      ensures action == ConfirmAction(CurrentActions(g))
      ensures amount == betAmount
    {
      action := if "bet" in CurrentActions(g) then "bet" else "raise";
      amount := betAmount;
    }
  }
}
