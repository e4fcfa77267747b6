/**
 * The bot-choice page of the client (frontend/src/pages/ChooseBots.jsx): the
 * `count` query parameter read as the most bots that may be chosen, the
 * `selectedBots` state replaced by `toggleBot`, and the two arrays
 * `handleCreateGame` builds for the game-creation request.
 */
module ChooseBots {
  import opened Common
  import ChooseBotCount

  const AvailableBots: seq<string> := ["LooseLauren", "TightTimmy", "AggroAmy", "CalmCarl"]
  const HumanName := "HumanUser"

  /** `searchParams.get('count') || '1'`: a missing or empty parameter reads as "1". */
  function CountParam(query: Option<string>): (count: string)
    ensures query.Some? && query.value != "" ==> count == query.value
    ensures query.None? || query.value == "" ==> count == "1"
    ensures count != ""
  {
    if query.None? || query.value == "" then "1" else query.value
  }

  predicate AllDigits(s: string) {
    s != [] && forall i :: 0 <= i < |s| ==> IsDigit(s[i])
  }

  /** `Number(count)` for a string of decimal digits, the only form the picker page writes. */
  function NumberOfDigits(s: string): (n: Common.Num)
    requires AllDigits(s)
    ensures n.Finite? && n.r >= 0.0
  {
    DigitsValueNonNegative(s);
    Finite(DigitsValue(s) as real)
  }

  lemma {:induction false} DigitsValueNonNegative(s: string)
    requires forall i :: 0 <= i < |s| ==> IsDigit(s[i])
    ensures DigitsValue(s) >= 0
  {
    if s != [] {
      DigitsValueNonNegative(s[..|s| - 1]);
    }
  }

  /** The count the picker page sends arrives here unchanged as `maxBots`. */
  lemma CountRoundTrip(n: nat)
    ensures var url := ChooseBotCount.ContinueUrl(n);
            var query := url[|ChooseBotCount.CountQuery|..];
            AllDigits(query) && NumberOfDigits(CountParam(Some(query))) == Finite(n as real)
  {
  }

  /** `selectedBots.length < maxBots`: false whenever maxBots is NaN. */
  predicate BelowLimit(n: nat, maxBots: Common.Num) {
    maxBots.Finite? && (n as real) < maxBots.r
  }

  /** `selectedBots.filter((b) => b !== bot)`. */
  function Without(selected: seq<string>, bot: string): (r: seq<string>)
    ensures bot !in r
    ensures forall b :: b in r <==> b in selected && b != bot
    ensures |r| <= |selected|
    ensures bot !in selected ==> r == selected
  {
    if selected == [] then []
    else if selected[|selected| - 1] == bot then Without(selected[..|selected| - 1], bot)
    else Without(selected[..|selected| - 1], bot) + [selected[|selected| - 1]]
  }

  /** Removing a bot that occurs once leaves the others in their order: the bot's slot is cut out. */
  lemma {:induction false} WithoutCutsOut(selected: seq<string>, bot: string, i: nat)
    requires i < |selected| && selected[i] == bot
    requires forall j :: 0 <= j < |selected| && j != i ==> selected[j] != bot
    ensures Without(selected, bot) == selected[..i] + selected[i + 1..]
  {
    var last := |selected| - 1;
    if i == last {
      assert selected[..last] == selected[..i];
      assert Without(selected[..last], bot) == selected[..last];
    } else {
      WithoutCutsOut(selected[..last], bot, i);
      assert selected[..last][..i] == selected[..i];
      assert selected[..last][i + 1..] + [selected[last]] == selected[i + 1..];
    }
  }

  /** The selection `toggleBot(bot)` leaves behind. */
  function Toggled(selected: seq<string>, bot: string, maxBots: Common.Num): (r: seq<string>)
    ensures bot in selected ==> bot !in r
    ensures bot !in selected && BelowLimit(|selected|, maxBots) ==> r == selected + [bot]
    ensures bot !in selected && !BelowLimit(|selected|, maxBots) ==> r == selected
    ensures forall b :: b != bot ==> (b in r <==> b in selected)
  {
    if bot in selected then Without(selected, bot)
    else if BelowLimit(|selected|, maxBots) then selected + [bot]
    else selected
  }

  /**
   * What every selection reached from `[]` satisfies: no bot twice, and each
   * bot was added while fewer than `maxBots` were chosen.
   */
  predicate SelectionValid(selected: seq<string>, maxBots: Common.Num) {
    NoDuplicates(selected) && (selected == [] || BelowLimit(|selected| - 1, maxBots))
  }

  /** Toggling keeps a selection valid. */
  lemma {:induction false} ToggledValid(selected: seq<string>, bot: string, maxBots: Common.Num)
    requires SelectionValid(selected, maxBots)
    ensures SelectionValid(Toggled(selected, bot, maxBots), maxBots)
  {
    if bot in selected {
      var i :| 0 <= i < |selected| && selected[i] == bot;
      WithoutCutsOut(selected, bot, i);
      var r := selected[..i] + selected[i + 1..];
      forall j, k | 0 <= j < k < |r|
        ensures r[j] != r[k]
      {
        var j' := if j < i then j else j + 1;
        var k' := if k < i then k else k + 1;
        assert r[j] == selected[j'] && r[k] == selected[k'];
      }
    } else if BelowLimit(|selected|, maxBots) {
      var r := selected + [bot];
      forall j, k | 0 <= j < k < |r|
        ensures r[j] != r[k]
      {
        if k == |selected| {
          assert r[j] in selected;
        } else {
          assert r[j] == selected[j] && r[k] == selected[k];
        }
      }
    }
  }

  /** With a whole-number limit, a valid selection never holds more than that many bots. */
  lemma SelectionWithinLimit(selected: seq<string>, limit: nat)
    requires SelectionValid(selected, Finite(limit as real))
    ensures |selected| <= limit
  {
  }

  /** The page: the limit read once from the address, and the selection state. */
  class BotSelection {
    const maxBots: Common.Num
    var selected: seq<string>

    predicate Valid()
      reads this`selected
    {
      SelectionValid(selected, maxBots)
    }

    constructor (maxBots: Common.Num)
      ensures this.maxBots == maxBots && selected == [] && Valid()
    {
      this.maxBots := maxBots;
      selected := [];
    }

    method Toggle(bot: string)
      requires Valid()
      modifies this`selected
      ensures selected == Toggled(old(selected), bot, maxBots) && Valid()
    {
      ToggledValid(selected, bot, maxBots);
      if bot in selected {
        selected := Without(selected, bot);
      } else if BelowLimit(|selected|, maxBots) {
        selected := selected + [bot];
      }
    }
  }

  function LowerChar(c: char): (l: char)
    ensures 'A' <= c <= 'Z' ==> l as int == c as int + 32
    ensures !('A' <= c <= 'Z') ==> l == c
    ensures !('A' <= l <= 'Z')
    ensures 'a' <= l <= 'z' <==> 'a' <= c <= 'z' || 'A' <= c <= 'Z'
  {
    if 'A' <= c <= 'Z' then (c as int + 32) as char else c
  }

  /** `toLowerCase` on the ASCII letters of a bot name. */
  function Lower(s: string): (l: string)
    ensures |l| == |s|
    ensures forall i :: 0 <= i < |s| ==> l[i] == LowerChar(s[i])
  {
    if s == [] then [] else [LowerChar(s[0])] + Lower(s[1..])
  }

  /**
   * `handleCreateGame`'s two arrays: the human at index 0 with no bot id, then
   * each chosen bot in order, its id the lower-cased name.
   */
  method CreateGameArrays(selected: seq<string>) returns (names: seq<string>, botIds: seq<Option<string>>)
    ensures |names| == |botIds| == 1 + |selected|
    ensures names[0] == HumanName && botIds[0] == None
    ensures forall i :: 1 <= i < |names| ==> names[i] == selected[i - 1]
    ensures forall i :: 1 <= i < |names| ==> botIds[i] == Some(Lower(names[i]))
  {
    names := [HumanName];
    botIds := [None];
    var k := 0;
    while k < |selected|
      invariant 0 <= k <= |selected|
      invariant |names| == |botIds| == 1 + k
      invariant names[0] == HumanName && botIds[0] == None
      invariant forall i :: 1 <= i < |names| ==> names[i] == selected[i - 1]
      invariant forall i :: 1 <= i < |names| ==> botIds[i] == Some(Lower(names[i]))
    {
      names := names + [selected[k]];
      botIds := botIds + [Some(Lower(selected[k]))];
      k := k + 1;
    }
  }
}
