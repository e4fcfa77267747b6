/**
 * The bot-count picker of the client (frontend/src/pages/ChooseBotCount.jsx):
 * a `botCount` state, set by a typed number that is clamped to 1..5 and by
 * minus/plus buttons, and the navigation that carries the count on to the
 * bot-choice page.
 */
module ChooseBotCount {
  import opened Common

  const Fewest: real := 1.0
  const Most: real := 5.0

  /** The counts the picker can hold: a value in 1..5, or NaN, which no comparison moves. */
  predicate InRange(c: Num) {
    c.NaN? || Fewest <= c.r <= Most
  }

  /** `handleInputChange`: below 1 becomes 1, above 5 becomes 5, anything else (NaN too) is kept. */
  function Clamp(v: Num): (c: Num)
    ensures InRange(c)
    ensures v.NaN? <==> c.NaN?
    ensures InRange(v) ==> c == v
    ensures v.Finite? && v.r < Fewest ==> c == Finite(Fewest)
    ensures v.Finite? && v.r > Most ==> c == Finite(Most)
  {
    match v
    case NaN => NaN
    case Finite(r) => if r < Fewest then Finite(Fewest) else if r > Most then Finite(Most) else v
  }

  /** The minus button, `Math.max(1, botCount - 1)`; `Math.max` of NaN is NaN. */
  function Decrement(c: Num): (d: Num)
    ensures c.NaN? <==> d.NaN?
    ensures d.Finite? ==> Fewest <= d.r
    ensures c.Finite? && c.r >= Fewest + 1.0 ==> d.r == c.r - 1.0
  {
    match c
    case NaN => NaN
    case Finite(r) => Finite(MaxReal(Fewest, r - 1.0))
  }

  /** The plus button, `Math.min(5, botCount + 1)`. */
  function Increment(c: Num): (d: Num)
    ensures c.NaN? <==> d.NaN?
    ensures d.Finite? ==> d.r <= Most
    ensures c.Finite? && c.r <= Most - 1.0 ==> d.r == c.r + 1.0
  {
    match c
    case NaN => NaN
    case Finite(r) => Finite(MinReal(Most, r + 1.0))
  }

  function MaxReal(a: real, b: real): real {
    if a >= b then a else b
  }

  function MinReal(a: real, b: real): real {
    if a <= b then a else b
  }

  /** Clamping twice is clamping once. */
  lemma ClampIdempotent(v: Num)
    ensures Clamp(Clamp(v)) == Clamp(v)
  {
  }

  /** A larger typed value never gives a smaller count. */
  lemma ClampMonotone(v: Num, w: Num)
    requires v.Finite? && w.Finite? && v.r <= w.r
    ensures Clamp(v).r <= Clamp(w).r
  {
  }

  /** The buttons keep the count inside 1..5 once it is there. */
  lemma ButtonsKeepRange(c: Num)
    requires InRange(c)
    ensures InRange(Decrement(c)) && InRange(Increment(c))
  {
  }

  /** Plus then minus returns to the count whenever plus was not stopped at 5. */
  lemma {:induction false} PlusThenMinus(c: Num)
    requires c.Finite? && Fewest <= c.r <= Most - 1.0
    ensures Decrement(Increment(c)) == c
  {
    assert Increment(c) == Finite(c.r + 1.0);
  }

  /** Where Continue navigates: the bot-choice page with the count as its `count` query parameter. */
  datatype Target = ChooseBotsPage(count: Num)

  const CountQuery := "/choose-bots?count="

  /** The address of that page for a whole count, as the template literal writes it. */
  function ContinueUrl(n: nat): (url: string)
    ensures |CountQuery| < |url| && url[..|CountQuery|] == CountQuery
    ensures forall i :: |CountQuery| <= i < |url| ==> IsDigit(url[i])
    ensures DigitsValue(url[|CountQuery|..]) == n
  {
    NatTextRoundTrip(n);
    var url := CountQuery + NatText(n);
    assert url[|CountQuery|..] == NatText(n);
    url
  }

  /** The picker component: its `botCount` state and the handlers that set it. */
  class BotCountPicker {
    var count: Num

    predicate Valid()
      reads this`count
    {
      InRange(count)
    }

    constructor ()
      ensures count == Finite(Fewest) && Valid()
    {
      count := Finite(Fewest);
    }

    method TypeInput(v: Num)
      modifies this`count
      ensures count == Clamp(v) && Valid()
    {
      if v.Finite? && v.r < Fewest {
        count := Finite(Fewest);
      } else if v.Finite? && v.r > Most {
        count := Finite(Most);
      } else {
        count := v;
      }
    }

    method Minus()
      requires Valid()
      modifies this`count
      ensures count == Decrement(old(count)) && Valid()
    {
      ButtonsKeepRange(count);
      count := Decrement(count);
    }

    method Plus()
      requires Valid()
      modifies this`count
      ensures count == Increment(old(count)) && Valid()
    {
      ButtonsKeepRange(count);
      count := Increment(count);
    }

    method Continue() returns (t: Target)
      ensures t == ChooseBotsPage(count)
    {
      t := ChooseBotsPage(count);
    }
  }
}
