/**
 * The statistics page of the client (frontend/src/pages/Analytics.jsx): the
 * values read from browser storage with their defaults, the derived rates,
 * the favourite bot, the most-played table size, and the series drawn by the
 * charts. Storage holds integers and lists of integers here; the text
 * rounding (`toFixed`) of the rates is not modelled.
 */
module Analytics {
  import opened Common

  /** The stored keys the page reads; None where the key is missing. */
  datatype Stored = Stored(
    sessionHandsPlayed: Option<seq<int>>,
    sessionHandsWon: Option<seq<int>>,
    sessionMoneyWon: Option<seq<int>>,
    sessionPFR: Option<seq<real>>,
    sessionVPIP: Option<seq<real>>,
    totalHandsPlayed: Option<int>,
    totalHandsWon: Option<int>,
    totalMoneyWon: Option<int>,
    totalPFR: Option<int>,
    totalVPIP: Option<int>,
    gameSizes: Option<seq<int>>,
    botSelection: Option<seq<(string, int)>>,
    totalSessionsPlayed: Option<int>)

  /** The loaded values, every key filled in. */
  datatype Loaded = Loaded(
    sessionHandsPlayed: seq<int>,
    sessionHandsWon: seq<int>,
    sessionMoneyWon: seq<int>,
    sessionPFR: seq<real>,
    sessionVPIP: seq<real>,
    totalHandsPlayed: int,
    totalHandsWon: int,
    totalMoneyWon: int,
    totalPFR: int,
    totalVPIP: int,
    gameSizes: seq<int>,
    botSelection: seq<(string, int)>,
    totalSessionsPlayed: int)

  function Or<T>(o: Option<T>, default: T): T {
    if o.Some? then o.value else default
  }

  /**
   * The page's defaults: empty series, zero totals, five zero game sizes, no
   * bots and zero sessions; a stored value is kept as it is.
   */
  function Load(s: Stored): (l: Loaded)
    ensures s.sessionHandsPlayed.None? ==> l.sessionHandsPlayed == []
    ensures s.sessionHandsWon.None? ==> l.sessionHandsWon == []
    ensures s.sessionMoneyWon.None? ==> l.sessionMoneyWon == []
    ensures s.sessionPFR.None? ==> l.sessionPFR == []
    ensures s.sessionVPIP.None? ==> l.sessionVPIP == []
    ensures s.totalHandsPlayed.None? ==> l.totalHandsPlayed == 0
    ensures s.totalHandsWon.None? ==> l.totalHandsWon == 0
    ensures s.totalMoneyWon.None? ==> l.totalMoneyWon == 0
    ensures s.totalPFR.None? ==> l.totalPFR == 0
    ensures s.totalVPIP.None? ==> l.totalVPIP == 0
    ensures s.gameSizes.None? ==> l.gameSizes == [0, 0, 0, 0, 0]
    ensures s.botSelection.None? ==> l.botSelection == []
    ensures s.totalSessionsPlayed.None? ==> l.totalSessionsPlayed == 0
    ensures s.sessionHandsPlayed.Some? ==> l.sessionHandsPlayed == s.sessionHandsPlayed.value
    ensures s.sessionHandsWon.Some? ==> l.sessionHandsWon == s.sessionHandsWon.value
    ensures s.sessionMoneyWon.Some? ==> l.sessionMoneyWon == s.sessionMoneyWon.value
    ensures s.sessionPFR.Some? ==> l.sessionPFR == s.sessionPFR.value
    ensures s.sessionVPIP.Some? ==> l.sessionVPIP == s.sessionVPIP.value
    ensures s.totalHandsPlayed.Some? ==> l.totalHandsPlayed == s.totalHandsPlayed.value
    ensures s.totalHandsWon.Some? ==> l.totalHandsWon == s.totalHandsWon.value
    ensures s.totalMoneyWon.Some? ==> l.totalMoneyWon == s.totalMoneyWon.value
    ensures s.totalPFR.Some? ==> l.totalPFR == s.totalPFR.value
    ensures s.totalVPIP.Some? ==> l.totalVPIP == s.totalVPIP.value
    ensures s.gameSizes.Some? ==> l.gameSizes == s.gameSizes.value
    ensures s.botSelection.Some? ==> l.botSelection == s.botSelection.value
    ensures s.totalSessionsPlayed.Some? ==> l.totalSessionsPlayed == s.totalSessionsPlayed.value
  {
    Loaded(Or(s.sessionHandsPlayed, []), Or(s.sessionHandsWon, []), Or(s.sessionMoneyWon, []),
           Or(s.sessionPFR, []), Or(s.sessionVPIP, []),
           Or(s.totalHandsPlayed, 0), Or(s.totalHandsWon, 0), Or(s.totalMoneyWon, 0),
           Or(s.totalPFR, 0), Or(s.totalVPIP, 0),
           Or(s.gameSizes, [0, 0, 0, 0, 0]), Or(s.botSelection, []), Or(s.totalSessionsPlayed, 0))
  }

  /** A JavaScript quotient, which division by zero turns into an infinity or NaN. */
  datatype Quotient = Value(q: real) | PlusInfinity | MinusInfinity | NotANumber

  function Divide(a: int, b: int): (r: Quotient)
    ensures b != 0 <==> r.Value?
    ensures b != 0 ==> r.q * (b as real) == a as real
    ensures b == 0 && a == 0 ==> r.NotANumber?
  {
    if b != 0 then Value(a as real / b as real)
    else if a > 0 then PlusInfinity
    else if a < 0 then MinusInfinity
    else NotANumber
  }

  /** A count as a percentage of the hands played, set only when some hand was played. */
  function Percentage(count: int, played: int): (r: Option<real>)
    ensures r.Some? <==> played > 0
    ensures r.Some? ==> r.value * (played as real) == 100.0 * (count as real)
  {
    if played > 0 then Some((count as real / played as real) * 100.0)
    else None
  }

  /** The win rate in percent. */
  function WinRate(l: Loaded): (r: Option<real>)
    ensures r.Some? <==> l.totalHandsPlayed > 0
    ensures r.Some? ==> r.value * (l.totalHandsPlayed as real) == 100.0 * (l.totalHandsWon as real)
  {
    Percentage(l.totalHandsWon, l.totalHandsPlayed)
  }

  /** The pre-flop raise rate in percent. */
  function PfrPercentage(l: Loaded): (r: Option<real>)
    ensures r.Some? <==> l.totalHandsPlayed > 0
    ensures r.Some? ==> r.value * (l.totalHandsPlayed as real) == 100.0 * (l.totalPFR as real)
  {
    Percentage(l.totalPFR, l.totalHandsPlayed)
  }

  /** The voluntarily-put-in-pot rate in percent. */
  function VpipPercentage(l: Loaded): (r: Option<real>)
    ensures r.Some? <==> l.totalHandsPlayed > 0
    ensures r.Some? ==> r.value * (l.totalHandsPlayed as real) == 100.0 * (l.totalVPIP as real)
  {
    Percentage(l.totalVPIP, l.totalHandsPlayed)
  }

  /** A count between none and all of the hands played gives a percentage from 0 to 100. */
  lemma PercentageBounds(count: int, played: int)
    requires 0 <= count <= played && played > 0
    ensures 0.0 <= Percentage(count, played).value <= 100.0
  {
    var r := Percentage(count, played).value;
    assert r * (played as real) == 100.0 * (count as real);
    assert r * (played as real) <= 100.0 * (played as real);
  }

  /** With the hands played fixed, a larger count never gives a smaller percentage. */
  lemma PercentageMonotone(count1: int, count2: int, played: int)
    requires count1 <= count2 && played > 0
    ensures Percentage(count1, played).value <= Percentage(count2, played).value
  {
    var r1, r2 := Percentage(count1, played).value, Percentage(count2, played).value;
    assert r1 * (played as real) <= r2 * (played as real);
  }

  /** The average money per session, with no guard against zero sessions. */
  function AveragePerSession(l: Loaded): (r: Quotient)
    ensures l.totalSessionsPlayed == 0 ==> !r.Value?
  {
    Divide(l.totalMoneyWon, l.totalSessionsPlayed)
  }

  /** The favourite-bot reduce: an entry replaces the running best only with a strictly greater count. */
  function Favourite(entries: seq<(string, int)>): (best: (string, int))
    ensures best.1 >= 0
    ensures forall i :: 0 <= i < |entries| ==> entries[i].1 <= best.1
    ensures best.1 > 0 ==> exists i :: 0 <= i < |entries| && entries[i] == best
    ensures best.1 == 0 ==> best.0 == ""
  {
    if entries == [] then ("", 0)
    else
      var max := Favourite(entries[..|entries| - 1]);
      var last := entries[|entries| - 1];
      if last.1 > max.1 then last else max
  }

  /** The favourite is the first entry holding the greatest count, when that count is positive. */
  lemma {:induction false} FavouriteIsFirstMaximum(entries: seq<(string, int)>, i: nat)
    requires i < |entries| && entries[i].1 > 0
    requires forall j :: 0 <= j < |entries| ==> entries[j].1 <= entries[i].1
    requires forall j :: 0 <= j < i ==> entries[j].1 < entries[i].1
    ensures Favourite(entries) == entries[i]
  {
    var last := |entries| - 1;
    var prefix := entries[..last];
    if i == last {
      assert forall j :: 0 <= j < |prefix| ==> prefix[j].1 < entries[i].1;
    } else {
      FavouriteIsFirstMaximum(prefix, i);
    }
  }

  /** The favourite bot, computed only when some bot was ever chosen. */
  function FavouriteBot(l: Loaded): (r: Option<(string, int)>)
    ensures r.Some? <==> l.botSelection != []
  {
    if l.botSelection != [] then Some(Favourite(l.botSelection)) else None
  }

  function MaxOf(s: seq<int>): (m: int)
    requires s != []
    ensures m in s
    ensures forall i :: 0 <= i < |s| ==> s[i] <= m
  {
    if |s| == 1 then s[0]
    else
      var m := MaxOf(s[..|s| - 1]);
      if s[|s| - 1] > m then s[|s| - 1] else m
  }

  /** `indexOf`: the first index holding v. */
  function IndexOf(s: seq<int>, v: int): (i: nat)
    requires v in s
    ensures i < |s| && s[i] == v
    ensures forall j :: 0 <= j < i ==> s[j] != v
  {
    if s[0] == v then 0 else 1 + IndexOf(s[1..], v)
  }

  /** The most-played table size and its count: the first index of the largest count, plus two. */
  function MostPlayedSize(sizes: seq<int>): (r: Option<(nat, int)>)
    ensures r.Some? <==> exists i :: 0 <= i < |sizes| && sizes[i] > 0
    ensures r.Some? ==> 2 <= r.value.0 < |sizes| + 2 && r.value.1 == sizes[r.value.0 - 2]
    ensures r.Some? ==> forall j :: 0 <= j < |sizes| ==> sizes[j] <= r.value.1
    ensures r.Some? ==> forall j :: 0 <= j < r.value.0 - 2 ==> sizes[j] < r.value.1
  {
    if exists i :: 0 <= i < |sizes| && sizes[i] > 0 then
      var m := MaxOf(sizes);
      var i := IndexOf(sizes, m);
      forall j | 0 <= j < i
        ensures sizes[j] < m
      {
        assert sizes[j] != m;
      }
      Some((i + 2, m))
    else None
  }

  /** One point of the session chart. */
  datatype SessionPoint = SessionPoint(session: string, hands: int, won: int, money: int)

  /** `series[index] || 0`. */
  function At(series: seq<int>, index: nat): int {
    if index < |series| then series[index] else 0
  }

  function Reverse<T>(s: seq<T>): (r: seq<T>)
    ensures |r| == |s|
    ensures forall j :: 0 <= j < |s| ==> r[j] == s[|s| - 1 - j]
  {
    if s == [] then [] else Reverse(s[1..]) + [s[0]]
  }

  /** The points before the reversal: session i is labelled with its distance from the end. */
  function SessionPoints(l: Loaded): (r: seq<SessionPoint>)
    ensures |r| == |l.sessionHandsPlayed|
  {
    var n := |l.sessionHandsPlayed|;
    seq(n, i requires 0 <= i < n =>
      SessionPoint("Game " + NatText(n - i), l.sessionHandsPlayed[i], At(l.sessionHandsWon, i), At(l.sessionMoneyWon, i)))
  }

  /** `getSessionChartData()`. */
  function SessionChart(l: Loaded): (r: seq<SessionPoint>)
  {
    Reverse(SessionPoints(l))
  }

  /**
   * The chart reads Game 1 .. Game n from left to right: point j is the
   * (n-1-j)th stored session, with a missing won or money count as 0.
   */
  lemma SessionChartOrder(l: Loaded)
    ensures var r := SessionChart(l);
            var n := |l.sessionHandsPlayed|;
            |r| == n &&
            forall j :: 0 <= j < n ==>
              r[j].session == "Game " + NatText(j + 1) &&
              r[j].hands == l.sessionHandsPlayed[n - 1 - j] &&
              r[j].won == At(l.sessionHandsWon, n - 1 - j) &&
              r[j].money == At(l.sessionMoneyWon, n - 1 - j)
  {
  }

  /** One slice of a pie chart. */
  datatype Slice = Slice(name: string, value: int)

  function SizeName(index: nat): string {
    NatText(index + 2) + " Players"
  }

  /** The indices from `from` onwards whose count is positive, in increasing order. */
  function PositiveIndices(sizes: seq<int>, from: nat): (ix: seq<nat>)
    requires from <= |sizes|
    ensures forall k :: 0 <= k < |ix| ==> from <= ix[k] < |sizes| && sizes[ix[k]] > 0
    ensures forall k, m :: 0 <= k < m < |ix| ==> ix[k] < ix[m]
    ensures forall i :: from <= i < |sizes| && sizes[i] > 0 ==> i in ix
    decreases |sizes| - from
  {
    if from == |sizes| then []
    else
      var rest := PositiveIndices(sizes, from + 1);
      if sizes[from] > 0 then [from] + rest else rest
  }

  /**
   * `getGameSizeData()`, from index `from` onwards: the map to named slices
   * followed by the filter on a positive count, so the slices follow the
   * increasing indices of the positive sizes.
   */
  function GameSizeData(sizes: seq<int>, from: nat): (r: seq<Slice>)
    requires from <= |sizes|
    ensures forall k :: 0 <= k < |r| ==> r[k].value > 0
    ensures forall k :: 0 <= k < |r| ==> exists i :: from <= i < |sizes| && r[k] == Slice(SizeName(i), sizes[i])
    ensures forall i :: from <= i < |sizes| && sizes[i] > 0 ==> Slice(SizeName(i), sizes[i]) in r
    decreases |sizes| - from
  {
    if from == |sizes| then []
    else
      var rest := GameSizeData(sizes, from + 1);
      if sizes[from] > 0 then [Slice(SizeName(from), sizes[from])] + rest else rest
  }

  /** Slice k is the size at index ix[k]. */
  predicate FollowsIndices(r: seq<Slice>, ix: seq<nat>, sizes: seq<int>) {
    |r| == |ix| && forall k :: 0 <= k < |r| ==> ix[k] < |sizes| && r[k] == Slice(SizeName(ix[k]), sizes[ix[k]])
  }

  lemma FollowsIndicesCons(i: nat, r: seq<Slice>, ix: seq<nat>, sizes: seq<int>)
    requires i < |sizes| && FollowsIndices(r, ix, sizes)
    ensures FollowsIndices([Slice(SizeName(i), sizes[i])] + r, [i] + ix, sizes)
  {
    var r', ix' := [Slice(SizeName(i), sizes[i])] + r, [i] + ix;
    forall k | 0 <= k < |r'|
      ensures ix'[k] < |sizes| && r'[k] == Slice(SizeName(ix'[k]), sizes[ix'[k]])
    {
      if k > 0 {
        assert r'[k] == r[k - 1] && ix'[k] == ix[k - 1];
      }
    }
  }

  /** Slice k of the game-size chart is the size at the k-th positive index: the stored order is kept. */
  lemma {:induction false} GameSizeDataInIndexOrder(sizes: seq<int>, from: nat)
    requires from <= |sizes|
    ensures FollowsIndices(GameSizeData(sizes, from), PositiveIndices(sizes, from), sizes)
    decreases |sizes| - from
  {
    if from < |sizes| {
      GameSizeDataInIndexOrder(sizes, from + 1);
      if sizes[from] > 0 {
        FollowsIndicesCons(from, GameSizeData(sizes, from + 1), PositiveIndices(sizes, from + 1), sizes);
      }
    }
  }

  /** Distinct sizes get distinct names, so the slices keep the stored order. */
  lemma {:induction false} SizeNamesDistinct(i: nat, j: nat)
    requires i != j
    ensures SizeName(i) != SizeName(j)
  {
    if SizeName(i) == SizeName(j) {
      var a, b := NatText(i + 2), NatText(j + 2);
      assert a + " Players" == b + " Players";
      assert |a| == |b|;
      assert a == (a + " Players")[..|a|];
      assert b == (b + " Players")[..|b|];
      NatTextInjective(i + 2, j + 2);
    }
  }

  /** The bot-selection slices in descending order of count. */
  predicate Descending(s: seq<Slice>) {
    forall i, j :: 0 <= i < j < |s| ==> s[i].value >= s[j].value
  }

  /** Insertion of one slice after every slice with a count at least its own. */
  function Insert(x: Slice, s: seq<Slice>): (r: seq<Slice>)
    ensures |r| == |s| + 1
    ensures r[0] == x || (s != [] && r[0] == s[0])
    ensures multiset(r) == multiset(s) + multiset{x}
  {
    if s == [] then [x]
    else if s[0].value >= x.value then
      assert s == [s[0]] + s[1..];
      [s[0]] + Insert(x, s[1..])
    else [x] + s
  }

  /** Inserting into a descending list keeps it descending. */
  lemma {:induction false} InsertKeepsDescending(x: Slice, s: seq<Slice>)
    requires Descending(s)
    ensures Descending(Insert(x, s))
  {
    if s == [] {
    } else if s[0].value >= x.value {
      var rest := Insert(x, s[1..]);
      InsertKeepsDescending(x, s[1..]);
      var r := [s[0]] + rest;
      assert Insert(x, s) == r;
      assert rest[0].value <= s[0].value by {
        if rest[0] != x {
          assert rest[0] == s[1];
        }
      }
      forall i, j | 0 <= i < j < |r|
        ensures r[i].value >= r[j].value
      {
        assert r[j] == rest[j - 1];
        if i > 0 {
          assert r[i] == rest[i - 1];
        }
      }
    } else {
      var r := [x] + s;
      forall i, j | 0 <= i < j < |r|
        ensures r[i].value >= r[j].value
      {
        assert r[j] == s[j - 1];
        if i > 0 {
          assert r[i] == s[i - 1];
        }
      }
    }
  }

  /** The entries as slices, in their stored order. */
  function Slices(entries: seq<(string, int)>): (r: seq<Slice>)
    ensures |r| == |entries|
    ensures forall i :: 0 <= i < |entries| ==> r[i] == Slice(entries[i].0, entries[i].1)
  {
    seq(|entries|, i requires 0 <= i < |entries| => Slice(entries[i].0, entries[i].1))
  }

  /** `Object.entries(botSelection).map(...).sort((a, b) => b.value - a.value)`. */
  function BotSelectionData(entries: seq<(string, int)>): (r: seq<Slice>)
    ensures Descending(r)
    ensures multiset(r) == multiset(Slices(entries))
  {
    if entries == [] then []
    else
      var last := entries[|entries| - 1];
      var prefix := entries[..|entries| - 1];
      var before := BotSelectionData(prefix);
      assert Slices(entries) == Slices(prefix) + [Slice(last.0, last.1)];
      InsertKeepsDescending(Slice(last.0, last.1), before);
      Insert(Slice(last.0, last.1), before)
  }

  /** The slices with count v, in order. */
  function WithValue(s: seq<Slice>, v: int): (r: seq<Slice>)
    ensures forall k :: 0 <= k < |r| ==> r[k].value == v
  {
    if s == [] then []
    else (if s[0].value == v then [s[0]] else []) + WithValue(s[1..], v)
  }

  lemma {:induction false} WithValueAppend(a: seq<Slice>, b: seq<Slice>, v: int)
    ensures WithValue(a + b, v) == WithValue(a, v) + WithValue(b, v)
  {
    if a == [] {
      assert a + b == b;
    } else {
      assert (a + b)[0] == a[0];
      assert (a + b)[1..] == a[1..] + b;
      WithValueAppend(a[1..], b, v);
    }
  }

  lemma {:induction false} WithValueNone(s: seq<Slice>, v: int)
    requires forall i :: 0 <= i < |s| ==> s[i].value < v
    ensures WithValue(s, v) == []
  {
    if s != [] {
      WithValueNone(s[1..], v);
    }
  }

  /** One step of the filter: the head is kept iff it has the count. */
  lemma WithValueCons(a: Slice, t: seq<Slice>, v: int)
    ensures WithValue([a] + t, v) == (if a.value == v then [a] else []) + WithValue(t, v)
  {
    assert ([a] + t)[0] == a;
    assert ([a] + t)[1..] == t;
  }

  lemma DescendingTail(s: seq<Slice>)
    requires Descending(s) && s != []
    ensures Descending(s[1..])
    ensures forall i :: 0 <= i < |s| ==> s[i].value <= s[0].value
  {
    forall i, j | 0 <= i < j < |s[1..]|
      ensures s[1..][i].value >= s[1..][j].value
    {
      assert s[1..][i] == s[i + 1] && s[1..][j] == s[j + 1];
    }
  }

  /** Inserting into a descending list puts the new slice after every slice with the same count. */
  lemma {:induction false} InsertStable(x: Slice, s: seq<Slice>, v: int)
    requires Descending(s)
    ensures WithValue(Insert(x, s), v) == WithValue(s, v) + (if x.value == v then [x] else [])
  {
    if s == [] {
      WithValueCons(x, [], v);
    } else {
      assert s == [s[0]] + s[1..];
      WithValueCons(s[0], s[1..], v);
      DescendingTail(s);
      if s[0].value >= x.value {
        InsertStable(x, s[1..], v);
        WithValueCons(s[0], Insert(x, s[1..]), v);
      } else {
        WithValueCons(x, s, v);
        if x.value == v {
          WithValueNone(s, v);
        }
      }
    }
  }

  /** One step of the sort: the last entry is inserted into the sorted prefix. */
  lemma BotSelectionStep(entries: seq<(string, int)>)
    requires entries != []
    ensures var last := entries[|entries| - 1];
            var prefix := entries[..|entries| - 1];
            BotSelectionData(entries) == Insert(Slice(last.0, last.1), BotSelectionData(prefix)) &&
            Slices(entries) == Slices(prefix) + [Slice(last.0, last.1)]
  {
    var prefix := entries[..|entries| - 1];
    var a, b := Slices(entries), Slices(prefix) + [Slice(entries[|entries| - 1].0, entries[|entries| - 1].1)];
    assert |a| == |b|;
    forall i | 0 <= i < |a|
      ensures a[i] == b[i]
    {
      if i < |prefix| {
        assert prefix[i] == entries[i];
      }
    }
  }

  /**
   * The sort is stable: the slices with any one count appear in the order of
   * the stored entries. With `Descending` and the permutation this fixes the
   * result completely.
   */
  lemma {:induction false} BotSelectionStable(entries: seq<(string, int)>, v: int)
    ensures WithValue(BotSelectionData(entries), v) == WithValue(Slices(entries), v)
  {
    if entries != [] {
      var last := entries[|entries| - 1];
      var prefix := entries[..|entries| - 1];
      var x := Slice(last.0, last.1);
      BotSelectionStep(entries);
      BotSelectionStable(prefix, v);
      InsertStable(x, BotSelectionData(prefix), v);
      WithValueAppend(Slices(prefix), [x], v);
      WithValueCons(x, [], v);
      assert [x] + [] == [x];
    }
  }
}
