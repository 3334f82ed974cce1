/**
 * The quick-tips advice list shown under the daily estimate: a pure function
 * of the activity multiplier that picks, in a fixed order, which of six
 * advisory messages to show.
 */
module Tips {

  /** The six advisory messages, declared in the order they can appear. */
  datatype Tip =
    | RegularMealTimes
    | SpreadProtein
    | CarbsNearActivity
    | IncreaseFluids
    | HealthyFats
    | LimitFriedFats

  /** The text the screen shows for each tip: an emoji, then one sentence. */
  function Text(t: Tip): (s: string)
    ensures |s| > 2 && s[|s| - 1] == '.'
  {
    match t
    case RegularMealTimes => "🍽️ Mantén horarios de comida regulares."
    case SpreadProtein => "🥩 Reparte la proteína a lo largo del día."
    case CarbsNearActivity => "🍚 Incluye carbohidratos cerca de tu actividad."
    case IncreaseFluids => "💧 Aumenta líquidos si sudas o te ejercitas."
    case HealthyFats => "🥑 Prioriza grasas saludables como aceite de oliva."
    case LimitFriedFats => "🚫 Limita frituras y grasas saturadas."
  }

  /** Position of a tip in the canonical order. */
  function Rank(t: Tip): nat {
    match t
    case RegularMealTimes => 0
    case SpreadProtein => 1
    case CarbsNearActivity => 2
    case IncreaseFluids => 3
    case HealthyFats => 4
    case LimitFriedFats => 5
  }

  /** Activity thresholds of the three independent checks. */
  const LowActivityMax: real := 1.25
  const CarbsMin: real := 1.4
  const FluidsMin: real := 1.6

  /** The rule table: whether tip `t` belongs on the list for `activity`. */
  predicate Shown(t: Tip, activity: real) {
    match t
    case RegularMealTimes => activity <= LowActivityMax
    case SpreadProtein => activity <= LowActivityMax
    case CarbsNearActivity => activity >= CarbsMin
    case IncreaseFluids => activity >= FluidsMin
    case HealthyFats => true
    case LimitFriedFats => true
  }

  /** Tips listed strictly in canonical order (hence without repetition). */
  predicate Ordered(s: seq<Tip>) {
    forall i, j :: 0 <= i < j < |s| ==> Rank(s[i]) < Rank(s[j])
  }

  /** One if `b` holds, zero otherwise. */
  function Indicator(b: bool): nat {
    if b then 1 else 0
  }

  /**
   * The tip list, built as the source builds it: three independent
   * threshold checks, each appending its tips, then two tips always.
   * Its contract pins the result down completely (see OrderedListingUnique):
   * exactly the tips the rule table selects, in canonical order.
   */
  function QuickTips(activity: real): (r: seq<Tip>)
    ensures forall t :: t in r <==> Shown(t, activity)
    ensures Ordered(r)
    ensures forall i, j :: 0 <= i < j < |r| ==> r[i] != r[j]
    ensures |r| == 2 + 2 * Indicator(activity <= LowActivityMax)
                     + Indicator(activity >= CarbsMin) + Indicator(activity >= FluidsMin)
    ensures |r| in {2, 3, 4}
    ensures activity <= LowActivityMax <==> r[0] == RegularMealTimes
    ensures activity <= LowActivityMax ==> r[0] == RegularMealTimes && r[1] == SpreadProtein
    ensures r[|r| - 2] == HealthyFats && r[|r| - 1] == LimitFriedFats
    ensures !(RegularMealTimes in r && CarbsNearActivity in r)
    ensures IncreaseFluids in r ==> CarbsNearActivity in r
  {
    var low := if activity <= LowActivityMax then [RegularMealTimes, SpreadProtein] else [];
    var carbs := if activity >= CarbsMin then [CarbsNearActivity] else [];
    var fluids := if activity >= FluidsMin then [IncreaseFluids] else [];
    var r := low + carbs + fluids + [HealthyFats, LimitFriedFats];
    assert low == [] ==> r[0] != RegularMealTimes;
    r
  }

  /** The texts of a list of tips, position by position. */
  function Texts(s: seq<Tip>): (r: seq<string>)
    ensures |r| == |s|
    ensures forall i :: 0 <= i < |r| ==> r[i] == Text(s[i])
  {
    if s == [] then [] else [Text(s[0])] + Texts(s[1..])
  }

  /** A tip's text is rendered exactly when the tip itself is listed. */
  lemma TextsMembership(s: seq<Tip>)
    ensures forall t :: Text(t) in Texts(s) <==> t in s
  {
    forall t ensures Text(t) in Texts(s) <==> t in s {
      if Text(t) in Texts(s) {
        var i :| 0 <= i < |Texts(s)| && Texts(s)[i] == Text(t);
        TextInjective(s[i], t);
      }
      if t in s {
        var i :| 0 <= i < |s| && s[i] == t;
        assert Texts(s)[i] == Text(t);
      }
    }
  }

  /**
   * The tip list as the strings the screen renders, one per list item: a
   * message is shown exactly when the rule table selects its tip, at the
   * position of its tip.
   */
  function QuickTipTexts(activity: real): (r: seq<string>)
    ensures |r| == |QuickTips(activity)|
    ensures forall i :: 0 <= i < |r| ==> r[i] == Text(QuickTips(activity)[i])
    ensures forall t :: Text(t) in r <==> Shown(t, activity)
  {
    TextsMembership(QuickTips(activity));
    Texts(QuickTips(activity))
  }

  /**
   * The rendered list opens with the meal-times and protein messages exactly
   * at low activity, and always closes with the two fat messages.
   */
  lemma QuickTipTextsEnds(activity: real)
    ensures var r := QuickTipTexts(activity);
      && (activity <= LowActivityMax ==> r[0] == Text(RegularMealTimes) && r[1] == Text(SpreadProtein))
      && r[|r| - 2] == Text(HealthyFats) && r[|r| - 1] == Text(LimitFriedFats)
  {
  }

  /** Texts of a list without repeated tips repeat no string. */
  lemma TextsDistinct(s: seq<Tip>)
    requires forall i, j :: 0 <= i < j < |s| ==> s[i] != s[j]
    ensures forall i, j :: 0 <= i < j < |Texts(s)| ==> Texts(s)[i] != Texts(s)[j]
  {
    forall i, j | 0 <= i < j < |s| ensures Texts(s)[i] != Texts(s)[j] {
      TextInjective(s[i], s[j]);
    }
  }

  /** The rendered list never repeats a message. */
  lemma QuickTipTextsDistinct(activity: real)
    ensures forall i, j :: 0 <= i < j < |QuickTipTexts(activity)| ==>
      QuickTipTexts(activity)[i] != QuickTipTexts(activity)[j]
  {
    TextsDistinct(QuickTips(activity));
  }

  /** Distinct tips have distinct texts: each begins with its own emoji. */
  lemma TextInjective(t: Tip, u: Tip)
    ensures Text(t) == Text(u) ==> t == u
  {
  }

  // ----- An independent reference definition: filter the canonical list -----

  /** Every tip, in canonical order. */
  function AllTips(): (r: seq<Tip>)
    ensures Ordered(r)
    ensures forall t :: Rank(t) < |r| && r[Rank(t)] == t
  {
    [RegularMealTimes, SpreadProtein, CarbsNearActivity, IncreaseFluids, HealthyFats, LimitFriedFats]
  }

  /** The elements of `s` the rule table selects for `activity`, keeping their order. */
  function Select(s: seq<Tip>, activity: real): (r: seq<Tip>)
    ensures forall t :: t in r <==> t in s && Shown(t, activity)
  {
    if s == [] then []
    else if Shown(s[0], activity) then [s[0]] + Select(s[1..], activity)
    else Select(s[1..], activity)
  }

  /** Filtering keeps an ordered list ordered. */
  lemma {:induction false} SelectOrdered(s: seq<Tip>, activity: real)
    requires Ordered(s)
    ensures Ordered(Select(s, activity))
  {
    if s != [] {
      var rest := Select(s[1..], activity);
      SelectOrdered(s[1..], activity);
      if Shown(s[0], activity) {
        forall t | t in rest ensures Rank(s[0]) < Rank(t) {
          var k :| 0 <= k < |s[1..]| && s[1..][k] == t;
          assert s[k + 1] == t;
        }
        OrderedCons(s[0], rest);
      }
    }
  }

  /** A tip ranked below everything in an ordered list can be put in front of it. */
  lemma OrderedCons(x: Tip, rest: seq<Tip>)
    requires Ordered(rest)
    requires forall t :: t in rest ==> Rank(x) < Rank(t)
    ensures Ordered([x] + rest)
  {
    var r := [x] + rest;
    forall i, j | 0 <= i < j < |r| ensures Rank(r[i]) < Rank(r[j]) {
      assert r[j] == rest[j - 1];
      if i > 0 {
        assert r[i] == rest[i - 1];
      }
    }
  }

  /** Two ordered lists holding the same tips are the same list. */
  lemma {:induction false} OrderedListingUnique(s: seq<Tip>, u: seq<Tip>)
    requires Ordered(s) && Ordered(u)
    requires forall t :: t in s <==> t in u
    ensures s == u
  {
    assert s != [] ==> s[0] in u;
    assert u != [] ==> u[0] in s;
    if s != [] {
      // The first element of an ordered list has the least rank in it.
      assert s[0] == u[0];
      forall t ensures t in s[1..] <==> t in u[1..] {
        if t in s[1..] {
          var i :| 1 <= i < |s| && s[i] == t;
          assert Rank(s[0]) < Rank(t);
          assert s[i] in s;
          var k :| 0 <= k < |u| && u[k] == t;
          assert k != 0 && u[1..][k - 1] == t;
        }
        if t in u[1..] {
          var i :| 1 <= i < |u| && u[i] == t;
          assert Rank(u[0]) < Rank(t);
          assert u[i] in u;
          var k :| 0 <= k < |s| && s[k] == t;
          assert k != 0 && s[1..][k - 1] == t;
        }
      }
      OrderedListingUnique(s[1..], u[1..]);
    }
  }

  /** The source's straight-line construction agrees with filtering the canonical list. */
  lemma QuickTipsIsSelect(activity: real)
    ensures QuickTips(activity) == Select(AllTips(), activity)
  {
    SelectOrdered(AllTips(), activity);
    var r := Select(AllTips(), activity);
    forall t ensures t in QuickTips(activity) <==> t in r {
      assert AllTips()[Rank(t)] == t;
    }
    OrderedListingUnique(QuickTips(activity), r);
  }

  // ----- The five activity options of the selector -----

  /** The options of the activity selector, in the order they are listed. */
  datatype ActivityLevel = Bedridden | VeryLittle | Light | Active | VeryIntense

  /** The multiplier each option carries as its value. */
  function Multiplier(l: ActivityLevel): (m: real)
    ensures m <= LowActivityMax <==> l == Bedridden || l == VeryLittle
    ensures m >= CarbsMin <==> l == Light || l == Active || l == VeryIntense
    ensures m >= FluidsMin <==> l == Active || l == VeryIntense
  {
    match l
    case Bedridden => 1.1
    case VeryLittle => 1.25
    case Light => 1.4
    case Active => 1.6
    case VeryIntense => 1.8
  }

  /** The tips each selector option produces; the list has three entries only for the light option. */
  lemma OptionTips(l: ActivityLevel)
    ensures QuickTips(Multiplier(l)) ==
      match l
      case Bedridden => [RegularMealTimes, SpreadProtein, HealthyFats, LimitFriedFats]
      case VeryLittle => [RegularMealTimes, SpreadProtein, HealthyFats, LimitFriedFats]
      case Light => [CarbsNearActivity, HealthyFats, LimitFriedFats]
      case Active => [CarbsNearActivity, IncreaseFluids, HealthyFats, LimitFriedFats]
      case VeryIntense => [CarbsNearActivity, IncreaseFluids, HealthyFats, LimitFriedFats]
    ensures |QuickTips(Multiplier(l))| == if l == Light then 3 else 4
  {
  }
}
