/**
 * The form's input state: two reactive cells, weight and activity, with
 * their starting values and the rules by which the weight input and the
 * activity selector update them; and the activity test that decides the
 * water bonus.
 */
module App {
  import opened Wrappers
  import Tips

  /** Starting values of the two cells. */
  const InitialWeight: real := 70.0
  const InitialActivity: real := 1.1

  /** The values held by the two cells at one moment. */
  datatype Inputs = Inputs(weight: real, activity: real)

  /** The state the form opens with. */
  function Initial(): (s: Inputs)
    ensures s.weight >= 0.0
    ensures s.activity == Tips.Multiplier(Tips.Bedridden)
  {
    Inputs(InitialWeight, InitialActivity)
  }

  /** `max(v, 0)`: the clamp the weight input applies to a parsed number. */
  function ClampNonNegative(v: real): (r: real)
    ensures r >= 0.0 && r >= v
    ensures r == v || r == 0.0
  {
    if v >= 0.0 then v else 0.0
  }

  /**
   * The weight input handler. `parsed` is the outcome of parsing the
   * field's text as a number: a failed parse keeps the old value,
   * a parsed one is stored clamped to zero from below.
   */
  function WeightEdited(s: Inputs, parsed: Option<real>): (r: Inputs)
    ensures r.activity == s.activity
    ensures parsed.None? ==> r == s
    ensures parsed.Some? && parsed.value >= 0.0 ==> r.weight == parsed.value
    ensures parsed.Some? && parsed.value < 0.0 ==> r.weight == 0.0
    ensures s.weight >= 0.0 ==> r.weight >= 0.0
  {
    match parsed
    case None => s
    case Some(v) => s.(weight := ClampNonNegative(v))
  }

  /**
   * The activity selector handler: a failed parse keeps the old value,
   * a parsed one is stored as it is, without clamping.
   */
  function ActivityEdited(s: Inputs, parsed: Option<real>): (r: Inputs)
    ensures r.weight == s.weight
    ensures parsed.None? ==> r == s
    ensures parsed.Some? ==> r.activity == parsed.value
  {
    match parsed
    case None => s
    case Some(v) => s.(activity := v)
  }

  /** One user edit: text typed into the weight field, or a selector change. */
  datatype Edit = WeightInput(parsed: Option<real>) | ActivityChange(parsed: Option<real>)

  /** The state after one edit: each handler touches only its own cell, and a failed parse touches nothing. */
  function Apply(s: Inputs, e: Edit): (r: Inputs)
    ensures e.WeightInput? ==> r.activity == s.activity
    ensures e.ActivityChange? ==> r.weight == s.weight
    ensures e.parsed.None? ==> r == s
  {
    match e
    case WeightInput(p) => WeightEdited(s, p)
    case ActivityChange(p) => ActivityEdited(s, p)
  }

  /** Some edit in `edits` is a weight input that parsed and stored `w`. */
  predicate WeightStoredBy(edits: seq<Edit>, w: real) {
    exists k :: 0 <= k < |edits| && edits[k].WeightInput? && edits[k].parsed.Some? &&
                w == ClampNonNegative(edits[k].parsed.value)
  }

  /** Some edit in `edits` is a selector change that parsed as `a`. */
  predicate ActivityStoredBy(edits: seq<Edit>, a: real) {
    exists k :: 0 <= k < |edits| && edits[k] == ActivityChange(Some(a))
  }

  /**
   * The state after a sequence of edits, applied in order. Each cell holds
   * either its starting value or a value some successful edit of that cell
   * stored: the clamped number for weight, the parsed number for activity.
   */
  function Replay(s: Inputs, edits: seq<Edit>): (r: Inputs)
    ensures r.weight == s.weight || WeightStoredBy(edits, r.weight)
    ensures r.activity == s.activity || ActivityStoredBy(edits, r.activity)
    decreases |edits|
  {
    if edits == [] then s
    else
      var r := Replay(Apply(s, edits[0]), edits[1..]);
      assert forall k :: 0 <= k < |edits| - 1 ==> edits[1..][k] == edits[k + 1];
      r
  }

  // The next four lemmas are corollaries of the contract of Replay: a cell
  // moves away from its starting value only to a value that an edit of that
  // cell stored.

  /** No sequence of edits drives a non-negative weight below zero. */
  lemma ReplayKeepsWeightNonNegative(s: Inputs, edits: seq<Edit>)
    requires s.weight >= 0.0
    ensures Replay(s, edits).weight >= 0.0
  {
  }

  /** From the starting state, weight is never negative, whatever the user types. */
  lemma WeightNeverNegative(edits: seq<Edit>)
    ensures Replay(Initial(), edits).weight >= 0.0
  {
    ReplayKeepsWeightNonNegative(Initial(), edits);
  }

  /** Weight edits alone never change the activity. */
  lemma WeightEditsKeepActivity(s: Inputs, edits: seq<Edit>)
    requires forall k :: 0 <= k < |edits| ==> edits[k].WeightInput?
    ensures Replay(s, edits).activity == s.activity
  {
  }

  /** Activity edits alone never change the weight. */
  lemma ActivityEditsKeepWeight(s: Inputs, edits: seq<Edit>)
    requires forall k :: 0 <= k < |edits| ==> edits[k].ActivityChange?
    ensures Replay(s, edits).weight == s.weight
  {
  }

  /** Edits whose parse failed leave the state as it was. */
  lemma FailedEditsChangeNothing(s: Inputs, edits: seq<Edit>)
    requires forall k :: 0 <= k < |edits| ==> edits[k].parsed.None?
    ensures Replay(s, edits) == s
  {
  }

  /** Replaying one more edit is applying it to the replayed state. */
  lemma {:induction false} ReplaySnoc(s: Inputs, edits: seq<Edit>, e: Edit)
    ensures Replay(s, edits + [e]) == Apply(Replay(s, edits), e)
    decreases |edits|
  {
    if edits != [] {
      assert (edits + [e])[1..] == edits[1..] + [e];
      ReplaySnoc(Apply(s, edits[0]), edits[1..], e);
    }
  }

  /**
   * Reference reading of the weight cell: the clamped value of the last
   * weight edit that parsed, or `w` when there is none.
   */
  function LatestWeight(w: real, edits: seq<Edit>): real
    decreases |edits|
  {
    if edits == [] then w
    else
      var e := edits[|edits| - 1];
      if e.WeightInput? && e.parsed.Some? then ClampNonNegative(e.parsed.value)
      else LatestWeight(w, edits[..|edits| - 1])
  }

  /**
   * Reference reading of the activity cell: the value of the last
   * selector change that parsed, or `a` when there is none.
   */
  function LatestActivity(a: real, edits: seq<Edit>): real
    decreases |edits|
  {
    if edits == [] then a
    else
      var e := edits[|edits| - 1];
      if e.ActivityChange? && e.parsed.Some? then e.parsed.value
      else LatestActivity(a, edits[..|edits| - 1])
  }

  /** Each cell holds what its last successful edit stored, and nothing else affects it. */
  lemma {:induction false} ReplayIsLatest(s: Inputs, edits: seq<Edit>)
    ensures Replay(s, edits).weight == LatestWeight(s.weight, edits)
    ensures Replay(s, edits).activity == LatestActivity(s.activity, edits)
    decreases |edits|
  {
    if edits != [] {
      var init, e := edits[..|edits| - 1], edits[|edits| - 1];
      assert edits == init + [e];
      ReplaySnoc(s, init, e);
      ReplayIsLatest(s, init);
    }
  }

  /**
   * The two signal cells. The handlers overwrite the fields in place;
   * `Current()` reads them back as a value so each handler can be stated
   * against the functions above.
   */
  class Signals {
    var weight: real
    var activity: real

    /** The cells' invariant: the stored weight is never negative. */
    ghost predicate Valid()
      reads this
    {
      weight >= 0.0
    }

    function Current(): Inputs
      reads this
    {
      Inputs(weight, activity)
    }

    constructor ()
      ensures Valid()
      ensures Current() == Initial()
    {
      weight := InitialWeight;
      activity := InitialActivity;
    }

    method OnWeightInput(parsed: Option<real>)
      requires Valid()
      modifies this
      ensures Valid()
      ensures Current() == WeightEdited(old(Current()), parsed)
    {
      if parsed.Some? {
        weight := ClampNonNegative(parsed.value);
      }
    }

    method OnActivityChange(parsed: Option<real>)
      requires Valid()
      modifies this
      ensures Valid()
      ensures Current() == ActivityEdited(old(Current()), parsed)
    {
      if parsed.Some? {
        activity := parsed.value;
      }
    }

    /** The tips rendered for the current activity. */
    function CurrentTips(): (r: seq<Tips.Tip>)
      reads this
      ensures Tips.IncreaseFluids in r <==> WaterBonus(activity)
    {
      Tips.QuickTips(activity)
    }
  }

  /**
   * Whether the daily water estimate carries the extra 500 ml. It tests
   * the same threshold as the fluids tip, so the bonus is added exactly
   * when that tip is shown.
   */
  predicate WaterBonus(activity: real)
    ensures WaterBonus(activity) <==> Tips.IncreaseFluids in Tips.QuickTips(activity)
  {
    activity >= 1.6
  }
}
