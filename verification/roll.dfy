/**
 * The resolution rule of `_rollAspect`: the guard that refuses to roll, the
 * missing-total default, and the low-roll threshold that degrades the die.
 *
 * The random roll is taken as a parameter (`total`), so the rule is a pure
 * function. The aspect value read from the actor is an `Option<string>`:
 * `None` is an undefined or null attribute.
 */
module Roll {
  import opened Wrappers
  import Dice

  /** Totals at or below this degrade the die. */
  const Threshold: int := 3

  /** What one click on an aspect's roll button amounts to. */
  datatype Resolution =
    | Refused
      // warned "die exhausted"; nothing rolled, nothing written
    | Rolled(notation: string, total: int, success: bool, newDie: string)
      // `notation` is what was handed to the dice roller; `newDie` the aspect afterwards

  /** The dice notation for one die of the given kind, e.g. "1d8". */
  function Notation(die: string): (r: string)
    ensures |r| == |die| + 1 && r[0] == '1' && r[1..] == die
  {
    "1" + die
  }

  /** The guard: an empty or missing aspect, the dash, and the marker cannot be rolled. */
  predicate Refuses(die: Option<string>)
  {
    die.None? || die.value == "" || die.value == "-" || die.value == Dice.Exhausted
  }

  /** Resolve one roll of the aspect holding `die` against the roller's `total`. */
  function Resolve(die: Option<string>, total: Option<int>): (r: Resolution)
    ensures r.Refused? <==> die.None? || die.value == "" || die.value == "-" || die.value == Dice.Exhausted
    ensures r.Rolled? ==> r.notation == "1" + die.value
    ensures r.Rolled? ==> (total.None? ==> r.total == 0) && (total.Some? ==> r.total == total.value)
    ensures r.Rolled? ==> (r.success <==> r.total > 3)
    ensures r.Rolled? && r.success ==> r.newDie == die.value
    ensures r.Rolled? && !r.success ==> r.newDie == Dice.Degrade(die.value)
  {
    if Refuses(die) then Refused
    else
      var t := total.GetOr(0);
      if t <= Threshold then Rolled(Notation(die.value), t, false, Dice.Degrade(die.value))
      else Rolled(Notation(die.value), t, true, die.value)
  }

  /** The aspect's value once the click has been handled. */
  function AspectAfter(die: Option<string>, total: Option<int>): (r: Option<string>)
    ensures Refuses(die) ==> r == die
    ensures !Refuses(die) && total.GetOr(0) > Threshold ==> r == die
    ensures !Refuses(die) && total.GetOr(0) <= Threshold ==> r == Some(Dice.Degrade(die.value))
  {
    match Resolve(die, total)
    case Refused => die
    case Rolled(_, _, _, next) => Some(next)
  }

  /** The threshold is inclusive: a 3 fails and degrades, a 4 succeeds and keeps the die. */
  lemma ThresholdExamples()
    ensures Resolve(Some("d8"), Some(3)) == Rolled("1d8", 3, false, "d6")
    ensures Resolve(Some("d8"), Some(4)) == Rolled("1d8", 4, true, "d8")
  {
  }

  /** A failed d4 leaves the marker. */
  lemma LastDieExample()
    ensures Resolve(Some("d4"), Some(1)) == Rolled("1d4", 1, false, "d0")
  {
  }

  /** A missing total counts as a failing 0. */
  lemma MissingTotalExample()
    ensures Resolve(Some("d12"), None) == Rolled("1d12", 0, false, "d10")
  {
  }

  /** The marker and a missing aspect are refused whatever the roller would have said. */
  lemma RefusedExamples()
    ensures Resolve(Some("d0"), Some(10)) == Refused
    ensures Resolve(None, Some(10)) == Refused
  {
  }

  /** A die off the table is still rolled, and a low total leaves it as it was. */
  lemma UnknownDieIsRolled(die: string, total: Option<int>)
    requires die !in Dice.Order && die !in {"", "-", "d0"}
    ensures Resolve(Some(die), total).Rolled?
    ensures AspectAfter(Some(die), total) == Some(die)
  {
  }

  /** Resolution never moves a die up the table: it keeps or loses steps, and loses one exactly on a failed roll of a table die. */
  lemma ResolveNeverRaises(die: string, total: Option<int>)
    requires Resolve(Some(die), total).Rolled?
    ensures Dice.StepsLeft(Resolve(Some(die), total).newDie) <= Dice.StepsLeft(die)
    ensures die in Dice.Order && !Resolve(Some(die), total).success
            ==> Dice.StepsLeft(Resolve(Some(die), total).newDie) == Dice.StepsLeft(die) - 1
  {
    if die in Dice.Order {
      Dice.DegradeLowersSteps(die);
    }
  }

  /** The aspect after a run of clicks, one roller total per click. */
  function AfterRolls(die: Option<string>, totals: seq<Option<int>>): Option<string>
    decreases |totals|
  {
    if |totals| == 0 then die else AfterRolls(AspectAfter(die, totals[0]), totals[1..])
  }

  /**
   * A table die that fails at least as many rolls in a row as it has steps
   * left ends exhausted, and its next click is refused.
   */
  lemma {:induction false} FailuresExhaust(die: string, totals: seq<Option<int>>)
    requires die in Dice.Order || die == Dice.Exhausted
    requires |totals| >= Dice.StepsLeft(die)
    requires forall i :: 0 <= i < |totals| ==> totals[i].GetOr(0) <= Threshold
    ensures AfterRolls(Some(die), totals) == Some(Dice.Exhausted)
    ensures Refuses(AfterRolls(Some(die), totals))
    decreases |totals|
  {
    if |totals| > 0 {
      var next := AspectAfter(Some(die), totals[0]);
      if die == Dice.Exhausted {
        Dice.OrderWellFormed();
        assert next == Some(die);
      } else {
        Dice.DegradeLowersSteps(die);
        assert next == Some(Dice.Degrade(die));
      }
      FailuresExhaust(next.value, totals[1..]);
    }
  }

  /** A run of successful rolls leaves the aspect as it was. */
  lemma {:induction false} SuccessesKeep(die: Option<string>, totals: seq<Option<int>>)
    requires forall i :: 0 <= i < |totals| ==> totals[i].GetOr(0) > Threshold
    ensures AfterRolls(die, totals) == die
    decreases |totals|
  {
    if |totals| > 0 {
      SuccessesKeep(die, totals[1..]);
    }
  }
}
