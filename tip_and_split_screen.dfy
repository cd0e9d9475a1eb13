/**
 * The values `TipAndSplitScreen` derives from its four pieces of UI state on
 * every recomposition: the bill text, the people text, the slider value and
 * the round-up switch. The text fields reach the model already parsed: `None`
 * stands for text that `toDoubleOrNull` / `toIntOrNull` rejects.
 */
module Screen {
  import opened Wrappers
  import opened TipCalculation

  /** The four raw inputs the screen holds as remembered state. */
  datatype Inputs = Inputs(amountInput: Option<real>, peopleInput: Option<int>, sliderValue: int, roundUp: bool)

  /** The numbers the screen displays (before currency formatting). */
  datatype Derived = Derived(tipPercent: real, tip: real, grandTotal: real, personTotal: Quotient)

  /** The state the screen starts with: both text fields empty, slider at 0, no round-up. */
  const InitialInputs: Inputs := Inputs(None, None, 0, false)

  /** The bill amount: unparsable text counts as 0.0. */
  function Amount(amountInput: Option<real>): (amount: real)
    ensures amountInput.None? ==> amount == 0.0
    ensures amountInput.Some? ==> amount == amountInput.value
  {
    amountInput.GetOr(0.0)
  }

  /** The number of people: unparsable text counts as 1; a parsed 0 or negative value is kept. */
  function People(peopleInput: Option<int>): (people: int)
    ensures peopleInput.None? ==> people == 1
    ensures peopleInput.Some? ==> people == peopleInput.value
    ensures people == 0 <==> peopleInput == Some(0)
  {
    peopleInput.GetOr(1)
  }

  /**
   * The derivation chain of the screen. The grand total is computed with the
   * default of one person, so it is never split; only the person total
   * divides by the number of people.
   */
  function Derive(inputs: Inputs): (d: Derived)
    ensures d.tipPercent == TipPercent(inputs.sliderValue)
    ensures d.tip == Tip(Amount(inputs.amountInput), d.tipPercent)
    ensures d.grandTotal == Total(Amount(inputs.amountInput), d.tip, roundUp := inputs.roundUp)
    ensures d.personTotal == PersonTotal(d.grandTotal, People(inputs.peopleInput))
  {
    var amount := Amount(inputs.amountInput);
    var people := People(inputs.peopleInput);
    var tipPercent := TipPercent(inputs.sliderValue);
    var tip := Tip(amount, tipPercent);
    var grandTotal := Total(amount, tip, roundUp := inputs.roundUp);
    Derived(tipPercent, tip, grandTotal, PersonTotal(grandTotal, people))
  }

  /** With every input at its default, the tip, grand total and person total are all zero. */
  lemma InitialScreenIsZero()
    ensures Derive(InitialInputs) == Derived(DefaultTipPercent, 0.0, 0.0, Finite(0.0))
  {
  }

  /** Unparsable bill and people text behave exactly like a bill of 0 and one person. */
  lemma UnparsableInputsDefault(sliderValue: int, roundUp: bool)
    ensures Derive(Inputs(None, None, sliderValue, roundUp))
         == Derive(Inputs(Some(0.0), Some(1), sliderValue, roundUp))
    ensures Derive(Inputs(None, None, sliderValue, roundUp)).grandTotal == 0.0
  {
  }

  /**
   * Without round-up the grand total is the bill plus its tip, whatever the
   * number of people; the person total is the grand total split evenly, and
   * equals it for one person.
   */
  lemma GrandTotalIsNotSplit(inputs: Inputs)
    requires !inputs.roundUp
    ensures Derive(inputs).grandTotal == Amount(inputs.amountInput) + Derive(inputs).tip
    ensures People(inputs.peopleInput) != 0 ==>
              Derive(inputs).personTotal.Finite? &&
              Derive(inputs).personTotal.value * People(inputs.peopleInput) as real == Derive(inputs).grandTotal
    ensures People(inputs.peopleInput) == 1 ==> Derive(inputs).personTotal == Finite(Derive(inputs).grandTotal)
  {
  }

  /**
   * The round-up switch changes only the grand total (and so the person
   * total): it raises the grand total to the next whole value, by less than
   * one, and leaves the tip percentage and the tip alone.
   */
  lemma RoundUpChangesOnlyTotal(amountInput: Option<real>, peopleInput: Option<int>, sliderValue: int)
    ensures var plain := Derive(Inputs(amountInput, peopleInput, sliderValue, false));
            var rounded := Derive(Inputs(amountInput, peopleInput, sliderValue, true));
            && rounded.tipPercent == plain.tipPercent
            && rounded.tip == plain.tip
            && IsWhole(rounded.grandTotal)
            && plain.grandTotal <= rounded.grandTotal < plain.grandTotal + 1.0
  {
  }

  /**
   * A people count that parses to zero reaches the division unguarded: the
   * person total is not a finite number, while the grand total is unaffected.
   */
  lemma ZeroPeopleIsNotFinite(inputs: Inputs)
    requires inputs.peopleInput == Some(0)
    ensures !Derive(inputs).personTotal.Finite?
    ensures Derive(inputs).grandTotal == Derive(inputs.(peopleInput := None)).grandTotal
  {
  }

  /**
   * A worked example: a bill of 50 at the 18 % tier, split two ways, gives a
   * tip of 9, a grand total of 59 and 29.5 per person; round-up leaves the
   * whole grand total as it is.
   */
  lemma SplitExample(roundUp: bool)
    ensures Derive(Inputs(Some(50.0), Some(2), 2, roundUp)) == Derived(18.0, 9.0, 59.0, Finite(29.5))
  {
  }
}
