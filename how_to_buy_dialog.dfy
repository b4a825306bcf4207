// The three-step "how to buy" dialog: a step counter clamped to 1..3 by
// its back and next buttons and reset when the dialog is closed.
module HowToBuyDialog {
  import opened Common

  const TotalSteps: int := 3

  /** One step's text keys and its external link, when it has one. */
  datatype Step = Step(key: string, link: Option<string>)

  const Steps: seq<Step> := [
    Step("step1", Some("https://phantom.com/download")),
    Step("step2", None),
    Step("step3", Some("https://letsbonk.fun/token/5wyk5pXfKYFCT7vJWcbwjZMyakfK5xs2kRSQb6Gobonk"))
  ]

  predicate InRange(step: int)
  {
    1 <= step <= TotalSteps
  }

  /** `nextStep`'s guard: one step on, except at the last. */
  function Advance(step: int): (r: int)
    requires InRange(step)
    ensures InRange(r)
    ensures step < TotalSteps ==> r == step + 1
    ensures step == TotalSteps ==> r == step
  {
    if step < TotalSteps then step + 1 else step
  }

  /** `prevStep`'s guard: one step back, except at the first. */
  function Retreat(step: int): (r: int)
    requires InRange(step)
    ensures InRange(r)
    ensures step > 1 ==> r == step - 1
    ensures step == 1 ==> r == step
  {
    if step > 1 then step - 1 else step
  }

  /** Back undoes next wherever next moved, and next undoes back wherever back moved. */
  lemma BackUndoesNext(step: int)
    requires InRange(step)
    ensures step < TotalSteps ==> Retreat(Advance(step)) == step
    ensures step > 1 ==> Advance(Retreat(step)) == step
  {
  }

  /** The step after pressing next `k` times. */
  function AdvanceTimes(step: int, k: nat): (r: int)
    requires InRange(step)
    ensures InRange(r) && step <= r
  {
    if k == 0 then step else Advance(AdvanceTimes(step, k - 1))
  }

  /** Pressing next `k` times saturates at the last step. */
  lemma {:induction false} AdvanceTimesSaturates(step: int, k: nat)
    requires InRange(step)
    ensures AdvanceTimes(step, k) == if step + k < TotalSteps then step + k else TotalSteps
  {
    if k > 0 {
      AdvanceTimesSaturates(step, k - 1);
    }
  }

  /** The back button is disabled on the first step; the forward button is Finish on the last. */
  datatype Primary = NextButton | FinishButton
  datatype Footer = Footer(backDisabled: bool, primary: Primary)

  function FooterFor(step: int): (f: Footer)
    requires InRange(step)
    ensures f.backDisabled <==> step == 1
    ensures f.primary == FinishButton <==> step == TotalSteps
  {
    Footer(step == 1, if step < TotalSteps then NextButton else FinishButton)
  }

  /** Only the first and last steps link out, to the wallet download and to the token's page. */
  lemma StepLinks()
    ensures |Steps| == TotalSteps
    ensures Steps[0].link == Some("https://phantom.com/download")
    ensures Steps[1].link.None?
    ensures Steps[2].link == Some("https://letsbonk.fun/token/5wyk5pXfKYFCT7vJWcbwjZMyakfK5xs2kRSQb6Gobonk")
  {
  }

  /** The dialog's step, with the parent's `onClose` recorded as a call count. */
  class Dialog {
    var isOpen: bool
    var currentStep: int
    var closeCalls: nat

    predicate Valid()
      reads this
    {
      InRange(currentStep)
    }

    constructor (isOpen: bool)
      ensures Valid() && currentStep == 1 && closeCalls == 0 && this.isOpen == isOpen
    {
      this.isOpen := isOpen;
      currentStep := 1;
      closeCalls := 0;
    }

    /** What is on screen: nothing while closed, else the current step and its footer. */
    function View(): (r: Option<(Step, Footer)>)
      requires Valid()
      reads this
      ensures r.None? <==> !isOpen
      ensures r.Some? ==> r.value.0 == Steps[currentStep - 1] && r.value.1 == FooterFor(currentStep)
    {
      if !isOpen then None else Some((Steps[currentStep - 1], FooterFor(currentStep)))
    }

    method NextStep()
      requires Valid()
      modifies this
      ensures Valid() && currentStep == Advance(old(currentStep))
      ensures isOpen == old(isOpen) && closeCalls == old(closeCalls)
    {
      if currentStep < TotalSteps {
        currentStep := currentStep + 1;
      }
    }

    method PrevStep()
      requires Valid()
      modifies this
      ensures Valid() && currentStep == Retreat(old(currentStep))
      ensures isOpen == old(isOpen) && closeCalls == old(closeCalls)
    {
      if currentStep > 1 {
        currentStep := currentStep - 1;
      }
    }

    /** `handleClose`: back to the first step, and the parent is told once. */
    method HandleClose()
      modifies this
      ensures Valid() && currentStep == 1 && closeCalls == old(closeCalls) + 1
      ensures isOpen == old(isOpen)
    {
      currentStep := 1;
      closeCalls := closeCalls + 1;
    }

    /** The footer's forward button: Next below the last step, Finish (which closes) on it. */
    method PressPrimary()
      requires Valid()
      modifies this
      ensures Valid()
      ensures FooterFor(old(currentStep)).primary == NextButton ==>
                currentStep == old(currentStep) + 1 && closeCalls == old(closeCalls)
      ensures FooterFor(old(currentStep)).primary == FinishButton ==>
                currentStep == 1 && closeCalls == old(closeCalls) + 1
      ensures isOpen == old(isOpen)
    {
      if currentStep < TotalSteps {
        NextStep();
      } else {
        HandleClose();
      }
    }

    /** The parent shows or hides the dialog; the step is kept. */
    method SetOpen(open: bool)
      modifies this
      ensures isOpen == open && currentStep == old(currentStep) && closeCalls == old(closeCalls)
    {
      isOpen := open;
    }
  }
}
