/** The step navigator of the property wizard (`useAddPropertyWizard`) and of the apartment
    wizard (`useAddApartmentWizard`, an identical copy of the same hook): a step index over a
    fixed number of steps, with Formik's `touched` record. Validation is an input: the error record
    Formik's `validateForm` produced for the active step. */
module Navigator {

  /** The navigator's state. `touched` maps a field key to whether its error is shown. */
  datatype Wizard = Wizard(index: int, total: int, touched: map<string, bool>)

  /** The index lies on one of the steps. */
  predicate Valid(w: Wizard) {
    0 <= w.index < w.total
  }

  /** A fresh wizard opens on the first step with nothing touched. */
  function Start(total: int): (w: Wizard)
    requires total > 0
    ensures Valid(w) && w.index == 0 && w.touched == map[]
  {
    Wizard(0, total, map[])
  }

  predicate IsFirstStep(w: Wizard) {
    w.index == 0
  }

  predicate IsLastStep(w: Wizard) {
    w.index == w.total - 1
  }

  /** The touched record Formik receives after a failed advance: every erroring key, set. */
  function TouchAll(errors: map<string, string>): (t: map<string, bool>)
    ensures t.Keys == errors.Keys
    ensures forall k :: k in t ==> t[k]
  {
    map k | k in errors :: true
  }

  /** What a navigation handler returns: the next state and the handler's boolean result. */
  datatype Moved = Moved(wizard: Wizard, moved: bool)

  /** `goToNextStep`, given the errors of the active step's validation. */
  function GoToNextStep(w: Wizard, errors: map<string, string>): (r: Moved)
    ensures r.moved <==> |errors| == 0 && w.index < w.total - 1
    ensures r.wizard.index == if r.moved then w.index + 1 else w.index
    ensures r.wizard.total == w.total
    ensures |errors| == 0 ==> r.wizard.touched == w.touched
    ensures |errors| > 0 ==> r.wizard.touched.Keys == errors.Keys
    ensures |errors| > 0 ==> forall k :: k in r.wizard.touched ==> r.wizard.touched[k]
  {
    if |errors| == 0 then
      if w.index < w.total - 1 then Moved(w.(index := w.index + 1), true)
      else Moved(w, false)
    else
      Moved(w.(touched := TouchAll(errors)), false)
  }

  /** `goToPreviousStep`: no validation is consulted. */
  function GoToPreviousStep(w: Wizard): (r: Moved)
    ensures r.moved <==> w.index > 0
    ensures r.wizard == if r.moved then w.(index := w.index - 1) else w
  {
    if w.index > 0 then Moved(w.(index := w.index - 1), true) else Moved(w, false)
  }

  /** What the header's back control does. */
  datatype Back = Close | Retreat(wizard: Wizard)

  /** The header's back control closes the wizard on the first screen and otherwise goes back
      one screen without validating. */
  function BackPress(w: Wizard): (b: Back)
    requires Valid(w)
    ensures b.Close? <==> IsFirstStep(w)
    ensures b.Retreat? ==> b.wizard.index == w.index - 1 && b.wizard.touched == w.touched
  {
    if IsFirstStep(w) then Close else Retreat(GoToPreviousStep(w).wizard)
  }

  /** The review screen's `onEditStep(idx)`: the index is set with no validation and no check
      that `idx` names a step. */
  function JumpTo(w: Wizard, idx: int): (r: Wizard)
    ensures r.index == idx && r.total == w.total && r.touched == w.touched
  {
    w.(index := idx)
  }

  /** The progress percentage shown in the header, `(index + 1) / total * 100`. */
  function Progress(w: Wizard): real
    requires w.total > 0
  {
    (w.index + 1) as real / w.total as real * 100.0
  }

  /** On a valid state the percentage lies in (0, 100]. */
  lemma ProgressBounds(w: Wizard)
    requires Valid(w)
    ensures 0.0 < Progress(w) <= 100.0
  {
    var q := (w.index + 1) as real / w.total as real;
    assert q * w.total as real == (w.index + 1) as real;
    assert q <= 1.0;
  }

  /** The percentage is 100 exactly on the last step. */
  lemma ProgressFullIffLast(w: Wizard)
    requires Valid(w)
    ensures Progress(w) == 100.0 <==> IsLastStep(w)
  {
    var q := (w.index + 1) as real / w.total as real;
    assert q * w.total as real == (w.index + 1) as real;
    if q == 1.0 {
      assert (w.index + 1) as real == w.total as real;
    }
  }

  /** A later step always shows a strictly larger percentage. */
  lemma ProgressStrictlyIncreasing(w: Wizard, i: int)
    requires Valid(w) && w.index < i < w.total
    ensures Progress(w) < Progress(JumpTo(w, i))
  {
    var t := w.total as real;
    var a := (w.index + 1) as real / t;
    var b := (i + 1) as real / t;
    assert a * t == (w.index + 1) as real;
    assert b * t == (i + 1) as real;
    assert a < b;
  }

  /** A user action on the navigator. */
  datatype Action = Next(errors: map<string, string>) | Previous

  function Apply(w: Wizard, a: Action): Wizard {
    match a
    case Next(errors) => GoToNextStep(w, errors).wizard
    case Previous => GoToPreviousStep(w).wizard
  }

  /** Next and Previous keep the index on a step. */
  lemma ApplyKeepsValid(w: Wizard, a: Action)
    requires Valid(w)
    ensures Valid(Apply(w, a)) && Apply(w, a).total == w.total
  {
  }

  /** Drive a wizard through a sequence of Next/Previous actions from the first step; the index
      never leaves [0, total - 1]. */
  method Run(total: int, actions: seq<Action>) returns (w: Wizard)
    requires total > 0
    ensures Valid(w) && w.total == total
    ensures |actions| == 0 ==> w.index == 0
  {
    w := Start(total);
    var i := 0;
    while i < |actions|
      invariant 0 <= i <= |actions|
      invariant Valid(w) && w.total == total
      invariant i == 0 ==> w.index == 0
    {
      w := Apply(w, actions[i]);
      i := i + 1;
    }
  }

  /** Counting: without errors every Next advances until the last step, so `total - 1`
      error-free Nexts from the first step reach the last step. */
  lemma {:induction false} CleanNextsReachLast(w: Wizard, n: nat)
    requires Valid(w) && w.index + n == w.total - 1
    ensures IsLastStep(NextTimes(w, n))
    decreases n
  {
    if n > 0 {
      CleanNextsReachLast(GoToNextStep(w, map[]).wizard, n - 1);
    }
  }

  /** `n` error-free Nexts. */
  function NextTimes(w: Wizard, n: nat): Wizard
    decreases n
  {
    if n == 0 then w else NextTimes(GoToNextStep(w, map[]).wizard, n - 1)
  }
}
