/**
 * Cooking mode: a full-screen walk through a recipe's steps, one step at a
 * time. A cursor `current` names the step shown; the previous/next buttons
 * and the arrow keys move it, Escape and the finish button leave for the
 * recipe page.
 */
module CookingMode {

  // ---------------------------------------------------------------------------
  // The cursor rules
  // ---------------------------------------------------------------------------

  /** `isFirst`. */
  predicate IsFirst(current: nat) {
    current == 0
  }

  /** `isLast`: `currentStep === totalSteps - 1`; with no steps no position is last. */
  predicate IsLast(current: nat, total: nat) {
    current == total - 1
  }

  /** Where `goPrev` leaves the cursor: a no-op on the first step, else one back. */
  function Prev(current: nat): (r: nat)
    ensures IsFirst(current) ==> r == current
    ensures !IsFirst(current) ==> r + 1 == current
  {
    if IsFirst(current) then current else current - 1
  }

  /** Where `goNext` leaves the cursor: a no-op on the last step, else one forward. */
  function Next(current: nat, total: nat): (r: nat)
    ensures IsLast(current, total) ==> r == current
    ensures !IsLast(current, total) ==> r == current + 1
  {
    if IsLast(current, total) then current else current + 1
  }

  /** What a key press asks for in `handleKeyDown`. */
  datatype Action = StepBack | StepForward | Quit | Ignore

  /** The key mapping: ArrowLeft, ArrowRight and Escape, every other key ignored. */
  function KeyAction(key: string): (a: Action)
    ensures a == StepBack <==> key == "ArrowLeft"
    ensures a == StepForward <==> key == "ArrowRight"
    ensures a == Quit <==> key == "Escape"
  {
    if key == "ArrowLeft" then StepBack
    else if key == "ArrowRight" then StepForward
    else if key == "Escape" then Quit
    else Ignore
  }

  /** The cursor after a run of key presses, each handled after the re-render of the one before. */
  function Replay(current: nat, total: nat, actions: seq<Action>): nat
    decreases |actions|
  {
    if actions == [] then current
    else
      var c := match actions[0]
        case StepBack => Prev(current)
        case StepForward => Next(current, total)
        case _ => current;
      Replay(c, total, actions[1..])
  }

  /** With at least one step, no run of key presses takes the cursor off the steps. */
  lemma {:induction false} ReplayStaysOnSteps(current: nat, total: nat, actions: seq<Action>)
    requires current < total
    ensures Replay(current, total, actions) < total
    decreases |actions|
  {
    if actions != [] {
      var c := match actions[0]
        case StepBack => Prev(current)
        case StepForward => Next(current, total)
        case _ => current;
      assert c < total;
      ReplayStaysOnSteps(c, total, actions[1..]);
    }
  }

  /** `n` forward presses move the cursor `n` steps on, stopping at the last step. */
  lemma {:induction false} ForwardPresses(current: nat, total: nat, n: nat)
    requires current < total
    ensures Replay(current, total, seq(n, _ => StepForward)) == if current + n < total then current + n else total - 1
    decreases n
  {
    if n > 0 {
      var rest := seq(n - 1, _ => StepForward);
      assert seq(n, _ => StepForward) == [StepForward] + rest;
      assert seq(n, _ => StepForward)[1..] == rest;
      ForwardPresses(Next(current, total), total, n - 1);
    }
  }

  /**
   * With no steps `isLast` never holds, so ArrowRight still moves the cursor;
   * the empty screen is shown whatever its value (see `ViewOf`).
   */
  lemma NoStepsCursorDrifts(current: nat)
    ensures Next(current, 0) == current + 1
    ensures Replay(0, 0, [StepForward, StepForward]) == 2
  {
    assert [StepForward, StepForward][1..] == [StepForward];
  }

  // ---------------------------------------------------------------------------
  // What the screen shows
  // ---------------------------------------------------------------------------

  /** `progress`: `(currentStep + 1) / totalSteps * 100`, or 0 with no steps. */
  function Progress(current: nat, total: nat): (p: real)
    ensures total == 0 ==> p == 0.0
    ensures current < total ==> 0.0 < p <= 100.0
    ensures current < total ==> (p == 100.0 <==> IsLast(current, total))
  {
    if total > 0 then ((current + 1) as real / total as real) * 100.0 else 0.0
  }

  /** The screen: the empty message, or one step with its progress bar and buttons. */
  datatype View =
    | NoSteps
    | StepView(index: nat, progress: real, prevDisabled: bool, forwardFinishes: bool)

  /** What the component renders for the cursor. */
  function ViewOf(current: nat, total: nat): (v: View)
    ensures v.NoSteps? <==> total == 0
    ensures v.StepView? ==> v.index == current
    ensures v.StepView? && current < total ==> 0.0 < v.progress <= 100.0
    ensures v.StepView? && current < total ==> (v.progress == 100.0 <==> v.forwardFinishes)
    ensures v.StepView? ==> (v.prevDisabled <==> current == 0)
  {
    if total == 0 then NoSteps
    else StepView(current, Progress(current, total), IsFirst(current), IsLast(current, total))
  }

  // ---------------------------------------------------------------------------
  // The component state
  // ---------------------------------------------------------------------------

  /** The cooking-mode screen of one recipe. */
  class CookingSession {
    const recipeId: string
    const total: nat
    var current: nat
    /** The page `goBack` navigated to, once it has. */
    var exit: string

    /** The cursor names a step whenever there is one. */
    ghost predicate Valid()
      reads this
    {
      total > 0 ==> current < total
    }

    /** `useState(0)`: the first step, still on the screen. */
    constructor(recipeId: string, total: nat)
      ensures Valid()
      ensures this.recipeId == recipeId && this.total == total
      ensures current == 0 && exit == ""
    {
      this.recipeId := recipeId;
      this.total := total;
      current := 0;
      exit := "";
    }

    /** `goPrev`. */
    method GoPrev()
      requires Valid()
      modifies this`current
      ensures Valid()
      ensures current == Prev(old(current))
    {
      if !IsFirst(current) {
        current := current - 1;
      }
    }

    /** `goNext`. */
    method GoNext()
      requires Valid()
      modifies this`current
      ensures Valid()
      ensures current == Next(old(current), total)
    {
      if !IsLast(current, total) {
        current := current + 1;
      }
    }

    /** `goBack`: leave for the recipe's page. */
    method GoBack()
      modifies this`exit
      ensures exit == "/recettes/" + recipeId
    {
      exit := "/recettes/" + recipeId;
    }

    /** `handleKeyDown`. */
    method KeyDown(key: string)
      requires Valid()
      modifies this`current, this`exit
      ensures Valid()
      ensures current == Replay(old(current), total, [KeyAction(key)])
      ensures exit == if KeyAction(key) == Quit then "/recettes/" + recipeId else old(exit)
    {
      var action := KeyAction(key);
      if action == StepBack {
        GoPrev();
      } else if action == StepForward {
        GoNext();
      } else if action == Quit {
        GoBack();
      }
    }

    /** The forward button of the step screen: "Terminer" on the last step leaves, "Suivant" advances. */
    method ForwardButton()
      requires Valid() && total > 0
      modifies this`current, this`exit
      ensures Valid()
      ensures old(IsLast(current, total)) ==> current == old(current) && exit == "/recettes/" + recipeId
      ensures !old(IsLast(current, total)) ==> current == old(current) + 1 && exit == old(exit)
    {
      if IsLast(current, total) {
        GoBack();
      } else {
        GoNext();
      }
    }
  }
}
