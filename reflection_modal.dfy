/** The reflection modal shown after a charged violation: a 30-second
    countdown that keeps the dialog from being dismissed, independent of when
    the reflection text arrives. */
module ReflectionModal {
  import Countdown

  /** Seconds the student must wait before the dialog can be dismissed. */
  const ReadingSeconds := 30

  datatype Reflection = Reflection(title: string, message: string, suggestion: string)

  /** The text shown until a generated reflection arrives. */
  const DefaultReflection := Reflection(
    "Integridad Académica",
    "Hemos detectado un comportamiento que podría comprometer la integridad de la evaluación.",
    "Por favor, continúa la evaluación sin utilizar recursos externos no autorizados.")

  class Modal {
    var isOpen: bool
    var counter: int
    var canClose: bool
    /** Whether the one-second interval is installed. */
    var timerRunning: bool
    var reflection: Reflection

    ghost predicate Valid()
      reads this
    {
      && 0 <= counter <= ReadingSeconds
      && (canClose ==> counter == 0 && !timerRunning)
      && (timerRunning ==> counter >= 1 && !canClose)
    }

    constructor ()
      ensures Valid()
      ensures !isOpen && counter == ReadingSeconds && !canClose && !timerRunning
      ensures reflection == DefaultReflection
    {
      isOpen := false;
      counter := ReadingSeconds;
      canClose := false;
      timerRunning := false;
      reflection := DefaultReflection;
    }

    /** The parent sets `isOpen`; the effect keyed on it resets the countdown
        and starts the interval when it becomes true, and clears the interval
        when it becomes false. */
    method SetOpen(open: bool)
      requires Valid()
      modifies this
      ensures Valid() && isOpen == open && reflection == old(reflection)
      ensures open && !old(isOpen) ==> counter == ReadingSeconds && !canClose && timerRunning
      ensures !open && old(isOpen) ==>
        counter == old(counter) && canClose == old(canClose) && !timerRunning
      ensures open == old(isOpen) ==>
        counter == old(counter) && canClose == old(canClose) && timerRunning == old(timerRunning)
    {
      if open && !isOpen {
        counter := ReadingSeconds;
        canClose := false;
        timerRunning := true;
      } else if !open && isOpen {
        timerRunning := false;
      }
      isOpen := open;
    }

    /** One interval callback; nothing happens when no interval is installed. */
    method Tick()
      requires Valid()
      modifies this
      ensures Valid() && isOpen == old(isOpen) && reflection == old(reflection)
      ensures old(timerRunning) ==>
        (counter, timerRunning) == Countdown.Run(old(counter), true, 1)
        && canClose == !timerRunning
      ensures old(timerRunning) && old(counter) > 1 ==> counter == old(counter) - 1 && !canClose
      ensures !old(timerRunning) ==>
        counter == old(counter) && canClose == old(canClose) && !timerRunning
    {
      if timerRunning {
        var t := Countdown.Step(counter);
        counter := t.next;
        if t.stopped {
          timerRunning := false;
          canClose := true;
        }
      }
    }

    /** The generated reflection arrives; the countdown is not affected. */
    method ReceiveReflection(r: Reflection)
      requires Valid()
      modifies this`reflection
      ensures Valid() && reflection == r
    {
      reflection := r;
    }

    /** The dialog asks to close (escape, overlay click): `onClose` is called
        only once the countdown has finished. */
    method RequestClose() returns (onCloseCalled: bool)
      ensures onCloseCalled == canClose
    {
      onCloseCalled := canClose;
    }

    /** The action button is enabled only once the countdown has finished. */
    function ActionEnabled(): (enabled: bool)
      reads this
      requires Valid()
      ensures enabled ==> counter == 0 && !timerRunning
    {
      canClose
    }
  }

  /** Counted from opening, dismissal becomes possible exactly with the 30th
      tick: `canClose` is the countdown's stopped state. */
  lemma DismissalAfterThirtyTicks(k: nat)
    ensures var (c, running) := Countdown.Run(ReadingSeconds, true, k);
      (k < ReadingSeconds ==> running && c == ReadingSeconds - k)
      && (k >= ReadingSeconds <==> !running)
  {
    Countdown.RunFrom(ReadingSeconds, k);
  }
}
