/** The desktop icon of src/components/interfaces/RetroOS/Icon.tsx: a click counter
    with a reset timer that tells a single click from a double click. */
module RetroIcon {

  /** Which of the icon's callbacks a click invoked. */
  datatype ClickOutcome = Selected | DoubleClicked

  class Icon {
    var clickCount: int
    /** The 400 ms reset timer is scheduled and has not been cleared. */
    var timerPending: bool

    ghost predicate Valid()
      reads this
    {
      (clickCount == 0 || clickCount == 1) && (clickCount == 1 <==> timerPending)
    }

    constructor ()
      ensures Valid() && clickCount == 0 && !timerPending
    {
      clickCount := 0;
      timerPending := false;
    }

    /** `handleClick`: the first click selects and starts the timer; a click while the
        timer runs cancels it and is a double click. */
    method HandleClick() returns (outcome: ClickOutcome)
      requires Valid()
      modifies this
      ensures Valid()
      ensures old(clickCount) == 0 ==> outcome == Selected && clickCount == 1 && timerPending
      ensures old(clickCount) != 0 ==> outcome == DoubleClicked && clickCount == 0 && !timerPending
    {
      if clickCount == 0 {
        outcome := Selected;
        clickCount := 1;
        timerPending := true;
      } else {
        timerPending := false;
        clickCount := 0;
        outcome := DoubleClicked;
      }
    }

    /** The reset timer fires. */
    method TimerExpires()
      requires Valid() && timerPending
      modifies this
      ensures Valid() && clickCount == 0 && !timerPending
    {
      clickCount := 0;
      timerPending := false;
    }
  }

  /** Two clicks within the timer: one selection, then one double click. */
  method ClickClick() returns (first: ClickOutcome, second: ClickOutcome, count: int)
    ensures first == Selected && second == DoubleClicked && count == 0
  {
    var icon := new Icon();
    first := icon.HandleClick();
    second := icon.HandleClick();
    count := icon.clickCount;
  }

  /** Two clicks with the timer expiring in between: two selections. */
  method ClickExpireClick() returns (first: ClickOutcome, second: ClickOutcome, count: int)
    ensures first == Selected && second == Selected && count == 1
  {
    var icon := new Icon();
    first := icon.HandleClick();
    icon.TimerExpires();
    second := icon.HandleClick();
    count := icon.clickCount;
  }
}
