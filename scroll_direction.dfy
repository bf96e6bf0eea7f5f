/**
 * The scroll-direction detector behind the hiding header: a direction that
 * changes only after the page moved by at least a threshold, and that is always
 * "up" at the top of the page.
 */
module ScrollDirections {
  import opened Wrappers

  datatype Direction = Up | Down

  /** The hook's options; `None` is an option left undefined. */
  datatype ScrollOptions = ScrollOptions(threshold: Option<int>, disabled: Option<bool>)

  const DEFAULT_THRESHOLD: int := 10

  function Abs(x: int): (r: nat)
    ensures r == x || r == -x
  {
    if x < 0 then -x else x
  }

  /** The hook's state: the reported direction (`None` for null) and the position
      the last accepted move ended at. */
  class ScrollDirectionHook {
    const threshold: int
    const disabled: bool
    var scrollDirection: Option<Direction>
    var lastScrollY: int

    constructor(options: ScrollOptions)
      ensures threshold == options.threshold.GetOr(DEFAULT_THRESHOLD) && disabled == options.disabled.GetOr(false)
      ensures scrollDirection.None? && lastScrollY == 0
    {
      threshold := options.threshold.GetOr(DEFAULT_THRESHOLD);
      disabled := options.disabled.GetOr(false);
      scrollDirection := None;
      lastScrollY := 0;
    }

    /** A reported "down" was accepted away from the top of the page. */
    ghost predicate DownBelowTop()
      reads this
    {
      scrollDirection == Some(Down) ==> lastScrollY > 0
    }

    /** The effect: a disabled hook reports no direction; otherwise the current
        position becomes the reference. */
    method Effect(windowScrollY: int)
      modifies this
      ensures disabled ==> scrollDirection.None? && lastScrollY == old(lastScrollY)
      ensures !disabled ==> scrollDirection == old(scrollDirection) && lastScrollY == windowScrollY
    {
      if disabled {
        scrollDirection := None;
        return;
      }
      lastScrollY := windowScrollY;
    }

    /** `updateScrollDirection` at position `scrollY`. */
    method UpdateScrollDirection(scrollY: int)
      modifies this
      ensures Abs(scrollY - old(lastScrollY)) >= threshold ==> lastScrollY == scrollY
      ensures Abs(scrollY - old(lastScrollY)) < threshold ==> lastScrollY == old(lastScrollY)
      ensures scrollY <= 0 ==> scrollDirection == Some(Up)
      ensures scrollY > 0 && Abs(scrollY - old(lastScrollY)) >= threshold ==>
        scrollDirection == Some(if scrollY - old(lastScrollY) > 0 then Down else Up)
      ensures scrollY > 0 && Abs(scrollY - old(lastScrollY)) < threshold ==> scrollDirection == old(scrollDirection)
      ensures old(DownBelowTop()) ==> DownBelowTop()
    {
      var diff := scrollY - lastScrollY;
      if Abs(diff) >= threshold {
        var newDirection := if diff > 0 then Down else Up;
        scrollDirection := Some(newDirection);
        lastScrollY := scrollY;
      }
      if scrollY <= 0 {
        scrollDirection := Some(Up);
      }
    }
  }
}
