/**
 * The layout toggle: each press of Space moves the layout controller singleton
 * to its next mode, wrapping around after the last one. The first press only
 * creates the controller.
 */
module LayoutToggle {
  import opened Grid

  /** The singleton the layout spawner reads: the current mode and how many modes there are. */
  datatype LayoutController = LayoutController(layoutMode: int, modeCount: int)

  const DefaultModeCount := 2

  /** The mode count actually used: a non-positive count stands for 2. */
  function EffectiveCount(c: LayoutController): (r: int)
    ensures r > 0
    ensures c.modeCount > 0 ==> r == c.modeCount
  {
    if c.modeCount <= 0 then DefaultModeCount else c.modeCount
  }

  /**
   * The controller after one press: the count is normalised and the mode
   * moves to mode + 1 modulo the count, with 32-bit addition and the
   * remainder taking the sign of the dividend.
   */
  function Toggled(c: LayoutController): (r: LayoutController)
    requires IsInt32(c.layoutMode)
    ensures r.modeCount == EffectiveCount(c)
    ensures 0 <= c.layoutMode < IntMax ==> 0 <= r.layoutMode < r.modeCount
  {
    var n := EffectiveCount(c);
    LayoutController(CsRem(Wrap32(c.layoutMode + 1), n), n)
  }

  /** A controller whose mode is one of its modes. */
  predicate InRange(c: LayoutController)
  {
    0 < c.modeCount <= IntMax && 0 <= c.layoutMode < c.modeCount
  }

  /** The next mode counted without any remainder: one up, or back to 0 after the last mode. */
  function Next(c: LayoutController): (r: LayoutController)
    ensures InRange(c) ==> InRange(r) && r.modeCount == c.modeCount
  {
    c.(layoutMode := if c.layoutMode + 1 == c.modeCount then 0 else c.layoutMode + 1)
  }

  /** A non-zero multiple of a positive number is at least that number away from zero. */
  lemma {:induction false} MultipleBounds(n: int, q: int)
    requires n > 0
    ensures q >= 1 ==> n * q >= n
    ensures q <= -1 ==> n * q <= -n
    decreases if q >= 0 then q else -q
  {
    if q > 1 {
      MultipleBounds(n, q - 1);
      assert n * q == n * (q - 1) + n;
    } else if q < -1 {
      MultipleBounds(n, q + 1);
      assert n * q == n * (q + 1) - n;
    }
  }

  /** The remainder of a non-negative number below the divisor is that number. */
  lemma RemSmall(a: int, n: int)
    requires 0 <= a < n
    ensures CsRem(a, n) == a
  {
    MultipleBounds(n, a / n);
  }

  /** The remainder of the divisor by itself is zero. */
  lemma RemSelf(n: int)
    requires n > 0
    ensures CsRem(n, n) == 0
  {
    MultipleBounds(n, n / n - 1);
  }

  /** For an in-range controller a press moves to the next mode and stays in range. */
  lemma ToggledNext(c: LayoutController)
    requires InRange(c)
    ensures Toggled(c) == Next(c) && InRange(Next(c))
  {
    var m, n := c.layoutMode, c.modeCount;
    assert Wrap32(m + 1) == m + 1 by {
      assert 0 <= m + 1 - IntMin < 0x1_0000_0000;
    }
    if m + 1 == n {
      RemSelf(n);
    } else {
      RemSmall(m + 1, n);
    }
  }

  /** `k` presses in a row, from an in-range controller. */
  function TogglePresses(c: LayoutController, k: nat): (r: LayoutController)
    requires InRange(c)
    ensures InRange(r) && r.modeCount == c.modeCount
    decreases k
  {
    if k == 0 then c else TogglePresses(Next(c), k - 1)
  }

  /** Presses compose: `a` presses then `b` presses are `a + b` presses. */
  lemma {:induction false} PressesCompose(c: LayoutController, a: nat, b: nat)
    requires InRange(c)
    ensures TogglePresses(TogglePresses(c, a), b) == TogglePresses(c, a + b)
    decreases a
  {
    if a > 0 {
      PressesCompose(Next(c), a - 1, b);
    }
  }

  /** Below the last mode, `k` presses move the mode up by `k`. */
  lemma {:induction false} PressesCount(c: LayoutController, k: nat)
    requires InRange(c) && c.layoutMode + k < c.modeCount
    ensures TogglePresses(c, k) == c.(layoutMode := c.layoutMode + k)
    decreases k
  {
    if k > 0 {
      PressesCount(Next(c), k - 1);
    }
  }

  /** From any mode, the presses up to the count end in mode 0. */
  lemma ReachesZero(c: LayoutController)
    requires InRange(c)
    ensures TogglePresses(c, c.modeCount - c.layoutMode) == c.(layoutMode := 0)
  {
    var m, n := c.layoutMode, c.modeCount;
    var last := c.(layoutMode := n - 1);
    PressesCount(c, n - 1 - m);
    PressesCompose(c, n - 1 - m, 1);
    assert TogglePresses(last, 1) == TogglePresses(Next(last), 0);
  }

  /**
   * The modes cycle: from any mode the presses up to the count end in mode 0,
   * and as many presses as there are modes bring the controller back.
   */
  lemma ModesCycle(c: LayoutController)
    requires InRange(c)
    ensures TogglePresses(c, c.modeCount - c.layoutMode) == c.(layoutMode := 0)
    ensures TogglePresses(c, c.modeCount) == c
  {
    var k, m, n := c.modeCount - c.layoutMode, c.layoutMode, c.modeCount;
    var zero := c.(layoutMode := 0);
    ReachesZero(c);
    PressesCount(zero, m);
    assert TogglePresses(zero, m) == c;
    PressesCompose(c, k, m);
    assert k + m == n;
    assert TogglePresses(c, n) == TogglePresses(zero, m);
  }

  /** The slot of the world that holds the controller singleton, if it has been created. */
  class LayoutWorld {
    var controller: Option<LayoutController>

    constructor ()
      ensures controller.None?
    {
      controller := None;
    }

    /**
     * One frame. Without a Space press nothing changes. Without a controller
     * one is created in mode 1 of 2 and that is all; otherwise the controller
     * is replaced by its toggled value.
     */
    method OnUpdate(spacePressed: bool)
      requires controller.Some? ==> IsInt32(controller.value.layoutMode)
      modifies this
      ensures !spacePressed ==> controller == old(controller)
      ensures spacePressed && old(controller).None? ==> controller == Some(LayoutController(1, 2))
      ensures spacePressed && old(controller).Some? ==> controller == Some(Toggled(old(controller).value))
    {
      if !spacePressed {
        return;
      }
      if controller.None? {
        controller := Some(LayoutController(1, DefaultModeCount));
        return;
      }
      var lc := controller.value;
      if lc.modeCount <= 0 {
        lc := lc.(modeCount := 2);
      }
      lc := lc.(layoutMode := CsRem(Wrap32(lc.layoutMode + 1), lc.modeCount));
      controller := Some(lc);
    }
  }
}
