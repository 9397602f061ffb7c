/**
 * Clients of the Viewport class: what a caller can conclude from the
 * contracts alone, for a tracked mouse move and for pointer-down listeners
 * registered with `once` and with a signal.
 */
module ViewportScenarios {
  import opened Coordinates
  import opened PxFormat
  import opened CssVars
  import opened PointerStore
  import opened PointerDownRegistry
  import opened Viewports

  method MouseMoveScenario() {
    var viewport := new Viewport(true);
    MouseMoveSteps(viewport);
  }

  /** A primary mouse at page (150, 300) with the window scrolled by (10, 20), then a non-primary pen. */
  method MouseMoveSteps(viewport: Viewport)
    requires viewport.Valid() && viewport.pointerTracking
    requires viewport.Positions() == InitialPositions()
    modifies viewport.pointerPositions.Values, viewport.styleRule
  {
    ghost var before := viewport.styleRule.properties;
    viewport.HandlePointerMove(PointerEvent(Mouse, 150, 300, true), 10, 20);
    var p := PointerPosition(150, 300, 140, 280);
    assert viewport.Positions()[Mouse] == p;
    assert viewport.Positions()[Pen] == NewPointerPosition();
    assert viewport.styleRule.properties[VarName(VarKey(Page, Mouse, X))] == Px(150);
    assert viewport.styleRule.properties[VarName(VarKey(LayoutViewport, Mouse, Y))] == Px(280);

    viewport.HandlePointerMove(PointerEvent(Pen, 1, 2, false), 10, 20);
    assert viewport.Positions()[Mouse] == p;
    assert viewport.Positions()[Pen] == NewPointerPosition();
  }

  /** The text of one variable name and of one pixel value. */
  method VariableTextScenario() {
    assert VarName(VarKey(Page, Mouse, X)) == "--ixi-page-mouse-x";
    assert NatDigits(150) == "150";
    assert Px(150) == "150px";
  }

  method OnceListenerScenario() {
    var viewport := new Viewport(true);
    OnceListenerSteps(viewport);
  }

  /** Two listeners, the first registered with `once`, and two primary pointer-downs. */
  method OnceListenerSteps(viewport: Viewport)
    requires viewport.Valid() && viewport.pointerTracking
    requires viewport.pointerDownListeners == [] && viewport.nextId == 0
    modifies viewport
  {
    var r0 := Registration(0, 7, ListenerOptions(true, null));
    var r1 := Registration(1, 8, ListenerOptions(false, null));
    viewport.AddPointerDownListener(7, ListenerOptions(true, null));
    viewport.AddPointerDownListener(8, ListenerOptions(false, null));
    assert viewport.pointerDownListeners == [r0, r1];
    FirstPointerDownSteps(viewport, r0, r1);
  }

  /** The first primary pointer-down calls both listeners in order and deletes the `once` entry. */
  method FirstPointerDownSteps(viewport: Viewport, r0: Registration, r1: Registration)
    requires viewport.Valid() && viewport.pointerTracking
    requires r0 == Registration(0, 7, ListenerOptions(true, null))
    requires r1 == Registration(1, 8, ListenerOptions(false, null))
    requires viewport.pointerDownListeners == [r0, r1]
    modifies viewport
  {
    var position := PositionAt(5, 6, 0, 0);
    var first := viewport.HandlePointerDown(PointerEvent(Touch, 5, 6, true), 0, 0);
    assert [r0, r1][..1] == [r0] && [r0][..0] == [];
    assert Deliveries([r0], position) == [Invocation(0, 7, position)];
    assert Deliveries([r0, r1], position) == [Invocation(0, 7, position), Invocation(1, 8, position)];
    assert Persistent([r0]) == [];
    assert Persistent([r0, r1]) == [r1];
    assert first == [Invocation(0, 7, position), Invocation(1, 8, position)];
    assert viewport.pointerDownListeners == [r1];
    SecondPointerDownSteps(viewport, r1);
  }

  /** After the `once` entry is gone, a second primary pointer-down calls only the persistent listener. */
  method SecondPointerDownSteps(viewport: Viewport, r1: Registration)
    requires viewport.Valid() && viewport.pointerTracking
    requires r1 == Registration(1, 8, ListenerOptions(false, null))
    requires viewport.pointerDownListeners == [r1]
    modifies viewport
  {
    var position := PositionAt(5, 6, 0, 0);
    var second := viewport.HandlePointerDown(PointerEvent(Touch, 5, 6, true), 0, 0);
    assert [r1][..0] == [];
    assert second == [Invocation(1, 8, position)];
    assert viewport.pointerDownListeners == [r1];
  }

  method AbortScenario() {
    var viewport := new Viewport(true);
    var signal := new Signal();
    AbortSteps(viewport, signal);
  }

  /** A listener registered with a signal is deleted by its abort; registering with it afterwards does nothing. */
  method AbortSteps(viewport: Viewport, signal: Signal)
    requires viewport.Valid() && viewport.pointerTracking
    requires viewport.pointerDownListeners == [] && viewport.nextId == 0
    requires !signal.aborted
    modifies viewport, signal
  {
    var r0 := Registration(0, 7, ListenerOptions(false, signal));
    var r1 := Registration(1, 8, ListenerOptions(false, null));
    viewport.AddPointerDownListener(7, ListenerOptions(false, signal));
    viewport.AddPointerDownListener(8, ListenerOptions(false, null));
    assert viewport.pointerDownListeners == [r0, r1];
    AbortAndReregisterSteps(viewport, signal, r0, r1);
  }

  /** Aborting the signal drops its entry; registering with it again is a no-op. */
  method AbortAndReregisterSteps(viewport: Viewport, signal: Signal, r0: Registration, r1: Registration)
    requires viewport.Valid() && viewport.pointerTracking
    requires r0 == Registration(0, 7, ListenerOptions(false, signal))
    requires r1 == Registration(1, 8, ListenerOptions(false, null))
    requires viewport.pointerDownListeners == [r0, r1]
    modifies viewport, signal
  {
    viewport.Abort(signal);
    assert [r0, r1][..1] == [r0] && [r0][..0] == [];
    assert WithoutSignal([r0], signal) == [];
    assert WithoutSignal([r0, r1], signal) == [r1];
    assert viewport.pointerDownListeners == [r1];

    viewport.AddPointerDownListener(7, ListenerOptions(false, signal));
    assert viewport.pointerDownListeners == [r1];
  }

  /** A second abort of the same signal changes nothing, and after either abort no entry of the signal is left. */
  method AbortTwiceSteps(viewport: Viewport, signal: Signal)
    requires viewport.Valid()
    modifies viewport, signal
  {
    viewport.Abort(signal);
    var afterFirst := viewport.pointerDownListeners;
    viewport.Abort(signal);
    assert viewport.pointerDownListeners == afterFirst;
    assert forall e :: e in viewport.pointerDownListeners ==> e.options.signal != signal;
  }
}
