/**
 * The pointer-tracking state of the `Viewport` class: one mutable position
 * record per pointer type, the style rule that mirrors them as custom
 * properties, and the pointer-down listener registry.
 */
module Viewports {
  import opened Coordinates
  import opened PxFormat
  import opened CssVars
  import opened InitialCss
  import opened PointerStore
  import opened PointerDownRegistry

  /** The style rule adopted on the document root; `setProperty` writes one property. */
  class StyleRule {
    var properties: map<string, string>

    constructor (properties: map<string, string>)
      ensures this.properties == properties
    {
      this.properties := properties;
    }

    method SetProperty(name: string, value: string)
      modifies this
      ensures properties == old(properties)[name := value]
    {
      properties := properties[name := value];
    }
  }

  /** The mutable (sealed) record kept for one pointer type. */
  class PointerRecord {
    var pageX: int
    var pageY: int
    var layoutViewportX: int
    var layoutViewportY: int

    /** A record created from the off-screen initial position. */
    constructor ()
      ensures Value() == NewPointerPosition()
    {
      var p := NewPointerPosition();
      pageX, pageY := p.pageX, p.pageY;
      layoutViewportX, layoutViewportY := p.layoutViewportX, p.layoutViewportY;
    }

    function Value(): PointerPosition
      reads this
    {
      PointerPosition(pageX, pageY, layoutViewportX, layoutViewportY)
    }
  }

  /** The positions held by the records of a store, as values. */
  function StoredPositions(records: map<PointerType, PointerRecord>): map<PointerType, PointerPosition>
    reads records.Values
  {
    map t | t in records :: records[t].Value()
  }

  /**
   * Three distinct records created at the sentinel, one per pointer type,
   * form a complete store whose positions are the initial ones.
   */
  lemma NewStore(records: map<PointerType, PointerRecord>, mouse: PointerRecord, pen: PointerRecord, touch: PointerRecord)
    requires records == map[Mouse := mouse, Pen := pen, Touch := touch]
    requires mouse != pen && pen != touch && mouse != touch
    requires mouse.Value() == NewPointerPosition() && pen.Value() == NewPointerPosition() && touch.Value() == NewPointerPosition()
    ensures forall t :: t in records
    ensures forall t, t' :: t != t' ==> records[t] != records[t']
    ensures records.Values == {mouse, pen, touch}
    ensures StoredPositions(records) == InitialPositions()
  {
    EveryPointerTypeIsKey(records);
    forall t, t' | t != t'
      ensures records[t] != records[t']
    {
      match t
      case Mouse =>
      case Pen =>
      case Touch =>
    }
    forall t
      ensures StoredPositions(records)[t] == InitialPositions()[t]
    {
      match t
      case Mouse =>
      case Pen =>
      case Touch =>
    }
  }

  /** A pointer event as the two handlers see it. */
  datatype PointerEvent = PointerEvent(pointerType: PointerType, pageX: int, pageY: int, isPrimary: bool)

  class Viewport {
    /** Whether the viewport was constructed with pointer tracking on. */
    const pointerTracking: bool
    /** The adopted root rule; null when tracking is off. */
    const styleRule: StyleRule?
    /** One record per pointer type when tracking is on; no records otherwise. */
    const pointerPositions: map<PointerType, PointerRecord>
    /** The registry, in insertion order. */
    var pointerDownListeners: seq<Registration>
    /** The identity the next registration's entry receives. */
    var nextId: nat

    ghost predicate Valid()
      reads this, styleRule, pointerPositions.Values, SignalsOf(pointerDownListeners)
    {
      TrackingValid() && IdsBelow(pointerDownListeners, nextId) && NoneAborted(pointerDownListeners)
    }

    /** The pointer-tracking part of the invariant, which the registry operations leave alone. */
    ghost predicate TrackingValid()
      reads styleRule, pointerPositions.Values
    {
      && (pointerTracking ==>
            && styleRule != null
            && (forall t :: t in pointerPositions)
            && (forall t, t' :: t in pointerPositions && t' in pointerPositions && t != t' ==>
                  pointerPositions[t] != pointerPositions[t']))
      && (!pointerTracking ==> styleRule == null && pointerPositions == map[])
      && (styleRule != null ==> pointerTracking && Mirrors(styleRule.properties, Positions()))
    }

    /** The stored position of every tracked pointer type, as values. */
    function Positions(): map<PointerType, PointerPosition>
      reads pointerPositions.Values
    {
      StoredPositions(pointerPositions)
    }

    /**
     * With tracking on, the initial rule is adopted and every pointer type
     * starts at the off-screen sentinel; with tracking off there is neither
     * a rule nor records. The registry starts empty.
     */
    constructor (pointerTracking: bool)
      ensures Valid()
      ensures this.pointerTracking == pointerTracking
      ensures pointerTracking ==>
        && styleRule != null && fresh(styleRule)
        && styleRule.properties == InitialProperties()
        && fresh(pointerPositions.Values)
        && Positions() == InitialPositions()
      ensures !pointerTracking ==> styleRule == null && Positions() == map[]
      ensures pointerDownListeners == [] && nextId == 0
    {
      this.pointerTracking := pointerTracking;
      pointerDownListeners := [];
      nextId := 0;
      if pointerTracking {
        var rule := new StyleRule(InitialProperties());
        var mouse := new PointerRecord();
        var pen := new PointerRecord();
        var touch := new PointerRecord();
        var records := map[Mouse := mouse, Pen := pen, Touch := touch];
        NewStore(records, mouse, pen, touch);
        styleRule := rule;
        pointerPositions := records;
      } else {
        styleRule := null;
        pointerPositions := map[];
      }
      new;
      InitiallyValid();
    }

    /** The state the constructor leaves satisfies the invariant. */
    lemma InitiallyValid()
      requires pointerTracking ==>
        && styleRule != null && styleRule.properties == InitialProperties()
        && (forall t :: t in pointerPositions)
        && (forall t, t' :: t != t' ==> pointerPositions[t] != pointerPositions[t'])
        && Positions() == InitialPositions()
      requires !pointerTracking ==> styleRule == null && pointerPositions == map[]
      requires pointerDownListeners == [] && nextId == 0
      ensures Valid()
    {
      if pointerTracking {
        InitialMirrors(styleRule.properties, Positions());
      }
      assert IdsBelow(pointerDownListeners, nextId);
    }

    /**
     * `#onPointerMove`: overwrites the record of `t` in place with the page
     * position and the position relative to the layout viewport, then, when
     * the rule is present, writes the four variables of `t` from the record.
     */
    method OnPointerMove(t: PointerType, pageX: int, pageY: int, scrollX: int, scrollY: int)
      requires Valid() && pointerTracking
      modifies pointerPositions[t], styleRule
      ensures Valid()
      ensures Positions() == old(Positions())[t := PositionAt(pageX, pageY, scrollX, scrollY)]
      ensures styleRule != null
      ensures styleRule.properties == MoveProperties(old(styleRule.properties), t, PositionAt(pageX, pageY, scrollX, scrollY))
    {
      ghost var before := Positions();
      ghost var properties := styleRule.properties;
      ghost var position := PositionAt(pageX, pageY, scrollX, scrollY);
      MoveRecord(t, pageX, pageY, scrollX, scrollY);
      PushVariables(t);
      MovedValid(properties, before, t, position);
    }

    /** The in-place update of `t`'s record: the page position and the position relative to the layout viewport. */
    method MoveRecord(t: PointerType, pageX: int, pageY: int, scrollX: int, scrollY: int)
      requires pointerTracking && (forall t' :: t' in pointerPositions)
      requires forall t', t'' :: t' in pointerPositions && t'' in pointerPositions && t' != t'' ==>
        pointerPositions[t'] != pointerPositions[t'']
      modifies pointerPositions[t]
      ensures Positions() == old(Positions())[t := PositionAt(pageX, pageY, scrollX, scrollY)]
    {
      ghost var before := Positions();
      var record := pointerPositions[t];
      record.pageX := pageX;
      record.pageY := pageY;
      record.layoutViewportX := pageX - scrollX;
      record.layoutViewportY := pageY - scrollY;
      StoreUpdated(t, before, PositionAt(pageX, pageY, scrollX, scrollY));
    }

    /** Writing the moved position to both the store and the rule keeps the invariant. */
    lemma MovedValid(properties: map<string, string>, before: map<PointerType, PointerPosition>, t: PointerType, p: PointerPosition)
      requires pointerTracking && styleRule != null
      requires forall t' :: t' in pointerPositions
      requires forall t', t'' :: t' in pointerPositions && t'' in pointerPositions && t' != t'' ==>
        pointerPositions[t'] != pointerPositions[t'']
      requires IdsBelow(pointerDownListeners, nextId) && NoneAborted(pointerDownListeners)
      requires Mirrors(properties, before)
      requires styleRule.properties == MoveProperties(properties, t, p)
      requires Positions() == before[t := p]
      ensures Valid()
    {
      MoveKeepsMirror(properties, before, t, p);
    }

    /**
     * The body of the asynchronous style update: when the rule is present,
     * writes the four variables of `t` from its record, in order.
     */
    method PushVariables(t: PointerType)
      requires t in pointerPositions
      modifies styleRule
      ensures styleRule != null ==>
        styleRule.properties == MoveProperties(old(styleRule.properties), t, pointerPositions[t].Value())
      ensures Positions() == old(Positions())
    {
      if styleRule != null {
        var p := pointerPositions[t].Value();
        styleRule.SetProperty(CssPageVar(t, X), Px(p.pageX));
        styleRule.SetProperty(CssPageVar(t, Y), Px(p.pageY));
        styleRule.SetProperty(CssViewportVar(t, X), Px(p.layoutViewportX));
        styleRule.SetProperty(CssViewportVar(t, Y), Px(p.layoutViewportY));
      }
    }

    /** After the record of `t` alone has changed, the store differs from `before` only at `t`. */
    lemma StoreUpdated(t: PointerType, before: map<PointerType, PointerPosition>, p: PointerPosition)
      requires pointerTracking && (forall t' :: t' in pointerPositions)
      requires forall t' :: t' in pointerPositions && t' != t ==> t' in before && pointerPositions[t'].Value() == before[t']
      requires pointerPositions[t].Value() == p
      ensures Positions() == before[t := p]
    {
    }

    /**
     * The pointermove handler, with the debounced call made directly:
     * only a primary pointer of a tracking viewport moves the store.
     */
    method HandlePointerMove(event: PointerEvent, scrollX: int, scrollY: int)
      requires Valid()
      modifies pointerPositions.Values, styleRule
      ensures Valid()
      ensures pointerTracking && event.isPrimary ==>
        && Positions() == old(Positions())[event.pointerType := PositionAt(event.pageX, event.pageY, scrollX, scrollY)]
        && styleRule != null
        && styleRule.properties ==
             MoveProperties(old(styleRule.properties), event.pointerType, PositionAt(event.pageX, event.pageY, scrollX, scrollY))
      ensures !(pointerTracking && event.isPrimary) ==>
        && Positions() == old(Positions())
        && (styleRule != null ==> styleRule.properties == old(styleRule.properties))
    {
      if pointerTracking {
        if !event.isPrimary {
          return;
        }
        OnPointerMove(event.pointerType, event.pageX, event.pageY, scrollX, scrollY);
      }
    }

    /**
     * The pointerdown handler: for a primary pointer of a tracking viewport,
     * walks the registry in insertion order, deleting each `once` entry
     * before its listener is called, and calls every listener with the
     * position of the event. The calls made are returned in order.
     */
    method HandlePointerDown(event: PointerEvent, scrollX: int, scrollY: int) returns (calls: seq<Invocation>)
      requires Valid()
      modifies this`pointerDownListeners
      ensures Valid()
      ensures pointerTracking && event.isPrimary ==>
        && calls == Deliveries(old(pointerDownListeners), PositionAt(event.pageX, event.pageY, scrollX, scrollY))
        && pointerDownListeners == Persistent(old(pointerDownListeners))
      ensures !(pointerTracking && event.isPrimary) ==>
        calls == [] && pointerDownListeners == old(pointerDownListeners)
    {
      calls := [];
      if !pointerTracking || !event.isPrimary {
        return;
      }
      var position := PositionAt(event.pageX, event.pageY, scrollX, scrollY);
      PersistentKeepsIdsBelow(pointerDownListeners, nextId);
      PersistentMembers(pointerDownListeners);
      FilterKeepsNoneAborted(pointerDownListeners, Persistent(pointerDownListeners));
      calls := Deliver(position);
    }

    /**
     * The delivery loop of the pointerdown handler: walks the live set in
     * insertion order; an entry registered with `once` is deleted before its
     * listener is called; every listener is called with a copy of `position`.
     */
    method Deliver(position: PointerPosition) returns (calls: seq<Invocation>)
      modifies this`pointerDownListeners
      ensures calls == Deliveries(old(pointerDownListeners), position)
      ensures pointerDownListeners == Persistent(old(pointerDownListeners))
    {
      calls := [];
      ghost var registered := pointerDownListeners;
      ghost var visited := 0;
      var cursor := 0;
      while cursor < |pointerDownListeners|
        invariant 0 <= visited <= |registered|
        invariant |pointerDownListeners| - cursor == |registered| - visited
        invariant pointerDownListeners == Live(registered, visited)
        invariant cursor == |Persistent(registered[..visited])|
        invariant calls == Deliveries(registered[..visited], position)
        decreases |pointerDownListeners| - cursor
      {
        WalkStep(registered, visited, position);
        var entry := pointerDownListeners[cursor];
        if entry.options.once {
          pointerDownListeners := pointerDownListeners[..cursor] + pointerDownListeners[cursor + 1..];
        } else {
          cursor := cursor + 1;
        }
        calls := calls + [Invocation(entry.id, entry.listener, position)];
        visited := visited + 1;
      }
      assert registered[..visited] == registered;
    }

    /**
     * `addPointerDownListener`: nothing happens when the signal is already
     * aborted; otherwise a fresh entry, distinct from every entry present,
     * is appended, even when the same listener is already registered.
     */
    method AddPointerDownListener(listener: ListenerId, options: ListenerOptions)
      requires Valid()
      modifies this`pointerDownListeners, this`nextId
      ensures Valid()
      ensures options.signal != null && options.signal.aborted ==>
        pointerDownListeners == old(pointerDownListeners) && nextId == old(nextId)
      ensures !(options.signal != null && options.signal.aborted) ==>
        && pointerDownListeners == old(pointerDownListeners) + [Registration(old(nextId), listener, options)]
        && nextId == old(nextId) + 1
        && forall e :: e in old(pointerDownListeners) ==> e.id != old(nextId)
    {
      if options.signal != null {
        if options.signal.aborted {
          return;
        }
      }
      AppendFreshKeepsIdsBelow(pointerDownListeners, nextId, Registration(nextId, listener, options));
      AppendKeepsNoneAborted(pointerDownListeners, Registration(nextId, listener, options));
      pointerDownListeners := pointerDownListeners + [Registration(nextId, listener, options)];
      nextId := nextId + 1;
    }

    /**
     * Aborting signal `s`: it becomes aborted and, if it was not already,
     * the abort observer each registration attached deletes that
     * registration's entry. Either way no entry of `s` is left.
     */
    method Abort(s: Signal)
      requires Valid()
      modifies s, this`pointerDownListeners
      ensures Valid()
      ensures s.aborted
      ensures pointerDownListeners ==
        if old(s.aborted) then old(pointerDownListeners) else WithoutSignal(old(pointerDownListeners), s)
      ensures forall e :: e in pointerDownListeners ==> e.options.signal != s
    {
      if !s.aborted {
        var kept := WithoutSignal(pointerDownListeners, s);
        WithoutSignalKeepsIdsBelow(pointerDownListeners, s, nextId);
        WithoutSignalMembers(pointerDownListeners, s);
        FilterKeepsNoneAborted(pointerDownListeners, kept);
        s.aborted := true;
        pointerDownListeners := kept;
      }
    }
  }
}
