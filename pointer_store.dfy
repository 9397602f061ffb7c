/**
 * The pointer position store and the style properties that mirror it,
 * as values: what the Viewport class keeps in its records and its rule.
 */
module PointerStore {
  import opened Coordinates
  import opened PxFormat
  import opened CssVars
  import opened InitialCss

  /** Every pointer type has a position. */
  ghost predicate Complete(positions: map<PointerType, PointerPosition>)
  {
    forall t :: t in positions
  }

  /** The store right after construction: every pointer type off screen. */
  function InitialPositions(): (positions: map<PointerType, PointerPosition>)
    ensures Complete(positions)
    ensures forall t :: positions[t] == NewPointerPosition()
  {
    var positions := map[Mouse := NewPointerPosition(), Pen := NewPointerPosition(), Touch := NewPointerPosition()];
    EveryPointerTypeIsKey(positions);
    positions
  }

  lemma EveryPointerTypeIsKey<V>(m: map<PointerType, V>)
    requires Mouse in m && Pen in m && Touch in m
    ensures forall t :: t in m
  {
    forall t ensures t in m {
      match t
      case Mouse =>
      case Pen =>
      case Touch =>
    }
  }

  /**
   * Each of the twelve custom properties holds the matching stored
   * coordinate, formatted as `<v>px`.
   */
  ghost predicate Mirrors(properties: map<string, string>, positions: map<PointerType, PointerPosition>)
  {
    && Complete(positions)
    && forall k :: VarName(k) in properties && properties[VarName(k)] == Px(Coordinate(positions[k.pointerType], k.space, k.axis))
  }

  /**
   * The properties after the four writes a move of pointer type `t` to `p`
   * makes, in their order: exactly the four variables of `t` are written,
   * each holding the new coordinate as `<v>px`, and every other property is
   * as before.
   */
  function MoveProperties(properties: map<string, string>, t: PointerType, p: PointerPosition): (m: map<string, string>)
    ensures m.Keys == properties.Keys + VariablesOf(t)
    ensures forall space, axis :: m[VarName(VarKey(space, t, axis))] == Px(Coordinate(p, space, axis))
    ensures forall name :: name in properties && name !in VariablesOf(t) ==> m[name] == properties[name]
  {
    var m := properties
      [CssPageVar(t, X) := Px(p.pageX)]
      [CssPageVar(t, Y) := Px(p.pageY)]
      [CssViewportVar(t, X) := Px(p.layoutViewportX)]
      [CssViewportVar(t, Y) := Px(p.layoutViewportY)];
    FourWritesOfMove(properties, t, p, m);
    m
  }

  /** The four variables of pointer type `t`. */
  function VariablesOf(t: PointerType): set<string>
  {
    {CssPageVar(t, X), CssPageVar(t, Y), CssViewportVar(t, X), CssViewportVar(t, Y)}
  }

  /** The variables of `t` are exactly the names of the keys with pointer type `t`. */
  lemma VariablesOfAreItsKeys(t: PointerType, k: VarKey)
    ensures VarName(k) in VariablesOf(t) <==> k.pointerType == t
  {
    if VarName(k) in VariablesOf(t) {
      var k' :| k' in {VarKey(Page, t, X), VarKey(Page, t, Y), VarKey(LayoutViewport, t, X), VarKey(LayoutViewport, t, Y)}
        && VarName(k) == VarName(k');
      VarNameInjective(k, k');
    }
  }

  /**
   * The four writes of a move of `t` to `p` write exactly the variables of
   * `t`, each with its coordinate, and leave every other property as it was.
   */
  lemma FourWritesOfMove(properties: map<string, string>, t: PointerType, p: PointerPosition, m: map<string, string>)
    requires m == properties
      [CssPageVar(t, X) := Px(p.pageX)]
      [CssPageVar(t, Y) := Px(p.pageY)]
      [CssViewportVar(t, X) := Px(p.layoutViewportX)]
      [CssViewportVar(t, Y) := Px(p.layoutViewportY)]
    ensures m.Keys == properties.Keys + VariablesOf(t)
    ensures forall space, axis :: m[VarName(VarKey(space, t, axis))] == Px(Coordinate(p, space, axis))
    ensures forall name :: name in properties && name !in VariablesOf(t) ==> m[name] == properties[name]
  {
    DistinctVariablesOfType(t);
    FourWrites(properties,
      CssPageVar(t, X), CssPageVar(t, Y), CssViewportVar(t, X), CssViewportVar(t, Y),
      Px(p.pageX), Px(p.pageY), Px(p.layoutViewportX), Px(p.layoutViewportY));
    forall space, axis
      ensures VarName(VarKey(space, t, axis)) in m && m[VarName(VarKey(space, t, axis))] == Px(Coordinate(p, space, axis))
    {
      WrittenCoordinate(m, t, p, space, axis);
    }
  }

  /** The variable of `t` in `space` along `axis` is the one written with that coordinate. */
  lemma WrittenCoordinate(m: map<string, string>, t: PointerType, p: PointerPosition, space: CoordinateSpace, axis: Axis)
    requires CssPageVar(t, X) in m && m[CssPageVar(t, X)] == Px(p.pageX)
    requires CssPageVar(t, Y) in m && m[CssPageVar(t, Y)] == Px(p.pageY)
    requires CssViewportVar(t, X) in m && m[CssViewportVar(t, X)] == Px(p.layoutViewportX)
    requires CssViewportVar(t, Y) in m && m[CssViewportVar(t, Y)] == Px(p.layoutViewportY)
    ensures VarName(VarKey(space, t, axis)) in m
    ensures m[VarName(VarKey(space, t, axis))] == Px(Coordinate(p, space, axis))
  {
    if space == Page {
      assert VarName(VarKey(space, t, axis)) == CssPageVar(t, axis);
    } else {
      assert VarName(VarKey(space, t, axis)) == CssViewportVar(t, axis);
    }
  }

  /** Four updates of distinct keys: each key holds its value, every other key is untouched. */
  lemma FourWrites(m: map<string, string>, a: string, b: string, c: string, d: string,
                   va: string, vb: string, vc: string, vd: string)
    requires a != b && a != c && a != d && b != c && b != d && c != d
    ensures m[a := va][b := vb][c := vc][d := vd].Keys == m.Keys + {a, b, c, d}
    ensures m[a := va][b := vb][c := vc][d := vd][a] == va
    ensures m[a := va][b := vb][c := vc][d := vd][b] == vb
    ensures m[a := va][b := vb][c := vc][d := vd][c] == vc
    ensures m[a := va][b := vb][c := vc][d := vd][d] == vd
    ensures forall name :: name in m && name !in {a, b, c, d} ==>
      m[a := va][b := vb][c := vc][d := vd][name] == m[name]
  {
  }

  /** The four variables of one pointer type are four different names. */
  lemma DistinctVariablesOfType(t: PointerType)
    ensures CssPageVar(t, X) != CssPageVar(t, Y)
    ensures CssPageVar(t, X) != CssViewportVar(t, X) && CssPageVar(t, X) != CssViewportVar(t, Y)
    ensures CssPageVar(t, Y) != CssViewportVar(t, X) && CssPageVar(t, Y) != CssViewportVar(t, Y)
    ensures CssViewportVar(t, X) != CssViewportVar(t, Y)
  {
    ParseVarNameComplete(VarKey(Page, t, X));
    ParseVarNameComplete(VarKey(Page, t, Y));
    ParseVarNameComplete(VarKey(LayoutViewport, t, X));
    ParseVarNameComplete(VarKey(LayoutViewport, t, Y));
  }

  /** The initial rule mirrors the initial store. */
  lemma InitialMirrors(properties: map<string, string>, positions: map<PointerType, PointerPosition>)
    requires properties == InitialProperties() && positions == InitialPositions()
    ensures Mirrors(properties, positions)
  {
    InitialPropertiesMatchNewPosition();
  }

  /**
   * Moving pointer type `t` to `p` and writing its four variables keeps
   * the rule a mirror of the store.
   */
  lemma MoveKeepsMirror(properties: map<string, string>, positions: map<PointerType, PointerPosition>, t: PointerType, p: PointerPosition)
    requires Mirrors(properties, positions)
    ensures Mirrors(MoveProperties(properties, t, p), positions[t := p])
  {
    var m := MoveProperties(properties, t, p);
    var positions' := positions[t := p];
    forall k
      ensures VarName(k) in m && m[VarName(k)] == Px(Coordinate(positions'[k.pointerType], k.space, k.axis))
    {
      VariablesOfAreItsKeys(t, k);
      if k.pointerType == t {
        assert k == VarKey(k.space, t, k.axis);
      }
    }
  }
}
