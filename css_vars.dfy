/**
 * Names of the twelve custom properties that carry pointer coordinates,
 * and the initial style text that declares them off screen.
 */
module CssVars {
  import opened Wrappers
  import opened Coordinates

  const VAR_PREFIX: string := "ixi"

  /** One custom property: a coordinate space, a pointer type and an axis. */
  datatype VarKey = VarKey(space: CoordinateSpace, pointerType: PointerType, axis: Axis)

  /** `--ixi-page-<pointerType>-<axis>`: the page coordinate of pointer type `t` along `a`. */
  function CssPageVar(t: PointerType, a: Axis): string
  {
    "--" + VAR_PREFIX + "-page-" + PointerTypeName(t) + "-" + AxisName(a)
  }

  /** `--ixi-viewport-<pointerType>-<axis>`: the layout-viewport coordinate of `t` along `a`. */
  function CssViewportVar(t: PointerType, a: Axis): string
  {
    "--" + VAR_PREFIX + "-viewport-" + PointerTypeName(t) + "-" + AxisName(a)
  }

  /** The variable for a key: the page variable or the viewport variable. */
  function VarName(k: VarKey): string
  {
    match k.space
    case Page => CssPageVar(k.pointerType, k.axis)
    case LayoutViewport => CssViewportVar(k.pointerType, k.axis)
  }

  /** The word a coordinate space has in variable names. */
  function SpaceName(space: CoordinateSpace): string
  {
    match space
    case Page => "page"
    case LayoutViewport => "viewport"
  }

  /** `Some(rest)` when `s` is `prefix + rest`. */
  function StripPrefix(prefix: string, s: string): (r: Option<string>)
    ensures r.Some? <==> prefix <= s
    ensures r.Some? ==> s == prefix + r.value
  {
    if prefix <= s then Some(s[|prefix|..]) else None
  }

  function ParseSpace(s: string): Option<(CoordinateSpace, string)>
  {
    match StripPrefix("page-", s)
    case Some(rest) => Some((Page, rest))
    case None =>
      match StripPrefix("viewport-", s)
      case Some(rest) => Some((LayoutViewport, rest))
      case None => None
  }

  function ParsePointerType(s: string): Option<(PointerType, string)>
  {
    match StripPrefix("mouse-", s)
    case Some(rest) => Some((Mouse, rest))
    case None =>
      match StripPrefix("pen-", s)
      case Some(rest) => Some((Pen, rest))
      case None =>
        match StripPrefix("touch-", s)
        case Some(rest) => Some((Touch, rest))
        case None => None
  }

  function ParseAxis(s: string): Option<Axis>
  {
    if s == "x" then Some(X) else if s == "y" then Some(Y) else None
  }

  /**
   * Recognises `--ixi-(page|viewport)-(mouse|pen|touch)-(x|y)` and returns
   * the key it names; every other string gives None.
   */
  function ParseVarName(s: string): Option<VarKey>
  {
    match StripPrefix("--" + VAR_PREFIX + "-", s)
    case None => None
    case Some(rest) =>
      match ParseSpace(rest)
      case None => None
      case Some((space, rest')) =>
        match ParsePointerType(rest')
        case None => None
        case Some((t, rest'')) =>
          match ParseAxis(rest'')
          case None => None
          case Some(a) => Some(VarKey(space, t, a))
  }

  lemma ParseSpaceOf(space: CoordinateSpace, rest: string)
    ensures ParseSpace(SpaceName(space) + "-" + rest) == Some((space, rest))
  {
    var s := SpaceName(space) + "-" + rest;
    if space == LayoutViewport {
      assert s[0] == 'v';
      assert !("page-" <= s);
      assert s == "viewport-" + rest;
    } else {
      assert s == "page-" + rest;
    }
  }

  lemma ParsePointerTypeOf(t: PointerType, rest: string)
    ensures ParsePointerType(PointerTypeName(t) + "-" + rest) == Some((t, rest))
  {
    var s := PointerTypeName(t) + "-" + rest;
    match t
    case Mouse =>
      assert s == "mouse-" + rest;
    case Pen =>
      assert s[0] == 'p';
      assert !("mouse-" <= s);
      assert s == "pen-" + rest;
    case Touch =>
      assert s[0] == 't';
      assert !("mouse-" <= s) && !("pen-" <= s);
      assert s == "touch-" + rest;
  }

  /** Every variable name is recognised, as the key it was built from. */
  lemma ParseVarNameComplete(k: VarKey)
    ensures ParseVarName(VarName(k)) == Some(k)
  {
    VarNameParts(k);
    ParseVarNameOfParts(k.space, k.pointerType, k.axis, VarName(k));
  }

  lemma ParseVarNameOfParts(space: CoordinateSpace, t: PointerType, a: Axis, name: string)
    requires name == "--" + VAR_PREFIX + "-" + SpaceName(space) + "-" + PointerTypeName(t) + "-" + AxisName(a)
    ensures ParseVarName(name) == Some(VarKey(space, t, a))
  {
    var afterSpace := PointerTypeName(t) + "-" + AxisName(a);
    Regroup("--" + VAR_PREFIX + "-", SpaceName(space), "-", PointerTypeName(t), AxisName(a));
    ParseSpaceOf(space, afterSpace);
    ParsePointerTypeOf(t, AxisName(a));
  }

  /** Regrouping a name's parts: the prefix, then the rest as one string. */
  lemma Regroup(prefix: string, space: string, dash: string, pointerType: string, axis: string)
    ensures prefix + space + dash + pointerType + dash + axis == prefix + (space + dash + (pointerType + dash + axis))
  {
  }

  lemma ParseSpaceSound(s: string, space: CoordinateSpace, rest: string)
    requires ParseSpace(s) == Some((space, rest))
    ensures s == SpaceName(space) + "-" + rest
  {
  }

  lemma ParsePointerTypeSound(s: string, t: PointerType, rest: string)
    requires ParsePointerType(s) == Some((t, rest))
    ensures s == PointerTypeName(t) + "-" + rest
  {
  }

  /** Only the twelve variable names are recognised: a recognised string is the name of its key. */
  lemma ParseVarNameSound(s: string, k: VarKey)
    requires ParseVarName(s) == Some(k)
    ensures s == VarName(k)
  {
    var prefix := "--" + VAR_PREFIX + "-";
    var rest := StripPrefix(prefix, s).value;
    var (space, rest') := ParseSpace(rest).value;
    var (t, rest'') := ParsePointerType(rest').value;
    ParseSpaceSound(rest, space, rest');
    ParsePointerTypeSound(rest', t, rest'');
    assert rest'' == AxisName(k.axis) && space == k.space && t == k.pointerType;
    assert s == prefix + (SpaceName(space) + "-" + (PointerTypeName(t) + "-" + AxisName(k.axis)));
    VarNameParts(k);
  }

  /** Every name is the prefix, then the space, pointer type and axis words joined by '-'. */
  lemma VarNameParts(k: VarKey)
    ensures VarName(k) == ("--" + VAR_PREFIX + "-") + (SpaceName(k.space) + "-" + (PointerTypeName(k.pointerType) + "-" + AxisName(k.axis)))
  {
    var tail := PointerTypeName(k.pointerType) + "-" + AxisName(k.axis);
    match k.space
    case Page =>
      assert VarName(k) == "--" + VAR_PREFIX + "-page-" + tail;
    case LayoutViewport =>
      assert VarName(k) == "--" + VAR_PREFIX + "-viewport-" + tail;
  }

  /** `_cssPageVar` names the page variable of its pointer type and axis, and nothing else. */
  lemma CssPageVarRecognised(t: PointerType, a: Axis)
    ensures ParseVarName(CssPageVar(t, a)) == Some(VarKey(Page, t, a))
  {
    ParseVarNameComplete(VarKey(Page, t, a));
  }

  /** `_cssViewportVar` names the viewport variable of its pointer type and axis, and nothing else. */
  lemma CssViewportVarRecognised(t: PointerType, a: Axis)
    ensures ParseVarName(CssViewportVar(t, a)) == Some(VarKey(LayoutViewport, t, a))
  {
    ParseVarNameComplete(VarKey(LayoutViewport, t, a));
  }

  /** Distinct (space, pointer type, axis) triples give distinct names. */
  lemma VarNameInjective(k: VarKey, k': VarKey)
    requires VarName(k) == VarName(k')
    ensures k == k'
  {
    ParseVarNameComplete(k);
    ParseVarNameComplete(k');
  }
}
