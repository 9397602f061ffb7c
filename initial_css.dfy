/**
 * The style text a tracking viewport adopts at construction: one rule on
 * the document root declaring each of the twelve coordinate variables at
 * the off-screen value.
 */
module InitialCss {
  import opened Coordinates
  import opened CssVars
  import opened PxFormat

  /** The twelve keys in the order the initial style text declares them. */
  function AllVarKeys(): (keys: seq<VarKey>)
    ensures |keys| == 12
    ensures forall i, j :: 0 <= i < j < |keys| ==> keys[i] != keys[j]
  {
    [ VarKey(Page, Mouse, X), VarKey(Page, Mouse, Y),
      VarKey(Page, Pen, X), VarKey(Page, Pen, Y),
      VarKey(Page, Touch, X), VarKey(Page, Touch, Y),
      VarKey(LayoutViewport, Mouse, X), VarKey(LayoutViewport, Mouse, Y),
      VarKey(LayoutViewport, Pen, X), VarKey(LayoutViewport, Pen, Y),
      VarKey(LayoutViewport, Touch, X), VarKey(LayoutViewport, Touch, Y) ]
  }

  /** Every key is among the twelve. */
  lemma AllVarKeysComplete(k: VarKey)
    ensures k in AllVarKeys()
  {
    var keys := AllVarKeys();
    match k
    case VarKey(Page, Mouse, X) => assert k == keys[0];
    case VarKey(Page, Mouse, Y) => assert k == keys[1];
    case VarKey(Page, Pen, X) => assert k == keys[2];
    case VarKey(Page, Pen, Y) => assert k == keys[3];
    case VarKey(Page, Touch, X) => assert k == keys[4];
    case VarKey(Page, Touch, Y) => assert k == keys[5];
    case VarKey(LayoutViewport, Mouse, X) => assert k == keys[6];
    case VarKey(LayoutViewport, Mouse, Y) => assert k == keys[7];
    case VarKey(LayoutViewport, Pen, X) => assert k == keys[8];
    case VarKey(LayoutViewport, Pen, Y) => assert k == keys[9];
    case VarKey(LayoutViewport, Touch, X) => assert k == keys[10];
    case VarKey(LayoutViewport, Touch, Y) => assert k == keys[11];
  }

  /** One `name: value;` declaration of a style rule. */
  datatype Declaration = Declaration(name: string, value: string)

  /** The value every variable is declared with initially. */
  const INITIAL_VALUE: string := "-1000px"

  /** The declarations of the initial style text, one per key, in order. */
  function InitialDeclarations(): (ds: seq<Declaration>)
    ensures |ds| == 12
  {
    var keys := AllVarKeys();
    seq(12, i requires 0 <= i < 12 => Declaration(VarName(keys[i]), INITIAL_VALUE))
  }

  /** Each of the twelve variables is declared, off screen, and no name is declared twice. */
  lemma InitialDeclarationsComplete(k: VarKey)
    ensures exists i :: 0 <= i < 12 && InitialDeclarations()[i] == Declaration(VarName(k), INITIAL_VALUE)
    ensures forall i, j :: 0 <= i < j < 12 ==> InitialDeclarations()[i].name != InitialDeclarations()[j].name
  {
    var keys := AllVarKeys();
    AllVarKeysComplete(k);
    var n :| 0 <= n < 12 && keys[n] == k;
    assert InitialDeclarations()[n] == Declaration(VarName(k), INITIAL_VALUE);
    forall i, j | 0 <= i < j < 12
      ensures InitialDeclarations()[i].name != InitialDeclarations()[j].name
    {
      if InitialDeclarations()[i].name == InitialDeclarations()[j].name {
        VarNameInjective(keys[i], keys[j]);
      }
    }
  }

  /** The initial value is the pixel string of the sentinel coordinate. */
  lemma InitialValueIsSentinel()
    ensures INITIAL_VALUE == Px(SENTINEL)
  {
    assert NatDigits(1000) == "1000";
  }

  /** The text line `    name: value;` followed by a line break. */
  function DeclarationLine(d: Declaration): string
  {
    "    " + d.name + ": " + d.value + ";\n"
  }

  function DeclarationLines(ds: seq<Declaration>): string
  {
    if ds == [] then "" else DeclarationLines(ds[..|ds| - 1]) + DeclarationLine(ds[|ds| - 1])
  }

  /**
   * The text of the style sheet the viewport adopts when tracking pointers:
   * it declares every one of the twelve variables as `-1000px`.
   */
  function CreateInitialCss(): (css: string)
    ensures forall k :: Occurs(DeclarationLine(Declaration(VarName(k), INITIAL_VALUE)), css)
  {
    InitialRuleDeclaresEveryVar();
    RootRuleText(InitialDeclarations())
  }

  predicate Occurs(sub: string, s: string)
  {
    exists i, j :: 0 <= i <= j <= |s| && s[i..j] == sub
  }

  lemma {:induction false} DeclarationLineOccurs(ds: seq<Declaration>, n: nat)
    requires n < |ds|
    ensures Occurs(DeclarationLine(ds[n]), DeclarationLines(ds))
  {
    var init := ds[..|ds| - 1];
    var prefix := DeclarationLines(init);
    var line := DeclarationLine(ds[|ds| - 1]);
    var s := DeclarationLines(ds);
    assert s == prefix + line;
    if n == |ds| - 1 {
      assert s[|prefix|..|s|] == line;
    } else {
      DeclarationLineOccurs(init, n);
      assert init[n] == ds[n];
      var i, j :| 0 <= i <= j <= |prefix| && prefix[i..j] == DeclarationLine(ds[n]);
      assert s[i..j] == prefix[i..j];
    }
  }

  /** The text of a root rule with the given declarations. */
  function RootRuleText(ds: seq<Declaration>): string
  {
    "*:root {\n" + DeclarationLines(ds) + "  }"
  }

  /** Text found in `body` is found in `body` with anything around it. */
  lemma OccursWithin(sub: string, head: string, body: string, tail: string)
    requires Occurs(sub, body)
    ensures Occurs(sub, head + body + tail)
  {
    var i, j :| 0 <= i <= j <= |body| && body[i..j] == sub;
    var s := head + body + tail;
    assert s[|head| + i..|head| + j] == body[i..j];
  }

  lemma RootRuleDeclares(ds: seq<Declaration>, n: nat)
    requires n < |ds|
    ensures Occurs(DeclarationLine(ds[n]), RootRuleText(ds))
  {
    DeclarationLineOccurs(ds, n);
    OccursWithin(DeclarationLine(ds[n]), "*:root {\n", DeclarationLines(ds), "  }");
  }

  /** The root rule over the initial declarations has a `name: -1000px;` line for every variable. */
  lemma InitialRuleDeclaresEveryVar()
    ensures forall k :: Occurs(DeclarationLine(Declaration(VarName(k), INITIAL_VALUE)), RootRuleText(InitialDeclarations()))
  {
    var ds := InitialDeclarations();
    forall k
      ensures Occurs(DeclarationLine(Declaration(VarName(k), INITIAL_VALUE)), RootRuleText(ds))
    {
      InitialDeclarationsComplete(k);
      var n :| 0 <= n < 12 && ds[n] == Declaration(VarName(k), INITIAL_VALUE);
      RootRuleDeclares(ds, n);
    }
  }

  /**
   * The properties of a rule whose text lists `ds`: a later declaration of
   * the same name wins.
   */
  function DeclarationsToMap(ds: seq<Declaration>): map<string, string>
  {
    if ds == [] then map[]
    else DeclarationsToMap(ds[..|ds| - 1])[ds[|ds| - 1].name := ds[|ds| - 1].value]
  }

  lemma {:induction false} DeclarationsToMapUniform(ds: seq<Declaration>, v: string)
    requires forall i :: 0 <= i < |ds| ==> ds[i].value == v
    ensures forall i :: 0 <= i < |ds| ==> ds[i].name in DeclarationsToMap(ds) && DeclarationsToMap(ds)[ds[i].name] == v
    ensures forall name :: name in DeclarationsToMap(ds) ==> exists i :: 0 <= i < |ds| && ds[i].name == name
  {
    if ds != [] {
      var init := ds[..|ds| - 1];
      DeclarationsToMapUniform(init, v);
      forall name | name in DeclarationsToMap(ds)
        ensures exists i :: 0 <= i < |ds| && ds[i].name == name
      {
        if name != ds[|ds| - 1].name {
          var i :| 0 <= i < |init| && init[i].name == name;
          assert ds[i].name == name;
        }
      }
    }
  }

  /**
   * The properties of the root rule right after the initial style text is
   * adopted: exactly the twelve variable names, each set to the pixel text
   * of the off-screen sentinel.
   */
  function InitialProperties(): (properties: map<string, string>)
    ensures forall k :: VarName(k) in properties && properties[VarName(k)] == Px(SENTINEL)
    ensures forall name :: name in properties ==> exists k :: name == VarName(k)
  {
    InitialDeclarationsMap();
    DeclarationsToMap(InitialDeclarations())
  }

  /** The map of the initial declarations holds the twelve names, each at the sentinel's text. */
  lemma InitialDeclarationsMap()
    ensures forall k ::
      && VarName(k) in DeclarationsToMap(InitialDeclarations())
      && DeclarationsToMap(InitialDeclarations())[VarName(k)] == Px(SENTINEL)
    ensures forall name :: name in DeclarationsToMap(InitialDeclarations()) ==> exists k :: name == VarName(k)
  {
    var ds := InitialDeclarations();
    DeclarationsToMapUniform(ds, INITIAL_VALUE);
    InitialMapHasEveryVar(ds);
    InitialMapOnlyVars(ds);
  }

  lemma InitialMapHasEveryVar(ds: seq<Declaration>)
    requires ds == InitialDeclarations()
    requires forall i :: 0 <= i < |ds| ==> ds[i].name in DeclarationsToMap(ds) && DeclarationsToMap(ds)[ds[i].name] == INITIAL_VALUE
    ensures forall k :: VarName(k) in DeclarationsToMap(ds) && DeclarationsToMap(ds)[VarName(k)] == Px(SENTINEL)
  {
    InitialValueIsSentinel();
    forall k
      ensures VarName(k) in DeclarationsToMap(ds) && DeclarationsToMap(ds)[VarName(k)] == Px(SENTINEL)
    {
      InitialDeclarationsComplete(k);
    }
  }

  lemma InitialMapOnlyVars(ds: seq<Declaration>)
    requires ds == InitialDeclarations()
    requires forall name :: name in DeclarationsToMap(ds) ==> exists i :: 0 <= i < |ds| && ds[i].name == name
    ensures forall name :: name in DeclarationsToMap(ds) ==> exists k :: name == VarName(k)
  {
    forall name | name in DeclarationsToMap(ds)
      ensures exists k :: name == VarName(k)
    {
      var i :| 0 <= i < |ds| && ds[i].name == name;
      assert name == VarName(AllVarKeys()[i]);
    }
  }

  /**
   * The initial rule agrees with a fresh pointer record: each variable holds
   * the matching coordinate of the record as `<v>px`.
   */
  lemma InitialPropertiesMatchNewPosition()
    ensures forall k ::
      && VarName(k) in InitialProperties()
      && InitialProperties()[VarName(k)] == Px(Coordinate(NewPointerPosition(), k.space, k.axis))
  {
  }
}
