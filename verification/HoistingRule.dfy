/** The language's rule for hoisted names, stated over every path into a tree without looking at the collectors, and how
  * far the collectors of internal/engine/ast.go follow it (Annex B.3.3 of ECMA-262, and its VarDeclaredNames).
  */
module HoistingRule {
  import opened Syntax
  import opened Hoisting

  // ----- declarations and expressions -----

  /** The tree has no node for an expression statement: (function f(){}); and (class C {}); are a bare function and a bare
    * class, told from declarations by their flags alone.
    */
  predicate IsExpression(n: Node) {
    n.Node? && (n.funcExpr || (n.kind == Class && n.paren))
  }

  /** An arrow function declares nothing. */
  predicate DeclaresFunction(n: Node, x: string) {
    n.Node? && n.kind == Func && !n.arrow && !n.funcExpr && n.str == x != ""
  }

  predicate DeclaresPlainFunction(n: Node, x: string) {
    DeclaresFunction(n, x) && !n.special
  }

  predicate DeclaresClass(n: Node, x: string) {
    n.Node? && n.kind == Class && !IsExpression(n) && n.str == x != ""
  }

  /** A var statement, or the var of a loop head, with x among the identifiers that its declarators lead to. */
  predicate DeclaresVariable(n: Node, x: string) {
    n.Node? && n.kind == Var && n.varKind == VarVar && x in DeclaratorNames(n.args)
  }

  /** A function or class expression with a name of its own, which it declares to itself only. */
  predicate IsNamedExpression(n: Node, x: string) {
    (IsFunction(n, x) || IsClass(n, x)) && IsExpression(n)
  }

  // ----- what a scope declares lexically -----

  /** What a statement of a list can name besides vars and plain functions.  A class expression declares nothing. */
  datatype Form = LetOrClass | AsyncOrGenerator | ClassExpression

  predicate IsLexicalKind(k: VarKind) {
    k != VarVar && k != VarAssign
  }

  function NamesOf(s: Node, form: Form): Names {
    match form
    case LetOrClass =>
      if IsKind(s, Var) && IsLexicalKind(s.varKind) then DeclaratorNames(s.args)
      else if IsKind(s, Class) && s.str != "" && !IsExpression(s) then {s.str}
      else {}
    case AsyncOrGenerator =>
      if IsKind(s, Func) && !s.arrow && s.special && s.str != "" && !IsExpression(s) then {s.str} else {}
    case ClassExpression =>
      if IsKind(s, Class) && s.str != "" && IsExpression(s) then {s.str} else {}
  }

  function NamesIn(ss: seq<Node>, form: Form): Names {
    if ss == [] then {} else NamesIn(ss[..|ss| - 1], form) + NamesOf(ss[|ss| - 1], form)
  }

  /** All clauses of a switch are one block. */
  function NamesInCases(cases: seq<Node>, form: Form): Names {
    if cases == [] then {}
    else
      var c := cases[|cases| - 1];
      NamesInCases(cases[..|cases| - 1], form) + if c.Nil? then {} else NamesIn(c.args, form)
  }

  /** A lexical declaration of any kind, a class, or a function that is async or a generator.  A plain function is not
    * counted: where one hides another of its name, that name is hoisted for the outer one.
    */
  function DeclaredIn(ss: seq<Node>): Names {
    NamesIn(ss, LetOrClass) + NamesIn(ss, AsyncOrGenerator)
  }

  function DeclaredInCases(cases: seq<Node>): Names {
    NamesInCases(cases, LetOrClass) + NamesInCases(cases, AsyncOrGenerator)
  }

  function LetNames(head: Node): Names {
    if IsKind(head, Var) && (head.varKind == VarLet || head.varKind == VarConst) then DeclaratorNames(head.args) else {}
  }

  function UsingNames(head: Node): Names {
    if IsKind(head, Var) && (head.varKind == VarUsing || head.varKind == VarAwaitUsing) then DeclaratorNames(head.args)
    else {}
  }

  function DeclaredInHead(head: Node): Names {
    LetNames(head) + UsingNames(head)
  }

  /** A catch parameter that is a simple name hides nothing (Annex B.3.4). */
  function DeclaredInCatch(param: Node): Names {
    if IsKind(param, Array) || IsKind(param, Object) then BindingNames(param) else {}
  }

  // ----- paths -----

  /** Every statement directly inside a statement of any kind. */
  function Parts(n: Node): (r: seq<Step>)
    ensures forall i :: 0 <= i < |r| ==> r[i].to < n
  {
    if n.Nil? then []
    else match n.kind
      case Program => Enter(n.args, false, {})
      case Block => Enter(n.args, true, DeclaredIn(n.args))
      case Switch => Enter(n.args, true, DeclaredInCases(n.args))
      case Case => Enter(n.args, true, {})
      case Label => [Step(n.body, false, {})]
      case Export => [Step(n.left, false, {})]
      case If => [Step(n.left, true, {}), Step(n.right, true, {})]
      case While => [Step(n.body, true, {})]
      case DoWhile => [Step(n.body, true, {})]
      case With => [Step(n.body, true, {})]
      case For => LoopParts(n)
      case ForIn => LoopParts(n)
      case ForOf => LoopParts(n)
      case ForAwaitOf => LoopParts(n)
      case Try =>
        [Step(n.body, true, {}), Step(n.catchBody, true, DeclaredInCatch(n.catchParam)), Step(n.finallyBody, true, {})]
      case _ => []
  }

  function LoopParts(n: Node): seq<Step>
    requires n.Node?
  {
    var hides := DeclaredInHead(n.init) + DeclaredInHead(n.left);
    [Step(n.init, true, hides), Step(n.left, true, hides), Step(n.body, true, hides)]
  }

  predicate IsPath(n: Node, path: seq<nat>)
    decreases |path|
  {
    path == [] || (path[0] < |Parts(n)| && IsPath(Parts(n)[path[0]].to, path[1..]))
  }

  function End(n: Node, path: seq<nat>): Node
    requires IsPath(n, path)
    decreases |path|
  {
    if path == [] then n else End(Parts(n)[path[0]].to, path[1..])
  }

  predicate AtTop(n: Node, path: seq<nat>)
    requires IsPath(n, path)
    decreases |path|
  {
    path == [] || (!Parts(n)[path[0]].nested && AtTop(Parts(n)[path[0]].to, path[1..]))
  }

  /** What the scopes along the path declare lexically. */
  function Hidden(n: Node, path: seq<nat>): Names
    requires IsPath(n, path)
    decreases |path|
  {
    if path == [] then {} else Parts(n)[path[0]].hides + Hidden(Parts(n)[path[0]].to, path[1..])
  }

  // ----- the rule -----

  predicate DeclaresVarAt(n: Node, path: seq<nat>, x: string) {
    IsPath(n, path) && DeclaresVariable(End(n, path), x)
  }

  /** The declaration at the end of the path hoists x: a var; a function or class at the top level; or, in sloppy code, a
    * plain function that nothing on the way to it hides.
    */
  predicate Hoists(n: Node, path: seq<nat>, x: string, topLevel: bool, shadow: Names, strict: bool) {
    IsPath(n, path) &&
    var e := End(n, path);
    || DeclaresVariable(e, x)
    || (topLevel && AtTop(n, path) && (DeclaresFunction(e, x) || DeclaresClass(e, x)))
    || (!strict && DeclaresPlainFunction(e, x) && x !in shadow && x !in Hidden(n, path))
  }

  ghost predicate Hoisted(n: Node, x: string, topLevel: bool, shadow: Names, strict: bool) {
    exists path :: Hoists(n, path, x, topLevel, shadow, strict)
  }

  // ----- where the collectors differ -----

  /** The collectors go into neither kind of statement.  (A module's exports are unwrapped before they are asked.) */
  predicate IsOverlooked(n: Node) {
    IsKind(n, ForAwaitOf) || IsKind(n, Export)
  }

  /** The path goes through a statement that the collectors do not enter. */
  predicate Overlooked(n: Node, path: seq<nat>)
    requires IsPath(n, path)
    decreases |path|
  {
    path != [] && (IsOverlooked(n) || Overlooked(Parts(n)[path[0]].to, path[1..]))
  }

  predicate IsLoop(n: Node) {
    IsKind(n, For) || IsKind(n, ForIn) || IsKind(n, ForOf)
  }

  /** What the scope around the i-th part declares in a form that the collectors count as hiding. */
  function Counted(n: Node, i: nat): Names {
    if IsKind(n, Block) then NamesIn(n.args, LetOrClass)
    else if IsKind(n, Switch) then NamesInCases(n.args, LetOrClass)
    else if IsLoop(n) then LetNames(n.init) + LetNames(n.left)
    else if IsKind(n, Try) && i == 1 then DeclaredInCatch(n.catchParam)
    else {}
  }

  /** What a statement's scope declares that the collectors do not count as hiding anything. */
  function Uncounted(n: Node): Names {
    if IsKind(n, Block) then NamesIn(n.args, AsyncOrGenerator)
    else if IsKind(n, Switch) then NamesInCases(n.args, AsyncOrGenerator)
    else if IsLoop(n) then UsingNames(n.init) + UsingNames(n.left)
    else {}
  }

  /** What a statement's scope does not declare, but the collectors count as hiding something. */
  function Miscounted(n: Node): Names {
    if IsKind(n, Block) then NamesIn(n.args, ClassExpression)
    else if IsKind(n, Switch) then NamesInCases(n.args, ClassExpression)
    else {}
  }

  function CountedOn(n: Node, path: seq<nat>): Names
    requires IsPath(n, path)
    decreases |path|
  {
    if path == [] then {} else Counted(n, path[0]) + CountedOn(Parts(n)[path[0]].to, path[1..])
  }

  function UncountedOn(n: Node, path: seq<nat>): Names
    requires IsPath(n, path)
    decreases |path|
  {
    if path == [] then {} else Uncounted(n) + UncountedOn(Parts(n)[path[0]].to, path[1..])
  }

  function MiscountedOn(n: Node, path: seq<nat>): Names
    requires IsPath(n, path)
    decreases |path|
  {
    if path == [] then {} else Miscounted(n) + MiscountedOn(Parts(n)[path[0]].to, path[1..])
  }

  /** Below the top level, a class expression around a function keeps the collectors from it.  (extra: the class expressions
    * of the body that the node belongs to.)
    */
  predicate Masked(n: Node, path: seq<nat>, x: string, topLevel: bool, extra: Names)
    requires IsPath(n, path)
  {
    !DeclaresVariable(End(n, path), x) && !(topLevel && AtTop(n, path)) && x in extra + MiscountedOn(n, path)
  }

  /** A function or class expression that stands as a statement: at the top level any, below it a plain function that
    * nothing the collectors count hides.
    */
  predicate ExpressionLeaks(n: Node, path: seq<nat>, x: string, topLevel: bool, shadow: Names, strict: bool)
    requires IsPath(n, path)
  {
    var e := End(n, path);
    && IsNamedExpression(e, x)
    && ((topLevel && AtTop(n, path))
        || (!strict && IsPlainFunction(e, x) && x !in shadow + CountedOn(n, path) + MiscountedOn(n, path)))
  }

  /** A plain function that is hidden, but only by declarations that the collectors do not count. */
  predicate FunctionLeaks(n: Node, path: seq<nat>, x: string, shadow: Names, strict: bool)
    requires IsPath(n, path)
  {
    && !strict && DeclaresPlainFunction(End(n, path), x)
    && x in UncountedOn(n, path) && x !in shadow + CountedOn(n, path) + MiscountedOn(n, path)
  }

  /** The collectors take x for hoisted at the end of the path, where the rule does not. */
  predicate Leaks(n: Node, path: seq<nat>, x: string, topLevel: bool, shadow: Names, strict: bool) {
    && IsPath(n, path) && !Overlooked(n, path)
    && (ExpressionLeaks(n, path, x, topLevel, shadow, strict) || FunctionLeaks(n, path, x, shadow, strict))
  }

  /** The rule hoists x by the path, and the collectors see that. */
  predicate HoistsInView(n: Node, path: seq<nat>, x: string, topLevel: bool, shadow: Names, extra: Names, strict: bool) {
    Hoists(n, path, x, topLevel, shadow, strict) && !Overlooked(n, path) && !Masked(n, path, x, topLevel, extra)
  }

  // ----- the collectors' steps against the parts -----

  lemma {:induction false} ListNames(ss: seq<Node>)
    ensures LexicalNamesOf(ss) == NamesIn(ss, LetOrClass) + NamesIn(ss, ClassExpression)
  {
    if ss != [] {
      ListNames(ss[..|ss| - 1]);
    }
  }

  lemma {:induction false} CaseNames(cases: seq<Node>)
    ensures CaseBlockNames(cases) == NamesInCases(cases, LetOrClass) + NamesInCases(cases, ClassExpression)
  {
    if cases != [] {
      CaseNames(cases[..|cases| - 1]);
      var c := cases[|cases| - 1];
      if c.Node? {
        ListNames(c.args);
      }
    }
  }

  /** The i-th step is the i-th part, and what each hides splits as counted. */
  ghost predicate StepIsPart(n: Node, i: nat) {
    && i < |Parts(n)| == |Steps(n)|
    && Steps(n)[i].to == Parts(n)[i].to && Steps(n)[i].nested == Parts(n)[i].nested
    && Parts(n)[i].hides == Counted(n, i) + Uncounted(n)
    && Steps(n)[i].hides == Counted(n, i) + Miscounted(n)
  }

  ghost predicate StepsAreParts(n: Node) {
    |Steps(n)| == |Parts(n)| && forall i: nat :: i < |Parts(n)| ==> StepIsPart(n, i)
  }

  lemma LoopUnfold(n: Node)
    requires IsLoop(n)
    ensures Steps(n) == ForSteps(n) && Parts(n) == LoopParts(n)
  {
    ForUnfold(n);
    hide Steps, LoopParts;
  }

  lemma HeadSplit(n: Node)
    requires IsLoop(n)
    ensures var l, u := LetNames(n.init) + LetNames(n.left), UsingNames(n.init) + UsingNames(n.left);
            && ForSteps(n) == [Step(n.init, true, l), Step(n.left, true, l), Step(n.body, true, l)]
            && LoopParts(n) == [Step(n.init, true, l + u), Step(n.left, true, l + u), Step(n.body, true, l + u)]
  {
    hide DeclaratorNames;
    assert HeadNames(n.init) == LetNames(n.init) && HeadNames(n.left) == LetNames(n.left);
    hide HeadNames, LetNames, UsingNames;
    assert DeclaredInHead(n.init) + DeclaredInHead(n.left)
           == (LetNames(n.init) + LetNames(n.left)) + (UsingNames(n.init) + UsingNames(n.left));
  }

  lemma LoopStep(n: Node, i: nat)
    requires IsLoop(n) && i < 3
    ensures |Steps(n)| == |Parts(n)| == 3 && StepIsPart(n, i)
  {
    hide LetNames, UsingNames, Steps, Parts, NamesIn, NamesInCases, ForSteps, LoopParts;
    LoopUnfold(n);
    HeadSplit(n);
    var l := LetNames(n.init) + LetNames(n.left);
    assert Counted(n, i) == l && Miscounted(n) == {} && l + {} == l;
    assert Uncounted(n) == UsingNames(n.init) + UsingNames(n.left);
    hide Counted, Uncounted, Miscounted;
  }

  lemma BlockUnfold(n: Node)
    requires IsKind(n, Block)
    ensures Steps(n) == Enter(n.args, true, LexicalNamesOf(n.args)) && Parts(n) == Enter(n.args, true, DeclaredIn(n.args))
  {
    hide LexicalNamesOf, DeclaredIn;
  }

  lemma BlockStep(n: Node, i: nat)
    requires IsKind(n, Block) && i < |n.args|
    ensures |Steps(n)| == |Parts(n)| == |n.args| && StepIsPart(n, i)
  {
    BlockUnfold(n);
    ListNames(n.args);
    hide NamesIn, LexicalNamesOf, Steps, Parts;
  }

  lemma SwitchUnfold(n: Node)
    requires IsKind(n, Switch)
    ensures Steps(n) == Enter(n.args, true, CaseBlockNames(n.args))
    ensures Parts(n) == Enter(n.args, true, DeclaredInCases(n.args))
  {
    hide CaseBlockNames, DeclaredInCases;
  }

  lemma SwitchStep(n: Node, i: nat)
    requires IsKind(n, Switch) && i < |n.args|
    ensures |Steps(n)| == |Parts(n)| == |n.args| && StepIsPart(n, i)
  {
    SwitchUnfold(n);
    CaseNames(n.args);
    hide NamesInCases, CaseBlockNames, Steps, Parts;
  }

  lemma OtherSteps(n: Node)
    requires n.Node? && !IsOverlooked(n) && n.kind != Block && n.kind != Switch && !IsLoop(n)
    ensures StepsAreParts(n)
  {
    hide BindingNames, DeclaredIn, LexicalNamesOf, DeclaredInCases, CaseBlockNames;
    if n.kind == Try {
      assert DeclaredInCatch(n.catchParam) == CatchNames(n.catchParam);
    }
    hide DeclaredInCatch, CatchNames;
  }

  /** One statement: the collectors either do not enter it, or take the same steps with other names hidden. */
  lemma StepsAndParts(n: Node)
    ensures if IsOverlooked(n) then Steps(n) == [] else StepsAreParts(n)
  {
    if n.Node? && !IsOverlooked(n) {
      hide Steps, Parts, StepIsPart;
      if IsLoop(n) {
        forall i: nat | i < 3 { LoopStep(n, i); }
        LoopStep(n, 0);
      } else if n.kind == Block {
        BlockUnfold(n);
        forall i: nat | i < |n.args| { BlockStep(n, i); }
      } else if n.kind == Switch {
        SwitchUnfold(n);
        forall i: nat | i < |n.args| { SwitchStep(n, i); }
      } else {
        OtherSteps(n);
      }
    }
  }

  /** So the walks of the collectors are the paths that go through nothing overlooked. */
  lemma {:induction false} WalksArePaths(n: Node, path: seq<nat>)
    ensures IsWalk(n, path) <==> IsPath(n, path) && !Overlooked(n, path)
    ensures IsWalk(n, path) ==>
              && WalkEnd(n, path) == End(n, path) && (WalkAtTop(n, path) <==> AtTop(n, path))
              && Hidden(n, path) == CountedOn(n, path) + UncountedOn(n, path)
              && WalkHides(n, path) == CountedOn(n, path) + MiscountedOn(n, path)
    decreases |path|
  {
    hide Parts, Steps, Counted, Uncounted, Miscounted, IsOverlooked;
    StepsAndParts(n);
    if path != [] && path[0] < |Parts(n)| {
      assert !IsOverlooked(n) ==> StepIsPart(n, path[0]);
      WalksArePaths(Parts(n)[path[0]].to, path[1..]);
    }
  }

  /** One path: the collectors find x by it exactly when the rule does in their view, or it leaks. */
  lemma FoundBy(n: Node, path: seq<nat>, x: string, topLevel: bool, shadow: Names, extra: Names, strict: bool)
    ensures WalkHoists(n, path, x, topLevel, shadow + extra, strict) <==>
            || HoistsInView(n, path, x, topLevel, shadow, extra, strict)
            || Leaks(n, path, x, topLevel, shadow + extra, strict)
  {
    WalksArePaths(n, path);
    hide Overlooked, IsPath, IsWalk, End, WalkEnd, AtTop, WalkAtTop, Hidden, WalkHides, CountedOn, UncountedOn, MiscountedOn,
         DeclaratorNames;
  }

  // ----- the collectors against the rule -----

  /** Some path in the collectors' view hoists x. */
  ghost predicate HoistedInView(n: Node, x: string, topLevel: bool, shadow: Names, extra: Names, strict: bool) {
    exists path :: HoistsInView(n, path, x, topLevel, shadow, extra, strict)
  }

  ghost predicate Leaked(n: Node, x: string, topLevel: bool, shadow: Names, strict: bool) {
    exists path :: Leaks(n, path, x, topLevel, shadow, strict)
  }

  /** Exactly what is collected, when the collectors take extra names for declared around the node: the names that the rule
    * hoists by a path through no for-await statement, no export and no list where a class expression masks them; the
    * function and class expressions; and the plain functions that only a using head, an async function or a generator
    * hides.
    */
  lemma CollectedExactly(n: Node, x: string, topLevel: bool, shadow: Names, extra: Names, strict: bool)
    ensures x in Collected(n, topLevel, shadow + extra, strict) <==>
            HoistedInView(n, x, topLevel, shadow, extra, strict) || Leaked(n, x, topLevel, shadow + extra, strict)
  {
    CollectedIffWalk(n, x, topLevel, shadow + extra, strict);
    forall path
      ensures WalkHoists(n, path, x, topLevel, shadow + extra, strict) <==>
              || HoistsInView(n, path, x, topLevel, shadow, extra, strict)
              || Leaks(n, path, x, topLevel, shadow + extra, strict)
    {
      FoundBy(n, path, x, topLevel, shadow, extra, strict);
    }
    hide WalkHoists, HoistsInView, Leaks, Collected;
  }

  /** A path by which the rule hoists x, but not in the collectors' view. */
  predicate Unseen(n: Node, path: seq<nat>, x: string, topLevel: bool)
    requires IsPath(n, path)
  {
    Overlooked(n, path) || Masked(n, path, x, topLevel, {})
  }

  /** A hoisted name is missed exactly when every path that hoists it is overlooked or masked and nothing leaks it. */
  lemma MissedIff(n: Node, x: string, topLevel: bool, shadow: Names, strict: bool)
    requires Hoisted(n, x, topLevel, shadow, strict)
    ensures x !in Collected(n, topLevel, shadow, strict) <==>
            && (forall path :: Hoists(n, path, x, topLevel, shadow, strict) ==> Unseen(n, path, x, topLevel))
            && !Leaked(n, x, topLevel, shadow, strict)
  {
    CollectedExactly(n, x, topLevel, shadow, {}, strict);
    assert shadow + {} == shadow;
    assert forall path :: HoistsInView(n, path, x, topLevel, shadow, {}, strict) <==>
             Hoists(n, path, x, topLevel, shadow, strict) && !Unseen(n, path, x, topLevel);
    hide Hoists, Unseen, HoistsInView, Leaked, Collected, IsPath;
  }

  /** A name that the rule does not hoist is collected exactly when it leaks. */
  lemma AddedIff(n: Node, x: string, topLevel: bool, shadow: Names, strict: bool)
    requires !Hoisted(n, x, topLevel, shadow, strict)
    ensures x in Collected(n, topLevel, shadow, strict) <==> Leaked(n, x, topLevel, shadow, strict)
  {
    CollectedExactly(n, x, topLevel, shadow, {}, strict);
    assert shadow + {} == shadow;
    hide Hoists, Overlooked, Masked, Leaked, Collected, IsPath;
  }

  /** For var declarations: collectBodyVarNames adds no name, and misses one exactly when every path to a declaration of it
    * goes through a for-await statement or an export.
    */
  lemma BodyVarNamesExactly(n: Node, x: string)
    ensures x in BodyVarNames(n) <==> exists path :: DeclaresVarAt(n, path, x) && !Overlooked(n, path)
  {
    BodyVarNamesIffWalk(n, x);
    forall path
      ensures WalkDeclaresVar(n, path, x) <==> DeclaresVarAt(n, path, x) && !Overlooked(n, path)
    {
      WalksArePaths(n, path);
    }
    hide WalkDeclaresVar, DeclaresVarAt, BodyVarNames, Overlooked, IsPath;
  }

  // ----- when there is no difference -----

  /** No statement of the tree is overlooked or a named expression, and no scope has a name on which the two disagree. */
  predicate IsOrdinary(n: Node)
    decreases n
  {
    && !IsOverlooked(n) && !(n.Node? && IsNamedExpression(n, n.str)) && Uncounted(n) == {} && Miscounted(n) == {}
    && forall i :: 0 <= i < |Parts(n)| ==> IsOrdinary(Parts(n)[i].to)
  }

  lemma {:induction false} OrdinaryPath(n: Node, path: seq<nat>)
    ensures IsOrdinary(n) && IsPath(n, path) ==>
              && !Overlooked(n, path) && UncountedOn(n, path) == {} && MiscountedOn(n, path) == {}
              && IsOrdinary(End(n, path))
    decreases |path|
  {
    if path != [] && IsOrdinary(n) && IsPath(n, path) {
      hide Parts, Uncounted, Miscounted, IsOverlooked, IsNamedExpression;
      OrdinaryPath(Parts(n)[path[0]].to, path[1..]);
    }
  }

  /** On such a path the two agree. */
  lemma OrdinaryView(n: Node, path: seq<nat>, x: string, topLevel: bool, shadow: Names, strict: bool)
    requires IsOrdinary(n)
    ensures HoistsInView(n, path, x, topLevel, shadow, {}, strict) <==> Hoists(n, path, x, topLevel, shadow, strict)
    ensures !Leaks(n, path, x, topLevel, shadow, strict)
  {
    if IsPath(n, path) {
      OrdinaryPath(n, path);
      var e := End(n, path);
      assert !(e.Node? && IsNamedExpression(e, e.str));
      hide IsOrdinary, IsPath, End, AtTop, Hidden, Overlooked, CountedOn, UncountedOn, MiscountedOn, DeclaratorNames;
    }
  }

  /** On such a tree the collectors follow the rule. */
  lemma OrdinaryIsExact(n: Node, x: string, topLevel: bool, shadow: Names, strict: bool)
    requires IsOrdinary(n)
    ensures x in Collected(n, topLevel, shadow, strict) <==> Hoisted(n, x, topLevel, shadow, strict)
    ensures x in BodyVarNames(n) <==> exists path :: DeclaresVarAt(n, path, x)
  {
    CollectedExactly(n, x, topLevel, shadow, {}, strict);
    assert shadow + {} == shadow;
    BodyVarNamesExactly(n, x);
    forall path
      ensures HoistsInView(n, path, x, topLevel, shadow, {}, strict) <==> Hoists(n, path, x, topLevel, shadow, strict)
      ensures !Leaks(n, path, x, topLevel, shadow, strict)
      ensures DeclaresVarAt(n, path, x) ==> !Overlooked(n, path)
    {
      OrdinaryView(n, path, x, topLevel, shadow, strict);
      OrdinaryPath(n, path);
    }
    hide Collected, BodyVarNames, Overlooked, HoistsInView, Hoists, Leaks, DeclaresVarAt, IsPath, IsOrdinary;
  }

  // ----- a whole body -----

  /** What the top level of a body declares lexically; a function there is like a var. */
  function TopNames(stmts: seq<Node>): Names {
    NamesIn(stmts, LetOrClass)
  }

  /** The list of a whole body: what it hoists, the names that its top level declares lexically being hidden below. */
  lemma HoistedNamesExactly(stmts: seq<Node>, x: string, strict: bool)
    ensures var shadow, extra := TopNames(stmts), NamesIn(stmts, ClassExpression);
            x in HoistedNames(stmts, LexicalNamesOf(stmts), strict) <==>
            exists i :: 0 <= i < |stmts| &&
              (HoistedInView(stmts[i], x, true, shadow, extra, strict)
               || Leaked(stmts[i], x, true, shadow + extra, strict))
  {
    var shadow, extra := TopNames(stmts), NamesIn(stmts, ClassExpression);
    ListNames(stmts);
    NameOfSome(stmts, x, shadow + extra, strict);
    forall i | 0 <= i < |stmts|
      ensures x in Collected(stmts[i], true, shadow + extra, strict) <==>
              HoistedInView(stmts[i], x, true, shadow, extra, strict) || Leaked(stmts[i], x, true, shadow + extra, strict)
    {
      CollectedExactly(stmts[i], x, true, shadow, extra, strict);
    }
    hide Collected, HoistedNames, HoistedInView, Leaked, LexicalNamesOf, NamesIn;
  }

  /** A body of ordinary statements hoists what the rule says. */
  lemma OrdinaryBodyIsExact(stmts: seq<Node>, x: string, strict: bool)
    requires forall i :: 0 <= i < |stmts| ==> IsOrdinary(stmts[i])
    ensures x in HoistedNames(stmts, LexicalNamesOf(stmts), strict) <==>
            exists i :: 0 <= i < |stmts| && Hoisted(stmts[i], x, true, TopNames(stmts), strict)
  {
    var shadow := TopNames(stmts);
    ListNames(stmts);
    NoClassExpression(stmts);
    assert shadow + {} == shadow;
    NameOfSome(stmts, x, shadow, strict);
    forall i | 0 <= i < |stmts|
      ensures x in Collected(stmts[i], true, shadow, strict) <==> Hoisted(stmts[i], x, true, shadow, strict)
    {
      OrdinaryIsExact(stmts[i], x, true, shadow, strict);
    }
    hide Collected, HoistedNames, Hoisted, LexicalNamesOf, NamesIn, IsOrdinary;
  }

  lemma {:induction false} NoClassExpression(stmts: seq<Node>)
    requires forall i :: 0 <= i < |stmts| ==> IsOrdinary(stmts[i])
    ensures NamesIn(stmts, ClassExpression) == {}
  {
    if stmts != [] {
      assert IsOrdinary(stmts[|stmts| - 1]);
      NoClassExpression(stmts[..|stmts| - 1]);
    }
  }

  lemma {:induction false} NameOfSome(stmts: seq<Node>, x: string, shadow: Names, strict: bool)
    ensures x in HoistedNames(stmts, shadow, strict) <==>
            exists i :: 0 <= i < |stmts| && x in Collected(stmts[i], true, shadow, strict)
  {
    hide Collected;
    if stmts != [] {
      var k := |stmts| - 1;
      NameOfSome(stmts[..k], x, shadow, strict);
      assert forall i :: 0 <= i < k ==> stmts[..k][i] == stmts[i];
    }
  }


  // ----- the inputs that tell the collectors from the rule -----

  const Blank := Node(Expression, "", false, false, false, false, VarVar, false,
                      Nil, Nil, Nil, Nil, Nil, Nil, Nil, Nil, Nil, [])

  function Declaration(k: VarKind, x: string): Node {
    Blank.(kind := Var, varKind := k, args := [Blank.(left := Blank.(kind := Ident, str := x))])
  }

  function Function(x: string, special: bool): Node {
    Blank.(kind := Func, str := x, special := special)
  }

  /** (function f(){}); as a statement, or its async or generator form. */
  function FunctionValue(x: string, special: bool): Node {
    Blank.(kind := Func, str := x, special := special, funcExpr := true, paren := true)
  }

  /** (class C {}); as a statement. */
  function ClassValue(x: string): Node {
    Blank.(kind := Class, str := x, paren := true)
  }

  function List(ss: seq<Node>): Node {
    Blank.(kind := Block, args := ss)
  }

  lemma DeclarationNames(k: VarKind, x: string)
    ensures DeclaratorNames(Declaration(k, x).args) == {x}
  {
    var id := Blank.(kind := Ident, str := x);
    assert BindingNames(id) == {x};
    var d := Blank.(left := id);
    assert Declaration(k, x).args == [d] && [d][..0] == [];
  }

  ghost predicate HoistedThrough(s: Step, x: string, topLevel: bool, shadow: Names, strict: bool) {
    Hoisted(s.to, x, topLevel && !s.nested, shadow + s.hides, strict)
  }

  /** What is hoisted is hoisted by the node itself or through one of its parts. */
  lemma HoistedUnfold(n: Node, x: string, topLevel: bool, shadow: Names, strict: bool)
    ensures Hoisted(n, x, topLevel, shadow, strict) <==>
              || Hoists(n, [], x, topLevel, shadow, strict)
              || exists i :: 0 <= i < |Parts(n)| && HoistedThrough(Parts(n)[i], x, topLevel, shadow, strict)
  {
    if path :| Hoists(n, path, x, topLevel, shadow, strict) {
      if path != [] {
        var s := Parts(n)[path[0]];
        assert Hoists(s.to, path[1..], x, topLevel && !s.nested, shadow + s.hides, strict);
        assert HoistedThrough(Parts(n)[path[0]], x, topLevel, shadow, strict);
      }
    }
    if i :| 0 <= i < |Parts(n)| && HoistedThrough(Parts(n)[i], x, topLevel, shadow, strict) {
      PartHoists(n, i, x, topLevel, shadow, strict);
    }
  }

  lemma PartHoists(n: Node, i: nat, x: string, topLevel: bool, shadow: Names, strict: bool)
    requires i < |Parts(n)| && HoistedThrough(Parts(n)[i], x, topLevel, shadow, strict)
    ensures Hoisted(n, x, topLevel, shadow, strict)
  {
    var s := Parts(n)[i];
    var rest :| Hoists(s.to, rest, x, topLevel && !s.nested, shadow + s.hides, strict);
    assert ([i] + rest)[1..] == rest;
    assert Hoists(n, [i] + rest, x, topLevel, shadow, strict);
  }

  lemma DeclaresNothing(n: Node, x: string, topLevel: bool, shadow: Names, strict: bool)
    requires n.Nil? || (n.kind != Var && n.kind != Func && n.kind != Class)
    ensures !Hoists(n, [], x, topLevel, shadow, strict)
  {
    hide Parts, DeclaratorNames;
  }

  lemma HoistedOfThree(n: Node, s: Step, t: Step, u: Step, x: string, topLevel: bool, shadow: Names, strict: bool)
    requires Parts(n) == [s, t, u] && n.kind != Var && n.kind != Func && n.kind != Class
    ensures Hoisted(n, x, topLevel, shadow, strict) <==>
              || HoistedThrough(s, x, topLevel, shadow, strict) || HoistedThrough(t, x, topLevel, shadow, strict)
              || HoistedThrough(u, x, topLevel, shadow, strict)
  {
    DeclaresNothing(n, x, topLevel, shadow, strict);
    var parts := Parts(n);
    assert parts[0] == s && parts[1] == t && parts[2] == u;
    hide *;
    HoistedUnfold(n, x, topLevel, shadow, strict);
    assert forall i :: 0 <= i < |parts| ==> parts[i] == s || parts[i] == t || parts[i] == u;
  }

  lemma HoistedOfLoop(n: Node, x: string, topLevel: bool, shadow: Names, strict: bool)
    requires IsLoop(n)
    ensures var inner := shadow + (DeclaredInHead(n.init) + DeclaredInHead(n.left));
            Hoisted(n, x, topLevel, shadow, strict) <==>
              || Hoisted(n.init, x, false, inner, strict) || Hoisted(n.left, x, false, inner, strict)
              || Hoisted(n.body, x, false, inner, strict)
  {
    hide DeclaredInHead, Hoisted, Parts, Steps, ForSteps;
    LoopUnfold(n);
    var h := DeclaredInHead(n.init) + DeclaredInHead(n.left);
    HoistedOfThree(n, Step(n.init, true, h), Step(n.left, true, h), Step(n.body, true, h), x, topLevel, shadow, strict);
  }

  lemma CollectedUnfold(n: Node, x: string, topLevel: bool, shadow: Names, strict: bool)
    ensures x in Collected(n, topLevel, shadow, strict) <==>
              || x in Own(n, topLevel, shadow, strict)
              || exists i :: 0 <= i < |Steps(n)| && x in StepNames(Steps(n)[i], topLevel, shadow, strict)
  {
    hide Steps, Own;
    ThroughHas(n, Steps(n), x, topLevel, shadow, strict);
  }

  // for await

  function AwaitLoop(x: string, z: string): Node {
    Blank.(kind := ForAwaitOf, left := Declaration(VarVar, x), body := List([Declaration(VarVar, z)]))
  }

  lemma VarIsHoisted(x: string, topLevel: bool, shadow: Names, strict: bool)
    ensures Hoisted(Declaration(VarVar, x), x, topLevel, shadow, strict)
  {
    DeclarationNames(VarVar, x);
    assert Hoists(Declaration(VarVar, x), [], x, topLevel, shadow, strict);
  }

  lemma VarInListIsHoisted(x: string, topLevel: bool, shadow: Names, strict: bool)
    ensures Hoisted(List([Declaration(VarVar, x)]), x, topLevel, shadow, strict)
  {
    var n := List([Declaration(VarVar, x)]);
    hide Hoisted, Hoists, DeclaredIn, Declaration;
    VarIsHoisted(x, false, shadow + Parts(n)[0].hides, strict);
    PartHoists(n, 0, x, topLevel, shadow, strict);
  }

  /** for await (var x of ...) { var z; } declares x and z, and neither collector finds either. */
  lemma ForAwaitIsOverlooked(x: string, z: string, topLevel: bool, shadow: Names, strict: bool)
    ensures Hoisted(AwaitLoop(x, z), x, topLevel, shadow, strict) && Hoisted(AwaitLoop(x, z), z, topLevel, shadow, strict)
    ensures Collected(AwaitLoop(x, z), topLevel, shadow, strict) == {} && BodyVarNames(AwaitLoop(x, z)) == {}
  {
    var n := AwaitLoop(x, z);
    hide DeclaratorNames, Hoisted, Hoists, DeclaredIn;
    var hides := Parts(n)[1].hides;
    VarIsHoisted(x, false, shadow + hides, strict);
    VarInListIsHoisted(z, false, shadow + hides, strict);
    assert HoistedThrough(Parts(n)[1], x, topLevel, shadow, strict);
    assert HoistedThrough(Parts(n)[2], z, topLevel, shadow, strict);
    HoistedUnfold(n, x, topLevel, shadow, strict);
    HoistedUnfold(n, z, topLevel, shadow, strict);
    assert Steps(n) == [] && VarScopes(n) == [];
  }

  // function and class expressions

  /** (function f(){}); hoists nothing, and the collector takes f for hoisted: at the top level always, async functions
    * and generators included, and below it in sloppy code.
    */
  lemma FunctionExpressionIsAdded(f: string, special: bool, topLevel: bool, shadow: Names, strict: bool)
    requires f != ""
    ensures !Hoisted(FunctionValue(f, special), f, topLevel, shadow, strict)
    ensures f in Collected(FunctionValue(f, special), topLevel, shadow, strict) <==>
            topLevel || (!strict && !special && f !in shadow)
  {
    HoistedUnfold(FunctionValue(f, special), f, topLevel, shadow, strict);
  }

  /** (class C {}); likewise, at the top level. */
  lemma ClassExpressionIsAdded(c: string, topLevel: bool, shadow: Names, strict: bool)
    requires c != ""
    ensures !Hoisted(ClassValue(c), c, topLevel, shadow, strict)
    ensures c in Collected(ClassValue(c), topLevel, shadow, strict) <==> topLevel
  {
    HoistedUnfold(ClassValue(c), c, topLevel, shadow, strict);
  }

  /** for (function f(){};;) ; */
  function HeadValue(f: string): Node {
    Blank.(kind := For, init := Blank.(kind := Func, str := f, funcExpr := true))
  }

  /** The head of a loop likewise, in sloppy code. */
  lemma HeadExpressionIsAdded(f: string)
    requires f != ""
    ensures !Hoisted(HeadValue(f), f, false, {}, false) && f in Collected(HeadValue(f), false, {}, false)
  {
    var n := HeadValue(f);
    var none: Names := {};
    HoistedUnfold(n.init, f, false, none, false);
    assert f in Own(n.init, false, none, false);
    assert f in Collected(n.init, false, none, false) && none + ({} + {}) == none;
    hide Hoisted, Collected;
    HoistedOfLoop(n, f, false, none, false);
    CollectedOfFor(n, false, none, false);
    NothingIn(Nil, f, none);
  }

  // a list in a list

  /** { a { function f() {} } } */
  function Nested(a: Node, f: string): Node {
    List([a, List([Function(f, false)])])
  }

  lemma OneStatement(a: Node)
    ensures DeclaredIn([a]) == NamesOf(a, LetOrClass) + NamesOf(a, AsyncOrGenerator) && LexicalNamesOf([a]) == LexicalNames(a)
  {
    assert [a][..0] == [];
    assert forall form :: NamesIn([a], form) == NamesOf(a, form);
  }

  lemma ListOfOne(d: Node)
    ensures Parts(List([d])) == [Step(d, true, DeclaredIn([d]))] && Steps(List([d])) == [Step(d, true, LexicalNamesOf([d]))]
  {
    hide DeclaredIn, LexicalNamesOf;
  }

  /** The inner function is hoisted, or collected, exactly when nothing around it that counts has its name. */
  lemma InnerFunction(f: string, shadow: Names)
    requires f != ""
    ensures Hoisted(List([Function(f, false)]), f, false, shadow, false) <==> f !in shadow
    ensures f in Collected(List([Function(f, false)]), false, shadow, false) <==> f !in shadow
  {
    var d := Function(f, false);
    var n := List([d]);
    OneStatement(d);
    ListOfOne(d);
    assert shadow + {} == shadow;
    HoistedUnfold(d, f, false, shadow, false);
    CollectedUnfold(d, f, false, shadow, false);
    assert Hoisted(d, f, false, shadow, false) <==> f !in shadow;
    assert f in Collected(d, false, shadow, false) <==> f !in shadow;
    hide Hoisted, Collected, Parts, Steps;
    HoistedUnfold(n, f, false, shadow, false);
    CollectedUnfold(n, f, false, shadow, false);
    assert HoistedThrough(Parts(n)[0], f, false, shadow, false) <==> f !in shadow;
    assert f in StepNames(Steps(n)[0], false, shadow, false) <==> f !in shadow;
  }

  lemma NamesNothing(b: Node)
    requires IsKind(b, Block)
    ensures forall form :: NamesOf(b, form) == {}
    ensures LexicalNames(b) == {}
  {
  }

  lemma TwoStatements(a: Node, f: string)
    ensures var n, b, all, seen := Nested(a, f), List([Function(f, false)]), DeclaredIn([a]), LexicalNamesOf([a]);
            Parts(n) == [Step(a, true, all), Step(b, true, all)] && Steps(n) == [Step(a, true, seen), Step(b, true, seen)]
  {
    hide NamesOf, LexicalNames;
    var b := List([Function(f, false)]);
    NamesNothing(b);
    assert [a, b][..1] == [a];
    assert forall form :: NamesIn([a, b], form) == NamesIn([a], form);
    assert LexicalNamesOf([a, b]) == LexicalNamesOf([a]);
    hide NamesIn, LexicalNamesOf;
  }

  lemma HoistedOfTwo(n: Node, s: Step, t: Step, x: string, shadow: Names)
    requires IsKind(n, Block) && Parts(n) == [s, t]
    ensures Hoisted(n, x, false, shadow, false) <==>
            Hoisted(s.to, x, false, shadow + s.hides, false) || Hoisted(t.to, x, false, shadow + t.hides, false)
  {
    DeclaresNothing(n, x, false, shadow, false);
    hide Parts, Hoisted, Hoists;
    HoistedUnfold(n, x, false, shadow, false);
    assert HoistedThrough(s, x, false, shadow, false) <==> HoistedThrough(Parts(n)[0], x, false, shadow, false);
    assert HoistedThrough(t, x, false, shadow, false) <==> HoistedThrough(Parts(n)[1], x, false, shadow, false);
    assert forall i :: 0 <= i < |Parts(n)| ==> Parts(n)[i] == s || Parts(n)[i] == t;
  }

  lemma CollectedOfTwo(n: Node, s: Step, t: Step, x: string, shadow: Names)
    requires IsKind(n, Block) && Steps(n) == [s, t]
    ensures x in Collected(n, false, shadow, false) <==>
            x in Collected(s.to, false, shadow + s.hides, false) || x in Collected(t.to, false, shadow + t.hides, false)
  {
    hide Steps, Collected;
    assert Steps(n)[0] == s && Steps(n)[1] == t;
    ThroughTwo(n, s, t, false, shadow, false);
    OnlyThrough(n, false, shadow, false);
  }

  lemma NestedUnfold(a: Node, f: string)
    requires f != ""
    ensures Hoisted(Nested(a, f), f, false, {}, false) <==>
            Hoisted(a, f, false, DeclaredIn([a]), false) || f !in DeclaredIn([a])
    ensures f in Collected(Nested(a, f), false, {}, false) <==>
            f in Collected(a, false, LexicalNamesOf([a]), false) || f !in LexicalNamesOf([a])
  {
    var b := List([Function(f, false)]);
    var n, all, seen := Nested(a, f), DeclaredIn([a]), LexicalNamesOf([a]);
    hide DeclaredIn, LexicalNamesOf, Hoisted, Collected, Parts, Steps;
    var none: Names := {};
    assert none + all == all && none + seen == seen;
    TwoStatements(a, f);
    HoistedOfTwo(n, Step(a, true, all), Step(b, true, all), f, none);
    CollectedOfTwo(n, Step(a, true, seen), Step(b, true, seen), f, none);
    InnerFunction(f, all);
    InnerFunction(f, seen);
  }

  /** { async function f() {} { function f() {} } }: the outer function hides the inner one, but it is collected. */
  lemma AsyncFunctionDoesNotHide(f: string)
    requires f != ""
    ensures var n := Nested(Function(f, true), f); !Hoisted(n, f, false, {}, false) && f in Collected(n, false, {}, false)
  {
    var a := Function(f, true);
    OneStatement(a);
    NestedUnfold(a, f);
    HoistedUnfold(a, f, false, {f}, false);
  }

  /** { (class f {}); { function f() {} } }: the class declares nothing to the block, but it keeps the function from being
    * collected.
    */
  lemma ClassExpressionHides(f: string)
    requires f != ""
    ensures var n := Nested(ClassValue(f), f); Hoisted(n, f, false, {}, false) && f !in Collected(n, false, {}, false)
  {
    OneStatement(ClassValue(f));
    NestedUnfold(ClassValue(f), f);
  }

  // a using head

  function UsingLoop(f: string): Node {
    Blank.(kind := ForOf, left := Declaration(VarUsing, f), body := List([Function(f, false)]))
  }

  lemma NothingIn(n: Node, f: string, shadow: Names)
    requires n.Nil? || (IsKind(n, Var) && n.varKind != VarVar)
    ensures !Hoisted(n, f, false, shadow, false)
  {
    HoistedUnfold(n, f, false, shadow, false);
  }

  /** for (using f of ...) { function f() {} }: the head hides the function, but it is collected. */
  lemma UsingHeadDoesNotHide(f: string)
    requires f != ""
    ensures !Hoisted(UsingLoop(f), f, false, {}, false) && f in Collected(UsingLoop(f), false, {}, false)
  {
    var n := UsingLoop(f);
    var none: Names := {};
    DeclarationNames(VarUsing, f);
    assert DeclaredInHead(Nil) + DeclaredInHead(n.left) == {f} && HeadNames(Nil) + HeadNames(n.left) == {};
    assert none + {f} == {f} && none + {} == none;
    NothingIn(n.left, f, {f});
    hide DeclaredInHead, HeadNames, Hoisted, Collected;
    HoistedOfLoop(n, f, false, none, false);
    CollectedOfFor(n, false, none, false);
    InnerFunction(f, none);
    InnerFunction(f, {f});
    NothingIn(Nil, f, {f});
  }

  // what the rule says of plain declarations

  function ClassDeclaration(x: string): Node {
    Blank.(kind := Class, str := x)
  }

  /** At the top level every function and every class declaration is hoisted, below it a plain function in sloppy code that
    * nothing hides; and such statements are ordinary.
    */
  lemma DeclarationsAreHoisted(f: string, special: bool, topLevel: bool, shadow: Names, strict: bool)
    requires f != ""
    ensures Hoisted(Function(f, special), f, topLevel, shadow, strict) <==>
              topLevel || (!strict && !special && f !in shadow)
    ensures Hoisted(ClassDeclaration(f), f, topLevel, shadow, strict) <==> topLevel
    ensures IsOrdinary(Function(f, special)) && IsOrdinary(ClassDeclaration(f))
  {
    NoParts(Function(f, special), f, topLevel, shadow, strict);
    NoParts(ClassDeclaration(f), f, topLevel, shadow, strict);
    hide Hoisted, Parts;
  }

  lemma NoParts(n: Node, x: string, topLevel: bool, shadow: Names, strict: bool)
    requires n.Node? && (n.kind == Func || n.kind == Class)
    ensures Parts(n) == []
    ensures Hoisted(n, x, topLevel, shadow, strict) <==> Hoists(n, [], x, topLevel, shadow, strict)
  {
    HoistedUnfold(n, x, topLevel, shadow, strict);
    hide Hoisted, Hoists;
  }

  /** let, const, using and await using hide, in a list and in the head of a loop, and var does not; so does a class in a list,
    * and an async function or a generator.
    */
  lemma DeclarationsHide(k: VarKind, x: string, special: bool)
    requires x != ""
    ensures var lexical := k == VarLet || k == VarConst || k == VarUsing || k == VarAwaitUsing;
            && DeclaredInHead(Declaration(k, x)) == (if lexical then {x} else {})
            && DeclaredIn([Declaration(k, x)]) == (if lexical then {x} else {})
    ensures DeclaredIn([ClassDeclaration(x)]) == {x} && DeclaredIn([ClassValue(x)]) == {}
    ensures DeclaredIn([Function(x, special)]) == if special then {x} else {}
  {
    DeclarationNames(k, x);
    OneStatement(Declaration(k, x));
    OneStatement(ClassDeclaration(x));
    OneStatement(ClassValue(x));
    OneStatement(Function(x, special));
    hide DeclaratorNames, DeclaredIn, LexicalNamesOf;
  }

  function Exported(d: Node): Node {
    Blank.(kind := Export, left := d)
  }

  /** export d declares at the top level what d declares, and the collectors find none of it. */
  lemma ExportIsOverlooked(d: Node, x: string, shadow: Names, strict: bool)
    ensures Hoisted(Exported(d), x, true, shadow, strict) <==> Hoisted(d, x, true, shadow, strict)
    ensures Collected(Exported(d), true, shadow, strict) == {} && BodyVarNames(Exported(d)) == {}
  {
    var n := Exported(d);
    assert Parts(n) == [Step(d, false, {})] && Steps(n) == [] && VarScopes(n) == [];
    assert !Hoists(n, [], x, true, shadow, strict) && shadow + {} == shadow;
    HoistedUnfold(n, x, true, shadow, strict);
    hide Hoisted, Hoists, Parts;
    assert HoistedThrough(Parts(n)[0], x, true, shadow, strict) <==> Hoisted(d, x, true, shadow, strict);
  }
}
