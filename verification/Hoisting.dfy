/** Which names the collectors find that a body hoists to its function or script scope (internal/engine/ast.go,
  * collectVarFuncNamesNode and its helpers).  They add to a mutable table of names; what they add is characterised by the
  * walks that they take through the tree.  HoistingRule compares that with the language's rule.
  */
module Hoisting {
  import opened Syntax

  type Names = set<string>

  /** The map[string]bool that the collectors share. */
  class NameTable {
    var names: Names

    constructor (names: Names)
      ensures this.names == names
    {
      this.names := names;
    }
  }

  // ----- binding targets -----

  /** The targets directly inside a binding target. */
  function SubPatterns(pat: Node): (r: seq<Node>)
    ensures forall i :: 0 <= i < |r| && r[i].Node? ==> r[i] < pat
  {
    if pat.Nil? then []
    else match pat.kind
      case Array => pat.args
      case Object => seq(|pat.args|, i requires 0 <= i < |pat.args| => if pat.args[i].Node? then pat.args[i].right else Nil)
      case AssignPat => [pat.left]
      case Assign => if pat.plainAssign then [pat.left] else []
      case Rest => [pat.right]
      case Spread => [pat.right]
      case _ => []
  }

  function BindingNames(pat: Node): Names
    decreases pat, 1, 0
  {
    (if IsKind(pat, Ident) then {pat.str} else {}) + FirstNames(pat, |SubPatterns(pat)|)
  }

  /** The names bound by the first k targets inside a target. */
  function FirstNames(pat: Node, k: nat): Names
    requires k <= |SubPatterns(pat)|
    decreases pat, 0, k
  {
    if k == 0 then {}
    else
      var p := SubPatterns(pat)[k - 1];
      FirstNames(pat, k - 1) + if p.Nil? then {} else BindingNames(p)
  }

  /** The names bound by a list of declarators. */
  function DeclaratorNames(ds: seq<Node>): Names {
    if ds == [] then {}
    else
      var d := ds[|ds| - 1];
      DeclaratorNames(ds[..|ds| - 1]) + if d.Nil? then {} else BindingNames(d.left)
  }

  /** m is written directly inside the binding target n: an element of an array pattern, the value of a property of an object
    * pattern, what a default is given to, or what rest collects into.
    */
  predicate IsTarget(n: Node, m: Node) {
    n.Node? && m.Node? &&
    (|| (n.kind == Array && exists i :: 0 <= i < |n.args| && n.args[i] == m)
     || (n.kind == Object && exists i :: 0 <= i < |n.args| && n.args[i].Node? && n.args[i].right == m)
     || (n.kind == AssignPat && n.left == m)
     || (n.kind == Assign && n.plainAssign && n.left == m)
     || (n.kind == Rest && n.right == m)
     || (n.kind == Spread && n.right == m))
  }

  /** The targets lead from the first, each inside the one before, to the identifier x. */
  predicate LeadsTo(ms: seq<Node>, x: string) {
    && ms != [] && IsKind(ms[|ms| - 1], Ident) && ms[|ms| - 1].str == x
    && forall i :: 0 <= i < |ms| - 1 ==> IsTarget(ms[i], ms[i + 1])
  }

  /** A binding target binds x exactly when it leads to x. */
  lemma BindsIff(pat: Node, x: string)
    ensures x in BindingNames(pat) <==> exists ms :: LeadsTo(ms, x) && ms[0] == pat
  {
    if x in BindingNames(pat) {
      SomeTargets(pat, x);
    }
    if ms :| LeadsTo(ms, x) && ms[0] == pat {
      TargetsBind(ms, x);
    }
  }

  lemma {:induction false} SomeTargets(pat: Node, x: string)
    requires x in BindingNames(pat)
    ensures exists ms :: LeadsTo(ms, x) && ms[0] == pat
    decreases pat
  {
    var subs := SubPatterns(pat);
    FirstHas(pat, |subs|, x);
    TargetsAre(pat);
    hide SubPatterns, FirstNames, IsTarget;
    if IsKind(pat, Ident) && x == pat.str {
      assert LeadsTo([pat], x);
    } else {
      var i :| 0 <= i < |subs| && subs[i].Node? && x in BindingNames(subs[i]);
      SomeTargets(subs[i], x);
      var ms :| LeadsTo(ms, x) && ms[0] == subs[i];
      hide LeadsTo, BindingNames;
      Longer(pat, ms, x);
    }
  }

  lemma {:induction false} TargetsBind(ms: seq<Node>, x: string)
    requires LeadsTo(ms, x)
    ensures x in BindingNames(ms[0])
    decreases |ms|
  {
    if |ms| > 1 {
      var pat := ms[0];
      Shorter(ms, x);
      TargetsAre(pat);
      FirstHas(pat, |SubPatterns(pat)|, x);
      hide SubPatterns, FirstNames, IsTarget, LeadsTo;
      TargetsBind(ms[1..], x);
      var i :| 0 <= i < |SubPatterns(pat)| && SubPatterns(pat)[i] == ms[1];
    }
  }

  lemma Longer(pat: Node, ms: seq<Node>, x: string)
    requires LeadsTo(ms, x) && IsTarget(pat, ms[0])
    ensures LeadsTo([pat] + ms, x) && ([pat] + ms)[0] == pat
  {
    hide IsTarget;
    var longer := [pat] + ms;
    assert longer[|longer| - 1] == ms[|ms| - 1];
    assert forall i :: 0 < i < |longer| - 1 ==> longer[i] == ms[i - 1] && longer[i + 1] == ms[i];
  }

  lemma Shorter(ms: seq<Node>, x: string)
    requires LeadsTo(ms, x) && |ms| > 1
    ensures LeadsTo(ms[1..], x) && ms[1..][0] == ms[1] && IsTarget(ms[0], ms[1])
  {
    assert ms[1..][|ms| - 2] == ms[|ms| - 1];
    hide IsTarget;
    var rest := ms[1..];
    forall i | 0 <= i < |rest| - 1
      ensures IsTarget(rest[i], rest[i + 1])
    {
      assert rest[i] == ms[i + 1] && rest[i + 1] == ms[i + 2];
    }
  }

  lemma {:induction false} FirstHas(pat: Node, k: nat, x: string)
    requires k <= |SubPatterns(pat)|
    ensures x in FirstNames(pat, k) <==>
            exists i :: 0 <= i < k && SubPatterns(pat)[i].Node? && x in BindingNames(SubPatterns(pat)[i])
    decreases k
  {
    if k > 0 {
      FirstHas(pat, k - 1, x);
      hide SubPatterns, BindingNames;
    }
  }

  lemma TargetsAre(pat: Node)
    ensures forall m: Node :: IsTarget(pat, m) <==> m.Node? && exists i :: 0 <= i < |SubPatterns(pat)| && SubPatterns(pat)[i] == m
  {
    var subs := SubPatterns(pat);
    assert IsKind(pat, Object) ==> |subs| == |pat.args|;
    assert IsKind(pat, Object) ==> forall i :: 0 <= i < |subs| ==> subs[i] == if pat.args[i].Node? then pat.args[i].right else Nil;
    assert IsKind(pat, Array) ==> subs == pat.args;
    assert pat.Node? && pat.kind != Array && pat.kind != Object ==> |subs| <= 1 && (subs != [] ==> subs == [subs[0]]);
    forall m: Node | m.Node?
      ensures IsTarget(pat, m) <==> exists i :: 0 <= i < |subs| && subs[i] == m
    {
      if i :| 0 <= i < |subs| && subs[i] == m {
        assert IsKind(pat, Object) ==> pat.args[i].Node? && pat.args[i].right == m;
      }
      if IsTarget(pat, m) && pat.kind == Object {
        var i :| 0 <= i < |pat.args| && pat.args[i].Node? && pat.args[i].right == m;
        assert subs[i] == m;
      } else if IsTarget(pat, m) && pat.kind != Array {
        assert subs[0] == m;
      }
    }
  }

  /** A list of declarators binds what its targets bind. */
  lemma {:induction false} DeclaratorsBind(ds: seq<Node>, x: string)
    ensures x in DeclaratorNames(ds) <==> exists i :: 0 <= i < |ds| && ds[i].Node? && x in BindingNames(ds[i].left)
  {
    if ds != [] {
      var n := |ds| - 1;
      DeclaratorsBind(ds[..n], x);
      hide BindingNames;
      assert forall i :: 0 <= i < n ==> ds[..n][i] == ds[i];
    }
  }

  predicate IsLexical(k: VarKind) {
    k == VarLet || k == VarConst || k == VarUsing || k == VarAwaitUsing
  }

  function LexicalNames(s: Node): Names {
    if IsKind(s, Var) && IsLexical(s.varKind) then DeclaratorNames(s.args)
    else if IsKind(s, Class) && s.str != "" then {s.str}
    else {}
  }

  /** What a statement list declares lexically at its own level. */
  function LexicalNamesOf(ss: seq<Node>): Names {
    if ss == [] then {} else LexicalNamesOf(ss[..|ss| - 1]) + LexicalNames(ss[|ss| - 1])
  }

  /** Those are the names of its let, const, using and await using declarations and of its classes. */
  lemma {:induction false} ListDeclares(ss: seq<Node>, x: string)
    ensures x in LexicalNamesOf(ss) <==>
              exists i | 0 <= i < |ss| && ss[i].Node? ::
                || (ss[i].kind == Class && x == ss[i].str && x != "")
                || (ss[i].kind == Var && ss[i].varKind in {VarLet, VarConst, VarUsing, VarAwaitUsing} && x in DeclaratorNames(ss[i].args))
  {
    if ss != [] {
      var n := |ss| - 1;
      ListDeclares(ss[..n], x);
      hide DeclaratorNames;
      assert forall i :: 0 <= i < n ==> ss[..n][i] == ss[i];
    }
  }

  /** A for head counts only let and const. */
  function HeadNames(head: Node): Names {
    if IsKind(head, Var) && (head.varKind == VarLet || head.varKind == VarConst) then DeclaratorNames(head.args) else {}
  }

  /** All clauses of a switch are one lexical scope. */
  function CaseBlockNames(cases: seq<Node>): Names {
    if cases == [] then {}
    else
      var c := cases[|cases| - 1];
      CaseBlockNames(cases[..|cases| - 1]) + if c.Nil? then {} else LexicalNamesOf(c.args)
  }

  function CatchNames(param: Node): Names {
    if IsKind(param, Array) || IsKind(param, Object) then BindingNames(param) else {}
  }

  // ----- the collectors' steps from a statement to statements directly inside it -----

  /** nested: the step leaves the top level.  hides: what the step's scope declares lexically. */
  datatype Step = Step(to: Node, nested: bool, hides: Names)

  function Enter(ss: seq<Node>, nested: bool, hides: Names): (r: seq<Step>)
    ensures |r| == |ss| && forall i :: 0 <= i < |ss| ==> r[i] == Step(ss[i], nested, hides)
  {
    seq(|ss|, i requires 0 <= i < |ss| => Step(ss[i], nested, hides))
  }

  function Steps(n: Node): (r: seq<Step>)
    ensures forall i :: 0 <= i < |r| ==> r[i].to < n
  {
    if n.Nil? then []
    else match n.kind
      case Block => Enter(n.args, true, LexicalNamesOf(n.args))
      case Case => Enter(n.args, true, {})
      case Program => Enter(n.args, false, {})
      case Switch => Enter(n.args, true, CaseBlockNames(n.args))
      case Label => [Step(n.body, false, {})]
      case If => [Step(n.left, true, {}), Step(n.right, true, {})]
      case While => [Step(n.body, true, {})]
      case DoWhile => [Step(n.body, true, {})]
      case With => [Step(n.body, true, {})]
      case For => ForSteps(n)
      case ForIn => ForSteps(n)
      case ForOf => ForSteps(n)
      case Try =>
        [Step(n.body, true, {}), Step(n.catchBody, true, CatchNames(n.catchParam)), Step(n.finallyBody, true, {})]
      case _ => []
  }

  function ForSteps(n: Node): seq<Step>
    requires n.Node?
  {
    var hides := HeadNames(n.init) + HeadNames(n.left);
    [Step(n.init, true, hides), Step(n.left, true, hides), Step(n.body, true, hides)]
  }

  /** A walk names one of the collectors' steps after another. */
  predicate IsWalk(n: Node, walk: seq<nat>)
    decreases |walk|
  {
    walk == [] || (walk[0] < |Steps(n)| && IsWalk(Steps(n)[walk[0]].to, walk[1..]))
  }

  function WalkEnd(n: Node, walk: seq<nat>): Node
    requires IsWalk(n, walk)
    decreases |walk|
  {
    if walk == [] then n else WalkEnd(Steps(n)[walk[0]].to, walk[1..])
  }

  predicate WalkAtTop(n: Node, walk: seq<nat>)
    requires IsWalk(n, walk)
    decreases |walk|
  {
    walk == [] || (!Steps(n)[walk[0]].nested && WalkAtTop(Steps(n)[walk[0]].to, walk[1..]))
  }

  function WalkHides(n: Node, walk: seq<nat>): Names
    requires IsWalk(n, walk)
    decreases |walk|
  {
    if walk == [] then {} else Steps(n)[walk[0]].hides + WalkHides(Steps(n)[walk[0]].to, walk[1..])
  }

  // ----- one name and one walk -----

  predicate DeclaresVar(n: Node, x: string) {
    IsKind(n, Var) && n.varKind == VarVar && x in DeclaratorNames(n.args)
  }

  predicate WalkDeclaresVar(n: Node, walk: seq<nat>, x: string) {
    IsWalk(n, walk) && DeclaresVar(WalkEnd(n, walk), x)
  }

  predicate IsFunction(n: Node, x: string) {
    IsKind(n, Func) && !n.arrow && n.str == x && x != ""
  }

  /** Neither async nor a generator. */
  predicate IsPlainFunction(n: Node, x: string) {
    IsFunction(n, x) && !n.special
  }

  predicate IsClass(n: Node, x: string) {
    IsKind(n, Class) && n.str == x && x != ""
  }

  /** x is found because of the declaration at the end of the walk. */
  predicate WalkHoists(n: Node, walk: seq<nat>, x: string, topLevel: bool, shadow: Names, strict: bool) {
    IsWalk(n, walk) &&
    var e := WalkEnd(n, walk);
    || DeclaresVar(e, x)
    || (topLevel && WalkAtTop(n, walk) && (IsFunction(e, x) || IsClass(e, x)))
    || (!strict && IsPlainFunction(e, x) && x !in shadow && x !in WalkHides(n, walk))
  }

  // ----- what the walk adds -----

  /** What the node itself adds. */
  function Own(n: Node, topLevel: bool, shadow: Names, strict: bool): Names {
    if n.Nil? then {}
    else match n.kind
      case Func =>
        if && n.str != "" && !n.arrow && (topLevel || !strict) && (topLevel || !n.special)
           && (topLevel || n.str !in shadow)
        then {n.str} else {}
      case Var => if n.varKind == VarVar then DeclaratorNames(n.args) else {}
      case Class => if topLevel && n.str != "" then {n.str} else {}
      case _ => {}
  }

  function Collected(n: Node, topLevel: bool, shadow: Names, strict: bool): Names
    decreases n, 1, 0
  {
    Own(n, topLevel, shadow, strict) + Through(n, Steps(n), topLevel, shadow, strict)
  }

  ghost predicate Inside(steps: seq<Step>, n: Node) {
    forall i :: 0 <= i < |steps| ==> steps[i].to < n
  }

  /** What the given steps into n add. */
  function Through(n: Node, steps: seq<Step>, topLevel: bool, shadow: Names, strict: bool): Names
    requires Inside(steps, n)
    decreases n, 0, |steps|
  {
    if steps == [] then {}
    else
      var s := steps[|steps| - 1];
      Through(n, steps[..|steps| - 1], topLevel, shadow, strict)
      + Collected(s.to, topLevel && !s.nested, shadow + s.hides, strict)
  }

  /** What one step adds. */
  function StepNames(s: Step, topLevel: bool, shadow: Names, strict: bool): Names {
    Collected(s.to, topLevel && !s.nested, shadow + s.hides, strict)
  }

  lemma {:induction false} ThroughHas(n: Node, steps: seq<Step>, x: string, topLevel: bool, shadow: Names, strict: bool)
    requires Inside(steps, n)
    ensures x in Through(n, steps, topLevel, shadow, strict) <==>
            exists i | 0 <= i < |steps| :: x in StepNames(steps[i], topLevel, shadow, strict)
    decreases |steps|
  {
    if steps != [] {
      var init, last := steps[..|steps| - 1], steps[|steps| - 1];
      assert x in Through(n, steps, topLevel, shadow, strict) <==>
             x in Through(n, init, topLevel, shadow, strict) || x in StepNames(last, topLevel, shadow, strict);
      assert Inside(init, n);
      hide *;
      ThroughHas(n, init, x, topLevel, shadow, strict);
      assert forall i :: 0 <= i < |init| ==> init[i] == steps[i];
    }
  }

  /** A name is collected exactly when some walk finds it. */
  lemma CollectedIffWalk(n: Node, x: string, topLevel: bool, shadow: Names, strict: bool)
    ensures x in Collected(n, topLevel, shadow, strict) <==>
            exists walk :: WalkHoists(n, walk, x, topLevel, shadow, strict)
  {
    if x in Collected(n, topLevel, shadow, strict) {
      SomeWalk(n, x, topLevel, shadow, strict);
    }
    if walk :| WalkHoists(n, walk, x, topLevel, shadow, strict) {
      WalkCollects(n, walk, x, topLevel, shadow, strict);
    }
  }

  lemma {:induction false} WalkCollects(n: Node, walk: seq<nat>, x: string, topLevel: bool, shadow: Names, strict: bool)
    requires WalkHoists(n, walk, x, topLevel, shadow, strict)
    ensures x in Collected(n, topLevel, shadow, strict)
    decreases |walk|
  {
    if walk == [] {
      assert x in Own(n, topLevel, shadow, strict);
    } else {
      var s := Steps(n)[walk[0]];
      assert walk == [walk[0]] + walk[1..];
      WalkStep(n, walk[0], walk[1..], x, topLevel, shadow, strict);
      WalkCollects(s.to, walk[1..], x, topLevel && !s.nested, shadow + s.hides, strict);
      assert x in StepNames(s, topLevel, shadow, strict);
      ThroughHas(n, Steps(n), x, topLevel, shadow, strict);
    }
  }

  lemma {:induction false} SomeWalk(n: Node, x: string, topLevel: bool, shadow: Names, strict: bool)
    requires x in Collected(n, topLevel, shadow, strict)
    ensures exists walk :: WalkHoists(n, walk, x, topLevel, shadow, strict)
    decreases n
  {
    if x in Own(n, topLevel, shadow, strict) {
      assert WalkHoists(n, [], x, topLevel, shadow, strict);
    } else {
      ThroughHas(n, Steps(n), x, topLevel, shadow, strict);
      var i :| 0 <= i < |Steps(n)| && x in StepNames(Steps(n)[i], topLevel, shadow, strict);
      var s := Steps(n)[i];
      SomeWalk(s.to, x, topLevel && !s.nested, shadow + s.hides, strict);
      var rest :| WalkHoists(s.to, rest, x, topLevel && !s.nested, shadow + s.hides, strict);
      WalkStep(n, i, rest, x, topLevel, shadow, strict);
    }
  }

  /** Taking a step and then a walk is the longer walk. */
  lemma WalkStep(n: Node, i: nat, rest: seq<nat>, x: string, topLevel: bool, shadow: Names, strict: bool)
    requires i < |Steps(n)|
    ensures WalkHoists(n, [i] + rest, x, topLevel, shadow, strict) <==>
            WalkHoists(Steps(n)[i].to, rest, x, topLevel && !Steps(n)[i].nested, shadow + Steps(n)[i].hides, strict)
  {
    var walk := [i] + rest;
    assert walk[1..] == rest;
    assert IsWalk(n, walk) <==> IsWalk(Steps(n)[i].to, rest);
  }

  // ----- collectBodyVarNames -----

  /** The statements that collectBodyVarNames goes into. */
  function VarScopes(n: Node): (r: seq<Node>)
    ensures forall i :: 0 <= i < |r| ==> r[i] < n
  {
    if n.Nil? then []
    else match n.kind
      case Block => n.args
      case Case => n.args
      case Program => n.args
      case Switch => n.args
      case If => [n.left, n.right]
      case While => [n.body]
      case DoWhile => [n.body]
      case With => [n.body]
      case Label => [n.body]
      case For => [n.init, n.left, n.body]
      case ForIn => [n.init, n.left, n.body]
      case ForOf => [n.init, n.left, n.body]
      case Try => [n.body, n.catchBody, n.finallyBody]
      case _ => []
  }

  function VarsHere(n: Node): Names {
    if IsKind(n, Var) && n.varKind == VarVar then DeclaratorNames(n.args) else {}
  }

  function BodyVarNames(n: Node): Names
    decreases n, 1, 0
  {
    VarsHere(n) + BodyVarNamesOf(n, VarScopes(n))
  }

  function BodyVarNamesOf(n: Node, ss: seq<Node>): Names
    requires forall i :: 0 <= i < |ss| ==> ss[i] < n
    decreases n, 0, |ss|
  {
    if ss == [] then {} else BodyVarNamesOf(n, ss[..|ss| - 1]) + BodyVarNames(ss[|ss| - 1])
  }

  predicate SameTargets(steps: seq<Step>, ss: seq<Node>) {
    |steps| == |ss| && forall i :: 0 <= i < |ss| ==> steps[i].to == ss[i]
  }

  /** In strict code below the top level the two collectors agree, whatever is shadowed. */
  lemma {:induction false} StrictIsBodyVarNames(n: Node, shadow: Names)
    ensures Collected(n, false, shadow, true) == BodyVarNames(n)
    decreases n, 1, 0
  {
    SameScopes(n);
    assert Own(n, false, shadow, true) == VarsHere(n);
    hide Steps, VarScopes, Own, VarsHere;
    StrictThrough(n, Steps(n), VarScopes(n), shadow);
  }

  lemma SameScopes(n: Node)
    ensures SameTargets(Steps(n), VarScopes(n))
  {
    hide LexicalNamesOf, CaseBlockNames, CatchNames, HeadNames;
  }

  lemma {:induction false} StrictThrough(n: Node, steps: seq<Step>, ss: seq<Node>, shadow: Names)
    requires Inside(steps, n) && SameTargets(steps, ss)
    ensures Through(n, steps, false, shadow, true) == BodyVarNamesOf(n, ss)
    decreases n, 0, |steps|
  {
    if steps != [] {
      StrictThrough(n, steps[..|steps| - 1], ss[..|ss| - 1], shadow);
      StrictIsBodyVarNames(ss[|ss| - 1], shadow + steps[|ss| - 1].hides);
    }
  }

  /** So the names that collectBodyVarNames reports are those that some walk finds declared with var. */
  lemma BodyVarNamesIffWalk(n: Node, x: string)
    ensures x in BodyVarNames(n) <==> exists walk :: WalkDeclaresVar(n, walk, x)
  {
    StrictIsBodyVarNames(n, {});
    CollectedIffWalk(n, x, false, {}, true);
    forall walk
      ensures WalkHoists(n, walk, x, false, {}, true) <==> WalkDeclaresVar(n, walk, x)
    {
    }
  }

  /** The web-compatibility extension only ever adds names, and a larger shadow only removes them. */
  lemma Monotone(n: Node, topLevel: bool, shadow: Names, more: Names, strict: bool)
    requires shadow <= more
    ensures BodyVarNames(n) <= Collected(n, topLevel, more, true) <= Collected(n, topLevel, more, strict)
    ensures Collected(n, topLevel, more, strict) <= Collected(n, topLevel, shadow, strict)
  {
    forall x
      ensures x in BodyVarNames(n) ==> x in Collected(n, topLevel, more, true)
      ensures x in Collected(n, topLevel, more, true) ==> x in Collected(n, topLevel, more, strict)
      ensures x in Collected(n, topLevel, more, strict) ==> x in Collected(n, topLevel, shadow, strict)
    {
      BodyVarNamesIffWalk(n, x);
      CollectedIffWalk(n, x, topLevel, more, true);
      CollectedIffWalk(n, x, topLevel, more, strict);
      CollectedIffWalk(n, x, topLevel, shadow, strict);
      if walk :| WalkDeclaresVar(n, walk, x) {
        assert WalkHoists(n, walk, x, topLevel, more, true);
      }
      if walk :| WalkHoists(n, walk, x, topLevel, more, true) {
        assert WalkHoists(n, walk, x, topLevel, more, strict);
      }
      if walk :| WalkHoists(n, walk, x, topLevel, more, strict) {
        assert WalkHoists(n, walk, x, topLevel, shadow, strict);
      }
    }
  }

  // ----- the collectors -----

  method CollectBindingNames(pat: Node, out: NameTable)
    modifies out
    ensures out.names == old(out.names) + BindingNames(pat)
    decreases pat, 1
  {
    if pat.Nil? {
      return;
    }
    match pat.kind {
      case Ident => out.names := out.names + {pat.str};
      case Array => CollectElements(pat, out);
      case Object => CollectProperties(pat, out);
      case AssignPat =>
        OneTarget(pat, pat.left);
        CollectBindingNames(pat.left, out);
      case Assign =>
        if pat.plainAssign {
          OneTarget(pat, pat.left);
          CollectBindingNames(pat.left, out);
        }
      case Rest =>
        OneTarget(pat, pat.right);
        CollectBindingNames(pat.right, out);
      case Spread =>
        OneTarget(pat, pat.right);
        CollectBindingNames(pat.right, out);
      case _ =>
    }
  }

  method CollectElements(pat: Node, out: NameTable)
    requires IsKind(pat, Array)
    modifies out
    ensures out.names == old(out.names) + BindingNames(pat)
    decreases pat, 0
  {
    for i := 0 to |pat.args|
      invariant out.names == old(out.names) + FirstNames(pat, i)
    {
      NilBindsNothing(pat.args[i]);
      CollectBindingNames(pat.args[i], out);
    }
  }

  method CollectProperties(pat: Node, out: NameTable)
    requires IsKind(pat, Object)
    modifies out
    ensures out.names == old(out.names) + BindingNames(pat)
    decreases pat, 0
  {
    for i := 0 to |pat.args|
      invariant out.names == old(out.names) + FirstNames(pat, i)
    {
      if pat.args[i].Node? {
        NilBindsNothing(pat.args[i].right);
        CollectBindingNames(pat.args[i].right, out);
      }
    }
  }

  lemma NilBindsNothing(pat: Node)
    ensures pat.Nil? ==> BindingNames(pat) == {}
  {
  }

  lemma OneTarget(pat: Node, p: Node)
    requires pat.Node? && pat.kind != Ident && SubPatterns(pat) == [p]
    ensures BindingNames(pat) == BindingNames(p)
  {
    NilBindsNothing(p);
    assert FirstNames(pat, 1) == FirstNames(pat, 0) + if p.Nil? then {} else BindingNames(p);
  }

  /** The loop over the declarators of one declaration. */
  method CollectDeclarators(ds: seq<Node>, out: NameTable)
    modifies out
    ensures out.names == old(out.names) + DeclaratorNames(ds)
  {
    for i := 0 to |ds|
      invariant out.names == old(out.names) + DeclaratorNames(ds[..i])
    {
      assert ds[..i + 1][..i] == ds[..i];
      if ds[i].Node? {
        CollectBindingNames(ds[i].left, out);
      }
    }
    assert ds[..|ds|] == ds;
  }

  method LexNamesOfList(ss: seq<Node>, out: NameTable)
    modifies out
    ensures out.names == old(out.names) + LexicalNamesOf(ss)
  {
    for i := 0 to |ss|
      invariant out.names == old(out.names) + LexicalNamesOf(ss[..i])
    {
      assert ss[..i + 1][..i] == ss[..i];
      var s := ss[i];
      if s.Node? {
        if s.kind == Var && IsLexical(s.varKind) {
          CollectDeclarators(s.args, out);
        } else if s.kind == Class && s.str != "" {
          out.names := out.names + {s.str};
        }
      }
    }
    assert ss[..|ss|] == ss;
  }

  /** The loop over the clauses of a switch. */
  method LexNamesOfCases(cases: seq<Node>, out: NameTable)
    modifies out
    ensures out.names == old(out.names) + CaseBlockNames(cases)
  {
    for i := 0 to |cases|
      invariant out.names == old(out.names) + CaseBlockNames(cases[..i])
    {
      assert cases[..i + 1][..i] == cases[..i];
      if cases[i].Node? {
        LexNamesOfList(cases[i].args, out);
      }
    }
    assert cases[..|cases|] == cases;
  }

  method LexNamesOfForHead(head: Node, out: NameTable)
    modifies out
    ensures out.names == old(out.names) + HeadNames(head)
  {
    if head.Node? && head.kind == Var && (head.varKind == VarLet || head.varKind == VarConst) {
      CollectDeclarators(head.args, out);
    }
  }

  method CollectBodyVarNames(n: Node, out: NameTable)
    modifies out
    ensures out.names == old(out.names) + BodyVarNames(n)
    decreases n, 1
  {
    if n.Nil? {
      return;
    }
    match n.kind {
      case Var =>
        if n.varKind == VarVar {
          CollectDeclarators(n.args, out);
        }
      case Block => CollectBodies(n, out);
      case Case => CollectBodies(n, out);
      case Program => CollectBodies(n, out);
      case Switch => CollectBodies(n, out);
      case If =>
        CollectBodyVarNames(n.left, out);
        CollectBodyVarNames(n.right, out);
        BodiesOfThree(n, n.left, n.right, n.right);
      case While => CollectBodyInside(n, out);
      case DoWhile => CollectBodyInside(n, out);
      case With => CollectBodyInside(n, out);
      case Label => CollectBodyInside(n, out);
      case For => CollectBodyOfFor(n, out);
      case ForIn => CollectBodyOfFor(n, out);
      case ForOf => CollectBodyOfFor(n, out);
      case Try =>
        CollectBodyVarNames(n.body, out);
        CollectBodyVarNames(n.catchBody, out);
        CollectBodyVarNames(n.finallyBody, out);
        BodiesOfThree(n, n.body, n.catchBody, n.finallyBody);
      case _ =>
    }
  }

  method CollectBodyInside(n: Node, out: NameTable)
    requires IsKind(n, While) || IsKind(n, DoWhile) || IsKind(n, With) || IsKind(n, Label)
    modifies out
    ensures out.names == old(out.names) + BodyVarNames(n)
    decreases n, 0
  {
    BodyOfOne(n);
    hide BodyVarNames;
    CollectBodyVarNames(n.body, out);
  }

  lemma BodyOfOne(n: Node)
    requires IsKind(n, While) || IsKind(n, DoWhile) || IsKind(n, With) || IsKind(n, Label)
    ensures BodyVarNames(n) == BodyVarNames(n.body)
  {
    assert VarScopes(n) == [n.body] && VarsHere(n) == {};
    BodiesOfThree(n, n.body, n.body, n.body);
  }

  method CollectBodyOfFor(n: Node, out: NameTable)
    requires IsKind(n, For) || IsKind(n, ForIn) || IsKind(n, ForOf)
    modifies out
    ensures out.names == old(out.names) + BodyVarNames(n)
    decreases n, 0
  {
    BodiesOfFor(n);
    hide BodyVarNames;
    CollectBodyVarNames(n.init, out);
    CollectBodyVarNames(n.left, out);
    CollectBodyVarNames(n.body, out);
  }

  lemma BodiesOfFor(n: Node)
    requires IsKind(n, For) || IsKind(n, ForIn) || IsKind(n, ForOf)
    ensures BodyVarNames(n) == BodyVarNames(n.init) + BodyVarNames(n.left) + BodyVarNames(n.body)
  {
    assert VarScopes(n) == [n.init, n.left, n.body] && VarsHere(n) == {};
    BodiesOfThree(n, n.init, n.left, n.body);
  }

  method CollectBodies(n: Node, out: NameTable)
    requires n.Node? && n.args == VarScopes(n) && n.kind != Var
    modifies out
    ensures out.names == old(out.names) + BodyVarNames(n)
    decreases n, 0
  {
    for i := 0 to |n.args|
      invariant out.names == old(out.names) + BodyVarNamesOf(n, n.args[..i])
    {
      assert n.args[..i + 1][..i] == n.args[..i];
      CollectBodyVarNames(n.args[i], out);
    }
    assert n.args[..|n.args|] == n.args;
  }

  lemma BodiesOfThree(n: Node, a: Node, b: Node, c: Node)
    requires a < n && b < n && c < n
    ensures BodyVarNamesOf(n, [a]) == BodyVarNames(a)
    ensures BodyVarNamesOf(n, [a, b]) == BodyVarNames(a) + BodyVarNames(b)
    ensures BodyVarNamesOf(n, [a, b, c]) == BodyVarNames(a) + BodyVarNames(b) + BodyVarNames(c)
  {
    hide BodyVarNames;
    assert [a][..0] == [];
    assert [a, b][..1] == [a];
    assert [a, b, c][..2] == [a, b];
  }

  lemma ThroughNone(n: Node, topLevel: bool, shadow: Names, strict: bool)
    ensures Through(n, [], topLevel, shadow, strict) == {}
  {
  }

  lemma ThroughNext(n: Node, steps: seq<Step>, i: nat, topLevel: bool, shadow: Names, strict: bool)
    requires Inside(steps, n) && i < |steps|
    ensures Through(n, steps[..i + 1], topLevel, shadow, strict)
            == Through(n, steps[..i], topLevel, shadow, strict) + StepNames(steps[i], topLevel, shadow, strict)
  {
    assert steps[..i + 1][..i] == steps[..i];
  }

  lemma ThroughOne(n: Node, a: Step, topLevel: bool, shadow: Names, strict: bool)
    requires a.to < n
    ensures Through(n, [a], topLevel, shadow, strict) == StepNames(a, topLevel, shadow, strict)
  {
    assert [a][..0] == [];
  }

  lemma ThroughTwo(n: Node, a: Step, b: Step, topLevel: bool, shadow: Names, strict: bool)
    requires a.to < n && b.to < n
    ensures Through(n, [a, b], topLevel, shadow, strict)
            == StepNames(a, topLevel, shadow, strict) + StepNames(b, topLevel, shadow, strict)
  {
    ThroughOne(n, a, topLevel, shadow, strict);
    assert [a, b][..1] == [a];
  }

  lemma ThroughThree(n: Node, a: Step, b: Step, c: Step, topLevel: bool, shadow: Names, strict: bool)
    requires a.to < n && b.to < n && c.to < n
    ensures Through(n, [a, b, c], topLevel, shadow, strict)
            == StepNames(a, topLevel, shadow, strict) + StepNames(b, topLevel, shadow, strict)
               + StepNames(c, topLevel, shadow, strict)
  {
    ThroughTwo(n, a, b, topLevel, shadow, strict);
    assert [a, b, c][..2] == [a, b];
  }

  lemma ForUnfold(n: Node)
    requires IsKind(n, For) || IsKind(n, ForIn) || IsKind(n, ForOf)
    ensures Steps(n) == ForSteps(n)
  {
    hide ForSteps;
  }

  lemma CollectedOfFor(n: Node, topLevel: bool, shadow: Names, strict: bool)
    requires IsKind(n, For) || IsKind(n, ForIn) || IsKind(n, ForOf)
    ensures var inner := shadow + (HeadNames(n.init) + HeadNames(n.left));
            Collected(n, topLevel, shadow, strict)
            == Collected(n.init, false, inner, strict) + Collected(n.left, false, inner, strict)
               + Collected(n.body, false, inner, strict)
  {
    hide HeadNames, Steps, Through, Collected;
    ForUnfold(n);
    var h := HeadNames(n.init) + HeadNames(n.left);
    OnlyThrough(n, topLevel, shadow, strict);
    ThroughThree(n, Step(n.init, true, h), Step(n.left, true, h), Step(n.body, true, h), topLevel, shadow, strict);
  }

  lemma OnlyThrough(n: Node, topLevel: bool, shadow: Names, strict: bool)
    requires n.Node? && n.kind != Func && n.kind != Var && n.kind != Class
    ensures Collected(n, topLevel, shadow, strict) == Through(n, Steps(n), topLevel, shadow, strict)
  {
    hide Steps, Through;
  }

  lemma CollectedOfTry(n: Node, topLevel: bool, shadow: Names, strict: bool)
    requires IsKind(n, Try)
    ensures Collected(n, topLevel, shadow, strict)
            == Collected(n.body, false, shadow, strict)
               + Collected(n.catchBody, false, shadow + CatchNames(n.catchParam), strict)
               + Collected(n.finallyBody, false, shadow, strict)
  {
    hide CatchNames, Collected;
    OnlyThrough(n, topLevel, shadow, strict);
    ThroughThree(n, Step(n.body, true, {}), Step(n.catchBody, true, CatchNames(n.catchParam)), Step(n.finallyBody, true, {}),
                 topLevel, shadow, strict);
    assert shadow + {} == shadow;
  }

  method CollectVarFuncNamesNode(n: Node, out: NameTable, topLevel: bool, shadow: Names, strict: bool)
    modifies out
    ensures out.names == old(out.names) + Collected(n, topLevel, shadow, strict)
    decreases n, 2
  {
    if n.Nil? {
      return;
    }
    Unentered(n, topLevel, shadow, strict);
    hide Collected, BindingNames, LexicalNamesOf, CaseBlockNames, ForSteps, CatchNames;
    match n.kind {
      case Func =>
        if n.str != "" && !n.arrow && (topLevel || !strict) && (topLevel || !n.special) {
          if topLevel || n.str !in shadow {
            out.names := out.names + {n.str};
          }
        }
      case Var =>
        if n.varKind == VarVar {
          CollectDeclarators(n.args, out);
        }
      case Class =>
        if topLevel && n.str != "" {
          out.names := out.names + {n.str};
        }
      case Block => CollectBlock(n, out, topLevel, shadow, strict);
      case Program => CollectSame(n, false, out, topLevel, shadow, strict, topLevel);
      case Label =>
        LabelledIsSame(n, topLevel, shadow, strict);
        CollectVarFuncNamesNode(n.body, out, topLevel, shadow, strict);
      case If => CollectIf(n, out, topLevel, shadow, strict);
      case While => CollectLoopBody(n, out, topLevel, shadow, strict);
      case DoWhile => CollectLoopBody(n, out, topLevel, shadow, strict);
      case With => CollectLoopBody(n, out, topLevel, shadow, strict);
      case For => CollectFor(n, out, topLevel, shadow, strict);
      case ForIn => CollectFor(n, out, topLevel, shadow, strict);
      case ForOf => CollectFor(n, out, topLevel, shadow, strict);
      case Try => CollectTry(n, out, topLevel, shadow, strict);
      case Switch => CollectSwitch(n, out, topLevel, shadow, strict);
      case Case => CollectSame(n, true, out, false, shadow, strict, topLevel);
      case _ =>
    }
  }

  lemma Unentered(n: Node, topLevel: bool, shadow: Names, strict: bool)
    ensures Steps(n) == [] ==> Collected(n, topLevel, shadow, strict) == Own(n, topLevel, shadow, strict)
  {
  }

  lemma LabelledIsSame(n: Node, topLevel: bool, shadow: Names, strict: bool)
    requires IsKind(n, Label)
    ensures Collected(n, topLevel, shadow, strict) == Collected(n.body, topLevel, shadow, strict)
  {
    ThroughOne(n, Step(n.body, false, {}), topLevel, shadow, strict);
    assert shadow + {} == shadow;
  }

  /** A program, or the clauses of a switch: the shadow is that of the scope around it. */
  method CollectSame(n: Node, ghost nested: bool, out: NameTable, topLevel: bool, shadow: Names, strict: bool,
                     ghost outerTop: bool)
    requires if nested then IsKind(n, Case) else IsKind(n, Program)
    requires topLevel == (outerTop && !nested)
    modifies out
    ensures out.names == old(out.names) + Collected(n, outerTop, shadow, strict)
    decreases n, 1
  {
    assert shadow + {} == shadow;
    CollectStatements(n, nested, {}, out, topLevel, shadow, strict, outerTop, shadow);
  }

  method CollectBlock(n: Node, out: NameTable, topLevel: bool, shadow: Names, strict: bool)
    requires IsKind(n, Block)
    modifies out
    ensures out.names == old(out.names) + Collected(n, topLevel, shadow, strict)
    decreases n, 1
  {
    var inner := new NameTable(shadow);
    LexNamesOfList(n.args, inner);
    CollectStatements(n, true, LexicalNamesOf(n.args), out, false, inner.names, strict, topLevel, shadow);
  }

  /** A CaseBlock is one scope for all clauses. */
  method CollectSwitch(n: Node, out: NameTable, topLevel: bool, shadow: Names, strict: bool)
    requires IsKind(n, Switch)
    modifies out
    ensures out.names == old(out.names) + Collected(n, topLevel, shadow, strict)
    decreases n, 1
  {
    var inner := new NameTable(shadow);
    LexNamesOfCases(n.args, inner);
    CollectStatements(n, true, CaseBlockNames(n.args), out, false, inner.names, strict, topLevel, shadow);
  }

  method CollectIf(n: Node, out: NameTable, topLevel: bool, shadow: Names, strict: bool)
    requires IsKind(n, If)
    modifies out
    ensures out.names == old(out.names) + Collected(n, topLevel, shadow, strict)
    decreases n, 0
  {
    assert shadow + {} == shadow;
    ThroughTwo(n, Step(n.left, true, {}), Step(n.right, true, {}), topLevel, shadow, strict);
    CollectVarFuncNamesNode(n.left, out, false, shadow, strict);
    CollectVarFuncNamesNode(n.right, out, false, shadow, strict);
  }

  method CollectLoopBody(n: Node, out: NameTable, topLevel: bool, shadow: Names, strict: bool)
    requires IsKind(n, While) || IsKind(n, DoWhile) || IsKind(n, With)
    modifies out
    ensures out.names == old(out.names) + Collected(n, topLevel, shadow, strict)
    decreases n, 0
  {
    LoopBodyOnly(n, topLevel, shadow, strict);
    hide Collected;
    CollectVarFuncNamesNode(n.body, out, false, shadow, strict);
  }

  lemma LoopBodyOnly(n: Node, topLevel: bool, shadow: Names, strict: bool)
    requires IsKind(n, While) || IsKind(n, DoWhile) || IsKind(n, With)
    ensures Collected(n, topLevel, shadow, strict) == Collected(n.body, false, shadow, strict)
  {
    ThroughOne(n, Step(n.body, true, {}), topLevel, shadow, strict);
    assert shadow + {} == shadow;
    assert Steps(n) == [Step(n.body, true, {})];
  }

  method CollectFor(n: Node, out: NameTable, topLevel: bool, shadow: Names, strict: bool)
    requires IsKind(n, For) || IsKind(n, ForIn) || IsKind(n, ForOf)
    modifies out
    ensures out.names == old(out.names) + Collected(n, topLevel, shadow, strict)
    decreases n, 0
  {
    var inner := new NameTable(shadow);
    LexNamesOfForHead(n.init, inner);
    LexNamesOfForHead(n.left, inner);
    ghost var hides := HeadNames(n.init) + HeadNames(n.left);
    assert inner.names == shadow + hides;
    CollectVarFuncNamesNode(n.init, out, false, inner.names, strict);
    CollectVarFuncNamesNode(n.left, out, false, inner.names, strict);
    CollectVarFuncNamesNode(n.body, out, false, inner.names, strict);
    CollectedOfFor(n, topLevel, shadow, strict);
  }

  /** A catch parameter that is a pattern shadows, one that is a simple name does not. */
  method CatchShadow(param: Node, shadow: Names) returns (r: Names)
    ensures r == shadow + CatchNames(param)
  {
    r := shadow;
    if param.Node? && (param.kind == Array || param.kind == Object) {
      var inner := new NameTable(shadow);
      CollectBindingNames(param, inner);
      r := inner.names;
    }
  }

  method CollectTry(n: Node, out: NameTable, topLevel: bool, shadow: Names, strict: bool)
    requires IsKind(n, Try)
    modifies out
    ensures out.names == old(out.names) + Collected(n, topLevel, shadow, strict)
    decreases n, 0
  {
    CollectedOfTry(n, topLevel, shadow, strict);
    hide Collected, BindingNames, CatchNames;
    CollectVarFuncNamesNode(n.body, out, false, shadow, strict);
    var catchShadow := CatchShadow(n.catchParam, shadow);
    CollectVarFuncNamesNode(n.catchBody, out, false, catchShadow, strict);
    CollectVarFuncNamesNode(n.finallyBody, out, false, shadow, strict);
  }

  /** The loop over the statements of a list, which sees the scope of the steps that enter it. */
  method CollectStatements(n: Node, ghost nested: bool, ghost hides: Names, out: NameTable, topLevel: bool, shadow: Names,
                           strict: bool, ghost outerTop: bool, ghost outerShadow: Names)
    requires n.Node? && topLevel == (outerTop && !nested) && shadow == outerShadow + hides
    requires forall i :: 0 <= i < |n.args| ==> n.args[i] < n
    modifies out
    ensures Inside(Enter(n.args, nested, hides), n)
    ensures out.names == old(out.names) + Through(n, Enter(n.args, nested, hides), outerTop, outerShadow, strict)
    decreases n, 0
  {
    hide Through, Collected;
    ghost var steps := Enter(n.args, nested, hides);
    ThroughNone(n, outerTop, outerShadow, strict);
    for i := 0 to |n.args|
      invariant out.names == old(out.names) + Through(n, steps[..i], outerTop, outerShadow, strict)
    {
      ThroughNext(n, steps, i, outerTop, outerShadow, strict);
      CollectVarFuncNamesNode(n.args[i], out, topLevel, shadow, strict);
    }
    assert steps[..|n.args|] == steps;
  }

  /** What a whole statement list hoists to its function or script. */
  function HoistedNames(stmts: seq<Node>, shadow: Names, strict: bool): Names {
    if stmts == [] then {}
    else HoistedNames(stmts[..|stmts| - 1], shadow, strict) + Collected(stmts[|stmts| - 1], true, shadow, strict)
  }

  method CollectVarFuncNamesMode(stmts: seq<Node>, out: NameTable, strict: bool)
    modifies out
    ensures out.names == old(out.names) + HoistedNames(stmts, LexicalNamesOf(stmts), strict)
  {
    var table := new NameTable({});
    LexNamesOfList(stmts, table);
    var shadow := table.names;
    for i := 0 to |stmts|
      invariant out.names == old(out.names) + HoistedNames(stmts[..i], shadow, strict)
    {
      assert stmts[..i + 1][..i] == stmts[..i];
      CollectVarFuncNamesNode(stmts[i], out, true, shadow, strict);
    }
    assert stmts[..|stmts|] == stmts && shadow == LexicalNamesOf(stmts);
  }

  /** The names of a body are those that some walk through one of its statements hoists. */
  lemma {:induction false} HoistedIffWalk(stmts: seq<Node>, x: string, shadow: Names, strict: bool)
    ensures x in HoistedNames(stmts, shadow, strict) <==>
            exists i, walk :: 0 <= i < |stmts| && WalkHoists(stmts[i], walk, x, true, shadow, strict)
  {
    hide Collected, WalkHoists;
    if stmts != [] {
      var k := |stmts| - 1;
      HoistedIffWalk(stmts[..k], x, shadow, strict);
      CollectedIffWalk(stmts[k], x, true, shadow, strict);
      assert forall i :: 0 <= i < k ==> stmts[..k][i] == stmts[i];
    }
  }
}
