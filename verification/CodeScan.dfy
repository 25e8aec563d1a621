/** One walk that answers three questions about a function's own code (internal/engine/ast.go, scanCode and
  * scanFunc), against the three separate passes that it replaces.
  */
module CodeScan {
  import opened Syntax

  datatype Fact = Arguments | NewTargetRef | DirectEval

  /** A set of facts stands for the bit mask. */
  type Mask = set<Fact>

  const ALL: Mask := {Arguments, NewTargetRef, DirectEval}

  // ----- the three passes, each with its own stopping rule -----

  /** A non-arrow function binds its own arguments, so only its parameters count. */
  predicate UsesArguments(n: Node) {
    n.Node? &&
    if n.kind == Ident && n.str == "arguments" then true
    else if n.kind == Func && !n.arrow then exists i | 0 <= i < |n.args| :: UsesArguments(n.args[i])
    else
      || UsesArguments(n.left) || UsesArguments(n.right) || UsesArguments(n.cond) || UsesArguments(n.body)
      || UsesArguments(n.init) || UsesArguments(n.update) || UsesArguments(n.catchParam)
      || UsesArguments(n.catchBody) || UsesArguments(n.finallyBody)
      || exists i | 0 <= i < |n.args| :: UsesArguments(n.args[i])
  }

  /** A non-arrow function has its own new.target. */
  predicate UsesNewTarget(n: Node) {
    n.Node? &&
    if n.kind == NewTarget then true
    else if n.kind == Func && !n.arrow then false
    else
      || UsesNewTarget(n.left) || UsesNewTarget(n.right) || UsesNewTarget(n.cond) || UsesNewTarget(n.body)
      || UsesNewTarget(n.init) || UsesNewTarget(n.update) || UsesNewTarget(n.catchParam)
      || UsesNewTarget(n.catchBody) || UsesNewTarget(n.finallyBody)
      || exists i | 0 <= i < |n.args| :: UsesNewTarget(n.args[i])
  }

  /** Every function and every class is its own variable environment. */
  predicate HasDirectEval(n: Node) {
    n.Node? &&
    if n.kind == Call && IsKind(n.left, Ident) && n.left.str == "eval" then true
    else if n.kind == Func || n.kind == Class then false
    else
      || HasDirectEval(n.left) || HasDirectEval(n.right) || HasDirectEval(n.cond) || HasDirectEval(n.body)
      || HasDirectEval(n.init) || HasDirectEval(n.update) || HasDirectEval(n.catchParam)
      || HasDirectEval(n.catchBody) || HasDirectEval(n.finallyBody)
      || exists i | 0 <= i < |n.args| :: HasDirectEval(n.args[i])
  }

  function Facts(n: Node): Mask {
    (if UsesArguments(n) then {Arguments} else {}) +
    (if UsesNewTarget(n) then {NewTargetRef} else {}) +
    (if HasDirectEval(n) then {DirectEval} else {})
  }

  function FactsOf(ns: seq<Node>): Mask {
    if ns == [] then {} else FactsOf(ns[..|ns| - 1]) + Facts(ns[|ns| - 1])
  }

  // ----- the fused walk -----

  function Fixed(n: Node): seq<Node>
    requires n.Node?
  {
    [n.left, n.right, n.cond, n.body, n.init, n.update, n.catchParam, n.catchBody, n.finallyBody]
  }

  /** What the node itself shows. */
  function Here(n: Node): Mask
    requires n.Node?
  {
    if n.kind == Ident && n.str == "arguments" then {Arguments}
    else if n.kind == NewTarget then {NewTargetRef}
    else if n.kind == Call && IsKind(n.left, Ident) && n.left.str == "eval" then {DirectEval}
    else {}
  }

  /** What of its children counts. */
  function Below(n: Node): Mask
    requires n.Node?
  {
    if n.kind == Func || n.kind == Class then {Arguments, NewTargetRef} else ALL
  }

  lemma {:induction false} FactsOfHas(ns: seq<Node>, f: Fact)
    ensures f in FactsOf(ns) <==> exists i | 0 <= i < |ns| :: f in Facts(ns[i])
  {
    hide Facts;
    if ns != [] {
      FactsOfHas(ns[..|ns| - 1], f);
    }
  }

  /** The named children as a list: a property of one of them is a property of some element. */
  lemma FixedHas(n: Node, f: Fact)
    requires n.Node?
    ensures f in FactsOf(Fixed(n)) <==>
            || f in Facts(n.left) || f in Facts(n.right) || f in Facts(n.cond) || f in Facts(n.body)
            || f in Facts(n.init) || f in Facts(n.update) || f in Facts(n.catchParam)
            || f in Facts(n.catchBody) || f in Facts(n.finallyBody)
  {
    hide Facts, FactsOf;
    FactsOfHas(Fixed(n), f);
    var k := Fixed(n);
    assert k[0] == n.left && k[1] == n.right && k[2] == n.cond && k[3] == n.body && k[4] == n.init
        && k[5] == n.update && k[6] == n.catchParam && k[7] == n.catchBody && k[8] == n.finallyBody;
  }

  lemma ArgumentsStep(n: Node)
    requires n.Node? && !(n.kind == Func && !n.arrow)
    ensures Arguments in Facts(n) <==> Arguments in Here(n) || Arguments in FactsOf(Fixed(n)) + FactsOf(n.args)
  {
    hide UsesNewTarget, HasDirectEval, FactsOf;
    FixedHas(n, Arguments);
    FactsOfHas(n.args, Arguments);
  }

  lemma NewTargetStep(n: Node)
    requires n.Node? && !(n.kind == Func && !n.arrow)
    ensures NewTargetRef in Facts(n) <==> NewTargetRef in Here(n) || NewTargetRef in FactsOf(Fixed(n)) + FactsOf(n.args)
  {
    hide UsesArguments, HasDirectEval, FactsOf;
    FixedHas(n, NewTargetRef);
    FactsOfHas(n.args, NewTargetRef);
  }

  lemma DirectEvalStep(n: Node)
    requires n.Node?
    ensures DirectEval in Facts(n) <==>
            DirectEval in Here(n) || (n.kind != Func && n.kind != Class && DirectEval in FactsOf(Fixed(n)) + FactsOf(n.args))
  {
    hide UsesArguments, UsesNewTarget, FactsOf;
    FixedHas(n, DirectEval);
    FactsOfHas(n.args, DirectEval);
  }

  lemma FactsStep(n: Node)
    requires n.Node? && !(n.kind == Func && !n.arrow)
    ensures Facts(n) == Here(n) + (Below(n) * (FactsOf(Fixed(n)) + FactsOf(n.args)))
  {
    ArgumentsStep(n);
    NewTargetStep(n);
    DirectEvalStep(n);
    forall f
      ensures f in Facts(n) <==> f in Here(n) + (Below(n) * (FactsOf(Fixed(n)) + FactsOf(n.args)))
    {
      assert f == Arguments || f == NewTargetRef || f == DirectEval;
    }
  }

  lemma FactsOfFunction(n: Node)
    requires n.Node? && n.kind == Func && !n.arrow
    ensures Facts(n) == {Arguments} * FactsOf(n.args)
  {
    FactsOfHas(n.args, Arguments);
  }

  /** scanCode: for every tree and every mask, the wanted part of what the three passes report. */
  method ScanCode(n: Node, want: Mask) returns (found: Mask)
    ensures found == want * Facts(n)
    decreases n, 1
  {
    hide Facts;
    NilUsesNothing(n);
    if n.Nil? || want == {} {
      return {};
    }
    var want := want;
    if n.kind == Func && !n.arrow {
      FactsOfFunction(n);
      want := want * {Arguments};
      if want == {} {
        return {};
      }
      for i := 0 to |n.args|
        invariant want * FactsOf(n.args[..i]) == {}
      {
        assert n.args[..i + 1][..i] == n.args[..i];
        var f := ScanCode(n.args[i], want);
        if f != {} {
          FactsOfHas(n.args, Arguments);
          return {Arguments};
        }
      }
      assert n.args[..|n.args|] == n.args;
      return {};
    }
    FactsStep(n);
    found := want * Here(n);
    want := want * Below(n);
    want := want - found;
    if want == {} {
      return found;
    }
    var here := found;
    found := ScanList(n, Fixed(n), want);
    want := want - found;
    found := here + found;
    if want == {} {
      return found;
    }
    var rest := ScanList(n, n.args, want);
    found := found + rest;
  }

  /** The loop over children, which narrows what it looks for as it finds it. */
  method ScanList(ghost parent: Node, ns: seq<Node>, want: Mask) returns (found: Mask)
    requires parent.Node? && (ns == Fixed(parent) || ns == parent.args)
    ensures found == want * FactsOf(ns)
    decreases parent, 0
  {
    hide Facts, Fixed;
    found := {};
    var left := want;
    for i := 0 to |ns|
      invariant found == want * FactsOf(ns[..i]) && left == want - found
    {
      assert ns[..i + 1][..i] == ns[..i];
      ChildIsSmaller(parent, ns, i);
      var f := ScanCode(ns[i], left);
      if f != {} {
        found := found + f;
        left := left - f;
        if left == {} {
          FactsOfPrefix(ns, i + 1);
          return;
        }
      }
    }
    assert ns[..|ns|] == ns;
  }

  lemma ChildIsSmaller(parent: Node, ns: seq<Node>, i: nat)
    requires parent.Node? && (ns == Fixed(parent) || ns == parent.args) && i < |ns|
    ensures ns[i] < parent
  {
    if ns == Fixed(parent) {
      assert i < 9;
    }
  }

  lemma {:induction false} FactsOfPrefix(ns: seq<Node>, i: nat)
    requires i <= |ns|
    ensures FactsOf(ns[..i]) <= FactsOf(ns)
  {
    if i < |ns| {
      FactsOfPrefix(ns[..|ns| - 1], i);
      assert ns[..|ns| - 1][..i] == ns[..i];
    } else {
      assert ns[..i] == ns;
    }
  }

  // ----- the passes, over every way into the tree -----

  predicate IsChild(n: Node, m: Node) {
    n.Node? && m.Node? &&
    (|| m == n.left || m == n.right || m == n.cond || m == n.body || m == n.init || m == n.update
     || m == n.catchParam || m == n.catchBody || m == n.finallyBody
     || exists i :: 0 <= i < |n.args| && m == n.args[i])
  }

  predicate IsParameter(n: Node, m: Node) {
    n.Node? && exists i :: 0 <= i < |n.args| && m == n.args[i]
  }

  /** m's code belongs to the code that n is part of, as far as the fact goes. */
  predicate Leads(f: Fact, n: Node, m: Node) {
    IsChild(n, m) &&
    match f
    case Arguments => n.kind == Func && !n.arrow ==> IsParameter(n, m)
    case NewTargetRef => n.kind != Func || n.arrow
    case DirectEval => n.kind != Func && n.kind != Class
  }

  predicate Shows(f: Fact, n: Node) {
    n.Node? &&
    match f
    case Arguments => n.kind == Ident && n.str == "arguments"
    case NewTargetRef => n.kind == NewTarget
    case DirectEval => n.kind == Call && n.left.Node? && n.left.kind == Ident && n.left.str == "eval"
  }

  /** Each node leads to the next, and the last shows the fact. */
  predicate Witness(f: Fact, ms: seq<Node>) {
    && ms != [] && Shows(f, ms[|ms| - 1])
    && forall i :: 0 <= i < |ms| - 1 ==> Leads(f, ms[i], ms[i + 1])
  }

  ghost predicate Occurs(f: Fact, n: Node) {
    exists ms :: Witness(f, ms) && ms[0] == n
  }

  /** One node: the fact is shown here, or occurs in a child that the node leads to. */
  lemma OccursStep(f: Fact, n: Node)
    ensures Occurs(f, n) <==> Shows(f, n) || exists m :: Leads(f, n, m) && Occurs(f, m)
  {
    hide Shows, Leads;
    if Shows(f, n) {
      assert Witness(f, [n]);
    }
    if m :| Leads(f, n, m) && Occurs(f, m) {
      var ms :| Witness(f, ms) && ms[0] == m;
      OneLonger(f, n, ms);
      assert ([n] + ms)[0] == n;
    }
    if ms :| Witness(f, ms) && ms[0] == n {
      if |ms| > 1 {
        OneShorter(f, ms);
        assert ms[1..][0] == ms[1];
      }
    }
  }

  lemma OneLonger(f: Fact, n: Node, ms: seq<Node>)
    requires Witness(f, ms) && Leads(f, n, ms[0])
    ensures Witness(f, [n] + ms)
  {
    hide Shows, Leads;
    var longer := [n] + ms;
    assert longer[|longer| - 1] == ms[|ms| - 1];
    forall i | 0 <= i < |longer| - 1
      ensures Leads(f, longer[i], longer[i + 1])
    {
      assert i > 0 ==> longer[i] == ms[i - 1] && longer[i + 1] == ms[i];
    }
  }

  lemma OneShorter(f: Fact, ms: seq<Node>)
    requires Witness(f, ms) && |ms| > 1
    ensures Witness(f, ms[1..]) && Leads(f, ms[0], ms[1])
  {
    hide Shows, Leads;
    var rest := ms[1..];
    assert rest[|rest| - 1] == ms[|ms| - 1];
    forall i | 0 <= i < |rest| - 1
      ensures Leads(f, rest[i], rest[i + 1])
    {
      assert rest[i] == ms[i + 1] && rest[i + 1] == ms[i + 2];
    }
  }

  lemma ParameterHas(n: Node, f: Fact)
    requires n.Node?
    ensures f in FactsOf(n.args) <==> exists m :: IsChild(n, m) && IsParameter(n, m) && f in Facts(m)
  {
    FactsOfHas(n.args, f);
    NilUsesNothing(Nil);
    hide Facts, FactsOf;
    if f in FactsOf(n.args) {
      var i :| 0 <= i < |n.args| && f in Facts(n.args[i]);
      assert IsChild(n, n.args[i]) && IsParameter(n, n.args[i]);
    }
  }

  lemma FixedIsChild(n: Node, f: Fact)
    requires n.Node?
    ensures f in FactsOf(Fixed(n)) ==> exists m :: IsChild(n, m) && f in Facts(m)
  {
    FixedHas(n, f);
    NilUsesNothing(Nil);
    hide Facts, FactsOf, Fixed;
  }

  lemma ChildHas(n: Node, f: Fact)
    requires n.Node?
    ensures f in FactsOf(Fixed(n)) + FactsOf(n.args) <==> exists m :: IsChild(n, m) && f in Facts(m)
  {
    FixedIsChild(n, f);
    FactsOfHas(n.args, f);
    NilUsesNothing(Nil);
    hide Facts, FactsOf, Fixed;
    if f in FactsOf(n.args) {
      var i :| 0 <= i < |n.args| && f in Facts(n.args[i]);
      assert IsChild(n, n.args[i]);
    }
    if m :| IsChild(n, m) && f in Facts(m) {
      FixedHas(n, f);
    }
  }

  lemma FactsLead(f: Fact, n: Node)
    ensures f in Facts(n) <==> Shows(f, n) || exists m :: Leads(f, n, m) && f in Facts(m)
  {
    NilUsesNothing(n);
    if n.Node? {
      ChildHas(n, f);
      ParameterHas(n, f);
      if n.kind == Func && !n.arrow {
        FactsOfFunction(n);
      } else {
        FactsStep(n);
      }
      hide Facts, FactsOf, Fixed, IsChild, IsParameter;
    }
  }

  /** Each pass finds the fact exactly where it occurs. */
  lemma {:induction false} FactsOccur(f: Fact, n: Node)
    ensures f in Facts(n) <==> Occurs(f, n)
    decreases n
  {
    OccursStep(f, n);
    FactsLead(f, n);
    hide Occurs, Facts, Shows;
    forall m | Leads(f, n, m)
      ensures f in Facts(m) <==> Occurs(f, m)
    {
      FactsOccur(f, m);
    }
  }

  // ----- one function's answers -----

  predicate FunctionUsesArguments(params: seq<Node>, body: Node) {
    UsesArguments(body) || exists i | 0 <= i < |params| :: !IsKind(params[i], Ident) && UsesArguments(params[i])
  }

  predicate FunctionHasDirectEval(params: seq<Node>, body: Node) {
    HasDirectEval(body) || exists i | 0 <= i < |params| :: HasDirectEval(params[i])
  }

  /** What the three accessors answer: arguments is not looked for in a parameter that is a bare name, direct eval is, and
    * new.target is looked for in the body only.
    */
  lemma FunctionFacts(params: seq<Node>, body: Node)
    ensures FunctionUsesArguments(params, body) <==>
              Occurs(Arguments, body)
              || exists i | 0 <= i < |params| :: params[i].Node? && params[i].kind != Ident && Occurs(Arguments, params[i])
    ensures FunctionHasDirectEval(params, body) <==>
              Occurs(DirectEval, body) || exists i | 0 <= i < |params| :: Occurs(DirectEval, params[i])
    ensures UsesNewTarget(body) <==> Occurs(NewTargetRef, body)
  {
    forall f, n
      ensures f in Facts(n) <==> Occurs(f, n)
    {
      FactsOccur(f, n);
    }
    assert forall n :: UsesArguments(n) <==> Arguments in Facts(n);
    assert forall n :: HasDirectEval(n) <==> DirectEval in Facts(n);
    assert UsesNewTarget(body) <==> NewTargetRef in Facts(body);
    NilUsesNothing(Nil);
    hide UsesArguments, UsesNewTarget, HasDirectEval, Facts, Occurs;
  }

  lemma NilUsesNothing(p: Node)
    ensures p.Nil? ==> !UsesArguments(p) && Facts(p) == {}
  {
  }

  /** The loop of scanFunc over the parameters: a bare identifier is a binding name, not a reference. */
  method ScanParams(params: seq<Node>, inBody: Mask, ghost body: Node) returns (found: Mask)
    requires inBody == ALL * Facts(body)
    ensures NewTargetRef in found <==> UsesNewTarget(body)
    ensures Arguments in found <==> FunctionUsesArguments(params, body)
    ensures DirectEval in found <==> FunctionHasDirectEval(params, body)
  {
    hide UsesArguments, UsesNewTarget, HasDirectEval;
    found := inBody;
    for i := 0 to |params|
      invariant inBody <= found <= ALL && (NewTargetRef in found <==> NewTargetRef in inBody)
      invariant Arguments in found <==>
                  UsesArguments(body) || exists j | 0 <= j < i :: !IsKind(params[j], Ident) && UsesArguments(params[j])
      invariant DirectEval in found <==> HasDirectEval(body) || exists j | 0 <= j < i :: HasDirectEval(params[j])
    {
      var p := params[i];
      NilUsesNothing(p);
      var want := ALL - found;
      if want * {Arguments, DirectEval} == {} {
        assert Arguments !in want && DirectEval !in want by {
          assert forall f | f in want :: f !in {Arguments, DirectEval} || f in want * {Arguments, DirectEval};
        }
        break;
      }
      var w := want * {DirectEval};
      if p.Node? && p.kind != Ident {
        w := w + want * {Arguments};
      }
      var f := ScanCode(p, w);
      found := found + f;
    }
  }

  /** The memo bits of a function node. */
  class FunctionNode {
    const params: seq<Node>
    const body: Node
    var codeScanned: bool
    var usesArgs: bool
    var usesNewTarget: bool
    var hasDirectEval: bool

    constructor (params: seq<Node>, body: Node)
      ensures this.params == params && this.body == body && Valid()
    {
      this.params, this.body := params, body;
      codeScanned, usesArgs, usesNewTarget, hasDirectEval := false, false, false, false;
    }

    predicate Valid()
      reads this
    {
      if codeScanned then
        && usesArgs == FunctionUsesArguments(params, body)
        && usesNewTarget == UsesNewTarget(body)
        && hasDirectEval == FunctionHasDirectEval(params, body)
      else !usesArgs && !usesNewTarget && !hasDirectEval
    }

    method Scan()
      requires Valid() && !codeScanned
      modifies this
      ensures Valid() && codeScanned
    {
      codeScanned := true;
      var found := ScanCode(body, ALL);
      found := ScanParams(params, found, body);
      usesArgs := Arguments in found;
      usesNewTarget := NewTargetRef in found;
      hasDirectEval := DirectEval in found;
    }

    /** The three accessors give the same answers whichever is asked first and however often. */
    method FuncUsesArguments() returns (r: bool)
      requires Valid()
      modifies this
      ensures Valid() && r == FunctionUsesArguments(params, body)
    {
      if !codeScanned {
        Scan();
      }
      r := usesArgs;
    }

    method FuncUsesNewTarget() returns (r: bool)
      requires Valid()
      modifies this
      ensures Valid() && r == UsesNewTarget(body)
    {
      if !codeScanned {
        Scan();
      }
      r := usesNewTarget;
    }

    method FuncHasDirectEval() returns (r: bool)
      requires Valid()
      modifies this
      ensures Valid() && r == FunctionHasDirectEval(params, body)
    {
      if !codeScanned {
        Scan();
      }
      r := hasDirectEval;
    }
  }
}
