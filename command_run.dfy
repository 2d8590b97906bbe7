/**
 * The rewrite of a command's `handle` method into `run`: the parameters
 * become variable declarations spliced into the body, the statements a
 * constructor assigns from `@inject([...])` bindings come to the front with
 * the binding resolved from the container, and the Application is imported
 * inside the method.
 */
module CommandRun {
  import opened Ast

  const AppSource := "@ioc:Adonis/Core/Application"

  /** A `key: value` property. */
  function InitProp(key: string, value: Expr): Prop {
    Prop(Ident(key), value, false, false, [])
  }

  // ---------------------------------------------------------------- `handle` becomes `run`

  /** `body.splice(i, 0, s)`: past the end it appends. */
  function Splice(body: seq<Stmt>, i: nat, s: Stmt): (r: seq<Stmt>)
    ensures |r| == |body| + 1
  {
    if i <= |body| then body[..i] + [s] + body[i..] else body + [s]
  }

  /** `this.name` */
  function ThisMember(name: string): Expr {
    Member(This, Ident(name), false)
  }

  /** One `name: this.name` property per collected name, in order. */
  function ThisProps(names: seq<string>): (r: seq<Prop>)
    ensures |r| == |names| && forall k :: 0 <= k < |r| ==> r[k] == InitProp(names[k], ThisMember(names[k]))
  {
    if names == [] then [] else [InitProp(names[0], ThisMember(names[0]))] + ThisProps(names[1..])
  }

  /** `let <param> = { a: this.a, ... }` over the names collected so far. */
  function ParamDecl(param: string, names: seq<string>): Stmt {
    VarDecl(Let, [Declarator(Ident(param), Some(Object(ThisProps(names))), [])], [])
  }

  /**
   * `let <key> = this.<key> || <default>` for one property of a destructured
   * parameter (a default in a pattern is an `Assign` with `=`); a key that is
   * not an identifier makes `j.identifier` throw.
   */
  function PatternDecl(prop: Prop): Option<Stmt> {
    if !prop.key.Ident? then None
    else
      var fallback := if prop.value.Assign? then prop.value.right else Str("");
      Some(VarDecl(Let, [Declarator(prop.key, Some(OtherExpr("||", [ThisMember(prop.key.name), fallback])), [])], []))
  }

  /** The declarations of the properties `k..` of a pattern parameter at position `index`, each spliced in at `index + k`. */
  function SplicePattern(body: seq<Stmt>, props: seq<Prop>, index: nat, k: nat): Option<seq<Stmt>>
    decreases |props| - k
  {
    if k >= |props| then Some(body)
    else match PatternDecl(props[k])
      case None => None
      case Some(d) => SplicePattern(Splice(body, index + k, d), props, index, k + 1)
  }

  /**
   * The parameters `i..` of `handle`: an identifier at position `i` is declared
   * at position `i` from the arguments when `i` is 0 and from the flags
   * otherwise; a destructuring pattern is declared property by property.
   */
  function SpliceParams(body: seq<Stmt>, params: seq<Expr>, i: nat, args: seq<string>, flags: seq<string>): Option<seq<Stmt>>
    decreases |params| - i
  {
    if i >= |params| then Some(body)
    else match params[i]
      case Ident(x) => SpliceParams(Splice(body, i, ParamDecl(x, if i == 0 then args else flags)), params, i + 1, args, flags)
      case ObjPattern(props) =>
        (match SplicePattern(body, props, i, 0)
         case None => None
         case Some(b) => SpliceParams(b, params, i + 1, args, flags))
      case _ => SpliceParams(body, params, i + 1, args, flags)
  }

  /** The `forEach` over the parameters, splicing their declarations into the body. */
  method DeclareParams(params: seq<Expr>, body0: seq<Stmt>, args: seq<string>, flags: seq<string>) returns (r: Option<seq<Stmt>>)
    ensures r == SpliceParams(body0, params, 0, args, flags)
  {
    var body := body0;
    for i := 0 to |params|
      invariant SpliceParams(body, params, i, args, flags) == SpliceParams(body0, params, 0, args, flags)
    {
      match params[i]
      case Ident(x) =>
        body := Splice(body, i, ParamDecl(x, if i == 0 then args else flags));
      case ObjPattern(props) =>
        ghost var before := body;
        for k := 0 to |props|
          invariant SplicePattern(body, props, i, k) == SplicePattern(before, props, i, 0)
        {
          var d := PatternDecl(props[k]);
          if d.None? {
            return None;
          }
          body := Splice(body, i + k, d.value);
        }
      case _ =>
    }
    r := Some(body);
  }

  /**
   * `forEach((s, k) => body.splice(k, 0, s))`, the way both the moved
   * declarations and the resolved constructor statements go in: in front of
   * the body, in their order.
   */
  method SpliceFront(front: seq<Stmt>, body0: seq<Stmt>) returns (body: seq<Stmt>)
    ensures body == front + body0
  {
    body := body0;
    for k := 0 to |front|
      invariant body == front[..k] + body0
    {
      assert body[..k] == front[..k] && body[k..] == body0;
      body := Splice(body, k, front[k]);
      assert front[..k + 1] == front[..k] + [front[k]];
    }
    assert front[..|front|] == front;
  }

  // ---------------------------------------------------------------- `@inject` becomes `resolveBinding`

  predicate AllCalls(ds: seq<Expr>) {
    forall i :: 0 <= i < |ds| ==> ds[i].Call?
  }

  /** `dec.expression.callee.name === 'inject'` */
  predicate IsInject(d: Expr) {
    d.Call? && IsIdent(d.callee, "inject")
  }

  /** The first `@inject(...)` decorator. */
  function FirstInject(ds: seq<Expr>): (r: Option<Expr>)
    ensures r.Some? ==> r.value in ds && IsInject(r.value)
    ensures r.None? <==> forall d :: d in ds ==> !IsInject(d)
  {
    if ds == [] then None else if IsInject(ds[0]) then Some(ds[0]) else FirstInject(ds[1..])
  }

  /** The decorators without `@inject`. */
  function WithoutInject(ds: seq<Expr>): (r: seq<Expr>)
    ensures forall d :: d in r <==> d in ds && !IsInject(d)
  {
    if ds == [] then [] else (if IsInject(ds[0]) then [] else [ds[0]]) + WithoutInject(ds[1..])
  }

  /** The first member whose kind is `constructor`. */
  function FirstConstructor(ms: seq<ClassMember>): (r: Option<ClassMember>)
    ensures r.Some? ==> r.value in ms && r.value.MethodDef? && r.value.kind == KConstructor
  {
    if ms == [] then None
    else if ms[0].MethodDef? && ms[0].kind == KConstructor then Some(ms[0])
    else FirstConstructor(ms[1..])
  }

  /** `this.x = <name>`: an expression statement assigning the parameter. */
  predicate Assigns(s: Stmt, name: string) {
    s.ExprStmt? && s.expr.Assign? && s.expr.right == Ident(name)
  }

  /** The constructor's top-level statements that assign the parameter, in order. */
  function Assigning(body: seq<Stmt>, name: string): (r: seq<Stmt>)
    ensures forall s :: s in r <==> s in body && Assigns(s, name)
  {
    if body == [] then [] else (if Assigns(body[0], name) then [body[0]] else []) + Assigning(body[1..], name)
  }

  /** The literal `j.literal` builds from an element's `value`; one without a value makes it throw. */
  function ModuleLiteral(e: Expr): Option<Expr> {
    match e
    case Str(v) => Some(Str(v))
    case Lit(raw) => Some(Lit(raw))
    case _ => None
  }

  /** `Application.container.resolveBinding(<module>)` */
  function ResolveBinding(binding: Expr): Expr {
    Call(Member(Ident("Application"), Member(Ident("container"), Ident("resolveBinding"), false), false), [binding])
  }

  /** The assignments with their right-hand side replaced by the binding's resolution. */
  function Resolved(ss: seq<Stmt>, binding: Expr): (r: seq<Stmt>)
    requires forall s :: s in ss ==> s.ExprStmt? && s.expr.Assign?
    ensures |r| == |ss|
    ensures forall k :: 0 <= k < |r| ==> r[k] == ExprStmt(Assign(ss[k].expr.op, ss[k].expr.left, ResolveBinding(binding)), ss[k].comments)
  {
    if ss == [] then []
    else [ExprStmt(Assign(ss[0].expr.op, ss[0].expr.left, ResolveBinding(binding)), ss[0].comments)] + Resolved(ss[1..], binding)
  }

  /**
   * The constructor parameters `i..`: the statements assigning parameter `i`
   * resolve module `i` and go in front of what is there; a parameter that is
   * assigned but has no module makes `j.literal` throw.
   */
  function ResolveFrom(params: seq<Expr>, modules: seq<Expr>, ctorBody: seq<Stmt>, i: nat, front: seq<Stmt>): Option<seq<Stmt>>
    decreases |params| - i
  {
    if i >= |params| then Some(front)
    else if !params[i].Ident? then ResolveFrom(params, modules, ctorBody, i + 1, front)
    else
      var ms := Assigning(ctorBody, params[i].name);
      if ms == [] then ResolveFrom(params, modules, ctorBody, i + 1, front)
      else if i >= |modules| || ModuleLiteral(modules[i]).None? then None
      else ResolveFrom(params, modules, ctorBody, i + 1, Resolved(ms, ModuleLiteral(modules[i]).value) + front)
  }

  /**
   * The statements the class's `@inject([...])` brings to the front of `run`:
   * none without such a decorator or without a constructor; its first argument
   * must be an array literal.
   */
  function InjectFront(d: Option<Expr>, ms: seq<ClassMember>): Option<seq<Stmt>>
    requires d.Some? ==> d.value.Call?
  {
    if d.None? then Some([])
    else if d.value.args == [] || !d.value.args[0].Array? then None
    else match FirstConstructor(ms)
      case None => Some([])
      case Some(c) => ResolveFrom(c.params, d.value.args[0].elems, c.body, 0, [])
  }

  /** The resolutions for the constructor parameters, as the nested `forEach`s put them in front of the body. */
  method ResolveParams(params: seq<Expr>, modules: seq<Expr>, ctorBody: seq<Stmt>, body0: seq<Stmt>) returns (r: Option<seq<Stmt>>)
    ensures r.None? <==> ResolveFrom(params, modules, ctorBody, 0, []).None?
    ensures r.Some? ==> r.value == ResolveFrom(params, modules, ctorBody, 0, []).value + body0
  {
    var body := body0;
    ghost var front: seq<Stmt> := [];
    for i := 0 to |params|
      invariant body == front + body0
      invariant ResolveFrom(params, modules, ctorBody, i, front) == ResolveFrom(params, modules, ctorBody, 0, [])
    {
      if params[i].Ident? {
        var ms := Assigning(ctorBody, params[i].name);
        if ms != [] {
          if i >= |modules| || ModuleLiteral(modules[i]).None? {
            return None;
          }
          var resolved := Resolved(ms, ModuleLiteral(modules[i]).value);
          body := SpliceFront(resolved, body);
          front := resolved + front;
        }
      }
    }
    r := Some(body);
  }

  // ---------------------------------------------------------------- the whole `handle` step

  /** `const { default: Application } = await import('@ioc:Adonis/Core/Application')` */
  function AppDecl(): Stmt {
    VarDecl(Const, [Declarator(ObjPattern([InitProp("default", Ident("Application"))]),
      Some(Await(OtherExpr("ImportExpression", [Str(AppSource)]))), [])], [])
  }

  // ---------------------------------------------------------------- parameters

  /** The declarations identifier parameters `i..` give: the first from the arguments, the others from the flags. */
  function ParamDecls(params: seq<Expr>, i: nat, args: seq<string>, flags: seq<string>): (r: seq<Stmt>)
    requires forall k :: 0 <= k < |params| ==> params[k].Ident?
    ensures |r| == if i <= |params| then |params| - i else 0
    decreases |params| - i
  {
    if i >= |params| then []
    else [ParamDecl(params[i].name, if i == 0 then args else flags)] + ParamDecls(params, i + 1, args, flags)
  }

  /** With identifier parameters only, their declarations make up the front of the body, in parameter order. */
  lemma {:induction false} IdentParamsInFront(body: seq<Stmt>, params: seq<Expr>, args: seq<string>, flags: seq<string>)
    requires forall k :: 0 <= k < |params| ==> params[k].Ident?
    ensures SpliceParams(body, params, 0, args, flags) == Some(ParamDecls(params, 0, args, flags) + body)
  {
    var none: seq<Stmt> := [];
    assert none + body == body;
    IdentParamsFrom(none, body, params, 0, args, flags);
    assert none + (ParamDecls(params, 0, args, flags) + body) == ParamDecls(params, 0, args, flags) + body;
  }

  lemma {:induction false} IdentParamsFrom(pre: seq<Stmt>, body: seq<Stmt>, params: seq<Expr>, i: nat, args: seq<string>, flags: seq<string>)
    requires forall k :: 0 <= k < |params| ==> params[k].Ident?
    requires |pre| == i <= |params|
    ensures SpliceParams(pre + body, params, i, args, flags) == Some(pre + (ParamDecls(params, i, args, flags) + body))
    decreases |params| - i
  {
    if i < |params| {
      var d := ParamDecl(params[i].name, if i == 0 then args else flags);
      SpliceAt(pre, body, d);
      IdentParamsFrom(pre + [d], body, params, i + 1, args, flags);
      Regroup(pre, [d], ParamDecls(params, i + 1, args, flags), body);
    } else {
      assert ParamDecls(params, i, args, flags) + body == body;
    }
  }

  /** Splicing at the end of a prefix puts the statement right after it. */
  lemma {:induction false} SpliceAt(pre: seq<Stmt>, rest: seq<Stmt>, s: Stmt)
    ensures Splice(pre + rest, |pre|, s) == (pre + [s]) + rest
  {
    assert (pre + rest)[..|pre|] == pre && (pre + rest)[|pre|..] == rest;
  }

  lemma AppendEmpty<T>(a: seq<T>, e: seq<T>)
    requires e == []
    ensures a + e == a
  {
  }

  lemma Assoc<T>(a: seq<T>, b: seq<T>, c: seq<T>)
    ensures a + (b + c) == (a + b) + c
  {
  }

  lemma Regroup<T>(a: seq<T>, b: seq<T>, c: seq<T>, d: seq<T>)
    ensures (a + b) + (c + d) == a + ((b + c) + d)
  {
  }

  /** The declarations of the properties `k..` of a pattern whose keys are identifiers. */
  function PatternDecls(props: seq<Prop>, k: nat): (r: seq<Stmt>)
    requires forall j :: 0 <= j < |props| ==> props[j].key.Ident?
    ensures |r| == if k <= |props| then |props| - k else 0
    decreases |props| - k
  {
    if k >= |props| then [] else [PatternDecl(props[k]).value] + PatternDecls(props, k + 1)
  }

  /** A pattern parameter at position `index` declares its properties in order, starting at that position. */
  lemma {:induction false} PatternInPlace(body: seq<Stmt>, props: seq<Prop>, index: nat)
    requires forall j :: 0 <= j < |props| ==> props[j].key.Ident?
    requires index <= |body|
    ensures SplicePattern(body, props, index, 0) == Some(body[..index] + (PatternDecls(props, 0) + body[index..]))
  {
    assert body == body[..index] + body[index..];
    PatternFrom(body[..index], body[index..], props, index, 0);
  }

  lemma {:induction false} PatternFrom(pre: seq<Stmt>, rest: seq<Stmt>, props: seq<Prop>, index: nat, k: nat)
    requires forall j :: 0 <= j < |props| ==> props[j].key.Ident?
    requires |pre| == index + k && k <= |props|
    ensures SplicePattern(pre + rest, props, index, k) == Some(pre + (PatternDecls(props, k) + rest))
    decreases |props| - k
  {
    if k < |props| {
      var d := PatternDecl(props[k]).value;
      SpliceAt(pre, rest, d);
      PatternFrom(pre + [d], rest, props, index, k + 1);
      Regroup(pre, [d], PatternDecls(props, k + 1), rest);
    } else {
      assert PatternDecls(props, k) + rest == rest;
    }
  }

  /** A default in the pattern is the fallback of the declaration, an empty string otherwise. */
  lemma PatternFallback(prop: Prop)
    requires prop.key.Ident?
    ensures PatternDecl(prop) == Some(VarDecl(Let, [Declarator(prop.key, Some(OtherExpr("||",
      [ThisMember(prop.key.name), if prop.value.Assign? then prop.value.right else Str("")])), [])], []))
  {
  }
}
