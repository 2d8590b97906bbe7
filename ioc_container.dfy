/**
 * The `adonis-ioc-container` pass: every call `use(...)` or `make(...)`, at any
 * depth, becomes `Application.container.<the call>`, and when there was one,
 * `import Application from '@ioc:Adonis/Core/Application'` opens the file.
 */
module IocContainer {
  import opened Ast
  import opened Traverse
  import opened ImportSpecs

  /** A call whose callee is the identifier `use` or `make`; a method call such as `x.use()` is not one. */
  predicate IsContainerCall(e: Expr) {
    e.Call? && e.callee.Ident? && (e.callee.name == "use" || e.callee.name == "make")
  }

  function WrapCall(e: Expr): (r: Expr)
    ensures IsContainerCall(e) ==>
              r.Member? && r.obj == Ident("Application") && !r.computed &&
              r.prop.Member? && r.prop.obj == Ident("container") && r.prop.prop == e && !r.prop.computed
    ensures !IsContainerCall(e) ==> r == e
  {
    if IsContainerCall(e) then Member(Ident("Application"), Member(Ident("container"), e, false), false) else e
  }

  function CallRules(): Rules {
    Rules(WrapCall, (s, top) => [s])
  }

  predicate NoContainerCall(n: Node) {
    !(n.NE? && IsContainerCall(n.e))
  }

  function IocContainer(p: Program): Program {
    var body := MapSs(p.body, true, CallRules());
    if EverySs(NoContainerCall, p.body) then Program(body, p.comments)
    else Program([AppImport()] + body, p.comments)
  }

  /** The pass as the source runs it: one walk over the file raising `isUpdated` on the first match. */
  method Run(p: Program) returns (r: Program)
    ensures r == IocContainer(p)
  {
    var body: seq<Stmt> := [];
    var isUpdated := false;
    var i := 0;
    while i < |p.body|
      invariant 0 <= i <= |p.body|
      invariant body == MapSs(p.body[..i], true, CallRules())
      invariant isUpdated <==> !EverySs(NoContainerCall, p.body[..i])
    {
      var s := p.body[i];
      assert p.body[..i + 1] == p.body[..i] + [s];
      EverySsAppend(NoContainerCall, p.body[..i], [s]);
      body := body + MapS(s, true, CallRules());
      assert MapSs([s], true, CallRules()) == MapS(s, true, CallRules());
      MapSsAppend(p.body[..i], [s], true, CallRules());
      if !EverySs(NoContainerCall, [s]) {
        isUpdated := true;
      }
      i := i + 1;
    }
    assert p.body[..i] == p.body;
    r := Program(if isUpdated then [AppImport()] + body else body, p.comments);
  }

  /** The file is left exactly as it was if and only if it holds no `use` or `make` call. */
  lemma {:induction false} UnchangedIffNoCall(p: Program)
    ensures IocContainer(p) == p <==> EverySs(NoContainerCall, p.body)
  {
    MapSsTop(p.body, CallRules());
    if EverySs(NoContainerCall, p.body) {
      assert Fixes(CallRules(), NoContainerCall);
      FixSs(p.body, true, CallRules(), NoContainerCall);
    } else {
      assert |IocContainer(p).body| == |p.body| + 1;
    }
  }

  /**
   * Exactly one `Application` import is added when a call was rewritten, even
   * when the file already had one: the source does not look for it.
   */
  lemma {:induction false} ImportAddedOnce(p: Program)
    ensures CountAppImports(IocContainer(p).body) ==
      CountAppImports(p.body) + if EverySs(NoContainerCall, p.body) then 0 else 1
    ensures !EverySs(NoContainerCall, p.body) ==> IocContainer(p).body[0] == AppImport()
  {
    var body := MapSs(p.body, true, CallRules());
    MapSsTop(p.body, CallRules());
    CountPointwise(p.body, body);
    CountAppend([AppImport()], body);
  }

  /** Every statement keeps its place; only the expressions inside it change. */
  lemma {:induction false} StatementsKeepTheirPlace(p: Program)
    ensures var k := if EverySs(NoContainerCall, p.body) then 0 else 1;
      |IocContainer(p).body| == |p.body| + k &&
      forall i :: 0 <= i < |p.body| ==> IocContainer(p).body[i + k] == KidsS(p.body[i], CallRules())
  {
    MapSsTop(p.body, CallRules());
  }

  /** A file that imports `Application` and calls `use` ends up importing it twice. */
  lemma DuplicateImportExample()
    ensures var p := Program([AppImport(), ExprStmt(Call(Ident("use"), [Str("Config")]), [])], []);
      CountAppImports(IocContainer(p).body) == 2
  {
    var p := Program([AppImport(), ExprStmt(Call(Ident("use"), [Str("Config")]), [])], []);
    var v := Violations(NoContainerCall);
    assert !NoContainerCall(NE(p.body[1].expr));
    assert CollE(p.body[1].expr, v) != [];
    assert CollS(p.body[1], v) != [];
    assert CollSs(p.body[1..], v) != [];
    ImportAddedOnce(p);
    assert CountAppImports(p.body) == 1;
  }
}
