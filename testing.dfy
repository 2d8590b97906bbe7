/**
 * The testing pass: a Japa v4 functional-test file, recognised by its
 * `use('Test/Suite')(title)` declarator, becomes a Japa v5 file.  Its API-client
 * chains are rebuilt for the new client, response and assertion methods are
 * renamed, the suite declarator goes, `import { test } from '@japa/runner'` opens
 * the file, and the body ends as the imports followed by one
 * `test.group(title, (group) => { ... })` holding everything else, then the
 * converted `test`/hook/trait statements.
 *
 * An arrow function with an expression body is written as a `Func` whose body is
 * the single statement `Return(body)`.
 */
module Testing {
  import opened Ast
  import opened Traverse
  import opened Utils

  // ================================================================ the suite declarator

  /**
   * A declarator initialised as `x.use('Test/Suite')(...)`, which is what
   * `use('Test/Suite')(...)` is once the container pass has run: a call whose
   * callee is a call of a `use` member whose first argument is `'Test/Suite'`.
   */
  predicate IsSuiteDeclarator(d: Declarator) {
    d.init.Some? && d.init.value.Call? && d.init.value.callee.Call? &&
    IsMemberNamed(d.init.value.callee.callee, "use") &&
    |d.init.value.callee.args| > 0 && d.init.value.callee.args[0] == Str("Test/Suite")
  }

  /** What the pass reads off a suite declarator: its local name (identifiers have one) and its title. */
  datatype Suite = Suite(local: Option<string>, title: Option<Expr>)

  function SuiteOf(d: Declarator): (r: Suite)
    requires IsSuiteDeclarator(d)
    ensures r.local.Some? <==> d.id.Ident?
    ensures r.local.Some? ==> r.local.value == d.id.name
    ensures r.title.Some? <==> |d.init.value.args| > 0
    ensures r.title.Some? ==> r.title.value == d.init.value.args[0]
  {
    Suite(if d.id.Ident? then Some(d.id.name) else None,
          if |d.init.value.args| > 0 then Some(d.init.value.args[0]) else None)
  }

  function PickSuite(n: Node): seq<Suite> {
    if n.ND? && IsSuiteDeclarator(n.d) then [SuiteOf(n.d)] else []
  }

  /** The suite declarators at any depth, in document order. */
  function Suites(body: seq<Stmt>): seq<Suite> {
    CollSs(body, PickSuite)
  }

  // ================================================================ client chains

  /** `replaceClientMethods`: the v4 client methods that have a v5 counterpart. */
  const ClientMethods: map<string, string> := map[
    "get" := "get", "post" := "post", "put" := "put", "patch" := "patch",
    "delete" := "delete", "header" := "header", "send" := "json", "query" := "qs",
    "type" := "type", "accept" := "accept", "cookie" := "cookie",
    "plainCookie" := "cookie", "field" := "field", "attach" := "file",
    "loginVia" := "loginAs"]

  /** One call of a chain: the member name it calls and its arguments. */
  datatype Link = Link(name: string, args: seq<Expr>)

  predicate HasMemberCallee(c: Expr) {
    c.Call? && c.callee.Member?
  }

  function LinkOf(c: Expr): Link
    requires HasMemberCallee(c)
  {
    Link(NameOf(c.callee.prop), c.args)
  }

  /** The links of a run of member-callee calls, in order. */
  function Links(cs: seq<Expr>): (r: seq<Link>)
    requires forall i :: 0 <= i < |cs| ==> HasMemberCallee(cs[i])
    ensures |r| == |cs|
    ensures forall i :: 0 <= i < |cs| ==> r[i] == LinkOf(cs[i])
  {
    seq(|cs|, i requires 0 <= i < |cs| => LinkOf(cs[i]))
  }

  /** What `newClientCall` holds once `client` is the base: `client` itself while nothing was kept. */
  function Base(o: Option<Expr>): Expr {
    if o.Some? then o.value else Ident("client")
  }

  /**
   * `newClientCall` after the given links: a link whose method has a
   * counterpart extends the chain with that method and the link's arguments,
   * any other link leaves it as it was.  `None` plays `undefined`.
   */
  function Build(ls: seq<Link>): Option<Expr>
    decreases |ls|
  {
    if ls == [] then None
    else
      var prev := Build(ls[..|ls| - 1]);
      var l := ls[|ls| - 1];
      if l.name in ClientMethods then Some(Call(Member(Base(prev), Ident(ClientMethods[l.name]), false), l.args))
      else prev
  }

  /** How far the loop walks: the calls from the first one on, as long as each has a member callee. */
  function WalkLength(calls: seq<Expr>): (n: nat)
    ensures n <= |calls|
    ensures forall i :: 0 <= i < n ==> HasMemberCallee(calls[i])
    ensures n < |calls| ==> !HasMemberCallee(calls[n])
  {
    if calls == [] || !HasMemberCallee(calls[0]) then 0 else 1 + WalkLength(calls[1..])
  }

  /**
   * The loop that builds `newClientCall`: `calls` is the client call followed by
   * its call ancestors, nearest first.  The walk stops at the first call without
   * a member callee.
   */
  method RebuildClientCall(calls: seq<Expr>) returns (r: Option<Expr>)
    ensures r == Build(Links(calls[..WalkLength(calls)]))
  {
    var rebuilt: Option<Expr> := None;
    var i := 0;
    while i < |calls| && HasMemberCallee(calls[i])
      invariant 0 <= i <= WalkLength(calls)
      invariant rebuilt == Build(Links(calls[..i]))
    {
      ghost var ls := Links(calls[..i + 1]);
      assert ls[..i] == Links(calls[..i]);
      var m := NameOf(calls[i].callee.prop);
      if m in ClientMethods {
        rebuilt := Some(Call(Member(Base(rebuilt), Ident(ClientMethods[m]), false), calls[i].args));
      }
      i := i + 1;
    }
    WalkStops(calls, i);
    r := rebuilt;
  }

  lemma {:induction false} WalkStops(calls: seq<Expr>, i: nat)
    requires i <= WalkLength(calls)
    requires i == |calls| || !HasMemberCallee(calls[i])
    ensures i == WalkLength(calls)
  {
  }

  /** A chain that starts at `client`: `client`, or a member call on such a chain. */
  predicate IsClientRooted(e: Expr) {
    e == Ident("client") || (e.Call? && e.callee.Member? && IsClientRooted(e.callee.obj))
  }

  /** The links of a chain rooted at `client`, innermost first. */
  function ChainOf(e: Expr): (r: seq<Link>)
    requires IsClientRooted(e)
  {
    if e.Call? then ChainOf(e.callee.obj) + [LinkOf(e)] else []
  }

  /** The calls of a chain rooted at `client`, innermost first: the client call, then each enclosing link. */
  function ChainCalls(e: Expr): (r: seq<Expr>)
    requires IsClientRooted(e)
    ensures |r| == |ChainOf(e)|
    ensures forall i :: 0 <= i < |r| ==> HasMemberCallee(r[i])
    ensures e.Call? ==> r != [] && r[|r| - 1] == e
  {
    if e.Call? then ChainCalls(e.callee.obj) + [e] else []
  }

  /** The links that have a counterpart, renamed to it, arguments kept, in order. */
  function Renamed(ls: seq<Link>): seq<Link>
    decreases |ls|
  {
    if ls == [] then []
    else
      var l := ls[|ls| - 1];
      Renamed(ls[..|ls| - 1]) + (if l.name in ClientMethods then [Link(ClientMethods[l.name], l.args)] else [])
  }

  /**
   * The rebuilt call is a chain on `client` whose links are exactly the links
   * with a counterpart, renamed, with their arguments, in their order; the
   * others are dropped.
   */
  lemma {:induction false} BuildChain(ls: seq<Link>)
    ensures IsClientRooted(Base(Build(ls)))
    ensures ChainOf(Base(Build(ls))) == Renamed(ls)
    decreases |ls|
  {
    if ls != [] {
      var init, l := ls[..|ls| - 1], ls[|ls| - 1];
      BuildChain(init);
      if l.name in ClientMethods {
        var b := Call(Member(Base(Build(init)), Ident(ClientMethods[l.name]), false), l.args);
        assert Base(Build(ls)) == b;
        assert ChainOf(b) == ChainOf(Base(Build(init))) + [Link(ClientMethods[l.name], l.args)];
      } else {
        assert Build(ls) == Build(init);
        assert Renamed(ls) == Renamed(init) + [];
      }
    }
  }

  /**
   * The rewrite the model uses for a chain: each member call on a chain rooted at
   * `client` becomes the call of its counterpart on the rewritten chain, or is
   * dropped when its method has none.  It is applied bottom-up, so each chain
   * is rebuilt in place and the call around it is kept.
   */
  function ClientLink(e: Expr): Expr {
    if e.Call? && e.callee.Member? && IsClientRooted(e.callee.obj) then
      var m := NameOf(e.callee.prop);
      if m in ClientMethods then Call(Member(e.callee.obj, Ident(ClientMethods[m]), false), e.args)
      else e.callee.obj
    else e
  }

  function ClientRules(): Rules {
    Rules(ClientLink, (s, top) => [s])
  }

  /** The links of a chain as the bottom-up rewrite sees them: with their parts rewritten. */
  function Seen(e: Expr): seq<Link>
    requires IsClientRooted(e)
  {
    if e.Call? then Seen(e.callee.obj) + [Link(NameOf(MapE(e.callee.prop, ClientRules())), MapEs(e.args, ClientRules()))]
    else []
  }

  /** The rewrite turns a whole chain into the chain `Build` makes of the links it sees. */
  lemma {:induction false} ChainRewritten(e: Expr)
    requires IsClientRooted(e)
    ensures MapE(e, ClientRules()) == Base(Build(Seen(e)))
  {
    if e.Call? {
      var o, p, c := e.callee.obj, e.callee.prop, e.callee.computed;
      ChainRewritten(o);
      BuildChain(Seen(o));
      var R := ClientRules();
      var mo, mp, ma := MapE(o, R), MapE(p, R), MapEs(e.args, R);
      MemberRewritten(o, p, c);
      assert KidsE(e, R) == Call(Member(mo, mp, c), ma);
      var l := Link(NameOf(mp), ma);
      assert Seen(e) == Seen(o) + [l];
      BuildSnoc(Seen(o), l);
      RootedLink(mo, mp, c, ma);
    }
  }

  lemma MemberRewritten(o: Expr, p: Expr, c: bool)
    ensures MapE(Member(o, p, c), ClientRules()) == Member(MapE(o, ClientRules()), MapE(p, ClientRules()), c)
  {
  }

  lemma BuildSnoc(ls: seq<Link>, l: Link)
    ensures Build(ls + [l]) ==
      if l.name in ClientMethods then Some(Call(Member(Base(Build(ls)), Ident(ClientMethods[l.name]), false), l.args))
      else Build(ls)
  {
    assert (ls + [l])[..|ls|] == ls;
  }

  lemma RootedLink(b: Expr, p: Expr, c: bool, args: seq<Expr>)
    requires IsClientRooted(b)
    ensures ClientLink(Call(Member(b, p, c), args)) ==
      if NameOf(p) in ClientMethods then Call(Member(b, Ident(ClientMethods[NameOf(p)]), false), args) else b
  {
  }

  /** A call around a chain is kept as a call: only its parts are rewritten. */
  lemma EnclosingCallKept(callee: Expr, args: seq<Expr>)
    requires !callee.Member?
    ensures MapE(Call(callee, args), ClientRules()) == Call(MapE(callee, ClientRules()), MapEs(args, ClientRules()))
  {
    MapMemberKeepsShape(callee);
  }

  lemma MapMemberKeepsShape(e: Expr)
    ensures MapE(e, ClientRules()).Member? <==> e.Member?
  {
  }

  /** No node is a member call on a chain rooted at `client`. */
  predicate NoClientLink(n: Node) {
    n.NE? ==> !(n.e.Call? && n.e.callee.Member? && IsClientRooted(n.e.callee.obj))
  }

  lemma ClientRulesFix()
    ensures Fixes(ClientRules(), NoClientLink)
  {
  }

  /** Every link of the chain has an identifier property and arguments with no chain inside. */
  predicate QuietChain(e: Expr)
    requires IsClientRooted(e)
  {
    e.Call? ==>
      QuietChain(e.callee.obj) && e.callee.prop.Ident? && CollEs(e.args, Violations(NoClientLink)) == []
  }

  lemma {:induction false} SeenQuiet(e: Expr)
    requires IsClientRooted(e) && QuietChain(e)
    ensures Seen(e) == Links(ChainCalls(e))
  {
    if e.Call? {
      SeenQuiet(e.callee.obj);
      ClientRulesFix();
      FixEs(e.args, ClientRules(), NoClientLink);
      assert MapE(e.callee.prop, ClientRules()) == e.callee.prop;
    }
  }

  lemma {:induction false} WalkPrefix(cs: seq<Expr>, rest: seq<Expr>)
    requires forall i :: 0 <= i < |cs| ==> HasMemberCallee(cs[i])
    requires rest == [] || !HasMemberCallee(rest[0])
    ensures WalkLength(cs + rest) == |cs|
  {
    if cs != [] {
      assert (cs + rest)[1..] == cs[1..] + rest;
      WalkPrefix(cs[1..], rest);
    } else {
      assert cs + rest == rest;
    }
  }

  /**
   * The loop and the rewrite agree: walking the calls of a chain whose link
   * arguments hold no other chain, up to a call around it that has no member
   * callee (or up to the top), builds what the rewrite puts in the chain's place.
   */
  lemma WalkAgreesWithRewrite(e: Expr, rest: seq<Expr>)
    requires IsClientRooted(e) && QuietChain(e)
    requires rest == [] || !HasMemberCallee(rest[0])
    ensures var calls := ChainCalls(e) + rest;
      Base(Build(Links(calls[..WalkLength(calls)]))) == MapE(e, ClientRules())
  {
    var calls := ChainCalls(e) + rest;
    WalkPrefix(ChainCalls(e), rest);
    assert calls[..WalkLength(calls)] == ChainCalls(e);
    SeenQuiet(e);
    ChainRewritten(e);
  }

  /**
   * `findLastParentOfTypeCallExpression` from the client call: when the chain's
   * last link is the call ancestor at `top` (it has a member callee) and no call
   * above it has one, that link is what the chain replaces.
   */
  lemma ReplacedAtChainTop(path: seq<Ancestor>, top: nat, r: Option<nat>)
    requires IsCallAt(path, top) && path[top].calleeIsMember
    requires forall j :: top < j < |path| && IsCallAt(path, j) ==> !path[j].calleeIsMember
    requires LastCallSpec(path, 0, r)
    ensures r == Some(top)
  {
  }

  /** The ancestors of `client.get('/')` in `test('t', async ({ client }) => { await client.get('/') })`. */
  function LoneClientCallPath(): seq<Ancestor> {
    [Ancestor("AwaitExpression", false), Ancestor("ExpressionStatement", false),
     Ancestor("BlockStatement", false), Ancestor("ArrowFunctionExpression", false),
     Ancestor("CallExpression", false), Ancestor("ExpressionStatement", false),
     Ancestor("Program", false)]
  }

  /**
   * As written, a client call with no chained link replaces its nearest call
   * ancestor: in the file above, the whole `test(...)` call (index 4) is
   * replaced by `client.get('/')`.
   */
  lemma LoneClientCallReplacesTest(r: Option<nat>)
    requires LastCallSpec(LoneClientCallPath(), 0, r)
    ensures r == Some(4)
  {
    var path := LoneClientCallPath();
    assert IsCallAt(path, 4);
    forall j | 0 <= j < |path| && j != 4
      ensures !IsCallAt(path, j)
    {
    }
  }

  /** The rewrite the model uses keeps that `test(...)` call and rewrites only the chain inside it. */
  lemma LoneClientCallKept(title: Expr, m: string, args: seq<Expr>)
    requires m in ClientMethods && title.Str?
    requires CollEs(args, Violations(NoClientLink)) == []
    ensures var R := ClientRules();
      var chain := Call(Member(Ident("client"), Ident(m), false), args);
      MapE(Call(Ident("test"), [title, Func([], [ExprStmt(Await(chain), [])], true, true)]), R) ==
      Call(Ident("test"), [title, Func([], [ExprStmt(Await(Call(Member(Ident("client"), Ident(ClientMethods[m]), false), args)), [])], true, true)])
  {
    var R := ClientRules();
    var chain := Call(Member(Ident("client"), Ident(m), false), args);
    var chain2 := Call(Member(Ident("client"), Ident(ClientMethods[m]), false), args);
    var cb := Func([], [ExprStmt(Await(chain), [])], true, true);
    var cb2 := Func([], [ExprStmt(Await(chain2), [])], true, true);
    LoneChainRewritten(m, args);
    CallbackRewritten(chain);
    assert MapE(cb, R) == cb2;
    assert MapE(title, R) == title;
    assert MapEs([title, cb], R) == [title, cb2] by {
      assert MapEs([title, cb], R) == [MapE(title, R)] + MapEs([cb], R);
      assert MapEs([cb], R) == [MapE(cb, R)] + MapEs([], R);
    }
    assert MapE(Ident("test"), R) == Ident("test");
    EnclosingCallKept(Ident("test"), [title, cb]);
  }

  lemma LoneChainRewritten(m: string, args: seq<Expr>)
    requires m in ClientMethods
    requires CollEs(args, Violations(NoClientLink)) == []
    ensures MapE(Call(Member(Ident("client"), Ident(m), false), args), ClientRules()) ==
      Call(Member(Ident("client"), Ident(ClientMethods[m]), false), args)
  {
    var chain := Call(Member(Ident("client"), Ident(m), false), args);
    ClientRulesFix();
    FixEs(args, ClientRules(), NoClientLink);
    ChainRewritten(chain);
    assert Seen(Ident("client")) == [];
  }

  lemma CallbackRewritten(x: Expr)
    ensures var R := ClientRules();
      MapE(Func([], [ExprStmt(Await(x), [])], true, true), R) == Func([], [ExprStmt(Await(MapE(x, R)), [])], true, true)
  {
    var R := ClientRules();
    var st := ExprStmt(Await(x), []);
    assert MapE(Await(x), R) == Await(MapE(x, R));
    assert MapS(st, false, R) == [ExprStmt(Await(MapE(x, R)), [])];
    assert MapSs([st], false, R) == MapS(st, false, R) + MapSs([], false, R);
  }

  // ================================================================ response and assertion renames

  /** `replaceResponseMethods`: the v4 response assertions and their v5 names. */
  const ResponseMethods: map<string, string> := map[
    "assertJSON" := "assertBody", "assertJSONSubset" := "assertBodyContains",
    "assertText" := "assertTextIncludes", "assertError" := "assertBody",
    "assertPlainCookie" := "assertCookie", "assertCookieExists" := "assertCookie",
    "assertPlainCookieExists" := "assertCookie", "assertRedirect" := "assertRedirectsTo"]

  /** No new name is itself renamed again. */
  lemma ResponseNamesAreFinal()
    ensures forall k :: k in ResponseMethods ==> ResponseMethods[k] !in ResponseMethods
  {
  }

  /** The calls the pass starts from: `client.<m>(...)`. */
  function PickClientCall(n: Node): seq<Expr> {
    if n.NE? && n.e.Call? && n.e.callee.Member? && n.e.callee.obj == Ident("client") then [n.e] else []
  }

  /** Declaration statements are cut out, so what is left of an initialiser has no declarator of its own. */
  function NoDeclarations(): Rules {
    Rules(e => e, (s: Stmt, top: bool) => if s.VarDecl? || (s.ExportDecl? && s.decl.VarDecl?) then [] else [s])
  }

  /** The declarator is the nearest declarator above some client call. */
  predicate OwnsClientCall(d: Declarator) {
    d.init.Some? && CollE(MapE(d.init.value, NoDeclarations()), PickClientCall) != []
  }

  function PickResponse(n: Node): seq<string> {
    if n.ND? && n.d.id.Ident? && OwnsClientCall(n.d) then [n.d.id.name] else []
  }

  /** The names of the variables that hold a client result (`responseVarName`). */
  function ResponseNames(body: seq<Stmt>): seq<string> {
    CollSs(body, PickResponse)
  }

  /** `v.m(...)` with `v` one of the names and `m` a response method to rename. */
  predicate IsResponseCall(names: seq<string>, e: Expr) {
    e.Call? && e.callee.Member? && e.callee.obj.Ident? && e.callee.obj.name in names &&
    e.callee.prop.Ident? && e.callee.prop.name in ResponseMethods
  }

  function RenameResponse(names: seq<string>, e: Expr): Expr {
    if IsResponseCall(names, e) then
      Call(Member(e.callee.obj, Ident(ResponseMethods[e.callee.prop.name]), e.callee.computed), e.args)
    else e
  }

  function ResponseRules(names: seq<string>): Rules {
    Rules(e => RenameResponse(names, e), (s, top) => [s])
  }

  predicate NoResponseCall(names: seq<string>, n: Node) {
    n.NE? ==> !IsResponseCall(names, n.e)
  }

  function NoResponseCalls(names: seq<string>): Node -> bool {
    n => NoResponseCall(names, n)
  }

  lemma {:induction false} RenamedCallClean(q: Node -> bool, obj: Expr, name: string, computed: bool, args: seq<Expr>)
    requires obj.Ident?
    requires q(NE(Call(Member(obj, Ident(name), computed), args)))
    requires q(NE(Member(obj, Ident(name), computed))) && q(NE(obj)) && q(NE(Ident(name)))
    requires CollEs(args, Violations(q)) == []
    ensures CollE(Call(Member(obj, Ident(name), computed), args), Violations(q)) == []
  {
    LeafClean(q, obj);
    LeafClean(q, Ident(name));
    MemberClean(q, obj, Ident(name), computed);
    CallClean(q, Member(obj, Ident(name), computed), args);
  }

  lemma {:induction false} ResponseClean(names: seq<string>, e: Expr)
    requires KidsCollE(e, Violations(NoResponseCalls(names))) == []
    ensures CollE(RenameResponse(names, e), Violations(NoResponseCalls(names))) == []
  {
    var q := NoResponseCalls(names);
    if IsResponseCall(names, e) {
      ResponseNamesAreFinal();
      assert CollE(e.callee, Violations(q)) + CollEs(e.args, Violations(q)) == [];
      RenamedCallClean(q, e.callee.obj, ResponseMethods[e.callee.prop.name], e.callee.computed, e.args);
    } else {
      QuietNode(q, NE(e));
    }
  }

  lemma ResponseEstablishes(names: seq<string>)
    ensures Establishes(ResponseRules(names), NoResponseCalls(names))
    ensures Fixes(ResponseRules(names), NoResponseCalls(names))
  {
    var q := NoResponseCalls(names);
    var v := Violations(q);
    forall e: Expr | KidsCollE(e, v) == []
      ensures CollE(ResponseRules(names).fe(e), v) == []
    {
      ResponseClean(names, e);
    }
    forall s: Stmt, top: bool | KidsCollS(s, v) == []
      ensures CollSs(ResponseRules(names).fs(s, top), v) == []
    {
      QuietNode(q, NS(s));
      assert CollSs([s], v) == CollS(s, v) + CollSs([], v);
    }
  }

  /** After the rename no response call to rename is left on any of the names, at any depth. */
  lemma NoResponseCallLeft(names: seq<string>, body: seq<Stmt>)
    ensures EverySs(NoResponseCalls(names), MapSs(body, true, ResponseRules(names)))
  {
    ResponseEstablishes(names);
    EstablishSs(body, true, ResponseRules(names), NoResponseCalls(names));
  }

  /** Renaming again changes nothing, so one rename per client call is the same as one in all. */
  lemma ResponseRenameIdempotent(names: seq<string>, body: seq<Stmt>)
    ensures var once := MapSs(body, true, ResponseRules(names));
      MapSs(once, true, ResponseRules(names)) == once
  {
    NoResponseCallLeft(names, body);
    ResponseEstablishes(names);
    FixSs(MapSs(body, true, ResponseRules(names)), true, ResponseRules(names), NoResponseCalls(names));
  }

  /** `assert.containSubset(...)` */
  predicate IsContainSubset(e: Expr) {
    e.Call? && e.callee.Member? && e.callee.obj == Ident("assert") && IsIdent(e.callee.prop, "containSubset")
  }

  function RenameAssert(e: Expr): Expr {
    if IsContainSubset(e) then Call(Member(e.callee.obj, Ident("containsSubset"), e.callee.computed), e.args) else e
  }

  function AssertRules(): Rules {
    Rules(RenameAssert, (s, top) => [s])
  }

  predicate NoContainSubset(n: Node) {
    n.NE? ==> !IsContainSubset(n.e)
  }

  lemma {:induction false} AssertClean(e: Expr)
    requires KidsCollE(e, Violations(NoContainSubset)) == []
    ensures CollE(RenameAssert(e), Violations(NoContainSubset)) == []
  {
    var v := Violations(NoContainSubset);
    if IsContainSubset(e) {
      assert CollE(e.callee, v) + CollEs(e.args, v) == [];
      RenamedCallClean(NoContainSubset, e.callee.obj, "containsSubset", e.callee.computed, e.args);
    } else {
      QuietNode(NoContainSubset, NE(e));
    }
  }

  lemma AssertEstablishes()
    ensures Establishes(AssertRules(), NoContainSubset)
  {
    var v := Violations(NoContainSubset);
    forall e: Expr | KidsCollE(e, v) == []
      ensures CollE(AssertRules().fe(e), v) == []
    {
      AssertClean(e);
    }
    forall s: Stmt, top: bool | KidsCollS(s, v) == []
      ensures CollSs(AssertRules().fs(s, top), v) == []
    {
      QuietNode(NoContainSubset, NS(s));
      assert CollSs([s], v) == CollS(s, v) + CollSs([], v);
    }
  }

  /** No `assert.containSubset(...)` call is left anywhere. */
  lemma NoContainSubsetLeft(body: seq<Stmt>)
    ensures EverySs(NoContainSubset, MapSs(body, true, AssertRules()))
  {
    AssertEstablishes();
    EstablishSs(body, true, AssertRules(), NoContainSubset);
  }

  // ================================================================ removing the suite

  predicate NotSuite(d: Declarator) {
    !IsSuiteDeclarator(d)
  }

  /**
   * One declaration statement once the suite declarators are removed: it goes
   * when they were all it declared, or when its first remaining declarator is
   * initialised from the suite's local name; otherwise it keeps the others.
   */
  function RemoveSuite(local: Option<string>, s: Stmt): seq<Stmt> {
    if s.VarDecl? then
      var kept := Filter(s.decls, NotSuite);
      if s.decls != [] && kept == [] then []
      else if local.Some? && kept != [] && kept[0].init == Some(Ident(local.value)) then []
      else [VarDecl(s.kind, kept, s.comments)]
    else [s]
  }

  function SuiteRemoval(local: Option<string>): Rules {
    Rules(e => e, (s, top) => RemoveSuite(local, s))
  }

  /** A declaration statement that declares no suite and does not start from the local name. */
  predicate NoSuiteLeft(local: Option<string>, n: Node) {
    n.NS? && n.s.VarDecl? ==>
      (forall d :: d in n.s.decls ==> NotSuite(d)) &&
      !(local.Some? && n.s.decls != [] && n.s.decls[0].init == Some(Ident(local.value)))
  }

  function NoSuitesLeft(local: Option<string>): Node -> bool {
    n => NoSuiteLeft(local, n)
  }

  lemma {:induction false} KeptDeclaratorsClean(ds: seq<Declarator>, v: Node -> seq<Node>)
    requires CollDs(ds, v) == []
    ensures CollDs(Filter(ds, NotSuite), v) == []
  {
    if ds != [] {
      KeptDeclaratorsClean(ds[1..], v);
      assert CollD(ds[0], v) == [];
      var rest := Filter(ds[1..], NotSuite);
      if NotSuite(ds[0]) {
        assert Filter(ds, NotSuite) == [ds[0]] + rest;
        assert ([ds[0]] + rest)[1..] == rest;
      } else {
        assert Filter(ds, NotSuite) == rest;
      }
    }
  }

  lemma {:induction false} RemoveSuiteClean(local: Option<string>, s: Stmt)
    requires KidsCollS(s, Violations(NoSuitesLeft(local))) == []
    ensures CollSs(RemoveSuite(local, s), Violations(NoSuitesLeft(local))) == []
  {
    var q := NoSuitesLeft(local);
    var v := Violations(q);
    var out := RemoveSuite(local, s);
    if out != [] {
      var t := out[0];
      assert out == [t];
      if s.VarDecl? {
        KeptDeclaratorsClean(s.decls, v);
        assert KidsCollS(t, v) == [];
      }
      QuietNode(q, NS(t));
      assert CollSs(out, v) == CollS(t, v) + CollSs([], v);
    }
  }

  lemma SuiteRemovalEstablishes(local: Option<string>)
    ensures Establishes(SuiteRemoval(local), NoSuitesLeft(local))
    ensures EstablishesAtTop(SuiteRemoval(local), NoSuitesLeft(local))
  {
    var q := NoSuitesLeft(local);
    var v := Violations(q);
    forall e: Expr | KidsCollE(e, v) == []
      ensures CollE(SuiteRemoval(local).fe(e), v) == []
    {
      QuietNode(q, NE(e));
    }
    forall s: Stmt, top: bool | KidsCollS(s, v) == []
      ensures CollSs(SuiteRemoval(local).fs(s, top), v) == []
    {
      RemoveSuiteClean(local, s);
    }
  }

  /**
   * No declaration statement in any statement list still declares a suite or
   * starts from the suite's local name.
   */
  lemma NoSuiteDeclarationLeft(local: Option<string>, body: seq<Stmt>)
    ensures EverySs(NoSuitesLeft(local), MapSs(body, true, SuiteRemoval(local)))
  {
    SuiteRemovalEstablishes(local);
    EstablishSs(body, true, SuiteRemoval(local), NoSuitesLeft(local));
  }

  /** The declarators a kept declaration loses are exactly its suite declarators. */
  lemma KeptDeclarators(local: Option<string>, s: Stmt)
    requires s.VarDecl? && RemoveSuite(local, s) != []
    ensures RemoveSuite(local, s) == [VarDecl(s.kind, Filter(s.decls, NotSuite), s.comments)]
    ensures forall d :: d in RemoveSuite(local, s)[0].decls <==> d in s.decls && !IsSuiteDeclarator(d)
  {
  }

  // ================================================================ test statements

  /** `testIds` */
  const TestIds: seq<string> := ["before", "beforeEach", "afterEach", "after", "test", "trait"]

  /** An expression statement `f(...)` with `f` one of the test functions. */
  predicate IsTestCall(s: Stmt) {
    s.ExprStmt? && s.expr.Call? && s.expr.callee.Ident? && s.expr.callee.name in TestIds
  }

  predicate IsTestNamed(s: Stmt, name: string) {
    IsTestCall(s) && s.expr.callee.name == name
  }

  /** `replaceHooks`: the group hook each v4 hook becomes. */
  function HookCallee(name: string): (r: Option<Expr>)
    ensures r.Some? <==> name in ["before", "beforeEach", "after", "afterEach"]
  {
    if name == "before" then Some(Ident("setup"))
    else if name == "beforeEach" then Some(Member(Ident("each"), Ident("setup"), false))
    else if name == "after" then Some(Ident("teardown"))
    else if name == "afterEach" then Some(Member(Ident("each"), Ident("teardown"), false))
    else None
  }

  /** `group.<hook>(args)` as a new statement. */
  function GroupCall(hook: Expr, args: seq<Expr>): Stmt {
    ExprStmt(Call(Member(Ident("group"), hook, false), args), [])
  }

  /** The hook `trait('DatabaseTransactions')` becomes: a global transaction opened before each test and rolled back after it. */
  function TransactionHook(): Stmt {
    var database := Ident("Database");
    var load := VarDecl(Const, [Declarator(ObjPattern([Prop(Ident("default"), database, false, false, [])]),
      Some(Await(OtherExpr("ImportExpression", [Str("@ioc:Adonis/Lucid/Database")]))), [])], []);
    var begin := ExprStmt(Await(Call(Member(database, Ident("beginGlobalTransaction"), false), [])), []);
    var rollback := Return(Func([], [Return(Call(Member(database, Ident("rollbackGlobalTransaction"), false), []))], true, false));
    GroupCall(Member(Ident("each"), Ident("setup"), false), [Func([], [load, begin, rollback], true, true)])
  }

  /** `trait()` with no argument: reading `args[0].value` throws. */
  predicate BareTrait(s: Stmt) {
    IsTestNamed(s, "trait") && s.expr.args == []
  }

  /** What a test statement contributes to the group: its hook, the transaction hook, itself, or nothing. */
  function Converted(s: Stmt): seq<Stmt> {
    if !IsTestCall(s) then []
    else
      var name, args := s.expr.callee.name, s.expr.args;
      if HookCallee(name).Some? then [GroupCall(HookCallee(name).value, args)]
      else if name == "trait" && args != [] && args[0] == Str("DatabaseTransactions") then [TransactionHook()]
      else if name == "test" then [s]
      else []
  }

  /** A group hook statement the pass creates. */
  predicate IsGroupHook(s: Stmt) {
    s.ExprStmt? && s.comments == [] && s.expr.Call? && s.expr.callee.Member? && s.expr.callee.obj == Ident("group")
  }

  /**
   * Hooks keep their arguments under their group name, `test(...)` statements
   * stay as they are, the DatabaseTransactions trait becomes the transaction
   * hook and any other trait goes.
   */
  lemma ConvertedCases(s: Stmt)
    requires IsTestCall(s)
    ensures var name, args := s.expr.callee.name, s.expr.args;
      (name == "before" ==> Converted(s) == [GroupCall(Ident("setup"), args)]) &&
      (name == "beforeEach" ==> Converted(s) == [GroupCall(Member(Ident("each"), Ident("setup"), false), args)]) &&
      (name == "after" ==> Converted(s) == [GroupCall(Ident("teardown"), args)]) &&
      (name == "afterEach" ==> Converted(s) == [GroupCall(Member(Ident("each"), Ident("teardown"), false), args)]) &&
      (name == "test" ==> Converted(s) == [s]) &&
      (name == "trait" ==> Converted(s) == (if args != [] && args[0] == Str("DatabaseTransactions") then [TransactionHook()] else []))
  {
  }

  /** Test statements are removed from every statement list. */
  function TestRemoval(): Rules {
    Rules(e => e, (s, top) => if IsTestCall(s) then [] else [s])
  }

  /** A test statement as it is pushed: the nested test statements the removal takes out are gone from it. */
  function PickTest(n: Node): seq<Stmt> {
    if n.NS? && IsTestCall(n.s) then [KidsS(n.s, TestRemoval())] else []
  }

  /** `testSt` after the pushes for the found statements, or `None` once a bare `trait()` throws. */
  function TestStatements(found: seq<Stmt>): Option<seq<Stmt>>
    decreases |found|
  {
    if found == [] then Some([])
    else
      var prev := TestStatements(found[..|found| - 1]);
      var s := found[|found| - 1];
      if prev.None? || BareTrait(s) then None else Some(prev.value + Converted(s))
  }

  /** The loop over the found test statements. */
  method ConvertTests(found: seq<Stmt>) returns (r: Option<seq<Stmt>>)
    ensures r == TestStatements(found)
  {
    var testSt: seq<Stmt> := [];
    var i := 0;
    while i < |found|
      invariant 0 <= i <= |found|
      invariant TestStatements(found[..i]) == Some(testSt)
    {
      var s := found[i];
      assert found[..i + 1][..i] == found[..i];
      if BareTrait(s) {
        TestStatementsFail(found, i + 1);
        return None;
      }
      testSt := testSt + Converted(s);
      i := i + 1;
    }
    assert found[..i] == found;
    r := Some(testSt);
  }

  /** Once a prefix fails, the whole list fails. */
  lemma {:induction false} TestStatementsFail(found: seq<Stmt>, k: nat)
    requires k <= |found| && TestStatements(found[..k]).None?
    ensures TestStatements(found).None?
    decreases |found| - k
  {
    if k < |found| {
      assert found[..k + 1][..k] == found[..k];
      TestStatementsFail(found, k + 1);
    } else {
      assert found[..k] == found;
    }
  }

  /**
   * Every statement of `testSt` is what some found statement contributes, and
   * every found statement's contribution is in it: in particular each found
   * `test(...)` statement is kept as it is, and nothing but those and group hooks
   * is pushed.
   */
  lemma {:induction false} TestStatementsSpec(found: seq<Stmt>)
    requires TestStatements(found).Some?
    ensures var ts := TestStatements(found).value;
      (forall x :: x in ts ==> exists s :: s in found && x in Converted(s)) &&
      (forall s, x :: s in found && x in Converted(s) ==> x in ts) &&
      (forall x :: x in ts ==> (x in found && IsTestNamed(x, "test")) || IsGroupHook(x))
    decreases |found|
  {
    if found != [] {
      var init, s := found[..|found| - 1], found[|found| - 1];
      TestStatementsSpec(init);
      var ts := TestStatements(found).value;
      assert ts == TestStatements(init).value + Converted(s);
      assert forall t :: t in found <==> t in init || t == s;
      ConvertedShape(s);
    }
  }

  lemma ConvertedShape(s: Stmt)
    ensures forall x :: x in Converted(s) ==> (x == s && IsTestNamed(s, "test")) || IsGroupHook(x)
  {
  }

  predicate NoTestCall(n: Node) {
    n.NS? ==> !IsTestCall(n.s)
  }

  lemma TestRemovalEstablishes()
    ensures Establishes(TestRemoval(), NoTestCall) && EstablishesAtTop(TestRemoval(), NoTestCall)
  {
    var v := Violations(NoTestCall);
    forall e: Expr | KidsCollE(e, v) == []
      ensures CollE(TestRemoval().fe(e), v) == []
    {
      QuietNode(NoTestCall, NE(e));
    }
    forall s: Stmt, top: bool | KidsCollS(s, v) == []
      ensures CollSs(TestRemoval().fs(s, top), v) == []
    {
      if !IsTestCall(s) {
        QuietNode(NoTestCall, NS(s));
        assert CollSs([s], v) == CollS(s, v) + CollSs([], v);
      }
    }
  }

  /** No hook, trait or test statement is left in any statement list. */
  lemma NoTestCallLeft(body: seq<Stmt>)
    ensures EverySs(NoTestCall, MapSs(body, true, TestRemoval()))
  {
    TestRemovalEstablishes();
    EstablishSs(body, true, TestRemoval(), NoTestCall);
  }

  // ================================================================ the whole pass

  /** `import { test } from '@japa/runner'` */
  function TestImport(): Stmt {
    Import([ImportSpec(NamedSpec, "test", "test")], "@japa/runner", [])
  }

  /** `test.group(title, (group) => { block })` */
  function TestGroup(title: Expr, block: seq<Stmt>): Stmt {
    ExprStmt(Call(Member(Ident("test"), Ident("group"), false), [title, Func([Ident("group")], block, true, false)]), [])
  }

  predicate IsImportDecl(s: Stmt) {
    s.Import?
  }

  predicate NotImportDecl(s: Stmt) {
    !s.Import?
  }

  /**
   * The body once client chains are rebuilt, response and assertion calls
   * renamed, the suite declarations removed and the test import put first.
   */
  function Prepared(body: seq<Stmt>, suite: Suite): seq<Stmt> {
    var b1 := MapSs(body, true, ClientRules());
    var b2 := MapSs(b1, true, ResponseRules(ResponseNames(body)));
    var b3 := MapSs(b2, true, AssertRules());
    [TestImport()] + MapSs(b3, true, SuiteRemoval(suite.local))
  }

  /** The test statements found in the prepared body, as they are pushed. */
  function Found(body: seq<Stmt>, suite: Suite): seq<Stmt> {
    CollSs(Prepared(body, suite), PickTest)
  }

  /** The prepared body with every test statement removed. */
  function Remaining(body: seq<Stmt>, suite: Suite): seq<Stmt> {
    MapSs(Prepared(body, suite), true, TestRemoval())
  }

  /**
   * The pass on one program.  Without a suite declarator nothing changes; a
   * suite with no title argument or a bare `trait()` makes the pass throw
   * (`None`); otherwise the body becomes its imports and the group.
   */
  function Testing(p: Program): Option<Program> {
    var suites := Suites(p.body);
    if suites == [] then Some(p)
    else
      var suite := suites[0];
      var tests := TestStatements(Found(p.body, suite));
      if suite.title.None? || tests.None? then None
      else
        var rest := Remaining(p.body, suite);
        Some(Program(Filter(rest, IsImportDecl) + [TestGroup(suite.title.value, Filter(rest, NotImportDecl) + tests.value)], p.comments))
  }

  /** The two `filter` calls over the body, as one loop. */
  method Partition(body: seq<Stmt>) returns (imports: seq<Stmt>, others: seq<Stmt>)
    ensures imports == Filter(body, IsImportDecl) && others == Filter(body, NotImportDecl)
  {
    imports, others := [], [];
    var i := 0;
    while i < |body|
      invariant 0 <= i <= |body|
      invariant imports == Filter(body[..i], IsImportDecl) && others == Filter(body[..i], NotImportDecl)
    {
      assert body[..i + 1] == body[..i] + [body[i]];
      FilterSnoc(body[..i], body[i]);
      if body[i].Import? {
        imports := imports + [body[i]];
      } else {
        others := others + [body[i]];
      }
      i := i + 1;
    }
    assert body[..i] == body;
  }

  lemma FilterSnoc(xs: seq<Stmt>, x: Stmt)
    ensures Filter(xs + [x], IsImportDecl) == Filter(xs, IsImportDecl) + (if x.Import? then [x] else [])
    ensures Filter(xs + [x], NotImportDecl) == Filter(xs, NotImportDecl) + (if x.Import? then [] else [x])
  {
    FilterAppend(xs, [x], IsImportDecl);
    FilterAppend(xs, [x], NotImportDecl);
    FilterOne(x, IsImportDecl);
    FilterOne(x, NotImportDecl);
  }

  lemma FilterOne(x: Stmt, p: Stmt -> bool)
    ensures Filter([x], p) == if p(x) then [x] else []
  {
    assert [x][1..] == [];
  }

  /** The partition loses and duplicates nothing: together the two parts hold every statement once. */
  lemma {:induction false} PartitionComplete(body: seq<Stmt>)
    ensures multiset(Filter(body, IsImportDecl)) + multiset(Filter(body, NotImportDecl)) == multiset(body)
  {
    if body != [] {
      var h, t := body[0], body[1..];
      PartitionComplete(t);
      assert body == [h] + t;
      assert multiset(body) == multiset([h]) + multiset(t);
      if h.Import? {
        assert Filter(body, IsImportDecl) == [h] + Filter(t, IsImportDecl);
        assert Filter(body, NotImportDecl) == Filter(t, NotImportDecl);
      } else {
        assert Filter(body, IsImportDecl) == Filter(t, IsImportDecl);
        assert Filter(body, NotImportDecl) == [h] + Filter(t, NotImportDecl);
      }
    }
  }

  method Run(p: Program) returns (r: Option<Program>)
    ensures r == Testing(p)
  {
    var suites := Suites(p.body);
    if suites == [] {
      return Some(p);
    }
    var suite := suites[0];
    var tests := ConvertTests(Found(p.body, suite));
    if tests.None? {
      return None;
    }
    var imports, others := Partition(Remaining(p.body, suite));
    if suite.title.None? {
      return None;
    }
    r := Some(Program(imports + [TestGroup(suite.title.value, others + tests.value)], p.comments));
  }

  // ---------------------------------------------------------------- what the result looks like

  /** Rules that keep imports and never make one keep the imports of a list, in order. */
  ghost predicate KeepsImports(r: Rules) {
    (forall s: Stmt, t: bool :: s.Import? ==> r.fs(s, t) == [s]) &&
    (forall s: Stmt, t: bool, x :: !s.Import? && x in r.fs(s, t) ==> !x.Import?)
  }

  lemma PassesKeepImports(names: seq<string>, local: Option<string>)
    ensures KeepsImports(ClientRules()) && KeepsImports(ResponseRules(names)) && KeepsImports(AssertRules())
    ensures KeepsImports(SuiteRemoval(local)) && KeepsImports(TestRemoval())
  {
  }

  lemma {:induction false} ImportsKept(ss: seq<Stmt>, top: bool, r: Rules)
    requires KeepsImports(r)
    ensures Filter(MapSs(ss, top, r), IsImportDecl) == Filter(ss, IsImportDecl)
  {
    if ss != [] {
      ImportsKept(ss[1..], top, r);
      FilterAppend(MapS(ss[0], top, r), MapSs(ss[1..], top, r), IsImportDecl);
      var out := MapS(ss[0], top, r);
      if ss[0].Import? {
        assert KidsS(ss[0], r) == ss[0];
        assert out == [ss[0]];
      } else {
        assert !KidsS(ss[0], r).Import?;
        NoImportFiltered(out);
      }
    }
  }

  lemma NoImportFiltered(ss: seq<Stmt>)
    requires forall x :: x in ss ==> !x.Import?
    ensures Filter(ss, IsImportDecl) == []
  {
  }

  lemma {:induction false} EveryFiltered(q: Node -> bool, ss: seq<Stmt>)
    requires EverySs(q, ss)
    ensures EverySs(q, Filter(ss, NotImportDecl))
  {
    if ss != [] {
      assert ss == [ss[0]] + ss[1..];
      EverySsAppend(q, [ss[0]], ss[1..]);
      EveryFiltered(q, ss[1..]);
      EverySsAppend(q, if NotImportDecl(ss[0]) then [ss[0]] else [], Filter(ss[1..], NotImportDecl));
    }
  }

  /** The imports of the prepared body are the test import, then the file's own imports in order. */
  lemma PreparedImports(body: seq<Stmt>, suite: Suite)
    ensures Filter(Remaining(body, suite), IsImportDecl) == [TestImport()] + Filter(body, IsImportDecl)
  {
    var b1 := MapSs(body, true, ClientRules());
    var b2 := MapSs(b1, true, ResponseRules(ResponseNames(body)));
    var b3 := MapSs(b2, true, AssertRules());
    var b4 := MapSs(b3, true, SuiteRemoval(suite.local));
    PassesKeepImports(ResponseNames(body), suite.local);
    ImportsKept(body, true, ClientRules());
    ImportsKept(b1, true, ResponseRules(ResponseNames(body)));
    ImportsKept(b2, true, AssertRules());
    ImportsKept(b3, true, SuiteRemoval(suite.local));
    ImportsKept([TestImport()] + b4, true, TestRemoval());
    FilterAppend([TestImport()], b4, IsImportDecl);
  }

  /**
   * When the pass succeeds on a suite file, the body is the test import, then
   * the file's own imports in their order, then the group; the group's block
   * starts with the rest of the body, which holds no import and no test
   * statement at any depth, followed by the converted test statements.
   */
  lemma ResultLayout(p: Program)
    requires Suites(p.body) != [] && Testing(p).Some?
    ensures var suite := Suites(p.body)[0];
      var b := Testing(p).value.body;
      var others := Filter(Remaining(p.body, suite), NotImportDecl);
      |b| >= 2 && b[..|b| - 1] == [TestImport()] + Filter(p.body, IsImportDecl) &&
      b[|b| - 1] == TestGroup(suite.title.value, others + TestStatements(Found(p.body, suite)).value) &&
      (forall s :: s in others ==> !s.Import?) && EverySs(NoTestCall, others) &&
      Testing(p).value.comments == p.comments
  {
    var suite := Suites(p.body)[0];
    var rest := Remaining(p.body, suite);
    PreparedImports(p.body, suite);
    NoTestCallLeft(Prepared(p.body, suite));
    EveryFiltered(NoTestCall, rest);
    var b := Testing(p).value.body;
    assert b == Filter(rest, IsImportDecl) + [b[|b| - 1]];
    assert b[..|b| - 1] == Filter(rest, IsImportDecl);
  }

  /** A file without a suite declarator is left as it is. */
  lemma UnchangedWithoutSuite(p: Program)
    requires Suites(p.body) == []
    ensures Testing(p) == Some(p)
  {
  }

  /** The pass throws exactly when the suite has no title or some test statement is a bare `trait()`. */
  lemma FailsExactly(p: Program)
    requires Suites(p.body) != []
    ensures var suite := Suites(p.body)[0];
      Testing(p).None? <==> suite.title.None? || exists s :: s in Found(p.body, suite) && BareTrait(s)
  {
    var suite := Suites(p.body)[0];
    TestStatementsNone(Found(p.body, suite));
  }

  lemma {:induction false} TestStatementsNone(found: seq<Stmt>)
    ensures TestStatements(found).None? <==> exists s :: s in found && BareTrait(s)
    decreases |found|
  {
    if found != [] {
      var init, s := found[..|found| - 1], found[|found| - 1];
      TestStatementsNone(init);
      assert found == init + [s];
      assert forall t :: t in found <==> t in init || t == s;
    }
  }
}
