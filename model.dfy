/**
 * The model pass: every top-level class that extends `Model` becomes a Lucid
 * model.  The class extends `BaseModel` (or `compose(BaseModel, ...traits)`), its
 * body is rebuilt from the table name, the primary key, the columns the
 * migrations declare for the table, the hooks and traits registered in `boot`,
 * the relationships the methods return, and the query scopes; the declarations
 * the new body needs go in through the import cursor.
 *
 * What the pass reads from outside the file is a parameter: the `up` methods of
 * the migration classes (`Env.ups`), the pluraliser (`Env.pluralize`), and the
 * random hook names, the `k`-th draw being `Env.randomName(k)`.
 */
module ModelPlugin {
  import opened Ast
  import opened Strings
  import opened Traverse
  import Utils
  import opened Cursor
  import opened ModelColumns

  datatype Env = Env(ups: seq<ClassMember>, pluralize: string -> string, randomName: nat -> string)

  // ================================================================ the old `Model` binding

  /** `const <x> = Application.container.use('Model')`, judged by its first declarator. */
  predicate IsModelUse(s: Stmt) {
    s.VarDecl? && |s.decls| >= 1 && s.decls[0].init.Some? &&
    var c := s.decls[0].init.value;
    c.Call? && c.callee.Member? && c.callee.obj.Member? &&
    IsIdent(c.callee.obj.obj, "Application") && IsIdent(c.callee.obj.prop, "container") &&
    IsIdent(c.callee.prop, "use") && |c.args| >= 1 && c.args[0] == Str("Model")
  }

  function UseRemoval(): Rules {
    Rules(e => e, (s, top) => if IsModelUse(s) then [] else [s])
  }

  predicate NoModelUse(n: Node) {
    n.NS? ==> !IsModelUse(n.s)
  }

  lemma UseRemovalEstablishes()
    ensures Establishes(UseRemoval(), NoModelUse) && EstablishesAtTop(UseRemoval(), NoModelUse)
    ensures Fixes(UseRemoval(), NoModelUse)
  {
    var v := Violations(NoModelUse);
    forall e: Expr | KidsCollE(e, v) == []
      ensures CollE(UseRemoval().fe(e), v) == []
    {
      QuietNode(NoModelUse, NE(e));
    }
    forall s: Stmt, top: bool | KidsCollS(s, v) == []
      ensures CollSs(UseRemoval().fs(s, top), v) == []
    {
      if !IsModelUse(s) {
        QuietNode(NoModelUse, NS(s));
        assert CollSs([s], v) == CollS(s, v) + CollSs([], v);
      }
    }
  }

  /** No statement list, at any depth, still holds such a declaration. */
  lemma NoModelUseLeft(body: seq<Stmt>)
    ensures EverySs(NoModelUse, MapSs(body, true, UseRemoval()))
  {
    UseRemovalEstablishes();
    EstablishSs(body, true, UseRemoval(), NoModelUse);
  }

  /**
   * The removal runs once per model class in the source; a second run finds
   * nothing, so the model runs it once, before the first class is rebuilt.
   */
  lemma UseRemovalIdempotent(body: seq<Stmt>)
    ensures MapSs(MapSs(body, true, UseRemoval()), true, UseRemoval()) == MapSs(body, true, UseRemoval())
  {
    NoModelUseLeft(body);
    UseRemovalEstablishes();
    FixSs(MapSs(body, true, UseRemoval()), true, UseRemoval(), NoModelUse);
  }

  // ================================================================ members the rebuild reads

  /** The first member `get <name>()` among the class's own members. */
  function Getter(ms: seq<ClassMember>, name: string): (r: Option<ClassMember>)
    ensures r.Some? ==> r.value in ms && r.value.MethodDef? && r.value.kind == KGet && r.value.key == name
    ensures r.None? ==> forall m :: m in ms ==> !(m.MethodDef? && m.kind == KGet && m.key == name)
  {
    if ms == [] then None
    else if ms[0].MethodDef? && ms[0].kind == KGet && ms[0].key == name then Some(ms[0])
    else Getter(ms[1..], name)
  }

  /** The first member `static boot()` among the class's own members. */
  function Boot(ms: seq<ClassMember>): (r: Option<ClassMember>)
    ensures r.Some? ==> r.value in ms && r.value.MethodDef? && r.value.kind == KMethod && r.value.isStatic && r.value.key == "boot"
  {
    if ms == [] then None
    else if ms[0].MethodDef? && ms[0].kind == KMethod && ms[0].isStatic && ms[0].key == "boot" then Some(ms[0])
    else Boot(ms[1..])
  }

  /** `static table = '<name>'` */
  function StaticField(key: string, value: Expr): ClassMember {
    FieldDef(key, Some(value), true, [], "")
  }

  /**
   * The table literal: what the first `get table()` returns (None where the
   * source throws), or the pluralised snake-case class name.
   */
  function TableLiteral(id: string, ms: seq<ClassMember>, env: Env): Option<Expr> {
    match Getter(ms, "table")
    case Some(g) => ReturnedLiteral(g.body)
    case None => Some(Str(env.pluralize(Utils.CamelToSnake(id))))
  }

  /** The `primaryKey` field, from the first `get primaryKey()`; the outer None is a throw. */
  function PrimaryKeyField(ms: seq<ClassMember>): Option<seq<ClassMember>> {
    match Getter(ms, "primaryKey")
    case None => Some([])
    case Some(g) =>
      match ReturnedLiteral(g.body)
      case None => None
      case Some(lit) => Some([StaticField("primaryKey", lit)])
  }

  // ================================================================ hooks

  /** `this.<name>(...)` */
  predicate IsThisCall(e: Expr, name: string) {
    e.Call? && e.callee.Member? && e.callee.obj.This? && IsIdent(e.callee.prop, name)
  }

  /** The argument lists of the `this.<name>(...)` calls under a node. */
  function PickThisCall(name: string): Node -> seq<seq<Expr>> {
    (n: Node) => if n.NE? && IsThisCall(n.e, name) then [n.e.args] else []
  }

  datatype Hook = Hook(name: string, handle: Expr)

  /** The hooks one `addHook(name, handle)` registers: one per element of an array handle. */
  function HooksOfCall(args: seq<Expr>): Option<seq<Hook>> {
    if |args| < 2 then None
    else
      var name := GetStringValue(args[0]);
      match args[1]
      case Array(es) => Some(seq(|es|, i requires 0 <= i < |es| => Hook(name, es[i])))
      case h => Some([Hook(name, h)])
  }

  function HooksOf(calls: seq<seq<Expr>>): Option<seq<Hook>> {
    if calls == [] then Some([])
    else match (HooksOfCall(calls[0]), HooksOf(calls[1..]))
      case (Some(a), Some(b)) => Some(a + b)
      case _ => None
  }

  /** The parameter type of a hook of the class: a list after fetch, a paginator after paginate. */
  function HookParamType(hook: string, cls: string): string {
    if hook == "afterFetch" then cls + "[]"
    else if hook == "afterPaginate" then "ModelPaginatorContract<" + cls + ">"
    else cls
  }

  /** `await resolver.call('<binding>', undefined, [model])` */
  function ResolverCall(binding: string): Stmt {
    ExprStmt(Await(Call(Member(Ident("resolver"), Ident("call"), false),
      [Str(binding), Ident("undefined"), Array([Ident("model")])])), [])
  }

  datatype HookMethod = HookMethod(member: ClassMember, draws: nat)

  /**
   * The static method a hook becomes, decorated with `@<hook name>()`.  A string
   * handle names a provider binding the resolver calls; a function handle keeps
   * its body and takes the `k`-th random name.  Any other handle, or a function
   * without an identifier as first parameter, makes the source throw.
   */
  function HookMethodOf(h: Hook, cls: string, env: Env, k: nat): Option<HookMethod> {
    var ty := HookParamType(h.name, cls);
    var dec := [Call(Ident(h.name), [])];
    match h.handle
    case Str(v) =>
      Some(HookMethod(MethodDef(KMethod, true, AfterLast(v, "."), [ParamProp("", "model", ty)],
        [ResolverCall(AfterLast(v, "@provider:"))], dec), 0))
    case Func(ps, b, _, _) =>
      if ps != [] && ps[0].Ident? then
        Some(HookMethod(MethodDef(KMethod, true, env.randomName(k), [ParamProp("", ps[0].name, ty)], b, dec), 1))
      else None
    case _ => None
  }

  /** The ORM names one hook needs: its decorator, after the paginator type for `afterPaginate`. */
  function HookKeys(h: Hook): seq<string> {
    (if h.name == "afterPaginate" then ["ModelPaginatorContract"] else []) + [h.name]
  }

  function HooksKeys(hs: seq<Hook>): seq<string> {
    if hs == [] then [] else HookKeys(hs[0]) + HooksKeys(hs[1..])
  }

  datatype HookMethods = HookMethods(members: seq<ClassMember>, draws: nat)

  function HookMethodsOf(hs: seq<Hook>, cls: string, env: Env, k: nat): Option<HookMethods> {
    if hs == [] then Some(HookMethods([], 0))
    else match HookMethodOf(hs[0], cls, env, k)
      case None => None
      case Some(m) => Followed([m.member], m.draws, HookMethodsOf(hs[1..], cls, env, k + m.draws))
  }

  /** The methods already built, followed by what the remaining hooks give. */
  function Followed(members: seq<ClassMember>, draws: nat, rest: Option<HookMethods>): Option<HookMethods> {
    match rest
    case None => None
    case Some(r) => Some(HookMethods(members + r.members, draws + r.draws))
  }

  lemma FollowedNothing(x: Option<HookMethods>)
    ensures Followed([], 0, x) == x
  {
    if x.Some? {
      assert [] + x.value.members == x.value.members;
    }
  }

  lemma FollowedAssoc(a: seq<ClassMember>, d: nat, b: seq<ClassMember>, e: nat, x: Option<HookMethods>)
    ensures Followed(a, d, Followed(b, e, x)) == Followed(a + b, d + e, x)
  {
    if x.Some? {
      assert a + (b + x.value.members) == (a + b) + x.value.members;
    }
  }

  /** The source's `hooks.forEach`: the methods in order, the random draws counted. */
  method BuildHooks(hs: seq<Hook>, cls: string, env: Env, k: nat) returns (r: Option<HookMethods>)
    ensures r == HookMethodsOf(hs, cls, env, k)
  {
    var members: seq<ClassMember> := [];
    var draws: nat := 0;
    var i := 0;
    assert hs[0..] == hs;
    FollowedNothing(HookMethodsOf(hs, cls, env, k));
    while i < |hs|
      invariant 0 <= i <= |hs|
      invariant HookMethodsOf(hs, cls, env, k) == Followed(members, draws, HookMethodsOf(hs[i..], cls, env, k + draws))
    {
      var m := HookMethodOf(hs[i], cls, env, k + draws);
      HooksStep(hs, cls, env, k, i, members, draws);
      if m.None? {
        return None;
      }
      ghost var rest := HookMethodsOf(hs[i + 1..], cls, env, k + (draws + m.value.draws));
      FollowedAssoc(members, draws, [m.value.member], m.value.draws, rest);
      assert HookMethodsOf(hs, cls, env, k) == Followed(members + [m.value.member], draws + m.value.draws, rest);
      members := members + [m.value.member];
      draws := draws + m.value.draws;
      i := i + 1;
    }
    assert hs[i..] == [];
    assert members + [] == members;
    r := Some(HookMethods(members, draws));
  }

  /** One turn of the `forEach`: the next hook either fails the whole list or adds its method. */
  lemma HooksStep(hs: seq<Hook>, cls: string, env: Env, k: nat, i: nat, members: seq<ClassMember>, draws: nat)
    requires i < |hs|
    ensures var m := HookMethodOf(hs[i], cls, env, k + draws);
      HookMethodsOf(hs[i..], cls, env, k + draws) ==
        if m.None? then None
        else Followed([m.value.member], m.value.draws, HookMethodsOf(hs[i + 1..], cls, env, k + (draws + m.value.draws)))
  {
    assert hs[i..][0] == hs[i] && hs[i..][1..] == hs[i + 1..];
  }

  /** Every hook method is static and decorated with its hook's name. */
  lemma {:induction false} HookMethodsDecorated(hs: seq<Hook>, cls: string, env: Env, k: nat)
    ensures var r := HookMethodsOf(hs, cls, env, k);
      r.Some? ==> (|r.value.members| == |hs| &&
        forall i :: 0 <= i < |hs| ==> Decorated(r.value.members[i], hs[i], cls))
  {
    if hs != [] {
      var m := HookMethodOf(hs[0], cls, env, k);
      if m.Some? {
        HookMethodsDecorated(hs[1..], cls, env, k + m.value.draws);
        var rest := HookMethodsOf(hs[1..], cls, env, k + m.value.draws);
        if rest.Some? {
          var ms := [m.value.member] + rest.value.members;
          forall i | 0 <= i < |hs|
            ensures Decorated(ms[i], hs[i], cls)
          {
            if i > 0 {
              assert ms[i] == rest.value.members[i - 1] && hs[i] == hs[1..][i - 1];
            }
          }
        }
      }
    }
  }

  /** A static method with the one typed parameter, decorated with the hook's name. */
  predicate Decorated(m: ClassMember, h: Hook, cls: string) {
    m.MethodDef? && m.isStatic && m.decorators == [Call(Ident(h.name), [])] &&
    |m.params| == 1 && m.params[0].ParamProp? && m.params[0].typeName == HookParamType(h.name, cls)
  }

  /** The draws count the function handles: each takes one random name, a binding takes none. */
  lemma {:induction false} HookDraws(hs: seq<Hook>, cls: string, env: Env, k: nat)
    ensures var r := HookMethodsOf(hs, cls, env, k);
      r.Some? ==> r.value.draws == CountFuncs(hs)
  {
    if hs != [] {
      var m := HookMethodOf(hs[0], cls, env, k);
      if m.Some? {
        HookDraws(hs[1..], cls, env, k + m.value.draws);
      }
    }
  }

  function CountFuncs(hs: seq<Hook>): nat {
    if hs == [] then 0 else (if hs[0].handle.Func? then 1 else 0) + CountFuncs(hs[1..])
  }

  /** A string handle `'<ns>@provider:<binding>.<method>'` becomes `<method>`, calling the binding through the resolver. */
  lemma BindingHook(name: string, v: string, cls: string, env: Env, k: nat)
    ensures var r := HookMethodOf(Hook(name, Str(v)), cls, env, k);
      r.Some? && r.value.draws == 0 && r.value.member.key == AfterLast(v, ".") &&
      r.value.member.body == [ResolverCall(AfterLast(v, "@provider:"))] &&
      r.value.member.params == [ParamProp("", "model", HookParamType(name, cls))]
  {
  }

  /** A handle that is neither a string nor a function makes the pass fail. */
  lemma OtherHandleThrows(name: string, h: Expr, cls: string, env: Env, k: nat)
    requires !h.Str? && !h.Func?
    ensures HookMethodOf(Hook(name, h), cls, env, k).None?
  {
  }

  /** `const resolver = Application.container.getResolver()` */
  function ResolverDecl(): Stmt {
    VarDecl(Const, [Declarator(Ident("resolver"),
      Some(Call(Member(Member(Ident("Application"), Ident("container"), false), Ident("getResolver"), false), [])), [])], [])
  }

  // ================================================================ traits

  datatype Trait = Trait(name: string, namespace: string)

  function TraitsOf(calls: seq<seq<Expr>>): Option<seq<Trait>> {
    if calls == [] then Some([])
    else if |calls[0]| < 1 then None
    else
      var ns := GetStringValue(calls[0][0]);
      match TraitsOf(calls[1..])
      case None => None
      case Some(rest) => Some([Trait(WithoutSlashes(AfterLast(ns, "@provider:")), ns)] + rest)
  }

  /** `import { compose } from '@ioc:Adonis/Core/Helpers'` */
  function ComposeImport(): Stmt {
    Import([ImportSpec(NamedSpec, "compose", "compose")], "@ioc:Adonis/Core/Helpers", [])
  }

  function DefaultImport(name: string, source: string): Stmt {
    Import([ImportSpec(DefaultSpec, "", name)], source, [])
  }

  function TraitImports(ts: seq<Trait>): (r: seq<Stmt>)
    ensures |r| == |ts| && forall i :: 0 <= i < |ts| ==> r[i] == DefaultImport(ts[i].name, ts[i].namespace)
  {
    seq(|ts|, i requires 0 <= i < |ts| => DefaultImport(ts[i].name, ts[i].namespace))
  }

  function TraitIdents(ts: seq<Trait>): (r: seq<Expr>)
    ensures |r| == |ts| && forall i :: 0 <= i < |ts| ==> r[i] == Ident(ts[i].name)
  {
    seq(|ts|, i requires 0 <= i < |ts| => Ident(ts[i].name))
  }

  /** `compose(BaseModel, ...traits)` with traits, `BaseModel` without. */
  function SuperClass(ts: seq<Trait>): Expr {
    if ts == [] then Ident("BaseModel") else Call(Ident("compose"), [Ident("BaseModel")] + TraitIdents(ts))
  }

  /**
   * A trait registered by a namespace without `@provider:` is named by the
   * namespace with its slashes dropped, and imported from that namespace.
   */
  lemma TraitName(ns: string, rest: seq<seq<Expr>>)
    requires IndexOf(ns, "@provider:") == -1
    requires TraitsOf(rest).Some?
    ensures var r := TraitsOf([[Str(ns)]] + rest);
      r.Some? && r.value == [Trait(WithoutSlashes(ns), ns)] + TraitsOf(rest).value
  {
    assert ([[Str(ns)]] + rest)[1..] == rest;
    AfterLastSpec(ns, "@provider:");
  }

  // ================================================================ relationship calls in context

  const Relationships: seq<string> := ["hasOne", "hasMany", "belongsTo", "belongsToMany", "manyThrough"]

  /** `this.<relationship>(...)` */
  predicate IsRelCall(e: Expr) {
    e.Call? && e.callee.Member? && e.callee.obj.This? && e.callee.prop.Ident? && e.callee.prop.name in Relationships
  }

  function PickRel(n: Node): seq<Expr> {
    if n.NE? && IsRelCall(n.e) then [n.e] else []
  }

  /**
   * A relationship call with what the source looks up above it: the key of the
   * nearest enclosing class method (None outside every method) and the enclosing
   * calls, nearest first.
   */
  datatype Site = Site(call: Expr, owner: Option<string>, above: seq<Expr>)

  function Here(e: Expr, owner: Option<string>, above: seq<Expr>): seq<Site> {
    if IsRelCall(e) then [Site(e, owner, above)] else []
  }

  /** The relationship calls at and under `e`, in document order. */
  function SitesE(e: Expr, owner: Option<string>, above: seq<Expr>): seq<Site>
    decreases e, 1
  {
    Here(e, owner, above) + SitesKidsE(e, owner, above)
  }

  function SitesKidsE(e: Expr, owner: Option<string>, above: seq<Expr>): seq<Site>
    decreases e, 0
  {
    match e
    case Template(_, es) => SitesEs(es, owner, above)
    case Call(c, a) => SitesE(c, owner, [e] + above) + SitesEs(a, owner, [e] + above)
    case Member(o, p, _) => SitesE(o, owner, above) + SitesE(p, owner, above)
    case Assign(_, lhs, rhs) => SitesE(lhs, owner, above) + SitesE(rhs, owner, above)
    case Object(ps) => SitesPs(ps, owner, above)
    case ObjPattern(ps) => SitesPs(ps, owner, above)
    case Array(es) => SitesEs(es, owner, above)
    case Await(a) => SitesE(a, owner, above)
    case Func(ps, b, _, _) => SitesEs(ps, owner, above) + SitesSs(b, owner, above)
    case OtherExpr(_, cs) => SitesEs(cs, owner, above)
    case _ => []
  }

  function SitesEs(es: seq<Expr>, owner: Option<string>, above: seq<Expr>): seq<Site>
    decreases es
  {
    if es == [] then [] else SitesE(es[0], owner, above) + SitesEs(es[1..], owner, above)
  }

  function SitesOpt(o: Option<Expr>, owner: Option<string>, above: seq<Expr>): seq<Site>
    decreases o
  {
    match o
    case None => []
    case Some(e) => SitesE(e, owner, above)
  }

  function SitesPs(ps: seq<Prop>, owner: Option<string>, above: seq<Expr>): seq<Site>
    decreases ps
  {
    if ps == [] then []
    else SitesE(ps[0].key, owner, above) + SitesE(ps[0].value, owner, above) + SitesPs(ps[1..], owner, above)
  }

  function SitesDs(ds: seq<Declarator>, owner: Option<string>, above: seq<Expr>): seq<Site>
    decreases ds
  {
    if ds == [] then []
    else SitesE(ds[0].id, owner, above) + SitesOpt(ds[0].init, owner, above) + SitesDs(ds[1..], owner, above)
  }

  /** A method is the nearest enclosing method of everything in it; a field passes the owner on. */
  function SitesM(m: ClassMember, owner: Option<string>, above: seq<Expr>): seq<Site>
    decreases m
  {
    match m
    case MethodDef(_, _, key, ps, b, decs) =>
      SitesEs(decs, Some(key), above) + SitesEs(ps, Some(key), above) + SitesSs(b, Some(key), above)
    case FieldDef(_, v, _, decs, _) => SitesEs(decs, owner, above) + SitesOpt(v, owner, above)
  }

  function SitesMs(ms: seq<ClassMember>, owner: Option<string>, above: seq<Expr>): seq<Site>
    decreases ms
  {
    if ms == [] then [] else SitesM(ms[0], owner, above) + SitesMs(ms[1..], owner, above)
  }

  function SitesS(s: Stmt, owner: Option<string>, above: seq<Expr>): seq<Site>
    decreases s
  {
    match s
    case Import(_, _, _) => []
    case VarDecl(_, ds, _) => SitesDs(ds, owner, above)
    case ExprStmt(e, _) => SitesE(e, owner, above)
    case ExportDecl(d, _) => SitesS(d, owner, above)
    case ExportList(_, _) => []
    case ExportDefault(e, _) => SitesE(e, owner, above)
    case ClassStmt(_, sc, ms, decs, _) => SitesEs(decs, owner, above) + SitesOpt(sc, owner, above) + SitesMs(ms, owner, above)
    case Block(b) => SitesSs(b, owner, above)
    case FuncDecl(_, ps, b, _) => SitesEs(ps, owner, above) + SitesSs(b, owner, above)
    case Return(a) => SitesE(a, owner, above)
    case OtherStmt(_, es, b) => SitesEs(es, owner, above) + SitesSs(b, owner, above)
  }

  function SitesSs(ss: seq<Stmt>, owner: Option<string>, above: seq<Expr>): seq<Site>
    decreases ss
  {
    if ss == [] then [] else SitesS(ss[0], owner, above) + SitesSs(ss[1..], owner, above)
  }

  /** The relationship calls of a model class, in the order `find` reports them. */
  function ClassSites(decs: seq<Expr>, sc: Option<Expr>, ms: seq<ClassMember>): seq<Site> {
    SitesEs(decs, None, []) + SitesOpt(sc, None, []) + SitesMs(ms, None, [])
  }

  function CallsOf(ss: seq<Site>): (r: seq<Expr>)
    ensures |r| == |ss| && forall i :: 0 <= i < |ss| ==> r[i] == ss[i].call
  {
    seq(|ss|, i requires 0 <= i < |ss| => ss[i].call)
  }

  lemma CallsOfAppend(a: seq<Site>, b: seq<Site>)
    ensures CallsOf(a + b) == CallsOf(a) + CallsOf(b)
  {
  }

  lemma CallsOf3(a: seq<Site>, b: seq<Site>, c: seq<Site>)
    ensures CallsOf(a + b + c) == CallsOf(a) + CallsOf(b) + CallsOf(c)
  {
    CallsOfAppend(a + b, c);
    CallsOfAppend(a, b);
  }

  /*
   * The contexts are bookkeeping only: with them dropped, the sites are exactly
   * the relationship calls a plain `find` reports, in the same order.
   */

  lemma {:induction false} SitesCallsE(e: Expr, owner: Option<string>, above: seq<Expr>)
    ensures CallsOf(SitesE(e, owner, above)) == CollE(e, PickRel)
    decreases e, 1
  {
    CallsOfAppend(Here(e, owner, above), SitesKidsE(e, owner, above));
    SitesCallsKidsE(e, owner, above);
  }

  lemma {:induction false} SitesCallsKidsE(e: Expr, owner: Option<string>, above: seq<Expr>)
    ensures CallsOf(SitesKidsE(e, owner, above)) == KidsCollE(e, PickRel)
    decreases e, 0
  {
    match e
    case Template(_, es) => SitesCallsEs(es, owner, above);
    case Call(c, a) =>
      CallsOfAppend(SitesE(c, owner, [e] + above), SitesEs(a, owner, [e] + above));
      SitesCallsE(c, owner, [e] + above); SitesCallsEs(a, owner, [e] + above);
    case Member(o, p, _) =>
      CallsOfAppend(SitesE(o, owner, above), SitesE(p, owner, above));
      SitesCallsE(o, owner, above); SitesCallsE(p, owner, above);
    case Assign(_, lhs, rhs) =>
      CallsOfAppend(SitesE(lhs, owner, above), SitesE(rhs, owner, above));
      SitesCallsE(lhs, owner, above); SitesCallsE(rhs, owner, above);
    case Object(ps) => SitesCallsPs(ps, owner, above);
    case ObjPattern(ps) => SitesCallsPs(ps, owner, above);
    case Array(es) => SitesCallsEs(es, owner, above);
    case Await(a) => SitesCallsE(a, owner, above);
    case Func(ps, b, _, _) =>
      CallsOfAppend(SitesEs(ps, owner, above), SitesSs(b, owner, above));
      SitesCallsEs(ps, owner, above); SitesCallsSs(b, owner, above);
    case OtherExpr(_, cs) => SitesCallsEs(cs, owner, above);
    case _ =>
  }

  lemma {:induction false} SitesCallsEs(es: seq<Expr>, owner: Option<string>, above: seq<Expr>)
    ensures CallsOf(SitesEs(es, owner, above)) == CollEs(es, PickRel)
    decreases es
  {
    if es != [] {
      CallsOfAppend(SitesE(es[0], owner, above), SitesEs(es[1..], owner, above));
      SitesCallsE(es[0], owner, above);
      SitesCallsEs(es[1..], owner, above);
    }
  }

  lemma {:induction false} SitesCallsOpt(o: Option<Expr>, owner: Option<string>, above: seq<Expr>)
    ensures CallsOf(SitesOpt(o, owner, above)) == CollOpt(o, PickRel)
    decreases o
  {
    if o.Some? {
      SitesCallsE(o.value, owner, above);
    }
  }

  lemma {:induction false} SitesCallsPs(ps: seq<Prop>, owner: Option<string>, above: seq<Expr>)
    ensures CallsOf(SitesPs(ps, owner, above)) == CollPs(ps, PickRel)
    decreases ps
  {
    if ps != [] {
      CallsOf3(SitesE(ps[0].key, owner, above), SitesE(ps[0].value, owner, above), SitesPs(ps[1..], owner, above));
      SitesCallsE(ps[0].key, owner, above);
      SitesCallsE(ps[0].value, owner, above);
      SitesCallsPs(ps[1..], owner, above);
      assert CollP(ps[0], PickRel) == CollE(ps[0].key, PickRel) + CollE(ps[0].value, PickRel);
    }
  }

  lemma {:induction false} SitesCallsDs(ds: seq<Declarator>, owner: Option<string>, above: seq<Expr>)
    ensures CallsOf(SitesDs(ds, owner, above)) == CollDs(ds, PickRel)
    decreases ds
  {
    if ds != [] {
      CallsOf3(SitesE(ds[0].id, owner, above), SitesOpt(ds[0].init, owner, above), SitesDs(ds[1..], owner, above));
      SitesCallsE(ds[0].id, owner, above);
      SitesCallsOpt(ds[0].init, owner, above);
      SitesCallsDs(ds[1..], owner, above);
      assert CollD(ds[0], PickRel) == CollE(ds[0].id, PickRel) + CollOpt(ds[0].init, PickRel);
    }
  }

  lemma {:induction false} SitesCallsM(m: ClassMember, owner: Option<string>, above: seq<Expr>)
    ensures CallsOf(SitesM(m, owner, above)) == CollM(m, PickRel)
    decreases m
  {
    match m
    case MethodDef(_, _, key, ps, b, decs) =>
      CallsOf3(SitesEs(decs, Some(key), above), SitesEs(ps, Some(key), above), SitesSs(b, Some(key), above));
      SitesCallsEs(decs, Some(key), above); SitesCallsEs(ps, Some(key), above); SitesCallsSs(b, Some(key), above);
    case FieldDef(_, v, _, decs, _) =>
      CallsOfAppend(SitesEs(decs, owner, above), SitesOpt(v, owner, above));
      SitesCallsEs(decs, owner, above); SitesCallsOpt(v, owner, above);
  }

  lemma {:induction false} SitesCallsMs(ms: seq<ClassMember>, owner: Option<string>, above: seq<Expr>)
    ensures CallsOf(SitesMs(ms, owner, above)) == CollMs(ms, PickRel)
    decreases ms
  {
    if ms != [] {
      CallsOfAppend(SitesM(ms[0], owner, above), SitesMs(ms[1..], owner, above));
      SitesCallsM(ms[0], owner, above);
      SitesCallsMs(ms[1..], owner, above);
    }
  }

  lemma {:induction false} SitesCallsS(s: Stmt, owner: Option<string>, above: seq<Expr>)
    ensures CallsOf(SitesS(s, owner, above)) == KidsCollS(s, PickRel)
    decreases s
  {
    match s
    case Import(_, _, _) =>
    case VarDecl(_, ds, _) => SitesCallsDs(ds, owner, above);
    case ExprStmt(e, _) => SitesCallsE(e, owner, above);
    case ExportDecl(d, _) => SitesCallsS(d, owner, above);
    case ExportList(_, _) =>
    case ExportDefault(e, _) => SitesCallsE(e, owner, above);
    case ClassStmt(_, sc, ms, decs, _) =>
      CallsOf3(SitesEs(decs, owner, above), SitesOpt(sc, owner, above), SitesMs(ms, owner, above));
      SitesCallsEs(decs, owner, above); SitesCallsOpt(sc, owner, above); SitesCallsMs(ms, owner, above);
    case Block(b) => SitesCallsSs(b, owner, above);
    case FuncDecl(_, ps, b, _) =>
      CallsOfAppend(SitesEs(ps, owner, above), SitesSs(b, owner, above));
      SitesCallsEs(ps, owner, above); SitesCallsSs(b, owner, above);
    case Return(a) => SitesCallsE(a, owner, above);
    case OtherStmt(_, es, b) =>
      CallsOfAppend(SitesEs(es, owner, above), SitesSs(b, owner, above));
      SitesCallsEs(es, owner, above); SitesCallsSs(b, owner, above);
  }

  lemma {:induction false} SitesCallsSs(ss: seq<Stmt>, owner: Option<string>, above: seq<Expr>)
    ensures CallsOf(SitesSs(ss, owner, above)) == CollSs(ss, PickRel)
    decreases ss
  {
    if ss != [] {
      CallsOfAppend(SitesS(ss[0], owner, above), SitesSs(ss[1..], owner, above));
      SitesCallsS(ss[0], owner, above);
      SitesCallsSs(ss[1..], owner, above);
      assert CollS(ss[0], PickRel) == KidsCollS(ss[0], PickRel);
    }
  }

  /** A class's sites are the relationship calls `find` reports under it. */
  lemma ClassSitesAreRelCalls(decs: seq<Expr>, sc: Option<Expr>, ms: seq<ClassMember>)
    ensures CallsOf(ClassSites(decs, sc, ms)) == CollEs(decs, PickRel) + CollOpt(sc, PickRel) + CollMs(ms, PickRel)
  {
    CallsOf3(SitesEs(decs, None, []), SitesOpt(sc, None, []), SitesMs(ms, None, []));
    SitesCallsEs(decs, None, []);
    SitesCallsOpt(sc, None, []);
    SitesCallsMs(ms, None, []);
  }

  // ================================================================ relationships

  /** The decorator options, in the order the source first assigns them; an absent argument reads undefined. */
  type Opts = seq<Pair<Option<Expr>>>

  function Arg(args: seq<Expr>, i: nat): Option<Expr> {
    if i < |args| then Some(args[i]) else None
  }

  /** `() => <body>` */
  function Thunk(body: Expr): Expr {
    Func([], [Return(body)], true, false)
  }

  /**
   * A relationship before its modifiers are read: the property it becomes, the
   * Lucid decorator, the model its type refers to, the callback, the keys taken
   * from the arguments, and the models to import (`name`, `namespace`) in order.
   */
  datatype Rel = Rel(prop: string, name: string, typeModel: string, callback: Expr, opts: Opts, models: seq<Pair<string>>)

  function RelStart(site: Site): Option<Rel> {
    var call := site.call;
    if site.owner.None? || site.owner.value == "" || !IsRelCall(call) then None
    else if |call.args| < 1 || !call.args[0].Str? then None
    else
      var a := call.args;
      var ns := a[0].value;
      var model := WithoutSlashes(ns);
      var cb := Thunk(Ident(model));
      var prop := site.owner.value;
      match call.callee.prop.name
      case "belongsToMany" =>
        Some(Rel(prop, "manyToMany", model, cb,
          [Pair("localKey", Arg(a, 3)), Pair("relatedKey", Arg(a, 4)),
           Pair("pivotForeignKey", Arg(a, 1)), Pair("pivotRelatedForeignKey", Arg(a, 2))], [Pair(model, ns)]))
      case "manyThrough" =>
        if |a| < 2 || !a[1].Str? then None
        else
          var related := a[1].value;
          Some(Rel(prop, "hasManyThrough", related, Array([Thunk(Ident(related)), cb]),
            [Pair("localKey", Arg(a, 2)), Pair("foreignKey", Arg(a, 3))], [Pair(model, ns), Pair(related, related)]))
      case "belongsTo" =>
        Some(Rel(prop, "belongsTo", model, cb, [Pair("localKey", Arg(a, 2)), Pair("foreignKey", Arg(a, 1))], [Pair(model, ns)]))
      case other =>
        Some(Rel(prop, other, model, cb, [Pair("localKey", Arg(a, 1)), Pair("foreignKey", Arg(a, 2))], [Pair(model, ns)]))
  }

  const PivotModifiers: seq<string> := ["withPivot", "pivotTable", "pivotModel", "withTimestamps"]

  /** The method an enclosing call calls (`undefined`, read as empty, unless the property is an identifier). */
  function ModifierName(p: Expr): string
    requires p.Call? && p.callee.Member?
  {
    NameOf(p.callee.prop)
  }

  /** The `onQuery` chain so far, or `query` when there is none yet. */
  function OnQuery(o: Opts): Expr {
    var v := Lookup(o, "onQuery");
    if v.Some? && v.value.Some? then v.value.value else Ident("query")
  }

  /** The option an enclosing call assigns: its pivot option, or `onQuery` for any other method. */
  function StepKey(n: string): string {
    if n == "withPivot" then "pivotColumns"
    else if n == "pivotTable" then "pivotTable"
    else if n == "pivotModel" then "pivotModel"
    else if n == "withTimestamps" then "pivotTimestamps"
    else "onQuery"
  }

  /**
   * What one enclosing call adds: the pivot modifiers set their option (from
   * the first argument, `true` for `withTimestamps`), any other method extends
   * the `onQuery` chain, `with` read as `preload`.  A call whose callee is not a
   * member makes the source throw.
   */
  function Step(p: Expr, o: Opts): Option<Opts> {
    if !(p.Call? && p.callee.Member?) then None
    else
      var n := ModifierName(p);
      var prop := if n == "with" then Ident("preload") else p.callee.prop;
      var v := if n == "withTimestamps" then Some(Lit("true"))
        else if n in PivotModifiers then Arg(p.args, 0)
        else Some(Call(Member(OnQuery(o), prop, false), p.args));
      Some(Put(o, StepKey(n), v))
  }

  /** The modifiers, nearest first. */
  function Walk(above: seq<Expr>, o: Opts): Option<Opts>
    decreases |above|
  {
    if above == [] then Some(o)
    else match Step(above[0], o)
      case None => None
      case Some(o') => Walk(above[1..], o')
  }

  /** The loop over `findParentOfType(…, 'CallExpression')`. */
  method WalkModifiers(above: seq<Expr>, o: Opts) returns (r: Option<Opts>)
    ensures r == Walk(above, o)
  {
    var opts := o;
    var i := 0;
    while i < |above|
      invariant 0 <= i <= |above|
      invariant Walk(above[i..], opts) == Walk(above, o)
    {
      assert above[i..][0] == above[i] && above[i..][1..] == above[i + 1..];
      var next := Step(above[i], opts);
      if next.None? {
        return None;
      }
      opts := next.value;
      i := i + 1;
    }
    assert above[i..] == [];
    return Some(opts);
  }

  predicate IsPivotModifier(p: Expr) {
    p.Call? && p.callee.Member? && ModifierName(p) in PivotModifiers
  }

  /**
   * The walk keeps the keys already there, in place, and adds only pivot keys
   * and `onQuery`; `onQuery` is there exactly when it was before or some
   * modifier is not a pivot modifier.
   */
  lemma {:induction false} WalkKeys(above: seq<Expr>, o: Opts)
    requires Walk(above, o).Some?
    ensures var keys := KeysOf(Walk(above, o).value);
      |KeysOf(o)| <= |keys| && keys[..|KeysOf(o)|] == KeysOf(o) &&
      (forall k :: k in keys && k !in KeysOf(o) ==> k in WalkKeyNames) &&
      ("onQuery" in keys <==> "onQuery" in KeysOf(o) || exists i :: 0 <= i < |above| && !IsPivotModifier(above[i]))
    decreases |above|
  {
    if above != [] {
      var p := above[0];
      var o' := Step(p, o).value;
      StepKeys(p, o);
      WalkKeys(above[1..], o');
      var keys := KeysOf(Walk(above, o).value);
      assert keys == KeysOf(Walk(above[1..], o').value);
      assert forall i :: 1 <= i < |above| ==> above[i] == above[1..][i - 1];
      if "onQuery" in keys && "onQuery" !in KeysOf(o) && "onQuery" in KeysOf(o') {
        assert !IsPivotModifier(above[0]);
      }
      if exists i :: 0 <= i < |above| && !IsPivotModifier(above[i]) {
        var i :| 0 <= i < |above| && !IsPivotModifier(above[i]);
        if i > 0 {
          assert !IsPivotModifier(above[1..][i - 1]);
        }
      }
      assert KeysOf(o') [..|KeysOf(o)|] == KeysOf(o);
      assert keys[..|KeysOf(o')|][..|KeysOf(o)|] == keys[..|KeysOf(o)|];
    }
  }

  const WalkKeyNames: seq<string> := ["pivotColumns", "pivotTable", "pivotModel", "pivotTimestamps", "onQuery"]

  lemma StepKeys(p: Expr, o: Opts)
    requires Step(p, o).Some?
    ensures var keys := KeysOf(Step(p, o).value);
      |KeysOf(o)| <= |keys| && keys[..|KeysOf(o)|] == KeysOf(o) &&
      (forall k :: k in keys && k !in KeysOf(o) ==> k in WalkKeyNames) &&
      ("onQuery" in keys <==> "onQuery" in KeysOf(o) || !IsPivotModifier(p))
  {
    var n := ModifierName(p);
    var prop := if n == "with" then Ident("preload") else p.callee.prop;
    var v := if n == "withTimestamps" then Some(Lit("true"))
      else if n in PivotModifiers then Arg(p.args, 0)
      else Some(Call(Member(OnQuery(o), prop, false), p.args));
    assert Step(p, o).value == Put(o, StepKey(n), v);
    PutKeys(o, StepKey(n), v);
    StepKeyNames(n);
  }

  lemma StepKeyNames(n: string)
    ensures StepKey(n) in WalkKeyNames
    ensures StepKey(n) == "onQuery" <==> n !in PivotModifiers
  {
  }

  /** A chain in `onQuery` becomes `(query) => { <chain> }`. */
  function Finish(o: Opts): Opts {
    var v := Lookup(o, "onQuery");
    if v.Some? && v.value.Some? then Put(o, "onQuery", Some(Func([Ident("query")], [ExprStmt(v.value.value, [])], true, false)))
    else o
  }

  /** The options that are defined, as decorator properties in option order. */
  function DecoratorProps(o: Opts): (r: seq<Prop>)
    ensures |r| <= |o|
  {
    if o == [] then [] else (if o[0].val.Some? then [P(o[0].key, o[0].val.value)] else []) + DecoratorProps(o[1..])
  }

  /** A defined option is a decorator property with its value; an undefined one is left out. */
  lemma {:induction false} DecoratorPropsSpec(o: Opts, k: string, v: Expr)
    requires Distinct(KeysOf(o))
    ensures P(k, v) in DecoratorProps(o) <==> Lookup(o, k) == Some(Some(v))
  {
    if o != [] {
      assert KeysOf(o) == [o[0].key] + KeysOf(o[1..]);
      assert Distinct(KeysOf(o[1..])) by {
        forall i, j | 0 <= i < j < |KeysOf(o[1..])|
          ensures KeysOf(o[1..])[i] != KeysOf(o[1..])[j]
        {
          assert KeysOf(o[1..])[i] == KeysOf(o)[i + 1] && KeysOf(o[1..])[j] == KeysOf(o)[j + 1];
        }
      }
      DecoratorPropsSpec(o[1..], k, v);
      if o[0].key == k {
        assert k !in KeysOf(o[1..]) by {
          forall j | 0 <= j < |KeysOf(o[1..])|
            ensures KeysOf(o[1..])[j] != k
          {
            assert KeysOf(o[1..])[j] == KeysOf(o)[j + 1];
            assert KeysOf(o)[0] == k;
            assert 0 < j + 1 < |KeysOf(o)|;
          }
        }
        LookupKeys(o[1..], k);
      }
    }
  }

  /** What one relationship call gives: the property, its models to import, its ORM names. */
  datatype RelOut = RelOut(field: ClassMember, typeModel: string, models: seq<Pair<string>>, keys: seq<string>)

  function RelOf(site: Site): (r: Option<RelOut>)
    ensures r.Some? ==> r.value.typeModel in KeysOf(r.value.models)
  {
    match RelStart(site)
    case None => None
    case Some(rel) =>
      match Walk(site.above, rel.opts)
      case None => None
      case Some(o) =>
        var ty := Utils.CapitalizeFirstLetter(rel.name);
        var dec := Call(Ident(rel.name), [rel.callback, Object(DecoratorProps(Finish(o)))]);
        Some(RelOut(FieldDef(rel.prop, None, false, [dec], ty + "<typeof " + rel.typeModel + ">"), rel.typeModel, rel.models, [rel.name, ty]))
  }

  datatype Rels = Rels(fields: seq<ClassMember>, typeModels: seq<string>, models: seq<Pair<string>>, keys: seq<string>)

  function RelsOf(sites: seq<Site>): (r: Option<Rels>)
    ensures r.Some? ==> |r.value.fields| == |sites| && |r.value.typeModels| == |sites|
  {
    if sites == [] then Some(Rels([], [], [], []))
    else match (RelOf(sites[0]), RelsOf(sites[1..]))
      case (Some(a), Some(b)) => Some(Rels([a.field] + b.fields, [a.typeModel] + b.typeModels, a.models + b.models, a.keys + b.keys))
      case _ => None
  }

  lemma {:induction false} RelsTypeModelsImported(sites: seq<Site>)
    requires RelsOf(sites).Some?
    ensures var r := RelsOf(sites).value;
      forall i :: 0 <= i < |sites| ==> r.typeModels[i] in KeysOf(r.models)
  {
    if sites != [] {
      var a := RelOf(sites[0]).value;
      RelsTypeModelsImported(sites[1..]);
      var b := RelsOf(sites[1..]).value;
      KeysOfAppend(a.models, b.models);
      var r := RelsOf(sites).value;
      assert r.typeModels == [a.typeModel] + b.typeModels && r.models == a.models + b.models;
      forall i | 0 <= i < |sites|
        ensures r.typeModels[i] in KeysOf(r.models)
      {
        if i > 0 {
          assert r.typeModels[i] == b.typeModels[i - 1];
        }
      }
    }
  }

  lemma {:induction false} KeysOfAppend<V>(a: seq<Pair<V>>, b: seq<Pair<V>>)
    ensures KeysOf(a + b) == KeysOf(a) + KeysOf(b)
  {
    if a == [] {
      assert a + b == b;
    } else {
      assert (a + b)[1..] == a[1..] + b;
      KeysOfAppend(a[1..], b);
    }
  }

  /** `if (!relModels[name]) relModels[name] = namespace` */
  function AddModel(d: seq<Pair<string>>, m: Pair<string>): seq<Pair<string>> {
    var v := Lookup(d, m.key);
    if v.None? || v.value == "" then Put(d, m.key, m.val) else d
  }

  function AddModels(d: seq<Pair<string>>, ms: seq<Pair<string>>): seq<Pair<string>>
    decreases |ms|
  {
    if ms == [] then d else AddModels(AddModel(d, ms[0]), ms[1..])
  }

  /** Every model named is a key afterwards, each key once, the earlier keys first. */
  lemma {:induction false} AddModelsKeys(d: seq<Pair<string>>, ms: seq<Pair<string>>)
    requires Distinct(KeysOf(d))
    ensures var keys := KeysOf(AddModels(d, ms));
      Distinct(keys) && |KeysOf(d)| <= |keys| && keys[..|KeysOf(d)|] == KeysOf(d) &&
      forall k :: k in keys <==> k in KeysOf(d) || k in KeysOf(ms)
    decreases |ms|
  {
    if ms != [] {
      var d1 := AddModel(d, ms[0]);
      LookupKeys(d, ms[0].key);
      PutKeys(d, ms[0].key, ms[0].val);
      PutDistinct(d, ms[0].key, ms[0].val);
      AddModelsKeys(d1, ms[1..]);
      assert KeysOf(ms) == [ms[0].key] + KeysOf(ms[1..]);
      var keys := KeysOf(AddModels(d, ms));
      assert keys[..|KeysOf(d1)|][..|KeysOf(d)|] == keys[..|KeysOf(d)|];
      assert KeysOf(d1)[..|KeysOf(d)|] == KeysOf(d);
    }
  }

  // ================================================================ scopes

  predicate IsScope(m: ClassMember) {
    m.MethodDef? && m.isStatic && StartsWith(m.key, "scope")
  }

  /** `key.slice(5).charAt(0).toLowerCase() + key.slice(6)` */
  function ScopeName(key: string): string {
    if |key| <= 5 then "" else [ToLowerChar(key[5])] + key[6..]
  }

  /** `scopeActive` gives `active`; the bare `scope` gives the empty name. */
  lemma ScopeNameSpec(c: char, rest: string)
    ensures ScopeName("scope" + [c] + rest) == [ToLowerChar(c)] + rest
    ensures ScopeName("scope") == ""
  {
    var key := "scope" + [c] + rest;
    assert key[5] == c && key[6..] == rest;
  }

  /** `static <name> = scope((<params>) => { <body> })` */
  function ScopeField(m: ClassMember): ClassMember
    requires m.MethodDef?
  {
    StaticField(ScopeName(m.key), Call(Ident("scope"), [Func(m.params, m.body, true, false)]))
  }

  /** The scope fields of the class's own static `scope*` methods, in order. */
  function Scopes(ms: seq<ClassMember>): (r: seq<ClassMember>)
    ensures |r| <= |ms|
    ensures forall m :: m in r ==> m.decorators == []
    ensures r == [] <==> forall m :: m in ms ==> !IsScope(m)
  {
    if ms == [] then []
    else (if IsScope(ms[0]) then [ScopeField(ms[0])] else []) + Scopes(ms[1..])
  }

  // ================================================================ the new class

  /** What `boot` gives: the hooks, the methods they become, the traits, the random draws taken. */
  datatype BootOut = BootOut(hooks: seq<Hook>, methods: seq<ClassMember>, traits: seq<Trait>, draws: nat)

  /** The first static `boot` method's hooks and traits (none without one); None where the source throws. */
  function BootOf(ms: seq<ClassMember>, cls: string, env: Env, k: nat): Option<BootOut> {
    match Boot(ms)
    case None => Some(BootOut([], [], [], 0))
    case Some(b) =>
      match HooksOf(CollM(b, PickThisCall("addHook")))
      case None => None
      case Some(hs) =>
        match HookMethodsOf(hs, cls, env, k)
        case None => None
        case Some(hm) =>
          match TraitsOf(CollM(b, PickThisCall("addTrait")))
          case None => None
          case Some(ts) => Some(BootOut(hs, hm.members, ts, hm.draws))
  }

  /** The ORM names in the order the class asks for them, repeats included. */
  function OrmRequests(cs: Columns, hs: seq<Hook>, relKeys: seq<string>, scopes: seq<ClassMember>): seq<string> {
    ["BaseModel"] + (if cs != [] then ["column"] else []) + HooksKeys(hs) + relKeys + (if scopes != [] then ["scope"] else [])
  }

  /** The keys of `ormImportSpecifier`: each name once, where it was first asked for. */
  function OrmKeys(requests: seq<string>): seq<string> {
    KeysOf(PutAll([], requests, 1))
  }

  /** `import { <keys> } from '@ioc:Adonis/Lucid/Orm'` */
  function OrmImport(keys: seq<string>): Stmt {
    Import(seq(|keys|, i requires 0 <= i < |keys| => ImportSpec(NamedSpec, keys[i], keys[i])), "@ioc:Adonis/Lucid/Orm", [])
  }

  /** `import { DateTime } from 'luxon'` */
  function LuxonImport(): Stmt {
    Import([ImportSpec(NamedSpec, "DateTime", "DateTime")], "luxon", [])
  }

  /** One default import per related model, from the namespace first recorded for it. */
  function ModelImports(d: seq<Pair<string>>): (r: seq<Stmt>)
    ensures |r| == |d| && forall i :: 0 <= i < |d| ==> r[i] == DefaultImport(d[i].key, d[i].val)
  {
    seq(|d|, i requires 0 <= i < |d| => DefaultImport(d[i].key, d[i].val))
  }

  /** The declarations the class inserts, in `insertImport` call order. */
  function ClassImports(b: BootOut, models: seq<Pair<string>>, keys: seq<string>): seq<Stmt> {
    (if b.hooks != [] then [ResolverDecl()] else []) +
    (if b.traits != [] then [ComposeImport()] + TraitImports(b.traits) else []) +
    ModelImports(models) + [OrmImport(keys), LuxonImport()]
  }

  /** A converted class, with what it inserts and what it drew. */
  datatype Converted = Converted(cls: Stmt, imports: seq<Stmt>, ormKeys: seq<string>, scopes: seq<ClassMember>,
    relTypes: seq<string>, models: seq<Pair<string>>, draws: nat)

  /**
   * The body `replaceWith` gives a model class: the table, the primary key, the
   * columns, the hook methods, the relationships, the scopes; its super class is
   * `BaseModel` or the composition with the traits.  None where the source throws.
   */
  function ConvertClass(c: Stmt, env: Env, k: nat): Option<Converted>
    requires c.ClassStmt?
  {
    var ms := c.members;
    match PrimaryKeyField(ms)
    case None => None
    case Some(pk) =>
      match TableLiteral(c.id, ms, env)
      case None => None
      case Some(table) =>
        match ColumnsOf(env.ups, table)
        case None => None
        case Some(cs) =>
          match BootOf(ms, c.id, env, k)
          case None => None
          case Some(b) =>
            var sc := SuperClass(b.traits);
            match RelsOf(ClassSites(c.decorators, Some(sc), ms))
            case None => None
            case Some(rels) => Some(Assemble(c, table, pk, cs, b, rels))
  }

  function Assemble(c: Stmt, table: Expr, pk: seq<ClassMember>, cs: Columns, b: BootOut, rels: Rels): Converted
    requires c.ClassStmt?
  {
    var scopes := Scopes(c.members);
    var keys := OrmKeys(OrmRequests(cs, b.hooks, rels.keys, scopes));
    var models := AddModels([], rels.models);
    var members := [StaticField("table", table)] + pk + ColumnFields(cs) + b.methods + rels.fields + scopes;
    Converted(ClassStmt(c.id, Some(SuperClass(b.traits)), members, c.decorators, c.comments),
      ClassImports(b, models, keys), keys, scopes, rels.typeModels, models, b.draws)
  }

  // ================================================================ what the new class imports

  /** The name at the head of a decorator call: `column` for `@column.dateTime(...)`. */
  function DecoratorHead(d: Expr): string {
    if d.Call? then (if d.callee.Member? then NameOf(d.callee.obj) else NameOf(d.callee)) else ""
  }

  /** Every decorator on the members names something the class imports from the ORM. */
  predicate DecoratorsImported(ms: seq<ClassMember>, keys: seq<string>) {
    forall m, d :: m in ms && d in m.decorators ==> DecoratorHead(d) in keys
  }

  lemma ColumnFieldsDecorated(cs: Columns)
    ensures forall m, d :: m in ColumnFields(cs) && d in m.decorators ==> DecoratorHead(d) == "column"
  {
    forall m, d | m in ColumnFields(cs) && d in m.decorators
      ensures DecoratorHead(d) == "column"
    {
      var i :| 0 <= i < |cs| && ColumnFields(cs)[i] == m;
      assert d == ColumnDecorator(cs[i].key, cs[i].val);
    }
  }

  lemma {:induction false} HookNamesRequested(hs: seq<Hook>)
    ensures forall i :: 0 <= i < |hs| ==> hs[i].name in HooksKeys(hs)
    ensures forall i :: 0 <= i < |hs| && hs[i].name == "afterPaginate" ==> "ModelPaginatorContract" in HooksKeys(hs)
  {
    if hs != [] {
      HookNamesRequested(hs[1..]);
      assert forall i :: 0 < i < |hs| ==> hs[i] == hs[1..][i - 1];
    }
  }

  /** The hook methods of `boot`, one per hook, each decorated with its hook's name. */
  lemma BootDecorated(ms: seq<ClassMember>, cls: string, env: Env, k: nat)
    requires BootOf(ms, cls, env, k).Some?
    ensures var b := BootOf(ms, cls, env, k).value;
      |b.methods| == |b.hooks| && (forall i :: 0 <= i < |b.hooks| ==> Decorated(b.methods[i], b.hooks[i], cls)) &&
      forall m, d :: m in b.methods && d in m.decorators ==> DecoratorHead(d) in HooksKeys(b.hooks)
  {
    var b := BootOf(ms, cls, env, k).value;
    if Boot(ms).Some? {
      var bm := Boot(ms).value;
      HookMethodsDecorated(b.hooks, cls, env, k);
    }
    HookNamesRequested(b.hooks);
    forall m, d | m in b.methods && d in m.decorators
      ensures DecoratorHead(d) in HooksKeys(b.hooks)
    {
      var i :| 0 <= i < |b.methods| && b.methods[i] == m;
      assert Decorated(b.methods[i], b.hooks[i], cls);
    }
  }

  /** Every relationship property is decorated with its relationship, which the class asks for. */
  lemma {:induction false} RelsDecorated(sites: seq<Site>)
    requires RelsOf(sites).Some?
    ensures var r := RelsOf(sites).value;
      forall m, d :: m in r.fields && d in m.decorators ==> DecoratorHead(d) in r.keys
  {
    if sites != [] {
      var a := RelOf(sites[0]).value;
      var b := RelsOf(sites[1..]).value;
      RelsDecorated(sites[1..]);
      assert a.field.decorators == [Call(Ident(a.keys[0]), a.field.decorators[0].args)] by {
        var rel := RelStart(sites[0]).value;
      }
    }
  }

  /** `BaseModel` is imported first, every name once, and every name asked for is imported. */
  lemma OrmKeysSpec(requests: seq<string>)
    requires |requests| > 0 && requests[0] == "BaseModel"
    ensures var keys := OrmKeys(requests);
      |keys| > 0 && keys[0] == "BaseModel" && Distinct(keys) && forall x :: x in keys <==> x in requests
  {
    PutAllKeys(requests, 1);
    DedupMembers(requests);
    DedupDistinct(requests);
    DedupPrefix(["BaseModel"], requests[1..]);
    assert ["BaseModel"] + requests[1..] == requests;
    assert Dedup(["BaseModel"]) == ["BaseModel"] by {
      assert ["BaseModel"][..0] == [];
    }
  }

  /** The facts about the parts of a class that its imports rest on. */
  predicate PartsFit(pk: seq<ClassMember>, b: BootOut, rels: Rels) {
    (forall m :: m in pk ==> m.decorators == []) &&
    (forall m, d :: m in b.methods && d in m.decorators ==> DecoratorHead(d) in HooksKeys(b.hooks)) &&
    (forall m, d :: m in rels.fields && d in m.decorators ==> DecoratorHead(d) in rels.keys) &&
    forall i :: 0 <= i < |rels.typeModels| ==> rels.typeModels[i] in KeysOf(rels.models)
  }

  /**
   * What a converted class imports covers what it uses: every decorator comes
   * from the ORM import (`BaseModel` first, no name twice, `scope` when there are
   * scopes), and every model a relationship refers to has a default import.
   */
  predicate ImportsCover(r: Converted) {
    |r.ormKeys| > 0 && r.ormKeys[0] == "BaseModel" && Distinct(r.ormKeys) &&
    r.cls.ClassStmt? && DecoratorsImported(r.cls.members, r.ormKeys) &&
    (r.scopes != [] ==> "scope" in r.ormKeys) &&
    Distinct(KeysOf(r.models)) && (forall i :: 0 <= i < |r.relTypes| ==> r.relTypes[i] in KeysOf(r.models)) &&
    |r.imports| >= 2 + |r.models| &&
    r.imports[|r.imports| - 2..] == [OrmImport(r.ormKeys), LuxonImport()] &&
    r.imports[|r.imports| - 2 - |r.models|..|r.imports| - 2] == ModelImports(r.models)
  }

  lemma AssembleCovers(c: Stmt, table: Expr, pk: seq<ClassMember>, cs: Columns, b: BootOut, rels: Rels)
    requires c.ClassStmt? && PartsFit(pk, b, rels)
    ensures ImportsCover(Assemble(c, table, pk, cs, b, rels))
  {
    var scopes := Scopes(c.members);
    var requests := OrmRequests(cs, b.hooks, rels.keys, scopes);
    var r := Assemble(c, table, pk, cs, b, rels);
    var members := [StaticField("table", table)] + pk + ColumnFields(cs) + b.methods + rels.fields + scopes;
    OrmKeysSpec(requests);
    ColumnFieldsDecorated(cs);
    forall m, d | m in members && d in m.decorators
      ensures DecoratorHead(d) in r.ormKeys
    {
      if m in ColumnFields(cs) {
        assert cs != [];
      }
    }
    AddModelsKeys([], rels.models);
    var pre := (if b.hooks != [] then [ResolverDecl()] else []) +
      (if b.traits != [] then [ComposeImport()] + TraitImports(b.traits) else []);
    assert r.imports == pre + ModelImports(r.models) + [OrmImport(r.ormKeys), LuxonImport()];
  }

  lemma ClassImportsCover(c: Stmt, env: Env, k: nat)
    requires c.ClassStmt? && ConvertClass(c, env, k).Some?
    ensures ImportsCover(ConvertClass(c, env, k).value)
  {
    var ms := c.members;
    var pk := PrimaryKeyField(ms).value;
    var table := TableLiteral(c.id, ms, env).value;
    var cs := ColumnsOf(env.ups, table).value;
    var b := BootOf(ms, c.id, env, k).value;
    var sites := ClassSites(c.decorators, Some(SuperClass(b.traits)), ms);
    var rels := RelsOf(sites).value;
    BootDecorated(ms, c.id, env, k);
    RelsDecorated(sites);
    RelsTypeModelsImported(sites);
    AssembleCovers(c, table, pk, cs, b, rels);
  }

  // ================================================================ the pass

  /** `class <id> extends Model` */
  predicate IsModelClass(s: Stmt) {
    s.ClassStmt? && s.superClass.Some? && IsIdent(s.superClass.value, "Model")
  }

  /** A model class, or one under `export`. */
  predicate IsModelStmt(s: Stmt) {
    IsModelClass(s) || (s.ExportDecl? && IsModelClass(s.decl))
  }

  function ModelClassOf(s: Stmt): (c: Stmt)
    requires IsModelStmt(s)
    ensures IsModelClass(c)
  {
    if IsModelClass(s) then s else s.decl
  }

  /** The class keeps its name, decorators and comments, stops extending `Model`, and opens with its table. */
  predicate ShapeKept(c: Stmt, r: Converted) {
    r.cls.ClassStmt? && c.ClassStmt? && r.cls.id == c.id && r.cls.decorators == c.decorators &&
    r.cls.comments == c.comments && !IsModelStmt(r.cls) &&
    (forall i :: 0 <= i < |r.imports| ==> r.imports[i].Import? || r.imports[i].VarDecl?) &&
    |r.cls.members| > 0 && r.cls.members[0].FieldDef? && r.cls.members[0].key == "table" && r.cls.members[0].isStatic &&
    r.scopes == Scopes(c.members) && |r.scopes| <= |r.cls.members| &&
    r.cls.members[|r.cls.members| - |r.scopes|..] == r.scopes
  }

  lemma AssembleShape(c: Stmt, table: Expr, pk: seq<ClassMember>, cs: Columns, b: BootOut, rels: Rels)
    requires c.ClassStmt?
    ensures var r := Assemble(c, table, pk, cs, b, rels);
      ShapeKept(c, r) && r.cls.members[0].value == Some(table) &&
      r.cls.superClass == Some(SuperClass(b.traits))
  {
    var r := Assemble(c, table, pk, cs, b, rels);
    var pre := [StaticField("table", table)] + pk + ColumnFields(cs) + b.methods + rels.fields;
    assert r.cls.members == pre + r.scopes;
    assert r.cls.members[|r.cls.members| - |r.scopes|..] == r.scopes;
    ClassImportsKinds(b, r.models, r.ormKeys);
  }

  lemma ClassImportsKinds(b: BootOut, models: seq<Pair<string>>, keys: seq<string>)
    ensures var imps := ClassImports(b, models, keys);
      forall i :: 0 <= i < |imps| ==> imps[i].Import? || imps[i].VarDecl?
  {
    var imps := ClassImports(b, models, keys);
    forall i | 0 <= i < |imps|
      ensures imps[i].Import? || imps[i].VarDecl?
    {
      assert imps[i] in imps;
    }
  }

  /** The table of a class without a `table` getter is its pluralised snake-case name. */
  lemma ClassShape(c: Stmt, env: Env, k: nat)
    requires c.ClassStmt? && ConvertClass(c, env, k).Some?
    ensures var r := ConvertClass(c, env, k).value;
      ShapeKept(c, r) &&
      (Getter(c.members, "table").None? ==> r.cls.members[0].value == Some(Str(env.pluralize(Utils.CamelToSnake(c.id))))) &&
      (Getter(c.members, "table").Some? ==> r.cls.members[0].value == ReturnedLiteral(Getter(c.members, "table").value.body))
  {
    var ms := c.members;
    var pk := PrimaryKeyField(ms).value;
    var table := TableLiteral(c.id, ms, env).value;
    var cs := ColumnsOf(env.ups, table).value;
    var b := BootOf(ms, c.id, env, k).value;
    var rels := RelsOf(ClassSites(c.decorators, Some(SuperClass(b.traits)), ms)).value;
    AssembleShape(c, table, pk, cs, b, rels);
  }

  // ================================================================ the file

  /** The statement with its model class replaced by `c`, alone or under `export`. */
  function WithClass(s: Stmt, c: Stmt): Stmt
    requires IsModelStmt(s)
  {
    if IsModelClass(s) then c else ExportDecl(c, s.comments)
  }

  /** The top-level statements after the conversions, what they insert, and how many names they drew. */
  datatype Pass = Pass(body: seq<Stmt>, imports: seq<Stmt>, draws: nat)

  /** `done` followed by what the rest gives; `None` when the rest throws. */
  function Then(done: Pass, rest: Option<Pass>): Option<Pass> {
    match rest
    case None => None
    case Some(r) => Some(Pass(done.body + r.body, done.imports + r.imports, done.draws + r.draws))
  }

  /** One top-level statement: a model class converted with the draws from `k` on; any other statement as it is. */
  function ConvertHead(s: Stmt, env: Env, k: nat): Option<Pass> {
    if IsModelStmt(s) then
      match ConvertClass(ModelClassOf(s), env, k)
      case None => None
      case Some(cv) => Some(Pass([WithClass(s, cv.cls)], cv.imports, cv.draws))
    else Some(Pass([s], [], 0))
  }

  /** The callback for each top-level statement, the draws starting at `k`. */
  function Heads(env: Env): (Stmt, nat) -> Option<Pass> {
    (s: Stmt, k: nat) => ConvertHead(s, env, k)
  }

  /**
   * The `replaceWith` callbacks in document order: each statement given to
   * `conv` with the draws so far, the inserted declarations collected in call
   * order.  `None` when a callback throws.
   */
  function ConvertFrom(body: seq<Stmt>, conv: (Stmt, nat) -> Option<Pass>, k: nat): Option<Pass>
    decreases |body|
  {
    if body == [] then Some(Pass([], [], 0))
    else
      match conv(body[0], k)
      case None => None
      case Some(h) => Then(h, ConvertFrom(body[1..], conv, k + h.draws))
  }

  predicate HasModelClass(body: seq<Stmt>) {
    exists i :: 0 <= i < |body| && IsModelStmt(body[i])
  }

  /**
   * The pass.  The cursor is read first; the first callback removes the old
   * `Model` binding everywhere in the file, so every class is converted from the
   * file without it; the declarations go in at the cursor, which is read from
   * the file as it was.  `None` where the source throws, and where the removal
   * leaves no statement at the cursor index.
   */
  function ModelPass(p: Program, env: Env): Option<Program> {
    var idx := Utils.FindLastImportIndex(p.body, Utils.Tsx);
    if !HasModelClass(p.body) then Some(p)
    else
      var body1 := MapSs(p.body, true, UseRemoval());
      if idx >= |body1| then None
      else
        match ConvertFrom(body1, Heads(env), 0)
        case None => None
        case Some(r) =>
          HeadsFitAll(env);
          ConvertFromLayout(body1, Heads(env), 0);
          Some(Program(InsertAll(r.body, idx, r.imports), p.comments))
  }

  lemma ThenAssoc(a: Pass, b: Pass, rest: Option<Pass>)
    ensures Then(a, Then(b, rest)) == Then(Pass(a.body + b.body, a.imports + b.imports, a.draws + b.draws), rest)
  {
    if rest.Some? {
      AppendAssoc(a.body, b.body, rest.value.body);
      AppendAssoc(a.imports, b.imports, rest.value.imports);
    }
  }

  lemma ThenNothing(rest: Option<Pass>)
    ensures Then(Pass([], [], 0), rest) == rest
  {
    if rest.Some? {
      assert [] + rest.value.body == rest.value.body;
      assert [] + rest.value.imports == rest.value.imports;
    }
  }

  /** One step of the walk, from statement `i` on. */
  lemma ConvertFromStep(body: seq<Stmt>, i: nat, conv: (Stmt, nat) -> Option<Pass>, k: nat)
    requires i < |body|
    ensures ConvertFrom(body[i..], conv, k) ==
      match conv(body[i], k)
      case None => None
      case Some(h) => Then(h, ConvertFrom(body[i + 1..], conv, k + h.draws))
  {
    DropCons(body, i);
  }

  /** The walk of the method: the statements given to the callback one at a time, in order. */
  method ConvertClasses(body: seq<Stmt>, conv: (Stmt, nat) -> Option<Pass>) returns (r: Option<Pass>)
    ensures r == ConvertFrom(body, conv, 0)
  {
    var out: seq<Stmt> := [];
    var imports: seq<Stmt> := [];
    var draws: nat := 0;
    var i := 0;
    ThenNothing(ConvertFrom(body, conv, 0));
    assert body[0..] == body;
    while i < |body|
      invariant 0 <= i <= |body|
      invariant Then(Pass(out, imports, draws), ConvertFrom(body[i..], conv, draws)) == ConvertFrom(body, conv, 0)
    {
      ConvertFromStep(body, i, conv, draws);
      var h := conv(body[i], draws);
      if h.None? {
        return None;
      }
      ThenAssoc(Pass(out, imports, draws), h.value, ConvertFrom(body[i + 1..], conv, draws + h.value.draws));
      out, imports, draws := out + h.value.body, imports + h.value.imports, draws + h.value.draws;
      i := i + 1;
    }
    assert body[i..] == [];
    assert out + [] == out && imports + [] == imports;
    r := Some(Pass(out, imports, draws));
  }

  /** The pass as the source runs it, the declarations going in through the cursor. */
  method Run(p: Program, env: Env) returns (r: Option<Program>)
    ensures r == ModelPass(p, env)
  {
    var lastImportIndex := Utils.FindLastImportIndex(p.body, Utils.Tsx);
    if !HasModelClass(p.body) {
      return Some(p);
    }
    var body1 := MapSs(p.body, true, UseRemoval());
    if lastImportIndex >= |body1| {
      return None;
    }
    var converted := ConvertClasses(body1, Heads(env));
    if converted.None? {
      return None;
    }
    HeadsFitAll(env);
    ConvertFromLayout(body1, Heads(env), 0);
    var cursor := new ImportCursor(converted.value.body, lastImportIndex);
    cursor.InsertImports(converted.value.imports);
    r := Some(Program(cursor.body, p.comments));
  }

  // ---------------------------------------------------------------- properties of the file

  /** A converted statement: the class keeps its name and no longer extends `Model`. */
  predicate ConvertedStmt(before: Stmt, after: Stmt) {
    IsModelStmt(before) && !IsModelStmt(after) &&
    (IsModelClass(before) ==> after.ClassStmt? && after.id == before.id) &&
    (!IsModelClass(before) ==> after.ExportDecl? && after.decl.ClassStmt? && after.decl.id == before.decl.id)
  }

  /** What one statement gives: a converted class, or the statement itself; only imports and declarations inserted. */
  predicate HeadFits(s: Stmt, h: Pass) {
    |h.body| == 1 &&
    (if IsModelStmt(s) then ConvertedStmt(s, h.body[0]) else h.body[0] == s && h.imports == []) &&
    forall i :: 0 <= i < |h.imports| ==> h.imports[i].Import? || h.imports[i].VarDecl?
  }

  ghost predicate HeadsFit(conv: (Stmt, nat) -> Option<Pass>) {
    forall s: Stmt, k: nat :: conv(s, k).Some? ==> HeadFits(s, conv(s, k).value)
  }

  lemma HeadLayout(s: Stmt, env: Env, k: nat)
    requires ConvertHead(s, env, k).Some?
    ensures HeadFits(s, ConvertHead(s, env, k).value)
  {
    if IsModelStmt(s) {
      ClassShape(ModelClassOf(s), env, k);
    }
  }

  lemma HeadsFitAll(env: Env)
    ensures HeadsFit(Heads(env))
  {
    forall s: Stmt, k: nat | Heads(env)(s, k).Some?
      ensures HeadFits(s, Heads(env)(s, k).value)
    {
      HeadLayout(s, env, k);
    }
  }

  /** What the walk gives, statement by statement. */
  predicate WalkFits(body: seq<Stmt>, r: Pass) {
    |r.body| == |body| &&
    (forall i :: 0 <= i < |body| ==> if IsModelStmt(body[i]) then ConvertedStmt(body[i], r.body[i]) else r.body[i] == body[i]) &&
    (forall i :: 0 <= i < |r.imports| ==> r.imports[i].Import? || r.imports[i].VarDecl?)
  }

  lemma {:induction false} ThenFits(s: Stmt, h: Pass, rest: seq<Stmt>, t: Pass)
    requires HeadFits(s, h) && WalkFits(rest, t)
    ensures WalkFits([s] + rest, Pass(h.body + t.body, h.imports + t.imports, h.draws + t.draws))
  {
    var body := [s] + rest;
    var r := Pass(h.body + t.body, h.imports + t.imports, h.draws + t.draws);
    forall i | 0 <= i < |body|
      ensures if IsModelStmt(body[i]) then ConvertedStmt(body[i], r.body[i]) else r.body[i] == body[i]
    {
      if i > 0 {
        assert body[i] == rest[i - 1] && r.body[i] == t.body[i - 1];
      }
    }
    forall i | 0 <= i < |r.imports|
      ensures r.imports[i].Import? || r.imports[i].VarDecl?
    {
      if i >= |h.imports| {
        assert r.imports[i] == t.imports[i - |h.imports|];
      }
    }
  }

  /**
   * The walk keeps every statement in its place: model classes converted, the
   * others untouched; what it inserts are imports and declarations only.
   */
  lemma {:induction false} ConvertFromLayout(body: seq<Stmt>, conv: (Stmt, nat) -> Option<Pass>, k: nat)
    requires HeadsFit(conv) && ConvertFrom(body, conv, k).Some?
    ensures WalkFits(body, ConvertFrom(body, conv, k).value)
    decreases |body|
  {
    if body != [] {
      var h := conv(body[0], k).value;
      ConvertFromLayout(body[1..], conv, k + h.draws);
      ThenFits(body[0], h, body[1..], ConvertFrom(body[1..], conv, k + h.draws).value);
      assert [body[0]] + body[1..] == body;
    }
  }

  /** Where a model class exists and the pass goes through, the body is the walk's result with its declarations inserted at the cursor. */
  lemma ModelPassBody(p: Program, env: Env)
    requires HasModelClass(p.body) && ModelPass(p, env).Some?
    ensures var idx := Utils.FindLastImportIndex(p.body, Utils.Tsx);
      var r := ConvertFrom(MapSs(p.body, true, UseRemoval()), Heads(env), 0);
      r.Some? && -1 <= idx < |r.value.body| &&
      ModelPass(p, env).value.body == InsertAll(r.value.body, idx, r.value.imports)
  {
    var body1 := MapSs(p.body, true, UseRemoval());
    assert ConvertFrom(body1, Heads(env), 0).Some?;
    HeadsFitAll(env);
    ConvertFromLayout(body1, Heads(env), 0);
  }

  /**
   * Where a model class exists and the pass goes through: the converted
   * statements up to the cursor, every declaration the classes insert in call
   * order, then the rest.
   */
  lemma ModelPassLayout(p: Program, env: Env)
    requires HasModelClass(p.body) && ModelPass(p, env).Some?
    ensures var idx := Utils.FindLastImportIndex(p.body, Utils.Tsx);
      var body1 := MapSs(p.body, true, UseRemoval());
      var r := ConvertFrom(body1, Heads(env), 0).value;
      -1 <= idx < |r.body| && WalkFits(body1, r) &&
      ModelPass(p, env).value.body == r.body[..idx + 1] + r.imports + r.body[idx + 1..]
  {
    var idx := Utils.FindLastImportIndex(p.body, Utils.Tsx);
    var body1 := MapSs(p.body, true, UseRemoval());
    ModelPassBody(p, env);
    var r := ConvertFrom(body1, Heads(env), 0).value;
    HeadsFitAll(env);
    ConvertFromLayout(body1, Heads(env), 0);
    InsertAllConsecutive(r.body, idx, r.imports);
  }

  /** Inserting imports and declarations among statements none of which is a model class leaves none. */
  lemma {:induction false} NoModelStmtInserted(body: seq<Stmt>, idx: int, ss: seq<Stmt>)
    requires -1 <= idx < |body|
    requires forall i :: 0 <= i < |body| ==> !IsModelStmt(body[i])
    requires forall i :: 0 <= i < |ss| ==> ss[i].Import? || ss[i].VarDecl?
    ensures !HasModelClass(InsertAll(body, idx, ss))
  {
    InsertAllConsecutive(body, idx, ss);
    var q := InsertAll(body, idx, ss);
    forall i | 0 <= i < |q|
      ensures !IsModelStmt(q[i])
    {
      if i <= idx {
        assert q[i] == body[i];
      } else if i < idx + 1 + |ss| {
        assert q[i] == ss[i - idx - 1];
      } else {
        assert q[i] == body[i - |ss|];
      }
    }
  }

  /** The walk leaves no model class among the statements it gives. */
  lemma WalkLeavesNoModelStmt(body: seq<Stmt>, r: Pass)
    requires WalkFits(body, r)
    ensures forall i :: 0 <= i < |r.body| ==> !IsModelStmt(r.body[i])
  {
  }

  /** After the pass no top-level statement is a class extending `Model`, alone or under `export`. */
  lemma NoModelClassLeft(p: Program, env: Env)
    requires ModelPass(p, env).Some?
    ensures !HasModelClass(ModelPass(p, env).value.body)
  {
    if HasModelClass(p.body) {
      var idx := Utils.FindLastImportIndex(p.body, Utils.Tsx);
      var body1 := MapSs(p.body, true, UseRemoval());
      ModelPassBody(p, env);
      var r := ConvertFrom(body1, Heads(env), 0).value;
      HeadsFitAll(env);
      ConvertFromLayout(body1, Heads(env), 0);
      WalkLeavesNoModelStmt(body1, r);
      NoModelStmtInserted(r.body, idx, r.imports);
    }
  }

  /** The pass leaves the file exactly as it was if and only if no top-level class in it extends `Model`. */
  lemma UnchangedIffNoModelClass(p: Program, env: Env)
    ensures ModelPass(p, env) == Some(p) <==> !HasModelClass(p.body)
  {
    if HasModelClass(p.body) && ModelPass(p, env) == Some(p) {
      NoModelClassLeft(p, env);
    }
  }
}
