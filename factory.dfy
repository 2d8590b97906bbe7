/**
 * The `adonis-factory` pass, in five steps over the file:
 *   1. every statement `Factory.blueprint('<path>', cb)` becomes
 *      `export const <M>Factory = Factory.define(<M>, cb').build()`, where `<M>`
 *      is the last `/`-separated segment of the path and `cb'` takes one object
 *      of shorthand properties named after `cb`'s parameters; for the k-th such
 *      statement `import <M> from '<path>'` goes in at index k of the file;
 *   2. every call `factory('<path>').<m>(args)` and then
 *   3. every call `Factory.model('<path>').<m>(args)` becomes
 *      `<M>Factory.merge(<data>).<m>(<rest>)`, where `<data>` is the first object
 *      or array argument (`{}` when there is none) and `<rest>` the other arguments;
 *   4. when some call was converted, `import { <M>Factory, ... } from 'Database/factories'`,
 *      each name once and in first-use order, goes in through the cursor;
 *   5. when some blueprint was converted, every declaration whose first
 *      declarator binds `Factory` becomes `import Factory from '@ioc:Adonis/Lucid/Factory'`.
 * A blueprint or call whose arguments the source cannot read makes it throw; the
 * model answers `None` for that file.
 */
module Factory {
  import opened Ast
  import opened Traverse
  import opened JsObject
  import opened Utils
  import opened Cursor
  import opened Strings

  // ---------------------------------------------------------------- 1. blueprints

  /** The statement `Factory.blueprint(...)`. */
  predicate IsBlueprint(s: Stmt) {
    s.ExprStmt? && s.expr.Call? && s.expr.callee.Member? &&
    IsIdent(s.expr.callee.obj, "Factory") && IsIdent(s.expr.callee.prop, "blueprint")
  }

  /**
   * What the rewrite reads without throwing: a string path, a function
   * callback, and an identifier for each of its parameters.
   */
  predicate BlueprintReadable(s: Stmt)
    requires IsBlueprint(s)
  {
    var args := s.expr.args;
    |args| >= 2 && args[0].Str? && args[1].Func? &&
    forall i :: 0 <= i < |args[1].params| ==> args[1].params[i].Ident?
  }

  /** One shorthand property per parameter, with the parameter's name, in order. */
  function ShorthandProps(params: seq<Expr>): (r: seq<Prop>)
    requires forall i :: 0 <= i < |params| ==> params[i].Ident?
    ensures |r| == |params|
    ensures forall i :: 0 <= i < |params| ==>
              r[i].key == params[i] && r[i].value == params[i] && r[i].shorthand && !r[i].computed
  {
    seq(|params|, i requires 0 <= i < |params| => Prop(Ident(params[i].name), Ident(params[i].name), false, true, []))
  }

  /** `Factory.define(<model>, <callback>).build()` */
  function DefineCall(model: string, callback: Expr): Expr {
    Call(Member(Call(Member(Ident("Factory"), Ident("define"), false), [Ident(model), callback]), Ident("build"), false), [])
  }

  /** The callback, its parameters replaced by one object of shorthand properties. */
  function NewCallback(cb: Expr): (r: Expr)
    requires cb.Func? && forall i :: 0 <= i < |cb.params| ==> cb.params[i].Ident?
    ensures r.Func? && r.body == cb.body && r.isArrow == cb.isArrow && r.isAsync == cb.isAsync
    ensures r.params == [Object(ShorthandProps(cb.params))]
  {
    Func([Object(ShorthandProps(cb.params))], cb.body, cb.isArrow, cb.isAsync)
  }

  function ConvertBlueprint(s: Stmt): Stmt
    requires IsBlueprint(s) && BlueprintReadable(s)
  {
    var model := LastSegment(s.expr.args[0].value);
    ExportDecl(VarDecl(Const, [Declarator(Ident(model + "Factory"), Some(DefineCall(model, NewCallback(s.expr.args[1]))), [])], []), [])
  }

  function BlueprintRule(s: Stmt): Stmt {
    if IsBlueprint(s) && BlueprintReadable(s) then ConvertBlueprint(s) else s
  }

  function BlueprintRules(): Rules {
    Rules(e => e, (s, top) => [BlueprintRule(s)])
  }

  predicate BlueprintOk(n: Node) {
    n.NS? && IsBlueprint(n.s) ==> BlueprintReadable(n.s)
  }

  /** The path of a blueprint (empty when it has none; such a file is rejected anyway). */
  function BlueprintPath(s: Stmt): string {
    if s.ExprStmt? && s.expr.Call? && |s.expr.args| > 0 then LiteralValue(s.expr.args[0]) else ""
  }

  function PickPath(n: Node): seq<string> {
    if n.NS? && IsBlueprint(n.s) then [BlueprintPath(n.s)] else []
  }

  /** The paths of the blueprints, in document order. */
  function BlueprintPaths(ss: seq<Stmt>): seq<string> {
    CollSs(ss, PickPath)
  }

  /** `import <M> from '<path>'` */
  function ModelImport(path: string): Stmt {
    Import([ImportSpec(DefaultSpec, "", LastSegment(path))], path, [])
  }

  function ModelImports(paths: seq<string>): (r: seq<Stmt>)
    ensures |r| == |paths|
    ensures forall i :: 0 <= i < |paths| ==> r[i] == ModelImport(paths[i])
  {
    seq(|paths|, i requires 0 <= i < |paths| => ModelImport(paths[i]))
  }

  function OneToOne(ss: seq<Stmt>, r: Rules, f: Stmt -> Stmt): (out: seq<Stmt>)
    requires forall s :: r.fs(s, true) == [f(s)]
    ensures |out| == |ss|
    ensures forall i :: 0 <= i < |ss| ==> out[i] == f(KidsS(ss[i], r))
  {
    MapSsOneToOne(ss, true, r, f);
    MapSs(ss, true, r)
  }

  /** After step 1: the model imports first, in blueprint order, then the rewritten body. */
  function AfterBlueprints(body: seq<Stmt>): (r: seq<Stmt>)
    ensures |r| == |BlueprintPaths(body)| + |body|
  {
    ModelImports(BlueprintPaths(body)) + OneToOne(body, BlueprintRules(), BlueprintRule)
  }

  // ---------------------------------------------------------------- 2, 3. factory calls

  /** `factory(...).<m>(...)` */
  predicate IsFactoryCall(e: Expr) {
    e.Call? && e.callee.Member? && e.callee.obj.Call? && IsIdent(e.callee.obj.callee, "factory")
  }

  /** `Factory.model(...).<m>(...)` */
  predicate IsModelCall(e: Expr) {
    e.Call? && e.callee.Member? && e.callee.obj.Call? && e.callee.obj.callee.Member? &&
    IsIdent(e.callee.obj.callee.obj, "Factory") && IsIdent(e.callee.obj.callee.prop, "model")
  }

  /** The inner call names its model by a string path: otherwise `convertFactory` throws. */
  predicate CallReadable(e: Expr)
    requires e.Call? && e.callee.Member? && e.callee.obj.Call?
  {
    |e.callee.obj.args| > 0 && e.callee.obj.args[0].Str?
  }

  /** `<M>Factory` for the path the inner call names (read as empty when it names none). */
  function FactoryName(e: Expr): string {
    if e.Call? && e.callee.Member? && e.callee.obj.Call? && |e.callee.obj.args| > 0
    then LastSegment(LiteralValue(e.callee.obj.args[0])) + "Factory"
    else "Factory"
  }

  predicate IsMergeData(e: Expr) {
    e.Object? || e.Array?
  }

  /** The first object or array argument. */
  function FirstMergeData(args: seq<Expr>): (r: Option<nat>)
    ensures r.Some? ==> r.value < |args| && IsMergeData(args[r.value]) &&
                        forall j :: 0 <= j < r.value ==> !IsMergeData(args[j])
    ensures r.None? ==> forall j :: 0 <= j < |args| ==> !IsMergeData(args[j])
  {
    if args == [] then None
    else if IsMergeData(args[0]) then Some(0)
    else match FirstMergeData(args[1..])
      case None => None
      case Some(k) => Some(k + 1)
  }

  /** An argument the method keeps once merge data was found. */
  predicate KeptArg(a: Expr) {
    !IsMergeData(a)
  }

  /** The argument `merge` receives and the arguments left for the method. */
  function SplitArgs(args: seq<Expr>): (Expr, seq<Expr>) {
    match FirstMergeData(args)
    case None => (Object([]), args)
    case Some(k) => (args[k], Filter(args, KeptArg))
  }

  /** `<M>Factory.merge(<data>)` */
  function MergeCall(e: Expr): Expr
    requires e.Call?
  {
    Call(Member(Ident(FactoryName(e)), Ident("merge"), false), [SplitArgs(e.args).0])
  }

  /** `<M>Factory.merge(<data>).<m>(<rest>)` */
  function ConvertCall(e: Expr): Expr
    requires e.Call? && e.callee.Member?
  {
    Call(Member(MergeCall(e), e.callee.prop, false), SplitArgs(e.args).1)
  }

  function FactoryCallRule(e: Expr): Expr {
    if IsFactoryCall(e) && CallReadable(e) then ConvertCall(e) else e
  }

  function ModelCallRule(e: Expr): Expr {
    if IsModelCall(e) && CallReadable(e) then ConvertCall(e) else e
  }

  function FactoryCallRules(): Rules {
    Rules(FactoryCallRule, (s, top) => [s])
  }

  function ModelCallRules(): Rules {
    Rules(ModelCallRule, (s, top) => [s])
  }

  predicate FactoryCallOk(n: Node) {
    n.NE? && IsFactoryCall(n.e) ==> CallReadable(n.e)
  }

  predicate ModelCallOk(n: Node) {
    n.NE? && IsModelCall(n.e) ==> CallReadable(n.e)
  }

  function PickFactoryName(n: Node): seq<string> {
    if n.NE? && IsFactoryCall(n.e) then [FactoryName(n.e)] else []
  }

  function PickModelName(n: Node): seq<string> {
    if n.NE? && IsModelCall(n.e) then [FactoryName(n.e)] else []
  }


  /** Step 2: the `factory(...)` calls of the file after step 1. */
  function AfterFactoryCalls(body: seq<Stmt>): (r: seq<Stmt>)
    ensures |r| == |body|
  {
    OneToOne(body, FactoryCallRules(), s => s)
  }

  /** Step 3: the `Factory.model(...)` calls of the file after step 2. */
  function AfterModelCalls(body: seq<Stmt>): (r: seq<Stmt>)
    ensures |r| == |body|
  {
    OneToOne(body, ModelCallRules(), s => s)
  }

  /** The factory names the converted calls record, in the order they are converted. */
  function CallNames(body1: seq<Stmt>): seq<string> {
    CollSs(body1, PickFactoryName) + CollSs(AfterFactoryCalls(body1), PickModelName)
  }

  // ---------------------------------------------------------------- 4. the factories import

  /** `modelImportSpecifiers[name] = 1` for each name in turn. */
  function PutAll(specs: seq<Entry>, names: seq<string>): seq<Entry>
    decreases |names|
  {
    if names == [] then specs else PutAll(Put(specs, names[0], JNum(1)), names[1..])
  }

  predicate Distinct(xs: seq<string>) {
    forall i, j :: 0 <= i < j < |xs| ==> xs[i] != xs[j]
  }

  /** `seen`, then each name of `names` not seen before, in first-occurrence order. */
  function AddNew(seen: seq<string>, names: seq<string>): (r: seq<string>)
    ensures forall x :: x in r <==> x in seen || x in names
    ensures |seen| <= |r| && r[..|seen|] == seen
    decreases |names|
  {
    if names == [] then seen
    else
      var seen' := if names[0] in seen then seen else seen + [names[0]];
      var r := AddNew(seen', names[1..]);
      assert r[..|seen'|][..|seen|] == seen;
      assert names == [names[0]] + names[1..];
      r
  }

  /** `import { <names> } from 'Database/factories'` */
  function FactoriesImport(names: seq<string>): Stmt {
    Import(seq(|names|, i requires 0 <= i < |names| => ImportSpec(NamedSpec, names[i], names[i])), "Database/factories", [])
  }

  // ---------------------------------------------------------------- 5. the Factory binding

  /** A declaration whose first declarator binds `Factory`. */
  predicate IsFactoryBinding(s: Stmt) {
    s.VarDecl? && |s.decls| > 0 && IsIdent(s.decls[0].id, "Factory")
  }

  /** `import Factory from '@ioc:Adonis/Lucid/Factory'` */
  function LucidFactoryImport(): Stmt {
    Import([ImportSpec(DefaultSpec, "", "Factory")], "@ioc:Adonis/Lucid/Factory", [])
  }

  function BindingRule(s: Stmt): Stmt {
    if IsFactoryBinding(s) then LucidFactoryImport() else s
  }

  function BindingRules(): Rules {
    Rules(e => e, (s, top) => [BindingRule(s)])
  }

  predicate NoFactoryBinding(n: Node) {
    !(n.NS? && IsFactoryBinding(n.s))
  }

  // ---------------------------------------------------------------- the pass

  /** The five steps; `lastImportIndex` is read from the file as it was before step 1. */
  function Factory(p: Program): Option<Program> {
    if !EverySs(BlueprintOk, p.body) then None
    else
      var body1 := AfterBlueprints(p.body);
      if !EverySs(FactoryCallOk, body1) then None
      else
        var body2 := AfterFactoryCalls(body1);
        if !EverySs(ModelCallOk, body2) then None
        else
          var body3 := AfterModelCalls(body2);
          var names := Keys(PutAll([], CallNames(body1)));
          var body4 := if names == [] then body3 else InsertAfter(body3, FindLastImportIndex(p.body, Tsx), FactoriesImport(names));
          var body5 := if BlueprintPaths(p.body) == [] then body4 else MapSs(body4, true, BindingRules());
          Some(Program(body5, p.comments))
  }

  /** The model imports going in one by one, the k-th before index k of the file. */
  method InsertModelImports(paths: seq<string>, rewritten: seq<Stmt>) returns (body: seq<Stmt>)
    ensures body == ModelImports(paths) + rewritten
  {
    body := rewritten;
    var k := 0;
    while k < |paths|
      invariant 0 <= k <= |paths|
      invariant body == ModelImports(paths[..k]) + rewritten
    {
      SplitAtImports(ModelImports(paths[..k]), rewritten, body);
      ModelImportsSnoc(paths, k);
      body := body[..k] + [ModelImport(paths[k])] + body[k..];
      k := k + 1;
    }
    assert paths[..k] == paths;
  }

  lemma SplitAtImports(pre: seq<Stmt>, rest: seq<Stmt>, body: seq<Stmt>)
    requires body == pre + rest
    ensures body[..|pre|] == pre && body[|pre|..] == rest
  {
  }

  lemma ModelImportsSnoc(paths: seq<string>, k: int)
    requires 0 <= k < |paths|
    ensures ModelImports(paths[..k + 1]) == ModelImports(paths[..k]) + [ModelImport(paths[k])]
  {
    var a, b := ModelImports(paths[..k + 1]), ModelImports(paths[..k]) + [ModelImport(paths[k])];
    forall i | 0 <= i < |a|
      ensures a[i] == b[i]
    {
      if i < k {
        assert paths[..k + 1][i] == paths[..k][i];
      }
    }
  }

  /** `modelImportSpecifiers` filled one converted call at a time. */
  method RecordNames(calls: seq<string>) returns (specs: seq<Entry>)
    ensures specs == PutAll([], calls)
  {
    specs := [];
    var i := 0;
    while i < |calls|
      invariant 0 <= i <= |calls|
      invariant PutAll(specs, calls[i..]) == PutAll([], calls)
    {
      assert calls[i..][1..] == calls[i + 1..];
      specs := Put(specs, calls[i], JNum(1));
      i := i + 1;
    }
    assert calls[i..] == [];
  }

  /** The keys of the specifier object copied into an array, in order. */
  method KeysOf(specs: seq<Entry>) returns (names: seq<string>)
    ensures names == Keys(specs)
  {
    var keys := new string[|specs|];
    var j := 0;
    while j < |specs|
      invariant 0 <= j <= |specs|
      invariant keys[..j] == Keys(specs)[..j]
    {
      keys[j] := specs[j].key;
      j := j + 1;
    }
    assert keys[..] == Keys(specs)[..j];
    names := keys[..];
  }

  /**
   * The pass as the source runs it, with the cursor set before step 1 placing
   * the factories import.
   */
  method Run(p: Program) returns (r: Option<Program>)
    ensures r == Factory(p)
  {
    var lastImportIndex := FindLastImportIndex(p.body, Tsx);
    if !EverySs(BlueprintOk, p.body) {
      return None;
    }
    var paths := BlueprintPaths(p.body);
    var isUpdated := paths != [];
    var body := InsertModelImports(paths, OneToOne(p.body, BlueprintRules(), BlueprintRule));
    if !EverySs(FactoryCallOk, body) {
      return None;
    }
    var calls := CallNames(body);
    var body2 := AfterFactoryCalls(body);
    if !EverySs(ModelCallOk, body2) {
      return None;
    }
    var body3 := AfterModelCalls(body2);
    var specs := RecordNames(calls);
    var body4 := body3;
    if |specs| > 0 {
      var names := KeysOf(specs);
      var cursor := new ImportCursor(body3, lastImportIndex);
      cursor.InsertImport(FactoriesImport(names));
      body4 := cursor.body;
    }
    if isUpdated {
      body4 := MapSs(body4, true, BindingRules());
    }
    r := Some(Program(body4, p.comments));
  }

  // ---------------------------------------------------------------- properties

  /** Filling the specifier object adds each new key once, after the keys already there. */
  lemma {:induction false} PutAllKeys(es: seq<Entry>, names: seq<string>)
    ensures Keys(PutAll(es, names)) == AddNew(Keys(es), names)
    decreases |names|
  {
    if names != [] {
      PutAllKeys(Put(es, names[0], JNum(1)), names[1..]);
    }
  }

  lemma {:induction false} AddNewDistinct(seen: seq<string>, names: seq<string>)
    requires Distinct(seen)
    ensures Distinct(AddNew(seen, names))
    decreases |names|
  {
    if names != [] {
      var seen' := if names[0] in seen then seen else seen + [names[0]];
      assert Distinct(seen');
      AddNewDistinct(seen', names[1..]);
    }
  }

  /**
   * The factories import names each converted call's factory exactly once, in the
   * order of the first call that used it.
   */
  lemma ImportNamesEachOnce(calls: seq<string>)
    ensures var names := Keys(PutAll([], calls));
      names == AddNew([], calls) && Distinct(names) && (forall x :: x in names <==> x in calls)
  {
    PutAllKeys([], calls);
    AddNewDistinct([], calls);
  }

  lemma {:induction false} CollSsHas<T>(ss: seq<Stmt>, pick: Node -> seq<T>, i: int, x: T)
    requires 0 <= i < |ss| && x in CollS(ss[i], pick)
    ensures x in CollSs(ss, pick)
  {
    if i > 0 {
      CollSsHas(ss[1..], pick, i - 1, x);
    }
  }

  /** Rewriting what is inside a readable blueprint keeps it a readable blueprint of the same path and parameters. */
  lemma BlueprintKept(s: Stmt)
    requires IsBlueprint(s) && BlueprintReadable(s)
    ensures var t := KidsS(s, BlueprintRules());
      IsBlueprint(t) && BlueprintReadable(t) && t.expr.args[0] == s.expr.args[0] &&
      t.expr.args[1].params == s.expr.args[1].params
  {
    var r := BlueprintRules();
    var e := s.expr;
    var c, a := e.callee, e.args;
    assert MapE(c.obj, r) == c.obj && MapE(c.prop, r) == c.prop;
    assert MapE(c, r) == c;
    MapEsAt(a, r);
    var cb := a[1];
    MapEsAt(cb.params, r);
    forall j | 0 <= j < |cb.params|
      ensures MapEs(cb.params, r)[j] == cb.params[j]
    {
      assert MapE(cb.params[j], r) == cb.params[j];
    }
    assert MapEs(cb.params, r) == cb.params;
    assert MapE(cb, r) == Func(MapEs(cb.params, r), MapSs(cb.body, false, r), cb.isArrow, cb.isAsync);
    assert MapE(a[0], r) == a[0];
    assert MapE(e, r) == Call(c, MapEs(a, r));
  }

  /**
   * Every top-level blueprint becomes `export const <M>Factory = Factory.define(<M>, cb).build()`,
   * where `cb` takes one object of shorthand properties named after the blueprint
   * callback's parameters, and `<M>` is the very name some model import of the
   * file binds for the blueprint's path.
   */
  lemma EveryDefinedModelIsImported(body: seq<Stmt>, i: int)
    requires 0 <= i < |body| && IsBlueprint(body[i]) && BlueprintReadable(body[i])
    ensures var out, path := AfterBlueprints(body), BlueprintPath(body[i]);
      var k, m := |BlueprintPaths(body)|, LastSegment(path);
      (exists j :: 0 <= j < k && out[j] == Import([ImportSpec(DefaultSpec, "", m)], path, [])) &&
      out[k + i].ExportDecl? && out[k + i].decl.VarDecl? && out[k + i].decl.kind == Const &&
      |out[k + i].decl.decls| == 1 && out[k + i].decl.decls[0].id == Ident(m + "Factory") &&
      out[k + i].decl.decls[0].init.Some? &&
      var define := out[k + i].decl.decls[0].init.value;
      define.Call? && define.callee.Member? && define.callee.obj.Call? && |define.callee.obj.args| == 2 &&
      define == DefineCall(m, define.callee.obj.args[1]) &&
      define.callee.obj.args[1].Func? &&
      define.callee.obj.args[1].params == [Object(ShorthandProps(body[i].expr.args[1].params))]
  {
    var path := BlueprintPath(body[i]);
    var paths := BlueprintPaths(body);
    assert PickPath(NS(body[i])) == [path];
    CollSsHas(body, PickPath, i, path);
    var j :| 0 <= j < |paths| && paths[j] == path;
    var out := AfterBlueprints(body);
    assert out[j] == ModelImports(paths)[j];
    var t := KidsS(body[i], BlueprintRules());
    BlueprintKept(body[i]);
    assert out[|paths| + i] == ConvertBlueprint(t);
  }

  /**
   * `merge` receives the first object or array argument, else `{}`; the method
   * keeps the other arguments, in order, with every object and array argument
   * removed, and keeps all of them when there is none.
   */
  lemma SplitArgsSpec(args: seq<Expr>)
    ensures var (data, rest) := SplitArgs(args);
      ((forall a :: a in args ==> !IsMergeData(a)) ==> data == Object([]) && rest == args) &&
      ((exists a :: a in args && IsMergeData(a)) ==>
         (exists k :: 0 <= k < |args| && data == args[k] && IsMergeData(data) &&
                      forall j :: 0 <= j < k ==> !IsMergeData(args[j])) &&
         rest == Filter(args, KeptArg) &&
         forall a :: a in rest <==> a in args && !IsMergeData(a))
  {
    match FirstMergeData(args)
    case None =>
    case Some(k) =>
  }

  predicate NoReadableFactoryCall(n: Node) {
    !(n.NE? && IsFactoryCall(n.e) && CallReadable(n.e))
  }

  predicate NoReadableModelCall(n: Node) {
    !(n.NE? && IsModelCall(n.e) && CallReadable(n.e))
  }

  lemma {:induction false} FilterClean(es: seq<Expr>, v: Node -> seq<Node>)
    requires CollEs(es, v) == []
    ensures CollEs(Filter(es, KeptArg), v) == []
  {
    if es != [] {
      FilterClean(es[1..], v);
      var f := Filter(es[1..], KeptArg);
      if KeptArg(es[0]) {
        assert Filter(es, KeptArg) == [es[0]] + f;
        assert ([es[0]] + f)[0] == es[0] && ([es[0]] + f)[1..] == f;
      } else {
        assert Filter(es, KeptArg) == [] + f == f;
      }
    }
  }

  /** What `merge` receives and what the method keeps hold nothing the arguments did not. */
  lemma ArgsClean(args: seq<Expr>, q: Node -> bool)
    requires CollEs(args, Violations(q)) == [] && q(NE(Object([])))
    ensures CollEs([SplitArgs(args).0], Violations(q)) == [] && CollEs(SplitArgs(args).1, Violations(q)) == []
  {
    var v := Violations(q);
    var data := SplitArgs(args).0;
    match FirstMergeData(args)
    case None =>
      assert v(NE(data)) == [];
      assert CollE(data, v) == [];
    case Some(k) =>
      CollEsAt(args, v, k);
      FilterClean(args, v);
    assert CollEs([data], v) == CollE(data, v) + CollEs([], v);
  }

  lemma MergeClean(e: Expr, q: Node -> bool)
    requires e.Call? && CollEs(e.args, Violations(q)) == []
    requires forall x: Expr :: !IsFactoryCall(x) && !IsModelCall(x) ==> q(NE(x))
    ensures CollE(MergeCall(e), Violations(q)) == []
  {
    var v := Violations(q);
    var f, merge := Ident(FactoryName(e)), Ident("merge");
    var m := Member(f, merge, false);
    assert q(NE(Object([])));
    ArgsClean(e.args, q);
    LeafClean(q, f);
    LeafClean(q, merge);
    assert q(NE(m)) && v(NE(m)) == [];
    assert CollE(m, v) == [];
    assert q(NE(MergeCall(e))) && v(NE(MergeCall(e))) == [];
  }

  /** The converted call holds no readable factory nor model call that its parts did not hold. */
  lemma ConvertClean(e: Expr, q: Node -> bool)
    requires e.Call? && e.callee.Member? && KidsCollE(e, Violations(q)) == []
    requires forall x: Expr :: !IsFactoryCall(x) && !IsModelCall(x) ==> q(NE(x))
    ensures CollE(ConvertCall(e), Violations(q)) == []
  {
    var inner := MergeCall(e);
    var callee := Member(inner, e.callee.prop, false);
    var rest := SplitArgs(e.args).1;
    CalleePartsClean(e.callee.obj, e.callee.prop, e.callee.computed, e.args, q);
    MergeClean(e, q);
    assert !IsFactoryCall(callee) && !IsModelCall(callee);
    MemberClean(q, inner, e.callee.prop, false);
    assert q(NE(Object([])));
    ArgsClean(e.args, q);
    assert !IsFactoryCall(Call(callee, rest)) && !IsModelCall(Call(callee, rest));
    CallClean(q, callee, rest);
  }

  /** Nothing reported below a method call means nothing in its property and its arguments. */
  lemma CalleePartsClean(o: Expr, p: Expr, computed: bool, args: seq<Expr>, q: Node -> bool)
    requires KidsCollE(Call(Member(o, p, computed), args), Violations(q)) == []
    ensures CollE(p, Violations(q)) == [] && CollEs(args, Violations(q)) == []
  {
    var v := Violations(q);
    var c := Member(o, p, computed);
    assert KidsCollE(Call(c, args), v) == CollE(c, v) + CollEs(args, v);
    assert CollE(c, v) == v(NE(c)) + CollE(o, v) + CollE(p, v);
  }

  lemma FactoryCallsEstablish()
    ensures Establishes(FactoryCallRules(), NoReadableFactoryCall) && EstablishesAtTop(FactoryCallRules(), NoReadableFactoryCall)
  {
    var r := FactoryCallRules();
    var v := Violations(NoReadableFactoryCall);
    forall e: Expr | KidsCollE(e, v) == []
      ensures CollE(r.fe(e), v) == []
    {
      if IsFactoryCall(e) && CallReadable(e) {
        ConvertClean(e, NoReadableFactoryCall);
      } else {
        assert NoReadableFactoryCall(NE(e)) && v(NE(e)) == [];
      }
    }
    forall s: Stmt, top: bool | KidsCollS(s, v) == []
      ensures CollSs(r.fs(s, top), v) == []
    {
      assert NoReadableFactoryCall(NS(s)) && v(NS(s)) == [];
      assert CollSs([s], v) == CollS(s, v);
    }
  }

  lemma ModelCallsEstablish()
    ensures Establishes(ModelCallRules(), NoReadableModelCall) && EstablishesAtTop(ModelCallRules(), NoReadableModelCall)
  {
    var r := ModelCallRules();
    var v := Violations(NoReadableModelCall);
    forall e: Expr | KidsCollE(e, v) == []
      ensures CollE(r.fe(e), v) == []
    {
      if IsModelCall(e) && CallReadable(e) {
        ConvertClean(e, NoReadableModelCall);
      } else {
        assert NoReadableModelCall(NE(e)) && v(NE(e)) == [];
      }
    }
    forall s: Stmt, top: bool | KidsCollS(s, v) == []
      ensures CollSs(r.fs(s, top), v) == []
    {
      assert NoReadableModelCall(NS(s)) && v(NS(s)) == [];
      assert CollSs([s], v) == CollS(s, v);
    }
  }

  /** After step 2 no `factory('<path>').<m>(...)` call is left, at any depth. */
  lemma {:induction false} NoFactoryCallLeft(body: seq<Stmt>)
    ensures EverySs(NoReadableFactoryCall, AfterFactoryCalls(body))
  {
    FactoryCallsEstablish();
    EstablishSs(body, true, FactoryCallRules(), NoReadableFactoryCall);
  }

  /** After step 3 no `Factory.model('<path>').<m>(...)` call is left, at any depth. */
  lemma {:induction false} NoModelCallLeft(body: seq<Stmt>)
    ensures EverySs(NoReadableModelCall, AfterModelCalls(body))
  {
    ModelCallsEstablish();
    EstablishSs(body, true, ModelCallRules(), NoReadableModelCall);
  }

  lemma BindingEstablish()
    ensures Establishes(BindingRules(), NoFactoryBinding) && EstablishesAtTop(BindingRules(), NoFactoryBinding)
  {
    var r := BindingRules();
    var v := Violations(NoFactoryBinding);
    forall e: Expr | KidsCollE(e, v) == []
      ensures CollE(r.fe(e), v) == []
    {
      assert NoFactoryBinding(NE(e)) && v(NE(e)) == [];
    }
    forall s: Stmt, top: bool | KidsCollS(s, v) == []
      ensures CollSs(r.fs(s, top), v) == []
    {
      var t := BindingRule(s);
      assert CollSs([t], v) == CollS(t, v);
      assert NoFactoryBinding(NS(t)) && v(NS(t)) == [];
      if IsFactoryBinding(s) {
        assert KidsCollS(t, v) == [];
      }
    }
  }

  /**
   * Once a blueprint was converted, no declaration whose first declarator binds
   * `Factory` is left in the file, at any depth of statement lists.
   */
  lemma {:induction false} NoFactoryBindingLeft(p: Program)
    requires Factory(p).Some? && BlueprintPaths(p.body) != []
    ensures EverySs(NoFactoryBinding, Factory(p).value.body)
  {
    var body3 := AfterModelCalls(AfterFactoryCalls(AfterBlueprints(p.body)));
    var names := Keys(PutAll([], CallNames(AfterBlueprints(p.body))));
    var body4 := if names == [] then body3 else InsertAfter(body3, FindLastImportIndex(p.body, Tsx), FactoriesImport(names));
    BindingEstablish();
    EstablishSs(body4, true, BindingRules(), NoFactoryBinding);
  }

  /**
   * The factories import goes in exactly when some call was converted, naming
   * each factory once in first-use order, right after as many statements of the
   * new file as the original file had up to its last import.
   */
  lemma {:induction false} FactoriesImportPlacement(p: Program)
    requires Factory(p).Some?
    ensures var calls := CallNames(AfterBlueprints(p.body));
      var r := Factory(p).value.body;
      |r| == |p.body| + |BlueprintPaths(p.body)| + (if calls == [] then 0 else 1) &&
      (calls != [] ==> r[FindLastImportIndex(p.body, Tsx) + 1] == FactoriesImport(AddNew([], calls)))
  {
    var body1 := AfterBlueprints(p.body);
    var body3 := AfterModelCalls(AfterFactoryCalls(body1));
    var calls := CallNames(body1);
    ImportNamesEachOnce(calls);
    var names := Keys(PutAll([], calls));
    if calls != [] {
      assert calls[0] in names;
    }
    ImportThenBindings(body3, FindLastImportIndex(p.body, Tsx), names, BlueprintPaths(p.body) != []);
  }

  /** Steps 4 and 5 on the rewritten body: the import lands right after the cursor and the bindings keep the length. */
  lemma ImportThenBindings(body3: seq<Stmt>, idx: int, names: seq<string>, bindings: bool)
    requires -1 <= idx < |body3|
    ensures var body4 := if names == [] then body3 else InsertAfter(body3, idx, FactoriesImport(names));
      var body5 := if bindings then MapSs(body4, true, BindingRules()) else body4;
      |body5| == |body3| + (if names == [] then 0 else 1) &&
      (names != [] ==> body5[idx + 1] == FactoriesImport(names))
  {
    var body4 := if names == [] then body3 else InsertAfter(body3, idx, FactoriesImport(names));
    if names != [] {
      InsertAfterLayout(body3, idx, FactoriesImport(names));
    }
    if bindings {
      MapSsOneToOne(body4, true, BindingRules(), BindingRule);
    }
  }

  predicate NotBlueprint(n: Node) {
    !(n.NS? && IsBlueprint(n.s))
  }

  predicate NotFactoryCall(n: Node) {
    !(n.NE? && IsFactoryCall(n.e))
  }

  predicate NotModelCall(n: Node) {
    !(n.NE? && IsModelCall(n.e))
  }

  lemma {:induction false} NoBlueprintKept(body: seq<Stmt>)
    requires EverySs(NotBlueprint, body)
    ensures EverySs(BlueprintOk, body) && BlueprintPaths(body) == [] && AfterBlueprints(body) == body
  {
    var b := Violations(NotBlueprint);
    assert QuietWhere(b, Violations(BlueprintOk)) && QuietWhere(b, PickPath);
    QuietSs(body, b, Violations(BlueprintOk));
    QuietSs(body, b, PickPath);
    assert Fixes(BlueprintRules(), NotBlueprint);
    FixSs(body, true, BlueprintRules(), NotBlueprint);
    assert AfterBlueprints(body) == [] + body;
  }

  lemma {:induction false} NoFactoryCallKept(body: seq<Stmt>)
    requires EverySs(NotFactoryCall, body)
    ensures EverySs(FactoryCallOk, body) && CollSs(body, PickFactoryName) == [] && AfterFactoryCalls(body) == body
  {
    var fc := Violations(NotFactoryCall);
    assert QuietWhere(fc, Violations(FactoryCallOk)) && QuietWhere(fc, PickFactoryName);
    QuietSs(body, fc, Violations(FactoryCallOk));
    QuietSs(body, fc, PickFactoryName);
    assert Fixes(FactoryCallRules(), NotFactoryCall);
    FixSs(body, true, FactoryCallRules(), NotFactoryCall);
  }

  lemma {:induction false} NoModelCallKept(body: seq<Stmt>)
    requires EverySs(NotModelCall, body)
    ensures EverySs(ModelCallOk, body) && CollSs(body, PickModelName) == [] && AfterModelCalls(body) == body
  {
    var mc := Violations(NotModelCall);
    assert QuietWhere(mc, Violations(ModelCallOk)) && QuietWhere(mc, PickModelName);
    QuietSs(body, mc, Violations(ModelCallOk));
    QuietSs(body, mc, PickModelName);
    assert Fixes(ModelCallRules(), NotModelCall);
    FixSs(body, true, ModelCallRules(), NotModelCall);
  }

  /** A file with no blueprint, no `factory(...)` call and no `Factory.model(...)` call comes back as it was. */
  lemma {:induction false} UnchangedWithoutFactories(p: Program)
    requires EverySs(NotBlueprint, p.body) && EverySs(NotFactoryCall, p.body) && EverySs(NotModelCall, p.body)
    ensures Factory(p) == Some(p)
  {
    NoBlueprintKept(p.body);
    NoFactoryCallKept(p.body);
    NoModelCallKept(p.body);
    assert CallNames(p.body) == [];
  }
}
