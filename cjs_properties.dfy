/**
 * What the `cjs` pass guarantees: which top-level forms become which imports,
 * that comments survive the split of a declaration, that no top-level
 * `require` is left, and where hoisting puts the moved statements.
 */
module CjsProperties {
  import opened Ast
  import opened Traverse
  import opened Strings
  import opened Utils
  import opened Cursor
  import opened Cjs

  // ---------------------------------------------------------------- single forms

  /** `require('m');` becomes the import for its side effects, `import 'm'`, with the statement's comments. */
  lemma BareRequireBecomesImport(m: string, more: seq<Expr>, cs: seq<Comment>)
    ensures ConvertTop(ExprStmt(Call(Ident("require"), [Str(m)] + more), cs)) == [Import([], m, cs)]
  {
  }

  /** A declaration whose one declarator is a plain `require` becomes that declarator's import. */
  lemma OneDeclaratorConverts(k: VarKind, d: Declarator, cs: seq<Comment>)
    requires IsRequireDecl(d) && !IsCalledForm(VarDecl(Var, [d], []))
    ensures ConvertTop(VarDecl(k, [d], cs)) == [ConvertRequire(VarDecl(Var, [d], []), DeclaratorComments(cs, true, true, d))]
  {
    var s := VarDecl(k, [d], cs);
    assert [d][1..] == [];
    assert Matches([d]) == [d] && Rest([d]) == [];
    var imp := ConvertRequire(VarDecl(Var, [d], []), DeclaratorComments(cs, true, true, d));
    assert Pieces(s, [d], 1, true) == Pieces(s, [d], 0, true) + Piece(s, [d], 0, true);
    assert ReplacedDeclaration(s) == [imp];
    assert !InitsObject(imp);
    assert ConvertObjectRequiresAll([imp]) == ConvertObjectRequires(imp) + ConvertObjectRequiresAll([]);
  }

  /**
   * `var v = require('m')` becomes `import v from 'm'`; the declaration's
   * comments, leading and trailing, and the declarator's own go onto the import.
   */
  lemma DefaultRequireBecomesImport(k: VarKind, v: string, m: string, dc: seq<Comment>, cs: seq<Comment>)
    requires v != ""
    ensures ConvertTop(VarDecl(k, [Declarator(Ident(v), Some(Call(Ident("require"), [Str(m)])), dc)], cs)) ==
      [Import([ImportSpec(DefaultSpec, "", v)], m, DeclaratorComments(cs, true, true, Declarator(Ident(v), Some(Call(Ident("require"), [Str(m)])), dc)))]
  {
    var d := Declarator(Ident(v), Some(Call(Ident("require"), [Str(m)])), dc);
    OneDeclaratorConverts(k, d, cs);
    assert GetPropsFromRequire(VarDecl(Var, [d], [])) == RequireParts(m, Name(v, ""));
  }

  /** `var v = require('m').p` becomes `import { p as v } from 'm'`, with the same comments. */
  lemma NamedRequireBecomesImport(k: VarKind, v: string, m: string, p: string, dc: seq<Comment>, cs: seq<Comment>)
    requires v != "" && p != "" && p != "default"
    ensures ConvertTop(VarDecl(k, [Declarator(Ident(v), Some(Member(Call(Ident("require"), [Str(m)]), Ident(p), false)), dc)], cs)) ==
      [Import([ImportSpec(NamedSpec, p, v)], m, DeclaratorComments(cs, true, true, Declarator(Ident(v), Some(Member(Call(Ident("require"), [Str(m)]), Ident(p), false)), dc)))]
  {
    var d := Declarator(Ident(v), Some(Member(Call(Ident("require"), [Str(m)]), Ident(p), false)), dc);
    OneDeclaratorConverts(k, d, cs);
    assert GetPropsFromRequire(VarDecl(Var, [d], [])) == RequireParts(m, Name(v, p));
  }

  // ---------------------------------------------------------------- comments when splitting a declaration

  /** A `require` declarator that is not the called form `require('y')(...)`. */
  predicate Simple(d: Declarator) {
    !IsCalledForm(VarDecl(Var, [d], []))
  }

  lemma PiecesSimple(s: Stmt, ms: seq<Declarator>, n: nat, all: bool)
    requires s.VarDecl? && n <= |ms|
    requires forall k :: 0 <= k < n ==> Simple(ms[k])
    ensures |Pieces(s, ms, n, all)| == n
    ensures forall k :: 0 <= k < n ==>
      Pieces(s, ms, n, all)[k] == ConvertRequire(VarDecl(Var, [ms[k]], []), DeclaratorComments(s.comments, k == 0, all && k == |ms| - 1, ms[k]))
  {
    PiecesLength(s, ms, n, all);
    forall k | 0 <= k < n
      ensures Pieces(s, ms, n, all)[k] == ConvertRequire(VarDecl(Var, [ms[k]], []), DeclaratorComments(s.comments, k == 0, all && k == |ms| - 1, ms[k]))
    {
      PieceAt(s, ms, n, all, k);
    }
  }

  lemma {:induction false} PiecesLength(s: Stmt, ms: seq<Declarator>, n: nat, all: bool)
    requires s.VarDecl? && n <= |ms|
    requires forall k :: 0 <= k < n ==> Simple(ms[k])
    ensures |Pieces(s, ms, n, all)| == n
  {
    if n > 0 {
      PiecesLength(s, ms, n - 1, all);
      assert Simple(ms[n - 1]);
    }
  }

  /** The `k`-th statement of the first `n` pieces, all of them simple, is the import of the `k`-th match. */
  lemma {:induction false} PieceAt(s: Stmt, ms: seq<Declarator>, n: nat, all: bool, k: nat)
    requires s.VarDecl? && k < n <= |ms|
    requires forall j :: 0 <= j < n ==> Simple(ms[j])
    ensures |Pieces(s, ms, n, all)| == n
    ensures Pieces(s, ms, n, all)[k] == ConvertRequire(VarDecl(Var, [ms[k]], []), DeclaratorComments(s.comments, k == 0, all && k == |ms| - 1, ms[k]))
  {
    PiecesLength(s, ms, n, all);
    PiecesLength(s, ms, n - 1, all);
    if k < n - 1 {
      PieceAt(s, ms, n - 1, all, k);
    } else {
      assert Simple(ms[k]);
    }
  }

  /**
   * Splitting a declaration keeps its comments: each import carries its
   * declarator's comments and the first one also the declaration's leading
   * comments; the trailing ones go to the last import when every declarator was
   * a `require`, and otherwise stay on the shrunk declaration, which comes last.
   */
  lemma SplitKeepsComments(s: Stmt)
    requires s.VarDecl? && Matches(s.decls) != []
    requires forall k :: 0 <= k < |Matches(s.decls)| ==> Simple(Matches(s.decls)[k])
    ensures var r, ms := ReplacedDeclaration(s), Matches(s.decls);
      |r| == |ms| + (if Rest(s.decls) == [] then 0 else 1) &&
      (forall k :: 0 <= k < |ms| ==> r[k].Import? && forall c :: c in ms[k].comments ==> c in r[k].comments) &&
      (forall c :: c in s.comments && c.leading ==> c in r[0].comments) &&
      (Rest(s.decls) == [] ==> forall c :: c in s.comments && c.trailing ==> c in r[|r| - 1].comments) &&
      (Rest(s.decls) != [] ==> r[|r| - 1] == VarDecl(s.kind, Rest(s.decls), s.comments))
  {
    var ms, all := Matches(s.decls), Rest(s.decls) == [];
    PiecesSimple(s, ms, |ms|, all);
  }

  // ---------------------------------------------------------------- no top-level require is left

  /** Neither `require(...);` nor a declaration with a `require` declarator. */
  predicate RequireFree(t: Stmt) {
    !IsRequireStatement(t) && !(t.VarDecl? && Matches(t.decls) != [])
  }

  /** An import, or a declaration without `require` declarators. */
  predicate Settled(t: Stmt) {
    t.Import? || (t.VarDecl? && Matches(t.decls) == [])
  }

  lemma {:induction false} RestHasNoMatches(ds: seq<Declarator>)
    ensures Matches(Rest(ds)) == []
  {
    if ds != [] {
      RestHasNoMatches(ds[1..]);
      assert Rest(ds) == (if IsRequireDecl(ds[0]) then [] else [ds[0]]) + Rest(ds[1..]);
      if IsRequireDecl(ds[0]) {
        assert Rest(ds) == Rest(ds[1..]);
      } else {
        var rs := [ds[0]] + Rest(ds[1..]);
        assert Rest(ds) == rs;
        assert rs[0] == ds[0] && rs[1..] == Rest(ds[1..]);
        assert Matches(rs) == Matches(Rest(ds[1..]));
      }
    }
  }

  /** The call a factory import feeds is not a `require` call: a factory name is never `require`. */
  lemma FactoryCallIsNoRequire(d: Declarator, cs: seq<Comment>)
    requires d.init.Some? && d.init.value.Call?
    ensures Matches(CreateDeclaredCallExpression(d, cs).decls) == []
  {
    var f := FactoryName(d.id);
    assert f[|f| - 1] == 'y';
    var t := CreateDeclaredCallExpression(d, cs);
    var call := Call(Ident(f), d.init.value.args);
    assert t.decls == [Declarator(d.id, Some(call), [])];
    assert !IsRequireCall(call, Babel) && !call.Member? && !call.callee.Call?;
    assert !IsRequireDecl(t.decls[0]);
    assert t.decls[1..] == [];
  }

  lemma {:induction false} PiecesSettled(s: Stmt, ms: seq<Declarator>, n: nat, all: bool)
    requires s.VarDecl? && n <= |ms|
    ensures forall t :: t in Pieces(s, ms, n, all) ==> Settled(t)
    decreases n
  {
    if n > 0 {
      PiecesSettled(s, ms, n - 1, all);
      PiecesSettledStep(s, ms, n, all);
    }
  }

  lemma PiecesSettledStep(s: Stmt, ms: seq<Declarator>, n: nat, all: bool)
    requires s.VarDecl? && 0 < n <= |ms|
    requires forall t :: t in Pieces(s, ms, n - 1, all) ==> Settled(t)
    ensures forall t :: t in Pieces(s, ms, n, all) ==> Settled(t)
  {
    PieceSettled(s, ms, n - 1, all);
    PiecesLast(s, ms, n, all);
    AllSettledAppend(Pieces(s, ms, n - 1, all), Piece(s, ms, n - 1, all));
  }

  lemma AllSettledAppend(xs: seq<Stmt>, ys: seq<Stmt>)
    requires forall t :: t in xs ==> Settled(t)
    requires forall t :: t in ys ==> Settled(t)
    ensures forall t :: t in xs + ys ==> Settled(t)
  {
  }

  lemma PiecesLast(s: Stmt, ms: seq<Declarator>, n: nat, all: bool)
    requires s.VarDecl? && 0 < n <= |ms|
    ensures Pieces(s, ms, n, all) == Pieces(s, ms, n - 1, all) + Piece(s, ms, n - 1, all)
  {
  }

  /** What one `require` declarator becomes is settled: an import, and for the called form a call declaration. */
  lemma PieceSettled(s: Stmt, ms: seq<Declarator>, k: nat, all: bool)
    requires s.VarDecl? && k < |ms|
    ensures forall t :: t in Piece(s, ms, k, all) ==> Settled(t)
  {
    var d := ms[k];
    var ast := VarDecl(Var, [d], []);
    var cs := DeclaratorComments(s.comments, k == 0, all && k == |ms| - 1, d);
    if IsCalledForm(ast) {
      FactoryCallIsNoRequire(d, cs);
    }
  }

  lemma ReplacedSettled(s: Stmt)
    requires s.VarDecl?
    ensures forall t :: t in ReplacedDeclaration(s) ==> Settled(t)
  {
    var ms := Matches(s.decls);
    PiecesSettled(s, ms, |ms|, Rest(s.decls) == []);
    RestHasNoMatches(s.decls);
  }

  /** The shorthand rewrite keeps the outermost form of every expression, and leaves leaves alone. */
  lemma ShorthandKeepsShape(e: Expr)
    ensures var m := MapE(e, ObjectRules());
      (m.Call? <==> e.Call?) && (m.Member? <==> e.Member?) &&
      (e.Ident? || IsLiteral(e) ==> m == e) && (!e.Ident? ==> !m.Ident?) && (IsLiteral(m) ==> IsLiteral(e)) &&
      (e.Call? ==> m.callee == MapE(e.callee, ObjectRules()) && m.args == MapEs(e.args, ObjectRules())) &&
      (e.Member? ==> m.obj == MapE(e.obj, ObjectRules()))
  {
  }

  lemma ShorthandKeepsRequireCall(e: Expr)
    ensures IsRequireCall(MapE(e, ObjectRules()), Babel) ==> IsRequireCall(e, Babel)
  {
    ShorthandKeepsShape(e);
    if e.Call? {
      ShorthandKeepsShape(e.callee);
      if |e.args| > 0 {
        assert MapEs(e.args, ObjectRules())[0] == MapE(e.args[0], ObjectRules());
        ShorthandKeepsShape(e.args[0]);
      }
    }
  }

  lemma ShorthandKeepsOtherDeclarators(d: Declarator)
    requires !IsRequireDecl(d)
    ensures !IsRequireDecl(MapD(d, ObjectRules()))
  {
    if d.init.Some? {
      var e := d.init.value;
      ShorthandKeepsShape(e);
      ShorthandKeepsRequireCall(e);
      if e.Member? {
        ShorthandKeepsRequireCall(e.obj);
      }
      if e.Call? {
        ShorthandKeepsRequireCall(e.callee);
      }
    }
  }

  lemma {:induction false} ShorthandKeepsNoMatches(ds: seq<Declarator>)
    requires Matches(ds) == []
    ensures Matches(MapDs(ds, ObjectRules())) == []
  {
    if ds != [] {
      assert !IsRequireDecl(ds[0]);
      ShorthandKeepsOtherDeclarators(ds[0]);
      ShorthandKeepsNoMatches(ds[1..]);
    }
  }

  lemma ConvertObjectRequiresFree(t: Stmt)
    requires Settled(t)
    ensures forall u :: u in ConvertObjectRequires(t) ==> RequireFree(u)
  {
    if InitsObject(t) {
      ImageDs(t.decls, PickRequireProp, (u: Stmt) => u.Import?);
      ShorthandKeepsNoMatches(t.decls);
    }
  }

  lemma {:induction false} ConvertObjectRequiresAllFree(ts: seq<Stmt>)
    requires forall t :: t in ts ==> Settled(t)
    ensures forall u :: u in ConvertObjectRequiresAll(ts) ==> RequireFree(u)
  {
    if ts != [] {
      ConvertObjectRequiresFree(ts[0]);
      ConvertObjectRequiresAllFree(ts[1..]);
    }
  }

  /** After the pass no top-level `require(...);` and no top-level `require` declarator is left. */
  lemma {:induction false} ConvertLeavesNoTopLevelRequire(ss: seq<Stmt>)
    ensures forall t :: t in ConvertAll(ss) ==> RequireFree(t)
    decreases |ss|
  {
    if ss != [] {
      ConvertLeavesNoTopLevelRequire(ss[..|ss| - 1]);
      var s := ss[|ss| - 1];
      if !IsRequireStatement(s) && s.VarDecl? {
        ReplacedSettled(s);
        ConvertObjectRequiresAllFree(ReplacedDeclaration(s));
      }
    }
  }

  // ---------------------------------------------------------------- statements are converted one by one

  lemma {:induction false} ConvertAllAppend(a: seq<Stmt>, b: seq<Stmt>)
    ensures ConvertAll(a + b) == ConvertAll(a) + ConvertAll(b)
    decreases |b|
  {
    if b == [] {
      assert a + b == a;
      assert ConvertAll(a) + [] == ConvertAll(a);
    } else {
      var b0, x, ab := b[..|b| - 1], b[|b| - 1], a + b;
      assert ab[..|ab| - 1] == a + b0;
      assert ab[|ab| - 1] == x;
      ConvertAllAppend(a, b0);
      ConvertAllLast(ab);
      ConvertAllLast(b);
      AppendAssoc(ConvertAll(a), ConvertAll(b0), ConvertTop(x));
    }
  }

  lemma ConvertAllLast(ss: seq<Stmt>)
    requires ss != []
    ensures ConvertAll(ss) == ConvertAll(ss[..|ss| - 1]) + ConvertTop(ss[|ss| - 1])
  {
  }

  /** Neither `require(...);` nor a declaration the pass would touch. */
  predicate Untouched(s: Stmt) {
    !IsRequireStatement(s) && !(s.VarDecl? && (Matches(s.decls) != [] || InitsObject(s)))
  }

  /** A body without anything to convert comes out as it went in. */
  lemma {:induction false} ConvertKeepsUntouched(ss: seq<Stmt>)
    requires forall i :: 0 <= i < |ss| ==> Untouched(ss[i])
    ensures ConvertAll(ss) == ss
    decreases |ss|
  {
    if ss != [] {
      var init := ss[..|ss| - 1];
      ConvertKeepsUntouched(init);
      var s := ss[|ss| - 1];
      UntouchedTop(s);
      ConvertAllLast(ss);
      assert init + [s] == ss;
    }
  }

  lemma UntouchedTop(s: Stmt)
    requires Untouched(s)
    ensures ConvertTop(s) == [s]
  {
    if s.VarDecl? {
      assert ReplacedDeclaration(s) == [s];
      assert ConvertObjectRequiresAll([s]) == ConvertObjectRequires(s) + ConvertObjectRequiresAll([]);
    }
  }

  // ---------------------------------------------------------------- object properties

  /** `k: require('m')` with one literal argument, or `k: <literal or identifier>`, under an identifier key. */
  predicate FlatProp(p: Prop) {
    p.key.Ident? &&
    ((IsRequireProp(p) && |p.value.args| == 1 && IsLiteral(p.value.args[0])) || IsLiteral(p.value) || p.value.Ident?)
  }

  /** The imports for the `require` properties, in order, each binding the key to the module. */
  function RequirePropImports(ps: seq<Prop>): seq<Stmt> {
    if ps == [] then []
    else
      (if IsRequireProp(ps[0]) && |ps[0].value.args| > 0
       then [CreateImportStatement(LiteralValue(ps[0].value.args[0]), Name(NameOf(ps[0].key), ""), ps[0].comments)]
       else []) + RequirePropImports(ps[1..])
  }

  lemma {:induction false} FlatPropsCollect(ps: seq<Prop>)
    requires forall i :: 0 <= i < |ps| ==> FlatProp(ps[i])
    ensures CollPs(ps, PickRequireProp) == RequirePropImports(ps)
    ensures MapPs(ps, ObjectRules()) == ps
  {
    if ps != [] {
      FlatPropsCollect(ps[1..]);
      FlatPropCollect(ps[0]);
      assert [ps[0]] + ps[1..] == ps;
    }
  }

  /** One flat property: what it gives to the collection and that the rewrite keeps it. */
  lemma FlatPropCollect(p: Prop)
    requires FlatProp(p)
    ensures CollP(p, PickRequireProp) == PickRequireProp(NP(p))
    ensures PickRequireProp(NP(p)) == RequirePropImports([p])
    ensures MapP(p, ObjectRules()) == p
  {
    ShorthandKeepsShape(p.key);
    ShorthandKeepsShape(p.value);
    if p.value.Call? {
      FlatCallCollect(p.value);
    }
    assert CollE(p.key, PickRequireProp) == [];
    assert CollE(p.value, PickRequireProp) == [];
    assert [p][1..] == [];
  }

  /** `require(<literal>)`: nothing below it is collected or rewritten. */
  lemma FlatCallCollect(e: Expr)
    requires e.Call? && |e.args| == 1 && IsLiteral(e.args[0]) && IsIdent(e.callee, "require")
    ensures CollE(e, PickRequireProp) == [] && MapE(e, ObjectRules()) == e
  {
    var a := e.args[0];
    ShorthandKeepsShape(e);
    ShorthandKeepsShape(e.callee);
    ShorthandKeepsShape(a);
    assert e.args == [a];
    assert MapEs(e.args, ObjectRules()) == [a];
    assert CollE(e.callee, PickRequireProp) == [];
    assert CollE(a, PickRequireProp) == [];
    assert CollEs(e.args, PickRequireProp) == CollE(a, PickRequireProp) + CollEs([a][1..], PickRequireProp);
    assert KidsCollE(e, PickRequireProp) == [];
  }

  /**
   * `var x = { a: require('m'), b: 1 }` becomes the imports for the `require`
   * properties, in order and with the properties' comments, followed by the
   * declaration with each of those properties turned into its shorthand.
   */
  lemma ObjectRequiresBecomeImports(k: VarKind, x: string, ps: seq<Prop>, dc: seq<Comment>, cs: seq<Comment>)
    requires forall i :: 0 <= i < |ps| ==> FlatProp(ps[i])
    ensures ConvertObjectRequires(VarDecl(k, [Declarator(Ident(x), Some(Object(ps)), dc)], cs)) ==
      RequirePropImports(ps) + [VarDecl(k, [Declarator(Ident(x), Some(Object(ShorthandProps(ps))), dc)], cs)]
  {
    var d := Declarator(Ident(x), Some(Object(ps)), dc);
    var t := VarDecl(k, [d], cs);
    var d' := Declarator(Ident(x), Some(Object(ShorthandProps(ps))), dc);
    assert InitsObject(t);
    assert ConvertObjectRequires(t) == CollDs([d], PickRequireProp) + [KidsS(t, ObjectRules())];
    assert KidsS(t, ObjectRules()) == VarDecl(k, MapDs([d], ObjectRules()), cs);
    ObjectDeclaratorCollects(d, ps);
    assert CollDs([d], PickRequireProp) == RequirePropImports(ps) by {
      assert [d][1..] == [];
      assert CollDs([d], PickRequireProp) == CollD(d, PickRequireProp) + CollDs([], PickRequireProp);
    }
    ObjectDeclaratorMaps(d, ps);
    assert MapDs([d], ObjectRules()) == [d'] by {
      assert [d][1..] == [];
      assert MapDs([d], ObjectRules()) == [MapD(d, ObjectRules())] + MapDs([], ObjectRules());
    }
  }

  lemma ObjectDeclaratorCollects(d: Declarator, ps: seq<Prop>)
    requires d.id.Ident? && d.init == Some(Object(ps))
    requires forall i :: 0 <= i < |ps| ==> FlatProp(ps[i])
    ensures CollD(d, PickRequireProp) == RequirePropImports(ps)
  {
    FlatPropsCollect(ps);
    assert CollE(d.id, PickRequireProp) == [];
    assert KidsCollE(Object(ps), PickRequireProp) == CollPs(ps, PickRequireProp);
    assert CollE(Object(ps), PickRequireProp) == CollPs(ps, PickRequireProp);
    assert CollOpt(d.init, PickRequireProp) == CollPs(ps, PickRequireProp);
  }

  lemma ObjectDeclaratorMaps(d: Declarator, ps: seq<Prop>)
    requires d.id.Ident? && d.init == Some(Object(ps))
    requires forall i :: 0 <= i < |ps| ==> FlatProp(ps[i])
    ensures MapD(d, ObjectRules()) == Declarator(d.id, Some(Object(ShorthandProps(ps))), d.comments)
  {
    var r := ObjectRules();
    FlatPropsCollect(ps);
    assert MapE(d.id, r) == d.id;
    assert KidsE(Object(ps), r) == Object(MapPs(ps, r));
    assert MapE(Object(ps), r) == ShorthandRequires(Object(ps));
    assert MapOpt(d.init, r) == Some(Object(ShorthandProps(ps)));
  }

  // ---------------------------------------------------------------- hoisting

  predicate NoRequireStatement(n: Node) {
    !(n.NS? && IsRequireStatement(n.s))
  }

  predicate NoRequireDeclaration(n: Node) {
    !(n.NS? && n.s.VarDecl? && Matches(n.s.decls) != [])
  }

  lemma StatementHoistEstablishes()
    ensures Establishes(StatementHoistRules(), NoRequireStatement)
  {
    var r := StatementHoistRules();
    var v := Violations(NoRequireStatement);
    forall e: Expr | KidsCollE(e, v) == []
      ensures CollE(r.fe(e), v) == []
    {
      assert r.fe(e) == e;
    }
    forall s: Stmt | KidsCollS(s, v) == []
      ensures CollSs(r.fs(s, false), v) == []
    {
      if IsRequireStatement(s) {
        assert r.fs(s, false) == [];
      } else {
        assert r.fs(s, false) == [s];
        assert NoRequireStatement(NS(s));
        assert v(NS(s)) == [];
        assert CollS(s, v) == [];
        assert CollSs([s], v) == CollS(s, v) + CollSs([s][1..], v);
      }
    }
  }

  lemma {:induction false} RestKeepsClean(ds: seq<Declarator>, v: Node -> seq<Node>)
    requires CollDs(ds, v) == []
    ensures CollDs(Rest(ds), v) == []
  {
    if ds != [] {
      assert CollDs(ds, v) == CollD(ds[0], v) + CollDs(ds[1..], v);
      RestKeepsClean(ds[1..], v);
      if IsRequireDecl(ds[0]) {
        assert Rest(ds) == Rest(ds[1..]);
      } else {
        var rs := [ds[0]] + Rest(ds[1..]);
        assert Rest(ds) == rs;
        assert rs[0] == ds[0] && rs[1..] == Rest(ds[1..]);
        assert CollDs(rs, v) == CollD(ds[0], v) + CollDs(Rest(ds[1..]), v);
      }
    }
  }

  lemma DeclaratorHoistEstablishes()
    ensures Establishes(DeclaratorHoistRules(), NoRequireDeclaration)
  {
    var r := DeclaratorHoistRules();
    var v := Violations(NoRequireDeclaration);
    forall e: Expr | KidsCollE(e, v) == []
      ensures CollE(r.fe(e), v) == []
    {
      assert r.fe(e) == e;
      assert NoRequireDeclaration(NE(e));
      assert v(NE(e)) == [];
    }
    forall s: Stmt | KidsCollS(s, v) == []
      ensures CollSs(r.fs(s, false), v) == []
    {
      if s.VarDecl? && Matches(s.decls) != [] {
        if Rest(s.decls) != [] {
          var t := VarDecl(s.kind, Rest(s.decls), s.comments);
          assert r.fs(s, false) == [t];
          RestHasNoMatches(s.decls);
          RestKeepsClean(s.decls, v);
          assert NoRequireDeclaration(NS(t));
        assert v(NS(t)) == [];
          assert CollS(t, v) == [];
          assert CollSs([t], v) == CollS(t, v) + CollSs([t][1..], v);
        } else {
          assert r.fs(s, false) == [];
        }
      } else {
        assert r.fs(s, false) == [s];
        assert NoRequireDeclaration(NS(s));
        assert v(NS(s)) == [];
        assert CollS(s, v) == [];
        assert CollSs([s], v) == CollS(s, v) + CollSs([s][1..], v);
      }
    }
  }

  /**
   * Loop one lays the body out as: the top-level statements up to and including
   * the cursor's, the hoisted `require(...)` statements in document order, then
   * the remaining top-level statements; every top-level statement stays, with only
   * its nested `require(...)` statements taken out.
   */
  lemma StatementHoistLayout(body: seq<Stmt>, idx: int)
    requires -1 <= idx < |body|
    ensures var l := HoistedStatements(NestedColl(body, PickRequireStatement));
      var fin := AfterStatementHoist(body, idx);
      (forall i :: 0 <= i <= idx ==> fin[i] == KidsS(body[i], StatementHoistRules())) &&
      (forall i :: 0 <= i < |l| ==> fin[idx + 1 + i] == l[i]) &&
      (forall i :: idx + 1 <= i < |body| ==> fin[i + |l|] == KidsS(body[i], StatementHoistRules()))
  {
    HoistRulesKeepTop();
    StepLayout(body, idx, StatementHoistRules(), HoistedStatements(NestedColl(body, PickRequireStatement)));
  }

  /**
   * Loop two does the same with the `require` declarators below the top level,
   * each becoming a `const` declaration of its own; in `Hoisted` its cursor starts
   * after the statements loop one inserted.
   */
  lemma DeclaratorHoistLayout(body: seq<Stmt>, idx: int)
    requires -1 <= idx < |body|
    ensures var l := HoistedDeclarations(NestedColl(body, PickRequireDeclarators));
      var fin := AfterDeclaratorHoist(body, idx);
      (forall i :: 0 <= i <= idx ==> fin[i] == KidsS(body[i], DeclaratorHoistRules())) &&
      (forall i :: 0 <= i < |l| ==> fin[idx + 1 + i] == l[i]) &&
      (forall i :: idx + 1 <= i < |body| ==> fin[i + |l|] == KidsS(body[i], DeclaratorHoistRules()))
  {
    HoistRulesKeepTop();
    StepLayout(body, idx, DeclaratorHoistRules(), HoistedDeclarations(NestedColl(body, PickRequireDeclarators)));
  }

  /** One hoisting loop: the top-level statements, each rewritten below the top, with `l` inserted after index `idx`. */
  lemma StepLayout(body: seq<Stmt>, idx: int, r: Rules, l: seq<Stmt>)
    requires -1 <= idx < |body|
    requires forall s :: r.fs(s, true) == [s]
    ensures |MapSs(body, true, r)| == |body|
    ensures var fin := InsertAll(MapSs(body, true, r), idx, l);
      (forall i :: 0 <= i <= idx ==> fin[i] == KidsS(body[i], r)) &&
      (forall i :: 0 <= i < |l| ==> fin[idx + 1 + i] == l[i]) &&
      (forall i :: idx + 1 <= i < |body| ==> fin[i + |l|] == KidsS(body[i], r))
  {
    MapSsTop(body, r);
    InsertAllLayout(MapSs(body, true, r), idx, l);
  }

  lemma {:induction false} TopStatementsClean(ss: seq<Stmt>, r: Rules, q: Node -> bool)
    requires Establishes(r, q) && forall s :: r.fs(s, true) == [s]
    ensures |MapSs(ss, true, r)| == |ss|
    ensures forall i :: 0 <= i < |MapSs(ss, true, r)| ==> KidsCollS(MapSs(ss, true, r)[i], Violations(q)) == []
  {
    MapSsTop(ss, r);
    forall i | 0 <= i < |ss|
      ensures KidsCollS(MapSs(ss, true, r)[i], Violations(q)) == []
    {
      EstablishKidsS(ss[i], r, q);
    }
  }

  /** Nothing below the top level of `t` fails `q`. */
  function CleanBelow(q: Node -> bool): Stmt -> bool {
    t => KidsCollS(t, Violations(q)) == []
  }

  /** After the first hoisting loop no `require(...);` is left below the top level. */
  lemma StatementHoistRemovesNested(body: seq<Stmt>)
    ensures var body1 := AfterStatementHoist(body, FindLastImportIndex(body, Babel));
      forall i :: 0 <= i < |body1| ==> KidsCollS(body1[i], Violations(NoRequireStatement)) == []
  {
    var idx := FindLastImportIndex(body, Babel);
    var r := StatementHoistRules();
    var es := NestedColl(body, PickRequireStatement);
    var l1 := HoistedStatements(es);
    StatementHoistEstablishes();
    HoistRulesKeepTop();
    TopStatementsClean(body, r, NoRequireStatement);
    forall i | 0 <= i < |l1|
      ensures CleanBelow(NoRequireStatement)(l1[i])
    {
      EstablishE(es[i], r, NoRequireStatement);
    }
    InsertAllKeeps(MapSs(body, true, r), idx, l1, CleanBelow(NoRequireStatement));
  }

  /** After the second hoisting loop no declaration with a `require` declarator is left below the top level. */
  lemma DeclaratorHoistRemovesNested(body: seq<Stmt>, idx: int)
    requires -1 <= idx < |body|
    ensures var fin := AfterDeclaratorHoist(body, idx);
      forall i :: 0 <= i < |fin| ==> KidsCollS(fin[i], Violations(NoRequireDeclaration)) == []
  {
    var r := DeclaratorHoistRules();
    var v := Violations(NoRequireDeclaration);
    var ds := NestedColl(body, PickRequireDeclarators);
    var l2 := HoistedDeclarations(ds);
    DeclaratorHoistEstablishes();
    HoistRulesKeepTop();
    TopStatementsClean(body, r, NoRequireDeclaration);
    forall i | 0 <= i < |l2|
      ensures CleanBelow(NoRequireDeclaration)(l2[i])
    {
      EstablishD(ds[i], r, NoRequireDeclaration);
      assert CollDs([MapD(ds[i], r)], v) == CollD(MapD(ds[i], r), v) + CollDs([MapD(ds[i], r)][1..], v);
    }
    InsertAllKeeps(MapSs(body, true, r), idx, l2, CleanBelow(NoRequireDeclaration));
  }
}
