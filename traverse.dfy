/**
 * Generic traversals of the syntax tree.
 *
 * `Map*` is the bottom-up rewrite that models `root.find(...).replaceWith(...)`
 * and `.remove()` at any depth: every node's parts are rewritten first, then the
 * rule for the node itself decides what takes its place.  `Coll*` lists, in document
 * (pre-)order, what a picker reports for every node; it models `root.find(...)`
 * followed by reading the matches in order.
 */
module Traverse {
  import opened Ast

  datatype Node = NE(e: Expr) | NP(p: Prop) | ND(d: Declarator) | NM(m: ClassMember) | NS(s: Stmt)

  /**
   * `fe` replaces an expression whose parts are already rewritten; `fs` gives the
   * statements that replace a statement of some statement list (empty: removed);
   * its flag says whether that list is the program body.
   */
  datatype Rules = Rules(fe: Expr -> Expr, fs: (Stmt, bool) -> seq<Stmt>)

  // ---------------------------------------------------------------- rewrite

  function MapE(e: Expr, r: Rules): Expr
    decreases e, 1
  {
    r.fe(KidsE(e, r))
  }

  /** `e` with its sub-expressions and nested statement lists rewritten. */
  function KidsE(e: Expr, r: Rules): Expr
    decreases e, 0
  {
    match e
    case Template(q, es) => Template(q, MapEs(es, r))
    case Call(c, a) => Call(MapE(c, r), MapEs(a, r))
    case Member(o, p, comp) => Member(MapE(o, r), MapE(p, r), comp)
    case Assign(op, lhs, rhs) => Assign(op, MapE(lhs, r), MapE(rhs, r))
    case Object(ps) => Object(MapPs(ps, r))
    case ObjPattern(ps) => ObjPattern(MapPs(ps, r))
    case Array(es) => Array(MapEs(es, r))
    case Await(a) => Await(MapE(a, r))
    case Func(ps, b, arrow, async) => Func(MapEs(ps, r), MapSs(b, false, r), arrow, async)
    case OtherExpr(t, cs) => OtherExpr(t, MapEs(cs, r))
    case _ => e
  }

  function MapEs(es: seq<Expr>, r: Rules): (out: seq<Expr>)
    decreases es
    ensures |out| == |es|
  {
    if es == [] then [] else [MapE(es[0], r)] + MapEs(es[1..], r)
  }

  function MapOpt(o: Option<Expr>, r: Rules): Option<Expr>
    decreases o
  {
    match o
    case None => None
    case Some(e) => Some(MapE(e, r))
  }

  function MapP(p: Prop, r: Rules): Prop
    decreases p
  {
    Prop(MapE(p.key, r), MapE(p.value, r), p.computed, p.shorthand, p.comments)
  }

  function MapPs(ps: seq<Prop>, r: Rules): (out: seq<Prop>)
    decreases ps
    ensures |out| == |ps|
  {
    if ps == [] then [] else [MapP(ps[0], r)] + MapPs(ps[1..], r)
  }

  function MapD(d: Declarator, r: Rules): Declarator
    decreases d
  {
    Declarator(MapE(d.id, r), MapOpt(d.init, r), d.comments)
  }

  function MapDs(ds: seq<Declarator>, r: Rules): (out: seq<Declarator>)
    decreases ds
    ensures |out| == |ds|
  {
    if ds == [] then [] else [MapD(ds[0], r)] + MapDs(ds[1..], r)
  }

  function MapM(m: ClassMember, r: Rules): ClassMember
    decreases m
  {
    match m
    case MethodDef(k, st, key, ps, b, decs) => MethodDef(k, st, key, MapEs(ps, r), MapSs(b, false, r), MapEs(decs, r))
    case FieldDef(key, v, st, decs, t) => FieldDef(key, MapOpt(v, r), st, MapEs(decs, r), t)
  }

  function MapMs(ms: seq<ClassMember>, r: Rules): (out: seq<ClassMember>)
    decreases ms
    ensures |out| == |ms|
  {
    if ms == [] then [] else [MapM(ms[0], r)] + MapMs(ms[1..], r)
  }

  /** The statements that take the place of `s` in a list (`top`: the program body). */
  function MapS(s: Stmt, top: bool, r: Rules): seq<Stmt>
    decreases s, 1
  {
    r.fs(KidsS(s, r), top)
  }

  /**
   * `s` with its parts rewritten.  The declaration under `export` is not in a
   * statement list, so only its parts are rewritten.
   */
  function KidsS(s: Stmt, r: Rules): Stmt
    decreases s, 0
  {
    match s
    case Import(_, _, _) => s
    case VarDecl(k, ds, c) => VarDecl(k, MapDs(ds, r), c)
    case ExprStmt(e, c) => ExprStmt(MapE(e, r), c)
    case ExportDecl(d, c) => ExportDecl(KidsS(d, r), c)
    case ExportList(_, _) => s
    case ExportDefault(e, c) => ExportDefault(MapE(e, r), c)
    case ClassStmt(id, sc, ms, decs, c) => ClassStmt(id, MapOpt(sc, r), MapMs(ms, r), MapEs(decs, r), c)
    case Block(b) => Block(MapSs(b, false, r))
    case FuncDecl(n, ps, b, c) => FuncDecl(n, MapEs(ps, r), MapSs(b, false, r), c)
    case Return(a) => Return(MapE(a, r))
    case OtherStmt(t, es, b) => OtherStmt(t, MapEs(es, r), MapSs(b, false, r))
  }

  function MapSs(ss: seq<Stmt>, top: bool, r: Rules): seq<Stmt>
    decreases ss
  {
    if ss == [] then [] else MapS(ss[0], top, r) + MapSs(ss[1..], top, r)
  }

  /** The rules that change nothing. */
  function Identity(): Rules {
    Rules(e => e, (s, top) => [s])
  }

  // ---------------------------------------------------------------- collect

  function CollE<T>(e: Expr, pick: Node -> seq<T>): seq<T>
    decreases e, 1
  {
    pick(NE(e)) + KidsCollE(e, pick)
  }

  /** What the picker reports for the proper descendants of `e`, in document order. */
  function KidsCollE<T>(e: Expr, pick: Node -> seq<T>): seq<T>
    decreases e, 0
  {
    match e
    case Template(_, es) => CollEs(es, pick)
    case Call(c, a) => CollE(c, pick) + CollEs(a, pick)
    case Member(o, p, _) => CollE(o, pick) + CollE(p, pick)
    case Assign(_, lhs, rhs) => CollE(lhs, pick) + CollE(rhs, pick)
    case Object(ps) => CollPs(ps, pick)
    case ObjPattern(ps) => CollPs(ps, pick)
    case Array(es) => CollEs(es, pick)
    case Await(a) => CollE(a, pick)
    case Func(ps, b, _, _) => CollEs(ps, pick) + CollSs(b, pick)
    case OtherExpr(_, cs) => CollEs(cs, pick)
    case _ => []
  }

  function CollEs<T>(es: seq<Expr>, pick: Node -> seq<T>): seq<T>
    decreases es
  {
    if es == [] then [] else CollE(es[0], pick) + CollEs(es[1..], pick)
  }

  function CollOpt<T>(o: Option<Expr>, pick: Node -> seq<T>): seq<T>
    decreases o
  {
    match o
    case None => []
    case Some(e) => CollE(e, pick)
  }

  function CollP<T>(p: Prop, pick: Node -> seq<T>): seq<T>
    decreases p
  {
    pick(NP(p)) + CollE(p.key, pick) + CollE(p.value, pick)
  }

  function CollPs<T>(ps: seq<Prop>, pick: Node -> seq<T>): seq<T>
    decreases ps
  {
    if ps == [] then [] else CollP(ps[0], pick) + CollPs(ps[1..], pick)
  }

  function CollD<T>(d: Declarator, pick: Node -> seq<T>): seq<T>
    decreases d
  {
    pick(ND(d)) + CollE(d.id, pick) + CollOpt(d.init, pick)
  }

  function CollDs<T>(ds: seq<Declarator>, pick: Node -> seq<T>): seq<T>
    decreases ds
  {
    if ds == [] then [] else CollD(ds[0], pick) + CollDs(ds[1..], pick)
  }

  function CollM<T>(m: ClassMember, pick: Node -> seq<T>): seq<T>
    decreases m
  {
    pick(NM(m)) +
    match m
    case MethodDef(_, _, _, ps, b, decs) => CollEs(decs, pick) + CollEs(ps, pick) + CollSs(b, pick)
    case FieldDef(_, v, _, decs, _) => CollEs(decs, pick) + CollOpt(v, pick)
  }

  function CollMs<T>(ms: seq<ClassMember>, pick: Node -> seq<T>): seq<T>
    decreases ms
  {
    if ms == [] then [] else CollM(ms[0], pick) + CollMs(ms[1..], pick)
  }

  function CollS<T>(s: Stmt, pick: Node -> seq<T>): seq<T>
    decreases s, 1
  {
    pick(NS(s)) + KidsCollS(s, pick)
  }

  /**
   * What the picker reports for the proper descendants of `s`, in document order.
   * Like the rewrite, it sees the declaration under `export` only through its parts.
   */
  function KidsCollS<T>(s: Stmt, pick: Node -> seq<T>): seq<T>
    decreases s, 0
  {
    match s
    case Import(_, _, _) => []
    case VarDecl(_, ds, _) => CollDs(ds, pick)
    case ExprStmt(e, _) => CollE(e, pick)
    case ExportDecl(d, _) => KidsCollS(d, pick)
    case ExportList(_, _) => []
    case ExportDefault(e, _) => CollE(e, pick)
    case ClassStmt(_, sc, ms, decs, _) => CollEs(decs, pick) + CollOpt(sc, pick) + CollMs(ms, pick)
    case Block(b) => CollSs(b, pick)
    case FuncDecl(_, ps, b, _) => CollEs(ps, pick) + CollSs(b, pick)
    case Return(a) => CollE(a, pick)
    case OtherStmt(_, es, b) => CollEs(es, pick) + CollSs(b, pick)
  }

  function CollSs<T>(ss: seq<Stmt>, pick: Node -> seq<T>): seq<T>
    decreases ss
  {
    if ss == [] then [] else CollS(ss[0], pick) + CollSs(ss[1..], pick)
  }

  /** The picker that reports every node failing `q`. */
  function Violations(q: Node -> bool): Node -> seq<Node> {
    n => if q(n) then [] else [n]
  }

  /** Every node of every statement in `ss`, at any depth, satisfies `q`. */
  predicate EverySs(q: Node -> bool, ss: seq<Stmt>) {
    CollSs(ss, Violations(q)) == []
  }

  // ---------------------------------------------------------------- list algebra

  lemma {:induction false} MapSsAppend(a: seq<Stmt>, b: seq<Stmt>, top: bool, r: Rules)
    ensures MapSs(a + b, top, r) == MapSs(a, top, r) + MapSs(b, top, r)
  {
    if a == [] {
      assert a + b == b;
    } else {
      assert (a + b)[0] == a[0];
      assert (a + b)[1..] == a[1..] + b;
      MapSsAppend(a[1..], b, top, r);
    }
  }

  lemma {:induction false} CollSsAppend<T>(a: seq<Stmt>, b: seq<Stmt>, pick: Node -> seq<T>)
    ensures CollSs(a + b, pick) == CollSs(a, pick) + CollSs(b, pick)
  {
    if a == [] {
      assert a + b == b;
    } else {
      assert (a + b)[0] == a[0];
      assert (a + b)[1..] == a[1..] + b;
      CollSsAppend(a[1..], b, pick);
    }
  }

  lemma EverySsAppend(q: Node -> bool, a: seq<Stmt>, b: seq<Stmt>)
    ensures EverySs(q, a + b) <==> EverySs(q, a) && EverySs(q, b)
  {
    CollSsAppend(a, b, Violations(q));
  }

  lemma {:induction false} MapEsAt(es: seq<Expr>, r: Rules)
    ensures forall i :: 0 <= i < |es| ==> MapEs(es, r)[i] == MapE(es[i], r)
  {
    if es != [] {
      MapEsAt(es[1..], r);
      forall i | 0 < i < |es|
        ensures MapEs(es, r)[i] == MapE(es[i], r)
      {
        assert es[1..][i - 1] == es[i];
      }
    }
  }

  lemma {:induction false} MapMsAt(ms: seq<ClassMember>, r: Rules)
    ensures forall i :: 0 <= i < |ms| ==> MapMs(ms, r)[i] == MapM(ms[i], r)
  {
    if ms != [] {
      MapMsAt(ms[1..], r);
      forall i | 0 < i < |ms|
        ensures MapMs(ms, r)[i] == MapM(ms[i], r)
      {
        assert ms[1..][i - 1] == ms[i];
      }
    }
  }

  /** Rules that keep every top-level statement map the program body one to one. */
  lemma {:induction false} MapSsTop(ss: seq<Stmt>, r: Rules)
    requires forall s :: r.fs(s, true) == [s]
    ensures |MapSs(ss, true, r)| == |ss|
    ensures forall i :: 0 <= i < |ss| ==> MapSs(ss, true, r)[i] == KidsS(ss[i], r)
  {
    if ss != [] {
      MapSsTop(ss[1..], r);
      assert MapS(ss[0], true, r) == [KidsS(ss[0], r)];
      forall i | 0 < i < |ss| ensures MapSs(ss, true, r)[i] == KidsS(ss[i], r) {
        assert ss[1..][i - 1] == ss[i];
      }
    }
  }

  /** Rules that put one statement in the place of each statement map that list one to one. */
  lemma {:induction false} MapSsOneToOne(ss: seq<Stmt>, top: bool, r: Rules, f: Stmt -> Stmt)
    requires forall s :: r.fs(s, top) == [f(s)]
    ensures |MapSs(ss, top, r)| == |ss|
    ensures forall i :: 0 <= i < |ss| ==> MapSs(ss, top, r)[i] == f(KidsS(ss[i], r))
  {
    if ss != [] {
      MapSsOneToOne(ss[1..], top, r, f);
      assert MapS(ss[0], top, r) == [f(KidsS(ss[0], r))];
      forall i | 0 < i < |ss| ensures MapSs(ss, top, r)[i] == f(KidsS(ss[i], r)) {
        assert ss[1..][i - 1] == ss[i];
      }
    }
  }

  /** A property that holds at every node of a list holds at each of its statements. */
  lemma {:induction false} EveryAt(q: Node -> bool, ss: seq<Stmt>, i: int)
    requires EverySs(q, ss) && 0 <= i < |ss|
    ensures q(NS(ss[i])) && CollS(ss[i], Violations(q)) == []
  {
    var v := Violations(q);
    CollSsAppend(ss[..i], ss[i..], v);
    assert ss == ss[..i] + ss[i..];
    assert CollSs(ss[i..], v) == CollS(ss[i], v) + CollSs(ss[i+1..], v) by {
      assert ss[i..][1..] == ss[i+1..];
    }
  }

  /** A node that satisfies `q` is not reported; nor is a leaf expression that does. */
  lemma QuietNode(q: Node -> bool, n: Node)
    requires q(n)
    ensures Violations(q)(n) == []
  {
  }

  lemma {:induction false} MemberClean(q: Node -> bool, o: Expr, p: Expr, computed: bool)
    requires q(NE(Member(o, p, computed)))
    requires CollE(o, Violations(q)) == [] && CollE(p, Violations(q)) == []
    ensures CollE(Member(o, p, computed), Violations(q)) == []
  {
    QuietNode(q, NE(Member(o, p, computed)));
  }

  lemma {:induction false} CallClean(q: Node -> bool, c: Expr, args: seq<Expr>)
    requires q(NE(Call(c, args)))
    requires CollE(c, Violations(q)) == [] && CollEs(args, Violations(q)) == []
    ensures CollE(Call(c, args), Violations(q)) == []
  {
    QuietNode(q, NE(Call(c, args)));
  }

  lemma {:induction false} AwaitClean(q: Node -> bool, a: Expr)
    requires q(NE(Await(a))) && CollE(a, Violations(q)) == []
    ensures CollE(Await(a), Violations(q)) == []
  {
    QuietNode(q, NE(Await(a)));
  }

  lemma {:induction false} ConsClean(q: Node -> bool, e: Expr, es: seq<Expr>)
    requires CollE(e, Violations(q)) == [] && CollEs(es, Violations(q)) == []
    ensures CollEs([e] + es, Violations(q)) == []
  {
    assert ([e] + es)[0] == e && ([e] + es)[1..] == es;
  }

  lemma LeafClean(q: Node -> bool, e: Expr)
    requires (e.Ident? || e.This? || e.Str? || e.Lit?) && q(NE(e))
    ensures Violations(q)(NE(e)) == [] && CollE(e, Violations(q)) == []
  {
  }

  lemma {:induction false} CollEsAt<T>(es: seq<Expr>, pick: Node -> seq<T>, i: int)
    requires CollEs(es, pick) == [] && 0 <= i < |es|
    ensures CollE(es[i], pick) == []
  {
    if i > 0 {
      CollEsAt(es[1..], pick, i - 1);
    }
  }

  // ---------------------------------------------------------------- rewrite establishes a property

  /**
   * The rules establish `q` below the top level: whatever a rule returns for a
   * node whose descendants all satisfy `q` satisfies `q` throughout, and `q` says
   * nothing about properties, declarators and class members.
   */
  ghost predicate Establishes(r: Rules, q: Node -> bool) {
    (forall e: Expr :: KidsCollE(e, Violations(q)) == [] ==> CollE(r.fe(e), Violations(q)) == []) &&
    (forall s: Stmt :: KidsCollS(s, Violations(q)) == [] ==> CollSs(r.fs(s, false), Violations(q)) == []) &&
    (forall p: Prop :: q(NP(p))) && (forall d: Declarator :: q(ND(d))) && (forall m: ClassMember :: q(NM(m)))
  }

  /** The statement rule establishes `q` in the program body too. */
  ghost predicate EstablishesAtTop(r: Rules, q: Node -> bool) {
    forall s: Stmt :: KidsCollS(s, Violations(q)) == [] ==> CollSs(r.fs(s, true), Violations(q)) == []
  }

  lemma {:induction false} EstablishE(e: Expr, r: Rules, q: Node -> bool)
    requires Establishes(r, q)
    ensures CollE(MapE(e, r), Violations(q)) == []
    decreases e, 1
  {
    EstablishKidsE(e, r, q);
  }

  lemma {:induction false} EstablishKidsE(e: Expr, r: Rules, q: Node -> bool)
    requires Establishes(r, q)
    ensures KidsCollE(KidsE(e, r), Violations(q)) == []
    decreases e, 0
  {
    match e
    case Template(_, es) => EstablishEs(es, r, q);
    case Call(c, a) => EstablishE(c, r, q); EstablishEs(a, r, q);
    case Member(o, p, _) => EstablishE(o, r, q); EstablishE(p, r, q);
    case Assign(_, lhs, rhs) => EstablishE(lhs, r, q); EstablishE(rhs, r, q);
    case Object(ps) => EstablishPs(ps, r, q);
    case ObjPattern(ps) => EstablishPs(ps, r, q);
    case Array(es) => EstablishEs(es, r, q);
    case Await(a) => EstablishE(a, r, q);
    case Func(ps, b, _, _) => EstablishEs(ps, r, q); EstablishSs(b, false, r, q);
    case OtherExpr(_, cs) => EstablishEs(cs, r, q);
    case _ =>
  }

  lemma {:induction false} EstablishEs(es: seq<Expr>, r: Rules, q: Node -> bool)
    requires Establishes(r, q)
    ensures CollEs(MapEs(es, r), Violations(q)) == []
    decreases es
  {
    if es != [] {
      EstablishE(es[0], r, q);
      EstablishEs(es[1..], r, q);
      var out := MapEs(es, r);
      assert out[0] == MapE(es[0], r) && out[1..] == MapEs(es[1..], r);
    }
  }

  lemma {:induction false} EstablishOpt(o: Option<Expr>, r: Rules, q: Node -> bool)
    requires Establishes(r, q)
    ensures CollOpt(MapOpt(o, r), Violations(q)) == []
    decreases o
  {
    if o.Some? {
      EstablishE(o.value, r, q);
    }
  }

  lemma {:induction false} EstablishP(p: Prop, r: Rules, q: Node -> bool)
    requires Establishes(r, q)
    ensures CollP(MapP(p, r), Violations(q)) == []
    decreases p
  {
    EstablishE(p.key, r, q);
    EstablishE(p.value, r, q);
    assert q(NP(MapP(p, r)));
  }

  lemma {:induction false} EstablishPs(ps: seq<Prop>, r: Rules, q: Node -> bool)
    requires Establishes(r, q)
    ensures CollPs(MapPs(ps, r), Violations(q)) == []
    decreases ps
  {
    if ps != [] {
      EstablishP(ps[0], r, q);
      EstablishPs(ps[1..], r, q);
      var out := MapPs(ps, r);
      assert out[0] == MapP(ps[0], r) && out[1..] == MapPs(ps[1..], r);
    }
  }

  lemma {:induction false} EstablishD(d: Declarator, r: Rules, q: Node -> bool)
    requires Establishes(r, q)
    ensures CollD(MapD(d, r), Violations(q)) == []
    decreases d
  {
    EstablishE(d.id, r, q);
    EstablishOpt(d.init, r, q);
    assert q(ND(MapD(d, r)));
  }

  lemma {:induction false} EstablishDs(ds: seq<Declarator>, r: Rules, q: Node -> bool)
    requires Establishes(r, q)
    ensures CollDs(MapDs(ds, r), Violations(q)) == []
    decreases ds
  {
    if ds != [] {
      EstablishD(ds[0], r, q);
      EstablishDs(ds[1..], r, q);
      var out := MapDs(ds, r);
      assert out[0] == MapD(ds[0], r) && out[1..] == MapDs(ds[1..], r);
    }
  }

  lemma {:induction false} EstablishM(m: ClassMember, r: Rules, q: Node -> bool)
    requires Establishes(r, q)
    ensures CollM(MapM(m, r), Violations(q)) == []
    decreases m
  {
    assert q(NM(MapM(m, r)));
    match m
    case MethodDef(_, _, _, ps, b, decs) =>
      EstablishEs(ps, r, q); EstablishSs(b, false, r, q); EstablishEs(decs, r, q);
    case FieldDef(_, v, _, decs, _) =>
      EstablishOpt(v, r, q); EstablishEs(decs, r, q);
  }

  lemma {:induction false} EstablishMs(ms: seq<ClassMember>, r: Rules, q: Node -> bool)
    requires Establishes(r, q)
    ensures CollMs(MapMs(ms, r), Violations(q)) == []
    decreases ms
  {
    if ms != [] {
      EstablishM(ms[0], r, q);
      EstablishMs(ms[1..], r, q);
      var out := MapMs(ms, r);
      assert out[0] == MapM(ms[0], r) && out[1..] == MapMs(ms[1..], r);
    }
  }

  lemma {:induction false} EstablishS(s: Stmt, top: bool, r: Rules, q: Node -> bool)
    requires Establishes(r, q) && (top ==> EstablishesAtTop(r, q))
    ensures CollSs(MapS(s, top, r), Violations(q)) == []
    decreases s, 1
  {
    EstablishKidsS(s, r, q);
  }

  lemma {:induction false} EstablishKidsS(s: Stmt, r: Rules, q: Node -> bool)
    requires Establishes(r, q)
    ensures KidsCollS(KidsS(s, r), Violations(q)) == []
    decreases s, 0
  {
    match s
    case Import(_, _, _) =>
    case VarDecl(_, ds, _) => EstablishDs(ds, r, q);
    case ExprStmt(e, _) => EstablishE(e, r, q);
    case ExportDecl(d, _) => EstablishKidsS(d, r, q);
    case ExportList(_, _) =>
    case ExportDefault(e, _) => EstablishE(e, r, q);
    case ClassStmt(_, sc, ms, decs, _) => EstablishOpt(sc, r, q); EstablishMs(ms, r, q); EstablishEs(decs, r, q);
    case Block(b) => EstablishSs(b, false, r, q);
    case FuncDecl(_, ps, b, _) => EstablishEs(ps, r, q); EstablishSs(b, false, r, q);
    case Return(a) => EstablishE(a, r, q);
    case OtherStmt(_, es, b) => EstablishEs(es, r, q); EstablishSs(b, false, r, q);
  }

  lemma {:induction false} EstablishSs(ss: seq<Stmt>, top: bool, r: Rules, q: Node -> bool)
    requires Establishes(r, q) && (top ==> EstablishesAtTop(r, q))
    ensures CollSs(MapSs(ss, top, r), Violations(q)) == []
    decreases ss
  {
    if ss != [] {
      EstablishS(ss[0], top, r, q);
      EstablishSs(ss[1..], top, r, q);
      CollSsAppend(MapS(ss[0], top, r), MapSs(ss[1..], top, r), Violations(q));
    }
  }

  // ---------------------------------------------------------------- rewrite that finds nothing to do

  /** The rules leave alone every node that satisfies `q`. */
  ghost predicate Fixes(r: Rules, q: Node -> bool) {
    (forall e: Expr :: q(NE(e)) ==> r.fe(e) == e) &&
    (forall s: Stmt, top: bool :: q(NS(s)) ==> r.fs(s, top) == [s])
  }

  lemma {:induction false} FixE(e: Expr, r: Rules, q: Node -> bool)
    requires Fixes(r, q) && CollE(e, Violations(q)) == []
    ensures MapE(e, r) == e
    decreases e, 1
  {
    FixKidsE(e, r, q);
    assert q(NE(e));
  }

  lemma {:induction false} FixKidsE(e: Expr, r: Rules, q: Node -> bool)
    requires Fixes(r, q) && KidsCollE(e, Violations(q)) == []
    ensures KidsE(e, r) == e
    decreases e, 0
  {
    match e
    case Template(_, es) => FixEs(es, r, q);
    case Call(c, a) => FixE(c, r, q); FixEs(a, r, q);
    case Member(o, p, _) => FixE(o, r, q); FixE(p, r, q);
    case Assign(_, lhs, rhs) => FixE(lhs, r, q); FixE(rhs, r, q);
    case Object(ps) => FixPs(ps, r, q);
    case ObjPattern(ps) => FixPs(ps, r, q);
    case Array(es) => FixEs(es, r, q);
    case Await(a) => FixE(a, r, q);
    case Func(ps, b, _, _) => FixEs(ps, r, q); FixSs(b, false, r, q);
    case OtherExpr(_, cs) => FixEs(cs, r, q);
    case _ =>
  }

  lemma {:induction false} FixEs(es: seq<Expr>, r: Rules, q: Node -> bool)
    requires Fixes(r, q) && CollEs(es, Violations(q)) == []
    ensures MapEs(es, r) == es
    decreases es
  {
    if es != [] {
      FixE(es[0], r, q);
      FixEs(es[1..], r, q);
      assert [es[0]] + es[1..] == es;
    }
  }

  lemma {:induction false} FixOpt(o: Option<Expr>, r: Rules, q: Node -> bool)
    requires Fixes(r, q) && CollOpt(o, Violations(q)) == []
    ensures MapOpt(o, r) == o
    decreases o
  {
    if o.Some? {
      FixE(o.value, r, q);
    }
  }

  lemma {:induction false} FixP(p: Prop, r: Rules, q: Node -> bool)
    requires Fixes(r, q) && CollP(p, Violations(q)) == []
    ensures MapP(p, r) == p
    decreases p
  {
    FixE(p.key, r, q);
    FixE(p.value, r, q);
  }

  lemma {:induction false} FixPs(ps: seq<Prop>, r: Rules, q: Node -> bool)
    requires Fixes(r, q) && CollPs(ps, Violations(q)) == []
    ensures MapPs(ps, r) == ps
    decreases ps
  {
    if ps != [] {
      FixP(ps[0], r, q);
      FixPs(ps[1..], r, q);
      assert [ps[0]] + ps[1..] == ps;
    }
  }

  lemma {:induction false} FixD(d: Declarator, r: Rules, q: Node -> bool)
    requires Fixes(r, q) && CollD(d, Violations(q)) == []
    ensures MapD(d, r) == d
    decreases d
  {
    FixE(d.id, r, q);
    FixOpt(d.init, r, q);
  }

  lemma {:induction false} FixDs(ds: seq<Declarator>, r: Rules, q: Node -> bool)
    requires Fixes(r, q) && CollDs(ds, Violations(q)) == []
    ensures MapDs(ds, r) == ds
    decreases ds
  {
    if ds != [] {
      FixD(ds[0], r, q);
      FixDs(ds[1..], r, q);
      assert [ds[0]] + ds[1..] == ds;
    }
  }

  lemma {:induction false} FixM(m: ClassMember, r: Rules, q: Node -> bool)
    requires Fixes(r, q) && CollM(m, Violations(q)) == []
    ensures MapM(m, r) == m
    decreases m
  {
    match m
    case MethodDef(_, _, _, ps, b, decs) =>
      FixEs(ps, r, q); FixSs(b, false, r, q); FixEs(decs, r, q);
    case FieldDef(_, v, _, decs, _) =>
      FixOpt(v, r, q); FixEs(decs, r, q);
  }

  lemma {:induction false} FixMs(ms: seq<ClassMember>, r: Rules, q: Node -> bool)
    requires Fixes(r, q) && CollMs(ms, Violations(q)) == []
    ensures MapMs(ms, r) == ms
    decreases ms
  {
    if ms != [] {
      FixM(ms[0], r, q);
      FixMs(ms[1..], r, q);
      assert [ms[0]] + ms[1..] == ms;
    }
  }

  lemma {:induction false} FixS(s: Stmt, top: bool, r: Rules, q: Node -> bool)
    requires Fixes(r, q) && CollS(s, Violations(q)) == []
    ensures MapS(s, top, r) == [s]
    decreases s, 1
  {
    FixKidsS(s, r, q);
    assert q(NS(s));
  }

  lemma {:induction false} FixKidsS(s: Stmt, r: Rules, q: Node -> bool)
    requires Fixes(r, q) && KidsCollS(s, Violations(q)) == []
    ensures KidsS(s, r) == s
    decreases s, 0
  {
    match s
    case Import(_, _, _) =>
    case VarDecl(_, ds, _) => FixDs(ds, r, q);
    case ExprStmt(e, _) => FixE(e, r, q);
    case ExportDecl(d, _) => FixKidsS(d, r, q);
    case ExportList(_, _) =>
    case ExportDefault(e, _) => FixE(e, r, q);
    case ClassStmt(_, sc, ms, decs, _) => FixOpt(sc, r, q); FixMs(ms, r, q); FixEs(decs, r, q);
    case Block(b) => FixSs(b, false, r, q);
    case FuncDecl(_, ps, b, _) => FixEs(ps, r, q); FixSs(b, false, r, q);
    case Return(a) => FixE(a, r, q);
    case OtherStmt(_, es, b) => FixEs(es, r, q); FixSs(b, false, r, q);
  }

  lemma {:induction false} FixSs(ss: seq<Stmt>, top: bool, r: Rules, q: Node -> bool)
    requires Fixes(r, q) && CollSs(ss, Violations(q)) == []
    ensures MapSs(ss, top, r) == ss
    decreases ss
  {
    if ss != [] {
      FixS(ss[0], top, r, q);
      FixSs(ss[1..], top, r, q);
      assert [ss[0]] + ss[1..] == ss;
    }
  }

  // ---------------------------------------------------------------- what a picker can report

  /** Everything `pick` reports satisfies `P`. */
  ghost predicate PicksOnly<T(!new)>(pick: Node -> seq<T>, P: T -> bool) {
    forall n: Node, x: T :: x in pick(n) ==> P(x)
  }

  lemma {:induction false} ImageE<T(!new)>(e: Expr, pick: Node -> seq<T>, P: T -> bool)
    requires PicksOnly(pick, P)
    ensures forall x :: x in CollE(e, pick) ==> P(x)
    decreases e, 1
  {
    ImageKidsE(e, pick, P);
  }

  lemma {:induction false} ImageKidsE<T(!new)>(e: Expr, pick: Node -> seq<T>, P: T -> bool)
    requires PicksOnly(pick, P)
    ensures forall x :: x in KidsCollE(e, pick) ==> P(x)
    decreases e, 0
  {
    match e
    case Template(_, es) => ImageEs(es, pick, P);
    case Call(c, a) => ImageE(c, pick, P); ImageEs(a, pick, P);
    case Member(o, p, _) => ImageE(o, pick, P); ImageE(p, pick, P);
    case Assign(_, lhs, rhs) => ImageE(lhs, pick, P); ImageE(rhs, pick, P);
    case Object(ps) => ImagePs(ps, pick, P);
    case ObjPattern(ps) => ImagePs(ps, pick, P);
    case Array(es) => ImageEs(es, pick, P);
    case Await(a) => ImageE(a, pick, P);
    case Func(ps, b, _, _) => ImageEs(ps, pick, P); ImageSs(b, pick, P);
    case OtherExpr(_, cs) => ImageEs(cs, pick, P);
    case _ =>
  }

  lemma {:induction false} ImageEs<T(!new)>(es: seq<Expr>, pick: Node -> seq<T>, P: T -> bool)
    requires PicksOnly(pick, P)
    ensures forall x :: x in CollEs(es, pick) ==> P(x)
    decreases es
  {
    if es != [] {
      ImageE(es[0], pick, P);
      ImageEs(es[1..], pick, P);
    }
  }

  lemma {:induction false} ImageOpt<T(!new)>(o: Option<Expr>, pick: Node -> seq<T>, P: T -> bool)
    requires PicksOnly(pick, P)
    ensures forall x :: x in CollOpt(o, pick) ==> P(x)
    decreases o
  {
    if o.Some? {
      ImageE(o.value, pick, P);
    }
  }

  lemma {:induction false} ImagePs<T(!new)>(ps: seq<Prop>, pick: Node -> seq<T>, P: T -> bool)
    requires PicksOnly(pick, P)
    ensures forall x :: x in CollPs(ps, pick) ==> P(x)
    decreases ps
  {
    if ps != [] {
      ImageE(ps[0].key, pick, P);
      ImageE(ps[0].value, pick, P);
      ImagePs(ps[1..], pick, P);
    }
  }

  lemma {:induction false} ImageDs<T(!new)>(ds: seq<Declarator>, pick: Node -> seq<T>, P: T -> bool)
    requires PicksOnly(pick, P)
    ensures forall x :: x in CollDs(ds, pick) ==> P(x)
    decreases ds
  {
    if ds != [] {
      ImageE(ds[0].id, pick, P);
      ImageOpt(ds[0].init, pick, P);
      ImageDs(ds[1..], pick, P);
    }
  }

  lemma {:induction false} ImageMs<T(!new)>(ms: seq<ClassMember>, pick: Node -> seq<T>, P: T -> bool)
    requires PicksOnly(pick, P)
    ensures forall x :: x in CollMs(ms, pick) ==> P(x)
    decreases ms
  {
    if ms != [] {
      ImageMs(ms[1..], pick, P);
      match ms[0]
      case MethodDef(_, _, _, ps, b, decs) => ImageEs(decs, pick, P); ImageEs(ps, pick, P); ImageSs(b, pick, P);
      case FieldDef(_, v, _, decs, _) => ImageEs(decs, pick, P); ImageOpt(v, pick, P);
    }
  }

  lemma {:induction false} ImageKidsS<T(!new)>(s: Stmt, pick: Node -> seq<T>, P: T -> bool)
    requires PicksOnly(pick, P)
    ensures forall x :: x in KidsCollS(s, pick) ==> P(x)
    decreases s, 0
  {
    match s
    case Import(_, _, _) =>
    case VarDecl(_, ds, _) => ImageDs(ds, pick, P);
    case ExprStmt(e, _) => ImageE(e, pick, P);
    case ExportDecl(d, _) => ImageKidsS(d, pick, P);
    case ExportList(_, _) =>
    case ExportDefault(e, _) => ImageE(e, pick, P);
    case ClassStmt(_, sc, ms, decs, _) => ImageEs(decs, pick, P); ImageOpt(sc, pick, P); ImageMs(ms, pick, P);
    case Block(b) => ImageSs(b, pick, P);
    case FuncDecl(_, ps, b, _) => ImageEs(ps, pick, P); ImageSs(b, pick, P);
    case Return(a) => ImageE(a, pick, P);
    case OtherStmt(_, es, b) => ImageEs(es, pick, P); ImageSs(b, pick, P);
  }

  lemma {:induction false} ImageSs<T(!new)>(ss: seq<Stmt>, pick: Node -> seq<T>, P: T -> bool)
    requires PicksOnly(pick, P)
    ensures forall x :: x in CollSs(ss, pick) ==> P(x)
    decreases ss
  {
    if ss != [] {
      ImageKidsS(ss[0], pick, P);
      ImageSs(ss[1..], pick, P);
    }
  }

  /** `p2` reports nothing wherever `p1` reports nothing. */
  ghost predicate QuietWhere<A, B>(p1: Node -> seq<A>, p2: Node -> seq<B>) {
    forall n :: p1(n) == [] ==> p2(n) == []
  }

  lemma {:induction false} QuietE<A, B>(e: Expr, p1: Node -> seq<A>, p2: Node -> seq<B>)
    requires QuietWhere(p1, p2) && CollE(e, p1) == []
    ensures CollE(e, p2) == []
    decreases e, 1
  {
    QuietKidsE(e, p1, p2);
  }

  lemma {:induction false} QuietKidsE<A, B>(e: Expr, p1: Node -> seq<A>, p2: Node -> seq<B>)
    requires QuietWhere(p1, p2) && KidsCollE(e, p1) == []
    ensures KidsCollE(e, p2) == []
    decreases e, 0
  {
    match e
    case Template(_, es) => QuietEs(es, p1, p2);
    case Call(c, a) => QuietE(c, p1, p2); QuietEs(a, p1, p2);
    case Member(o, p, _) => QuietE(o, p1, p2); QuietE(p, p1, p2);
    case Assign(_, lhs, rhs) => QuietE(lhs, p1, p2); QuietE(rhs, p1, p2);
    case Object(ps) => QuietPs(ps, p1, p2);
    case ObjPattern(ps) => QuietPs(ps, p1, p2);
    case Array(es) => QuietEs(es, p1, p2);
    case Await(a) => QuietE(a, p1, p2);
    case Func(ps, b, _, _) => QuietEs(ps, p1, p2); QuietSs(b, p1, p2);
    case OtherExpr(_, cs) => QuietEs(cs, p1, p2);
    case _ =>
  }

  lemma {:induction false} QuietEs<A, B>(es: seq<Expr>, p1: Node -> seq<A>, p2: Node -> seq<B>)
    requires QuietWhere(p1, p2) && CollEs(es, p1) == []
    ensures CollEs(es, p2) == []
    decreases es
  {
    if es != [] {
      QuietE(es[0], p1, p2);
      QuietEs(es[1..], p1, p2);
    }
  }

  lemma {:induction false} QuietOpt<A, B>(o: Option<Expr>, p1: Node -> seq<A>, p2: Node -> seq<B>)
    requires QuietWhere(p1, p2) && CollOpt(o, p1) == []
    ensures CollOpt(o, p2) == []
    decreases o
  {
    if o.Some? {
      QuietE(o.value, p1, p2);
    }
  }

  lemma {:induction false} QuietPs<A, B>(ps: seq<Prop>, p1: Node -> seq<A>, p2: Node -> seq<B>)
    requires QuietWhere(p1, p2) && CollPs(ps, p1) == []
    ensures CollPs(ps, p2) == []
    decreases ps
  {
    if ps != [] {
      QuietE(ps[0].key, p1, p2);
      QuietE(ps[0].value, p1, p2);
      QuietPs(ps[1..], p1, p2);
    }
  }

  lemma {:induction false} QuietDs<A, B>(ds: seq<Declarator>, p1: Node -> seq<A>, p2: Node -> seq<B>)
    requires QuietWhere(p1, p2) && CollDs(ds, p1) == []
    ensures CollDs(ds, p2) == []
    decreases ds
  {
    if ds != [] {
      QuietE(ds[0].id, p1, p2);
      QuietOpt(ds[0].init, p1, p2);
      QuietDs(ds[1..], p1, p2);
    }
  }

  lemma {:induction false} QuietMs<A, B>(ms: seq<ClassMember>, p1: Node -> seq<A>, p2: Node -> seq<B>)
    requires QuietWhere(p1, p2) && CollMs(ms, p1) == []
    ensures CollMs(ms, p2) == []
    decreases ms
  {
    if ms != [] {
      QuietMs(ms[1..], p1, p2);
      match ms[0]
      case MethodDef(_, _, _, ps, b, decs) => QuietEs(decs, p1, p2); QuietEs(ps, p1, p2); QuietSs(b, p1, p2);
      case FieldDef(_, v, _, decs, _) => QuietEs(decs, p1, p2); QuietOpt(v, p1, p2);
    }
  }

  lemma {:induction false} QuietKidsS<A, B>(s: Stmt, p1: Node -> seq<A>, p2: Node -> seq<B>)
    requires QuietWhere(p1, p2) && KidsCollS(s, p1) == []
    ensures KidsCollS(s, p2) == []
    decreases s, 0
  {
    match s
    case Import(_, _, _) =>
    case VarDecl(_, ds, _) => QuietDs(ds, p1, p2);
    case ExprStmt(e, _) => QuietE(e, p1, p2);
    case ExportDecl(d, _) => QuietKidsS(d, p1, p2);
    case ExportList(_, _) =>
    case ExportDefault(e, _) => QuietE(e, p1, p2);
    case ClassStmt(_, sc, ms, decs, _) => QuietEs(decs, p1, p2); QuietOpt(sc, p1, p2); QuietMs(ms, p1, p2);
    case Block(b) => QuietSs(b, p1, p2);
    case FuncDecl(_, ps, b, _) => QuietEs(ps, p1, p2); QuietSs(b, p1, p2);
    case Return(a) => QuietE(a, p1, p2);
    case OtherStmt(_, es, b) => QuietEs(es, p1, p2); QuietSs(b, p1, p2);
  }

  lemma {:induction false} QuietSs<A, B>(ss: seq<Stmt>, p1: Node -> seq<A>, p2: Node -> seq<B>)
    requires QuietWhere(p1, p2) && CollSs(ss, p1) == []
    ensures CollSs(ss, p2) == []
    decreases ss
  {
    if ss != [] {
      QuietKidsS(ss[0], p1, p2);
      QuietSs(ss[1..], p1, p2);
    }
  }
}
