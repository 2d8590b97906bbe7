/**
 * The `adonis-class-inject` pass: a class whose first member is the getter
 * `static get inject()` loses every such getter of its own, and gains, in the
 * same order, the decorator `@inject(<what the getter returns>)`; when some
 * class was rewritten, `import { inject } from '@adonisjs/fold'` opens the file.
 */
module ClassInject {
  import opened Ast
  import opened Traverse

  /** `static get inject() { ... }` */
  predicate IsInjectGetter(m: ClassMember) {
    m.MethodDef? && m.kind == KGet && m.isStatic && m.key == "inject"
  }

  /** A class declaration whose first member is the `inject` getter. */
  predicate HasInjectFirst(c: Stmt) {
    c.ClassStmt? && |c.members| > 0 && IsInjectGetter(c.members[0])
  }

  /** A statement the pass picks: such a class, standing alone or under `export`. */
  predicate Picked(s: Stmt) {
    HasInjectFirst(s) || (s.ExportDecl? && HasInjectFirst(s.decl))
  }

  /** The class declaration of a picked statement. */
  function PickedClass(s: Stmt): Stmt {
    if s.ExportDecl? then s.decl else s
  }

  /** The position of the first top-level `return` of a body; its length when there is none. */
  function ReturnIndex(body: seq<Stmt>): (i: nat)
    ensures i <= |body|
    ensures i < |body| ==> body[i].Return?
    ensures forall j :: 0 <= j < i ==> !body[j].Return?
  {
    if body == [] || body[0].Return? then 0 else 1 + ReturnIndex(body[1..])
  }

  predicate HasReturn(m: ClassMember) {
    m.MethodDef? && ReturnIndex(m.body) < |m.body|
  }

  /**
   * The argument of the getter's first top-level `return`.  A getter without
   * one makes the pass fail (see `ClassInject`), so the placeholder is never
   * part of a result.
   */
  function InjectArg(m: ClassMember): Expr {
    if HasReturn(m) then m.body[ReturnIndex(m.body)].arg else Ident("undefined")
  }

  /** `@inject(<argument>)` */
  function InjectDecorator(m: ClassMember): Expr {
    Call(Ident("inject"), [InjectArg(m)])
  }

  /** The `inject` getters among the members, in order. */
  function Getters(ms: seq<ClassMember>): (r: seq<ClassMember>)
    ensures forall m :: m in r <==> m in ms && IsInjectGetter(m)
  {
    if ms == [] then []
    else (if IsInjectGetter(ms[0]) then [ms[0]] else []) + Getters(ms[1..])
  }

  /** The other members, in order. */
  function Others(ms: seq<ClassMember>): (r: seq<ClassMember>)
    ensures forall m :: m in r <==> m in ms && !IsInjectGetter(m)
  {
    if ms == [] then []
    else (if IsInjectGetter(ms[0]) then [] else [ms[0]]) + Others(ms[1..])
  }

  function Decorators(gs: seq<ClassMember>): (r: seq<Expr>)
    ensures |r| == |gs|
  {
    if gs == [] then [] else [InjectDecorator(gs[0])] + Decorators(gs[1..])
  }

  /** The class with its `inject` getters turned into trailing decorators. */
  function MoveGetters(c: Stmt): (r: Stmt)
    requires c.ClassStmt?
    ensures r.ClassStmt? && r.id == c.id && r.superClass == c.superClass && r.comments == c.comments
    ensures forall m :: m in r.members <==> m in c.members && !IsInjectGetter(m)
    ensures |r.decorators| == |c.decorators| + |Getters(c.members)|
    ensures r.decorators[..|c.decorators|] == c.decorators
  {
    ClassStmt(c.id, c.superClass, Others(c.members), c.decorators + Decorators(Getters(c.members)), c.comments)
  }

  function InjectClass(s: Stmt): Stmt {
    if HasInjectFirst(s) then MoveGetters(s)
    else if s.ExportDecl? && HasInjectFirst(s.decl) then ExportDecl(MoveGetters(s.decl), s.comments)
    else s
  }

  function InjectRules(): Rules {
    Rules(e => e, (s, top) => [InjectClass(s)])
  }

  /** `import { inject } from '@adonisjs/fold'` */
  function InjectImport(): Stmt {
    Import([ImportSpec(NamedSpec, "inject", "inject")], "@adonisjs/fold", [])
  }

  predicate NotPicked(n: Node) {
    !(n.NS? && Picked(n.s))
  }

  /** The picked statements, at any depth, in document order. */
  function Picks(ss: seq<Stmt>): seq<Node> {
    CollSs(ss, Violations(NotPicked))
  }

  /** A picked class one of whose `inject` getters has no top-level `return`. */
  predicate LacksReturn(c: Stmt) {
    c.ClassStmt? && exists m :: m in c.members && IsInjectGetter(m) && !HasReturn(m)
  }

  predicate AnyLacksReturn(ns: seq<Node>) {
    exists i :: 0 <= i < |ns| && ns[i].NS? && LacksReturn(PickedClass(ns[i].s))
  }

  /**
   * What the pass computes; `None` when the source fails, reading the
   * `return` of a getter that has none.
   */
  function ClassInject(p: Program): Option<Program> {
    var picks := Picks(p.body);
    if AnyLacksReturn(picks) then None
    else
      var body := MapSs(p.body, true, InjectRules());
      Some(Program(if picks == [] then body else [InjectImport()] + body, p.comments))
  }

  lemma AnyLacksReturnAppend(a: seq<Node>, b: seq<Node>)
    ensures AnyLacksReturn(a + b) <==> AnyLacksReturn(a) || AnyLacksReturn(b)
  {
    if AnyLacksReturn(a + b) {
      var i :| 0 <= i < |a + b| && (a + b)[i].NS? && LacksReturn(PickedClass((a + b)[i].s));
      if i >= |a| {
        assert b[i - |a|] == (a + b)[i];
      } else {
        assert a[i] == (a + b)[i];
      }
    }
    if AnyLacksReturn(a) {
      var i :| 0 <= i < |a| && a[i].NS? && LacksReturn(PickedClass(a[i].s));
      assert (a + b)[i] == a[i];
    }
    if AnyLacksReturn(b) {
      var i :| 0 <= i < |b| && b[i].NS? && LacksReturn(PickedClass(b[i].s));
      assert (a + b)[i + |a|] == b[i];
      assert (a + b)[i + |a|].NS? && LacksReturn(PickedClass((a + b)[i + |a|].s));
    }
  }

  /** The pass as the source runs it: one walk over the file, failing at the first getter without `return`. */
  method Run(p: Program) returns (r: Option<Program>)
    ensures r == ClassInject(p)
  {
    var body: seq<Stmt> := [];
    var isUpdated := false;
    var i := 0;
    while i < |p.body|
      invariant 0 <= i <= |p.body|
      invariant body == MapSs(p.body[..i], true, InjectRules())
      invariant isUpdated <==> Picks(p.body[..i]) != []
      invariant !AnyLacksReturn(Picks(p.body[..i]))
    {
      var s := p.body[i];
      assert p.body[..i + 1] == p.body[..i] + [s];
      CollSsAppend(p.body[..i], [s], Violations(NotPicked));
      AnyLacksReturnAppend(Picks(p.body[..i]), Picks([s]));
      if AnyLacksReturn(Picks([s])) {
        assert p.body == p.body[..i + 1] + p.body[i + 1..];
        CollSsAppend(p.body[..i + 1], p.body[i + 1..], Violations(NotPicked));
        AnyLacksReturnAppend(Picks(p.body[..i + 1]), Picks(p.body[i + 1..]));
        return None;
      }
      body := body + MapS(s, true, InjectRules());
      assert MapSs([s], true, InjectRules()) == MapS(s, true, InjectRules());
      MapSsAppend(p.body[..i], [s], true, InjectRules());
      isUpdated := isUpdated || Picks([s]) != [];
      i := i + 1;
    }
    assert p.body[..i] == p.body;
    r := Some(Program(if isUpdated then [InjectImport()] + body else body, p.comments));
  }

  // ---------------------------------------------------------------- one class

  lemma {:induction false} SplitCount(ms: seq<ClassMember>)
    ensures |Getters(ms)| + |Others(ms)| == |ms|
  {
    if ms != [] {
      SplitCount(ms[1..]);
    }
  }

  lemma {:induction false} DecoratorsAt(gs: seq<ClassMember>, i: int)
    requires 0 <= i < |gs|
    ensures Decorators(gs)[i] == InjectDecorator(gs[i])
  {
    if i > 0 {
      DecoratorsAt(gs[1..], i - 1);
    }
  }

  /**
   * Each moved getter becomes one decorator, after the ones the class already
   * had and in the getters' order; nothing else is added or lost.
   */
  lemma GettersBecomeDecorators(c: Stmt)
    requires c.ClassStmt?
    ensures var r := MoveGetters(c);
      |r.members| + |r.decorators| == |c.members| + |c.decorators| &&
      |r.decorators| == |c.decorators| + |Getters(c.members)| &&
      forall i :: 0 <= i < |Getters(c.members)| ==>
        r.decorators[|c.decorators| + i] == Call(Ident("inject"), [InjectArg(Getters(c.members)[i])])
  {
    SplitCount(c.members);
    var gs := Getters(c.members);
    forall i | 0 <= i < |gs|
      ensures MoveGetters(c).decorators[|c.decorators| + i] == Call(Ident("inject"), [InjectArg(gs[i])])
    {
      DecoratorsAt(gs, i);
    }
  }

  /** The decorator's argument is what the getter's first top-level `return` returns. */
  lemma InjectArgIsFirstReturn(m: ClassMember)
    requires m.MethodDef? && HasReturn(m)
    ensures exists i :: 0 <= i < |m.body| && m.body[i] == Return(InjectArg(m)) &&
                        forall j :: 0 <= j < i ==> !m.body[j].Return?
  {
    var i := ReturnIndex(m.body);
    assert m.body[i] == Return(InjectArg(m));
  }

  // ---------------------------------------------------------------- no picked class is left

  lemma CollEsAppend<T>(a: seq<Expr>, b: seq<Expr>, pick: Node -> seq<T>)
    ensures CollEs(a + b, pick) == CollEs(a, pick) + CollEs(b, pick)
  {
    if a == [] {
      assert a + b == b;
    } else {
      assert (a + b)[1..] == a[1..] + b;
      CollEsAppend(a[1..], b, pick);
    }
  }

  lemma IdentClean(name: string)
    ensures CollE(Ident(name), Violations(NotPicked)) == []
  {
    assert NotPicked(NE(Ident(name)));
    assert Violations(NotPicked)(NE(Ident(name))) == [];
    assert KidsCollE(Ident(name), Violations(NotPicked)) == [];
  }

  lemma DecoratorClean(m: ClassMember)
    requires CollM(m, Violations(NotPicked)) == []
    ensures CollE(InjectDecorator(m), Violations(NotPicked)) == []
  {
    var v := Violations(NotPicked);
    var a := InjectArg(m);
    if HasReturn(m) {
      var i := ReturnIndex(m.body);
      assert CollSs(m.body, v) == [];
      EveryAt(NotPicked, m.body, i);
      assert KidsCollS(m.body[i], v) == CollE(a, v);
    } else {
      IdentClean("undefined");
    }
    IdentClean("inject");
    assert CollEs([a], v) == CollE(a, v) + CollEs([], v);
    assert KidsCollE(InjectDecorator(m), v) == CollE(Ident("inject"), v) + CollEs([a], v);
    assert NotPicked(NE(InjectDecorator(m)));
  }

  lemma {:induction false} DecoratorsClean(ms: seq<ClassMember>)
    requires CollMs(ms, Violations(NotPicked)) == []
    ensures CollEs(Decorators(Getters(ms)), Violations(NotPicked)) == []
  {
    if ms != [] {
      DecoratorsClean(ms[1..]);
      if IsInjectGetter(ms[0]) {
        DecoratorClean(ms[0]);
        assert Getters(ms) == [ms[0]] + Getters(ms[1..]);
        assert Decorators(Getters(ms)) == [InjectDecorator(ms[0])] + Decorators(Getters(ms[1..]));
      } else {
        assert Getters(ms) == Getters(ms[1..]);
      }
    }
  }

  lemma {:induction false} OthersClean(ms: seq<ClassMember>)
    requires CollMs(ms, Violations(NotPicked)) == []
    ensures CollMs(Others(ms), Violations(NotPicked)) == []
  {
    if ms != [] {
      OthersClean(ms[1..]);
      if !IsInjectGetter(ms[0]) {
        assert Others(ms) == [ms[0]] + Others(ms[1..]);
        assert Others(ms)[1..] == Others(ms[1..]);
      } else {
        assert Others(ms) == Others(ms[1..]);
      }
    }
  }

  /** A rebuilt class is not picked again, and nothing picked appears inside it. */
  lemma MoveGettersClean(c: Stmt)
    requires c.ClassStmt? && KidsCollS(c, Violations(NotPicked)) == []
    ensures !HasInjectFirst(MoveGetters(c))
    ensures KidsCollS(MoveGetters(c), Violations(NotPicked)) == []
  {
    var v := Violations(NotPicked);
    var r := MoveGetters(c);
    if |r.members| > 0 {
      assert r.members[0] in r.members;
    }
    DecoratorsClean(c.members);
    OthersClean(c.members);
    CollEsAppend(c.decorators, Decorators(Getters(c.members)), v);
  }

  lemma RulesEstablish()
    ensures Establishes(InjectRules(), NotPicked) && EstablishesAtTop(InjectRules(), NotPicked)
    ensures Fixes(InjectRules(), NotPicked)
  {
    var r := InjectRules();
    var v := Violations(NotPicked);
    forall e: Expr | KidsCollE(e, v) == []
      ensures CollE(r.fe(e), v) == []
    {
      assert r.fe(e) == e;
    }
    forall s: Stmt, top: bool | KidsCollS(s, v) == []
      ensures CollSs(r.fs(s, top), v) == []
    {
      var t := InjectClass(s);
      assert CollSs([t], v) == CollS(t, v);
      if HasInjectFirst(s) {
        MoveGettersClean(s);
      } else if s.ExportDecl? && HasInjectFirst(s.decl) {
        MoveGettersClean(s.decl);
        assert KidsCollS(t, v) == KidsCollS(MoveGetters(s.decl), v);
      }
    }
  }

  // ---------------------------------------------------------------- the pass

  /** A file without a picked class comes back unchanged, without the import. */
  lemma {:induction false} UnchangedWithoutPicks(p: Program)
    requires Picks(p.body) == []
    ensures ClassInject(p) == Some(p)
  {
    RulesEstablish();
    FixSs(p.body, true, InjectRules(), NotPicked);
  }

  /** After the pass no picked class is left anywhere: every `inject` getter of a picked class is gone. */
  lemma {:induction false} NoPickedClassLeft(p: Program)
    requires ClassInject(p).Some?
    ensures Picks(ClassInject(p).value.body) == []
  {
    RulesEstablish();
    var body := MapSs(p.body, true, InjectRules());
    EstablishSs(p.body, true, InjectRules(), NotPicked);
    if Picks(p.body) != [] {
      CollSsAppend([InjectImport()], body, Violations(NotPicked));
      assert CollSs([InjectImport()], Violations(NotPicked)) == CollS(InjectImport(), Violations(NotPicked));
    }
  }

  /** Running the pass on its own result changes nothing: the import is not added twice. */
  lemma SecondRunChangesNothing(p: Program)
    requires ClassInject(p).Some?
    ensures ClassInject(ClassInject(p).value) == ClassInject(p)
  {
    NoPickedClassLeft(p);
    UnchangedWithoutPicks(ClassInject(p).value);
  }

  /**
   * The import opens the file exactly when some class was picked; every
   * statement of the body takes the place of one original statement.
   */
  lemma {:induction false} ResultLayout(p: Program)
    requires ClassInject(p).Some?
    ensures var r := ClassInject(p).value.body;
      var k := if Picks(p.body) == [] then 0 else 1;
      |r| == |p.body| + k &&
      (k == 1 ==> r[0] == InjectImport()) &&
      forall i :: 0 <= i < |p.body| ==> r[i + k] == InjectClass(KidsS(p.body[i], InjectRules()))
  {
    MapSsOneToOne(p.body, true, InjectRules(), InjectClass);
  }

  /** A class with such a getter but no `return` in it, at the top level, makes the pass fail. */
  lemma {:induction false} FailsOnGetterWithoutReturn(ss: seq<Stmt>, i: int)
    requires 0 <= i < |ss| && HasInjectFirst(ss[i]) && LacksReturn(ss[i])
    ensures AnyLacksReturn(Picks(ss))
    ensures ClassInject(Program(ss, [])).None?
  {
    var v := Violations(NotPicked);
    assert CollSs(ss, v) == CollS(ss[0], v) + CollSs(ss[1..], v);
    AnyLacksReturnAppend(CollS(ss[0], v), CollSs(ss[1..], v));
    if i == 0 {
      assert !NotPicked(NS(ss[0]));
      assert v(NS(ss[0])) == [NS(ss[0])];
      var c := CollS(ss[0], v);
      assert c == [NS(ss[0])] + KidsCollS(ss[0], v);
      assert c[0].NS? && LacksReturn(PickedClass(c[0].s));
      assert AnyLacksReturn(c);
    } else {
      FailsOnGetterWithoutReturn(ss[1..], i - 1);
    }
  }
}
