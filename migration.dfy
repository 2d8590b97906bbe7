/**
 * The `adonis-migration` pass.  Every class declaration that extends `Schema`
 * is rewritten by four walks over the class, in this order:
 *   1. `this.schedule(...)` calls `this.defer(...)`;
 *   2. `this.fn.now(...)` becomes `this.now()`;
 *   3. `<x>.timestamp(col, useTz, precision)` becomes
 *      `<x>.timestamp(col, { useTz, precision })`, each option present only
 *      when its argument was;
 *   4. the statement `this.<m>(args)` with `m` a v4 schema method becomes
 *      `this.schema.<v5 name>(args)`;
 * then it extends `BaseSchema`.  When some class was rewritten,
 * `import BaseSchema from '@ioc:Adonis/Lucid/Schema'` goes in after the last import.
 */
module Migration {
  import opened Ast
  import opened Traverse
  import opened Utils
  import opened Cursor

  /** `obj.name` on `this`, computed or not. */
  predicate IsThisMember(e: Expr, name: string) {
    e.Member? && e.obj.This? && IsIdent(e.prop, name)
  }

  // ---------------------------------------------------------------- 1. schedule

  predicate IsScheduleCall(e: Expr) {
    e.Call? && IsThisMember(e.callee, "schedule")
  }

  /** The callee's property is replaced; object, computed flag and arguments stay. */
  function RenameSchedule(e: Expr): Expr {
    if IsScheduleCall(e) then Call(e.callee.(prop := Ident("defer")), e.args) else e
  }

  function ScheduleRules(): Rules {
    Rules(RenameSchedule, (s, top) => [s])
  }

  predicate NoScheduleCall(n: Node) {
    !(n.NE? && IsScheduleCall(n.e))
  }

  // ---------------------------------------------------------------- 2. fn.now

  predicate IsFnNowCall(e: Expr) {
    e.Call? && e.callee.Member? && IsIdent(e.callee.prop, "now") && IsThisMember(e.callee.obj, "fn")
  }

  /** `this.now()`: the arguments of the old call are dropped. */
  function ThisNow(): Expr {
    Call(Member(This, Ident("now"), false), [])
  }

  function ReplaceNow(e: Expr): Expr {
    if IsFnNowCall(e) then ThisNow() else e
  }

  function NowRules(): Rules {
    Rules(ReplaceNow, (s, top) => [s])
  }

  predicate NoFnNowCall(n: Node) {
    !(n.NE? && IsFnNowCall(n.e))
  }

  // ---------------------------------------------------------------- 3. timestamp

  /** A call of a method named `timestamp` on any object. */
  predicate IsTimestampCall(e: Expr) {
    e.Call? && e.callee.Member? && IsIdent(e.callee.prop, "timestamp")
  }

  /** `arguments[0]`; a call without arguments leaves the placeholder `undefined`. */
  function Column(args: seq<Expr>): Expr {
    if |args| > 0 then args[0] else Ident("undefined")
  }

  function OptionNames(): seq<string> {
    ["useTz", "precision"]
  }

  /** The options object's properties: `useTz` for the second argument, `precision` for the third. */
  function TimestampOptions(args: seq<Expr>): (r: seq<Prop>)
    ensures |r| == if |args| <= 1 then 0 else if |args| == 2 then 1 else 2
    ensures forall i :: 0 <= i < |r| ==>
              r[i].key == Ident(OptionNames()[i]) && r[i].value == args[i + 1] &&
              !r[i].computed && !r[i].shorthand && r[i].comments == []
  {
    (if |args| > 1 then [Prop(Ident("useTz"), args[1], false, false, [])] else []) +
    (if |args| > 2 then [Prop(Ident("precision"), args[2], false, false, [])] else [])
  }

  function FixTimestamp(e: Expr): Expr {
    if IsTimestampCall(e) then Call(e.callee, [Column(e.args), Object(TimestampOptions(e.args))]) else e
  }

  function TimestampRules(): Rules {
    Rules(FixTimestamp, (s, top) => [s])
  }

  /** Every `timestamp` call has exactly the column and one options object. */
  predicate TimestampHasOptions(n: Node) {
    n.NE? && IsTimestampCall(n.e) ==> |n.e.args| == 2 && n.e.args[1].Object?
  }

  // ---------------------------------------------------------------- 4. schema methods

  /** The v4 schema methods and their v5 names. */
  const SchemaMethods: map<string, string> := map[
    "create" := "createTable",
    "rename" := "renameTable",
    "drop" := "dropTable",
    "dropIfExists" := "dropTableIfExists",
    "alter" := "alterTable",
    "raw" := "raw",
    "createIfNotExists" := "createTable",
    "hasTable" := "hasTable",
    "table" := "table"
  ]

  /** The statement `this.<m>(...)` with `m` a v4 schema method. */
  predicate IsOldSchemaCall(s: Stmt) {
    s.ExprStmt? && s.expr.Call? && s.expr.callee.Member? && s.expr.callee.obj.This? &&
    s.expr.callee.prop.Ident? && s.expr.callee.prop.name in SchemaMethods
  }

  /** `this.schema.<name>(args)`, as a new statement: the old statement's comments are not carried over. */
  function SchemaCall(name: string, args: seq<Expr>): Stmt {
    ExprStmt(Call(Member(This, Member(Ident("schema"), Ident(name), false), false), args), [])
  }

  function RenameMethod(s: Stmt): Stmt {
    if IsOldSchemaCall(s) then SchemaCall(SchemaMethods[s.expr.callee.prop.name], s.expr.args) else s
  }

  function MethodRules(): Rules {
    Rules(e => e, (s, top) => [RenameMethod(s)])
  }

  predicate NoOldSchemaCall(n: Node) {
    !(n.NS? && IsOldSchemaCall(n.s))
  }

  // ---------------------------------------------------------------- the class

  predicate IsSchemaClass(s: Stmt) {
    s.ClassStmt? && s.superClass.Some? && IsIdent(s.superClass.value, "Schema")
  }

  /** A class that extends `Schema`, alone or under `export`. */
  predicate IsSchemaClassStmt(s: Stmt) {
    IsSchemaClass(s) || (s.ExportDecl? && IsSchemaClass(s.decl))
  }

  predicate NotSchemaClass(n: Node) {
    !(n.NS? && IsSchemaClassStmt(n.s))
  }

  /** The four walks over the class, in the source's order. */
  function Walks(c: Stmt): (r: Stmt)
    requires c.ClassStmt?
    ensures r.ClassStmt? && r.id == c.id && r.comments == c.comments
  {
    KidsS(KidsS(KidsS(KidsS(c, ScheduleRules()), NowRules()), TimestampRules()), MethodRules())
  }

  function MigrateClass(c: Stmt): (r: Stmt)
    requires c.ClassStmt?
    ensures r.ClassStmt? && r.superClass == Some(Ident("BaseSchema"))
    ensures r.id == c.id && r.comments == c.comments
  {
    var w := Walks(c);
    assert w.ClassStmt?;
    w.(superClass := Some(Ident("BaseSchema")))
  }

  function MigrateStmt(s: Stmt): Stmt {
    if IsSchemaClass(s) then MigrateClass(s)
    else if s.ExportDecl? && IsSchemaClass(s.decl) then ExportDecl(MigrateClass(s.decl), s.comments)
    else s
  }

  function SchemaRules(): Rules {
    Rules(e => e, (s, top) => [MigrateStmt(s)])
  }

  /** `import BaseSchema from '@ioc:Adonis/Lucid/Schema'` */
  function BaseSchemaImport(): Stmt {
    Import([ImportSpec(DefaultSpec, "", "BaseSchema")], "@ioc:Adonis/Lucid/Schema", [])
  }

  predicate HasSchemaClass(p: Program) {
    !EverySs(NotSchemaClass, p.body)
  }

  /** The body after the walk over the file, before the import goes in. */
  function Rewritten(body: seq<Stmt>): (r: seq<Stmt>)
    ensures |r| == |body|
    ensures forall i :: 0 <= i < |body| ==> r[i] == MigrateStmt(KidsS(body[i], SchemaRules()))
  {
    MapSsOneToOne(body, true, SchemaRules(), MigrateStmt);
    MapSs(body, true, SchemaRules())
  }

  function Migration(p: Program): Program {
    var body := Rewritten(p.body);
    if HasSchemaClass(p) then Program(InsertAfter(body, FindLastImportIndex(p.body, Tsx), BaseSchemaImport()), p.comments)
    else Program(body, p.comments)
  }

  /**
   * The pass as the source runs it: the cursor's index is taken first, one walk
   * over the file rewrites the classes and raises `isUpdated`, then the import
   * goes in through the cursor.
   */
  method Run(p: Program) returns (r: Program)
    ensures r == Migration(p)
  {
    var lastImportIndex := FindLastImportIndex(p.body, Tsx);
    var body: seq<Stmt> := [];
    var isUpdated := false;
    var i := 0;
    while i < |p.body|
      invariant 0 <= i <= |p.body|
      invariant body == MapSs(p.body[..i], true, SchemaRules())
      invariant isUpdated <==> !EverySs(NotSchemaClass, p.body[..i])
    {
      var s := p.body[i];
      assert p.body[..i + 1] == p.body[..i] + [s];
      EverySsAppend(NotSchemaClass, p.body[..i], [s]);
      MapSsAppend(p.body[..i], [s], true, SchemaRules());
      assert MapSs([s], true, SchemaRules()) == MapS(s, true, SchemaRules());
      body := body + MapS(s, true, SchemaRules());
      if !EverySs(NotSchemaClass, [s]) {
        isUpdated := true;
      }
      i := i + 1;
    }
    assert p.body[..i] == p.body;
    MapSsOneToOne(p.body, true, SchemaRules(), MigrateStmt);
    var cursor := new ImportCursor(body, lastImportIndex);
    if isUpdated {
      cursor.InsertImport(BaseSchemaImport());
    }
    r := Program(cursor.body, p.comments);
  }

  // ---------------------------------------------------------------- what each walk establishes

  lemma ScheduleEstablish()
    ensures Establishes(ScheduleRules(), NoScheduleCall) && Fixes(ScheduleRules(), NoScheduleCall)
  {
    var r := ScheduleRules();
    var v := Violations(NoScheduleCall);
    forall e: Expr | KidsCollE(e, v) == []
      ensures CollE(r.fe(e), v) == []
    {
      if IsScheduleCall(e) {
        var c := e.callee.(prop := Ident("defer"));
        var e' := Call(c, e.args);
        assert CollE(e.callee, v) == [] && CollEs(e.args, v) == [];
        assert CollE(e.callee.obj, v) == [];
        LeafClean(NoScheduleCall, Ident("defer"));
        assert NoScheduleCall(NE(c)) && v(NE(c)) == [];
        assert CollE(c, v) == [];
        assert NoScheduleCall(NE(e')) && v(NE(e')) == [];
        assert r.fe(e) == e';
      } else {
        assert NoScheduleCall(NE(e)) && v(NE(e)) == [];
      }
    }
    forall s: Stmt, top: bool | KidsCollS(s, v) == []
      ensures CollSs(r.fs(s, top), v) == []
    {
      assert NoScheduleCall(NS(s)) && v(NS(s)) == [];
      assert CollSs([s], v) == CollS(s, v);
    }
  }

  lemma NowEstablish()
    ensures Establishes(NowRules(), NoFnNowCall) && Fixes(NowRules(), NoFnNowCall)
  {
    var r := NowRules();
    var v := Violations(NoFnNowCall);
    forall e: Expr | KidsCollE(e, v) == []
      ensures CollE(r.fe(e), v) == []
    {
      if IsFnNowCall(e) {
        var c := Member(This, Ident("now"), false);
        LeafClean(NoFnNowCall, This);
        LeafClean(NoFnNowCall, Ident("now"));
        assert NoFnNowCall(NE(c)) && v(NE(c)) == [];
        assert CollE(c, v) == [];
        assert NoFnNowCall(NE(ThisNow())) && v(NE(ThisNow())) == [];
        assert CollE(ThisNow(), v) == CollE(c, v) + CollEs([], v);
      } else {
        assert NoFnNowCall(NE(e)) && v(NE(e)) == [];
      }
    }
    forall s: Stmt, top: bool | KidsCollS(s, v) == []
      ensures CollSs(r.fs(s, top), v) == []
    {
      assert NoFnNowCall(NS(s)) && v(NS(s)) == [];
      assert CollSs([s], v) == CollS(s, v);
    }
  }

  lemma OptionsClean(args: seq<Expr>, v: Node -> seq<Node>)
    requires v == Violations(TimestampHasOptions) && CollEs(args, v) == []
    ensures CollPs(TimestampOptions(args), v) == []
  {
    var ps := TimestampOptions(args);
    forall i | 0 <= i < |ps|
      ensures CollP(ps[i], v) == []
    {
      CollEsAt(args, v, i + 1);
      assert TimestampHasOptions(NP(ps[i])) && v(NP(ps[i])) == [];
      LeafClean(TimestampHasOptions, ps[i].key);
    }
    if |ps| == 1 {
      assert CollPs(ps, v) == CollP(ps[0], v) + CollPs([], v);
    } else if |ps| == 2 {
      assert ps[1..][1..] == [];
      assert CollPs(ps[1..], v) == CollP(ps[1], v) + CollPs([], v);
    }
  }

  lemma FixedCallClean(e: Expr, v: Node -> seq<Node>)
    requires v == Violations(TimestampHasOptions) && IsTimestampCall(e) && KidsCollE(e, v) == []
    ensures CollE(FixTimestamp(e), v) == []
  {
    var col, opts := Column(e.args), Object(TimestampOptions(e.args));
    var e' := Call(e.callee, [col, opts]);
    assert CollE(e.callee, v) == [] && CollEs(e.args, v) == [];
    if |e.args| > 0 {
      CollEsAt(e.args, v, 0);
    } else {
      LeafClean(TimestampHasOptions, Ident("undefined"));
    }
    assert CollE(col, v) == [];
    OptionsClean(e.args, v);
    assert TimestampHasOptions(NE(opts)) && v(NE(opts)) == [];
    assert CollE(opts, v) == [];
    assert CollEs([opts], v) == CollE(opts, v) + CollEs([], v);
    assert CollEs([col, opts], v) == CollE(col, v) + CollEs([opts], v);
    assert TimestampHasOptions(NE(e')) && v(NE(e')) == [];
    assert FixTimestamp(e) == e';
  }

  lemma TimestampEstablish()
    ensures Establishes(TimestampRules(), TimestampHasOptions)
  {
    var r := TimestampRules();
    var v := Violations(TimestampHasOptions);
    forall e: Expr | KidsCollE(e, v) == []
      ensures CollE(r.fe(e), v) == []
    {
      if IsTimestampCall(e) {
        FixedCallClean(e, v);
      } else {
        assert TimestampHasOptions(NE(e)) && v(NE(e)) == [];
      }
    }
    forall s: Stmt, top: bool | KidsCollS(s, v) == []
      ensures CollSs(r.fs(s, top), v) == []
    {
      assert TimestampHasOptions(NS(s)) && v(NS(s)) == [];
      assert CollSs([s], v) == CollS(s, v);
    }
    forall p: Prop ensures TimestampHasOptions(NP(p)) {}
    forall d: Declarator ensures TimestampHasOptions(ND(d)) {}
    forall m: ClassMember ensures TimestampHasOptions(NM(m)) {}
  }

  lemma MethodEstablish()
    ensures Establishes(MethodRules(), NoOldSchemaCall) && Fixes(MethodRules(), NoOldSchemaCall)
  {
    var r := MethodRules();
    var v := Violations(NoOldSchemaCall);
    forall e: Expr | KidsCollE(e, v) == []
      ensures CollE(r.fe(e), v) == []
    {
      QuietNode(NoOldSchemaCall, NE(e));
    }
    forall s: Stmt, top: bool | KidsCollS(s, v) == []
      ensures CollSs(r.fs(s, top), v) == []
    {
      RenameStmtClean(s);
    }
  }

  /** One statement renamed, with clean parts, is clean. */
  lemma RenameStmtClean(s: Stmt)
    requires KidsCollS(s, Violations(NoOldSchemaCall)) == []
    ensures CollSs([RenameMethod(s)], Violations(NoOldSchemaCall)) == []
  {
    var v := Violations(NoOldSchemaCall);
    if IsOldSchemaCall(s) {
      OldCallArgsClean(s.expr.callee, s.expr.args, s.comments);
      SchemaCallClean(SchemaMethods[s.expr.callee.prop.name], s.expr.args);
    } else {
      QuietNode(NoOldSchemaCall, NS(s));
      assert CollSs([s], v) == CollS(s, v) + CollSs([], v);
    }
  }

  lemma OldCallArgsClean(callee: Expr, args: seq<Expr>, comments: seq<Comment>)
    requires KidsCollS(ExprStmt(Call(callee, args), comments), Violations(NoOldSchemaCall)) == []
    ensures CollEs(args, Violations(NoOldSchemaCall)) == []
  {
    var v := Violations(NoOldSchemaCall);
    assert CollE(Call(callee, args), v) == v(NE(Call(callee, args))) + CollE(callee, v) + CollEs(args, v);
  }

  /** `this.schema.<name>(args)` with clean arguments is clean. */
  lemma SchemaCallClean(name: string, args: seq<Expr>)
    requires CollEs(args, Violations(NoOldSchemaCall)) == []
    ensures CollSs([SchemaCall(name, args)], Violations(NoOldSchemaCall)) == []
  {
    var v := Violations(NoOldSchemaCall);
    var inner := Member(Ident("schema"), Ident(name), false);
    var callee := Member(This, inner, false);
    var t := SchemaCall(name, args);
    LeafClean(NoOldSchemaCall, This);
    LeafClean(NoOldSchemaCall, Ident("schema"));
    LeafClean(NoOldSchemaCall, Ident(name));
    MemberClean(NoOldSchemaCall, Ident("schema"), Ident(name), false);
    MemberClean(NoOldSchemaCall, This, inner, false);
    CallClean(NoOldSchemaCall, callee, args);
    QuietNode(NoOldSchemaCall, NS(t));
    assert KidsCollS(t, v) == CollE(Call(callee, args), v);
    assert CollS(t, v) == v(NS(t)) + KidsCollS(t, v);
    assert CollSs([t], v) == CollS(t, v) + CollSs([], v);
  }

  /** The superclass replaced by the identifier `BaseSchema` adds nothing any walk looks for. */
  lemma ExtendClean(c: Stmt, q: Node -> bool)
    requires c.ClassStmt? && KidsCollS(c, Violations(q)) == [] && q(NE(Ident("BaseSchema")))
    ensures KidsCollS(c.(superClass := Some(Ident("BaseSchema"))), Violations(q)) == []
  {
    var v := Violations(q);
    assert CollE(Ident("BaseSchema"), v) == [];
    assert CollOpt(Some(Ident("BaseSchema")), v) == [];
  }

  /**
   * Inside a migrated class: no `this.schedule(...)` call is left after the
   * first walk, no `this.fn.now(...)` after the second, every `timestamp` call
   * has the column and one options object after the third, and no
   * `this.<v4 method>(...)` statement is left in the final class.
   */
  lemma {:induction false} WalksLeaveNoMatch(c: Stmt)
    requires c.ClassStmt?
    ensures KidsCollS(KidsS(c, ScheduleRules()), Violations(NoScheduleCall)) == []
    ensures KidsCollS(KidsS(KidsS(c, ScheduleRules()), NowRules()), Violations(NoFnNowCall)) == []
    ensures KidsCollS(KidsS(KidsS(KidsS(c, ScheduleRules()), NowRules()), TimestampRules()),
                      Violations(TimestampHasOptions)) == []
    ensures KidsCollS(MigrateClass(c), Violations(NoOldSchemaCall)) == []
  {
    var c1 := KidsS(c, ScheduleRules());
    var c2 := KidsS(c1, NowRules());
    var c3 := KidsS(c2, TimestampRules());
    ScheduleEstablish();
    EstablishKidsS(c, ScheduleRules(), NoScheduleCall);
    NowEstablish();
    EstablishKidsS(c1, NowRules(), NoFnNowCall);
    TimestampEstablish();
    EstablishKidsS(c2, TimestampRules(), TimestampHasOptions);
    MethodEstablish();
    EstablishKidsS(c3, MethodRules(), NoOldSchemaCall);
    ExtendClean(Walks(c), NoOldSchemaCall);
  }

  predicate NoTimestampCall(n: Node) {
    !(n.NE? && IsTimestampCall(n.e))
  }

  lemma TimestampFixes()
    ensures Fixes(TimestampRules(), NoTimestampCall)
  {
  }

  /** A class with nothing any walk looks for only has its superclass replaced. */
  lemma {:induction false} CleanClassOnlyExtends(c: Stmt)
    requires c.ClassStmt?
    requires KidsCollS(c, Violations(NoScheduleCall)) == [] && KidsCollS(c, Violations(NoFnNowCall)) == []
    requires KidsCollS(c, Violations(NoTimestampCall)) == [] && KidsCollS(c, Violations(NoOldSchemaCall)) == []
    ensures MigrateClass(c) == c.(superClass := Some(Ident("BaseSchema")))
  {
    ScheduleEstablish();
    FixKidsS(c, ScheduleRules(), NoScheduleCall);
    NowEstablish();
    FixKidsS(c, NowRules(), NoFnNowCall);
    TimestampFixes();
    FixKidsS(c, TimestampRules(), NoTimestampCall);
    MethodEstablish();
    FixKidsS(c, MethodRules(), NoOldSchemaCall);
  }

  // ---------------------------------------------------------------- the file

  lemma SchemaRulesFix()
    ensures Fixes(SchemaRules(), NotSchemaClass)
  {
  }

  /** The file is left exactly as it was if and only if no class in it extends `Schema`. */
  lemma {:induction false} UnchangedIffNoSchemaClass(p: Program)
    ensures Migration(p) == p <==> !HasSchemaClass(p)
  {
    if !HasSchemaClass(p) {
      SchemaRulesFix();
      FixSs(p.body, true, SchemaRules(), NotSchemaClass);
      assert Rewritten(p.body) == p.body;
    } else {
      assert |Migration(p).body| == |p.body| + 1;
    }
  }

  /** Rewriting the classes keeps every statement's kind of import or not. */
  lemma KeepsImports(s: Stmt)
    ensures MigrateStmt(KidsS(s, SchemaRules())).Import? <==> s.Import?
  {
  }

  lemma ImportKindsKept(body: seq<Stmt>)
    ensures forall j :: 0 <= j < |body| ==> (Rewritten(body)[j].Import? <==> body[j].Import?)
  {
    forall j | 0 <= j < |body|
      ensures Rewritten(body)[j].Import? <==> body[j].Import?
    {
      KeepsImports(body[j]);
    }
  }

  /**
   * When a class was rewritten, the `BaseSchema` import stands right after the
   * import declarations (first when there is none) and is the last import of the file.
   */
  lemma {:induction false} ImportAfterLastImport(p: Program)
    requires HasSchemaClass(p)
    ensures var idx := FindLastImportIndex(p.body, Tsx);
      var r := Migration(p).body;
      |r| == |p.body| + 1 && r[idx + 1] == BaseSchemaImport() &&
      (forall i :: idx + 1 < i < |r| ==> !r[i].Import?)
  {
    ImportKindsKept(p.body);
    InsertAfterLastImport(p.body, Rewritten(p.body), FindLastImportIndex(p.body, Tsx), BaseSchemaImport());
  }

  /**
   * Every statement keeps its relative place: the walk's image of the `i`-th
   * statement (see `Rewritten`) stands at `i`, or one further on when it
   * followed the last import and the new import went in.
   */
  lemma {:induction false} StatementsKeepTheirPlace(p: Program)
    ensures HasSchemaClass(p) ==>
              var idx := FindLastImportIndex(p.body, Tsx);
              var r := Migration(p).body;
              |r| == |p.body| + 1 &&
              forall i :: 0 <= i < |p.body| ==> r[if i <= idx then i else i + 1] == Rewritten(p.body)[i]
    ensures !HasSchemaClass(p) ==> Migration(p).body == Rewritten(p.body)
  {
    if HasSchemaClass(p) {
      var idx := FindLastImportIndex(p.body, Tsx);
      InsertAfterLayout(Rewritten(p.body), idx, BaseSchemaImport());
    }
  }

  /** A top-level class that extends `Schema`, alone or under `export`, keeps its name and extends `BaseSchema`. */
  lemma SchemaClassesExtendBaseSchema(s: Stmt)
    ensures IsSchemaClass(s) ==>
              var t := MigrateStmt(KidsS(s, SchemaRules()));
              t.ClassStmt? && t.id == s.id && t.superClass == Some(Ident("BaseSchema"))
    ensures s.ExportDecl? && IsSchemaClass(s.decl) ==>
              var t := MigrateStmt(KidsS(s, SchemaRules()));
              t.ExportDecl? && t.decl.ClassStmt? && t.decl.id == s.decl.id &&
              t.decl.superClass == Some(Ident("BaseSchema"))
  {
  }
}
