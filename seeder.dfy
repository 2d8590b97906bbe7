/**
 * The `adonis-seeder` pass: in a file under `<rootDir>/database/seeds`,
 * `import BaseSeeder from '@ioc:Adonis/Lucid/Seeder'` is inserted after the
 * last import, and every class declaration, at any depth, is made to extend
 * `BaseSeeder`.  Other files are left alone.
 */
module Seeder {
  import opened Ast
  import opened Traverse
  import opened Strings
  import opened Utils
  import opened Cursor

  predicate IsSeedFile(ctx: FileContext) {
    StartsWith(ctx.fileName, ctx.rootDir + "/database/seeds")
  }

  /** `import BaseSeeder from '@ioc:Adonis/Lucid/Seeder'` */
  function SeederImport(): Stmt {
    Import([ImportSpec(DefaultSpec, "", "BaseSeeder")], "@ioc:Adonis/Lucid/Seeder", [])
  }

  function Extend(c: Stmt): (r: Stmt)
    requires c.ClassStmt?
    ensures r.ClassStmt? && r.superClass == Some(Ident("BaseSeeder"))
    ensures r.id == c.id && r.members == c.members && r.decorators == c.decorators && r.comments == c.comments
  {
    c.(superClass := Some(Ident("BaseSeeder")))
  }

  /** A class declaration, alone or under `export`, extends `BaseSeeder`; anything else is kept. */
  function ExtendClass(s: Stmt): Stmt {
    if s.ClassStmt? then Extend(s)
    else if s.ExportDecl? && s.decl.ClassStmt? then ExportDecl(Extend(s.decl), s.comments)
    else s
  }

  function SeederRules(): Rules {
    Rules(e => e, (s, top) => [ExtendClass(s)])
  }

  function Seeder(p: Program, ctx: FileContext): Program {
    if !IsSeedFile(ctx) then p
    else
      var body := InsertAfter(p.body, FindLastImportIndex(p.body, Tsx), SeederImport());
      Program(MapSs(body, true, SeederRules()), p.comments)
  }

  /** The pass as the source runs it: the import goes in through the cursor, then the classes change. */
  method Run(p: Program, ctx: FileContext) returns (r: Program)
    ensures r == Seeder(p, ctx)
  {
    var cursor := new ImportCursor(p.body, FindLastImportIndex(p.body, Tsx));
    if IsSeedFile(ctx) {
      cursor.InsertImport(SeederImport());
      r := Program(MapSs(cursor.body, true, SeederRules()), p.comments);
    } else {
      r := p;
    }
  }

  predicate ExtendsBaseSeeder(n: Node) {
    n.NS? ==>
      (n.s.ClassStmt? ==> n.s.superClass == Some(Ident("BaseSeeder"))) &&
      (n.s.ExportDecl? && n.s.decl.ClassStmt? ==> n.s.decl.superClass == Some(Ident("BaseSeeder")))
  }

  lemma ExtendClean(c: Stmt)
    requires c.ClassStmt? && KidsCollS(c, Violations(ExtendsBaseSeeder)) == []
    ensures KidsCollS(Extend(c), Violations(ExtendsBaseSeeder)) == []
  {
    var v := Violations(ExtendsBaseSeeder);
    var base := Ident("BaseSeeder");
    assert ExtendsBaseSeeder(NE(base));
    assert v(NE(base)) == [];
    assert KidsCollE(base, v) == [];
    assert CollOpt(Some(base), v) == CollE(base, v);
  }

  /** A statement whose parts are clean is clean once its class extends `BaseSeeder`. */
  lemma ExtendStmtClean(s: Stmt, top: bool)
    requires KidsCollS(s, Violations(ExtendsBaseSeeder)) == []
    ensures CollSs(SeederRules().fs(s, top), Violations(ExtendsBaseSeeder)) == []
  {
    var v := Violations(ExtendsBaseSeeder);
    var t := ExtendClass(s);
    assert SeederRules().fs(s, top) == [t];
    assert CollSs([t], v) == CollS(t, v) + CollSs([], v);
    QuietNode(ExtendsBaseSeeder, NS(t));
    if s.ClassStmt? {
      ExtendClean(s);
    } else if s.ExportDecl? && s.decl.ClassStmt? {
      ExtendClean(s.decl);
      assert KidsCollS(t, v) == KidsCollS(Extend(s.decl), v);
    }
  }

  lemma RulesEstablish()
    ensures Establishes(SeederRules(), ExtendsBaseSeeder) && EstablishesAtTop(SeederRules(), ExtendsBaseSeeder)
    ensures Fixes(SeederRules(), ExtendsBaseSeeder)
  {
    var r := SeederRules();
    var v := Violations(ExtendsBaseSeeder);
    forall e: Expr | KidsCollE(e, v) == []
      ensures CollE(r.fe(e), v) == []
    {
      assert r.fe(e) == e;
    }
    forall s: Stmt, top: bool | KidsCollS(s, v) == []
      ensures CollSs(r.fs(s, top), v) == []
    {
      ExtendStmtClean(s, top);
    }
  }

  /** In a seed file every class declaration, at any depth, extends `BaseSeeder`. */
  lemma {:induction false} EveryClassExtendsBaseSeeder(p: Program, ctx: FileContext)
    requires IsSeedFile(ctx)
    ensures EverySs(ExtendsBaseSeeder, Seeder(p, ctx).body)
  {
    RulesEstablish();
    var body := InsertAfter(p.body, FindLastImportIndex(p.body, Tsx), SeederImport());
    EstablishSs(body, true, SeederRules(), ExtendsBaseSeeder);
  }

  /** With the `tsx` parser only import declarations count as imports. */
  lemma ImportLikeIsImport(s: Stmt)
    ensures IsImportLike(s, Tsx) <==> s.Import?
  {
  }

  /** Inserting the import before or after rewriting the classes gives the same body. */
  lemma {:induction false} InsertCommutes(body: seq<Stmt>, idx: int)
    requires -1 <= idx < |body|
    ensures |MapSs(body, true, SeederRules())| == |body|
    ensures MapSs(InsertAfter(body, idx, SeederImport()), true, SeederRules()) ==
      InsertAfter(MapSs(body, true, SeederRules()), idx, SeederImport())
  {
    var r := SeederRules();
    var a, b, imp := body[..idx + 1], body[idx + 1..], SeederImport();
    assert body == a + b;
    assert InsertAfter(body, idx, imp) == (a + [imp]) + b;
    MapSsAppend(a + [imp], b, true, r);
    MapSsAppend(a, [imp], true, r);
    MapSsAppend(a, b, true, r);
    assert MapSs([imp], true, r) == [imp];
    MapSsOneToOne(a, true, r, ExtendClass);
    MapSsOneToOne(body, true, r, ExtendClass);
  }

  /** Rewriting the classes keeps every statement's kind of import or not. */
  lemma KeepsImports(s: Stmt)
    ensures ExtendClass(KidsS(s, SeederRules())).Import? <==> s.Import?
  {
  }

  /** In a seed file the import goes in after the last import and the classes change: in either order. */
  lemma {:induction false} SeederInsertsImport(p: Program, ctx: FileContext)
    requires IsSeedFile(ctx)
    ensures |MapSs(p.body, true, SeederRules())| == |p.body|
    ensures Seeder(p, ctx).body == InsertAfter(MapSs(p.body, true, SeederRules()), FindLastImportIndex(p.body, Tsx), SeederImport())
  {
    InsertCommutes(p.body, FindLastImportIndex(p.body, Tsx));
  }

  /**
   * The new import stands right after the import declarations (first when there
   * is none) and is the last import of the file.
   */
  lemma {:induction false} ImportAfterLastImport(body: seq<Stmt>)
    ensures |MapSs(body, true, SeederRules())| == |body|
    ensures var idx := FindLastImportIndex(body, Tsx);
      var r := InsertAfter(MapSs(body, true, SeederRules()), idx, SeederImport());
      r[idx + 1] == SeederImport() && forall i :: idx + 1 < i < |r| ==> !r[i].Import?
  {
    ImportKindsKept(body);
    InsertAfterLastImport(body, MapSs(body, true, SeederRules()), FindLastImportIndex(body, Tsx), SeederImport());
  }

  /** The walk turns no statement into an import and none out of one. */
  lemma {:induction false} ImportKindsKept(body: seq<Stmt>)
    ensures |MapSs(body, true, SeederRules())| == |body|
    ensures forall j :: 0 <= j < |body| ==> (MapSs(body, true, SeederRules())[j].Import? <==> body[j].Import?)
  {
    MapSsOneToOne(body, true, SeederRules(), ExtendClass);
    forall j | 0 <= j < |body|
      ensures MapSs(body, true, SeederRules())[j].Import? <==> body[j].Import?
    {
      KeepsImports(body[j]);
    }
  }

  /** Every other statement keeps its relative place, with only its classes made to extend `BaseSeeder`. */
  lemma {:induction false} StatementsKeepTheirPlace(body: seq<Stmt>, idx: int)
    requires -1 <= idx < |body|
    ensures |MapSs(body, true, SeederRules())| == |body|
    ensures var r := InsertAfter(MapSs(body, true, SeederRules()), idx, SeederImport());
      |r| == |body| + 1 &&
      (forall i :: 0 <= i < |body| ==> r[if i <= idx then i else i + 1] == ExtendClass(KidsS(body[i], SeederRules())))
  {
    MapSsOneToOne(body, true, SeederRules(), ExtendClass);
    InsertAfterLayout(MapSs(body, true, SeederRules()), idx, SeederImport());
  }

  /** Classes that already extend `BaseSeeder` are left alone: then only the import is added. */
  lemma {:induction false} OnlyImportWhenClassesExtend(p: Program, ctx: FileContext)
    requires IsSeedFile(ctx) && EverySs(ExtendsBaseSeeder, p.body)
    ensures Seeder(p, ctx).body == InsertAfter(p.body, FindLastImportIndex(p.body, Tsx), SeederImport())
  {
    var idx := FindLastImportIndex(p.body, Tsx);
    RulesEstablish();
    FixSs(p.body, true, SeederRules(), ExtendsBaseSeeder);
    InsertCommutes(p.body, idx);
  }
}
