/**
 * The `adonis-remove-ioc-imported` pass: when the file imports `ioc` from
 * `@adonisjs/fold`, every `ioc.p` becomes `Application.container.p`, the `ioc`
 * binding is removed, and `import Application from '@ioc:Adonis/Core/Application'`
 * opens the file unless such an import is already there.
 */
module RemoveIoc {
  import opened Ast
  import opened Traverse
  import opened ImportSpecs

  /** `Application.container.<prop>` */
  function ContainerMember(prop: Expr): Expr {
    Member(Ident("Application"), Member(Ident("container"), prop, false), false)
  }

  /** A member expression on the local name of `ioc`. */
  predicate OnLocal(e: Expr, local: string) {
    e.Member? && IsIdent(e.obj, local)
  }

  function MemberRule(local: string, e: Expr): (r: Expr)
    ensures OnLocal(e, local) ==> r.Member? && r.obj == Ident("Application") && r.prop.Member? && r.prop.prop == e.prop
    ensures !OnLocal(e, local) ==> r == e
  {
    if OnLocal(e, local) then ContainerMember(e.prop) else e
  }

  function IocRules(local: string): Rules {
    Rules(e => MemberRule(local, e), (s, top) => [s])
  }

  /** The pass on a file whose `ioc` binding sits at `pos` under the local name `local`. */
  function RewriteFrom(body: seq<Stmt>, pos: SpecPos): (r: seq<Stmt>)
    requires ValidPos(body, pos)
  {
    var local := body[pos.decl].specs[pos.spec].local;
    var rewritten := MapSs(body, true, IocRules(local));
    MapSsTop(body, IocRules(local));
    var removed := RemoveSpecifier(rewritten, pos);
    if CountAppImports(removed) > 0 then removed else [AppImport()] + removed
  }

  function RemoveIoc(p: Program): Program {
    match FirstNamedSpec(p.body, "@adonisjs/fold", "ioc")
    case None => p
    case Some(pos) => Program(RewriteFrom(p.body, pos), p.comments)
  }

  /** The pass as the source runs it: find the binding, rewrite, remove it, add the import if missing. */
  method Run(p: Program) returns (r: Program)
    ensures r == RemoveIoc(p)
  {
    var found := FirstNamedSpec(p.body, "@adonisjs/fold", "ioc");
    if found.None? {
      return p;
    }
    var pos := found.value;
    var localName := p.body[pos.decl].specs[pos.spec].local;
    var body := MapSs(p.body, true, IocRules(localName));
    MapSsTop(p.body, IocRules(localName));
    body := RemoveSpecifier(body, pos);
    if CountAppImports(body) == 0 {
      body := [AppImport()] + body;
    }
    r := Program(body, p.comments);
  }

  predicate NotOnLocal(local: string, n: Node) {
    !(n.NE? && OnLocal(n.e, local))
  }

  lemma RulesEstablish(local: string)
    requires local != "Application" && local != "container"
    ensures Establishes(IocRules(local), n => NotOnLocal(local, n))
    ensures EstablishesAtTop(IocRules(local), n => NotOnLocal(local, n))
  {
    var r := IocRules(local);
    var q := (n: Node) => NotOnLocal(local, n);
    var v := Violations(q);
    forall e: Expr | KidsCollE(e, v) == []
      ensures CollE(r.fe(e), v) == []
    {
      if OnLocal(e, local) {
        var inner := Member(Ident("container"), e.prop, false);
        assert CollE(e.prop, v) == [];
        assert CollE(Ident("container"), v) == [];
        assert KidsCollE(inner, v) == [];
        assert CollE(inner, v) == [];
        assert CollE(Ident("Application"), v) == [];
      }
    }
    forall s: Stmt, top: bool | KidsCollS(s, v) == []
      ensures CollSs(r.fs(s, top), v) == []
    {
      assert CollSs([s], v) == CollS(s, v);
    }
  }

  /**
   * No member expression on the `ioc` name is left anywhere in the file
   * (unless that name is `Application` or `container`, which the
   * replacement itself mentions).
   */
  lemma {:induction false} NoIocMemberLeft(p: Program)
    requires FirstNamedSpec(p.body, "@adonisjs/fold", "ioc").Some?
    requires var pos := FirstNamedSpec(p.body, "@adonisjs/fold", "ioc").value;
      var local := p.body[pos.decl].specs[pos.spec].local;
      local != "Application" && local != "container"
    ensures var pos := FirstNamedSpec(p.body, "@adonisjs/fold", "ioc").value;
      var local := p.body[pos.decl].specs[pos.spec].local;
      EverySs(n => NotOnLocal(local, n), RemoveIoc(p).body)
  {
    var pos := FirstNamedSpec(p.body, "@adonisjs/fold", "ioc").value;
    var local := p.body[pos.decl].specs[pos.spec].local;
    var q := (n: Node) => NotOnLocal(local, n);
    RulesEstablish(local);
    EstablishSs(p.body, true, IocRules(local), q);
    var rewritten := MapSs(p.body, true, IocRules(local));
    MapSsTop(p.body, IocRules(local));
    EveryAfterRemoveSpecifier(q, rewritten, pos);
    var removed := RemoveSpecifier(rewritten, pos);
    if CountAppImports(removed) == 0 {
      EverySsAppend(q, [AppImport()], removed);
      assert CollSs([AppImport()], Violations(q)) == CollS(AppImport(), Violations(q));
    }
  }

  /** Rewriting inside statements never makes or unmakes an `Application` import. */
  lemma CountAfterRewrite(body: seq<Stmt>, local: string)
    ensures CountAppImports(MapSs(body, true, IocRules(local))) == CountAppImports(body)
  {
    MapSsTop(body, IocRules(local));
    CountPointwise(body, MapSs(body, true, IocRules(local)));
  }

  /** Removing the `ioc` binding never removes an `Application` import. */
  lemma CountAfterRemove(body: seq<Stmt>, pos: SpecPos)
    requires ValidPos(body, pos) && body[pos.decl].source == "@adonisjs/fold"
    ensures CountAppImports(RemoveSpecifier(body, pos)) == CountAppImports(body)
  {
    var d := pos.decl;
    assert body == body[..d] + [body[d]] + body[d + 1..];
    CountAppend(body[..d] + [body[d]], body[d + 1..]);
    CountAppend(body[..d], [body[d]]);
    var r := RemoveSpecifier(body, pos);
    if |body[d].specs| > 1 {
      assert r == body[..d] + [r[d]] + body[d + 1..];
      CountAppend(body[..d] + [r[d]], body[d + 1..]);
      CountAppend(body[..d], [r[d]]);
    } else {
      CountAppend(body[..d], body[d + 1..]);
    }
  }

  /**
   * After the pass the file has an `Application` import, and one was added
   * only when there was none: an existing one is never duplicated.
   */
  lemma AppImportNeverDuplicated(p: Program)
    requires FirstNamedSpec(p.body, "@adonisjs/fold", "ioc").Some?
    ensures var n := CountAppImports(p.body);
      CountAppImports(RemoveIoc(p).body) == if n == 0 then 1 else n
    ensures CountAppImports(p.body) == 0 ==> RemoveIoc(p).body[0] == AppImport()
  {
    var pos := FirstNamedSpec(p.body, "@adonisjs/fold", "ioc").value;
    var local := p.body[pos.decl].specs[pos.spec].local;
    var rewritten := MapSs(p.body, true, IocRules(local));
    MapSsTop(p.body, IocRules(local));
    CountAfterRewrite(p.body, local);
    CountAfterRemove(rewritten, pos);
    var removed := RemoveSpecifier(rewritten, pos);
    CountAppend([AppImport()], removed);
  }

  /**
   * Of the bindings the imports hold, the `ioc` one goes and the default
   * `Application` one comes when it was missing; every other one is kept.
   */
  lemma OnlyIocBindingRemoved(p: Program)
    requires FirstNamedSpec(p.body, "@adonisjs/fold", "ioc").Some?
    ensures var pos := FirstNamedSpec(p.body, "@adonisjs/fold", "ioc").value;
      multiset(AllSpecs(RemoveIoc(p).body)) ==
        multiset(AllSpecs(p.body)) - multiset{p.body[pos.decl].specs[pos.spec]} +
        (if CountAppImports(p.body) == 0 then multiset{ImportSpec(DefaultSpec, "", "Application")} else multiset{})
  {
    var pos := FirstNamedSpec(p.body, "@adonisjs/fold", "ioc").value;
    var local := p.body[pos.decl].specs[pos.spec].local;
    var rewritten := MapSs(p.body, true, IocRules(local));
    MapSsTop(p.body, IocRules(local));
    assert AllSpecs(rewritten) == AllSpecs(p.body) by {
      AllSpecsPointwise(p.body, rewritten);
    }
    CountAfterRewrite(p.body, local);
    CountAfterRemove(rewritten, pos);
    RemoveSpecifierDropsOne(rewritten, pos);
    var removed := RemoveSpecifier(rewritten, pos);
    AllSpecsAppend([AppImport()], removed);
    assert AllSpecs([AppImport()]) == SpecsOf(AppImport()) + AllSpecs([]);
  }
}
