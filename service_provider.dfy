/**
 * The `adonis-service-provider` pass.  When the file imports `ServiceProvider`
 * from `@adonisjs/fold`, every class extending it loses its superclass and
 * gains `static needsApplication = true` and `constructor(protected app:
 * ApplicationContract)` as its first two members; inside such a class
 * `this.app.use` and its siblings go through `this.app.container`, and
 * `this.app.autoload(path, alias)` becomes an assignment to the container's
 * import aliases.  The `ServiceProvider` import gives way to
 * `import { ApplicationContract } from '@ioc:Adonis/Core/Application'`.
 */
module ServiceProvider {
  import opened Ast
  import opened Traverse
  import opened ImportSpecs

  function ContractImport(): Stmt {
    Import([ImportSpec(NamedSpec, "ApplicationContract", "ApplicationContract")], "@ioc:Adonis/Core/Application", [])
  }

  /** `public static needsApplication = true` (the accessibility is not part of the tree). */
  function NeedsApplication(): ClassMember {
    FieldDef("needsApplication", Some(Lit("true")), true, [], "")
  }

  /** `constructor (protected app: ApplicationContract) {}` */
  function AppConstructor(): ClassMember {
    MethodDef(KConstructor, false, "constructor", [ParamProp("protected", "app", "ApplicationContract")], [], [])
  }

  /** `this.app`, as the pattern matches it: whether computed or not is not looked at. */
  predicate IsThisApp(e: Expr) {
    e.Member? && e.obj.This? && IsIdent(e.prop, "app")
  }

  predicate IsContainerMethod(name: string) {
    name in ["use", "make", "bind", "alias", "singleton"]
  }

  /** `this.app.use` and the like, which are routed through the container. */
  predicate IsAppMethod(e: Expr) {
    e.Member? && IsThisApp(e.obj) && e.prop.Ident? && IsContainerMethod(e.prop.name)
  }

  /** `this.app.autoload(path, alias, ...)` */
  predicate IsAutoloadCall(e: Expr) {
    e.Call? && e.callee.Member? && IsThisApp(e.callee.obj) && IsIdent(e.callee.prop, "autoload") && |e.args| >= 2
  }

  /** `this.app.container.<name>`: `this.app` takes `app.container` as its property. */
  function ThroughContainer(e: Expr): (r: Expr)
    requires IsAppMethod(e)
    ensures r.Member? && r.prop == e.prop && r.computed == e.computed && !IsAppMethod(r)
  {
    Member(Member(e.obj.obj, Member(Ident("app"), Ident("container"), false), e.obj.computed), e.prop, e.computed)
  }

  /** `this.app.container.importAliases[alias] = path` */
  function AutoloadAssignment(path: Expr, alias: Expr): Expr {
    Assign("=",
      Member(This, Member(Ident("app"), Member(Ident("container"), Member(Ident("importAliases"), alias, true), false), false), false),
      path)
  }

  function ContainerRule(e: Expr): (r: Expr)
    ensures IsAppMethod(e) ==> r == ThroughContainer(e)
    ensures IsAutoloadCall(e) ==> r == AutoloadAssignment(e.args[0], e.args[1])
    ensures !IsAppMethod(e) && !IsAutoloadCall(e) ==> r == e
  {
    if IsAppMethod(e) then ThroughContainer(e)
    else if IsAutoloadCall(e) then AutoloadAssignment(e.args[0], e.args[1])
    else e
  }

  function ContainerRules(): Rules {
    Rules(ContainerRule, (s, top) => [s])
  }

  predicate IsProviderClass(s: Stmt, local: string) {
    s.ClassStmt? && s.superClass.Some? && IsIdent(s.superClass.value, local)
  }

  /** The service provider class rebuilt: no superclass, the two new members first, the container rewrites inside. */
  function Rebuild(c: Stmt): (r: Stmt)
    requires c.ClassStmt?
  {
    ClassStmt(c.id, None, [NeedsApplication(), AppConstructor()] + MapMs(c.members, ContainerRules()),
              MapEs(c.decorators, ContainerRules()), c.comments)
  }

  /** The rule for a class declaration, also under `export`. */
  function ProviderClass(local: string, s: Stmt): Stmt {
    if IsProviderClass(s, local) then Rebuild(s)
    else if s.ExportDecl? && IsProviderClass(s.decl, local) then ExportDecl(Rebuild(s.decl), s.comments)
    else s
  }

  function ProviderRules(local: string): Rules {
    Rules(e => e, (s, top) => [ProviderClass(local, s)])
  }

  function ServiceProvider(p: Program): Program {
    match FirstNamedSpec(p.body, "@adonisjs/fold", "ServiceProvider")
    case None => p
    case Some(pos) =>
      var local := p.body[pos.decl].specs[pos.spec].local;
      MapSsOneToOne(p.body, true, ProviderRules(local), s => ProviderClass(local, s));
      Program([ContractImport()] + RemoveSpecifier(MapSs(p.body, true, ProviderRules(local)), pos), p.comments)
  }

  /** The pass as the source runs it: find the binding, rebuild the classes, swap the import. */
  method Run(p: Program) returns (r: Program)
    ensures r == ServiceProvider(p)
  {
    var found := FirstNamedSpec(p.body, "@adonisjs/fold", "ServiceProvider");
    if found.None? {
      return p;
    }
    var pos := found.value;
    var localName := p.body[pos.decl].specs[pos.spec].local;
    var body := MapSs(p.body, true, ProviderRules(localName));
    MapSsOneToOne(p.body, true, ProviderRules(localName), s => ProviderClass(localName, s));
    body := RemoveSpecifier(body, pos);
    body := [ContractImport()] + body;
    r := Program(body, p.comments);
  }

  /** Two class members of the same kind with the same name. */
  predicate SameShape(a: ClassMember, b: ClassMember) {
    a.MethodDef? == b.MethodDef? && a.key == b.key && a.isStatic == b.isStatic &&
    (a.MethodDef? ==> a.kind == b.kind)
  }

  /**
   * A rebuilt provider class has no superclass, `needsApplication` as member 0,
   * the constructor as member 1, and then its own members in their order.
   */
  lemma RebuildLayout(c: Stmt)
    requires c.ClassStmt?
    ensures var r := Rebuild(c);
      r.ClassStmt? && r.id == c.id && r.superClass.None? && r.comments == c.comments &&
      |r.members| == |c.members| + 2 &&
      r.members[0] == NeedsApplication() && r.members[1] == AppConstructor() &&
      forall i :: 0 <= i < |c.members| ==> SameShape(r.members[i + 2], c.members[i])
  {
    MapMsAt(c.members, ContainerRules());
  }

  /** What is left of `this.app.<method>` inside a provider class: not a container method, not a two-argument `autoload` call. */
  predicate NotAppAccess(n: Node) {
    !(n.NE? && (IsAppMethod(n.e) || IsAutoloadCall(n.e)))
  }

  lemma ContainerRulesEstablish()
    ensures Establishes(ContainerRules(), NotAppAccess)
  {
    var r := ContainerRules();
    var v := Violations(NotAppAccess);
    forall e: Expr | KidsCollE(e, v) == []
      ensures CollE(r.fe(e), v) == []
    {
      if IsAppMethod(e) {
        ThroughContainerClean(e);
      } else if IsAutoloadCall(e) {
        AutoloadClean(e);
      }
    }
    forall s: Stmt | KidsCollS(s, v) == []
      ensures CollSs(r.fs(s, false), v) == []
    {
      assert CollSs([s], v) == CollS(s, v);
    }
  }

  lemma ThroughContainerClean(e: Expr)
    requires IsAppMethod(e) && KidsCollE(e, Violations(NotAppAccess)) == []
    ensures CollE(ThroughContainer(e), Violations(NotAppAccess)) == []
  {
    LeafClean(Ident("app"));
    LeafClean(Ident("container"));
    MemberClean(Ident("app"), Ident("container"), false);
    assert KidsCollE(e.obj, Violations(NotAppAccess)) == [];
    MemberClean(e.obj.obj, Member(Ident("app"), Ident("container"), false), e.obj.computed);
    MemberClean(Member(e.obj.obj, Member(Ident("app"), Ident("container"), false), e.obj.computed), e.prop, e.computed);
  }

  lemma AutoloadClean(e: Expr)
    requires IsAutoloadCall(e) && KidsCollE(e, Violations(NotAppAccess)) == []
    ensures CollE(AutoloadAssignment(e.args[0], e.args[1]), Violations(NotAppAccess)) == []
  {
    var v := Violations(NotAppAccess);
    CollEsAt(e.args, v, 0);
    CollEsAt(e.args, v, 1);
    LeafClean(Ident("importAliases"));
    MemberClean(Ident("importAliases"), e.args[1], true);
    var m4 := Member(Ident("importAliases"), e.args[1], true);
    LeafClean(Ident("container"));
    MemberClean(Ident("container"), m4, false);
    var m3 := Member(Ident("container"), m4, false);
    LeafClean(Ident("app"));
    MemberClean(Ident("app"), m3, false);
    var m2 := Member(Ident("app"), m3, false);
    LeafClean(This);
    MemberClean(This, m2, false);
  }

  lemma LeafClean(e: Expr)
    requires e.Ident? || e.This? || e.Lit? || e.Str?
    ensures CollE(e, Violations(NotAppAccess)) == []
  {
    assert NotAppAccess(NE(e));
    assert Violations(NotAppAccess)(NE(e)) == [];
    assert KidsCollE(e, Violations(NotAppAccess)) == [];
  }

  lemma MemberClean(o: Expr, p: Expr, c: bool)
    requires CollE(o, Violations(NotAppAccess)) == [] && CollE(p, Violations(NotAppAccess)) == []
    requires !IsAppMethod(Member(o, p, c))
    ensures CollE(Member(o, p, c), Violations(NotAppAccess)) == []
  {
    assert NotAppAccess(NE(Member(o, p, c)));
    assert Violations(NotAppAccess)(NE(Member(o, p, c))) == [];
    assert KidsCollE(Member(o, p, c), Violations(NotAppAccess)) == [];
  }

  /** Nothing is reported for a list means nothing is reported for any of its elements. */
  lemma {:induction false} CollEsAt<T>(es: seq<Expr>, pick: Node -> seq<T>, i: nat)
    requires CollEs(es, pick) == [] && i < |es|
    ensures CollE(es[i], pick) == []
  {
    if i > 0 {
      assert es[1..][i - 1] == es[i];
      CollEsAt(es[1..], pick, i - 1);
    }
  }

  /**
   * Inside a rebuilt provider class no `this.app.use`/`make`/`bind`/`alias`/`singleton`
   * and no two-argument `this.app.autoload(...)` call is left, at any depth.
   */
  lemma {:induction false} NoAppAccessLeft(c: Stmt)
    requires c.ClassStmt?
    ensures CollMs(Rebuild(c).members, Violations(NotAppAccess)) == []
    ensures CollEs(Rebuild(c).decorators, Violations(NotAppAccess)) == []
  {
    ContainerRulesEstablish();
    EstablishMs(c.members, ContainerRules(), NotAppAccess);
    EstablishEs(c.decorators, ContainerRules(), NotAppAccess);
    GeneratedMembersClean(MapMs(c.members, ContainerRules()));
  }

  /** The two generated members add nothing to clean members. */
  lemma GeneratedMembersClean(ms: seq<ClassMember>)
    requires CollMs(ms, Violations(NotAppAccess)) == []
    ensures CollMs([NeedsApplication(), AppConstructor()] + ms, Violations(NotAppAccess)) == []
  {
    var v := Violations(NotAppAccess);
    NeedsApplicationClean();
    AppConstructorClean();
    assert [NeedsApplication(), AppConstructor()] + ms == [NeedsApplication()] + ([AppConstructor()] + ms);
  }

  lemma NeedsApplicationClean()
    ensures CollM(NeedsApplication(), Violations(NotAppAccess)) == []
  {
    var v := Violations(NotAppAccess);
    assert CollOpt(Some(Lit("true")), v) == CollE(Lit("true"), v);
  }

  lemma AppConstructorClean()
    ensures CollM(AppConstructor(), Violations(NotAppAccess)) == []
  {
    var v := Violations(NotAppAccess);
    var pp := ParamProp("protected", "app", "ApplicationContract");
    assert CollEs([pp], v) == CollE(pp, v) + CollEs([], v);
  }

  predicate NotProviderClass(local: string, n: Node) {
    !(n.NS? && (IsProviderClass(n.s, local) || (n.s.ExportDecl? && IsProviderClass(n.s.decl, local))))
  }

  lemma ProviderRulesFix(local: string)
    ensures Fixes(ProviderRules(local), n => NotProviderClass(local, n))
  {
  }

  /**
   * In a file without a class extending the imported `ServiceProvider` the only
   * change is the import swap.
   */
  lemma {:induction false} OnlyImportsChangeWithoutProvider(p: Program)
    requires FirstNamedSpec(p.body, "@adonisjs/fold", "ServiceProvider").Some?
    requires var pos := FirstNamedSpec(p.body, "@adonisjs/fold", "ServiceProvider").value;
      EverySs(n => NotProviderClass(p.body[pos.decl].specs[pos.spec].local, n), p.body)
    ensures var pos := FirstNamedSpec(p.body, "@adonisjs/fold", "ServiceProvider").value;
      ServiceProvider(p).body == [ContractImport()] + RemoveSpecifier(p.body, pos)
  {
    var pos := FirstNamedSpec(p.body, "@adonisjs/fold", "ServiceProvider").value;
    var local := p.body[pos.decl].specs[pos.spec].local;
    ProviderRulesFix(local);
    FixSs(p.body, true, ProviderRules(local), n => NotProviderClass(local, n));
  }

  /**
   * The import swap: `import { ApplicationContract }` opens the file, and of the
   * bindings the imports held only the `ServiceProvider` one is gone.
   */
  lemma {:induction false} ImportSwapped(p: Program)
    requires FirstNamedSpec(p.body, "@adonisjs/fold", "ServiceProvider").Some?
    ensures ServiceProvider(p).body[0] == ContractImport()
    ensures var pos := FirstNamedSpec(p.body, "@adonisjs/fold", "ServiceProvider").value;
      multiset(AllSpecs(ServiceProvider(p).body)) ==
        multiset(AllSpecs(p.body)) - multiset{p.body[pos.decl].specs[pos.spec]} +
        multiset{ImportSpec(NamedSpec, "ApplicationContract", "ApplicationContract")}
  {
    var pos := FirstNamedSpec(p.body, "@adonisjs/fold", "ServiceProvider").value;
    var local := p.body[pos.decl].specs[pos.spec].local;
    var rewritten := MapSs(p.body, true, ProviderRules(local));
    ClassesKeepImports(p.body, local);
    RemoveSpecifierDropsOne(rewritten, pos);
    var removed := RemoveSpecifier(rewritten, pos);
    AllSpecsUncons([ContractImport()] + removed);
    assert ([ContractImport()] + removed)[1..] == removed;
  }

  /** The class rewrite leaves every import declaration where and as it was. */
  lemma ClassesKeepImports(body: seq<Stmt>, local: string)
    ensures var rewritten := MapSs(body, true, ProviderRules(local));
      |rewritten| == |body| && AllSpecs(rewritten) == AllSpecs(body) &&
      forall i :: 0 <= i < |body| && body[i].Import? ==> rewritten[i] == body[i]
  {
    MapSsOneToOne(body, true, ProviderRules(local), s => ProviderClass(local, s));
    AllSpecsPointwise(body, MapSs(body, true, ProviderRules(local)));
  }
}
