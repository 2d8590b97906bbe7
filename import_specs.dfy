/**
 * Finding one named binding among the program's import declarations and
 * removing it again, as the `remove-ioc` and `service-provider` passes do with
 * `import { ioc } from '@adonisjs/fold'` and `import { ServiceProvider } from ...`.
 */
module ImportSpecs {
  import opened Ast
  import opened Traverse

  /** Where a specifier sits: the index of its declaration in the body and its index among the specifiers. */
  datatype SpecPos = SpecPos(decl: nat, spec: nat)

  predicate IsNamed(sp: ImportSpec, name: string) {
    sp.kind == NamedSpec && sp.imported == name
  }

  /** Statement `i` imports from `source` and its specifier `k` is `{ name }` or `{ name as ... }`. */
  predicate NamedSpecAt(body: seq<Stmt>, source: string, name: string, i: int, k: int) {
    0 <= i < |body| && body[i].Import? && body[i].source == source &&
    0 <= k < |body[i].specs| && IsNamed(body[i].specs[k], name)
  }

  predicate ValidPos(body: seq<Stmt>, pos: SpecPos) {
    pos.decl < |body| && body[pos.decl].Import? && pos.spec < |body[pos.decl].specs|
  }

  /** The first matching specifier at or after `k` in one declaration. */
  function SpecIndex(specs: seq<ImportSpec>, name: string, k: nat): (r: Option<nat>)
    requires k <= |specs|
    ensures r.Some? ==> k <= r.value < |specs| && IsNamed(specs[r.value], name)
    ensures r.Some? ==> forall j :: k <= j < r.value ==> !IsNamed(specs[j], name)
    ensures r.None? ==> forall j :: k <= j < |specs| ==> !IsNamed(specs[j], name)
    decreases |specs| - k
  {
    if k == |specs| then None
    else if IsNamed(specs[k], name) then Some(k)
    else SpecIndex(specs, name, k + 1)
  }

  /** The first matching specifier, in document order, in declarations `i` onwards. */
  function FirstFrom(body: seq<Stmt>, source: string, name: string, i: nat): (r: Option<SpecPos>)
    requires i <= |body|
    ensures r.Some? ==> i <= r.value.decl && NamedSpecAt(body, source, name, r.value.decl, r.value.spec)
    ensures r.Some? ==> forall d, k :: i <= d < r.value.decl && NamedSpecAt(body, source, name, d, k) ==> false
    ensures r.Some? ==> forall k :: 0 <= k < r.value.spec ==> !NamedSpecAt(body, source, name, r.value.decl, k)
    ensures r.None? ==> forall d, k :: i <= d && NamedSpecAt(body, source, name, d, k) ==> false
    decreases |body| - i
  {
    if i == |body| then None
    else if body[i].Import? && body[i].source == source && SpecIndex(body[i].specs, name, 0).Some? then
      Some(SpecPos(i, SpecIndex(body[i].specs, name, 0).value))
    else FirstFrom(body, source, name, i + 1)
  }

  /**
   * `root.find(ImportDeclaration, { source }).find(ImportSpecifier, { imported: { name } }).get(0)`:
   * the first such specifier in document order, or none.
   */
  function FirstNamedSpec(body: seq<Stmt>, source: string, name: string): (r: Option<SpecPos>)
    ensures r.Some? ==> ValidPos(body, r.value) && NamedSpecAt(body, source, name, r.value.decl, r.value.spec)
    ensures r.None? <==> forall d, k :: !NamedSpecAt(body, source, name, d, k)
    ensures r.Some? ==> forall d, k :: NamedSpecAt(body, source, name, d, k) ==>
      r.value.decl < d || (r.value.decl == d && r.value.spec <= k)
  {
    FirstFrom(body, source, name, 0)
  }

  /** `import Application from '@ioc:Adonis/Core/Application'` */
  function AppImport(): Stmt {
    Import([ImportSpec(DefaultSpec, "", "Application")], "@ioc:Adonis/Core/Application", [])
  }

  /** An import from `@ioc:Adonis/Core/Application` whose first specifier is the default `Application`. */
  predicate IsAppImport(s: Stmt) {
    s.Import? && s.source == "@ioc:Adonis/Core/Application" && |s.specs| > 0 &&
    s.specs[0].kind == DefaultSpec && s.specs[0].local == "Application"
  }

  function CountAppImports(body: seq<Stmt>): nat {
    if body == [] then 0 else (if IsAppImport(body[0]) then 1 else 0) + CountAppImports(body[1..])
  }

  lemma {:induction false} CountAppend(a: seq<Stmt>, b: seq<Stmt>)
    ensures CountAppImports(a + b) == CountAppImports(a) + CountAppImports(b)
  {
    if a == [] {
      assert a + b == b;
    } else {
      assert (a + b)[0] == a[0];
      assert (a + b)[1..] == a[1..] + b;
      CountAppend(a[1..], b);
    }
  }

  /** Two bodies whose statements agree, position by position, on being an `Application` import. */
  lemma {:induction false} CountPointwise(a: seq<Stmt>, b: seq<Stmt>)
    requires |a| == |b|
    requires forall i :: 0 <= i < |a| ==> IsAppImport(a[i]) == IsAppImport(b[i])
    ensures CountAppImports(a) == CountAppImports(b)
  {
    if a != [] {
      CountPointwise(a[1..], b[1..]);
    }
  }

  /** Every binding imported by the body's top-level import declarations, in order. */
  function AllSpecs(body: seq<Stmt>): seq<ImportSpec> {
    if body == [] then [] else SpecsOf(body[0]) + AllSpecs(body[1..])
  }

  function SpecsOf(s: Stmt): seq<ImportSpec> {
    if s.Import? then s.specs else []
  }

  lemma {:induction false} AllSpecsAppend(a: seq<Stmt>, b: seq<Stmt>)
    ensures AllSpecs(a + b) == AllSpecs(a) + AllSpecs(b)
  {
    if a == [] {
      assert a + b == b;
    } else {
      assert (a + b)[0] == a[0];
      assert (a + b)[1..] == a[1..] + b;
      AllSpecsAppend(a[1..], b);
    }
  }

  /** The body around position `d`: what comes before, the statement, what comes after. */
  lemma AllSpecsAround(body: seq<Stmt>, d: nat)
    requires d < |body|
    ensures AllSpecs(body) == AllSpecs(body[..d]) + SpecsOf(body[d]) + AllSpecs(body[d + 1..])
  {
    AllSpecsSplit(body, d);
    AllSpecsUncons(body[d..]);
    DropCons(body, d);
    AppendAssoc(AllSpecs(body[..d]), SpecsOf(body[d]), AllSpecs(body[d + 1..]));
  }

  lemma AllSpecsSplit(body: seq<Stmt>, d: nat)
    requires d <= |body|
    ensures AllSpecs(body) == AllSpecs(body[..d]) + AllSpecs(body[d..])
  {
    TakeDrop(body, d);
    AllSpecsAppend(body[..d], body[d..]);
  }

  lemma AllSpecsUncons(body: seq<Stmt>)
    requires body != []
    ensures AllSpecs(body) == SpecsOf(body[0]) + AllSpecs(body[1..])
  {
  }

  /** Two bodies whose statements agree on being imports and on what they import. */
  lemma {:induction false} AllSpecsPointwise(a: seq<Stmt>, b: seq<Stmt>)
    requires |a| == |b|
    requires forall i :: 0 <= i < |a| ==> a[i].Import? == b[i].Import? && (a[i].Import? ==> a[i].specs == b[i].specs)
    ensures AllSpecs(a) == AllSpecs(b)
  {
    if a != [] {
      AllSpecsPointwise(a[1..], b[1..]);
    }
  }

  /** The declaration at `pos.decl` removed from the body, with every binding it imports. */
  function RemoveDeclaration(body: seq<Stmt>, pos: SpecPos): (r: seq<Stmt>)
    requires ValidPos(body, pos)
    ensures |r| == |body| - 1
  {
    body[..pos.decl] + body[pos.decl + 1..]
  }

  /**
   * How the passes remove a found specifier: the specifier alone goes while the
   * declaration imports something else, the declaration goes with its last one.
   * The specifier count is read off the `specifiers` list two paths above the
   * specifier's first child path, and the declaration is that child path's parent node.
   */
  function RemoveSpecifier(body: seq<Stmt>, pos: SpecPos): (r: seq<Stmt>)
    requires ValidPos(body, pos)
    ensures |body[pos.decl].specs| > 1 ==> |r| == |body| && forall i :: 0 <= i < |body| && i != pos.decl ==> r[i] == body[i]
    ensures |body[pos.decl].specs| == 1 ==> r == RemoveDeclaration(body, pos)
  {
    var s := body[pos.decl];
    if |s.specs| > 1 then
      body[pos.decl := Import(s.specs[..pos.spec] + s.specs[pos.spec + 1..], s.source, s.comments)]
    else
      RemoveDeclaration(body, pos)
  }

  /** Removing the declaration drops every binding it imported, not only the one looked for. */
  lemma RemoveDeclarationDropsAll(body: seq<Stmt>, pos: SpecPos)
    requires ValidPos(body, pos)
    ensures multiset(AllSpecs(RemoveDeclaration(body, pos))) == multiset(AllSpecs(body)) - multiset(body[pos.decl].specs)
  {
    AllSpecsAround(body, pos.decl);
    AllSpecsAppend(body[..pos.decl], body[pos.decl + 1..]);
  }

  /** The removal drops exactly the one binding and keeps every other one. */
  lemma RemoveSpecifierDropsOne(body: seq<Stmt>, pos: SpecPos)
    requires ValidPos(body, pos)
    ensures multiset(AllSpecs(RemoveSpecifier(body, pos))) == multiset(AllSpecs(body)) - multiset{body[pos.decl].specs[pos.spec]}
  {
    var specs := body[pos.decl].specs;
    var k := pos.spec;
    assert specs == specs[..k] + [specs[k]] + specs[k + 1..];
    if |specs| > 1 {
      ShrinkDeclaration(body, pos);
    } else {
      RemoveDeclarationDropsAll(body, pos);
      assert specs == [specs[k]];
    }
  }

  /** With other bindings left, the declaration keeps them in their order. */
  lemma ShrinkDeclaration(body: seq<Stmt>, pos: SpecPos)
    requires ValidPos(body, pos) && |body[pos.decl].specs| > 1
    ensures var specs := body[pos.decl].specs;
      AllSpecs(RemoveSpecifier(body, pos)) ==
        AllSpecs(body[..pos.decl]) + (specs[..pos.spec] + specs[pos.spec + 1..]) + AllSpecs(body[pos.decl + 1..])
    ensures AllSpecs(body) == AllSpecs(body[..pos.decl]) + body[pos.decl].specs + AllSpecs(body[pos.decl + 1..])
  {
    var r := RemoveSpecifier(body, pos);
    var s := body[pos.decl];
    UpdateAround(body, pos.decl, Import(s.specs[..pos.spec] + s.specs[pos.spec + 1..], s.source, s.comments));
    AllSpecsAround(body, pos.decl);
    AllSpecsAround(r, pos.decl);
  }

  /** A property of nodes that every import declaration has survives the removal. */
  lemma EveryAfterRemoveSpecifier(q: Node -> bool, body: seq<Stmt>, pos: SpecPos)
    requires ValidPos(body, pos) && EverySs(q, body)
    requires forall s: Stmt :: s.Import? ==> q(NS(s))
    ensures EverySs(q, RemoveSpecifier(body, pos))
  {
    var d := pos.decl;
    assert body == body[..d] + [body[d]] + body[d + 1..];
    EverySsAppend(q, body[..d] + [body[d]], body[d + 1..]);
    EverySsAppend(q, body[..d], [body[d]]);
    var r := RemoveSpecifier(body, pos);
    if |body[d].specs| > 1 {
      assert r == body[..d] + [r[d]] + body[d + 1..];
      EverySsAppend(q, body[..d] + [r[d]], body[d + 1..]);
      EverySsAppend(q, body[..d], [r[d]]);
      assert q(NS(r[d]));
      assert CollSs([r[d]], Violations(q)) == CollS(r[d], Violations(q));
    } else {
      EverySsAppend(q, body[..d], body[d + 1..]);
    }
  }
}
