/**
 * The `named-export-generation` pass.  Given `export default <object>` or
 * `export default <name>`, it finds the object literals that give the default
 * export its properties (the declarator `<name> = { ... }`, the assignments
 * `<name> = { ... }` and `<name>.k = v`), keeps the last non-empty one, and adds
 * `export { ... }` for its identifier-valued properties and
 * `export const { ... } = <name>` for the others, skipping every name some
 * export of the file already covers.  An object default export is first moved
 * into `const <fresh name> = { ... }`.
 */
module NamedExports {
  import opened Ast
  import opened Traverse
  import opened Strings
  import opened Cursor

  // ================================================================ the generated name

  /** The `k`-th probe of `generateDefaultExportName`: `exported`, `exported2`, `exported3`, ... */
  function Candidate(k: nat): string {
    if k <= 1 then "exported" else "exported" + NatToString(k)
  }

  /** The probes from the first on are pairwise different. */
  ghost predicate ProbesDiffer(probe: nat -> string) {
    forall a, b :: 1 <= a < b ==> probe(a) != probe(b)
  }

  lemma {:induction false} CandidatesDiffer()
    ensures ProbesDiffer(Candidate)
  {
    forall a, b | 1 <= a < b
      ensures Candidate(a) != Candidate(b)
    {
      var sb := Candidate(b);
      assert sb[8..] == NatToString(b);
      if a >= 2 {
        var sa := Candidate(a);
        assert sa[8..] == NatToString(a);
        if sa == sb {
          NatToStringInjective(a, b);
        }
      } else {
        assert |sb| > 8;
      }
    }
  }

  /** How many names of `ids` the probes from the `k`-th on can still hit. */
  ghost function Remaining(ids: set<string>, probe: nat -> string, k: nat): nat {
    |ids - set j | 1 <= j < k :: probe(j)|
  }

  lemma {:induction false} TriedGrows(ids: set<string>, probe: nat -> string, k: nat)
    requires ProbesDiffer(probe) && k >= 1 && probe(k) in ids
    ensures Remaining(ids, probe, k + 1) < Remaining(ids, probe, k)
  {
    var c := probe(k);
    var before, after := set j | 1 <= j < k :: probe(j), set j | 1 <= j < k + 1 :: probe(j);
    assert c in after;
    assert after == before + {c};
    forall x | x in before
      ensures x != c
    {
      var j :| 1 <= j < k && x == probe(j);
    }
    assert ids - after == (ids - before) - {c};
    assert c in ids - before;
  }

  /** The index of the first probe from the `k`-th on that is not among `ids`. */
  function FreeIndex(ids: set<string>, probe: nat -> string, k: nat): (r: nat)
    requires ProbesDiffer(probe) && k >= 1
    ensures r >= k && probe(r) !in ids
    decreases Remaining(ids, probe, k)
  {
    if probe(k) !in ids then k
    else
      TriedGrows(ids, probe, k);
      FreeIndex(ids, probe, k + 1)
  }

  /** Every probe before the free one is taken: the free one is the first. */
  lemma {:induction false} FreeIndexIsFirst(ids: set<string>, probe: nat -> string, k: nat)
    requires ProbesDiffer(probe) && k >= 1
    ensures forall j :: k <= j < FreeIndex(ids, probe, k) ==> probe(j) in ids
    decreases Remaining(ids, probe, k)
  {
    if probe(k) in ids {
      TriedGrows(ids, probe, k);
      FreeIndexIsFirst(ids, probe, k + 1);
      var r := FreeIndex(ids, probe, k + 1);
      assert FreeIndex(ids, probe, k) == r;
      forall j | k <= j < r
        ensures probe(j) in ids
      {
        if j != k {
          assert k + 1 <= j < r;
        }
      }
    }
  }

  /** The name `generateDefaultExportName` settles on for a file whose identifiers are `ids`. */
  function FreshName(ids: set<string>): string {
    CandidatesDiffer();
    Candidate(FreeIndex(ids, Candidate, 1))
  }

  /** Names of import specifiers: a named specifier has an imported and a local identifier. */
  function SpecNames(specs: seq<ImportSpec>): seq<string> {
    if specs == [] then []
    else (if specs[0].kind == NamedSpec then [specs[0].imported, specs[0].local] else [specs[0].local]) + SpecNames(specs[1..])
  }

  function ExportSpecNames(xs: seq<ExportSpec>): seq<string> {
    if xs == [] then [] else [xs[0].local, xs[0].exported] + ExportSpecNames(xs[1..])
  }

  /** The names of the identifier nodes a node has of its own (its other parts are nodes of their own). */
  function IdentNames(n: Node): seq<string> {
    match n
    case NE(e) => if e.Ident? then [e.name] else []
    case NM(m) => [m.key]
    case NS(s) =>
      if s.Import? then SpecNames(s.specs)
      else if s.ClassStmt? then [s.id]
      else if s.FuncDecl? then [s.name]
      else if s.ExportList? then ExportSpecNames(s.exports)
      else []
    case _ => []
  }

  /** Every name an `Identifier` node of the file carries, at any depth. */
  function Identifiers(body: seq<Stmt>): set<string> {
    set n | n in CollSs(body, IdentNames)
  }

  /** `generateDefaultExportName`: probe until no identifier of the file has the name. */
  method GenerateName(ids: set<string>) returns (name: string)
    ensures name == FreshName(ids)
  {
    CandidatesDiffer();
    var index := 2;
    name := "exported";
    while name in ids
      invariant index >= 2 && name == Candidate(index - 1)
      invariant FreeIndex(ids, Candidate, 1) == FreeIndex(ids, Candidate, index - 1)
      decreases Remaining(ids, Candidate, index - 1)
    {
      TriedGrows(ids, Candidate, index - 1);
      name := "exported" + NatToString(index);
      index := index + 1;
    }
  }

  /** The generated name is new to the file, and every earlier probe was taken. */
  lemma GeneratedNameFresh(body: seq<Stmt>)
    ensures var ids := Identifiers(body);
      FreshName(ids) !in CollSs(body, IdentNames) &&
      (CandidatesDiffer();
       forall j :: 1 <= j < FreeIndex(ids, Candidate, 1) ==> Candidate(j) in CollSs(body, IdentNames))
  {
    CandidatesDiffer();
    FreeIndexIsFirst(Identifiers(body), Candidate, 1);
  }

  // ================================================================ the mutated properties

  /** One entry of the `mutatedProps` dictionary. */
  datatype Slot = Slot(key: string, prop: Prop)

  function Keys(m: seq<Slot>): (r: seq<string>)
    ensures |r| == |m|
    ensures forall i :: 0 <= i < |m| ==> r[i] == m[i].key
  {
    if m == [] then [] else [m[0].key] + Keys(m[1..])
  }

  /** `Object.keys(mutatedProps).map(key => mutatedProps[key])` */
  function Values(m: seq<Slot>): (r: seq<Prop>)
    ensures |r| == |m|
    ensures forall i :: 0 <= i < |m| ==> r[i] == m[i].prop
  {
    if m == [] then [] else [m[0].prop] + Values(m[1..])
  }

  function Get(m: seq<Slot>, k: string): Option<Prop> {
    if m == [] then None else if m[0].key == k then Some(m[0].prop) else Get(m[1..], k)
  }

  /**
   * `mutatedProps[k] = p`: the entry is overwritten where it stands, or a new
   * one is added at the end, so keys keep the order of first insertion.
   */
  function Put(m: seq<Slot>, k: string, p: Prop): (r: seq<Slot>)
    ensures Get(r, k) == Some(p)
    ensures forall k' :: k' != k ==> Get(r, k') == Get(m, k')
    ensures Keys(r) == if k in Keys(m) then Keys(m) else Keys(m) + [k]
  {
    if m == [] then [Slot(k, p)]
    else if m[0].key == k then [Slot(k, p)] + m[1..]
    else
      assert Keys(m) == [m[0].key] + Keys(m[1..]);
      [m[0]] + Put(m[1..], k, p)
  }

  predicate Distinct(ks: seq<string>) {
    forall i, j :: 0 <= i < j < |ks| ==> ks[i] != ks[j]
  }

  lemma PutKeepsDistinct(m: seq<Slot>, k: string, p: Prop)
    requires Distinct(Keys(m))
    ensures Distinct(Keys(Put(m, k, p)))
  {
  }

  /** The dictionary key a property gets: `prop.key.name`, which is `undefined` for a non-identifier key. */
  function KeyName(key: Expr): string {
    if key.Ident? then key.name else "undefined"
  }

  /** `root.find(ExpressionStatement, { <name> = { ... } })`: the properties, in statement order. */
  function WholeAssign(name: string): Node -> seq<Prop> {
    (n: Node) => if n.NS? && n.s.ExprStmt? && n.s.expr.Assign? && n.s.expr.op == "=" &&
            IsIdent(n.s.expr.left, name) && n.s.expr.right.Object?
         then n.s.expr.right.props else []
  }

  /** One statement `<name>.<prop> = value`. */
  datatype Write = Write(prop: Expr, value: Expr)

  function MemberAssign(name: string): Node -> seq<Write> {
    (n: Node) => if n.NS? && n.s.ExprStmt? && n.s.expr.Assign? && n.s.expr.op == "=" &&
            n.s.expr.left.Member? && IsIdent(n.s.expr.left.obj, name)
         then [Write(n.s.expr.left.prop, n.s.expr.right)] else []
  }

  /** The properties of `<name> = { ... }` put in one after another. */
  function PutAll(m: seq<Slot>, ps: seq<Prop>): seq<Slot>
    decreases |ps|
  {
    if ps == [] then m else PutAll(Put(m, KeyName(ps[0].key), ps[0]), ps[1..])
  }

  /**
   * `<name>.k = v` puts the new property `k: v`; `j.identifier` fails on the
   * missing name of a non-identifier property.
   */
  function PutWrites(m: seq<Slot>, ws: seq<Write>): Option<seq<Slot>>
    decreases |ws|
  {
    if ws == [] then Some(m)
    else if !ws[0].prop.Ident? then None
    else PutWrites(Put(m, ws[0].prop.name, Prop(Ident(ws[0].prop.name), ws[0].value, false, false, [])), ws[1..])
  }

  /** The `mutatedProps` dictionary: first the object assignments, then the member assignments. */
  function Mutations(body: seq<Stmt>, name: string): Option<seq<Slot>> {
    PutWrites(PutAll([], CollSs(body, WholeAssign(name))), CollSs(body, MemberAssign(name)))
  }

  method CollectMutations(wholes: seq<Prop>, writes: seq<Write>) returns (r: Option<seq<Slot>>)
    ensures r == PutWrites(PutAll([], wholes), writes)
  {
    var m: seq<Slot> := [];
    for i := 0 to |wholes|
      invariant PutAll(m, wholes[i..]) == PutAll([], wholes)
    {
      assert wholes[i..][1..] == wholes[i + 1..];
      m := Put(m, KeyName(wholes[i].key), wholes[i]);
    }
    assert wholes[|wholes|..] == [];
    ghost var m1 := m;
    for i := 0 to |writes|
      invariant PutWrites(m, writes[i..]) == PutWrites(m1, writes)
    {
      assert writes[i..][1..] == writes[i + 1..];
      var w := writes[i];
      if !w.prop.Ident? {
        return None;
      }
      m := Put(m, w.prop.name, Prop(Ident(w.prop.name), w.value, false, false, []));
    }
    assert writes[|writes|..] == [];
    r := Some(m);
  }

  /** The last property of `ps` with dictionary key `k`, if any. */
  function LastWith(ps: seq<Prop>, k: string): Option<Prop>
    decreases |ps|
  {
    if ps == [] then None
    else if LastWith(ps[1..], k).Some? then LastWith(ps[1..], k)
    else if KeyName(ps[0].key) == k then Some(ps[0])
    else None
  }

  function OrElse(a: Option<Prop>, b: Option<Prop>): Option<Prop> {
    if a.Some? then a else b
  }

  /** Within the object assignments, a later property overrides an earlier one of the same key. */
  lemma {:induction false} LaterPropertyWins(m: seq<Slot>, ps: seq<Prop>, k: string)
    ensures Get(PutAll(m, ps), k) == OrElse(LastWith(ps, k), Get(m, k))
    decreases |ps|
  {
    if ps != [] {
      LaterPropertyWins(Put(m, KeyName(ps[0].key), ps[0]), ps[1..], k);
    }
  }

  /** The name a member assignment writes, if it is an identifier. */
  function WriteName(w: Write): Option<string> {
    if w.prop.Ident? then Some(w.prop.name) else None
  }

  /** The value of the last member assignment to `k`, if any. */
  function LastWrite(ws: seq<Write>, k: string): Option<Expr>
    decreases |ws|
  {
    if ws == [] then None
    else if LastWrite(ws[1..], k).Some? then LastWrite(ws[1..], k)
    else if WriteName(ws[0]) == Some(k) then Some(ws[0].value)
    else None
  }

  /**
   * Member assignments come last: `<name>.k = v` wins over every `k` of an
   * object assignment, and the last of them wins among themselves.
   */
  lemma {:induction false} LaterWriteWins(m: seq<Slot>, ws: seq<Write>, k: string)
    requires PutWrites(m, ws).Some?
    ensures var r := PutWrites(m, ws).value;
      Get(r, k) == if LastWrite(ws, k).Some? then Some(Prop(Ident(k), LastWrite(ws, k).value, false, false, [])) else Get(m, k)
    decreases |ws|
  {
    if ws != [] {
      var w := ws[0];
      LaterWriteWins(Put(m, w.prop.name, Prop(Ident(w.prop.name), w.value, false, false, [])), ws[1..], k);
    }
  }

  /** The dictionary keys of the properties, in order. */
  function PropKeys(ps: seq<Prop>): (r: seq<string>)
    ensures |r| == |ps|
    ensures forall i :: 0 <= i < |ps| ==> r[i] == KeyName(ps[i].key)
  {
    if ps == [] then [] else [KeyName(ps[0].key)] + PropKeys(ps[1..])
  }

  /** Keys already present keep their place, new keys come from the properties, and the keys stay distinct. */
  lemma {:induction false} KeysInFirstInsertionOrder(m: seq<Slot>, ps: seq<Prop>)
    requires Distinct(Keys(m))
    ensures Keys(m) <= Keys(PutAll(m, ps)) && Distinct(Keys(PutAll(m, ps)))
    ensures forall k :: k in Keys(PutAll(m, ps)) <==> k in Keys(m) || k in PropKeys(ps)
    decreases |ps|
  {
    if ps != [] {
      var m1 := Put(m, KeyName(ps[0].key), ps[0]);
      PutKeepsDistinct(m, KeyName(ps[0].key), ps[0]);
      KeysInFirstInsertionOrder(m1, ps[1..]);
      assert PropKeys(ps) == [KeyName(ps[0].key)] + PropKeys(ps[1..]);
    }
  }

  // ================================================================ the chosen object

  /** `root.find(VariableDeclarator, { id: <name>, init: ObjectExpression })`: each object's properties. */
  function DeclaredObject(name: string): Node -> seq<seq<Prop>> {
    (n: Node) => if n.ND? && IsIdent(n.d.id, name) && n.d.init.Some? && n.d.init.value.Object?
         then [n.d.init.value.props] else []
  }

  /** `objectExpressions`: the declared objects, then the mutation object when it has a key. */
  function Objects(body: seq<Stmt>, name: string, m: seq<Slot>): seq<seq<Prop>> {
    CollSs(body, DeclaredObject(name)) + (if m == [] then [] else [Values(m)])
  }

  /** The last non-empty property list; empty when there is none. */
  function LastNonEmpty(objs: seq<seq<Prop>>): (r: seq<Prop>)
    ensures r == [] ==> forall i :: 0 <= i < |objs| ==> objs[i] == []
    ensures r != [] ==> exists i :: 0 <= i < |objs| && objs[i] == r && forall j :: i < j < |objs| ==> objs[j] == []
    decreases |objs|
  {
    if objs == [] then []
    else if objs[|objs| - 1] != [] then objs[|objs| - 1]
    else
      var r := LastNonEmpty(objs[..|objs| - 1]);
      assert forall i :: 0 <= i < |objs| - 1 ==> objs[..|objs| - 1][i] == objs[i];
      r
  }

  /** Identifier key and identifier value: exported by a specifier. */
  predicate IsReference(p: Prop) {
    p.key.Ident? && p.value.Ident?
  }

  /** Non-computed identifier or literal key, and a value that is not an identifier: exported by destructuring. */
  predicate IsLiteralProp(p: Prop) {
    !p.computed && (p.key.Ident? || p.key.Str? || p.key.Lit?) && !p.value.Ident?
  }

  lemma PropertyClassesDisjoint(p: Prop)
    ensures !(IsReference(p) && IsLiteralProp(p))
  {
  }

  /**
   * The loop over the non-empty objects: each one reassigns both lists, so the
   * last non-empty object alone decides them.
   */
  method ChooseProps(objs: seq<seq<Prop>>) returns (refs: seq<Prop>, lits: seq<Prop>)
    ensures refs == Filter(LastNonEmpty(objs), IsReference)
    ensures lits == Filter(LastNonEmpty(objs), IsLiteralProp)
  {
    refs, lits := [], [];
    for i := 0 to |objs|
      invariant refs == Filter(LastNonEmpty(objs[..i]), IsReference)
      invariant lits == Filter(LastNonEmpty(objs[..i]), IsLiteralProp)
    {
      assert objs[..i + 1][..i] == objs[..i];
      if objs[i] != [] {
        refs := Filter(objs[i], IsReference);
        lits := Filter(objs[i], IsLiteralProp);
      }
    }
    assert objs[..|objs|] == objs;
  }

  // ================================================================ already exported names

  /** The export declarations (`export <declaration>`) at any depth. */
  function ExportDecls(n: Node): seq<Stmt> {
    if n.NS? && n.s.ExportDecl? then [n.s] else []
  }

  /** A property whose value is the identifier `name`. */
  function PropValueNamed(name: string): Node -> seq<bool> {
    (n: Node) => if n.NP? && IsIdent(n.p.value, name) then [true] else []
  }

  /** A declarator `name = <def>.name`. */
  function AliasOf(def: string, name: string): Node -> seq<bool> {
    (n: Node) => if n.ND? && IsIdent(n.d.id, name) && n.d.init.Some? && n.d.init.value.Member? &&
            IsIdent(n.d.init.value.obj, def) && IsIdent(n.d.init.value.prop, name)
         then [true] else []
  }

  function ExportSpecs(n: Node): seq<ExportSpec> {
    if n.NS? && n.s.ExportList? then n.s.exports else []
  }

  /** Some node picked by `pick` lies under one of the export declarations `ds`. */
  predicate UnderExport(ds: seq<Stmt>, pick: Node -> seq<bool>) {
    exists d :: d in ds && CollS(d, pick) != []
  }

  /** `shouldCreateNamedExport`: no existing export covers `name`. */
  predicate ShouldCreate(body: seq<Stmt>, def: string, name: string) {
    var ds := CollSs(body, ExportDecls);
    !(UnderExport(ds, AliasOf(def, name)) ||
      UnderExport(ds, PropValueNamed(name)) ||
      exists x :: x in CollSs(body, ExportSpecs) && x.exported == name)
  }

  /** The names in `names` that no export of `body` covers, in order. */
  function NewNames(body: seq<Stmt>, def: string, names: seq<string>): (r: seq<string>)
    ensures forall n :: n in r <==> n in names && ShouldCreate(body, def, n)
  {
    if names == [] then []
    else (if ShouldCreate(body, def, names[0]) then [names[0]] else []) + NewNames(body, def, names[1..])
  }

  // ================================================================ the new declarations

  /**
   * The export names of the literal properties: a string key gives its value;
   * a numeric key fails, because an identifier cannot be built from a number.
   */
  function LiteralNames(lits: seq<Prop>): Option<seq<string>> {
    if lits == [] then Some([])
    else if lits[0].key.Lit? then None
    else
      match LiteralNames(lits[1..])
      case None => None
      case Some(rest) => Some([if lits[0].key.Str? then lits[0].key.value else NameOf(lits[0].key)] + rest)
  }

  function Shorthands(names: seq<string>): (r: seq<Prop>)
    ensures |r| == |names|
    ensures forall i :: 0 <= i < |names| ==> r[i] == Prop(Ident(names[i]), Ident(names[i]), false, true, [])
  {
    if names == [] then [] else [Prop(Ident(names[0]), Ident(names[0]), false, true, [])] + Shorthands(names[1..])
  }

  /** `export const { n1, n2, ... } = <def>` */
  function DeclaredExport(def: string, names: seq<string>): Stmt {
    ExportDecl(VarDecl(Const, [Declarator(ObjPattern(Shorthands(names)), Some(Ident(def)), [])], []), [])
  }

  /** The specifier the source builds: local `key`, exported `value`. */
  function SpecifierAsWritten(p: Prop): ExportSpec {
    ExportSpec(NameOf(p.key), NameOf(p.value))
  }

  /** The specifier that exports the property's value under the property's key. */
  function Specifier(p: Prop): (x: ExportSpec)
    requires IsReference(p)
    ensures x.exported == p.key.name && x.local == p.value.name
  {
    ExportSpec(p.value.name, p.key.name)
  }

  /** The specifiers for the reference properties whose key no export covers yet. */
  function Specifiers(body: seq<Stmt>, def: string, refs: seq<Prop>): (r: seq<ExportSpec>)
    requires forall p :: p in refs ==> IsReference(p)
    ensures forall x :: x in r <==> exists p :: p in refs && ShouldCreate(body, def, NameOf(p.key)) && x == Specifier(p)
  {
    if refs == [] then []
    else (if ShouldCreate(body, def, NameOf(refs[0].key)) then [Specifier(refs[0])] else []) + Specifiers(body, def, refs[1..])
  }

  function LiteralOf(body: seq<Stmt>, def: string): Option<seq<Prop>> {
    match Mutations(body, def)
    case None => None
    case Some(m) => Some(LastNonEmpty(Objects(body, def, m)))
  }

  /** The body with `export const { ... } = <def>` right after index `e`, when there are literal properties. */
  function WithDeclared(body: seq<Stmt>, e: nat, def: string, lits: seq<Prop>, names: seq<string>): (r: seq<Stmt>)
    requires e < |body|
    ensures |r| == |body| + (if lits == [] then 0 else 1)
  {
    if lits == [] then body else InsertAfter(body, e, DeclaredExport(def, NewNames(body, def, names)))
  }

  /** The body with `export { ... }` right after index `e`, when there are reference properties. */
  function WithSpecifiers(body: seq<Stmt>, e: nat, def: string, refs: seq<Prop>): (r: seq<Stmt>)
    requires e < |body| && forall p :: p in refs ==> IsReference(p)
    ensures |r| == |body| + (if refs == [] then 0 else 1)
  {
    if refs == [] then body else InsertAfter(body, e, ExportList(Specifiers(body, def, refs), []))
  }

  /** Both insertions for the chosen property lists; a numeric literal key fails. */
  function Emit(body: seq<Stmt>, e: nat, def: string, refs: seq<Prop>, lits: seq<Prop>): (r: Option<seq<Stmt>>)
    requires e < |body| && forall p :: p in refs ==> IsReference(p)
    ensures r.Some? ==> |r.value| >= |body|
  {
    match LiteralNames(lits)
    case None => None
    case Some(names) => Some(WithSpecifiers(WithDeclared(body, e, def, lits, names), e, def, refs))
  }

  /**
   * The declarations added after the default export at `e`, whose name is `def`:
   * the declared export is inserted first, then the specifier export in front of it.
   */
  function Synthesize(body: seq<Stmt>, e: nat, def: string): (r: Option<seq<Stmt>>)
    requires e < |body|
    ensures r.Some? ==> |r.value| >= |body|
  {
    match LiteralOf(body, def)
    case None => None
    case Some(chosen) => Emit(body, e, def, Filter(chosen, IsReference), Filter(chosen, IsLiteralProp))
  }

  // ================================================================ the pass

  /** The index of the first top-level `export default`. */
  function FirstDefault(body: seq<Stmt>, i: nat): (r: Option<nat>)
    requires i <= |body|
    ensures r.Some? ==> (i <= r.value < |body| && body[r.value].ExportDefault? &&
      forall j :: i <= j < r.value ==> !body[j].ExportDefault?)
    ensures r.None? ==> forall j :: i <= j < |body| ==> !body[j].ExportDefault?
    decreases |body| - i
  {
    if i == |body| then None else if body[i].ExportDefault? then Some(i) else FirstDefault(body, i + 1)
  }

  /** `const <name> = <object>` in place of `export default <object>`, followed by `export default <name>`. */
  function Extract(body: seq<Stmt>, e: nat, name: string): (r: seq<Stmt>)
    requires e < |body| && body[e].ExportDefault?
    ensures |r| == |body| + 1
  {
    body[..e] + [VarDecl(Const, [Declarator(Ident(name), Some(body[e].value), [])], body[e].comments),
                 ExportDefault(Ident(name), [])] + body[e + 1..]
  }

  /** The first statement gets the leading comments `cs` of the original first statement, when `e` is 0. */
  function Reattach(b: seq<Stmt>, e: nat, cs: seq<Comment>): (r: seq<Stmt>)
    requires |b| > 0
    ensures |r| == |b| && r[1..] == b[1..]
  {
    if e == 0 then [WithComments(b[0], Leading(cs))] + b[1..] else b
  }

  /** An object default export at `e`, extracted under `name`, then given its named exports. */
  function FromObject(p: Program, e: nat, name: string): Option<Program>
    requires e < |p.body| && p.body[e].ExportDefault?
  {
    match Synthesize(Extract(p.body, e, name), e + 1, name)
    case None => None
    case Some(b) => Some(Program(Reattach(b, e, p.body[e].comments), p.comments))
  }

  /** The pass on the default export at `e`. */
  function FromDefault(p: Program, e: nat): Option<Program>
    requires e < |p.body| && p.body[e].ExportDefault?
  {
    var d := p.body[e];
    if d.value.Object? then FromObject(p, e, FreshName(Identifiers(p.body)))
    else if d.value.Ident? then
      match Synthesize(p.body, e, d.value.name)
      case None => None
      case Some(b) => Some(Program(b, p.comments))
    else Some(p)
  }

  /**
   * The whole pass; `None` where the source throws.  When the extracted object
   * was the first statement, its `const` gets the leading comments of the
   * original first statement.
   */
  function NamedExports(p: Program): Option<Program> {
    match FirstDefault(p.body, 0)
    case None => Some(p)
    case Some(e) => FromDefault(p, e)
  }

  // ================================================================ running the pass

  /** The insertions of `addNamedExports` after the default export at `e`, whose name is `def`. */
  method AddNamedExports(body0: seq<Stmt>, e: nat, def: string) returns (r: Option<seq<Stmt>>)
    requires e < |body0|
    ensures r == Synthesize(body0, e, def)
  {
    var m := CollectMutations(CollSs(body0, WholeAssign(def)), CollSs(body0, MemberAssign(def)));
    if m.None? {
      return None;
    }
    var refs, lits := ChooseProps(Objects(body0, def, m.value));
    var names := LiteralNames(lits);
    if names.None? {
      return None;
    }
    var body := body0;
    if lits != [] {
      body := InsertAfter(body, e, DeclaredExport(def, NewNames(body, def, names.value)));
    }
    assert body == WithDeclared(body0, e, def, lits, names.value);
    if refs != [] {
      body := InsertAfter(body, e, ExportList(Specifiers(body, def, refs), []));
    }
    r := Some(body);
  }

  /** `export default { ... }`: extract the object under `name`, then add the named exports. */
  method FromObjectDefault(p: Program, e: nat, name: string) returns (r: Option<Program>)
    requires e < |p.body| && p.body[e].ExportDefault?
    ensures r == FromObject(p, e, name)
  {
    var body := AddNamedExports(Extract(p.body, e, name), e + 1, name);
    if body.None? {
      return None;
    }
    var b := ReattachComments(body.value, e, p.body[e].comments);
    r := Some(Program(b, p.comments));
  }

  /** Moves the leading comments `cs` onto the new first statement when the extraction was at index 0. */
  method ReattachComments(b0: seq<Stmt>, e: nat, cs: seq<Comment>) returns (b: seq<Stmt>)
    requires |b0| > 0
    ensures b == Reattach(b0, e, cs)
  {
    b := b0;
    if e == 0 {
      b := [WithComments(b[0], Leading(cs))] + b[1..];
    }
  }

  /** The pass as the source runs it: find the default export, then add the named exports. */
  method Run(p: Program) returns (r: Option<Program>)
    ensures r == NamedExports(p)
  {
    var found := FirstDefault(p.body, 0);
    if found.None? {
      return Some(p);
    }
    var e := found.value;
    var d := p.body[e];
    if d.value.Object? {
      var name := GenerateName(Identifiers(p.body));
      r := FromObjectDefault(p, e, name);
    } else if d.value.Ident? {
      var body := AddNamedExports(p.body, e, d.value.name);
      if body.None? {
        return None;
      }
      r := Some(Program(body.value, p.comments));
    } else {
      r := Some(p);
    }
  }

  // ================================================================ properties

  /** Without an `export default` of an object or an identifier the file is left alone. */
  lemma NothingToExport(p: Program)
    requires var e := FirstDefault(p.body, 0); e.None? || !(p.body[e.value].value.Object? || p.body[e.value].value.Ident?)
    ensures NamedExports(p) == Some(p)
  {
  }

  /** The destructuring export, when there is one, stands right after index `e`; nothing else moves but shifts. */
  lemma WithDeclaredLayout(body: seq<Stmt>, e: nat, def: string, lits: seq<Prop>, names: seq<string>)
    requires e < |body| && lits != []
    ensures var r := WithDeclared(body, e, def, lits, names);
      r[..e + 1] == body[..e + 1] && r[e + 1] == DeclaredExport(def, NewNames(body, def, names)) && r[e + 2..] == body[e + 1..]
  {
  }

  /** The specifier export, when there is one, stands right after index `e`. */
  lemma WithSpecifiersLayout(body: seq<Stmt>, e: nat, def: string, refs: seq<Prop>)
    requires e < |body| && refs != [] && forall p :: p in refs ==> IsReference(p)
    ensures var r := WithSpecifiers(body, e, def, refs);
      r[..e + 1] == body[..e + 1] && r[e + 1] == ExportList(Specifiers(body, def, refs), []) && r[e + 2..] == body[e + 1..]
  {
  }

  /**
   * The new declarations stand right after the default export: the specifier
   * export first, then the destructuring one; each is there exactly when its
   * property list is non-empty, and every other statement keeps its place.
   */
  lemma {:induction false} EmitLayout(body: seq<Stmt>, e: nat, def: string, refs: seq<Prop>, lits: seq<Prop>)
    requires e < |body| && forall p :: p in refs ==> IsReference(p)
    requires Emit(body, e, def, refs, lits).Some?
    ensures var names := LiteralNames(lits).value;
      var b2 := WithDeclared(body, e, def, lits, names);
      var n := (if refs == [] then 0 else 1) + (if lits == [] then 0 else 1);
      var b := Emit(body, e, def, refs, lits).value;
      |b| == |body| + n && b[..e + 1] == body[..e + 1] && b[e + 1 + n..] == body[e + 1..] &&
      (refs != [] ==> b[e + 1] == ExportList(Specifiers(b2, def, refs), [])) &&
      (lits != [] ==> b[e + n] == DeclaredExport(def, NewNames(body, def, names)))
  {
    var names := LiteralNames(lits).value;
    var b2 := WithDeclared(body, e, def, lits, names);
    var b := WithSpecifiers(b2, e, def, refs);
    if lits != [] {
      WithDeclaredLayout(body, e, def, lits, names);
    }
    if refs != [] {
      WithSpecifiersLayout(b2, e, def, refs);
      assert b[..e + 1] == b2[..e + 1];
    }
  }

  /** A destructuring export lists each of its names as a property value. */
  lemma {:induction false} ShorthandsCover(names: seq<string>, n: string)
    requires n in names
    ensures CollPs(Shorthands(names), PropValueNamed(n)) != []
  {
    var pick := PropValueNamed(n);
    var ps := Shorthands(names);
    if names[0] == n {
      assert pick(NP(ps[0])) == [true];
    } else {
      assert Shorthands(names)[1..] == Shorthands(names[1..]);
      ShorthandsCover(names[1..], n);
    }
  }

  /** A statement inserted into the body is one of its statements at any depth. */
  lemma {:induction false} InsertedIsFound(body: seq<Stmt>, e: nat, x: Stmt)
    requires e < |body| && x.ExportDecl?
    ensures x in CollSs(InsertAfter(body, e, x), ExportDecls)
  {
    CollSsAppend(body[..e + 1] + [x], body[e + 1..], ExportDecls);
    CollSsAppend(body[..e + 1], [x], ExportDecls);
    assert CollSs([x], ExportDecls) == CollS(x, ExportDecls) + [];
    assert InsertAfter(body, e, x) == body[..e + 1] + [x] + body[e + 1..];
  }

  /** The destructuring export holds a property whose value is each of its names. */
  lemma {:induction false} DeclaredPicks(def: string, names: seq<string>, n: string)
    requires n in names
    ensures CollS(DeclaredExport(def, names), PropValueNamed(n)) != []
  {
    var pick := PropValueNamed(n);
    var pat := ObjPattern(Shorthands(names));
    var decl := Declarator(pat, Some(Ident(def)), []);
    var v := VarDecl(Const, [decl], []);
    ShorthandsCover(names, n);
    assert CollE(pat, pick) == pick(NE(pat)) + CollPs(Shorthands(names), pick);
    assert CollD(decl, pick) == pick(ND(decl)) + CollE(pat, pick) + CollOpt(Some(Ident(def)), pick);
    assert CollDs([decl], pick) == CollD(decl, pick) + [];
    assert KidsCollS(ExportDecl(v, []), pick) == CollDs([decl], pick);
  }

  /** Once the destructuring export is in the body, each of its names counts as exported. */
  lemma {:induction false} DeclaredCovers(body: seq<Stmt>, e: nat, def: string, names: seq<string>, n: string)
    requires e < |body| && n in names
    ensures !ShouldCreate(InsertAfter(body, e, DeclaredExport(def, names)), def, n)
  {
    InsertedIsFound(body, e, DeclaredExport(def, names));
    DeclaredPicks(def, names, n);
  }

  /**
   * No name is exported twice by the two new declarations: the specifier
   * export is built after the destructuring one is in the body, and skips its names.
   */
  lemma {:induction false} NoNameExportedTwice(body: seq<Stmt>, e: nat, def: string, names: seq<string>, refs: seq<Prop>)
    requires e < |body| && forall p :: p in refs ==> IsReference(p)
    ensures var news := NewNames(body, def, names);
      var b2 := InsertAfter(body, e, DeclaredExport(def, news));
      forall x :: x in Specifiers(b2, def, refs) ==> x.exported !in news
  {
    var news := NewNames(body, def, names);
    var b2 := InsertAfter(body, e, DeclaredExport(def, news));
    forall x | x in Specifiers(b2, def, refs)
      ensures x.exported !in news
    {
      var p :| p in refs && ShouldCreate(b2, def, NameOf(p.key)) && x == Specifier(p);
      if x.exported in news {
        DeclaredCovers(body, e, def, news, x.exported);
      }
    }
  }

  /** Every name the new specifier export gives was checked to be exported nowhere yet. */
  lemma SpecifiersExportNewNames(body: seq<Stmt>, def: string, refs: seq<Prop>)
    requires forall p :: p in refs ==> IsReference(p)
    ensures forall x :: x in Specifiers(body, def, refs) ==>
      ShouldCreate(body, def, x.exported) && exists p :: p in refs && x.local == NameOf(p.value) && x.exported == NameOf(p.key)
  {
  }

  /** As written, the specifier exports the property's value name, not the key whose export was checked. */
  lemma {:induction false} SpecifierAsWrittenSwapsNames(p: Prop)
    requires IsReference(p) && p.key.name != p.value.name
    ensures SpecifierAsWritten(p).exported != NameOf(p.key) && SpecifierAsWritten(p).local == NameOf(p.key)
    ensures Specifier(p).exported == NameOf(p.key) && Specifier(p).local == NameOf(p.value)
  {
  }

  /** `export default { b: c }` as written gives `export { b as c }`: the local `b` is not bound. */
  lemma SpecifierAsWrittenExample()
    ensures SpecifierAsWritten(Prop(Ident("b"), Ident("c"), false, false, [])) == ExportSpec("b", "c")
    ensures Specifier(Prop(Ident("b"), Ident("c"), false, false, [])) == ExportSpec("c", "b")
  {
  }

  /** The statements up to the default export are kept. */
  lemma {:induction false} SynthesizeKeepsPrefix(body: seq<Stmt>, e: nat, def: string)
    requires e < |body| && Synthesize(body, e, def).Some?
    ensures Synthesize(body, e, def).value[..e + 1] == body[..e + 1]
  {
    var chosen := LiteralOf(body, def).value;
    EmitLayout(body, e, def, Filter(chosen, IsReference), Filter(chosen, IsLiteralProp));
  }

  /**
   * An object default export becomes `const <name> = <object>` carrying the
   * export's comments (only the leading ones when it was the first statement),
   * followed by `export default <name>`, for a name no identifier of the file has.
   */
  lemma {:induction false} ObjectDefaultExtracted(p: Program, e: nat)
    requires FirstDefault(p.body, 0) == Some(e) && p.body[e].value.Object?
    requires NamedExports(p).Some?
    ensures var d := p.body[e];
      var name := FreshName(Identifiers(p.body));
      var r := NamedExports(p).value.body;
      name !in Identifiers(p.body) &&
      |r| >= |p.body| + 1 && r[..e] == p.body[..e] &&
      r[e] == VarDecl(Const, [Declarator(Ident(name), Some(d.value), [])], if e == 0 then Leading(d.comments) else d.comments) &&
      r[e + 1] == ExportDefault(Ident(name), [])
  {
    var name := FreshName(Identifiers(p.body));
    assert NamedExports(p) == FromObject(p, e, name);
    ObjectExtractedAt(p, e, name);
  }

  lemma {:induction false} ObjectExtractedAt(p: Program, e: nat, name: string)
    requires e < |p.body| && p.body[e].ExportDefault?
    requires FromObject(p, e, name).Some?
    ensures var d := p.body[e];
      var r := FromObject(p, e, name).value.body;
      |r| >= |p.body| + 1 && r[..e] == p.body[..e] &&
      r[e] == VarDecl(Const, [Declarator(Ident(name), Some(d.value), [])], if e == 0 then Leading(d.comments) else d.comments) &&
      r[e + 1] == ExportDefault(Ident(name), [])
  {
    var d := p.body[e];
    var b1 := Extract(p.body, e, name);
    ExtractAt(p.body, e, name);
    SynthesizeKeepsPrefix(b1, e + 1, name);
    var b := Synthesize(b1, e + 1, name).value;
    TakeSame(b, b1, e, e + 2);
    TakeSame(b, b1, e + 1, e + 2);
    var r := Reattach(b, e, d.comments);
    assert FromObject(p, e, name).value.body == r;
    assert r[e + 1] == r[1..][e] == b[1..][e] == b[e + 1];
  }

  /** The extracted body: the statements before, the declaration, the new default export. */
  lemma ExtractAt(body: seq<Stmt>, e: nat, name: string)
    requires e < |body| && body[e].ExportDefault?
    ensures var r := Extract(body, e, name);
      r[..e] == body[..e] &&
      r[e] == VarDecl(Const, [Declarator(Ident(name), Some(body[e].value), [])], body[e].comments) &&
      r[e + 1] == ExportDefault(Ident(name), [])
  {
  }

}
