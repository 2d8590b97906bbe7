/**
 * The `cjs` pass: `require` becomes `import`.
 *
 * With the transform option `hoist` set, `require(...)` statements and
 * `require` declarators below the top level are first moved up to the
 * insertion cursor.  Then, at the top level, `require('a');` becomes
 * `import 'a'`, each `require` declarator of a declaration becomes its own
 * import (a called `require('y')(args)` becomes a factory import and a call),
 * and the `require(...)` properties of an object-initialised declaration
 * become imports with the property turned into a shorthand.
 */
module Cjs {
  import opened Ast
  import opened Traverse
  import opened Strings
  import opened JsObject
  import opened Utils
  import opened Cursor

  /** `require(...)` as an expression statement (a callee named `require`). */
  predicate IsRequireStatement(s: Stmt) {
    s.ExprStmt? && s.expr.Call? && IsIdent(s.expr.callee, "require")
  }

  predicate IsRequireDecl(d: Declarator) {
    IsRequireDeclarator(d, Babel)
  }

  /** The `require` declarators, in order. */
  function Matches(ds: seq<Declarator>): (r: seq<Declarator>)
    ensures |r| <= |ds|
  {
    if ds == [] then [] else (if IsRequireDecl(ds[0]) then [ds[0]] else []) + Matches(ds[1..])
  }

  /** The other declarators, in order. */
  function Rest(ds: seq<Declarator>): (r: seq<Declarator>)
    ensures |r| <= |ds|
  {
    if ds == [] then [] else (if IsRequireDecl(ds[0]) then [] else [ds[0]]) + Rest(ds[1..])
  }

  lemma {:induction false} MatchesRestAppend(xs: seq<Declarator>, ys: seq<Declarator>)
    ensures Matches(xs + ys) == Matches(xs) + Matches(ys)
    ensures Rest(xs + ys) == Rest(xs) + Rest(ys)
  {
    MatchesAppend(xs, ys);
    RestAppend(xs, ys);
  }

  lemma {:induction false} MatchesAppend(xs: seq<Declarator>, ys: seq<Declarator>)
    ensures Matches(xs + ys) == Matches(xs) + Matches(ys)
  {
    if xs == [] {
      assert xs + ys == ys;
    } else {
      var zs := xs + ys;
      assert zs[0] == xs[0] && zs[1..] == xs[1..] + ys;
      MatchesAppend(xs[1..], ys);
      var h := if IsRequireDecl(xs[0]) then [xs[0]] else [];
      assert Matches(xs) == h + Matches(xs[1..]);
      assert Matches(zs) == h + Matches(xs[1..] + ys);
      assert h + (Matches(xs[1..]) + Matches(ys)) == (h + Matches(xs[1..])) + Matches(ys);
    }
  }

  lemma {:induction false} RestAppend(xs: seq<Declarator>, ys: seq<Declarator>)
    ensures Rest(xs + ys) == Rest(xs) + Rest(ys)
  {
    if xs == [] {
      assert xs + ys == ys;
    } else {
      var zs := xs + ys;
      assert zs[0] == xs[0] && zs[1..] == xs[1..] + ys;
      RestAppend(xs[1..], ys);
      var h := if IsRequireDecl(xs[0]) then [] else [xs[0]];
      assert Rest(xs) == h + Rest(xs[1..]);
      assert Rest(zs) == h + Rest(xs[1..] + ys);
      assert h + (Rest(xs[1..]) + Rest(ys)) == (h + Rest(xs[1..])) + Rest(ys);
    }
  }

  // ---------------------------------------------------------------- builders

  /** `convertRequire` */
  function ConvertRequire(ast: Stmt, comments: seq<Comment>): (r: Stmt)
    ensures r.Import? && r.comments == comments
  {
    var props := GetPropsFromRequire(ast);
    CreateImportStatement(props.moduleName, props.variableName, comments)
  }

  function KeyNames(ps: seq<Prop>): seq<string> {
    seq(|ps|, i requires 0 <= i < |ps| => NameOf(ps[i].key))
  }

  /** The bound name, or the pattern's keys joined; empty for any other pattern. */
  function FactoryBase(id: Expr): string {
    if id.Ident? then id.name else if id.ObjPattern? then Concat(KeyNames(id.props)) else ""
  }

  /** The factory name for a called `require`: the bound name, or the pattern's keys joined, then `Factory`. */
  function FactoryName(id: Expr): string {
    FactoryBase(id) + "Factory"
  }

  lemma FactoryNameSpec(id: Expr)
    ensures var r := FactoryName(id);
      EndsWith(r, "Factory") &&
      (id.Ident? ==> r[..|r| - 7] == id.name) &&
      (id.ObjPattern? ==> r[..|r| - 7] == Concat(KeyNames(id.props)))
  {
    var base := FactoryBase(id);
    assert (base + "Factory")[..|base|] == base;
  }

  /** The binding of a factory import; a pattern of any other kind leaves the name undefined. */
  function FactoryBinding(id: Expr): Binding {
    if id.Ident? || id.ObjPattern? then Name(FactoryName(id), "") else NoBinding
  }

  /** `createIntermediateImport`: `import <factory> from '<module>'`, with the leading comments only. */
  function CreateIntermediateImport(d: Declarator, comments: seq<Comment>): (r: Stmt)
    requires d.init.Some? && d.init.value.Call?
    ensures r.Import? && r.source == FirstArgValue(d.init.value.callee) && r.comments == Leading(comments)
    ensures (d.id.Ident? || d.id.ObjPattern?) ==> r.specs == [ImportSpec(DefaultSpec, "", FactoryName(d.id))]
  {
    var imp := CreateImportStatement(FirstArgValue(d.init.value.callee), FactoryBinding(d.id), []);
    Import(imp.specs, imp.source, Leading(comments))
  }

  /** `createDeclaredCallExpression`: `const <id> = <factory>(<args>)`, with the trailing comments only. */
  function CreateDeclaredCallExpression(d: Declarator, comments: seq<Comment>): Stmt
    requires d.init.Some? && d.init.value.Call?
  {
    VarDecl(Const, [Declarator(d.id, Some(Call(Ident(FactoryName(d.id)), d.init.value.args)), [])], Trailing(comments))
  }

  /** The first declarator is initialised by a call of a call, `require('y')(...)`. */
  predicate IsCalledForm(ast: Stmt) {
    ast.VarDecl? && |ast.decls| > 0 && ast.decls[0].init.Some? &&
    ast.decls[0].init.value.Call? && ast.decls[0].init.value.callee.Call?
  }

  /** `createRequire` */
  function CreateRequire(ast: Stmt, comments: seq<Comment>): (r: seq<Stmt>)
    ensures IsCalledForm(ast) ==> |r| == 2 && r[0].Import? && r[1].VarDecl?
    ensures !IsCalledForm(ast) ==> r == [ConvertRequire(ast, comments)]
  {
    if IsCalledForm(ast) then
      [CreateIntermediateImport(ast.decls[0], comments), CreateDeclaredCallExpression(ast.decls[0], comments)]
    else [ConvertRequire(ast, comments)]
  }

  /**
   * `x = require('y')(args)` becomes exactly `import xFactory from 'y'` with the
   * leading comments and `const x = xFactory(args)` with the trailing ones; the
   * call calls the name the import binds, with the original arguments.
   */
  lemma CalledRequireSplitsInTwo(x: string, m: string, more: seq<Expr>, args: seq<Expr>, dc: seq<Comment>, cs: seq<Comment>)
    ensures var d := Declarator(Ident(x), Some(Call(Call(Ident("require"), [Str(m)] + more), args)), dc);
      var r := CreateRequire(VarDecl(Var, [d], []), cs);
      r == [Import([ImportSpec(DefaultSpec, "", x + "Factory")], m, Leading(cs)),
            VarDecl(Const, [Declarator(Ident(x), Some(Call(Ident(x + "Factory"), args)), [])], Trailing(cs))] &&
      r[1].decls[0].init.value.callee == Ident(r[0].specs[0].local) &&
      r[1].decls[0].init.value.args == args
  {
    var d := Declarator(Ident(x), Some(Call(Call(Ident("require"), [Str(m)] + more), args)), dc);
    var f := FactoryName(Ident(x));
    assert f == x + "Factory";
    assert IsCalledForm(VarDecl(Var, [d], []));
  }

  // ---------------------------------------------------------------- replaceDeclarator

  /**
   * The comments `replaceDeclarator` gives to what it makes of one declarator:
   * the declaration's leading comments for the first match, its trailing
   * comments when the declarator is the last one left, and the declarator's own.
   */
  function DeclaratorComments(declComments: seq<Comment>, isFirst: bool, isLast: bool, d: Declarator): (r: seq<Comment>)
    ensures forall c :: c in r <==>
      (c in declComments && ((isFirst && c.leading) || (isLast && c.trailing))) || c in d.comments
  {
    Filter(declComments, (c: Comment) => (isFirst && c.leading) || (isLast && c.trailing)) + d.comments
  }

  /** What the `k`-th `require` declarator of `s` becomes (`all`: every declarator of `s` is one). */
  function Piece(s: Stmt, ms: seq<Declarator>, k: nat, all: bool): seq<Stmt>
    requires s.VarDecl? && k < |ms|
  {
    CreateRequire(VarDecl(Var, [ms[k]], []), DeclaratorComments(s.comments, k == 0, all && k == |ms| - 1, ms[k]))
  }

  function Pieces(s: Stmt, ms: seq<Declarator>, n: nat, all: bool): seq<Stmt>
    requires s.VarDecl? && n <= |ms|
    decreases n
  {
    if n == 0 then [] else Pieces(s, ms, n - 1, all) + Piece(s, ms, n - 1, all)
  }

  /**
   * A top-level declaration once every `require` declarator has gone through
   * `replaceDeclarator`: the pieces made from them, in order, followed by the
   * declaration shrunk to its other declarators, if any remain.
   */
  function ReplacedDeclaration(s: Stmt): seq<Stmt>
    requires s.VarDecl?
  {
    var ms := Matches(s.decls);
    var all := Rest(s.decls) == [];
    if ms == [] then [s]
    else Pieces(s, ms, |ms|, all) + (if all then [] else [VarDecl(s.kind, Rest(s.decls), s.comments)])
  }

  lemma {:induction false} MatchesRestLength(ds: seq<Declarator>)
    ensures |Matches(ds)| + |Rest(ds)| == |ds|
  {
    if ds != [] {
      MatchesRestLength(ds[1..]);
    }
  }

  /** Extending the scanned prefix by one declarator. */
  lemma PrefixStep(ds: seq<Declarator>, i: nat)
    requires i < |ds|
    ensures Matches(ds[..i + 1]) == Matches(ds[..i]) + (if IsRequireDecl(ds[i]) then [ds[i]] else [])
    ensures Rest(ds[..i + 1]) == Rest(ds[..i]) + (if IsRequireDecl(ds[i]) then [] else [ds[i]])
  {
    assert ds[..i + 1] == ds[..i] + [ds[i]];
    MatchesRestAppend(ds[..i], [ds[i]]);
  }

  /** A `require` declarator at `i` is the match numbered by the matches before it. */
  lemma MatchAt(ds: seq<Declarator>, i: nat)
    requires i < |ds| && IsRequireDecl(ds[i])
    ensures |Matches(ds[..i])| < |Matches(ds)| && Matches(ds)[|Matches(ds[..i])|] == ds[i]
  {
    assert ds == ds[..i] + ds[i..];
    MatchesRestAppend(ds[..i], ds[i..]);
  }

  /** The declaration is down to one declarator exactly when this is the last match and nothing else is declared. */
  lemma LastIff(ds: seq<Declarator>, i: nat)
    requires i < |ds| && IsRequireDecl(ds[i])
    ensures var n := |Rest(ds[..i]) + ds[i..]|;
      (n == 1 <==> Rest(ds) == [] && |Matches(ds[..i])| == |Matches(ds)| - 1) && (n == 1 ==> i + 1 == |ds|)
  {
    assert ds == ds[..i] + ds[i..];
    MatchesRestAppend(ds[..i], ds[i..]);
    assert ds[i..][1..] == ds[i + 1..];
    MatchesRestLength(ds[..i]);
    MatchesRestLength(ds[i + 1..]);
  }

  /** A declarator that is not a `require` one stays, so the declaration is not all matches. */
  lemma OtherStep(ds: seq<Declarator>, i: nat)
    requires i < |ds| && !IsRequireDecl(ds[i])
    ensures Rest(ds) != [] && ds[i..] == [ds[i]] + ds[i + 1..]
  {
    TakeDrop(ds, i);
    RestAppend(ds[..i], ds[i..]);
    DropCons(ds, i);
    assert Rest(ds[i..]) == [ds[i]] + Rest(ds[i + 1..]);
  }

  lemma {:induction false} NoMatches(ds: seq<Declarator>)
    ensures Matches(ds) == [] ==> Rest(ds) == ds
  {
    if ds != [] {
      NoMatches(ds[1..]);
    }
  }

  /** What `replaceDeclarator` makes of the match numbered `index` is the next piece. */
  lemma PieceStep(s: Stmt, i: nat, index: nat, isLast: bool)
    requires s.VarDecl? && i < |s.decls| && index < |Matches(s.decls)| && Matches(s.decls)[index] == s.decls[i]
    requires isLast <==> Rest(s.decls) == [] && index + 1 == |Matches(s.decls)|
    ensures var ms, all := Matches(s.decls), Rest(s.decls) == [];
      Pieces(s, ms, index + 1, all) ==
      Pieces(s, ms, index, all) + CreateRequire(VarDecl(Var, [s.decls[i]], []), DeclaratorComments(s.comments, index == 0, isLast, s.decls[i]))
  {
  }

  /**
   * `replaceDeclarator` on the declarator at `pos` of a declaration whose
   * declarators are now `current`: it makes the imports for that declarator,
   * with the comments `isFirst`/`isLast` select, and either the declaration
   * is replaced (it held only this declarator) or the declarator is removed.
   */
  method ReplaceDeclarator(declComments: seq<Comment>, current: seq<Declarator>, pos: nat, d: Declarator, index: nat)
    returns (made: seq<Stmt>, replaced: bool, remaining: seq<Declarator>)
    requires pos < |current| && current[pos] == d
    ensures replaced <==> |current| == 1
    ensures made == CreateRequire(VarDecl(Var, [d], []), DeclaratorComments(declComments, index == 0, replaced, d))
    ensures remaining == current[..pos] + current[pos + 1..]
  {
    replaced := |current| == 1;
    var comments := DeclaratorComments(declComments, index == 0, replaced, d);
    made := CreateRequire(VarDecl(Var, [d], []), comments);
    remaining := current[..pos] + current[pos + 1..];
  }

  /**
   * The state of the `replaceDeclarator` loop after the first `i` declarators:
   * `kept` are the others seen so far, `current` the declaration's remaining
   * declarators, `before` the pieces inserted before it, and `replacement` what
   * replaced it once it held a single declarator.
   */
  ghost predicate LoopState(s: Stmt, i: nat, index: nat, kept: seq<Declarator>, current: seq<Declarator>,
                            before: seq<Stmt>, replacement: Option<seq<Stmt>>)
    requires s.VarDecl?
  {
    var ds, ms, all := s.decls, Matches(s.decls), Rest(s.decls) == [];
    i <= |ds| && index == |Matches(ds[..i])| && kept == Rest(ds[..i]) && index <= |ms| &&
    (replacement.None? ==>
      current == kept + ds[i..] && before == Pieces(s, ms, index, all) && !(all && index == |ms| && index > 0)) &&
    (replacement.Some? ==>
      i == |ds| && all && index == |ms| && index > 0 && before + replacement.value == Pieces(s, ms, index, all))
  }

  lemma InitialState(s: Stmt)
    requires s.VarDecl?
    ensures LoopState(s, 0, 0, [], s.decls, [], None)
  {
    assert s.decls[..0] == [];
  }

  /** Past a declarator that is not a `require` one. */
  lemma OtherPreserves(s: Stmt, i: nat, index: nat, kept: seq<Declarator>, current: seq<Declarator>, before: seq<Stmt>)
    requires s.VarDecl? && i < |s.decls| && !IsRequireDecl(s.decls[i])
    requires LoopState(s, i, index, kept, current, before, None)
    ensures LoopState(s, i + 1, index, kept + [s.decls[i]], current, before, None)
  {
    PrefixStep(s.decls, i);
    OtherStep(s.decls, i);
  }

  /** Past a `require` declarator, given what `replaceDeclarator` did with it. */
  lemma MatchPreserves(s: Stmt, i: nat, index: nat, kept: seq<Declarator>, current: seq<Declarator>, before: seq<Stmt>,
                       made: seq<Stmt>, replaced: bool, remaining: seq<Declarator>)
    requires s.VarDecl? && i < |s.decls| && IsRequireDecl(s.decls[i])
    requires LoopState(s, i, index, kept, current, before, None)
    requires |kept| < |current| && current[|kept|] == s.decls[i]
    requires replaced <==> |current| == 1
    requires made == CreateRequire(VarDecl(Var, [s.decls[i]], []), DeclaratorComments(s.comments, index == 0, replaced, s.decls[i]))
    requires remaining == current[..|kept|] + current[|kept| + 1..]
    ensures replaced ==> LoopState(s, i + 1, index + 1, kept, current, before, Some(made))
    ensures !replaced ==> LoopState(s, i + 1, index + 1, kept, remaining, before + made, None)
  {
    var ds := s.decls;
    PrefixStep(ds, i);
    MatchAt(ds, i);
    LastIff(ds, i);
    PieceStep(s, i, index, replaced);
    if !replaced {
      assert current[|kept| + 1..] == ds[i + 1..];
    }
  }

  /** The state holds the declarator found at the cursor position. */
  lemma AtCursor(s: Stmt, i: nat, index: nat, kept: seq<Declarator>, current: seq<Declarator>, before: seq<Stmt>)
    requires s.VarDecl? && i < |s.decls|
    requires LoopState(s, i, index, kept, current, before, None)
    ensures |kept| < |current| && current[|kept|] == s.decls[i]
  {
  }

  lemma FinalState(s: Stmt, i: nat, index: nat, kept: seq<Declarator>, current: seq<Declarator>,
                   before: seq<Stmt>, replacement: Option<seq<Stmt>>)
    requires s.VarDecl? && LoopState(s, i, index, kept, current, before, replacement)
    requires i == |s.decls| || replacement.Some?
    ensures replacement.Some? ==> before + replacement.value == ReplacedDeclaration(s)
    ensures replacement.None? ==> before + [VarDecl(s.kind, current, s.comments)] == ReplacedDeclaration(s)
  {
    var ds := s.decls;
    NoMatches(ds);
    if replacement.None? {
      assert ds[..i] == ds && ds[i..] == [];
      assert current == Rest(ds) && index == |Matches(ds)|;
      if Matches(ds) == [] {
        assert current == ds && before == [];
        assert VarDecl(s.kind, current, s.comments) == s;
      } else {
        assert Rest(ds) != [];
      }
    }
  }

  /** One turn of the `replaceDeclarator` loop, at the declarator numbered `i`. */
  method Advance(s: Stmt, i: nat, index: nat, kept: seq<Declarator>, current: seq<Declarator>, before: seq<Stmt>)
    returns (index': nat, kept': seq<Declarator>, current': seq<Declarator>, before': seq<Stmt>, replacement: Option<seq<Stmt>>)
    requires s.VarDecl? && i < |s.decls|
    requires LoopState(s, i, index, kept, current, before, None)
    ensures LoopState(s, i + 1, index', kept', current', before', replacement)
  {
    var d := s.decls[i];
    if IsRequireDecl(d) {
      index', kept', current', before', replacement := AdvanceMatch(s, i, index, kept, current, before);
    } else {
      OtherPreserves(s, i, index, kept, current, before);
      index', kept', current', before', replacement := index, kept + [d], current, before, None;
    }
  }

  /** The turn at a `require` declarator: `replaceDeclarator` on it. */
  method AdvanceMatch(s: Stmt, i: nat, index: nat, kept: seq<Declarator>, current: seq<Declarator>, before: seq<Stmt>)
    returns (index': nat, kept': seq<Declarator>, current': seq<Declarator>, before': seq<Stmt>, replacement: Option<seq<Stmt>>)
    requires s.VarDecl? && i < |s.decls| && IsRequireDecl(s.decls[i])
    requires LoopState(s, i, index, kept, current, before, None)
    ensures LoopState(s, i + 1, index', kept', current', before', replacement)
  {
    AtCursor(s, i, index, kept, current, before);
    var made, replaced, remaining := ReplaceDeclarator(s.comments, current, |kept|, s.decls[i], index);
    MatchPreserves(s, i, index, kept, current, before, made, replaced, remaining);
    if replaced {
      index', kept', current', before', replacement := index + 1, kept, current, before, Some(made);
    } else {
      index', kept', current', before', replacement := index + 1, kept, remaining, before + made, None;
    }
  }

  /**
   * The `replaceDeclarator` calls over one top-level declaration, one per
   * `require` declarator in order; the loop ends once the declaration has
   * been replaced.
   */
  method ReplaceDeclarators(s: Stmt) returns (out: seq<Stmt>)
    requires s.VarDecl?
    ensures out == ReplacedDeclaration(s)
  {
    var ds := s.decls;
    var current := ds;
    var kept: seq<Declarator> := [];
    var before: seq<Stmt> := [];
    var replacement: Option<seq<Stmt>> := None;
    var index := 0;
    var i := 0;
    InitialState(s);
    while i < |ds| && replacement.None?
      invariant LoopState(s, i, index, kept, current, before, replacement)
      decreases |ds| - i
    {
      index, kept, current, before, replacement := Advance(s, i, index, kept, current, before);
      i := i + 1;
    }
    FinalState(s, i, index, kept, current, before, replacement);
    if replacement.Some? {
      out := before + replacement.value;
    } else {
      out := before + [VarDecl(s.kind, current, s.comments)];
    }
  }

  // ---------------------------------------------------------------- object properties

  /** `{ value: { callee: { name: 'require' } } }` */
  predicate IsRequireProp(p: Prop) {
    p.value.Call? && IsIdent(p.value.callee, "require")
  }

  /** The import one `require(...)` property gives, carrying the property's comments. */
  function PropImport(p: Prop): Stmt {
    CreateImportStatement(FirstArgValue(p.value), Name(NameOf(p.key), ""), p.comments)
  }

  function PickRequireProp(n: Node): seq<Stmt> {
    if n.NP? && IsRequireProp(n.p) then [PropImport(n.p)] else []
  }

  function ShorthandProps(ps: seq<Prop>): (r: seq<Prop>)
    ensures |r| == |ps|
  {
    seq(|ps|, i requires 0 <= i < |ps| => if IsRequireProp(ps[i]) then Prop(ps[i].key, ps[i].key, false, true, []) else ps[i])
  }

  /** A `require(...)` property becomes the shorthand `k` (`k: k`). */
  function ShorthandRequires(e: Expr): Expr {
    match e
    case Object(ps) => Object(ShorthandProps(ps))
    case ObjPattern(ps) => ObjPattern(ShorthandProps(ps))
    case _ => e
  }

  function ObjectRules(): Rules {
    Rules(ShorthandRequires, (s, top) => [s])
  }

  /** `{ declarations: [{ init: { type: 'ObjectExpression' } }] }`: the first declarator's initialiser is an object. */
  predicate InitsObject(s: Stmt) {
    s.VarDecl? && |s.decls| > 0 && s.decls[0].init.Some? && s.decls[0].init.value.Object?
  }

  /** The imports for the `require(...)` properties anywhere in the declaration, in order, then the declaration with shorthands. */
  function ConvertObjectRequires(t: Stmt): seq<Stmt> {
    if InitsObject(t) then CollDs(t.decls, PickRequireProp) + [KidsS(t, ObjectRules())] else [t]
  }

  function ConvertObjectRequiresAll(ts: seq<Stmt>): seq<Stmt> {
    if ts == [] then [] else ConvertObjectRequires(ts[0]) + ConvertObjectRequiresAll(ts[1..])
  }

  // ---------------------------------------------------------------- the three conversions

  /** What one top-level statement becomes. */
  function ConvertTop(s: Stmt): seq<Stmt> {
    if IsRequireStatement(s) then [ConvertRequire(s, s.comments)]
    else if s.VarDecl? then ConvertObjectRequiresAll(ReplacedDeclaration(s))
    else [s]
  }

  function ConvertAll(ss: seq<Stmt>): seq<Stmt>
    decreases |ss|
  {
    if ss == [] then [] else ConvertAll(ss[..|ss| - 1]) + ConvertTop(ss[|ss| - 1])
  }

  // ---------------------------------------------------------------- hoisting

  function DropNestedRequireStatement(s: Stmt, top: bool): seq<Stmt> {
    if !top && IsRequireStatement(s) then [] else [s]
  }

  /** Loop one takes the `require(...)` statements out of their nested lists. */
  function StatementHoistRules(): Rules {
    Rules(e => e, DropNestedRequireStatement)
  }

  function PickRequireStatement(n: Node): seq<Expr> {
    if n.NS? && IsRequireStatement(n.s) then [n.s.expr] else []
  }

  /** What the picker reports below the top level of each statement, in document order. */
  function NestedColl<T>(ss: seq<Stmt>, pick: Node -> seq<T>): seq<T> {
    if ss == [] then [] else KidsCollS(ss[0], pick) + NestedColl(ss[1..], pick)
  }

  function DropNestedRequireDeclarators(s: Stmt, top: bool): seq<Stmt> {
    if !top && s.VarDecl? && Matches(s.decls) != [] then
      (if Rest(s.decls) == [] then [] else [VarDecl(s.kind, Rest(s.decls), s.comments)])
    else [s]
  }

  /** Loop two takes the `require` declarators out, and a declaration left empty goes too. */
  function DeclaratorHoistRules(): Rules {
    Rules(e => e, DropNestedRequireDeclarators)
  }

  function PickRequireDeclarators(n: Node): seq<Declarator> {
    if n.NS? && n.s.VarDecl? then Matches(n.s.decls) else []
  }

  /**
   * The hoisted statements.  The moved expression is the same node as before,
   * so a hoisted statement nested inside it is gone from it as well.
   */
  function HoistedStatements(es: seq<Expr>): (r: seq<Stmt>)
    ensures |r| == |es|
  {
    seq(|es|, i requires 0 <= i < |es| => ExprStmt(MapE(es[i], StatementHoistRules()), []))
  }

  function HoistedDeclarations(ds: seq<Declarator>): (r: seq<Stmt>)
    ensures |r| == |ds|
  {
    seq(|ds|, i requires 0 <= i < |ds| => VarDecl(Const, [MapD(ds[i], DeclaratorHoistRules())], []))
  }

  lemma HoistRulesKeepTop()
    ensures forall s :: StatementHoistRules().fs(s, true) == [s]
    ensures forall s :: DeclaratorHoistRules().fs(s, true) == [s]
  {
  }

  /** The body after loop one, and after loop two. */
  function AfterStatementHoist(body: seq<Stmt>, idx: int): (r: seq<Stmt>)
    requires -1 <= idx < |body|
    ensures |r| == |body| + |NestedColl(body, PickRequireStatement)|
  {
    HoistRulesKeepTop();
    MapSsTop(body, StatementHoistRules());
    InsertAll(MapSs(body, true, StatementHoistRules()), idx, HoistedStatements(NestedColl(body, PickRequireStatement)))
  }

  function AfterDeclaratorHoist(body: seq<Stmt>, idx: int): (r: seq<Stmt>)
    requires -1 <= idx < |body|
    ensures |r| == |body| + |NestedColl(body, PickRequireDeclarators)|
  {
    HoistRulesKeepTop();
    MapSsTop(body, DeclaratorHoistRules());
    InsertAll(MapSs(body, true, DeclaratorHoistRules()), idx, HoistedDeclarations(NestedColl(body, PickRequireDeclarators)))
  }

  /** Both hoisting loops, the cursor starting at the last import-like statement. */
  function Hoisted(body: seq<Stmt>): seq<Stmt> {
    HoistedFrom(body, FindLastImportIndex(body, Babel))
  }

  /** Both hoisting loops, the cursor starting at `idx`. */
  function HoistedFrom(body: seq<Stmt>, idx: int): seq<Stmt>
    requires -1 <= idx < |body|
  {
    AfterDeclaratorHoist(AfterStatementHoist(body, idx), idx + |NestedColl(body, PickRequireStatement)|)
  }

  /** Loop one: each nested `require(...)` statement, in document order, moves to the cursor. */
  method HoistRequireStatements(c: ImportCursor)
    requires c.Valid()
    modifies c
    ensures c.Valid()
    ensures c.body == AfterStatementHoist(old(c.body), old(c.lastImportIndex))
    ensures c.lastImportIndex == old(c.lastImportIndex) + |NestedColl(old(c.body), PickRequireStatement)|
  {
    var statements := HoistedStatements(NestedColl(c.body, PickRequireStatement));
    HoistRulesKeepTop();
    MapSsTop(c.body, StatementHoistRules());
    c.body := MapSs(c.body, true, StatementHoistRules());
    c.InsertImports(statements);
  }

  /** Loop two: each nested `require` declarator, in document order, moves to the cursor as a `const`. */
  method HoistRequireDeclarators(c: ImportCursor)
    requires c.Valid()
    modifies c
    ensures c.Valid()
    ensures c.body == AfterDeclaratorHoist(old(c.body), old(c.lastImportIndex))
  {
    var declarations := HoistedDeclarations(NestedColl(c.body, PickRequireDeclarators));
    HoistRulesKeepTop();
    MapSsTop(c.body, DeclaratorHoistRules());
    c.body := MapSs(c.body, true, DeclaratorHoistRules());
    c.InsertImports(declarations);
  }

  /** `config.hoist === true` */
  predicate HoistOption(options: Json) {
    Get(TransformConfig(options), "hoist") == Some(JBool(true))
  }

  lemma ConvertAllSnoc(ss: seq<Stmt>, i: nat)
    requires i < |ss|
    ensures ConvertAll(ss[..i + 1]) == ConvertAll(ss[..i]) + ConvertTop(ss[i])
  {
    assert ss[..i + 1][..i] == ss[..i];
  }

  /** The top-level loop over the (possibly hoisted) body. */
  method ConvertBody(body: seq<Stmt>) returns (out: seq<Stmt>)
    ensures out == ConvertAll(body)
  {
    out := [];
    var i := 0;
    while i < |body|
      invariant 0 <= i <= |body|
      invariant out == ConvertAll(body[..i])
    {
      var s := body[i];
      var made: seq<Stmt>;
      if IsRequireStatement(s) {
        made := [ConvertRequire(s, s.comments)];
      } else if s.VarDecl? {
        var pieces := ReplaceDeclarators(s);
        made := ConvertObjectRequiresAll(pieces);
      } else {
        made := [s];
      }
      ConvertAllSnoc(body, i);
      out := out + made;
      i := i + 1;
    }
    assert body[..i] == body;
  }

  /** Both hoisting loops over one cursor. */
  method Hoist(body: seq<Stmt>) returns (r: seq<Stmt>)
    ensures r == Hoisted(body)
  {
    var idx := FindLastImportIndex(body, Babel);
    var c := new ImportCursor(body, idx);
    HoistRequireStatements(c);
    HoistRequireDeclarators(c);
    r := c.body;
  }

  /** The pass: optional hoisting, then the three conversions over the top-level statements. */
  method Run(p: Program, options: Json) returns (r: Program)
    ensures r == Program(ConvertAll(if HoistOption(options) then Hoisted(p.body) else p.body), p.comments)
  {
    var body := p.body;
    if HoistOption(options) {
      body := Hoist(body);
    }
    var out := ConvertBody(body);
    r := Program(out, p.comments);
  }
}
