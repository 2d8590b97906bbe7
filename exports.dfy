/**
 * The `exports` pass: CommonJS `module.exports` / `exports` assignments in the
 * program body become ES `export` statements, and calls qualified by
 * `exports` or `module.exports` become plain calls.
 *
 * The pass runs its rules one after the other over the whole file: first the
 * aggregation of `module.exports.n = n` statements into one `export { ... }`,
 * then five statement rules, then the two call rules, then the first statement
 * rule once more.  When the statement in front of the program was replaced or
 * removed, the new first statement receives the old one's leading comments.
 */
module Exports {
  import opened Ast
  import opened Traverse

  // ---------------------------------------------------------------- shapes

  /** `module.exports` */
  predicate IsModuleExports(e: Expr) {
    e.Member? && IsIdent(e.obj, "module") && IsIdent(e.prop, "exports")
  }

  /** An expression statement holding a plain `=` assignment. */
  predicate IsAssignStmt(s: Stmt) {
    s.ExprStmt? && s.expr.Assign? && s.expr.op == "="
  }

  /** `module.exports.n = n` or `exports.n = n`: the property is named like the assigned identifier. */
  predicate Aggregable(s: Stmt) {
    IsAssignStmt(s) && s.expr.left.Member? && s.expr.right.Ident? &&
    (IsModuleExports(s.expr.left.obj) || IsIdent(s.expr.left.obj, "exports")) &&
    s.expr.left.prop.Ident? && s.expr.left.prop.name == s.expr.right.name
  }

  /** The specifier `n` contributed by an aggregable statement. */
  function SpecOf(s: Stmt): ExportSpec
    requires Aggregable(s)
  {
    ExportSpec(s.expr.right.name, s.expr.right.name)
  }

  // ---------------------------------------------------------------- aggregation (reference definition)

  /** How many statements of `ss` are aggregable. */
  function Count(ss: seq<Stmt>): nat
    decreases |ss|
  {
    if ss == [] then 0
    else Count(ss[..|ss| - 1]) + (if Aggregable(ss[|ss| - 1]) then 1 else 0)
  }

  /** The specifiers of the aggregable statements, in source order. */
  function Specifiers(ss: seq<Stmt>): (r: seq<ExportSpec>)
    ensures |r| == Count(ss)
    decreases |ss|
  {
    if ss == [] then []
    else Specifiers(ss[..|ss| - 1]) + (if Aggregable(ss[|ss| - 1]) then [SpecOf(ss[|ss| - 1])] else [])
  }

  /** The statements that are not aggregable, in order. */
  function Kept(ss: seq<Stmt>): seq<Stmt>
    decreases |ss|
  {
    if ss == [] then []
    else Kept(ss[..|ss| - 1]) + (if Aggregable(ss[|ss| - 1]) then [] else [ss[|ss| - 1]])
  }

  /** The index of the last aggregable statement, -1 when there is none. */
  function LastAggregable(ss: seq<Stmt>): (r: int)
    ensures -1 <= r < |ss|
    ensures r >= 0 ==> Aggregable(ss[r])
    ensures forall i :: r < i < |ss| ==> !Aggregable(ss[i])
    decreases |ss|
  {
    if ss == [] then -1
    else if Aggregable(ss[|ss| - 1]) then |ss| - 1
    else LastAggregable(ss[..|ss| - 1])
  }

  /**
   * The body after the aggregation: one `export { ... }` listing every
   * aggregable statement's name stands where the last of them stood, and the
   * others are gone.
   */
  function Aggregated(ss: seq<Stmt>): seq<Stmt> {
    var last := LastAggregable(ss);
    if last < 0 then ss
    else Kept(ss[..last]) + [ExportList(Specifiers(ss), [])] + ss[last + 1..]
  }

  lemma {:induction false} CountAppend(a: seq<Stmt>, b: seq<Stmt>)
    ensures Count(a + b) == Count(a) + Count(b)
    decreases |b|
  {
    if b == [] {
      assert a + b == a;
    } else {
      assert (a + b)[..|a + b| - 1] == a + b[..|b| - 1];
      CountAppend(a, b[..|b| - 1]);
    }
  }

  lemma {:induction false} SpecifiersAppend(a: seq<Stmt>, b: seq<Stmt>)
    ensures Specifiers(a + b) == Specifiers(a) + Specifiers(b)
    decreases |b|
  {
    if b == [] {
      assert a + b == a;
    } else {
      assert (a + b)[..|a + b| - 1] == a + b[..|b| - 1];
      SpecifiersAppend(a, b[..|b| - 1]);
    }
  }

  lemma {:induction false} KeptAppend(a: seq<Stmt>, b: seq<Stmt>)
    ensures Kept(a + b) == Kept(a) + Kept(b)
    decreases |b|
  {
    if b == [] {
      assert a + b == a;
    } else {
      assert (a + b)[..|a + b| - 1] == a + b[..|b| - 1];
      KeptAppend(a, b[..|b| - 1]);
    }
  }

  /** No statement the aggregation keeps is aggregable. */
  lemma {:induction false} KeptNotAggregable(ss: seq<Stmt>)
    ensures forall i :: 0 <= i < |Kept(ss)| ==> !Aggregable(Kept(ss)[i])
    decreases |ss|
  {
    if ss != [] {
      KeptNotAggregable(ss[..|ss| - 1]);
    }
  }

  /** A list without aggregable statements is kept whole. */
  lemma {:induction false} KeptAll(ss: seq<Stmt>)
    requires forall i :: 0 <= i < |ss| ==> !Aggregable(ss[i])
    ensures Kept(ss) == ss && Count(ss) == 0
    decreases |ss|
  {
    if ss != [] {
      KeptAll(ss[..|ss| - 1]);
      assert ss[..|ss| - 1] + [ss[|ss| - 1]] == ss;
    }
  }

  /**
   * Without aggregable statements the body stays as it is; otherwise the
   * result is exactly the statements that were not aggregated, in order, with
   * the one `export { ... }` of all the names placed among them.
   */
  lemma AggregatedLayout(ss: seq<Stmt>)
    ensures Count(ss) == 0 ==> Aggregated(ss) == ss
    ensures Count(ss) > 0 ==>
      exists k :: 0 <= k <= |Kept(ss)| &&
        Aggregated(ss) == Kept(ss)[..k] + [ExportList(Specifiers(ss), [])] + Kept(ss)[k..]
  {
    var last := LastAggregable(ss);
    if last < 0 {
      KeptAll(ss);
    } else {
      var before, after := ss[..last], ss[last + 1..];
      assert ss == before + [ss[last]] + after;
      KeptAll(after);
      KeptAppend(before + [ss[last]], after);
      KeptAppend(before, [ss[last]]);
      assert Kept([ss[last]]) == [] by {
        assert [ss[last]][..0] == [];
      }
      CountAppend(before + [ss[last]], after);
      CountAppend(before, [ss[last]]);
      assert Count([ss[last]]) == 1 by {
        assert [ss[last]][..0] == [];
      }
      var k := |Kept(before)|;
      assert Kept(ss) == Kept(before) + after;
      assert Kept(ss)[..k] == Kept(before);
      assert Kept(ss)[k..] == after;
    }
  }

  /** The aggregable statement `ss[i]` contributes the specifier at position `Count(ss[..i])`: names keep source order. */
  lemma SpecifierAt(ss: seq<Stmt>, i: int)
    requires 0 <= i < |ss| && Aggregable(ss[i])
    ensures Count(ss[..i]) < |Specifiers(ss)|
    ensures Specifiers(ss)[Count(ss[..i])] == SpecOf(ss[i])
  {
    assert ss == ss[..i] + [ss[i]] + ss[i + 1..];
    SpecifiersAppend(ss[..i] + [ss[i]], ss[i + 1..]);
    SpecifiersAppend(ss[..i], [ss[i]]);
    assert Specifiers([ss[i]]) == [SpecOf(ss[i])] by {
      assert [ss[i]][..0] == [];
    }
  }

  /** Every specifier comes from an aggregable statement. */
  lemma {:induction false} SpecifiersFrom(ss: seq<Stmt>)
    ensures forall x :: x in Specifiers(ss) ==> exists i :: 0 <= i < |ss| && Aggregable(ss[i]) && x == SpecOf(ss[i])
    decreases |ss|
  {
    if ss != [] {
      var init := ss[..|ss| - 1];
      SpecifiersFrom(init);
      forall x | x in Specifiers(ss)
        ensures exists i :: 0 <= i < |ss| && Aggregable(ss[i]) && x == SpecOf(ss[i])
      {
        if x in Specifiers(init) {
          var i :| 0 <= i < |init| && Aggregable(init[i]) && x == SpecOf(init[i]);
          assert ss[i] == init[i];
        } else {
          assert x == SpecOf(ss[|ss| - 1]);
        }
      }
    }
  }

  /** After the aggregation no aggregable statement is left. */
  lemma NoAggregableLeft(ss: seq<Stmt>)
    ensures forall i :: 0 <= i < |Aggregated(ss)| ==> !Aggregable(Aggregated(ss)[i])
  {
    var last := LastAggregable(ss);
    var r := Aggregated(ss);
    if last >= 0 {
      var before := Kept(ss[..last]);
      KeptNotAggregable(ss[..last]);
      forall i | 0 <= i < |r|
        ensures !Aggregable(r[i])
      {
        if i < |before| {
          assert r[i] == before[i];
        } else if i > |before| {
          assert r[i] == ss[last + 1 + (i - |before| - 1)];
        }
      }
    }
  }

  /** How one more statement changes the aggregation. */
  lemma AggregateStep(p: seq<Stmt>, s: Stmt)
    ensures Aggregable(s) ==>
      Count(p + [s]) == Count(p) + 1 && Specifiers(p + [s]) == Specifiers(p) + [SpecOf(s)] &&
      Kept(p + [s]) == Kept(p) && Aggregated(p + [s]) == Kept(p) + [ExportList(Specifiers(p + [s]), [])]
    ensures !Aggregable(s) ==>
      Count(p + [s]) == Count(p) && Specifiers(p + [s]) == Specifiers(p) &&
      Kept(p + [s]) == Kept(p) + [s] && Aggregated(p + [s]) == Aggregated(p) + [s]
  {
    var q := p + [s];
    assert q[..|q| - 1] == p;
    if Aggregable(s) {
      assert LastAggregable(q) == |p|;
      assert q[..|p|] == p && q[|p| + 1..] == [];
    } else {
      var last := LastAggregable(p);
      assert LastAggregable(q) == last;
      if last >= 0 {
        assert q[..last] == p[..last];
        assert q[last + 1..] == p[last + 1..] + [s];
      }
    }
  }

  lemma CountPrefix(ss: seq<Stmt>, k: int)
    requires 0 <= k <= |ss|
    ensures Count(ss[..k]) <= Count(ss)
  {
    assert ss == ss[..k] + ss[k..];
    CountAppend(ss[..k], ss[k..]);
  }

  /**
   * `MultiExportsToExport`: the filter counts the qualifying statements; the
   * walk pushes each one's specifier, replaces the last one by the
   * `export { ... }` and removes the others.
   */
  method MultiExportsToExport(body: seq<Stmt>) returns (out: seq<Stmt>)
    ensures out == Aggregated(body)
  {
    var filteredCount := CountQualifying(body);
    out := Collapse(body, filteredCount);
  }

  /** `paths.filter(...)`: how many statements qualify. */
  method CountQualifying(body: seq<Stmt>) returns (n: nat)
    ensures n == Count(body)
  {
    n := 0;
    var k := 0;
    while k < |body|
      invariant 0 <= k <= |body|
      invariant n == Count(body[..k])
    {
      assert body[..k + 1][..k] == body[..k];
      if Aggregable(body[k]) {
        n := n + 1;
      }
      k := k + 1;
    }
    assert body[..k] == body;
  }

  /** The state of the walk after the first `k` statements. */
  ghost predicate Walked(body: seq<Stmt>, k: int, total: nat, i: nat, specifiers: seq<ExportSpec>, out: seq<Stmt>) {
    0 <= k <= |body| && total == Count(body) &&
    i == Count(body[..k]) && specifiers == Specifiers(body[..k]) &&
    out == if i < total then Kept(body[..k]) else Aggregated(body[..k])
  }

  /** `filteredPaths.forEach(...)`, given the number of qualifying statements. */
  method Collapse(body: seq<Stmt>, filteredCount: nat) returns (out: seq<Stmt>)
    requires filteredCount == Count(body)
    ensures out == Aggregated(body)
  {
    var specifiers: seq<ExportSpec> := [];
    var i := 0;
    out := [];
    var k := 0;
    while k < |body|
      invariant Walked(body, k, filteredCount, i, specifiers, out)
      decreases |body| - k
    {
      var s := body[k];
      if Aggregable(s) {
        WalkAggregable(body, k, filteredCount, i, specifiers, out);
        specifiers := specifiers + [ExportSpec(s.expr.right.name, s.expr.right.name)];
        if i == filteredCount - 1 {
          out := out + [ExportList(specifiers, [])];
        }
        i := i + 1;
      } else {
        WalkOther(body, k, filteredCount, i, specifiers, out);
        out := out + [s];
      }
      k := k + 1;
    }
    assert body[..k] == body;
  }

  /** An aggregable statement: its specifier is pushed, and the last one places the list. */
  lemma WalkAggregable(body: seq<Stmt>, k: int, total: nat, i: nat, specifiers: seq<ExportSpec>, out: seq<Stmt>)
    requires Walked(body, k, total, i, specifiers, out) && k < |body| && Aggregable(body[k])
    ensures var sp := specifiers + [SpecOf(body[k])];
      Walked(body, k + 1, total, i + 1, sp, if i == total - 1 then out + [ExportList(sp, [])] else out)
  {
    var p := body[..k];
    assert body[..k + 1] == p + [body[k]];
    AggregateStep(p, body[k]);
    CountPrefix(body, k + 1);
  }

  /** Any other statement is kept in place. */
  lemma WalkOther(body: seq<Stmt>, k: int, total: nat, i: nat, specifiers: seq<ExportSpec>, out: seq<Stmt>)
    requires Walked(body, k, total, i, specifiers, out) && k < |body| && !Aggregable(body[k])
    ensures Walked(body, k + 1, total, i, specifiers, out + [body[k]])
  {
    var p := body[..k];
    assert body[..k + 1] == p + [body[k]];
    AggregateStep(p, body[k]);
  }

  // ---------------------------------------------------------------- statement rules

  datatype StmtRule =
    | ModuleExportsNamed              // module.exports.n = e   ->  export const n = e
    | VarModuleExports                // var H = module.exports = e  ->  var H = e; export default H
    | ModuleExportsDefault            // module.exports = e     ->  export default e
    | ExportsNamed                    // exports.n = e          ->  export const n = e
    | ExportsModuleExportsDefault     // exports = module.exports = e  ->  export default e

  /** A declarator initialised by `module.exports = e`. */
  predicate InitsModuleExports(d: Declarator) {
    d.init.Some? && d.init.value.Assign? && d.init.value.op == "=" && IsModuleExports(d.init.value.left)
  }

  /** Whether a replacing rule matches a top-level statement. */
  predicate Replaces(k: StmtRule, s: Stmt) {
    match k
    case ModuleExportsNamed => IsAssignStmt(s) && s.expr.left.Member? && IsModuleExports(s.expr.left.obj)
    case VarModuleExports => false
    case ModuleExportsDefault => IsAssignStmt(s) && IsModuleExports(s.expr.left)
    case ExportsNamed => IsAssignStmt(s) && s.expr.left.Member? && IsIdent(s.expr.left.obj, "exports")
    case ExportsModuleExportsDefault =>
      IsAssignStmt(s) && IsIdent(s.expr.left, "exports") && s.expr.right.Assign? &&
      s.expr.right.op == "=" && IsModuleExports(s.expr.right.left)
  }

  /** `export const n = e`, carrying the comments of the statement it replaces. */
  function ExportConst(prop: Expr, e: Expr, cs: seq<Comment>): Stmt {
    ExportDecl(VarDecl(Const, [Declarator(Ident(NameOf(prop)), Some(e), [])], []), cs)
  }

  /** The statement a replacing rule puts in place of the one it matched. */
  function Replacement(k: StmtRule, s: Stmt): (r: Stmt)
    requires Replaces(k, s)
    ensures r.ExportDecl? || r.ExportDefault?
    ensures CommentsOf(r) == s.comments
  {
    match k
    case ModuleExportsNamed => ExportConst(s.expr.left.prop, s.expr.right, s.comments)
    case ModuleExportsDefault => ExportDefault(s.expr.right, s.comments)
    case ExportsNamed => ExportConst(s.expr.left.prop, s.expr.right, s.comments)
    case ExportsModuleExportsDefault => ExportDefault(s.expr.right.right, s.comments)
  }

  /** `var H = module.exports = e` becomes `var H = e`; the new declarator has no comments. */
  function Unwrapped(d: Declarator): Declarator {
    if InitsModuleExports(d) then Declarator(d.id, Some(d.init.value.right), []) else d
  }

  function UnwrapAll(ds: seq<Declarator>): (r: seq<Declarator>)
    ensures |r| == |ds|
    ensures forall i :: 0 <= i < |ds| ==> r[i] == Unwrapped(ds[i])
  {
    seq(|ds|, i requires 0 <= i < |ds| => Unwrapped(ds[i]))
  }

  /**
   * The `export default H` statements inserted right after the declaration:
   * each is inserted directly after it, so the last declarator's comes first.
   */
  function DefaultExports(ds: seq<Declarator>): seq<Stmt> {
    if ds == [] then []
    else DefaultExports(ds[1..]) + (if InitsModuleExports(ds[0]) then [ExportDefault(ds[0].id, [])] else [])
  }

  /** What one statement rule makes of one top-level statement. */
  function RuleStep(k: StmtRule, s: Stmt): (r: seq<Stmt>)
    ensures |r| >= 1
  {
    if k == VarModuleExports then
      if s.VarDecl? then [VarDecl(s.kind, UnwrapAll(s.decls), s.comments)] + DefaultExports(s.decls) else [s]
    else if Replaces(k, s) then [Replacement(k, s)]
    else [s]
  }

  /** One statement rule over the program body. */
  function ApplyRule(k: StmtRule, body: seq<Stmt>): (r: seq<Stmt>)
    ensures body != [] ==> r != []
    decreases |body|
  {
    if body == [] then []
    else ApplyRule(k, body[..|body| - 1]) + RuleStep(k, body[|body| - 1])
  }

  lemma ApplyRulePrefix(k: StmtRule, body: seq<Stmt>, i: int)
    requires 0 <= i < |body|
    ensures ApplyRule(k, body[..i + 1]) == ApplyRule(k, body[..i]) + RuleStep(k, body[i])
  {
    assert body[..i + 1][..i] == body[..i];
  }

  /**
   * One `root.find(...).filter(...).forEach(...)` of a statement rule; the flag
   * says whether the statement in front of the body was replaced.
   */
  method ForEachMatch(k: StmtRule, body: seq<Stmt>) returns (out: seq<Stmt>, replacedFirst: bool)
    ensures out == ApplyRule(k, body)
    ensures replacedFirst <==> body != [] && Replaces(k, body[0])
  {
    out := [];
    replacedFirst := false;
    var i := 0;
    while i < |body|
      invariant 0 <= i <= |body|
      invariant out == ApplyRule(k, body[..i])
      invariant replacedFirst <==> i > 0 && Replaces(k, body[0])
    {
      var s := body[i];
      var step: seq<Stmt>;
      if k == VarModuleExports {
        if s.VarDecl? {
          var decls := UnwrapAll(s.decls);
          step := [VarDecl(s.kind, decls, s.comments)] + DefaultExports(s.decls);
        } else {
          step := [s];
        }
      } else if Replaces(k, s) {
        step := [Replacement(k, s)];
        if i == 0 {
          replacedFirst := true;
        }
      } else {
        step := [s];
      }
      ApplyRulePrefix(k, body, i);
      out := out + step;
      i := i + 1;
    }
    assert body[..i] == body;
  }

  lemma {:induction false} DefaultExportsAppend(a: seq<Declarator>, b: seq<Declarator>)
    ensures DefaultExports(a + b) == DefaultExports(b) + DefaultExports(a)
    decreases |a|
  {
    if a == [] {
      assert a + b == b;
    } else {
      assert (a + b)[0] == a[0];
      assert (a + b)[1..] == a[1..] + b;
      DefaultExportsAppend(a[1..], b);
    }
  }

  /**
   * The inserted statements are exactly `export default H` for the declarators
   * initialised by `module.exports = e`, and the declarator `i`'s export stands
   * behind the exports of the declarators after it.
   */
  lemma {:induction false} DefaultExportsExactly(ds: seq<Declarator>)
    ensures forall x :: x in DefaultExports(ds) <==>
      exists i :: 0 <= i < |ds| && InitsModuleExports(ds[i]) && x == ExportDefault(ds[i].id, [])
    decreases |ds|
  {
    if ds != [] {
      DefaultExportsExactly(ds[1..]);
      forall x
        ensures x in DefaultExports(ds) <==>
          exists i :: 0 <= i < |ds| && InitsModuleExports(ds[i]) && x == ExportDefault(ds[i].id, [])
      {
        if x in DefaultExports(ds[1..]) {
          var i :| 0 <= i < |ds[1..]| && InitsModuleExports(ds[1..][i]) && x == ExportDefault(ds[1..][i].id, []);
          assert ds[i + 1] == ds[1..][i];
        }
        if exists i :: 0 <= i < |ds| && InitsModuleExports(ds[i]) && x == ExportDefault(ds[i].id, []) {
          var i :| 0 <= i < |ds| && InitsModuleExports(ds[i]) && x == ExportDefault(ds[i].id, []);
          if i > 0 {
            assert ds[1..][i - 1] == ds[i];
          }
        }
      }
    }
  }

  /** Several `module.exports` declarators of one declaration are exported last-first. */
  lemma DefaultExportAt(ds: seq<Declarator>, i: int)
    requires 0 <= i < |ds| && InitsModuleExports(ds[i])
    ensures |DefaultExports(ds[i + 1..])| < |DefaultExports(ds)|
    ensures DefaultExports(ds)[|DefaultExports(ds[i + 1..])|] == ExportDefault(ds[i].id, [])
  {
    assert ds == ds[..i] + ([ds[i]] + ds[i + 1..]);
    DefaultExportsAppend(ds[..i], [ds[i]] + ds[i + 1..]);
    DefaultExportsAppend([ds[i]], ds[i + 1..]);
    assert DefaultExports([ds[i]]) == [ExportDefault(ds[i].id, [])] by {
      assert [ds[i]][1..] == [];
    }
  }

  /** No replacing rule matches what it put in place, so running it again does nothing. */
  lemma ReplacingRuleSettles(k: StmtRule, body: seq<Stmt>)
    requires k != VarModuleExports
    ensures forall i :: 0 <= i < |ApplyRule(k, body)| ==> !Replaces(k, ApplyRule(k, body)[i])
    ensures ApplyRule(k, ApplyRule(k, body)) == ApplyRule(k, body)
  {
    ApplyRuleSettled(k, body);
    ApplyRuleIdle(k, ApplyRule(k, body));
  }

  lemma {:induction false} ApplyRuleSettled(k: StmtRule, body: seq<Stmt>)
    requires k != VarModuleExports
    ensures forall i :: 0 <= i < |ApplyRule(k, body)| ==> !Replaces(k, ApplyRule(k, body)[i])
    decreases |body|
  {
    if body != [] {
      ApplyRuleSettled(k, body[..|body| - 1]);
      var a, b := ApplyRule(k, body[..|body| - 1]), RuleStep(k, body[|body| - 1]);
      assert !Replaces(k, b[0]);
      forall i | 0 <= i < |a + b|
        ensures !Replaces(k, (a + b)[i])
      {
        if i < |a| {
          assert (a + b)[i] == a[i];
        }
      }
    }
  }

  /** A replacing rule that matches nothing leaves the body as it is. */
  lemma {:induction false} ApplyRuleIdle(k: StmtRule, body: seq<Stmt>)
    requires k != VarModuleExports
    requires forall i :: 0 <= i < |body| ==> !Replaces(k, body[i])
    ensures ApplyRule(k, body) == body
    decreases |body|
  {
    if body != [] {
      ApplyRuleIdle(k, body[..|body| - 1]);
      assert body[..|body| - 1] + [body[|body| - 1]] == body;
    }
  }

  /** The rule applied to a body keeps the first statement's replacement in front. */
  lemma {:induction false} ApplyRuleFirst(k: StmtRule, body: seq<Stmt>)
    requires body != []
    ensures ApplyRule(k, body)[0] == RuleStep(k, body[0])[0]
    decreases |body|
  {
    if |body| > 1 {
      ApplyRuleFirst(k, body[..|body| - 1]);
    } else {
      assert body[..0] == [];
    }
  }

  // ---------------------------------------------------------------- call rules

  /** `exports.f(args)` */
  predicate IsExportsCall(e: Expr) {
    e.Call? && e.callee.Member? && IsIdent(e.callee.obj, "exports")
  }

  /** `module.exports.f(args)` */
  predicate IsModuleExportsCall(e: Expr) {
    e.Call? && e.callee.Member? && IsModuleExports(e.callee.obj)
  }

  function ExportsCallRules(): Rules {
    Rules(e => if IsExportsCall(e) then Call(e.callee.prop, e.args) else e, (s, top) => [s])
  }

  function ModuleExportsCallRules(): Rules {
    Rules(e => if IsModuleExportsCall(e) then Call(e.callee.prop, e.args) else e, (s, top) => [s])
  }

  predicate NoExportsCall(n: Node) {
    !(n.NE? && IsExportsCall(n.e))
  }

  predicate NoModuleExportsCall(n: Node) {
    !(n.NE? && IsModuleExportsCall(n.e))
  }

  /** Neither call rule has anything to do anywhere in `s`. */
  predicate CallFree(s: Stmt) {
    CollS(s, Violations(NoExportsCall)) == [] && CollS(s, Violations(NoModuleExportsCall)) == []
  }

  lemma CallRulesFix()
    ensures Fixes(ExportsCallRules(), NoExportsCall)
    ensures Fixes(ModuleExportsCallRules(), NoModuleExportsCall)
  {
  }

  /** `exports.f(args)` at any depth becomes `f(args)`, the property and the arguments rewritten in turn. */
  lemma ExportsCallBecomesCall(p: Expr, computed: bool, args: seq<Expr>)
    ensures MapE(Call(Member(Ident("exports"), p, computed), args), ExportsCallRules()) ==
      Call(MapE(p, ExportsCallRules()), MapEs(args, ExportsCallRules()))
  {
    var r := ExportsCallRules();
    var callee := Member(Ident("exports"), p, computed);
    assert MapE(Ident("exports"), r) == Ident("exports");
    assert MapE(callee, r) == Member(Ident("exports"), MapE(p, r), computed);
    assert KidsE(Call(callee, args), r) == Call(MapE(callee, r), MapEs(args, r));
  }

  /** `module.exports.f(args)` at any depth becomes `f(args)`. */
  lemma ModuleExportsCallBecomesCall(c: bool, p: Expr, computed: bool, args: seq<Expr>)
    ensures MapE(Call(Member(Member(Ident("module"), Ident("exports"), c), p, computed), args), ModuleExportsCallRules()) ==
      Call(MapE(p, ModuleExportsCallRules()), MapEs(args, ModuleExportsCallRules()))
  {
    var r := ModuleExportsCallRules();
    var me := Member(Ident("module"), Ident("exports"), c);
    var callee := Member(me, p, computed);
    ModuleExportsKept(c);
    assert MapE(callee, r) == Member(me, MapE(p, r), computed);
    assert KidsE(Call(callee, args), r) == Call(MapE(callee, r), MapEs(args, r));
  }

  /** The `module.exports` object itself is not a call and stays. */
  lemma ModuleExportsKept(c: bool)
    ensures MapE(Member(Ident("module"), Ident("exports"), c), ModuleExportsCallRules()) == Member(Ident("module"), Ident("exports"), c)
  {
    var r := ModuleExportsCallRules();
    assert MapE(Ident("module"), r) == Ident("module");
    assert MapE(Ident("exports"), r) == Ident("exports");
  }

  /** A body without such calls goes through both call rules unchanged. */
  lemma CallRulesKeep(body: seq<Stmt>)
    requires forall i :: 0 <= i < |body| ==> CallFree(body[i])
    ensures MapSs(MapSs(body, true, ExportsCallRules()), true, ModuleExportsCallRules()) == body
  {
    CallRulesFix();
    CallFreeList(body);
    FixSs(body, true, ExportsCallRules(), NoExportsCall);
    FixSs(body, true, ModuleExportsCallRules(), NoModuleExportsCall);
  }

  lemma {:induction false} CallFreeList(body: seq<Stmt>)
    requires forall i :: 0 <= i < |body| ==> CallFree(body[i])
    ensures CollSs(body, Violations(NoExportsCall)) == []
    ensures CollSs(body, Violations(NoModuleExportsCall)) == []
    decreases |body|
  {
    if body != [] {
      CallFreeList(body[1..]);
      assert CallFree(body[0]);
    }
  }

  // ---------------------------------------------------------------- the pass

  /** The body so far and whether the statement in front has been replaced or removed. */
  datatype Outcome = Outcome(body: seq<Stmt>, firstReplaced: bool)

  function StepRule(o: Outcome, k: StmtRule): Outcome {
    Outcome(ApplyRule(k, o.body), o.firstReplaced || (o.body != [] && Replaces(k, o.body[0])))
  }

  /** The five statement rules the pass runs after the aggregation, in order. */
  function EarlyRule(n: nat): (r: StmtRule)
    requires n < 5
    ensures r == VarModuleExports <==> n == 1
  {
    if n == 0 then ModuleExportsNamed
    else if n == 1 then VarModuleExports
    else if n == 2 then ModuleExportsDefault
    else if n == 3 then ExportsNamed
    else ExportsModuleExportsDefault
  }

  /** The statement rules from the `n`-th on, each over the body the previous one left. */
  function RulesFrom(o: Outcome, n: nat): Outcome
    requires n <= 5
    decreases 5 - n
  {
    if n == 5 then o else RulesFrom(StepRule(o, EarlyRule(n)), n + 1)
  }

  /** The `n`-th rule passes what it makes on to the next. */
  lemma NextRule(o: Outcome, n: nat, o': Outcome)
    requires n < 5 && StepRule(o, EarlyRule(n)) == o'
    ensures RulesFrom(o, n) == RulesFrom(o', n + 1)
  {
  }

  /** The rules after the var rule leave alone a body that every rule but the var rule leaves alone. */
  lemma {:induction false} RulesAfterVarIdle(o: Outcome, n: nat)
    requires 2 <= n <= 5
    requires forall k :: k != VarModuleExports ==> StepRule(o, k) == o
    ensures RulesFrom(o, n) == o
    decreases 5 - n
  {
    if n < 5 {
      NextRule(o, n, o);
      RulesAfterVarIdle(o, n + 1);
    }
  }

  /** The aggregation and the five statement rules, in the order the pass applies them. */
  function Early(body: seq<Stmt>): Outcome {
    RulesFrom(Outcome(Aggregated(body), body != [] && Aggregable(body[0])), 0)
  }

  /** Rules that leave the body alone leave the whole rest of the sequence idle. */
  lemma {:induction false} RulesFromIdle(o: Outcome, n: nat)
    requires n <= 5
    requires forall m :: n <= m < 5 ==> StepRule(o, EarlyRule(m)) == o
    ensures RulesFrom(o, n) == o
    decreases 5 - n
  {
    if n < 5 {
      RulesFromIdle(o, n + 1);
    }
  }

  /** The two call rules, which never replace a top-level statement. */
  function CallStep(o: Outcome): Outcome {
    Outcome(MapSs(MapSs(o.body, true, ExportsCallRules()), true, ModuleExportsCallRules()), o.firstReplaced)
  }

  /** All rules in order: the last one is the first statement rule again. */
  function Steps(body: seq<Stmt>): Outcome {
    StepRule(CallStep(Early(body)), ModuleExportsNamed)
  }

  /**
   * What the pass computes.  When the first statement was replaced or removed,
   * the new first statement's comments become the old one's leading comments.
   */
  function ExportsPass(p: Program): Program {
    Finish(p, Steps(p.body))
  }

  /** The program after the rules ran, with the first statement's comments re-attached when it was replaced. */
  function Finish(p: Program, o: Outcome): Program {
    if p.body != [] && o.firstReplaced && o.body != [] then
      Program([WithComments(o.body[0], Leading(CommentsOf(p.body[0])))] + o.body[1..], p.comments)
    else Program(o.body, p.comments)
  }

  /** The pass as the source runs it: each rule in turn over the current body. */
  method Run(p: Program) returns (r: Program)
    ensures r == ExportsPass(p)
  {
    var body := MultiExportsToExport(p.body);
    var firstReplaced := p.body != [] && Aggregable(p.body[0]);
    body, firstReplaced := RunStatementRules(body, firstReplaced);
    assert Early(p.body) == Outcome(body, firstReplaced);
    body := MapSs(body, true, ExportsCallRules());
    body := MapSs(body, true, ModuleExportsCallRules());
    var hit;
    body, hit := ForEachMatch(ModuleExportsNamed, body);
    firstReplaced := firstReplaced || hit;
    assert Steps(p.body) == Outcome(body, firstReplaced);
    if p.body != [] && firstReplaced && body != [] {
      body := [WithComments(body[0], Leading(CommentsOf(p.body[0])))] + body[1..];
    }
    r := Program(body, p.comments);
  }

  /** The five statement rules in turn, each noting whether it replaced the statement in front. */
  method RunStatementRules(body0: seq<Stmt>, replaced0: bool) returns (body: seq<Stmt>, firstReplaced: bool)
    ensures Outcome(body, firstReplaced) == RulesFrom(Outcome(body0, replaced0), 0)
  {
    var hit;
    body, firstReplaced := body0, replaced0;
    ghost var o0 := Outcome(body, firstReplaced);
    body, hit := ForEachMatch(ModuleExportsNamed, body);
    firstReplaced := firstReplaced || hit;
    ghost var o1 := Outcome(body, firstReplaced);
    NextRule(o0, 0, o1);
    body, hit := ForEachMatch(VarModuleExports, body);
    firstReplaced := firstReplaced || hit;
    ghost var o2 := Outcome(body, firstReplaced);
    NextRule(o1, 1, o2);
    body, hit := ForEachMatch(ModuleExportsDefault, body);
    firstReplaced := firstReplaced || hit;
    ghost var o3 := Outcome(body, firstReplaced);
    NextRule(o2, 2, o3);
    body, hit := ForEachMatch(ExportsNamed, body);
    firstReplaced := firstReplaced || hit;
    ghost var o4 := Outcome(body, firstReplaced);
    NextRule(o3, 3, o4);
    body, hit := ForEachMatch(ExportsModuleExportsDefault, body);
    firstReplaced := firstReplaced || hit;
    NextRule(o4, 4, Outcome(body, firstReplaced));
  }



  // ---------------------------------------------------------------- the pass on one statement

  predicate CallFreeExpr(e: Expr) {
    CollE(e, Violations(NoExportsCall)) == [] && CollE(e, Violations(NoModuleExportsCall)) == []
  }

  lemma IdentCallFree(h: string)
    ensures CallFreeExpr(Ident(h))
  {
    assert NoExportsCall(NE(Ident(h))) && NoModuleExportsCall(NE(Ident(h)));
    assert Violations(NoExportsCall)(NE(Ident(h))) == [];
    assert Violations(NoModuleExportsCall)(NE(Ident(h))) == [];
  }

  /** `export const n = e` and `const n = e` hold a qualified call only where `e` does. */
  lemma ExportConstCallFree(prop: Expr, e: Expr, cs: seq<Comment>)
    requires CallFreeExpr(e)
    ensures CallFree(ExportConst(prop, e, cs))
    ensures CallFree(VarDecl(Const, [Declarator(Ident(NameOf(prop)), Some(e), [])], []))
  {
    DeclCallFree(Const, NameOf(prop), e, []);
    var v1, v2 := Violations(NoExportsCall), Violations(NoModuleExportsCall);
    var d := VarDecl(Const, [Declarator(Ident(NameOf(prop)), Some(e), [])], []);
    assert NoExportsCall(NS(ExportConst(prop, e, cs))) && NoModuleExportsCall(NS(ExportConst(prop, e, cs)));
    assert v1(NS(ExportConst(prop, e, cs))) == [] && v2(NS(ExportConst(prop, e, cs))) == [];
    assert KidsCollS(ExportConst(prop, e, cs), v1) == KidsCollS(d, v1);
    assert KidsCollS(ExportConst(prop, e, cs), v2) == KidsCollS(d, v2);
  }

  /** `var h = e` holds a qualified call only where `e` does. */
  lemma DeclCallFree(kind: VarKind, h: string, e: Expr, cs: seq<Comment>)
    requires CallFreeExpr(e)
    ensures CallFree(VarDecl(kind, [Declarator(Ident(h), Some(e), [])], cs))
  {
    IdentCallFree(h);
    var d := Declarator(Ident(h), Some(e), []);
    var s := VarDecl(kind, [d], cs);
    var v1, v2 := Violations(NoExportsCall), Violations(NoModuleExportsCall);
    assert NoExportsCall(NS(s)) && NoModuleExportsCall(NS(s));
    assert v1(NS(s)) == [] && v2(NS(s)) == [];
    assert NoExportsCall(ND(d)) && NoModuleExportsCall(ND(d));
    assert v1(ND(d)) == [] && v2(ND(d)) == [];
    assert CollD(d, v1) == [] && CollD(d, v2) == [];
    assert [d][1..] == [];
    assert CollDs([d], v1) == [] && CollDs([d], v2) == [];
  }

  lemma ExportDefaultCallFree(e: Expr, cs: seq<Comment>)
    requires CallFreeExpr(e)
    ensures CallFree(ExportDefault(e, cs))
  {
    var v1, v2 := Violations(NoExportsCall), Violations(NoModuleExportsCall);
    assert NoExportsCall(NS(ExportDefault(e, cs))) && NoModuleExportsCall(NS(ExportDefault(e, cs)));
    assert v1(NS(ExportDefault(e, cs))) == [] && v2(NS(ExportDefault(e, cs))) == [];
  }

  /** A statement no rule looks at stays where it is under every statement rule. */
  lemma StaysPut(k: StmtRule, body: seq<Stmt>)
    requires forall i :: 0 <= i < |body| ==> !body[i].ExprStmt? && !body[i].VarDecl?
    ensures ApplyRule(k, body) == body
    ensures body != [] ==> !Replaces(k, body[0])
  {
    if k == VarModuleExports {
      VarRuleIdle(body);
    } else {
      ApplyRuleIdle(k, body);
    }
  }

  lemma {:induction false} VarRuleIdle(body: seq<Stmt>)
    requires forall i :: 0 <= i < |body| ==> !body[i].VarDecl?
    ensures ApplyRule(VarModuleExports, body) == body
    decreases |body|
  {
    if body != [] {
      VarRuleIdle(body[..|body| - 1]);
      assert body[..|body| - 1] + [body[|body| - 1]] == body;
    }
  }

  lemma OneStep(k: StmtRule, s: Stmt)
    ensures ApplyRule(k, [s]) == RuleStep(k, s)
  {
    assert [s][..0] == [];
  }

  /** The rest of the pass leaves alone a body of call-free statements that no statement rule looks at. */
  lemma ExportsSettle(o: Outcome)
    requires forall i :: 0 <= i < |o.body| ==> !o.body[i].ExprStmt? && !o.body[i].VarDecl? && CallFree(o.body[i])
    ensures StepRule(CallStep(o), ModuleExportsNamed) == o
  {
    CallRulesKeep(o.body);
    StaysPut(ModuleExportsNamed, o.body);
  }

  /** A statement the early rules turned into one call-free export comes out of the pass with the statement's leading comments. */
  lemma ReplacedAlone(s: Stmt, t: Stmt, u: Stmt, pc: seq<Comment>)
    requires Early([s]) == Outcome([t], true)
    requires !t.ExprStmt? && !t.VarDecl? && CallFree(t)
    requires u == WithComments(t, Leading(CommentsOf(s)))
    ensures ExportsPass(Program([s], pc)) == Program([u], pc)
  {
    ExportsSettle(Outcome([t], true));
    assert Steps([s]) == Outcome([t], true);
    FinishReplaced(s, t, u, pc);
  }

  lemma FinishReplaced(s: Stmt, t: Stmt, u: Stmt, pc: seq<Comment>)
    requires u == WithComments(t, Leading(CommentsOf(s)))
    ensures Finish(Program([s], pc), Outcome([t], true)) == Program([u], pc)
  {
    assert [t][1..] == [];
  }

  /** The statement is not aggregated: the aggregation keeps it as it is. */
  lemma NotAggregated(s: Stmt)
    requires !Aggregable(s)
    ensures Aggregated([s]) == [s]
  {
    AggregateStep([], s);
    assert [] + [s] == [s];
  }

  /** A lone statement that a rule leaves alone. */
  lemma Untouched(s: Stmt, k: StmtRule)
    requires RuleStep(k, s) == [s] && !Replaces(k, s)
    ensures StepRule(Outcome([s], false), k) == Outcome([s], false)
  {
    OneStep(k, s);
  }

  /** A lone statement that a replacing rule replaces. */
  lemma Replaced(s: Stmt, k: StmtRule)
    requires k != VarModuleExports && Replaces(k, s)
    ensures StepRule(Outcome([s], false), k) == Outcome([Replacement(k, s)], true)
  {
    OneStep(k, s);
  }

  /*
   * A lone expression statement that the aggregation and the earlier rules
   * leave alone comes out of the early rules as the replacement made by the
   * first rule that matches it, with the first statement marked as replaced.
   */

  /** A lone statement no rule looks at stays as it is through the rest of the rules. */
  lemma SettledFrom(t: Stmt, n: nat)
    requires !t.ExprStmt? && !t.VarDecl? && n <= 5
    ensures RulesFrom(Outcome([t], true), n) == Outcome([t], true)
  {
    IdleSteps(Outcome([t], true));
    RulesFromIdle(Outcome([t], true), n);
  }

  lemma EarlyStart(s: Stmt)
    requires !Aggregable(s)
    ensures Early([s]) == RulesFrom(Outcome([s], false), 0)
  {
    NotAggregated(s);
  }

  /** A rule that does not match the lone expression statement passes it on. */
  lemma PassesOver(s: Stmt, n: nat)
    requires s.ExprStmt? && n < 5 && !Replaces(EarlyRule(n), s)
    ensures RulesFrom(Outcome([s], false), n) == RulesFrom(Outcome([s], false), n + 1)
  {
    Untouched(s, EarlyRule(n));
    NextRule(Outcome([s], false), n, Outcome([s], false));
  }

  /** Rules that do not match the lone expression statement pass it on, one after the other. */
  lemma {:induction false} PassesOverAll(s: Stmt, n: nat, m: nat)
    requires s.ExprStmt? && n <= m <= 5
    requires forall j :: n <= j < m ==> !Replaces(EarlyRule(j), s)
    ensures RulesFrom(Outcome([s], false), n) == RulesFrom(Outcome([s], false), m)
    decreases m - n
  {
    if n < m {
      PassesOver(s, n);
      PassesOverAll(s, n + 1, m);
    }
  }

  /** The first rule that matches the lone statement replaces it, and the rest leave the replacement alone. */
  lemma ReplacedBy(s: Stmt, n: nat)
    requires n < 5 && n != 1 && Replaces(EarlyRule(n), s)
    ensures RulesFrom(Outcome([s], false), n) == Outcome([Replacement(EarlyRule(n), s)], true)
  {
    var o1 := Outcome([Replacement(EarlyRule(n), s)], true);
    Replaced(s, EarlyRule(n));
    NextRule(Outcome([s], false), n, o1);
    SettledFrom(o1.body[0], n + 1);
  }

  lemma EarlyByModuleExportsNamed(s: Stmt)
    requires !Aggregable(s) && Replaces(ModuleExportsNamed, s)
    ensures Early([s]) == Outcome([Replacement(ModuleExportsNamed, s)], true)
  {
    EarlyStart(s);
    ReplacedBy(s, 0);
  }

  lemma EarlyByModuleExportsDefault(s: Stmt)
    requires s.ExprStmt? && !Aggregable(s) && !Replaces(ModuleExportsNamed, s) && Replaces(ModuleExportsDefault, s)
    ensures Early([s]) == Outcome([Replacement(ModuleExportsDefault, s)], true)
  {
    EarlyStart(s);
    PassesOverAll(s, 0, 2);
    ReplacedBy(s, 2);
  }

  lemma EarlyByExportsNamed(s: Stmt)
    requires s.ExprStmt? && !Aggregable(s) && !Replaces(ModuleExportsNamed, s) && !Replaces(ModuleExportsDefault, s)
    requires Replaces(ExportsNamed, s)
    ensures Early([s]) == Outcome([Replacement(ExportsNamed, s)], true)
  {
    EarlyStart(s);
    PassesOverAll(s, 0, 3);
    ReplacedBy(s, 3);
  }

  lemma EarlyByExportsModuleExportsDefault(s: Stmt)
    requires s.ExprStmt? && !Aggregable(s) && !Replaces(ModuleExportsNamed, s) && !Replaces(ModuleExportsDefault, s)
    requires !Replaces(ExportsNamed, s) && Replaces(ExportsModuleExportsDefault, s)
    ensures Early([s]) == Outcome([Replacement(ExportsModuleExportsDefault, s)], true)
  {
    EarlyStart(s);
    PassesOverAll(s, 0, 4);
    ReplacedBy(s, 4);
  }

  /** The value a replacing rule exports is part of the statement, so it holds no qualified call when the statement holds none. */
  lemma ReplacementCallFree(k: StmtRule, s: Stmt)
    requires Replaces(k, s) && CallFree(s)
    ensures CallFree(Replacement(k, s))
  {
    AssignedCallFree(s);
    var a := s.expr;
    if k == ExportsModuleExportsDefault {
      InnerAssignedCallFree(a.right);
      ExportDefaultCallFree(a.right.right, s.comments);
    } else if k == ModuleExportsDefault {
      ExportDefaultCallFree(a.right, s.comments);
    } else {
      ExportConstCallFree(a.left.prop, a.right, s.comments);
    }
  }

  /** Both sides of the assignment a call-free expression statement holds are call-free. */
  lemma AssignedCallFree(s: Stmt)
    requires s.ExprStmt? && s.expr.Assign? && CallFree(s)
    ensures CallFreeExpr(s.expr.left) && CallFreeExpr(s.expr.right)
  {
    var v1, v2 := Violations(NoExportsCall), Violations(NoModuleExportsCall);
    var a := s.expr;
    assert CollS(s, v1) == v1(NS(s)) + CollE(a, v1);
    assert CollS(s, v2) == v2(NS(s)) + CollE(a, v2);
    InnerAssignedCallFree(a);
  }

  lemma InnerAssignedCallFree(a: Expr)
    requires a.Assign? && CallFreeExpr(a)
    ensures CallFreeExpr(a.left) && CallFreeExpr(a.right)
  {
    var v1, v2 := Violations(NoExportsCall), Violations(NoModuleExportsCall);
    assert CollE(a, v1) == v1(NE(a)) + CollE(a.left, v1) + CollE(a.right, v1);
    assert CollE(a, v2) == v2(NE(a)) + CollE(a.left, v2) + CollE(a.right, v2);
  }


  /**
   * `module.exports.n = e` alone, unless it is aggregated, becomes
   * `export const n = e` with the statement's leading comments.
   */
  lemma ModuleExportsNamedPass(s: Stmt, pc: seq<Comment>)
    requires IsAssignStmt(s) && s.expr.left.Member? && IsModuleExports(s.expr.left.obj)
    requires !Aggregable(s) && CallFree(s)
    ensures ExportsPass(Program([s], pc)) == Program([ExportConst(s.expr.left.prop, s.expr.right, Leading(s.comments))], pc)
  {
    var t := Replacement(ModuleExportsNamed, s);
    EarlyByModuleExportsNamed(s);
    ReplacementCallFree(ModuleExportsNamed, s);
    ReplacedAlone(s, t, ExportConst(s.expr.left.prop, s.expr.right, Leading(s.comments)), pc);
  }

  /** `module.exports = e` alone becomes `export default e` with the statement's leading comments. */
  lemma ModuleExportsDefaultPass(s: Stmt, pc: seq<Comment>)
    requires IsAssignStmt(s) && IsModuleExports(s.expr.left) && CallFree(s)
    ensures ExportsPass(Program([s], pc)) == Program([ExportDefault(s.expr.right, Leading(s.comments))], pc)
  {
    var t := Replacement(ModuleExportsDefault, s);
    EarlyByModuleExportsDefault(s);
    ReplacementCallFree(ModuleExportsDefault, s);
    ReplacedAlone(s, t, ExportDefault(s.expr.right, Leading(s.comments)), pc);
  }

  /**
   * `exports.n = e` alone, unless it is aggregated, becomes `export const n = e`
   * with the statement's leading comments; in particular `exports.a = b` with
   * `a` other than `b` is not aggregated but declared.
   */
  lemma ExportsNamedPass(s: Stmt, pc: seq<Comment>)
    requires IsAssignStmt(s) && s.expr.left.Member? && IsIdent(s.expr.left.obj, "exports")
    requires !Aggregable(s) && CallFree(s)
    ensures ExportsPass(Program([s], pc)) == Program([ExportConst(s.expr.left.prop, s.expr.right, Leading(s.comments))], pc)
  {
    var t := Replacement(ExportsNamed, s);
    EarlyByExportsNamed(s);
    ReplacementCallFree(ExportsNamed, s);
    ReplacedAlone(s, t, ExportConst(s.expr.left.prop, s.expr.right, Leading(s.comments)), pc);
  }

  /** `exports = module.exports = e` alone becomes `export default e` with the statement's leading comments. */
  lemma ExportsModuleExportsDefaultPass(s: Stmt, pc: seq<Comment>)
    requires IsAssignStmt(s) && IsIdent(s.expr.left, "exports")
    requires s.expr.right.Assign? && s.expr.right.op == "=" && IsModuleExports(s.expr.right.left)
    requires CallFree(s)
    ensures ExportsPass(Program([s], pc)) == Program([ExportDefault(s.expr.right.right, Leading(s.comments))], pc)
  {
    var t := Replacement(ExportsModuleExportsDefault, s);
    EarlyByExportsModuleExportsDefault(s);
    ReplacementCallFree(ExportsModuleExportsDefault, s);
    ReplacedAlone(s, t, ExportDefault(s.expr.right.right, Leading(s.comments)), pc);
  }

  /** `exports.n = n` alone becomes `export { n }` with the statement's leading comments. */
  lemma AggregatedAlone(s: Stmt, pc: seq<Comment>)
    requires Aggregable(s)
    ensures ExportsPass(Program([s], pc)) == Program([ExportList([SpecOf(s)], Leading(s.comments))], pc)
  {
    var t := ExportList([SpecOf(s)], []);
    AggregatedEarly(s);
    ExportListCallFree([SpecOf(s)], []);
    ReplacedAlone(s, t, ExportList([SpecOf(s)], Leading(s.comments)), pc);
  }

  lemma AggregatedEarly(s: Stmt)
    requires Aggregable(s)
    ensures Early([s]) == Outcome([ExportList([SpecOf(s)], [])], true)
  {
    AggregatedOne(s);
    SettledFrom(ExportList([SpecOf(s)], []), 0);
  }

  lemma AggregatedOne(s: Stmt)
    requires Aggregable(s)
    ensures Aggregated([s]) == [ExportList([SpecOf(s)], [])]
  {
    assert LastAggregable([s]) == 0;
    assert [s][..0] == [] && [s][1..] == [];
    assert Specifiers([s]) == [SpecOf(s)];
  }

  lemma ExportListCallFree(specs: seq<ExportSpec>, cs: seq<Comment>)
    ensures CallFree(ExportList(specs, cs))
  {
    var v1, v2 := Violations(NoExportsCall), Violations(NoModuleExportsCall);
    assert NoExportsCall(NS(ExportList(specs, cs))) && NoModuleExportsCall(NS(ExportList(specs, cs)));
    assert v1(NS(ExportList(specs, cs))) == [] && v2(NS(ExportList(specs, cs))) == [];
  }

  /** An expression statement that no rule matches, and that holds no qualified call, is left as it is. */
  lemma ExprStmtKept(s: Stmt, pc: seq<Comment>)
    requires s.ExprStmt? && !Aggregable(s) && CallFree(s)
    requires forall k :: !Replaces(k, s)
    ensures ExportsPass(Program([s], pc)) == Program([s], pc)
  {
    var o := Outcome([s], false);
    EarlyKept(s);
    CallRulesKeep([s]);
    Untouched(s, ModuleExportsNamed);
    assert Steps([s]) == o;
  }

  lemma EarlyKept(s: Stmt)
    requires s.ExprStmt? && !Aggregable(s)
    requires forall k :: !Replaces(k, s)
    ensures Early([s]) == Outcome([s], false)
  {
    EarlyStart(s);
    UntouchedAll(s, Outcome([s], false));
    AllIdle(Outcome([s], false));
  }

  lemma AllIdle(o: Outcome)
    requires forall k :: StepRule(o, k) == o
    ensures RulesFrom(o, 0) == o
  {
    RulesFromIdle(o, 0);
  }

  lemma UntouchedAll(s: Stmt, o: Outcome)
    requires s.ExprStmt? && forall k :: !Replaces(k, s)
    requires o == Outcome([s], false)
    ensures forall k :: StepRule(o, k) == o
  {
    forall k
      ensures StepRule(o, k) == o
    {
      Untouched(s, k);
    }
  }


  /**
   * A lone declaration becomes what the var rule makes of it: each
   * `H = module.exports = e` declarator unwrapped to `H = e` and one
   * `export default H` after the declaration per such declarator. The
   * declaration is not replaced, so its comments stay.
   */
  lemma DeclarationPass(s: Stmt, pc: seq<Comment>)
    requires s.VarDecl?
    requires var r := [VarDecl(s.kind, UnwrapAll(s.decls), s.comments)] + DefaultExports(s.decls);
      forall i :: 0 <= i < |r| ==> CallFree(r[i])
    ensures ExportsPass(Program([s], pc)) == Program([VarDecl(s.kind, UnwrapAll(s.decls), s.comments)] + DefaultExports(s.decls), pc)
  {
    var body := [VarDecl(s.kind, UnwrapAll(s.decls), s.comments)] + DefaultExports(s.decls);
    EarlyDeclaration(s);
    CallRulesKeep(body);
    DeclarationSettled(s, Outcome(body, false));
    assert Steps([s]) == Outcome(body, false);
  }

  /**
   * `var H = module.exports = e` alone becomes `var H = e` with the same
   * declaration kind and comments, followed by `export default H`.
   */
  lemma VarModuleExportsPass(s: Stmt, pc: seq<Comment>)
    requires s.VarDecl? && |s.decls| == 1 && InitsModuleExports(s.decls[0]) && s.decls[0].id.Ident?
    requires CallFreeExpr(s.decls[0].init.value.right)
    ensures var d := s.decls[0];
      ExportsPass(Program([s], pc)) ==
      Program([VarDecl(s.kind, [Declarator(d.id, Some(d.init.value.right), [])], s.comments), ExportDefault(d.id, [])], pc)
  {
    var d := s.decls[0];
    var d' := Declarator(d.id, Some(d.init.value.right), []);
    assert UnwrapAll(s.decls) == [d'];
    assert DefaultExports(s.decls) == [ExportDefault(d.id, [])] by {
      assert s.decls[1..] == [];
    }
    DeclCallFree(s.kind, d.id.name, d.init.value.right, s.comments);
    IdentCallFree(d.id.name);
    ExportDefaultCallFree(d.id, []);
    DeclarationPass(s, pc);
  }

  /** A lone declaration comes out of the early rules as the var rule makes it. */
  lemma EarlyDeclaration(s: Stmt)
    requires s.VarDecl?
    ensures Early([s]) == Outcome([VarDecl(s.kind, UnwrapAll(s.decls), s.comments)] + DefaultExports(s.decls), false)
  {
    var o0 := Outcome([s], false);
    var o2 := Outcome([VarDecl(s.kind, UnwrapAll(s.decls), s.comments)] + DefaultExports(s.decls), false);
    EarlyStart(s);
    Untouched(s, ModuleExportsNamed);
    NextRule(o0, 0, o0);
    OneStep(VarModuleExports, s);
    assert StepRule(o0, VarModuleExports) == o2;
    NextRule(o0, 1, o2);
    DeclarationSettled(s, o2);
    RulesAfterVarIdle(o2, 2);
  }

  /** Every rule but the var rule leaves what the var rule made of a declaration alone. */
  lemma DeclarationSettled(s: Stmt, o2: Outcome)
    requires s.VarDecl?
    requires o2 == Outcome([VarDecl(s.kind, UnwrapAll(s.decls), s.comments)] + DefaultExports(s.decls), false)
    ensures forall k :: k != VarModuleExports ==> StepRule(o2, k) == o2
  {
    DefaultExportsExactly(s.decls);
    forall i | 0 <= i < |o2.body|
      ensures !o2.body[i].ExprStmt?
    {
      if i > 0 {
        assert o2.body[i] in DefaultExports(s.decls);
      }
    }
    forall k | k != VarModuleExports
      ensures StepRule(o2, k) == o2
    {
      ApplyRuleIdle(k, o2.body);
    }
  }

  // ---------------------------------------------------------------- top level only

  /**
   * The rule for `module.exports = e` under the guard the source writes: a
   * statement qualifies when it stands directly in any statement list named
   * `body`, which function and block bodies are as well as the program's.
   */
  function DefaultRuleAsWritten(): Rules {
    Rules(e => e, (s, top) => RuleStep(ModuleExportsDefault, s))
  }

  /** Under that guard `function f() { module.exports = x }` gets an `export default` inside the function. */
  lemma NestedDefaultExportAsWritten(x: string)
    ensures MapSs([FuncDecl("f", [], [ExprStmt(Assign("=", Member(Ident("module"), Ident("exports"), false), Ident(x)), [])], [])], true, DefaultRuleAsWritten()) ==
      [FuncDecl("f", [], [ExportDefault(Ident(x), [])], [])]
  {
    var r := DefaultRuleAsWritten();
    var me := Member(Ident("module"), Ident("exports"), false);
    var a := Assign("=", me, Ident(x));
    assert MapE(Ident("module"), r) == Ident("module");
    assert MapE(Ident("exports"), r) == Ident("exports");
    assert MapE(Ident(x), r) == Ident(x);
    assert MapE(me, r) == me;
    assert MapE(a, r) == a;
    var inner := [ExprStmt(a, [])];
    assert MapSs(inner, false, r) == [ExportDefault(Ident(x), [])] by {
      assert inner[1..] == [];
      assert MapS(inner[0], false, r) == [ExportDefault(Ident(x), [])];
    }
    var f := FuncDecl("f", [], inner, []);
    assert MapEs([], r) == [];
    assert MapS(f, true, r) == [FuncDecl("f", [], [ExportDefault(Ident(x), [])], [])];
    assert [f][1..] == [];
  }

  /** The early rules leave alone a body of statements they do not look at. */
  lemma EarlyIdle(body: seq<Stmt>)
    requires forall i :: 0 <= i < |body| ==> !body[i].ExprStmt? && !body[i].VarDecl?
    ensures Early(body) == Outcome(body, false)
  {
    var o0 := Outcome(body, false);
    assert Aggregated(body) == body && !(body != [] && Aggregable(body[0])) by {
      KeptAll(body);
    }
    IdleSteps(o0);
    RulesFromIdle(o0, 0);
  }

  /** Each statement rule leaves alone a body of statements it does not look at. */
  lemma IdleSteps(o: Outcome)
    requires forall i :: 0 <= i < |o.body| ==> !o.body[i].ExprStmt? && !o.body[i].VarDecl?
    ensures forall k :: StepRule(o, k) == o
  {
    forall k
      ensures StepRule(o, k) == o
    {
      StaysPut(k, o.body);
    }
  }

  /** Any top-level statement that is neither an expression statement nor a declaration, and holds no qualified call, is left as it is. */
  lemma OtherStatementKept(s: Stmt, pc: seq<Comment>)
    requires !s.ExprStmt? && !s.VarDecl? && CallFree(s)
    ensures ExportsPass(Program([s], pc)) == Program([s], pc)
  {
    EarlyIdle([s]);
    CallRulesKeep([s]);
    StaysPut(ModuleExportsNamed, [s]);
    assert CallStep(Outcome([s], false)) == Outcome([s], false);
    assert Steps([s]) == Outcome([s], false);
  }

  /** The pass itself leaves `function f() { module.exports = x }` as it is: the rules rewrite the program body only. */
  lemma NestedAssignmentKept(x: string, pc: seq<Comment>)
    ensures ExportsPass(Program([FuncDecl("f", [], [ExprStmt(Assign("=", Member(Ident("module"), Ident("exports"), false), Ident(x)), [])], [])], pc)) ==
      Program([FuncDecl("f", [], [ExprStmt(Assign("=", Member(Ident("module"), Ident("exports"), false), Ident(x)), [])], [])], pc)
  {
    var me := Member(Ident("module"), Ident("exports"), false);
    var a := Assign("=", me, Ident(x));
    var inner := [ExprStmt(a, [])];
    var f := FuncDecl("f", [], inner, []);
    AssignCallFree(x);
    ExprStmtCallFree(a, []);
    FuncDeclCallFree("f", inner, []);
    OtherStatementKept(f, pc);
  }

  /** The filter of `MultiExportsToExport` under the guard as written reports an aggregable statement of any statement list. */
  function PickAggregable(n: Node): seq<ExportSpec> {
    if n.NS? && Aggregable(n.s) then [SpecOf(n.s)] else []
  }

  /**
   * The names `MultiExportsToExport` aggregates under the guard as written:
   * those of the aggregable statements of every statement list named `body`,
   * nested function and block bodies included, in document order.
   */
  function SpecifiersAsWritten(body: seq<Stmt>): (r: seq<ExportSpec>)
    ensures forall x :: x in r ==> x.local == x.exported
  {
    ImageSs(body, PickAggregable, (x: ExportSpec) => x.local == x.exported);
    CollSs(body, PickAggregable)
  }

  /** `exports.x = x` */
  function ExportsAssign(x: string): Stmt {
    ExprStmt(Assign("=", Member(Ident("exports"), Ident(x), false), Ident(x)), [])
  }

  lemma ExportsAssignPicked(x: string)
    ensures CollS(ExportsAssign(x), PickAggregable) == [ExportSpec(x, x)]
  {
    var m := Member(Ident("exports"), Ident(x), false);
    var a := Assign("=", m, Ident(x));
    assert CollE(Ident("exports"), PickAggregable) == [];
    assert CollE(Ident(x), PickAggregable) == [];
    assert CollE(m, PickAggregable) == [];
    assert CollE(a, PickAggregable) == [];
    assert Aggregable(ExportsAssign(x));
  }

  /**
   * For `function f() { exports.a = a } exports.b = b` the guard as written
   * aggregates both names, so the source writes `export { a, b }` and removes the
   * statement inside `f`; the pass aggregates `b` alone (`NestedAggregated`).
   */
  lemma NestedAggregationAsWritten()
    ensures var body := [FuncDecl("f", [], [ExportsAssign("a")], []), ExportsAssign("b")];
      SpecifiersAsWritten(body) == [ExportSpec("a", "a"), ExportSpec("b", "b")] &&
      Specifiers(body) == [ExportSpec("b", "b")]
  {
    var f := FuncDecl("f", [], [ExportsAssign("a")], []);
    NestedPicked(f);
    SingleListPicked("b");
    CollSsAppend([f], [ExportsAssign("b")], PickAggregable);
    assert [f, ExportsAssign("b")] == [f] + [ExportsAssign("b")];
    NestedAggregated(f);
  }

  lemma SingleListPicked(x: string)
    ensures CollSs([ExportsAssign(x)], PickAggregable) == [ExportSpec(x, x)]
  {
    ExportsAssignPicked(x);
    assert [ExportsAssign(x)][1..] == [];
  }

  lemma NestedPicked(f: Stmt)
    requires f == FuncDecl("f", [], [ExportsAssign("a")], [])
    ensures CollSs([f], PickAggregable) == [ExportSpec("a", "a")]
  {
    SingleListPicked("a");
    assert CollEs([], PickAggregable) == [];
    assert !Aggregable(f);
    assert CollS(f, PickAggregable) == [ExportSpec("a", "a")];
    assert [f][1..] == [];
  }

  /** The pass keeps `function f() { exports.a = a }` and turns `exports.b = b` into `export { b }`. */
  lemma NestedAggregated(f: Stmt)
    requires f == FuncDecl("f", [], [ExportsAssign("a")], [])
    ensures var body := [f, ExportsAssign("b")];
      Specifiers(body) == [ExportSpec("b", "b")] &&
      Aggregated(body) == [f, ExportList([ExportSpec("b", "b")], [])]
  {
    var b := ExportsAssign("b");
    NestedSteps(f, b);
    assert [f] + [b] == [f, b];
  }

  /** The two turns of the aggregation over `f` and then `exports.b = b`. */
  lemma NestedSteps(f: Stmt, b: Stmt)
    requires f == FuncDecl("f", [], [ExportsAssign("a")], []) && b == ExportsAssign("b")
    ensures Specifiers([f] + [b]) == [ExportSpec("b", "b")]
    ensures Aggregated([f] + [b]) == [f, ExportList([ExportSpec("b", "b")], [])]
  {
    assert !Aggregable(f);
    assert Aggregable(b) && SpecOf(b) == ExportSpec("b", "b");
    AggregateStep([], f);
    assert [] + [f] == [f];
    AggregateStep([f], b);
  }

  lemma ExprStmtCallFree(e: Expr, cs: seq<Comment>)
    requires CallFreeExpr(e)
    ensures CallFree(ExprStmt(e, cs))
  {
    var v1, v2 := Violations(NoExportsCall), Violations(NoModuleExportsCall);
    assert NoExportsCall(NS(ExprStmt(e, cs))) && NoModuleExportsCall(NS(ExprStmt(e, cs)));
    assert v1(NS(ExprStmt(e, cs))) == [] && v2(NS(ExprStmt(e, cs))) == [];
  }

  /** A function without parameters holds a qualified call only where its body does. */
  lemma FuncDeclCallFree(name: string, body: seq<Stmt>, cs: seq<Comment>)
    requires forall i :: 0 <= i < |body| ==> CallFree(body[i])
    ensures CallFree(FuncDecl(name, [], body, cs))
  {
    var v1, v2 := Violations(NoExportsCall), Violations(NoModuleExportsCall);
    CallFreeList(body);
    assert NoExportsCall(NS(FuncDecl(name, [], body, cs))) && NoModuleExportsCall(NS(FuncDecl(name, [], body, cs)));
    assert v1(NS(FuncDecl(name, [], body, cs))) == [] && v2(NS(FuncDecl(name, [], body, cs))) == [];
    assert CollEs([], v1) == [] && CollEs([], v2) == [];
    assert KidsCollS(FuncDecl(name, [], body, cs), v1) == CollSs(body, v1);
    assert KidsCollS(FuncDecl(name, [], body, cs), v2) == CollSs(body, v2);
  }

  lemma AssignCallFree(x: string)
    ensures CallFreeExpr(Assign("=", Member(Ident("module"), Ident("exports"), false), Ident(x)))
  {
    var me := Member(Ident("module"), Ident("exports"), false);
    var a := Assign("=", me, Ident(x));
    IdentCallFree("module");
    IdentCallFree("exports");
    IdentCallFree(x);
    var v1, v2 := Violations(NoExportsCall), Violations(NoModuleExportsCall);
    assert NoExportsCall(NE(me)) && NoModuleExportsCall(NE(me));
    assert v1(NE(me)) == [] && v2(NE(me)) == [];
    assert NoExportsCall(NE(a)) && NoModuleExportsCall(NE(a));
    assert v1(NE(a)) == [] && v2(NE(a)) == [];
    assert CollE(me, v1) == [] && CollE(me, v2) == [];
    assert CollE(a, v1) == [] && CollE(a, v2) == [];
  }
}
