/**
 * The `let` pass: every `var` declaration, at any depth and under `export` as
 * well, becomes a `let` declaration with the same declarators and comments.
 */
module LetPass {
  import opened Ast
  import opened Traverse

  predicate IsVar(s: Stmt) {
    s.VarDecl? && s.kind == Var
  }

  /**
   * The rule for one statement: `var` becomes `let`, everything else stays.  A
   * declaration under `export` is a match of the search too, so `export var`
   * becomes `export let`.
   */
  function VarToLet(s: Stmt, top: bool): (r: seq<Stmt>)
    ensures |r| == 1
    ensures s.VarDecl? ==> r[0].VarDecl? && r[0].decls == s.decls && r[0].comments == s.comments
    ensures s.VarDecl? ==> r[0].kind == (if s.kind == Var then Let else s.kind)
    ensures s.ExportDecl? && IsVar(s.decl) ==>
      r == [ExportDecl(VarDecl(Let, s.decl.decls, s.decl.comments), s.comments)]
    ensures !IsVar(s) && !(s.ExportDecl? && IsVar(s.decl)) ==> r == [s]
  {
    if IsVar(s) then [VarDecl(Let, s.decls, s.comments)]
    else if s.ExportDecl? && IsVar(s.decl) then [ExportDecl(VarDecl(Let, s.decl.decls, s.decl.comments), s.comments)]
    else [s]
  }

  function LetRules(): Rules {
    Rules(e => e, VarToLet)
  }

  function Run(p: Program): Program {
    Program(MapSs(p.body, true, LetRules()), p.comments)
  }

  /** No `var` declaration here, neither standing alone nor under `export`. */
  predicate NotVar(n: Node) {
    !(n.NS? && (IsVar(n.s) || (n.s.ExportDecl? && IsVar(n.s.decl))))
  }

  lemma LetEstablishes()
    ensures Establishes(LetRules(), NotVar) && EstablishesAtTop(LetRules(), NotVar)
    ensures Fixes(LetRules(), NotVar)
  {
    var r := LetRules();
    var v := Violations(NotVar);
    forall e: Expr | KidsCollE(e, v) == []
      ensures CollE(r.fe(e), v) == []
    {
      assert r.fe(e) == e;
      assert NotVar(NE(e));
      assert v(NE(e)) == [];
    }
    forall s: Stmt, top: bool | KidsCollS(s, v) == []
      ensures CollSs(r.fs(s, top), v) == []
    {
      RuleEstablishes(s, top);
    }
  }

  lemma RuleEstablishes(s: Stmt, top: bool)
    requires KidsCollS(s, Violations(NotVar)) == []
    ensures CollSs(VarToLet(s, top), Violations(NotVar)) == []
  {
    var v := Violations(NotVar);
    var out := VarToLet(s, top);
    assert out[1..] == [];
    assert CollSs(out, v) == CollS(out[0], v);
    assert NotVar(NS(out[0]));
    assert v(NS(out[0])) == [];
    if IsVar(s) {
      assert KidsCollS(out[0], v) == KidsCollS(s, v);
    } else if s.ExportDecl? && IsVar(s.decl) {
      assert KidsCollS(out[0], v) == KidsCollS(s.decl, v) == KidsCollS(s, v);
    }
  }

  /** After the pass no `var` declaration remains anywhere in the program. */
  lemma {:induction false} RunLeavesNoVar(p: Program)
    ensures EverySs(NotVar, Run(p).body)
  {
    LetEstablishes();
    EstablishSs(p.body, true, LetRules(), NotVar);
  }

  /** A second run changes nothing. */
  lemma {:induction false} RunIdempotent(p: Program)
    ensures Run(Run(p)) == Run(p)
  {
    RunLeavesNoVar(p);
    LetEstablishes();
    FixSs(Run(p).body, true, LetRules(), NotVar);
  }

  /** A program without `var` is left as it is. */
  lemma {:induction false} RunWithoutVar(p: Program)
    requires EverySs(NotVar, p.body)
    ensures Run(p) == p
  {
    LetEstablishes();
    FixSs(p.body, true, LetRules(), NotVar);
  }

  /**
   * At the top level the pass maps statement to statement: a declaration stays
   * a declaration with the same comments and the same number of declarators,
   * and only a `var` kind changes (to `let`).
   */
  lemma {:induction false} RunTopLevel(ss: seq<Stmt>)
    ensures |MapSs(ss, true, LetRules())| == |ss|
    ensures forall i :: 0 <= i < |ss| ==>
      var s, t := ss[i], MapSs(ss, true, LetRules())[i];
      (t.VarDecl? <==> s.VarDecl?) &&
      (s.VarDecl? ==> t.kind == (if s.kind == Var then Let else s.kind) &&
                      t.comments == s.comments && |t.decls| == |s.decls|)
  {
    if ss != [] {
      RunTopLevel(ss[1..]);
      var head := MapS(ss[0], true, LetRules());
      assert head == VarToLet(KidsS(ss[0], LetRules()), true);
      var out := MapSs(ss, true, LetRules());
      assert out == head + MapSs(ss[1..], true, LetRules());
      forall i | 0 <= i < |ss|
        ensures var s, t := ss[i], out[i];
          (t.VarDecl? <==> s.VarDecl?) &&
          (s.VarDecl? ==> t.kind == (if s.kind == Var then Let else s.kind) &&
                          t.comments == s.comments && |t.decls| == |s.decls|)
      {
        if i > 0 {
          assert ss[i] == ss[1..][i - 1];
          assert out[i] == MapSs(ss[1..], true, LetRules())[i - 1];
        }
      }
    }
  }

  /** `export var x = e` becomes `export let x = e`, the declarators rewritten like any others. */
  lemma {:induction false} ExportedVarBecomesLet(ds: seq<Declarator>, c: seq<Comment>, c2: seq<Comment>)
    ensures MapSs([ExportDecl(VarDecl(Var, ds, c), c2)], true, LetRules()) ==
      [ExportDecl(VarDecl(Let, MapDs(ds, LetRules()), c), c2)]
  {
    var s := ExportDecl(VarDecl(Var, ds, c), c2);
    assert KidsS(s, LetRules()) == ExportDecl(VarDecl(Var, MapDs(ds, LetRules()), c), c2);
    assert [s][1..] == [];
  }
}
