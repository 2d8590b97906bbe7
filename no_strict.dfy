/**
 * The `no-strict` pass: every `'use strict'` expression statement is removed, at
 * any depth; when one stood directly in the program body, the first statement's
 * leading comments are re-attached to the file.
 */
module NoStrict {
  import opened Ast
  import opened Traverse

  predicate IsUseStrict(s: Stmt) {
    s.ExprStmt? && s.expr.Str? && s.expr.value == "use strict"
  }

  function DropUseStrict(s: Stmt, top: bool): (r: seq<Stmt>)
    ensures r == [] <==> IsUseStrict(s)
    ensures r != [] ==> r == [s]
  {
    if IsUseStrict(s) then [] else [s]
  }

  function StrictRules(): Rules {
    Rules(e => e, DropUseStrict)
  }

  predicate NotUseStrict(n: Node) {
    !(n.NS? && IsUseStrict(n.s))
  }

  predicate HasTopLevelUseStrict(body: seq<Stmt>) {
    exists i :: 0 <= i < |body| && IsUseStrict(body[i])
  }

  /**
   * What the pass computes.  The first statement's leading comments are read
   * before anything else; an empty program has no `'use strict'` to remove and
   * comes back as it is.
   */
  function NoStrict(p: Program): Program {
    if p.body == [] then p
    else
      Program(MapSs(p.body, true, StrictRules()),
              if HasTopLevelUseStrict(p.body) then Leading(CommentsOf(p.body[0])) else p.comments)
  }

  /** The pass as the source runs it: one walk that removes and raises the re-attach flag. */
  method Run(p: Program) returns (r: Program)
    ensures r == NoStrict(p)
  {
    if p.body == [] {
      return p;
    }
    var leadingComment := Leading(CommentsOf(p.body[0]));
    var replaceLeadingComment := false;
    var body: seq<Stmt> := [];
    var i := 0;
    while i < |p.body|
      invariant 0 <= i <= |p.body|
      invariant body == MapSs(p.body[..i], true, StrictRules())
      invariant replaceLeadingComment <==> exists j :: 0 <= j < i && IsUseStrict(p.body[j])
    {
      var s := p.body[i];
      if IsUseStrict(s) {
        replaceLeadingComment := true;
      } else {
        body := body + [KidsS(s, StrictRules())];
      }
      assert p.body[..i + 1] == p.body[..i] + [s];
      KidsKeepUseStrict(s);
      assert MapSs([s], true, StrictRules()) == MapS(s, true, StrictRules());
      MapSsAppend(p.body[..i], [s], true, StrictRules());
      i := i + 1;
    }
    assert p.body[..i] == p.body;
    r := Program(body, if replaceLeadingComment then leadingComment else p.comments);
  }

  /** Rewriting inside a statement does not change whether it is a `'use strict'` statement. */
  lemma KidsKeepUseStrict(s: Stmt)
    ensures IsUseStrict(KidsS(s, StrictRules())) == IsUseStrict(s)
    ensures MapS(s, true, StrictRules()) == if IsUseStrict(s) then [] else [KidsS(s, StrictRules())]
  {
    if s.ExprStmt? {
      var e := s.expr;
      assert MapE(e, StrictRules()) == KidsE(e, StrictRules());
      if e.Str? {
        assert KidsE(e, StrictRules()) == e;
      } else {
        assert !KidsE(e, StrictRules()).Str?;
      }
    }
  }

  lemma StrictEstablishes()
    ensures Establishes(StrictRules(), NotUseStrict) && EstablishesAtTop(StrictRules(), NotUseStrict)
    ensures Fixes(StrictRules(), NotUseStrict)
  {
    var r := StrictRules();
    var v := Violations(NotUseStrict);
    forall e: Expr | KidsCollE(e, v) == []
      ensures CollE(r.fe(e), v) == []
    {
      assert r.fe(e) == e;
    }
    forall s: Stmt, top: bool | KidsCollS(s, v) == []
      ensures CollSs(r.fs(s, top), v) == []
    {
      var out := r.fs(s, top);
      if out != [] {
        assert out[1..] == [];
        assert CollSs(out, v) == CollS(out[0], v);
      }
    }
  }

  /** No `'use strict'` statement remains anywhere. */
  lemma {:induction false} RemovesEveryUseStrict(p: Program)
    ensures EverySs(NotUseStrict, NoStrict(p).body) || (p.body == [] && NoStrict(p) == p)
  {
    if p.body != [] {
      StrictEstablishes();
      EstablishSs(p.body, true, StrictRules(), NotUseStrict);
    }
  }

  /** The statements of `ss` with only their nested `'use strict'` statements removed. */
  function Stripped(ss: seq<Stmt>): (r: seq<Stmt>)
    ensures |r| == |ss|
  {
    seq(|ss|, i requires 0 <= i < |ss| => KidsS(ss[i], StrictRules()))
  }

  /** At the top level, the other statements remain, in their original relative order. */
  lemma {:induction false} KeepsOtherStatementsInOrder(ss: seq<Stmt>)
    ensures MapSs(ss, true, StrictRules()) == Stripped(Filter(ss, s => !IsUseStrict(s)))
  {
    if ss != [] {
      KeepsOtherStatementsInOrder(ss[1..]);
      var keep := (s: Stmt) => !IsUseStrict(s);
      var head := if keep(ss[0]) then [ss[0]] else [];
      assert Filter(ss, keep) == head + Filter(ss[1..], keep);
      StrippedAppend(head, Filter(ss[1..], keep));
      assert Stripped(head) == if keep(ss[0]) then [KidsS(ss[0], StrictRules())] else [];
      KidsKeepUseStrict(ss[0]);
      assert MapSs(ss, true, StrictRules()) == MapS(ss[0], true, StrictRules()) + MapSs(ss[1..], true, StrictRules());
    }
  }

  lemma StrippedAppend(a: seq<Stmt>, b: seq<Stmt>)
    ensures Stripped(a + b) == Stripped(a) + Stripped(b)
  {
    assert forall i :: 0 <= i < |a| ==> (a + b)[i] == a[i];
    assert forall i :: |a| <= i < |a + b| ==> (a + b)[i] == b[i - |a|];
  }

  /** The file's comments change only when a top-level `'use strict'` was removed, and then to the first statement's leading comments. */
  lemma {:induction false} CommentsReattachedIffTopLevelRemoved(p: Program)
    requires p.body != []
    ensures HasTopLevelUseStrict(p.body) ==> NoStrict(p).comments == Leading(CommentsOf(p.body[0]))
    ensures !HasTopLevelUseStrict(p.body) ==> NoStrict(p).comments == p.comments
  {
  }

  /** A second run finds nothing to remove and does not touch the file's comments. */
  lemma {:induction false} SecondRunChangesNothing(p: Program)
    ensures NoStrict(NoStrict(p)) == NoStrict(p)
  {
    var p1 := NoStrict(p);
    if p.body != [] && p1.body != [] {
      RemovesEveryUseStrict(p);
      StrictEstablishes();
      FixSs(p1.body, true, StrictRules(), NotUseStrict);
      if HasTopLevelUseStrict(p1.body) {
        var i :| 0 <= i < |p1.body| && IsUseStrict(p1.body[i]);
        EveryAt(NotUseStrict, p1.body, i);
      }
    }
  }
}
