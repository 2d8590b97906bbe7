/**
 * The insertion cursor several passes keep over the program body
 * (`lastImportIndex` and its `insertImport` closure): a new declaration goes
 * right after the statement at the cursor, or before the first statement when
 * there is no import yet, and the cursor moves onto it.
 */
module Cursor {
  import opened Ast
  import opened Utils

  /** The body after one insertion right after index `idx` (at the front for -1). */
  function InsertAfter(body: seq<Stmt>, idx: int, s: Stmt): (r: seq<Stmt>)
    requires -1 <= idx < |body|
    ensures |r| == |body| + 1
  {
    body[..idx + 1] + [s] + body[idx + 1..]
  }

  /** The body after inserting `ss` one by one, the cursor moving on after each. */
  function InsertAll(body: seq<Stmt>, idx: int, ss: seq<Stmt>): (r: seq<Stmt>)
    requires -1 <= idx < |body|
    ensures |r| == |body| + |ss|
    decreases |ss|
  {
    if ss == [] then body else InsertAll(InsertAfter(body, idx, ss[0]), idx + 1, ss[1..])
  }

  /** Successive insertions land consecutively, in call order, right after the cursor. */
  lemma {:induction false} InsertAllConsecutive(body: seq<Stmt>, idx: int, ss: seq<Stmt>)
    requires -1 <= idx < |body|
    ensures InsertAll(body, idx, ss) == body[..idx + 1] + ss + body[idx + 1..]
    decreases |ss|
  {
    if ss != [] {
      var b1 := InsertAfter(body, idx, ss[0]);
      InsertAllConsecutive(b1, idx + 1, ss[1..]);
      assert b1[..idx + 2] == body[..idx + 1] + [ss[0]];
      assert b1[idx + 2..] == body[idx + 1..];
      assert [ss[0]] + ss[1..] == ss;
    }
  }

  /** Inserting one batch and then another at the advanced cursor is inserting both at once. */
  lemma {:induction false} InsertAllAppend(body: seq<Stmt>, idx: int, xs: seq<Stmt>, ys: seq<Stmt>)
    requires -1 <= idx < |body|
    ensures InsertAll(InsertAll(body, idx, xs), idx + |xs|, ys) == InsertAll(body, idx, xs + ys)
  {
    var pre, post := body[..idx + 1], body[idx + 1..];
    var b1 := InsertAll(body, idx, xs);
    InsertAllConsecutive(body, idx, xs);
    InsertAllConsecutive(body, idx, xs + ys);
    SpliceAgain(b1, pre, xs, ys, post);
  }

  lemma {:induction false} SpliceAgain(b1: seq<Stmt>, pre: seq<Stmt>, xs: seq<Stmt>, ys: seq<Stmt>, post: seq<Stmt>)
    requires b1 == pre + xs + post
    ensures InsertAll(b1, |pre| + |xs| - 1, ys) == pre + (xs + ys) + post
  {
    InsertAllConsecutive(b1, |pre| + |xs| - 1, ys);
    assert b1[..|pre| + |xs|] == pre + xs;
    assert b1[|pre| + |xs|..] == post;
  }

  /** The same layout, position by position. */
  lemma InsertAllLayout(body: seq<Stmt>, idx: int, ss: seq<Stmt>)
    requires -1 <= idx < |body|
    ensures var r := InsertAll(body, idx, ss);
      (forall i :: 0 <= i <= idx ==> r[i] == body[i]) &&
      (forall i :: 0 <= i < |ss| ==> r[idx + 1 + i] == ss[i]) &&
      (forall i :: idx + 1 <= i < |body| ==> r[i + |ss|] == body[i])
  {
    InsertAllConsecutive(body, idx, ss);
  }

  /** One insertion, position by position: the new statement at `idx + 1`, the later ones shifted by one. */
  lemma InsertAfterLayout(body: seq<Stmt>, idx: int, s: Stmt)
    requires -1 <= idx < |body|
    ensures var r := InsertAfter(body, idx, s);
      r[idx + 1] == s &&
      forall i :: 0 <= i < |body| ==> r[if i <= idx then i else i + 1] == body[i]
  {
  }

  /** Nothing after the cursor was an import, so nothing after the inserted statement is one. */
  lemma InsertKeepsLast(m: seq<Stmt>, idx: int, s: Stmt)
    requires -1 <= idx < |m|
    requires forall j :: idx < j < |m| ==> !m[j].Import?
    ensures var r := InsertAfter(m, idx, s);
      r[idx + 1] == s && forall i :: idx + 1 < i < |r| ==> !r[i].Import?
  {
    assert InsertAfter(m, idx, s)[idx + 1] == s;
    forall i | idx + 1 < i < |m| + 1
      ensures !InsertAfter(m, idx, s)[i].Import?
    {
      assert InsertAfter(m, idx, s)[i] == m[i - 1];
    }
  }

  /**
   * Inserted after the last import of `body` into a body `m` whose statements are
   * imports exactly where `body`'s are, the new statement is the last import.
   */
  lemma InsertAfterLastImport(body: seq<Stmt>, m: seq<Stmt>, idx: int, s: Stmt)
    requires |m| == |body| && forall j :: 0 <= j < |body| ==> (m[j].Import? <==> body[j].Import?)
    requires idx == FindLastImportIndex(body, Tsx)
    ensures var r := InsertAfter(m, idx, s);
      r[idx + 1] == s && forall i :: idx + 1 < i < |r| ==> !r[i].Import?
  {
    NoImportAfterLast(body, m, idx);
    InsertKeepsLast(m, idx, s);
  }

  /** Past the last import of `body`, `m` has no import either. */
  lemma NoImportAfterLast(body: seq<Stmt>, m: seq<Stmt>, idx: int)
    requires |m| == |body| && forall j :: 0 <= j < |body| ==> (m[j].Import? <==> body[j].Import?)
    requires idx == FindLastImportIndex(body, Tsx)
    ensures forall j :: idx < j < |m| ==> !m[j].Import?
  {
    forall j | idx < j < |m|
      ensures !m[j].Import?
    {
      TsxCountsOnlyImportDeclarations(body[j]);
    }
  }

  /** Whatever holds of every old statement and every inserted one holds of every statement after the insertions. */
  lemma InsertAllKeeps(body: seq<Stmt>, idx: int, ss: seq<Stmt>, P: Stmt -> bool)
    requires -1 <= idx < |body|
    requires forall i :: 0 <= i < |body| ==> P(body[i])
    requires forall i :: 0 <= i < |ss| ==> P(ss[i])
    ensures forall i :: 0 <= i < |InsertAll(body, idx, ss)| ==> P(InsertAll(body, idx, ss)[i])
  {
    InsertAllLayout(body, idx, ss);
    var r := InsertAll(body, idx, ss);
    forall i | 0 <= i < |r|
      ensures P(r[i])
    {
      if i <= idx {
        assert r[i] == body[i];
      } else if i < idx + 1 + |ss| {
        assert r[idx + 1 + (i - idx - 1)] == ss[i - idx - 1];
      } else {
        assert r[(i - |ss|) + |ss|] == body[i - |ss|];
      }
    }
  }

  /**
   * Started at the last import-like statement, the cursor puts the new
   * declarations after every import-like statement and before everything that
   * followed the last one; with no import they open the file.
   */
  lemma CursorFollowsImports(body: seq<Stmt>, parser: Parser, ss: seq<Stmt>)
    ensures var idx := FindLastImportIndex(body, parser);
      var r := InsertAll(body, idx, ss);
      r[..idx + 1] == body[..idx + 1] &&
      r[idx + 1..idx + 1 + |ss|] == ss &&
      r[idx + 1 + |ss|..] == body[idx + 1..] &&
      (forall i :: idx + 1 + |ss| <= i < |r| ==> !IsImportLike(r[i], parser)) &&
      (idx == -1 ==> r[..|ss|] == ss)
  {
    var idx := FindLastImportIndex(body, parser);
    InsertAllSplit(body, idx, ss);
    InsertedBeforeNonImports(body, parser, idx, ss);
  }

  lemma {:induction false} InsertAllSplit(body: seq<Stmt>, idx: int, ss: seq<Stmt>)
    requires -1 <= idx < |body|
    ensures var r := InsertAll(body, idx, ss);
      r[..idx + 1] == body[..idx + 1] && r[idx + 1..idx + 1 + |ss|] == ss && r[idx + 1 + |ss|..] == body[idx + 1..]
  {
    InsertAllConsecutive(body, idx, ss);
  }

  lemma {:induction false} InsertedBeforeNonImports(body: seq<Stmt>, parser: Parser, idx: int, ss: seq<Stmt>)
    requires -1 <= idx < |body|
    requires forall j :: idx < j < |body| ==> !IsImportLike(body[j], parser)
    ensures var r := InsertAll(body, idx, ss);
      forall i :: idx + 1 + |ss| <= i < |r| ==> !IsImportLike(r[i], parser)
  {
    InsertAllSplit(body, idx, ss);
    var r := InsertAll(body, idx, ss);
    var tail := r[idx + 1 + |ss|..];
    forall i | idx + 1 + |ss| <= i < |r|
      ensures !IsImportLike(r[i], parser)
    {
      assert r[i] == tail[i - idx - 1 - |ss|];
      assert body[idx + 1..][i - idx - 1 - |ss|] == body[i - |ss|];
    }
  }

  class ImportCursor {
    var body: seq<Stmt>
    var lastImportIndex: int

    predicate Valid()
      reads this
    {
      -1 <= lastImportIndex < |body|
    }

    constructor(body: seq<Stmt>, lastImportIndex: int)
      requires -1 <= lastImportIndex < |body|
      ensures this.body == body && this.lastImportIndex == lastImportIndex
      ensures Valid()
    {
      this.body := body;
      this.lastImportIndex := lastImportIndex;
    }

    /** `insertImport` */
    method InsertImport(decl: Stmt)
      requires Valid()
      modifies this
      ensures Valid()
      ensures body == InsertAfter(old(body), old(lastImportIndex), decl)
      ensures lastImportIndex == old(lastImportIndex) + 1
    {
      var b, idx := body, lastImportIndex;
      var nb := if idx >= 0 then b[..idx + 1] + [decl] + b[idx + 1..] else [decl] + b;
      assert nb == InsertAfter(b, idx, decl) by {
        if idx < 0 {
          assert b[..0] == [] && b[0..] == b;
        }
      }
      body := nb;
      lastImportIndex := idx + 1;
    }

    /** One `insertImport` per declaration, in order. */
    method InsertImports(decls: seq<Stmt>)
      requires Valid()
      modifies this
      ensures Valid()
      ensures body == InsertAll(old(body), old(lastImportIndex), decls)
      ensures lastImportIndex == old(lastImportIndex) + |decls|
    {
      var k := 0;
      while k < |decls|
        invariant 0 <= k <= |decls|
        invariant Valid()
        invariant lastImportIndex == old(lastImportIndex) + k
        invariant InsertAll(body, lastImportIndex, decls[k..]) == InsertAll(old(body), old(lastImportIndex), decls)
      {
        assert decls[k..][0] == decls[k] && decls[k..][1..] == decls[k + 1..];
        InsertImport(decls[k]);
        k := k + 1;
      }
      assert decls[k..] == [];
    }
  }
}
