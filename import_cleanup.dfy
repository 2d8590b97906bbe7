/**
 * The `import-cleanup` pass: top-level import declarations from the same
 * source are folded into the first one, with their specifiers normalised to
 * named ones and deduplicated by local name, the first occurrence winning.
 * Imports whose first specifier is a namespace specifier take no part.
 */
module ImportCleanup {
  import opened Ast

  // ---------------------------------------------------------------- normalize

  /** `import { imported as local }` for a named specifier, `{ default as local }` for any other. */
  function NormalizeSpec(sp: ImportSpec): ImportSpec {
    ImportSpec(NamedSpec, if sp.kind == NamedSpec then sp.imported else "default", sp.local)
  }

  /** `normalize`: every specifier becomes a named one, keeping its local name. */
  function Normalize(specs: seq<ImportSpec>): (r: seq<ImportSpec>)
    ensures |r| == |specs|
  {
    seq(|specs|, i requires 0 <= i < |specs| => NormalizeSpec(specs[i]))
  }

  /** `normalize` keeps the length and the local names, makes every specifier named, and maps a default one to `default`. */
  lemma NormalizeShape(specs: seq<ImportSpec>)
    ensures |Normalize(specs)| == |specs|
    ensures forall i :: 0 <= i < |specs| ==>
      Normalize(specs)[i].local == specs[i].local && Normalize(specs)[i].kind == NamedSpec &&
      (specs[i].kind == DefaultSpec ==> Normalize(specs)[i].imported == "default") &&
      (specs[i].kind == NamedSpec ==> Normalize(specs)[i].imported == specs[i].imported)
  {
  }

  predicate AllNamed(specs: seq<ImportSpec>) {
    forall i :: 0 <= i < |specs| ==> specs[i].kind == NamedSpec
  }

  /** Named specifiers are left as they are, so normalising twice is normalising once. */
  lemma NormalizeFixes(specs: seq<ImportSpec>)
    requires AllNamed(specs)
    ensures Normalize(specs) == specs
  {
  }

  lemma NormalizeIdempotent(specs: seq<ImportSpec>)
    ensures Normalize(Normalize(specs)) == Normalize(specs)
  {
    NormalizeFixes(Normalize(specs));
  }

  // ---------------------------------------------------------------- dedupe

  /** The local names bound by `specs`. */
  function LocalSet(specs: seq<ImportSpec>): set<string>
    decreases |specs|
  {
    if specs == [] then {} else LocalSet(specs[..|specs| - 1]) + {specs[|specs| - 1].local}
  }

  lemma {:induction false} LocalSetMembers(specs: seq<ImportSpec>, l: string)
    ensures l in LocalSet(specs) <==> exists i :: 0 <= i < |specs| && specs[i].local == l
    decreases |specs|
  {
    if specs != [] {
      var init := specs[..|specs| - 1];
      LocalSetMembers(init, l);
      if l in LocalSet(init) {
        var i :| 0 <= i < |init| && init[i].local == l;
        assert specs[i].local == l;
      }
      if exists i :: 0 <= i < |specs| && specs[i].local == l {
        var i :| 0 <= i < |specs| && specs[i].local == l;
        if i < |init| {
          assert init[i].local == l;
        }
      }
    }
  }

  lemma {:induction false} LocalSetAppend(a: seq<ImportSpec>, b: seq<ImportSpec>)
    ensures LocalSet(a + b) == LocalSet(a) + LocalSet(b)
    decreases |b|
  {
    if b == [] {
      assert a + b == a;
    } else {
      var b' := b[..|b| - 1];
      LocalSetAppend(a, b');
      assert (a + b)[..|a + b| - 1] == a + b';
    }
  }

  /** `dedupe`: keep a specifier only when no earlier one bound the same local name. */
  function Dedupe(specs: seq<ImportSpec>): (r: seq<ImportSpec>)
    ensures forall x :: x in r ==> x in specs
    decreases |specs|
  {
    if specs == [] then []
    else
      var init, last := specs[..|specs| - 1], specs[|specs| - 1];
      Dedupe(init) + (if last.local in LocalSet(init) then [] else [last])
  }

  /** The first specifier that binds `l`. */
  function FirstWith(specs: seq<ImportSpec>, l: string): ImportSpec
    requires l in LocalSet(specs)
    decreases |specs|
  {
    var init := specs[..|specs| - 1];
    if l in LocalSet(init) then FirstWith(init, l) else specs[|specs| - 1]
  }

  predicate DistinctLocals(specs: seq<ImportSpec>) {
    forall i, j :: 0 <= i < j < |specs| ==> specs[i].local != specs[j].local
  }

  /** `a` can be obtained from `b` by deleting elements. */
  predicate Subsequence<T(==)>(a: seq<T>, b: seq<T>)
    decreases |b|
  {
    a == [] ||
    (b != [] &&
     ((a[|a| - 1] == b[|b| - 1] && Subsequence(a[..|a| - 1], b[..|b| - 1])) || Subsequence(a, b[..|b| - 1])))
  }

  /** The output of `dedupe` is a subsequence of its input. */
  lemma {:induction false} DedupeSubsequence(specs: seq<ImportSpec>)
    ensures Subsequence(Dedupe(specs), specs)
    decreases |specs|
  {
    if specs != [] {
      var init, last := specs[..|specs| - 1], specs[|specs| - 1];
      DedupeSubsequence(init);
      var r := Dedupe(specs);
      if last.local !in LocalSet(init) {
        assert r == Dedupe(init) + [last];
        assert r[..|r| - 1] == Dedupe(init) && r[|r| - 1] == last;
      } else {
        assert r == Dedupe(init);
      }
    }
  }

  /** `dedupe` binds the same local names as its input. */
  lemma {:induction false} DedupeLocalSet(specs: seq<ImportSpec>)
    ensures LocalSet(Dedupe(specs)) == LocalSet(specs)
    decreases |specs|
  {
    if specs != [] {
      var init, last := specs[..|specs| - 1], specs[|specs| - 1];
      DedupeLocalSet(init);
      var r := Dedupe(specs);
      if last.local !in LocalSet(init) {
        assert r == Dedupe(init) + [last];
        assert r[..|r| - 1] == Dedupe(init) && r[|r| - 1] == last;
      } else {
        assert r == Dedupe(init);
      }
    }
  }

  /** `dedupe` binds each local name once. */
  lemma {:induction false} DedupeDistinctLocals(specs: seq<ImportSpec>)
    ensures DistinctLocals(Dedupe(specs))
    decreases |specs|
  {
    if specs != [] {
      var init, last := specs[..|specs| - 1], specs[|specs| - 1];
      DedupeDistinctLocals(init);
      var p := Dedupe(init);
      var r := Dedupe(specs);
      if last.local !in LocalSet(init) {
        assert r == p + [last];
        DedupeLocalSet(init);
        forall i, j | 0 <= i < j < |r|
          ensures r[i].local != r[j].local
        {
          if j == |r| - 1 {
            LocalSetMembers(p, r[i].local);
            assert p[i] == r[i];
          } else {
            assert p[i] == r[i] && p[j] == r[j];
          }
        }
      }
    }
  }

  /** The specifier `dedupe` keeps for a name is the first one that binds it: the first occurrence wins. */
  lemma {:induction false} DedupeFirstWins(specs: seq<ImportSpec>)
    ensures forall k :: 0 <= k < |Dedupe(specs)| ==>
      Dedupe(specs)[k].local in LocalSet(specs) && Dedupe(specs)[k] == FirstWith(specs, Dedupe(specs)[k].local)
    decreases |specs|
  {
    if specs != [] {
      var init, last := specs[..|specs| - 1], specs[|specs| - 1];
      DedupeFirstWins(init);
      var p := Dedupe(init);
      var r := Dedupe(specs);
      forall k | 0 <= k < |r|
        ensures r[k].local in LocalSet(specs) && r[k] == FirstWith(specs, r[k].local)
      {
        if k < |p| {
          assert r[k] == p[k];
          assert p[k].local in LocalSet(init) && p[k] == FirstWith(init, p[k].local);
          LocalSetAppend(init, [last]);
          assert init + [last] == specs;
        } else {
          assert last.local !in LocalSet(init) && r == p + [last];
          assert r[k] == last;
        }
      }
    }
  }

  /** On specifiers that already bind distinct names `dedupe` changes nothing. */
  lemma {:induction false} DedupeDistinct(specs: seq<ImportSpec>)
    requires DistinctLocals(specs)
    ensures Dedupe(specs) == specs
    decreases |specs|
  {
    if specs != [] {
      var init, last := specs[..|specs| - 1], specs[|specs| - 1];
      DedupeDistinct(init);
      LocalSetMembers(init, last.local);
    }
  }

  /** `dedupe` is idempotent. */
  lemma DedupeIdempotent(specs: seq<ImportSpec>)
    ensures Dedupe(Dedupe(specs)) == Dedupe(specs)
  {
    DedupeDistinctLocals(specs);
    DedupeDistinct(Dedupe(specs));
  }

  /** Deduplicating an already deduplicated prefix again, with more specifiers after it, is deduplicating the whole. */
  lemma {:induction false} DedupeAppend(a: seq<ImportSpec>, b: seq<ImportSpec>)
    ensures Dedupe(Dedupe(a) + b) == Dedupe(a + b)
    decreases |b|
  {
    if b == [] {
      assert Dedupe(a) + b == Dedupe(a) && a + b == a;
      DedupeIdempotent(a);
    } else {
      var b', x := b[..|b| - 1], b[|b| - 1];
      DedupeAppend(a, b');
      assert (Dedupe(a) + b)[..|Dedupe(a) + b| - 1] == Dedupe(a) + b';
      assert (a + b)[..|a + b| - 1] == a + b';
      DedupeLocalSet(a);
      LocalSetAppend(Dedupe(a), b');
      LocalSetAppend(a, b');
    }
  }

  /** `dedupe`, with the `added` dictionary as a set of local names. */
  method DedupeSpecifiers(specifiers: seq<ImportSpec>) returns (output: seq<ImportSpec>)
    ensures output == Dedupe(specifiers)
  {
    var added: set<string> := {};
    output := [];
    var i := 0;
    while i < |specifiers|
      invariant 0 <= i <= |specifiers|
      invariant output == Dedupe(specifiers[..i])
      invariant added == LocalSet(specifiers[..i])
    {
      var localName := specifiers[i].local;
      assert specifiers[..i + 1][..i] == specifiers[..i];
      if localName !in added {
        output := output + [specifiers[i]];
      }
      added := added + {localName};
      i := i + 1;
    }
    assert specifiers[..i] == specifiers;
  }

  // ---------------------------------------------------------------- the grouping loop

  /** The filter: a top-level import whose first specifier, if any, is not `* as n`. */
  predicate Considered(s: Stmt) {
    s.Import? && (s.specs == [] || s.specs[0].kind != NamespaceSpec)
  }

  /** The declaration that replaces the first import of a source when another one follows. */
  function Merge(existing: Stmt, p: Stmt): (r: Stmt)
    requires existing.Import? && p.Import?
    ensures Considered(r) && r.source == p.source && r.comments == []
  {
    var specs := Dedupe(Normalize(existing.specs) + Normalize(p.specs));
    assert specs != [] ==> specs[0] in Normalize(existing.specs) + Normalize(p.specs);
    Import(specs, p.source, [])
  }

  /** The body built so far and `sourceLookup`, as the position in it of the first import of each source. */
  datatype State = State(out: seq<Stmt>, lookup: map<string, nat>)

  predicate WellFormed(st: State) {
    (forall src :: src in st.lookup ==>
      st.lookup[src] < |st.out| && Considered(st.out[st.lookup[src]]) && st.out[st.lookup[src]].source == src) &&
    (forall i :: 0 <= i < |st.out| && Considered(st.out[i]) ==>
      st.out[i].source in st.lookup && st.lookup[st.out[i].source] == i)
  }

  /** One iteration: keep the statement, record the first import of a source, or fold a later one into it. */
  function Step(st: State, s: Stmt): State
    requires WellFormed(st)
  {
    if !Considered(s) then State(st.out + [s], st.lookup)
    else if s.source in st.lookup then
      var k := st.lookup[s.source];
      State(st.out[k := Merge(st.out[k], s)], st.lookup)
    else State(st.out + [s], st.lookup[s.source := |st.out|])
  }

  lemma StepWellFormed(st: State, s: Stmt)
    requires WellFormed(st)
    ensures WellFormed(Step(st, s))
  {
    var st' := Step(st, s);
    if Considered(s) && s.source in st.lookup {
      var k := st.lookup[s.source];
      forall i | 0 <= i < |st'.out| && Considered(st'.out[i])
        ensures st'.out[i].source in st'.lookup && st'.lookup[st'.out[i].source] == i
      {
        if i != k {
          assert st'.out[i] == st.out[i];
        }
      }
    }
  }

  /** The state after the loop has visited `body`. */
  function Fold(body: seq<Stmt>): (st: State)
    ensures WellFormed(st)
    decreases |body|
  {
    if body == [] then State([], map[])
    else
      var prev := Fold(body[..|body| - 1]);
      StepWellFormed(prev, body[|body| - 1]);
      Step(prev, body[|body| - 1])
  }

  /** The program body after the pass. */
  function Cleanup(body: seq<Stmt>): seq<Stmt> {
    Fold(body).out
  }

  /** `run`, on the program body: one pass over the top-level statements in document order. */
  method CleanupBody(body: seq<Stmt>) returns (out: seq<Stmt>)
    ensures out == Cleanup(body)
  {
    var sourceLookup: map<string, nat> := map[];
    out := [];
    var i := 0;
    while i < |body|
      invariant 0 <= i <= |body|
      invariant State(out, sourceLookup) == Fold(body[..i])
    {
      var p := body[i];
      assert body[..i + 1][..i] == body[..i];
      if Considered(p) {
        var source := p.source;
        if source !in sourceLookup {
          sourceLookup := sourceLookup[source := |out|];
          out := out + [p];
        } else {
          var k := sourceLookup[source];
          var existingImport := out[k];
          var specifiers := DedupeSpecifiers(Normalize(existingImport.specs) + Normalize(p.specs));
          out := out[k := Import(specifiers, p.source, [])];
        }
      } else {
        out := out + [p];
      }
      i := i + 1;
    }
    assert body[..i] == body;
  }

  method Run(p: Program) returns (r: Program)
    ensures r == Program(Cleanup(p.body), p.comments)
  {
    var body := CleanupBody(p.body);
    r := Program(body, p.comments);
  }

  // ---------------------------------------------------------------- what the pass guarantees

  /** After the pass no two considered imports share a source. */
  lemma SourcesUnique(body: seq<Stmt>)
    ensures var out := Cleanup(body);
      forall i, j :: 0 <= i < j < |out| && Considered(out[i]) && Considered(out[j]) ==> out[i].source != out[j].source
  {
  }

  /** The statements the pass does not consider, in order. */
  function Others(ss: seq<Stmt>): seq<Stmt>
    decreases |ss|
  {
    if ss == [] then []
    else Others(ss[..|ss| - 1]) + (if Considered(ss[|ss| - 1]) then [] else [ss[|ss| - 1]])
  }

  lemma {:induction false} OthersUpdate(ss: seq<Stmt>, k: nat, v: Stmt)
    requires k < |ss| && Considered(ss[k]) && Considered(v)
    ensures Others(ss[k := v]) == Others(ss)
    decreases |ss|
  {
    var n := |ss|;
    if k < n - 1 {
      assert ss[k := v][..n - 1] == ss[..n - 1][k := v];
      OthersUpdate(ss[..n - 1], k, v);
    } else {
      assert ss[k := v][..n - 1] == ss[..n - 1];
    }
  }

  /**
   * Every other statement, including imports below the top level or opening with
   * `* as n`, is kept: neither removed, merged nor reordered.
   */
  lemma {:induction false} OthersKept(body: seq<Stmt>)
    ensures Others(Cleanup(body)) == Others(body)
    decreases |body|
  {
    if body != [] {
      var init, s := body[..|body| - 1], body[|body| - 1];
      OthersKept(init);
      var prev := Fold(init);
      if Considered(s) && s.source in prev.lookup {
        OthersUpdate(prev.out, prev.lookup[s.source], Merge(prev.out[prev.lookup[s.source]], s));
      } else {
        var out := prev.out + [s];
        assert out[..|out| - 1] == prev.out;
      }
    }
  }

  /** The considered imports of `ss` from `src`, in order. */
  function Group(ss: seq<Stmt>, src: string): (g: seq<Stmt>)
    ensures forall i :: 0 <= i < |g| ==> Considered(g[i]) && g[i].source == src
    decreases |ss|
  {
    if ss == [] then []
    else
      var last := ss[|ss| - 1];
      Group(ss[..|ss| - 1], src) + (if Considered(last) && last.source == src then [last] else [])
  }

  /** All specifiers of the imports, normalised, in order. */
  function AllNormalized(g: seq<Stmt>): seq<ImportSpec>
    requires forall i :: 0 <= i < |g| ==> g[i].Import?
    decreases |g|
  {
    if g == [] then [] else AllNormalized(g[..|g| - 1]) + Normalize(g[|g| - 1].specs)
  }

  /** What the first import of `src` finally is: itself when alone, else the merge of the whole group. */
  function Merged(g: seq<Stmt>, src: string): Stmt
    requires g != [] && forall i :: 0 <= i < |g| ==> g[i].Import?
  {
    if |g| == 1 then g[0] else Import(Dedupe(AllNormalized(g)), src, [])
  }

  lemma DedupeOfNamed(specs: seq<ImportSpec>)
    requires AllNamed(specs)
    ensures AllNamed(Dedupe(specs))
  {
    var r := Dedupe(specs);
    forall i | 0 <= i < |r|
      ensures r[i].kind == NamedSpec
    {
      assert r[i] in specs;
    }
  }

  /** What the pass leaves for `src` after visiting `body`. */
  predicate GroupInvariant(body: seq<Stmt>, src: string) {
    var st := Fold(body);
    (src in st.lookup <==> Group(body, src) != []) &&
    (src in st.lookup ==> st.out[st.lookup[src]] == Merged(Group(body, src), src))
  }

  /**
   * Each source that occurs among the considered imports keeps one import, at
   * the position of its first one; with later imports of the same source it
   * holds their specifiers after its own, all normalised, each local name once
   * with its first binding, and no comments.
   */
  lemma {:induction false} GroupMerged(body: seq<Stmt>, src: string)
    ensures GroupInvariant(body, src)
    decreases |body|
  {
    if body != [] {
      var init, s := body[..|body| - 1], body[|body| - 1];
      GroupMerged(init, src);
      assert init + [s] == body;
      GroupStep(init, s, src);
    }
  }

  lemma GroupStep(init: seq<Stmt>, s: Stmt, src: string)
    requires GroupInvariant(init, src)
    ensures GroupInvariant(init + [s], src)
  {
    var body := init + [s];
    assert body[..|body| - 1] == init && body[|body| - 1] == s;
    var prev := Fold(init);
    var g := Group(init, src);
    if Considered(s) && s.source == src {
      assert Group(body, src) == g + [s];
      if src in prev.lookup {
        MergeStep(g, s, src);
      }
    } else {
      assert Group(body, src) == g;
    }
  }

  lemma MergeStep(g: seq<Stmt>, s: Stmt, src: string)
    requires g != [] && forall i :: 0 <= i < |g| ==> g[i].Import?
    requires s.Import? && s.source == src
    ensures Merge(Merged(g, src), s) == Merged(g + [s], src)
  {
    assert AllNormalized(g + [s]) == AllNormalized(g) + Normalize(s.specs) by {
      assert (g + [s])[..|g + [s]| - 1] == g;
    }
    if |g| == 1 {
      assert AllNormalized(g) == Normalize(g[0].specs) by {
        assert g[..0] == [];
        assert AllNormalized(g) == AllNormalized(g[..0]) + Normalize(g[0].specs);
      }
      assert Merged(g, src) == g[0];
      assert Merged(g + [s], src) == Import(Dedupe(Normalize(g[0].specs) + Normalize(s.specs)), src, []);
    } else {
      var d := Dedupe(AllNormalized(g));
      AllNormalizedNamed(g);
      DedupeOfNamed(AllNormalized(g));
      NormalizeFixes(d);
      DedupeAppend(AllNormalized(g), Normalize(s.specs));
    }
  }

  lemma {:induction false} AllNormalizedNamed(g: seq<Stmt>)
    requires forall i :: 0 <= i < |g| ==> g[i].Import?
    ensures AllNamed(AllNormalized(g))
    decreases |g|
  {
    if g != [] {
      AllNormalizedNamed(g[..|g| - 1]);
    }
  }
}
