/**
 * The helpers shared by the passes (`src/utils.ts`): option merging, building an
 * import declaration from the parts of a `require`, recognising `require`
 * declarators, the last-import scan behind the insertion cursor, ancestor walks,
 * and small string helpers.
 */
module Utils {
  import opened Ast
  import opened JsObject
  import opened Strings

  // ================================================================ configuration

  const ValidRecastArgs: seq<string> := [
    "esprima", "inputSourceMap", "lineTerminator", "quote", "range", "reuseWhitespace",
    "sourceFileName", "sourceMapName", "sourceRoot", "tabWidth", "tolerant",
    "trailingComma", "useTabs", "wrapColumn"]

  /** A key the printer understands. */
  predicate IsRecastArg(item: string) {
    item in ValidRecastArgs
  }

  function DefaultTransformConfig(): seq<Entry> {
    []
  }

  function DefaultRecastConfig(): seq<Entry> {
    [Entry("quote", JStr("single")), Entry("trailingComma", JBool(true)), Entry("tabWidth", JNum(2))]
  }

  /** The key filter; without one every key passes. */
  function FilterOrAll(keyFilter: Option<string -> bool>): string -> bool {
    if keyFilter.None? then (k: string) => true else keyFilter.value
  }

  /** `out` after `out[k] = src[k]` for every key `k` of `src` that passes `keep`, in order. */
  function CopyKeys(out: seq<Entry>, src: seq<Entry>, keep: string -> bool): seq<Entry>
    decreases |src|
  {
    if src == [] then out
    else
      var prev := CopyKeys(out, src[..|src| - 1], keep);
      var last := src[|src| - 1];
      if keep(last.key) then Put(prev, last.key, last.value) else prev
  }

  /** What `getConfig` returns. */
  function Config(options: Json, defaultConfig: seq<Entry>, keyFilter: Option<string -> bool>): seq<Entry> {
    var keep := FilterOrAll(keyFilter);
    var out := CopyKeys([], defaultConfig, keep);
    if options.JObj? then CopyKeys(out, options.entries, keep) else out
  }

  /**
   * The two loops of `getConfig`: the filtered defaults, then the filtered
   * options on top, when the options are a plain object (not null, not an array).
   */
  method GetConfig(options: Json, defaultConfig: seq<Entry>, keyFilter: Option<string -> bool>) returns (out: seq<Entry>)
    ensures out == Config(options, defaultConfig, keyFilter)
  {
    var keep := FilterOrAll(keyFilter);
    out := [];
    var keys1 := Keys(defaultConfig);
    for i := 0 to |keys1|
      invariant out == CopyKeys([], defaultConfig[..i], keep)
    {
      assert defaultConfig[..i + 1][..i] == defaultConfig[..i];
      if keep(keys1[i]) {
        out := Put(out, keys1[i], defaultConfig[i].value);
      }
    }
    assert defaultConfig[..|keys1|] == defaultConfig;
    if options.JObj? {
      var base := out;
      var keys2 := Keys(options.entries);
      for j := 0 to |keys2|
        invariant out == CopyKeys(base, options.entries[..j], keep)
      {
        assert options.entries[..j + 1][..j] == options.entries[..j];
        if keep(keys2[j]) {
          out := Put(out, keys2[j], options.entries[j].value);
        }
      }
      assert options.entries[..|keys2|] == options.entries;
    }
  }

  /** `getRecastConfig`: only printer keys, over the printer defaults. */
  function RecastConfig(options: Json): seq<Entry> {
    Config(options, DefaultRecastConfig(), Some(IsRecastArg))
  }

  /** `getTransformConfig`: only non-printer keys, over no defaults. */
  function TransformConfig(options: Json): seq<Entry> {
    Config(options, DefaultTransformConfig(), Some((k: string) => !IsRecastArg(k)))
  }

  lemma {:induction false} CopyKeysKeys(out: seq<Entry>, src: seq<Entry>, keep: string -> bool)
    ensures var r := CopyKeys(out, src, keep);
      |out| <= |r| && Keys(r)[..|out|] == Keys(out) &&
      forall k :: k in Keys(r) <==> k in Keys(out) || (k in Keys(src) && keep(k))
    decreases |src|
  {
    if src != [] {
      var init := src[..|src| - 1];
      CopyKeysKeys(out, init, keep);
      assert Keys(src) == Keys(init) + [src[|src| - 1].key];
    }
  }

  lemma {:induction false} GetAppend(es: seq<Entry>, e: Entry, k: string)
    ensures Get(es + [e], k) == if k in Keys(es) then Get(es, k) else if e.key == k then Some(e.value) else None
  {
    if es != [] {
      assert (es + [e])[1..] == es[1..] + [e];
      assert Keys(es) == [es[0].key] + Keys(es[1..]);
      GetAppend(es[1..], e, k);
    }
  }

  lemma {:induction false} CopyKeysGet(out: seq<Entry>, src: seq<Entry>, keep: string -> bool, k: string)
    requires DistinctKeys(src)
    ensures Get(CopyKeys(out, src, keep), k) == if k in Keys(src) && keep(k) then Get(src, k) else Get(out, k)
    decreases |src|
  {
    if src != [] {
      var init, last := src[..|src| - 1], src[|src| - 1];
      assert src == init + [last];
      CopyKeysGet(out, init, keep, k);
      GetAppend(init, last, k);
      if keep(last.key) {
        PutGet(CopyKeys(out, init, keep), last.key, last.value, k);
      }
      if k == last.key {
        LastKeyIsNew(src, (e: Entry) => true);
        FilterAll(init);
      }
      assert Keys(src) == Keys(init) + [last.key];
    }
  }

  /**
   * The keys of the merged configuration are the passing keys of the defaults and
   * of the options, and the defaults' keys come first, in their order.
   */
  lemma {:induction false} ConfigKeys(options: Json, defaultConfig: seq<Entry>, keyFilter: Option<string -> bool>)
    ensures var keep, r := FilterOrAll(keyFilter), Config(options, defaultConfig, keyFilter);
      forall k :: k in Keys(r) <==> keep(k) && (k in Keys(defaultConfig) || (options.JObj? && k in Keys(options.entries)))
    ensures var base := CopyKeys([], defaultConfig, FilterOrAll(keyFilter));
      var r := Config(options, defaultConfig, keyFilter);
      |base| <= |r| && Keys(r)[..|base|] == Keys(base)
  {
    var keep := FilterOrAll(keyFilter);
    var base := CopyKeys([], defaultConfig, keep);
    CopyKeysKeys([], defaultConfig, keep);
    if options.JObj? {
      CopyKeysKeys(base, options.entries, keep);
    } else {
      assert Keys(base)[..|base|] == Keys(base);
    }
  }

  /** An option's value overrides the default's; a key that does not pass is absent. */
  lemma {:induction false} ConfigValues(options: Json, defaultConfig: seq<Entry>, keyFilter: Option<string -> bool>, k: string)
    requires DistinctKeys(defaultConfig)
    requires options.JObj? ==> DistinctKeys(options.entries)
    ensures var keep := FilterOrAll(keyFilter);
      Get(Config(options, defaultConfig, keyFilter), k) ==
        if options.JObj? && k in Keys(options.entries) && keep(k) then Get(options.entries, k)
        else if k in Keys(defaultConfig) && keep(k) then Get(defaultConfig, k)
        else None
  {
    var keep := FilterOrAll(keyFilter);
    var base := CopyKeys([], defaultConfig, keep);
    CopyKeysGet([], defaultConfig, keep, k);
    if options.JObj? {
      CopyKeysGet(base, options.entries, keep, k);
    }
  }

  lemma {:induction false} CopyKeysIsFilter(src: seq<Entry>, keep: string -> bool)
    requires DistinctKeys(src)
    ensures CopyKeys([], src, keep) == Filter(src, (e: Entry) => keep(e.key))
    decreases |src|
  {
    var p := (e: Entry) => keep(e.key);
    if src != [] {
      var init, last := src[..|src| - 1], src[|src| - 1];
      assert src == init + [last];
      CopyKeysIsFilter(init, keep);
      FilterAppend(init, [last], p);
      assert Filter([last], p) == if p(last) then [last] else [] by {
        assert [last][1..] == [];
      }
      if keep(last.key) {
        LastKeyIsNew(src, p);
        PutAppends(Filter(init, p), last.key, last.value);
      }
    }
  }

  lemma {:induction false} FilterAll(es: seq<Entry>)
    ensures Filter(es, (e: Entry) => true) == es
  {
    if es != [] {
      FilterAll(es[1..]);
      assert es == [es[0]] + es[1..];
    }
  }

  /** With distinct keys, the last entry's key is not among the entries kept before it. */
  lemma LastKeyIsNew(src: seq<Entry>, p: Entry -> bool)
    requires DistinctKeys(src) && src != []
    ensures src[|src| - 1].key !in Keys(Filter(src[..|src| - 1], p))
  {
    var init, last := src[..|src| - 1], src[|src| - 1];
    var prev := Filter(init, p);
    forall i | 0 <= i < |prev| ensures prev[i].key != last.key {
      assert prev[i] in init;
      var j :| 0 <= j < |init| && init[j] == prev[i];
      assert src[j] == init[j];
    }
  }

  lemma {:induction false} PutAppends(es: seq<Entry>, k: string, v: Json)
    requires k !in Keys(es)
    ensures Put(es, k, v) == es + [Entry(k, v)]
  {
    if es != [] {
      assert Keys(es)[0] == es[0].key;
      assert k !in Keys(es[1..]) by {
        forall i | 0 <= i < |es| - 1 ensures Keys(es[1..])[i] != k {
          assert Keys(es[1..])[i] == es[i + 1].key == Keys(es)[i + 1];
        }
      }
      PutAppends(es[1..], k, v);
      assert es == [es[0]] + es[1..];
    }
  }

  /** Options that are not a plain object are ignored: the result is the filtered defaults. */
  lemma {:induction false} ConfigIgnoresNonObjectOptions(options: Json, defaultConfig: seq<Entry>, keyFilter: Option<string -> bool>)
    requires !options.JObj? && DistinctKeys(defaultConfig)
    ensures Config(options, defaultConfig, keyFilter) == Filter(defaultConfig, (e: Entry) => FilterOrAll(keyFilter)(e.key))
  {
    CopyKeysIsFilter(defaultConfig, FilterOrAll(keyFilter));
  }

  /** The printer configuration and the transform configuration never share a key. */
  lemma RecastAndTransformKeysDisjoint(options: Json)
    ensures forall k :: k in Keys(RecastConfig(options)) ==> IsRecastArg(k)
    ensures forall k :: k in Keys(TransformConfig(options)) ==> !IsRecastArg(k)
    ensures forall k :: !(k in Keys(RecastConfig(options)) && k in Keys(TransformConfig(options)))
  {
    RecastKeys(options);
    TransformKeys(options);
  }

  lemma DefaultRecastKeys()
    ensures forall k :: k in Keys(DefaultRecastConfig()) ==> IsRecastArg(k)
  {
    assert Keys(DefaultRecastConfig()) == ["quote", "trailingComma", "tabWidth"];
    assert ValidRecastArgs[3] == "quote" && ValidRecastArgs[11] == "trailingComma" && ValidRecastArgs[9] == "tabWidth";
  }

  lemma {:induction false} RecastKeys(options: Json)
    ensures forall k :: k in Keys(RecastConfig(options)) ==> IsRecastArg(k)
  {
    var keepR := FilterOrAll(Some(IsRecastArg));
    var base := CopyKeys([], DefaultRecastConfig(), keepR);
    CopyKeysKeys([], DefaultRecastConfig(), keepR);
    DefaultRecastKeys();
    if options.JObj? {
      CopyKeysKeys(base, options.entries, keepR);
    }
  }

  lemma {:induction false} TransformKeys(options: Json)
    ensures forall k :: k in Keys(TransformConfig(options)) ==> !IsRecastArg(k)
  {
    var keepT := FilterOrAll(Some((k: string) => !IsRecastArg(k)));
    CopyKeysKeys([], DefaultTransformConfig(), keepT);
    if options.JObj? {
      CopyKeysKeys(CopyKeys([], DefaultTransformConfig(), keepT), options.entries, keepT);
    }
  }

  /** Without options the printer configuration is the default one. */
  lemma RecastConfigWithoutOptions(options: Json)
    requires !options.JObj?
    ensures RecastConfig(options) == [Entry("quote", JStr("single")), Entry("trailingComma", JBool(true)), Entry("tabWidth", JNum(2))]
  {
    var d := DefaultRecastConfig();
    var keep := FilterOrAll(Some(IsRecastArg));
    var e0, e1, e2 := d[0], d[1], d[2];
    assert keep(e0.key) && keep(e1.key) && keep(e2.key) by {
      assert ValidRecastArgs[3] == "quote" && ValidRecastArgs[11] == "trailingComma" && ValidRecastArgs[9] == "tabWidth";
    }
    assert d[..1] == [e0] && d[..2] == [e0, e1] && d[..3] == d;
    assert [e0, e1][..1] == [e0] && d[..2] == [e0, e1] && d[..1][..0] == [];
    assert CopyKeys([], [e0], keep) == [e0];
    PutAppends([e0], e1.key, e1.value);
    assert CopyKeys([], [e0, e1], keep) == [e0, e1];
    PutAppends([e0, e1], e2.key, e2.value);
    assert d[..2] == [e0, e1];
  }

  // ================================================================ import declarations

  /**
   * The variable part of a `require`: nothing, one name (with the property read
   * from the module, empty when none), or the keys and value names of a
   * destructuring pattern.  An empty name stands for JavaScript's missing one.
   */
  datatype Binding =
    | NoBinding
    | Name(name: string, propName: string)
    | Names(names: seq<string>, propNames: seq<string>)

  /** `if (variableName)`: an empty name is falsy, an array never is. */
  predicate Truthy(b: Binding) {
    match b
    case NoBinding => false
    case Name(n, _) => n != ""
    case Names(_, _) => true
  }

  /** The local name of the `i`-th destructured binding. */
  function LocalAt(names: seq<string>, propNames: seq<string>, i: nat): string
    requires i < |names|
  {
    if i < |propNames| && propNames[i] != "" then propNames[i] else names[i]
  }

  /**
   * `createImportStatement`: `import 'm'` without a variable, one specifier per
   * destructured name, and otherwise a default specifier or, for a property other
   * than `default`, a named one.
   */
  function CreateImportStatement(moduleName: string, variableName: Binding, comments: seq<Comment>): (r: Stmt)
    ensures r.Import? && r.source == moduleName && r.comments == comments
    ensures !Truthy(variableName) ==> r.specs == []
    ensures variableName.Names? ==>
      |r.specs| == |variableName.names| &&
      forall i :: 0 <= i < |r.specs| ==>
        r.specs[i] == ImportSpec(NamedSpec, variableName.names[i], LocalAt(variableName.names, variableName.propNames, i))
    ensures variableName.Name? && Truthy(variableName) ==>
      |r.specs| == 1 && r.specs[0].local == variableName.name &&
      (if variableName.propName == "" || variableName.propName == "default"
       then r.specs[0].kind == DefaultSpec
       else r.specs[0] == ImportSpec(NamedSpec, variableName.propName, variableName.name))
  {
    if !Truthy(variableName) then Import([], moduleName, comments)
    else match variableName
      case Names(names, props) =>
        Import(seq(|names|, i requires 0 <= i < |names| => ImportSpec(NamedSpec, names[i], LocalAt(names, props, i))), moduleName, comments)
      case Name(n, p) =>
        if p != "" && p != "default" then Import([ImportSpec(NamedSpec, p, n)], moduleName, comments)
        else Import([ImportSpec(DefaultSpec, "", n)], moduleName, comments)
  }

  datatype RequireParts = RequireParts(moduleName: string, variableName: Binding)

  /** The `.value` of the first argument of a call. */
  function FirstArgValue(e: Expr): string {
    if e.Call? && |e.args| > 0 then LiteralValue(e.args[0]) else ""
  }

  /**
   * `getPropsFromRequire` on `require('m');`, `var v = require('m').p;`,
   * `var v = require('m');` and `var { k: v, ... } = require('m');`.
   */
  function GetPropsFromRequire(s: Stmt): RequireParts {
    if s.ExprStmt? then RequireParts(FirstArgValue(s.expr), NoBinding)
    else if s.VarDecl? && |s.decls| > 0 && s.decls[0].init.Some? && s.decls[0].init.value.Member? then
      var d := s.decls[0];
      RequireParts(FirstArgValue(d.init.value.obj), Name(NameOf(d.id), NameOf(d.init.value.prop)))
    else if s.VarDecl? && |s.decls| == 1 then
      var d := s.decls[0];
      var m := if d.init.Some? then FirstArgValue(d.init.value) else "";
      match d.id
      case Ident(n) => RequireParts(m, Name(n, ""))
      case ObjPattern(ps) =>
        RequireParts(m, Names(seq(|ps|, i requires 0 <= i < |ps| => NameOf(ps[i].key)),
                              seq(|ps|, i requires 0 <= i < |ps| => NameOf(ps[i].value))))
      case _ => RequireParts(m, NoBinding)
    else RequireParts("", NoBinding)
  }

  /** The names a declarator's pattern binds: an identifier, or the identifier values of an object pattern. */
  function BoundNames(id: Expr): seq<string> {
    match id
    case Ident(n) => [n]
    case ObjPattern(ps) => seq(|ps|, i requires 0 <= i < |ps| => NameOf(ps[i].value))
    case _ => []
  }

  function LocalNames(specs: seq<ImportSpec>): (r: seq<string>)
    ensures |r| == |specs|
  {
    seq(|specs|, i requires 0 <= i < |specs| => specs[i].local)
  }

  /** An identifier, or an object pattern whose keys and values are identifiers; no name is empty. */
  predicate PlainPattern(id: Expr) {
    (id.Ident? && id.name != "") ||
    (id.ObjPattern? && forall i :: 0 <= i < |id.props| ==>
       id.props[i].key.Ident? && id.props[i].value.Ident? && id.props[i].value.name != "")
  }

  /**
   * Converting `var <pattern> = require('m')` keeps its meaning: the import's
   * source is `m` and it binds exactly the names the declarator bound, in order,
   * each to the export of the same name as the pattern's key.
   */
  lemma RequireToImportKeepsBindings(d: Declarator, k: VarKind, cs: seq<Comment>)
    requires d.init.Some? && d.init.value.Call? && !d.init.value.callee.Member?
    requires PlainPattern(d.id)
    ensures var parts := GetPropsFromRequire(VarDecl(k, [d], cs));
      var imp := CreateImportStatement(parts.moduleName, parts.variableName, cs);
      imp.source == FirstArgValue(d.init.value) &&
      LocalNames(imp.specs) == BoundNames(d.id) &&
      (d.id.ObjPattern? ==> forall i :: 0 <= i < |imp.specs| ==> imp.specs[i].imported == d.id.props[i].key.name) &&
      (d.id.Ident? ==> imp.specs == [ImportSpec(DefaultSpec, "", d.id.name)])
  {
    var parts := GetPropsFromRequire(VarDecl(k, [d], cs));
    var imp := CreateImportStatement(parts.moduleName, parts.variableName, cs);
    if d.id.ObjPattern? {
      var ps := d.id.props;
      assert parts.variableName == Names(seq(|ps|, i requires 0 <= i < |ps| => NameOf(ps[i].key)),
                                         seq(|ps|, i requires 0 <= i < |ps| => NameOf(ps[i].value)));
      assert LocalNames(imp.specs) == BoundNames(d.id);
    }
  }

  /** `var v = require('m').p` imports `p` as `v`, and `.default` as the default export. */
  lemma MemberRequireImportsProperty(v: string, m: Expr, p: string, k: VarKind, cs: seq<Comment>)
    requires v != "" && p != ""
    ensures var parts := GetPropsFromRequire(VarDecl(k, [Declarator(Ident(v), Some(Member(m, Ident(p), false)), [])], cs));
      var imp := CreateImportStatement(parts.moduleName, parts.variableName, cs);
      imp.source == FirstArgValue(m) &&
      imp.specs == [if p == "default" then ImportSpec(DefaultSpec, "", v) else ImportSpec(NamedSpec, p, v)]
  {
  }

  // ================================================================ require recognisers

  /**
   * Which parser produced the tree.  The recognisers ask for a node of type
   * `Literal`, which only the `babel` parser (with its ESTree node shapes)
   * produces; the `tsx` parser calls string literals `StringLiteral`.
   */
  datatype Parser = Babel | Tsx

  predicate IsLiteralNode(e: Expr, parser: Parser) {
    parser == Babel && IsLiteral(e)
  }

  /** `require(<literal>, ...)` */
  predicate IsRequireCall(e: Expr, parser: Parser) {
    e.Call? && IsIdent(e.callee, "require") && |e.args| > 0 && IsLiteralNode(e.args[0], parser)
  }

  /** `var ... = require('y')` */
  predicate IsDefaultImportInit(init: Expr, parser: Parser) {
    IsRequireCall(init, parser)
  }

  /** `var ... = require('y').x` */
  predicate IsNamedImportInit(init: Expr, parser: Parser) {
    init.Member? && IsRequireCall(init.obj, parser)
  }

  /** `var x = require('y')( ... )` */
  predicate IsCalledImportInit(init: Expr, parser: Parser) {
    init.Call? && IsRequireCall(init.callee, parser)
  }

  predicate IsRequireDeclarator(d: Declarator, parser: Parser) {
    d.init.Some? &&
    (IsDefaultImportInit(d.init.value, parser) || IsNamedImportInit(d.init.value, parser) || IsCalledImportInit(d.init.value, parser))
  }

  /**
   * A declarator matches at most one of the three patterns, so the three found
   * lists are disjoint and sorting their union by position is document order.
   */
  lemma RequireFormsExclusive(init: Expr, parser: Parser)
    ensures !(IsDefaultImportInit(init, parser) && IsNamedImportInit(init, parser))
    ensures !(IsDefaultImportInit(init, parser) && IsCalledImportInit(init, parser))
    ensures !(IsNamedImportInit(init, parser) && IsCalledImportInit(init, parser))
  {
  }

  /**
   * A top-level statement that counts as an import: an import declaration, or a
   * declaration with a `require` declarator.  A declarator found inside the
   * declaration's initialiser sits in a function body, that is under a block,
   * and is excluded by the source; so only the declaration's own declarators count.
   */
  predicate IsImportLike(s: Stmt, parser: Parser) {
    s.Import? || (s.VarDecl? && exists i :: 0 <= i < |s.decls| && IsRequireDeclarator(s.decls[i], parser))
  }

  /** `findLastImportIndex`: the index of the last import-like top-level statement, or -1. */
  function FindLastImportIndex(body: seq<Stmt>, parser: Parser): (r: int)
    ensures -1 <= r < |body|
    ensures r == -1 <==> forall i :: 0 <= i < |body| ==> !IsImportLike(body[i], parser)
    ensures r >= 0 ==> IsImportLike(body[r], parser) && forall i :: r < i < |body| ==> !IsImportLike(body[i], parser)
  {
    LastImportBefore(body, |body|, parser)
  }

  function LastImportBefore(body: seq<Stmt>, n: nat, parser: Parser): (r: int)
    requires n <= |body|
    ensures -1 <= r < n
    ensures r == -1 <==> forall i :: 0 <= i < n ==> !IsImportLike(body[i], parser)
    ensures r >= 0 ==> IsImportLike(body[r], parser) && forall i :: r < i < n ==> !IsImportLike(body[i], parser)
  {
    if n == 0 then -1
    else if IsImportLike(body[n - 1], parser) then n - 1
    else LastImportBefore(body, n - 1, parser)
  }

  /** Under the `tsx` parser only import declarations count. */
  lemma TsxCountsOnlyImportDeclarations(s: Stmt)
    ensures IsImportLike(s, Tsx) <==> s.Import?
  {
  }

  // ================================================================ ancestor walks

  /**
   * One ancestor of a node: its type and, for calls, whether the callee is a
   * member expression (`callee.property` is set).  A walk's path lists the
   * ancestors nearest first.
   */
  datatype Ancestor = Ancestor(ty: string, calleeIsMember: bool)

  /** The nearest ancestor of the given type. */
  function NearestOfType(path: seq<Ancestor>, ty: string): (r: Option<nat>)
    ensures r.Some? ==> r.value < |path| && path[r.value].ty == ty && forall j :: 0 <= j < r.value ==> path[j].ty != ty
    ensures r.None? <==> forall j :: 0 <= j < |path| ==> path[j].ty != ty
  {
    if path == [] then None
    else if path[0].ty == ty then Some(0)
    else match NearestOfType(path[1..], ty)
      case None => None
      case Some(k) => Some(k + 1)
  }

  /** `findParentOfType`: climbs the parent chain and stops at the first match (`None` plays `false`). */
  method FindParentOfType(path: seq<Ancestor>, ty: string) returns (r: Option<nat>)
    ensures r == NearestOfType(path, ty)
  {
    var i := 0;
    while i < |path|
      invariant 0 <= i <= |path|
      invariant forall j :: 0 <= j < i ==> path[j].ty != ty
    {
      if path[i].ty == ty {
        return Some(i);
      }
      i := i + 1;
    }
    return None;
  }

  /** `hasParentOfType` */
  predicate HasParentOfType(path: seq<Ancestor>, ty: string) {
    NearestOfType(path, ty).Some?
  }

  lemma HasParentOfTypeIff(path: seq<Ancestor>, ty: string)
    ensures HasParentOfType(path, ty) <==> exists j :: 0 <= j < |path| && path[j].ty == ty
  {
  }

  predicate IsCallAt(path: seq<Ancestor>, j: int) {
    0 <= j < |path| && path[j].ty == "CallExpression"
  }

  /**
   * `findLastParentOfTypeCallExpression` from the ancestor at index `from` on:
   * the result is a call ancestor that is either the first one or has a member
   * callee, and no later call ancestor has a member callee; so it is the
   * outermost member-callee call above the first call, or that first call.
   */
  method FindLastParentCall(path: seq<Ancestor>, from: nat) returns (r: Option<nat>)
    requires from <= |path|
    ensures LastCallSpec(path, from, r)
    decreases |path| - from
  {
    var i := from;
    while i < |path|
      invariant from <= i <= |path|
      invariant forall j :: from <= j < i ==> !IsCallAt(path, j)
    {
      if path[i].ty == "CallExpression" {
        var last := FindLastParentCall(path, i + 1);
        PickedCall(path, from, i, last);
        if last.Some? && path[last.value].calleeIsMember {
          return last;
        } else {
          return Some(i);
        }
      }
      i := i + 1;
    }
    return None;
  }

  /**
   * What `findLastParentOfTypeCallExpression` promises from the ancestor at index
   * `from` on: no result iff there is no call ancestor; otherwise a call ancestor
   * that is either the first one or has a member callee, above the first call,
   * with no later call ancestor having a member callee.
   */
  ghost predicate LastCallSpec(path: seq<Ancestor>, from: nat, r: Option<nat>) {
    (r.None? <==> forall j :: from <= j < |path| ==> !IsCallAt(path, j)) &&
    (r.Some? ==> from <= r.value && IsCallAt(path, r.value)) &&
    (r.Some? ==> (path[r.value].calleeIsMember || forall j :: from <= j < r.value ==> !IsCallAt(path, j))) &&
    (r.Some? ==> forall j :: r.value < j < |path| && IsCallAt(path, j) ==> !path[j].calleeIsMember) &&
    (r.Some? ==> exists f :: from <= f <= r.value && IsCallAt(path, f) && forall j :: from <= j < f ==> !IsCallAt(path, j))
  }

  /** At the first call ancestor `i`: keep the later result if it has a member callee, else take `i`. */
  lemma PickedCall(path: seq<Ancestor>, from: nat, i: nat, last: Option<nat>)
    requires from <= i < |path| && IsCallAt(path, i)
    requires forall j :: from <= j < i ==> !IsCallAt(path, j)
    requires LastCallSpec(path, i + 1, last)
    ensures LastCallSpec(path, from, if last.Some? && path[last.value].calleeIsMember then last else Some(i))
  {
    if last.Some? && path[last.value].calleeIsMember {
      var f :| i + 1 <= f <= last.value && IsCallAt(path, f) && forall j :: i + 1 <= j < f ==> !IsCallAt(path, j);
      assert from <= i <= last.value && IsCallAt(path, i);
    } else if last.Some? {
      assert !path[last.value].calleeIsMember;
    }
  }

  // ================================================================ declarations

  function DeclsOf(ss: seq<Stmt>): seq<Declarator>
    requires forall i :: 0 <= i < |ss| ==> ss[i].VarDecl?
  {
    if ss == [] then [] else ss[0].decls + DeclsOf(ss[1..])
  }

  /**
   * `singleVarToExpressions`: a declaration with more than one declarator gives
   * one single-declarator `var` per declarator, in order, which together hold the
   * original declarators; anything else is refused (`None`, the source warns).
   */
  method SingleVarToExpressions(ast: Stmt) returns (r: Option<seq<Stmt>>)
    ensures r.Some? <==> ast.VarDecl? && |ast.decls| > 1
    ensures r.Some? ==> (|r.value| == |ast.decls| &&
      forall i :: 0 <= i < |r.value| ==> r.value[i] == VarDecl(Var, [ast.decls[i]], []))
    ensures r.Some? ==> DeclsOf(r.value) == ast.decls
  {
    if ast.VarDecl? && |ast.decls| > 1 {
      var expressions: seq<Stmt> := [];
      var i := 0;
      while i < |ast.decls|
        invariant 0 <= i <= |ast.decls|
        invariant |expressions| == i
        invariant forall k :: 0 <= k < i ==> expressions[k] == VarDecl(Var, [ast.decls[k]], [])
        invariant DeclsOf(expressions) == ast.decls[..i]
      {
        DeclsOfAppend(expressions, VarDecl(Var, [ast.decls[i]], []));
        assert ast.decls[..i + 1] == ast.decls[..i] + [ast.decls[i]];
        expressions := expressions + [VarDecl(Var, [ast.decls[i]], [])];
        i := i + 1;
      }
      assert ast.decls[..i] == ast.decls;
      return Some(expressions);
    }
    return None;
  }

  lemma {:induction false} DeclsOfAppend(ss: seq<Stmt>, s: Stmt)
    requires forall i :: 0 <= i < |ss| ==> ss[i].VarDecl?
    requires s.VarDecl?
    ensures DeclsOf(ss + [s]) == DeclsOf(ss) + s.decls
  {
    if ss == [] {
      assert [s][1..] == [];
    } else {
      assert (ss + [s])[1..] == ss[1..] + [s];
      DeclsOfAppend(ss[1..], s);
    }
  }

  // ================================================================ strings

  /**
   * `str.split(/(?=[A-Z])/)`: the text is cut before every upper-case letter
   * that is not the first character.
   */
  function SplitBeforeUpper(s: string): (parts: seq<string>)
    ensures |parts| >= 1
    ensures Concat(parts) == s
    decreases |s|
  {
    if |s| == 0 then [""]
    else
      var init := SplitBeforeUpper(s[..|s| - 1]);
      var c := s[|s| - 1];
      if |s| > 1 && IsUpper(c) then
        ConcatAppend(init, [c]);
        assert s == s[..|s| - 1] + [c];
        init + [[c]]
      else
        ConcatExtendLast(init, c);
        assert s == s[..|s| - 1] + [c];
        init[..|init| - 1] + [init[|init| - 1] + [c]]
  }

  lemma {:induction false} ConcatAppend(parts: seq<string>, p: string)
    ensures Concat(parts + [p]) == Concat(parts) + p
  {
    if parts == [] {
      assert [p][1..] == [];
    } else {
      assert (parts + [p])[1..] == parts[1..] + [p];
      ConcatAppend(parts[1..], p);
    }
  }

  lemma {:induction false} ConcatExtendLast(parts: seq<string>, c: char)
    requires |parts| >= 1
    ensures Concat(parts[..|parts| - 1] + [parts[|parts| - 1] + [c]]) == Concat(parts) + [c]
  {
    var n := |parts|;
    ConcatAppend(parts[..n - 1], parts[n - 1] + [c]);
    ConcatAppend(parts[..n - 1], parts[n - 1]);
    assert parts[..n - 1] + [parts[n - 1]] == parts;
  }

  lemma {:induction false} JoinAppend(parts: seq<string>, p: string, sep: string)
    requires |parts| >= 1
    ensures Join(parts + [p], sep) == Join(parts, sep) + sep + p
  {
    if |parts| == 1 {
      assert (parts + [p])[1..] == [p];
    } else {
      assert (parts + [p])[1..] == parts[1..] + [p];
      JoinAppend(parts[1..], p, sep);
    }
  }

  lemma {:induction false} JoinExtendLast(parts: seq<string>, c: char, sep: string)
    requires |parts| >= 1
    ensures Join(parts[..|parts| - 1] + [parts[|parts| - 1] + [c]], sep) == Join(parts, sep) + [c]
  {
    var n := |parts|;
    if n == 1 {
    } else {
      JoinAppend(parts[..n - 1], parts[n - 1] + [c], sep);
      JoinAppend(parts[..n - 1], parts[n - 1], sep);
      assert parts[..n - 1] + [parts[n - 1]] == parts;
    }
  }

  /** `camelToSnake` */
  function CamelToSnake(str: string): string {
    ToLower(Join(SplitBeforeUpper(str), "_"))
  }

  /** The text with `_` put before every upper-case letter other than the first character, all in lower case. */
  function SnakeReference(s: string): string
    decreases |s|
  {
    if |s| == 0 then ""
    else
      var c := s[|s| - 1];
      SnakeReference(s[..|s| - 1]) + (if |s| > 1 && IsUpper(c) then "_" else "") + [ToLowerChar(c)]
  }

  lemma ToLowerAppend(a: string, b: string)
    ensures ToLower(a + b) == ToLower(a) + ToLower(b)
  {
  }

  /** One step of the split and join: the last character, with `_` before it when it starts a new part. */
  lemma {:induction false} JoinSplitStep(s: string)
    requires |s| > 0
    ensures Join(SplitBeforeUpper(s), "_") ==
      Join(SplitBeforeUpper(s[..|s| - 1]), "_") + (if |s| > 1 && IsUpper(s[|s| - 1]) then "_" else "") + [s[|s| - 1]]
  {
    var parts := SplitBeforeUpper(s[..|s| - 1]);
    var c := s[|s| - 1];
    if |s| > 1 && IsUpper(c) {
      JoinAppend(parts, [c], "_");
    } else {
      JoinExtendLast(parts, c, "_");
    }
  }

  /**
   * `camelToSnake` puts `_` before each upper-case letter except at index 0, and
   * lower-cases the text.
   */
  lemma {:induction false} CamelToSnakeInsertsUnderscores(s: string)
    ensures CamelToSnake(s) == SnakeReference(s)
    decreases |s|
  {
    if |s| > 0 {
      var init, c := s[..|s| - 1], s[|s| - 1];
      var mid: string := if |s| > 1 && IsUpper(c) then "_" else "";
      CamelToSnakeInsertsUnderscores(init);
      JoinSplitStep(s);
      var j := Join(SplitBeforeUpper(init), "_");
      ToLowerAppend(j, mid + [c]);
      assert ToLower(mid + [c]) == mid + [ToLowerChar(c)];
    }
  }

  /** The result of `camelToSnake` has no upper-case letter. */
  lemma CamelToSnakeIsLowerCase(s: string)
    ensures forall i :: 0 <= i < |CamelToSnake(s)| ==> !IsUpper(CamelToSnake(s)[i])
  {
  }

  /** `capitalizeFirstLetter`: only the first character changes, to upper case. */
  function CapitalizeFirstLetter(s: string): (r: string)
    ensures |r| == |s|
    ensures s != [] ==> r[0] == ToUpperChar(s[0]) && r[1..] == s[1..]
  {
    if s == [] then [] else [ToUpperChar(s[0])] + s[1..]
  }
}
