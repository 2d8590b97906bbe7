/**
 * The closed, tagged syntax tree the codemod passes work on.
 *
 * Parsing text into this tree and printing it back are external to the model:
 * a pass maps a `Program` to a `Program`, and printing is taken as identity.
 * Each variant carries only fields the passes read or write.  Not every such
 * field is represented: class methods have no `async` flag, and an arrow
 * function with an expression body is written as one whose body returns it.
 */
module Ast {

  datatype Option<T> = None | Some(value: T)

  /** A comment attached to a node; it records on which side of the node it stands. */
  datatype Comment = Comment(text: string, leading: bool, trailing: bool)

  datatype VarKind = Var | Let | Const

  /** `import d from`, `import { i as l } from`, `import * as n from` */
  datatype SpecKind = DefaultSpec | NamedSpec | NamespaceSpec

  /** One import binding. `imported` is meaningful for named specifiers only. */
  datatype ImportSpec = ImportSpec(kind: SpecKind, imported: string, local: string)

  /** One entry of `export { local as exported }`. */
  datatype ExportSpec = ExportSpec(local: string, exported: string)

  datatype MethodKind = KMethod | KGet | KSet | KConstructor

  datatype Expr =
    | Ident(name: string)
    | Str(value: string)                                  // string literal
    | Lit(raw: string)                                    // number, boolean or null literal
    | Template(quasis: seq<string>, exprs: seq<Expr>)     // raw quasis and the embedded expressions
    | Call(callee: Expr, args: seq<Expr>)
    | Member(obj: Expr, prop: Expr, computed: bool)
    | Assign(op: string, left: Expr, right: Expr)
    | Object(props: seq<Prop>)
    | ObjPattern(props: seq<Prop>)                        // destructuring pattern
    | Array(elems: seq<Expr>)
    | This
    | Await(arg: Expr)
    | Func(params: seq<Expr>, body: seq<Stmt>, isArrow: bool, isAsync: bool)
    | ParamProp(access: string, name: string, typeName: string)   // TypeScript parameter property
    | OtherExpr(tag: string, children: seq<Expr>)         // any other expression, with its sub-expressions

  datatype Prop = Prop(key: Expr, value: Expr, computed: bool, shorthand: bool, comments: seq<Comment>)

  datatype Declarator = Declarator(id: Expr, init: Option<Expr>, comments: seq<Comment>)

  datatype ClassMember =
    | MethodDef(kind: MethodKind, isStatic: bool, key: string, params: seq<Expr>, body: seq<Stmt>, decorators: seq<Expr>)
    | FieldDef(key: string, value: Option<Expr>, isStatic: bool, decorators: seq<Expr>, typeAnn: string)

  datatype Stmt =
    | Import(specs: seq<ImportSpec>, source: string, comments: seq<Comment>)
    | VarDecl(kind: VarKind, decls: seq<Declarator>, comments: seq<Comment>)
    | ExprStmt(expr: Expr, comments: seq<Comment>)
    | ExportDecl(decl: Stmt, comments: seq<Comment>)                   // export <declaration>
    | ExportList(exports: seq<ExportSpec>, comments: seq<Comment>)     // export { ... }
    | ExportDefault(value: Expr, comments: seq<Comment>)
    | ClassStmt(id: string, superClass: Option<Expr>, members: seq<ClassMember>, decorators: seq<Expr>, comments: seq<Comment>)
    | Block(body: seq<Stmt>)
    | FuncDecl(name: string, params: seq<Expr>, body: seq<Stmt>, comments: seq<Comment>)
    | Return(arg: Expr)
    | OtherStmt(tag: string, exprs: seq<Expr>, body: seq<Stmt>)    // if, for, while, try, ...

  /** A parsed file: the program body and the comments attached to the file node. */
  datatype Program = Program(body: seq<Stmt>, comments: seq<Comment>)

  /** What the host passes to every pass besides the text. */
  datatype FileContext = FileContext(fileName: string, rootDir: string)

  predicate IsLiteral(e: Expr) {
    e.Str? || e.Lit?
  }

  /** The `.value` of a literal; other nodes have none (read as the empty string). */
  function LiteralValue(e: Expr): string {
    match e
    case Str(v) => v
    case Lit(raw) => raw
    case _ => ""
  }

  /** The `.name` of a node; only identifiers have one (read as the empty string). */
  function NameOf(e: Expr): string {
    if e.Ident? then e.name else ""
  }

  predicate IsIdent(e: Expr, name: string) {
    e.Ident? && e.name == name
  }

  /** `obj.name` with a non-computed identifier property. */
  predicate IsMemberNamed(e: Expr, name: string) {
    e.Member? && IsIdent(e.prop, name)
  }

  function Leading(cs: seq<Comment>): (r: seq<Comment>)
    ensures forall c :: c in r <==> c in cs && c.leading
    ensures |r| <= |cs|
  {
    if cs == [] then []
    else (if cs[0].leading then [cs[0]] else []) + Leading(cs[1..])
  }

  function Trailing(cs: seq<Comment>): (r: seq<Comment>)
    ensures forall c :: c in r <==> c in cs && c.trailing
    ensures |r| <= |cs|
  {
    if cs == [] then []
    else (if cs[0].trailing then [cs[0]] else []) + Trailing(cs[1..])
  }

  /** The comments a statement carries, if its kind carries any. */
  function CommentsOf(s: Stmt): seq<Comment> {
    match s
    case Import(_, _, c) => c
    case VarDecl(_, _, c) => c
    case ExprStmt(_, c) => c
    case ExportDecl(_, c) => c
    case ExportList(_, c) => c
    case ExportDefault(_, c) => c
    case ClassStmt(_, _, _, _, c) => c
    case FuncDecl(_, _, _, c) => c
    case _ => []
  }

  /** The statement with its comments replaced, for kinds that carry comments. */
  function WithComments(s: Stmt, cs: seq<Comment>): (r: Stmt)
    ensures s.Block? || s.Return? || s.OtherStmt? || CommentsOf(r) == cs
  {
    match s
    case Import(a, b, _) => Import(a, b, cs)
    case VarDecl(a, b, _) => VarDecl(a, b, cs)
    case ExprStmt(a, _) => ExprStmt(a, cs)
    case ExportDecl(a, _) => ExportDecl(a, cs)
    case ExportList(a, _) => ExportList(a, cs)
    case ExportDefault(a, _) => ExportDefault(a, cs)
    case ClassStmt(a, b, c, d, _) => ClassStmt(a, b, c, d, cs)
    case FuncDecl(a, b, c, _) => FuncDecl(a, b, c, cs)
    case _ => s
  }

  /** Every element of `xs` that satisfies `p`, in order. */
  function Filter<T(!new)>(xs: seq<T>, p: T -> bool): (r: seq<T>)
    ensures |r| <= |xs|
    ensures forall x :: x in r <==> x in xs && p(x)
  {
    if xs == [] then []
    else (if p(xs[0]) then [xs[0]] else []) + Filter(xs[1..], p)
  }

  function Flatten<T>(xss: seq<seq<T>>): seq<T> {
    if xss == [] then [] else xss[0] + Flatten(xss[1..])
  }

  lemma AppendAssoc<T>(x: seq<T>, y: seq<T>, z: seq<T>)
    ensures (x + y) + z == x + (y + z)
  {
  }

  /** A sequence is its prefix followed by the rest. */
  lemma TakeDrop<T>(s: seq<T>, d: nat)
    requires d <= |s|
    ensures s[..d] + s[d..] == s
  {
  }

  /** The rest from `d` starts with element `d`. */
  lemma DropCons<T>(s: seq<T>, d: nat)
    requires d < |s|
    ensures s[d..][0] == s[d] && s[d..][1..] == s[d + 1..]
    ensures s[d..] == [s[d]] + s[d + 1..]
  {
  }

  /** Two sequences that agree on their first `n` elements agree on each of them and on any shorter prefix. */
  lemma TakeSame<T>(x: seq<T>, y: seq<T>, m: nat, n: nat)
    requires m <= n <= |x| && n <= |y| && x[..n] == y[..n]
    ensures x[..m] == y[..m]
    ensures m < n ==> x[m] == y[m]
  {
    assert x[..m] == x[..n][..m] && y[..m] == y[..n][..m];
    if m < n {
      assert x[m] == x[..n][m] && y[m] == y[..n][m];
    }
  }

  /** Replacing element `d` keeps everything before and after it. */
  lemma UpdateAround<T>(s: seq<T>, d: nat, x: T)
    requires d < |s|
    ensures s[d := x][..d] == s[..d] && s[d := x][d + 1..] == s[d + 1..]
  {
  }

  lemma {:induction false} FilterAppend<T(!new)>(a: seq<T>, b: seq<T>, p: T -> bool)
    ensures Filter(a + b, p) == Filter(a, p) + Filter(b, p)
  {
    if a == [] {
      assert a + b == b;
    } else {
      assert (a + b)[1..] == a[1..] + b;
      FilterAppend(a[1..], b, p);
    }
  }
}
