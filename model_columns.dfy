/**
 * The column side of the model pass (`adonis-model-plugin-jscodeshift.ts`):
 * plain objects used as insertion-ordered dictionaries, the table from Knex
 * column methods to TypeScript types, the `modelProps` updates the migrations
 * drive, the string helpers, and the `@column` decorators built from the
 * resulting dictionary.
 */
module ModelColumns {
  import opened Ast
  import opened Strings
  import opened Traverse

  // ================================================================ dictionaries

  /** One own property of a plain object used as a dictionary. */
  datatype Pair<V> = Pair(key: string, val: V)

  /** `Object.keys(d)`, in insertion order (keys that look like array indexes aside). */
  function KeysOf<V>(d: seq<Pair<V>>): seq<string> {
    if d == [] then [] else [d[0].key] + KeysOf(d[1..])
  }

  predicate Distinct<T(==)>(xs: seq<T>) {
    forall i, j :: 0 <= i < j < |xs| ==> xs[i] != xs[j]
  }

  /** `d[k]` */
  function Lookup<V>(d: seq<Pair<V>>, k: string): Option<V> {
    if d == [] then None else if d[0].key == k then Some(d[0].val) else Lookup(d[1..], k)
  }

  /** `d[k] = v`: a key already present keeps its place, a new one goes last. */
  function Put<V>(d: seq<Pair<V>>, k: string, v: V): seq<Pair<V>> {
    if d == [] then [Pair(k, v)]
    else if d[0].key == k then [Pair(k, v)] + d[1..]
    else [d[0]] + Put(d[1..], k, v)
  }

  /** `delete d[k]` */
  function Delete<V>(d: seq<Pair<V>>, k: string): seq<Pair<V>> {
    if d == [] then [] else if d[0].key == k then Delete(d[1..], k) else [d[0]] + Delete(d[1..], k)
  }

  /** A key has a value exactly when it is one of the keys. */
  lemma {:induction false} LookupKeys<V>(d: seq<Pair<V>>, k: string)
    ensures Lookup(d, k).Some? <==> k in KeysOf(d)
  {
    if d != [] {
      LookupKeys(d[1..], k);
    }
  }

  /** After `d[k] = v`, `k` reads `v` and every other key reads what it read before. */
  lemma {:induction false} PutLookup<V>(d: seq<Pair<V>>, k: string, v: V, k': string)
    ensures Lookup(Put(d, k, v), k') == if k' == k then Some(v) else Lookup(d, k')
  {
    if d != [] && d[0].key != k {
      PutLookup(d[1..], k, v, k');
    }
  }

  /** `d[k] = v` leaves the key order alone for a present key and appends a new one. */
  lemma {:induction false} PutKeys<V>(d: seq<Pair<V>>, k: string, v: V)
    ensures KeysOf(Put(d, k, v)) == if k in KeysOf(d) then KeysOf(d) else KeysOf(d) + [k]
  {
    if d != [] && d[0].key != k {
      PutKeys(d[1..], k, v);
      assert KeysOf(d) == [d[0].key] + KeysOf(d[1..]);
    }
  }

  /** After `delete d[k]`, `k` reads nothing and every other key reads what it read before. */
  lemma {:induction false} DeleteLookup<V>(d: seq<Pair<V>>, k: string, k': string)
    ensures Lookup(Delete(d, k), k') == if k' == k then None else Lookup(d, k')
  {
    if d != [] {
      DeleteLookup(d[1..], k, k');
    }
  }

  /** `delete d[k]` drops `k` from the keys and keeps the others in order. */
  lemma {:induction false} DeleteKeys<V>(d: seq<Pair<V>>, k: string)
    ensures KeysOf(Delete(d, k)) == Filter(KeysOf(d), (x: string) => x != k)
  {
    if d != [] {
      DeleteKeys(d[1..], k);
      assert KeysOf(d) == [d[0].key] + KeysOf(d[1..]);
      assert KeysOf(d)[0] == d[0].key && KeysOf(d)[1..] == KeysOf(d[1..]);
    }
  }

  /** No key appears twice, and the updates keep it so. */
  lemma PutDistinct<V>(d: seq<Pair<V>>, k: string, v: V)
    requires Distinct(KeysOf(d))
    ensures Distinct(KeysOf(Put(d, k, v)))
  {
    PutKeys(d, k, v);
  }

  lemma DeleteDistinct<V>(d: seq<Pair<V>>, k: string)
    requires Distinct(KeysOf(d))
    ensures Distinct(KeysOf(Delete(d, k)))
  {
    DeleteKeys(d, k);
    FilterDistinct(KeysOf(d), (x: string) => x != k);
  }

  lemma {:induction false} FilterDistinct<T(!new)>(xs: seq<T>, p: T -> bool)
    requires Distinct(xs)
    ensures Distinct(Filter(xs, p))
  {
    if xs != [] {
      FilterDistinct(xs[1..], p);
      assert xs[0] !in xs[1..];
    }
  }

  /** The assignments `d[ks[0]] = v; d[ks[1]] = v; ...` */
  function PutAll<V>(d: seq<Pair<V>>, ks: seq<string>, v: V): seq<Pair<V>>
    decreases |ks|
  {
    if ks == [] then d else Put(PutAll(d, ks[..|ks| - 1], v), ks[|ks| - 1], v)
  }

  /** The elements of `xs` where each first occurs, in that order. */
  function Dedup(xs: seq<string>): seq<string>
    decreases |xs|
  {
    if xs == [] then []
    else if xs[|xs| - 1] in xs[..|xs| - 1] then Dedup(xs[..|xs| - 1])
    else Dedup(xs[..|xs| - 1]) + [xs[|xs| - 1]]
  }

  lemma {:induction false} DedupMembers(xs: seq<string>)
    ensures forall x :: x in Dedup(xs) <==> x in xs
    decreases |xs|
  {
    if xs != [] {
      DedupMembers(xs[..|xs| - 1]);
      assert xs == xs[..|xs| - 1] + [xs[|xs| - 1]];
    }
  }

  /** Assigning keys one after the other lists each key once, where it was first assigned. */
  lemma {:induction false} PutAllKeys<V>(ks: seq<string>, v: V)
    ensures KeysOf(PutAll([], ks, v)) == Dedup(ks)
    decreases |ks|
  {
    if ks != [] {
      var init := ks[..|ks| - 1];
      PutAllKeys(init, v);
      DedupMembers(init);
      PutKeys(PutAll([], init, v), ks[|ks| - 1], v);
    }
  }

  /** What came first stays first: the keys of a prefix lead the keys of the whole. */
  lemma {:induction false} DedupPrefix(xs: seq<string>, ys: seq<string>)
    ensures |Dedup(xs)| <= |Dedup(xs + ys)| && Dedup(xs + ys)[..|Dedup(xs)|] == Dedup(xs)
    decreases |ys|
  {
    if ys == [] {
      assert xs + ys == xs;
    } else {
      var init, last := ys[..|ys| - 1], ys[|ys| - 1];
      DedupPrefix(xs, init);
      var all := xs + ys;
      assert all[..|all| - 1] == xs + init && all[|all| - 1] == last;
    }
  }

  lemma {:induction false} DedupDistinct(xs: seq<string>)
    ensures Distinct(Dedup(xs))
    decreases |xs|
  {
    if xs != [] {
      DedupDistinct(xs[..|xs| - 1]);
      DedupMembers(xs[..|xs| - 1]);
    }
  }

  // ================================================================ column types

  /** The Knex column methods the pass reads, and the types they give, position by position. */
  const OldTypes: seq<string> := ["string", "integer", "boolean", "text", "json", "jsonb", "float", "decimal",
                                  "decimal", "increments", "timestamp", "timestamps", "renameColumn", "dropColumn"]
  const NewTypes: seq<string> := ["string", "number", "boolean", "string", "object", "object", "number", "number",
                                  "number", "increments", "DateTime", "timestamps", "renameColumn", "dropColumn"]

  /** The TypeScript types a column can get. */
  const ColumnTypeNames: seq<string> := ["string", "number", "boolean", "object", "DateTime"]

  /** `xs.indexOf(x)` */
  function IndexIn(xs: seq<string>, x: string): (r: int)
    ensures -1 <= r < |xs|
    ensures r >= 0 ==> xs[r] == x && forall j :: 0 <= j < r ==> xs[j] != x
    ensures r == -1 <==> x !in xs
  {
    if xs == [] then -1
    else if xs[0] == x then 0
    else
      var i := IndexIn(xs[1..], x);
      if i < 0 then -1 else i + 1
  }

  lemma FirstIndexAt(xs: seq<string>, x: string, k: int)
    requires 0 <= k < |xs| && xs[k] == x && forall j :: 0 <= j < k ==> xs[j] != x
    ensures IndexIn(xs, x) == k
  {
  }

  /** `newTypes[oldTypes.indexOf(name)]` */
  function ColumnType(name: string): string
    requires name in OldTypes
  {
    NewTypes[IndexIn(OldTypes, name)]
  }

  /** Each column method gives the type at its first place in the list. */
  lemma ColumnTypeTable(k: int)
    requires 0 <= k < |OldTypes| && forall j :: 0 <= j < k ==> OldTypes[j] != OldTypes[k]
    ensures ColumnType(OldTypes[k]) == NewTypes[k]
  {
    FirstIndexAt(OldTypes, OldTypes[k], k);
  }

  /** `decimal` is listed twice; its first place gives `number`. */
  lemma ColumnTypeDecimal()
    ensures ColumnType("decimal") == "number"
  {
    FirstIndexAt(OldTypes, "decimal", 7);
  }

  // ================================================================ modelProps

  /** The column name and the type the dictionary maps it to. */
  type Columns = seq<Pair<string>>

  /** A call `<param>.<method>(args)` on the table callback's parameter, with its type already looked up. */
  datatype Row = Row(ty: string, args: seq<Expr>)

  /**
   * `String(node.value)`, the key a node's `.value` becomes: a string literal its
   * text, a number or boolean literal its source text, and `undefined` for nodes
   * without a value (the null literal among them).
   */
  function KeyOf(e: Expr): string {
    match e
    case Str(v) => v
    case Lit(raw) => if raw == "null" then "undefined" else raw
    case _ => "undefined"
  }

  /** One column row applied to `modelProps`; None where reading a missing argument throws. */
  function ApplyRow(cs: Columns, r: Row): Option<Columns> {
    if r.ty == "timestamps" then
      Some(Put(Put(cs, "created_at", "DateTime"), "updated_at", "DateTime"))
    else if r.ty == "renameColumn" then
      if |r.args| < 2 then None
      else
        var from, to := KeyOf(r.args[0]), KeyOf(r.args[1]);
        match Lookup(cs, from)
        case Some(t) => Some(Delete(Put(cs, to, t), from))
        case None => Some(cs)
    else if r.ty == "dropColumn" then
      if |r.args| < 1 then None else Some(Delete(cs, KeyOf(r.args[0])))
    else if r.ty == "increments" then
      Some(Put(cs, if |r.args| > 0 then KeyOf(r.args[0]) else "id", "number"))
    else if |r.args| < 1 then None
    else Some(Put(cs, KeyOf(r.args[0]), r.ty))
  }

  /** The rows applied in order, starting from `cs`. */
  function ApplyRows(cs: Columns, rows: seq<Row>): Option<Columns>
    decreases |rows|
  {
    if rows == [] then Some(cs)
    else match ApplyRow(cs, rows[0])
      case None => None
      case Some(cs') => ApplyRows(cs', rows[1..])
  }

  /** The `forEach` over the rows, updating the dictionary in place. */
  method ApplyColumnRows(rows: seq<Row>) returns (r: Option<Columns>)
    ensures r == ApplyRows([], rows)
  {
    var cs: Columns := [];
    var i := 0;
    while i < |rows|
      invariant 0 <= i <= |rows|
      invariant ApplyRows(cs, rows[i..]) == ApplyRows([], rows)
    {
      assert rows[i..][0] == rows[i] && rows[i..][1..] == rows[i + 1..];
      var next := ApplyRow(cs, rows[i]);
      if next.None? {
        return None;
      }
      cs := next.value;
      i := i + 1;
    }
    assert rows[i..] == [];
    return Some(cs);
  }

  /** The row types the column methods give. */
  predicate KnownRow(r: Row) {
    r.ty in NewTypes
  }

  /** What the dictionary holds is always a column type, each column listed once. */
  ghost predicate WellFormedColumns(cs: Columns) {
    Distinct(KeysOf(cs)) && forall k :: Lookup(cs, k).Some? ==> Lookup(cs, k).value in ColumnTypeNames
  }

  lemma {:induction false} ApplyRowKeepsWellFormed(cs: Columns, r: Row)
    requires WellFormedColumns(cs) && KnownRow(r)
    ensures ApplyRow(cs, r).Some? ==> WellFormedColumns(ApplyRow(cs, r).value)
  {
    var out := ApplyRow(cs, r);
    if out.Some? {
      var o := out.value;
      if r.ty == "timestamps" {
        var c1 := Put(cs, "created_at", "DateTime");
        PutDistinct(cs, "created_at", "DateTime");
        PutDistinct(c1, "updated_at", "DateTime");
        forall k | Lookup(o, k).Some?
          ensures Lookup(o, k).value in ColumnTypeNames
        {
          PutLookup(cs, "created_at", "DateTime", k);
          PutLookup(c1, "updated_at", "DateTime", k);
        }
      } else if r.ty == "renameColumn" {
        var from, to := KeyOf(r.args[0]), KeyOf(r.args[1]);
        if Lookup(cs, from).Some? {
          var t := Lookup(cs, from).value;
          var c1 := Put(cs, to, t);
          PutDistinct(cs, to, t);
          DeleteDistinct(c1, from);
          forall k | Lookup(o, k).Some?
            ensures Lookup(o, k).value in ColumnTypeNames
          {
            PutLookup(cs, to, t, k);
            DeleteLookup(c1, from, k);
          }
        }
      } else if r.ty == "dropColumn" {
        var k0 := KeyOf(r.args[0]);
        DeleteDistinct(cs, k0);
        forall k | Lookup(o, k).Some?
          ensures Lookup(o, k).value in ColumnTypeNames
        {
          DeleteLookup(cs, k0, k);
        }
      } else {
        var k0 := if r.ty == "increments" then (if |r.args| > 0 then KeyOf(r.args[0]) else "id") else KeyOf(r.args[0]);
        var t := if r.ty == "increments" then "number" else r.ty;
        assert o == Put(cs, k0, t);
        assert t in ColumnTypeNames by {
          if r.ty != "increments" {
            var i :| 0 <= i < |NewTypes| && NewTypes[i] == r.ty;
          }
        }
        PutDistinct(cs, k0, t);
        forall k | Lookup(o, k).Some?
          ensures Lookup(o, k).value in ColumnTypeNames
        {
          PutLookup(cs, k0, t, k);
        }
      }
    }
  }

  /** Whatever the migrations do, each column is listed once with one of the column types. */
  lemma {:induction false} ApplyRowsWellFormed(cs: Columns, rows: seq<Row>)
    requires WellFormedColumns(cs) && forall i :: 0 <= i < |rows| ==> KnownRow(rows[i])
    ensures ApplyRows(cs, rows).Some? ==> WellFormedColumns(ApplyRows(cs, rows).value)
    decreases |rows|
  {
    if rows != [] {
      ApplyRowKeepsWellFormed(cs, rows[0]);
      var next := ApplyRow(cs, rows[0]);
      if next.Some? {
        ApplyRowsWellFormed(next.value, rows[1..]);
      }
    }
  }

  /** `timestamps()` gives both timestamp columns the `DateTime` type. */
  lemma TimestampsRow(cs: Columns, args: seq<Expr>)
    ensures var o := ApplyRow(cs, Row("timestamps", args));
      o.Some? && Lookup(o.value, "created_at") == Some("DateTime") && Lookup(o.value, "updated_at") == Some("DateTime")
  {
    var c1 := Put(cs, "created_at", "DateTime");
    PutLookup(cs, "created_at", "DateTime", "created_at");
    PutLookup(c1, "updated_at", "DateTime", "created_at");
    PutLookup(c1, "updated_at", "DateTime", "updated_at");
  }

  /**
   * `renameColumn(from, to)` moves a present column's type to the new name and drops
   * the old name (when the two names are the same the column is dropped); an absent
   * column changes nothing.
   */
  lemma RenameRow(cs: Columns, a: Expr, b: Expr, rest: seq<Expr>, k: string)
    ensures var o := ApplyRow(cs, Row("renameColumn", [a, b] + rest));
      var from, to := KeyOf(a), KeyOf(b);
      o.Some? &&
      (Lookup(cs, from).None? ==> o.value == cs) &&
      (Lookup(cs, from).Some? ==>
        Lookup(o.value, from).None? &&
        (to != from ==> Lookup(o.value, to) == Lookup(cs, from)) &&
        (k != from && k != to ==> Lookup(o.value, k) == Lookup(cs, k)))
  {
    var from, to := KeyOf(a), KeyOf(b);
    var args := [a, b] + rest;
    assert args[0] == a && args[1] == b;
    if Lookup(cs, from).Some? {
      var t := Lookup(cs, from).value;
      PutLookup(cs, to, t, from);
      PutLookup(cs, to, t, to);
      PutLookup(cs, to, t, k);
      DeleteLookup(Put(cs, to, t), from, from);
      DeleteLookup(Put(cs, to, t), from, to);
      DeleteLookup(Put(cs, to, t), from, k);
    }
  }

  /** `increments()` without a name declares the numeric `id` column. */
  lemma IncrementsDefaultsToId(cs: Columns)
    ensures var o := ApplyRow(cs, Row("increments", []));
      o.Some? && Lookup(o.value, "id") == Some("number")
  {
    PutLookup(cs, "id", "number", "id");
  }

  /** Rows that read a name they were not given make the pass throw. */
  lemma MissingNameThrows(cs: Columns, ty: string)
    requires ty != "timestamps" && ty != "increments"
    ensures ApplyRow(cs, Row(ty, [])).None?
  {
  }

  // ================================================================ migrations

  /** `this.<method>(table, callback...)`: a table change in an `up` method. */
  datatype Modify = Modify(callee: Expr, args: seq<Expr>)

  /** The call matches `{ callee: { object: this }, arguments: [{ value: table }] }`. */
  predicate IsModifyCall(e: Expr, table: Expr) {
    e.Call? && e.callee.Member? && e.callee.obj.This? && |e.args| >= 1 && e.args[0] == table
  }

  function PickModify(table: Expr): Node -> seq<Modify> {
    (n: Node) => if n.NE? && IsModifyCall(n.e, table) then [Modify(n.e.callee, n.e.args)] else []
  }

  /** `<param>.<column method>(...)` */
  predicate IsRowCall(e: Expr, param: string) {
    e.Call? && e.callee.Member? && IsIdent(e.callee.obj, param) &&
    e.callee.prop.Ident? && e.callee.prop.name in OldTypes
  }

  function PickRow(param: string): Node -> seq<Row> {
    (n: Node) => if n.NE? && IsRowCall(n.e, param) then [Row(ColumnType(n.e.callee.prop.name), n.e.args)] else []
  }

  lemma PickRowKnown(param: string)
    ensures PicksOnly(PickRow(param), KnownRow)
  {
    forall n: Node, r: Row | r in PickRow(param)(n)
      ensures KnownRow(r)
    {
      var name := n.e.callee.prop.name;
      assert r.ty == NewTypes[IndexIn(OldTypes, name)];
    }
  }

  /**
   * The rows of one table change: the calls on the callback's first parameter,
   * anywhere inside the statement.  None: there is no callback parameter to read.
   * A parameter that is not an identifier has no name and matches no row.
   */
  function RowsOfModify(m: Modify): Option<seq<Row>> {
    if |m.args| < 2 || !m.args[1].Func? || m.args[1].params == [] then None
    else match m.args[1].params[0]
      case Ident(p) => Some(KidsCollE(Call(m.callee, m.args), PickRow(p)))
      case _ => Some([])
  }

  function RowsOfModifies(ms: seq<Modify>): Option<seq<Row>>
    decreases |ms|
  {
    if ms == [] then Some([])
    else match RowsOfModify(ms[0])
      case None => None
      case Some(rs) =>
        match RowsOfModifies(ms[1..])
        case None => None
        case Some(rest) => Some(rs + rest)
  }

  /** The table changes of every `up` method, method after method. */
  function ModifiesOf(ups: seq<ClassMember>, table: Expr): seq<Modify>
    decreases |ups|
  {
    if ups == [] then [] else CollM(ups[0], PickModify(table)) + ModifiesOf(ups[1..], table)
  }

  /** The `modelProps` dictionary the migrations of the table build. */
  function ColumnsOf(ups: seq<ClassMember>, table: Expr): Option<Columns> {
    match RowsOfModifies(ModifiesOf(ups, table))
    case None => None
    case Some(rows) => ApplyRows([], rows)
  }

  lemma {:induction false} RowsOfModifiesKnown(ms: seq<Modify>)
    ensures RowsOfModifies(ms).Some? ==> forall i :: 0 <= i < |RowsOfModifies(ms).value| ==> KnownRow(RowsOfModifies(ms).value[i])
    decreases |ms|
  {
    if ms != [] {
      RowsOfModifiesKnown(ms[1..]);
      var m := ms[0];
      if RowsOfModify(m).Some? && m.args[1].params[0].Ident? {
        PickRowKnown(m.args[1].params[0].name);
        ImageKidsE(Call(m.callee, m.args), PickRow(m.args[1].params[0].name), KnownRow);
      }
      if RowsOfModifies(ms).Some? {
        var rs, rest := RowsOfModify(m).value, RowsOfModifies(ms[1..]).value;
        assert RowsOfModifies(ms).value == rs + rest;
        forall i | 0 <= i < |rs + rest|
          ensures KnownRow((rs + rest)[i])
        {
          if i < |rs| {
            assert (rs + rest)[i] == rs[i] && rs[i] in rs;
          } else {
            assert (rs + rest)[i] == rest[i - |rs|];
          }
        }
      }
    }
  }

  /** The columns a model gets are listed once each, each with a column type. */
  lemma ColumnsWellFormed(ups: seq<ClassMember>, table: Expr)
    ensures ColumnsOf(ups, table).Some? ==> WellFormedColumns(ColumnsOf(ups, table).value)
  {
    var ms := ModifiesOf(ups, table);
    RowsOfModifiesKnown(ms);
    if RowsOfModifies(ms).Some? {
      ApplyRowsWellFormed([], RowsOfModifies(ms).value);
    }
  }

  // ================================================================ strings

  predicate IsSeparator(c: char) {
    c == '_' || c == '-'
  }

  /** `s.replace(/[-_][a-z]/g, g => g.slice(-1).toUpperCase())`, matching left to right. */
  function UpperAfterSeparators(s: string): string
    decreases |s|
  {
    if |s| >= 2 && IsSeparator(s[0]) && IsLower(s[1]) then [ToUpperChar(s[1])] + UpperAfterSeparators(s[2..])
    else if s == [] then []
    else [s[0]] + UpperAfterSeparators(s[1..])
  }

  /** `snakeToCamel` */
  function SnakeToCamel(s: string): string {
    if forall i :: 0 <= i < |s| ==> !IsSeparator(s[i]) then s else UpperAfterSeparators(ToLower(s))
  }

  lemma {:induction false} UpperAfterSeparatorsFirst(s: string)
    requires s != []
    ensures var r := UpperAfterSeparators(s);
      r != [] && (IsLower(r[0]) ==> r[0] == s[0] && !IsSeparator(s[0]))
  {
  }

  /** No separator followed by a lower-case letter is left. */
  lemma {:induction false} NoSeparatorBeforeLower(s: string)
    ensures var r := UpperAfterSeparators(s);
      forall i :: 0 <= i < |r| - 1 && IsSeparator(r[i]) ==> !IsLower(r[i + 1])
    decreases |s|
  {
    var r := UpperAfterSeparators(s);
    if |s| >= 2 && IsSeparator(s[0]) && IsLower(s[1]) {
      NoSeparatorBeforeLower(s[2..]);
      assert r == [ToUpperChar(s[1])] + UpperAfterSeparators(s[2..]);
    } else if s != [] {
      var t := UpperAfterSeparators(s[1..]);
      NoSeparatorBeforeLower(s[1..]);
      assert r == [s[0]] + t;
      if s[1..] != [] {
        UpperAfterSeparatorsFirst(s[1..]);
        assert IsSeparator(s[0]) ==> !IsLower(s[1]);
      }
    }
  }

  /** A name without `_` and `-` is already camel case. */
  lemma SnakeToCamelKeepsPlainNames(s: string)
    requires forall i :: 0 <= i < |s| ==> !IsSeparator(s[i])
    ensures SnakeToCamel(s) == s
  {
  }

  lemma ToLowerOfLowerName(s: string)
    requires forall i :: 0 <= i < |s| ==> !IsUpper(s[i])
    ensures ToLower(s) == s
  {
  }

  /** A leading run without separators goes through unchanged. */
  lemma {:induction false} PlainPrefix(a: string, b: string)
    requires forall i :: 0 <= i < |a| ==> !IsSeparator(a[i])
    ensures UpperAfterSeparators(a + b) == a + UpperAfterSeparators(b)
    decreases |a|
  {
    if a != [] {
      PlainPrefix(a[1..], b);
      assert (a + b)[1..] == a[1..] + b;
      PlainStep(a + b);
      calc {
        UpperAfterSeparators(a + b);
        [a[0]] + UpperAfterSeparators(a[1..] + b);
        [a[0]] + (a[1..] + UpperAfterSeparators(b));
        { assert a == [a[0]] + a[1..]; }
        a + UpperAfterSeparators(b);
      }
    } else {
      assert a + b == b;
    }
  }

  lemma PlainStep(s: string)
    requires s != [] && !IsSeparator(s[0])
    ensures UpperAfterSeparators(s) == [s[0]] + UpperAfterSeparators(s[1..])
  {
  }

  /** `<a>_<lower letter><b>` with a plain `a` and `b`: the letter is capitalised and the separator dropped. */
  lemma OneSeparator(a: string, c: char, b: string)
    requires forall i :: 0 <= i < |a| ==> !IsSeparator(a[i]) && !IsUpper(a[i])
    requires forall i :: 0 <= i < |b| ==> !IsSeparator(b[i]) && !IsUpper(b[i])
    requires IsLower(c)
    ensures SnakeToCamel(a + "_" + [c] + b) == a + [ToUpperChar(c)] + b
  {
    var s := a + "_" + [c] + b;
    assert s[|a|] == '_';
    forall i | 0 <= i < |s|
      ensures !IsUpper(s[i])
    {
      if i < |a| { assert s[i] == a[i]; }
      else if i > |a| + 1 { assert s[i] == b[i - |a| - 2]; }
    }
    ToLowerOfLowerName(s);
    PlainPrefix(a, "_" + [c] + b);
    assert s == a + ("_" + [c] + b);
    var t := "_" + [c] + b;
    assert t[2..] == b;
    PlainPrefix(b, []);
    assert b + [] == b;
  }

  /** The timestamp columns `timestamps()` declares read as `createdAt` and `updatedAt`. */
  lemma TimestampNames()
    ensures SnakeToCamel("created_at") == "createdAt"
    ensures SnakeToCamel("updated_at") == "updatedAt"
  {
    OneSeparator("created", 'a', "t");
    assert "created" + "_" + ['a'] + "t" == "created_at";
    assert "created" + [ToUpperChar('a')] + "t" == "createdAt";
    OneSeparator("updated", 'a', "t");
    assert "updated" + "_" + ['a'] + "t" == "updated_at";
    assert "updated" + [ToUpperChar('a')] + "t" == "updatedAt";
  }

  /** `node.expressions[index].name`: identifiers have a name; other nodes give `undefined`. */
  function NameText(e: Expr): string {
    if e.Ident? then e.name else "undefined"
  }

  /** What the `index`-th quasi adds: its raw text, then `${name}` while expressions remain. */
  function Piece(quasis: seq<string>, exprs: seq<Expr>, index: nat): string
    requires index < |quasis|
  {
    if index >= |exprs| then quasis[index] else quasis[index] + "${" + NameText(exprs[index]) + "}"
  }

  /** The text after the first `n` quasis. */
  function TemplateFrom(quasis: seq<string>, exprs: seq<Expr>, n: nat): string
    requires n <= |quasis|
  {
    if n == 0 then "" else TemplateFrom(quasis, exprs, n - 1) + Piece(quasis, exprs, n - 1)
  }

  /** The template literal read back as text, each embedded expression written `${name}`. */
  function TemplateText(quasis: seq<string>, exprs: seq<Expr>): string {
    TemplateFrom(quasis, exprs, |quasis|)
  }

  /** The `forEach` over the quasis. */
  method TemplateValue(quasis: seq<string>, exprs: seq<Expr>) returns (value: string)
    ensures value == TemplateText(quasis, exprs)
  {
    value := "";
    var index := 0;
    while index < |quasis|
      invariant 0 <= index <= |quasis|
      invariant value == TemplateFrom(quasis, exprs, index)
    {
      if index >= |exprs| {
        value := value + quasis[index];
      } else {
        value := value + quasis[index] + "${" + NameText(exprs[index]) + "}";
      }
      index := index + 1;
    }
  }

  /** The text is the pieces one after the other. */
  lemma {:induction false} TemplateIsPieces(quasis: seq<string>, exprs: seq<Expr>, n: nat)
    requires n <= |quasis|
    ensures TemplateFrom(quasis, exprs, n) == Concat(seq(n, i requires 0 <= i < n => Piece(quasis, exprs, i)))
  {
    var ps := seq(n, i requires 0 <= i < n => Piece(quasis, exprs, i));
    if n > 0 {
      TemplateIsPieces(quasis, exprs, n - 1);
      var init := seq(n - 1, i requires 0 <= i < n - 1 => Piece(quasis, exprs, i));
      assert ps == init + [Piece(quasis, exprs, n - 1)];
      ConcatSnoc(init, Piece(quasis, exprs, n - 1));
    }
  }

  lemma {:induction false} ConcatSnoc(xs: seq<string>, x: string)
    ensures Concat(xs + [x]) == Concat(xs) + x
  {
    if xs != [] {
      assert (xs + [x])[1..] == xs[1..] + [x];
      ConcatSnoc(xs[1..], x);
    } else {
      assert [x][1..] == [];
    }
  }

  /** Without embedded expressions the text is the quasis joined. */
  lemma {:induction false} TemplateWithoutExpressions(quasis: seq<string>, n: nat)
    requires n <= |quasis|
    ensures TemplateFrom(quasis, [], n) == Concat(quasis[..n])
  {
    if n > 0 {
      TemplateWithoutExpressions(quasis, n - 1);
      assert quasis[..n] == quasis[..n - 1] + [quasis[n - 1]];
      ConcatSnoc(quasis[..n - 1], quasis[n - 1]);
    }
  }

  /** `getStringValue`: a string literal's text, a template's text, and `unknown` otherwise. */
  function GetStringValue(e: Expr): string {
    match e
    case Str(v) => v
    case Template(q, es) => TemplateText(q, es)
    case _ => "unknown"
  }

  /** `text.split(sep).pop()`: what follows the last occurrence of `sep`. */
  function AfterLast(s: string, sep: string): string
    requires sep != []
    decreases |s|
  {
    var i := IndexOf(s, sep);
    if i < 0 then s else AfterLast(s[i + |sep|..], sep)
  }

  /** The piece is a suffix of the text and holds no `sep`; it is the whole text exactly when there is none. */
  lemma {:induction false} AfterLastSpec(s: string, sep: string)
    requires sep != []
    ensures var r := AfterLast(s, sep);
      |r| <= |s| && s[|s| - |r|..] == r && IndexOf(r, sep) == -1 &&
      (r == s <==> IndexOf(s, sep) == -1)
    decreases |s|
  {
    var i := IndexOf(s, sep);
    if i >= 0 {
      var t := s[i + |sep|..];
      AfterLastSpec(t, sep);
      var r := AfterLast(t, sep);
      assert s[|s| - |r|..] == t[|t| - |r|..];
    }
  }

  /** `split('/').join('')`: every `/` removed. */
  function WithoutSlashes(s: string): (r: string)
    ensures '/' !in r
    ensures forall c :: c != '/' ==> (c in r <==> c in s)
  {
    Filter(s, (c: char) => c != '/')
  }

  /** The first top-level `return` of a body, if any. */
  function FirstReturn(body: seq<Stmt>): Option<Expr> {
    if body == [] then None else if body[0].Return? then Some(body[0].arg) else FirstReturn(body[1..])
  }

  /**
   * `j.literal(getStringValueFromReturn(getter))`: the literal the getter returns
   * (a template read as text).  None where the source throws: no `return`, or a
   * returned node without a value for `j.literal`.
   */
  function ReturnedLiteral(body: seq<Stmt>): (r: Option<Expr>)
    ensures r.Some? ==> r.value.Str? || (r.value.Lit? && r.value.raw != "null")
  {
    match FirstReturn(body)
    case None => None
    case Some(arg) =>
      match arg
      case Template(q, es) => if q != [] then Some(Str(TemplateText(q, es))) else None
      case Str(v) => Some(Str(v))
      case Lit(raw) => if raw == "null" then None else Some(Lit(raw))
      case _ => None
  }

  /** A getter returning a string gives that string; a body without `return` throws. */
  lemma ReturnedLiteralCases(v: string, body: seq<Stmt>)
    ensures ReturnedLiteral([Return(Str(v))] + body) == Some(Str(v))
    ensures (forall i :: 0 <= i < |body| ==> !body[i].Return?) ==> ReturnedLiteral(body).None?
  {
    if forall i :: 0 <= i < |body| ==> !body[i].Return? {
      NoReturn(body);
    }
  }

  lemma {:induction false} NoReturn(body: seq<Stmt>)
    requires forall i :: 0 <= i < |body| ==> !body[i].Return?
    ensures FirstReturn(body).None?
  {
    if body != [] {
      NoReturn(body[1..]);
    }
  }

  // ================================================================ @column

  function P(key: string, value: Expr): Prop {
    Prop(Ident(key), value, false, false, [])
  }

  /** A parameter with a type annotation, `value: <type>`. */
  function TypedValue(ty: string): Expr {
    ParamProp("", "value", ty)
  }

  function JsonCall(name: string): Expr {
    Call(Member(Ident("JSON"), Ident(name), false), [Ident("value")])
  }

  /** `prepare: (value: object) => JSON.stringify(value)` */
  function PrepareProp(): Prop {
    P("prepare", Func([TypedValue("object")], [Return(JsonCall("stringify"))], true, false))
  }

  /** `consume: (value: string) => typeof value === 'string' ? JSON.parse(value) : value` */
  function ConsumeProp(): Prop {
    var test := OtherExpr("BinaryExpression ===", [OtherExpr("UnaryExpression typeof", [Ident("value")]), Str("string")]);
    P("consume", Func([TypedValue("string")], [Return(OtherExpr("ConditionalExpression", [test, JsonCall("parse"), Ident("value")]))], true, false))
  }

  /** `serialize: (value: DateTime | null) => value ? value.setZone('utc').toISO() : value` */
  function SerializeProp(): Prop {
    var iso := Call(Member(Call(Member(Ident("value"), Ident("setZone"), false), [Str("utc")]), Ident("toISO"), false), []);
    P("serialize", Func([TypedValue("DateTime | null")], [Return(OtherExpr("ConditionalExpression", [Ident("value"), iso, Ident("value")]))], true, false))
  }

  /** The options of a column's decorator. */
  function ColumnOptions(key: string, ty: string): seq<Prop> {
    OptionsFor(key, SnakeToCamel(key), ty)
  }

  /** The options for a column whose name reads `camel` in camel case. */
  function OptionsFor(key: string, camel: string, ty: string): seq<Prop> {
    NameOptions(key) + CreateOptions(camel) + UpdateOptions(camel) + ConvertOptions(ty)
  }

  function NameOptions(key: string): seq<Prop> {
    [P("columnName", Str(key)), P("serializeAs", Str(key))]
  }

  function CreateOptions(camel: string): seq<Prop> {
    if camel == "createdAt" || camel == "updatedAt" then [P("autoCreate", Lit("true"))] else []
  }

  function UpdateOptions(camel: string): seq<Prop> {
    if camel == "updatedAt" then [P("autoUpdate", Lit("true"))] else []
  }

  function ConvertOptions(ty: string): seq<Prop> {
    if ty == "object" then [PrepareProp(), ConsumeProp()] else if ty == "DateTime" then [SerializeProp()] else []
  }

  /** `@column(...)`, or `@column.dateTime(...)` for a `DateTime` column. */
  function ColumnDecorator(key: string, ty: string): Expr {
    var callee := if ty == "DateTime" then Member(Ident("column"), Ident("dateTime"), false) else Ident("column");
    Call(callee, [Object(ColumnOptions(key, ty))])
  }

  /** `@column(...) public <key>: <type>` */
  function ColumnField(c: Pair<string>): ClassMember {
    FieldDef(c.key, None, false, [ColumnDecorator(c.key, c.val)], c.val)
  }

  function ColumnFields(cs: Columns): (r: seq<ClassMember>)
    ensures |r| == |cs|
  {
    seq(|cs|, i requires 0 <= i < |cs| => ColumnField(cs[i]))
  }

  function OptionNames(ps: seq<Prop>): seq<string> {
    seq(|ps|, i requires 0 <= i < |ps| => NameOf(ps[i].key))
  }

  lemma OptionNamesAppend(a: seq<Prop>, b: seq<Prop>)
    ensures OptionNames(a + b) == OptionNames(a) + OptionNames(b)
  {
    assert forall i :: 0 <= i < |a + b| ==> OptionNames(a + b)[i] == (OptionNames(a) + OptionNames(b))[i];
  }

  /**
   * Every column keeps its name for the database and for serialisation; the
   * timestamp options follow the camel-case name; objects get `prepare`/`consume`
   * and dates `serialize` with the `column.dateTime` decorator.
   */
  lemma ColumnOptionsSpec(key: string, ty: string)
    ensures var ps := ColumnOptions(key, ty);
      var names := OptionNames(ps);
      var camel := SnakeToCamel(key);
      |ps| >= 2 && ps[0] == P("columnName", Str(key)) && ps[1] == P("serializeAs", Str(key)) &&
      ("autoCreate" in names <==> camel == "createdAt" || camel == "updatedAt") &&
      ("autoUpdate" in names <==> camel == "updatedAt") &&
      ("prepare" in names <==> ty == "object") && ("consume" in names <==> ty == "object") &&
      ("serialize" in names <==> ty == "DateTime")
  {
    OptionsForSpec(key, SnakeToCamel(key), ty);
  }

  lemma OptionsForSpec(key: string, camel: string, ty: string)
    ensures var ps := OptionsFor(key, camel, ty);
      var names := OptionNames(ps);
      |ps| >= 2 && ps[0] == P("columnName", Str(key)) && ps[1] == P("serializeAs", Str(key)) &&
      ("autoCreate" in names <==> camel == "createdAt" || camel == "updatedAt") &&
      ("autoUpdate" in names <==> camel == "updatedAt") &&
      ("prepare" in names <==> ty == "object") && ("consume" in names <==> ty == "object") &&
      ("serialize" in names <==> ty == "DateTime")
  {
    OptionsForNames(key, camel, ty);
    NamesForTimestamps(camel, ty);
    NamesForConversions(camel, ty);
  }

  lemma NamesForTimestamps(camel: string, ty: string)
    ensures var names := NamesFor(camel, ty);
      ("autoCreate" in names <==> camel == "createdAt" || camel == "updatedAt") &&
      ("autoUpdate" in names <==> camel == "updatedAt")
  {
  }

  lemma NamesForConversions(camel: string, ty: string)
    ensures var names := NamesFor(camel, ty);
      ("prepare" in names <==> ty == "object") && ("consume" in names <==> ty == "object") &&
      ("serialize" in names <==> ty == "DateTime")
  {
  }

  /** The option names, group by group. */
  function NamesFor(camel: string, ty: string): seq<string> {
    ["columnName", "serializeAs"] + CreateNames(camel) + UpdateNames(camel) + ConvertNames(ty)
  }

  function CreateNames(camel: string): seq<string> {
    if camel == "createdAt" || camel == "updatedAt" then ["autoCreate"] else []
  }

  function UpdateNames(camel: string): seq<string> {
    if camel == "updatedAt" then ["autoUpdate"] else []
  }

  function ConvertNames(ty: string): seq<string> {
    if ty == "object" then ["prepare", "consume"] else if ty == "DateTime" then ["serialize"] else []
  }

  lemma OptionsForNames(key: string, camel: string, ty: string)
    ensures OptionNames(OptionsFor(key, camel, ty)) == NamesFor(camel, ty)
  {
    var a, b, c, d := NameOptions(key), CreateOptions(camel), UpdateOptions(camel), ConvertOptions(ty);
    OptionNamesAppend(a, b);
    OptionNamesAppend(a + b, c);
    OptionNamesAppend(a + b + c, d);
    assert OptionNames(a) == ["columnName", "serializeAs"];
    assert OptionNames(b) == CreateNames(camel);
    assert OptionNames(c) == UpdateNames(camel);
    ConvertNamesOf(ty);
  }

  lemma ConvertNamesOf(ty: string)
    ensures OptionNames(ConvertOptions(ty)) == ConvertNames(ty)
  {
    if ty == "object" {
      assert OptionNames([PrepareProp(), ConsumeProp()]) == ["prepare", "consume"];
    } else if ty == "DateTime" {
      assert OptionNames([SerializeProp()]) == ["serialize"];
    }
  }

  /** After `timestamps()`, `created_at` is created automatically and `updated_at` is also updated. */
  lemma TimestampDecorators()
    ensures var c := OptionNames(ColumnOptions("created_at", "DateTime"));
      "autoCreate" in c && "autoUpdate" !in c && "serialize" in c
    ensures var u := OptionNames(ColumnOptions("updated_at", "DateTime"));
      "autoCreate" in u && "autoUpdate" in u && "serialize" in u
    ensures ColumnDecorator("created_at", "DateTime").callee == Member(Ident("column"), Ident("dateTime"), false)
  {
    TimestampNames();
    ColumnOptionsSpec("created_at", "DateTime");
    ColumnOptionsSpec("updated_at", "DateTime");
  }
}
