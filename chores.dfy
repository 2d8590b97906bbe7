/**
 * The `adonis-chores` pass: project-specific touch-ups, each a search over the
 * whole tree, several of them only in files of one directory, then literal
 * text replacements on the printed file.  In order:
 *   1. in `*.spec.ts` files the first argument of `groupSetup.AuthHook(...)`
 *      becomes `group`;
 *   2. an awaited `<name>.reload()` statement, for a listed model name, calls
 *      `refresh` instead;
 *   3. import sources lose a leading `@provider:`;
 *   4. in `Models` and `Hooks` files `<x>.dirty` becomes `<x>.$dirty`;
 *   5. in `Repositories` files each `class ... extends RepositoriesAbstract`
 *      turns its `@inject([...])` paths into default imports, inserted through
 *      the import cursor, and into constructor code;
 *   6. in `start/events` files a string starting with `@provider:` gets `/`
 *      in place of that prefix, and 7. in `start` files loses it;
 *   8. in `Controllers/Http` files `const x = request.params.<n>` becomes
 *      `request.param('<n>')`, and 9. `const x = request.params` becomes
 *      `request.params()`;
 *  10. `Event.fire(...)` becomes `Event.emit(...)`;
 *  11. the printed text goes through the replacement tables.
 * Where the source throws, the model answers `None`.
 */
module Chores {
  import opened Ast
  import opened Traverse
  import opened Strings
  import opened Utils
  import opened Cursor

  // ================================================================ file-name guards

  /** `s.split(c)[0]`: what precedes the first `c` (all of `s` when there is none). */
  function BeforeFirst(s: string, c: char): string {
    if s == [] || s[0] == c then [] else [s[0]] + BeforeFirst(s[1..], c)
  }

  lemma {:induction false} BeforeFirstSpec(s: string, c: char)
    ensures var r := BeforeFirst(s, c);
      c !in r && |r| <= |s| && s[..|r|] == r && (|r| < |s| ==> s[|r|] == c)
  {
    if s != [] && s[0] != c {
      BeforeFirstSpec(s[1..], c);
      var r := BeforeFirst(s[1..], c);
      assert BeforeFirst(s, c) == [s[0]] + r;
      assert s[..|r| + 1] == [s[0]] + s[1..][..|r|];
    }
  }

  /** `fileName.split('/').pop().split('.')[0]`: the base name up to its first dot. */
  function Stem(fileName: string): string {
    BeforeFirst(LastSegment(fileName), '.')
  }

  /** The source's directory guard, `fileName.endsWith('/<dir>/<stem>.ts')`. */
  predicate InDirectory(fileName: string, dir: string) {
    EndsWith(fileName, "/" + dir + "/" + Stem(fileName) + ".ts")
  }

  /** `fileName` is `<prefix>/<dir>/<stem>.ts`, with a base name holding one dot. */
  ghost predicate NamedIn(fileName: string, dir: string, prefix: string, stem: string) {
    fileName == prefix + "/" + dir + "/" + stem + ".ts" && '/' !in stem && '.' !in stem
  }

  lemma {:induction false} LastSegmentAfter(a: string, b: string)
    requires '/' !in b
    ensures LastSegment(a + "/" + b) == b
    decreases |b|
  {
    var path := a + "/" + b;
    if b == [] {
      assert path[|path| - 1] == '/';
    } else {
      var init := b[..|b| - 1];
      LastSegmentAfter(a, init);
      assert path[..|path| - 1] == a + "/" + init;
      assert path[|path| - 1] == b[|b| - 1];
      assert init + [b[|b| - 1]] == b;
    }
  }

  lemma {:induction false} BeforeFirstDot(stem: string)
    requires '.' !in stem
    ensures BeforeFirst(stem + ".ts", '.') == stem
    decreases |stem|
  {
    if stem != [] {
      BeforeFirstDot(stem[1..]);
      assert (stem + ".ts")[1..] == stem[1..] + ".ts";
      assert [stem[0]] + stem[1..] == stem;
    }
  }

  /**
   * The guard holds exactly of the files `<prefix>/<dir>/<stem>.ts` whose base
   * name has no other dot: `Models/User.ts` passes, `Models/User.spec.ts` does not.
   */
  lemma {:induction false} InDirectoryIff(fileName: string, dir: string)
    ensures InDirectory(fileName, dir) <==> exists prefix, stem :: NamedIn(fileName, dir, prefix, stem)
  {
    if InDirectory(fileName, dir) {
      GuardNamesFile(fileName, dir);
    }
    if exists prefix, stem :: NamedIn(fileName, dir, prefix, stem) {
      var prefix, stem :| NamedIn(fileName, dir, prefix, stem);
      NamedFilePassesGuard(fileName, dir, prefix, stem);
    }
  }

  lemma {:induction false} GuardNamesFile(fileName: string, dir: string)
    requires InDirectory(fileName, dir)
    ensures NamedIn(fileName, dir, fileName[..|fileName| - |"/" + dir + "/" + Stem(fileName) + ".ts"|], Stem(fileName))
  {
    StemIsPlain(fileName);
    var suffix := "/" + dir + "/" + Stem(fileName) + ".ts";
    assert fileName == fileName[..|fileName| - |suffix|] + suffix;
  }

  /** The base name up to its first dot holds neither a slash nor a dot. */
  lemma {:induction false} StemIsPlain(fileName: string)
    ensures '/' !in Stem(fileName) && '.' !in Stem(fileName)
  {
    var seg := LastSegment(fileName);
    var stem := BeforeFirst(seg, '.');
    LastSegmentSpec(fileName);
    BeforeFirstSpec(seg, '.');
    forall i | 0 <= i < |stem|
      ensures stem[i] != '/'
    {
      assert stem[i] == seg[..|stem|][i] == seg[i];
    }
  }

  lemma {:induction false} NamedFilePassesGuard(fileName: string, dir: string, prefix: string, stem: string)
    requires NamedIn(fileName, dir, prefix, stem)
    ensures InDirectory(fileName, dir)
  {
    var base := stem + ".ts";
    assert '/' !in base;
    assert fileName == (prefix + "/" + dir) + "/" + base;
    LastSegmentAfter(prefix + "/" + dir, base);
    BeforeFirstDot(stem);
    assert Stem(fileName) == stem;
  }

  // ================================================================ 11. text replacement

  /** One entry of a replacement table: `key` is replaced by `value`. */
  datatype Swap = Swap(key: string, value: string)

  /**
   * A loop that applies `step` until it reports `None`: the final value, or
   * `None` when more than `fuel` rounds would be needed.
   */
  function Rounds(text: string, step: string -> Option<string>, fuel: nat): Option<string>
    decreases fuel
  {
    match step(text)
    case None => Some(text)
    case Some(next) => if fuel == 0 then None else Rounds(next, step, fuel - 1)
  }

  /** A loop that finishes stops where `step` has nothing more to do. */
  lemma {:induction false} RoundsStop(text: string, step: string -> Option<string>, fuel: nat)
    requires Rounds(text, step, fuel).Some?
    ensures step(Rounds(text, step, fuel).value).None?
    decreases fuel
  {
    if step(text).Some? {
      RoundsStop(step(text).value, step, fuel - 1);
    }
  }

  /** The bound only cuts the loop short: with more rounds allowed, a finished loop ends the same. */
  lemma {:induction false} RoundsMoreFuel(text: string, step: string -> Option<string>, fuel: nat, more: nat)
    requires fuel <= more && Rounds(text, step, fuel).Some?
    ensures Rounds(text, step, more) == Rounds(text, step, fuel)
    decreases fuel
  {
    if step(text).Some? {
      RoundsMoreFuel(step(text).value, step, fuel - 1, more - 1);
    }
  }

  /** A step that always shortens the text ends within as many rounds as the text is long. */
  lemma {:induction false} ShrinkingRoundsFinish(text: string, step: string -> Option<string>)
    requires forall t :: step(t).Some? ==> |step(t).value| < |t|
    ensures Rounds(text, step, |text|).Some?
    decreases |text|
  {
    if step(text).Some? {
      var next := step(text).value;
      ShrinkingRoundsFinish(next, step);
      RoundsMoreFuel(next, step, |next|, |text| - 1);
    }
  }

  /** One round of the source's loop: the first occurrence of `key` replaced, or `None` when there is none. */
  function ReplaceOnce(text: string, key: string, value: string): (r: Option<string>)
    ensures r.None? <==> IndexOf(text, key) == -1
    ensures r.Some? ==> |r.value| == |text| - |key| + |value|
  {
    if IndexOf(text, key) < 0 then None else Some(ReplaceFirst(text, key, value))
  }

  /**
   * `replace` for one key: the first occurrence, searching from the start of
   * the current text, is replaced until none is left.  The source's loop need
   * not end (a value can recreate its key); the model counts rounds and answers
   * `None` after `fuel` of them.
   */
  function ReplaceKey(text: string, key: string, value: string, fuel: nat): (r: Option<string>)
    ensures IndexOf(text, key) == -1 ==> r == Some(text)
    ensures r.Some? ==> IndexOf(r.value, key) == -1
  {
    var step := t => ReplaceOnce(t, key, value);
    if Rounds(text, step, fuel).Some? then
      RoundsStop(text, step, fuel);
      Rounds(text, step, fuel)
    else None
  }

  /** One round of the loop, as the method takes it. */
  lemma ReplaceKeyStep(text: string, key: string, value: string, fuel: nat)
    requires IndexOf(text, key) >= 0
    ensures fuel == 0 ==> ReplaceKey(text, key, value, fuel) == None
    ensures fuel > 0 ==> ReplaceKey(text, key, value, fuel) == ReplaceKey(ReplaceFirst(text, key, value), key, value, fuel - 1)
  {
    var step := t => ReplaceOnce(t, key, value);
    assert step(text) == Some(ReplaceFirst(text, key, value));
  }

  /** The bound only cuts the loop short: with more rounds allowed, a finished replacement is the same. */
  lemma {:induction false} ReplaceKeyMoreFuel(text: string, key: string, value: string, fuel: nat, more: nat)
    requires fuel <= more && ReplaceKey(text, key, value, fuel).Some?
    ensures ReplaceKey(text, key, value, more) == ReplaceKey(text, key, value, fuel)
  {
    RoundsMoreFuel(text, t => ReplaceOnce(t, key, value), fuel, more);
  }

  /** A value shorter than its key shrinks the text each round, so the loop ends. */
  lemma {:induction false} ShorterValueFinishes(text: string, key: string, value: string)
    requires |value| < |key|
    ensures ReplaceKey(text, key, value, |text|).Some?
  {
    var step := t => ReplaceOnce(t, key, value);
    forall t | step(t).Some?
      ensures |step(t).value| < |t|
    {
      assert step(t) == ReplaceOnce(t, key, value);
    }
    ShrinkingRoundsFinish(text, step);
  }

  /** The rest of a table applied after a replacement that may have stopped. */
  function ReplacesAfter(o: Option<string>, table: seq<Swap>, fuel: nat): Option<string>
    decreases table, 1
  {
    match o
    case None => None
    case Some(t) => Replaces(t, table, fuel)
  }

  /** `replace(text, table)`: the keys one after another, in table order. */
  function Replaces(text: string, table: seq<Swap>, fuel: nat): Option<string>
    decreases table, 0
  {
    if table == [] then Some(text)
    else ReplacesAfter(ReplaceKey(text, table[0].key, table[0].value, fuel), table[1..], fuel)
  }

  /** A text in which no key of the table occurs comes back unchanged. */
  lemma {:induction false} ReplacesUnchanged(text: string, table: seq<Swap>, fuel: nat)
    requires forall i :: 0 <= i < |table| ==> IndexOf(text, table[i].key) == -1
    ensures Replaces(text, table, fuel) == Some(text)
    decreases table
  {
    if table != [] {
      assert ReplaceKey(text, table[0].key, table[0].value, fuel) == Some(text);
      forall i | 0 <= i < |table[1..]|
        ensures IndexOf(text, table[1..][i].key) == -1
      {
        assert table[1..][i] == table[i + 1];
      }
      ReplacesUnchanged(text, table[1..], fuel);
    }
  }

  /** Two tables applied one after the other are their concatenation applied once. */
  lemma {:induction false} ReplacesAppend(text: string, t1: seq<Swap>, t2: seq<Swap>, fuel: nat)
    ensures Replaces(text, t1 + t2, fuel) == ReplacesAfter(Replaces(text, t1, fuel), t2, fuel)
    decreases t1
  {
    if t1 == [] {
      assert t1 + t2 == t2;
    } else {
      assert (t1 + t2)[0] == t1[0] && (t1 + t2)[1..] == t1[1..] + t2;
      var o := ReplaceKey(text, t1[0].key, t1[0].value, fuel);
      if o.Some? {
        ReplacesAppend(o.value, t1[1..], t2, fuel);
      }
    }
  }

  /** After a finished replacement, the table's last key occurs nowhere. */
  lemma {:induction false} LastKeyGone(text: string, table: seq<Swap>, last: Swap, fuel: nat)
    requires Replaces(text, table + [last], fuel).Some?
    ensures IndexOf(Replaces(text, table + [last], fuel).value, last.key) == -1
  {
    ReplacesAppend(text, table, [last], fuel);
    var t := Replaces(text, table, fuel).value;
    var o := ReplaceKey(t, last.key, last.value, fuel);
    assert [last][0] == last && [last][1..] == [];
    assert Replaces(t, [last], fuel) == ReplacesAfter(o, [], fuel);
    if o.Some? {
      assert ReplacesAfter(o, [], fuel) == o;
    }
  }

  /** The source's inner loop for one key, with the rounds counted against `fuel`. */
  method ReplaceAll(text: string, key: string, value: string, fuel: nat) returns (r: Option<string>)
    ensures r == ReplaceKey(text, key, value, fuel)
  {
    var t := text;
    var rounds := 0;
    var i := IndexOf(t, key);
    while i > -1
      invariant rounds <= fuel
      invariant i == IndexOf(t, key)
      invariant ReplaceKey(t, key, value, fuel - rounds) == ReplaceKey(text, key, value, fuel)
      decreases fuel - rounds
    {
      ReplaceKeyStep(t, key, value, fuel - rounds);
      if rounds == fuel {
        return None;
      }
      t := Splice(t, i, key, value);
      rounds := rounds + 1;
      i := IndexOf(t, key);
    }
    r := Some(t);
  }

  /** `text.substring(0, i) + value + text.substr(i + key.length)` at the first occurrence `i`. */
  method Splice(text: string, i: int, key: string, value: string) returns (r: string)
    requires 0 <= i && i == IndexOf(text, key)
    ensures r == ReplaceFirst(text, key, value)
  {
    r := text[..i] + value + text[i + |key|..];
  }

  /** The source's `replace`: keys in table order, each replaced from the front until it is gone. */
  method ReplaceText(text: string, table: seq<Swap>, fuel: nat) returns (r: Option<string>)
    ensures r == Replaces(text, table, fuel)
  {
    var t := text;
    var k := 0;
    while k < |table|
      invariant 0 <= k <= |table|
      invariant Replaces(t, table[k..], fuel) == Replaces(text, table, fuel)
    {
      var o := ReplaceAll(t, table[k].key, table[k].value, fuel);
      assert table[k..][1..] == table[k + 1..];
      if o.None? {
        return None;
      }
      t := o.value;
      k := k + 1;
    }
    r := Some(t);
  }

  /** The replacements made in every file. */
  const CommonSwaps: seq<Swap> := [
    Swap("await thirdParty.sourceStaffs().fetch();", "await thirdParty.related('sourceStaffs').query();"),
    Swap("import MomentRange from 'moment-range';", "import { extendMoment } from 'moment-range';"),
    Swap("const moment = MomentRange.extendMoment(Moment);", "const moment = extendMoment(Moment);")
  ]

  /** The replacements made in `Services/TargetSystemService.ts`. */
  const TargetSystemSwaps: seq<Swap> := [
    Swap("links.rows.forEach(async (item) => {", "links.forEach(async (item) => {"),
    Swap("for (const item of links.rows) {", "for (const item of links) {")
  ]

  /** The replacements made in the factory files. */
  const FakerSwaps: seq<Swap> := [
    Swap("faker.username()", "faker.internet.userName()"),
    Swap("faker.fbid()", "faker.datatype.uuid()"),
    Swap("faker.name()", "faker.name.findName()"),
    Swap("faker.paragraph()", "faker.lorem.paragraph()"),
    Swap("faker.url({ extensions: ['gif', 'jpg', 'png'] })", "faker.image.avatar()"),
    Swap("faker.phone({ formatted: false })", "faker.phone.phoneNumber('##########')"),
    Swap("faker.birthday({ string: true })", "faker.date.past()"),
    Swap("faker.pickone([0, 1])", "faker.helpers.arrayElement([0, 1])"),
    Swap("faker.email()", "faker.internet.email()"),
    Swap("faker.sentence()", "faker.lorem.sentence()"),
    Swap("faker.sentence({ words: 15 })", "faker.lorem.sentence(15)"),
    Swap("faker.url()", "faker.image.avatar()"),
    Swap("faker.natural()", "faker.random.number()"),
    Swap("faker.integer({ min: 0, max: 6 })", "faker.random.number({ min: 0, max: 6 })"),
    Swap("faker.integer({ min: 1, max: 54 })", "faker.random.number({ min: 1, max: 54 })"),
    Swap("faker.integer({ min: 0, max: 1 })", "faker.random.number({ min: 0, max: 1 })"),
    Swap("faker.pickone(['KIDS', 'CLEAN_MARK'])", "faker.helpers.arrayElement(['KIDS', 'CLEAN_MARK'])"),
    Swap("faker.word()", "faker.word.noun()"),
    Swap("faker.pickone(['CORONA_NAILIST'])", "faker.helpers.arrayElement(['CORONA_NAILIST'])"),
    Swap("faker.integer({ min: 0, max: 100 })", "faker.random.number({ min: 0, max: 100 })"),
    Swap("faker.floating({ min: 1000, max: 10000, fixed: 2 })", "faker.datatype.float({ min: 1000, max: 10000, precision: 0.01 })"),
    Swap("faker.floating({ min: 0, max: 5000, fixed: 2 })", "faker.datatype.float({ min: 0, max: 5000, precision: 0.01 })"),
    Swap("faker.floating({ min: 500, max: 5000, fixed: 2 })", "faker.datatype.float({ min: 500, max: 5000, precision: 0.01 })")
  ]

  predicate IsTargetSystemService(fileName: string) {
    EndsWith(fileName, "Services/TargetSystemService.ts")
  }

  predicate IsFactoryFile(fileName: string) {
    EndsWith(fileName, "database/factory.ts") || EndsWith(fileName, "factories/index.ts")
  }

  /** The three `replace` calls on the printed text, each table only where its guard holds. */
  function ReplacedText(text: string, fileName: string, fuel: nat): Option<string> {
    var t1 := Replaces(text, CommonSwaps, fuel);
    var t2 := if IsTargetSystemService(fileName) then ReplacesAfter(t1, TargetSystemSwaps, fuel) else t1;
    if IsFactoryFile(fileName) then ReplacesAfter(t2, FakerSwaps, fuel) else t2
  }

  /** Every table that applies to a file, in the order the source applies them. */
  function SwapsFor(fileName: string): seq<Swap> {
    CommonSwaps +
    (if IsTargetSystemService(fileName) then TargetSystemSwaps else []) +
    (if IsFactoryFile(fileName) then FakerSwaps else [])
  }

  /** The three calls amount to one `replace` over the tables that apply, concatenated. */
  lemma {:induction false} ReplacedTextIsOneTable(text: string, fileName: string, fuel: nat)
    ensures ReplacedText(text, fileName, fuel) == Replaces(text, SwapsFor(fileName), fuel)
  {
    var ts := if IsTargetSystemService(fileName) then TargetSystemSwaps else [];
    var fs := if IsFactoryFile(fileName) then FakerSwaps else [];
    ReplacesAppend(text, CommonSwaps + ts, fs, fuel);
    ReplacesAppend(text, CommonSwaps, ts, fuel);
    var t1 := Replaces(text, CommonSwaps, fuel);
    assert ReplacesAfter(t1, [], fuel) == t1;
    var t2 := ReplacesAfter(t1, ts, fuel);
    assert ReplacesAfter(t2, [], fuel) == t2;
  }

  // ================================================================ 1. groupSetup.AuthHook in spec files

  predicate IsAuthHook(e: Expr) {
    e.Call? && e.callee.Member? && IsIdent(e.callee.obj, "groupSetup") && IsIdent(e.callee.prop, "AuthHook")
  }

  /** `arguments[0] = group`, which appends when there is no argument. */
  function GroupFirst(args: seq<Expr>): seq<Expr> {
    [Ident("group")] + (if args == [] then [] else args[1..])
  }

  function AuthHookRule(e: Expr): Expr {
    if IsAuthHook(e) then Call(e.callee, GroupFirst(e.args)) else e
  }

  function AuthHookRules(): Rules {
    Rules(AuthHookRule, (s, top) => [s])
  }

  predicate GroupIsFirst(n: Node) {
    n.NE? && IsAuthHook(n.e) ==> n.e.args != [] && n.e.args[0] == Ident("group")
  }

  lemma {:induction false} AuthHookClean(e: Expr)
    requires KidsCollE(e, Violations(GroupIsFirst)) == []
    ensures CollE(AuthHookRule(e), Violations(GroupIsFirst)) == []
  {
    var v := Violations(GroupIsFirst);
    if IsAuthHook(e) {
      var rest := if e.args == [] then [] else e.args[1..];
      var args := [Ident("group")] + rest;
      var t := Call(e.callee, args);
      assert CollE(e.callee, v) == [] && CollEs(e.args, v) == [];
      if e.args != [] {
        assert CollEs(e.args, v) == CollE(e.args[0], v) + CollEs(e.args[1..], v);
      }
      assert CollEs(rest, v) == [];
      LeafClean(GroupIsFirst, Ident("group"));
      assert args[0] == Ident("group") && args[1..] == rest;
      assert CollEs(args, v) == CollE(args[0], v) + CollEs(args[1..], v);
      assert KidsCollE(t, v) == [];
      assert GroupIsFirst(NE(t));
    } else {
      assert GroupIsFirst(NE(e));
    }
  }

  lemma AuthHookEstablishes()
    ensures Establishes(AuthHookRules(), GroupIsFirst) && EstablishesAtTop(AuthHookRules(), GroupIsFirst)
  {
    var v := Violations(GroupIsFirst);
    forall e: Expr | KidsCollE(e, v) == []
      ensures CollE(AuthHookRules().fe(e), v) == []
    {
      AuthHookClean(e);
    }
    forall s: Stmt, top: bool | KidsCollS(s, v) == []
      ensures CollSs(AuthHookRules().fs(s, top), v) == []
    {
      assert CollSs([s], v) == CollS(s, v);
    }
  }

  lemma AuthHookFixes()
    ensures Fixes(AuthHookRules(), GroupIsFirst)
  {
    forall e: Expr | GroupIsFirst(NE(e))
      ensures AuthHookRule(e) == e
    {
      if IsAuthHook(e) {
        assert GroupFirst(e.args) == e.args;
      }
    }
  }

  /** In a spec file every `groupSetup.AuthHook(...)` call, at any depth, takes `group` first. */
  lemma {:induction false} AuthHookTakesGroup(body: seq<Stmt>)
    ensures EverySs(GroupIsFirst, MapSs(body, true, AuthHookRules()))
  {
    AuthHookEstablishes();
    EstablishSs(body, true, AuthHookRules(), GroupIsFirst);
  }

  /** Running step 1 again changes nothing. */
  lemma {:induction false} AuthHookIdempotent(body: seq<Stmt>)
    ensures MapSs(MapSs(body, true, AuthHookRules()), true, AuthHookRules()) == MapSs(body, true, AuthHookRules())
  {
    AuthHookTakesGroup(body);
    AuthHookFixes();
    FixSs(MapSs(body, true, AuthHookRules()), true, AuthHookRules(), GroupIsFirst);
  }

  // ================================================================ 2. reload() -> refresh()

  /** The model instances whose `reload()` is renamed. */
  const CalleeNames: seq<string> := [
    "result", "salon", "booking", "bookingOfTargetSystem", "notification", "customer",
    "bookingReport", "saleReport", "staffReport", "item", "thirdPartyStaff", "salonSchedule",
    "service", "connection", "staff", "schedule", "schedule1", "schedule2", "scheduleDaily",
    "thirdParty", "otherThirdParty"
  ]

  /** The statement `await <name>.reload(...)` for a listed name. */
  predicate IsReload(s: Stmt) {
    s.ExprStmt? && s.expr.Await? && s.expr.arg.Call? && s.expr.arg.callee.Member? &&
    s.expr.arg.callee.obj.Ident? && s.expr.arg.callee.obj.name in CalleeNames &&
    IsIdent(s.expr.arg.callee.prop, "reload")
  }

  function ReloadRule(s: Stmt): Stmt {
    if IsReload(s) then
      var call := s.expr.arg;
      ExprStmt(Await(Call(Member(call.callee.obj, Ident("refresh"), call.callee.computed), call.args)), s.comments)
    else s
  }

  function ReloadRules(): Rules {
    Rules(e => e, (s, top) => [ReloadRule(s)])
  }

  predicate NoReload(n: Node) {
    n.NS? ==> !IsReload(n.s)
  }

  lemma {:induction false} ReloadClean(s: Stmt)
    requires KidsCollS(s, Violations(NoReload)) == []
    ensures CollS(ReloadRule(s), Violations(NoReload)) == []
  {
    var v := Violations(NoReload);
    if IsReload(s) {
      var aw := s.expr;
      var call := aw.arg;
      var m := call.callee;
      assert KidsCollS(s, v) == CollE(aw, v);
      assert CollE(aw, v) == v(NE(aw)) + KidsCollE(aw, v);
      assert KidsCollE(aw, v) == CollE(call, v);
      assert CollE(call, v) == v(NE(call)) + KidsCollE(call, v);
      assert KidsCollE(call, v) == CollE(m, v) + CollEs(call.args, v);
      assert CollE(m, v) == v(NE(m)) + KidsCollE(m, v);
      assert KidsCollE(m, v) == CollE(m.obj, v) + CollE(m.prop, v);
      RefreshClean(m.obj, call.args, m.computed, s.comments);
    } else {
      QuietNode(NoReload, NS(s));
    }
  }

  /** The statement the rule builds has no violation when its parts have none. */
  lemma {:induction false} RefreshClean(obj: Expr, args: seq<Expr>, computed: bool, comments: seq<Comment>)
    requires CollE(obj, Violations(NoReload)) == [] && CollEs(args, Violations(NoReload)) == []
    ensures CollS(ExprStmt(Await(Call(Member(obj, Ident("refresh"), computed), args)), comments), Violations(NoReload)) == []
  {
    var m := Member(obj, Ident("refresh"), computed);
    var aw := Await(Call(m, args));
    LeafClean(NoReload, Ident("refresh"));
    MemberClean(NoReload, obj, Ident("refresh"), computed);
    CallClean(NoReload, m, args);
    AwaitClean(NoReload, Call(m, args));
    var t := ExprStmt(aw, comments);
    assert !IsReload(t);
    QuietNode(NoReload, NS(t));
  }

  lemma ReloadEstablishes()
    ensures Establishes(ReloadRules(), NoReload) && EstablishesAtTop(ReloadRules(), NoReload)
  {
    var v := Violations(NoReload);
    forall e: Expr | KidsCollE(e, v) == []
      ensures CollE(ReloadRules().fe(e), v) == []
    {
      QuietNode(NoReload, NE(e));
      assert CollE(e, v) == v(NE(e)) + KidsCollE(e, v);
    }
    forall s: Stmt, top: bool | KidsCollS(s, v) == []
      ensures CollSs(ReloadRules().fs(s, top), v) == []
    {
      ReloadClean(s);
      assert CollSs([ReloadRule(s)], v) == CollS(ReloadRule(s), v);
    }
  }

  lemma ReloadFixes()
    ensures Fixes(ReloadRules(), NoReload)
  {
  }

  /** No awaited `<listed name>.reload()` statement is left anywhere in the file. */
  lemma {:induction false} NoReloadLeft(body: seq<Stmt>)
    ensures EverySs(NoReload, MapSs(body, true, ReloadRules()))
  {
    ReloadEstablishes();
    EstablishSs(body, true, ReloadRules(), NoReload);
  }

  /** Running step 2 again changes nothing. */
  lemma {:induction false} ReloadIdempotent(body: seq<Stmt>)
    ensures MapSs(MapSs(body, true, ReloadRules()), true, ReloadRules()) == MapSs(body, true, ReloadRules())
  {
    NoReloadLeft(body);
    ReloadFixes();
    FixSs(MapSs(body, true, ReloadRules()), true, ReloadRules(), NoReload);
  }

  // ================================================================ 3. @provider: import sources

  const ProviderPrefix := "@provider:"

  /** `value.replace('@provider:', rep)` for a value that starts with the prefix; others stay. */
  function SwapProvider(value: string, rep: string): (r: string)
    ensures StartsWith(value, ProviderPrefix) ==> r == rep + value[|ProviderPrefix|..]
    ensures !StartsWith(value, ProviderPrefix) ==> r == value
  {
    if StartsWith(value, ProviderPrefix) then
      assert OccursAt(value, ProviderPrefix, 0);
      ReplaceFirst(value, ProviderPrefix, rep)
    else value
  }

  function ProviderImportRule(s: Stmt): Stmt {
    if s.Import? then s.(source := SwapProvider(s.source, "")) else s
  }

  function ProviderImportRules(): Rules {
    Rules(e => e, (s, top) => [ProviderImportRule(s)])
  }

  /**
   * Each statement keeps its place; each import keeps its bindings and
   * comments, and its source loses a leading `@provider:`.
   */
  lemma {:induction false} ProviderImportsStripped(body: seq<Stmt>)
    ensures var r := MapSs(body, true, ProviderImportRules());
      |r| == |body| &&
      forall i :: 0 <= i < |body| ==>
        (r[i].Import? <==> body[i].Import?) &&
        (body[i].Import? ==>
           r[i].specs == body[i].specs && r[i].comments == body[i].comments &&
           r[i].source == if StartsWith(body[i].source, ProviderPrefix) then body[i].source[|ProviderPrefix|..] else body[i].source)
  {
    MapSsOneToOne(body, true, ProviderImportRules(), ProviderImportRule);
  }

  predicate NoProviderImport(n: Node) {
    n.NS? && n.s.Import? ==> !StartsWith(n.s.source, ProviderPrefix)
  }

  /** A file none of whose imports comes from `@provider:` is left as it is. */
  lemma {:induction false} ProviderImportsFixed(body: seq<Stmt>)
    requires EverySs(NoProviderImport, body)
    ensures MapSs(body, true, ProviderImportRules()) == body
  {
    assert Fixes(ProviderImportRules(), NoProviderImport);
    FixSs(body, true, ProviderImportRules(), NoProviderImport);
  }

  // ================================================================ 4. .dirty in Models and Hooks

  predicate IsDirty(e: Expr) {
    e.Member? && IsIdent(e.prop, "dirty")
  }

  function DirtyRule(e: Expr): Expr {
    if IsDirty(e) then Member(e.obj, Ident("$dirty"), e.computed) else e
  }

  function DirtyRules(): Rules {
    Rules(DirtyRule, (s, top) => [s])
  }

  predicate NoDirty(n: Node) {
    n.NE? ==> !IsDirty(n.e)
  }

  lemma {:induction false} DirtyClean(e: Expr)
    requires KidsCollE(e, Violations(NoDirty)) == []
    ensures CollE(DirtyRule(e), Violations(NoDirty)) == []
  {
    var v := Violations(NoDirty);
    if IsDirty(e) {
      var t := Member(e.obj, Ident("$dirty"), e.computed);
      assert CollE(e.obj, v) == [];
      LeafClean(NoDirty, Ident("$dirty"));
      assert KidsCollE(t, v) == [];
      assert NoDirty(NE(t));
    } else {
      assert NoDirty(NE(e));
    }
  }

  lemma DirtyEstablishes()
    ensures Establishes(DirtyRules(), NoDirty) && EstablishesAtTop(DirtyRules(), NoDirty)
  {
    var v := Violations(NoDirty);
    forall e: Expr | KidsCollE(e, v) == []
      ensures CollE(DirtyRules().fe(e), v) == []
    {
      DirtyClean(e);
    }
    forall s: Stmt, top: bool | KidsCollS(s, v) == []
      ensures CollSs(DirtyRules().fs(s, top), v) == []
    {
      assert CollSs([s], v) == CollS(s, v);
    }
  }

  lemma DirtyFixes()
    ensures Fixes(DirtyRules(), NoDirty)
  {
  }

  /** No `.dirty` member access is left anywhere in the file. */
  lemma {:induction false} NoDirtyLeft(body: seq<Stmt>)
    ensures EverySs(NoDirty, MapSs(body, true, DirtyRules()))
  {
    DirtyEstablishes();
    EstablishSs(body, true, DirtyRules(), NoDirty);
  }

  /** Running step 4 again changes nothing. */
  lemma {:induction false} DirtyIdempotent(body: seq<Stmt>)
    ensures MapSs(MapSs(body, true, DirtyRules()), true, DirtyRules()) == MapSs(body, true, DirtyRules())
  {
    NoDirtyLeft(body);
    DirtyFixes();
    FixSs(MapSs(body, true, DirtyRules()), true, DirtyRules(), NoDirty);
  }

  // ================================================================ 5. repositories

  predicate IsRepository(c: Stmt) {
    c.ClassStmt? && c.superClass == Some(Ident("RepositoriesAbstract"))
  }

  /** The repository class a statement declares, alone or under `export`. */
  function RepositoryOf(s: Stmt): (r: Option<Stmt>)
    ensures r.Some? ==> IsRepository(r.value)
  {
    if IsRepository(s) then Some(s)
    else if s.ExportDecl? && IsRepository(s.decl) then Some(s.decl)
    else None
  }

  /**
   * The arguments of the first decorator that calls `inject`; `None` where the
   * source throws: no such decorator, or a decorator before it that is no call.
   */
  function InjectArgs(decs: seq<Expr>): Option<seq<Expr>> {
    if decs == [] || !decs[0].Call? then None
    else if IsIdent(decs[0].callee, "inject") then Some(decs[0].args)
    else InjectArgs(decs[1..])
  }

  predicate IsConstructor(m: ClassMember) {
    m.MethodDef? && m.kind == KConstructor
  }

  /** The index of the first constructor at or after `i`, or -1. */
  function ConstructorIndex(ms: seq<ClassMember>, i: nat): (r: int)
    requires i <= |ms|
    ensures r == -1 || (i <= r < |ms| && IsConstructor(ms[r]))
    ensures r == -1 ==> forall j :: i <= j < |ms| ==> !IsConstructor(ms[j])
    ensures r >= 0 ==> forall j :: i <= j < r ==> !IsConstructor(ms[j])
    decreases |ms| - i
  {
    if i == |ms| then -1 else if IsConstructor(ms[i]) then i else ConstructorIndex(ms, i + 1)
  }

  /** `import <name> from '<source>'` */
  function DefaultImport(name: string, source: string): Stmt {
    Import([ImportSpec(DefaultSpec, "", name)], source, [])
  }

  /**
   * With a constructor: one import per element, binding the constructor
   * parameter at the same index; `None` where the source throws (a parameter
   * that is no identifier, an element that is no literal).
   */
  function ParamImports(els: seq<Expr>, params: seq<Expr>): Option<seq<Stmt>>
    requires |els| <= |params|
  {
    if forall i :: 0 <= i < |els| ==> params[i].Ident? && IsLiteral(els[i]) then
      Some(seq(|els|, i requires 0 <= i < |els| => DefaultImport(NameOf(params[i]), LiteralValue(els[i]))))
    else None
  }

  predicate NotSlash(c: char) {
    c != '/'
  }

  /** `path.split('/').join('')` */
  function Unslashed(path: string): (r: string)
    ensures '/' !in r && forall c :: c in r <==> c in path && c != '/'
  {
    Filter(path, NotSlash)
  }

  /**
   * Without a constructor: one import per element, named after its path without
   * slashes; `None` where the source throws (an element that is no string).
   */
  function PathImports(els: seq<Expr>): Option<seq<Stmt>> {
    if forall i :: 0 <= i < |els| ==> els[i].Str? then
      Some(seq(|els|, i requires 0 <= i < |els| => DefaultImport(Unslashed(LiteralValue(els[i])), LiteralValue(els[i]))))
    else None
  }

  /** What the new constructor does with the `i`-th injected name. */
  function InjectStmt(name: string, i: nat): Stmt {
    if i == 0 then ExprStmt(Call(Ident("super"), [Ident(name)]), [])
    else ExprStmt(Assign("=", Member(This, Ident(name), false), Ident(name)), [])
  }

  function NewConstructor(els: seq<Expr>): ClassMember {
    MethodDef(KConstructor, false, "constructor", [],
      seq(|els|, i requires 0 <= i < |els| => InjectStmt(Unslashed(LiteralValue(els[i])), i)), [])
  }

  /** What the rewrite of one repository class inserts and leaves as the class body. */
  datatype Injected = Injected(imports: seq<Stmt>, members: seq<ClassMember>)

  /** The rewrite of one repository class; `None` where the source throws. */
  function Inject(c: Stmt): Option<Injected>
    requires c.ClassStmt?
  {
    match InjectArgs(c.decorators)
    case None => None
    case Some(args) =>
      if args == [] then None
      else if !args[0].Array? || args[0].elems == [] then Some(Injected([], c.members))
      else
        var els := args[0].elems;
        var k := ConstructorIndex(c.members, 0);
        if k >= 0 then
          var ctor := c.members[k];
          if |els| <= |ctor.params| then
            match ParamImports(els, ctor.params)
            case None => None
            case Some(imps) => Some(Injected(imps, c.members[k := ctor.(params := ctor.params[|els|..])]))
          else Some(Injected([], c.members))
        else
          match PathImports(els)
          case None => None
          case Some(imps) => Some(Injected(imps, [NewConstructor(els)] + c.members))
  }

  /**
   * A repository without a constructor and with `@inject([p0, ..., pn])` gets
   * `import Pi from 'pi'` for each path, where `Pi` is `pi` without slashes, and
   * a new first member: the constructor calling `super(P0)` and then setting
   * `this.Pi = Pi` for each later path.
   */
  lemma RepositoryWithoutConstructor(c: Stmt)
    requires c.ClassStmt? && ConstructorIndex(c.members, 0) == -1
    requires InjectArgs(c.decorators).Some?
    requires var args := InjectArgs(c.decorators).value;
      args != [] && args[0].Array? && args[0].elems != [] &&
      forall i :: 0 <= i < |args[0].elems| ==> args[0].elems[i].Str?
    ensures var els := InjectArgs(c.decorators).value[0].elems;
      var j := Inject(c).value;
      |j.imports| == |els| && |j.members| == |c.members| + 1 && j.members[1..] == c.members &&
      (forall i :: 0 <= i < |els| ==>
         j.imports[i] == DefaultImport(Unslashed(els[i].value), els[i].value)) &&
      j.members[0].MethodDef? && j.members[0].kind == KConstructor && j.members[0].params == [] &&
      |j.members[0].body| == |els| &&
      j.members[0].body[0] == ExprStmt(Call(Ident("super"), [Ident(Unslashed(els[0].value))]), []) &&
      (forall i :: 0 < i < |els| ==>
         var n := Unslashed(els[i].value);
         j.members[0].body[i] == ExprStmt(Assign("=", Member(This, Ident(n), false), Ident(n)), []))
  {
  }

  /**
   * A repository whose first constructor has at least as many parameters as
   * `@inject([...])` has elements gets one import per element, binding the
   * parameter at the same index, and that constructor loses those parameters.
   */
  lemma RepositoryWithConstructor(c: Stmt)
    requires c.ClassStmt? && ConstructorIndex(c.members, 0) >= 0
    requires InjectArgs(c.decorators).Some?
    requires var args := InjectArgs(c.decorators).value;
      var ctor := c.members[ConstructorIndex(c.members, 0)];
      args != [] && args[0].Array? && args[0].elems != [] && |args[0].elems| <= |ctor.params| &&
      forall i :: 0 <= i < |args[0].elems| ==> ctor.params[i].Ident? && IsLiteral(args[0].elems[i])
    ensures var els := InjectArgs(c.decorators).value[0].elems;
      var k := ConstructorIndex(c.members, 0);
      var ctor := c.members[k];
      var j := Inject(c).value;
      |j.imports| == |els| &&
      (forall i :: 0 <= i < |els| ==>
         j.imports[i] == DefaultImport(ctor.params[i].name, LiteralValue(els[i]))) &&
      |j.members| == |c.members| &&
      (forall i :: 0 <= i < |c.members| && i != k ==> j.members[i] == c.members[i]) &&
      j.members[k] == ctor.(params := ctor.params[|els|..])
  {
  }

  function WithMembers(c: Stmt): Stmt
    requires c.ClassStmt?
  {
    match Inject(c)
    case Some(j) => c.(members := j.members)
    case None => c
  }

  function RepositoryRule(s: Stmt): Stmt {
    if IsRepository(s) then WithMembers(s)
    else if s.ExportDecl? && IsRepository(s.decl) then ExportDecl(WithMembers(s.decl), s.comments)
    else s
  }

  function RepositoryRules(): Rules {
    Rules(e => e, (s, top) => [RepositoryRule(s)])
  }

  /** The rewrite of each repository class, in document order. */
  function Injections(n: Node): seq<Option<Injected>> {
    if n.NS? && RepositoryOf(n.s).Some? then [Inject(RepositoryOf(n.s).value)] else []
  }

  predicate AllInjected(outs: seq<Option<Injected>>) {
    forall i :: 0 <= i < |outs| ==> outs[i].Some?
  }

  /** The imports of the rewrites, in order. */
  function ImportsOf(outs: seq<Option<Injected>>): seq<Stmt>
    requires AllInjected(outs)
  {
    if outs == [] then []
    else ImportsOf(outs[..|outs| - 1]) + outs[|outs| - 1].value.imports
  }

  /**
   * Step 5 on the body, with the cursor at `idx`: the classes are rewritten
   * and their imports go in through the cursor, class after class.
   */
  function Repositories(body: seq<Stmt>, idx: int): Option<seq<Stmt>>
    requires -1 <= idx < |body|
  {
    var outs := CollSs(body, Injections);
    if !AllInjected(outs) then None
    else
      MapSsOneToOne(body, true, RepositoryRules(), RepositoryRule);
      Some(InsertAll(MapSs(body, true, RepositoryRules()), idx, ImportsOf(outs)))
  }

  /**
   * The imports stand consecutively, class after class, right after the cursor
   * (from the front when it is -1); every statement keeps its relative place.
   */
  lemma {:induction false} RepositoryImportsPlacement(body: seq<Stmt>, idx: int)
    requires -1 <= idx < |body| && Repositories(body, idx).Some?
    ensures var imps := ImportsOf(CollSs(body, Injections));
      var m := MapSs(body, true, RepositoryRules());
      var r := Repositories(body, idx).value;
      |r| == |body| + |imps| &&
      r[..idx + 1] == m[..idx + 1] && r[idx + 1..idx + 1 + |imps|] == imps && r[idx + 1 + |imps|..] == m[idx + 1..] &&
      forall i :: 0 <= i < |body| ==> m[i] == RepositoryRule(KidsS(body[i], RepositoryRules()))
  {
    var imps := ImportsOf(CollSs(body, Injections));
    MapSsOneToOne(body, true, RepositoryRules(), RepositoryRule);
    var m := MapSs(body, true, RepositoryRules());
    InsertAllConsecutive(m, idx, imps);
  }

  // ================================================================ 6, 7. @provider: strings in start files

  function ProviderString(e: Expr, rep: string): Expr {
    if e.Str? then Str(SwapProvider(e.value, rep)) else e
  }

  function ProviderStringRules(rep: string): Rules {
    Rules(e => ProviderString(e, rep), (s, top) => [s])
  }

  predicate NoProviderString(n: Node) {
    n.NE? && n.e.Str? ==> !StartsWith(n.e.value, ProviderPrefix)
  }

  lemma {:induction false} EventsStringClean(e: Expr)
    requires KidsCollE(e, Violations(NoProviderString)) == []
    ensures CollE(ProviderString(e, "/"), Violations(NoProviderString)) == []
  {
    if e.Str? {
      var t := SwapProvider(e.value, "/");
      if StartsWith(e.value, ProviderPrefix) {
        assert t[0] == '/';
        assert |t| < |ProviderPrefix| || t[..|ProviderPrefix|][0] != ProviderPrefix[0];
        assert !StartsWith(t, ProviderPrefix);
      }
      LeafClean(NoProviderString, Str(t));
    } else {
      assert NoProviderString(NE(e));
    }
  }

  lemma EventsStringsEstablish()
    ensures Establishes(ProviderStringRules("/"), NoProviderString)
    ensures EstablishesAtTop(ProviderStringRules("/"), NoProviderString)
  {
    var v := Violations(NoProviderString);
    forall e: Expr | KidsCollE(e, v) == []
      ensures CollE(ProviderStringRules("/").fe(e), v) == []
    {
      EventsStringClean(e);
    }
    forall s: Stmt, top: bool | KidsCollS(s, v) == []
      ensures CollSs(ProviderStringRules("/").fs(s, top), v) == []
    {
      assert CollSs([s], v) == CollS(s, v);
    }
  }

  /** In a `start/events` file no string literal starting with `@provider:` is left. */
  lemma {:induction false} NoProviderStringLeft(body: seq<Stmt>)
    ensures EverySs(NoProviderString, MapSs(body, true, ProviderStringRules("/")))
  {
    EventsStringsEstablish();
    EstablishSs(body, true, ProviderStringRules("/"), NoProviderString);
  }

  /** Whatever the replacement, a file without such strings is left as it is. */
  lemma {:induction false} ProviderStringsFixed(body: seq<Stmt>, rep: string)
    requires EverySs(NoProviderString, body)
    ensures MapSs(body, true, ProviderStringRules(rep)) == body
  {
    assert Fixes(ProviderStringRules(rep), NoProviderString);
    FixSs(body, true, ProviderStringRules(rep), NoProviderString);
  }

  // ================================================================ 8, 9. request.params in controllers

  /** `request.params` */
  predicate IsRequestParams(e: Expr) {
    e.Member? && IsIdent(e.obj, "request") && IsIdent(e.prop, "params")
  }

  /** `const x = request.params.<name>` */
  predicate ReadsParam(d: Declarator) {
    d.init.Some? && d.init.value.Member? && IsRequestParams(d.init.value.obj)
  }

  /** `request.params[<non-identifier>]`: `j.literal(undefined)` throws. */
  predicate ParamThrows(d: Declarator) {
    ReadsParam(d) && !d.init.value.prop.Ident?
  }

  /** `request.param('<name>')` */
  function ParamCall(name: string): Expr {
    Call(Member(Ident("request"), Ident("param"), false), [Str(name)])
  }

  function ParamDeclarator(d: Declarator): Declarator {
    if ReadsParam(d) then d.(init := Some(ParamCall(NameOf(d.init.value.prop)))) else d
  }

  /** `const x = request.params` */
  predicate ReadsParams(d: Declarator) {
    d.init.Some? && IsRequestParams(d.init.value)
  }

  /** `request.params()` */
  function ParamsCall(): Expr {
    Call(Member(Ident("request"), Ident("params"), false), [])
  }

  function ParamsDeclarator(d: Declarator): Declarator {
    if ReadsParams(d) then d.(init := Some(ParamsCall())) else d
  }

  function MapDeclarators(ds: seq<Declarator>, f: Declarator -> Declarator): (r: seq<Declarator>)
    ensures |r| == |ds| && forall i :: 0 <= i < |ds| ==> r[i] == f(ds[i])
  {
    if ds == [] then [] else [f(ds[0])] + MapDeclarators(ds[1..], f)
  }

  /** The declarators of a declaration, alone or under `export`. */
  function DeclsOf(s: Stmt): seq<Declarator> {
    if s.VarDecl? then s.decls
    else if s.ExportDecl? && s.decl.VarDecl? then s.decl.decls
    else []
  }

  /** The declaration with `f` applied to each of its declarators. */
  function OnDeclarators(s: Stmt, f: Declarator -> Declarator): (r: Stmt)
    ensures DeclsOf(r) == MapDeclarators(DeclsOf(s), f)
  {
    if s.VarDecl? then VarDecl(s.kind, MapDeclarators(s.decls, f), s.comments)
    else if s.ExportDecl? && s.decl.VarDecl? then
      ExportDecl(VarDecl(s.decl.kind, MapDeclarators(s.decl.decls, f), s.decl.comments), s.comments)
    else s
  }

  function ParamRules(): Rules {
    Rules(e => e, (s, top) => [OnDeclarators(s, ParamDeclarator)])
  }

  function ParamsRules(): Rules {
    Rules(e => e, (s, top) => [OnDeclarators(s, ParamsDeclarator)])
  }

  /** The declarators at which step 8 throws, in document order. */
  function ThrowingParams(n: Node): seq<Declarator> {
    if n.ND? && ParamThrows(n.d) then [n.d] else []
  }

  predicate NoParamRead(n: Node) {
    n.NS? ==> forall i :: 0 <= i < |DeclsOf(n.s)| ==> !ReadsParam(DeclsOf(n.s)[i])
  }

  lemma ParamCallClean(name: string)
    ensures CollE(ParamCall(name), Violations(NoParamRead)) == []
  {
    var v := Violations(NoParamRead);
    var m := Member(Ident("request"), Ident("param"), false);
    LeafClean(NoParamRead, Ident("request"));
    LeafClean(NoParamRead, Ident("param"));
    LeafClean(NoParamRead, Str(name));
    QuietNode(NoParamRead, NE(m));
    assert KidsCollE(m, v) == CollE(Ident("request"), v) + CollE(Ident("param"), v);
    assert CollE(m, v) == v(NE(m)) + KidsCollE(m, v);
    assert [Str(name)][1..] == [];
    assert CollEs([Str(name)], v) == CollE(Str(name), v) + CollEs([], v);
    var c := ParamCall(name);
    QuietNode(NoParamRead, NE(c));
    assert KidsCollE(c, v) == CollE(m, v) + CollEs([Str(name)], v);
    assert CollE(c, v) == v(NE(c)) + KidsCollE(c, v);
  }

  lemma {:induction false} ParamDeclaratorClean(d: Declarator)
    requires CollD(d, Violations(NoParamRead)) == []
    ensures CollD(ParamDeclarator(d), Violations(NoParamRead)) == []
  {
    var v := Violations(NoParamRead);
    if ReadsParam(d) {
      var call := ParamCall(NameOf(d.init.value.prop));
      ParamCallClean(NameOf(d.init.value.prop));
      var d2 := ParamDeclarator(d);
      assert d2.id == d.id && d2.init == Some(call);
      assert CollE(d.id, v) == [];
      assert CollOpt(d2.init, v) == [];
      QuietNode(NoParamRead, ND(d2));
    }
  }

  lemma {:induction false} ParamDeclaratorsClean(ds: seq<Declarator>)
    requires CollDs(ds, Violations(NoParamRead)) == []
    ensures CollDs(MapDeclarators(ds, ParamDeclarator), Violations(NoParamRead)) == []
    decreases ds
  {
    if ds != [] {
      ParamDeclaratorClean(ds[0]);
      ParamDeclaratorsClean(ds[1..]);
      assert MapDeclarators(ds, ParamDeclarator)[1..] == MapDeclarators(ds[1..], ParamDeclarator);
    }
  }

  lemma {:induction false} ParamStmtClean(s: Stmt)
    requires KidsCollS(s, Violations(NoParamRead)) == []
    ensures CollS(OnDeclarators(s, ParamDeclarator), Violations(NoParamRead)) == []
  {
    var v := Violations(NoParamRead);
    var t := OnDeclarators(s, ParamDeclarator);
    assert NoParamRead(NS(t));
    QuietNode(NoParamRead, NS(t));
    if s.VarDecl? {
      assert KidsCollS(s, v) == CollDs(s.decls, v);
      ParamDeclaratorsClean(s.decls);
      assert KidsCollS(t, v) == CollDs(t.decls, v);
    } else if s.ExportDecl? && s.decl.VarDecl? {
      assert KidsCollS(s, v) == KidsCollS(s.decl, v) == CollDs(s.decl.decls, v);
      ParamDeclaratorsClean(s.decl.decls);
      assert KidsCollS(t, v) == KidsCollS(t.decl, v) == CollDs(t.decl.decls, v);
    }
    assert CollS(t, v) == v(NS(t)) + KidsCollS(t, v);
  }

  lemma ParamEstablishes()
    ensures Establishes(ParamRules(), NoParamRead) && EstablishesAtTop(ParamRules(), NoParamRead)
  {
    var v := Violations(NoParamRead);
    forall e: Expr | KidsCollE(e, v) == []
      ensures CollE(ParamRules().fe(e), v) == []
    {
      QuietNode(NoParamRead, NE(e));
      assert CollE(e, v) == v(NE(e)) + KidsCollE(e, v);
    }
    forall s: Stmt, top: bool | KidsCollS(s, v) == []
      ensures CollSs(ParamRules().fs(s, top), v) == []
    {
      var t := OnDeclarators(s, ParamDeclarator);
      ParamStmtClean(s);
      assert CollSs([t], v) == CollS(t, v);
    }
  }

  /** In a controller no declarator is left initialised with `request.params.<name>`. */
  lemma {:induction false} NoParamReadLeft(body: seq<Stmt>)
    ensures EverySs(NoParamRead, MapSs(body, true, ParamRules()))
  {
    ParamEstablishes();
    EstablishSs(body, true, ParamRules(), NoParamRead);
  }

  /**
   * A top-level `const x = request.params.<name>` becomes
   * `const x = request.param('<name>')`, and `const x = request.params`
   * becomes `const x = request.params()`; other declarators stay.
   */
  lemma ParamDeclaratorsRewritten(d: Declarator)
    ensures ReadsParam(d) && d.init.value.prop.Ident? ==>
      ParamDeclarator(d) == d.(init := Some(Call(Member(Ident("request"), Ident("param"), false), [Str(d.init.value.prop.name)])))
    ensures ReadsParams(d) ==>
      ParamDeclarator(d) == d && ParamsDeclarator(d) == d.(init := Some(Call(Member(Ident("request"), Ident("params"), false), [])))
    ensures !ReadsParam(d) && !ReadsParams(d) ==> ParamDeclarator(d) == d && ParamsDeclarator(d) == d
  {
  }

  // ================================================================ 10. Event.fire -> Event.emit

  predicate IsEventFire(e: Expr) {
    e.Call? && e.callee.Member? && IsIdent(e.callee.obj, "Event") && IsIdent(e.callee.prop, "fire")
  }

  function EventRule(e: Expr): Expr {
    if IsEventFire(e) then Call(Member(e.callee.obj, Ident("emit"), e.callee.computed), e.args) else e
  }

  function EventRules(): Rules {
    Rules(EventRule, (s, top) => [s])
  }

  predicate NoEventFire(n: Node) {
    n.NE? ==> !IsEventFire(n.e)
  }

  lemma {:induction false} EventClean(e: Expr)
    requires KidsCollE(e, Violations(NoEventFire)) == []
    ensures CollE(EventRule(e), Violations(NoEventFire)) == []
  {
    var v := Violations(NoEventFire);
    if IsEventFire(e) {
      var m := e.callee;
      assert KidsCollE(e, v) == CollE(m, v) + CollEs(e.args, v);
      assert CollE(m, v) == v(NE(m)) + KidsCollE(m, v);
      assert KidsCollE(m, v) == CollE(m.obj, v) + CollE(m.prop, v);
      assert CollE(m.obj, v) == [];
      var m2 := Member(m.obj, Ident("emit"), m.computed);
      LeafClean(NoEventFire, Ident("emit"));
      assert KidsCollE(m2, v) == [];
      assert NoEventFire(NE(m2));
      assert CollE(m2, v) == [];
      var t := Call(m2, e.args);
      assert KidsCollE(t, v) == [];
      assert NoEventFire(NE(t));
    } else {
      assert NoEventFire(NE(e));
    }
  }

  lemma EventEstablishes()
    ensures Establishes(EventRules(), NoEventFire) && EstablishesAtTop(EventRules(), NoEventFire)
  {
    var v := Violations(NoEventFire);
    forall e: Expr | KidsCollE(e, v) == []
      ensures CollE(EventRules().fe(e), v) == []
    {
      EventClean(e);
    }
    forall s: Stmt, top: bool | KidsCollS(s, v) == []
      ensures CollSs(EventRules().fs(s, top), v) == []
    {
      assert CollSs([s], v) == CollS(s, v);
    }
  }

  lemma EventFixes()
    ensures Fixes(EventRules(), NoEventFire)
  {
  }

  // ================================================================ the pass

  /** Steps 1 to 4, which keep each top-level statement in its place. */
  function EarlySteps(body: seq<Stmt>, fileName: string): (r: seq<Stmt>)
    ensures |r| == |body|
  {
    var b1 := if EndsWith(fileName, ".spec.ts") then MapSs(body, true, AuthHookRules()) else body;
    MapSsTop(body, AuthHookRules());
    var b2 := MapSs(b1, true, ReloadRules());
    MapSsOneToOne(b1, true, ReloadRules(), ReloadRule);
    var b3 := MapSs(b2, true, ProviderImportRules());
    MapSsOneToOne(b2, true, ProviderImportRules(), ProviderImportRule);
    MapSsTop(b3, DirtyRules());
    if InDirectory(fileName, "Models") || InDirectory(fileName, "Hooks") then MapSs(b3, true, DirtyRules()) else b3
  }

  /** Steps 6 to 9; `None` where step 8 throws. */
  function LateSteps(body: seq<Stmt>, fileName: string): Option<seq<Stmt>> {
    var b6 := if InDirectory(fileName, "start/events") then MapSs(body, true, ProviderStringRules("/")) else body;
    var b7 := if InDirectory(fileName, "start") then MapSs(b6, true, ProviderStringRules("")) else b6;
    if !InDirectory(fileName, "Controllers/Http") then Some(b7)
    else if CollSs(b7, ThrowingParams) != [] then None
    else Some(MapSs(MapSs(b7, true, ParamRules()), true, ParamsRules()))
  }

  /** Everything before the `Event.fire` rewrite; the cursor is read before any step. */
  function BeforeEvents(p: Program, fileName: string): Option<seq<Stmt>> {
    var b4 := EarlySteps(p.body, fileName);
    var b5 := if InDirectory(fileName, "Repositories") then Repositories(b4, FindLastImportIndex(p.body, Tsx)) else Some(b4);
    match b5
    case None => None
    case Some(b) => LateSteps(b, fileName)
  }

  /** The tree rewrites of the pass; `None` where the source throws. */
  function ChoresTree(p: Program, fileName: string): Option<Program> {
    match BeforeEvents(p, fileName)
    case None => None
    case Some(b) => Some(Program(MapSs(b, true, EventRules()), p.comments))
  }

  /**
   * The whole pass: the tree rewrites, printing (`render`, external to the
   * model) and the text replacements; `None` where the source throws or a
   * replacement takes more than `fuel` rounds.
   */
  function Chores(p: Program, ctx: FileContext, render: Program -> string, fuel: nat): Option<string> {
    match ChoresTree(p, ctx.fileName)
    case None => None
    case Some(q) => ReplacedText(render(q), ctx.fileName, fuel)
  }

  /** No `Event.fire(...)` call is left anywhere in the file. */
  lemma {:induction false} NoEventFireLeft(p: Program, fileName: string)
    requires ChoresTree(p, fileName).Some?
    ensures EverySs(NoEventFire, ChoresTree(p, fileName).value.body)
  {
    EventEstablishes();
    EstablishSs(BeforeEvents(p, fileName).value, true, EventRules(), NoEventFire);
  }

  /** A file that has no `Event.fire(...)` call keeps its tree after step 9. */
  lemma {:induction false} EventsFixed(p: Program, fileName: string)
    requires BeforeEvents(p, fileName).Some? && EverySs(NoEventFire, BeforeEvents(p, fileName).value)
    ensures ChoresTree(p, fileName).value.body == BeforeEvents(p, fileName).value
  {
    EventFixes();
    FixSs(BeforeEvents(p, fileName).value, true, EventRules(), NoEventFire);
  }

  /** In a controller, a `request.params[<non-identifier>]` initialiser makes the pass throw. */
  lemma {:induction false} ControllerThrows(body: seq<Stmt>, fileName: string)
    requires InDirectory(fileName, "Controllers/Http") && !InDirectory(fileName, "start/events") && !InDirectory(fileName, "start")
    ensures LateSteps(body, fileName).None? <==> CollSs(body, ThrowingParams) != []
  {
  }

  // ================================================================ the pass as the source runs it

  /** Steps 1 to 10 in order, the repository imports going in through the cursor. */
  method RunTree(p: Program, fileName: string) returns (r: Option<Program>)
    ensures r == ChoresTree(p, fileName)
  {
    var lastImportIndex := FindLastImportIndex(p.body, Tsx);
    var body := EarlySteps(p.body, fileName);
    if InDirectory(fileName, "Repositories") {
      var found := InjectAll(body, lastImportIndex);
      if found.None? {
        return None;
      }
      body := found.value;
    }
    var late := LateSteps(body, fileName);
    if late.None? {
      return None;
    }
    r := Some(Program(MapSs(late.value, true, EventRules()), p.comments));
  }

  lemma ImportsOfStep(outs: seq<Option<Injected>>, k: int)
    requires 0 <= k < |outs| && AllInjected(outs[..k]) && outs[k].Some?
    ensures AllInjected(outs[..k + 1])
    ensures ImportsOf(outs[..k + 1]) == ImportsOf(outs[..k]) + outs[k].value.imports
  {
    assert outs[..k + 1][..k] == outs[..k];
  }

  /** Step 5: each repository class is rewritten and its imports inserted, class after class. */
  /** The imports of the `k`-th class go in at the cursor, which moves past them. */
  method InsertImportsOf(cursor: ImportCursor, classes: seq<Stmt>, idx: int, outs: seq<Option<Injected>>, k: int)
    requires cursor.Valid() && -1 <= idx < |classes| && 0 <= k < |outs| && AllInjected(outs[..k]) && outs[k].Some?
    requires cursor.lastImportIndex == idx + |ImportsOf(outs[..k])|
    requires cursor.body == InsertAll(classes, idx, ImportsOf(outs[..k]))
    modifies cursor
    ensures cursor.Valid() && AllInjected(outs[..k + 1])
    ensures cursor.lastImportIndex == idx + |ImportsOf(outs[..k + 1])|
    ensures cursor.body == InsertAll(classes, idx, ImportsOf(outs[..k + 1]))
  {
    InsertAllAppend(classes, idx, ImportsOf(outs[..k]), outs[k].value.imports);
    ImportsOfStep(outs, k);
    cursor.InsertImports(outs[k].value.imports);
  }

  method InjectAll(body: seq<Stmt>, lastImportIndex: int) returns (r: Option<seq<Stmt>>)
    requires -1 <= lastImportIndex < |body|
    ensures r == Repositories(body, lastImportIndex)
  {
    var outs := CollSs(body, Injections);
    MapSsOneToOne(body, true, RepositoryRules(), RepositoryRule);
    var classes := MapSs(body, true, RepositoryRules());
    var cursor := new ImportCursor(classes, lastImportIndex);
    var k := 0;
    while k < |outs|
      invariant 0 <= k <= |outs| && cursor.Valid()
      invariant AllInjected(outs[..k])
      invariant cursor.lastImportIndex == lastImportIndex + |ImportsOf(outs[..k])|
      invariant cursor.body == InsertAll(classes, lastImportIndex, ImportsOf(outs[..k]))
    {
      if outs[k].None? {
        assert !AllInjected(outs);
        return None;
      }
      InsertImportsOf(cursor, classes, lastImportIndex, outs, k);
      k := k + 1;
    }
    assert outs[..k] == outs;
    r := Some(cursor.body);
  }

  /** The three `replace` calls on the printed text, each table where its file guard holds. */
  method ReplaceForFile(text: string, fileName: string, fuel: nat) returns (r: Option<string>)
    ensures r == ReplacedText(text, fileName, fuel)
  {
    r := ReplaceText(text, CommonSwaps, fuel);
    if r.Some? && IsTargetSystemService(fileName) {
      r := ReplaceText(r.value, TargetSystemSwaps, fuel);
    }
    if r.Some? && IsFactoryFile(fileName) {
      r := ReplaceText(r.value, FakerSwaps, fuel);
    }
  }

  /** The whole pass: the tree, printed by `render`, then the three tables. */
  method Run(p: Program, ctx: FileContext, render: Program -> string, fuel: nat) returns (r: Option<string>)
    ensures r == Chores(p, ctx, render, fuel)
  {
    var tree := RunTree(p, ctx.fileName);
    if tree.None? {
      return None;
    }
    r := ReplaceForFile(render(tree.value), ctx.fileName, fuel);
  }
}
