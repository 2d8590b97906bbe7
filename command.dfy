/**
 * The `adonis-command` pass: a v4 ace command, a class extending the
 * `Command` imported from `@adonisjs/ace`, is rebuilt as a v5 command.  The
 * import gives way to `import { BaseCommand as Command, args, flags } from
 * '@adonisjs/core/build/standalone'`, and the class body is rebuilt from
 * scratch: the static `settings`, then what the `signature`, `description` and
 * `handle` methods yield, in member order (`commandName` and one decorated
 * property per argument or flag; `description`; `handle` renamed `run`).
 */
module Command {
  import opened Ast
  import opened Strings
  import opened ImportSpecs
  import opened CommandSignature
  import opened CommandRun

  const AceSource := "@adonisjs/ace"
  const StandaloneSource := "@adonisjs/core/build/standalone"

  /** `import { BaseCommand as Command, args, flags } from '@adonisjs/core/build/standalone'` */
  function CommandImport(): Stmt {
    Import([ImportSpec(NamedSpec, "BaseCommand", "Command"), ImportSpec(NamedSpec, "args", "args"), ImportSpec(NamedSpec, "flags", "flags")],
      StandaloneSource, [])
  }

  function StaticField(key: string, value: Expr): ClassMember {
    FieldDef(key, Some(value), true, [], "")
  }

  /** `static settings = { loadApp: true }` */
  function Settings(): ClassMember {
    StaticField("settings", Object([InitProp("loadApp", Lit("true"))]))
  }

  // ---------------------------------------------------------------- one property per field

  predicate IsFlag(f: Field) {
    StartsWith(f.name, "-")
  }

  /** The property name: the first `--` of the field name removed. */
  function PropertyName(f: Field): string {
    ReplaceFirst(f.name, "--", "")
  }

  /** The initial value: the default, unless it is empty or `@value`. */
  function DefaultLiteral(f: Field): Option<Expr> {
    if f.defaultValue.Some? && f.defaultValue.value != "" && f.defaultValue.value != "@value" then Some(Str(f.defaultValue.value))
    else None
  }

  function BoolLit(b: bool): Expr {
    Lit(if b then "true" else "false")
  }

  /** The options of the decorator as the source writes them: `required` takes the field's optional mark. */
  function DecoratorOptionsAsWritten(f: Field): seq<Prop> {
    [InitProp("description", Str(f.description))] + (if IsFlag(f) then [] else [InitProp("required", BoolLit(f.optional))])
  }

  /** The options of the decorator: an argument is required unless marked optional. */
  function DecoratorOptions(f: Field): seq<Prop> {
    [InitProp("description", Str(f.description))] + (if IsFlag(f) then [] else [InitProp("required", BoolLit(!f.optional))])
  }

  /** `@flags.string({...})` or `@args.string({...})` */
  function Decorator(flag: bool, options: seq<Prop>): Expr {
    Call(Member(Ident(if flag then "flags" else "args"), Ident("string"), false), [Object(options)])
  }

  function ArgPropertyAsWritten(f: Field): ClassMember {
    FieldDef(PropertyName(f), DefaultLiteral(f), false, [Decorator(IsFlag(f), DecoratorOptionsAsWritten(f))], "string")
  }

  function ArgProperty(f: Field): ClassMember {
    FieldDef(PropertyName(f), DefaultLiteral(f), false, [Decorator(IsFlag(f), DecoratorOptions(f))], "string")
  }

  function Properties(fields: seq<Field>): seq<ClassMember> {
    if fields == [] then [] else [ArgProperty(fields[0])] + Properties(fields[1..])
  }

  /** The names pushed onto `args`: those of the fields that are not flags, as written. */
  function ArgNames(fields: seq<Field>): seq<string> {
    if fields == [] then [] else (if IsFlag(fields[0]) then [] else [fields[0].name]) + ArgNames(fields[1..])
  }

  /** The names pushed onto `flags`: those of the flags, with their first `--` removed. */
  function FlagNames(fields: seq<Field>): seq<string> {
    if fields == [] then [] else (if IsFlag(fields[0]) then [PropertyName(fields[0])] else []) + FlagNames(fields[1..])
  }

  /** One field of the `forEach`, in the terms of its loop invariant. */
  lemma {:induction false} PushStep(fields: seq<Field>, i: nat, classBody: seq<ClassMember>, args: seq<string>, flags: seq<string>)
    requires i < |fields|
    ensures classBody + Properties(fields[i..]) == (classBody + [ArgProperty(fields[i])]) + Properties(fields[i + 1..])
    ensures args + ArgNames(fields[i..]) == (args + (if IsFlag(fields[i]) then [] else [fields[i].name])) + ArgNames(fields[i + 1..])
    ensures flags + FlagNames(fields[i..]) == (flags + (if IsFlag(fields[i]) then [PropertyName(fields[i])] else [])) + FlagNames(fields[i + 1..])
  {
    var fs := fields[i..];
    assert fs[0] == fields[i] && fs[1..] == fields[i + 1..];
    Assoc(classBody, [ArgProperty(fs[0])], Properties(fs[1..]));
    Assoc(args, if IsFlag(fs[0]) then [] else [fs[0].name], ArgNames(fs[1..]));
    Assoc(flags, if IsFlag(fs[0]) then [PropertyName(fs[0])] else [], FlagNames(fs[1..]));
  }

  /** The `forEach` over the parsed fields: a property each, and its name onto `args` or `flags`. */
  method PushFields(fields: seq<Field>, classBody0: seq<ClassMember>, args0: seq<string>, flags0: seq<string>)
    returns (classBody: seq<ClassMember>, args: seq<string>, flags: seq<string>)
    ensures classBody == classBody0 + Properties(fields)
    ensures args == args0 + ArgNames(fields) && flags == flags0 + FlagNames(fields)
  {
    classBody, args, flags := classBody0, args0, flags0;
    assert fields[0..] == fields;
    for i := 0 to |fields|
      invariant classBody + Properties(fields[i..]) == classBody0 + Properties(fields)
      invariant args + ArgNames(fields[i..]) == args0 + ArgNames(fields)
      invariant flags + FlagNames(fields[i..]) == flags0 + FlagNames(fields)
    {
      var f := fields[i];
      PushStep(fields, i, classBody, args, flags);
      // a flag's name goes onto `flags`, an argument's onto `args`
      flags := flags + (if IsFlag(f) then [PropertyName(f)] else []);
      args := args + (if IsFlag(f) then [] else [f.name]);
      classBody := classBody + [ArgProperty(f)];
    }
    var done := fields[|fields|..];
    assert done == [];
    AppendEmpty(classBody, Properties(done));
    AppendEmpty(args, ArgNames(done));
    AppendEmpty(flags, FlagNames(done));
  }

  // ---------------------------------------------------------------- the members

  /** The argument of the first top-level `return` of a method body. */
  function FirstReturn(body: seq<Stmt>): (r: Option<Expr>)
    ensures r.Some? ==> Return(r.value) in body
  {
    if body == [] then None else if body[0].Return? then Some(body[0].arg) else FirstReturn(body[1..])
  }

  /** The returned text: a string's value or a template's first raw chunk; anything else makes `trim` throw. */
  function SignatureText(body: seq<Stmt>): Option<string> {
    match FirstReturn(body)
    case Some(Str(v)) => Some(v)
    case Some(Template(q, _)) => if q != [] then Some(q[0]) else None
    case _ => None
  }

  /** The literal `j.literal` builds from the returned value; one of any other kind makes it throw. */
  function DescriptionValue(body: seq<Stmt>): Option<Expr> {
    match FirstReturn(body)
    case Some(Str(v)) => Some(Str(v))
    case Some(Template(q, _)) => if q != [] then Some(Str(q[0])) else None
    case Some(Lit(raw)) => Some(Lit(raw))
    case _ => None
  }

  /** The fields of a signature: the arguments, then the options. */
  function SignatureFields(signature: string): seq<Field> {
    var groups := SignatureGroups(signature);
    ParseAll(OfKind(groups, false)) + ParseAll(OfKind(groups, true))
  }

  /** What the loop over the members has built so far, and the state of the class node it changes. */
  datatype Build = Build(classBody: seq<ClassMember>, args: seq<string>, flags: seq<string>, handled: bool, decorators: seq<Expr>)

  function SignatureStep(m: ClassMember, st: Build): Option<Build>
    requires m.MethodDef?
  {
    match SignatureText(m.body)
    case None => None
    case Some(text) =>
      var fields := SignatureFields(text);
      Some(st.(classBody := st.classBody + [StaticField("commandName", Str(CommandName(text)))] + Properties(fields),
               args := st.args + ArgNames(fields), flags := st.flags + FlagNames(fields)))
  }

  method SignatureMethod(m: ClassMember, st: Build) returns (r: Option<Build>)
    requires m.MethodDef?
    ensures r == SignatureStep(m, st)
  {
    var text := SignatureText(m.body);
    if text.None? {
      return None;
    }
    var rest := SignatureParts(text.value).1;
    var argFields, optionFields := ParseTokens(StripAround(rest, 0));
    var classBody, args, flags := PushFields(argFields + optionFields,
      st.classBody + [StaticField("commandName", Str(CommandName(text.value)))], st.args, st.flags);
    r := Some(st.(classBody := classBody, args := args, flags := flags));
  }

  function DescriptionStep(m: ClassMember, st: Build): Option<Build>
    requires m.MethodDef?
  {
    match DescriptionValue(m.body)
    case None => None
    case Some(v) => Some(st.(classBody := st.classBody + [StaticField("description", v)]))
  }

  /** What the class and the file around it give the loop over the members. */
  datatype Context = Context(members: seq<ClassMember>, vars: seq<Stmt>)

  /**
   * `handle` becomes `run` without parameters: its body is the Application
   * import, the resolved constructor statements, the file's top-level variable
   * declarations (the first time only: they have left the file then), the
   * parameter declarations spliced into the old body.  A decorator that is not
   * a call makes the lookup of `inject` throw.
   */
  function HandleStep(m: ClassMember, st: Build, ctx: Context): Option<Build>
    requires m.MethodDef?
  {
    match SpliceParams(m.body, m.params, 0, st.args, st.flags)
    case None => None
    case Some(body1) =>
      var body2 := (if st.handled then [] else ctx.vars) + body1;
      if st.decorators == [] then
        Some(st.(classBody := st.classBody + [MethodDef(m.kind, m.isStatic, "run", [], [AppDecl()] + body2, m.decorators)], handled := true))
      else if !AllCalls(st.decorators) then None
      else match InjectFront(FirstInject(st.decorators), ctx.members)
        case None => None
        case Some(front) =>
          Some(Build(st.classBody + [MethodDef(m.kind, m.isStatic, "run", [], [AppDecl()] + front + body2, m.decorators)],
                     st.args, st.flags, true, WithoutInject(st.decorators)))
  }

  method HandleMethod(m: ClassMember, st: Build, ctx: Context) returns (r: Option<Build>)
    requires m.MethodDef?
    ensures r == HandleStep(m, st, ctx)
  {
    var body := DeclareParams(m.params, m.body, st.args, st.flags);
    if body.None? {
      return None;
    }
    var vars := if st.handled then [] else ctx.vars;
    var body2 := SpliceFront(vars, body.value);
    var decorators := st.decorators;
    ghost var front: seq<Stmt> := [];
    ghost var body1 := body2;
    if decorators != [] {
      if !AllCalls(decorators) {
        return None;
      }
      var inject := FirstInject(decorators);
      if inject.Some? {
        var d := inject.value;
        if d.args == [] || !d.args[0].Array? {
          return None;
        }
        var ctor := FirstConstructor(ctx.members);
        if ctor.Some? {
          var resolved := ResolveParams(ctor.value.params, d.args[0].elems, ctor.value.body, body2);
          if resolved.None? {
            return None;
          }
          body2 := resolved.value;
          front := ResolveFrom(ctor.value.params, d.args[0].elems, ctor.value.body, 0, []).value;
        }
      }
      decorators := WithoutInject(decorators);
    }
    assert body2 == front + body1;
    assert [AppDecl()] + body2 == [AppDecl()] + front + body1;
    var run := MethodDef(m.kind, m.isStatic, "run", [], [AppDecl()] + body2, m.decorators);
    r := Some(Build(st.classBody + [run], st.args, st.flags, true, decorators));
  }

  // ---------------------------------------------------------------- the loop over the members

  predicate IsHandle(m: ClassMember) {
    m.MethodDef? && m.key == "handle"
  }

  /** One class method: `signature`, `description` and `handle` contribute, every other member is dropped. */
  function MemberStep(m: ClassMember, st: Build, ctx: Context): Option<Build> {
    if !m.MethodDef? then Some(st)
    else if m.key == "signature" then SignatureStep(m, st)
    else if m.key == "description" then DescriptionStep(m, st)
    else if m.key == "handle" then HandleStep(m, st, ctx)
    else Some(st)
  }

  /** The members `i..` in order, stopping at the first that makes the source throw. */
  function Members(ms: seq<ClassMember>, i: nat, st: Build, ctx: Context): Option<Build>
    decreases |ms| - i
  {
    if i >= |ms| then Some(st)
    else match MemberStep(ms[i], st, ctx)
      case None => None
      case Some(st') => Members(ms, i + 1, st', ctx)
  }

  /** Before the loop: the `settings` property alone, and the class's decorators. */
  function Start(c: Stmt): Build
    requires c.ClassStmt?
  {
    Build([Settings()], [], [], false, c.decorators)
  }

  function RebuildClass(c: Stmt, vars: seq<Stmt>): Option<Build>
    requires c.ClassStmt?
  {
    Members(c.members, 0, Start(c), Context(c.members, vars))
  }

  /** The class node after `node.body.body = classBody`. */
  function Rebuilt(c: Stmt, b: Build): Stmt
    requires c.ClassStmt?
  {
    ClassStmt(c.id, c.superClass, b.classBody, b.decorators, c.comments)
  }

  method StepMember(m: ClassMember, st: Build, ctx: Context) returns (r: Option<Build>)
    ensures r == MemberStep(m, st, ctx)
  {
    if !m.MethodDef? {
      r := Some(st);
    } else if m.key == "signature" {
      r := SignatureMethod(m, st);
    } else if m.key == "description" {
      r := DescriptionStep(m, st);
    } else if m.key == "handle" {
      r := HandleMethod(m, st, ctx);
    } else {
      r := Some(st);
    }
  }

  /** `node.body.body.filter(ClassMethod).forEach(...)` */
  method RebuildMembers(c: Stmt, vars: seq<Stmt>) returns (r: Option<Build>)
    requires c.ClassStmt?
    ensures r == RebuildClass(c, vars)
  {
    var ctx := Context(c.members, vars);
    var st := Start(c);
    var i := 0;
    while i < |c.members|
      invariant 0 <= i <= |c.members|
      invariant Members(c.members, i, st, ctx) == RebuildClass(c, vars)
    {
      var next := StepMember(c.members[i], st, ctx);
      if next.None? {
        return None;
      }
      st := next.value;
      i := i + 1;
    }
    r := Some(st);
  }

  // ---------------------------------------------------------------- the file

  /** `root.find(ClassDeclaration, { superClass: { name: local } })`, at the top of the file. */
  predicate IsCommandClass(s: Stmt, local: string) {
    s.ClassStmt? && s.superClass == Some(Ident(local))
  }

  function CountClasses(body: seq<Stmt>, local: string): nat {
    if body == [] then 0 else (if IsCommandClass(body[0], local) then 1 else 0) + CountClasses(body[1..], local)
  }

  function FirstClass(body: seq<Stmt>, local: string): (r: Option<nat>)
    ensures r.Some? ==> r.value < |body| && IsCommandClass(body[r.value], local)
    ensures r.Some? ==> forall j :: 0 <= j < r.value ==> !IsCommandClass(body[j], local)
    ensures r.None? <==> CountClasses(body, local) == 0
  {
    if body == [] then None
    else if IsCommandClass(body[0], local) then Some(0)
    else match FirstClass(body[1..], local)
      case None => None
      case Some(k) => Some(k + 1)
  }

  /** The top-level variable declarations, in order. */
  function TopVars(body: seq<Stmt>): (r: seq<Stmt>)
    ensures forall s :: s in r <==> s in body && s.VarDecl?
  {
    if body == [] then [] else (if body[0].VarDecl? then [body[0]] else []) + TopVars(body[1..])
  }

  /** `root.find(ImportDeclaration, { source: { value: <Application> }, specifiers: [{ local: { name: 'Application' } }] })` */
  predicate ImportsApplication(s: Stmt) {
    s.Import? && s.source == AppSource && |s.specs| > 0 && s.specs[0].local == "Application"
  }

  /**
   * The file after the class is replaced: the new import right before the
   * rebuilt class and, once `handle` has run, without its top-level variable
   * declarations and its Application import.
   */
  function Emit(body: seq<Stmt>, local: string, cls: Stmt, handled: bool): seq<Stmt> {
    if body == [] then [] else EmitOne(body[0], local, cls, handled) + Emit(body[1..], local, cls, handled)
  }

  function EmitOne(s: Stmt, local: string, cls: Stmt, handled: bool): seq<Stmt> {
    if IsCommandClass(s, local) then [CommandImport(), cls]
    else if handled && (s.VarDecl? || ImportsApplication(s)) then []
    else [s]
  }

  /** The local name `Command` is imported under from `@adonisjs/ace`. */
  function CommandLocal(body: seq<Stmt>, pos: SpecPos): string
    requires ValidPos(body, pos)
  {
    body[pos.decl].specs[pos.spec].local
  }

  /**
   * The `adonis-command` pass.  Without `import { Command } from '@adonisjs/ace'`
   * or a class extending it the file is unchanged.  A second command class makes
   * the removal of the already removed import throw.
   */
  function Command(p: Program): Option<Program> {
    match FirstNamedSpec(p.body, AceSource, "Command")
    case None => Some(p)
    case Some(pos) =>
      var local := CommandLocal(p.body, pos);
      match FirstClass(p.body, local)
      case None => Some(p)
      case Some(i) =>
        if CountClasses(p.body, local) > 1 then None
        else match RebuildClass(p.body[i], TopVars(p.body))
          case None => None
          case Some(b) =>
            Some(Program(Emit(RemoveSpecifier(p.body, pos), local, Rebuilt(p.body[i], b), b.handled), p.comments))
  }

  method Run(p: Program) returns (r: Option<Program>)
    ensures r == Command(p)
  {
    var pos := FirstNamedSpec(p.body, AceSource, "Command");
    if pos.None? {
      return Some(p);
    }
    var local := CommandLocal(p.body, pos.value);
    var i := FirstClass(p.body, local);
    if i.None? {
      return Some(p);
    }
    if CountClasses(p.body, local) > 1 {
      return None;
    }
    var c := p.body[i.value];
    var b := RebuildMembers(c, TopVars(p.body));
    if b.None? {
      return None;
    }
    r := Some(Program(Emit(RemoveSpecifier(p.body, pos.value), local, Rebuilt(c, b.value), b.value.handled), p.comments));
  }

  // ---------------------------------------------------------------- properties

  /** Every field gives one property and one name, on `args` or on `flags` by its kind. */
  lemma {:induction false} OneNamePerField(fields: seq<Field>)
    ensures |fields| == |ArgNames(fields)| + |FlagNames(fields)|
  {
    if fields != [] {
      OneNamePerField(fields[1..]);
    }
  }

  /** The properties follow the fields one for one, in order. */
  lemma {:induction false} OnePropertyPerField(fields: seq<Field>)
    ensures |Properties(fields)| == |fields|
    ensures forall k :: 0 <= k < |fields| ==> Properties(fields)[k] == ArgProperty(fields[k])
  {
    if fields != [] {
      OnePropertyPerField(fields[1..]);
      var p := Properties(fields);
      assert p == [ArgProperty(fields[0])] + Properties(fields[1..]);
      forall k | 0 <= k < |fields| ensures p[k] == ArgProperty(fields[k]) {
        if k > 0 {
          assert p[k] == Properties(fields[1..])[k - 1] && fields[k] == fields[1..][k - 1];
        }
      }
    }
  }

  /** The corrected decorator: an argument is required exactly when it is not marked optional; a flag has a description only. */
  lemma RequiredUnlessOptional(f: Field)
    ensures var d := ArgProperty(f).decorators;
      |d| == 1 && d[0] == Decorator(IsFlag(f), DecoratorOptions(f)) &&
      (IsFlag(f) ==> DecoratorOptions(f) == [InitProp("description", Str(f.description))]) &&
      (!IsFlag(f) ==> DecoratorOptions(f)[1] == InitProp("required", Lit(if f.optional then "false" else "true")))
  {
  }

  /** As written, `{name?}` makes an argument the decorator declares required. */
  lemma {:induction false} OptionalArgumentRequiredAsWritten(name: string)
    requires Plain(name) && !StartsWith(name, "-")
    ensures var f := ParseField(name + "?");
      f.optional && !IsFlag(f) &&
      ArgPropertyAsWritten(f).decorators == [Decorator(false, [InitProp("description", Str("")), InitProp("required", Lit("true"))])]
  {
    OptionalMark(name);
    var f := Field(true, None, name, "");
    assert !IsFlag(f);
    assert DecoratorOptionsAsWritten(f) == [InitProp("description", Str("")), InitProp("required", Lit("true"))];
  }

  /** Corrected, `{name?}` gives an argument that is not required, and `{name}` one that is. */
  lemma {:induction false} OptionalArgumentNotRequired(name: string)
    requires Plain(name) && !StartsWith(name, "-")
    ensures ArgProperty(ParseField(name + "?")).decorators ==
      [Decorator(false, [InitProp("description", Str("")), InitProp("required", Lit("false"))])]
  {
    OptionalMark(name);
    var f := Field(true, None, name, "");
    assert !IsFlag(f);
    assert DecoratorOptions(f) == [InitProp("description", Str("")), InitProp("required", Lit("false"))];
  }


  // ---------------------------------------------------------------- the rebuilt class

  /** `@args.string(...)` or `@flags.string(...)` */
  predicate IsArgDecorator(d: Expr) {
    d.Call? && d.callee.Member? && (d.callee.obj == Ident("args") || d.callee.obj == Ident("flags")) && d.callee.prop == Ident("string")
  }

  /** A member the pass generates after `settings`. */
  predicate Generated(m: ClassMember) {
    (m.FieldDef? && m.isStatic && m.decorators == [] && m.value.Some? && (m.key == "commandName" || m.key == "description")) ||
    (m.FieldDef? && !m.isStatic && m.typeAnn == "string" && |m.decorators| == 1 && IsArgDecorator(m.decorators[0])) ||
    (m.MethodDef? && m.key == "run" && m.params == [] && m.body != [] && m.body[0] == AppDecl())
  }

  /** `settings` first, then generated members only. */
  predicate Shaped(classBody: seq<ClassMember>) {
    |classBody| > 0 && classBody[0] == Settings() && forall k :: 1 <= k < |classBody| ==> Generated(classBody[k])
  }

  lemma {:induction false} PropertiesGenerated(fields: seq<Field>)
    ensures forall k :: 0 <= k < |Properties(fields)| ==> Generated(Properties(fields)[k])
  {
    OnePropertyPerField(fields);
  }

  lemma {:induction false} StepShaped(m: ClassMember, st: Build, ctx: Context)
    requires Shaped(st.classBody) && MemberStep(m, st, ctx).Some?
    ensures Shaped(MemberStep(m, st, ctx).value.classBody)
  {
    if m.MethodDef? && m.key == "signature" {
      SignatureShaped(m, st);
    }
  }

  lemma {:induction false} SignatureShaped(m: ClassMember, st: Build)
    requires m.MethodDef? && Shaped(st.classBody) && SignatureStep(m, st).Some?
    ensures Shaped(SignatureStep(m, st).value.classBody)
  {
    var text := SignatureText(m.body).value;
    var fields := SignatureFields(text);
    PropertiesGenerated(fields);
    var ps := Properties(fields);
    var added := [StaticField("commandName", Str(CommandName(text)))] + ps;
    assert SignatureStep(m, st).value.classBody == st.classBody + added;
    forall k | 0 <= k < |added| ensures Generated(added[k]) {
      if k > 0 {
        assert added[k] == ps[k - 1];
      }
    }
  }

  lemma {:induction false} MembersShaped(ms: seq<ClassMember>, i: nat, st: Build, ctx: Context)
    requires Shaped(st.classBody) && Members(ms, i, st, ctx).Some?
    ensures Shaped(Members(ms, i, st, ctx).value.classBody)
    decreases |ms| - i
  {
    if i < |ms| {
      StepShaped(ms[i], st, ctx);
      MembersShaped(ms, i + 1, MemberStep(ms[i], st, ctx).value, ctx);
    }
  }

  /** The rebuilt class body is `settings` and then only generated members: every other member is gone. */
  lemma {:induction false} ClassShape(c: Stmt, vars: seq<Stmt>)
    requires c.ClassStmt? && RebuildClass(c, vars).Some?
    ensures Shaped(RebuildClass(c, vars).value.classBody)
  {
    MembersShaped(c.members, 0, Start(c), Context(c.members, vars));
  }

  /** Only `handle` sets the flag that the file's variables and Application import have moved. */
  lemma {:induction false} MembersHandled(ms: seq<ClassMember>, i: nat, st: Build, ctx: Context)
    requires Members(ms, i, st, ctx).Some?
    ensures Members(ms, i, st, ctx).value.handled <==> st.handled || exists j :: i <= j < |ms| && IsHandle(ms[j])
    decreases |ms| - i
  {
    if i < |ms| {
      var next := MemberStep(ms[i], st, ctx).value;
      assert next.handled <==> st.handled || IsHandle(ms[i]);
      MembersHandled(ms, i + 1, next, ctx);
      if IsHandle(ms[i]) {
        assert exists j :: i <= j < |ms| && IsHandle(ms[j]);
      }
      if exists j :: i + 1 <= j < |ms| && IsHandle(ms[j]) {
        var j :| i + 1 <= j < |ms| && IsHandle(ms[j]);
        assert i <= j < |ms|;
      }
      if exists j :: i <= j < |ms| && IsHandle(ms[j]) {
        var j :| i <= j < |ms| && IsHandle(ms[j]);
        assert j == i || (i + 1 <= j < |ms| && IsHandle(ms[j]));
      }
    }
  }

  /** The rebuilt class has handled the file exactly when it has a `handle` method. */
  lemma {:induction false} HandledIffHandle(c: Stmt, vars: seq<Stmt>)
    requires c.ClassStmt? && RebuildClass(c, vars).Some?
    ensures RebuildClass(c, vars).value.handled <==> exists j :: 0 <= j < |c.members| && IsHandle(c.members[j])
  {
    MembersHandled(c.members, 0, Start(c), Context(c.members, vars));
  }

  /** `part` stands in `whole` from position `k` on. */
  predicate SegmentAt(whole: seq<Stmt>, part: seq<Stmt>, k: int) {
    0 <= k && k + |part| <= |whole| && whole[k..k + |part|] == part
  }

  /** The first `handle` takes the file's top-level variable declarations into `run`, as one block after its resolutions. */
  lemma {:induction false} VarsMovedIntoRun(m: ClassMember, st: Build, ctx: Context)
    requires m.MethodDef? && !st.handled && HandleStep(m, st, ctx).Some?
    ensures var b := HandleStep(m, st, ctx).value;
      |b.classBody| == |st.classBody| + 1 && b.classBody[..|st.classBody|] == st.classBody &&
      var run := b.classBody[|st.classBody|];
      run.MethodDef? && run.key == "run" && run.params == [] &&
      exists k :: 1 <= k && SegmentAt(run.body, ctx.vars, k)
  {
    var b := HandleStep(m, st, ctx).value;
    var body1 := SpliceParams(m.body, m.params, 0, st.args, st.flags).value;
    var run := b.classBody[|st.classBody|];
    var front := if st.decorators == [] then [] else InjectFront(FirstInject(st.decorators), ctx.members).value;
    assert run.body == [AppDecl()] + front + ctx.vars + body1;
    var k := 1 + |front|;
    assert run.body[k..k + |ctx.vars|] == ctx.vars;
    assert SegmentAt(run.body, ctx.vars, k);
  }

  // ---------------------------------------------------------------- the file around the class

  /** The statements other than the command class as they come out: all of them, or, once handled, all but the moved ones. */
  function Kept(ss: seq<Stmt>, handled: bool): (r: seq<Stmt>)
    ensures !handled ==> r == ss
    ensures forall s :: s in r <==> s in ss && !(handled && (s.VarDecl? || ImportsApplication(s)))
  {
    if ss == [] then []
    else (if handled && (ss[0].VarDecl? || ImportsApplication(ss[0])) then [] else [ss[0]]) + Kept(ss[1..], handled)
  }

  lemma {:induction false} EmitAppend(a: seq<Stmt>, b: seq<Stmt>, local: string, cls: Stmt, handled: bool)
    ensures Emit(a + b, local, cls, handled) == Emit(a, local, cls, handled) + Emit(b, local, cls, handled)
  {
    if a == [] {
      assert a + b == b;
    } else {
      assert (a + b)[0] == a[0] && (a + b)[1..] == a[1..] + b;
      EmitAppend(a[1..], b, local, cls, handled);
    }
  }

  lemma {:induction false} EmitNoClass(ss: seq<Stmt>, local: string, cls: Stmt, handled: bool)
    requires CountClasses(ss, local) == 0
    ensures Emit(ss, local, cls, handled) == Kept(ss, handled)
  {
    if ss != [] {
      EmitNoClass(ss[1..], local, cls, handled);
    }
  }

  lemma {:induction false} CountAppend(a: seq<Stmt>, b: seq<Stmt>, local: string)
    ensures CountClasses(a + b, local) == CountClasses(a, local) + CountClasses(b, local)
  {
    if a == [] {
      assert a + b == b;
    } else {
      assert (a + b)[0] == a[0] && (a + b)[1..] == a[1..] + b;
      CountAppend(a[1..], b, local);
    }
  }

  lemma {:induction false} NoClassCounted(ss: seq<Stmt>, local: string)
    requires forall j :: 0 <= j < |ss| ==> !IsCommandClass(ss[j], local)
    ensures CountClasses(ss, local) == 0
  {
    if ss != [] {
      NoClassCounted(ss[1..], local);
    }
  }

  /** With one command class, the file is the kept statements before it, the new import, the class, and the kept statements after it. */
  lemma {:induction false} EmitAround(body: seq<Stmt>, local: string, cls: Stmt, handled: bool)
    requires CountClasses(body, local) == 1
    ensures var i := FirstClass(body, local).value;
      Emit(body, local, cls, handled) == Kept(body[..i], handled) + [CommandImport(), cls] + Kept(body[i + 1..], handled)
  {
    var i := FirstClass(body, local).value;
    assert body == body[..i] + ([body[i]] + body[i + 1..]);
    CountAppend(body[..i], [body[i]] + body[i + 1..], local);
    CountAppend([body[i]], body[i + 1..], local);
    NoClassCounted(body[..i], local);
    EmitAppend(body[..i], [body[i]] + body[i + 1..], local, cls, handled);
    EmitAppend([body[i]], body[i + 1..], local, cls, handled);
    EmitNoClass(body[..i], local, cls, handled);
    EmitNoClass(body[i + 1..], local, cls, handled);
    assert Emit([body[i]], local, cls, handled) == [CommandImport(), cls];
  }

  /** Removing the `Command` binding touches an import only: the command classes are the same. */
  lemma {:induction false} RemoveKeepsClasses(body: seq<Stmt>, pos: SpecPos, local: string)
    requires ValidPos(body, pos)
    ensures CountClasses(RemoveSpecifier(body, pos), local) == CountClasses(body, local)
  {
    var d := pos.decl;
    var pre, post := body[..d], body[d + 1..];
    var r := RemoveSpecifier(body, pos);
    assert body == pre + [body[d]] + post;
    CountAround(pre, body[d], post, local);
    if |body[d].specs| > 1 {
      assert r == pre + [r[d]] + post;
      CountAround(pre, r[d], post, local);
    } else {
      CountAppend(pre, post, local);
    }
  }

  lemma CountAround(pre: seq<Stmt>, x: Stmt, post: seq<Stmt>, local: string)
    ensures CountClasses(pre + [x] + post, local) ==
      CountClasses(pre, local) + (if IsCommandClass(x, local) then 1 else 0) + CountClasses(post, local)
  {
    CountAppend(pre + [x], post, local);
    CountAppend(pre, [x], local);
    assert CountClasses([x], local) == (if IsCommandClass(x, local) then 1 else 0) + CountClasses([], local);
  }

  /** The rebuilt file: the kept statements, the new import and the rebuilt class in between. */
  lemma {:induction false} CommandSplit(p: Program, pos: SpecPos) returns (before: seq<Stmt>, after: seq<Stmt>)
    requires FirstNamedSpec(p.body, AceSource, "Command") == Some(pos)
    requires FirstClass(p.body, CommandLocal(p.body, pos)).Some? && Command(p).Some?
    ensures var local := CommandLocal(p.body, pos);
      var c := p.body[FirstClass(p.body, local).value];
      var b := RebuildClass(c, TopVars(p.body)).value;
      Command(p).value.body == before + [CommandImport(), Rebuilt(c, b)] + after &&
      (b.handled ==> forall s :: s in before + after ==> !s.VarDecl? && !ImportsApplication(s))
  {
    var local := CommandLocal(p.body, pos);
    var c := p.body[FirstClass(p.body, local).value];
    var b := RebuildClass(c, TopVars(p.body)).value;
    var body1 := RemoveSpecifier(p.body, pos);
    RemoveKeepsClasses(p.body, pos, local);
    EmitAround(body1, local, Rebuilt(c, b), b.handled);
    var i := FirstClass(body1, local).value;
    before, after := Kept(body1[..i], b.handled), Kept(body1[i + 1..], b.handled);
  }

  /**
   * The pass on a file with `Command` imported from `@adonisjs/ace` and one
   * class extending it: the new import stands right before the rebuilt class,
   * which keeps its name and has only generated members after `settings`.
   */
  lemma {:induction false} ImportBeforeClass(p: Program, pos: SpecPos)
    requires FirstNamedSpec(p.body, AceSource, "Command") == Some(pos)
    requires FirstClass(p.body, CommandLocal(p.body, pos)).Some? && Command(p).Some?
    ensures var q := Command(p).value;
      var local := CommandLocal(p.body, pos);
      var c := p.body[FirstClass(p.body, local).value];
      exists k :: 0 <= k < |q.body| - 1 && q.body[k] == CommandImport() &&
        IsCommandClass(q.body[k + 1], local) && q.body[k + 1].id == c.id && Shaped(q.body[k + 1].members)
  {
    var local := CommandLocal(p.body, pos);
    var c := p.body[FirstClass(p.body, local).value];
    var vars := TopVars(p.body);
    var before, after := CommandSplit(p, pos);
    var q := Command(p).value;
    var k := |before|;
    assert q.body[k] == CommandImport() && q.body[k + 1] == Rebuilt(c, RebuildClass(c, vars).value);
    ClassShape(c, vars);
  }

  /** With a `handle` method no top-level variable declaration and no Application import is left in the file. */
  lemma {:induction false} HandleEmptiesFile(p: Program, pos: SpecPos)
    requires FirstNamedSpec(p.body, AceSource, "Command") == Some(pos)
    requires FirstClass(p.body, CommandLocal(p.body, pos)).Some? && Command(p).Some?
    requires var c := p.body[FirstClass(p.body, CommandLocal(p.body, pos)).value];
      exists j :: 0 <= j < |c.members| && IsHandle(c.members[j])
    ensures forall s :: s in Command(p).value.body ==> !s.VarDecl? && !ImportsApplication(s)
  {
    var local := CommandLocal(p.body, pos);
    var c := p.body[FirstClass(p.body, local).value];
    var vars := TopVars(p.body);
    HandledIffHandle(c, vars);
    var before, after := CommandSplit(p, pos);
    var cls := Rebuilt(c, RebuildClass(c, vars).value);
    forall s | s in Command(p).value.body ensures !s.VarDecl? && !ImportsApplication(s) {
      if s !in before + after {
        assert s == CommandImport() || s == cls;
      }
    }
  }
}
