/**
 * The command-line front end: which plugins the `migrate` command runs, and the
 * change tracking of the `reignore` command, which records the original text of
 * every file that a wrapped plugin changed so that the final eslint-fix only
 * touches those files.  The plugins themselves are parameters here: their runs
 * are functions from a file name and a text to a new text, or none.
 */
module Cli {
  import opened Ast

  /** The plugins `cli.ts` refers to, named after its own identifiers. */
  datatype PluginId =
    | NoStrictPlugin | CjsPlugin | ExportsPlugin | ImportCleanupPlugin | LetPlugin | JsDocPlugin
    | NamedExportGenerationPlugin | IocContainerPlugin | ClassInjectPlugin | ServiceProviderPlugin
    | RemoveIocPlugin | CommandPlugin | FactoryPlugin | ModelPlugin | MigrationPlugin | SeederPlugin
    | TestingPlugin | ChoresPlugin
    | EslintFixPlugin | StripTsIgnorePlugin | HoistClassStaticsPlugin | DeclareMissingClassPropertiesPlugin
    | MemberAccessibilityPlugin | ExplicitAnyPlugin | AddConversionsPlugin | TsIgnorePlugin

  /** The plugins `--plugin` can name, in the order of `availablePlugins`. */
  function AvailablePlugins(): (r: seq<PluginId>)
    ensures |r| == 18 && r[0] == NoStrictPlugin && r[17] == ChoresPlugin
    ensures forall i, j :: 0 <= i < j < |r| ==> r[i] != r[j]
  {
    [NoStrictPlugin, CjsPlugin, ExportsPlugin, ImportCleanupPlugin, LetPlugin, JsDocPlugin,
     NamedExportGenerationPlugin, IocContainerPlugin, ClassInjectPlugin, ServiceProviderPlugin,
     RemoveIocPlugin, CommandPlugin, FactoryPlugin, ModelPlugin, MigrationPlugin, SeederPlugin,
     TestingPlugin, ChoresPlugin]
  }

  predicate IsAvailable(p: PluginId) {
    !(p.EslintFixPlugin? || p.StripTsIgnorePlugin? || p.HoistClassStaticsPlugin? ||
      p.DeclareMissingClassPropertiesPlugin? || p.MemberAccessibilityPlugin? || p.ExplicitAnyPlugin? ||
      p.AddConversionsPlugin? || p.TsIgnorePlugin?)
  }

  /** The `name` each available plugin declares. */
  function Name(p: PluginId): string
    requires IsAvailable(p)
  {
    match p
    case NoStrictPlugin => "no-strict"
    case CjsPlugin => "cjs"
    case ExportsPlugin => "exports"
    case ImportCleanupPlugin => "import-cleanup"
    case LetPlugin => "let"
    case JsDocPlugin => "jsdoc"
    case NamedExportGenerationPlugin => "named-export-generation"
    case IocContainerPlugin => "adonis-ioc-container"
    case ClassInjectPlugin => "adonis-class-inject"
    case ServiceProviderPlugin => "adonis-service-provider"
    case RemoveIocPlugin => "adonis-remove-ioc-imported"
    case CommandPlugin => "adonis-command"
    case FactoryPlugin => "adonis-factory"
    case ModelPlugin => "adonis-model"
    case MigrationPlugin => "adonis-migration"
    case SeederPlugin => "adonis-seeder"
    case TestingPlugin => "adonis-testing"
    case ChoresPlugin => "adonis-chores-jscodeshift"
  }

  lemma AvailableHaveNames()
    ensures forall i :: 0 <= i < |AvailablePlugins()| ==> IsAvailable(AvailablePlugins()[i])
  {
  }

  /** `availablePlugins.find(cur => cur.name === name)`, as an index. */
  function FindPlugin(ps: seq<PluginId>, name: string): (r: Option<nat>)
    requires forall i :: 0 <= i < |ps| ==> IsAvailable(ps[i])
    ensures r.None? <==> forall i :: 0 <= i < |ps| ==> Name(ps[i]) != name
    ensures r.Some? ==> r.value < |ps| && Name(ps[r.value]) == name &&
                        forall i :: 0 <= i < r.value ==> Name(ps[i]) != name
  {
    FirstIndex(Names(ps), name)
  }

  function Names(ps: seq<PluginId>): (r: seq<string>)
    requires forall i :: 0 <= i < |ps| ==> IsAvailable(ps[i])
    ensures |r| == |ps| && forall i :: 0 <= i < |ps| ==> r[i] == Name(ps[i])
  {
    seq(|ps|, i requires 0 <= i < |ps| => Name(ps[i]))
  }

  /** The first index holding `x`, if any. */
  function FirstIndex(xs: seq<string>, x: string): (r: Option<nat>)
    ensures r.None? <==> forall i :: 0 <= i < |xs| ==> xs[i] != x
    ensures r.Some? ==> r.value < |xs| && xs[r.value] == x && forall i :: 0 <= i < r.value ==> xs[i] != x
  {
    if xs == [] then None
    else if xs[0] == x then Some(0)
    else
      var t := FirstIndex(xs[1..], x);
      assert forall i :: 1 <= i < |xs| ==> xs[1..][i - 1] == xs[i];
      if t.None? then None else Some(t.value + 1)
  }

  datatype Options =
    | NoOptions
    | CjsOptions(hoist: bool)
    | JsDocOptions(anyAlias: Option<string>, typeMap: Option<string>)
    | AccessibilityOptions(defaultAccessibility: string)

  datatype ConfigEntry = ConfigEntry(plugin: PluginId, options: Options)

  /** The arguments of `migrate` the plugin choice reads. `typeMap` is kept as text; parsing it as JSON is not modelled. */
  datatype MigrateArgs = MigrateArgs(plugin: Option<string>, aliases: Option<string>, typeMap: Option<string>)

  /** The configuration `migrate` runs, or the exit code it stops with. */
  datatype Selection = Run(entries: seq<ConfigEntry>) | Exit(code: int)

  function Entry(p: PluginId): ConfigEntry {
    ConfigEntry(p, NoOptions)
  }

  /** The order of the default pipeline, with its options. */
  function DefaultPipeline(): (r: seq<ConfigEntry>)
    ensures |r| == 27
    ensures r[0] == Entry(NoStrictPlugin) && r[1] == ConfigEntry(CjsPlugin, CjsOptions(false))
    ensures forall i :: 0 <= i < |r| ==> r[i].plugin != JsDocPlugin
    // the adonis passes run before the first eslint-fix, which runs right before chores
    ensures forall i :: 0 <= i < 16 ==> r[i].plugin != EslintFixPlugin
    ensures r[16] == Entry(EslintFixPlugin) && r[17] == Entry(ChoresPlugin)
    // it ends with eslint-fix, ts-ignore, eslint-fix
    ensures r[24..] == [Entry(EslintFixPlugin), Entry(TsIgnorePlugin), Entry(EslintFixPlugin)]
    ensures r[21] == ConfigEntry(MemberAccessibilityPlugin, AccessibilityOptions("public"))
  {
    [Entry(NoStrictPlugin), ConfigEntry(CjsPlugin, CjsOptions(false)), Entry(ImportCleanupPlugin),
     Entry(LetPlugin), Entry(ExportsPlugin), Entry(NamedExportGenerationPlugin),
     Entry(IocContainerPlugin), Entry(ClassInjectPlugin), Entry(ServiceProviderPlugin),
     Entry(RemoveIocPlugin), Entry(CommandPlugin), Entry(FactoryPlugin), Entry(ModelPlugin),
     Entry(MigrationPlugin), Entry(SeederPlugin), Entry(TestingPlugin),
     Entry(EslintFixPlugin), Entry(ChoresPlugin),
     Entry(StripTsIgnorePlugin), Entry(HoistClassStaticsPlugin), Entry(DeclareMissingClassPropertiesPlugin),
     ConfigEntry(MemberAccessibilityPlugin, AccessibilityOptions("public")),
     Entry(ExplicitAnyPlugin), Entry(AddConversionsPlugin),
     Entry(EslintFixPlugin), Entry(TsIgnorePlugin), Entry(EslintFixPlugin)]
  }

  /** An empty `--plugin` is falsy and selects the default pipeline, like no `--plugin` at all. */
  predicate NamesPlugin(args: MigrateArgs) {
    args.plugin.Some? && args.plugin.value != ""
  }

  function SelectConfig(args: MigrateArgs): Selection {
    if !NamesPlugin(args) then Run(DefaultPipeline())
    else
      AvailableHaveNames();
      match FindPlugin(AvailablePlugins(), args.plugin.value)
      case None => Exit(1)
      case Some(i) =>
        var p := AvailablePlugins()[i];
        if p == JsDocPlugin then
          Run([ConfigEntry(p, JsDocOptions(if args.aliases == Some("tsfixme") then Some("$TSFixMe") else None, args.typeMap))])
        else Run([Entry(p)])
  }

  /**
   * `--plugin n` runs exactly the one available plugin called `n`, and stops
   * with exit code 1 when there is none; without it the default pipeline runs.
   */
  lemma SelectsByName(args: MigrateArgs)
    ensures !NamesPlugin(args) ==> SelectConfig(args) == Run(DefaultPipeline())
    ensures NamesPlugin(args) ==>
      (SelectConfig(args) == Exit(1) <==>
       forall p :: p in AvailablePlugins() ==> IsAvailable(p) && Name(p) != args.plugin.value)
    ensures NamesPlugin(args) && SelectConfig(args).Run? ==>
      var es := SelectConfig(args).entries;
      |es| == 1 && es[0].plugin in AvailablePlugins() && IsAvailable(es[0].plugin) &&
      Name(es[0].plugin) == args.plugin.value &&
      (es[0].options.JsDocOptions? <==> es[0].plugin == JsDocPlugin)
  {
    AvailableHaveNames();
    if NamesPlugin(args) {
      var ps := AvailablePlugins();
      var r := FindPlugin(ps, args.plugin.value);
      if r.None? {
        forall p | p in ps
          ensures IsAvailable(p) && Name(p) != args.plugin.value
        {
          var i :| 0 <= i < |ps| && ps[i] == p;
        }
      } else {
        assert ps[r.value] in ps;
      }
    }
  }

  // ---------------------------------------------------------------- change tracking

  /** A run changed the file: it gave a text, and one different from its input. */
  predicate Changes(text: string, next: Option<string>) {
    next.Some? && next.value != text
  }

  /** The map after one wrapped run on `fileName` with input `text` and output `next`. */
  function Track(m: map<string, string>, fileName: string, text: string, next: Option<string>): (r: map<string, string>)
    ensures fileName in m ==> r == m
    ensures fileName !in m ==> (fileName in r <==> Changes(text, next)) && (fileName in r ==> r[fileName] == text)
    ensures forall g :: g != fileName ==> (g in r <==> g in m) && (g in m ==> r[g] == m[g])
  {
    if fileName !in m && Changes(text, next) then m[fileName := text] else m
  }

  /** One run of a wrapped plugin. */
  datatype Step = Step(fileName: string, text: string, next: Option<string>)

  function TrackAll(m: map<string, string>, steps: seq<Step>): map<string, string>
    decreases |steps|
  {
    if steps == [] then m
    else TrackAll(Track(m, steps[0].fileName, steps[0].text, steps[0].next), steps[1..])
  }

  /** The first run that changed `fileName`. */
  function FirstChange(steps: seq<Step>, fileName: string): (r: Option<nat>)
    ensures r.Some? ==> r.value < |steps| && steps[r.value].fileName == fileName &&
                        Changes(steps[r.value].text, steps[r.value].next)
    ensures r.Some? ==> forall i :: 0 <= i < r.value ==> !(steps[i].fileName == fileName && Changes(steps[i].text, steps[i].next))
    ensures r.None? ==> forall i :: 0 <= i < |steps| ==> !(steps[i].fileName == fileName && Changes(steps[i].text, steps[i].next))
  {
    if steps == [] then None
    else if steps[0].fileName == fileName && Changes(steps[0].text, steps[0].next) then Some(0)
    else match FirstChange(steps[1..], fileName)
      case None => None
      case Some(i) => Some(i + 1)
  }

  /** An entry, once made, is never overwritten. */
  lemma {:induction false} EntrySetOnce(m: map<string, string>, steps: seq<Step>, fileName: string)
    requires fileName in m
    ensures fileName in TrackAll(m, steps) && TrackAll(m, steps)[fileName] == m[fileName]
    decreases |steps|
  {
    if steps != [] {
      EntrySetOnce(Track(m, steps[0].fileName, steps[0].text, steps[0].next), steps[1..], fileName);
    }
  }

  /**
   * Starting from an empty map, a file has an entry exactly when some wrapped
   * run changed it, and the entry is the input text of the first such run.
   */
  lemma {:induction false} RecordsFirstChange(m: map<string, string>, steps: seq<Step>, fileName: string)
    requires fileName !in m
    ensures fileName in TrackAll(m, steps) <==> FirstChange(steps, fileName).Some?
    ensures fileName in TrackAll(m, steps) ==>
      TrackAll(m, steps)[fileName] == steps[FirstChange(steps, fileName).value].text
    decreases |steps|
  {
    if steps != [] {
      var s := steps[0];
      var m1 := Track(m, s.fileName, s.text, s.next);
      if s.fileName == fileName && Changes(s.text, s.next) {
        EntrySetOnce(m1, steps[1..], fileName);
      } else {
        RecordsFirstChange(m1, steps[1..], fileName);
      }
    }
  }

  /**
   * The state `withChangeTracking` and `eslint-fix-changed` share: the original
   * text of every file a wrapped plugin changed.
   */
  class ChangeTracker {
    var changedFiles: map<string, string>

    constructor()
      ensures changedFiles == map[]
    {
      changedFiles := map[];
    }

    /** `withChangeTracking(plugin).run`: the plugin's own result, recorded when it changed an unseen file. */
    method RunTracked(run: (string, string) -> Option<string>, fileName: string, text: string) returns (r: Option<string>)
      modifies this
      ensures r == run(fileName, text)
      ensures changedFiles == Track(old(changedFiles), fileName, text, r)
    {
      var prevText := text;
      var nextText := run(fileName, text);
      var seen := fileName in changedFiles;
      if !seen && nextText.Some? && nextText.value != prevText {
        changedFiles := changedFiles[fileName := prevText];
      }
      r := nextText;
    }

    /** `eslint-fix-changed`: eslint-fix, only for a file that was changed and still differs from its original. */
    method EslintFixChanged(eslintFix: (string, string) -> Option<string>, fileName: string, text: string) returns (r: Option<string>)
      ensures r == if fileName in changedFiles && changedFiles[fileName] != text then eslintFix(fileName, text) else None
    {
      if fileName !in changedFiles {
        return None;
      }
      if changedFiles[fileName] == text {
        return None;
      }
      r := eslintFix(fileName, text);
    }
  }

  /**
   * After a sequence of wrapped runs, eslint-fix-changed runs eslint-fix on a
   * file exactly when some run changed it and its text now differs from the
   * input of the first run that did.
   */
  lemma FixesOnlyChangedFiles(steps: seq<Step>, fileName: string, text: string)
    ensures var m := TrackAll(map[], steps);
      (fileName in m && m[fileName] != text) <==>
      (FirstChange(steps, fileName).Some? && steps[FirstChange(steps, fileName).value].text != text)
  {
    RecordsFirstChange(map[], steps, fileName);
  }
}
