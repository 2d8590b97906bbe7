# adonis-v5-migrate, modelled in Dafny

adonis-v5-migrate moves an AdonisJS 4 application to AdonisJS 5 and TypeScript.
Its `migrate` command runs a pipeline of jscodeshift codemods over every file.
Each codemod parses the file, rewrites its syntax tree and prints it back.
This project models those codemods as functions on a syntax tree and proves what
each one promises.

The syntax tree (`Ast`) is a closed set of datatypes for the JavaScript the
passes look at: statements, expressions, class members, object properties,
declarators and comments. `Traverse` gives a post-order rewrite of a whole tree
(`MapSs`) and a document-order collect (`CollSs`), with lemmas that lift a
property of one node to the whole tree. These two stand in for jscodeshift's
`find`, `filter`, `forEach` and `replaceWith`.

The modelled codemods:

- the generic passes: no-strict, cjs (`require` to `import`), import-cleanup,
  let, exports (`module.exports` to `export`) and named-export generation;
- the Adonis passes: ioc-container, class-inject, service-provider, remove-ioc,
  command, factory, model, migration, seeder, testing and chores;
- the shared helpers of `src/utils.ts`;
- the plugin choice and change tracking of the command-line front end.

Each pass is a function from a program to a program. It returns `Option` where
the source can throw; that case is `None`. Where the source works by loops and
mutation, a `method` with the same loop is proved equal to that function. The
import cursor the Adonis passes share is a class (`Cursor.ImportCursor`).

Whatever a pass reads from outside the file is a parameter of the model:

- the printer (`render`, recast's `toSource`);
- the pluralizer;
- the migration classes' `up` methods that the model pass reads;
- the random hook names;
- the file name and the project root;
- the runs of the ts-migrate plugins the front end wraps.

## Model

| member | source | states |
|---|---|---|
| LetPass.VarToLet | src/let-plugin-jscodeshift.ts:17-20 | a `var` declaration, bare or under `export`, becomes a `let` declaration with the same declarators and comments; every other statement stays |
| LetPass.RunLeavesNoVar | src/let-plugin-jscodeshift.ts:17-21 | after the pass no `var` declaration, exported or not, remains at any depth |
| LetPass.RunIdempotent | src/let-plugin-jscodeshift.ts:17-21 | running the pass on its own output changes nothing |
| LetPass.RunWithoutVar | src/let-plugin-jscodeshift.ts:17-21 | a program without `var` is returned unchanged |
| LetPass.RunTopLevel | src/let-plugin-jscodeshift.ts:17-20 | at the top level the pass maps statement to statement, keeping comments and declarators and changing only `var` to `let` |
| LetPass.ExportedVarBecomesLet | src/let-plugin-jscodeshift.ts:17-20 | `export var x = e` becomes `export let x = e` |
| NoStrict.Run | src/no-strict-plugin-jscodeshift.ts:16-30 | the method's single walk removes every `'use strict'` statement and raises the re-attach flag exactly when one was a direct child of the program; its result equals `NoStrict` |
| NoStrict.KidsKeepUseStrict | src/no-strict-plugin-jscodeshift.ts:21 | rewriting inside a statement does not change whether it is a `'use strict'` statement |
| NoStrict.RemovesEveryUseStrict | src/no-strict-plugin-jscodeshift.ts:20-25 | no `'use strict'` statement remains at any depth |
| NoStrict.KeepsOtherStatementsInOrder | src/no-strict-plugin-jscodeshift.ts:20-25 | the other top-level statements remain, in their original relative order |
| NoStrict.CommentsReattachedIffTopLevelRemoved | src/no-strict-plugin-jscodeshift.ts:16-30 | the file's comments change if and only if a top-level `'use strict'` was removed, and then become the first statement's leading comments |
| NoStrict.SecondRunChangesNothing | src/no-strict-plugin-jscodeshift.ts:16-30 | a second run removes nothing and leaves the file's comments alone |
| Utils.GetConfig | src/utils.ts:223-252 | the two copy loops compute `Config`: the filtered defaults, then the filtered options on top, when the options are a plain object |
| Utils.ConfigKeys | src/utils.ts:223-252 | a key is in the merged configuration if and only if it passes the filter and is a key of the defaults or of the object options; the defaults' keys come first, in order |
| Utils.ConfigValues | src/utils.ts:231-249 | an option's value overrides the default's; a key that does not pass the filter is absent |
| Utils.ConfigIgnoresNonObjectOptions | src/utils.ts:237-242 | null, array and non-object options are ignored: the result is the filtered defaults |
| Utils.RecastAndTransformKeysDisjoint | src/utils.ts:188-272 | the printer configuration holds only recast keys, the transform configuration none, so they never share a key |
| Utils.RecastConfigWithoutOptions | src/utils.ts:215-272 | without options the printer configuration is `quote: 'single'`, `trailingComma: true`, `tabWidth: 2`, in that order |
| Utils.CreateImportStatement | src/utils.ts:53-98 | the result is an import of `moduleName` carrying the comments: no specifier without a variable name, one named specifier per destructured name, otherwise one default specifier, or a named one for a property other than `default` |
| Utils.RequireToImportKeepsBindings | src/utils.ts:113-186 | converting `var <pattern> = require('m')` gives an import from `m` binding exactly the names the declarator bound, in order, each to the export of the same key (with lines 53-98 of the same file) |
| Utils.MemberRequireImportsProperty | src/utils.ts:86-135 | `var v = require('m').p` imports `p` as `v`, and `.default` as the default export |
| Utils.RequireFormsExclusive | src/utils.ts:308-397 | one declarator matches at most one of the default, named and called require patterns, so sorting their union is document order |
| Utils.FindLastImportIndex | src/utils.ts:399-422 | the index of the last import-like top-level statement, or -1 exactly when there is none; nothing after it is import-like |
| Utils.TsxCountsOnlyImportDeclarations | src/utils.ts:308-419 | under the `tsx` parser only import declarations are import-like, because the require patterns ask for a `Literal` node |
| Utils.NearestOfType | src/utils.ts:274-284 | the nearest ancestor of the given type, with none of that type below it; `None` exactly when no ancestor has the type |
| Utils.FindParentOfType | src/utils.ts:274-284 | the climbing loop returns the nearest ancestor of the given type |
| Utils.HasParentOfTypeIff | src/utils.ts:304-306 | `hasParentOfType` holds if and only if some ancestor has the type |
| Utils.FindLastParentCall | src/utils.ts:286-302 | the result is a call ancestor that is the first one or has a member callee, and no later call ancestor has a member callee; `None` when there is no call ancestor |
| Utils.SingleVarToExpressions | src/utils.ts:16-42 | a declaration with more than one declarator gives one single-declarator `var` per declarator, in order, holding exactly the original declarators; anything else gives `None` |
| Utils.SplitBeforeUpper | src/utils.ts:426 | the pieces concatenate back to the text |
| Utils.CamelToSnakeInsertsUnderscores | src/utils.ts:424-429 | `camelToSnake` equals an independent character-by-character definition: `_` before each upper-case letter except at index 0, then lower case |
| Utils.CamelToSnakeIsLowerCase | src/utils.ts:424-429 | the result of `camelToSnake` holds no upper-case letter |
| Utils.CapitalizeFirstLetter | src/utils.ts:435-437 | only the first character changes, to upper case |
| Cursor.InsertAllConsecutive | src/adonis-chores-plugin-jscodeshift.ts:17-26 | successive `insertImport` calls land consecutively, in call order, right after the starting index (at the front for -1) |
| Cursor.InsertAllAppend | src/adonis-seeder-plugin-jscodeshift.ts:17-26 | inserting one batch and then another at the advanced index is inserting both at once |
| Cursor.CursorFollowsImports | src/adonis-chores-plugin-jscodeshift.ts:17-26 | started at the last import-like statement, the new declarations come after every import-like statement and before everything that followed it; with no import they open the file |
| Cursor.InsertAfterLastImport | src/adonis-seeder-plugin-jscodeshift.ts:17-24 | inserted after the last import, the new statement becomes the last import |
| Cursor.ImportCursor.InsertImport | src/adonis-seeder-plugin-jscodeshift.ts:18-26 | one `insertImport`: the body gets the declaration right after the index, and the index moves on by one |
| Cursor.ImportCursor.InsertImports | src/adonis-chores-plugin-jscodeshift.ts:18-26 | one `insertImport` per declaration, in order; the index moves on by the number inserted |
| Strings.IndexOf | src/utils.ts:208 | `indexOf`: the first position where the pattern occurs, or -1 exactly when it does not occur |
| JsObject.Put | src/utils.ts:234-247 | `o[k] = v`: an existing key keeps its place and gets the new value, a new key goes last |
| Cjs.ConvertRequire | src/cjs-plugin-jscodeshift.ts:220-223 | `convertRequire` gives an import carrying exactly the given comments |
| Cjs.FactoryNameSpec | src/cjs-plugin-jscodeshift.ts:273-284 | the factory name is the identifier, or the pattern's keys joined, followed by `Factory` |
| Cjs.CreateIntermediateImport | src/cjs-plugin-jscodeshift.ts:271-296 | `import <name>Factory from '<module>'`, the module being the inner call's first argument, with only the leading comments |
| Cjs.CreateRequire | src/cjs-plugin-jscodeshift.ts:225-242 | the called form `require('m')(args)` gives an import and a declaration; anything else gives the single `convertRequire` import |
| Cjs.CalledRequireSplitsInTwo | src/cjs-plugin-jscodeshift.ts:225-323 | `var x = require('y')(args)` becomes exactly `import xFactory from 'y'` with the leading comments and `const x = xFactory(args)` with the trailing ones |
| Cjs.DeclaratorComments | src/cjs-plugin-jscodeshift.ts:246-259 | a comment is kept if and only if it is a leading comment of the declaration for the first match, a trailing one when the declarator is the last left, or the declarator's own |
| Cjs.ReplaceDeclarator | src/cjs-plugin-jscodeshift.ts:244-269 | the declaration is replaced exactly when one declarator is left; otherwise the imports go before it and the declarator is removed from it |
| Cjs.ReplaceDeclarators | src/cjs-plugin-jscodeshift.ts:84-91 | the loop of `replaceDeclarator` calls over one top-level declaration computes `ReplacedDeclaration` |
| Cjs.HoistRequireStatements | src/cjs-plugin-jscodeshift.ts:27-44 | loop one moves each nested `require(...)` statement, in document order, to the cursor, which advances by their number |
| Cjs.HoistRequireDeclarators | src/cjs-plugin-jscodeshift.ts:46-63 | loop two moves each nested `require` declarator, in document order, to the cursor as a `const` declaration |
| Cjs.Hoist | src/cjs-plugin-jscodeshift.ts:22-64 | both hoisting loops over one cursor started at the last import compute `Hoisted` |
| Cjs.ConvertBody | src/cjs-plugin-jscodeshift.ts:70-120 | the top-level conversion loop computes `ConvertAll` |
| Cjs.Run | src/cjs-plugin-jscodeshift.ts:15-122 | the pass: hoisting when the `hoist` option is `true`, then the three conversions over the top-level statements; the file's comments stay |
| CjsProperties.BareRequireBecomesImport | src/cjs-plugin-jscodeshift.ts:70-79 | `require('m');` at the top level becomes `import 'm'` with the statement's comments |
| CjsProperties.OneDeclaratorConverts | src/cjs-plugin-jscodeshift.ts:244-262 | a declaration whose one declarator is a plain `require` becomes that declarator's import, with first-and-last comments |
| CjsProperties.DefaultRequireBecomesImport | src/cjs-plugin-jscodeshift.ts:244-262 | `var v = require('m')` becomes `import v from 'm'` with the declaration's and the declarator's comments |
| CjsProperties.NamedRequireBecomesImport | src/cjs-plugin-jscodeshift.ts:244-262 | `var v = require('m').p` becomes `import { p as v } from 'm'` with the same comments |
| CjsProperties.PieceAt | src/cjs-plugin-jscodeshift.ts:244-268 | the k-th statement made from a declaration of simple matches is the import of its k-th `require` declarator (with lines 84-91 of the same file) |
| CjsProperties.SplitKeepsComments | src/cjs-plugin-jscodeshift.ts:246-268 | splitting a declaration keeps its comments: each import carries its declarator's comments, the first also the leading ones, the trailing ones go to the last piece |
| CjsProperties.FactoryCallIsNoRequire | src/cjs-plugin-jscodeshift.ts:298-315 | the declaration the called form leaves is not itself a `require` declarator, so it is not converted again |
| CjsProperties.ConvertLeavesNoTopLevelRequire | src/cjs-plugin-jscodeshift.ts:70-91 | after the conversion no top-level `require(...);` and no top-level `require` declarator remain |
| CjsProperties.ConvertKeepsUntouched | src/cjs-plugin-jscodeshift.ts:70-120 | a body with nothing to convert comes out as it went in |
| CjsProperties.ObjectRequiresBecomeImports | src/cjs-plugin-jscodeshift.ts:93-120 | `var x = { a: require('m'), b: 1 }` becomes the imports of the `require` properties, in order and with their comments, then the declaration with those properties made shorthand |
| CjsProperties.StatementHoistLayout | src/cjs-plugin-jscodeshift.ts:27-44 | loop one lays the body out as the statements up to the cursor, the hoisted statements in document order, then the rest, each rewritten below the top |
| CjsProperties.DeclaratorHoistLayout | src/cjs-plugin-jscodeshift.ts:46-63 | loop two lays out the body the same way with one `const` declaration per hoisted declarator |
| CjsProperties.StatementHoistRemovesNested | src/cjs-plugin-jscodeshift.ts:27-44 | after loop one no `require(...);` statement is left below the top level |
| CjsProperties.DeclaratorHoistRemovesNested | src/cjs-plugin-jscodeshift.ts:46-63 | after loop two no `require` declarator is left below the top level |
| Exports.MultiExportsToExport | src/exports-plugin-jscodeshift.ts:38-111 | the filter count and the walk together compute `Aggregated`: every top-level `exports.n = n` / `module.exports.n = n` contributes its name, the last is replaced by one `export { ... }`, the others are removed |
| Exports.CountQualifying | src/exports-plugin-jscodeshift.ts:40-51 | the filter counts exactly the aggregable statements |
| Exports.Collapse | src/exports-plugin-jscodeshift.ts:52-64 | given that count, the walk computes `Aggregated` |
| Exports.LastAggregable | src/exports-plugin-jscodeshift.ts:59 | the index of the last aggregable statement, with none after it, or -1 |
| Exports.AggregatedLayout | src/exports-plugin-jscodeshift.ts:52-64 | without aggregable statements the body stays; otherwise it is the kept statements, in order, with the single `export { ... }` of all names placed among them |
| Exports.SpecifierAt | src/exports-plugin-jscodeshift.ts:54-56 | each aggregable statement contributes its specifier at its position among the aggregable ones: names keep source order |
| Exports.SpecifiersFrom | src/exports-plugin-jscodeshift.ts:54-56 | every specifier comes from an aggregable statement |
| Exports.NoAggregableLeft | src/exports-plugin-jscodeshift.ts:52-64 | after the aggregation no aggregable statement is left |
| Exports.ForEachMatch | src/exports-plugin-jscodeshift.ts:114-206 | one `find().filter().forEach()` of a statement rule computes `ApplyRule`, and flags whether the first statement was replaced |
| Exports.ReplacingRuleSettles | src/exports-plugin-jscodeshift.ts:70-97 | no replacing rule matches what it put in place, so a second application changes nothing (with lines 114-206 of the same file) |
| Exports.DefaultExportsExactly | src/exports-plugin-jscodeshift.ts:133-153 | the statements inserted are exactly `export default H` for the declarators initialised with `module.exports = e` |
| Exports.DefaultExportAt | src/exports-plugin-jscodeshift.ts:152 | several such declarators of one declaration are exported last-first, each insertion going right after the declaration |
| Exports.ExportsCallBecomesCall | src/exports-plugin-jscodeshift.ts:208-216 | `exports.f(args)` at any depth becomes `f(args)` (with lines 21-26 of the same file) |
| Exports.ModuleExportsCallBecomesCall | src/exports-plugin-jscodeshift.ts:218-230 | `module.exports.f(args)` at any depth becomes `f(args)` (with lines 21-26 of the same file) |
| Exports.ModuleExportsKept | src/exports-plugin-jscodeshift.ts:218-230 | the `module.exports` object itself is not a call and stays |
| Exports.Run | src/exports-plugin-jscodeshift.ts:15-256 | the method runs aggregation, the six statement rules, both call rules and the last rule in the source's order and computes `ExportsPass` |
| Exports.RunStatementRules | src/exports-plugin-jscodeshift.ts:113-206 | the statement rules in turn, each noting whether it replaced the statement in front |
| Exports.ExportsSettle | src/exports-plugin-jscodeshift.ts:232-250 | the last `module.exports.n = e` rule leaves alone a body that the earlier rules have settled |
| Exports.ReplacedAlone | src/exports-plugin-jscodeshift.ts:253-256 | a first statement that was replaced comes out with the original first statement's leading comments (with lines 16 of the same file) |
| Exports.ModuleExportsNamedPass | src/exports-plugin-jscodeshift.ts:70-131 | `module.exports.n = e` alone, unless aggregated, becomes `export const n = e` with the leading comments |
| Exports.ModuleExportsDefaultPass | src/exports-plugin-jscodeshift.ts:92-167 | `module.exports = e` alone becomes `export default e` with the leading comments |
| Exports.ExportsNamedPass | src/exports-plugin-jscodeshift.ts:70-180 | `exports.n = e` alone, unless aggregated, becomes `export const n = e`; `exports.a = b` with `a` other than `b` is declared, not aggregated |
| Exports.ExportsModuleExportsDefaultPass | src/exports-plugin-jscodeshift.ts:182-206 | `exports = module.exports = e` alone becomes `export default e` (with lines 82-87 of the same file) |
| Exports.AggregatedAlone | src/exports-plugin-jscodeshift.ts:38-65 | `exports.n = n` alone becomes `export { n }` with the statement's leading comments (with lines 253-256 of the same file) |
| Exports.DeclarationPass | src/exports-plugin-jscodeshift.ts:133-153 | a lone declaration keeps kind and comments, each `H = module.exports = e` declarator unwrapped to `H = e`, followed by one `export default H` per such declarator |
| Exports.VarModuleExportsPass | src/exports-plugin-jscodeshift.ts:133-153 | `var H = module.exports = e` alone becomes `var H = e` and then `export default H` |
| Exports.OtherStatementKept | src/exports-plugin-jscodeshift.ts:99-250 | a top-level statement that is neither an expression statement nor a declaration, and holds no qualified call, is left as it is |
| Exports.NestedDefaultExportAsWritten | src/exports-plugin-jscodeshift.ts:164-166 | under the guard as written, `function f() { module.exports = x }` gets an `export default` inside the function |
| Exports.NestedAssignmentKept | src/exports-plugin-jscodeshift.ts:164-166 | the modelled pass leaves `function f() { module.exports = x }` as it is |
| Exports.SpecifiersAsWritten | src/exports-plugin-jscodeshift.ts:40-51 | the names the guard as written aggregates, from every statement list named `body` at any depth; each exports the name it binds |
| Exports.NestedAggregationAsWritten | src/exports-plugin-jscodeshift.ts:40-51 | for `function f() { exports.a = a } exports.b = b` the guard as written aggregates both names, the modelled pass only `b` |
| Exports.NestedAggregated | src/exports-plugin-jscodeshift.ts:40-64 | the modelled pass keeps `function f() { exports.a = a }` and turns `exports.b = b` into `export { b }` |
| NamedExports.FreeIndex | src/named-export-generation-plugin-jscodeshift.ts:163-172 | the probing loop ends: the first probe from `k` on that is not an identifier of the file |
| NamedExports.FreeIndexIsFirst | src/named-export-generation-plugin-jscodeshift.ts:167-170 | every probe before the chosen one is taken |
| NamedExports.GenerateName | src/named-export-generation-plugin-jscodeshift.ts:163-172 | the loop `exported`, `exported2`, `exported3`, ... returns `FreshName` |
| NamedExports.GeneratedNameFresh | src/named-export-generation-plugin-jscodeshift.ts:163-172 | the generated name is no identifier of the file, and every earlier candidate is one |
| NamedExports.Put | src/named-export-generation-plugin-jscodeshift.ts:85-103 | `mutatedProps[k] = p`: the key maps to the new property, other keys keep theirs, a new key goes last |
| NamedExports.PutKeepsDistinct | src/named-export-generation-plugin-jscodeshift.ts:68-104 | the keys of `mutatedProps` stay distinct |
| NamedExports.CollectMutations | src/named-export-generation-plugin-jscodeshift.ts:68-104 | the two `forEach` loops compute `PutWrites(PutAll([], wholes), writes)`, `None` where a whole assignment's property has no key name |
| NamedExports.LaterPropertyWins | src/named-export-generation-plugin-jscodeshift.ts:82-87 | after the whole-object assignments a key holds the last property written with it |
| NamedExports.LaterWriteWins | src/named-export-generation-plugin-jscodeshift.ts:88-104 | after the member writes a key holds the last value written to it, as an `init` property |
| NamedExports.KeysInFirstInsertionOrder | src/named-export-generation-plugin-jscodeshift.ts:105-110 | `Object.keys(mutatedProps)` lists exactly the keys written, each once, in first-insertion order |
| NamedExports.LastNonEmpty | src/named-export-generation-plugin-jscodeshift.ts:117-142 | the properties chosen are those of the last non-empty object, or none when every object is empty |
| NamedExports.PropertyClassesDisjoint | src/named-export-generation-plugin-jscodeshift.ts:122-141 | no property is both a reference and a literal property |
| NamedExports.ChooseProps | src/named-export-generation-plugin-jscodeshift.ts:114-142 | the loop leaves the reference and the literal properties of the last non-empty object |
| NamedExports.NewNames | src/named-export-generation-plugin-jscodeshift.ts:179-186 | a name is declared if and only if it is among the literal names and no existing export covers it |
| NamedExports.Shorthands | src/named-export-generation-plugin-jscodeshift.ts:187-191 | one shorthand property `name` per name, in order |
| NamedExports.Specifier | src/named-export-generation-plugin-jscodeshift.ts:209-214 | the corrected specifier exports the property's key and binds its value identifier: `export { c as b }` for `b: c` |
| NamedExports.Specifiers | src/named-export-generation-plugin-jscodeshift.ts:200-217 | a specifier is made if and only if it comes from a reference property whose key no existing export covers |
| NamedExports.SpecifiersExportNewNames | src/named-export-generation-plugin-jscodeshift.ts:205-214 | every specifier exports a key that no existing export covers, bound to that property's value |
| NamedExports.SpecifierAsWrittenSwapsNames | src/named-export-generation-plugin-jscodeshift.ts:210-213 | as written, a property `b: c` with different names gives a specifier exporting `c` and binding `b`, the reverse of the corrected one |
| NamedExports.SpecifierAsWrittenExample | src/named-export-generation-plugin-jscodeshift.ts:210-213 | for `b: c` the source writes `export { b as c }`; the corrected model gives `export { c as b }` |
| NamedExports.FirstDefault | src/named-export-generation-plugin-jscodeshift.ts:259 | the first top-level `export default`, with none before it, or `None` when there is none |
| NamedExports.Reattach | src/named-export-generation-plugin-jscodeshift.ts:261-265 | only the first statement changes when the extraction happened at the front (with lines 17 of the same file) |
| NamedExports.AddNamedExports | src/named-export-generation-plugin-jscodeshift.ts:43-160 | the method computes `Synthesize`: the optional `export const { ... } = <name>` and then the optional `export { ... }`, each inserted right after the default export |
| NamedExports.FromObjectDefault | src/named-export-generation-plugin-jscodeshift.ts:28-38 | the method computes `FromObject`: extraction under the fresh name, then the named exports |
| NamedExports.ReattachComments | src/named-export-generation-plugin-jscodeshift.ts:261-265 | the method computes `Reattach` |
| NamedExports.Run | src/named-export-generation-plugin-jscodeshift.ts:15-265 | the method computes `NamedExports` |
| NamedExports.NothingToExport | src/named-export-generation-plugin-jscodeshift.ts:28-41 | without an `export default` of an object or an identifier the file is left alone (with lines 259 of the same file) |
| NamedExports.WithDeclaredLayout | src/named-export-generation-plugin-jscodeshift.ts:144-151 | with literal properties the declared export sits right after the default export, the rest shifted by one |
| NamedExports.WithSpecifiersLayout | src/named-export-generation-plugin-jscodeshift.ts:153-160 | with reference properties the specifier list sits right after the default export |
| NamedExports.EmitLayout | src/named-export-generation-plugin-jscodeshift.ts:144-160 | the specifier list, then the declared export, follow the default export, and nothing else moves |
| NamedExports.DeclaredCovers | src/named-export-generation-plugin-jscodeshift.ts:219-229 | once the declared export is in place no name it declares is created again |
| NamedExports.NoNameExportedTwice | src/named-export-generation-plugin-jscodeshift.ts:144-257 | no specifier exports a name that the declared export already declares |
| NamedExports.SynthesizeKeepsPrefix | src/named-export-generation-plugin-jscodeshift.ts:150-159 | the statements up to the default export are unchanged |
| NamedExports.ObjectDefaultExtracted | src/named-export-generation-plugin-jscodeshift.ts:28-38 | `export default { ... }` becomes `const <fresh> = { ... }` with the export's comments, then `export default <fresh>`, the statements before unchanged |
| ImportCleanup.NormalizeShape | src/import-cleanup-plugin-jscodeshift.ts:46-52 | `normalize` keeps every local name and makes every specifier a named one, a default specifier importing `default` |
| ImportCleanup.NormalizeIdempotent | src/import-cleanup-plugin-jscodeshift.ts:46-52 | normalising twice is normalising once |
| ImportCleanup.DedupeSpecifiers | src/import-cleanup-plugin-jscodeshift.ts:54-66 | the `added` loop computes `Dedupe` |
| ImportCleanup.DedupeSubsequence | src/import-cleanup-plugin-jscodeshift.ts:54-66 | `dedupe` keeps a subsequence of its input, in order |
| ImportCleanup.DedupeLocalSet | src/import-cleanup-plugin-jscodeshift.ts:54-66 | `dedupe` keeps every local name of its input |
| ImportCleanup.DedupeDistinctLocals | src/import-cleanup-plugin-jscodeshift.ts:54-66 | after `dedupe` every local name occurs once |
| ImportCleanup.DedupeFirstWins | src/import-cleanup-plugin-jscodeshift.ts:58-63 | each kept specifier is the first one with its local name |
| ImportCleanup.DedupeDistinct | src/import-cleanup-plugin-jscodeshift.ts:54-66 | specifiers with distinct local names pass unchanged |
| ImportCleanup.DedupeIdempotent | src/import-cleanup-plugin-jscodeshift.ts:54-66 | deduping twice is deduping once |
| ImportCleanup.DedupeAppend | src/import-cleanup-plugin-jscodeshift.ts:36-66 | deduping a deduped list with more specifiers appended is deduping the whole list |
| ImportCleanup.Merge | src/import-cleanup-plugin-jscodeshift.ts:36-37 | the merged declaration imports from the later import's source, holds no namespace specifier first and carries no comments |
| ImportCleanup.StepWellFormed | src/import-cleanup-plugin-jscodeshift.ts:27-40 | one turn of the `forEach` keeps `sourceLookup` pointing at an import of that source in the body so far |
| ImportCleanup.CleanupBody | src/import-cleanup-plugin-jscodeshift.ts:17-40 | the loop over the top-level imports computes `Cleanup` |
| ImportCleanup.Run | src/import-cleanup-plugin-jscodeshift.ts:14-43 | the pass rewrites the body to `Cleanup` and keeps the file's comments |
| ImportCleanup.SourcesUnique | src/import-cleanup-plugin-jscodeshift.ts:27-40 | after the pass no two considered imports share a source |
| ImportCleanup.OthersKept | src/import-cleanup-plugin-jscodeshift.ts:21-26 | every statement that is not a considered import, namespace imports included, remains, in order |
| ImportCleanup.GroupMerged | src/import-cleanup-plugin-jscodeshift.ts:27-40 | each source keeps one import, at the position of its first one, holding the normalised specifiers of all its imports in order, each local name once with its first binding, without comments when merged |
| ImportSpecs.FirstNamedSpec | src/adonis-remove-ioc-plugin-jscodeshift.ts:20-37 | the first `{ name }` specifier of an import from the source, in document order, or `None` exactly when there is none |
| ImportSpecs.RemoveSpecifier | src/adonis-remove-ioc-plugin-jscodeshift.ts:53-58 | removing a specifier: with siblings only it goes and nothing else changes; alone, its whole declaration goes |
| ImportSpecs.RemoveSpecifierDropsOne | src/adonis-remove-ioc-plugin-jscodeshift.ts:53-58 | the program's specifiers lose exactly that one specifier |
| RemoveIoc.MemberRule | src/adonis-remove-ioc-plugin-jscodeshift.ts:39-52 | `<local>.p` becomes `Application.container.p`, keeping the property; any other expression stays |
| RemoveIoc.Run | src/adonis-remove-ioc-plugin-jscodeshift.ts:14-80 | the method computes `RemoveIoc`: without an `ioc` import from `@adonisjs/fold` the file stays; otherwise rewrite, remove the specifier, add the `Application` import if none is left |
| RemoveIoc.RulesEstablish | src/adonis-remove-ioc-plugin-jscodeshift.ts:39-52 | the rewrite leaves no member expression on the local name, at any depth |
| RemoveIoc.NoIocMemberLeft | src/adonis-remove-ioc-plugin-jscodeshift.ts:39-58 | after the pass no member expression on the `ioc` local name is left anywhere |
| RemoveIoc.CountAfterRemove | src/adonis-remove-ioc-plugin-jscodeshift.ts:53-58 | removing the `ioc` specifier never removes an `Application` import |
| RemoveIoc.AppImportNeverDuplicated | src/adonis-remove-ioc-plugin-jscodeshift.ts:59-76 | the `Application` import is added at the front exactly when none exists, so after the pass there is at least one and never an extra one |
| RemoveIoc.OnlyIocBindingRemoved | src/adonis-remove-ioc-plugin-jscodeshift.ts:53-76 | the program's import specifiers are the old ones minus the `ioc` specifier, plus `Application` when it was missing |
| ServiceProvider.ThroughContainer | src/adonis-service-provider-plugin-jscodeshift.ts:100-103 | `this.app.use` (and `make`, `bind`, `alias`, `singleton`) becomes `this.app.container.use`, keeping the property, and no longer matches |
| ServiceProvider.ContainerRule | src/adonis-service-provider-plugin-jscodeshift.ts:65-104 | container methods go through the container, `this.app.autoload(path, alias)` becomes the import-alias assignment, anything else stays |
| ServiceProvider.Run | src/adonis-service-provider-plugin-jscodeshift.ts:14-121 | the method computes `ServiceProvider`: with a `ServiceProvider` import from `@adonisjs/fold`, rebuild each provider class, remove the specifier, put the `ApplicationContract` import first |
| ServiceProvider.RebuildLayout | src/adonis-service-provider-plugin-jscodeshift.ts:46-105 | a provider class keeps its name and comments, loses its superclass, and gets `needsApplication` and the `app` constructor as its first two members before its own |
| ServiceProvider.ContainerRulesEstablish | src/adonis-service-provider-plugin-jscodeshift.ts:65-104 | the rewrite leaves no `this.app.<container method>` access, at any depth |
| ServiceProvider.AutoloadClean | src/adonis-service-provider-plugin-jscodeshift.ts:80-99 | the import-alias assignment an `autoload` call becomes holds no container-method access |
| ServiceProvider.NoAppAccessLeft | src/adonis-service-provider-plugin-jscodeshift.ts:46-105 | a rebuilt class holds no `this.app.<container method>` access in its members or decorators |
| ServiceProvider.OnlyImportsChangeWithoutProvider | src/adonis-service-provider-plugin-jscodeshift.ts:40-118 | without a class extending the imported name, only the import swap happens |
| ServiceProvider.ImportSwapped | src/adonis-service-provider-plugin-jscodeshift.ts:107-118 | `import { ApplicationContract }` opens the file, and of the import bindings only `ServiceProvider` is gone |
| ServiceProvider.ClassesKeepImports | src/adonis-service-provider-plugin-jscodeshift.ts:40-106 | rebuilding classes leaves every import declaration where it was |
| IocContainer.WrapCall | src/adonis-ioc-container-plugin-jscodeshift.ts:22-39 | `use(...)` / `make(...)` becomes `Application.container.use(...)`, the call itself kept; anything else stays |
| IocContainer.Run | src/adonis-ioc-container-plugin-jscodeshift.ts:14-47 | the method computes `IocContainer`: wrap every call, then insert the `Application` import at the front when something was wrapped |
| IocContainer.UnchangedIffNoCall | src/adonis-ioc-container-plugin-jscodeshift.ts:16-45 | the file is unchanged if and only if it holds no `use`/`make` call |
| IocContainer.ImportAddedOnce | src/adonis-ioc-container-plugin-jscodeshift.ts:43-45 | exactly one `Application` import is added, at the front, when a call was wrapped, and none otherwise |
| IocContainer.StatementsKeepTheirPlace | src/adonis-ioc-container-plugin-jscodeshift.ts:22-45 | every statement keeps its place behind the optional new import, each rewritten inside |
| IocContainer.DuplicateImportExample | src/adonis-ioc-container-plugin-jscodeshift.ts:43-45 | a file that already imports `Application` and calls `use` ends with two `Application` imports: the source does not check |
| ClassInject.ReturnIndex | src/adonis-class-inject-plugin-jscodeshift.ts:46-48 | the first `return` statement of the getter body, or its length when there is none |
| ClassInject.Getters | src/adonis-class-inject-plugin-jscodeshift.ts:37-44 | the `static get inject` getters of the class, in order |
| ClassInject.Others | src/adonis-class-inject-plugin-jscodeshift.ts:53 | the members that stay: exactly the non-getters |
| ClassInject.MoveGetters | src/adonis-class-inject-plugin-jscodeshift.ts:35-55 | the class keeps name, superclass and comments, loses exactly its inject getters, and gets one decorator per getter after its own |
| ClassInject.GettersBecomeDecorators | src/adonis-class-inject-plugin-jscodeshift.ts:45-53 | members plus decorators are preserved in number, and the i-th new decorator is `@inject(<the i-th getter's return value>)` |
| ClassInject.InjectArgIsFirstReturn | src/adonis-class-inject-plugin-jscodeshift.ts:46-51 | the decorator's argument is the argument of the getter's first top-level `return` |
| ClassInject.Run | src/adonis-class-inject-plugin-jscodeshift.ts:14-67 | the method computes `ClassInject`: the classes whose first member is an inject getter are rebuilt, the `inject` import goes first when one was, `None` when a moved getter has no top-level `return` |
| ClassInject.NoPickedClassLeft | src/adonis-class-inject-plugin-jscodeshift.ts:18-56 | after the pass no class's first member is an inject getter |
| ClassInject.UnchangedWithoutPicks | src/adonis-class-inject-plugin-jscodeshift.ts:18-58 | without such a class the file is unchanged |
| ClassInject.SecondRunChangesNothing | src/adonis-class-inject-plugin-jscodeshift.ts:14-67 | a second run changes nothing |
| ClassInject.ResultLayout | src/adonis-class-inject-plugin-jscodeshift.ts:18-64 | every statement keeps its place behind the optional `inject` import |
| ClassInject.FailsOnGetterWithoutReturn | src/adonis-class-inject-plugin-jscodeshift.ts:46-51 | a picked class whose getter has no top-level `return` makes the pass fail, as reading `.argument` of `undefined` does |
| Seeder.Extend | src/adonis-seeder-plugin-jscodeshift.ts:38-43 | a class gets superclass `BaseSeeder`, all else unchanged |
| Seeder.Run | src/adonis-seeder-plugin-jscodeshift.ts:14-47 | the method computes `Seeder`: in a seed file the `BaseSeeder` import goes after the last import and every class extends `BaseSeeder`; other files stay |
| Seeder.EveryClassExtendsBaseSeeder | src/adonis-seeder-plugin-jscodeshift.ts:38-43 | in a seed file every class, at any depth, extends `BaseSeeder` afterwards |
| Seeder.SeederInsertsImport | src/adonis-seeder-plugin-jscodeshift.ts:28-43 | in a seed file the result is the rewritten body with the import inserted after the last import |
| Seeder.ImportAfterLastImport | src/adonis-seeder-plugin-jscodeshift.ts:17-36 | the inserted import is the last import of the result |
| Seeder.StatementsKeepTheirPlace | src/adonis-seeder-plugin-jscodeshift.ts:31-43 | every statement keeps its relative place around the import, each rewritten |
| Seeder.OnlyImportWhenClassesExtend | src/adonis-seeder-plugin-jscodeshift.ts:28-43 | when every class already extends `BaseSeeder`, only the import is added |
| Factory.ShorthandProps | src/adonis-factory-plugin-jscodeshift.ts:47-54 | one shorthand property per callback parameter, named after it, in order |
| Factory.NewCallback | src/adonis-factory-plugin-jscodeshift.ts:55-56 | the callback keeps body, arrow-ness and async-ness and takes one object of those shorthand properties |
| Factory.ModelImports | src/adonis-factory-plugin-jscodeshift.ts:79-80 | one `import <M> from '<path>'` per blueprint, in order |
| Factory.AfterBlueprints | src/adonis-factory-plugin-jscodeshift.ts:28-83 | step 1 adds exactly one model import per blueprint |
| Factory.EveryDefinedModelIsImported | src/adonis-factory-plugin-jscodeshift.ts:42-83 | every top-level blueprint becomes `export const <M>Factory = Factory.define(<M>, cb).build()`, with `cb` taking the shorthand object, and some model import binds that very `<M>` from the blueprint's path |
| Factory.BlueprintKept | src/adonis-factory-plugin-jscodeshift.ts:28-45 | rewriting inside a blueprint keeps it a readable blueprint with the same path and callback parameters |
| Factory.FirstMergeData | src/adonis-factory-plugin-jscodeshift.ts:93 | the first object or array argument, with none before it, or `None` when there is none |
| Factory.SplitArgsSpec | src/adonis-factory-plugin-jscodeshift.ts:91-98 | `merge` receives the first object or array argument, else `{}`; the call keeps exactly the other arguments, in order |
| Factory.AfterFactoryCalls | src/adonis-factory-plugin-jscodeshift.ts:109-122 | step 2 maps statement to statement |
| Factory.AfterModelCalls | src/adonis-factory-plugin-jscodeshift.ts:124-142 | step 3 maps statement to statement |
| Factory.NoFactoryCallLeft | src/adonis-factory-plugin-jscodeshift.ts:109-122 | after step 2 no readable `factory(...).<m>(...)` call is left, at any depth |
| Factory.NoModelCallLeft | src/adonis-factory-plugin-jscodeshift.ts:124-142 | after step 3 no readable `Factory.model(...).<m>(...)` call is left, at any depth |
| Factory.AddNew | src/adonis-factory-plugin-jscodeshift.ts:85-148 | the names recorded: those seen and then each new one, in first-occurrence order |
| Factory.ImportNamesEachOnce | src/adonis-factory-plugin-jscodeshift.ts:85-150 | the factories import names each converted factory exactly once, in first-use order |
| Factory.InsertModelImports | src/adonis-factory-plugin-jscodeshift.ts:42-83 | the k-th model import goes in before index k, so the imports open the file in blueprint order |
| Factory.RecordNames | src/adonis-factory-plugin-jscodeshift.ts:85-90 | the loop over `modelImportSpecifiers[name] = 1` computes `PutAll` |
| Factory.KeysOf | src/adonis-factory-plugin-jscodeshift.ts:144-148 | the `Object.entries` loop lists the keys in insertion order |
| Factory.Run | src/adonis-factory-plugin-jscodeshift.ts:14-175 | the method computes `Factory`: the five steps in order, `None` where a blueprint or call cannot be read |
| Factory.NoFactoryBindingLeft | src/adonis-factory-plugin-jscodeshift.ts:155-172 | once a blueprint was converted, no declaration whose first declarator binds `Factory` is left, at any depth |
| Factory.FactoriesImportPlacement | src/adonis-factory-plugin-jscodeshift.ts:143-154 | the factories import goes in exactly when a call was converted, each name once in first-use order, after as many statements of the new file as the old file had up to its last import (with lines 17-26 of the same file) |
| Factory.UnchangedWithoutFactories | src/adonis-factory-plugin-jscodeshift.ts:14-175 | a file without blueprints and factory calls is unchanged |
| Migration.TimestampOptions | src/adonis-migration-plugin-jscodeshift.ts:104-115 | the options object holds `useTz` for a second argument and `precision` for a third, each only when its argument is there, in that order |
| Migration.Walks | src/adonis-migration-plugin-jscodeshift.ts:51-152 | the four walks keep the class's name and comments |
| Migration.MigrateClass | src/adonis-migration-plugin-jscodeshift.ts:48-156 | a migrated class extends `BaseSchema` and keeps its name and comments |
| Migration.Run | src/adonis-migration-plugin-jscodeshift.ts:14-168 | the method computes `Migration`: the cursor index is read first, the classes are migrated, then the import goes in through the cursor when some class was |
| Migration.ScheduleEstablish | src/adonis-migration-plugin-jscodeshift.ts:52-69 | the first walk leaves no `this.schedule(...)` call |
| Migration.NowEstablish | src/adonis-migration-plugin-jscodeshift.ts:71-92 | the second walk leaves no `this.fn.now(...)` call |
| Migration.TimestampEstablish | src/adonis-migration-plugin-jscodeshift.ts:94-119 | after the third walk every `timestamp` call has the column and one options object |
| Migration.MethodEstablish | src/adonis-migration-plugin-jscodeshift.ts:121-152 | the fourth walk leaves no `this.<v4 schema method>(...)` statement |
| Migration.WalksLeaveNoMatch | src/adonis-migration-plugin-jscodeshift.ts:51-156 | inside a migrated class, after each walk nothing that walk looks for is left, and the next walks keep it so |
| Migration.CleanClassOnlyExtends | src/adonis-migration-plugin-jscodeshift.ts:48-156 | a `Schema` class with nothing to rewrite only has its superclass replaced |
| Migration.UnchangedIffNoSchemaClass | src/adonis-migration-plugin-jscodeshift.ts:42-49 | the file is left exactly as it was if and only if no class in it extends `Schema` (with lines 158-166 of the same file) |
| Migration.ImportAfterLastImport | src/adonis-migration-plugin-jscodeshift.ts:158-166 | when a class was rewritten, `import BaseSchema` stands right after the last import and is the last import of the file (with lines 29-38 of the same file) |
| Migration.StatementsKeepTheirPlace | src/adonis-migration-plugin-jscodeshift.ts:42-166 | every statement keeps its relative place around the new import, each rewritten |
| Migration.SchemaClassesExtendBaseSchema | src/adonis-migration-plugin-jscodeshift.ts:42-154 | a top-level class extending `Schema`, alone or under `export`, keeps its name and extends `BaseSchema` |
| Chores.BeforeFirstSpec | src/adonis-chores-plugin-jscodeshift.ts:107 | `s.split(c)[0]` is the longest prefix of `s` without `c`, followed in `s` by `c` when it is shorter |
| Chores.LastSegmentAfter | src/adonis-chores-plugin-jscodeshift.ts:107 | `split('/').pop()` of `a/b` is `b` when `b` has no slash |
| Chores.BeforeFirstDot | src/adonis-chores-plugin-jscodeshift.ts:107 | the part before the first dot of `stem.ts` is `stem` when the stem has no dot |
| Chores.InDirectoryIff | src/adonis-chores-plugin-jscodeshift.ts:107-219 | the directory guard holds exactly of the names `<prefix>/<dir>/<stem>.ts` whose base name has no other dot |
| Chores.GuardNamesFile | src/adonis-chores-plugin-jscodeshift.ts:107-219 | a name the guard lets through is `<prefix>/<dir>/<stem>.ts` with the computed stem |
| Chores.StemIsPlain | src/adonis-chores-plugin-jscodeshift.ts:107 | the stem the guard computes holds neither a slash nor a dot |
| Chores.NamedFilePassesGuard | src/adonis-chores-plugin-jscodeshift.ts:107-219 | every name of that shape passes the guard |
| Chores.RoundsStop | src/adonis-chores-plugin-jscodeshift.ts:349-355 | a loop that finishes stops where its step has nothing more to do |
| Chores.RoundsMoreFuel | src/adonis-chores-plugin-jscodeshift.ts:349-355 | more rounds allowed never change the end of a loop that finished |
| Chores.ShrinkingRoundsFinish | src/adonis-chores-plugin-jscodeshift.ts:349-355 | a step that always shortens the text ends within as many rounds as the text is long |
| Chores.ReplaceOnce | src/adonis-chores-plugin-jscodeshift.ts:348-353 | one round has nothing to do exactly when the key does not occur, and otherwise changes the length by the value's length minus the key's |
| Chores.ReplaceKey | src/adonis-chores-plugin-jscodeshift.ts:347-355 | a text without the key comes back as it is; a finished replacement leaves no occurrence of the key |
| Chores.ReplaceKeyStep | src/adonis-chores-plugin-jscodeshift.ts:349-355 | while the key occurs, the loop is one splice followed by the rest of the loop |
| Chores.ReplaceKeyMoreFuel | src/adonis-chores-plugin-jscodeshift.ts:349-355 | more rounds allowed never change a finished replacement |
| Chores.ShorterValueFinishes | src/adonis-chores-plugin-jscodeshift.ts:349-355 | a value shorter than its key makes the loop end |
| Chores.ReplacesUnchanged | src/adonis-chores-plugin-jscodeshift.ts:346-358 | a text in which no key of the table occurs comes back unchanged |
| Chores.ReplacesAppend | src/adonis-chores-plugin-jscodeshift.ts:346-358 | two tables applied one after the other are their concatenation applied once |
| Chores.LastKeyGone | src/adonis-chores-plugin-jscodeshift.ts:346-358 | after a finished replacement the table's last key occurs nowhere |
| Chores.ReplaceAll | src/adonis-chores-plugin-jscodeshift.ts:348-355 | the method's loop computes `ReplaceKey` |
| Chores.Splice | src/adonis-chores-plugin-jscodeshift.ts:350-353 | the splice at the first occurrence replaces that occurrence |
| Chores.ReplaceText | src/adonis-chores-plugin-jscodeshift.ts:346-358 | the method's loops compute `Replaces` over the table in order |
| Chores.ReplacedTextIsOneTable | src/adonis-chores-plugin-jscodeshift.ts:291-340 | the three `replace` calls amount to one over the tables whose file guards hold, concatenated |
| Chores.AuthHookClean | src/adonis-chores-plugin-jscodeshift.ts:41-45 | the rule leaves a `groupSetup.AuthHook` call that takes `group` first |
| Chores.AuthHookEstablishes | src/adonis-chores-plugin-jscodeshift.ts:30-45 | the rule establishes "takes `group` first" over a clean subtree, at any depth and at the top |
| Chores.AuthHookFixes | src/adonis-chores-plugin-jscodeshift.ts:30-45 | the rule changes nothing where the property already holds |
| Chores.AuthHookTakesGroup | src/adonis-chores-plugin-jscodeshift.ts:28-46 | in a spec file every `groupSetup.AuthHook(...)` call, at any depth, takes `group` first |
| Chores.AuthHookIdempotent | src/adonis-chores-plugin-jscodeshift.ts:28-46 | running step 1 again changes nothing |
| Chores.ReloadClean | src/adonis-chores-plugin-jscodeshift.ts:88-92 | the rule leaves no awaited `reload` of a listed name in the statement |
| Chores.RefreshClean | src/adonis-chores-plugin-jscodeshift.ts:89-91 | the rewritten `await x.refresh(...)` statement is clean when its parts are |
| Chores.ReloadEstablishes | src/adonis-chores-plugin-jscodeshift.ts:49-92 | the reload rule establishes its property bottom-up and at the top |
| Chores.ReloadFixes | src/adonis-chores-plugin-jscodeshift.ts:49-92 | the reload rule changes nothing where the property already holds |
| Chores.NoReloadLeft | src/adonis-chores-plugin-jscodeshift.ts:49-92 | no awaited `<listed name>.reload()` statement is left anywhere in the file |
| Chores.ReloadIdempotent | src/adonis-chores-plugin-jscodeshift.ts:49-92 | running step 2 again changes nothing |
| Chores.SwapProvider | src/adonis-chores-plugin-jscodeshift.ts:102-215 | `value.replace('@provider:', rep)` for a value that starts with the prefix: the prefix becomes `rep`; other values stay |
| Chores.ProviderImportsStripped | src/adonis-chores-plugin-jscodeshift.ts:94-104 | each statement keeps its place; each import keeps its bindings and comments, and its source loses a leading `@provider:` |
| Chores.ProviderImportsFixed | src/adonis-chores-plugin-jscodeshift.ts:94-104 | a file none of whose imports comes from `@provider:` is left as it is |
| Chores.DirtyClean | src/adonis-chores-plugin-jscodeshift.ts:116-120 | the rule leaves no `.dirty` access at the node |
| Chores.DirtyEstablishes | src/adonis-chores-plugin-jscodeshift.ts:110-120 | the dirty rule establishes its property bottom-up and at the top |
| Chores.DirtyFixes | src/adonis-chores-plugin-jscodeshift.ts:110-120 | the dirty rule changes nothing where the property already holds |
| Chores.NoDirtyLeft | src/adonis-chores-plugin-jscodeshift.ts:105-121 | no `.dirty` member access is left anywhere in the file |
| Chores.DirtyIdempotent | src/adonis-chores-plugin-jscodeshift.ts:105-121 | running step 4 again changes nothing |
| Chores.RepositoryOf | src/adonis-chores-plugin-jscodeshift.ts:124-129 | what it returns is a class extending `RepositoriesAbstract` |
| Chores.ConstructorIndex | src/adonis-chores-plugin-jscodeshift.ts:136-138 | the result is the first constructor's index, or -1 when there is none |
| Chores.Unslashed | src/adonis-chores-plugin-jscodeshift.ts:155 | `path.split('/').join('')` holds exactly the characters of the path other than `/` |
| Chores.RepositoryWithoutConstructor | src/adonis-chores-plugin-jscodeshift.ts:150-189 | a repository without constructor gets one import per `@inject` path, bound to the path without slashes, and a new first member: the constructor calling `super` on the first and assigning the others to `this` |
| Chores.RepositoryWithConstructor | src/adonis-chores-plugin-jscodeshift.ts:139-149 | a repository whose constructor has enough parameters gets one import per `@inject` element, binding the parameter at the same index, and the constructor loses those parameters |
| Chores.RepositoryImportsPlacement | src/adonis-chores-plugin-jscodeshift.ts:122-194 | the imports stand consecutively, class after class, right after the cursor (from the front when it is -1); every statement keeps its relative place (with lines 17-26 of the same file) |
| Chores.EventsStringClean | src/adonis-chores-plugin-jscodeshift.ts:201-205 | the rule leaves no `@provider:` string at the node |
| Chores.EventsStringsEstablish | src/adonis-chores-plugin-jscodeshift.ts:195-206 | the events rule establishes its property bottom-up and at the top |
| Chores.NoProviderStringLeft | src/adonis-chores-plugin-jscodeshift.ts:195-206 | in a `start/events` file no string literal starting with `@provider:` is left |
| Chores.ProviderStringsFixed | src/adonis-chores-plugin-jscodeshift.ts:195-217 | whatever the replacement, a file without such strings is left as it is |
| Chores.MapDeclarators | src/adonis-chores-plugin-jscodeshift.ts:221-270 | each declarator is rewritten in its place |
| Chores.OnDeclarators | src/adonis-chores-plugin-jscodeshift.ts:221-270 | a declaration's declarators are the rewritten ones |
| Chores.ParamCallClean | src/adonis-chores-plugin-jscodeshift.ts:235-242 | `request.param('<name>')` reads no `request.params` member |
| Chores.ParamDeclaratorClean | src/adonis-chores-plugin-jscodeshift.ts:233-244 | the rewritten declarator is clean when its parts are |
| Chores.ParamDeclaratorsClean | src/adonis-chores-plugin-jscodeshift.ts:220-244 | a list of declarators rewritten one by one is clean when the list was |
| Chores.ParamStmtClean | src/adonis-chores-plugin-jscodeshift.ts:220-244 | a declaration with clean parts is clean after the rewrite |
| Chores.ParamEstablishes | src/adonis-chores-plugin-jscodeshift.ts:219-271 | the two controller rules establish their property bottom-up and at the top |
| Chores.NoParamReadLeft | src/adonis-chores-plugin-jscodeshift.ts:219-271 | in a controller no declarator is left initialised with `request.params.<name>` |
| Chores.ParamDeclaratorsRewritten | src/adonis-chores-plugin-jscodeshift.ts:219-271 | `const x = request.params.<name>` becomes `const x = request.param('<name>')`, `const x = request.params` becomes `const x = request.params()`, and other declarators stay |
| Chores.EventClean | src/adonis-chores-plugin-jscodeshift.ts:284-288 | the rule leaves an `Event.emit` where an `Event.fire` call stood |
| Chores.EventEstablishes | src/adonis-chores-plugin-jscodeshift.ts:273-288 | the event rule establishes its property bottom-up and at the top |
| Chores.EventFixes | src/adonis-chores-plugin-jscodeshift.ts:273-288 | the event rule changes nothing where the property already holds |
| Chores.EarlySteps | src/adonis-chores-plugin-jscodeshift.ts:28-121 | steps 1 to 4 keep the number of top-level statements |
| Chores.NoEventFireLeft | src/adonis-chores-plugin-jscodeshift.ts:272-288 | no `Event.fire(...)` call is left anywhere in the file |
| Chores.EventsFixed | src/adonis-chores-plugin-jscodeshift.ts:272-288 | a file without an `Event.fire(...)` call keeps its tree in step 9 |
| Chores.ControllerThrows | src/adonis-chores-plugin-jscodeshift.ts:241 | in a controller the pass throws exactly when some `request.params[<non-identifier>]` initialiser is there |
| Chores.RunTree | src/adonis-chores-plugin-jscodeshift.ts:15-288 | the method computes `ChoresTree`, the repository imports going in through the cursor |
| Chores.ImportsOfStep | src/adonis-chores-plugin-jscodeshift.ts:141-158 | the imports of one more class are appended after those of the earlier classes |
| Chores.InsertImportsOf | src/adonis-chores-plugin-jscodeshift.ts:141-158 | the imports of the `k`-th class go in at the cursor, which moves past them (with lines 18-26 of the same file) |
| Chores.InjectAll | src/adonis-chores-plugin-jscodeshift.ts:122-194 | the method computes `Repositories` |
| Chores.ReplaceForFile | src/adonis-chores-plugin-jscodeshift.ts:290-340 | the method computes `ReplacedText` |
| Chores.Run | src/adonis-chores-plugin-jscodeshift.ts:14-343 | the method computes `Chores`: the tree, printed, then the three tables |
| CommandSignature.ExtractOptional | src/adonis-command-plugin-jscodeshift.ts:18-21 | the flag is set exactly when the field ends in `?`, and the name with the mark put back is the field |
| CommandSignature.LineEnd | src/adonis-command-plugin-jscodeshift.ts:17 | the first line terminator at or after `i`, or the end: `.` in the default-value pattern stops there |
| CommandSignature.LastEq | src/adonis-command-plugin-jscodeshift.ts:17 | the last `=` with at least one character on each side, which is where the greedy `(.+)=(.+)` splits |
| CommandSignature.DefaultMatch | src/adonis-command-plugin-jscodeshift.ts:17-24 | a match of `(.+)=(.+)` has a non-empty left part, an `=`, and a non-empty right part |
| CommandSignature.ExtractDefaultValue | src/adonis-command-plugin-jscodeshift.ts:22-29 | the method computes `SplitDefault`: every match replaced by its trimmed left part, the last trimmed right part the default |
| CommandSignature.CloseFrom | src/adonis-command-plugin-jscodeshift.ts:16 | the first `}` at or after `i`, or none when there is none |
| CommandSignature.TryDashes | src/adonis-command-plugin-jscodeshift.ts:16 | after the leading dashes, the group closes at a `}` at least two characters past the brace |
| CommandSignature.NextGroup | src/adonis-command-plugin-jscodeshift.ts:16-120 | the next `{(-*.[^}]+)}` match from `from` opens with `{`, closes with `}`, and holds at least two characters |
| CommandSignature.ParseAll | src/adonis-command-plugin-jscodeshift.ts:120-124 | one parsed field per group |
| CommandSignature.ParseAllAppend | src/adonis-command-plugin-jscodeshift.ts:120-124 | parsing a concatenation of groups parses each part |
| CommandSignature.OfKindAppend | src/adonis-command-plugin-jscodeshift.ts:123 | the split into options and arguments distributes over concatenation |
| CommandSignature.GroupsStep | src/adonis-command-plugin-jscodeshift.ts:120 | the matches from `from` are the next match followed by the matches after it |
| CommandSignature.ParseStep | src/adonis-command-plugin-jscodeshift.ts:121-123 | one more match is pushed to the options when it starts with a dash and to the arguments otherwise |
| CommandSignature.TokenStep | src/adonis-command-plugin-jscodeshift.ts:119-124 | the regex's `lastIndex` moves past each match, so the loop visits the matches in order |
| CommandSignature.ParseTokens | src/adonis-command-plugin-jscodeshift.ts:111-124 | the method's loop puts the dashed groups, parsed, in `options` and the others in `args`, in order |
| CommandSignature.PushToken | src/adonis-command-plugin-jscodeshift.ts:121-123 | one iteration of that loop keeps the loop invariant |
| CommandSignature.NoInnerEqualsNoDefault | src/adonis-command-plugin-jscodeshift.ts:22-29 | a one-line field with no `=` strictly inside has no default and stays as it is |
| CommandSignature.DefaultAfterLastEquals | src/adonis-command-plugin-jscodeshift.ts:22-29 | a one-line field splits at its last inner `=`: the trimmed left part and the trimmed right part as default |
| CommandSignature.NoEqualsNoDefault | src/adonis-command-plugin-jscodeshift.ts:22-29 | a field without `=` has no default |
| CommandSignature.TrimSubset | src/adonis-command-plugin-jscodeshift.ts:25-38 | trimming adds no character |
| CommandSignature.SplitDefaultSubset | src/adonis-command-plugin-jscodeshift.ts:22-29 | the name and the default hold only characters of the field |
| CommandSignature.SplitDescriptionNoColon | src/adonis-command-plugin-jscodeshift.ts:31 | neither the part before the first colon nor the part up to the second holds a colon |
| CommandSignature.ColonEndsEveryPart | src/adonis-command-plugin-jscodeshift.ts:30-42 | the parsed name, description and default hold no colon, and the description is trimmed |
| CommandSignature.GroupsAtLeastTwo | src/adonis-command-plugin-jscodeshift.ts:16 | every matched group holds at least two characters |
| CommandSignature.KindsPartition | src/adonis-command-plugin-jscodeshift.ts:123 | every group is either an option (it starts with a dash) or an argument, and none is lost |
| CommandSignature.StripKeepsVisible | src/adonis-command-plugin-jscodeshift.ts:120 | removing the spaces around `{ : = }` keeps every other character |
| CommandSignature.VisibleAppend | src/adonis-command-plugin-jscodeshift.ts:120 | the visible characters of a concatenation are those of its parts |
| CommandSignature.SignatureSplit | src/adonis-command-plugin-jscodeshift.ts:105-107 | the command name is the trimmed signature's first word and the tokens the rest after the first space |
| CommandSignature.OptionalMarkBeforeDefault | src/adonis-command-plugin-jscodeshift.ts:30-42 | `name?=value` parses as an optional field with that default |
| CommandSignature.DefaultOfMarked | src/adonis-command-plugin-jscodeshift.ts:22-29 | `name?=value` splits into `name?` and `value` |
| CommandSignature.WordsAroundEquals | src/adonis-command-plugin-jscodeshift.ts:22-29 | two words around one `=` split into the left word and the right word as default |
| CommandSignature.OptionalMark | src/adonis-command-plugin-jscodeshift.ts:30-42 | `name?` parses as an optional field without default |
| CommandSignature.OptionalMarkAfterDefault | src/adonis-command-plugin-jscodeshift.ts:30-42 | in `name=value?` the mark belongs to the default, so the field is not optional |
| CommandSignature.DefaultOfUnmarked | src/adonis-command-plugin-jscodeshift.ts:22-29 | `name=value?` splits into `name` and `value?` |
| CommandSignature.NoColon | src/adonis-command-plugin-jscodeshift.ts:31 | a field without a colon has an empty description |
| CommandSignature.TrimKeeps | src/adonis-command-plugin-jscodeshift.ts:26-107 | a text without space at either end is its own trim |
| CommandRun.Splice | src/adonis-command-plugin-jscodeshift.ts:166-188 | `splice(i, 0, s)` adds one statement |
| CommandRun.ThisProps | src/adonis-command-plugin-jscodeshift.ts:163 | the object literal holds `name: this.name` for each name, in order |
| CommandRun.DeclareParams | src/adonis-command-plugin-jscodeshift.ts:158-178 | the method computes `SpliceParams` over the parameters in order |
| CommandRun.SpliceFront | src/adonis-command-plugin-jscodeshift.ts:188-243 | the statements are put in front of the body in order |
| CommandRun.FirstInject | src/adonis-command-plugin-jscodeshift.ts:193 | the first `@inject` decorator, or none exactly when there is no such decorator |
| CommandRun.WithoutInject | src/adonis-command-plugin-jscodeshift.ts:220 | exactly the decorators other than `@inject` are kept |
| CommandRun.FirstConstructor | src/adonis-command-plugin-jscodeshift.ts:197 | a member of the class that is its constructor |
| CommandRun.Assigning | src/adonis-command-plugin-jscodeshift.ts:202-208 | exactly the statements of the constructor that assign the parameter |
| CommandRun.Resolved | src/adonis-command-plugin-jscodeshift.ts:209-213 | each assignment's right side becomes `Application.container.resolveBinding('<module>')` |
| CommandRun.ResolveParams | src/adonis-command-plugin-jscodeshift.ts:199-216 | the method computes `ResolveFrom`, and throws exactly when it does |
| CommandRun.ParamDecls | src/adonis-command-plugin-jscodeshift.ts:158-166 | one `let` declaration per parameter from `i` on |
| CommandRun.IdentParamsInFront | src/adonis-command-plugin-jscodeshift.ts:158-166 | with identifier parameters the `let` declarations stand in front of the body, in parameter order |
| CommandRun.IdentParamsFrom | src/adonis-command-plugin-jscodeshift.ts:158-166 | the same from any parameter on |
| CommandRun.SpliceAt | src/adonis-command-plugin-jscodeshift.ts:166 | splicing at the end of a prefix puts the statement right after it |
| CommandRun.PatternDecls | src/adonis-command-plugin-jscodeshift.ts:168-176 | one `let` declaration per property of the pattern |
| CommandRun.PatternInPlace | src/adonis-command-plugin-jscodeshift.ts:167-176 | the declarations of a pattern parameter go in at the parameter's index, in property order |
| CommandRun.PatternFrom | src/adonis-command-plugin-jscodeshift.ts:167-176 | the same from any property on |
| CommandRun.PatternFallback | src/adonis-command-plugin-jscodeshift.ts:172 | each property becomes `let key = this.key` or-ed with its default, or with the empty string |
| Command.PushStep | src/adonis-command-plugin-jscodeshift.ts:125-143 | one field adds one property, and its name to `args` or to `flags` |
| Command.PushFields | src/adonis-command-plugin-jscodeshift.ts:125-143 | every field adds its property to the class body and its name to `args` or `flags`, in order |
| Command.FirstReturn | src/adonis-command-plugin-jscodeshift.ts:100-146 | the returned expression is that of a `return` statement of the body |
| Command.SignatureMethod | src/adonis-command-plugin-jscodeshift.ts:98-143 | the method computes `SignatureStep` |
| Command.HandleMethod | src/adonis-command-plugin-jscodeshift.ts:154-246 | the method computes `HandleStep` |
| Command.StepMember | src/adonis-command-plugin-jscodeshift.ts:95-247 | the method computes `MemberStep` |
| Command.RebuildMembers | src/adonis-command-plugin-jscodeshift.ts:71-249 | the method computes `RebuildClass` |
| Command.FirstClass | src/adonis-command-plugin-jscodeshift.ts:63-68 | the first class extending the local `Command` name, and none exactly when there is none |
| Command.TopVars | src/adonis-command-plugin-jscodeshift.ts:182-186 | exactly the top-level variable declarations |
| Command.Run | src/adonis-command-plugin-jscodeshift.ts:14-255 | the method computes `Command` |
| Command.OneNamePerField | src/adonis-command-plugin-jscodeshift.ts:125-131 | every field puts one name in `args` or in `flags` |
| Command.OnePropertyPerField | src/adonis-command-plugin-jscodeshift.ts:125-143 | one property per field, in field order |
| Command.RequiredUnlessOptional | src/adonis-command-plugin-jscodeshift.ts:132-141 | each property has one decorator; a flag's options hold only `description`, an argument's also `required: !optional` |
| Command.OptionalArgumentRequiredAsWritten | src/adonis-command-plugin-jscodeshift.ts:137 | as written, `name?` gives an argument decorated `required: true` |
| Command.OptionalArgumentNotRequired | src/adonis-command-plugin-jscodeshift.ts:137 | corrected, `name?` gives `required: false` |
| Command.PropertiesGenerated | src/adonis-command-plugin-jscodeshift.ts:125-143 | every property from a field is a generated member |
| Command.StepShaped | src/adonis-command-plugin-jscodeshift.ts:95-247 | each member step keeps the class body `settings` first and generated members after it |
| Command.SignatureShaped | src/adonis-command-plugin-jscodeshift.ts:98-143 | the `signature` step keeps that shape |
| Command.MembersShaped | src/adonis-command-plugin-jscodeshift.ts:95-247 | the walk over the members keeps that shape |
| Command.ClassShape | src/adonis-command-plugin-jscodeshift.ts:71-249 | the rebuilt class body is `settings` followed by generated members only |
| Command.MembersHandled | src/adonis-command-plugin-jscodeshift.ts:154 | the walk has handled a `handle` method exactly when one was among the members it visited |
| Command.HandledIffHandle | src/adonis-command-plugin-jscodeshift.ts:154 | the class is handled exactly when it has a `handle` method |
| Command.VarsMovedIntoRun | src/adonis-command-plugin-jscodeshift.ts:154-246 | the first `handle` becomes a parameterless `run` appended to the body, holding the top-level declarations as one block after its first statement |
| Command.Kept | src/adonis-command-plugin-jscodeshift.ts:182-236 | exactly the statements that are not moved: once handled, the variable declarations and the Application import go |
| Command.EmitAppend | src/adonis-command-plugin-jscodeshift.ts:182-190 | rebuilding the file distributes over concatenation (with lines 63-69 of the same file) |
| Command.EmitNoClass | src/adonis-command-plugin-jscodeshift.ts:63-69 | a part without command class keeps only its kept statements |
| Command.CountAppend | src/adonis-command-plugin-jscodeshift.ts:63-68 | the count of command classes adds up over concatenation |
| Command.NoClassCounted | src/adonis-command-plugin-jscodeshift.ts:63-68 | a part without command class counts none |
| Command.EmitAround | src/adonis-command-plugin-jscodeshift.ts:63-89 | with one command class the file is the kept statements before it, the new import, the class and the kept statements after it |
| Command.RemoveKeepsClasses | src/adonis-command-plugin-jscodeshift.ts:75-79 | removing the `Command` specifier keeps every class |
| Command.CountAround | src/adonis-command-plugin-jscodeshift.ts:63-68 | the count around one statement is the count of the parts plus that statement |
| Command.CommandSplit | src/adonis-command-plugin-jscodeshift.ts:63-89 | the result file is the kept statements, the new import and the rebuilt class; once handled, none of the kept ones is a variable declaration or the Application import (with lines 182-249 of the same file) |
| Command.ImportBeforeClass | src/adonis-command-plugin-jscodeshift.ts:81-89 | the new import stands right before the rebuilt class, which keeps its name and is `settings` followed by generated members (with lines 249 of the same file) |
| Command.HandleEmptiesFile | src/adonis-command-plugin-jscodeshift.ts:182-236 | with a `handle` method no top-level variable declaration and no Application import is left in the file |
| ModelColumns.LookupKeys | src/adonis-model-plugin-jscodeshift.ts:169-227 | a column has a type exactly when it is one of the dictionary's keys |
| ModelColumns.PutLookup | src/adonis-model-plugin-jscodeshift.ts:222-244 | after `modelProps[k] = v`, `k` reads `v` and every other column reads what it read before |
| ModelColumns.PutKeys | src/adonis-model-plugin-jscodeshift.ts:222-244 | an assignment leaves the key order alone for a present column and appends a new one |
| ModelColumns.DeleteLookup | src/adonis-model-plugin-jscodeshift.ts:231-236 | after `delete modelProps[k]`, `k` reads nothing and every other column reads what it read before |
| ModelColumns.DeleteKeys | src/adonis-model-plugin-jscodeshift.ts:231-236 | a deletion drops `k` from the keys and keeps the others in order |
| ModelColumns.PutDistinct | src/adonis-model-plugin-jscodeshift.ts:222-244 | no column is listed twice, and assignments keep it so |
| ModelColumns.DeleteDistinct | src/adonis-model-plugin-jscodeshift.ts:231-236 | deletions keep every column listed once |
| ModelColumns.PutAllKeys | src/adonis-model-plugin-jscodeshift.ts:120 | setting keys one after the other lists each key once, where it was first set (with lines 252, 486, 661-662, 674 of the same file) |
| ModelColumns.DedupPrefix | src/adonis-model-plugin-jscodeshift.ts:691-693 | the keys set first lead the keys of the whole object (with lines 120 of the same file) |
| ModelColumns.DedupDistinct | src/adonis-model-plugin-jscodeshift.ts:691-693 | the keys of the specifier object are distinct |
| ModelColumns.IndexIn | src/adonis-model-plugin-jscodeshift.ts:212-220 | `indexOf` gives the first place of the name, or -1 exactly when it is absent |
| ModelColumns.ColumnTypeTable | src/adonis-model-plugin-jscodeshift.ts:21-22 | each column method gives the type listed at its first place (with lines 220 of the same file) |
| ModelColumns.ColumnTypeDecimal | src/adonis-model-plugin-jscodeshift.ts:21-22 | `decimal`, listed twice, gives `number` (with lines 220 of the same file) |
| ModelColumns.ApplyColumnRows | src/adonis-model-plugin-jscodeshift.ts:217-246 | the method's loop computes `ApplyRows` from the empty dictionary |
| ModelColumns.ApplyRowKeepsWellFormed | src/adonis-model-plugin-jscodeshift.ts:221-245 | one row keeps every column listed once with one of the column types |
| ModelColumns.ApplyRowsWellFormed | src/adonis-model-plugin-jscodeshift.ts:217-246 | whatever the migrations do, each column is listed once with one of the column types |
| ModelColumns.TimestampsRow | src/adonis-model-plugin-jscodeshift.ts:221-223 | `timestamps()` gives `created_at` and `updated_at` the `DateTime` type |
| ModelColumns.RenameRow | src/adonis-model-plugin-jscodeshift.ts:224-232 | `renameColumn(from, to)` moves a present column's type to the new name and drops the old name; an absent column changes nothing |
| ModelColumns.IncrementsDefaultsToId | src/adonis-model-plugin-jscodeshift.ts:237-241 | `increments()` without a name declares the numeric `id` column |
| ModelColumns.MissingNameThrows | src/adonis-model-plugin-jscodeshift.ts:225-243 | a row that reads a name it was not given makes the pass throw |
| ModelColumns.RowsOfModifiesKnown | src/adonis-model-plugin-jscodeshift.ts:204-215 | every row the search picks calls one of the listed column methods |
| ModelColumns.ColumnsWellFormed | src/adonis-model-plugin-jscodeshift.ts:168-249 | the columns a model gets from the migrations' `up` methods are listed once each, each with a column type |
| ModelColumns.NoSeparatorBeforeLower | src/adonis-model-plugin-jscodeshift.ts:72 | after the replacement no `_` or `-` is followed by a lower-case letter |
| ModelColumns.SnakeToCamelKeepsPlainNames | src/adonis-model-plugin-jscodeshift.ts:71 | a name without `_` and `-` comes back unchanged |
| ModelColumns.PlainPrefix | src/adonis-model-plugin-jscodeshift.ts:72 | a leading run without separators goes through unchanged |
| ModelColumns.OneSeparator | src/adonis-model-plugin-jscodeshift.ts:72 | `<a>_<letter><b>` in lower case loses the separator and capitalises the letter |
| ModelColumns.TimestampNames | src/adonis-model-plugin-jscodeshift.ts:267-268 | `created_at` and `updated_at` read as `createdAt` and `updatedAt` (with lines 72 of the same file) |
| ModelColumns.TemplateValue | src/adonis-model-plugin-jscodeshift.ts:39-66 | the method's loop computes `TemplateText` |
| ModelColumns.TemplateIsPieces | src/adonis-model-plugin-jscodeshift.ts:41-47 | the text is the quasis, each followed by `${name}` of its expression while there is one |
| ModelColumns.TemplateWithoutExpressions | src/adonis-model-plugin-jscodeshift.ts:41-47 | without embedded expressions the text is the quasis joined |
| ModelColumns.AfterLastSpec | src/adonis-model-plugin-jscodeshift.ts:448-508 | `split(sep).pop()` is a suffix of the text holding no `sep`, and the whole text exactly when there is none |
| ModelColumns.WithoutSlashes | src/adonis-model-plugin-jscodeshift.ts:508-564 | `split('/').join('')` removes every slash and keeps every other character |
| ModelColumns.ReturnedLiteral | src/adonis-model-plugin-jscodeshift.ts:52-69 | what a getter returns, as a string or a literal other than `null` |
| ModelColumns.ReturnedLiteralCases | src/adonis-model-plugin-jscodeshift.ts:52-54 | a getter returning a string gives that string; a body without `return` throws |
| ModelColumns.ColumnFields | src/adonis-model-plugin-jscodeshift.ts:254-359 | one property per column |
| ModelColumns.ColumnOptionsSpec | src/adonis-model-plugin-jscodeshift.ts:262-349 | every column keeps its name for the database and for serialisation, gets `autoCreate` when its camel name is a timestamp, `autoUpdate` for `updatedAt`, `prepare`/`consume` for objects and `serialize` for dates |
| ModelColumns.NamesForTimestamps | src/adonis-model-plugin-jscodeshift.ts:267-277 | `autoCreate` exactly for `createdAt` and `updatedAt`, `autoUpdate` exactly for `updatedAt` |
| ModelColumns.NamesForConversions | src/adonis-model-plugin-jscodeshift.ts:278-349 | `prepare` and `consume` exactly for objects, `serialize` exactly for dates |
| ModelColumns.TimestampDecorators | src/adonis-model-plugin-jscodeshift.ts:267-349 | after `timestamps()`, `created_at` is created automatically and `updated_at` is also updated, both through `@column.dateTime` (with lines 221-223 of the same file) |
| ModelPlugin.UseRemovalEstablishes | src/adonis-model-plugin-jscodeshift.ts:91-118 | the removal establishes "no `Application.container.use('Model')` declaration" bottom-up and at the top |
| ModelPlugin.NoModelUseLeft | src/adonis-model-plugin-jscodeshift.ts:91-118 | no statement list, at any depth, still holds such a declaration |
| ModelPlugin.UseRemovalIdempotent | src/adonis-model-plugin-jscodeshift.ts:91-118 | a second removal changes nothing, so running it once per class is running it once |
| ModelPlugin.Getter | src/adonis-model-plugin-jscodeshift.ts:124-154 | the first `get <name>()`, or none exactly when there is none |
| ModelPlugin.Boot | src/adonis-model-plugin-jscodeshift.ts:363-372 | a static `boot()` member of the class |
| ModelPlugin.BuildHooks | src/adonis-model-plugin-jscodeshift.ts:426-487 | the method's loop computes `HookMethodsOf` |
| ModelPlugin.HooksStep | src/adonis-model-plugin-jscodeshift.ts:426-487 | one turn of the loop either fails the whole list or appends the next hook's method |
| ModelPlugin.HookMethodsDecorated | src/adonis-model-plugin-jscodeshift.ts:426-487 | one static method per hook, decorated with its hook's name |
| ModelPlugin.HookDraws | src/adonis-model-plugin-jscodeshift.ts:459-470 | each function handle draws one random name; a binding handle draws none |
| ModelPlugin.BindingHook | src/adonis-model-plugin-jscodeshift.ts:430-458 | a string handle becomes a method named after its last `.` part, calling the binding after `@provider:` through the resolver |
| ModelPlugin.OtherHandleThrows | src/adonis-model-plugin-jscodeshift.ts:460 | a handle that is neither a string nor a function makes the pass throw |
| ModelPlugin.TraitImports | src/adonis-model-plugin-jscodeshift.ts:523-530 | one default import per trait, from its namespace |
| ModelPlugin.TraitIdents | src/adonis-model-plugin-jscodeshift.ts:522-532 | the traits follow `BaseModel` in `compose(...)`, in order |
| ModelPlugin.TraitName | src/adonis-model-plugin-jscodeshift.ts:504-511 | a trait registered without `@provider:` is named by its namespace without slashes |
| ModelPlugin.ClassSitesAreRelCalls | src/adonis-model-plugin-jscodeshift.ts:543-554 | the relationship sites of a class are exactly the relationship calls `find` reports under it |
| ModelPlugin.WalkModifiers | src/adonis-model-plugin-jscodeshift.ts:606-629 | the method's loop over the enclosing calls computes `Walk` |
| ModelPlugin.WalkKeys | src/adonis-model-plugin-jscodeshift.ts:606-635 | the walk keeps the options already set, adds only pivot options and `onQuery`, and sets `onQuery` exactly when some modifier is not a pivot modifier |
| ModelPlugin.StepKeyNames | src/adonis-model-plugin-jscodeshift.ts:609-627 | each modifier sets a pivot option or `onQuery`, `onQuery` exactly for the others |
| ModelPlugin.DecoratorProps | src/adonis-model-plugin-jscodeshift.ts:648-655 | at most one property per option |
| ModelPlugin.DecoratorPropsSpec | src/adonis-model-plugin-jscodeshift.ts:648-655 | a defined option becomes a decorator property with its value; an undefined one is left out |
| ModelPlugin.RelOf | src/adonis-model-plugin-jscodeshift.ts:555-663 | the model a relationship's type names is among the models it records |
| ModelPlugin.RelsOf | src/adonis-model-plugin-jscodeshift.ts:543-663 | one property and one type model per relationship site |
| ModelPlugin.RelsTypeModelsImported | src/adonis-model-plugin-jscodeshift.ts:565-647 | every model a relationship type refers to gets a default import |
| ModelPlugin.AddModelsKeys | src/adonis-model-plugin-jscodeshift.ts:565-595 | every related model is recorded once, the first namespace kept, earlier ones first |
| ModelPlugin.ScopeNameSpec | src/adonis-model-plugin-jscodeshift.ts:676 | `scopeActive` gives `active`; the bare `scope` gives the empty name |
| ModelPlugin.Scopes | src/adonis-model-plugin-jscodeshift.ts:666-683 | at most one property per member, none with a decorator, and none exactly when no member is a static `scope...` method |
| ModelPlugin.ModelImports | src/adonis-model-plugin-jscodeshift.ts:686-688 | one default import per related model, from the namespace first recorded for it |
| ModelPlugin.ColumnFieldsDecorated | src/adonis-model-plugin-jscodeshift.ts:350-356 | every column property is decorated from `column` |
| ModelPlugin.HookNamesRequested | src/adonis-model-plugin-jscodeshift.ts:476-486 | each hook name, and `ModelPaginatorContract` for `afterPaginate`, is imported from the ORM |
| ModelPlugin.BootDecorated | src/adonis-model-plugin-jscodeshift.ts:362-538 | the hook methods of `boot`, one per hook, each decorated with a hook name the class imports |
| ModelPlugin.RelsDecorated | src/adonis-model-plugin-jscodeshift.ts:656-662 | every relationship property is decorated with its relationship, which the class imports |
| ModelPlugin.OrmKeysSpec | src/adonis-model-plugin-jscodeshift.ts:689-694 | `BaseModel` is imported first, every name once, and every name asked for is imported (with lines 120 of the same file) |
| ModelPlugin.AssembleCovers | src/adonis-model-plugin-jscodeshift.ts:685-700 | what a class imports covers what its members use; the ORM and `luxon` imports come last |
| ModelPlugin.ClassImportsCover | src/adonis-model-plugin-jscodeshift.ts:84-702 | the same for every class the pass converts |
| ModelPlugin.AssembleShape | src/adonis-model-plugin-jscodeshift.ts:89 | the class keeps its name, decorators and comments, opens with its static `table`, ends with its scopes, and extends `BaseModel` or its composition (with lines 160-167, 535, 700 of the same file) |
| ModelPlugin.ClassImportsKinds | src/adonis-model-plugin-jscodeshift.ts:408-425 | what a class inserts are imports and the resolver declaration (with lines 515-530, 685-698 of the same file) |
| ModelPlugin.ClassShape | src/adonis-model-plugin-jscodeshift.ts:146-167 | the table is the getter's returned literal, or else the pluralised snake-case name of the class |
| ModelPlugin.ConvertFromStep | src/adonis-model-plugin-jscodeshift.ts:78-84 | the callbacks run statement by statement, the draws carried on |
| ModelPlugin.ConvertClasses | src/adonis-model-plugin-jscodeshift.ts:78-702 | the method's loop computes `ConvertFrom` |
| ModelPlugin.Run | src/adonis-model-plugin-jscodeshift.ts:17-704 | the method computes `ModelPass`: cursor read first, the old binding removed, each class converted, the declarations inserted through the cursor |
| ModelPlugin.HeadLayout | src/adonis-model-plugin-jscodeshift.ts:84-702 | a converted class keeps its name and no longer extends `Model`; what it inserts are imports and declarations |
| ModelPlugin.ConvertFromLayout | src/adonis-model-plugin-jscodeshift.ts:78-702 | every top-level statement keeps its place: model classes converted, the others untouched |
| ModelPlugin.ModelPassBody | src/adonis-model-plugin-jscodeshift.ts:685-698 | on a file with a model class that the pass converts, the body is the walk over the file without the old `Model` binding, with the collected declarations inserted at the cursor read before the walk (with lines 24-33, 78 of the same file) |
| ModelPlugin.ModelPassLayout | src/adonis-model-plugin-jscodeshift.ts:685-698 | the result is the converted statements up to the cursor, every inserted declaration in call order, then the rest (with lines 24-33 of the same file) |
| ModelPlugin.NoModelClassLeft | src/adonis-model-plugin-jscodeshift.ts:78-89 | after the pass no top-level statement is a class extending `Model`, alone or under `export` |
| ModelPlugin.UnchangedIffNoModelClass | src/adonis-model-plugin-jscodeshift.ts:78-118 | the file is left exactly as it was if and only if no top-level class in it extends `Model` |
| Testing.SuiteOf | src/adonis-testing-plugin-jscodeshift.ts:28-134 | the suite's local name is the declarator's identifier, when it is one, and its title the first argument of `use('Test/Suite')(...)`, when there is one |
| Testing.Links | src/adonis-testing-plugin-jscodeshift.ts:82-92 | one link per call of the walk, in order |
| Testing.WalkLength | src/adonis-testing-plugin-jscodeshift.ts:82 | the loop walks the calls from the client call on as long as each has a member callee, and stops at the first that has none |
| Testing.RebuildClientCall | src/adonis-testing-plugin-jscodeshift.ts:80-92 | the method's loop computes `Build` of the links it walks |
| Testing.WalkStops | src/adonis-testing-plugin-jscodeshift.ts:82 | the walk stops exactly at the first call without a member callee |
| Testing.ChainCalls | src/adonis-testing-plugin-jscodeshift.ts:82-91 | the calls of a chain on `client`, innermost first, each with a member callee, the whole chain last |
| Testing.BuildChain | src/adonis-testing-plugin-jscodeshift.ts:84-90 | the rebuilt call is a chain on `client` whose links are exactly the links with a counterpart, renamed, with their arguments, in order; the others are dropped |
| Testing.ChainRewritten | src/adonis-testing-plugin-jscodeshift.ts:79-93 | the tree rewrite turns a whole chain into the chain `Build` makes of the links it sees |
| Testing.BuildSnoc | src/adonis-testing-plugin-jscodeshift.ts:84-90 | one more link extends the chain when its method has a counterpart, and is dropped otherwise |
| Testing.RootedLink | src/adonis-testing-plugin-jscodeshift.ts:84-90 | one link on a chain is renamed or dropped |
| Testing.EnclosingCallKept | src/adonis-testing-plugin-jscodeshift.ts:82-93 | a call around a chain whose callee is not a member access is kept; only its parts are rewritten |
| Testing.ClientRulesFix | src/adonis-testing-plugin-jscodeshift.ts:73-93 | the client rule changes nothing where no chain is left |
| Testing.SeenQuiet | src/adonis-testing-plugin-jscodeshift.ts:82-91 | for a chain whose link arguments hold no other chain, the links the rewrite sees are those of its calls |
| Testing.WalkPrefix | src/adonis-testing-plugin-jscodeshift.ts:82 | the walk covers exactly the calls with member callees in front |
| Testing.WalkAgreesWithRewrite | src/adonis-testing-plugin-jscodeshift.ts:80-93 | the loop and the rewrite agree: walking a chain up to a call without member callee builds what the rewrite puts in its place |
| Testing.ReplacedAtChainTop | src/utils.ts:286-302 | `findLastParentOfTypeCallExpression` from the client call gives the chain's last link when no call above it has a member callee |
| Testing.LoneClientCallReplacesTest | src/adonis-testing-plugin-jscodeshift.ts:93 | as written, with `findLastParentOfTypeCallExpression` of src/utils.ts:286-302, a client call with no chained link, awaited inside `test(...)`, gets the whole `test(...)` call replaced |
| Testing.LoneClientCallKept | src/adonis-testing-plugin-jscodeshift.ts:93 | corrected, that `test(...)` call is kept and only the client call inside it is rewritten |
| Testing.LoneChainRewritten | src/adonis-testing-plugin-jscodeshift.ts:84-93 | a lone `client.<m>(...)` with a counterpart becomes `client.<counterpart>(...)` |
| Testing.CallbackRewritten | src/adonis-testing-plugin-jscodeshift.ts:73-93 | the rewrite goes into an async callback and keeps its shape |
| Testing.ResponseNamesAreFinal | src/adonis-testing-plugin-jscodeshift.ts:63-72 | no new response method name is itself renamed again |
| Testing.RenamedCallClean | src/adonis-testing-plugin-jscodeshift.ts:107-111 | a renamed call is clean when its parts are |
| Testing.ResponseClean | src/adonis-testing-plugin-jscodeshift.ts:107-111 | the response rule leaves no response call to rename at the node |
| Testing.ResponseEstablishes | src/adonis-testing-plugin-jscodeshift.ts:95-112 | the response rule establishes its property bottom-up and changes nothing where it holds |
| Testing.NoResponseCallLeft | src/adonis-testing-plugin-jscodeshift.ts:95-112 | after the rename no response call to rename is left on any of the names, at any depth |
| Testing.ResponseRenameIdempotent | src/adonis-testing-plugin-jscodeshift.ts:95-112 | renaming again changes nothing, so one rename per client call is the same as one in all |
| Testing.AssertClean | src/adonis-testing-plugin-jscodeshift.ts:127-131 | the assert rule leaves no `assert.containSubset` at the node |
| Testing.AssertEstablishes | src/adonis-testing-plugin-jscodeshift.ts:115-131 | the assert rule establishes its property bottom-up |
| Testing.NoContainSubsetLeft | src/adonis-testing-plugin-jscodeshift.ts:114-131 | no `assert.containSubset(...)` call is left anywhere |
| Testing.KeptDeclaratorsClean | src/adonis-testing-plugin-jscodeshift.ts:135 | dropping the suite declarators keeps a clean list clean |
| Testing.RemoveSuiteClean | src/adonis-testing-plugin-jscodeshift.ts:135-147 | the removal leaves no suite declarator and no declaration starting from the suite's local name |
| Testing.SuiteRemovalEstablishes | src/adonis-testing-plugin-jscodeshift.ts:135-147 | the removal establishes its property bottom-up and at the top |
| Testing.NoSuiteDeclarationLeft | src/adonis-testing-plugin-jscodeshift.ts:135-147 | no declaration in any statement list still declares a suite or starts from the suite's local name |
| Testing.KeptDeclarators | src/adonis-testing-plugin-jscodeshift.ts:135 | a kept declaration loses exactly its suite declarators |
| Testing.HookCallee | src/adonis-testing-plugin-jscodeshift.ts:17-25 | a group hook exists exactly for `before`, `beforeEach`, `after` and `afterEach` |
| Testing.ConvertedCases | src/adonis-testing-plugin-jscodeshift.ts:165-232 | hooks keep their arguments under their group name, `test(...)` statements stay as they are, the DatabaseTransactions trait becomes the transaction hook and any other trait goes |
| Testing.ConvertTests | src/adonis-testing-plugin-jscodeshift.ts:156-232 | the method's loop computes `TestStatements` of the found statements |
| Testing.TestStatementsFail | src/adonis-testing-plugin-jscodeshift.ts:178 | once a prefix throws, the whole list throws |
| Testing.TestStatementsSpec | src/adonis-testing-plugin-jscodeshift.ts:156-232 | every statement of `testSt` is what some found statement contributes, every contribution is in it, and it holds only `test(...)` statements and group hooks |
| Testing.ConvertedShape | src/adonis-testing-plugin-jscodeshift.ts:171-230 | a found statement contributes itself when it is a `test(...)` statement and group hooks otherwise |
| Testing.TestRemovalEstablishes | src/adonis-testing-plugin-jscodeshift.ts:157-232 | removing the found statements establishes "no hook, trait or test statement" bottom-up and at the top |
| Testing.NoTestCallLeft | src/adonis-testing-plugin-jscodeshift.ts:157-232 | no hook, trait or test statement is left in any statement list |
| Testing.Partition | src/adonis-testing-plugin-jscodeshift.ts:235-240 | the method's loop computes the two `filter` calls |
| Testing.FilterSnoc | src/adonis-testing-plugin-jscodeshift.ts:235-240 | one more statement goes to exactly one of the two parts |
| Testing.PartitionComplete | src/adonis-testing-plugin-jscodeshift.ts:235-240 | together the two parts hold every statement once |
| Testing.Run | src/adonis-testing-plugin-jscodeshift.ts:14-257 | the method computes `Testing` |
| Testing.PassesKeepImports | src/adonis-testing-plugin-jscodeshift.ts:73-147 | every rewrite before the split keeps the top-level imports (with lines 157-232 of the same file) |
| Testing.ImportsKept | src/adonis-testing-plugin-jscodeshift.ts:73-147 | such a rewrite keeps the imports of the body in order |
| Testing.PreparedImports | src/adonis-testing-plugin-jscodeshift.ts:149-154 | the imports of the prepared body are the test import, then the file's own imports in order |
| Testing.ResultLayout | src/adonis-testing-plugin-jscodeshift.ts:149-252 | on a suite file the body is the test import, the file's own imports in order, then the group; the group's block holds the rest of the body followed by the converted test statements |
| Testing.UnchangedWithoutSuite | src/adonis-testing-plugin-jscodeshift.ts:44 | a file without a suite declarator is left as it is |
| Testing.FailsExactly | src/adonis-testing-plugin-jscodeshift.ts:134-178 | the pass throws exactly when the suite has no title or some test statement is a bare `trait()` |
| Testing.TestStatementsNone | src/adonis-testing-plugin-jscodeshift.ts:178 | the conversion throws exactly when some found statement is a bare `trait()` |
| Cli.AvailablePlugins | cli.ts:42-61 | the eighteen plugins `--plugin` can name, from no-strict to chores, with no plugin listed twice |
| Cli.AvailableHaveNames | cli.ts:42-111 | every available plugin has a `name`, the set `--plugin` may choose from |
| Cli.FindPlugin | cli.ts:136 | `find` by name gives the first plugin with that name, and none exactly when no plugin has it |
| Cli.Names | cli.ts:111 | one name per available plugin, in order |
| Cli.FirstIndex | cli.ts:136 | the first index holding the value, and none exactly when no index holds it |
| Cli.DefaultPipeline | cli.ts:150-185 | the default pipeline: no-strict, then cjs with hoisting off, the adonis passes, eslint-fix right before chores, member accessibility defaulting to public, ending in eslint-fix, ts-ignore and eslint-fix; jsdoc is not in it |
| Cli.SelectsByName | cli.ts:135-186 | a named `--plugin` runs exactly the one available plugin with that name, with the jsdoc options exactly for jsdoc, and exits with code 1 exactly when no plugin has that name; without it the default pipeline runs |
| Cli.Track | cli.ts:214-222 | the change map gains a file's input text exactly when the file has no entry yet and the run gave a different text; nothing else changes |
| Cli.FirstChange | cli.ts:217-219 | the first run that changed the file, and none exactly when no run did |
| Cli.EntrySetOnce | cli.ts:217-219 | an entry, once made, is never overwritten |
| Cli.RecordsFirstChange | cli.ts:210-224 | a file has an entry exactly when some wrapped run changed it, and the entry is the input of the first such run |
| Cli.ChangeTracker.constructor | cli.ts:210 | the change map starts empty |
| Cli.ChangeTracker.RunTracked | cli.ts:214-222 | the wrapped run returns the plugin's own result and updates the change map as `Track` says |
| Cli.ChangeTracker.EslintFixChanged | cli.ts:225-232 | eslint-fix runs exactly on a file that has an entry different from its current text; otherwise no result |
| Cli.FixesOnlyChangedFiles | cli.ts:210-239 | after the wrapped runs, eslint-fix-changed touches a file exactly when some run changed it and its text now differs from the input of the first run that did |

## Findings

| source | as written | input that shows it | evidently intended | confidence | as-written member | corrected member |
|---|---|---|---|---|---|---|
| src/exports-plugin-jscodeshift.ts:41 | `p.parentPath.parentPath.name !== 'body'`, here and at lines 129, 144, 165, 178 and 204, admits every statement list named `body`, including function and block bodies | `function f(){ exports.a = a } exports.b = b` gives `export { a, b }` and removes the statement inside `f`; `function f(){ module.exports = x }` gets an `export default` inside the function | only statements of the program body are rewritten, since an `export` cannot stand inside a function | not executed | Exports.NestedAggregationAsWritten | Exports.NestedAggregated |
| src/adonis-command-plugin-jscodeshift.ts:137 | the argument decorator is built with `required: arg.optional` | the signature `{name?}` declares an argument with `required: true` | `required: !arg.optional` | not executed | Command.OptionalArgumentRequiredAsWritten | Command.OptionalArgumentNotRequired |
| src/named-export-generation-plugin-jscodeshift.ts:210-213 | the specifier is built with `exported: prop.value.name, local: prop.key.name`, after checking that `prop.key.name` is not yet exported | `export default { b: c }` gives `export { b as c }`, which binds no local `b` | `export { c as b }`: the value exported under the key | not executed | NamedExports.SpecifierAsWrittenExample | NamedExports.SpecifiersExportNewNames |
| src/adonis-testing-plugin-jscodeshift.ts:93 | through `findLastParentOfTypeCallExpression` (src/utils.ts:286-302), the rebuilt client chain replaces the nearest call above the client call, or a call further up that the same search returns when its callee is a member access; the client call itself is never what is replaced | `test('t', async ({ client }) => { await client.get('/') })`: the whole `test(...)` call is replaced by the client call | only the client chain is replaced | not executed | Testing.LoneClientCallReplacesTest | Testing.LoneClientCallKept |

The modelled passes use the corrected behaviour in these four places.

## Left out

- Parsing and printing: recast's `parse` and `toSource` are not modelled. A pass works on the tree, and where the source prints, the printer is the `render` parameter. Whitespace and formatting are not modelled, and neither is the placement of comments beyond the leading-comment lists the passes move.
- Traverse.KidsS: under `export`, the parts of a declaration are rewritten. The statement rule is never applied to the declaration itself, so no rule can turn one declaration under `export` into several statements. Traverse.KidsCollS likewise never reports that declaration. So the cjs, remove-ioc, factory, model, chores and testing passes ignore `export var`/`export const` declarations that the source's `find` reaches. One example is `export var a = require('a')`, which the source's cjs hoist does hoist. The let pass is the exception (LetPass.ExportedVarBecomesLet).
- ClassInject.ClassInject: moves only the class's own `static get inject` getters. The source's `find` also reaches the getters of classes nested inside the class and adds their decorators to the outer class.
- ClassInject.ClassInject: a getter whose body has no top-level `return` makes the source throw; the model gives `None`.
- ImportCleanup.Cleanup: local names and sources are kept in sets and maps. The source keys plain JavaScript objects, so keys inherited from `Object.prototype` differ: a specifier whose local name is `constructor`, `toString` or `valueOf` is dropped, and an import from the source `'constructor'` throws. The prototype members of JavaScript objects are not modelled. The same applies to the method tables of the testing pass and the chores replacement table.
- Cjs.FactoryName: gives `Factory` for an array-pattern declarator id, where the source's `j.identifier(undefined)` throws.
- Cjs.Run: the cjs plugin's own copy of `findLastImportIndex` is taken to be the shared one in `src/utils.ts`, counting only the direct declarators of top-level declarations.
- Cjs.Run: a `require()` with no argument, and the other inputs on which the source throws while building strings, gives the empty string as the missing value where the source's result is a thrown error.
- ModelPlugin.ModelPass: converts only model classes that are top-level statements or directly under `export`.
- ModelPlugin.ModelPass: gives `None` when, after the old `Model` binding is removed, no statement is left at the cursor index read before the removal (the index is at least the new number of statements). There the source calls `insertAfter` on a path whose value is `undefined`. By the usual behaviour of ast-types and recast, which are not part of this model, that appends the declarations after the last statement instead of failing. The model does not represent that append.
- ModelPlugin.Getter: searches only the class's own members. The source's `find(j.ClassBody).find(j.ClassMethod, …)` for `get primaryKey` and `get table` (src/adonis-model-plugin-jscodeshift.ts lines 124-131 and 146-153) searches at any depth, so it also reaches the getters of classes nested inside the model class.
- ModelPlugin.Boot: searches only the class's own members. The source's `static boot` find (lines 363-370 of the same file) also reaches a `boot` of a class nested inside the model class.
- ModelPlugin.Scopes: takes only the class's own static `scope*` methods. The source's scope find (lines 666-673) also reaches those of nested classes and moves them to the model class.
- ModelPlugin.HookMethodOf: the hook methods carry no async flag, because class methods in the syntax tree have none. The source marks every hook method `async` (lines 457 and 469), so a handle `async (m) => { await … }` becomes, in the model, a method without that flag, and the handle's own `Func.isAsync` is dropped.
- ModelPlugin.HookMethodOf: an expression-bodied arrow handle such as `(m) => m.touch()` is represented as a function whose body is `return m.touch()`, so the model converts it. The source throws at line 467, reading `.body` of an expression.
- ModelPlugin.ModelPass: hook names come from the `randomName` parameter, so their uniqueness, which `Math.random` makes likely, is not modelled. Reading the migration files with `glob` and `fs` is replaced by the `ups` parameter, and `pluralize` by the `pluralize` parameter.
- Factory.Factory: converts factory calls nested inside the arguments it filters. The source builds the new argument list from the original nodes and leaves such nested calls unconverted.
- Testing.Testing: a client chain in which no method has a counterpart is left as `client`, where the source replaces it with `undefined`.
- Testing.Testing: a call above the chain that `findLastParentOfTypeCallExpression` returns because its callee is a member access is not replaced; only the chain is rebuilt. Chains nested in the arguments of another chain are rebuilt separately.
- Testing.Testing: a response variable named `client`, a client call with no call ancestor (the source then throws), and `var` declarations under `export` are not modelled. The response renames of all client calls are one rewrite, which `ResponseRenameIdempotent` shows equal to renaming once per call.
- Migration.Migration: a Schema class nested inside another gets the four rewrites composed inner class first. The comments of a replaced `this.<m>()` statement are dropped, because the source builds a new statement. A `.timestamp()` call with no arguments gets an `undefined` column argument.
- Command.Command: gives `None` when the file holds more than one command class, because the source's second removal of the already removed `Ace` import path throws. Only top-level command classes are converted. Constructor parameters that are not identifiers match no injected value. Matches in the constructor are searched at its top level only.
- Command.Command: the signature regular expressions are modelled as the string functions of `CommandSignature`, with `\s` read as ASCII whitespace only.
- NamedExports.NamedExports: handles the first `export default` of the file only.
- Chores.Chores: the `replace` loop can run forever in the source, for example when a key occurs in its own replacement. The model bounds it by the `fuel` parameter and gives `None` when that runs out.
- ServiceProvider.ServiceProvider: `this.app.autoload` is rewritten only as the callee of a call with at least two arguments. With fewer arguments the source's builder gets `undefined` and throws, and where `this.app.autoload` is not called the source replaces whatever encloses it. The model leaves both alone. Accessibility modifiers and the other TypeScript syntax of class members are not represented in the syntax tree.
- IocContainer.IocContainer: inserts its `Application` import even when an identical import is already there, as the source does (IocContainer.DuplicateImportExample).
- Utils.CamelToSnake: the upper-case test and the lower-casing cover the ASCII letters only, where JavaScript's `toLowerCase` is Unicode. The default table name of a model class, `pluralize(camelToSnake(className))` in ModelPlugin.TableLiteral, inherits this.
- ModelPlugin.ScopeName: lower-cases the first letter of the scope name for ASCII letters only.
- ModelColumns.SnakeToCamel: lower-cases and upper-cases ASCII letters only.
- Utils.CapitalizeFirstLetter: upper-cases an ASCII first letter only.
- CommandSignature.ParseField: `Strings.Trim`, used for the name, the default value, the description and the command name (CommandSignature.SplitDefault, CommandSignature.CommandName), strips ASCII white space only, where JavaScript's `trim` also strips the other Unicode white-space and line-terminator characters.
- JsObject.Put: keeps plain insertion order. A JavaScript object lists integer-like keys first, in ascending order, then the other keys in insertion order. So the key order of Utils.GetConfig differs for integer-like option names.
- ModelColumns.Put: keeps plain insertion order, so for integer-like column names the order of the model's columns differs from the source's, which lists those keys first in ascending order.
- NamedExports.Put: keeps plain insertion order, so integer-like property keys of `mutatedProps` are not moved to the front as a JavaScript object would.
- ModelPlugin.ModelPass: `export default class X extends Model {}` is not representable, because a default export holds an expression (`Ast.ExportDefault`). The source's `find(j.ClassDeclaration, …)` reaches such a class.
- Command.Command: a command class under `export default` is not representable, and the source converts it.
- Migration.Migration: a Schema class under `export default` is not representable, and the source migrates it.
- Seeder.Seeder: a class under `export default` is not representable, and the source makes it extend `BaseSeeder`.
- Chores.Chores: a repository class under `export default` is not representable, and the source rewrites it.
- `for (var ...)` loop heads and class static blocks are not representable in the syntax tree.
- Cli.ChangeTracker.RunTracked: the wrapper's `name`, the asynchronous runs, yargs, `process.exit` and the ts-migrate host are not modelled. The ts-migrate plugins (eslint-fix, ts-ignore and the others) are parameters. The `typeMap` option is kept as text, without parsing it as JSON.
- The `init` and `rename` commands and `src/index.ts` are file-system and host plumbing and are not part of this model.
- Logging is not modelled.

