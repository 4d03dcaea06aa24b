# astroid builder: post-build bookkeeping, in Dafny

This project models the core of astroid's `AstroidBuilder` (`astroid/builder.py`).
After the tree rebuilder turns source text into a module node, the builder finishes
the module:

- it stamps the source encoding;
- it registers the module in the manager's cache;
- it drains the two deferred queues the rebuilder left behind:
  - import-from statements, whose names are bound in the importing scope's
    `locals` and re-sorted by line, while `from __future__` symbols are collected;
  - attribute assignments `obj.attr = value`, which are registered in the
    `instance_attrs` or `locals` of whatever `obj` infers to;
- it optionally runs the transforms.

The project also models the string rules around that stage:

- the module name, package flag and file recorded by `_data_build`;
- the module-name fallback of `file_build`;
- the Python 2 encoding guess `_guess_encoding`, which follows PEP 263 coding
  declarations and the UTF-8 byte-order mark.

Layout, one Dafny module per file:

- `symbols.dfy` (`Symbols`): nodes as records `Node(id, fromlineno, frameName)`.
  - Each binding list is a `seq<Node>`. Membership compares identifiers, as Python's `node in values` compares identity.
  - Every scope's two tables live in one map keyed by `Locals(scope)` or `InstanceAttrs(owner)`.
  - The stable sort by line is here.
- `assattr.dfy` (`AttributeResolution`): `_can_assign_attr`, the per-candidate dispatch and placement of `delayed_assattr`, and the drain of the assattr queue, all as functions.
- `imports.dfy` (`ImportBinding`): `add_from_names_to_locals` and the `__future__` collection as functions.
- `strings.dfy` (`PyStrings`): `str.find`, `str.rfind`, `str.endswith`.
- `naming.dfy` (`ModuleNaming`): the `_data_build` and `file_build` naming rules.
- `encoding.dfy` (`EncodingGuess`): `_guess_encoding` and its regular expression.
- `builder.dfy` (`Builder`): the mutable side, written as classes.
  - `SymbolTables` holds the tables.
  - `Module` is the module node being finished.
  - `Manager` holds the cache and transforms.
  - `AstroidBuilder` has the loops of `delayed_assattr`, `add_from_names_to_locals` and `_post_build`, plus `_data_build`, `file_build` and `string_build`. Each method's `ensures` ties the new state to the functions above.
  - The order of `_post_build` is carried by the contracts: draining a queue requires the module to be in the cache already, since inference goes through the registry, and the transforms receive the state the drains leave.

Collaborators the builder calls but does not define are inputs:

- the candidates `node.expr.infer()` yields, and whether it then raises InferenceError;
- a class's `slots()`;
- the public names `do_import_module()` gives, or its failure;
- the parser, as a predicate saying whether a text parses;
- the two queues the rebuilder produces;
- `os.path.abspath`;
- the module path `modutils.modpath_from_file` derives;
- the outcome of opening the file;
- the transform pipeline, as a function of the module node, its attributes and the symbol tables that returns the root to hand back.

## Model

| member | source | states |
|---|---|---|
| AttributeResolution.CanAssignAttr | astroid/builder.py:68-76 | An attribute may be assigned unless the class declares a non-empty slot list without it. An unsupported `slots()` or no slots allows it (iff). |
| AttributeResolution.TargetOf | astroid/builder.py:220-239 | These candidates are skipped: unknown ones, non-exact instances, ones whose attributes cannot be read, and slot-rejected exact instances. Otherwise an exact instance targets its class's `instance_attrs`, a function its `instance_attrs`, and any other scope its `locals`. |
| AttributeResolution.PlaceAssignment | astroid/builder.py:243-248 | The node is prepended exactly when it is assigned in `__init__` and the list is non-empty with a head assigned outside `__init__`; otherwise it is appended. The list grows by one and the old entries keep their order. |
| AttributeResolution.Apply | astroid/builder.py:221-248 | One candidate of `delayed_assattr`: skipped, or the node placed in the table its kind selects unless that list already holds it. It has no contract of its own; `ApplyAllEffect`, `SkippedCandidatesChangeNothing` and `PlaceKeepsConstructorFirst` characterise it. |
| AttributeResolution.ApplyAll | astroid/builder.py:220-248 | The candidate loop of `delayed_assattr` as a left fold of `Apply`. It has no contract of its own; `ApplyAllEffect`, `ApplyAllAppend`, `ApplyAllWhenRegistered` and `SkippedCandidateDropsOut` characterise it. |
| AttributeResolution.Resolve | astroid/builder.py:213-250 | `delayed_assattr(node)` on values: the fold over the candidates inference yielded before it finished or raised. It has no contract of its own; `ApplyAllEffect`, `ResolveIdempotent`, `ResolveKeeps`, `ResolveKeepsConstructorFirst` and `AbandonedIsPrefix` characterise it, and `Builder.AstroidBuilder.DelayedAssattr` is proved equal to it. |
| AttributeResolution.ApplyAllEffect | astroid/builder.py:220-248 | Each table some candidate targets ends with the node registered exactly once in the attribute's list, whatever the order or repetition of the candidates. Every other list of every table is unchanged. |
| AttributeResolution.ApplyAllWhenRegistered | astroid/builder.py:240-242 | When every targeted list already holds the node, handling the candidates changes nothing. |
| AttributeResolution.ResolveIdempotent | astroid/builder.py:240-242 | Resolving the same record twice gives the same tables as resolving it once. |
| AttributeResolution.SkippedCandidatesChangeNothing | astroid/builder.py:221-239 | Candidates that are all skipped leave every table as it was. |
| AttributeResolution.SkippedCandidateDropsOut | astroid/builder.py:221-239 | A skipped candidate, including one whose attributes raise AttributeError, drops out of the sequence without changing what the others do. |
| AttributeResolution.ApplyAllAppend | astroid/builder.py:220 | Handling candidates in two runs equals handling them in one. |
| AttributeResolution.AbandonedIsPrefix | astroid/builder.py:218-250 | When InferenceError ends the candidate stream, the effect is that of the candidates already handled; a stream that goes on only continues from there. Nothing is undone and nothing propagates. |
| AttributeResolution.OnlyUninferableDropped | astroid/builder.py:221-222 | Inference that yields only `Uninferable` registers nothing. |
| AttributeResolution.SlotRejection | astroid/builder.py:224-228 | Instances whose class's slots exclude the attribute register nothing. |
| AttributeResolution.PlaceKeepsConstructorFirst | astroid/builder.py:243-248 | A list that starts with a constructor assignment, whenever it holds one, keeps that shape after a placement. |
| AttributeResolution.ResolveKeepsConstructorFirst | astroid/builder.py:213-250 | Resolving a record keeps every attribute list constructor-first. |
| AttributeResolution.ResolveKeeps | astroid/builder.py:240-248 | Resolution only adds: a node already in a list stays there. |
| AttributeResolution.AssattrStageRegisters | astroid/builder.py:159-160 | After the assattr queue is drained, every record's node is in every table its candidates target. |
| AttributeResolution.AssattrStageWhenRegistered | astroid/builder.py:159-160 | Draining a queue whose nodes are all registered already changes nothing. |
| AttributeResolution.AssattrStageIdempotent | astroid/builder.py:159-160 | Draining the same assattr queue twice equals draining it once. |
| AttributeResolution.AssattrStage | astroid/builder.py:159-161 | The assattr queue drained in order, one `Resolve` per record. It has no contract of its own; `AssattrStageRegisters`, `AssattrStageWhenRegistered` and `AssattrStageIdempotent` characterise it, and `Builder.AstroidBuilder.ResolveDelayedAssattr` is proved equal to it. |
| Symbols.Store | astroid/builder.py:240 | The stored list reads back, and every other key of every table is unchanged. |
| Symbols.StoreStore | astroid/builder.py:207-211 | Appending then re-sorting one list equals storing the sorted list once. |
| Symbols.SortByLineSorted | astroid/builder.py:196-198 | The sort by `fromlineno` yields a line-ordered permutation of its input. |
| Symbols.SortByLineStable | astroid/builder.py:196-198 | The sort is stable: the nodes of each line keep their relative order. |
| Symbols.SortedSameLinesEqual | astroid/builder.py:196-198 | Two line-ordered lists with the same nodes on every line, in the same order, are equal. |
| Symbols.SortByLineUnique | astroid/builder.py:196-198 | Any line-ordered list that keeps each line's order is the result of the sort, so the model agrees with Python's stable `list.sort`. |
| Symbols.SortByLineOfSorted | astroid/builder.py:196-198 | Re-sorting a list that is already in line order changes nothing. |
| Symbols.SortByLine | astroid/builder.py:196-198 | `list.sort(key=lambda node: node.fromlineno)` as a stable insertion sort. It has no contract of its own; `SortByLineSorted`, `SortByLineStable` and `SortByLineUnique` characterise it as Python's stable sort. |
| ImportBinding.BoundName | astroid/builder.py:210-211 | The bound name is the alias when one is given and non-empty, and the imported name otherwise. |
| ImportBinding.Bind | astroid/builder.py:207-211 | One `set_local` of a name followed by the re-sort of its list. It has no contract of its own; `BindEffect` and `BindKeeps` characterise it, and `Builder.AstroidBuilder.BindLocal` is proved equal to it. |
| ImportBinding.BindAll | astroid/builder.py:206-208 | The loop over a `*` import's public names, one `Bind` each. It has no contract of its own; `BindAllEffect` characterises it, and `Builder.AstroidBuilder.BindPublicNames` is proved equal to it. |
| ImportBinding.BindEntry | astroid/builder.py:200-211 | One entry of an import-from: a `*` binds every public name, or nothing when the import failed; any other entry binds its alias or name. It has no contract of its own; `BindEntriesEffect` and `FailedStarSkipsOnlyItself` characterise it. |
| ImportBinding.BindEntries | astroid/builder.py:200-211 | The entries of one record bound in order. It has no contract of its own; `BindEntriesEffect` and `FailedStarSkipsOnlyItself` characterise it. |
| ImportBinding.AddFromNames | astroid/builder.py:191-211 | `add_from_names_to_locals(node)` on values: every entry of the record bound in order. It has no contract of its own; `AddFromNamesEffect` and `AddFromNamesKeeps` characterise it, and `Builder.AstroidBuilder.AddFromNamesToLocals` is proved equal to it. |
| ImportBinding.BindEffect | astroid/builder.py:207-211 | One `set_local` plus re-sort gives a line-ordered list holding the old nodes plus the import node. Each line keeps its order, with the new node after those already on its line. No other list changes. |
| ImportBinding.BindKeeps | astroid/builder.py:207-211 | A later binding, of any name, keeps an earlier binding present and sorted. |
| ImportBinding.BindAllEffect | astroid/builder.py:206-208 | Every public name of a `*` import ends bound to the import node in a sorted list. No other list changes. |
| ImportBinding.BindEntriesEffect | astroid/builder.py:200-211 | Every name the entries bind ends with the import node in its sorted list. No other list of any table changes. |
| ImportBinding.AddFromNamesEffect | astroid/builder.py:191-211 | The same for a whole import-from record: the alias or name of each entry, or each public name for `*`. |
| ImportBinding.NamedEntries | astroid/builder.py:200-201 | Exactly the entries other than `*` are kept. A single entry is kept unless it is `*`, and the result is never longer than the input. |
| ImportBinding.NamedEntriesConcat | astroid/builder.py:200-201 | Filtering distributes over concatenation, so the kept entries stay in import order. |
| ImportBinding.FailedStarSkipsOnlyItself | astroid/builder.py:202-205 | When importing the module fails, a `*` entry is skipped and the other entries bind exactly as if it were absent. |
| ImportBinding.QueueFutureSymbolsExact | astroid/builder.py:154-157 | A symbol is collected exactly when some `from __future__ import` record in the queue names it. |
| ImportBinding.AddFromNamesKeeps | astroid/builder.py:191-211 | Binding a record keeps every earlier binding, in any scope, present and sorted. |
| ImportBinding.ImportStageBinds | astroid/builder.py:154-158 | After the import-from queue is drained, every name any record binds holds that record's import node in a sorted list. |
| ImportBinding.ImportStage | astroid/builder.py:154-158 | The import-from queue drained in order, one `AddFromNames` per record. It has no contract of its own; `ImportStageBinds` characterises it, and `Builder.AstroidBuilder.ResolveImportFromNodes` is proved to leave the tables equal to it. |
| ImportBinding.FutureSymbols | astroid/builder.py:155-157 | The names a `from __future__ import` record adds to `future_imports`, and none for any other record. It has no contract of its own; `QueueFutureSymbolsExact` and `Builder.AstroidBuilder.RecordFutureImports` characterise it. |
| ImportBinding.QueueFutureSymbols | astroid/builder.py:154-157 | The `__future__` symbols of a whole queue, record by record. It has no contract of its own; `QueueFutureSymbolsExact` characterises it. |
| ModuleNaming.PackagePath | astroid/builder.py:184 | A path marks a package exactly when it is given, non-empty and contains `__init__.py`. |
| ModuleNaming.DataBuildHeader | astroid/builder.py:176-184 | A name ending in `.__init__` loses that suffix and marks a package. Otherwise the name is kept and the path decides the flag. The file is `<?>` without a path and the absolute path with one. |
| ModuleNaming.Basename | astroid/builder.py:138 | The basename is the suffix of the path after its last `/`: it holds no `/`, and it is either the whole path or preceded by a `/`. |
| ModuleNaming.Stem | astroid/builder.py:138 | The stem is a prefix of the name. |
| ModuleNaming.StemExtension | astroid/builder.py:138 | Stem and extension put back together give the name. A non-empty extension is one final dot-led segment after some non-dot character. The extension is empty exactly when only dots come before every dot of the name. |
| ModuleNaming.Extension | astroid/builder.py:138 | What `splitext` cuts off. It has no contract of its own; `StemExtension` characterises it. |
| ModuleNaming.JoinDotted | astroid/builder.py:136 | `'.'.join(parts)`. It has no contract of its own; `JoinDottedSplits` characterises it. |
| ModuleNaming.JoinDottedSplits | astroid/builder.py:136 | Splitting the joined name at its dots gives back the parts, in order, when no part holds a dot. |
| ModuleNaming.FileModuleName | astroid/builder.py:134-138 | An explicit module name is used as is. Without one, the derived module path joined by dots is used. When that derivation fails, the stem of the basename is used; it occurs in the path and holds no `/`. |
| ModuleNaming.FallbackNameIsStem | astroid/builder.py:138 | The fallback name plus the basename's extension is the basename. |
| PyStrings.FindFrom | astroid/builder.py:184 | `str.find` returns the first occurrence at or after the start, or -1 when there is none. `PackagePath` uses it as at line 184, and `FirstTwoLines` uses it to model the `split` of line 51. |
| PyStrings.LastIndexOf | astroid/builder.py:138 | `str.rfind` for one character returns its last position, or -1. |
| PyStrings.EndsWith | astroid/builder.py:180 | `str.endswith`: the suffix is the tail of the string. It has no contract of its own; `ModuleNaming.DataBuildHeader` states its use. |
| EncodingGuess.MatchCoding | astroid/builder.py:44 | The pattern matches exactly when whitespace, a `#`, and later a `coding:` or `coding=` followed by optional whitespace and a name character appear. The group is the whole name run after the last such declaration, so it is non-empty and made of name characters. |
| EncodingGuess.CommentStartUnique | astroid/builder.py:44 | The leading `\s*#` can place its `#` at one position only. |
| EncodingGuess.FirstTwoLines | astroid/builder.py:51 | One or two lines, none holding a line break. There is one line exactly when the text has no break, and then it is the whole text. Otherwise the first line runs up to the first break, and the second runs from there to the next break or the end. |
| EncodingGuess.FirstDeclared | astroid/builder.py:51-55 | The first line whose declaration matches wins. None means no line matches. |
| EncodingGuess.GuessEncoding | astroid/builder.py:46-55 | A leading byte-order mark gives `UTF-8`. Without it, the result is the declaration of the first of the first two lines that declares one, and None exactly when neither does. |
| EncodingGuess.GuessOfOneLine | astroid/builder.py:46-55 | A text without a line break is guessed from its only line. |
| EncodingGuess.GuessOfLastLine | astroid/builder.py:46-55 | A text with exactly one line break is `UTF-8` when its first line starts with the mark, and otherwise the first declaration of its two lines. |
| EncodingGuess.TwoLinesOf | astroid/builder.py:51 | A text with two line breaks splits into exactly its first two lines. |
| EncodingGuess.BomOfFirstLine | astroid/builder.py:49 | Whether the text starts with the byte-order mark depends on its first line only. |
| EncodingGuess.GuessOfTwoLines | astroid/builder.py:46-55 | The guess for a text with two line breaks is `UTF-8` when the first line starts with the mark. Otherwise it is the first declaration of the two lines. |
| EncodingGuess.OnlyFirstTwoLinesExamined | astroid/builder.py:51 | Text after the second line break never changes the guess. |
| EncodingGuess.FirstLineDeclarationWins | astroid/builder.py:51-55 | With no byte-order mark, a declaration on the first line is the guess. |
| Builder.SymbolTables.SetLocal | astroid/builder.py:207 | `set_local` appends the node to the name's list in the scope's locals. |
| Builder.SymbolTables.SortLocals | astroid/builder.py:196-198 | The name's list is replaced by its stable sort by line. |
| Builder.Manager.CacheModule | astroid/builder.py:152 | The module is registered under its name unless that name is cached already, in which case the cache is unchanged. |
| Builder.AstroidBuilder.DelayedAssattr | astroid/builder.py:213-250 | The candidate loop leaves the tables equal to `Resolve` of the record. |
| Builder.AstroidBuilder.BindLocal | astroid/builder.py:207-211 | `set_local` followed by the re-sort equals one `Bind`. |
| Builder.AstroidBuilder.BindPublicNames | astroid/builder.py:206-208 | The loop over a `*` import's public names leaves the tables equal to `BindAll` of those names. |
| Builder.AstroidBuilder.AddFromNamesToLocals | astroid/builder.py:191-211 | The nested loops leave the tables equal to `AddFromNames` of the record. |
| Builder.AstroidBuilder.RecordFutureImports | astroid/builder.py:155-157 | A `__future__` record adds each of its names to the module's future imports. |
| Builder.AstroidBuilder.ResolveImportFromNodes | astroid/builder.py:154-158 | With the module cached, draining the import-from queue collects its `__future__` symbols and leaves the tables equal to `ImportStage`. |
| Builder.AstroidBuilder.ResolveImportFrom | astroid/builder.py:154-158 | One import-from record adds its `__future__` symbols and leaves the tables equal to `AddFromNames` of the record. |
| Builder.AstroidBuilder.ResolveDelayedAssattr | astroid/builder.py:159-160 | With the module cached, draining the assattr queue leaves the tables equal to `AssattrStage`. |
| Builder.AstroidBuilder.DrainQueues | astroid/builder.py:153-160 | Once the module is cached, the import-from queue is drained before the assattr queue. The tables become the import stage followed by the assattr stage. |
| Builder.AstroidBuilder.PostBuild | astroid/builder.py:149-166 | Sets the encoding, caches the module unless its name is known, and collects the future symbols. The tables become the import stage followed by the assattr stage. When transforms are enabled it returns what they make of the finished module and tables, and otherwise the module. |
| Builder.AstroidBuilder.DataBuild | astroid/builder.py:168-189 | A parse failure is a syntax error carrying the source, name and path. Otherwise a fresh module carries the derived header and the rebuilder's two queues. |
| Builder.AstroidBuilder.FileBuild | astroid/builder.py:112-141 | The three open failures and a parse failure map to their errors, and nothing changes on any failure. On success a fresh module carries the derived or fallback name, its file and package flag, the detected encoding and the queue's future symbols. It is cached unless its name is known, the tables become both stages, and the result is the module or what the transforms make of it. |
| Builder.AstroidBuilder.StringBuild | astroid/builder.py:143-147 | A parse failure changes nothing. Otherwise a fresh module keeps the source as its bytes, gets encoding `utf-8` and the queue's future symbols, and is cached unless its name is known. The tables become both stages, and the result is the module or what the transforms make of it. |

## Left out

- Queue clearing: the two deferred lists are described as transient and cleared once resolved, but `_post_build` never empties `_import_from_nodes` or `_delayed_assattr`. `Module` keeps both as they were, following the code.
- An InferenceError keeps the effects of the candidates handled before the error, as the code does. It does not undo the record.
- `open_source_file` (both variants), `detect_encoding`, `open` and `read` are file-system I/O. `FileBuild` receives their outcome (text and encoding, or the exception raised), and the stream's closing is not modelled.
- `_parse` is the Python parser and is a predicate parameter. The rebuilder's `visit_module` is reduced to the two queues it leaves on the module.
- `modutils.modpath_from_file` and `os.path.abspath` depend on the search path and the working directory. They are parameters.
- `module_build` and the inherited `inspect_build` build from live objects through introspection, which cannot be expressed over values.
- `build_namespace_package_module` only constructs a `nodes.Module`, and `parse` runs `string_build` on `textwrap.dedent` of the code with a builder over the global `MANAGER`. Neither is part of this model.
- Nested builds are not modelled. While the queues drain, `do_import_module()` (builder.py:203) and `node.expr.infer()` (builder.py:220) can build other modules through the same manager. That is why the module is cached first. The model does not capture those modules' cache insertions, their updates to other scopes' tables, or termination on import cycles. The results of those calls are inputs fixed before the drain.
- Builder.AstroidBuilder.PostBuild: its exact cache and table ensures hold only when the drains trigger no nested build. Otherwise the real cache also gains the modules built on the way, and their tables change too. The same assumption underlies `ResolveImportFromNodes`, `ResolveDelayedAssattr` and `DrainQueues`.
- Builder.AstroidBuilder.FileBuild: its success case rests on the same no-nested-build assumption as `PostBuild`.
- Builder.AstroidBuilder.StringBuild: its success case rests on the same no-nested-build assumption as `PostBuild`.
- Inference itself (`node.expr.infer()`, `do_import_module`, `public_names`, `slots()`) is supplied as its results. `node.parent.set_local` is taken to reach the parent's scope, which the record names.
- `astroid/manager.py` is not part of this model. `cache_module` is taken to register a module only when its name is not known yet, as astroid's manager does with `setdefault`. The rest of the manager is not modelled.
- `visit_transforms` rewrites the tree in place. It is modelled as a function that reads the finished module, its attributes and the symbol tables and returns the root to hand back; what it changes inside the tree is not modelled.
- The error messages and exception chaining of `util.reraise` are reduced to the error kind and its fields.
- EncodingGuess.MatchCoding: the regular expression is modelled over Python 2 byte strings with ASCII `\s` and `\w`. The `.*` of the pattern stops at a line break, so the function requires a line without one; every line `_guess_encoding` examines has none.
- Builder.AstroidBuilder.StringBuild: `file_bytes` holds the source text itself, not its UTF-8 encoding.
- ModuleNaming.Basename: paths follow POSIX conventions; the Windows separators of `os.path` are not modelled.
