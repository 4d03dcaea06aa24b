/**
 * The builder's stateful side: the symbol tables that deferred resolution
 * updates in place, the module node being finished, the module registry and
 * `AstroidBuilder` itself, whose methods sequence one build.
 */
module Builder {
  import opened Wrappers
  import opened Symbols
  import opened AttributeResolution
  import opened ImportBinding
  import opened ModuleNaming

  /** Every scope's `locals` and `instance_attrs`, updated in place. */
  class SymbolTables {
    var tables: Tables

    constructor (initial: Tables)
      ensures tables == initial
    {
      tables := initial;
    }

    /** `scope.set_local(name, node)`: appends the node to the name's list in the scope's locals. */
    method SetLocal(scope: NodeId, name: string, node: Node)
      modifies this
      ensures tables == Store(old(tables), Locals(scope), name, Lookup(old(tables), Locals(scope), name) + [node])
    {
      var values := Lookup(tables, Locals(scope), name);
      tables := Store(tables, Locals(scope), name, values + [node]);
    }

    /** `scope.locals[name].sort(key=lambda node: node.fromlineno)` */
    method SortLocals(scope: NodeId, name: string)
      modifies this
      ensures tables == Store(old(tables), Locals(scope), name, SortByLine(Lookup(old(tables), Locals(scope), name)))
    {
      var values := Lookup(tables, Locals(scope), name);
      tables := Store(tables, Locals(scope), name, SortByLine(values));
    }
  }

  /** The attributes of a module node that `_post_build` and the builds set. */
  datatype ModuleView = ModuleView(name: string, file: string, package: bool, fileEncoding: Option<string>,
                                   fileBytes: Option<string>, futureImports: set<string>)

  /** A module node as the builder finishes it. */
  class Module {
    const name: string
    const file: string
    const package: bool
    var fileEncoding: Option<string>
    /** The source whose UTF-8 encoding `string_build` stores as `file_bytes`. */
    var fileBytes: Option<string>
    var futureImports: set<string>
    /** The two deferred queues the tree rebuilder leaves on the module. */
    const importFromNodes: seq<ImportFrom>
    const delayedAssattr: seq<AssignAttr>

    constructor (header: Header, importFromNodes: seq<ImportFrom>, delayedAssattr: seq<AssignAttr>)
      ensures name == header.name && file == header.file && package == header.package
      ensures fileEncoding == None && fileBytes == None && futureImports == {}
      ensures this.importFromNodes == importFromNodes && this.delayedAssattr == delayedAssattr
    {
      name, file, package := header.name, header.file, header.package;
      fileEncoding, fileBytes, futureImports := None, None, {};
      this.importFromNodes, this.delayedAssattr := importFromNodes, delayedAssattr;
    }

    /** The node's current attributes, as a value. */
    function View(): ModuleView
      reads this
    {
      ModuleView(name, file, package, fileEncoding, fileBytes, futureImports)
    }
  }

  /** The module registry and the transform pipeline it owns. */
  class Manager {
    var cache: map<string, Module>
    /**
     * `visit_transforms`: a function of the finished module, its attributes and
     * the symbol tables, which may hand back a different root.
     */
    const transforms: (Module, ModuleView, Tables) -> Module

    constructor (transforms: (Module, ModuleView, Tables) -> Module)
      ensures cache == map[] && this.transforms == transforms
    {
      cache := map[];
      this.transforms := transforms;
    }

    /** `cache_module(module)`: registers the module unless its name is already known. */
    method CacheModule(m: Module)
      modifies this
      ensures cache == if m.name in old(cache) then old(cache) else old(cache)[m.name := m]
    {
      if m.name !in cache {
        cache := cache[m.name := m];
      }
    }
  }

  /**
   * What a finished module holds: the header it was built with, the encoding and
   * bytes stamped on it, the future imports its queue declares and the queues themselves.
   */
  ghost predicate Finished(m: Module, h: Header, encoding: Option<string>, bytes: Option<string>, rebuilt: Rebuilt)
    reads m
  {
    && m.View() == ModuleView(h.name, h.file, h.package, encoding, bytes, QueueFutureSymbols(rebuilt.importFromNodes))
    && m.importFromNodes == rebuilt.importFromNodes
    && m.delayedAssattr == rebuilt.delayedAssattr
  }

  /** The failures a build reports to its caller. */
  datatype BuildError =
    | LoadFailure(modname: Option<string>, path: string)         // IOError while opening: AstroidBuildingError
    | EncodingDeclFailure(modname: Option<string>, path: string) // SyntaxError or LookupError while opening: AstroidSyntaxError
    | WrongEncoding(path: string)                                // UnicodeError while reading: AstroidBuildingError
    | ParseFailure(source: string, parsedName: string, parsedPath: Option<string>) // parsing failed: AstroidSyntaxError

  /** What opening a source file gave: its text and encoding, or the exception raised. */
  datatype Opened =
    | Opened(data: string, encoding: Option<string>)
    | RaisedIOError
    | RaisedSyntaxOrLookupError
    | RaisedUnicodeError

  /** What the tree rebuilder leaves besides the module: the two deferred queues. */
  datatype Rebuilt = Rebuilt(importFromNodes: seq<ImportFrom>, delayedAssattr: seq<AssignAttr>)

  class AstroidBuilder {
    const manager: Manager
    const applyTransforms: bool

    constructor (manager: Manager, applyTransforms: bool)
      ensures this.manager == manager && this.applyTransforms == applyTransforms
    {
      this.manager := manager;
      this.applyTransforms := applyTransforms;
    }

    /** `delayed_assattr(node)`: registers the assignment in every table its inferred owners select. */
    method DelayedAssattr(rec: AssignAttr, heap: SymbolTables)
      modifies heap
      ensures heap.tables == Resolve(old(heap.tables), rec)
    {
      var frame := rec.node.frameName;
      var candidates := rec.inference.yielded;
      var i := 0;
      while i < |candidates|
        invariant 0 <= i <= |candidates|
        invariant heap.tables == ApplyAll(old(heap.tables), rec.node, rec.attrname, candidates[..i])
      {
        match TargetOf(candidates[i], rec.attrname) {
          case Skip =>
          case Into(ref) =>
            var values := Lookup(heap.tables, ref, rec.attrname);
            if !Holds(values, rec.node) {
              if frame == "__init__" && values != [] && values[0].frameName != "__init__" {
                heap.tables := Store(heap.tables, ref, rec.attrname, [rec.node] + values);
              } else {
                heap.tables := Store(heap.tables, ref, rec.attrname, values + [rec.node]);
              }
            }
        }
        assert candidates[..i + 1][..i] == candidates[..i];
        i := i + 1;
      }
      assert candidates[..i] == candidates;
      // An InferenceError raised after these candidates ends the record silently.
    }

    /** Binds one name to the import node and re-sorts that name's list. */
    method BindLocal(scope: NodeId, name: string, node: Node, heap: SymbolTables)
      modifies heap
      ensures heap.tables == Bind(old(heap.tables), scope, name, node)
    {
      heap.SetLocal(scope, name, node);
      heap.SortLocals(scope, name);
      StoreStore(old(heap.tables), Locals(scope), name,
                 Lookup(old(heap.tables), Locals(scope), name) + [node],
                 SortByLine(Lookup(old(heap.tables), Locals(scope), name) + [node]));
    }

    /** The `*` branch of `add_from_names_to_locals`: binds each public name of the imported module in turn. */
    method BindPublicNames(scope: NodeId, publicNames: seq<string>, node: Node, heap: SymbolTables)
      modifies heap
      ensures heap.tables == BindAll(old(heap.tables), scope, publicNames, node)
    {
      var j := 0;
      while j < |publicNames|
        invariant 0 <= j <= |publicNames|
        invariant heap.tables == BindAll(old(heap.tables), scope, publicNames[..j], node)
      {
        assert publicNames[..j + 1][..j] == publicNames[..j];
        BindLocal(scope, publicNames[j], node, heap);
        j := j + 1;
      }
      assert publicNames[..j] == publicNames;
    }

    /** `add_from_names_to_locals(node)` */
    method AddFromNamesToLocals(rec: ImportFrom, heap: SymbolTables)
      modifies heap
      ensures heap.tables == AddFromNames(old(heap.tables), rec)
    {
      var i := 0;
      while i < |rec.names|
        invariant 0 <= i <= |rec.names|
        invariant heap.tables == BindEntries(old(heap.tables), rec, rec.names[..i])
      {
        var entry := rec.names[i];
        assert rec.names[..i + 1][..i] == rec.names[..i];
        if entry.name == "*" {
          match rec.imported
          case None =>
            // AstroidBuildingError: this entry is skipped.
          case Some(publicNames) =>
            BindPublicNames(rec.scope, publicNames, rec.node, heap);
        } else {
          BindLocal(rec.scope, BoundName(entry), rec.node, heap);
        }
        i := i + 1;
      }
      assert rec.names[..i] == rec.names;
    }

    /** The `__future__` branch of `_post_build`: adds every imported symbol to the module's future imports. */
    method RecordFutureImports(mod: Module, fromNode: ImportFrom)
      modifies mod
      ensures mod.futureImports == old(mod.futureImports) + FutureSymbols(fromNode)
      ensures mod.fileEncoding == old(mod.fileEncoding) && mod.fileBytes == old(mod.fileBytes)
    {
      if fromNode.modname == "__future__" {
        var j := 0;
        while j < |fromNode.names|
          invariant 0 <= j <= |fromNode.names|
          invariant mod.fileEncoding == old(mod.fileEncoding) && mod.fileBytes == old(mod.fileBytes)
          invariant mod.futureImports == old(mod.futureImports) + set e | e in fromNode.names[..j] :: e.name
        {
          assert fromNode.names[..j + 1] == fromNode.names[..j] + [fromNode.names[j]];
          mod.futureImports := mod.futureImports + {fromNode.names[j].name};
          j := j + 1;
        }
        assert fromNode.names[..j] == fromNode.names;
      }
    }

    /** One iteration of `_post_build`'s first loop. */
    method ResolveImportFrom(mod: Module, fromNode: ImportFrom, heap: SymbolTables)
      modifies mod, heap
      ensures mod.futureImports == old(mod.futureImports) + FutureSymbols(fromNode)
      ensures mod.fileEncoding == old(mod.fileEncoding) && mod.fileBytes == old(mod.fileBytes)
      ensures heap.tables == AddFromNames(old(heap.tables), fromNode)
    {
      RecordFutureImports(mod, fromNode);
      AddFromNamesToLocals(fromNode, heap);
    }

    /**
     * The first loop of `_post_build`: every deferred import-from record, in queue
     * order. Inferring the imported module goes through the registry, so the
     * module must already be cached.
     */
    method ResolveImportFromNodes(mod: Module, heap: SymbolTables)
      requires mod.name in manager.cache
      modifies mod, heap
      ensures mod.futureImports == old(mod.futureImports) + QueueFutureSymbols(mod.importFromNodes)
      ensures mod.fileEncoding == old(mod.fileEncoding) && mod.fileBytes == old(mod.fileBytes)
      ensures heap.tables == ImportStage(old(heap.tables), mod.importFromNodes)
    {
      var queue := mod.importFromNodes;
      var i := 0;
      while i < |queue|
        invariant 0 <= i <= |queue|
        invariant mod.fileEncoding == old(mod.fileEncoding) && mod.fileBytes == old(mod.fileBytes)
        invariant mod.futureImports == old(mod.futureImports) + QueueFutureSymbols(queue[..i])
        invariant heap.tables == ImportStage(old(heap.tables), queue[..i])
      {
        assert queue[..i + 1][..i] == queue[..i];
        ResolveImportFrom(mod, queue[i], heap);
        i := i + 1;
      }
      assert queue[..i] == queue;
    }

    /**
     * The second loop of `_post_build`: every deferred attribute assignment, in
     * queue order, with the module already cached for inference.
     */
    method ResolveDelayedAssattr(mod: Module, heap: SymbolTables)
      requires mod.name in manager.cache
      modifies heap
      ensures heap.tables == AssattrStage(old(heap.tables), mod.delayedAssattr)
    {
      var delayed := mod.delayedAssattr;
      var k := 0;
      while k < |delayed|
        invariant 0 <= k <= |delayed|
        invariant heap.tables == AssattrStage(old(heap.tables), delayed[..k])
      {
        assert delayed[..k + 1][..k] == delayed[..k];
        DelayedAssattr(delayed[k], heap);
        k := k + 1;
      }
      assert delayed[..k] == delayed;
    }

    /** The two deferred queues, drained one after the other once the module is cached. */
    method DrainQueues(mod: Module, heap: SymbolTables)
      requires mod.name in manager.cache
      modifies mod, heap
      ensures mod.futureImports == old(mod.futureImports) + QueueFutureSymbols(mod.importFromNodes)
      ensures mod.fileEncoding == old(mod.fileEncoding) && mod.fileBytes == old(mod.fileBytes)
      ensures heap.tables == AssattrStage(ImportStage(old(heap.tables), mod.importFromNodes), mod.delayedAssattr)
    {
      ResolveImportFromNodes(mod, heap);
      ResolveDelayedAssattr(mod, heap);
    }

    /**
     * `_post_build(module, encoding)`: stamps the encoding, caches the module,
     * drains both queues, then hands the finished state to the transforms.
     */
    method PostBuild(mod: Module, encoding: Option<string>, heap: SymbolTables) returns (r: Module)
      modifies mod, manager, heap
      ensures mod.fileEncoding == encoding && mod.fileBytes == old(mod.fileBytes)
      ensures manager.cache == if mod.name in old(manager.cache) then old(manager.cache) else old(manager.cache)[mod.name := mod]
      ensures mod.futureImports == old(mod.futureImports) + QueueFutureSymbols(mod.importFromNodes)
      ensures heap.tables == AssattrStage(ImportStage(old(heap.tables), mod.importFromNodes), mod.delayedAssattr)
      ensures r == if applyTransforms then manager.transforms(mod, mod.View(), heap.tables) else mod
    {
      mod.fileEncoding := encoding;
      manager.CacheModule(mod);
      DrainQueues(mod, heap);
      if applyTransforms {
        r := manager.transforms(mod, mod.View(), heap.tables);
      } else {
        r := mod;
      }
    }

    /** `_data_build(data, modname, path)`; `parses` stands for the Python parser, `abspath` for `os.path.abspath`. */
    method DataBuild(data: string, modname: string, path: Option<string>,
                     parses: string -> bool, abspath: string -> string, rebuilt: Rebuilt)
      returns (r: Result<Module, BuildError>)
      ensures !parses(data + "\n") ==> r == Err(ParseFailure(data, modname, path))
      ensures parses(data + "\n") ==> r.Ok? && fresh(r.value)
      ensures r.Ok? ==> var h := DataBuildHeader(modname, path, abspath);
                        && r.value.name == h.name && r.value.file == h.file && r.value.package == h.package
                        && r.value.importFromNodes == rebuilt.importFromNodes
                        && r.value.delayedAssattr == rebuilt.delayedAssattr
                        && r.value.fileEncoding == None && r.value.fileBytes == None
                        && r.value.futureImports == {}
    {
      if !parses(data + "\n") {
        return Err(ParseFailure(data, modname, path));
      }
      var header := DataBuildHeader(modname, path, abspath);
      var mod := new Module(header, rebuilt.importFromNodes, rebuilt.delayedAssattr);
      r := Ok(mod);
    }

    /**
     * `file_build(path, modname)`; `outcome` is what opening the file gave and
     * `modpath` the module path derived from the file's location (None when
     * that derivation raises ImportError). `built` names the module node the
     * build created, if it got that far.
     */
    method FileBuild(path: string, modname: Option<string>, outcome: Opened, modpath: Option<seq<string>>,
                     parses: string -> bool, abspath: string -> string, rebuilt: Rebuilt, heap: SymbolTables)
      returns (r: Result<Module, BuildError>, ghost built: Option<Module>)
      modifies manager, heap
      ensures outcome.RaisedIOError? ==> r == Err(LoadFailure(modname, path))
      ensures outcome.RaisedSyntaxOrLookupError? ==> r == Err(EncodingDeclFailure(modname, path))
      ensures outcome.RaisedUnicodeError? ==> r == Err(WrongEncoding(path))
      ensures outcome.Opened? && !parses(outcome.data + "\n") ==>
                r == Err(ParseFailure(outcome.data, FileModuleName(path, modname, modpath), Some(path)))
      ensures r.Err? ==> built.None? && manager.cache == old(manager.cache) && heap.tables == old(heap.tables)
      ensures outcome.Opened? && parses(outcome.data + "\n") ==>
                var h := DataBuildHeader(FileModuleName(path, modname, modpath), Some(path), abspath);
                && built.Some? && fresh(built.value)
                && Finished(built.value, h, outcome.encoding, None, rebuilt)
                && manager.cache == (if h.name in old(manager.cache) then old(manager.cache)
                                     else old(manager.cache)[h.name := built.value])
                && heap.tables == AssattrStage(ImportStage(old(heap.tables), rebuilt.importFromNodes), rebuilt.delayedAssattr)
                && r == Ok(if applyTransforms then manager.transforms(built.value, built.value.View(), heap.tables)
                           else built.value)
    {
      built := None;
      match outcome
      case RaisedIOError => return Err(LoadFailure(modname, path)), None;
      case RaisedSyntaxOrLookupError => return Err(EncodingDeclFailure(modname, path)), None;
      case RaisedUnicodeError => return Err(WrongEncoding(path)), None;
      case Opened(data, encoding) =>
        var name := FileModuleName(path, modname, modpath);
        var parsed := DataBuild(data, name, Some(path), parses, abspath, rebuilt);
        match parsed
        case Err(e) => return Err(e), None;
        case Ok(mod) =>
          var result := PostBuild(mod, encoding, heap);
          return Ok(result), Some(mod);
    }

    /** `string_build(data, modname, path)`: the source is kept as the module's bytes, and UTF-8 is its encoding. */
    method StringBuild(data: string, modname: string, path: Option<string>,
                       parses: string -> bool, abspath: string -> string, rebuilt: Rebuilt, heap: SymbolTables)
      returns (r: Result<Module, BuildError>, ghost built: Option<Module>)
      modifies manager, heap
      ensures !parses(data + "\n") ==> r == Err(ParseFailure(data, modname, path))
      ensures r.Err? ==> built.None? && manager.cache == old(manager.cache) && heap.tables == old(heap.tables)
      ensures parses(data + "\n") ==>
                var h := DataBuildHeader(modname, path, abspath);
                && built.Some? && fresh(built.value)
                && Finished(built.value, h, Some("utf-8"), Some(data), rebuilt)
                && manager.cache == (if h.name in old(manager.cache) then old(manager.cache)
                                     else old(manager.cache)[h.name := built.value])
                && heap.tables == AssattrStage(ImportStage(old(heap.tables), rebuilt.importFromNodes), rebuilt.delayedAssattr)
                && r == Ok(if applyTransforms then manager.transforms(built.value, built.value.View(), heap.tables)
                           else built.value)
    {
      var parsed := DataBuild(data, modname, path, parses, abspath, rebuilt);
      match parsed
      case Err(e) => return Err(e), None;
      case Ok(mod) =>
        mod.fileBytes := Some(data);
        var result := PostBuild(mod, Some("utf-8"), heap);
        return Ok(result), Some(mod);
    }
  }
}
