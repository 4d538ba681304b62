/** appbiotic-code-generation-protos: the configuration builders of the
    protobuf code generator and the text computations of `build` (output
    module directory, crate module name, import-path order, package to Rust
    module mapping, the `_externs.rs` and `_names.rs` entries, and the
    filter applied to the compiled descriptor set). */
module Protos {
  import opened Strings

  /** A filesystem path (`PathBuf`), written with `/` between components. */
  type Path = string

  /** `Path::join` with one relative component. */
  function JoinPath(dir: Path, component: string): Path
  {
    dir + "/" + component
  }

  /** `ExternPath`: a fully qualified protobuf name and the Rust path that
      already implements it. */
  datatype ExternPath = ExternPath(protoPath: string, rustPath: string)

  /** `ProtosGenerationConfig`; every builder consumes the configuration and
      returns it with one field changed. */
  datatype ProtosGenerationConfig = ProtosGenerationConfig(
    crateDir: Path,
    crateName: string,
    includeDir: Path,
    modName: string,
    protoFiles: seq<Path>,
    importPaths: seq<Path>,
    externPaths: seq<ExternPath>)
  {
    /** `new`: the module is named `protos` and every list starts empty. */
    static function New(crateDir: Path, crateName: string, includeDir: Path): (c: ProtosGenerationConfig)
      ensures c.crateDir == crateDir && c.crateName == crateName && c.includeDir == includeDir
      ensures c.modName == "protos"
      ensures c.protoFiles == [] && c.importPaths == [] && c.externPaths == []
    {
      ProtosGenerationConfig(crateDir, crateName, includeDir, "protos", [], [], [])
    }

    /** `with_include_dir`: replaces the include directory and nothing else. */
    function WithIncludeDir(dir: Path): (c: ProtosGenerationConfig)
      ensures c.includeDir == dir
      ensures c.(includeDir := includeDir) == this
    {
      this.(includeDir := dir)
    }

    /** `with_proto_file`: appends one file; every other field is kept. */
    function WithProtoFile(file: Path): (c: ProtosGenerationConfig)
      ensures |c.protoFiles| == |protoFiles| + 1 && c.protoFiles[|protoFiles|] == file
      ensures c.protoFiles[..|protoFiles|] == protoFiles
      ensures c.(protoFiles := protoFiles) == this
    {
      this.(protoFiles := protoFiles + [file])
    }

    /** `with_proto_files`: extends the files with the new ones in order. */
    function WithProtoFiles(files: seq<Path>): (c: ProtosGenerationConfig)
      ensures |c.protoFiles| == |protoFiles| + |files|
      ensures c.protoFiles[..|protoFiles|] == protoFiles && c.protoFiles[|protoFiles|..] == files
      ensures c.(protoFiles := protoFiles) == this
    {
      this.(protoFiles := protoFiles + files)
    }

    /** `with_import_path`: appends one import path; every other field is kept. */
    function WithImportPath(path: Path): (c: ProtosGenerationConfig)
      ensures |c.importPaths| == |importPaths| + 1 && c.importPaths[|importPaths|] == path
      ensures c.importPaths[..|importPaths|] == importPaths
      ensures c.(importPaths := importPaths) == this
    {
      this.(importPaths := importPaths + [path])
    }

    /** `with_import_paths`: extends the import paths with the new ones in order. */
    function WithImportPaths(paths: seq<Path>): (c: ProtosGenerationConfig)
      ensures |c.importPaths| == |importPaths| + |paths|
      ensures c.importPaths[..|importPaths|] == importPaths && c.importPaths[|importPaths|..] == paths
      ensures c.(importPaths := importPaths) == this
    {
      this.(importPaths := importPaths + paths)
    }

    /** `with_extern_path`: appends one extern path; every other field is kept. */
    function WithExternPath(e: ExternPath): (c: ProtosGenerationConfig)
      ensures |c.externPaths| == |externPaths| + 1 && c.externPaths[|externPaths|] == e
      ensures c.externPaths[..|externPaths|] == externPaths
      ensures c.(externPaths := externPaths) == this
    {
      this.(externPaths := externPaths + [e])
    }

    /** `with_extern_paths`: extends the extern paths with the new ones in order. */
    function WithExternPaths(es: seq<ExternPath>): (c: ProtosGenerationConfig)
      ensures |c.externPaths| == |externPaths| + |es|
      ensures c.externPaths[..|externPaths|] == externPaths && c.externPaths[|externPaths|..] == es
      ensures c.(externPaths := externPaths) == this
    {
      this.(externPaths := externPaths + es)
    }
  }

  /** Applying the one-file builder to each file in turn. */
  function AddProtoFiles(c: ProtosGenerationConfig, files: seq<Path>): ProtosGenerationConfig
    decreases |files|
  {
    if |files| == 0 then c else AddProtoFiles(c.WithProtoFile(files[0]), files[1..])
  }

  /** Applying the one-path builder to each import path in turn. */
  function AddImportPaths(c: ProtosGenerationConfig, paths: seq<Path>): ProtosGenerationConfig
    decreases |paths|
  {
    if |paths| == 0 then c else AddImportPaths(c.WithImportPath(paths[0]), paths[1..])
  }

  /** Applying the one-entry builder to each extern path in turn. */
  function AddExternPaths(c: ProtosGenerationConfig, es: seq<ExternPath>): ProtosGenerationConfig
    decreases |es|
  {
    if |es| == 0 then c else AddExternPaths(c.WithExternPath(es[0]), es[1..])
  }

  /** Extending with several files is adding them one at a time, in order. */
  lemma {:induction false} WithProtoFilesIsRepeated(c: ProtosGenerationConfig, files: seq<Path>)
    ensures c.WithProtoFiles(files) == AddProtoFiles(c, files)
    decreases |files|
  {
    if |files| > 0 {
      WithProtoFilesIsRepeated(c.WithProtoFile(files[0]), files[1..]);
      assert c.protoFiles + files == (c.protoFiles + [files[0]]) + files[1..];
    }
  }

  /** Extending with several import paths is adding them one at a time, in order. */
  lemma {:induction false} WithImportPathsIsRepeated(c: ProtosGenerationConfig, paths: seq<Path>)
    ensures c.WithImportPaths(paths) == AddImportPaths(c, paths)
    decreases |paths|
  {
    if |paths| > 0 {
      WithImportPathsIsRepeated(c.WithImportPath(paths[0]), paths[1..]);
      assert c.importPaths + paths == (c.importPaths + [paths[0]]) + paths[1..];
    }
  }

  /** Extending with several extern paths is adding them one at a time, in order. */
  lemma {:induction false} WithExternPathsIsRepeated(c: ProtosGenerationConfig, es: seq<ExternPath>)
    ensures c.WithExternPaths(es) == AddExternPaths(c, es)
    decreases |es|
  {
    if |es| > 0 {
      WithExternPathsIsRepeated(c.WithExternPath(es[0]), es[1..]);
      assert c.externPaths + es == (c.externPaths + [es[0]]) + es[1..];
    }
  }

  /** `SwiftNaming`. */
  datatype SwiftNaming = FullPath | PathToUnderscores | DropPath
  {
    /** The variant's name in PascalCase (`AsRefStr`). */
    function AsRef(): (r: string)
      ensures |r| > 0 && 'A' <= r[0] <= 'Z' && '_' !in r
      ensures r == "FullPath" <==> FullPath?
      ensures r == "PathToUnderscores" <==> PathToUnderscores?
      ensures r == "DropPath" <==> DropPath?
    {
      match this
      case FullPath => "FullPath"
      case PathToUnderscores => "PathToUnderscores"
      case DropPath => "DropPath"
    }

    /** `Default`. */
    static function Default(): (r: SwiftNaming)
      ensures r.AsRef() == "PathToUnderscores"
    {
      PathToUnderscores
    }
  }

  /** Distinct namings have distinct names. */
  lemma SwiftNamingNamesDistinct(a: SwiftNaming, b: SwiftNaming)
    ensures a.AsRef() == b.AsRef() <==> a == b
  {
  }

  /** `SwiftModuleMappings`: a Swift module and the proto files it holds. */
  datatype SwiftModuleMappings = SwiftModuleMappings(moduleName: string, protoFiles: seq<Path>)
  {
    /** `new`: no files yet. */
    static function New(moduleName: string): (m: SwiftModuleMappings)
      ensures m.moduleName == moduleName && m.protoFiles == []
    {
      SwiftModuleMappings(moduleName, [])
    }

    /** `with_proto_file`: appends one file and keeps the module name. */
    function WithProtoFile(file: Path): (m: SwiftModuleMappings)
      ensures m.moduleName == moduleName
      ensures |m.protoFiles| == |protoFiles| + 1 && m.protoFiles[|protoFiles|] == file
      ensures m.protoFiles[..|protoFiles|] == protoFiles
    {
      SwiftModuleMappings(moduleName, protoFiles + [file])
    }

    /** `with_proto_files`: extends the files with the new ones in order. */
    function WithProtoFiles(files: seq<Path>): (m: SwiftModuleMappings)
      ensures m.moduleName == moduleName
      ensures |m.protoFiles| == |protoFiles| + |files|
      ensures m.protoFiles[..|protoFiles|] == protoFiles && m.protoFiles[|protoFiles|..] == files
    {
      SwiftModuleMappings(moduleName, protoFiles + files)
    }
  }

  /** Applying the one-file mapping builder to each file in turn. */
  function AddMappedFiles(m: SwiftModuleMappings, files: seq<Path>): SwiftModuleMappings
    decreases |files|
  {
    if |files| == 0 then m else AddMappedFiles(m.WithProtoFile(files[0]), files[1..])
  }

  /** Extending a mapping with several files is adding them one at a time. */
  lemma {:induction false} MappingWithProtoFilesIsRepeated(m: SwiftModuleMappings, files: seq<Path>)
    ensures m.WithProtoFiles(files) == AddMappedFiles(m, files)
    decreases |files|
  {
    if |files| > 0 {
      MappingWithProtoFilesIsRepeated(m.WithProtoFile(files[0]), files[1..]);
      assert m.protoFiles + files == (m.protoFiles + [files[0]]) + files[1..];
    }
  }

  // ---------------------------------------------------------------------
  // The output module directory

  /** `a` is `p` or one of its ancestors (`Path::ancestors`), component-wise. */
  predicate IsAncestor(a: Path, p: Path)
  {
    p == a || (|a| + 1 <= |p| && p[..|a| + 1] == a + "/")
  }

  /** Where the generated module lives: `src` under the crate directory,
      then one directory per `::`-separated segment of the module name. */
  function OutModDir(crateDir: Path, modName: string): (dir: Path)
  {
    crateDir + "/src/" + Join(Split(modName, "::"), "/")
  }

  /** The crate directory is an ancestor of the output directory, so the
      ancestor check in `build` always finds it. */
  lemma OutModDirUnderCrate(crateDir: Path, modName: string)
    ensures IsAncestor(crateDir, OutModDir(crateDir, modName))
  {
    var p := OutModDir(crateDir, modName);
    assert p[..|crateDir| + 1] == crateDir + "/";
  }

  /** `mod_name.split("::").fold(crate_dir.join("src"), join)`. */
  method BuildOutModDir(crateDir: Path, modName: string) returns (dir: Path)
    ensures dir == OutModDir(crateDir, modName)
  {
    var segments := Split(modName, "::");
    dir := JoinPath(crateDir, "src");
    var i := 0;
    while i < |segments|
      invariant 0 <= i <= |segments|
      invariant i == 0 ==> dir == crateDir + "/src"
      invariant i > 0 ==> dir == crateDir + "/src/" + Join(segments[..i], "/")
    {
      if i > 0 {
        JoinSnoc(segments[..i], segments[i], "/");
        assert segments[..i + 1] == segments[..i] + [segments[i]];
      } else {
        assert segments[..1] == [segments[0]];
      }
      dir := JoinPath(dir, segments[i]);
      i := i + 1;
    }
    assert segments[..i] == segments;
  }

  /** With the default module name the output is `src/protos`. */
  lemma DefaultOutModDir(crateDir: Path)
    ensures OutModDir(crateDir, "protos") == crateDir + "/src/protos"
  {
    SplitWithoutSeparator("protos", ':');
    assert Split("protos", "::") == ["protos"] by {
      assert |"protos"| >= 2;
      assert "protos"[..2] != "::";
    }
  }

  // ---------------------------------------------------------------------
  // Names used in the generated code

  /** `crate_name.replace('-', "_")`: the crate name as a Rust identifier path. */
  function CrateModName(crateName: string): (r: string)
    ensures |r| == |crateName| && '-' !in r
    ensures forall i :: 0 <= i < |crateName| && crateName[i] != '-' ==> r[i] == crateName[i]
    ensures forall i :: 0 <= i < |crateName| && crateName[i] == '-' ==> r[i] == '_'
  {
    ReplaceChar(crateName, '-', '_')
  }

  /** A dashed name of three words becomes the words joined with `_`. */
  lemma ThreeWordCrateModName(a: string, b: string, c: string)
    requires '-' !in a && '-' !in b && '-' !in c
    ensures CrateModName(a + "-" + b + "-" + c) == a + "_" + b + "_" + c
  {
    var dash: string := "-";
    var under: string := "_";
    assert ReplaceChar(dash, '-', '_') == under;
    ReplaceCharAbsent(a, '-', '_');
    ReplaceCharAbsent(b, '-', '_');
    ReplaceCharAbsent(c, '-', '_');
    ReplaceCharAppend(a, dash, '-', '_');
    ReplaceCharAppend(a + dash, b, '-', '_');
    ReplaceCharAppend(a + dash + b, dash, '-', '_');
    ReplaceCharAppend(a + dash + b + dash, c, '-', '_');
  }

  /** The package name of the googleapis bindings crate. */
  const GOOGLEAPIS_CRATE: string := "appbiotic-external-googleapis"

  /** The crate of the googleapis bindings. */
  lemma GoogleapisCrateModName()
    ensures CrateModName(GOOGLEAPIS_CRATE) == "appbiotic_external_googleapis"
  {
    var a, b, c := "appbiotic", "external", "googleapis";
    assert GOOGLEAPIS_CRATE == a + "-" + b + "-" + c;
    assert a + "_" + b + "_" + c == "appbiotic_external_googleapis";
    ThreeWordCrateModName(a, b, c);
  }

  /** The proto files as `include_dir/file`, as a set. */
  function ProtoFilePaths(includeDir: Path, files: seq<Path>): (r: set<string>)
    ensures forall f :: f in files ==> JoinPath(includeDir, f) in r
    ensures forall p :: p in r ==> exists f :: f in files && p == JoinPath(includeDir, f)
    ensures |r| <= |files|
  {
    ProtoFilePathsCount(includeDir, files);
    set f | f in files :: JoinPath(includeDir, f)
  }

  lemma {:induction false} ProtoFilePathsCount(includeDir: Path, files: seq<Path>)
    ensures |set f | f in files :: JoinPath(includeDir, f)| <= |files|
  {
    if |files| > 0 {
      var rest := files[1..];
      ProtoFilePathsCount(includeDir, rest);
      assert (set f | f in files :: JoinPath(includeDir, f))
          == (set f | f in rest :: JoinPath(includeDir, f)) + {JoinPath(includeDir, files[0])} by {
        assert forall f :: f in files <==> f == files[0] || f in rest by {
          assert files == [files[0]] + rest;
        }
      }
    }
  }

  /** The import paths handed to the compiler: the configured ones, then
      the include directory last, so that it never takes precedence. */
  function CompileImportPaths(c: ProtosGenerationConfig): (r: seq<Path>)
    ensures |r| == |c.importPaths| + 1 && r[|r| - 1] == c.includeDir
    ensures r[..|c.importPaths|] == c.importPaths
  {
    c.importPaths + [c.includeDir]
  }

  /** The compile order is what adding the include directory as one more
      import path would give. */
  lemma CompileImportPathsAsBuilder(c: ProtosGenerationConfig)
    ensures CompileImportPaths(c) == c.WithImportPath(c.includeDir).importPaths
  {
  }

  /** One package segment as a Rust module name: `-` becomes `_` and the
      keyword `type` is escaped as `r#type`. */
  function ModuleSegment(segment: string): (r: string)
    ensures '-' !in r
    ensures segment == "type" ==> r == "r#type"
    ensures segment != "type" ==> r == CrateModName(segment)
  {
    var name := ReplaceChar(segment, '-', '_');
    if name == "type" then "r#type" else name
  }

  function ModuleSegments(segments: seq<string>): (r: seq<string>)
    ensures |r| == |segments|
    ensures forall i :: 0 <= i < |segments| ==> r[i] == ModuleSegment(segments[i])
  {
    if |segments| == 0 then [] else [ModuleSegment(segments[0])] + ModuleSegments(segments[1..])
  }

  /** The Rust module path of a protobuf package: its `.`-separated segments,
      each mapped, joined with `::`. */
  function ModulePath(package: string): (r: string)
    ensures '-' !in r
  {
    JoinAvoids(ModuleSegments(Split(package, ".")), "::", '-');
    Join(ModuleSegments(Split(package, ".")), "::")
  }

  /** A package without dots is one module. */
  lemma ModulePathSingle(segment: string)
    requires '.' !in segment
    ensures ModulePath(segment) == ModuleSegment(segment)
  {
    SplitWithoutSeparator(segment, '.');
  }

  /** The first dot of a package becomes the first `::` of its module path. */
  lemma ModulePathDot(head: string, rest: string)
    requires '.' !in head
    ensures ModulePath(head + "." + rest) == ModuleSegment(head) + "::" + ModulePath(rest)
  {
    SplitAtFirst(head, '.', rest);
    var segments := Split(rest, ".");
    assert ModuleSegments([head] + segments) == [ModuleSegment(head)] + ModuleSegments(segments);
  }

  /** A two-segment package whose first segment needs no mapping. */
  lemma TwoSegmentModulePath(a: string, b: string)
    requires '.' !in a && '.' !in b && '-' !in a && a != "type"
    ensures ModulePath(a + "." + b) == a + "::" + ModuleSegment(b)
  {
    ModulePathDot(a, b);
    ModulePathSingle(b);
    ReplaceCharAbsent(a, '-', '_');
  }

  /** `google.type` is the module `google::r#type`. */
  lemma GoogleTypeModulePath()
    ensures ModulePath("google.type") == "google::r#type"
  {
    var a, b := "google", "type";
    assert a + "." + b == "google.type";
    assert a + "::" + "r#type" == "google::r#type";
    TwoSegmentModulePath(a, b);
  }

  /** `google.rpc` is the module `google::rpc`. */
  lemma GoogleRpcModulePath()
    ensures ModulePath("google.rpc") == "google::rpc"
  {
    var a, b := "google", "rpc";
    assert a + "." + b == "google.rpc";
    assert a + "::" + b == "google::rpc";
    ReplaceCharAbsent(b, '-', '_');
    TwoSegmentModulePath(a, b);
  }

  /** The extern entry of message `message` in package `package`: the
      proto path `.package.message` and the Rust path through the crate
      module, the generated module and the package's module path. */
  function ExternEntry(package: string, message: string, crateMod: string, modName: string): (e: ExternPath)
    ensures |e.protoPath| == |package| + 2 + |message|
    ensures e.protoPath[..|package| + 2] == "." + package + "."
    ensures e.protoPath[|package| + 2..] == message
    ensures |e.rustPath| == |crateMod| + |modName| + |ModulePath(package)| + |message| + 8
    ensures e.rustPath[..|crateMod| + |modName| + 6] == "::" + crateMod + "::" + modName + "::"
    ensures e.rustPath[|crateMod| + |modName| + 6..|e.rustPath| - |message| - 2] == ModulePath(package)
    ensures e.rustPath[|e.rustPath| - |message| - 2..] == "::" + message
  {
    ExternPath("." + package + "." + message,
               "::" + crateMod + "::" + modName + "::" + ModulePath(package) + "::" + message)
  }

  /** Messages of one package have distinct entries. */
  lemma ExternEntryInjective(package: string, m1: string, m2: string, crateMod: string, modName: string)
    ensures ExternEntry(package, m1, crateMod, modName) == ExternEntry(package, m2, crateMod, modName) <==> m1 == m2
  {
  }

  /** The line `_externs.rs` holds for one entry. */
  function ExternLine(e: ExternPath): (line: string)
    ensures |line| == |EXTERN_OPEN| + |e.protoPath| + |EXTERN_MID| + |e.rustPath| + |EXTERN_CLOSE|
    ensures line[..|EXTERN_OPEN|] == EXTERN_OPEN
    ensures line[|EXTERN_OPEN|..|EXTERN_OPEN| + |e.protoPath|] == e.protoPath
    ensures line[|EXTERN_OPEN| + |e.protoPath|..|EXTERN_OPEN| + |e.protoPath| + |EXTERN_MID|] == EXTERN_MID
    ensures line[|EXTERN_OPEN| + |e.protoPath| + |EXTERN_MID|..|line| - |EXTERN_CLOSE|] == e.rustPath
    ensures line[|line| - |EXTERN_CLOSE|..] == EXTERN_CLOSE
  {
    EXTERN_OPEN + e.protoPath + EXTERN_MID + e.rustPath + EXTERN_CLOSE
  }

  /** A line identifies its entry, as long as the proto path holds no
      double quote. */
  lemma ExternLineInjective(a: ExternPath, b: ExternPath)
    requires '"' !in a.protoPath && '"' !in b.protoPath
    ensures ExternLine(a) == ExternLine(b) <==> a == b
  {
    if ExternLine(a) == ExternLine(b) {
      var line, o := ExternLine(a), |EXTERN_OPEN|;
      var n := if |a.protoPath| < |b.protoPath| then |a.protoPath| else |b.protoPath|;
      assert line[o + n] == '"';
    }
  }

  /** The fixed text around the two paths of an `_externs.rs` line. */
  const EXTERN_OPEN: string := "        appbiotic_code_generation_protos::ExternPath { proto_path: \""
  const EXTERN_MID: string := "\", rust_path: \""
  const EXTERN_CLOSE: string := "\" },\n"

  /** The entry on line 3 of the generated googleapis `_externs.rs`: proto
      path `.google.rpc.HttpRequest`, Rust path
      `::appbiotic_external_googleapis::protos::google::rpc::HttpRequest`
      (written here in the pieces that make it up). */
  lemma HttpRequestExternEntry()
    ensures ExternEntry("google.rpc", "HttpRequest", CrateModName(GOOGLEAPIS_CRATE), "protos")
         == ExternPath("." + "google.rpc" + "." + "HttpRequest",
                       "::" + "appbiotic_external_googleapis" + "::" + "protos" + "::" + "google::rpc" + "::" + "HttpRequest")
  {
    GoogleapisCrateModName();
    GoogleRpcModulePath();
  }

  /** The `prost::Name` implementation `_names.rs` holds for one message:
      a blank line, the `impl` line for the message's Rust type, its `NAME`
      and `PACKAGE` constants, and the closing brace. */
  function NameBlock(package: string, message: string): (block: string)
  {
    NAME_IMPL + ModulePath(package) + "::" + message + NAME_CONST + message + NAME_PACKAGE + package + NAME_END
  }

  /** The fixed text of a name block, around the Rust path, the message
      name and the package name. */
  const NAME_IMPL: string := "\nimpl prost::Name for "
  const NAME_CONST: string := " {\n    const NAME: &'static str = \""
  const NAME_PACKAGE: string := "\";\n    const PACKAGE: &'static str = \""
  const NAME_END: string := "\";\n}\n"

  /** A name block implements `prost::Name` for the message inside the
      package's module, and ends by naming the package. */
  lemma NameBlockLayout(package: string, message: string)
    ensures var r, path := NameBlock(package, message), ModulePath(package);
      && |r| >= |NAME_IMPL| + |path| + 2 + |message| + |package| + |NAME_END|
      && r[..|NAME_IMPL|] == NAME_IMPL
      && r[|NAME_IMPL|..|NAME_IMPL| + |path|] == path
      && r[|NAME_IMPL| + |path|..|NAME_IMPL| + |path| + 2 + |message|] == "::" + message
      && r[|NAME_IMPL| + |path| + 2 + |message|..|r| - |NAME_END| - |package|] == NAME_CONST + message + NAME_PACKAGE
      && r[|r| - |NAME_END| - |package|..|r| - |NAME_END|] == package
      && r[|r| - |NAME_END|..] == NAME_END
  {
    SplitLayout(NAME_IMPL, ModulePath(package), message, NAME_CONST, NAME_PACKAGE, package, NAME_END);
  }

  /** Where the pieces of `head path::message name message open package
      tail` lie. */
  lemma SplitLayout(head: string, path: string, message: string, name: string, open: string, package: string, tail: string)
    ensures var r := head + path + "::" + message + name + message + open + package + tail;
      && |r| >= |head| + |path| + 2 + |message| + |package| + |tail|
      && r[..|head|] == head
      && r[|head|..|head| + |path|] == path
      && r[|head| + |path|..|head| + |path| + 2 + |message|] == "::" + message
      && r[|head| + |path| + 2 + |message|..|r| - |tail| - |package|] == name + message + open
      && r[|r| - |tail| - |package|..|r| - |tail|] == package
      && r[|r| - |tail|..] == tail
  {
  }

  /** Lines 2-6 of the generated googleapis `_names.rs` (the block for
      `TimeOfDay`), written in the pieces that make them up. */
  lemma TimeOfDayNameBlock()
    ensures NameBlock("google.type", "TimeOfDay")
         == "\nimpl prost::Name for " + "google::r#type" + "::" + "TimeOfDay"
          + " {\n    const NAME: &'static str = \"" + "TimeOfDay"
          + "\";\n    const PACKAGE: &'static str = \"" + "google.type"
          + "\";\n}\n"
  {
    GoogleTypeModulePath();
  }

  // ---------------------------------------------------------------------
  // The generated `_externs.rs` and `_names.rs`

  /** What `build` reads of a compiled file descriptor: its name, its
      package and the names of its top-level messages. */
  datatype FileDescriptor = FileDescriptor(name: string, package: string, messages: seq<string>)

  /** The extern entries of one file, in message order. */
  function FileEntries(f: FileDescriptor, crateMod: string, modName: string): (r: seq<ExternPath>)
    ensures |r| == |f.messages|
    ensures forall j :: 0 <= j < |r| ==> r[j] == ExternEntry(f.package, f.messages[j], crateMod, modName)
  {
    seq(|f.messages|, j requires 0 <= j < |f.messages| => ExternEntry(f.package, f.messages[j], crateMod, modName))
  }

  /** The extern entries of all files, file by file. */
  function Entries(files: seq<FileDescriptor>, crateMod: string, modName: string): seq<ExternPath>
  {
    if |files| == 0 then []
    else Entries(files[..|files| - 1], crateMod, modName) + FileEntries(files[|files| - 1], crateMod, modName)
  }

  /** Every message of every file has its entry. */
  lemma {:induction false} EntriesComplete(files: seq<FileDescriptor>, crateMod: string, modName: string, i: nat, j: nat)
    requires i < |files| && j < |files[i].messages|
    ensures ExternEntry(files[i].package, files[i].messages[j], crateMod, modName) in Entries(files, crateMod, modName)
  {
    var n := |files| - 1;
    if i < n {
      EntriesComplete(files[..n], crateMod, modName, i, j);
    } else {
      assert FileEntries(files[n], crateMod, modName)[j] == ExternEntry(files[i].package, files[i].messages[j], crateMod, modName);
    }
  }

  /** Every entry is that of some message of some file. */
  lemma {:induction false} EntriesSound(files: seq<FileDescriptor>, crateMod: string, modName: string, e: ExternPath)
    requires e in Entries(files, crateMod, modName)
    ensures exists i, j :: 0 <= i < |files| && 0 <= j < |files[i].messages|
                        && e == ExternEntry(files[i].package, files[i].messages[j], crateMod, modName)
  {
    var n := |files| - 1;
    if e in Entries(files[..n], crateMod, modName) {
      EntriesSound(files[..n], crateMod, modName, e);
      var i, j :| 0 <= i < n && 0 <= j < |files[..n][i].messages|
               && e == ExternEntry(files[..n][i].package, files[..n][i].messages[j], crateMod, modName);
      assert files[..n][i] == files[i];
    } else {
      var r := FileEntries(files[n], crateMod, modName);
      var j :| 0 <= j < |r| && r[j] == e;
      assert e == ExternEntry(files[n].package, files[n].messages[j], crateMod, modName);
    }
  }

  /** The lines of a list of entries. */
  function ExternLines(entries: seq<ExternPath>): string
  {
    ConcatMap(entries, ExternLine)
  }

  /** The name blocks of one file's messages, in order. */
  function MessageBlocks(package: string, messages: seq<string>): string
  {
    ConcatMap(messages, message => NameBlock(package, message))
  }

  /** The name blocks of all files, file by file. */
  function NameBlocks(files: seq<FileDescriptor>): string
  {
    if |files| == 0 then ""
    else NameBlocks(files[..|files| - 1]) + MessageBlocks(files[|files| - 1].package, files[|files| - 1].messages)
  }

  const EXTERNS_HEADER: string :=
    "pub fn externs() -> Vec<appbiotic_code_generation_protos::ExternPath> {\n    vec![\n"
  const EXTERNS_FOOTER: string := "    ]\n}\n"
  const NAMES_HEADER: string :=
    "// TODO: Remove Name implementation after https://github.com/tokio-rs/prost/issues/921\n"

  /** The extern lines and name blocks of one file's messages, in message order. */
  method WriteFileOutputs(f: FileDescriptor, crateMod: string, modName: string)
    returns (lines: string, blocks: string)
    ensures lines == ExternLines(FileEntries(f, crateMod, modName))
    ensures blocks == MessageBlocks(f.package, f.messages)
  {
    ghost var entries := FileEntries(f, crateMod, modName);
    lines, blocks := "", "";
    var j := 0;
    while j < |f.messages|
      invariant 0 <= j <= |f.messages|
      invariant lines == ExternLines(entries[..j])
      invariant blocks == MessageBlocks(f.package, f.messages[..j])
    {
      var message := f.messages[j];
      var entry := ExternEntry(f.package, message, crateMod, modName);
      assert entries[..j + 1][..j] == entries[..j] && entries[j] == entry;
      assert ExternLines(entries[..j + 1]) == ExternLines(entries[..j]) + ExternLine(entry);
      lines := lines + ExternLine(entry);
      assert f.messages[..j + 1][..j] == f.messages[..j];
      assert MessageBlocks(f.package, f.messages[..j + 1])
          == MessageBlocks(f.package, f.messages[..j]) + NameBlock(f.package, message);
      blocks := blocks + NameBlock(f.package, message);
      j := j + 1;
    }
    assert entries[..j] == entries;
    assert f.messages[..j] == f.messages;
  }

  /** One more file adds its entries after the earlier ones. */
  lemma EntriesSnoc(files: seq<FileDescriptor>, i: nat, crateMod: string, modName: string)
    requires i < |files|
    ensures Entries(files[..i + 1], crateMod, modName)
         == Entries(files[..i], crateMod, modName) + FileEntries(files[i], crateMod, modName)
  {
    assert files[..i + 1][..i] == files[..i];
  }

  /** One more file adds its name blocks after the earlier ones. */
  lemma NameBlocksSnoc(files: seq<FileDescriptor>, i: nat)
    requires i < |files|
    ensures NameBlocks(files[..i + 1]) == NameBlocks(files[..i]) + MessageBlocks(files[i].package, files[i].messages)
  {
    assert files[..i + 1][..i] == files[..i];
  }

  /** The text `build` writes to `_externs.rs` and `_names.rs`: one extern
      line and one name block per message, file by file, message by message. */
  method WriteOutputs(files: seq<FileDescriptor>, crateMod: string, modName: string)
    returns (externs: string, names: string)
    ensures externs == EXTERNS_HEADER + ExternLines(Entries(files, crateMod, modName)) + EXTERNS_FOOTER
    ensures names == NAMES_HEADER + NameBlocks(files)
  {
    var lineText, blockText := "", "";
    var i := 0;
    while i < |files|
      invariant 0 <= i <= |files|
      invariant lineText == ExternLines(Entries(files[..i], crateMod, modName))
      invariant blockText == NameBlocks(files[..i])
    {
      var lines, blocks := WriteFileOutputs(files[i], crateMod, modName);
      EntriesSnoc(files, i, crateMod, modName);
      ConcatMapAppend(Entries(files[..i], crateMod, modName), FileEntries(files[i], crateMod, modName), ExternLine);
      NameBlocksSnoc(files, i);
      lineText := lineText + lines;
      blockText := blockText + blocks;
      i := i + 1;
    }
    assert files[..i] == files;
    externs := EXTERNS_HEADER + lineText + EXTERNS_FOOTER;
    names := NAMES_HEADER + blockText;
  }

  // ---------------------------------------------------------------------
  // The descriptor filter

  /** The files whose name is one of the configured proto files, in their
      original order. */
  function Retained(files: seq<FileDescriptor>, protoFiles: seq<Path>): (kept: seq<FileDescriptor>)
  {
    if |files| == 0 then []
    else
      var last := files[|files| - 1];
      Retained(files[..|files| - 1], protoFiles) + (if last.name in protoFiles then [last] else [])
  }

  /** A file is kept exactly when it is one of the files and listed. */
  lemma {:induction false} RetainedMembers(files: seq<FileDescriptor>, protoFiles: seq<Path>, f: FileDescriptor)
    ensures f in Retained(files, protoFiles) <==> f in files && f.name in protoFiles
  {
    if |files| > 0 {
      var n := |files| - 1;
      RetainedMembers(files[..n], protoFiles, f);
      assert files == files[..n] + [files[n]];
    }
  }

  /** Filtering a concatenation filters each part, keeping the order. */
  lemma {:induction false} RetainedAppend(a: seq<FileDescriptor>, b: seq<FileDescriptor>, protoFiles: seq<Path>)
    ensures Retained(a + b, protoFiles) == Retained(a, protoFiles) + Retained(b, protoFiles)
    decreases |b|
  {
    if |b| == 0 {
      assert a + b == a;
    } else {
      var n := |b| - 1;
      assert (a + b)[..|a + b| - 1] == a + b[..n];
      RetainedAppend(a, b[..n], protoFiles);
    }
  }

  /** Filtering twice keeps the same files. */
  lemma {:induction false} RetainedIdempotent(files: seq<FileDescriptor>, protoFiles: seq<Path>)
    ensures Retained(Retained(files, protoFiles), protoFiles) == Retained(files, protoFiles)
  {
    if |files| > 0 {
      var n := |files| - 1;
      var last := files[n];
      var tail := if last.name in protoFiles then [last] else [];
      RetainedIdempotent(files[..n], protoFiles);
      RetainedAppend(Retained(files[..n], protoFiles), tail, protoFiles);
      if last.name in protoFiles {
        assert [last][..0] == [];
      }
    }
  }

  /** `descriptor.file.retain(..)`: compacts the listed files to the front of
      the buffer, in order, and gives their number. */
  method Retain(files: array<FileDescriptor>, protoFiles: seq<Path>) returns (len: nat)
    modifies files
    ensures len <= files.Length
    ensures files[..len] == Retained(old(files[..]), protoFiles)
  {
    ghost var original := files[..];
    var k := 0;
    var i := 0;
    while i < files.Length
      invariant 0 <= k <= i <= files.Length
      invariant files[..k] == Retained(original[..i], protoFiles)
      invariant files[i..] == original[i..]
    {
      var f := files[i];
      assert f == original[i];
      assert original[..i + 1][..i] == original[..i];
      if f.name in protoFiles {
        ghost var kept := files[..k];
        files[k] := f;
        assert files[..k + 1] == kept + [f];
        k := k + 1;
      }
      assert files[i + 1..] == original[i + 1..] by {
        assert forall t :: i + 1 <= t < files.Length ==> files[t] == original[t];
      }
      i := i + 1;
    }
    assert original[..i] == original;
    len := k;
  }
}
