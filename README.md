# appbiotic error model, FFI boundary and protobuf generator — a Dafny model

This project models four pieces of the appbiotic Rust workspace and proves
properties of them.

- **The error taxonomy** (`appbiotic/code/error/src/lib.rs`, module `Errors`
  in `errors.dfy`). An `Error` is one of 16 kinds (`Kind`), and each kind
  wraps an `ErrorStatus`: an optional message plus an optional, ordered list
  of `ErrorDetails`. The model covers:
  - the `code` table and its agreement with the C enum `AppbioticErrorCode`;
  - the SCREAMING_SNAKE_CASE display name;
  - the HTTP status table;
  - the conversion to a tonic status (`RpcStatus`: code and message) and the
    partial conversion back, which rejects `Ok`;
  - the per-kind constructors, `invalid_argument_field[_name]` and `with_error`;
  - the copy-on-write `ErrorStatus` builders;
  - the `ErrorDetails` constructors and display names;
  - `FieldViolation::for_member`;
  - the `Field` locator: a reversed stack of `Property` values, rendered
    outermost first and joined with `.`.

  `inner()` and `From<Error> for ErrorStatus` are the `status` field of
  `Error`. The 16 message constructors are one function, `Errors.New`, which
  takes the kind.
- **The raw FFI handles** (`appbiotic/code/ffi/src/lib.rs`, module `Ffi` in
  `ffi.dfy`). `OwnedVec` releases its data on drop. `ReferencedVec` never
  does. `FfiString` is a NUL-terminated string, or null when the text holds a
  NUL. Raw memory is a `Heap` object:
  - `blocks` maps live allocations to their contents;
  - the ghost set `released` holds the allocations already freed.

  `Release` requires a live block and moves it to `released`. So every proof
  that a drop goes through also shows that the allocation was live, and was
  released once. Each handle carries a ghost `live` flag, which the `Box`
  reclamation in the `extern "C"` drop functions clears.
- **The boundary envelope** (`appbiotic/code/error/src/ffi.rs`, module
  `ErrorFfi` in `error_ffi.dfy`). It has a `Status` (code and C-string
  message) and a `Result` (owned response bytes and a status). Both are
  built from success bytes or from an `Error`, and both have null-tolerant
  drop functions. Two points of `ffi.rs` the model keeps as written:
  - `ErrorFfi.Status.FromError`: the message is the kind's display name
    (`value.to_string()`, e.g. `NOT_FOUND`), not `inner().message`.
  - `ErrorFfi.Status.WithMessage` releases the previous message, because
    the moved-in status is dropped at the end of `with_message`.
- **The protobuf generator** (`appbiotic/code/generation/protos/src/lib.rs`,
  module `Protos` in `protos.dfy`). It covers:
  - the configuration builders;
  - the text computations of `build`:
    - the output module directory;
    - the crate module name;
    - the import-path order;
    - the package to Rust module mapping, with the `type` → `r#type` escape;
    - the `_externs.rs` lines and `_names.rs` blocks;
  - the descriptor `retain` filter, modelled in place on an array.

Shared helpers live in `wrappers.dfy` (`Option`, `Result`) and `strings.dfy`
(`split`, `join`, reversal, single-character `replace`, decimal rendering).
Paths are strings with `/` between components.

## Model

| member | source | states |
|---|---|---|
| Errors.Code | appbiotic/code/error/src/lib.rs:308-327 | every kind's code is in 1..16 and never `OK` (0) |
| Errors.CodeMatchesAbi | appbiotic/code/error/error.h:10-90 | `code()` agrees with the C enum `AppbioticErrorCode` for every kind |
| Errors.CodeInjective | appbiotic/code/error/src/lib.rs:20-38 | distinct kinds have distinct codes |
| Errors.CodeRoundTrip | appbiotic/code/error/src/lib.rs:538-580 | the `TryFrom` table maps each kind's code back to that kind |
| Errors.CodeOnto | appbiotic/code/error/src/lib.rs:538-580 | every non-Ok code 1..16 is the code of the kind `TryFrom` gives it |
| Errors.KindOfCode | appbiotic/code/error/src/lib.rs:538-580 | the `TryFrom` table has no kind exactly for code `Ok` |
| Errors.Name | appbiotic/code/error/src/lib.rs:44-45 | the display name is non-empty and holds no NUL, so it always crosses the boundary as a C string |
| Errors.NameRoundTrip | appbiotic/code/error/src/lib.rs:44-45 | each kind's SCREAMING_SNAKE_CASE name identifies that kind |
| Errors.Display | appbiotic/code/error/src/lib.rs:252-256 | an error displays as its kind's name |
| Errors.DisplayIgnoresStatus | appbiotic/code/error/src/lib.rs:252-256 | the display does not depend on the message or the details |
| Errors.HttpStatus | appbiotic/code/error/src/lib.rs:447-470 | the HTTP table, as an iff for every status (499, 500, 400, 504, 404, 409, 403, 401, 429, 501, 503), always 4xx or 5xx |
| Errors.New | appbiotic/code/error/src/lib.rs:331-417 | each message constructor gives its kind, exactly the given message and no details |
| Errors.InvalidArgumentField | appbiotic/code/error/src/lib.rs:343-352 | InvalidArgument with the message and exactly one `BadRequest` holding one violation on a single-member field |
| Errors.InvalidArgumentFieldName | appbiotic/code/error/src/lib.rs:353-365 | InvalidArgument with no message and exactly one `BadRequest` holding one violation whose field is the single member `name` (rendered as `name`) and whose description is the given one |
| Errors.WithError | appbiotic/code/error/src/lib.rs:420-443 | keeps the kind and the message, appends exactly one `DebugInfo` with the text, and leaves the display unchanged |
| Errors.ErrorStatus.WithMessage | appbiotic/code/error/src/lib.rs:602-607 | replaces the message and keeps the details |
| Errors.ErrorStatus.WithDetails | appbiotic/code/error/src/lib.rs:609-616 | keeps the message and the earlier details in order, puts the new detail last, and turns no details into a one-element list |
| Errors.ErrorStatus.WithError | appbiotic/code/error/src/lib.rs:618-623 | appends `DebugInfo{stack_entries: None, detail: Some(text)}` and keeps the message |
| Errors.ErrorDetails.Name | appbiotic/code/error/src/lib.rs:683-687 | each detail variant has its own display name (iff) |
| Errors.BadRequestOf | appbiotic/code/error/src/lib.rs:661-665 | a `BadRequest` with exactly the one violation |
| Errors.DebugInfoOf | appbiotic/code/error/src/lib.rs:667-672 | a `DebugInfo` with no stack entries and the detail, displayed `DEBUG_INFO` |
| Errors.LocalizedMessageOf | appbiotic/code/error/src/lib.rs:674-679 | a `LocalizedMessage` with the locale and message, displayed `LOCALIZED_MESSAGE` |
| Errors.ForMember | appbiotic/code/error/src/lib.rs:736-743 | the violation's field is the single member, rendered as the name |
| Errors.PropertyRendering | appbiotic/code/error/src/lib.rs:834-842 | every property renders starting with its name; a member is just the name, a map member adds `["key"]`, an array member adds `[` digits `]`, with no leading zero, whose decimal value is the index |
| Errors.Field.New | appbiotic/code/error/src/lib.rs:761-765 | a one-property path rendered as that property |
| Errors.Field.OfMember | appbiotic/code/error/src/lib.rs:767-771 | renders as the name |
| Errors.Field.OfArrayMember | appbiotic/code/error/src/lib.rs:773-778 | renders as `name[index]` |
| Errors.Field.WithContext | appbiotic/code/error/src/lib.rs:780-783 | pushes the property onto the reversed path |
| Errors.WithContextRendersFirst | appbiotic/code/error/src/lib.rs:780-783 | the pushed context renders first, followed by `.` and the previous rendering |
| Errors.Field.WithinMember | appbiotic/code/error/src/lib.rs:785-789 | renders as `name.` followed by the previous rendering |
| Errors.Field.WithinArrayMember | appbiotic/code/error/src/lib.rs:791-796 | renders as `name[index].` followed by the previous rendering |
| Errors.Field.InvalidArgument | appbiotic/code/error/src/lib.rs:798-812 | InvalidArgument with the message and exactly one `BadRequest` holding this field and the description |
| Errors.FormatField | appbiotic/code/error/src/lib.rs:815-825 | the descending-index loop writes the path outermost first, joined by `.`, with no trailing dot |
| Errors.ToRpc | appbiotic/code/error/src/lib.rs:474-534 | the code is never Ok, maps back to the same kind, and the message is the status message or "" |
| Errors.FromRpc | appbiotic/code/error/src/lib.rs:538-580 | fails exactly on code Ok with InvalidArgument "Cannot convert OK status to Error"; otherwise the kind with that code, the message, and no details |
| Errors.RpcRoundTrip | appbiotic/code/error/src/lib.rs:474-580 | converting to a tonic status and back keeps the kind, makes the message `Some(message or "")` and drops the details |
| Errors.RpcStatusRoundTrip | appbiotic/code/error/src/lib.rs:474-580 | every non-Ok status converts to an error that converts back to the same status |
| Errors.InternalWithErrorDisplay | appbiotic/code/error/src/lib.rs:892-903 | `internal(..).with_error(..)` displays `INTERNAL` and carries a `DEBUG_INFO` detail |
| Errors.PropertyDisplayExamples | appbiotic/code/error/src/lib.rs:905-929 | `nickname`, `children["son"]` and `children[3]` |
| Errors.ThreeSegmentFieldDisplay | appbiotic/code/error/src/lib.rs:931-949 | a map member inside an array member inside a member renders `outer.list[i].dict["key"]` |
| Errors.NestedFieldDisplayExample | appbiotic/code/error/src/lib.rs:931-949 | renders `family.children[3].nicknames["joe"]` |
| Errors.MemberFieldDisplayExample | appbiotic/code/error/src/lib.rs:951-960 | renders `server.config` |
| Ffi.OwnedVec.Default | appbiotic/code/ffi/src/lib.rs:14-21 | null data, length 0, no bytes |
| Ffi.OwnedVec.FromVec | appbiotic/code/ffi/src/lib.rs:23-33 | a fresh non-null allocation holding the bytes in order, with `len` the byte count |
| Ffi.OwnedVec.Drop | appbiotic/code/ffi/src/lib.rs:35-46 | releases `data` exactly when it is non-null, and nothing else |
| Ffi.OwnedVecDrop | appbiotic/code/ffi/src/lib.rs:53-63 | null is a no-op; otherwise the handle is dropped once |
| Ffi.ReferencedVec.Default | appbiotic/code/ffi/src/lib.rs:73-80 | null data and length 0 |
| Ffi.ReferencedVec.FromVec | appbiotic/code/ffi/src/lib.rs:82-92 | a fresh allocation holding the bytes; the class has no operation that releases it |
| Ffi.FfiString.Default | appbiotic/code/ffi/src/lib.rs:100-106 | the null pointer, denoting no text |
| Ffi.FfiString.Drop | appbiotic/code/ffi/src/lib.rs:108-119 | releases `bytes` exactly when it is non-null |
| Ffi.FfiString.FromString | appbiotic/code/ffi/src/lib.rs:121-137 | non-null exactly when the text has no NUL; then a fresh C string whose text is the input, else null and no allocation |
| Ffi.StringDrop | appbiotic/code/ffi/src/lib.rs:144-154 | null is a no-op; otherwise the string is dropped once |
| Ffi.OwnedVecLifecycle | appbiotic/code/ffi/src/lib.rs:23-63 | the bytes read back through the handle are the input bytes, and `len` is their count |
| ErrorFfi.Status.Ok | appbiotic/code/error/src/ffi.rs:16-21 | code Ok (0) and a null message |
| ErrorFfi.Status.WithMessage | appbiotic/code/error/src/ffi.rs:23-28 | keeps the code; the message is the C string of the text, or null when the text holds a NUL; the old message is released; at most the one new C string is allocated and nothing else is released |
| ErrorFfi.Status.FromError | appbiotic/code/error/src/ffi.rs:31-38 | the error's code, and as message the kind's display name (not the status message) |
| ErrorFfi.StatusDrop | appbiotic/code/error/src/ffi.rs:46-55 | null is a no-op; otherwise releases the message once, if it is non-null |
| ErrorFfi.Result.WithMessage | appbiotic/code/error/src/ffi.rs:66-76 | the response and the status code are unchanged; the message is the C string of the text, or null when the text holds a NUL; the previous message is released; at most the one new C string is allocated and every other heap block is unchanged |
| ErrorFfi.Result.FromVec | appbiotic/code/error/src/ffi.rs:78-91 | status Ok with a null message; the response owns the bytes in order, with `len` the byte count |
| ErrorFfi.Result.FromError | appbiotic/code/error/src/ffi.rs:93-100 | a null, empty response and the status `From<Error>` gives |
| ErrorFfi.ResultDrop | appbiotic/code/error/src/ffi.rs:108-117 | null is a no-op; otherwise releases the response data and the message once each, if non-null |
| ErrorFfi.ErrorResultLifecycle | appbiotic/code/error/src/ffi.rs:93-117 | the other side reads the error's code (never Ok), its display name and an empty response |
| Protos.ProtosGenerationConfig.New | appbiotic/code/generation/protos/src/lib.rs:72-86 | module name `protos` and empty file, import and extern lists |
| Protos.ProtosGenerationConfig.WithIncludeDir | appbiotic/code/generation/protos/src/lib.rs:88-99 | replaces only the include directory |
| Protos.ProtosGenerationConfig.WithProtoFile | appbiotic/code/generation/protos/src/lib.rs:101-113 | appends one file at the end; every other field unchanged |
| Protos.ProtosGenerationConfig.WithProtoFiles | appbiotic/code/generation/protos/src/lib.rs:115-131 | keeps the existing files as prefix, followed by the new ones in order; every other field unchanged |
| Protos.ProtosGenerationConfig.WithImportPath | appbiotic/code/generation/protos/src/lib.rs:133-145 | appends one import path at the end; every other field unchanged |
| Protos.ProtosGenerationConfig.WithImportPaths | appbiotic/code/generation/protos/src/lib.rs:147-163 | keeps the existing import paths as prefix, followed by the new ones in order |
| Protos.ProtosGenerationConfig.WithExternPath | appbiotic/code/generation/protos/src/lib.rs:165-177 | appends one extern path at the end; every other field unchanged |
| Protos.ProtosGenerationConfig.WithExternPaths | appbiotic/code/generation/protos/src/lib.rs:179-194 | keeps the existing extern paths as prefix, followed by the new ones in order |
| Protos.WithProtoFilesIsRepeated | appbiotic/code/generation/protos/src/lib.rs:115-131 | extending with several files equals adding them one at a time, in order |
| Protos.WithImportPathsIsRepeated | appbiotic/code/generation/protos/src/lib.rs:147-163 | extending with several import paths equals adding them one at a time, in order |
| Protos.WithExternPathsIsRepeated | appbiotic/code/generation/protos/src/lib.rs:179-194 | extending with several extern paths equals adding them one at a time, in order |
| Protos.SwiftNaming.AsRef | appbiotic/code/generation/protos/src/lib.rs:21-27 | each variant's name is its PascalCase identifier (`FullPath`, `PathToUnderscores`, `DropPath`, as iffs): non-empty, capitalised, no `_` |
| Protos.SwiftNaming.Default | appbiotic/code/generation/protos/src/lib.rs:29-33 | the default naming is `PathToUnderscores` |
| Protos.SwiftNamingNamesDistinct | appbiotic/code/generation/protos/src/lib.rs:21-27 | two namings have the same name exactly when they are the same |
| Protos.SwiftModuleMappings.New | appbiotic/code/generation/protos/src/lib.rs:41-46 | the module name and no files |
| Protos.SwiftModuleMappings.WithProtoFile | appbiotic/code/generation/protos/src/lib.rs:48-55 | appends one file and keeps the module name |
| Protos.SwiftModuleMappings.WithProtoFiles | appbiotic/code/generation/protos/src/lib.rs:57-68 | keeps the existing files as prefix, followed by the new ones in order |
| Protos.MappingWithProtoFilesIsRepeated | appbiotic/code/generation/protos/src/lib.rs:57-68 | extending a mapping with several files equals adding them one at a time |
| Protos.BuildOutModDir | appbiotic/code/generation/protos/src/lib.rs:204-208 | the fold over the `::` segments gives `crate_dir/src/` followed by the segments joined with `/` |
| Protos.OutModDirUnderCrate | appbiotic/code/generation/protos/src/lib.rs:209-212 | the crate directory is always an ancestor of the output directory, so that check never fails |
| Protos.DefaultOutModDir | appbiotic/code/generation/protos/src/lib.rs:204-208 | with the default module name the output is `crate_dir/src/protos` |
| Protos.CrateModName | appbiotic/code/generation/protos/src/lib.rs:217 | same length, no `-` left, every `-` becomes `_` and every other character is kept |
| Protos.ThreeWordCrateModName | appbiotic/code/generation/protos/src/lib.rs:217 | for dash-free `a`, `b` and `c`, `a-b-c` becomes `a_b_c` |
| Protos.GoogleapisCrateModName | appbiotic/external/googleapis/src/protos/_externs.rs:3 | `appbiotic-external-googleapis` becomes `appbiotic_external_googleapis` |
| Protos.ProtoFilePaths | appbiotic/code/generation/protos/src/lib.rs:219-223 | the set holds `include_dir/file` for exactly the configured files, and no more elements than there are files |
| Protos.CompileImportPaths | appbiotic/code/generation/protos/src/lib.rs:225-228 | the configured import paths in order, with the include directory last |
| Protos.CompileImportPathsAsBuilder | appbiotic/code/generation/protos/src/lib.rs:225-228 | the compile order is what adding the include directory as one more import path gives |
| Protos.ModuleSegment | appbiotic/code/generation/protos/src/lib.rs:316-317 | `-` becomes `_`, and a segment `type` becomes `r#type` |
| Protos.ModuleSegments | appbiotic/code/generation/protos/src/lib.rs:313-317 | maps every segment, in order |
| Protos.ModulePathSingle | appbiotic/code/generation/protos/src/lib.rs:311-319 | a package without dots is one module segment |
| Protos.ModulePathDot | appbiotic/code/generation/protos/src/lib.rs:311-319 | the first `.` of a package becomes the first `::` of its module path |
| Protos.ModulePath | appbiotic/code/generation/protos/src/lib.rs:311-319 | a module path never contains `-` (its segments are characterised by ModulePathSingle and ModulePathDot) |
| Protos.TwoSegmentModulePath | appbiotic/code/generation/protos/src/lib.rs:311-319 | when neither `a` nor `b` holds `.`, `a` holds no `-` and `a` is not `type`, `a.b` maps to `a::` followed by b's mapped segment |
| Protos.GoogleTypeModulePath | appbiotic/external/googleapis/src/protos/_names.rs:3-5 | `google.type` maps to `google::r#type` |
| Protos.GoogleRpcModulePath | appbiotic/external/googleapis/src/protos/_externs.rs:3 | `google.rpc` maps to `google::rpc` |
| Protos.ExternEntry | appbiotic/code/generation/protos/src/lib.rs:324-328 | the proto path is `.package.` followed by the message name; the Rust path is `::crate_mod::mod_name::`, then the package's module path, then `::` and the message name |
| Protos.ExternLine | appbiotic/code/generation/protos/src/lib.rs:324-328 | the `_externs.rs` line holds the proto path and the Rust path, in that order, between the fixed text of the format string |
| Protos.ExternLineInjective | appbiotic/code/generation/protos/src/lib.rs:324-328 | for proto paths without a double quote, two entries give the same line exactly when they are the same entry |
| Protos.ExternEntryInjective | appbiotic/code/generation/protos/src/lib.rs:324-328 | two messages of one package have the same entry exactly when they are the same message |
| Protos.HttpRequestExternEntry | appbiotic/external/googleapis/src/protos/_externs.rs:3 | the entry for `google.rpc.HttpRequest` is the one the generated file lists |
| Protos.NameBlockLayout | appbiotic/code/generation/protos/src/lib.rs:336-353 | a name block starts with a blank line and `impl prost::Name for `, followed by the package's module path, `::` and the message name; then `const NAME` holding the message name and `const PACKAGE` holding the package name; then the closing brace |
| Protos.TimeOfDayNameBlock | appbiotic/external/googleapis/src/protos/_names.rs:2-6 | the name block for `google.type.TimeOfDay` is the one the generated file holds |
| Protos.FileEntries | appbiotic/code/generation/protos/src/lib.rs:321-329 | one entry per message of the file, in message order |
| Protos.EntriesComplete | appbiotic/code/generation/protos/src/lib.rs:311-329 | every message of every file has its extern entry |
| Protos.EntriesSound | appbiotic/code/generation/protos/src/lib.rs:311-329 | every extern entry belongs to some message of some file |
| Protos.WriteFileOutputs | appbiotic/code/generation/protos/src/lib.rs:321-354 | the inner loop writes one extern line and one name block per message, in order |
| Protos.WriteOutputs | appbiotic/code/generation/protos/src/lib.rs:284-357 | `_externs.rs` is its header, the lines of all entries file by file, and its footer; `_names.rs` is its header and the blocks file by file |
| Protos.Retain | appbiotic/code/generation/protos/src/lib.rs:271-279 | the in-place filter leaves exactly the listed files at the front, in their original order |
| Protos.RetainedMembers | appbiotic/code/generation/protos/src/lib.rs:271-279 | a file is kept exactly when it is one of the files and its name is listed |
| Protos.RetainedAppend | appbiotic/code/generation/protos/src/lib.rs:271-279 | filtering a concatenation filters each part, keeping the order |
| Protos.RetainedIdempotent | appbiotic/code/generation/protos/src/lib.rs:271-279 | filtering twice gives the same files as filtering once |

## Left out

- Actual allocator behaviour. Release is modelled abstractly: a live block
  leaves the heap once, and only for a non-null pointer. The model does not
  claim that the matching deallocation routine is used. Three mismatches
  are not captured:
  - drop rebuilds a `Box<u8>` from a boxed-slice pointer;
  - the string drop rebuilds a `Box` from a `CString::into_raw` pointer;
  - an empty vector gives a dangling non-null pointer, which drop would
    still try to free. The model allocates a block for it.
- Ffi.OwnedVec.FromVec: `usize` bounds on the length are not modelled
  (lengths are `nat`).
- `crate::AppbioticErrorCode` and `AppbioticCodeFfi_Vec` are not part of
  this model. The status code is the `int` value of the C enum in `error.h`.
  The response is the owned `{data, len}` buffer `Ffi.OwnedVec`.
- Strings are sequences of characters. UTF-8 encoding, `Path::display`
  lossiness, and `CString`'s byte-level check are not modelled. An interior
  NUL is the character `'\0'`.
- ErrorFfi.Status.Ok: the message handle is a fresh null handle, so no
  allocation happens. Struct moves and copies are not modelled: each
  `Status` and `Result` owns its handle objects.
- The `tracing` `event!` calls are logging only.
- The asynchronous completion callback and any thread crossing do not
  appear in the modelled files.
- The I/O in `build` is not modelled:
  - directory and file creation;
  - the `tonic_build`/`protoc` invocation;
  - descriptor encode and decode;
  - the `println!`/`eprintln!` cargo directives;
  - the fixed `mod.rs` and `.gitignore` contents.

  `Protos.WriteOutputs` models only the text written to `_externs.rs` and
  `_names.rs`.
- The `HashSet` of proto file paths has no order. `Protos.ProtoFilePaths`
  states membership only.
- Protos.BuildOutModDir: `PathBuf::join` is modelled as string
  concatenation with `/`. An absolute or empty segment, which would replace
  the path or add a trailing separator, is not modelled.
  `Protos.OutModDirUnderCrate` is component-wise only under the same
  assumption.
- Protos.RetainedMembers: proto files are compared as strings, not as
  `PathBuf` component lists.
- Protos.HttpRequestExternEntry and Protos.TimeOfDayNameBlock: the expected
  text is written as the concatenation of its literal pieces, rather than
  as one literal.
- Errors.Field.WithinMember and Errors.Field.WithinArrayMember: the
  rendering is stated only for a non-empty path. Every `Field` the source
  can build is non-empty.
- External types are not modelled:
  - `http::StatusCode` is an integer;
  - `tonic::Status` is a code and message pair;
  - strum names are a table;
  - the serde derives and the `Request`/`Response` wrappers are out of
    scope.
- Errors.StatusCodeFromU16 stands for `http::StatusCode::from_u16` from the
  http crate, which is not part of this model. It is modelled as accepting
  exactly 100..=999 and keeping the value.
