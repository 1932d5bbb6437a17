# competitive-verifier core, modelled in Dafny

competitive-verifier checks a library of algorithm source files against
test data and publishes documentation for them. This project models five
small pieces of it and proves what their code and tests promise.

- **The verification dependency graph** (`VerificationFiles`,
  `DependencyGraph`, `VerificationInputs`, `GraphFixture`). A path → file
  map is the input. Four relations are derived from it:
  - `depends_on` is the direct dependency set of each file.
  - `transitive_depends_on` is the least successor-closed set containing
    the file. It is proved equal to reachability by walks, so it tolerates
    cycles.
  - `required_by` holds the direct dependents that have no verification
    entries.
  - `verified_with` holds the direct dependents that do.

  A `VerificationInput` object computes each relation on first access and
  returns the same object afterwards. The ten-file fixture of the tests,
  including its three-file cycle, is proved to yield the four expected maps.
- **Front matter** (`PyBytes`, `FrontMatters`). A document may open with a
  YAML block between `---` lines. The split walks the lines of
  `bytes.splitlines()` and matches separators after `rstrip()`. The merge
  writes `---\n`, the YAML dump, `---\n` and then the content to a byte
  stream. Splitting a merged document gives back its block and content
  when no line of the YAML dump is itself a separator line and the content
  holds no CR and does not end with LF. In general, the content after a
  block comes back with every line break normalised to LF and one final
  newline dropped.
- **The default `Language` behaviour** (`Languages`). A file is a
  verification file when `.test.` occurs in its last path component.
  `list_attributes` appends the embedded URLs to the `links` list of the
  special comments.
- **The language registry** (`LanguageRegistry`). The extension → language
  table is built once. Its four C++ extensions share one object. The
  `languages` table of the configuration is then applied entry by entry:
  - an entry that touches a reserved setting of a built-in language is
    rejected;
  - any other entry for a known extension is ignored;
  - an entry for a new extension adds a user-defined language.

  Lookups go by `PurePath.suffix`. As in the code, the table is published
  before the configuration is applied. After a rejection, the partly
  updated table therefore stays cached, and later calls return it without
  an error.
- **Result merging** (`MergeResults`). `reduce` over the pairwise merge is
  modelled as a left fold. It fails on empty input, and a single result is
  returned untouched.

Bytes are `seq<Byte>` over a `Byte` newtype of 0..255. Paths are POSIX
strings.

Three facts about the code and its tests shape the model:

- **`required_by` is not the exact dual of `depends_on`.** test/test.py
  depends on hoge/piyopiyo.py. Yet `required_by[hoge/piyopiyo.py]` is
  empty, and `verified_with[hoge/piyopiyo.py]` is `{test/test.py}`
  (tests/models/test_verification_input.py:164,183,203). A dependent
  with verification entries is counted in `verified_with` instead.
- **`verified_with` is direct, not transitive.** `hoge/piyo.py` is reached
  from test/test.py only transitively, and the tests expect its
  `verified_with` to be empty.
- **The pairwise merge is left uninterpreted.** Its body is not part of
  the model, so no algebraic law about it is assumed.

## Model

| member | source | states |
|---|---|---|
| VerificationFiles.ParseFile | tests/models/test_verification_input.py:51-75 | a missing `dependencies`, `verification` or `document_attributes` key parses as empty, a supplied one is kept, and a supplied `path` is dropped |
| VerificationFiles.DumpFile | tests/models/test_verification_input.py:69-87 | the dump writes all three fields and never a `path` key |
| VerificationFiles.ParseDumpRoundTrip | tests/models/test_verification_input.py:47-49 | parsing the dump of any input gives back an equal input |
| VerificationFiles.DumpParseNormalises | tests/models/test_verification_input.py:51-87 | parse, dump and parse again is the same as parsing once |
| DependencyGraph.DependsOn | tests/models/test_verification_input.py:153-170 | every declared path is a key, even with no dependencies, and `q` is in its set iff `q` is a declared dependency |
| DependencyGraph.RequiredBy | tests/models/test_verification_input.py:173-190 | every declared path is a key; `q` is in `required_by[p]` iff `p` is in `depends_on[q]` and `q` has no verification entries |
| DependencyGraph.VerifiedWith | tests/models/test_verification_input.py:193-209 | every declared path is a key; `q` is in `verified_with[p]` iff `p` is in `depends_on[q]` and `q` has verification entries |
| DependencyGraph.ReverseEdgesPartition | tests/models/test_verification_input.py:173-209 | `required_by[p]` and `verified_with[p]` are disjoint, and together they are exactly the direct dependents of `p` (`Dependents`) |
| DependencyGraph.Closure | tests/models/test_verification_input.py:120-150 | the closure contains its start and is closed under the dependency edges |
| DependencyGraph.TransitiveDependsOn | tests/models/test_verification_input.py:120-150 | every declared path is a key; each set contains its own path and its direct dependencies, and it contains the direct dependencies of each declared member |
| DependencyGraph.ClosureIsReachable | tests/models/test_verification_input.py:120-145 | `q` is in the closure of `p` iff a walk along dependency edges leads from `p` to `q` |
| DependencyGraph.ClosureIsLeast | tests/models/test_verification_input.py:120-145 | the closure lies inside every successor-closed set that contains its start |
| DependencyGraph.ClosureIsTransitive | tests/models/test_verification_input.py:130-136 | the closure of any member of the closure of `p` lies inside the closure of `p` |
| DependencyGraph.CycleSharesClosure | tests/models/test_verification_input.py:127-129 | two paths in each other's closure have the same closure |
| DependencyGraph.LeafClosure | tests/models/test_verification_input.py:122-126 | a path without outgoing edges has closure exactly `{p}` |
| DependencyGraph.TransitiveDependsOnIsReachability | tests/models/test_verification_input.py:120-150 | `q` is in `transitive_depends_on[p]` iff `q` is reachable from `p` through `depends_on`, including `p` itself |
| DependencyGraph.TransitiveDependsOnLeaf | tests/models/test_verification_input.py:122-126 | a declared file without dependencies transitively depends on itself alone |
| DependencyGraph.TransitiveDependsOnIsTransitive | tests/models/test_verification_input.py:130-136 | the transitive dependencies of a transitive dependency are transitive dependencies |
| DependencyGraph.TransitiveDependsOnCycle | tests/models/test_verification_input.py:127-129 | declared files that reach each other have equal `transitive_depends_on` sets |
| VerificationInputs.VerificationInput.ParseObj | tests/models/test_verification_input.py:51-68 | the files are the parsed input, with missing keys defaulted, and no relation has been computed yet |
| VerificationInputs.VerificationInput.Json | tests/models/test_verification_input.py:47-49 | the JSON form has one entry per file, and parsing it gives back the files |
| VerificationInputs.VerificationInput.DependsOn | tests/models/test_verification_input.py:168-170 | returns `depends_on`; the first call caches a fresh object and every later call returns that same object |
| VerificationInputs.VerificationInput.RequiredBy | tests/models/test_verification_input.py:188-190 | returns `required_by`; the cached object is returned again on later calls |
| VerificationInputs.VerificationInput.VerifiedWith | tests/models/test_verification_input.py:207-209 | returns `verified_with`; the cached object is returned again on later calls |
| VerificationInputs.VerificationInput.TransitiveDependsOn | tests/models/test_verification_input.py:148-150 | returns `transitive_depends_on`; the cached object is returned again on later calls |
| GraphFixture.FixtureIsFixture | tests/models/test_verification_input.py:7-40 | the fixture declares ten files with the listed dependencies, and test/test.py is the only one with verification |
| GraphFixture.DependsOnFixture | tests/models/test_verification_input.py:153-170 | for any ten distinct paths arranged like the fixture, `depends_on` is the expected map |
| GraphFixture.FixtureDependsOn | tests/models/test_verification_input.py:153-170 | `depends_on` of the fixture is the expected map of the test |
| GraphFixture.RequiredByFixture | tests/models/test_verification_input.py:173-190 | for any ten distinct paths arranged like the fixture, `required_by` is the expected map, with test/test.py left out of hoge/piyopiyo.py's set |
| GraphFixture.FixtureRequiredBy | tests/models/test_verification_input.py:173-190 | `required_by` of the fixture is the expected map of the test |
| GraphFixture.VerifiedWithFixture | tests/models/test_verification_input.py:193-209 | for any ten distinct paths arranged like the fixture, `verified_with` is `{test/test.py}` for hoge/piyopiyo.py and empty for every other path |
| GraphFixture.FixtureVerifiedWith | tests/models/test_verification_input.py:193-209 | `verified_with` of the fixture is the expected map of the test |
| GraphFixture.FooClosures | tests/models/test_verification_input.py:122-125 | the closures of the four foo/ files |
| GraphFixture.CycleClosures | tests/models/test_verification_input.py:126-129 | hoge/1.py's closure is itself alone, and hoge, piyo and fuga share the closure `{hoge, piyo, fuga, 1}` |
| GraphFixture.TailClosures | tests/models/test_verification_input.py:130-144 | the closure of hoge/piyopiyo.py is the cycle's closure plus itself; that of test/test.py adds test/test.py too |
| GraphFixture.TransitiveDependsOnFixture | tests/models/test_verification_input.py:120-150 | for any ten distinct paths arranged like the fixture, `transitive_depends_on` is the expected map |
| GraphFixture.FixtureTransitiveDependsOn | tests/models/test_verification_input.py:120-150 | `transitive_depends_on` of the fixture is the expected map of the test |
| PyBytes.RStrip | src/competitive_verifier/documents/front_matter.py:90 | the result is a prefix of the input, everything stripped is ASCII whitespace, and the result does not end in whitespace |
| PyBytes.RStripTrailingWhitespace | src/competitive_verifier/documents/front_matter.py:95 | any run of trailing whitespace after a non-whitespace end is stripped entirely |
| PyBytes.SplitLines | src/competitive_verifier/documents/front_matter.py:89 | no line holds a CR or LF, and there are no lines exactly when the input is empty |
| PyBytes.JoinSplitLines | src/competitive_verifier/documents/front_matter.py:100-101 | joining the lines with LF gives the input with CR LF and CR turned into LF and one final line break dropped |
| PyBytes.SplitUnlines | src/competitive_verifier/documents/front_matter.py:122-128 | break-free lines, each written with a trailing LF, are split back into the same lines, followed by the lines of what comes after |
| PyBytes.JoinSplitLinesNormalised | src/competitive_verifier/documents/front_matter.py:101 | content without CR and without a final LF survives split-then-join unchanged |
| FrontMatters.ParseDocumentOutputMode | src/competitive_verifier/documents/front_matter.py:15-30 | a string is read as the mode with that value; no mode has the value of a string that is rejected |
| FrontMatters.OutputModeRoundTrip | src/competitive_verifier/documents/front_matter.py:15-30 | every mode is read back from its own value |
| FrontMatters.MakeDefault | src/competitive_verifier/documents/front_matter.py:60-64 | the default page has no path and empty content, and its front matter sets only `documentation_of`, to the source path |
| FrontMatters.SeparatorTrailingWhitespace | src/competitive_verifier/documents/front_matter.py:95 | `---` followed by any ASCII whitespace, such as a space or a CR, is a separator line |
| FrontMatters.FindSeparator | src/competitive_verifier/documents/front_matter.py:92-98 | the result is the first separator line at or after the start index; with none, no line from there on is a separator |
| FrontMatters.SplitRaw | src/competitive_verifier/documents/front_matter.py:88-102 | without a block the content is returned unchanged; a block exists iff line 0 and a later line are separators; the metadata is lines 1..i-1 and the content is the lines after `i`, each joined with LF, where `i` is the first closing separator |
| FrontMatters.SplitFrontMatterRaw | src/competitive_verifier/documents/front_matter.py:88-102 | the loop over the lines with `break` and `else` computes exactly `SplitRaw` |
| FrontMatters.SplitRawNormalises | src/competitive_verifier/documents/front_matter.py:100-101 | after a block, the content is a tail of the input with line breaks normalised to LF and one final LF dropped, and the metadata holds no CR |
| FrontMatters.SplitFrontMatter | src/competitive_verifier/documents/front_matter.py:105-113 | the content is the raw split's; the front matter is `None` iff there is no block; an empty block gives the default; a validated block is returned as loaded; validation fails iff the loaded block is invalid, with that block's error message |
| FrontMatters.EmptyBlockIsDefault | src/competitive_verifier/documents/front_matter.py:109-113 | an empty or null YAML block yields the default front matter, not `None` |
| FrontMatters.Load | src/competitive_verifier/documents/front_matter.py:71-78 | loading succeeds iff the split does, and the page carries the given path with the split's front matter and content |
| FrontMatters.Merged | src/competitive_verifier/documents/front_matter.py:116-128 | without front matter the output is the content alone; with it the output opens with `---\n`; it always ends with the content |
| FrontMatters.ByteStream.Write | src/competitive_verifier/documents/front_matter.py:123-128 | the bytes are appended to what was already written |
| FrontMatters.MergeFrontMatter | src/competitive_verifier/documents/front_matter.py:116-128 | the stream receives exactly the merged bytes after what it already held |
| FrontMatters.DumpMerged | src/competitive_verifier/documents/front_matter.py:80-85 | the page's front matter and content are written merged to the stream |
| FrontMatters.MergedLines | src/competitive_verifier/documents/front_matter.py:122-128 | the lines of a merged document are a separator, the YAML lines, a separator, then the content's lines |
| FrontMatters.SplitAfterMerge | src/competitive_verifier/documents/front_matter.py:88-128 | splitting a merged document gives back the YAML text and the content, when the YAML lines are not separators and the content has no CR and no final LF |
| FrontMatters.LoadAfterMerge | src/competitive_verifier/documents/front_matter.py:71-128 | with a YAML loader that reads back what was dumped, loading a merged document gives back its front matter and content |
| Paths.Name | src/oj_verify_clone/languages/models.py:64 | `PurePath.name` is the suffix of the path after its last '/', and it holds no '/' |
| Paths.NameOfJoin | src/oj_verify_clone/languages/models.py:64 | the directory part never changes the final component |
| Paths.Contains | src/oj_verify_clone/languages/models.py:64 | `sub in s` holds iff `sub` occurs in `s` at some position |
| Paths.Suffix | src/onlinejudge_verify/languages/list.py:65 | `PurePath.suffix` is empty or a tail of the name that starts with its last '.', has no other '.' and is not the whole name |
| Languages.Language.ListAttributes | src/oj_verify_clone/languages/models.py:28-38 | fails iff `links` is a text comment; otherwise the keys are the comments' keys plus `links`, every other key keeps its value, and `links` is the existing links followed by the embedded URLs, in order |
| Languages.Language.IsVerificationFile | src/oj_verify_clone/languages/models.py:61-64 | true iff `.test.` occurs at some position of the last path component |
| Languages.VerificationFileIgnoresDirectory | src/oj_verify_clone/languages/models.py:61-64 | the directory and `basedir` do not change whether a file is a verification file |
| Languages.TestFileIsVerificationFile | src/oj_verify_clone/languages/models.py:61-64 | `a.test.cpp` in any directory is a verification file |
| Languages.PlainFileIsNotVerificationFile | src/oj_verify_clone/languages/models.py:61-64 | `test.cpp` in any directory is not |
| LanguageRegistry.BuiltinKinds | src/onlinejudge_verify/languages/list.py:27-37 | the built-in extensions are exactly .cpp .hpp .cc .h .nim .py .hs .ruby .go .java .rs, none of them user-defined |
| LanguageRegistry.ApplyConfig | src/onlinejudge_verify/languages/list.py:39-60 | the table never loses a key, and a rejection carries the overwrite message of the first entry, in configuration order, that clashes with a built-in language |
| LanguageRegistry.ApplyConfigStopsAtFirstClash | src/onlinejudge_verify/languages/list.py:39-54 | at the first clashing entry the configuration stops: the table is the one the entries before it built, and the message names that entry's extension |
| LanguageRegistry.ApplyConfigKeepsEntries | src/onlinejudge_verify/languages/list.py:39-54 | applying the configuration never removes or replaces an entry already in the table |
| LanguageRegistry.ApplyConfigAddsUserDefined | src/onlinejudge_verify/languages/list.py:55-60 | every entry the configuration adds is `"." + ext`, mapped to the user-defined language built from that entry's extension and settings |
| LanguageRegistry.ApplyConfigFails | src/onlinejudge_verify/languages/list.py:39-54 | the configuration is rejected iff some entry names a built-in, not user-defined, extension and holds a reserved setting |
| LanguageRegistry.ApplyConfigKeys | src/onlinejudge_verify/languages/list.py:39-60 | without a rejection, the keys are the old keys plus `"." + ext` for every configured extension |
| LanguageRegistry.FindReservedKey | src/onlinejudge_verify/languages/list.py:42-49 | the scan finds a reserved setting iff the settings hold one of compile, execute, bundle, list_attributes, list_dependencies |
| LanguageRegistry.NewBuiltins | src/onlinejudge_verify/languages/list.py:26-37 | the fresh table maps the built-in extensions to their languages, and .hpp, .cc and .h hold the very object of .cpp |
| LanguageRegistry.Registry.GetDict | src/onlinejudge_verify/languages/list.py:13-61 | a built table is returned unchanged without reading the configuration; on first use the table holds the built-ins with the configuration applied, the C++ extensions share one object, and the call fails iff the configuration is rejected, with the message of its first clashing entry; the table left cached is then the one the entries before that entry built |
| LanguageRegistry.Registry.ApplyConfigInPlace | src/onlinejudge_verify/languages/list.py:39-60 | the loop leaves the table's languages as the configuration applied to them, and fails with the rejection message iff the configuration is rejected |
| LanguageRegistry.Registry.Get | src/onlinejudge_verify/languages/list.py:64-65 | the result is the language registered for the path's suffix, or `None` if there is none; on first use the table is built as by `_get_dict` (built-ins with the configuration applied, C++ extensions sharing one object) and the call fails, with the rejection message, iff the configuration is rejected |
| LanguageRegistry.Registry.IsVerificationFile | src/onlinejudge_verify/languages/list.py:68-75 | false when no language is registered for the suffix, otherwise that language's answer; on first use the table is built as by `_get_dict` and the call fails, with the rejection message, iff the configuration is rejected |
| MergeResults.Merge | src/competitive_verifier/merge_result/main.py:11-12 | fails iff there are no results, with the `reduce` message; a single result is returned unchanged |
| MergeResults.FoldLeftSnoc | src/competitive_verifier/merge_result/main.py:12 | folding one more element merges it into the fold of the others |
| MergeResults.MergeSnoc | src/competitive_verifier/merge_result/main.py:12 | `merge(rs + [x])` is `merge(rs).merge(x)`: the merges nest to the left with the accumulator as the receiver |
| MergeResults.MergeCalls | src/competitive_verifier/merge_result/main.py:12 | a fold over n more elements performs n pairwise merges in input order; each takes the element as its argument and the previous merge's result as its receiver, and the last one gives the fold |

## Left out

- YAML loading and dumping, and pydantic validation, are function parameters. `Loaded` records what loading makes of a block.
- `FrontMatter.data` (render data) and the field types pydantic enforces are not modelled. Unknown keys are kept as a string map.
- File and stream I/O (`load_file`, `fp.read`) is not modelled. Documents are byte sequences, and the output stream is a `ByteStream` object that records what is written.
- `get_config()` reads config.toml; the configuration is an input sequence of entries instead. Setting values are strings.
- `document_attributes` of a verification file is a free-form JSON mapping; in the model its values are strings, and nested JSON values are not modelled.
- The language plugin classes (C++, Python, Rust and the others) are tags of `LanguageKind`. Their compilers, bundlers, environments and dependency scanners are not modelled.
- The special-comment and embedded-URL scanners are functions of the path given to `ListAttributes`.
- Languages.Language.ListAttributes: a `links` special comment whose value is text makes Python's `extend` raise. This is modelled as a `Failure` with the error message, not as an exception.
- The logger warning for new languages in list.py is not modelled.
- The registry's `Language` is the class of src/oj_verify_clone/languages/models.py. The module list.py imports from is not part of this model.
- The body of `VerifyCommandResult.merge` and its status aggregation are not part of this model. The pairwise merge is a parameter, and no law about it is assumed.
- `run_impl` and `run` of merge_result/main.py (file parsing, printing, exit codes) are not modelled.
- The `repr` test (tests/models/test_verification_input.py:90-117) depends on the platform's path text and is not modelled.
- Thread safety of the cached relations and of the registry's global table is not modelled.
- Paths are taken as normalised POSIX strings, with no trailing '/' and no empty components. `pathlib` normalisation is not modelled.
