/**
 * The entity layer of the dependency graph: one `VerificationFile` per
 * declared path, and the JSON form it is parsed from and dumped to
 * (`VerificationInput.parse_obj` / `.json()` in tests/models/test_verification_input.py).
 */
module VerificationFiles {

  import opened Wrappers
  import opened Paths

  datatype ResultStatus = ResultSuccess | ResultFailure | ResultSkipped

  /** How a file is checked: the const, command and problem variants. */
  datatype Verification =
    | ConstVerification(status: ResultStatus)
    | CommandVerification(command: string)
    | ProblemVerification(problem: string, command: string)

  datatype VerificationFile = VerificationFile(
    dependencies: seq<Path>,
    verification: seq<Verification>,
    documentAttributes: map<string, string>)
  {
    /** A file with at least one verification entry is checked directly. */
    predicate IsVerification() { |verification| > 0 }

    /** The declared dependencies as a set: order and repeats do not matter to the graph. */
    function DependencySet(): (deps: set<Path>)
      ensures forall q :: q in deps <==> q in dependencies
    {
      set q | q in dependencies
    }
  }

  /** One file entry of the JSON input: every key may be missing. */
  datatype RawFile = RawFile(
    path: Option<Path>,
    dependencies: Option<seq<Path>>,
    verification: Option<seq<Verification>>,
    documentAttributes: Option<map<string, string>>)

  function OrElse<T>(o: Option<T>, default: T): T
  {
    match o
    case Some(v) => v
    case None => default
  }

  /** Parsing one entry: a missing key defaults to empty; a supplied `path` is not kept. */
  function ParseFile(raw: RawFile): (f: VerificationFile)
    ensures raw.dependencies.None? ==> f.dependencies == []
    ensures raw.verification.None? ==> f.verification == []
    ensures raw.documentAttributes.None? ==> f.documentAttributes == map[]
    ensures raw.dependencies.Some? ==> f.dependencies == raw.dependencies.value
    ensures raw.verification.Some? ==> f.verification == raw.verification.value
    ensures raw.documentAttributes.Some? ==> f.documentAttributes == raw.documentAttributes.value
  {
    VerificationFile(
      OrElse(raw.dependencies, []),
      OrElse(raw.verification, []),
      OrElse(raw.documentAttributes, map[]))
  }

  /** Dumping one file: all three fields are written out and no `path` key is echoed. */
  function DumpFile(f: VerificationFile): (raw: RawFile)
    ensures raw.path.None?
    ensures raw.dependencies.Some? && raw.verification.Some? && raw.documentAttributes.Some?
  {
    RawFile(None, Some(f.dependencies), Some(f.verification), Some(f.documentAttributes))
  }

  function ParseInput(raw: map<Path, RawFile>): (files: map<Path, VerificationFile>)
    ensures files.Keys == raw.Keys
  {
    map p | p in raw :: ParseFile(raw[p])
  }

  function DumpInput(files: map<Path, VerificationFile>): (raw: map<Path, RawFile>)
    ensures raw.Keys == files.Keys
    ensures forall p :: p in raw ==> raw[p].path.None?
  {
    map p | p in files :: DumpFile(files[p])
  }

  /** `parse_raw(x.json()) == x`: dumping and parsing back gives an equal input. */
  lemma ParseDumpRoundTrip(files: map<Path, VerificationFile>)
    ensures ParseInput(DumpInput(files)) == files
  {
    var back := ParseInput(DumpInput(files));
    forall p | p in files ensures back[p] == files[p] {
      assert back[p] == ParseFile(DumpFile(files[p]));
    }
  }

  /** Parsing, dumping and parsing again is the same as parsing once. */
  lemma DumpParseNormalises(raw: map<Path, RawFile>)
    ensures ParseInput(DumpInput(ParseInput(raw))) == ParseInput(raw)
  {
    ParseDumpRoundTrip(ParseInput(raw));
  }
}
