/**
 * The registry from file extensions to languages: built once, on first
 * use, from the built-in languages and the `languages` table of the
 * configuration, then kept for the rest of the run.
 */
module LanguageRegistry {
  import opened Wrappers
  import Paths
  import opened Languages

  /** One entry of the `languages` table: an extension without its dot, and its settings. */
  type ConfigEntry = (string, map<string, string>)

  /** The settings a built-in language does not let the configuration replace, in checking order. */
  const ReservedKeys: seq<string> := ["compile", "execute", "bundle", "list_attributes", "list_dependencies"]

  predicate HasReservedKey(settings: map<string, string>)
  {
    exists t :: 0 <= t < |ReservedKeys| && ReservedKeys[t] in settings
  }

  function OverwriteError(ext: string): (message: string)
    ensures |message| > |ext|
  {
    "You cannot overwrite existing language: ." + ext
  }

  /** The built-in table: four C++ extensions, then one per language. */
  function BuiltinKinds(): (kinds: map<string, LanguageKind>)
    ensures kinds.Keys == {".cpp", ".hpp", ".cc", ".h", ".nim", ".py", ".hs", ".ruby", ".go", ".java", ".rs"}
    ensures forall e :: e in kinds ==> !kinds[e].UserDefined?
  {
    map[".cpp" := CPlusPlus, ".hpp" := CPlusPlus, ".cc" := CPlusPlus, ".h" := CPlusPlus,
        ".nim" := Nim, ".py" := Python, ".hs" := Haskell, ".ruby" := Ruby,
        ".go" := Go, ".java" := Java, ".rs" := Rust]
  }

  /** The entry tries to replace a reserved setting of a built-in language of `kinds`. */
  predicate Clashes(kinds: map<string, LanguageKind>, entry: ConfigEntry)
  {
    "." + entry.0 in kinds && !kinds["." + entry.0].UserDefined? && HasReservedKey(entry.1)
  }

  /** Entry `i` is the first entry of the configuration that clashes with `kinds`. */
  predicate FirstClash(kinds: map<string, LanguageKind>, config: seq<ConfigEntry>, i: nat)
  {
    i < |config| && Clashes(kinds, config[i]) && forall j :: 0 <= j < i ==> !Clashes(kinds, config[j])
  }

  /**
   * The configuration applied to a table, entry by entry: an entry for a
   * known extension is rejected or ignored, one for a new extension adds a
   * user-defined language. The table is returned as it stood at the first
   * rejection, together with its message.
   */
  function ApplyConfig(kinds: map<string, LanguageKind>, config: seq<ConfigEntry>): (r: (map<string, LanguageKind>, Option<string>))
    ensures kinds.Keys <= r.0.Keys
    ensures r.1.Some? ==> exists i: nat :: FirstClash(kinds, config, i) && r.1.value == OverwriteError(config[i].0)
    decreases |config|
  {
    if |config| == 0 then (kinds, None)
    else
      var (ext, settings) := config[0];
      var key := "." + ext;
      if key in kinds then
        if Clashes(kinds, config[0]) then (kinds, Some(OverwriteError(ext)))
        else
          var r := ApplyConfig(kinds, config[1..]);
          ShiftFirstClash(kinds, kinds, config, r.1);
          r
      else
        var next := kinds[key := UserDefined(ext, settings)];
        ClashesAfterAdd(kinds, key, ext, settings);
        var r := ApplyConfig(next, config[1..]);
        ShiftFirstClash(kinds, next, config, r.1);
        r
  }

  /** Adding a user-defined language for a new extension changes no entry's clash. */
  lemma ClashesAfterAdd(kinds: map<string, LanguageKind>, key: string, ext: string, settings: map<string, string>)
    requires key !in kinds
    ensures forall c :: Clashes(kinds[key := UserDefined(ext, settings)], c) <==> Clashes(kinds, c)
  {
  }

  /**
   * A first clash of `config[1..]` against `next`, after an entry `config[0]`
   * that does not clash, is a first clash of `config` against `kinds`.
   */
  lemma ShiftFirstClash(kinds: map<string, LanguageKind>, next: map<string, LanguageKind>,
                        config: seq<ConfigEntry>, message: Option<string>)
    requires |config| > 0 && !Clashes(kinds, config[0])
    requires forall c :: Clashes(next, c) <==> Clashes(kinds, c)
    requires message.Some? ==> exists i: nat :: FirstClash(next, config[1..], i) && message.value == OverwriteError(config[1..][i].0)
    ensures message.Some? ==> exists i: nat :: FirstClash(kinds, config, i) && message.value == OverwriteError(config[i].0)
  {
    if message.Some? {
      var i: nat :| FirstClash(next, config[1..], i) && message.value == OverwriteError(config[1..][i].0);
      assert config[1..][i] == config[i + 1];
      forall j | 0 <= j < i + 1
        ensures !Clashes(kinds, config[j])
      {
        if j > 0 {
          assert config[1..][j - 1] == config[j];
        }
      }
      assert FirstClash(kinds, config, i + 1);
    }
  }

  /**
   * At a first clash the configuration stops: the table is the one the
   * entries before it built, and the message names the clashing extension.
   */
  lemma {:induction false} ApplyConfigStopsAtFirstClash(kinds: map<string, LanguageKind>, config: seq<ConfigEntry>, i: nat)
    requires FirstClash(kinds, config, i)
    ensures ApplyConfig(kinds, config) == (ApplyConfig(kinds, config[..i]).0, Some(OverwriteError(config[i].0)))
    decreases i
  {
    if i > 0 {
      var key := "." + config[0].0;
      var next := if key in kinds then kinds else kinds[key := UserDefined(config[0].0, config[0].1)];
      if key !in kinds {
        ClashesAfterAdd(kinds, key, config[0].0, config[0].1);
      }
      forall j | 0 <= j < i - 1
        ensures !Clashes(next, config[1..][j])
      {
        assert config[1..][j] == config[j + 1];
      }
      assert config[1..][i - 1] == config[i];
      assert FirstClash(next, config[1..], i - 1);
      ApplyConfigStopsAtFirstClash(next, config[1..], i - 1);
      assert config[..i][0] == config[0] && config[..i][1..] == config[1..][..i - 1];
    }
  }

  /** An entry already in the table is never replaced or removed. */
  lemma {:induction false} ApplyConfigKeepsEntries(kinds: map<string, LanguageKind>, config: seq<ConfigEntry>)
    ensures forall e :: e in kinds ==> e in ApplyConfig(kinds, config).0 && ApplyConfig(kinds, config).0[e] == kinds[e]
    decreases |config|
  {
    if |config| > 0 && !Clashes(kinds, config[0]) {
      var key := "." + config[0].0;
      if key in kinds {
        ApplyConfigKeepsEntries(kinds, config[1..]);
      } else {
        ApplyConfigKeepsEntries(kinds[key := UserDefined(config[0].0, config[0].1)], config[1..]);
      }
    }
  }

  /** Every entry the configuration adds is a user-defined language for its own extension. */
  lemma {:induction false} ApplyConfigAddsUserDefined(kinds: map<string, LanguageKind>, config: seq<ConfigEntry>)
    ensures forall e :: e in ApplyConfig(kinds, config).0 && e !in kinds ==>
      exists i :: (0 <= i < |config| && e == "." + config[i].0 &&
        ApplyConfig(kinds, config).0[e] == UserDefined(config[i].0, config[i].1))
    decreases |config|
  {
    if |config| > 0 && !Clashes(kinds, config[0]) {
      var key := "." + config[0].0;
      var next := if key in kinds then kinds else kinds[key := UserDefined(config[0].0, config[0].1)];
      ApplyConfigAddsUserDefined(next, config[1..]);
      ApplyConfigKeepsEntries(next, config[1..]);
      var result := ApplyConfig(next, config[1..]).0;
      assert ApplyConfig(kinds, config).0 == result;
      forall e | e in result && e !in kinds
        ensures exists i :: (0 <= i < |config| && e == "." + config[i].0 &&
          result[e] == UserDefined(config[i].0, config[i].1))
      {
        if e == key {
          assert e == "." + config[0].0 && result[e] == UserDefined(config[0].0, config[0].1);
        } else {
          assert e in result && e !in next;
          var i :| 0 <= i < |config[1..]| && e == "." + config[1..][i].0 &&
            result[e] == UserDefined(config[1..][i].0, config[1..][i].1);
          assert config[1..][i] == config[i + 1];
        }
      }
    }
  }

  /**
   * The configuration is rejected exactly when one of its entries tries to
   * replace a reserved setting of a built-in (not user-defined) language.
   */
  lemma {:induction false} ApplyConfigFails(kinds: map<string, LanguageKind>, config: seq<ConfigEntry>)
    ensures ApplyConfig(kinds, config).1.Some? <==> exists i :: 0 <= i < |config| && Clashes(kinds, config[i])
    decreases |config|
  {
    if |config| > 0 && !Clashes(kinds, config[0]) {
      var key := "." + config[0].0;
      var next := if key in kinds then kinds else kinds[key := UserDefined(config[0].0, config[0].1)];
      ApplyConfigFails(next, config[1..]);
      forall i | 1 <= i < |config|
        ensures Clashes(next, config[i]) <==> Clashes(kinds, config[i])
      {
        assert config[1..][i - 1] == config[i];
      }
      assert forall j :: 0 <= j < |config[1..]| ==> config[1..][j] == config[j + 1];
    }
  }

  /** Without a rejection, the table ends with one entry per new extension of the configuration. */
  lemma {:induction false} ApplyConfigKeys(kinds: map<string, LanguageKind>, config: seq<ConfigEntry>)
    requires ApplyConfig(kinds, config).1.None?
    ensures ApplyConfig(kinds, config).0.Keys == kinds.Keys + set i | 0 <= i < |config| :: "." + config[i].0
    decreases |config|
  {
    if |config| > 0 {
      var key := "." + config[0].0;
      var next := if key in kinds then kinds else kinds[key := UserDefined(config[0].0, config[0].1)];
      ApplyConfigKeys(next, config[1..]);
      var all := set i | 0 <= i < |config| :: "." + config[i].0;
      var tail := set i | 0 <= i < |config[1..]| :: "." + config[1..][i].0;
      assert all == {key} + tail by {
        forall e | e in all ensures e in {key} + tail {
          var i :| 0 <= i < |config| && e == "." + config[i].0;
          if i > 0 {
            assert config[1..][i - 1] == config[i];
          }
        }
        forall e | e in tail ensures e in all {
          var i :| 0 <= i < |config[1..]| && e == "." + config[1..][i].0;
          assert config[1..][i] == config[i + 1];
        }
      }
    }
  }

  /** The languages of a table of shared language objects. */
  function KindsOf(table: map<string, Language>): (kinds: map<string, LanguageKind>)
    ensures kinds.Keys == table.Keys
    ensures forall e :: e in table ==> kinds[e] == table[e].kind
  {
    map e | e in table :: table[e].kind
  }

  lemma KindsOfUpdate(table: map<string, Language>, key: string, lang: Language)
    ensures KindsOf(table[key := lang]) == KindsOf(table)[key := lang.kind]
  {
  }

  /** One step of the configuration loop, read off `ApplyConfig`. */
  lemma ApplyConfigStep(kinds: map<string, LanguageKind>, config: seq<ConfigEntry>, i: nat)
    requires i < |config|
    ensures var key := "." + config[i].0;
      ApplyConfig(kinds, config[i..]) ==
        if key !in kinds then ApplyConfig(kinds[key := UserDefined(config[i].0, config[i].1)], config[i + 1..])
        else if Clashes(kinds, config[i]) then (kinds, Some(OverwriteError(config[i].0)))
        else ApplyConfig(kinds, config[i + 1..])
  {
    assert config[i..][0] == config[i] && config[i..][1..] == config[i + 1..];
  }

  /** The C++ extensions all map to the one object registered for `.cpp`. */
  predicate SharesCPlusPlus(table: map<string, Language>)
  {
    ".cpp" in table && ".hpp" in table && ".cc" in table && ".h" in table &&
    table[".hpp"] == table[".cpp"] && table[".cc"] == table[".cpp"] && table[".h"] == table[".cpp"]
  }

  /** The scan of the reserved settings, in order, stopping at the first one present. */
  method FindReservedKey(settings: map<string, string>) returns (found: bool)
    ensures found <==> HasReservedKey(settings)
  {
    var j := 0;
    while j < |ReservedKeys|
      invariant j <= |ReservedKeys|
      invariant forall t :: 0 <= t < j ==> ReservedKeys[t] !in settings
    {
      if ReservedKeys[j] in settings {
        return true;
      }
      j := j + 1;
    }
    return false;
  }

  /** A fresh built-in table: one language object per language. */
  method NewBuiltins() returns (d: map<string, Language>)
    ensures KindsOf(d) == BuiltinKinds()
    ensures SharesCPlusPlus(d)
  {
    var cpp := new Language(CPlusPlus);
    var nim := new Language(Nim);
    var python := new Language(Python);
    var haskell := new Language(Haskell);
    var ruby := new Language(Ruby);
    var go := new Language(Go);
    var java := new Language(Java);
    var rust := new Language(Rust);
    d := map[".cpp" := cpp, ".hpp" := cpp, ".cc" := cpp, ".h" := cpp,
             ".nim" := nim, ".py" := python, ".hs" := haskell, ".ruby" := ruby,
             ".go" := go, ".java" := java, ".rs" := rust];
  }

  /** The module-level table and the operations on it. */
  class Registry {
    /** `None` until the first lookup builds it. */
    var table: Option<map<string, Language>>

    constructor()
      ensures table.None?
    {
      table := None;
    }

    /**
     * `_get_dict`: on first use, the built-in table (the four C++
     * extensions share one language object), published at once, then the
     * configuration applied to it in place. A rejection is reported, but
     * the table built up to that point stays, and later calls return it
     * without looking at the configuration again.
     */
    method GetDict(config: seq<ConfigEntry>) returns (r: Result<map<string, Language>, string>)
      modifies this
      ensures old(table).Some? ==> table == old(table) && r == Success(table.value)
      ensures old(table).None? ==> table.Some? && KindsOf(table.value) == ApplyConfig(BuiltinKinds(), config).0
      ensures old(table).None? ==> (r.Failure? <==> ApplyConfig(BuiltinKinds(), config).1.Some?)
      ensures old(table).None? && r.Failure? ==> r.error == ApplyConfig(BuiltinKinds(), config).1.value
      ensures r.Success? ==> table == Some(r.value)
      ensures old(table).None? ==> SharesCPlusPlus(table.value)
    {
      if table.Some? {
        return Success(table.value);
      }
      var d := NewBuiltins();
      table := Some(d);
      r := ApplyConfigInPlace(config);
    }

    /**
     * The configuration loop of `_get_dict` over the published table:
     * each entry is rejected, ignored or added in place, stopping at the
     * first rejection.
     */
    method ApplyConfigInPlace(config: seq<ConfigEntry>) returns (r: Result<map<string, Language>, string>)
      requires table.Some? && SharesCPlusPlus(table.value)
      modifies this
      ensures table.Some? && SharesCPlusPlus(table.value)
      ensures KindsOf(table.value) == ApplyConfig(KindsOf(old(table.value)), config).0
      ensures r.Failure? <==> ApplyConfig(KindsOf(old(table.value)), config).1.Some?
      ensures r.Failure? ==> r.error == ApplyConfig(KindsOf(old(table.value)), config).1.value
      ensures r.Success? ==> table == Some(r.value)
    {
      ghost var start := KindsOf(table.value);
      var i := 0;
      while i < |config|
        invariant i <= |config|
        invariant table.Some? && SharesCPlusPlus(table.value)
        invariant ApplyConfig(KindsOf(table.value), config[i..]) == ApplyConfig(start, config)
      {
        var (ext, settings) := config[i];
        var key := "." + ext;
        ApplyConfigStep(KindsOf(table.value), config, i);
        if key in table.value {
          if !table.value[key].kind.UserDefined? {
            var reserved := FindReservedKey(settings);
            if reserved {
              return Failure(OverwriteError(ext));
            }
          }
        } else {
          var lang := new Language(UserDefined(ext, settings));
          KindsOfUpdate(table.value, key, lang);
          table := Some(table.value[key := lang]);
        }
        i := i + 1;
      }
      assert config[i..] == [];
      return Success(table.value);
    }

    /** `get`: the language registered for the file's suffix, if any. */
    method Get(path: Paths.Path, config: seq<ConfigEntry>) returns (r: Result<Option<Language>, string>)
      modifies this
      ensures old(table).Some? ==> table == old(table) && r.Success?
      ensures r.Success? ==> table.Some?
      ensures r.Success? ==> (r.value.Some? <==> Paths.Suffix(path) in table.value)
      ensures r.Success? && r.value.Some? ==> r.value.value == table.value[Paths.Suffix(path)]
      ensures old(table).None? ==> table.Some? && KindsOf(table.value) == ApplyConfig(BuiltinKinds(), config).0
      ensures old(table).None? ==> SharesCPlusPlus(table.value)
      ensures old(table).None? ==> (r.Failure? <==> ApplyConfig(BuiltinKinds(), config).1.Some?)
      ensures old(table).None? && r.Failure? ==> r.error == ApplyConfig(BuiltinKinds(), config).1.value
    {
      var d := GetDict(config);
      match d
      case Failure(message) =>
        return Failure(message);
      case Success(t) =>
        var suffix := Paths.Suffix(path);
        if suffix in t {
          return Success(Some(t[suffix]));
        }
        return Success(None);
    }

    /**
     * `is_verification_file`: false for a file of no registered language,
     * otherwise that language's answer; `cwd` is the working directory.
     */
    method IsVerificationFile(path: Paths.Path, config: seq<ConfigEntry>, cwd: Paths.Path)
      returns (r: Result<bool, string>)
      modifies this
      ensures old(table).Some? ==> table == old(table) && r.Success?
      ensures r.Success? ==> table.Some?
      ensures r.Success? ==> (r.value <==>
        Paths.Suffix(path) in table.value && table.value[Paths.Suffix(path)].IsVerificationFile(path, cwd))
      ensures old(table).None? ==> table.Some? && KindsOf(table.value) == ApplyConfig(BuiltinKinds(), config).0
      ensures old(table).None? ==> SharesCPlusPlus(table.value)
      ensures old(table).None? ==> (r.Failure? <==> ApplyConfig(BuiltinKinds(), config).1.Some?)
      ensures old(table).None? && r.Failure? ==> r.error == ApplyConfig(BuiltinKinds(), config).1.value
    {
      var language := Get(path, config);
      match language
      case Failure(message) =>
        return Failure(message);
      case Success(None) =>
        return Success(false);
      case Success(Some(lang)) =>
        return Success(lang.IsVerificationFile(path, cwd));
    }
  }
}
