/**
 * The default behaviour every language shares: recognising verification
 * files by name and collecting a file's documentation attributes.
 */
module Languages {
  import opened Wrappers
  import Paths

  /**
   * The language implementations the registry knows. Their compilers,
   * bundlers and dependency scanners are not part of the model.
   */
  datatype LanguageKind =
    | CPlusPlus | Nim | Python | Haskell | Ruby | Go | Java | Rust
    | UserDefined(extension: string, config: map<string, string>)

  /** An attribute value: a special comment's text, or a list of URLs. */
  datatype AttributeValue = Text(text: string) | UrlList(urls: seq<string>)

  const LinksKey: string := "links"

  /** The marker that makes a file a verification file. */
  const VerificationMarker: string := ".test."

  /** The links already present among the special comments, if any. */
  function ExistingLinks(comments: map<string, AttributeValue>): (links: seq<string>)
    ensures LinksKey !in comments ==> links == []
  {
    if LinksKey in comments && comments[LinksKey].UrlList? then comments[LinksKey].urls else []
  }

  class Language {
    const kind: LanguageKind

    constructor(kind: LanguageKind)
      ensures this.kind == kind
    {
      this.kind := kind;
    }

    /** `is_verification_file`: the marker occurs in the last path component. */
    predicate IsVerificationFile(path: Paths.Path, basedir: Paths.Path): (b: bool)
      ensures b <==> exists i :: 0 <= i <= |Paths.Name(path)| - |VerificationMarker| &&
                               Paths.OccursAt(Paths.Name(path), VerificationMarker, i)
    {
      Paths.Contains(Paths.Name(path), VerificationMarker)
    }

    /**
     * `list_attributes`: the special comments of the file, with the URLs
     * embedded in it appended to its "links" list (created if missing).
     * The two scanners read the file and are given as functions of its path;
     * a "links" special comment holds text, on which `extend` fails.
     */
    method ListAttributes(path: Paths.Path, basedir: Paths.Path,
                          listSpecialComments: Paths.Path -> map<string, AttributeValue>,
                          listEmbeddedUrls: Paths.Path -> seq<string>)
      returns (r: Result<map<string, AttributeValue>, string>)
      ensures r.Failure? <==>
        LinksKey in listSpecialComments(path) && listSpecialComments(path)[LinksKey].Text?
      ensures r.Success? ==> r.value.Keys == listSpecialComments(path).Keys + {LinksKey}
      ensures r.Success? ==> forall k :: k in listSpecialComments(path) && k != LinksKey ==>
        r.value[k] == listSpecialComments(path)[k]
      ensures r.Success? ==>
        r.value[LinksKey] == UrlList(ExistingLinks(listSpecialComments(path)) + listEmbeddedUrls(path))
    {
      var attributes := listSpecialComments(path);
      if LinksKey !in attributes {
        attributes := attributes[LinksKey := UrlList([])];
      }
      match attributes[LinksKey]
      case Text(_) =>
        return Failure("AttributeError: 'str' object has no attribute 'extend'");
      case UrlList(links) =>
        attributes := attributes[LinksKey := UrlList(links + listEmbeddedUrls(path))];
        return Success(attributes);
    }
  }

  /** A file name without directories is its own last component. */
  lemma NameOfPlainName(name: string)
    requires '/' !in name
    ensures Paths.Name(name) == name
  {
  }

  /**
   * The directory a file sits in and the base directory do not change
   * whether it is a verification file.
   */
  lemma VerificationFileIgnoresDirectory(lang: Language, dir: Paths.Path, name: string,
                                         basedir1: Paths.Path, basedir2: Paths.Path)
    requires '/' !in name
    ensures lang.IsVerificationFile(dir + "/" + name, basedir1) <==> lang.IsVerificationFile(name, basedir2)
  {
    Paths.NameOfJoin(dir, name);
    NameOfPlainName(name);
  }

  /** `a.test.cpp` under any directory is a verification file. */
  lemma TestFileIsVerificationFile(lang: Language, dir: Paths.Path, basedir: Paths.Path)
    ensures lang.IsVerificationFile(dir + "/" + "a.test.cpp", basedir)
  {
    var s := "a.test.cpp";
    Paths.NameOfJoin(dir, s);
    assert s[1..7] == VerificationMarker;
    assert Paths.OccursAt(s, VerificationMarker, 1);
  }

  /** `test.cpp` is not: the marker needs a dot before `test`. */
  lemma PlainFileIsNotVerificationFile(lang: Language, dir: Paths.Path, basedir: Paths.Path)
    ensures !lang.IsVerificationFile(dir + "/" + "test.cpp", basedir)
  {
    var s := "test.cpp";
    Paths.NameOfJoin(dir, s);
    forall i | 0 <= i <= |s| - |VerificationMarker|
      ensures !Paths.OccursAt(s, VerificationMarker, i)
    {
      assert s[i] != '.';
    }
  }
}
