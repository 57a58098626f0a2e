/**
 * `ViewTemplate` of bootique-mvc-jakarta: a template located relative to the Java package of the
 * view type. Unlike the other template kinds, one leading `/` is always stripped, so every name is
 * taken relative to the package, and the built path is looked up without any bounds check. The
 * template's URL is memoised.
 *
 * The template base (`FolderResourceFactory.getUrl`) is the function `templateBase`, which may fail.
 * The view type is represented by the name of its package (`None` when it has none).
 */
module JakartaViewTemplate {
  import opened Wrappers
  import opened TemplatePaths

  /** What a first `getUrl()` produces: the base's URL for the built path, or the lookup failure. */
  function Locate(templateBase: string -> Option<Url>, path: string): (r: Result<Url, Failure>)
    ensures r.Success? <==> templateBase(path).Some?
    ensures r.Success? ==> r.value == templateBase(path).value
    ensures r.Failure? ==> r.error == ResourceUnavailable(path)
  {
    match templateBase(path)
    case Some(u) => Success(u)
    case None => Failure(ResourceUnavailable(path))
  }

  class ViewTemplate {
    const templateName: string
    const viewPackage: Option<string>
    const templateBase: string -> Option<Url>
    const templateEncoding: Charset

    /** The memoised URL; `None` until a lookup has succeeded. */
    var url: Option<Url>

    constructor (
      templateName: string,
      viewPackage: Option<string>,
      templateBase: string -> Option<Url>,
      templateEncoding: Charset)
      ensures this.templateName == templateName && this.viewPackage == viewPackage
      ensures this.templateBase == templateBase && this.templateEncoding == templateEncoding
      ensures url == None
    {
      this.templateName := templateName;
      this.viewPackage := viewPackage;
      this.templateBase := templateBase;
      this.templateEncoding := templateEncoding;
      this.url := None;
    }

    /**
     * `getUrl()`: the first successful lookup of the relative resource path is stored, and every
     * later call returns it without a new lookup. A failed lookup stores nothing.
     */
    method GetUrl() returns (r: Result<Url, Failure>)
      modifies this`url
      ensures old(url).Some? ==> r == Success(old(url).value) && url == old(url)
      ensures old(url).None? ==> r == Locate(templateBase, RelativeResourcePath())
      ensures old(url).None? ==> url == (if r.Success? then Some(r.value) else None)
    {
      if url.None? {
        var path := RelativeResourcePath();
        var found := templateBase(path);
        if found.None? {
          return Failure(ResourceUnavailable(path));
        }
        url := Some(found.value);
      }
      return Success(url.value);
    }

    function GetEncoding(): Charset {
      templateEncoding
    }

    function GetName(): string {
      templateName
    }

    /**
     * `relativeResourcePath()`: the package path followed by the name with one leading `/` removed.
     * The package path is always there, a leading `/` included.
     */
    function RelativeResourcePath(): (r: string)
      ensures |PackagePath(viewPackage)| <= |r| && r[..|PackagePath(viewPackage)|] == PackagePath(viewPackage)
      ensures templateName == (if StartsWithSlash(templateName) then "/" else "") + r[|PackagePath(viewPackage)|..]
    {
      PackageRelativePath(templateName, viewPackage)
    }
  }

  /**
   * A name and the same name with one more leading `/` resolve to the same path: the slash never
   * makes the name absolute.
   */
  lemma LeadingSlashIsIgnored(name: string, pkg: Option<string>)
    requires !StartsWithSlash(name)
    ensures PackageRelativePath("/" + name, pkg) == PackageRelativePath(name, pkg)
  {
    assert ("/" + name)[1..] == name;
  }

  /** Only one `/` is stripped: a second one stays in the path right after the package path. */
  lemma OnlyOneSlashIsStripped(name: string, pkg: Option<string>)
    ensures PackageRelativePath("//" + name, pkg) == PackagePath(pkg) + ("/" + name)
  {
    assert "//" + name == "/" + ("/" + name);
    SlashThen("//" + name, "/" + name);
  }

  lemma SlashThen(s: string, rest: string)
    requires s == "/" + rest
    ensures StripLeadingSlash(s) == rest
  {
    assert s[1..] == rest;
  }

  /**
   * No bounds check: a template named `../../x.txt` under the package `a` is looked up at
   * `a/../../x.txt`, a path the bounds check of the other template kinds refuses.
   */
  lemma EscapingNameIsLookedUp(t: ViewTemplate)
    requires t.templateName == "../../x.txt" && t.viewPackage == Some("a")
    ensures t.RelativeResourcePath() == "a/../../x.txt"
    ensures !WithinBounds(t.RelativeResourcePath())
  {
    ClimbAboveOnePackagePath(t.templateName, t.viewPackage);
    ClimbAboveOnePackageRejected();
  }
}
