/**
 * `DefaultTemplateResolver` of bootique-mvc: builds a lazy template for a name and a view type. The
 * template caches nothing: every `getUrl()` recomputes the path and asks the template base again.
 * When templates are located absolutely the path is the name itself; otherwise one leading `/` is
 * stripped and the view's package path is prepended. No bounds check is applied either way.
 *
 * The resolver never changes after construction, so it is a value here, and so is the template it
 * returns. The view type is represented by the name of its package (`None` when it has none).
 */
module MvcDefaultTemplateResolver {
  import opened Wrappers
  import opened TemplatePaths

  datatype Resolver = Resolver(
    templateBase: string -> Option<Url>,
    templateLocationAbsolute: bool,
    templateEncoding: Charset)

  /** `new DefaultTemplateResolver(templateBase, templateLocationAbsolute, templateEncoding)`. */
  function NewResolver(templateBase: string -> Option<Url>, templateLocationAbsolute: bool, templateEncoding: Option<Charset>)
    : (r: Result<Resolver, string>)
    ensures r.Success? <==> templateEncoding.Some?
    ensures r.Failure? ==> r.error == "Null templateEncoding"
    ensures r.Success? ==> r.value.templateBase == templateBase
    ensures r.Success? ==> r.value.templateLocationAbsolute == templateLocationAbsolute
    ensures r.Success? ==> r.value.templateEncoding == templateEncoding.value
  {
    match templateEncoding
    case None => Failure("Null templateEncoding")
    case Some(encoding) => Success(Resolver(templateBase, templateLocationAbsolute, encoding))
  }

  /** The template `resolve` returns: it only remembers the resolver, the name and the view's package. */
  datatype Template = Template(resolver: Resolver, templateName: string, viewPackage: Option<string>)
  {
    /** `getUrl()`: looked up afresh on every call. */
    function GetUrl(): Result<Url, Failure> {
      ResourceUrl(resolver, templateName, viewPackage)
    }

    function GetEncoding(): Charset {
      resolver.templateEncoding
    }

    function GetName(): string {
      templateName
    }
  }

  /** `resolve(templateName, viewType)`: a new lazy template; nothing is looked up yet. */
  function Resolve(resolver: Resolver, templateName: string, viewPackage: Option<string>): (t: Template)
    ensures t.GetName() == templateName && t.GetEncoding() == resolver.templateEncoding
    ensures t.GetUrl() == ResourceUrl(resolver, templateName, viewPackage)
  {
    Template(resolver, templateName, viewPackage)
  }

  /**
   * The path `resourceUrl` looks up: the name itself when templates are absolute, otherwise the
   * package path followed by the name with one leading `/` removed.
   */
  function ResourcePath(resolver: Resolver, templateName: string, viewPackage: Option<string>): (r: string)
    ensures resolver.templateLocationAbsolute ==> r == templateName
    ensures !resolver.templateLocationAbsolute ==>
      |PackagePath(viewPackage)| <= |r| && r[..|PackagePath(viewPackage)|] == PackagePath(viewPackage) &&
      templateName == (if StartsWithSlash(templateName) then "/" else "") + r[|PackagePath(viewPackage)|..]
  {
    if resolver.templateLocationAbsolute then templateName
    else PackageRelativePath(templateName, viewPackage)
  }

  /** `resourceUrl(templateName, viewType)`: whatever the base makes of the path, unchecked. */
  function ResourceUrl(resolver: Resolver, templateName: string, viewPackage: Option<string>)
    : (r: Result<Url, Failure>)
    ensures var p := ResourcePath(resolver, templateName, viewPackage);
      r.Success? <==> resolver.templateBase(p).Some?
    ensures var p := ResourcePath(resolver, templateName, viewPackage);
      r.Success? ==> r.value == resolver.templateBase(p).value
    ensures var p := ResourcePath(resolver, templateName, viewPackage);
      r.Failure? ==> r.error == ResourceUnavailable(p)
  {
    var p := ResourcePath(resolver, templateName, viewPackage);
    match resolver.templateBase(p)
    case Some(u) => Success(u)
    case None => Failure(ResourceUnavailable(p))
  }

  /**
   * Relative location, name without a leading `/`: the same path as the older `ViewTemplate` builds
   * before its bounds check.
   */
  lemma RelativeAgreesWithViewTemplate(resolver: Resolver, templateName: string, viewPackage: Option<string>)
    requires !resolver.templateLocationAbsolute && !StartsWithSlash(templateName)
    ensures ResourcePath(resolver, templateName, viewPackage) == AgainstPrefix(PackagePath(viewPackage), templateName)
  {
  }

  /**
   * Relative location, name with a leading `/`: still under the package, where the older
   * `ViewTemplate` would ignore the package.
   */
  lemma RelativeKeepsPackageForSlash(resolver: Resolver, templateName: string, viewPackage: Option<string>)
    requires !resolver.templateLocationAbsolute && StartsWithSlash(templateName)
    ensures ResourcePath(resolver, templateName, viewPackage) == PackagePath(viewPackage) + templateName[1..]
    ensures AgainstPrefix(PackagePath(viewPackage), templateName) == templateName
  {
  }

  /**
   * No bounds check: with relative location, a template named `../../x.txt` for a view in package
   * `a` is looked up at `a/../../x.txt`, which climbs above the template base.
   */
  lemma EscapingNameIsLookedUp(resolver: Resolver)
    requires !resolver.templateLocationAbsolute
    ensures ResourcePath(resolver, "../../x.txt", Some("a")) == "a/../../x.txt"
    ensures !WithinBounds(ResourcePath(resolver, "../../x.txt", Some("a")))
    ensures Resolve(resolver, "../../x.txt", Some("a")).GetUrl().Success? <==>
      resolver.templateBase("a/../../x.txt").Some?
  {
    ClimbAboveOnePackagePath("../../x.txt", Some("a"));
    ClimbAboveOnePackageRejected();
  }

  /** Absolute location with a climbing name: the name goes to the base unchanged. */
  lemma AbsoluteEscapeIsLookedUp(resolver: Resolver)
    requires resolver.templateLocationAbsolute
    ensures ResourcePath(resolver, "a/../../x.txt", None) == "a/../../x.txt"
    ensures !WithinBounds(ResourcePath(resolver, "a/../../x.txt", None))
  {
    ClimbAboveOnePackageRejected();
  }
}
