/**
 * `ViewTemplate` of bootique-mvc: a template located relative to the Java package of the view type
 * that asked for it. Names starting with `/` are resolved against the template base itself; every
 * path is checked to stay within the base before it is looked up, and a violation always
 * propagates: this version has no recovery hooks. The template's own URL is memoised.
 *
 * The template base (`FolderResourceFactory.getUrl`) is the function `templateBase`, which may fail.
 * The view type is represented by the name of its package (`None` when it has none).
 */
module MvcViewTemplate {
  import opened Wrappers
  import opened TemplatePaths

  /**
   * What `getUrl(resourceName)` produces: the base's URL for the path when the path stays within the
   * base and the base finds it; a bounds violation or a failed lookup propagates as it is.
   */
  ghost function Locate(templateBase: string -> Option<Url>, packagePath: string, resourceName: string)
    : (r: Result<Url, Failure>)
    ensures var p := AgainstPrefix(packagePath, resourceName);
      r.Success? <==> WithinBounds(p) && templateBase(p).Some?
    ensures var p := AgainstPrefix(packagePath, resourceName);
      r.Success? ==> r.value == templateBase(p).value
    ensures var p := AgainstPrefix(packagePath, resourceName);
      !WithinBounds(p) ==> r == Failure(OutsideTemplateBase(p))
  {
    var p := AgainstPrefix(packagePath, resourceName);
    if !WithinBounds(p) then Failure(OutsideTemplateBase(p))
    else match templateBase(p)
      case Some(u) => Success(u)
      case None => Failure(ResourceUnavailable(p))
  }

  class ViewTemplate {
    const templateName: string
    const templateBase: string -> Option<Url>
    const templateEncoding: Charset
    const packagePath: string

    /** The memoised URL of the template itself; `None` until a lookup has succeeded. */
    var url: Option<Url>

    /** Derives the package path of the view type once, at construction. */
    constructor (
      templateName: string,
      viewPackage: Option<string>,
      templateBase: string -> Option<Url>,
      templateEncoding: Charset)
      ensures this.templateName == templateName && this.templateBase == templateBase
      ensures this.templateEncoding == templateEncoding
      ensures packagePath == PackagePath(viewPackage)
      ensures url == None
    {
      this.templateName := templateName;
      this.templateBase := templateBase;
      this.templateEncoding := templateEncoding;
      this.packagePath := PackagePath(viewPackage);
      this.url := None;
    }

    /**
     * `getUrl()`: the first successful lookup of the template's own name is stored and returned by
     * every later call without a new lookup; a failed lookup stores nothing.
     */
    method GetUrl() returns (r: Result<Url, Failure>)
      modifies this`url
      ensures old(url).Some? ==> r == Success(old(url).value) && url == old(url)
      ensures old(url).None? ==> r == Locate(templateBase, packagePath, templateName)
      ensures old(url).None? ==> url == (if r.Success? then Some(r.value) else None)
    {
      if url.None? {
        var path := ResourcePath(templateName);
        if path.Failure? {
          return Failure(path.error);
        }
        var found := templateBase(path.value);
        if found.None? {
          return Failure(ResourceUnavailable(path.value));
        }
        url := Some(found.value);
      }
      return Success(url.value);
    }

    /** `getUrl(resourceName)`: the URL of a sibling resource, looked up afresh on every call. */
    method GetUrlOf(resourceName: string) returns (r: Result<Url, Failure>)
      ensures r == Locate(templateBase, packagePath, resourceName)
    {
      var path := ResourcePath(resourceName);
      if path.Failure? {
        return Failure(path.error);
      }
      var found := templateBase(path.value);
      if found.None? {
        return Failure(ResourceUnavailable(path.value));
      }
      return Success(found.value);
    }

    function GetEncoding(): Charset {
      templateEncoding
    }

    function GetName(): string {
      templateName
    }

    /**
     * `resourcePath(resource)`: a name starting with `/` is used as it is, ignoring the package; any
     * other name gets the package path prepended. The result is returned only when it passed the
     * bounds check, which is the same walk as in the Jakarta `DefaultTemplate`.
     */
    method ResourcePath(resource: string) returns (r: Result<string, Failure>)
      ensures r.Success? <==> WithinBounds(AgainstPrefix(packagePath, resource))
      ensures r.Success? ==> r.value == (if StartsWithSlash(resource) then resource else packagePath + resource)
      ensures r.Failure? ==> r.error == OutsideTemplateBase(AgainstPrefix(packagePath, resource))
    {
      var path := if StartsWithSlash(resource) then resource else packagePath + resource;
      var checked := CheckPathWithinBounds(path);
      if checked.Fail? {
        return Failure(checked.error);
      }
      return Success(path);
    }
  }

  // -----------------------------------------------------------------------------------------------
  // The jailbreak cases, for a view type in package io.bootique.mvc.resolver
  // -----------------------------------------------------------------------------------------------

  /**
   * A relative name that starts with `n` parent components and then only names stays within the
   * template base exactly when `n` does not exceed the number of names in the view's package.
   */
  lemma ClimbOutOfPackage(pkgNames: seq<string>, n: nat, rest: seq<string>)
    requires PackageNames(pkgNames) && PlainNames(rest) && |rest| >= 1 && (n > 0 || rest[0] != "")
    ensures WithinBounds(AgainstPrefix(PackagePath(Some(Join(pkgNames, '.'))), Join(Ups(n) + rest, '/')))
      <==> n <= |pkgNames|
  {
    ClimbComponents(pkgNames, n, rest);
    PackagePrefixIsLong(pkgNames);
    PackageNamesCount(pkgNames);
    ClimbAfterNames(pkgNames, n, rest);
  }

  /** The dotted names of a package: none empty, none holding a separator. */
  predicate PackageNames(pkgNames: seq<string>) {
    |pkgNames| >= 1 &&
    forall i :: 0 <= i < |pkgNames| ==>
      pkgNames[i] != "" && '.' !in pkgNames[i] && '/' !in pkgNames[i] && '\\' !in pkgNames[i]
  }

  /** Components that are neither `..` nor hold a separator. */
  predicate PlainNames(rest: seq<string>) {
    forall i :: 0 <= i < |rest| ==> rest[i] != ".." && '/' !in rest[i] && '\\' !in rest[i]
  }

  /** `n` parent components and then plain names, against the package prefix, as components. */
  lemma ClimbComponents(pkgNames: seq<string>, n: nat, rest: seq<string>)
    requires PackageNames(pkgNames) && PlainNames(rest) && |rest| >= 1 && (n > 0 || rest[0] != "")
    ensures !StartsWithSlash(Join(Ups(n) + rest, '/'))
    ensures var path := AgainstPrefix(PackagePath(Some(Join(pkgNames, '.'))), Join(Ups(n) + rest, '/'));
      Split(Normalize(path), '/') == pkgNames + Ups(n) + rest
  {
    UpsThenPlain(n, rest);
    PackageNamesSeparatorFree(pkgNames);
    RelativeComponents(pkgNames, Ups(n), rest, Ups(n) + rest);
  }

  /** The components against the package prefix, with the relative part given as `ups + rest`. */
  lemma RelativeComponents(pkgNames: seq<string>, ups: seq<string>, rest: seq<string>, rel: seq<string>)
    requires rel == ups + rest && |pkgNames| >= 1 && |rel| >= 1 && rel[0] != ""
    requires forall i :: 0 <= i < |pkgNames| ==>
      '.' !in pkgNames[i] && '/' !in pkgNames[i] && '\\' !in pkgNames[i]
    requires forall i :: 0 <= i < |rel| ==> '/' !in rel[i] && '\\' !in rel[i]
    ensures Split(Normalize(AgainstPrefix(PackagePath(Some(Join(pkgNames, '.'))), Join(rel, '/'))), '/')
      == pkgNames + ups + rest
  {
    PackageRelativeComponents(pkgNames, rel);
    AppendAssociates(pkgNames, ups, rest);
  }

  /** Concatenation of component lists associates. */
  lemma AppendAssociates(a: seq<string>, b: seq<string>, c: seq<string>)
    ensures a + (b + c) == a + b + c
  {
  }

  /** Package names hold no separator. */
  lemma PackageNamesSeparatorFree(pkgNames: seq<string>)
    requires PackageNames(pkgNames)
    ensures forall i :: 0 <= i < |pkgNames| ==>
      '.' !in pkgNames[i] && '/' !in pkgNames[i] && '\\' !in pkgNames[i]
  {
  }

  lemma UpsThenPlain(n: nat, rest: seq<string>)
    requires PlainNames(rest) && |rest| >= 1 && (n > 0 || rest[0] != "")
    ensures var rel := Ups(n) + rest;
      rel[0] != "" && !StartsWithSlash(Join(rel, '/')) &&
      forall i :: 0 <= i < |rel| ==> '/' !in rel[i] && '\\' !in rel[i]
  {
    var rel := Ups(n) + rest;
    assert '/' !in rel[0];
    JoinFirst(rel, '/');
    forall i | 0 <= i < |rel| ensures '/' !in rel[i] && '\\' !in rel[i] {
      if i < n {
        assert rel[i] == "..";
      } else {
        assert rel[i] == rest[i - n];
      }
    }
  }

  lemma PackagePrefixIsLong(pkgNames: seq<string>)
    requires PackageNames(pkgNames)
    ensures |PackagePath(Some(Join(pkgNames, '.')))| >= 2
  {
    JoinLength(pkgNames, 0, '.');
  }

  lemma PackageNamesCount(pkgNames: seq<string>)
    requires PackageNames(pkgNames)
    ensures ".." !in pkgNames && Names(pkgNames) == |pkgNames|
  {
    forall i | 0 <= i < |pkgNames| ensures pkgNames[i] != ".." {
      assert '.' in "..";
    }
    AllNamesCount(pkgNames);
  }

  /** The names of a package four levels deep, such as io.bootique.mvc.resolver. */
  predicate FourNamePackage(pkgNames: seq<string>) {
    |pkgNames| == 4 && PackageNames(pkgNames)
  }

  /** io.bootique.mvc.resolver is such a package. */
  lemma ResolverPackageIsFourDeep()
    ensures FourNamePackage(["io", "bootique", "mvc", "resolver"])
  {
    var ns := ["io", "bootique", "mvc", "resolver"];
    forall i | 0 <= i < 4
      ensures ns[i] != "" && '.' !in ns[i] && '/' !in ns[i] && '\\' !in ns[i]
    {
      assert ns[i] == "io" || ns[i] == "bootique" || ns[i] == "mvc" || ns[i] == "resolver";
    }
  }

  /** Its dotted name is the join of its names. */
  lemma ResolverPackageNames()
    ensures Join(["io", "bootique", "mvc", "resolver"], '.') == "io.bootique.mvc.resolver"
  {
    JoinFour("io", "bootique", "mvc", "resolver", '.');
  }

  /** Four components joined, written out. */
  lemma JoinFour(a: string, b: string, c: string, d: string, sep: char)
    ensures Join([a, b, c, d], sep) == a + [sep] + (b + [sep] + (c + [sep] + d))
  {
    assert Join([c, d], sep) == c + [sep] + d;
    assert Join([b, c, d], sep) == b + [sep] + Join([c, d], sep);
    assert Join([a, b, c, d], sep) == a + [sep] + Join([b, c, d], sep);
  }

  /** `../tName.txt` climbs out of one of the four package directories and is accepted. */
  lemma OneLevelUpAccepted(pkgNames: seq<string>)
    requires FourNamePackage(pkgNames)
    ensures WithinBounds(AgainstPrefix(PackagePath(Some(Join(pkgNames, '.'))), "../tName.txt"))
  {
    UpsJoin1();
    ClimbOutOfPackage(pkgNames, 1, ["tName.txt"]);
  }

  /** `../../../../tName.txt` climbs back to the template base itself and is accepted. */
  lemma FourLevelsUpAccepted(pkgNames: seq<string>)
    requires FourNamePackage(pkgNames)
    ensures WithinBounds(AgainstPrefix(PackagePath(Some(Join(pkgNames, '.'))), "../../../../tName.txt"))
  {
    UpsJoin4();
    ClimbOutOfPackage(pkgNames, 4, ["tName.txt"]);
  }

  /** `../../x/tName.txt` stays inside the package's grandparent directory and is accepted. */
  lemma TwoLevelsUpAccepted(pkgNames: seq<string>)
    requires FourNamePackage(pkgNames)
    ensures WithinBounds(AgainstPrefix(PackagePath(Some(Join(pkgNames, '.'))), "../../x/tName.txt"))
  {
    UpsJoin2();
    ClimbOutOfPackage(pkgNames, 2, ["x", "tName.txt"]);
  }

  /** `../../../../../tName.txt` would climb above the template base and is rejected. */
  lemma FiveLevelsUpRejected(pkgNames: seq<string>)
    requires FourNamePackage(pkgNames)
    ensures !WithinBounds(AgainstPrefix(PackagePath(Some(Join(pkgNames, '.'))), "../../../../../tName.txt"))
  {
    UpsJoin5();
    ClimbOutOfPackage(pkgNames, 5, ["tName.txt"]);
  }

  /** The absolute `/x/y/../tName.txt` ignores the package path, whatever it is, and is accepted. */
  lemma AbsoluteClimbAccepted(packagePath: string)
    ensures WithinBounds(AgainstPrefix(packagePath, "/x/y/../tName.txt"))
  {
    AbsoluteJoinXY();
    ComponentsOf("/x/y/../tName.txt", ["", "x", "y", "..", "tName.txt"]);
    AbsoluteClimbComponents();
  }

  /** The absolute `/x/../../tName.txt` climbs above the base, whatever the package path, and is rejected. */
  lemma AbsoluteEscapeRejected(packagePath: string)
    ensures !WithinBounds(AgainstPrefix(packagePath, "/x/../../tName.txt"))
  {
    AbsoluteJoinX();
    ComponentsOf("/x/../../tName.txt", ["", "x", "..", "..", "tName.txt"]);
    AbsoluteEscapeComponents();
  }

  // The concrete names above as joins of their components.

  lemma UpsJoinStep(n: nat, rest: seq<string>)
    requires |rest| >= 1
    ensures Join(Ups(n + 1) + rest, '/') == "../" + Join(Ups(n) + rest, '/')
  {
    var rel := Ups(n) + rest;
    assert Ups(n + 1) + rest == [".."] + rel;
    assert ([".."] + rel)[1..] == rel;
  }

  lemma UpsJoin1()
    ensures Join(Ups(1) + ["tName.txt"], '/') == "../tName.txt"
  {
    UpsJoinStep(0, ["tName.txt"]);
    assert Ups(0) + ["tName.txt"] == ["tName.txt"];
  }

  lemma UpsJoin2()
    ensures Join(Ups(2) + ["x", "tName.txt"], '/') == "../../x/tName.txt"
  {
    UpsJoinStep(1, ["x", "tName.txt"]);
    UpsJoin1X();
  }

  lemma UpsJoin1X()
    ensures Join(Ups(1) + ["x", "tName.txt"], '/') == "../x/tName.txt"
  {
    UpsJoinStep(0, ["x", "tName.txt"]);
    assert Ups(0) + ["x", "tName.txt"] == ["x", "tName.txt"];
    assert Join(["x", "tName.txt"], '/') == "x/tName.txt";
  }

  lemma UpsJoin3()
    ensures Join(Ups(3) + ["tName.txt"], '/') == "../../../tName.txt"
  {
    UpsJoinStep(2, ["tName.txt"]);
    UpsJoinStep(1, ["tName.txt"]);
    UpsJoin1();
  }

  lemma UpsJoin4()
    ensures Join(Ups(4) + ["tName.txt"], '/') == "../../../../tName.txt"
  {
    UpsJoinStep(3, ["tName.txt"]);
    UpsJoin3();
  }

  lemma UpsJoin5()
    ensures Join(Ups(5) + ["tName.txt"], '/') == "../../../../../tName.txt"
  {
    UpsJoinStep(4, ["tName.txt"]);
    UpsJoin4();
  }

  lemma AbsoluteJoinXY()
    ensures Join(["", "x", "y", "..", "tName.txt"], '/') == "/x/y/../tName.txt"
  {
    JoinFive("", "x", "y", "..", "tName.txt");
  }

  lemma AbsoluteJoinX()
    ensures Join(["", "x", "..", "..", "tName.txt"], '/') == "/x/../../tName.txt"
  {
    JoinFive("", "x", "..", "..", "tName.txt");
  }


  lemma AbsoluteClimbComponents()
    ensures StaysWithin(["", "x", "y", "..", "tName.txt"])
  {
    var cs := ["", "x", "y", "..", "tName.txt"];
    assert cs == ["", "x", "y"] + Ups(1) + ["tName.txt"];
    ClimbAfterNames(["", "x", "y"], 1, ["tName.txt"]);
  }

  lemma AbsoluteEscapeComponents()
    ensures !StaysWithin(["", "x", "..", "..", "tName.txt"])
  {
    var cs := ["", "x", "..", "..", "tName.txt"];
    assert cs == ["", "x"] + Ups(2) + ["tName.txt"];
    ClimbAfterNames(["", "x"], 2, ["tName.txt"]);
  }
}
