/**
 * `DefaultTemplateResolver` of bootique-mvc-jakarta: resolves a template name for a view type to a
 * `DefaultTemplate`, creating each template once and caching it under a string key made of the
 * view's package name and the template name. Cached templates are never replaced or removed.
 *
 * The source puts the two names side by side (`Key`), which lets two different templates share a
 * key (`KeyCollides`, `CollidingResolves`). `DefaultTemplateResolver` keeps that key;
 * `UniqueKeyTemplateResolver` is the same resolver keyed by `UniqueKey`, which cannot collide.
 *
 * The view type is represented by the name of its package (`None` when it has none); the template
 * base is the lookup function `templateBase`.
 */
module JakartaDefaultTemplateResolver {
  import opened Wrappers
  import opened TemplatePaths
  import opened JakartaDefaultTemplate

  /** The cache key: the package name immediately followed by the template name, no separator. */
  function Key(pkg: Option<string>, templateName: string): (r: string)
    ensures pkg.None? ==> r == templateName
    ensures pkg.Some? ==> |r| == |pkg.value| + |templateName|
    ensures pkg.Some? ==> r[..|pkg.value|] == pkg.value && r[|pkg.value|..] == templateName
  {
    match pkg
    case None => templateName
    case Some(name) => name + templateName
  }

  /** The paths the two colliding templates live at. */
  lemma CollidingPackagePaths()
    ensures PackagePath(Some("a.bc")) == "a/bc/" && PackagePath(Some("a.b")) == "a/b/"
  {
    assert ReplaceChar("a.bc", '.', '/') == "a/bc";
    assert ReplaceChar("a.b", '.', '/') == "a/b";
  }

  /**
   * The key is not unique: package `a.bc` with template `t.txt` and package `a.b` with template
   * `ct.txt` share a key although their templates live at different paths.
   */
  lemma KeyCollides()
    ensures Key(Some("a.bc"), "t.txt") == Key(Some("a.b"), "ct.txt")
    ensures PackagePath(Some("a.bc")) + "t.txt" != PackagePath(Some("a.b")) + "ct.txt"
  {
    CollidingPackagePaths();
    assert (PackagePath(Some("a.bc")) + "t.txt")[3] == 'c';
    assert (PackagePath(Some("a.b")) + "ct.txt")[3] == '/';
  }

  /** A view type without a package collides too: `abc` alone and `bc` in package `a` share a key. */
  lemma KeyCollidesWithoutPackage()
    ensures Key(None, "abc") == Key(Some("a"), "bc")
    ensures PackagePath(None) + "abc" != PackagePath(Some("a")) + "bc"
  {
    assert PackagePath(Some("a")) == "a/" by {
      assert ReplaceChar("a", '.', '/') == "a";
    }
    assert (PackagePath(Some("a")) + "bc")[1] == '/';
  }

  /** `t` was created for some package and template name whose key is `key`. */
  ghost predicate MadeFor<R>(t: DefaultTemplate<R>, key: string) {
    exists pkg: Option<string>, templateName: string ::
      Key(pkg, templateName) == key && t.path == PackagePath(pkg) && t.name == templateName
  }

  class DefaultTemplateResolver<R> {
    const templateEncoding: Charset
    const templateBase: string -> Option<Url>

    /** The templates created so far, by key. */
    var cachedTemplates: map<string, DefaultTemplate<R>>

    /**
     * Every cached template was made by this resolver (its base, its encoding, no hooks) for some
     * package and template name whose key it is cached under.
     */
    ghost predicate Valid()
      reads this
    {
      forall k | k in cachedTemplates ::
        cachedTemplates[k].base == templateBase &&
        cachedTemplates[k].sourceEncoding == templateEncoding &&
        cachedTemplates[k].onFailedUrl.None? && cachedTemplates[k].onFailedReader.None? &&
        MadeFor(cachedTemplates[k], k)
    }

    /** The constructor proper, once the encoding is known not to be null. */
    constructor (templateBase: string -> Option<Url>, templateEncoding: Charset)
      ensures this.templateBase == templateBase && this.templateEncoding == templateEncoding
      ensures cachedTemplates == map[]
      ensures Valid()
    {
      this.templateBase := templateBase;
      this.templateEncoding := templateEncoding;
      this.cachedTemplates := map[];
    }

    /**
     * `resolve(templateName, viewType)`: `computeIfAbsent` under `Key(pkg, templateName)`. The
     * template already cached under the key is returned as it is, the map unchanged; otherwise a new
     * template for the package path and the name is created and cached under the key. Either way
     * the template was made for some pair with the same key, not necessarily this one.
     */
    method Resolve(templateName: string, pkg: Option<string>) returns (t: DefaultTemplate<R>)
      requires Valid()
      modifies this`cachedTemplates
      ensures Valid()
      ensures MadeFor(t, Key(pkg, templateName))
      ensures t.base == templateBase && t.sourceEncoding == templateEncoding
      ensures t.onFailedUrl.None? && t.onFailedReader.None?
      ensures Key(pkg, templateName) in old(cachedTemplates) ==>
        t == old(cachedTemplates)[Key(pkg, templateName)] && cachedTemplates == old(cachedTemplates)
      ensures Key(pkg, templateName) !in old(cachedTemplates) ==>
        fresh(t) && t.url == None && t.path == PackagePath(pkg) && t.name == templateName &&
        cachedTemplates == old(cachedTemplates)[Key(pkg, templateName) := t]
    {
      var key := Key(pkg, templateName);
      if key in cachedTemplates {
        t := cachedTemplates[key];
      } else {
        t := CreateTemplate(templateName, pkg);
        assert Key(pkg, templateName) == key && t.path == PackagePath(pkg) && t.name == templateName;
        cachedTemplates := cachedTemplates[key := t];
      }
    }

    /** `createTemplate(templateName, pkg)`: a template under the package path, without hooks. */
    method CreateTemplate(templateName: string, pkg: Option<string>) returns (t: DefaultTemplate<R>)
      ensures fresh(t)
      ensures t.base == templateBase && t.path == PackagePath(pkg) && t.name == templateName
      ensures t.sourceEncoding == templateEncoding && t.url == None
      ensures t.onFailedUrl.None? && t.onFailedReader.None?
    {
      t := new DefaultTemplate(templateBase, PackagePath(pkg), templateName, templateEncoding, None, None);
    }
  }

  /**
   * The collision at work: on a new resolver, `t.txt` for package `a.bc` and then `ct.txt` for
   * package `a.b` give the very same template, the one at `a/bc/t.txt`, not the one asked for.
   */
  method CollidingResolves<R>(templateBase: string -> Option<Url>, templateEncoding: Charset)
    returns (first: DefaultTemplate<R>, second: DefaultTemplate<R>)
    ensures second == first
    ensures first.path == "a/bc/" && first.name == "t.txt"
    ensures second.path + second.name != PackagePath(Some("a.b")) + "ct.txt"
  {
    var resolver := new DefaultTemplateResolver<R>(templateBase, templateEncoding);
    first := resolver.Resolve("t.txt", Some("a.bc"));
    KeyCollides();
    CollidingPackagePaths();
    second := resolver.Resolve("ct.txt", Some("a.b"));
  }

  /** `new DefaultTemplateResolver(templateBase, templateEncoding)`: fails on a null encoding. */
  method NewResolver<R>(templateBase: string -> Option<Url>, templateEncoding: Option<Charset>)
    returns (r: Result<DefaultTemplateResolver<R>, string>)
    ensures r.Success? <==> templateEncoding.Some?
    ensures r.Failure? ==> r.error == "Null templateEncoding"
    ensures r.Success? ==> fresh(r.value) && r.value.Valid() && r.value.cachedTemplates == map[]
    ensures r.Success? ==>
      r.value.templateBase == templateBase && r.value.templateEncoding == templateEncoding.value
  {
    if templateEncoding.None? {
      return Failure("Null templateEncoding");
    }
    var resolver := new DefaultTemplateResolver(templateBase, templateEncoding.value);
    return Success(resolver);
  }

  // -----------------------------------------------------------------------------------------------
  // The resolver with a key that is unique, as the key's comment intends
  // -----------------------------------------------------------------------------------------------

  /**
   * The characters a Java package name may hold exclude `:` and `*`. The name may be empty: since
   * Java 9 a class in the unnamed package has a package named `""`, which is not the same as none.
   */
  predicate PackageName(pkg: Option<string>) {
    pkg.Some? ==> ':' !in pkg.value && '*' !in pkg.value
  }

  /**
   * A key that is unique for every (package, template name) pair: the package name, or `*` when
   * there is no package, then `:`, then the template name.
   */
  function UniqueKey(pkg: Option<string>, templateName: string): (r: string)
    ensures |r| > |templateName|
  {
    (if pkg.Some? then pkg.value else "*") + ":" + templateName
  }

  /** The index of the first `c` in `s`, or `|s|` when there is none. */
  function IndexOf(s: string, c: char): (r: nat)
    ensures r <= |s| && (r < |s| ==> s[r] == c)
    ensures forall i :: 0 <= i < r ==> s[i] != c
  {
    if s == [] || s[0] == c then 0 else 1 + IndexOf(s[1..], c)
  }

  /**
   * Reads a unique key back: what comes before the first `:` is the package name (`*` for no
   * package), what comes after it the template name.
   */
  function KeyParts(key: string): (Option<string>, string) {
    var i := IndexOf(key, ':');
    (if key[..i] == "*" then None else Some(key[..i]), if i < |key| then key[i + 1..] else "")
  }

  /** Reading a unique key back gives the package and the template name it was made of. */
  lemma KeyPartsOfUniqueKey(pkg: Option<string>, templateName: string)
    requires PackageName(pkg)
    ensures KeyParts(UniqueKey(pkg, templateName)) == (pkg, templateName)
  {
    var p := if pkg.Some? then pkg.value else "*";
    var k := UniqueKey(pkg, templateName);
    assert ':' !in p;
    FirstColon(p, templateName);
    assert IndexOf(k, ':') == |p|;
    assert k[..|p|] == p;
    assert k[|p| + 1..] == templateName;
    assert "*"[0] == '*';
  }

  /** The package part of a unique key ends at its first `:`. */
  lemma FirstColon(p: string, name: string)
    requires ':' !in p
    ensures var k := p + ":" + name;
      |p| < |k| && k[|p|] == ':' && forall i :: 0 <= i < |p| ==> k[i] != ':'
  {
    var k := p + ":" + name;
    forall i | 0 <= i < |p| ensures k[i] != ':' {
      assert k[i] == p[i];
    }
  }

  /** Different (package, template name) pairs always get different unique keys. */
  lemma UniqueKeyInjective(pkg1: Option<string>, name1: string, pkg2: Option<string>, name2: string)
    requires PackageName(pkg1) && PackageName(pkg2)
    requires UniqueKey(pkg1, name1) == UniqueKey(pkg2, name2)
    ensures pkg1 == pkg2 && name1 == name2
  {
    KeyPartsOfUniqueKey(pkg1, name1);
    KeyPartsOfUniqueKey(pkg2, name2);
  }

  /** `DefaultTemplateResolver` keyed by `UniqueKey`: every template it hands out is the one asked for. */
  class UniqueKeyTemplateResolver<R> {
    const templateEncoding: Charset
    const templateBase: string -> Option<Url>

    /** The templates created so far, by unique key. */
    var cachedTemplates: map<string, DefaultTemplate<R>>

    /**
     * Every cached template was made by this resolver (its base, its encoding, no hooks) for the
     * package and the template name its key is made of.
     */
    ghost predicate Valid()
      reads this
    {
      forall k | k in cachedTemplates ::
        cachedTemplates[k].base == templateBase &&
        cachedTemplates[k].sourceEncoding == templateEncoding &&
        cachedTemplates[k].onFailedUrl.None? && cachedTemplates[k].onFailedReader.None? &&
        cachedTemplates[k].path == PackagePath(KeyParts(k).0) && cachedTemplates[k].name == KeyParts(k).1
    }

    constructor (templateBase: string -> Option<Url>, templateEncoding: Charset)
      ensures this.templateBase == templateBase && this.templateEncoding == templateEncoding
      ensures cachedTemplates == map[]
      ensures Valid()
    {
      this.templateBase := templateBase;
      this.templateEncoding := templateEncoding;
      this.cachedTemplates := map[];
    }

    /**
     * `resolve` with the unique key: insert-if-absent as before, but the template returned is
     * always the one for the view's package and the name.
     */
    method Resolve(templateName: string, pkg: Option<string>) returns (t: DefaultTemplate<R>)
      requires Valid() && PackageName(pkg)
      modifies this`cachedTemplates
      ensures Valid()
      ensures t.path == PackagePath(pkg) && t.name == templateName
      ensures t.base == templateBase && t.sourceEncoding == templateEncoding
      ensures t.onFailedUrl.None? && t.onFailedReader.None?
      ensures UniqueKey(pkg, templateName) in old(cachedTemplates) ==>
        t == old(cachedTemplates)[UniqueKey(pkg, templateName)] && cachedTemplates == old(cachedTemplates)
      ensures UniqueKey(pkg, templateName) !in old(cachedTemplates) ==>
        fresh(t) && t.url == None && cachedTemplates == old(cachedTemplates)[UniqueKey(pkg, templateName) := t]
    {
      var key := UniqueKey(pkg, templateName);
      KeyPartsOfUniqueKey(pkg, templateName);
      if key in cachedTemplates {
        t := cachedTemplates[key];
      } else {
        t := new DefaultTemplate(templateBase, PackagePath(pkg), templateName, templateEncoding, None, None);
        cachedTemplates := cachedTemplates[key := t];
      }
    }
  }

  /** With the unique key, the two templates that collide under the source's key stay apart. */
  method SeparateResolves<R>(templateBase: string -> Option<Url>, templateEncoding: Charset)
    returns (first: DefaultTemplate<R>, second: DefaultTemplate<R>)
    ensures first.path == "a/bc/" && first.name == "t.txt"
    ensures second.path == "a/b/" && second.name == "ct.txt"
    ensures second != first
  {
    var resolver := new UniqueKeyTemplateResolver<R>(templateBase, templateEncoding);
    CollidingPackagePaths();
    first := resolver.Resolve("t.txt", Some("a.bc"));
    second := resolver.Resolve("ct.txt", Some("a.b"));
  }
}
