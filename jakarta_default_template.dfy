/**
 * `DefaultTemplate` of bootique-mvc-jakarta: a template whose resources are looked up in a template
 * base after relative names have been prefixed with a fixed path. Every path is checked to stay
 * within the base, the template's own URL is memoised, and failed URL lookups and failed reads are
 * routed to optional recovery hooks.
 *
 * The template base (`FolderResourceFactory.getUrl`) is the function `base`, which may fail (`None`);
 * opening a URL for reading (`URL.openStream` wrapped in an `InputStreamReader`) is the parameter
 * `open` of the reader methods, which may fail too. `R` stands for `java.io.Reader`.
 */
module JakartaDefaultTemplate {
  import opened Wrappers
  import opened TemplatePaths

  /** `onFailedUrl(resourceName, failure)`: the hook's URL when a hook is set, a resolution error otherwise. */
  function OnFailedUrl(hook: Option<string -> Url>, resourceName: string, cause: Failure): (r: Result<Url, Failure>)
    ensures r.Success? <==> hook.Some?
    ensures r.Success? ==> r.value == hook.value(resourceName)
    ensures r.Failure? ==> r.error == UrlResolutionFailed(resourceName, cause)
  {
    match hook
    case Some(recover) => Success(recover(resourceName))
    case None => Failure(UrlResolutionFailed(resourceName, cause))
  }

  /** `onFailedReader(url, failure)`: the hook's reader when a hook is set, an open error otherwise. */
  function OnFailedReader<R>(hook: Option<Url -> R>, url: Url): (r: Result<R, Failure>)
    ensures r.Success? <==> hook.Some?
    ensures r.Success? ==> r.value == hook.value(url)
    ensures r.Failure? ==> r.error == OpenFailed(url)
  {
    match hook
    case Some(recover) => Success(recover(url))
    case None => Failure(OpenFailed(url))
  }

  /**
   * What `getUrl(resourceName)` produces: the base's URL for the prefixed path when the path stays
   * within the base and the base finds it; otherwise, including a bounds violation (the check runs
   * inside the `try`), whatever `onFailedUrl` makes of the failure.
   */
  ghost function Locate(base: string -> Option<Url>, path: string, hook: Option<string -> Url>, resourceName: string)
    : (r: Result<Url, Failure>)
    ensures var p := AgainstPrefix(path, resourceName);
      WithinBounds(p) && base(p).Some? ==> r == Success(base(p).value)
    ensures var p := AgainstPrefix(path, resourceName);
      !WithinBounds(p) ==> r == OnFailedUrl(hook, resourceName, OutsideTemplateBase(p))
    ensures hook.Some? ==> r.Success?
    ensures hook.None? ==> (r.Success? <==>
      WithinBounds(AgainstPrefix(path, resourceName)) && base(AgainstPrefix(path, resourceName)).Some?)
  {
    var p := AgainstPrefix(path, resourceName);
    if !WithinBounds(p) then OnFailedUrl(hook, resourceName, OutsideTemplateBase(p))
    else match base(p)
      case Some(u) => Success(u)
      case None => OnFailedUrl(hook, resourceName, ResourceUnavailable(p))
  }

  /**
   * Opening a URL that has been found: the reader when opening works, otherwise whatever
   * `onFailedReader` makes of the failure.
   */
  function OpenOrRecover<R>(open: Url -> Option<R>, hook: Option<Url -> R>, url: Url): (r: Result<R, Failure>)
    ensures open(url).Some? ==> r == Success(open(url).value)
    ensures open(url).None? ==> r == OnFailedReader(hook, url)
    ensures r.Success? <==> open(url).Some? || hook.Some?
  {
    match open(url)
    case Some(reader) => Success(reader)
    case None => OnFailedReader(hook, url)
  }

  /** Reading through a URL lookup: a failed lookup propagates and never reaches `onFailedReader`. */
  function ReadThrough<R>(located: Result<Url, Failure>, open: Url -> Option<R>, hook: Option<Url -> R>)
    : (r: Result<R, Failure>)
    ensures located.Failure? ==> r == Failure(located.error)
    ensures located.Success? ==> r == OpenOrRecover(open, hook, located.value)
  {
    match located
    case Failure(e) => Failure(e)
    case Success(u) => OpenOrRecover(open, hook, u)
  }

  class DefaultTemplate<R> {
    const base: string -> Option<Url>
    const path: string
    const name: string
    const sourceEncoding: Charset
    const onFailedUrl: Option<string -> Url>
    const onFailedReader: Option<Url -> R>

    /** The memoised URL of the template itself; `None` until a lookup has succeeded. */
    var url: Option<Url>

    constructor (
      base: string -> Option<Url>,
      path: string,
      name: string,
      sourceEncoding: Charset,
      onFailedUrl: Option<string -> Url>,
      onFailedReader: Option<Url -> R>)
      ensures this.base == base && this.path == path && this.name == name
      ensures this.sourceEncoding == sourceEncoding
      ensures this.onFailedUrl == onFailedUrl && this.onFailedReader == onFailedReader
      ensures url == None
    {
      this.name := name;
      this.base := base;
      this.path := path;
      this.sourceEncoding := sourceEncoding;
      this.onFailedUrl := onFailedUrl;
      this.onFailedReader := onFailedReader;
      this.url := None;
    }

    /**
     * `getUrl()`: the first successful lookup of the template's own name is stored, and every later
     * call returns the stored URL without looking it up again. A failed lookup stores nothing.
     */
    method GetUrl() returns (r: Result<Url, Failure>)
      modifies this`url
      ensures old(url).Some? ==> r == Success(old(url).value) && url == old(url)
      ensures old(url).None? ==> r == Locate(base, path, onFailedUrl, name)
      ensures old(url).None? ==> url == (if r.Success? then Some(r.value) else None)
    {
      if url.None? {
        var found := GetUrlOf(name);
        if found.Failure? {
          return found;
        }
        url := Some(found.value);
      }
      return Success(url.value);
    }

    /** `getUrl(resourceName)`: the URL of a sibling resource, looked up afresh on every call. */
    method GetUrlOf(resourceName: string) returns (r: Result<Url, Failure>)
      ensures r == Locate(base, path, onFailedUrl, resourceName)
    {
      var p := ResourcePath(resourceName);
      if p.Failure? {
        return OnFailedUrl(onFailedUrl, resourceName, p.error);
      }
      var found := base(p.value);
      if found.None? {
        return OnFailedUrl(onFailedUrl, resourceName, ResourceUnavailable(p.value));
      }
      return Success(found.value);
    }

    /**
     * `reader()`: opens the template's own (memoised) URL; a failure to open goes to
     * `onFailedReader`, a failure to find the URL propagates.
     */
    method Reader(open: Url -> Option<R>) returns (r: Result<R, Failure>)
      modifies this`url
      ensures old(url).Some? ==> r == OpenOrRecover(open, onFailedReader, old(url).value) && url == old(url)
      ensures old(url).None? ==> r == ReadThrough(Locate(base, path, onFailedUrl, name), open, onFailedReader)
      ensures old(url).None? ==>
        url == (var u := Locate(base, path, onFailedUrl, name); if u.Success? then Some(u.value) else None)
    {
      var found := GetUrl();
      if found.Failure? {
        return Failure(found.error);
      }
      var reader := open(found.value);
      if reader.None? {
        return OnFailedReader(onFailedReader, found.value);
      }
      return Success(reader.value);
    }

    /** `reader(resourceName)`: opens a sibling resource, with the same failure routing as `reader()`. */
    method ReaderOf(resourceName: string, open: Url -> Option<R>) returns (r: Result<R, Failure>)
      ensures r == ReadThrough(Locate(base, path, onFailedUrl, resourceName), open, onFailedReader)
    {
      var found := GetUrlOf(resourceName);
      if found.Failure? {
        return Failure(found.error);
      }
      var reader := open(found.value);
      if reader.None? {
        return OnFailedReader(onFailedReader, found.value);
      }
      return Success(reader.value);
    }

    function GetEncoding(): Charset {
      sourceEncoding
    }

    function GetName(): string {
      name
    }

    /**
     * `resourcePath(resource)`: a name starting with `/` is taken as it is, any other name gets the
     * template's path prepended; the result is returned only when it passed the bounds check.
     */
    method ResourcePath(resource: string) returns (r: Result<string, Failure>)
      ensures r.Success? <==> WithinBounds(AgainstPrefix(path, resource))
      ensures r.Success? ==> r.value == (if StartsWithSlash(resource) then resource else path + resource)
      ensures r.Failure? ==> r.error == OutsideTemplateBase(AgainstPrefix(path, resource))
    {
      var p := if StartsWithSlash(resource) then resource else path + resource;
      var checked := CheckPathWithinBounds(p);
      if checked.Fail? {
        return Failure(checked.error);
      }
      return Success(p);
    }
  }

  /**
   * With both hooks set (the "allow missing templates" configuration), reading a sibling never
   * fails, whatever the base and the stream opener do, bounds violations included.
   */
  lemma HooksMakeReadingTotal<R>(t: DefaultTemplate<R>, resourceName: string, open: Url -> Option<R>)
    requires t.onFailedUrl.Some? && t.onFailedReader.Some?
    ensures ReadThrough(Locate(t.base, t.path, t.onFailedUrl, resourceName), open, t.onFailedReader).Success?
  {
  }

  /**
   * Without hooks, reading a sibling succeeds exactly when its path stays within the base, the base
   * finds it and it can be opened.
   */
  lemma NoHooksReadingFails<R>(t: DefaultTemplate<R>, resourceName: string, open: Url -> Option<R>)
    requires t.onFailedUrl.None? && t.onFailedReader.None?
    ensures var p := AgainstPrefix(t.path, resourceName);
      ReadThrough(Locate(t.base, t.path, t.onFailedUrl, resourceName), open, t.onFailedReader).Success?
      <==> WithinBounds(p) && t.base(p).Some? && open(t.base(p).value).Some?
  {
  }
}
