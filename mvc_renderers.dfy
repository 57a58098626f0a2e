/**
 * `ByExtensionTemplateRenderers` of bootique-mvc: picks the renderer for a template by the extension
 * of the template's name, from a map that is never modified. The extension runs from the last `.`
 * of the name to its end, dot included.
 */
module MvcRenderers {
  import opened Wrappers

  datatype RenderError =
      /** "Path without extension: ..." */
    | PathWithoutExtension(path: string)
      /** "Unsupported template extension: ..., supported extensions: ..." */
    | UnsupportedExtension(extension: string, supported: set<string>)

  /** Java's `s.lastIndexOf(c)`: the index of the last `c`, or -1 when there is none. */
  function LastIndexOf(s: string, c: char): (r: int)
    ensures -1 <= r < |s|
    ensures r >= 0 ==> s[r] == c
    ensures forall j :: r < j < |s| ==> s[j] != c
  {
    if s == [] then -1
    else if s[|s| - 1] == c then |s| - 1
    else LastIndexOf(s[..|s| - 1], c)
  }

  /**
   * `getExtension(path)`: fails when the name has no `.`, when its last `.` is the first character,
   * or when it is the last one; otherwise the extension is a proper suffix of the name that starts
   * with its only `.` and has at least one more character.
   */
  function GetExtension(path: string): (r: Result<string, RenderError>)
    ensures r.Failure? <==> '.' !in path || LastIndexOf(path, '.') == 0 || LastIndexOf(path, '.') == |path| - 1
    ensures r.Failure? ==> r.error == PathWithoutExtension(path)
    ensures r.Success? ==>
      2 <= |r.value| < |path| && path[|path| - |r.value|..] == r.value &&
      r.value[0] == '.' && '.' !in r.value[1..]
  {
    var dot := LastIndexOf(path, '.');
    if dot <= 0 || dot == |path| - 1 then Failure(PathWithoutExtension(path))
    else
      NoDotAfter(path, dot);
      Success(path[dot..])
  }

  lemma NoDotAfter(path: string, dot: int)
    requires 0 <= dot < |path| && forall j :: dot < j < |path| ==> path[j] != '.'
    ensures '.' !in path[dot..][1..]
  {
    assert path[dot..][1..] == path[dot + 1..];
  }

  /**
   * The extension is determined by the name alone: whenever the name has a `.` that is neither its
   * first nor its last character and no `.` after it, the extension is the suffix from that `.`.
   */
  lemma ExtensionFromLastDot(path: string, k: int)
    requires 0 < k < |path| - 1 && path[k] == '.' && '.' !in path[k + 1..]
    ensures GetExtension(path) == Success(path[k..])
  {
  }

  /**
   * `getRenderer(template)` for a template named `name`: the renderer mapped to exactly the
   * extension of the name; an unmapped extension fails, naming the extension and the mapped ones.
   */
  function GetRenderer<R>(renderersByExtension: map<string, R>, name: string): (r: Result<R, RenderError>)
    ensures GetExtension(name).Failure? ==> r == Failure(GetExtension(name).error)
    ensures r.Success? <==> GetExtension(name).Success? && GetExtension(name).value in renderersByExtension
    ensures r.Success? ==> r.value == renderersByExtension[GetExtension(name).value]
    ensures GetExtension(name).Success? && GetExtension(name).value !in renderersByExtension ==>
      r == Failure(UnsupportedExtension(GetExtension(name).value, renderersByExtension.Keys))
  {
    match GetExtension(name)
    case Failure(e) => Failure(e)
    case Success(ext) =>
      if ext in renderersByExtension then Success(renderersByExtension[ext])
      else Failure(UnsupportedExtension(ext, renderersByExtension.Keys))
  }

  /** `t.mustache` has the extension `.mustache`; `a.b.c` has `.c`. */
  lemma ExtensionExamples()
    ensures GetExtension("t.mustache") == Success(".mustache")
    ensures GetExtension("a.b.c") == Success(".c")
  {
    ExtensionFromLastDot("t.mustache", 1);
    ExtensionFromLastDot("a.b.c", 3);
  }

  /** `t`, `t.` and `.mustache` have no extension. */
  lemma NoExtensionExamples()
    ensures GetExtension("t").Failure?
    ensures GetExtension("t.").Failure?
    ensures GetExtension(".mustache").Failure?
  {
    assert '.' !in "t";
    assert LastIndexOf("t.", '.') == 1;
    var m := ".mustache";
    assert forall j :: 0 < j < |m| ==> m[j] != '.';
    assert m[0] == '.';
    assert LastIndexOf(m, '.') == 0;
  }

  /** The last `.` may sit in a directory name: `a.d/t` has the extension `.d/t`. */
  lemma DotInDirectoryExample()
    ensures GetExtension("a.d/t") == Success(".d/t")
  {
    ExtensionFromLastDot("a.d/t", 1);
  }
}
