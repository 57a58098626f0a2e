/**
 * Path handling shared by the template implementations of bootique-mvc and bootique-mvc-jakarta:
 * the path a view type's Java package contributes, the two ways a template name is combined with
 * it, and the purely syntactic check that a template path does not climb above the template base.
 */
module TemplatePaths {
  import opened Wrappers

  /** The external form of a URL produced by the template base. */
  type Url = string

  /** The name of a character set. */
  type Charset = string

  /** Why locating or opening a template resource failed. */
  datatype Failure =
      /** The bounds check refused the path ("Path is outside the template base"). */
    | OutsideTemplateBase(path: string)
      /** The template base could not produce a URL for the path. */
    | ResourceUnavailable(path: string)
      /** A URL lookup failed and no recovery hook was set ("Error resolving URL for resource"). */
    | UrlResolutionFailed(resource: string, cause: Failure)
      /** Opening the URL failed and no recovery hook was set ("Error opening URL"). */
    | OpenFailed(url: Url)

  // ---------------------------------------------------------------------------------------------
  // Characters and package paths
  // ---------------------------------------------------------------------------------------------

  /** Java's `String.replace(char, char)`: every `from` becomes `to`, nothing else changes. */
  function ReplaceChar(s: string, from: char, to: char): (r: string)
    ensures |r| == |s|
    ensures forall i :: 0 <= i < |s| ==> r[i] == (if s[i] == from then to else s[i])
  {
    if s == [] then [] else [if s[0] == from then to else s[0]] + ReplaceChar(s[1..], from, to)
  }

  /**
   * The path of a view type's package: its name with `.` replaced by `/` and a trailing `/`, or the
   * empty string when the type has no package.
   */
  function PackagePath(pkg: Option<string>): (r: string)
    ensures pkg.None? ==> r == ""
    ensures pkg.Some? ==> |r| == |pkg.value| + 1 && r[|pkg.value|] == '/' && '.' !in r
    ensures pkg.Some? ==> forall i :: 0 <= i < |pkg.value| ==>
      r[i] == (if pkg.value[i] == '.' then '/' else pkg.value[i])
  {
    match pkg
    case None => ""
    case Some(name) => ReplaceChar(name, '.', '/') + "/"
  }

  /** A Java package name never contains `/`, so its package path gives the name back. */
  lemma PackagePathRecoversPackage(name: string)
    requires '/' !in name
    ensures ReplaceChar(PackagePath(Some(name))[..|name|], '/', '.') == name
  {
    var r := ReplaceChar(PackagePath(Some(name))[..|name|], '/', '.');
    forall i | 0 <= i < |name| ensures r[i] == name[i] {
      assert PackagePath(Some(name))[i] == (if name[i] == '.' then '/' else name[i]);
    }
  }

  predicate StartsWithSlash(s: string) {
    |s| > 0 && s[0] == '/'
  }

  /** Removes exactly one leading `/`, if there is one (Java's `s.startsWith("/") ? s.substring(1) : s`). */
  function StripLeadingSlash(s: string): (r: string)
    ensures s == (if StartsWithSlash(s) then "/" else "") + r
  {
    if StartsWithSlash(s) then s[1..] else s
  }

  /**
   * The package-relative path used by the Jakarta `ViewTemplate` and by the older
   * `DefaultTemplateResolver` when templates are not absolute: the package path followed by the name
   * with one leading `/` removed. A leading `/` never bypasses the package path.
   */
  function PackageRelativePath(name: string, pkg: Option<string>): (r: string)
    ensures |PackagePath(pkg)| <= |r| && r[..|PackagePath(pkg)|] == PackagePath(pkg)
    ensures name == (if StartsWithSlash(name) then "/" else "") + r[|PackagePath(pkg)|..]
  {
    PackagePath(pkg) + StripLeadingSlash(name)
  }

  /**
   * How `resourcePath` combines a resource name with a path prefix: a name starting with `/` is
   * absolute and taken as it is, any other name gets the prefix prepended.
   */
  function AgainstPrefix(prefix: string, resource: string): string {
    if StartsWithSlash(resource) then resource else prefix + resource
  }

  // ---------------------------------------------------------------------------------------------
  // Splitting a path into components
  // ---------------------------------------------------------------------------------------------

  /** Joins components with the separator between each two of them. */
  function Join(parts: seq<string>, sep: char): string {
    if |parts| == 0 then ""
    else if |parts| == 1 then parts[0]
    else parts[0] + [sep] + Join(parts[1..], sep)
  }

  /**
   * Every component between two separators, empty ones included: the pieces contain no separator
   * and joining them back gives the string.
   */
  function Split(s: string, sep: char): (parts: seq<string>)
    ensures |parts| >= 1
    ensures forall i :: 0 <= i < |parts| ==> sep !in parts[i]
    ensures Join(parts, sep) == s
  {
    if s == [] then [""]
    else
      var rest := Split(s[1..], sep);
      if s[0] == sep then
        assert Join([""] + rest, sep) == "" + [sep] + Join(rest, sep);
        [""] + rest
      else
        var first := [s[0]] + rest[0];
        assert ([first] + rest[1..])[1..] == rest[1..];
        assert sep !in first;
        assert Join([first] + rest[1..], sep) == s by {
          if |rest| > 1 {
            calc {
              Join([first] + rest[1..], sep);
              first + [sep] + Join(rest[1..], sep);
              [s[0]] + (rest[0] + [sep] + Join(rest[1..], sep));
              [s[0]] + Join(rest, sep);
            }
          }
        }
        [first] + rest[1..]
  }

  /** Splitting is the inverse of joining separator-free components. */
  lemma {:induction false} SplitJoin(parts: seq<string>, sep: char)
    requires |parts| >= 1
    requires forall i :: 0 <= i < |parts| ==> sep !in parts[i]
    ensures Split(Join(parts, sep), sep) == parts
  {
    if |parts| == 1 {
      SplitNoSeparator(parts[0], sep);
    } else {
      SplitJoin(parts[1..], sep);
      SplitPrefix(parts[0], Join(parts[1..], sep), sep);
    }
  }

  /** A string without the separator is a single component. */
  lemma {:induction false} SplitNoSeparator(s: string, sep: char)
    requires sep !in s
    ensures Split(s, sep) == [s]
  {
    if s != [] {
      SplitNoSeparator(s[1..], sep);
    }
  }

  /** Splitting `w + sep + t`, where `w` has no separator, puts `w` in front of the split of `t`. */
  lemma {:induction false} SplitPrefix(w: string, t: string, sep: char)
    requires sep !in w
    ensures Split(w + [sep] + t, sep) == [w] + Split(t, sep)
  {
    if w == [] {
      assert w + [sep] + t == [sep] + t;
      assert ([sep] + t)[1..] == t;
    } else {
      assert (w + [sep] + t)[1..] == w[1..] + [sep] + t;
      SplitPrefix(w[1..], t, sep);
      assert [w[0]] + w[1..] == w;
    }
  }

  /** Every component is at most as long as the joined string. */
  lemma {:induction false} JoinLength(parts: seq<string>, i: nat, sep: char)
    requires i < |parts|
    ensures |parts[i]| <= |Join(parts, sep)|
  {
    if i > 0 {
      JoinLength(parts[1..], i - 1, sep);
    }
  }

  /** Joining two non-empty lists is joining each and putting a separator between them. */
  lemma {:induction false} JoinAppend(a: seq<string>, b: seq<string>, sep: char)
    requires |a| >= 1 && |b| >= 1
    ensures Join(a + b, sep) == Join(a, sep) + [sep] + Join(b, sep)
  {
    if |a| > 1 {
      JoinAppend(a[1..], b, sep);
      assert (a + b)[1..] == a[1..] + b;
    } else {
      assert (a + b)[1..] == b;
    }
  }

  /** A character in neither the components nor the separator is not in their join. */
  lemma {:induction false} JoinAvoids(parts: seq<string>, sep: char, c: char)
    requires c != sep && forall i :: 0 <= i < |parts| ==> c !in parts[i]
    ensures c !in Join(parts, sep)
  {
    if |parts| > 1 {
      JoinAvoids(parts[1..], sep, c);
    }
  }

  /** Replacing one separator by another in a join of components that contain neither. */
  lemma {:induction false} ReplaceSeparator(parts: seq<string>, from: char, to: char)
    requires forall i :: 0 <= i < |parts| ==> from !in parts[i] && to !in parts[i]
    ensures ReplaceChar(Join(parts, from), from, to) == Join(parts, to)
  {
    if |parts| == 1 {
      assert ReplaceChar(parts[0], from, to) == parts[0];
    } else if |parts| > 1 {
      ReplaceSeparator(parts[1..], from, to);
      var tail := Join(parts[1..], from);
      assert Join(parts, from) == parts[0] + [from] + tail;
      assert ReplaceChar(Join(parts, from), from, to) == parts[0] + [to] + ReplaceChar(tail, from, to);
    }
  }

  /** The longest prefix of `parts` that does not end in an empty component. */
  function DropTrailingEmpty(parts: seq<string>): (r: seq<string>)
    ensures r <= parts
    ensures r == [] || r[|r| - 1] != ""
    ensures forall i :: |r| <= i < |parts| ==> parts[i] == ""
  {
    if parts == [] || parts[|parts| - 1] != "" then parts
    else DropTrailingEmpty(parts[..|parts| - 1])
  }

  /**
   * Java's `String.split` with a one-character separator: a string without the separator gives
   * itself as the only element; otherwise every component, with the trailing empty ones removed.
   */
  function JavaSplit(s: string, sep: char): (r: seq<string>)
    ensures sep !in s ==> r == [s]
    ensures sep in s ==> r <= Split(s, sep)
    ensures sep in s ==> forall i :: |r| <= i < |Split(s, sep)| ==> Split(s, sep)[i] == ""
    ensures sep in s ==> r == [] || r[|r| - 1] != ""
    ensures forall i :: 0 <= i < |r| ==> sep !in r[i]
  {
    if sep !in s then [s] else DropTrailingEmpty(Split(s, sep))
  }

  // ---------------------------------------------------------------------------------------------
  // The depth walk
  // ---------------------------------------------------------------------------------------------

  /** Number of `..` components. */
  function Parents(cs: seq<string>): nat {
    if cs == [] then 0 else Parents(cs[..|cs| - 1]) + (if cs[|cs| - 1] == ".." then 1 else 0)
  }

  /** Number of non-empty components other than `..` (so `.` counts as a name). */
  function Names(cs: seq<string>): nat {
    if cs == [] then 0
    else Names(cs[..|cs| - 1]) + (if cs[|cs| - 1] != "" && cs[|cs| - 1] != ".." then 1 else 0)
  }

  /** How deep below the template base a walk over `cs` ends. */
  function Depth(cs: seq<string>): int {
    Names(cs) - Parents(cs)
  }

  /** No prefix of the components climbs above the start: never more `..` than names so far. */
  ghost predicate StaysWithin(cs: seq<string>) {
    forall k :: 0 <= k <= |cs| ==> Parents(cs[..k]) <= Names(cs[..k])
  }

  /** The normalisation that makes `\` a separator just like `/`. */
  function Normalize(path: string): string {
    ReplaceChar(path, '\\', '/')
  }

  /**
   * The accept/reject rule of `checkPathWithinBounds`: a path shorter than two characters is
   * accepted; any other path is accepted iff no prefix of its components (with `\` read as `/`)
   * has more `..` components than other non-empty ones.
   */
  ghost predicate WithinBounds(path: string) {
    |path| < 2 || StaysWithin(Split(Normalize(path), '/'))
  }

  /**
   * `checkPathWithinBounds`: paths shorter than two characters pass at once; any other path is
   * normalised, split and walked, and fails as soon as the walk climbs above the start.
   */
  method CheckPathWithinBounds(resourcePath: string) returns (r: Outcome<Failure>)
    ensures r.Pass? <==> WithinBounds(resourcePath)
    ensures r.Fail? ==> r.error == OutsideTemplateBase(resourcePath)
  {
    if |resourcePath| < 2 {
      return Pass;
    }
    var normalizedPath := Normalize(resourcePath);
    var components := JavaSplit(normalizedPath, '/');
    JavaSplitSameVerdict(normalizedPath);
    var ok := WalkComponents(components);
    if !ok {
      return Fail(OutsideTemplateBase(resourcePath));
    }
    return Pass;
  }

  /**
   * The loop of `checkPathWithinBounds`: a depth counter that ignores empty components, goes down
   * on `..` and up on anything else, stopping with `false` as soon as it drops below zero.
   */
  method WalkComponents(components: seq<string>) returns (ok: bool)
    ensures ok <==> StaysWithin(components)
  {
    var depth := 0;
    var i := 0;
    while i < |components|
      invariant 0 <= i <= |components|
      invariant depth == Depth(components[..i]) && depth >= 0
      invariant PrefixesStayWithin(components, i)
    {
      var component := components[i];
      PrefixCounts(components, i);
      if |component| > 0 {
        if component == ".." {
          depth := depth - 1;
          if depth < 0 {
            EscapeAt(components, i + 1);
            return false;
          }
        } else {
          depth := depth + 1;
        }
      }
      PrefixesStep(components, i);
      i := i + 1;
    }
    return true;
  }

  /** The first `i + 1` prefixes of the components stay within. */
  ghost predicate PrefixesStayWithin(cs: seq<string>, i: nat)
    requires i <= |cs|
  {
    forall k :: 0 <= k <= i ==> Parents(cs[..k]) <= Names(cs[..k])
  }

  lemma PrefixesStep(cs: seq<string>, i: nat)
    requires i < |cs| && PrefixesStayWithin(cs, i) && Parents(cs[..i + 1]) <= Names(cs[..i + 1])
    ensures PrefixesStayWithin(cs, i + 1)
  {
  }

  lemma EscapeAt(cs: seq<string>, k: nat)
    requires k <= |cs| && Parents(cs[..k]) > Names(cs[..k])
    ensures !StaysWithin(cs)
  {
  }

  // ---------------------------------------------------------------------------------------------
  // Properties of the rule
  // ---------------------------------------------------------------------------------------------

  /** One more component moves each count by at most one, as the walk's counter does. */
  lemma PrefixCounts(cs: seq<string>, i: nat)
    requires i < |cs|
    ensures Parents(cs[..i + 1]) == Parents(cs[..i]) + (if cs[i] == ".." then 1 else 0)
    ensures Names(cs[..i + 1]) == Names(cs[..i]) + (if cs[i] != "" && cs[i] != ".." then 1 else 0)
  {
    assert cs[..i + 1][..i] == cs[..i];
  }

  /** The rule read one component at a time: a longer list stays within iff its shorter one does and the new prefix does. */
  lemma StaysWithinSnoc(cs: seq<string>, c: string)
    ensures StaysWithin(cs + [c]) <==> StaysWithin(cs) && Parents(cs + [c]) <= Names(cs + [c])
  {
    forall k | 0 <= k <= |cs| ensures (cs + [c])[..k] == cs[..k] { }
    assert (cs + [c])[..|cs| + 1] == cs + [c];
  }

  /** Components without any `..` never climb. */
  lemma {:induction false} NoParentsStaysWithin(cs: seq<string>)
    requires ".." !in cs
    ensures StaysWithin(cs)
  {
    if cs != [] {
      var init := cs[..|cs| - 1];
      assert cs == init + [cs[|cs| - 1]];
      NoParentsStaysWithin(init);
      StaysWithinSnoc(init, cs[|cs| - 1]);
      NoParentsCount(cs);
    }
  }

  lemma {:induction false} NoParentsCount(cs: seq<string>)
    requires ".." !in cs
    ensures Parents(cs) == 0
  {
    if cs != [] {
      assert ".." !in cs[..|cs| - 1];
      NoParentsCount(cs[..|cs| - 1]);
    }
  }

  /** Components that are all names count one name each. */
  lemma {:induction false} AllNamesCount(cs: seq<string>)
    requires forall i :: 0 <= i < |cs| ==> cs[i] != "" && cs[i] != ".."
    ensures Names(cs) == |cs|
  {
    if cs != [] {
      AllNamesCount(cs[..|cs| - 1]);
    }
  }

  /** Appending an empty component changes neither count. */
  lemma EmptyComponentIsNeutral(cs: seq<string>)
    ensures Parents(cs + [""]) == Parents(cs) && Names(cs + [""]) == Names(cs)
  {
    assert (cs + [""])[..|cs|] == cs;
  }

  /** Dropping trailing empty components does not change the verdict of the walk. */
  lemma {:induction false} DropTrailingEmptySameVerdict(parts: seq<string>)
    ensures StaysWithin(DropTrailingEmpty(parts)) <==> StaysWithin(parts)
  {
    if parts == [] || parts[|parts| - 1] != "" {
    } else {
      var init := parts[..|parts| - 1];
      DropTrailingEmptySameVerdict(init);
      assert parts == init + [""];
      EmptyComponentIsNeutral(init);
      StaysWithinSnoc(init, "");
      assert StaysWithin(init) ==> Parents(init[..|init|]) <= Names(init[..|init|]);
      assert init[..|init|] == init;
    }
  }

  /** Walking Java's split gives the same verdict as walking every component. */
  lemma JavaSplitSameVerdict(s: string)
    ensures StaysWithin(JavaSplit(s, '/')) <==> StaysWithin(Split(s, '/'))
  {
    if '/' !in s {
      SplitNoSeparator(s, '/');
    } else {
      DropTrailingEmptySameVerdict(Split(s, '/'));
    }
  }

  /**
   * The shortcut for paths shorter than two characters does not change the verdict: such a path
   * cannot contain a `..` component.
   */
  lemma ShortPathsStayWithin(path: string)
    requires |path| < 2
    ensures StaysWithin(Split(Normalize(path), '/'))
  {
    var cs := Split(Normalize(path), '/');
    forall i | 0 <= i < |cs| ensures cs[i] != ".." {
      JoinLength(cs, i, '/');
    }
    NoParentsStaysWithin(cs);
  }

  /** A backslash is treated exactly like a slash: normalising first never changes the verdict. */
  lemma BackslashIsSeparator(path: string)
    ensures WithinBounds(Normalize(path)) <==> WithinBounds(path)
  {
    assert Normalize(Normalize(path)) == Normalize(path);
  }

  /** Once some prefix climbs above the base, no later components can rescue the path. */
  lemma {:induction false} EscapeIsFinal(cs: seq<string>, more: seq<string>)
    requires !StaysWithin(cs)
    ensures !StaysWithin(cs + more)
  {
    var k :| 0 <= k <= |cs| && Parents(cs[..k]) > Names(cs[..k]);
    assert (cs + more)[..k] == cs[..k];
  }

  /** The components of a concrete path without backslashes, read off a join that builds it. */
  lemma ComponentsOf(path: string, parts: seq<string>)
    requires '\\' !in path
    requires |parts| >= 1 && forall i :: 0 <= i < |parts| ==> '/' !in parts[i]
    requires path == Join(parts, '/')
    ensures Split(Normalize(path), '/') == parts
  {
    assert Normalize(path) == path;
    SplitJoin(parts, '/');
  }

  /**
   * The components of a relative name resolved under a view package: the package's names followed
   * by the name's own components.
   */
  lemma PackageRelativeComponents(pkgNames: seq<string>, rel: seq<string>)
    requires |pkgNames| >= 1 && |rel| >= 1 && rel[0] != ""
    requires forall i :: 0 <= i < |pkgNames| ==>
      '.' !in pkgNames[i] && '/' !in pkgNames[i] && '\\' !in pkgNames[i]
    requires forall i :: 0 <= i < |rel| ==> '/' !in rel[i] && '\\' !in rel[i]
    ensures var path := AgainstPrefix(PackagePath(Some(Join(pkgNames, '.'))), Join(rel, '/'));
      Split(Normalize(path), '/') == pkgNames + rel
  {
    PackagePrefixJoin(pkgNames, rel);
    JoinAvoids(pkgNames + rel, '/', '\\');
    ComponentsOf(Join(pkgNames + rel, '/'), pkgNames + rel);
  }

  /** Against the package's directory, a relative name is the join of the package's names and its own. */
  lemma PackagePrefixJoin(pkgNames: seq<string>, rel: seq<string>)
    requires |pkgNames| >= 1 && |rel| >= 1 && rel[0] != ""
    requires forall i :: 0 <= i < |pkgNames| ==> '.' !in pkgNames[i] && '/' !in pkgNames[i]
    requires '/' !in rel[0]
    ensures AgainstPrefix(PackagePath(Some(Join(pkgNames, '.'))), Join(rel, '/')) == Join(pkgNames + rel, '/')
  {
    ReplaceSeparator(pkgNames, '.', '/');
    var prefix := PackagePath(Some(Join(pkgNames, '.')));
    assert prefix == ReplaceChar(Join(pkgNames, '.'), '.', '/') + "/";
    JoinFirst(rel, '/');
    assert !StartsWithSlash(Join(rel, '/'));
    JoinAppend(pkgNames, rel, '/');
  }

  /** A join starts with the first character of its first component, when it has one. */
  lemma JoinFirst(parts: seq<string>, sep: char)
    requires |parts| >= 1 && parts[0] != ""
    ensures |Join(parts, sep)| > 0 && Join(parts, sep)[0] == parts[0][0]
  {
    if |parts| > 1 {
      assert Join(parts, sep) == parts[0] + ([sep] + Join(parts[1..], sep));
    }
  }

  /** Five components joined, written out. */
  lemma JoinFive(a: string, b: string, c: string, d: string, e: string)
    ensures Join([a, b, c, d, e], '/') == a + "/" + (b + "/" + (c + "/" + (d + "/" + e)))
  {
    assert Join([d, e], '/') == d + "/" + e;
    assert Join([c, d, e], '/') == c + "/" + Join([d, e], '/');
    assert Join([b, c, d, e], '/') == b + "/" + Join([c, d, e], '/');
    assert Join([a, b, c, d, e], '/') == a + "/" + Join([b, c, d, e], '/');
  }

  /** Six components joined, written out. */
  lemma JoinSix(a: string, b: string, c: string, d: string, e: string, f: string)
    ensures Join([a, b, c, d, e, f], '/') == a + "/" + (b + "/" + (c + "/" + (d + "/" + (e + "/" + f))))
  {
    JoinFive(b, c, d, e, f);
    assert Join([a, b, c, d, e, f], '/') == a + "/" + Join([b, c, d, e, f], '/');
  }

  /** Joining one more component in front puts it and a separator in front. */
  lemma JoinCons(p: string, rest: seq<string>, sep: char)
    requires |rest| >= 1
    ensures Join([p] + rest, sep) == p + [sep] + Join(rest, sep)
  {
    assert ([p] + rest)[1..] == rest;
  }

  /** A join of components none of which is `..` (and none holding a separator) is accepted. */
  lemma NoParentsAccepted(path: string, parts: seq<string>)
    requires '\\' !in path && path == Join(parts, '/')
    requires |parts| >= 1 && forall i :: 0 <= i < |parts| ==> '/' !in parts[i] && parts[i] != ".."
    ensures WithinBounds(path)
  {
    ComponentsOf(path, parts);
    NoParentsStaysWithin(parts);
  }

  /** `t.txt` is accepted. */
  lemma AcceptedPlainName()
    ensures WithinBounds("t.txt")
  {
    NoParentsAccepted("t.txt", ["t.txt"]);
  }

  /** `e/t.txt` is accepted. */
  lemma AcceptedSubdirectory()
    ensures WithinBounds("e/t.txt")
  {
    JoinCons("e", ["t.txt"], '/');
    NoParentsAccepted("e/t.txt", ["e", "t.txt"]);
  }

  /** `/t.txt` is accepted. */
  lemma AcceptedAbsolute()
    ensures WithinBounds("/t.txt")
  {
    JoinCons("", ["t.txt"], '/');
    NoParentsAccepted("/t.txt", ["", "t.txt"]);
  }

  /** Each `..` in `/a/../b/../t.txt` only undoes the name before it. */
  lemma ClimbingComponentsStayWithin()
    ensures StaysWithin(["", "a", "..", "b", "..", "t.txt"])
  {
    var c0, c1, c2, c3, c4 := [""], ["", "a"], ["", "a", ".."], ["", "a", "..", "b"], ["", "a", "..", "b", ".."];
    StaysWithinSnoc([], "");
    assert [] + [""] == c0;
    StaysWithinSnoc(c0, "a");
    assert c0 + ["a"] == c1;
    StaysWithinSnoc(c1, "..");
    assert c1 + [".."] == c2;
    StaysWithinSnoc(c2, "b");
    assert c2 + ["b"] == c3;
    StaysWithinSnoc(c3, "..");
    assert c3 + [".."] == c4;
    StaysWithinSnoc(c4, "t.txt");
    assert c4 + ["t.txt"] == ["", "a", "..", "b", "..", "t.txt"];
  }

  /** `/a/../b/../t.txt` is accepted. */
  lemma AcceptedClimbingExample()
    ensures WithinBounds("/a/../b/../t.txt")
  {
    ClimbingJoin();
    ComponentsOf("/a/../b/../t.txt", ["", "a", "..", "b", "..", "t.txt"]);
    ClimbingComponentsStayWithin();
  }

  lemma ClimbingJoin()
    ensures Join(["", "a", "..", "b", "..", "t.txt"], '/') == "/a/../b/../t.txt"
  {
    JoinSix("", "a", "..", "b", "..", "t.txt");
  }

  /** A `..` before any name escapes, whatever follows. */
  lemma LeadingParentEscapes(cs: seq<string>)
    requires |cs| >= 1 && cs[0] == ".."
    ensures !StaysWithin(cs)
  {
    assert cs[..1] == [".."];
    assert Parents(cs[..1]) > Names(cs[..1]);
  }

  /** `../t.txt` is rejected. */
  lemma RejectedParentExample()
    ensures !WithinBounds("../t.txt")
  {
    ComponentsOf("../t.txt", ["..", "t.txt"]);
    LeadingParentEscapes(["..", "t.txt"]);
  }

  /** After an empty leading component, `..` still escapes. */
  lemma RootParentComponentsEscape()
    ensures !StaysWithin(["", "..", "a", "t.txt"])
  {
    var cs := ["", "..", "a", "t.txt"];
    var p := ["", ".."];
    assert cs[..2] == p;
    assert p[..1] == [""];
    assert Parents(p) == 1 && Names(p) == 0;
  }

  /** `/../a/t.txt` is rejected. */
  lemma RejectedRootParentExample()
    ensures !WithinBounds("/../a/t.txt")
  {
    ComponentsOf("/../a/t.txt", ["", "..", "a", "t.txt"]);
    RootParentComponentsEscape();
  }

  // ---------------------------------------------------------------------------------------------
  // Climbing out of a directory
  // ---------------------------------------------------------------------------------------------

  /** `n` parent components in a row. */
  function Ups(n: nat): (r: seq<string>)
    ensures |r| == n && forall i :: 0 <= i < n ==> r[i] == ".."
  {
    if n == 0 then [] else Ups(n - 1) + [".."]
  }

  /** Both counts add up over concatenation. */
  lemma {:induction false} CountsAppend(cs: seq<string>, ds: seq<string>)
    ensures Parents(cs + ds) == Parents(cs) + Parents(ds)
    ensures Names(cs + ds) == Names(cs) + Names(ds)
  {
    if ds == [] {
      assert cs + ds == cs;
    } else {
      var init := ds[..|ds| - 1];
      CountsAppend(cs, init);
      assert (cs + ds)[..|cs + ds| - 1] == cs + init;
      assert (cs + ds)[|cs + ds| - 1] == ds[|ds| - 1];
    }
  }

  lemma {:induction false} UpsCounts(n: nat)
    ensures Parents(Ups(n)) == n && Names(Ups(n)) == 0
  {
    if n > 0 {
      UpsCounts(n - 1);
      assert Ups(n)[..n - 1] == Ups(n - 1);
    }
  }

  /** The counts after names followed by `j` parents. */
  lemma CountsAfterNames(ns: seq<string>, j: nat)
    requires ".." !in ns
    ensures Parents(ns + Ups(j)) == j && Names(ns + Ups(j)) == Names(ns)
  {
    NoParentsCount(ns);
    CountsAppend(ns, Ups(j));
    UpsCounts(j);
  }

  /** A prefix that ends among the leading names. */
  lemma ClimbPrefixInNames(ns: seq<string>, n: nat, rest: seq<string>, k: nat)
    requires ".." !in ns && k <= |ns|
    ensures var cs := ns + Ups(n) + rest; cs[..k] == ns[..k] && Parents(cs[..k]) == 0
  {
    var cs := ns + Ups(n) + rest;
    assert cs[..k] == ns[..k];
    assert forall i :: 0 <= i < k ==> ns[..k][i] == ns[i];
    NoParentsCount(ns[..k]);
  }

  /** A prefix that ends inside the run of parents. */
  lemma ClimbPrefixInRun(ns: seq<string>, n: nat, rest: seq<string>, k: nat)
    requires |ns| <= k <= |ns| + n
    ensures (ns + Ups(n) + rest)[..k] == ns + Ups(k - |ns|)
  {
    assert Ups(n)[..k - |ns|] == Ups(k - |ns|);
  }

  /** A prefix that ends inside `rest`. */
  lemma ClimbPrefixInRest(ns: seq<string>, n: nat, rest: seq<string>, j: nat)
    requires ".." !in ns && ".." !in rest && j <= |rest|
    ensures Parents((ns + Ups(n)) + rest[..j]) == n
    ensures Names((ns + Ups(n)) + rest[..j]) >= Names(ns)
  {
    assert ".." !in rest[..j];
    NoParentsCount(rest[..j]);
    CountsAppend(ns + Ups(n), rest[..j]);
    CountsAfterNames(ns, n);
  }

  /** One prefix of `ns + Ups(n) + rest` when `n` is at most the names in `ns`. */
  lemma ClimbPrefixWithin(ns: seq<string>, n: nat, rest: seq<string>, k: nat)
    requires ".." !in ns && ".." !in rest
    requires n <= Names(ns) && k <= |ns| + n + |rest|
    ensures var cs := ns + Ups(n) + rest; Parents(cs[..k]) <= Names(cs[..k])
  {
    if k <= |ns| {
      ClimbPrefixInNames(ns, n, rest, k);
    } else if k <= |ns| + n {
      ClimbRunPrefixWithin(ns, n, rest, k);
    } else {
      ClimbRestPrefixWithin(ns, n, rest, k);
    }
  }

  lemma ClimbRunPrefixWithin(ns: seq<string>, n: nat, rest: seq<string>, k: nat)
    requires ".." !in ns && n <= Names(ns) && |ns| <= k <= |ns| + n
    ensures var cs := ns + Ups(n) + rest; Parents(cs[..k]) <= Names(cs[..k])
  {
    ClimbPrefixInRun(ns, n, rest, k);
    CountsOfRun((ns + Ups(n) + rest)[..k], ns, k - |ns|);
  }

  lemma CountsOfRun(p: seq<string>, ns: seq<string>, j: nat)
    requires ".." !in ns && p == ns + Ups(j)
    ensures Parents(p) == j && Names(p) == Names(ns)
  {
    CountsAfterNames(ns, j);
  }

  lemma ClimbRestPrefixWithin(ns: seq<string>, n: nat, rest: seq<string>, k: nat)
    requires ".." !in ns && ".." !in rest
    requires n <= Names(ns) && |ns| + n < k <= |ns| + n + |rest|
    ensures var cs := ns + Ups(n) + rest; Parents(cs[..k]) <= Names(cs[..k])
  {
    var cs := ns + Ups(n) + rest;
    assert cs[..k] == (ns + Ups(n)) + rest[..k - |ns| - n];
    ClimbPrefixInRest(ns, n, rest, k - |ns| - n);
  }

  /**
   * After components without `..`, a run of `n` parent components followed by anything without `..`
   * stays within the base exactly when `n` is at most the number of names before it.
   */
  lemma ClimbAfterNames(ns: seq<string>, n: nat, rest: seq<string>)
    requires ".." !in ns && ".." !in rest
    ensures StaysWithin(ns + Ups(n) + rest) <==> n <= Names(ns)
  {
    if n <= Names(ns) {
      ClimbWithinNames(ns, n, rest);
    } else {
      ClimbAboveNames(ns, n, rest);
    }
  }

  lemma ClimbWithinNames(ns: seq<string>, n: nat, rest: seq<string>)
    requires ".." !in ns && ".." !in rest && n <= Names(ns)
    ensures StaysWithin(ns + Ups(n) + rest)
  {
    var cs := ns + Ups(n) + rest;
    forall k | 0 <= k <= |cs| ensures Parents(cs[..k]) <= Names(cs[..k]) {
      ClimbPrefixWithin(ns, n, rest, k);
    }
  }

  lemma ClimbAboveNames(ns: seq<string>, n: nat, rest: seq<string>)
    requires ".." !in ns && n > Names(ns)
    ensures !StaysWithin(ns + Ups(n) + rest)
  {
    var cs := ns + Ups(n) + rest;
    var m := Names(ns) + 1;
    var k := |ns| + m;
    ClimbPrefixInRun(ns, n, rest, k);
    assert cs[..k] == ns + Ups(m);
    CountsAfterNames(ns, m);
    assert Parents(cs[..k]) > Names(cs[..k]);
    EscapeAt(cs, k);
  }

  /** `a/../../x.txt` climbs one level above the base and is rejected. */
  lemma ClimbAboveOnePackageRejected()
    ensures !WithinBounds("a/../../x.txt")
  {
    ClimbAboveOnePackageJoin();
    ComponentsOf("a/../../x.txt", ["a", "..", "..", "x.txt"]);
    ClimbAboveOnePackageComponents();
  }

  lemma ClimbAboveOnePackageJoin()
    ensures Join(["a", "..", "..", "x.txt"], '/') == "a/../../x.txt"
  {
  }

  lemma ClimbAboveOnePackageComponents()
    ensures !StaysWithin(["a", "..", "..", "x.txt"])
  {
    var cs := ["a", "..", "..", "x.txt"];
    assert cs == ["a"] + Ups(2) + ["x.txt"];
    ClimbAfterNames(["a"], 2, ["x.txt"]);
  }

  /** `../../x.txt` under the package `a`, with the package path prepended. */
  lemma ClimbAboveOnePackagePath(name: string, pkg: Option<string>)
    requires name == "../../x.txt" && pkg == Some("a")
    ensures PackageRelativePath(name, pkg) == "a/../../x.txt"
  {
    PackageAPath();
    RelativeToPackage(name, pkg, "a/");
    ClimbAboveOnePackageConcat();
  }

  lemma ClimbAboveOnePackageConcat()
    ensures "a/" + "../../x.txt" == "a/../../x.txt"
  {
  }

  lemma PackageAPath()
    ensures PackagePath(Some("a")) == "a/"
  {
    assert ReplaceChar("a", '.', '/') == "a";
  }

  /** A name without a leading `/` is appended to the package path as it is. */
  lemma RelativeToPackage(name: string, pkg: Option<string>, prefix: string)
    requires PackagePath(pkg) == prefix && !StartsWithSlash(name)
    ensures PackageRelativePath(name, pkg) == prefix + name
  {
  }
}
