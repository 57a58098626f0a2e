# bootique-mvc template resolution and template caches, in Dafny

This project models the part of bootique-mvc that maps a template name to a resource under the
template base, and the caches of compiled templates. It covers both the older `bootique-mvc` module
("Mvc" in the module names) and `bootique-mvc-jakarta` ("Jakarta"):

- `TemplatePaths` holds what the template kinds share:
  - the package path of a view type (`a.b.c` becomes `a/b/c/`);
  - the two ways a name is combined with a prefix: absolute when it starts with `/`, or one leading
    `/` stripped and the package path prepended;
  - Java's `String.split` and `String.replace`;
  - `checkPathWithinBounds`, a loop over the path components that keeps a depth counter.
    `CheckPathWithinBounds` is proved equal to `WithinBounds`: a path of two characters or more is
    accepted iff no prefix of its components (with `\` read as `/`) has more `..` components than
    other non-empty ones.
- `JakartaDefaultTemplate`: the Jakarta `DefaultTemplate`. It has a bounds-checked `resourcePath`, a
  memoised `getUrl()`, unmemoised `getUrl(String)`, `reader()` and `reader(String)`, and the
  `onFailedUrl` / `onFailedReader` recovery hooks.
- `MvcViewTemplate`: the older `ViewTemplate`. It has the same bounds check, no hooks, and a memoised
  URL. It also holds the jailbreak cases for a view in package `io.bootique.mvc.resolver`.
- `JakartaViewTemplate`: the Jakarta `ViewTemplate`. It always strips one leading `/` and has no
  bounds check.
- `JakartaDefaultTemplateResolver`: the Jakarta resolver. It keeps a map of templates filled with
  insert-if-absent, which is never replaced or removed. `DefaultTemplateResolver` keys the map as the
  source does; `UniqueKeyTemplateResolver` is the same resolver with a key that cannot collide (see
  Findings).
- `MvcDefaultTemplateResolver`: the older resolver. It has the absolute-location flag, creates a
  lazy template per call and has no bounds check.
- `RenderCache`, `MvcTtlCache`, `JakartaTtlCache`, `MvcNoCache`: the caches of compiled templates.
  - Each `TtlCache` entry is a state machine over `(expiresOn, value)`.
  - Lemmas bound how often the maker runs over a sequence of calls.
- `MvcRenderers`: `ByExtensionTemplateRenderers`, which dispatches on the extension from the last `.`
  of the name.

The model works on values and parameters in place of I/O:
- the template base (`FolderResourceFactory.getUrl`) is a function from path to an optional URL;
- opening a URL is a function from URL to an optional reader;
- the clock is a `now` argument;
- the outcome of `tryLock` is a boolean argument;
- the maker of compiled templates is a function from template to `Made<V>`: a value, `null`, or an
  exception;
- a view type is represented by the name of its package (`None` when it has no package).

Where the two disagree, the model follows the code. In the Jakarta `DefaultTemplate`, a bounds
violation raised by `resourcePath` is thrown inside the `try` of `getUrl(String)`
(bootique-mvc-jakarta/src/main/java/io/bootique/mvc/resolver/DefaultTemplate.java:79-84). So when an
`onFailedUrl` hook is set, the hook recovers from a bounds violation too (`JakartaDefaultTemplate.Locate`).
A bounds violation is therefore not always fatal there.

## Model

| member | source | states |
|---|---|---|
| TemplatePaths.ReplaceChar | bootique-mvc/src/main/java/io/bootique/mvc/resolver/ViewTemplate.java:107 | `String.replace(char, char)`: same length, every `from` becomes `to`, every other character is kept |
| TemplatePaths.PackagePath | bootique-mvc/src/main/java/io/bootique/mvc/resolver/ViewTemplate.java:53-54 | no package gives `""`; otherwise the package name with each `.` turned into `/`, one longer, ending in `/`, with no `.` left |
| TemplatePaths.PackagePathRecoversPackage | bootique-mvc/src/main/java/io/bootique/mvc/resolver/ViewTemplate.java:54 | the package path loses nothing: turning `/` back into `.` in it gives the package name |
| TemplatePaths.StripLeadingSlash | bootique-mvc-jakarta/src/main/java/io/bootique/mvc/resolver/ViewTemplate.java:80-81 | exactly one leading `/` is removed when there is one; putting it back gives the original name |
| TemplatePaths.PackageRelativePath | bootique-mvc-jakarta/src/main/java/io/bootique/mvc/resolver/ViewTemplate.java:76-86 | the result always starts with the package path, and the rest is the name minus at most one leading `/` |
| TemplatePaths.Split | bootique-mvc-jakarta/src/main/java/io/bootique/mvc/resolver/DefaultTemplate.java:172 | the full component list the bounds rule `WithinBounds` is stated on, empty components included: at least one component, none containing the separator, and joining them back gives the string |
| TemplatePaths.JavaSplit | bootique-mvc-jakarta/src/main/java/io/bootique/mvc/resolver/DefaultTemplate.java:172 | Java's `split("/")`: the string itself when it holds no separator; otherwise a prefix of `Split`'s components with only empty ones dropped and no empty one last; no element contains the separator |
| TemplatePaths.SplitJoin | bootique-mvc-jakarta/src/main/java/io/bootique/mvc/resolver/DefaultTemplate.java:172 | `Split`, the full component list `WithinBounds` is stated on, is the inverse of joining components that contain no separator |
| TemplatePaths.SplitNoSeparator | bootique-mvc-jakarta/src/main/java/io/bootique/mvc/resolver/DefaultTemplate.java:172 | under `Split`, a string without the separator is its own only component |
| TemplatePaths.SplitPrefix | bootique-mvc-jakarta/src/main/java/io/bootique/mvc/resolver/DefaultTemplate.java:172 | under `Split`, the components of `w/t` are the separator-free `w` followed by those of `t` |
| TemplatePaths.JoinAppend | bootique-mvc-jakarta/src/main/java/io/bootique/mvc/resolver/DefaultTemplate.java:172 | joining two lists is joining each with one separator between them |
| TemplatePaths.ReplaceSeparator | bootique-mvc-jakarta/src/main/java/io/bootique/mvc/resolver/DefaultTemplateResolver.java:55 | replacing `.` by `/` in a dotted package name is joining its names with `/` |
| TemplatePaths.DropTrailingEmpty | bootique-mvc-jakarta/src/main/java/io/bootique/mvc/resolver/DefaultTemplate.java:172 | the result is a prefix of the input, does not end in an empty component, and only empty components were dropped |
| TemplatePaths.CheckPathWithinBounds | bootique-mvc-jakarta/src/main/java/io/bootique/mvc/resolver/DefaultTemplate.java:161-186 | passes iff `WithinBounds(path)`: shorter than two characters, or no prefix of the components has more `..` than names; a failure names the checked path |
| TemplatePaths.WalkComponents | bootique-mvc-jakarta/src/main/java/io/bootique/mvc/resolver/DefaultTemplate.java:167-185 | the depth loop returns `true` iff every prefix of the components has no more `..` than non-empty other components |
| TemplatePaths.PrefixCounts | bootique-mvc-jakarta/src/main/java/io/bootique/mvc/resolver/DefaultTemplate.java:173-183 | one more component adds one `..` or one name, and an empty component adds neither, as the loop's counter moves |
| TemplatePaths.StaysWithinSnoc | bootique-mvc-jakarta/src/main/java/io/bootique/mvc/resolver/DefaultTemplate.java:172-185 | a longer list of components stays within iff the shorter one does and the whole list has no more `..` than names |
| TemplatePaths.NoParentsStaysWithin | bootique-mvc-jakarta/src/main/java/io/bootique/mvc/resolver/DefaultTemplate.java:174-183 | components without any `..` are always accepted |
| TemplatePaths.EmptyComponentIsNeutral | bootique-mvc-jakarta/src/main/java/io/bootique/mvc/resolver/DefaultTemplate.java:173 | an empty component changes neither count |
| TemplatePaths.DropTrailingEmptySameVerdict | bootique-mvc-jakarta/src/main/java/io/bootique/mvc/resolver/DefaultTemplate.java:172 | dropping trailing empty components, as `split` does, never changes the verdict |
| TemplatePaths.JavaSplitSameVerdict | bootique-mvc-jakarta/src/main/java/io/bootique/mvc/resolver/DefaultTemplate.java:172 | walking Java's `split("/")` gives the same verdict as walking every component |
| TemplatePaths.ShortPathsStayWithin | bootique-mvc-jakarta/src/main/java/io/bootique/mvc/resolver/DefaultTemplate.java:163-165 | the early return for paths shorter than two characters agrees with the walk: such a path has no `..` component |
| TemplatePaths.BackslashIsSeparator | bootique-mvc-jakarta/src/main/java/io/bootique/mvc/resolver/DefaultTemplate.java:170 | replacing `\` by `/` first never changes the verdict |
| TemplatePaths.EscapeIsFinal | bootique-mvc-jakarta/src/main/java/io/bootique/mvc/resolver/DefaultTemplate.java:177-179 | once a prefix climbs above the base, no later components rescue the path |
| TemplatePaths.LeadingParentEscapes | bootique-mvc-jakarta/src/main/java/io/bootique/mvc/resolver/DefaultTemplate.java:174-179 | a `..` before any name is rejected, whatever follows |
| TemplatePaths.ClimbAfterNames | bootique-mvc-jakarta/src/main/java/io/bootique/mvc/resolver/DefaultTemplate.java:167-185 | names, then `n` parents, then names: accepted iff `n` is at most the number of names before the parents |
| TemplatePaths.CountsAppend | bootique-mvc-jakarta/src/main/java/io/bootique/mvc/resolver/DefaultTemplate.java:172-185 | both counts add up over concatenation of component lists |
| TemplatePaths.PackageRelativeComponents | bootique-mvc-jakarta/src/main/java/io/bootique/mvc/resolver/DefaultTemplate.java:153-155 | a relative name under a package splits into the package's names followed by the name's own components |
| TemplatePaths.AcceptedPlainName | bootique-mvc-jakarta/src/test/java/io/bootique/mvc/resolver/DefaultTemplateTest.java:39 | `t.txt` is accepted |
| TemplatePaths.AcceptedSubdirectory | bootique-mvc-jakarta/src/test/java/io/bootique/mvc/resolver/DefaultTemplateTest.java:40 | `e/t.txt` is accepted |
| TemplatePaths.AcceptedAbsolute | bootique-mvc-jakarta/src/test/java/io/bootique/mvc/resolver/DefaultTemplateTest.java:41 | `/t.txt` is accepted |
| TemplatePaths.AcceptedClimbingExample | bootique-mvc-jakarta/src/test/java/io/bootique/mvc/resolver/DefaultTemplateTest.java:42 | `/a/../b/../t.txt` is accepted |
| TemplatePaths.RejectedParentExample | bootique-mvc-jakarta/src/test/java/io/bootique/mvc/resolver/DefaultTemplateTest.java:44 | `../t.txt` is rejected |
| TemplatePaths.RejectedRootParentExample | bootique-mvc-jakarta/src/test/java/io/bootique/mvc/resolver/DefaultTemplateTest.java:45 | `/../a/t.txt` is rejected |
| TemplatePaths.ClimbAboveOnePackageRejected | bootique-mvc-jakarta/src/main/java/io/bootique/mvc/resolver/DefaultTemplate.java:161-186 | `a/../../x.txt` is rejected |
| JakartaDefaultTemplate.OnFailedUrl | bootique-mvc-jakarta/src/main/java/io/bootique/mvc/resolver/DefaultTemplate.java:127-133 | with a hook, the hook's URL for the resource name; without one, a resolution error naming the resource and its cause |
| JakartaDefaultTemplate.OnFailedReader | bootique-mvc-jakarta/src/main/java/io/bootique/mvc/resolver/DefaultTemplate.java:140-146 | with a hook, the hook's reader for the URL; without one, an open error naming the URL |
| JakartaDefaultTemplate.Locate | bootique-mvc-jakarta/src/main/java/io/bootique/mvc/resolver/DefaultTemplate.java:74-85 | the base's URL when the path is within bounds and found; a bounds violation goes to `onFailedUrl`; with a hook the lookup never fails, and without one it succeeds iff in bounds and found |
| JakartaDefaultTemplate.OpenOrRecover | bootique-mvc-jakarta/src/main/java/io/bootique/mvc/resolver/DefaultTemplate.java:93-97 | the opened reader, or what `onFailedReader` makes of a failure; succeeds iff opening works or a hook is set |
| JakartaDefaultTemplate.ReadThrough | bootique-mvc-jakarta/src/main/java/io/bootique/mvc/resolver/DefaultTemplate.java:88-110 | a failed URL lookup propagates unchanged and never reaches `onFailedReader`; a found URL is opened or recovered |
| JakartaDefaultTemplate.DefaultTemplate.constructor | bootique-mvc-jakarta/src/main/java/io/bootique/mvc/resolver/DefaultTemplate.java:47-61 | stores every argument; no URL is memoised yet |
| JakartaDefaultTemplate.DefaultTemplate.GetUrl | bootique-mvc-jakarta/src/main/java/io/bootique/mvc/resolver/DefaultTemplate.java:63-72 | a memoised URL is returned without a new lookup; otherwise the lookup of the name, and its URL is stored only when it succeeds |
| JakartaDefaultTemplate.DefaultTemplate.GetUrlOf | bootique-mvc-jakarta/src/main/java/io/bootique/mvc/resolver/DefaultTemplate.java:74-85 | looks the sibling up afresh every time, exactly as `Locate`, and changes nothing |
| JakartaDefaultTemplate.DefaultTemplate.Reader | bootique-mvc-jakarta/src/main/java/io/bootique/mvc/resolver/DefaultTemplate.java:87-98 | opens the memoised URL, or looks it up first; routing of failures as in `ReadThrough` |
| JakartaDefaultTemplate.DefaultTemplate.ReaderOf | bootique-mvc-jakarta/src/main/java/io/bootique/mvc/resolver/DefaultTemplate.java:100-110 | the sibling's URL looked up and opened, with the same failure routing |
| JakartaDefaultTemplate.DefaultTemplate.ResourcePath | bootique-mvc-jakarta/src/main/java/io/bootique/mvc/resolver/DefaultTemplate.java:148-159 | succeeds iff the combined path is within bounds; the name unchanged when it starts with `/`, otherwise the path prefix plus the name |
| JakartaDefaultTemplate.HooksMakeReadingTotal | bootique-mvc-jakarta/src/main/java/io/bootique/mvc/resolver/DefaultTemplate.java:79-109 | with both hooks set, reading a sibling never fails, bounds violations included |
| JakartaDefaultTemplate.NoHooksReadingFails | bootique-mvc-jakarta/src/main/java/io/bootique/mvc/resolver/DefaultTemplate.java:79-109 | without hooks, reading a sibling succeeds iff its path is within bounds, found and opened |
| MvcViewTemplate.Locate | bootique-mvc/src/main/java/io/bootique/mvc/resolver/ViewTemplate.java:69-73 | succeeds iff the path is within bounds and the base finds it; a bounds violation propagates as it is |
| MvcViewTemplate.ViewTemplate.constructor | bootique-mvc/src/main/java/io/bootique/mvc/resolver/ViewTemplate.java:43-55 | stores the arguments and derives the package path once |
| MvcViewTemplate.ViewTemplate.GetUrl | bootique-mvc/src/main/java/io/bootique/mvc/resolver/ViewTemplate.java:57-67 | a memoised URL is returned without a new lookup; otherwise the checked lookup, stored only when it succeeds |
| MvcViewTemplate.ViewTemplate.GetUrlOf | bootique-mvc/src/main/java/io/bootique/mvc/resolver/ViewTemplate.java:69-73 | looks the sibling up afresh every time, exactly as `Locate` |
| MvcViewTemplate.ViewTemplate.ResourcePath | bootique-mvc/src/main/java/io/bootique/mvc/resolver/ViewTemplate.java:85-96 | succeeds iff the combined path is within bounds; the name unchanged when it starts with `/`, otherwise the package path plus the name |
| MvcViewTemplate.ClimbOutOfPackage | bootique-mvc/src/main/java/io/bootique/mvc/resolver/ViewTemplate.java:90-123 | `n` leading `..` then plain names under a package are accepted iff `n` is at most the package's depth |
| MvcViewTemplate.ResolverPackageIsFourDeep | bootique-mvc/src/test/java/io/bootique/mvc/resolver/DefaultTemplateResolver_JailbreakTest.java:76 | the test's package `io.bootique.mvc.resolver` has four plain names |
| MvcViewTemplate.OneLevelUpAccepted | bootique-mvc/src/test/java/io/bootique/mvc/resolver/DefaultTemplateResolver_JailbreakTest.java:39 | `../tName.txt` under a four-deep package is accepted |
| MvcViewTemplate.FourLevelsUpAccepted | bootique-mvc/src/test/java/io/bootique/mvc/resolver/DefaultTemplateResolver_JailbreakTest.java:40 | `../../../../tName.txt` under a four-deep package is accepted |
| MvcViewTemplate.TwoLevelsUpAccepted | bootique-mvc/src/test/java/io/bootique/mvc/resolver/DefaultTemplateResolver_JailbreakTest.java:41 | `../../x/tName.txt` under a four-deep package is accepted |
| MvcViewTemplate.AbsoluteClimbAccepted | bootique-mvc/src/test/java/io/bootique/mvc/resolver/DefaultTemplateResolver_JailbreakTest.java:48 | `/x/y/../tName.txt` is accepted under any package |
| MvcViewTemplate.FiveLevelsUpRejected | bootique-mvc/src/test/java/io/bootique/mvc/resolver/DefaultTemplateResolver_JailbreakTest.java:53 | `../../../../../tName.txt` under a four-deep package is rejected |
| MvcViewTemplate.AbsoluteEscapeRejected | bootique-mvc/src/test/java/io/bootique/mvc/resolver/DefaultTemplateResolver_JailbreakTest.java:58 | `/x/../../tName.txt` is rejected under any package |
| JakartaViewTemplate.Locate | bootique-mvc-jakarta/src/main/java/io/bootique/mvc/resolver/ViewTemplate.java:59-60 | succeeds iff the base finds the path, with the base's URL; no bounds check is involved |
| JakartaViewTemplate.ViewTemplate.constructor | bootique-mvc-jakarta/src/main/java/io/bootique/mvc/resolver/ViewTemplate.java:42-52 | stores the arguments; no URL is memoised yet |
| JakartaViewTemplate.ViewTemplate.GetUrl | bootique-mvc-jakarta/src/main/java/io/bootique/mvc/resolver/ViewTemplate.java:54-64 | a memoised URL is returned without a new lookup; otherwise the unchecked lookup of the relative path, stored only when it succeeds |
| JakartaViewTemplate.ViewTemplate.RelativeResourcePath | bootique-mvc-jakarta/src/main/java/io/bootique/mvc/resolver/ViewTemplate.java:76-86 | always starts with the package path, followed by the name minus at most one leading `/` |
| JakartaViewTemplate.LeadingSlashIsIgnored | bootique-mvc-jakarta/src/main/java/io/bootique/mvc/resolver/ViewTemplate.java:80-85 | `/name` and `name` resolve to the same path: a leading `/` never bypasses the package |
| JakartaViewTemplate.OnlyOneSlashIsStripped | bootique-mvc-jakarta/src/main/java/io/bootique/mvc/resolver/ViewTemplate.java:80-81 | of `//name` only one `/` is removed; the other stays right after the package path |
| JakartaViewTemplate.EscapingNameIsLookedUp | bootique-mvc-jakarta/src/main/java/io/bootique/mvc/resolver/ViewTemplate.java:54-64 | `../../x.txt` under package `a` is looked up at `a/../../x.txt`, a path the bounds check rejects |
| JakartaDefaultTemplateResolver.Key | bootique-mvc-jakarta/src/main/java/io/bootique/mvc/resolver/DefaultTemplateResolver.java:45-49 | the template name alone without a package; otherwise the package name immediately followed by the template name |
| JakartaDefaultTemplateResolver.KeyCollides | bootique-mvc-jakarta/src/main/java/io/bootique/mvc/resolver/DefaultTemplateResolver.java:47-49 | package `a.bc` with `t.txt` and package `a.b` with `ct.txt` share a key but have different paths |
| JakartaDefaultTemplateResolver.KeyCollidesWithoutPackage | bootique-mvc-jakarta/src/main/java/io/bootique/mvc/resolver/DefaultTemplateResolver.java:45-49 | template `abc` without a package and `bc` in package `a` share a key but have different paths |
| JakartaDefaultTemplateResolver.KeyPartsOfUniqueKey | bootique-mvc-jakarta/src/main/java/io/bootique/mvc/resolver/DefaultTemplateResolver.java:47-48 | the unique key can be read back into the package and template name it was made of |
| JakartaDefaultTemplateResolver.UniqueKeyInjective | bootique-mvc-jakarta/src/main/java/io/bootique/mvc/resolver/DefaultTemplateResolver.java:47-48 | different (package, template name) pairs get different unique keys, as the comment promises |
| JakartaDefaultTemplateResolver.DefaultTemplateResolver.constructor | bootique-mvc-jakarta/src/main/java/io/bootique/mvc/resolver/DefaultTemplateResolver.java:36-40 | stores the base and the encoding, with an empty map |
| JakartaDefaultTemplateResolver.DefaultTemplateResolver.Resolve | bootique-mvc-jakarta/src/main/java/io/bootique/mvc/resolver/DefaultTemplateResolver.java:42-52 | when the key `Key(pkg, name)` is cached, returns that template and leaves the map unchanged; otherwise creates a fresh template with the view's package path and the name and caches it under the key. Either way the template has the resolver's base and encoding, no hooks, and was made for some (package, name) pair with that key; every cached entry keeps this |
| JakartaDefaultTemplateResolver.DefaultTemplateResolver.CreateTemplate | bootique-mvc-jakarta/src/main/java/io/bootique/mvc/resolver/DefaultTemplateResolver.java:54-57 | a new template under the package path with the given name and the resolver's base and encoding |
| JakartaDefaultTemplateResolver.CollidingResolves | bootique-mvc-jakarta/src/main/java/io/bootique/mvc/resolver/DefaultTemplateResolver.java:42-52 | on a new resolver, `t.txt` for `a.bc` then `ct.txt` for `a.b` return the same template instance, the one at `a/bc/t.txt`, not the one at `a/b/ct.txt` |
| JakartaDefaultTemplateResolver.UniqueKeyTemplateResolver.constructor | bootique-mvc-jakarta/src/main/java/io/bootique/mvc/resolver/DefaultTemplateResolver.java:36-40 | stores the base and the encoding, with an empty map |
| JakartaDefaultTemplateResolver.UniqueKeyTemplateResolver.Resolve | bootique-mvc-jakarta/src/main/java/io/bootique/mvc/resolver/DefaultTemplateResolver.java:42-57 | the corrected resolve: cached template for `UniqueKey(pkg, name)` unchanged or a fresh one cached under it; the template returned always has the view's package path and the name asked for |
| JakartaDefaultTemplateResolver.SeparateResolves | bootique-mvc-jakarta/src/main/java/io/bootique/mvc/resolver/DefaultTemplateResolver.java:42-52 | with the unique key, `t.txt` for `a.bc` and `ct.txt` for `a.b` give different templates at `a/bc/` and `a/b/` |
| JakartaDefaultTemplateResolver.NewResolver | bootique-mvc-jakarta/src/main/java/io/bootique/mvc/resolver/DefaultTemplateResolver.java:36-40 | fails with "Null templateEncoding" iff the encoding is null; otherwise an empty resolver with the given base and encoding |
| MvcDefaultTemplateResolver.NewResolver | bootique-mvc/src/main/java/io/bootique/mvc/resolver/DefaultTemplateResolver.java:35-39 | fails with "Null templateEncoding" iff the encoding is null; otherwise keeps the base, the flag and the encoding |
| MvcDefaultTemplateResolver.Resolve | bootique-mvc/src/main/java/io/bootique/mvc/resolver/DefaultTemplateResolver.java:41-64 | a lazy template whose name and encoding are the argument and the resolver's, and whose URL is looked up on every call |
| MvcDefaultTemplateResolver.ResourcePath | bootique-mvc/src/main/java/io/bootique/mvc/resolver/DefaultTemplateResolver.java:81-103 | the name itself when location is absolute; otherwise the package path followed by the name minus at most one leading `/` |
| MvcDefaultTemplateResolver.ResourceUrl | bootique-mvc/src/main/java/io/bootique/mvc/resolver/DefaultTemplateResolver.java:81-84 | succeeds iff the base finds the path, unchecked |
| MvcDefaultTemplateResolver.RelativeAgreesWithViewTemplate | bootique-mvc/src/main/java/io/bootique/mvc/resolver/DefaultTemplateResolver.java:86-103 | for a relative name without a leading `/`, the same path the older `ViewTemplate` builds |
| MvcDefaultTemplateResolver.RelativeKeepsPackageForSlash | bootique-mvc/src/main/java/io/bootique/mvc/resolver/DefaultTemplateResolver.java:90-100 | a leading `/` is stripped and the package kept, where the older `ViewTemplate` would drop the package |
| MvcDefaultTemplateResolver.EscapingNameIsLookedUp | bootique-mvc/src/main/java/io/bootique/mvc/resolver/DefaultTemplateResolver.java:81-84 | with relative location, `../../x.txt` under package `a` goes to the base as `a/../../x.txt`, which the bounds check rejects |
| MvcDefaultTemplateResolver.AbsoluteEscapeIsLookedUp | bootique-mvc/src/main/java/io/bootique/mvc/resolver/DefaultTemplateResolver.java:82 | with absolute location, a climbing name goes to the base unchanged |
| RenderCache.Created | bootique-mvc/src/main/java/io/bootique/mvc/renderer/TtlCache.java:54-58 | a new entry has already expired at its creation time and has no value |
| RenderCache.SpacedSpanAtLeast | bootique-mvc-jakarta/src/test/java/io/bootique/mvc/renderer/TtlCacheTest.java:58-77 | calls at least 1 ms apart span at least one millisecond per call after the first |
| RenderCache.SpacedSpanAtMost | bootique-mvc-jakarta/src/test/java/io/bootique/mvc/renderer/TtlCacheTest.java:58-77 | calls at most `gap` apart span at most `gap` per call after the first |
| MvcTtlCache.NoLocksStep | bootique-mvc/src/main/java/io/bootique/mvc/renderer/TtlCache.java:92-101 | the maker runs iff the captured expiry is still current; a non-null result is stored with expiry `now + ttl`; a null or thrown result raises and changes nothing |
| MvcTtlCache.IfCanLockStep | bootique-mvc/src/main/java/io/bootique/mvc/renderer/TtlCache.java:79-90 | a taken lock returns the current value and changes nothing; otherwise `updateNoLocks` |
| MvcTtlCache.GetStep | bootique-mvc/src/main/java/io/bootique/mvc/renderer/TtlCache.java:60-66 | a fresh entry answers with its value; a stale one with a value tries the lock; a stale one without a value waits for it |
| MvcTtlCache.CacheEntry.constructor | bootique-mvc/src/main/java/io/bootique/mvc/renderer/TtlCache.java:54-58 | a new entry is created expired and without a value |
| MvcTtlCache.CacheEntry.UpdateIfNeeded | bootique-mvc/src/main/java/io/bootique/mvc/renderer/TtlCache.java:60-66 | the new state and the reply are those of `GetStep` |
| MvcTtlCache.CacheEntry.Update | bootique-mvc/src/main/java/io/bootique/mvc/renderer/TtlCache.java:68-77 | the new state and the reply are those of `NoLocksStep` |
| MvcTtlCache.CacheEntry.UpdateIfCanLock | bootique-mvc/src/main/java/io/bootique/mvc/renderer/TtlCache.java:79-90 | the new state and the reply are those of `IfCanLockStep` |
| MvcTtlCache.CacheEntry.UpdateNoLocks | bootique-mvc/src/main/java/io/bootique/mvc/renderer/TtlCache.java:92-101 | the new state and the reply are those of `NoLocksStep` |
| MvcTtlCache.TtlCache.constructor | bootique-mvc/src/main/java/io/bootique/mvc/renderer/TtlCache.java:35-38 | an empty cache with the given time to live |
| MvcTtlCache.TtlCache.Get | bootique-mvc/src/main/java/io/bootique/mvc/renderer/TtlCache.java:40-45 | only the key's entry changes, and it steps as `GetStep` from its state (or from a new expired state); no entry is replaced or removed |
| MvcTtlCache.TtlCache.EntryFor | bootique-mvc/src/main/java/io/bootique/mvc/renderer/TtlCache.java:42-43 | insert-if-absent: the existing entry, or a new expired one added under the key |
| MvcTtlCache.FirstGetCompiles | bootique-mvc/src/main/java/io/bootique/mvc/renderer/TtlCache.java:54-66 | the first `get` on a new entry runs the maker, lock free or not |
| MvcTtlCache.BusyLockReturnsStaleValue | bootique-mvc/src/main/java/io/bootique/mvc/renderer/TtlCache.java:79-83 | a stale entry with a value whose lock is taken answers with the stale value and changes nothing |
| MvcTtlCache.ValueIsNeverLost | bootique-mvc/src/main/java/io/bootique/mvc/renderer/TtlCache.java:96 | once an entry has a value it keeps one, and never answers `null` |
| MvcTtlCache.FailedMakerIsRetried | bootique-mvc/src/main/java/io/bootique/mvc/renderer/TtlCache.java:96 | a null or throwing maker raises and leaves the entry stale, so the next free `get` runs the maker again |
| MvcTtlCache.Run | bootique-mvc/src/main/java/io/bootique/mvc/renderer/TtlCache.java:60-101 | never counts more maker runs than calls |
| MvcTtlCache.StepExpiry | bootique-mvc/src/main/java/io/bootique/mvc/renderer/TtlCache.java:95-97 | a maker run happens only on a stale entry and sets expiry `now + ttl`; otherwise the expiry stays |
| MvcTtlCache.RunExpiry | bootique-mvc/src/main/java/io/bootique/mvc/renderer/TtlCache.java:60-101 | for a maker that always returns a non-null value, `n` maker runs push the expiry at least `n * (ttl + 1)` forward, and after a run it is at most `ttl` past the latest call |
| RenderCache.ExpiryAfterRun | bootique-mvc/src/main/java/io/bootique/mvc/renderer/TtlCache.java:97 | used by both caches: one more run adds `ttl + 1` to the lower bound |
| MvcTtlCache.MakerRunsAtMostOncePerTtl | bootique-mvc/src/main/java/io/bootique/mvc/renderer/TtlCache.java:60-101 | for a maker that always returns a non-null value (`AlwaysReturnsValue`), at most one maker run per `ttl + 1` ms, whatever `tryLock` does |
| JakartaTtlCache.RefreshStep | bootique-mvc-jakarta/src/main/java/io/bootique/mvc/renderer/TtlCache.java:64-77 | the maker runs iff the captured expiry is not older than the current one; its result, null included, is stored with expiry `now + ttl`; a throw changes nothing |
| JakartaTtlCache.GetStep | bootique-mvc-jakarta/src/main/java/io/bootique/mvc/renderer/TtlCache.java:59-81 | a fresh entry answers with its value unchanged; a stale one always takes the locked refresh |
| JakartaTtlCache.CacheEntry.constructor | bootique-mvc-jakarta/src/main/java/io/bootique/mvc/renderer/TtlCache.java:53-57 | a new entry is created expired and without a value |
| JakartaTtlCache.CacheEntry.UpdateIfNeeded | bootique-mvc-jakarta/src/main/java/io/bootique/mvc/renderer/TtlCache.java:59-81 | the new state and the reply are those of `GetStep` |
| JakartaTtlCache.CacheEntry.RefreshLocked | bootique-mvc-jakarta/src/main/java/io/bootique/mvc/renderer/TtlCache.java:64-77 | the new state and the reply are those of `RefreshStep` |
| JakartaTtlCache.TtlCache.constructor | bootique-mvc-jakarta/src/main/java/io/bootique/mvc/renderer/TtlCache.java:34-37 | an empty cache with the given time to live |
| JakartaTtlCache.TtlCache.Get | bootique-mvc-jakarta/src/main/java/io/bootique/mvc/renderer/TtlCache.java:39-44 | only the key's entry changes, and it steps as `GetStep` from its state (or from a new expired state); no entry is replaced or removed |
| JakartaTtlCache.TtlCache.EntryFor | bootique-mvc-jakarta/src/main/java/io/bootique/mvc/renderer/TtlCache.java:41-42 | insert-if-absent: the existing entry, or a new expired one added under the key |
| JakartaTtlCache.FirstGetCompiles | bootique-mvc-jakarta/src/main/java/io/bootique/mvc/renderer/TtlCache.java:53-62 | the first `get` on a new entry runs the maker |
| JakartaTtlCache.StaleReadNeverReturnsStaleValue | bootique-mvc-jakarta/src/main/java/io/bootique/mvc/renderer/TtlCache.java:62-73 | a stale read runs the maker and answers with its result or its exception, never the stale value |
| JakartaTtlCache.NullResultIsStored | bootique-mvc-jakarta/src/main/java/io/bootique/mvc/renderer/TtlCache.java:71-72 | a null result is stored and served as fresh for the time to live |
| JakartaTtlCache.ThrowingMakerIsRetried | bootique-mvc-jakarta/src/main/java/io/bootique/mvc/renderer/TtlCache.java:71 | a throwing maker leaves the entry stale, so the next `get` runs it again |
| JakartaTtlCache.EditSeenOnlyAfterTtl | bootique-mvc-jakarta-mustache/src/test/java/io/bootique/mvc/mustache/MustacheTemplateRenderer_TemplateTtlIT.java:86-93 | with a 300 ms time to live, an edit is not seen within the time to live and is seen 301 ms later |
| JakartaTtlCache.Run | bootique-mvc-jakarta/src/main/java/io/bootique/mvc/renderer/TtlCache.java:59-81 | never counts more maker runs than calls |
| JakartaTtlCache.StepExpiry | bootique-mvc-jakarta/src/main/java/io/bootique/mvc/renderer/TtlCache.java:70-72 | a maker run happens only on a stale entry and sets expiry `now + ttl`; otherwise the expiry stays |
| JakartaTtlCache.RunExpiry | bootique-mvc-jakarta/src/main/java/io/bootique/mvc/renderer/TtlCache.java:59-81 | for a maker that never throws, `n` maker runs push the expiry at least `n * (ttl + 1)` forward, and after a run it is at most `ttl` past the latest call |
| JakartaTtlCache.MakerRunsAtMostOncePerTtl | bootique-mvc-jakarta/src/main/java/io/bootique/mvc/renderer/TtlCache.java:59-81 | for a maker that never throws (`NeverThrows`), at most one maker run per `ttl + 1` ms |
| JakartaTtlCache.MakerRunsAtLeastOncePerTtlAndGap | bootique-mvc-jakarta/src/main/java/io/bootique/mvc/renderer/TtlCache.java:59-81 | with calls at most `gap` apart, at least one maker run per `ttl + gap` ms |
| JakartaTtlCache.ConcurrentAccessBounds | bootique-mvc-jakarta/src/test/java/io/bootique/mvc/renderer/TtlCacheTest.java:84-85 | 300 calls 1 to 2 ms apart with a 20 ms time to live run the maker more than 5 and fewer than 50 times |
| MvcNoCache.Get | bootique-mvc/src/main/java/io/bootique/mvc/renderer/NoCache.java:31-34 | exactly what the maker produces: its value (null included), or its exception |
| MvcNoCache.StaleTtlEntryAnswersLikeNoCache | bootique-mvc/src/main/java/io/bootique/mvc/renderer/NoCache.java:31-34 | a stale, free `TtlCache` entry answers a `get` exactly as `NoCache` does |
| MvcNoCache.NegativeTtlCompilesEveryCall | bootique-mvc/src/main/java/io/bootique/mvc/renderer/NoCache.java:31-34 | with a negative time to live, the `TtlCache` runs the maker on every call, as `NoCache` does |
| MvcRenderers.LastIndexOf | bootique-mvc/src/main/java/io/bootique/mvc/renderer/ByExtensionTemplateRenderers.java:50 | `lastIndexOf`: -1 or an index holding the character, with none after it |
| MvcRenderers.GetExtension | bootique-mvc/src/main/java/io/bootique/mvc/renderer/ByExtensionTemplateRenderers.java:49-58 | fails iff there is no `.`, or the last one is first or last; otherwise a proper suffix of at least two characters that starts with its only `.` |
| MvcRenderers.ExtensionFromLastDot | bootique-mvc/src/main/java/io/bootique/mvc/renderer/ByExtensionTemplateRenderers.java:50-57 | any `.` that is neither first nor last, with none after it, starts the extension |
| MvcRenderers.GetRenderer | bootique-mvc/src/main/java/io/bootique/mvc/renderer/ByExtensionTemplateRenderers.java:35-47 | succeeds iff the extension exists and is mapped, with exactly its renderer; otherwise the extension error, or an error naming the extension and all mapped ones |
| MvcRenderers.ExtensionExamples | bootique-mvc/src/main/java/io/bootique/mvc/renderer/ByExtensionTemplateRenderers.java:49-58 | `t.mustache` has `.mustache`; `a.b.c` has `.c` |
| MvcRenderers.NoExtensionExamples | bootique-mvc/src/main/java/io/bootique/mvc/renderer/ByExtensionTemplateRenderers.java:51-54 | `t`, `t.` and `.mustache` have no extension |
| MvcRenderers.DotInDirectoryExample | bootique-mvc/src/main/java/io/bootique/mvc/renderer/ByExtensionTemplateRenderers.java:50 | the last `.` may sit in a directory name: `a.d/t` has `.d/t` |

## Left out

- Resource I/O is not modelled: `FolderResourceFactory.getUrl`, `URL.openStream`,
  `InputStreamReader` and character sets. The template base and the opener are function parameters.
  The `reader` default methods of both `Template` interfaces are not part of this model.
- Exception messages are not modelled. Each exception is a constructor of `Failure` or `RenderError`
  with the values it names. Exception causes are kept only where the hooks see them.
- Concurrency is not modelled: locks, `ConcurrentHashMap` atomicity, `volatile` and races on the
  memoised URL. The caches are sequential. The outcome of `tryLock` is an argument, and the expiry a
  caller captured before locking is an argument of the lower-level entry methods.
- Each cache call reads the clock once (`now`). The source reads it again for the new expiry, which
  can only be later.
- MvcTtlCache.TtlCache.Get, JakartaTtlCache.TtlCache.Get: do not model `long` overflow of
  `now + ttlMs`. Integers are unbounded here.
- MvcTtlCache.TtlCache.Get, JakartaTtlCache.TtlCache.Get: take the key (the URL's external form) as
  an argument. A `getUrl()` that throws before the map is touched is not modelled.
- JakartaTtlCache.ConcurrentAccessBounds: states the thread-pool test as 300 sequential calls on one
  key, 1 to 2 ms apart. It does not model the three threads racing on the entry.
- JakartaDefaultTemplateResolver.UniqueKeyTemplateResolver.Resolve: the corrected resolver requires
  the package name to hold no `:` and no `*`, which no Java package name does. The empty name of the
  unnamed package is allowed and kept apart from no package at all.
- JakartaDefaultTemplateResolver.DefaultTemplateResolver.CreateTemplate: the resolver calls a
  four-argument `DefaultTemplate` constructor that the template's source does not have. It is
  modelled as the six-argument constructor with neither hook set.
- The Jakarta `ViewTemplate` has no `getUrl(String)` in its source, and the model gives it none.
- The jailbreak test builds its resolver with two arguments, which the older resolver does not
  accept. Its cases are proved about the bounds check under a package path, which the older
  `ViewTemplate` and the Jakarta `DefaultTemplate` share.
- Getter functions (`getName`, `getEncoding`) have no contracts. They return the stored fields.
- The `ByExtensionTemplateRenderers` constructor only stores the map. `GetRenderer` takes the map as
  an argument and never changes it.
- DI and configuration wiring is not modelled: `MvcFactory` and the modules. The selection "time to
  live set gives `TtlCache`, otherwise `NoCache`" appears only in `MvcNoCache`'s lemmas.
- The template engines and JAX-RS output are not modelled.

## Findings

| source | as written | input that shows it | evidently intended | confidence | as-written member | corrected member |
|---|---|---|---|---|---|---|
| bootique-mvc-jakarta/src/main/java/io/bootique/mvc/resolver/DefaultTemplateResolver.java:47-49 | the cache key is the package name immediately followed by the template name | package `a.bc` with template `t.txt`, and package `a.b` with template `ct.txt`: both give the key `a.bct.txt`, but their paths are `a/bc/t.txt` and `a/b/ct.txt`, so the second `resolve` returns the first template | a key unique for each (package, template name) pair, as the comment says | high that the key collides; not executed | JakartaDefaultTemplateResolver.CollidingResolves | JakartaDefaultTemplateResolver.UniqueKeyTemplateResolver.Resolve |
