/**
 * The string rules of app.js that depend on the page's path: which
 * navigation links are marked active, the page name `App.page`, and the
 * relative path `loadComponent` fetches a fragment from.
 */
module PathRules {

  predicate StartsWith(s: string, prefix: string) {
    |prefix| <= |s| && s[..|prefix|] == prefix
  }

  predicate EndsWith(s: string, suffix: string) {
    |suffix| <= |s| && s[|s| - |suffix|..] == suffix
  }

  /** `s.includes(sub)`. */
  predicate Contains(s: string, sub: string)
    decreases |s|
  {
    StartsWith(s, sub) || (s != [] && Contains(s[1..], sub))
  }

  /**
   * A link is active when its path is the current path, or when the current
   * path is a site root (`/` or `/index.html`) and the link leads to an index page.
   */
  predicate IsActiveNavLink(linkPath: string, currentPath: string) {
    || linkPath == currentPath
    || ((EndsWith(currentPath, "/") || EndsWith(currentPath, "/index.html")) && EndsWith(linkPath, "/index.html"))
  }

  /** Off the root, the only active link is the one whose path is exactly the current path. */
  lemma ActiveOffRootMeansSamePath(linkPath: string, currentPath: string)
    requires !EndsWith(currentPath, "/") && !EndsWith(currentPath, "/index.html")
    ensures IsActiveNavLink(linkPath, currentPath) <==> linkPath == currentPath
  {
  }

  /** On a root, every link to an index page is active, and any other link only if it is the current path. */
  lemma ActiveOnRoot(linkPath: string, currentPath: string)
    requires EndsWith(currentPath, "/") || EndsWith(currentPath, "/index.html")
    ensures IsActiveNavLink(linkPath, currentPath) <==> linkPath == currentPath || EndsWith(linkPath, "/index.html")
  {
  }

  /**
   * `updateActiveNavLinks()`: every link first loses `active`, then regains
   * it when its path matches. `active[i]` is the class of the link whose
   * URL path is `linkPaths[i]`.
   */
  method UpdateActiveNavLinks(linkPaths: seq<string>, active: array<bool>, currentPath: string)
    requires active.Length == |linkPaths|
    modifies active
    ensures forall i :: 0 <= i < active.Length ==> active[i] == IsActiveNavLink(linkPaths[i], currentPath)
  {
    var i := 0;
    while i < active.Length
      invariant 0 <= i <= active.Length
      invariant forall j :: 0 <= j < i ==> active[j] == IsActiveNavLink(linkPaths[j], currentPath)
    {
      active[i] := false;
      if IsActiveNavLink(linkPaths[i], currentPath) {
        active[i] := true;
      }
      i := i + 1;
    }
  }

  /** `path.split('/').pop()`: what follows the last `/`, or the whole path when there is none. */
  function LastSegment(path: string): (r: string)
    ensures '/' !in r && EndsWith(path, r)
    ensures |r| < |path| ==> path[|path| - |r| - 1] == '/'
    decreases |path|
  {
    if path == [] || path[|path| - 1] == '/' then []
    else
      var init := path[..|path| - 1];
      var r := LastSegment(init);
      assert path[|path| - |r| - 1..] == init[|init| - |r|..] + [path[|path| - 1]];
      r + [path[|path| - 1]]
  }

  /** `s.indexOf(sub)` when `sub` occurs: the earliest position at which it starts. */
  function FirstOccurrence(s: string, sub: string): (k: nat)
    requires Contains(s, sub)
    ensures k + |sub| <= |s| && StartsWith(s[k..], sub)
    ensures forall j :: 0 <= j < k ==> !StartsWith(s[j..], sub)
    decreases |s|
  {
    if StartsWith(s, sub) then 0
    else
      var k := FirstOccurrence(s[1..], sub);
      assert s[1..][k..] == s[k + 1..];
      assert forall j :: 1 <= j < k + 1 ==> s[j..] == s[1..][j - 1..];
      k + 1
  }

  /** `s.replace(pattern, replacement)` with a string pattern: only the first occurrence is replaced. */
  function ReplaceFirst(s: string, pattern: string, replacement: string): (r: string)
    ensures Contains(s, pattern) ==>
      var k := FirstOccurrence(s, pattern);
      r == s[..k] + replacement + s[k + |pattern|..]
    ensures Contains(s, pattern) ==> |r| == |s| - |pattern| + |replacement|
    ensures !Contains(s, pattern) ==> r == s
    ensures forall c :: c in r ==> c in s || c in replacement
    decreases |s|
  {
    if StartsWith(s, pattern) then replacement + s[|pattern|..]
    else if s == [] then []
    else
      var t := ReplaceFirst(s[1..], pattern, replacement);
      if Contains(s, pattern) then
        var k := FirstOccurrence(s[1..], pattern);
        assert FirstOccurrence(s, pattern) == k + 1;
        ShiftSlices(s, k, |pattern|);
        [s[0]] + t
      else
        [s[0]] + t
  }

  /** Slicing `s` past its head is slicing `s[1..]` one position earlier. */
  lemma ShiftSlices(s: string, k: nat, m: nat)
    requires k + m + 1 <= |s|
    ensures s[..k + 1] == [s[0]] + s[1..][..k]
    ensures s[k + 1 + m..] == s[1..][k + m..]
  {
  }

  /** `App.page`: the last path segment without its first `.html`, or `'index'` when that is empty. */
  function PageName(path: string): string {
    var name := ReplaceFirst(LastSegment(path), ".html", "");
    if name == "" then "index" else name
  }

  /** The page name is never empty and never contains a `/`. */
  lemma PageNameShape(path: string)
    ensures PageName(path) != "" && '/' !in PageName(path)
  {
  }

  lemma {:induction false} LastSegmentAfterSlash(dir: string, file: string)
    requires '/' !in file
    ensures LastSegment(dir + "/" + file) == file
    decreases |file|
  {
    var path := dir + "/" + file;
    if file != [] {
      var init := file[..|file| - 1];
      assert path[..|path| - 1] == dir + "/" + init;
      LastSegmentAfterSlash(dir, init);
      assert file == init + [file[|file| - 1]];
    } else {
      assert path[|path| - 1] == '/';
    }
  }

  lemma {:induction false} StripHtmlSuffix(name: string)
    requires !Contains(name, ".html")
    ensures ReplaceFirst(name + ".html", ".html", "") == name
    decreases |name|
  {
    var s := name + ".html";
    if name == [] {
      assert StartsWith(s, ".html");
    } else {
      assert !StartsWith(s, ".html") by {
        if |name| >= 5 {
          assert s[..5] == name[..5] != ".html";
        } else {
          // The suffix's `.` falls inside the first five characters, where `.html` has none but at 0.
          assert s[..5][|name|] == '.' != ".html"[|name|];
        }
      }
      assert s[1..] == name[1..] + ".html";
      StripHtmlSuffix(name[1..]);
      assert [s[0]] + name[1..] == name;
    }
  }

  /** A page file `dir/name.html` (with no `.html` inside `name`) is named `name`. */
  lemma PageNameOfHtmlFile(dir: string, name: string)
    requires name != "" && '/' !in name && !Contains(name, ".html")
    ensures PageName(dir + "/" + name + ".html") == name
  {
    assert dir + "/" + name + ".html" == dir + "/" + (name + ".html");
    LastSegmentAfterSlash(dir, name + ".html");
    StripHtmlSuffix(name);
  }

  /** A path ending in `/` (the site root, or a directory) is the `index` page. */
  lemma DirectoryIsIndex(path: string)
    requires EndsWith(path, "/")
    ensures PageName(path) == "index"
  {
    assert path[|path| - 1] == '/';
  }

  /** The current page lives under `/pages/`. */
  predicate IsSubPage(path: string) {
    Contains(path, "/pages/")
  }

  /** The fragment path `loadComponent` fetches: one level up from a sub-page, else relative to the root. */
  function ComponentPath(path: string, componentName: string): (r: string)
    ensures EndsWith(r, "includes/" + componentName + ".html")
    ensures StartsWith(r, "../") <==> IsSubPage(path)
    ensures |r| == |componentName| + 14 + (if IsSubPage(path) then 3 else 0)
  {
    var file := "includes/" + componentName + ".html";
    if IsSubPage(path) then
      var r := "../" + file;
      assert r[|r| - |file|..] == file;
      r
    else
      assert file[0] == 'i';
      file
  }
}
