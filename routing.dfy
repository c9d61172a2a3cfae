/**
 * Page routing helpers of assets/js/main.js: the page-type classifier, the
 * active-link test of the sidebar and the module number taken from a module
 * page's path. `window.location.pathname` is a parameter.
 */
module Routing {
  import opened Wrappers
  import opened Strings

  datatype PageType = Home | Modules | Module | About | Contact

  /** The first test of `determinePageType`, on the lower-cased path. */
  predicate IsHomePath(p: string) {
    Contains(p, "index.html") || p == "/" || EndsWith(p, "/learning-platform/") || EndsWith(p, "/learning-platform")
  }

  /** `determinePageType(path)`: ordered substring tests on the lower-cased path, home when nothing matches. */
  function DeterminePageType(path: string): PageType {
    var p := Lower(path);
    if IsHomePath(p) then Home
    else if Contains(p, "modules.html") then Modules
    else if Contains(p, "modul/") || Contains(p, "modul") then Module
    else if Contains(p, "about.html") then About
    else if Contains(p, "contact.html") then Contact
    else Home
  }

  /** Classifying a path or its lower-case form gives the same page type. */
  lemma PageTypeIgnoresCase(path: string)
    ensures DeterminePageType(Lower(path)) == DeterminePageType(path)
  {
    LowerIdempotent(path);
  }

  /** A home path is home even when it also mentions a module. */
  lemma HomeTestComesFirst(path: string)
    requires IsHomePath(Lower(path)) && Contains(Lower(path), "modul")
    ensures DeterminePageType(path) == Home
  {
  }

  /** "modules.html" also contains "modul", but the modules test comes first. */
  lemma ModulesBeforeModule(path: string)
    requires !IsHomePath(Lower(path)) && Contains(Lower(path), "modules.html")
    ensures Contains(Lower(path), "modul")
    ensures DeterminePageType(path) == Modules
  {
    ContainsPrefixOfNeedle(Lower(path), "modules.html", "modul");
  }

  /**
   * A module page is exactly a non-home path without "modules.html" that
   * mentions "modul" in any letter case; the "modul/" test adds nothing.
   */
  lemma ModulePageCharacterised(path: string)
    ensures DeterminePageType(path) == Module <==>
      !IsHomePath(Lower(path)) && !Contains(Lower(path), "modules.html") && Contains(Lower(path), "modul")
  {
    if Contains(Lower(path), "modul/") {
      ContainsPrefixOfNeedle(Lower(path), "modul/", "modul");
    }
  }

  /** A path that matches none of the tests is home. */
  lemma UnmatchedIsHome(path: string)
    requires var p := Lower(path);
      !Contains(p, "index.html") && !Contains(p, "modul") && !Contains(p, "about.html") && !Contains(p, "contact.html")
    ensures DeterminePageType(path) == Home
  {
    if Contains(Lower(path), "modules.html") {
      ContainsPrefixOfNeedle(Lower(path), "modules.html", "modul");
    }
    if Contains(Lower(path), "modul/") {
      ContainsPrefixOfNeedle(Lower(path), "modul/", "modul");
    }
  }

  // isActiveNavItem

  predicate IsSlash(c: char) {
    c == '/'
  }

  /** The "/index.html" rule: that link is active on "/", on any path ending in "/" and on any path mentioning "index.html". */
  predicate IndexLinkRule(url: string, currentPath: string) {
    url == "/index.html" && (currentPath == "/" || EndsWith(currentPath, "/") || Contains(currentPath, "index.html"))
  }

  /** `isActiveNavItem(url)` on the current `pathname`. */
  function IsActiveNavItem(url: Option<string>, currentPath: string): bool {
    if url.None? || url.value == [] then false
    else if StartsWith(url.value, "http") then false
    else if currentPath == url.value then true
    else if IndexLinkRule(url.value, currentPath) then true
    else LastSegment(url.value, IsSlash) == LastSegment(currentPath, IsSlash)
  }

  /**
   * The exact-match test is subsumed by the file-name test: an internal link
   * is active iff the index rule applies or its last path segment equals the
   * current path's.
   */
  lemma ActiveNavCharacterised(url: Option<string>, currentPath: string)
    ensures IsActiveNavItem(url, currentPath) <==>
      && url.Some? && url.value != [] && !StartsWith(url.value, "http")
      && (IndexLinkRule(url.value, currentPath) || LastSegment(url.value, IsSlash) == LastSegment(currentPath, IsSlash))
  {
  }

  lemma {:induction false} LastSegmentAfterSlash(dir: string, name: string)
    requires forall i :: 0 <= i < |name| ==> name[i] != '/'
    ensures LastSegment(dir + "/" + name, IsSlash) == name
    decreases |name|
  {
    var s := dir + "/" + name;
    if name != [] {
      assert s[..|s| - 1] == dir + "/" + name[..|name| - 1];
      LastSegmentAfterSlash(dir, name[..|name| - 1]);
      assert name[..|name| - 1] + [name[|name| - 1]] == name;
    }
  }

  /** A link is active on every page with the same file name, whatever directory either is in. */
  lemma SameFileNameIsActive(linkDir: string, pageDir: string, name: string)
    requires forall i :: 0 <= i < |name| ==> name[i] != '/'
    requires !StartsWith(linkDir + "/" + name, "http")
    ensures IsActiveNavItem(Some(linkDir + "/" + name), pageDir + "/" + name)
  {
    LastSegmentAfterSlash(linkDir, name);
    LastSegmentAfterSlash(pageDir, name);
  }

  // The module number: `pathname.match(/modul(\d+)\.html/)`.

  /** The longest run of digits at the start of `s`. */
  function DigitRun(s: string): (r: string)
    ensures StartsWith(s, r)
    ensures forall i :: 0 <= i < |r| ==> IsDigit(r[i])
    ensures |r| < |s| ==> !IsDigit(s[|r|])
    decreases |s|
  {
    if s != [] && IsDigit(s[0]) then [s[0]] + DigitRun(s[1..]) else []
  }

  /**
   * The match starting at position `i`, if any. `\d+` is greedy and a digit
   * can never match the following `\.`, so the only candidate run is the
   * longest one.
   */
  function MatchAt(s: string, i: nat): Option<string>
    requires i <= |s|
  {
    var rest := s[i..];
    if !StartsWith(rest, "modul") then None
    else
      var digits := DigitRun(rest[5..]);
      if digits != [] && StartsWith(rest[5 + |digits|..], ".html") then Some(digits) else None
  }

  /** The leftmost position at or after `from` where a match starts. */
  function FirstMatch(s: string, from: nat): (r: Option<nat>)
    requires from <= |s|
    ensures r.Some? ==> from <= r.value <= |s| && MatchAt(s, r.value).Some?
    ensures r.Some? ==> forall j :: from <= j < r.value ==> MatchAt(s, j).None?
    ensures r.None? ==> forall j :: from <= j <= |s| ==> MatchAt(s, j).None?
    decreases |s| - from
  {
    if MatchAt(s, from).Some? then Some(from)
    else if from == |s| then None
    else FirstMatch(s, from + 1)
  }

  /** The captured module number, as the digit string the regular expression captures. */
  function ModuleNumber(pathname: string): (r: Option<string>)
    ensures r.Some? ==> r.value != [] && forall i :: 0 <= i < |r.value| ==> IsDigit(r.value[i])
    ensures r.None? <==> forall j :: 0 <= j <= |pathname| ==> MatchAt(pathname, j).None?
  {
    match FirstMatch(pathname, 0)
    case None => None
    case Some(i) => MatchAt(pathname, i)
  }

  /** The module's content file. */
  function ModuleDataPath(number: string): string {
    "/assets/data/content/modul" + number + ".json"
  }

  lemma {:induction false} StartsWithInContains(s: string, i: nat, t: string)
    requires i <= |s| && StartsWith(s[i..], t)
    ensures Contains(s, t)
    decreases i
  {
    if i > 0 {
      assert s[1..][i - 1..] == s[i..];
      StartsWithInContains(s[1..], i - 1, t);
    }
  }

  /** A captured number comes from an occurrence of "modul<number>.html" in the path. */
  lemma NumberIsMatched(pathname: string)
    requires ModuleNumber(pathname).Some?
    ensures Contains(pathname, "modul" + ModuleNumber(pathname).value + ".html")
  {
    var i := FirstMatch(pathname, 0).value;
    MatchAtSpells(pathname, i);
    StartsWithInContains(pathname, i, "modul" + ModuleNumber(pathname).value + ".html");
  }

  /** A match at `i` spells out "modul<digits>.html" from position `i` on. */
  lemma MatchAtSpells(s: string, i: nat)
    requires i <= |s| && MatchAt(s, i).Some?
    ensures StartsWith(s[i..], "modul" + MatchAt(s, i).value + ".html")
  {
    var rest := s[i..];
    var d := MatchAt(s, i).value;
    assert d == DigitRun(rest[5..]);
    StartsWithThree(rest, "modul", d, ".html");
  }

  /** Three consecutive prefixes make a prefix of their concatenation. */
  lemma StartsWithThree(s: string, a: string, b: string, c: string)
    requires StartsWith(s, a) && StartsWith(s[|a|..], b) && StartsWith(s[|a| + |b|..], c)
    ensures StartsWith(s, a + b + c)
  {
    var n := |a| + |b| + |c|;
    assert s[|a|..][..|b|] == s[|a|..|a| + |b|];
    assert s[|a| + |b|..][..|c|] == s[|a| + |b|..n];
    assert s[..n] == s[..|a|] + s[|a|..|a| + |b|] + s[|a| + |b|..n];
  }

  /** The regular expression is case-sensitive: without a lower-case "modul" there is no number. */
  lemma NoLowerModulNoNumber(pathname: string)
    requires !Contains(pathname, "modul")
    ensures ModuleNumber(pathname).None?
  {
    forall j | 0 <= j <= |pathname|
      ensures MatchAt(pathname, j).None?
    {
      if StartsWith(pathname[j..], "modul") {
        StartsWithInContains(pathname, j, "modul");
      }
    }
  }

  /**
   * Consequently a path such as "/pages/Modul3.html" is classified as a
   * module page, yet yields no module number and takes the fallback page.
   */
  lemma ModulePageWithoutNumber(pathname: string)
    requires !IsHomePath(Lower(pathname)) && !Contains(Lower(pathname), "modules.html")
    requires Contains(Lower(pathname), "modul") && !Contains(pathname, "modul")
    ensures DeterminePageType(pathname) == Module && ModuleNumber(pathname).None?
  {
    ModulePageCharacterised(pathname);
    NoLowerModulNoNumber(pathname);
  }

  lemma {:induction false} DigitRunOfDigits(d: string, t: string)
    requires forall i :: 0 <= i < |d| ==> IsDigit(d[i])
    requires t == [] || !IsDigit(t[0])
    ensures DigitRun(d + t) == d
    decreases |d|
  {
    if d != [] {
      assert (d + t)[1..] == d[1..] + t;
      DigitRunOfDigits(d[1..], t);
    } else {
      assert d + t == t;
    }
  }

  lemma {:induction false} FirstMatchAt(s: string, from: nat, i: nat)
    requires from <= i <= |s| && MatchAt(s, i).Some?
    requires forall j :: from <= j < i ==> MatchAt(s, j).None?
    ensures FirstMatch(s, from) == Some(i)
    decreases i - from
  {
    if from < i {
      FirstMatchAt(s, from + 1, i);
    }
  }

  /** The canonical module page "/pages/modul<n>.html" yields the number n back and its data file. */
  lemma CanonicalModulePage(n: nat)
    ensures var number := ModuleNumber("/pages/modul" + NatToString(n) + ".html");
      && number.Some? && ParseDigits(number.value) == n
      && ModuleDataPath(number.value) == "/assets/data/content/modul" + NatToString(n) + ".json"
  {
    var d := NatToString(n);
    var s := "/pages/modul" + d + ".html";
    CanonicalMatch(d);
    NoMatchBeforeModul(d);
    FirstMatchAt(s, 0, 7);
    ParseNatToString(n);
  }

  /** In "/pages/modul<d>.html" the match at position 7 captures `d`. */
  lemma CanonicalMatch(d: string)
    requires d != [] && forall i :: 0 <= i < |d| ==> IsDigit(d[i])
    ensures MatchAt("/pages/modul" + d + ".html", 7) == Some(d)
  {
    var s := "/pages/modul" + d + ".html";
    assert s[7..] == "modul" + d + ".html";
    assert s[7..][5..] == d + ".html";
    DigitRunOfDigits(d, ".html");
    assert s[7..][5 + |d|..] == ".html";
  }

  /** No match starts inside the "/pages/" prefix, since none of its characters is 'm'. */
  lemma NoMatchBeforeModul(d: string)
    ensures forall j :: 0 <= j < 7 ==> MatchAt("/pages/modul" + d + ".html", j).None?
  {
    var s := "/pages/modul" + d + ".html";
    forall j | 0 <= j < 7 ensures MatchAt(s, j).None? {
      assert s[j] != 'm';
      assert s[j..][0] == s[j];
    }
  }
}
