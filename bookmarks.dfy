/**
 * The reader's saved progress in assets/js/main.js: the bookmark list that
 * `toggleBookmark` edits in place, and the module card that shows it.
 */
module Progress {
  import opened Wrappers
  import opened Markup
  import opened Strings

  /** `list.indexOf(x)`: the first position holding `x`, or -1. */
  function IndexOf(list: seq<string>, x: string): (r: int)
    ensures -1 <= r < |list|
    ensures r == -1 <==> x !in list
    ensures r >= 0 ==> list[r] == x && forall j :: 0 <= j < r ==> list[j] != x
    decreases |list|
  {
    if list == [] then -1
    else if list[0] == x then 0
    else
      var r := IndexOf(list[1..], x);
      if r == -1 then -1 else r + 1
  }

  /** The list after `toggleBookmark(x)`: the first `x` spliced out, or `x` pushed at the end. */
  function Toggled(list: seq<string>, x: string): seq<string> {
    var i := IndexOf(list, x);
    if i > -1 then list[..i] + list[i + 1..] else list + [x]
  }

  /** An absent id is appended at the end. */
  lemma ToggleAbsentAppends(list: seq<string>, x: string)
    requires x !in list
    ensures Toggled(list, x) == list + [x]
  {
  }

  /** A present id loses exactly its first occurrence; everything else keeps its relative order. */
  lemma ToggleRemovesFirst(list: seq<string>, x: string)
    requires x in list
    ensures var i := IndexOf(list, x); var r := Toggled(list, x);
      && |r| == |list| - 1
      && (forall j :: 0 <= j < i ==> r[j] == list[j])
      && (forall j :: i <= j < |r| ==> r[j] == list[j + 1])
      && multiset(r) == multiset(list) - multiset{x}
  {
    var i := IndexOf(list, x);
    assert Toggled(list, x) == list[..i] + list[i + 1..];
    Splice(list, i);
  }

  /** Splicing out position `i` shifts the later entries down by one and drops one copy of `list[i]`. */
  lemma Splice(list: seq<string>, i: nat)
    requires i < |list|
    ensures var r := list[..i] + list[i + 1..];
      && |r| == |list| - 1
      && (forall j :: 0 <= j < i ==> r[j] == list[j])
      && (forall j :: i <= j < |r| ==> r[j] == list[j + 1])
      && multiset(r) == multiset(list) - multiset{list[i]}
  {
    var r := list[..i] + list[i + 1..];
    assert list == list[..i] + [list[i]] + list[i + 1..];
    assert multiset(list) == multiset(list[..i]) + multiset{list[i]} + multiset(list[i + 1..]);
  }

  /** Toggling an absent id twice restores the list. */
  lemma ToggleTwiceRestores(list: seq<string>, x: string)
    requires x !in list
    ensures Toggled(Toggled(list, x), x) == list
  {
    var once := list + [x];
    assert IndexOf(once, x) == |list| by {
      assert once[|list|] == x;
      assert forall j :: 0 <= j < |list| ==> once[j] != x;
    }
    assert once[..|list|] == list;
  }

  predicate NoDuplicates(list: seq<string>) {
    forall i, j :: 0 <= i < j < |list| ==> list[i] != list[j]
  }

  /**
   * On a duplicate-free list (the only kind toggling builds from an empty
   * list), toggling flips membership of `x`, changes nothing else's, and
   * keeps the list duplicate-free.
   */
  lemma ToggleFlipsMembership(list: seq<string>, x: string, y: string)
    requires NoDuplicates(list)
    ensures NoDuplicates(Toggled(list, x))
    ensures (x in Toggled(list, x)) <==> x !in list
    ensures y != x ==> ((y in Toggled(list, x)) <==> y in list)
  {
    if x in list {
      var i := IndexOf(list, x);
      assert list == list[..i] + [x] + list[i + 1..];
      OnlyOccurrence(list, i);
      RemovalKeepsDistinct(list, i);
    }
  }

  /** In a duplicate-free list, position `i` is the only one holding `list[i]`. */
  lemma OnlyOccurrence(list: seq<string>, i: nat)
    requires NoDuplicates(list) && i < |list|
    ensures list[i] !in list[..i] && list[i] !in list[i + 1..]
  {
    forall j | 0 <= j < i ensures list[..i][j] != list[i] {
      assert list[j] != list[i];
    }
    var suffix := list[i + 1..];
    forall j | 0 <= j < |suffix| ensures suffix[j] != list[i] {
      assert suffix[j] == list[i + 1 + j];
    }
  }

  /** Splicing one entry out of a duplicate-free list leaves it duplicate-free. */
  lemma RemovalKeepsDistinct(list: seq<string>, i: nat)
    requires NoDuplicates(list) && i < |list|
    ensures NoDuplicates(list[..i] + list[i + 1..])
  {
    var r := list[..i] + list[i + 1..];
    forall a, b | 0 <= a < b < |r| ensures r[a] != r[b] {
      var a' := if a < i then a else a + 1;
      var b' := if b < i then b else b + 1;
      assert r[a] == list[a'] && r[b] == list[b'] && a' < b';
    }
  }

  /** The reader's stored progress: the bookmark and completed-module lists. */
  class UserData {
    var bookmarks: seq<string>
    var completedModules: seq<string>

    constructor (bookmarks: seq<string>, completedModules: seq<string>)
      ensures this.bookmarks == bookmarks && this.completedModules == completedModules
    {
      this.bookmarks := bookmarks;
      this.completedModules := completedModules;
    }

    /**
     * `toggleBookmark(moduleId)`: splices out or pushes the id and reports
     * whether the star is highlighted afterwards, which is whether the id
     * was absent before.
     */
    method ToggleBookmark(moduleId: string) returns (highlighted: bool)
      modifies this`bookmarks
      ensures bookmarks == Toggled(old(bookmarks), moduleId)
      ensures highlighted <==> moduleId !in old(bookmarks)
    {
      var index := IndexOf(bookmarks, moduleId);
      if index > -1 {
        bookmarks := bookmarks[..index] + bookmarks[index + 1..];
      } else {
        bookmarks := bookmarks + [moduleId];
      }
      highlighted := !(index > -1);
    }
  }

  // renderModuleCard

  /** A module's `id` as the fetched JSON holds it: a string or a number. */
  datatype ModuleId = TextId(text: string) | NumberId(number: int)

  /** The id as a template literal writes it. */
  function IdText(id: ModuleId): string {
    match id
    case TextId(t) => t
    case NumberId(n) => IntToString(n)
  }

  /**
   * `list.includes(id)` on a list of strings: strict equality, so a numeric id
   * is never found, even next to its own decimal text.
   */
  predicate Listed(id: ModuleId, list: seq<string>) {
    id.TextId? && id.text in list
  }

  datatype ModuleEntry = ModuleEntry(id: ModuleId, title: string, description: string, url: string, image: Option<string>)

  /** The star's classes: highlighted when bookmarked. */
  function StarClass(bookmarked: bool): string {
    if bookmarked then "fas fa-star text-yellow-500" else "fas fa-star "
  }

  function CardPicture(m: ModuleEntry): Fragment {
    if m.image.Some? && m.image.value != [] then [Open("img", [Attr("src", m.image.value), Attr("alt", m.title)])]
    else El("div", [], El("i", [Attr("class", "fas fa-mobile-alt")], []))
  }

  function CardHeading(m: ModuleEntry, bookmarked: bool): Fragment {
    El("h3", [], [Val(m.title)])
    + El("button", [Attr("onclick", "toggleBookmark('" + IdText(m.id) + "')")], El("i", [Attr("class", StarClass(bookmarked))], []))
  }

  function CardLink(m: ModuleEntry, completed: bool): Fragment {
    El("a", [Attr("href", m.url)], [Lit(if completed then "Review" else "Start Learning")] + El("i", [Attr("class", "fas fa-arrow-right")], []))
  }

  function CompletedBadge(completed: bool): Fragment {
    if completed then El("span", [], [Lit("Completed")]) else []
  }

  /** `renderModuleCard(module)` with the reader's completed and bookmark lists. */
  function ModuleCard(m: ModuleEntry, completed: seq<string>, bookmarks: seq<string>): Fragment {
    CardPicture(m) + CardHeading(m, Listed(m.id, bookmarks)) + El("p", [], [Val(m.description)])
    + CardLink(m, Listed(m.id, completed)) + CompletedBadge(Listed(m.id, completed))
  }

  /** Only the link and the badge carry fixed text. */
  lemma FixedPartsHaveNoText(m: ModuleEntry, bookmarked: bool)
    ensures forall t :: t in CardPicture(m) ==> !t.Lit?
    ensures forall t :: t in CardHeading(m, bookmarked) ==> !t.Lit?
    ensures forall t :: t in El("p", [], [Val(m.description)]) ==> !t.Lit?
  {
    PictureHasNoText(m);
    HeadingHasNoText(m, bookmarked);
    assert El("p", [], [Val(m.description)]) == [Open("p", []), Val(m.description), Close("p")];
  }

  lemma PictureHasNoText(m: ModuleEntry)
    ensures forall t :: t in CardPicture(m) ==> !t.Lit?
  {
    if !(m.image.Some? && m.image.value != []) {
      assert CardPicture(m) == [Open("div", []), Open("i", [Attr("class", "fas fa-mobile-alt")]), Close("i"), Close("div")];
    }
  }

  lemma HeadingHasNoText(m: ModuleEntry, bookmarked: bool)
    ensures forall t :: t in CardHeading(m, bookmarked) ==> !t.Lit?
  {
    assert CardHeading(m, bookmarked) == [Open("h3", []), Val(m.title), Close("h3"),
                                          Open("button", [Attr("onclick", "toggleBookmark('" + IdText(m.id) + "')")]),
                                          Open("i", [Attr("class", StarClass(bookmarked))]), Close("i"), Close("button")];
  }

  lemma LinkText(m: ModuleEntry, completed: bool)
    ensures Lit(if completed then "Review" else "Start Learning") in CardLink(m, completed)
    ensures forall t :: t in CardLink(m, completed) && t.Lit? ==> t == Lit(if completed then "Review" else "Start Learning")
  {
    assert CardLink(m, completed) == [Open("a", [Attr("href", m.url)]), Lit(if completed then "Review" else "Start Learning"),
                                      Open("i", [Attr("class", "fas fa-arrow-right")]), Close("i"), Close("a")];
  }

  lemma BadgeText(completed: bool)
    ensures completed ==> Lit("Completed") in CompletedBadge(completed)
    ensures forall t :: t in CompletedBadge(completed) && t.Lit? ==> completed && t == Lit("Completed")
  {
    if completed {
      assert CompletedBadge(completed)[1] == Lit("Completed");
    }
  }

  /** The card offers "Review" and shows the Completed badge exactly when the module is completed. */
  lemma ModuleCardCompletion(m: ModuleEntry, completed: seq<string>, bookmarks: seq<string>)
    ensures Lit("Review") in ModuleCard(m, completed, bookmarks) <==> Listed(m.id, completed)
    ensures Lit("Start Learning") in ModuleCard(m, completed, bookmarks) <==> !Listed(m.id, completed)
    ensures Lit("Completed") in ModuleCard(m, completed, bookmarks) <==> Listed(m.id, completed)
  {
    var done := Listed(m.id, completed);
    FixedPartsHaveNoText(m, Listed(m.id, bookmarks));
    LinkText(m, done);
    BadgeText(done);
    var fixed := CardPicture(m) + CardHeading(m, Listed(m.id, bookmarks)) + El("p", [], [Val(m.description)]);
    var link := CardLink(m, done);
    var badge := CompletedBadge(done);
    assert ModuleCard(m, completed, bookmarks) == fixed + link + badge;
    assert |"Review"| != |"Start Learning"| && |"Completed"| != |"Review"| && |"Completed"| != |"Start Learning"|;
    TextOutsideFixedParts(fixed, link, badge, Lit("Review"));
    TextOutsideFixedParts(fixed, link, badge, Lit("Start Learning"));
    TextOutsideFixedParts(fixed, link, badge, Lit("Completed"));
  }

  lemma TextOutsideFixedParts(fixed: Fragment, link: Fragment, badge: Fragment, t: Token)
    requires t.Lit? && forall u :: u in fixed ==> !u.Lit?
    ensures t in fixed + link + badge <==> t in link || t in badge
  {
    assert t !in fixed;
  }

  /** The card shows the highlighted star exactly when the module is bookmarked. */
  lemma ModuleCardStar(m: ModuleEntry, completed: seq<string>, bookmarks: seq<string>)
    ensures Open("i", [Attr("class", StarClass(true))]) in ModuleCard(m, completed, bookmarks) <==> Listed(m.id, bookmarks)
  {
    var star := Open("i", [Attr("class", StarClass(true))]);
    var marked := Listed(m.id, bookmarks);
    var done := Listed(m.id, completed);
    StarOnlyInHeading(m, marked, done);
    var picture := CardPicture(m);
    var heading := CardHeading(m, marked);
    var desc := El("p", [], [Val(m.description)]);
    var link := CardLink(m, done);
    var badge := CompletedBadge(done);
    assert ModuleCard(m, completed, bookmarks) == picture + heading + desc + link + badge;
    assert star !in picture + heading + desc + link + badge <== star !in heading;
  }

  /** Of the card's parts only the heading can hold the highlighted star, and it does iff the module is bookmarked. */
  lemma StarOnlyInHeading(m: ModuleEntry, marked: bool, done: bool)
    ensures var star := Open("i", [Attr("class", StarClass(true))]);
      && star !in CardPicture(m) && star !in El("p", [], [Val(m.description)])
      && star !in CardLink(m, done) && star !in CompletedBadge(done)
      && (star in CardHeading(m, marked) <==> marked)
  {
    StarNotInPicture(m);
    StarNotInLink(m, done);
    StarInHeading(m, marked);
  }

  lemma StarNotInPicture(m: ModuleEntry)
    ensures Open("i", [Attr("class", StarClass(true))]) !in CardPicture(m)
  {
    assert |"fas fa-mobile-alt"| != |StarClass(true)|;
    if !(m.image.Some? && m.image.value != []) {
      assert CardPicture(m) == [Open("div", []), Open("i", [Attr("class", "fas fa-mobile-alt")]), Close("i"), Close("div")];
    }
  }

  lemma StarNotInLink(m: ModuleEntry, done: bool)
    ensures Open("i", [Attr("class", StarClass(true))]) !in CardLink(m, done)
  {
    assert |"fas fa-arrow-right"| != |StarClass(true)|;
    assert CardLink(m, done) == [Open("a", [Attr("href", m.url)]), Lit(if done then "Review" else "Start Learning"),
                                 Open("i", [Attr("class", "fas fa-arrow-right")]), Close("i"), Close("a")];
  }

  lemma StarInHeading(m: ModuleEntry, marked: bool)
    ensures Open("i", [Attr("class", StarClass(true))]) in CardHeading(m, marked) <==> marked
  {
    assert |StarClass(true)| != |StarClass(false)|;
    assert CardHeading(m, marked) == [Open("h3", []), Val(m.title), Close("h3"),
                                      Open("button", [Attr("onclick", "toggleBookmark('" + IdText(m.id) + "')")]),
                                      Open("i", [Attr("class", StarClass(marked))]), Close("i"), Close("button")];
  }

  /**
   * The star's button passes the id as text (`toggleBookmark('<id>')`). For a
   * text id on a duplicate-free list, the redrawn card's star agrees with what
   * the toggle reported.
   */
  lemma StarFollowsToggle(m: ModuleEntry, completed: seq<string>, bookmarks: seq<string>, highlighted: bool)
    requires m.id.TextId?
    requires NoDuplicates(bookmarks)
    requires highlighted <==> IdText(m.id) !in bookmarks
    ensures Open("i", [Attr("class", StarClass(true))]) in ModuleCard(m, completed, Toggled(bookmarks, IdText(m.id))) <==> highlighted
  {
    ToggleFlipsMembership(bookmarks, IdText(m.id), IdText(m.id));
    ModuleCardStar(m, completed, Toggled(bookmarks, IdText(m.id)));
  }

  /**
   * A numeric id is bookmarked as its decimal text, which `includes` never
   * matches: the first toggle reports a highlight that the redrawn card does
   * not show.
   */
  lemma NumericIdStarNeverLit(m: ModuleEntry, completed: seq<string>, bookmarks: seq<string>)
    requires m.id.NumberId?
    requires IdText(m.id) !in bookmarks
    ensures IdText(m.id) in Toggled(bookmarks, IdText(m.id))
    ensures Open("i", [Attr("class", StarClass(true))]) !in ModuleCard(m, completed, Toggled(bookmarks, IdText(m.id)))
  {
    ToggleAbsentAppends(bookmarks, IdText(m.id));
    ModuleCardStar(m, completed, Toggled(bookmarks, IdText(m.id)));
  }
}
