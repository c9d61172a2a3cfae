/**
 * Section identifiers derived from titles (`generateSectionId`,
 * assets/js/components.js): lower-case, drop every character other than
 * a-z, 0-9, white space and '-', turn each white-space run into one '-',
 * turn each '-' run into one '-', and drop one '-' at either edge.
 */
module SectionIds {
  import opened Wrappers
  import opened Strings

  /** The characters JavaScript's `\s` class matches. */
  predicate IsJsSpace(c: char) {
    c == ' ' || c == '\t' || c == '\n' || c == '\r' || c == '\U{000B}' || c == '\U{000C}'
    || c == '\U{00A0}' || c == '\U{1680}' || '\U{2000}' <= c <= '\U{200A}'
    || c == '\U{2028}' || c == '\U{2029}' || c == '\U{202F}' || c == '\U{205F}'
    || c == '\U{3000}' || c == '\U{FEFF}'
  }

  predicate IsHyphen(c: char) {
    c == '-'
  }

  predicate IsLowerAlnum(c: char) {
    'a' <= c <= 'z' || '0' <= c <= '9'
  }

  /** The character set of a finished identifier. */
  predicate IsSlugChar(c: char) {
    IsLowerAlnum(c) || c == '-'
  }

  predicate NoDoubleHyphen(s: string) {
    forall i :: 0 <= i < |s| - 1 ==> s[i] != '-' || s[i + 1] != '-'
  }

  /** What a cleaned identifier looks like: slug characters only, no "--", no '-' at an edge. */
  predicate IsSlug(s: string) {
    && (forall i :: 0 <= i < |s| ==> IsSlugChar(s[i]))
    && NoDoubleHyphen(s)
    && (s != [] ==> s[0] != '-' && s[|s| - 1] != '-')
  }

  /** `.replace(/[^a-z0-9\s-]/g, '')` */
  function Strip(s: string): (r: string)
    ensures forall i :: 0 <= i < |r| ==> IsLowerAlnum(r[i]) || IsJsSpace(r[i]) || r[i] == '-'
    ensures |r| <= |s|
    decreases |s|
  {
    if s == [] then []
    else if IsLowerAlnum(s[0]) || IsJsSpace(s[0]) || s[0] == '-' then [s[0]] + Strip(s[1..])
    else Strip(s[1..])
  }

  /** Drops the longest prefix of `s` whose characters all satisfy `inRun`. */
  function SkipRun(s: string, inRun: char -> bool): (r: string)
    ensures |r| <= |s| && r == s[|s| - |r|..]
    ensures r != [] ==> !inRun(r[0])
    decreases |s|
  {
    if s != [] && inRun(s[0]) then SkipRun(s[1..], inRun) else s
  }

  /** `.replace(/X+/g, '-')`: every maximal run of characters in class X becomes one '-'. */
  function CollapseRuns(s: string, inRun: char -> bool): (r: string)
    ensures r != [] <==> s != []
    ensures r != [] ==> (r[0] == '-' <==> s[0] == '-' || inRun(s[0]))
    decreases |s|
  {
    if s == [] then []
    else if inRun(s[0]) then "-" + CollapseRuns(SkipRun(s[1..], inRun), inRun)
    else [s[0]] + CollapseRuns(s[1..], inRun)
  }

  /** Collapsing keeps slug characters and turns every run character into '-'. */
  lemma {:induction false} CollapseKeepsSlugChars(s: string, inRun: char -> bool)
    requires forall i :: 0 <= i < |s| ==> IsSlugChar(s[i]) || inRun(s[i])
    ensures forall i :: 0 <= i < |CollapseRuns(s, inRun)| ==> IsSlugChar(CollapseRuns(s, inRun)[i])
    decreases |s|
  {
    if s != [] {
      var head: char, tail: string;
      if inRun(s[0]) {
        var rest := SkipRun(s[1..], inRun);
        forall i | 0 <= i < |rest| ensures IsSlugChar(rest[i]) || inRun(rest[i]) {
          assert rest[i] == s[|s| - |rest| + i];
        }
        CollapseKeepsSlugChars(rest, inRun);
        head, tail := '-', CollapseRuns(rest, inRun);
      } else {
        CollapseKeepsSlugChars(s[1..], inRun);
        head, tail := s[0], CollapseRuns(s[1..], inRun);
      }
      assert CollapseRuns(s, inRun) == [head] + tail;
      forall i | 0 <= i < |tail| + 1 ensures IsSlugChar(([head] + tail)[i]) {
        if i > 0 { assert ([head] + tail)[i] == tail[i - 1]; }
      }
    }
  }

  /** `.replace(/^-|-$/g, '')`: drops one leading and one (other) trailing '-'. */
  function TrimEdges(s: string): (r: string)
    ensures |r| <= |s|
  {
    var t := if s != [] && s[0] == '-' then s[1..] else s;
    if t != [] && t[|t| - 1] == '-' then t[..|t| - 1] else t
  }

  /** The whole cleaning pipeline of `generateSectionId`. */
  function Clean(title: string): string {
    TrimEdges(CollapseRuns(CollapseRuns(Strip(Lower(title)), IsJsSpace), IsHyphen))
  }

  /**
   * `generateSectionId(sectionName, componentType)`: an absent or empty name
   * yields the freshly generated id `freshId`; otherwise a non-empty type is
   * prepended with a '-'.
   */
  function GenerateSectionId(name: Option<string>, componentType: string, freshId: string): (r: string)
    ensures (name.None? || name.value == []) ==> r == freshId
    ensures name.Some? && name.value != [] && componentType != [] ==>
              r == componentType + "-" + Clean(name.value) && IsSlug(r[|componentType| + 1..])
    ensures name.Some? && name.value != [] && componentType == [] ==> r == Clean(name.value) && IsSlug(r)
  {
    if name.None? || name.value == [] then freshId
    else
      CleanIsSlug(name.value);
      var prefix := if componentType != [] then componentType + "-" else "";
      assert (prefix + Clean(name.value))[|prefix|..] == Clean(name.value);
      prefix + Clean(name.value)
  }

  // Output shape.

  /** After collapsing, no two '-' are adjacent if '-' itself is in the class. */
  lemma {:induction false} CollapseHyphensNoDouble(s: string, inRun: char -> bool)
    requires inRun('-')
    ensures NoDoubleHyphen(CollapseRuns(s, inRun))
    decreases |s|
  {
    if s != [] {
      if inRun(s[0]) {
        var rest := SkipRun(s[1..], inRun);
        CollapseHyphensNoDouble(rest, inRun);
        var r' := CollapseRuns(rest, inRun);
        assert r' != [] ==> r'[0] != '-';
        assert forall i :: 1 <= i < |r'| + 1 ==> ("-" + r')[i] == r'[i - 1];
      } else {
        CollapseHyphensNoDouble(s[1..], inRun);
        var r' := CollapseRuns(s[1..], inRun);
        assert s[0] != '-';
        assert forall i :: 1 <= i < |r'| + 1 ==> ([s[0]] + r')[i] == r'[i - 1];
      }
    }
  }

  lemma TrimEdgesIsSlug(s: string)
    requires forall i :: 0 <= i < |s| ==> IsSlugChar(s[i])
    requires NoDoubleHyphen(s)
    ensures IsSlug(TrimEdges(s))
  {
    var t := if s != [] && s[0] == '-' then s[1..] else s;
    assert forall i :: 0 <= i < |t| ==> IsSlugChar(t[i]);
    assert NoDoubleHyphen(t);
    assert t != [] && s != [] && s[0] == '-' ==> t[0] == s[1];
    var r := TrimEdges(s);
    assert r == t[..|r|];
    if r != [] && t != [] && t[|t| - 1] == '-' {
      assert r[|r| - 1] == t[|t| - 2];
    }
  }

  /** Whatever the title, the cleaned form is a slug. */
  lemma CleanIsSlug(title: string)
    ensures IsSlug(Clean(title))
  {
    var a := Strip(Lower(title));
    CollapseKeepsSlugChars(a, IsJsSpace);
    var b := CollapseRuns(a, IsJsSpace);
    CollapseKeepsSlugChars(b, IsHyphen);
    CollapseHyphensNoDouble(b, IsHyphen);
    TrimEdgesIsSlug(CollapseRuns(b, IsHyphen));
  }

  // Idempotence: an identifier that is already a slug passes through unchanged.

  lemma {:induction false} StripKeeps(s: string)
    requires forall i :: 0 <= i < |s| ==> IsSlugChar(s[i])
    ensures Strip(s) == s
    decreases |s|
  {
    if s != [] {
      StripKeeps(s[1..]);
    }
  }

  lemma {:induction false} CollapseWithoutRunChars(s: string, inRun: char -> bool)
    requires forall i :: 0 <= i < |s| ==> !inRun(s[i])
    ensures CollapseRuns(s, inRun) == s
    decreases |s|
  {
    if s != [] {
      CollapseWithoutRunChars(s[1..], inRun);
    }
  }

  lemma {:induction false} CollapseSingleHyphens(s: string)
    requires NoDoubleHyphen(s)
    ensures CollapseRuns(s, IsHyphen) == s
    decreases |s|
  {
    if s != [] {
      assert NoDoubleHyphen(s[1..]);
      CollapseSingleHyphens(s[1..]);
      if s[0] == '-' {
        assert SkipRun(s[1..], IsHyphen) == s[1..];
      }
    }
  }

  lemma CleanOfSlug(s: string)
    requires IsSlug(s)
    ensures Clean(s) == s
  {
    LowerOfLower(s);
    StripKeeps(s);
    assert forall i :: 0 <= i < |s| ==> !IsJsSpace(s[i]) by {
      forall i | 0 <= i < |s| ensures !IsJsSpace(s[i]) {
        assert IsSlugChar(s[i]);
      }
    }
    CollapseWithoutRunChars(s, IsJsSpace);
    CollapseSingleHyphens(s);
    assert Clean(s) == TrimEdges(s);
  }

  lemma CleanIdempotent(title: string)
    ensures Clean(Clean(title)) == Clean(title)
  {
    CleanIsSlug(title);
    CleanOfSlug(Clean(title));
  }

  /** Stripping a string with no kept character leaves nothing. */
  lemma {:induction false} StripNothingKept(s: string)
    requires forall i :: 0 <= i < |s| ==> !(IsLowerAlnum(s[i]) || IsJsSpace(s[i]) || s[i] == '-')
    ensures Strip(s) == []
    decreases |s|
  {
    if s != [] {
      StripNothingKept(s[1..]);
    }
  }

  /**
   * A non-empty type P gives "P-" even when no character of the title is kept:
   * the title is non-empty, so no fresh id is taken.
   */
  lemma HeaderOfPunctuation(title: string, componentType: string, freshId: string)
    requires title != [] && componentType != []
    requires forall i :: 0 <= i < |title| ==>
               !(IsLowerAlnum(LowerChar(title[i])) || IsJsSpace(LowerChar(title[i])) || LowerChar(title[i]) == '-')
    ensures GenerateSectionId(Some(title), componentType, freshId) == componentType + "-"
  {
    StripNothingKept(Lower(title));
  }

  /** Same title and same type give the same identifier: repeated titles collide. */
  lemma SameTitleSameId(title: string, componentType: string, freshA: string, freshB: string)
    requires title != []
    ensures GenerateSectionId(Some(title), componentType, freshA) == GenerateSectionId(Some(title), componentType, freshB)
  {
  }
}
