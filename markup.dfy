/**
 * Markup as the renderers build it with template literals, one token per
 * piece: an opening tag with its attributes, a closing tag, fixed text of the
 * template (`Lit`) and text interpolated from the data (`Val`). Styling-only
 * class strings and purely decorative wrapper elements are not reproduced;
 * `.map(...).join('')` becomes `Join`.
 */
module Markup {

  datatype Attr = Attr(name: string, value: string)

  datatype Token =
    | Open(tag: string, attrs: seq<Attr>)
    | Close(tag: string)
    | Lit(text: string)
    | Val(text: string)

  type Fragment = seq<Token>

  /** `<tag attrs>body</tag>` */
  function El(tag: string, attrs: seq<Attr>, body: Fragment): (r: Fragment)
    ensures |r| == |body| + 2 && r[0] == Open(tag, attrs) && r[|r| - 1] == Close(tag)
    ensures r[1..|r| - 1] == body
  {
    [Open(tag, attrs)] + body + [Close(tag)]
  }

  /** `parts.join('')` */
  function Join(parts: seq<Fragment>): Fragment
    decreases |parts|
  {
    if parts == [] then [] else parts[0] + Join(parts[1..])
  }

  /** The number of `tag` elements opened in `f`. */
  function CountOpen(f: Fragment, tag: string): nat
    decreases |f|
  {
    if f == [] then 0
    else (if f[0].Open? && f[0].tag == tag then 1 else 0) + CountOpen(f[1..], tag)
  }

  lemma {:induction false} CountOpenAppend(a: Fragment, b: Fragment, tag: string)
    ensures CountOpen(a + b, tag) == CountOpen(a, tag) + CountOpen(b, tag)
    decreases |a|
  {
    if a != [] {
      assert (a + b)[1..] == a[1..] + b;
      CountOpenAppend(a[1..], b, tag);
    } else {
      assert a + b == b;
    }
  }

  lemma CountOpenEl(t: string, attrs: seq<Attr>, body: Fragment, tag: string)
    ensures CountOpen(El(t, attrs, body), tag) == (if t == tag then 1 else 0) + CountOpen(body, tag)
  {
    CountOpenAppend([Open(t, attrs)] + body, [Close(t)], tag);
    CountOpenAppend([Open(t, attrs)], body, tag);
  }

  /** Text alone opens no element. */
  lemma {:induction false} CountOpenText(f: Fragment, tag: string)
    requires forall i :: 0 <= i < |f| ==> !f[i].Open?
    ensures CountOpen(f, tag) == 0
    decreases |f|
  {
    if f != [] {
      CountOpenText(f[1..], tag);
    }
  }

  lemma CountOpenCat3(a: Fragment, b: Fragment, c: Fragment, tag: string)
    ensures CountOpen(a + b + c, tag) == CountOpen(a, tag) + CountOpen(b, tag) + CountOpen(c, tag)
  {
    CountOpenAppend(a + b, c, tag);
    CountOpenAppend(a, b, tag);
  }

  lemma {:induction false} JoinAppend(a: seq<Fragment>, b: seq<Fragment>)
    ensures Join(a + b) == Join(a) + Join(b)
    decreases |a|
  {
    if a != [] {
      assert (a + b)[1..] == a[1..] + b;
      JoinAppend(a[1..], b);
    } else {
      assert a + b == b;
    }
  }

  /** The total count over the parts of a join. */
  function SumCounts(parts: seq<Fragment>, tag: string): nat
    decreases |parts|
  {
    if parts == [] then 0 else CountOpen(parts[0], tag) + SumCounts(parts[1..], tag)
  }

  lemma {:induction false} CountOpenJoin(parts: seq<Fragment>, tag: string)
    ensures CountOpen(Join(parts), tag) == SumCounts(parts, tag)
    decreases |parts|
  {
    if parts != [] {
      CountOpenAppend(parts[0], Join(parts[1..]), tag);
      CountOpenJoin(parts[1..], tag);
    }
  }

  /** A join of parts that each open exactly one `tag` opens as many as there are parts. */
  lemma {:induction false} CountOpenJoinOnes(parts: seq<Fragment>, tag: string)
    requires forall i :: 0 <= i < |parts| ==> CountOpen(parts[i], tag) == 1
    ensures CountOpen(Join(parts), tag) == |parts|
    decreases |parts|
  {
    CountOpenJoin(parts, tag);
    SumCountsOnes(parts, tag);
  }

  lemma {:induction false} SumCountsOnes(parts: seq<Fragment>, tag: string)
    requires forall i :: 0 <= i < |parts| ==> CountOpen(parts[i], tag) == 1
    ensures SumCounts(parts, tag) == |parts|
    decreases |parts|
  {
    if parts != [] {
      SumCountsOnes(parts[1..], tag);
    }
  }

  /** A join of parts without `tag` opens none. */
  lemma {:induction false} CountOpenJoinZeros(parts: seq<Fragment>, tag: string)
    requires forall i :: 0 <= i < |parts| ==> CountOpen(parts[i], tag) == 0
    ensures CountOpen(Join(parts), tag) == 0
    decreases |parts|
  {
    if parts != [] {
      CountOpenAppend(parts[0], Join(parts[1..]), tag);
      CountOpenJoinZeros(parts[1..], tag);
    }
  }

  /** Every token of every part ends up in the join. */
  lemma {:induction false} InJoin(parts: seq<Fragment>, i: nat, t: Token)
    requires i < |parts| && t in parts[i]
    ensures t in Join(parts)
    decreases |parts|
  {
    if i > 0 {
      InJoin(parts[1..], i - 1, t);
    }
  }
}
