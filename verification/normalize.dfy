/** Defaulting of project records (apps/web/src/lib/strapi.ts, `safeStack` and `normalizeProject`). */
module Normalize {
  import opened Wrappers
  import opened Seqs
  import opened Types

  function TextOf(item: StackItem): Option<string> {
    match item
    case Text(s) => Some(s)
    case NotText => None
  }

  /** The string entries of a `stack` value, in order; nothing when it is not an array. */
  function SafeStack(stack: StackField): (r: seq<string>)
    ensures stack.NotArray? ==> r == []
    ensures stack.Items? ==> forall s :: s in r ==> Text(s) in stack.items
  {
    match stack
    case NotArray => []
    case Items(items) =>
      var r := Keep(items, TextOf);
      assert forall s :: s in r ==> Text(s) in items by {
        forall s | s in r
          ensures Text(s) in items
        {
          var x :| x in items && TextOf(x) == Some(s);
        }
      }
      r
  }

  /** `SafeStack` keeps the string entries of each part of an array, in order. */
  lemma SafeStackAppend(a: seq<StackItem>, b: seq<StackItem>)
    ensures SafeStack(Items(a + b)) == SafeStack(Items(a)) + SafeStack(Items(b))
  {
    KeepAppend(a, b, TextOf);
  }

  /** Every string entry of the input survives. */
  lemma SafeStackKeepsStrings(items: seq<StackItem>, s: string)
    requires Text(s) in items
    ensures s in SafeStack(Items(items))
  {
    KeepComplete(items, TextOf, Text(s));
  }

  /** An array of string entries only, as a `stack` value. */
  function StackOf(strings: seq<string>): (r: StackField)
    ensures r.Items? && |r.items| == |strings|
    ensures forall i :: 0 <= i < |strings| ==> r.items[i] == Text(strings[i])
  {
    Items(Map(strings, (s: string) => Text(s)))
  }

  lemma {:induction false} SafeStackOfStrings(strings: seq<string>)
    ensures SafeStack(StackOf(strings)) == strings
  {
    if strings != [] {
      var items := StackOf(strings).items;
      assert items == [Text(strings[0])] + StackOf(strings[1..]).items;
      SafeStackAppend([Text(strings[0])], StackOf(strings[1..]).items);
      SafeStackOfStrings(strings[1..]);
      assert Keep([Text(strings[0])], TextOf) == [strings[0]] + Keep([Text(strings[0])][1..], TextOf);
      assert [Text(strings[0])][1..] == [];
    }
  }

  /** The shape every normalized record has: each defaulted field is present. */
  predicate IsNormalized(p: Project) {
    && p.stack.Items?
    && (forall i :: 0 <= i < |p.stack.items| ==> p.stack.items[i].Text?)
    && p.tags.Some?
    && p.gallery.Some?
    && (p.demoUrl.None? ==> p.liveUrl.None?)
    && p.featured.Some?
    && p.order.Some?
  }

  /**
   * `normalizeProject`: `stack` keeps only its string entries, `tags` and
   * `gallery` default to empty, `demoUrl` falls back to `liveUrl`, `featured`
   * becomes a boolean and `order` defaults to 0; nothing else changes.
   */
  function NormalizeProject(p: Project): (r: Project)
    ensures IsNormalized(r)
    ensures SafeStack(r.stack) == SafeStack(p.stack)
    ensures p.tags.Some? ==> r.tags == p.tags
    ensures p.tags.None? ==> r.tags == Some([])
    ensures p.gallery.Some? ==> r.gallery == p.gallery
    ensures p.gallery.None? ==> r.gallery == Some([])
    ensures p.demoUrl.Some? ==> r.demoUrl == p.demoUrl
    ensures p.demoUrl.None? ==> r.demoUrl == p.liveUrl
    ensures r.featured == Some(IsFeatured(p))
    ensures p.order.Some? ==> r.order == p.order
    ensures p.order.None? ==> r.order == Some(0)
    ensures r.(stack := p.stack, tags := p.tags, gallery := p.gallery, demoUrl := p.demoUrl,
               featured := p.featured, order := p.order) == p
  {
    var stack := SafeStack(p.stack);
    SafeStackOfStrings(stack);
    p.(
      stack := StackOf(stack),
      tags := Some(p.tags.GetOr([])),
      gallery := Some(p.gallery.GetOr([])),
      demoUrl := OrElse(p.demoUrl, p.liveUrl),
      featured := Some(IsFeatured(p)),
      order := Some(p.order.GetOr(0)))
  }

  /** A normalized record is left as it is. */
  lemma NormalizeFixesNormalized(p: Project)
    requires IsNormalized(p)
    ensures NormalizeProject(p) == p
  {
    var strings := SafeStack(p.stack);
    StringsOfTextItems(p.stack.items);
    var r := NormalizeProject(p);
    assert r.stack == StackOf(strings) == p.stack;
    assert r.tags == p.tags;
    assert r.gallery == p.gallery;
    assert r.demoUrl == p.demoUrl;
    assert IsFeatured(p) == p.featured.value;
    assert r.order == p.order;
  }

  lemma {:induction false} StringsOfTextItems(items: seq<StackItem>)
    requires forall i :: 0 <= i < |items| ==> items[i].Text?
    ensures StackOf(SafeStack(Items(items))).items == items
  {
    if items != [] {
      assert items == [items[0]] + items[1..];
      SafeStackAppend([items[0]], items[1..]);
      StringsOfTextItems(items[1..]);
      assert Keep([items[0]], TextOf) == [items[0].text] + Keep([items[0]][1..], TextOf);
      assert [items[0]][1..] == [];
    }
  }

  /** Normalizing twice is normalizing once. */
  lemma NormalizeIdempotent(p: Project)
    ensures NormalizeProject(NormalizeProject(p)) == NormalizeProject(p)
  {
    NormalizeFixesNormalized(NormalizeProject(p));
  }

  /** `normalizeProjects`: every record normalized, in order. */
  function NormalizeProjects(ps: seq<Project>): (r: seq<Project>)
    ensures |r| == |ps|
    ensures forall i :: 0 <= i < |ps| ==> r[i] == NormalizeProject(ps[i])
  {
    Map(ps, NormalizeProject)
  }
}
