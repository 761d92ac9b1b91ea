/** The parsed page as the scraper sees it, and the two searches it makes on
    it: `find` (the first match) and `find_all` (every match, in document
    order), both with the condition `("meta", attrs={"name": name})`. */
module Soup {
  import opened Wrappers

  /** One element of the parsed page: its tag name and its `name` and
      `content` attributes, each of which may be absent. */
  datatype Element = Element(tag: string, name: Option<string>, content: Option<string>)

  /** The search condition: a `meta` element whose `name` attribute is `name`. */
  predicate IsMeta(e: Element, name: string) {
    e.tag == "meta" && e.name == Some(name)
  }

  /** Position of the first matching element in document order, if any. */
  function FirstIndex(page: seq<Element>, name: string): (r: Option<nat>)
    ensures r.Some? ==> r.value < |page| && IsMeta(page[r.value], name)
    ensures r.Some? ==> forall j :: 0 <= j < r.value ==> !IsMeta(page[j], name)
    ensures r.None? <==> forall j :: 0 <= j < |page| ==> !IsMeta(page[j], name)
  {
    if page == [] then None
    else if IsMeta(page[0], name) then Some(0)
    else
      match FirstIndex(page[1..], name)
      case None =>
        assert forall j :: 1 <= j < |page| ==> page[j] == page[1..][j - 1];
        None
      case Some(i) =>
        assert forall j :: 1 <= j <= i ==> page[j] == page[1..][j - 1];
        Some(i + 1)
  }

  /** `find`: the first matching element, or None when there is none. */
  function Find(page: seq<Element>, name: string): (r: Option<Element>)
    ensures r.Some? ==> IsMeta(r.value, name)
    ensures r.None? <==> forall j :: 0 <= j < |page| ==> !IsMeta(page[j], name)
  {
    match FirstIndex(page, name)
    case None => None
    case Some(i) => Some(page[i])
  }

  /** `find_all`: every matching element, in document order. */
  function FindAll(page: seq<Element>, name: string): (r: seq<Element>)
    ensures |r| <= |page|
    ensures forall k :: 0 <= k < |r| ==> IsMeta(r[k], name)
  {
    if page == [] then []
    else (if IsMeta(page[0], name) then [page[0]] else []) + FindAll(page[1..], name)
  }

  /** Reference definition of "the matching positions, in increasing order",
      built from the end of the page rather than from the front. */
  function MatchIndices(page: seq<Element>, name: string): (r: seq<nat>)
    ensures forall k :: 0 <= k < |r| ==> r[k] < |page| && IsMeta(page[r[k]], name)
    ensures forall k, l :: 0 <= k < l < |r| ==> r[k] < r[l]
    ensures forall i :: 0 <= i < |page| && IsMeta(page[i], name) ==> i in r
  {
    if page == [] then []
    else
      var n := |page| - 1;
      var front := MatchIndices(page[..n], name);
      assert forall i :: 0 <= i < n ==> page[..n][i] == page[i];
      front + (if IsMeta(page[n], name) then [n] else [])
  }

  /** `find_all` distributes over concatenation of pages. */
  lemma {:induction false} FindAllAppend(p: seq<Element>, q: seq<Element>, name: string)
    ensures FindAll(p + q, name) == FindAll(p, name) + FindAll(q, name)
  {
    if p == [] {
      assert p + q == q;
    } else {
      assert (p + q)[1..] == p[1..] + q;
      FindAllAppend(p[1..], q, name);
    }
  }

  /** `find_all` returns exactly the elements at the matching positions, in
      increasing (document) order. */
  lemma {:induction false} FindAllInDocumentOrder(page: seq<Element>, name: string)
    ensures |FindAll(page, name)| == |MatchIndices(page, name)|
    ensures forall k :: 0 <= k < |FindAll(page, name)| ==>
              FindAll(page, name)[k] == page[MatchIndices(page, name)[k]]
  {
    if page != [] {
      var n := |page| - 1;
      assert page == page[..n] + [page[n]];
      FindAllAppend(page[..n], [page[n]], name);
      FindAllInDocumentOrder(page[..n], name);
      assert [page[n]][1..] == [];
    }
  }

  /** `find` is the head of `find_all`: None exactly when `find_all` is empty. */
  lemma {:induction false} FindIsHeadOfFindAll(page: seq<Element>, name: string)
    ensures Find(page, name) == if FindAll(page, name) == [] then None else Some(FindAll(page, name)[0])
  {
    FindAllInDocumentOrder(page, name);
    var idx := MatchIndices(page, name);
    match FirstIndex(page, name)
    case None =>
    case Some(f) =>
      assert f in idx;
  }

  /** Every element matching `name` has a `content` attribute. */
  predicate AllHaveContent(page: seq<Element>, name: string) {
    forall i :: 0 <= i < |page| && IsMeta(page[i], name) ==> page[i].content.Some?
  }

  /** Every element `find_all` returns has `content` exactly when every
      matching element of the page has it. */
  lemma {:induction false} FindAllHaveContent(page: seq<Element>, name: string)
    ensures (forall k :: 0 <= k < |FindAll(page, name)| ==> FindAll(page, name)[k].content.Some?)
        <==> AllHaveContent(page, name)
  {
    var tags := FindAll(page, name);
    var idx := MatchIndices(page, name);
    FindAllInDocumentOrder(page, name);
    if !AllHaveContent(page, name) {
      var i :| 0 <= i < |page| && IsMeta(page[i], name) && page[i].content.None?;
      assert i in idx;
      var k :| 0 <= k < |idx| && idx[k] == i;
      assert tags[k].content.None?;
    }
  }
}
