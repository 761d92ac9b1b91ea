/** The four field rules of `ArxivScraper.extract` (AROS.py:49-73), as pure
    functions of the parsed page, and the properties they give the citation. */
module Extraction {
  import opened Wrappers
  import opened Soup

  const TitleName := "citation_title"
  const AuthorName := "citation_author"
  const DateName := "citation_date"
  const AbstractName := "citation_abstract"

  const NoTitle := "No meta title given"
  const NoAuthor := "No meta author given"
  const NoDate := "No meta date given"
  const NoAbstract := "No meta abstract given"

  /** `citation_authors` is either a list of names or, when the title tag is
      missing, a placeholder string. */
  datatype Authors = AuthorList(names: seq<string>) | AuthorSentinel(placeholder: string)

  /** The four values one successful `extract` leaves in the scraper. */
  datatype Citation = Citation(title: string, authors: Authors, date: string, abstractText: string)

  /** `tag["content"]`: the attribute's value, or a KeyError. */
  function ContentOf(tag: Element): (r: Result<string, Error>)
    ensures r.Ok? <==> tag.content.Some?
    ensures r.Ok? ==> tag.content == Some(r.value)
    ensures r.Err? ==> r.error == KeyError("content")
  {
    match tag.content
    case Some(c) => Ok(c)
    case None => Err(KeyError("content"))
  }

  /** `meta_tag["content"] if meta_tag else placeholder`; a found bs4 tag is
      always truthy, so the test is "was anything found". */
  function FieldRule(metaTag: Option<Element>, placeholder: string): (r: Result<string, Error>)
    ensures metaTag.None? ==> r == Ok(placeholder)
    ensures r.Err? <==> LacksContent(metaTag)
    ensures r.Err? ==> r.error == KeyError("content")
    ensures metaTag.Some? && r.Ok? ==> metaTag.value.content == Some(r.value)
  {
    match metaTag
    case None => Ok(placeholder)
    case Some(tag) => ContentOf(tag)
  }

  /** `[tag["content"] for tag in meta_tags if tag]`: the filter keeps every
      tag, and the first tag without `content` raises. */
  function ContentsOf(tags: seq<Element>): (r: Result<seq<string>, Error>)
    ensures r.Ok? <==> forall k :: 0 <= k < |tags| ==> tags[k].content.Some?
    ensures r.Ok? ==> |r.value| == |tags|
    ensures r.Ok? ==> forall k :: 0 <= k < |tags| ==> tags[k].content == Some(r.value[k])
    ensures r.Err? ==> r.error == KeyError("content")
  {
    if tags == [] then Ok([])
    else
      var head :- ContentOf(tags[0]);
      var rest :- ContentsOf(tags[1..]);
      Ok([head] + rest)
  }

  /** The author rule, fed with the title lookup still held in `meta_tag`:
      the list is built only when a title tag was found. */
  function AuthorsRule(titleTag: Option<Element>, authorTags: seq<Element>): (r: Result<Authors, Error>)
    ensures titleTag.None? ==> r == Ok(AuthorSentinel(NoAuthor))
    ensures titleTag.Some? ==> (r.Ok? <==> forall k :: 0 <= k < |authorTags| ==> authorTags[k].content.Some?)
    ensures titleTag.Some? && r.Ok? ==>
              r.value.AuthorList? && |r.value.names| == |authorTags|
              && forall k :: 0 <= k < |authorTags| ==> authorTags[k].content == Some(r.value.names[k])
    ensures r.Err? ==> r.error == KeyError("content")
  {
    if titleTag.Some? then
      var names :- ContentsOf(authorTags);
      Ok(AuthorList(names))
    else
      Ok(AuthorSentinel(NoAuthor))
  }

  /** The rule for `citation_title`: the first such element's `content`, or the placeholder. */
  function TitleResult(page: seq<Element>): (r: Result<string, Error>)
    ensures (forall j :: 0 <= j < |page| ==> !IsMeta(page[j], TitleName)) ==> r == Ok(NoTitle)
    ensures r.Err? <==> LacksContent(Find(page, TitleName))
    ensures Find(page, TitleName).Some? && r.Ok? ==> Find(page, TitleName).value.content == Some(r.value)
  {
    FieldRule(Find(page, TitleName), NoTitle)
  }

  /** The rule for `citation_author`, gated by the title lookup. */
  function AuthorsResult(page: seq<Element>): (r: Result<Authors, Error>)
    ensures (forall j :: 0 <= j < |page| ==> !IsMeta(page[j], TitleName)) ==> r == Ok(AuthorSentinel(NoAuthor))
    ensures Find(page, TitleName).Some? && r.Ok? ==>
              r.value.AuthorList? && |r.value.names| == |FindAll(page, AuthorName)|
    ensures r.Err? ==> r.error == KeyError("content")
  {
    AuthorsRule(Find(page, TitleName), FindAll(page, AuthorName))
  }

  /** The rule for `citation_date`: the first such element's `content`, or the placeholder. */
  function DateResult(page: seq<Element>): (r: Result<string, Error>)
    ensures (forall j :: 0 <= j < |page| ==> !IsMeta(page[j], DateName)) ==> r == Ok(NoDate)
    ensures r.Err? <==> LacksContent(Find(page, DateName))
    ensures Find(page, DateName).Some? && r.Ok? ==> Find(page, DateName).value.content == Some(r.value)
  {
    FieldRule(Find(page, DateName), NoDate)
  }

  /** The rule for `citation_abstract`: the first such element's `content`, or the placeholder. */
  function AbstractResult(page: seq<Element>): (r: Result<string, Error>)
    ensures (forall j :: 0 <= j < |page| ==> !IsMeta(page[j], AbstractName)) ==> r == Ok(NoAbstract)
    ensures r.Err? <==> LacksContent(Find(page, AbstractName))
    ensures Find(page, AbstractName).Some? && r.Ok? ==> Find(page, AbstractName).value.content == Some(r.value)
  {
    FieldRule(Find(page, AbstractName), NoAbstract)
  }

  /** The whole of `extract` as a value: the four rules in source order, the
      first error ending it. */
  function Extracted(page: seq<Element>): (r: Result<Citation, Error>)
    ensures r.Ok? <==> TitleResult(page).Ok? && AuthorsResult(page).Ok? && DateResult(page).Ok? && AbstractResult(page).Ok?
    ensures r.Ok? ==> r.value == Citation(TitleResult(page).value, AuthorsResult(page).value,
                                          DateResult(page).value, AbstractResult(page).value)
    ensures r.Err? ==> r.error == KeyError("content")
  {
    var title :- TitleResult(page);
    var authors :- AuthorsResult(page);
    var date :- DateResult(page);
    var abstractText :- AbstractResult(page);
    Ok(Citation(title, authors, date, abstractText))
  }

  /** A field rule takes the first matching element's `content`; a found
      element without `content` is a KeyError, not a placeholder. */
  lemma FieldIsFirstMatch(page: seq<Element>, name: string, placeholder: string, i: nat)
    requires i < |page| && IsMeta(page[i], name)
    requires forall j :: 0 <= j < i ==> !IsMeta(page[j], name)
    ensures page[i].content.Some? ==> FieldRule(Find(page, name), placeholder) == Ok(page[i].content.value)
    ensures page[i].content.None? ==> FieldRule(Find(page, name), placeholder) == Err(KeyError("content"))
  {
  }

  /** With no matching element a field rule gives its placeholder. */
  lemma FieldPlaceholder(page: seq<Element>, name: string, placeholder: string)
    requires forall j :: 0 <= j < |page| ==> !IsMeta(page[j], name)
    ensures FieldRule(Find(page, name), placeholder) == Ok(placeholder)
  {
  }

  /** A field rule depends on nothing but the elements with its own name. */
  lemma {:induction false} FieldDependsOnlyOnItsTags(p: seq<Element>, q: seq<Element>, name: string, placeholder: string)
    requires FindAll(p, name) == FindAll(q, name)
    ensures FieldRule(Find(p, name), placeholder) == FieldRule(Find(q, name), placeholder)
  {
    FindIsHeadOfFindAll(p, name);
    FindIsHeadOfFindAll(q, name);
  }

  /** The author placeholder appears exactly when the page has no title
      element, whatever author elements it has. */
  lemma AuthorsGatedByTitle(page: seq<Element>)
    ensures AuthorsResult(page) == Ok(AuthorSentinel(NoAuthor))
        <==> forall j :: 0 <= j < |page| ==> !IsMeta(page[j], TitleName)
  {
  }

  /** With a title element present, the authors are the `content` values of
      every `citation_author` element, in document order (possibly none), and
      the rule fails exactly when one of those elements has no `content`. */
  lemma {:induction false} AuthorsInDocumentOrder(page: seq<Element>, t: nat)
    requires t < |page| && IsMeta(page[t], TitleName)
    ensures AuthorsResult(page).Ok? <==> AllHaveContent(page, AuthorName)
    ensures AuthorsResult(page).Ok? ==> AuthorsResult(page).value.AuthorList?
    ensures AuthorsResult(page).Ok? ==>
              var names := AuthorsResult(page).value.names;
              var idx := MatchIndices(page, AuthorName);
              |names| == |idx| && forall k :: 0 <= k < |names| ==> page[idx[k]].content == Some(names[k])
  {
    FindAllInDocumentOrder(page, AuthorName);
    FindAllHaveContent(page, AuthorName);
    assert Find(page, TitleName).Some?;
  }

  /** `extract` never fails for a missing field; it fails, with a KeyError,
      exactly when a found title, date or abstract element, or (with a title
      element present) any author element, has no `content`. */
  lemma {:induction false} ExtractFailsOnlyOnMissingContent(page: seq<Element>)
    ensures Extracted(page).Err? <==>
              LacksContent(Find(page, TitleName))
              || (Find(page, TitleName).Some? && !AllHaveContent(page, AuthorName))
              || LacksContent(Find(page, DateName))
              || LacksContent(Find(page, AbstractName))
    ensures Extracted(page).Err? ==> Extracted(page).error == KeyError("content")
  {
    match FirstIndex(page, TitleName)
    case None =>
    case Some(t) =>
      AuthorsInDocumentOrder(page, t);
  }

  /** A lookup that found an element without `content`. */
  predicate LacksContent(metaTag: Option<Element>) {
    metaTag.Some? && metaTag.value.content.None?
  }
}
