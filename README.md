# AROS citation scraper in Dafny

A model of `ArxivScraper` from AROS (Academic Research Online System). The
scraper reads the citation `<meta>` elements of an arXiv abstract page and
builds a one-row table with the columns Title, Authors, Date and Abstract.
The model covers the object's fields as `__init__` creates them, and the two
methods that assign them step by step. `extract` applies four field rules to
the parsed page. `transform` builds the dictionary of one-element lists and
the DataFrame made from it.

Modules:

- `Wrappers` (wrappers.dfy): `Option` (Python's `None`), `Result`, and each
  Python exception the core can raise (`KeyError`, `TypeError`, `ValueError`).
- `Soup` (soup.dfy): the parsed page as a sequence of `Element`s. Each
  element has a tag name and optional `name` and `content` attributes.
  `Find` gives the first match of `("meta", attrs={"name": n})` and
  `FindAll` gives every match in document order. `MatchIndices` is a
  separate reference definition of "the matching positions, in increasing
  order", and the lemmas tie `FindAll` and `Find` to it.
- `Text` (text.dfy): Python's `str.join`, and iteration over a string
  (each character as a one-character string).
- `Extraction` (extraction.dfy): the field rules as pure functions of the
  page, and `Extracted`, the whole of `extract` as one value.
- `Transformation` (transformation.dfy): the Authors cell (`"; ".join`),
  the dictionary (`RowData`) and the DataFrame (`FrameOf`).
- `Aros` (aros.dfy): the class `ArxivScraper` with its fields, constructor,
  `Extract` and `Transform`. `Valid()` says that `df`, once set, is the
  frame built from `data`. There are also two client methods that run the
  class on concrete pages.

Behaviour reproduced exactly as the code has it:

- The author rule tests `meta_tag`, and at that point `meta_tag` still holds
  the title lookup. So the author placeholder `"No meta author given"`
  appears exactly when the page has no `citation_title` element, whatever
  author elements it has. With a title element, the authors are a list,
  which may be empty.
- When `citation_authors` is the placeholder string, `"; ".join` walks its
  characters. The Authors cell is then `"N; o;  ; m; e; t; a; ..."`, which
  is 3n - 2 characters long for a placeholder of n characters.
- If a found element has no `content` attribute, `tag["content"]` raises a
  KeyError; it does not yield a placeholder. The fields assigned before the
  failing line keep their new values, and the later fields keep their old
  ones.
- `extract` before any page content exists (`page_content` is still None)
  raises a TypeError in the parser at AROS.py:55, before `soup` or any
  citation field is assigned.
- `transform` with `citation_authors` still None raises a TypeError (from
  `join`), and `data` and `df` stay unchanged. A None title, date or
  abstract is copied into the row as None.

## Model

| member | source | states |
|---|---|---|
| Soup.FirstIndex | AROS.py:59 | the position `find` returns is a matching `meta` element with no match before it; there is no position exactly when no element matches |
| Soup.Find | AROS.py:59 | `find` returns a matching element, and returns None exactly when no element of the page matches |
| Soup.FindAll | AROS.py:63 | every element `find_all` returns matches the search condition, and there are no more of them than page elements |
| Soup.MatchIndices | AROS.py:63 | reference for document order: strictly increasing positions, each a match, and every matching position among them |
| Soup.FindAllAppend | AROS.py:63 | `find_all` on two concatenated pages is `find_all` on the first followed by `find_all` on the second |
| Soup.FindAllInDocumentOrder | AROS.py:63 | `find_all` returns exactly the elements at the matching positions, in increasing order |
| Soup.FindIsHeadOfFindAll | AROS.py:59-63 | `find` is None exactly when `find_all` is empty, and is otherwise its first element |
| Soup.FindAllHaveContent | AROS.py:63-64 | every element `find_all` returns has `content` if and only if every matching element of the page has it |
| Text.Join | AROS.py:83 | `sep.join(parts)`: "" for no parts, the part itself for one, and in general a string that begins with the first part |
| Text.Chars | AROS.py:83 | iterating a string yields one one-character string per character, in order |
| Text.JoinLength | AROS.py:83 | joining no parts gives ""; joining n > 0 parts gives their total length plus n - 1 separators |
| Extraction.ContentsOf | AROS.py:64 | the comprehension succeeds exactly when every author tag has `content`, and then yields one value per tag, in order, each that tag's `content`; otherwise raises KeyError('content') |
| Extraction.ContentOf | AROS.py:60 | `tag["content"]` succeeds exactly when the tag has `content`, gives that value, and otherwise raises KeyError('content') |
| Extraction.FieldRule | AROS.py:60 | no tag gives the placeholder; a found tag gives its `content`; the rule raises, always KeyError('content'), exactly when the found tag has no `content` |
| Extraction.AuthorsRule | AROS.py:64 | no title tag gives the placeholder; with a title tag it succeeds exactly when every author tag has `content`, and then lists those values in order, one per tag |
| Extraction.TitleResult | AROS.py:59-60 | no `citation_title` element gives "No meta title given"; fails exactly when the first one lacks `content`; otherwise its `content` |
| Extraction.AuthorsResult | AROS.py:59-64 | no `citation_title` element gives the author placeholder; with one, success gives one name per `citation_author` element; any failure is KeyError('content') |
| Extraction.DateResult | AROS.py:67-68 | no `citation_date` element gives "No meta date given"; fails exactly when the first one lacks `content`; otherwise its `content` |
| Extraction.AbstractResult | AROS.py:71-72 | no `citation_abstract` element gives "No meta abstract given"; fails exactly when the first one lacks `content`; otherwise its `content` |
| Extraction.Extracted | AROS.py:59-72 | extraction succeeds exactly when all four rules do, and then the citation holds their four values; any failure is KeyError('content') |
| Extraction.FieldIsFirstMatch | AROS.py:59-72 | title, date and abstract are each the `content` of the first matching element, or a KeyError when that element has no `content` |
| Extraction.FieldPlaceholder | AROS.py:59-72 | with no matching element, the title, date or abstract rule gives its own placeholder string |
| Extraction.FieldDependsOnlyOnItsTags | AROS.py:67-72 | each of those rules depends only on the elements with its own name, so date and abstract are decided independently of the other fields |
| Extraction.AuthorsGatedByTitle | AROS.py:59-64 | the authors are the placeholder "No meta author given" if and only if the page has no `citation_title` element |
| Extraction.AuthorsInDocumentOrder | AROS.py:63-64 | with a title element: the author rule succeeds exactly when every `citation_author` element has `content`, and then gives a list (possibly empty) of those values in document order |
| Extraction.ExtractFailsOnlyOnMissingContent | AROS.py:59-72 | extraction fails exactly when a found title, date or abstract element lacks `content`, or when a title exists and an author element lacks it; the error is always KeyError('content') |
| Transformation.AuthorsCell | AROS.py:83 | an empty author list gives ""; one name gives that name; a list's cell begins with its first name; a one-character placeholder is left as it is |
| Transformation.RowData | AROS.py:81-86 | the dictionary exists exactly when authors is not None, else TypeError; keys Title, Authors, Date, Abstract in order, one cell each: title, joined authors, date, abstract |
| Transformation.FrameOf | AROS.py:88 | a frame exists exactly when every list has the same length, else ValueError; its columns are the keys in order, and row i holds the i-th cell of each list |
| Transformation.TransformOneRow | AROS.py:81-88 | the dictionary exists exactly when authors is not None; its keys are Title, Authors, Date, Abstract in order, each with one cell; the frame has those columns and exactly one row, with Title, Date and Abstract unchanged and the joined authors |
| Transformation.AuthorListCell | AROS.py:83 | an empty author list gives ""; otherwise the cell's length is the names' total length plus 2 for each "; " |
| Transformation.SentinelCell | AROS.py:83 | for a placeholder string s the cell is 3\|s\| - 2 characters long: s's characters at every third position, with "; " between them |
| Transformation.SentinelCellPrefix | AROS.py:83 | for a placeholder of at least four characters the cell begins s[0], "; ", s[1], "; ", s[2], "; ", s[3] |
| Transformation.PlaceholderAuthorsCell | AROS.py:64-83 | the cell made from "No meta author given" is 58 characters long and begins "N; o;  ; m" |
| Aros.TwoAuthorPageCitation | AROS.py:59-83 | a page with a title, two authors and a date but no abstract extracts to that title, the two-name list, that date and the abstract placeholder; the Authors cell is the names joined by "; " |
| Aros.ArxivScraper.constructor | AROS.py:27-36 | `url` is the argument, and every other field is None |
| Aros.ArxivScraper.Extract | AROS.py:49-73 | with no page content yet, raises TypeError and changes nothing; otherwise sets `soup`, then assigns the four fields in order, each to its rule's value; stops at the first KeyError, leaving the later fields unchanged; changes no other field; the outcome is `Extracted(page)`'s |
| Aros.ArxivScraper.Transform | AROS.py:76-88 | succeeds exactly when authors is not None; then sets `data` to the dictionary, and `df` to a frame with columns Title, Authors, Date, Abstract and the one row; otherwise raises TypeError and changes nothing; citation fields are unchanged |

## Left out

- `collect` (AROS.py:39-46): one `requests.get`, which is network I/O. The field `pageContent` exists and `Extract` tests it for None, but no modelled method assigns it; the client methods set it directly in its place.
- HTML parsing (AROS.py:55): BeautifulSoup is a foreign library. `Extract` receives the parse result, the element sequence, as a parameter and stores it in `soup`. The model does not relate that sequence to `pageContent`.
- `store` (AROS.py:91-93): CSV serialisation and file I/O, done by pandas.
- Soup.Find, Soup.FindAll: model only the search `("meta", attrs={"name": n})` over a flat element sequence. They do not model bs4's other search features or the nesting of the tree.
- Transformation.FrameOf: models a DataFrame built from a dictionary of lists only as its column names and rows. Index, dtypes and pandas' other input forms are not modelled.
- The `print` calls (AROS.py:61, 65, 69, 73): console output only.
- The usage script at AROS.py:96-100: it performs a live scrape when the module is imported.
- test_AROS.py: it calls an API that AROS.py does not have (a URL list, `collect(url)`, `decide_relevance`, `run`), and it needs network access. So the keyword-relevance rule and the multi-URL loop have no implementation here that could be modelled.
