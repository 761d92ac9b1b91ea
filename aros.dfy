/** `ArxivScraper` (AROS.py:25-93): the fields `__init__` creates and the two
    methods, `extract` and `transform`, that assign them step by step. */
module Aros {
  import opened Wrappers
  import opened Soup
  import opened Extraction
  import opened Transformation
  import opened Text

  /** How a method call ended: normally, or with the exception it raised. */
  datatype Outcome = Pass | Fail(error: Error)

  /** What `BeautifulSoup(None, "html.parser")` raises: the markup has no length. */
  const NoMarkup := TypeError("object of type 'NoneType' has no len()")

  class ArxivScraper {
    var url: string
    var pageContent: Option<seq<bv8>>
    var soup: Option<seq<Element>>
    var citationTitle: Option<string>
    var citationAuthors: Option<Authors>
    var citationDate: Option<string>
    var citationAbstract: Option<string>
    var data: Option<seq<Column>>
    var df: Option<Frame>

    /** Guards `df` against drifting from `data`: once there is a DataFrame it
        is always the one built from `data`, so a reader of `df` may rely on
        the shape `FrameOf` gives (its columns are `data`'s keys, its rows the
        lists' cells). */
    ghost predicate Valid()
      reads this
    {
      (data.Some? <==> df.Some?) && (data.Some? ==> FrameOf(data.value) == Ok(df.value))
    }

    /** `__init__`: keeps the URL, every other field None. */
    constructor (url: string)
      ensures Valid()
      ensures this.url == url
      ensures pageContent == None && soup == None
      ensures citationTitle == None && citationAuthors == None
      ensures citationDate == None && citationAbstract == None
      ensures data == None && df == None
    {
      this.url := url;
      pageContent := None;
      soup := None;
      citationTitle := None;
      citationAuthors := None;
      citationDate := None;
      citationAbstract := None;
      data := None;
      df := None;
    }

    /** `extract`, given `page`, the parse of `pageContent`. With no page
        content yet, the parser raises a TypeError and nothing changes.
        Otherwise the four fields are assigned in source order, each by its
        rule; a KeyError stops the method, leaving the fields assigned before
        it with their new values and the rest as they were. Only `soup` and the
        four citation fields change. */
    method Extract(page: seq<Element>) returns (outcome: Outcome)
      requires Valid()
      modifies this
      ensures Valid()
      ensures url == old(url) && pageContent == old(pageContent)
      ensures data == old(data) && df == old(df)
      ensures pageContent.None? ==>
                outcome == Fail(NoMarkup) && soup == old(soup)
                && citationTitle == old(citationTitle) && citationAuthors == old(citationAuthors)
                && citationDate == old(citationDate) && citationAbstract == old(citationAbstract)
      ensures pageContent.Some? ==> soup == Some(page)
      ensures pageContent.Some? ==>
                citationTitle == if TitleResult(page).Ok? then Some(TitleResult(page).value) else old(citationTitle)
      ensures pageContent.Some? ==>
                citationAuthors ==
                  if TitleResult(page).Ok? && AuthorsResult(page).Ok? then Some(AuthorsResult(page).value)
                  else old(citationAuthors)
      ensures pageContent.Some? ==>
                citationDate ==
                  if TitleResult(page).Ok? && AuthorsResult(page).Ok? && DateResult(page).Ok?
                  then Some(DateResult(page).value)
                  else old(citationDate)
      ensures pageContent.Some? ==>
                citationAbstract == if Extracted(page).Ok? then Some(AbstractResult(page).value) else old(citationAbstract)
      ensures pageContent.Some? ==> outcome == match Extracted(page) case Ok(_) => Pass case Err(e) => Fail(e)
      ensures outcome.Pass? ==>
                var c := Extracted(page).value;
                citationTitle == Some(c.title) && citationAuthors == Some(c.authors)
                && citationDate == Some(c.date) && citationAbstract == Some(c.abstractText)
    {
      if pageContent.None? {
        return Fail(NoMarkup);
      }
      soup := Some(page);
      var metaTag := Find(page, TitleName);
      var title := FieldRule(metaTag, NoTitle);
      if title.Err? {
        return Fail(title.error);
      }
      citationTitle := Some(title.value);
      var metaTags := FindAll(page, AuthorName);
      // `meta_tag` still holds the title lookup here.
      var authors := AuthorsRule(metaTag, metaTags);
      if authors.Err? {
        return Fail(authors.error);
      }
      citationAuthors := Some(authors.value);
      metaTag := Find(page, DateName);
      var date := FieldRule(metaTag, NoDate);
      if date.Err? {
        return Fail(date.error);
      }
      citationDate := Some(date.value);
      metaTag := Find(page, AbstractName);
      var abstractText := FieldRule(metaTag, NoAbstract);
      if abstractText.Err? {
        return Fail(abstractText.error);
      }
      citationAbstract := Some(abstractText.value);
      return Pass;
    }

    /** `transform`: builds the one-row dictionary and its DataFrame from the
        four citation fields. With no authors, `join` raises a TypeError and
        nothing changes. Only `data` and `df` change. */
    method Transform() returns (outcome: Outcome)
      requires Valid()
      modifies this
      ensures Valid()
      ensures url == old(url) && pageContent == old(pageContent) && soup == old(soup)
      ensures citationTitle == old(citationTitle) && citationAuthors == old(citationAuthors)
      ensures citationDate == old(citationDate) && citationAbstract == old(citationAbstract)
      ensures outcome.Pass? <==> citationAuthors.Some?
      ensures outcome.Fail? ==> outcome.error.TypeError? && data == old(data) && df == old(df)
      ensures outcome.Pass? ==>
                data == Some(RowData(citationTitle, citationAuthors, citationDate, citationAbstract).value)
      ensures outcome.Pass? ==>
                df.Some? && df.value.columns == Keys
                && df.value.rows == [[citationTitle, Some(AuthorsCell(citationAuthors.value)),
                                      citationDate, citationAbstract]]
    {
      var row := RowData(citationTitle, citationAuthors, citationDate, citationAbstract);
      if row.Err? {
        return Fail(row.error);
      }
      TransformOneRow(citationTitle, citationAuthors, citationDate, citationAbstract);
      data := Some(row.value);
      df := Some(FrameOf(row.value).value);
      return Pass;
    }
  }

  /** A page shaped like an arXiv abstract page: a title, two authors and a
      date, and no abstract element. */
  function TwoAuthorPage(title: string, first: string, second: string, date: string): seq<Element> {
    [ Element("meta", Some(TitleName), Some(title)),
      Element("meta", Some(AuthorName), Some(first)),
      Element("meta", Some(AuthorName), Some(second)),
      Element("meta", Some(DateName), Some(date)) ]
  }

  /** On such a page extraction succeeds, the abstract is the placeholder, and
      the Authors cell is the two names joined by "; ". */
  lemma TwoAuthorPageCitation(title: string, first: string, second: string, date: string)
    ensures var page := TwoAuthorPage(title, first, second, date);
      Extracted(page) == Ok(Citation(title, AuthorList([first, second]), date, NoAbstract))
    ensures AuthorsCell(AuthorList([first, second])) == first + "; " + second
  {
    var page := TwoAuthorPage(title, first, second, date);
    assert TitleResult(page) == Ok(title) by {
      FieldIsFirstMatch(page, TitleName, NoTitle, 0);
    }
    assert DateResult(page) == Ok(date) by {
      FieldIsFirstMatch(page, DateName, NoDate, 3);
    }
    assert AbstractResult(page) == Ok(NoAbstract) by {
      FieldPlaceholder(page, AbstractName, NoAbstract);
    }
    assert AuthorsResult(page) == Ok(AuthorList([first, second])) by {
      TwoAuthorTags(page, title, first, second, date);
      FieldIsFirstMatch(page, TitleName, NoTitle, 0);
      var r := ContentsOf([page[1], page[2]]);
      assert r.value == [first, second];
    }
    assert [first, second][1..] == [second];
    assert Join(Separator, [second]) == second;
  }

  /** The author elements of that page are its second and third. */
  lemma TwoAuthorTags(page: seq<Element>, title: string, first: string, second: string, date: string)
    requires page == TwoAuthorPage(title, first, second, date)
    ensures FindAll(page, AuthorName) == [page[1], page[2]]
  {
    assert FindAll(page[3..], AuthorName) == [] by {
      assert page[3..][1..] == [];
    }
    assert FindAll(page[2..], AuthorName) == [page[2]] by {
      assert page[2..][1..] == page[3..];
    }
    assert page[1..][1..] == page[2..];
  }

  /** The scraper run on the paper the repository's own comments describe
      (cut down to two authors): its single row carries the joined authors. */
  method ScrapeTwoAuthorPage() {
    var page := TwoAuthorPage("Developing Products Update-Alert System", "Onyenwe, Ikechukwu",
                              "Onyedinma, Ebele", "2021/09/02");
    TwoAuthorPageCitation("Developing Products Update-Alert System", "Onyenwe, Ikechukwu",
                          "Onyedinma, Ebele", "2021/09/02");
    var scraper := new ArxivScraper("https://arxiv.org/abs/2109.00656");
    scraper.pageContent := Some([]);  // what `collect` would have fetched
    var extracted := scraper.Extract(page);
    assert extracted == Pass;
    var transformed := scraper.Transform();
    assert transformed == Pass;
    assert scraper.df.value.rows[0][1] == Some("Onyenwe, Ikechukwu" + "; " + "Onyedinma, Ebele");
    assert scraper.df.value.rows[0][3] == Some(NoAbstract);
  }

  /** Before any page content exists `Extract` raises in the parser. After
      that, without a title element, the author elements are ignored and the
      placeholder, joined character by character, fills the Authors cell. */
  method ScrapeUntitledPage() {
    var page := [
      Element("meta", Some(AuthorName), Some("Onyenwe, Ikechukwu")),
      Element("meta", Some(AbstractName), None)
    ];
    FieldPlaceholder(page, TitleName, NoTitle);
    FieldPlaceholder(page, DateName, NoDate);
    FieldIsFirstMatch(page, AbstractName, NoAbstract, 1);
    var scraper := new ArxivScraper("https://arxiv.org/abs/2109.00656");
    var extracted := scraper.Extract(page);
    assert extracted == Fail(NoMarkup) && scraper.soup == None;
    scraper.pageContent := Some([]);  // what `collect` would have fetched
    extracted := scraper.Extract(page);
    assert extracted == Fail(KeyError("content"));
    assert scraper.citationTitle == Some(NoTitle);
    assert scraper.citationAuthors == Some(AuthorSentinel(NoAuthor));
    assert scraper.citationDate == Some(NoDate) && scraper.citationAbstract == None;
    var transformed := scraper.Transform();
    assert transformed == Pass;
    PlaceholderAuthorsCell(NoAuthor);
    assert scraper.df.value.rows[0][1].value[..10] == "N; o;  ; m";
  }
}
