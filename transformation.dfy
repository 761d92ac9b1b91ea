/** `ArxivScraper.transform` (AROS.py:76-88): the one-row dictionary of lists
    and the table pandas builds from it. */
module Transformation {
  import opened Wrappers
  import opened Text
  import opened Extraction

  const Separator := "; "

  /** The column names, in the order the dictionary lists them. */
  const Keys := ["Title", "Authors", "Date", "Abstract"]

  /** One dictionary entry: a key and its list of cells (None is Python's None). */
  datatype Column = Column(key: string, cells: seq<Option<string>>)

  /** A DataFrame seen as its column names and its rows. */
  datatype Frame = Frame(columns: seq<string>, rows: seq<seq<Option<string>>>)

  /** `"; ".join(citation_authors)`: over a list of names it joins the names;
      over the placeholder string it joins that string's characters. */
  function AuthorsCell(authors: Authors): (r: string)
    ensures authors == AuthorList([]) ==> r == ""
    ensures authors.AuthorList? && |authors.names| == 1 ==> r == authors.names[0]
    ensures authors.AuthorList? && |authors.names| >= 1 ==> |authors.names[0]| <= |r| && r[..|authors.names[0]|] == authors.names[0]
    ensures authors.AuthorSentinel? && |authors.placeholder| == 1 ==> r == authors.placeholder
  {
    match authors
    case AuthorList(names) => Join(Separator, names)
    case AuthorSentinel(s) => Join(Separator, Chars(s))
  }

  /** The dictionary `transform` builds; joining None raises a TypeError. */
  function RowData(title: Option<string>, authors: Option<Authors>, date: Option<string>,
                   abstractText: Option<string>): (r: Result<seq<Column>, Error>)
    ensures r.Ok? <==> authors.Some?
    ensures r.Err? ==> r.error.TypeError?
    ensures r.Ok? ==> |r.value| == 4 && forall j :: 0 <= j < 4 ==> r.value[j].key == Keys[j] && |r.value[j].cells| == 1
    ensures r.Ok? ==> r.value[0].cells[0] == title && r.value[2].cells[0] == date && r.value[3].cells[0] == abstractText
    ensures r.Ok? ==> r.value[1].cells[0] == Some(AuthorsCell(authors.value))
  {
    match authors
    case None => Err(TypeError("can only join an iterable"))
    case Some(a) =>
      Ok([Column("Title", [title]), Column("Authors", [Some(AuthorsCell(a))]),
          Column("Date", [date]), Column("Abstract", [abstractText])])
  }

  /** `pd.DataFrame(data)` for a dictionary of lists: the keys become the
      columns, the i-th cells of the lists the i-th row; lists of unequal
      length raise a ValueError. */
  function FrameOf(data: seq<Column>): (r: Result<Frame, Error>)
    ensures r.Ok? <==> forall j :: 0 <= j < |data| ==> |data[j].cells| == |data[0].cells|
    ensures r.Err? ==> r.error.ValueError?
    ensures r.Ok? ==> |r.value.columns| == |data| && forall j :: 0 <= j < |data| ==> r.value.columns[j] == data[j].key
    ensures r.Ok? ==> |r.value.rows| == (if data == [] then 0 else |data[0].cells|)
    ensures r.Ok? ==> forall i :: 0 <= i < |r.value.rows| ==>
              |r.value.rows[i]| == |data| && forall j :: 0 <= j < |data| ==> r.value.rows[i][j] == data[j].cells[i]
  {
    if data == [] then Ok(Frame([], []))
    else
      var n := |data[0].cells|;
      if exists j :: 0 <= j < |data| && |data[j].cells| != n then
        Err(ValueError("All arrays must be of the same length"))
      else
        Ok(Frame(seq(|data|, j requires 0 <= j < |data| => data[j].key),
                 seq(n, i requires 0 <= i < n =>
                   seq(|data|, j requires 0 <= j < |data| => data[j].cells[i]))))
  }

  /** `transform` fails exactly when there are no authors to join; otherwise
      its table has the four columns in order and exactly one row, holding
      Title, Date and Abstract unchanged and the joined authors. */
  lemma TransformOneRow(title: Option<string>, authors: Option<Authors>, date: Option<string>,
                        abstractText: Option<string>)
    ensures RowData(title, authors, date, abstractText).Ok? <==> authors.Some?
    ensures authors.Some? ==>
              var data := RowData(title, authors, date, abstractText).value;
              |data| == 4 && (forall j :: 0 <= j < 4 ==> data[j].key == Keys[j] && |data[j].cells| == 1)
              && FrameOf(data).Ok?
              && FrameOf(data).value.columns == Keys
              && FrameOf(data).value.rows == [[title, Some(AuthorsCell(authors.value)), date, abstractText]]
  {
    if authors.Some? {
      var data := RowData(title, authors, date, abstractText).value;
      var f := FrameOf(data).value;
      assert f.columns == Keys;
      assert f.rows[0] == [title, Some(AuthorsCell(authors.value)), date, abstractText];
    }
  }

  /** The Authors cell of a name list: "" for no names, otherwise the names'
      total length plus two characters for each separator. */
  lemma AuthorListCell(names: seq<string>)
    ensures names == [] ==> AuthorsCell(AuthorList(names)) == ""
    ensures names != [] ==> |AuthorsCell(AuthorList(names))| == TotalLength(names) + 2 * (|names| - 1)
  {
    JoinLength(Separator, names);
  }

  /** The Authors cell of the placeholder string s: s's characters with "; "
      between them, so 3|s| - 2 characters long. */
  lemma {:induction false} SentinelCell(s: string)
    requires s != []
    ensures |AuthorsCell(AuthorSentinel(s))| == 3 * |s| - 2
    ensures forall i :: 0 <= i < |s| ==> AuthorsCell(AuthorSentinel(s))[3 * i] == s[i]
    ensures forall i :: 0 <= i < |s| - 1 ==>
              AuthorsCell(AuthorSentinel(s))[3 * i + 1] == ';' && AuthorsCell(AuthorSentinel(s))[3 * i + 2] == ' '
  {
    var cell := AuthorsCell(AuthorSentinel(s));
    if |s| == 1 {
      assert Chars(s) == [[s[0]]];
    } else {
      var chars := Chars(s);
      assert chars[1..] == Chars(s[1..]);
      SentinelCell(s[1..]);
      var rest := AuthorsCell(AuthorSentinel(s[1..]));
      assert cell == [s[0]] + Separator + rest;
      forall i | 1 <= i < |s| ensures cell[3 * i] == s[i] {
        assert cell[3 * i] == rest[3 * (i - 1)];
      }
      forall i | 1 <= i < |s| - 1 ensures cell[3 * i + 1] == ';' && cell[3 * i + 2] == ' ' {
        assert cell[3 * i + 1] == rest[3 * (i - 1) + 1];
        assert cell[3 * i + 2] == rest[3 * (i - 1) + 2];
      }
    }
  }

  /** The first ten characters of the cell of a placeholder of at least
      four characters. */
  lemma SentinelCellPrefix(s: string)
    requires |s| >= 4
    ensures |AuthorsCell(AuthorSentinel(s))| == 3 * |s| - 2
    ensures AuthorsCell(AuthorSentinel(s))[..10] == [s[0], ';', ' ', s[1], ';', ' ', s[2], ';', ' ', s[3]]
  {
    SentinelCell(s);
    var cell := AuthorsCell(AuthorSentinel(s));
    assert cell[3 * 1] == s[1] && cell[3 * 2] == s[2] && cell[3 * 3] == s[3];
    assert cell[3 * 1 + 1] == ';' && cell[3 * 1 + 2] == ' ';
    assert cell[3 * 2 + 1] == ';' && cell[3 * 2 + 2] == ' ';
  }

  /** For the author placeholder itself the cell is "N; o;  ; m; e; t; a; ...",
      58 characters for the 20 of "No meta author given". The placeholder is
      a parameter fixed by the requires rather than the literal itself, so
      that the solver does not unfold the join over the literal string. */
  lemma PlaceholderAuthorsCell(s: string)
    requires s == NoAuthor
    ensures |AuthorsCell(AuthorSentinel(s))| == 58
    ensures AuthorsCell(AuthorSentinel(s))[..10] == "N; o;  ; m"
  {
    assert |s| == 20 && s[0] == 'N' && s[1] == 'o' && s[2] == ' ' && s[3] == 'm';
    SentinelCellPrefix(s);
  }
}
