/** `read_pdf_text`: the text of every page of a PDF, joined with line
    breaks and stripped, together with the page count; any failure while
    opening the file or extracting a page gives an empty text and a count
    of zero. The PDF parser itself is not modelled: a document is given by
    what extraction yields for each of its pages. */
module PdfText {
  import opened Wrappers
  import opened Text

  /** What `page.extract_text()` does for one page. */
  datatype PageResult =
    | Extracted(text: string)   // returns a string
    | NoText                    // returns `None`
    | Raises                    // raises an exception

  /** What `PdfReader(...)` makes of the uploaded bytes. */
  datatype Pdf = Unparsable | Parsed(pages: seq<PageResult>)

  predicate Fails(pdf: Pdf) {
    pdf.Unparsable? || exists k :: 0 <= k < |pdf.pages| && pdf.pages[k].Raises?
  }

  /** `p.extract_text() or ""`. */
  function PageString(p: PageResult): string {
    match p
    case Extracted(t) => t
    case _ => ""
  }

  function PageStrings(pages: seq<PageResult>): (r: seq<string>)
    ensures |r| == |pages|
    ensures forall k :: 0 <= k < |pages| ==> r[k] == PageString(pages[k])
  {
    seq(|pages|, k requires 0 <= k < |pages| => PageString(pages[k]))
  }

  /** The result of `read_pdf_text`: the text and the page count. */
  function ReadPdfText(pdf: Pdf): (r: (string, nat))
    ensures r.0 == [] || (!IsSpace(r.0[0]) && !IsSpace(r.0[|r.0| - 1]))
  {
    if Fails(pdf) then ("", 0)
    else (Strip(Join(PageStrings(pdf.pages), "\n")), |pdf.pages|)
  }

  /** The function as the source writes it: collect each page's text in
      turn, giving up on the first page whose extraction raises. */
  method ReadPdfTextLoop(pdf: Pdf) returns (text: string, count: nat)
    ensures (text, count) == ReadPdfText(pdf)
  {
    if pdf.Unparsable? {
      return "", 0;
    }
    var pages: seq<string> := [];
    var i := 0;
    while i < |pdf.pages|
      invariant 0 <= i <= |pdf.pages|
      invariant forall k :: 0 <= k < i ==> !pdf.pages[k].Raises?
      invariant pages == PageStrings(pdf.pages[..i])
    {
      var p := pdf.pages[i];
      if p.Raises? {
        return "", 0;
      }
      pages := pages + [PageString(p)];
      i := i + 1;
    }
    assert pdf.pages[..i] == pdf.pages;
    text := Strip(Join(pages, "\n"));
    count := |pdf.pages|;
  }

  /** The count is zero exactly when reading fails or the document has no
      pages; otherwise it is the number of pages. */
  lemma CountIsPages(pdf: Pdf)
    ensures ReadPdfText(pdf).1 == if Fails(pdf) then 0 else |pdf.pages|
    ensures ReadPdfText(pdf).1 == 0 <==> Fails(pdf) || pdf.pages == []
  {
  }

  /** A failure yields no text at all. */
  lemma FailureIsEmpty(pdf: Pdf)
    requires Fails(pdf)
    ensures ReadPdfText(pdf) == ("", 0)
  {
  }

  /** A document whose pages carry no text, such as a scanned one, still
      reports its pages, which tells it apart from a failure. */
  lemma TextlessPages(pdf: Pdf)
    requires pdf.Parsed? && pdf.pages != []
    requires forall k :: 0 <= k < |pdf.pages| ==> pdf.pages[k].NoText?
    ensures ReadPdfText(pdf) == ("", |pdf.pages|)
  {
    var xs := PageStrings(pdf.pages);
    assert forall j :: 0 <= j < |xs| ==> xs[j] == [];
    JoinEmpty(xs);
    var s := Join(xs, "\n");
    assert forall k :: 0 <= k < |s| ==> IsSpace(s[k]);
    StripBlank(s);
  }

  /** The pages can be read back off the text when each is a single
      non-empty line with no whitespace at either end. */
  lemma PagesRecoverable(pdf: Pdf)
    requires pdf.Parsed? && pdf.pages != []
    requires forall k :: 0 <= k < |pdf.pages| ==> pdf.pages[k].Extracted?
    requires forall k :: 0 <= k < |pdf.pages| ==>
      var t := pdf.pages[k].text;
      t != [] && NoLineBreak(t) && !IsSpace(t[0]) && !IsSpace(t[|t| - 1])
    ensures SplitLines(ReadPdfText(pdf).0) == PageStrings(pdf.pages)
  {
    var xs := PageStrings(pdf.pages);
    JoinFirst(xs, "\n");
    JoinLast(xs, "\n");
    StripStripped(Join(xs, "\n"));
    SplitJoin(xs);
  }

  /** A page without text between two pages with text still takes its
      place: the texts on either side are two line breaks apart. */
  lemma MissingPageKeepsGap(a: string, b: string)
    requires a != [] && !IsSpace(a[0]) && !IsSpace(a[|a| - 1])
    requires b != [] && !IsSpace(b[0]) && !IsSpace(b[|b| - 1])
    ensures ReadPdfText(Parsed([Extracted(a), NoText, Extracted(b)])) == (a + "\n\n" + b, 3)
  {
    var pages := [Extracted(a), NoText, Extracted(b)];
    var xs := PageStrings(pages);
    assert xs == [a, "", b];
    assert xs[1..] == ["", b] && xs[1..][1..] == [b];
    var j := Join(xs, "\n");
    assert Join([b], "\n") == b;
    assert Join(["", b], "\n") == "" + "\n" + b;
    assert j == a + "\n" + Join(["", b], "\n");
    assert j == a + "\n\n" + b;
    StripStripped(j);
    assert !Fails(Parsed(pages));
  }
}
