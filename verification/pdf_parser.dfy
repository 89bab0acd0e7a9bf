/**
 * backend/pdf_parser.py: flattening PyMuPDF's page -> block -> line -> span
 * dictionary into a flat list of text blocks, and the PDF file test.
 * The library itself is not modelled: the document tree it returns is an input.
 */
module PdfParser {
  import opened Wrappers
  import opened Blocks
  import Text
  import Paths

  datatype Rect = Rect(x0: real, y0: real, x1: real, y1: real)

  /** A span of `page.get_text("dict")`; `font`, `size` and `color` may be absent. */
  datatype Span = Span(text: string, bbox: Rect, font: Option<string>, size: Option<real>, color: Option<int>)

  /** A line; its `spans` key may be absent. */
  datatype Line = Line(spans: Option<seq<Span>>)

  /** A layout block; image blocks have no `lines` key. */
  datatype LayoutBlock = LayoutBlock(lines: Option<seq<Line>>)

  datatype Page = Page(blocks: seq<LayoutBlock>)

  /** An open PyMuPDF document: its pages, and how often it has been closed. */
  class Document {
    const pages: seq<Page>
    var closeCount: nat

    constructor (pages: seq<Page>)
      ensures this.pages == pages && closeCount == 0
    {
      this.pages := pages;
      closeCount := 0;
    }

    method Close()
      modifies this
      ensures closeCount == old(closeCount) + 1
    {
      closeCount := closeCount + 1;
    }
  }

  /** The text block emitted for one span found on page `pageNumber`. */
  function SpanBlock(s: Span, pageNumber: int): Block {
    Block(
      text := Some(s.text),
      page := Some(pageNumber),
      x0 := Some(s.bbox.x0), y0 := Some(s.bbox.y0),
      x1 := Some(s.bbox.x1), y1 := Some(s.bbox.y1),
      font := Some(s.font.GetOr("")),
      size := Some(s.size.GetOr(0.0)),
      color := Some(s.color.GetOr(0)),
      confidence := None)
  }

  // The output for each level of the tree, defined on the last element so that it
  // follows the order in which the loops below append.

  function SpansOut(spans: seq<Span>, pageNumber: int): seq<Block> {
    if spans == [] then []
    else SpansOut(spans[..|spans| - 1], pageNumber) + [SpanBlock(spans[|spans| - 1], pageNumber)]
  }

  function LineOut(line: Line, pageNumber: int): seq<Block> {
    match line.spans
    case None => []
    case Some(spans) => SpansOut(spans, pageNumber)
  }

  function LinesOut(lines: seq<Line>, pageNumber: int): seq<Block> {
    if lines == [] then []
    else LinesOut(lines[..|lines| - 1], pageNumber) + LineOut(lines[|lines| - 1], pageNumber)
  }

  function LayoutBlockOut(b: LayoutBlock, pageNumber: int): seq<Block> {
    match b.lines
    case None => []
    case Some(lines) => LinesOut(lines, pageNumber)
  }

  function BlocksOut(blocks: seq<LayoutBlock>, pageNumber: int): seq<Block> {
    if blocks == [] then []
    else BlocksOut(blocks[..|blocks| - 1], pageNumber) + LayoutBlockOut(blocks[|blocks| - 1], pageNumber)
  }

  /** Page `i` (0-based) is reported as page `i + 1`. */
  function PagesOut(pages: seq<Page>): seq<Block> {
    if pages == [] then []
    else PagesOut(pages[..|pages| - 1]) + BlocksOut(pages[|pages| - 1].blocks, |pages|)
  }

  // The four nested loops of `extract_text_with_layout`, one method per level;
  // each appends to the list built so far, one block per span.

  method AppendSpans(all: seq<Block>, spans: seq<Span>, pageNumber: int) returns (out: seq<Block>)
    ensures out == all + SpansOut(spans, pageNumber)
  {
    out := all;
    var s := 0;
    while s < |spans|
      invariant 0 <= s <= |spans|
      invariant out == all + SpansOut(spans[..s], pageNumber)
    {
      out := out + [SpanBlock(spans[s], pageNumber)];
      assert spans[..s + 1][..s] == spans[..s];
      s := s + 1;
    }
    assert spans[..s] == spans;
  }

  /** A line without `spans` is skipped. */
  method AppendLine(all: seq<Block>, line: Line, pageNumber: int) returns (out: seq<Block>)
    ensures out == all + LineOut(line, pageNumber)
  {
    out := all;
    if line.spans.Some? {
      out := AppendSpans(out, line.spans.value, pageNumber);
    }
  }

  method AppendLines(all: seq<Block>, lines: seq<Line>, pageNumber: int) returns (out: seq<Block>)
    ensures out == all + LinesOut(lines, pageNumber)
  {
    out := all;
    var l := 0;
    while l < |lines|
      invariant 0 <= l <= |lines|
      invariant out == all + LinesOut(lines[..l], pageNumber)
    {
      out := AppendLine(out, lines[l], pageNumber);
      LinesOutPrefix(lines, l, pageNumber);
      l := l + 1;
    }
    assert lines[..l] == lines;
  }

  /** A layout block without `lines` (an image block) is skipped. */
  method AppendLayoutBlock(all: seq<Block>, block: LayoutBlock, pageNumber: int) returns (out: seq<Block>)
    ensures out == all + LayoutBlockOut(block, pageNumber)
  {
    out := all;
    if block.lines.Some? {
      out := AppendLines(out, block.lines.value, pageNumber);
    }
  }

  method AppendBlocks(all: seq<Block>, blocks: seq<LayoutBlock>, pageNumber: int) returns (out: seq<Block>)
    ensures out == all + BlocksOut(blocks, pageNumber)
  {
    out := all;
    var b := 0;
    while b < |blocks|
      invariant 0 <= b <= |blocks|
      invariant out == all + BlocksOut(blocks[..b], pageNumber)
    {
      out := AppendLayoutBlock(out, blocks[b], pageNumber);
      BlocksOutPrefix(blocks, b, pageNumber);
      b := b + 1;
    }
    assert blocks[..b] == blocks;
  }

  /** One more line of the prefix adds that line's output. */
  lemma LinesOutPrefix(lines: seq<Line>, l: int, n: int)
    requires 0 <= l < |lines|
    ensures LinesOut(lines[..l + 1], n) == LinesOut(lines[..l], n) + LineOut(lines[l], n)
  {
    assert lines[..l + 1][..l] == lines[..l];
  }

  /** One more layout block of the prefix adds that block's output. */
  lemma BlocksOutPrefix(blocks: seq<LayoutBlock>, b: int, n: int)
    requires 0 <= b < |blocks|
    ensures BlocksOut(blocks[..b + 1], n) == BlocksOut(blocks[..b], n) + LayoutBlockOut(blocks[b], n)
  {
    assert blocks[..b + 1][..b] == blocks[..b];
  }

  method FlattenPages(pages: seq<Page>) returns (all: seq<Block>)
    ensures all == PagesOut(pages)
  {
    all := [];
    var p := 0;
    while p < |pages|
      invariant 0 <= p <= |pages|
      invariant all == PagesOut(pages[..p])
    {
      all := AppendBlocks(all, pages[p].blocks, p + 1);
      assert pages[..p + 1][..p] == pages[..p];
      p := p + 1;
    }
    assert pages[..p] == pages;
  }

  /**
   * `extract_text_with_layout`: a missing file raises FileNotFoundError before the
   * document is touched; otherwise every span becomes a block and the document is
   * closed exactly once.
   */
  method ExtractTextWithLayout(path: string, fileExists: bool, doc: Document) returns (r: Result<seq<Block>, Exception>)
    modifies doc
    ensures !fileExists ==> r == Err(FileNotFoundError("PDF file not found: " + path))
                            && doc.closeCount == old(doc.closeCount)
    ensures fileExists ==> r == Ok(PagesOut(doc.pages)) && doc.closeCount == old(doc.closeCount) + 1
  {
    if !fileExists {
      return Err(FileNotFoundError("PDF file not found: " + path));
    }
    var all := FlattenPages(doc.pages);
    doc.Close();
    r := Ok(all);
  }

  // ---- Properties of the flattening ----

  /** Number of spans in a tree, counting only lines with `spans` and blocks with `lines`. */
  function SpanCount(pages: seq<Page>): nat {
    if pages == [] then 0 else SpanCount(pages[1..]) + BlockSpanCount(pages[0].blocks)
  }

  function BlockSpanCount(blocks: seq<LayoutBlock>): nat {
    if blocks == [] then 0
    else BlockSpanCount(blocks[1..]) + (match blocks[0].lines case None => 0 case Some(ls) => LineSpanCount(ls))
  }

  function LineSpanCount(lines: seq<Line>): nat {
    if lines == [] then 0
    else LineSpanCount(lines[1..]) + (match lines[0].spans case None => 0 case Some(ss) => |ss|)
  }

  lemma {:induction false} SpansOutLength(spans: seq<Span>, n: int)
    ensures |SpansOut(spans, n)| == |spans|
  {
    if spans != [] { SpansOutLength(spans[..|spans| - 1], n); }
  }

  /**
   * Block `k` of a line's output is span `k`: its text and box copied, its font,
   * size and colour or the defaults "", 0 and 0.
   */
  lemma {:induction false} SpansOutCopies(spans: seq<Span>, n: int, k: int)
    requires 0 <= k < |spans|
    ensures |SpansOut(spans, n)| == |spans|
    ensures var b, s := SpansOut(spans, n)[k], spans[k];
      && b.text == Some(s.text) && b.page == Some(n)
      && b.x0 == Some(s.bbox.x0) && b.y0 == Some(s.bbox.y0)
      && b.x1 == Some(s.bbox.x1) && b.y1 == Some(s.bbox.y1)
      && b.font == Some(s.font.GetOr("")) && b.size == Some(s.size.GetOr(0.0))
      && b.color == Some(s.color.GetOr(0))
  {
    SpansOutLength(spans, n);
    if k < |spans| - 1 {
      SpansOutCopies(spans[..|spans| - 1], n, k);
    }
  }

  lemma {:induction false} LinesOutLength(lines: seq<Line>, n: int)
    ensures |LinesOut(lines, n)| == LineSpanCount(lines)
  {
    if lines != [] {
      var last := lines[|lines| - 1];
      LinesOutLength(lines[..|lines| - 1], n);
      if last.spans.Some? { SpansOutLength(last.spans.value, n); }
      LineSpanCountSnoc(lines[..|lines| - 1], last);
      assert lines[..|lines| - 1] + [last] == lines;
    }
  }

  lemma {:induction false} LineSpanCountSnoc(lines: seq<Line>, last: Line)
    ensures LineSpanCount(lines + [last]) ==
            LineSpanCount(lines) + (match last.spans case None => 0 case Some(ss) => |ss|)
  {
    if lines != [] {
      assert (lines + [last])[1..] == lines[1..] + [last];
      LineSpanCountSnoc(lines[1..], last);
    }
  }

  lemma {:induction false} BlockSpanCountSnoc(blocks: seq<LayoutBlock>, last: LayoutBlock)
    ensures BlockSpanCount(blocks + [last]) ==
            BlockSpanCount(blocks) + (match last.lines case None => 0 case Some(ls) => LineSpanCount(ls))
  {
    if blocks != [] {
      assert (blocks + [last])[1..] == blocks[1..] + [last];
      BlockSpanCountSnoc(blocks[1..], last);
    }
  }

  lemma {:induction false} SpanCountSnoc(pages: seq<Page>, last: Page)
    ensures SpanCount(pages + [last]) == SpanCount(pages) + BlockSpanCount(last.blocks)
  {
    if pages != [] {
      assert (pages + [last])[1..] == pages[1..] + [last];
      SpanCountSnoc(pages[1..], last);
    }
  }

  lemma {:induction false} BlocksOutLength(blocks: seq<LayoutBlock>, n: int)
    ensures |BlocksOut(blocks, n)| == BlockSpanCount(blocks)
  {
    if blocks != [] {
      var last := blocks[|blocks| - 1];
      BlocksOutLength(blocks[..|blocks| - 1], n);
      if last.lines.Some? { LinesOutLength(last.lines.value, n); }
      BlockSpanCountSnoc(blocks[..|blocks| - 1], last);
      assert blocks[..|blocks| - 1] + [last] == blocks;
    }
  }

  /** Exactly one text block per span. */
  lemma {:induction false} PagesOutLength(pages: seq<Page>)
    ensures |PagesOut(pages)| == SpanCount(pages)
  {
    if pages != [] {
      var last := pages[|pages| - 1];
      PagesOutLength(pages[..|pages| - 1]);
      BlocksOutLength(last.blocks, |pages|);
      SpanCountSnoc(pages[..|pages| - 1], last);
      assert pages[..|pages| - 1] + [last] == pages;
    }
  }

  /** Every block of one page's output carries that page's number and all span fields. */
  predicate FromPage(out: seq<Block>, n: int) {
    forall i :: 0 <= i < |out| ==>
      && out[i].page == Some(n)
      && out[i].text.Some? && out[i].font.Some? && out[i].size.Some? && out[i].color.Some?
      && out[i].x0.Some? && out[i].y0.Some? && out[i].x1.Some? && out[i].y1.Some?
      && out[i].confidence.None?
  }

  lemma {:induction false} SpansOutFromPage(spans: seq<Span>, n: int)
    ensures FromPage(SpansOut(spans, n), n)
  {
    if spans != [] { SpansOutFromPage(spans[..|spans| - 1], n); }
  }

  lemma {:induction false} LinesOutFromPage(lines: seq<Line>, n: int)
    ensures FromPage(LinesOut(lines, n), n)
  {
    if lines != [] {
      LinesOutFromPage(lines[..|lines| - 1], n);
      var last := lines[|lines| - 1];
      if last.spans.Some? { SpansOutFromPage(last.spans.value, n); }
    }
  }

  lemma {:induction false} BlocksOutFromPage(blocks: seq<LayoutBlock>, n: int)
    ensures FromPage(BlocksOut(blocks, n), n)
  {
    if blocks != [] {
      BlocksOutFromPage(blocks[..|blocks| - 1], n);
      var last := blocks[|blocks| - 1];
      if last.lines.Some? { LinesOutFromPage(last.lines.value, n); }
    }
  }

  /**
   * Every block gets a 1-based page number no larger than the page count, page
   * numbers never decrease along the output (page order is kept), and the
   * text, box, font, size and colour keys are always present (defaults filled in).
   */
  lemma {:induction false} PagesOutPageNumbers(pages: seq<Page>)
    ensures forall i :: 0 <= i < |PagesOut(pages)| ==>
      var b := PagesOut(pages)[i];
      && b.page.Some? && 1 <= b.page.value <= |pages|
      && b.text.Some? && b.font.Some? && b.size.Some? && b.color.Some?
    ensures forall i, j :: 0 <= i <= j < |PagesOut(pages)| ==>
      PagesOut(pages)[i].page.value <= PagesOut(pages)[j].page.value
  {
    if pages != [] {
      var init := pages[..|pages| - 1];
      PagesOutPageNumbers(init);
      BlocksOutFromPage(pages[|pages| - 1].blocks, |pages|);
    }
  }

  /** Output of a concatenation of layout blocks is the concatenation of their outputs. */
  lemma {:induction false} BlocksOutAppend(a: seq<LayoutBlock>, b: seq<LayoutBlock>, n: int)
    ensures BlocksOut(a + b, n) == BlocksOut(a, n) + BlocksOut(b, n)
  {
    if b != [] {
      var init, last := b[..|b| - 1], b[|b| - 1];
      BlocksOutAppend(a, init, n);
      assert (a + b)[..|a + b| - 1] == a + init;
      assert (a + b)[|a + b| - 1] == last;
      assert BlocksOut(a + b, n) == BlocksOut(a + init, n) + LayoutBlockOut(last, n);
      assert BlocksOut(b, n) == BlocksOut(init, n) + LayoutBlockOut(last, n);
    } else {
      assert a + b == a;
    }
  }

  /** A block without `lines` (an image block) contributes nothing, wherever it stands. */
  lemma BlockWithoutLinesIgnored(a: seq<LayoutBlock>, b: seq<LayoutBlock>, n: int)
    ensures BlocksOut(a + [LayoutBlock(None)] + b, n) == BlocksOut(a + b, n)
  {
    BlocksOutAppend(a + [LayoutBlock(None)], b, n);
    BlocksOutAppend(a, b, n);
    assert (a + [LayoutBlock(None)])[..|a|] == a;
  }

  /** Lines concatenate the same way. */
  lemma {:induction false} LinesOutAppend(a: seq<Line>, b: seq<Line>, n: int)
    ensures LinesOut(a + b, n) == LinesOut(a, n) + LinesOut(b, n)
  {
    if b != [] {
      var init, last := b[..|b| - 1], b[|b| - 1];
      LinesOutAppend(a, init, n);
      assert (a + b)[..|a + b| - 1] == a + init;
      assert (a + b)[|a + b| - 1] == last;
      assert LinesOut(a + b, n) == LinesOut(a + init, n) + LineOut(last, n);
      assert LinesOut(b, n) == LinesOut(init, n) + LineOut(last, n);
    } else {
      assert a + b == a;
    }
  }

  /** A line without `spans` contributes nothing, wherever it stands. */
  lemma LineWithoutSpansIgnored(a: seq<Line>, b: seq<Line>, n: int)
    ensures LinesOut(a + [Line(None)] + b, n) == LinesOut(a + b, n)
  {
    LinesOutAppend(a + [Line(None)], b, n);
    LinesOutAppend(a, b, n);
    assert (a + [Line(None)])[..|a|] == a;
  }

  /** The PDF signature `%PDF`. */
  const PdfSignature: seq<bv8> := [0x25, 0x50, 0x44, 0x46]

  /**
   * `is_pdf_file`: the lower-cased suffix must be `.pdf`; only then is the file read,
   * and its first (at most) four bytes must be `%PDF`. `content` is None when opening
   * or reading the file raises.
   */
  function IsPdfFile(path: string, content: Option<seq<bv8>>): (r: bool)
    ensures r <==> Text.Lower(Paths.Suffix(path)) == ".pdf"
                   && content.Some? && |content.value| >= 4 && content.value[..4] == PdfSignature
  {
    if Text.Lower(Paths.Suffix(path)) != ".pdf" then false
    else
      match content
      case None => false
      case Some(bytes) =>
        var header := if |bytes| <= 4 then bytes else bytes[..4];
        header == PdfSignature
  }

  /** Without a `.pdf` suffix the answer never depends on the file's contents. */
  lemma IsPdfFileIgnoresContentWithoutSuffix(path: string, c1: Option<seq<bv8>>, c2: Option<seq<bv8>>)
    requires Text.Lower(Paths.Suffix(path)) != ".pdf"
    ensures !IsPdfFile(path, c1) && IsPdfFile(path, c1) == IsPdfFile(path, c2)
  {
  }
}
