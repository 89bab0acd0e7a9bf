/**
 * backend/ocr_parser.py: flattening docTR's page -> block -> line -> word result
 * into a flat list of text blocks, and the image file test. The OCR model is not
 * modelled: its result is an input, with word boxes already in pixels.
 */
module OcrParser {
  import opened Wrappers
  import opened Blocks
  import Text
  import Paths

  /** A word's box after scaling to pixels (the scaling itself is not modelled). */
  datatype PixelBox = PixelBox(x0: int, y0: int, x1: int, y1: int)

  datatype Word = Word(value: string, confidence: real, box: PixelBox)
  datatype OcrLine = OcrLine(words: seq<Word>)
  datatype OcrBlock = OcrBlock(lines: seq<OcrLine>)
  datatype OcrPage = OcrPage(blocks: seq<OcrBlock>)

  /** The text block emitted for one word found on page `pageNumber`. */
  function WordBlock(w: Word, pageNumber: int): Block {
    Block(
      text := Some(w.value),
      page := Some(pageNumber),
      x0 := Some(w.box.x0 as real), y0 := Some(w.box.y0 as real),
      x1 := Some(w.box.x1 as real), y1 := Some(w.box.y1 as real),
      font := None, size := None, color := None,
      confidence := Some(w.confidence))
  }

  function WordsOut(words: seq<Word>, pageNumber: int): seq<Block> {
    if words == [] then []
    else WordsOut(words[..|words| - 1], pageNumber) + [WordBlock(words[|words| - 1], pageNumber)]
  }

  function LinesOut(lines: seq<OcrLine>, pageNumber: int): seq<Block> {
    if lines == [] then []
    else LinesOut(lines[..|lines| - 1], pageNumber) + WordsOut(lines[|lines| - 1].words, pageNumber)
  }

  function BlocksOut(blocks: seq<OcrBlock>, pageNumber: int): seq<Block> {
    if blocks == [] then []
    else BlocksOut(blocks[..|blocks| - 1], pageNumber) + LinesOut(blocks[|blocks| - 1].lines, pageNumber)
  }

  /** Page `i` (0-based) is reported as page `i + 1`. */
  function PagesOut(pages: seq<OcrPage>): seq<Block> {
    if pages == [] then []
    else PagesOut(pages[..|pages| - 1]) + BlocksOut(pages[|pages| - 1].blocks, |pages|)
  }

  // The four nested loops of `extract_text_from_image`, one method per level.

  method AppendWords(all: seq<Block>, words: seq<Word>, pageNumber: int) returns (out: seq<Block>)
    ensures out == all + WordsOut(words, pageNumber)
  {
    out := all;
    var w := 0;
    while w < |words|
      invariant 0 <= w <= |words|
      invariant out == all + WordsOut(words[..w], pageNumber)
    {
      out := out + [WordBlock(words[w], pageNumber)];
      assert words[..w + 1][..w] == words[..w];
      w := w + 1;
    }
    assert words[..w] == words;
  }

  method AppendLines(all: seq<Block>, lines: seq<OcrLine>, pageNumber: int) returns (out: seq<Block>)
    ensures out == all + LinesOut(lines, pageNumber)
  {
    out := all;
    var l := 0;
    while l < |lines|
      invariant 0 <= l <= |lines|
      invariant out == all + LinesOut(lines[..l], pageNumber)
    {
      out := AppendWords(out, lines[l].words, pageNumber);
      assert lines[..l + 1][..l] == lines[..l];
      l := l + 1;
    }
    assert lines[..l] == lines;
  }

  method AppendBlocks(all: seq<Block>, blocks: seq<OcrBlock>, pageNumber: int) returns (out: seq<Block>)
    ensures out == all + BlocksOut(blocks, pageNumber)
  {
    out := all;
    var b := 0;
    while b < |blocks|
      invariant 0 <= b <= |blocks|
      invariant out == all + BlocksOut(blocks[..b], pageNumber)
    {
      out := AppendLines(out, blocks[b].lines, pageNumber);
      assert blocks[..b + 1][..b] == blocks[..b];
      b := b + 1;
    }
    assert blocks[..b] == blocks;
  }

  method FlattenPages(pages: seq<OcrPage>) returns (all: seq<Block>)
    ensures all == PagesOut(pages)
  {
    all := [];
    var p := 0;
    while p < |pages|
      invariant 0 <= p <= |pages|
      invariant all == PagesOut(pages[..p])
    {
      all := AppendBlocks(all, pages[p].blocks, p + 1);
      assert pages[..p + 1][..p] == pages[..p];
      p := p + 1;
    }
    assert pages[..p] == pages;
  }

  /**
   * `OCRParser.extract_text_from_image`: a missing file raises FileNotFoundError
   * before OCR runs; otherwise `prediction` (the predictor's pages) is flattened.
   */
  method ExtractTextFromImage(path: string, fileExists: bool, prediction: seq<OcrPage>)
    returns (r: Result<seq<Block>, Exception>)
    ensures !fileExists ==> r == Err(FileNotFoundError("Image file not found: " + path))
    ensures fileExists ==> r.Ok? && r.value == PagesOut(prediction)
  {
    if !fileExists {
      return Err(FileNotFoundError("Image file not found: " + path));
    }
    var blocks := FlattenPages(prediction);
    r := Ok(blocks);
  }

  // ---- Properties of the flattening ----

  function WordCount(pages: seq<OcrPage>): nat {
    if pages == [] then 0 else WordCount(pages[1..]) + BlockWordCount(pages[0].blocks)
  }

  function BlockWordCount(blocks: seq<OcrBlock>): nat {
    if blocks == [] then 0 else BlockWordCount(blocks[1..]) + LineWordCount(blocks[0].lines)
  }

  function LineWordCount(lines: seq<OcrLine>): nat {
    if lines == [] then 0 else LineWordCount(lines[1..]) + |lines[0].words|
  }

  lemma {:induction false} WordsOutLength(words: seq<Word>, n: int)
    ensures |WordsOut(words, n)| == |words|
  {
    if words != [] { WordsOutLength(words[..|words| - 1], n); }
  }

  /** Block `k` of a line's output is word `k`: its value, confidence and box, unchanged. */
  lemma {:induction false} WordsOutCopies(words: seq<Word>, n: int, k: int)
    requires 0 <= k < |words|
    ensures |WordsOut(words, n)| == |words|
    ensures var b, w := WordsOut(words, n)[k], words[k];
      && b.text == Some(w.value) && b.confidence == Some(w.confidence) && b.page == Some(n)
      && b.x0 == Some(w.box.x0 as real) && b.y0 == Some(w.box.y0 as real)
      && b.x1 == Some(w.box.x1 as real) && b.y1 == Some(w.box.y1 as real)
  {
    WordsOutLength(words, n);
    if k < |words| - 1 {
      WordsOutCopies(words[..|words| - 1], n, k);
    }
  }

  lemma {:induction false} LineWordCountSnoc(lines: seq<OcrLine>, last: OcrLine)
    ensures LineWordCount(lines + [last]) == LineWordCount(lines) + |last.words|
  {
    if lines != [] {
      assert (lines + [last])[1..] == lines[1..] + [last];
      LineWordCountSnoc(lines[1..], last);
    }
  }

  lemma {:induction false} BlockWordCountSnoc(blocks: seq<OcrBlock>, last: OcrBlock)
    ensures BlockWordCount(blocks + [last]) == BlockWordCount(blocks) + LineWordCount(last.lines)
  {
    if blocks != [] {
      assert (blocks + [last])[1..] == blocks[1..] + [last];
      BlockWordCountSnoc(blocks[1..], last);
    }
  }

  lemma {:induction false} WordCountSnoc(pages: seq<OcrPage>, last: OcrPage)
    ensures WordCount(pages + [last]) == WordCount(pages) + BlockWordCount(last.blocks)
  {
    if pages != [] {
      assert (pages + [last])[1..] == pages[1..] + [last];
      WordCountSnoc(pages[1..], last);
    }
  }

  lemma {:induction false} LinesOutLength(lines: seq<OcrLine>, n: int)
    ensures |LinesOut(lines, n)| == LineWordCount(lines)
  {
    if lines != [] {
      var last := lines[|lines| - 1];
      LinesOutLength(lines[..|lines| - 1], n);
      WordsOutLength(last.words, n);
      LineWordCountSnoc(lines[..|lines| - 1], last);
      assert lines[..|lines| - 1] + [last] == lines;
    }
  }

  lemma {:induction false} BlocksOutLength(blocks: seq<OcrBlock>, n: int)
    ensures |BlocksOut(blocks, n)| == BlockWordCount(blocks)
  {
    if blocks != [] {
      var last := blocks[|blocks| - 1];
      BlocksOutLength(blocks[..|blocks| - 1], n);
      LinesOutLength(last.lines, n);
      BlockWordCountSnoc(blocks[..|blocks| - 1], last);
      assert blocks[..|blocks| - 1] + [last] == blocks;
    }
  }

  /** Exactly one text block per recognised word. */
  lemma {:induction false} PagesOutLength(pages: seq<OcrPage>)
    ensures |PagesOut(pages)| == WordCount(pages)
  {
    if pages != [] {
      var last := pages[|pages| - 1];
      PagesOutLength(pages[..|pages| - 1]);
      BlocksOutLength(last.blocks, |pages|);
      WordCountSnoc(pages[..|pages| - 1], last);
      assert pages[..|pages| - 1] + [last] == pages;
    }
  }

  /** Every block of one page's output carries that page's number, a text and a confidence. */
  predicate FromPage(out: seq<Block>, n: int) {
    forall i :: 0 <= i < |out| ==>
      out[i].page == Some(n) && out[i].text.Some? && out[i].confidence.Some? && out[i].font.None?
  }

  lemma {:induction false} WordsOutFromPage(words: seq<Word>, n: int)
    ensures FromPage(WordsOut(words, n), n)
  {
    if words != [] { WordsOutFromPage(words[..|words| - 1], n); }
  }

  lemma {:induction false} LinesOutFromPage(lines: seq<OcrLine>, n: int)
    ensures FromPage(LinesOut(lines, n), n)
  {
    if lines != [] {
      LinesOutFromPage(lines[..|lines| - 1], n);
      WordsOutFromPage(lines[|lines| - 1].words, n);
    }
  }

  lemma {:induction false} BlocksOutFromPage(blocks: seq<OcrBlock>, n: int)
    ensures FromPage(BlocksOut(blocks, n), n)
  {
    if blocks != [] {
      BlocksOutFromPage(blocks[..|blocks| - 1], n);
      LinesOutFromPage(blocks[|blocks| - 1].lines, n);
    }
  }

  /**
   * Every block gets a 1-based page number no larger than the page count, page
   * numbers never decrease along the output, and every block carries the word's
   * text and confidence.
   */
  lemma {:induction false} PagesOutPageNumbers(pages: seq<OcrPage>)
    ensures forall i :: 0 <= i < |PagesOut(pages)| ==>
      var b := PagesOut(pages)[i];
      b.page.Some? && 1 <= b.page.value <= |pages| && b.text.Some? && b.confidence.Some?
    ensures forall i, j :: 0 <= i <= j < |PagesOut(pages)| ==>
      PagesOut(pages)[i].page.value <= PagesOut(pages)[j].page.value
  {
    if pages != [] {
      PagesOutPageNumbers(pages[..|pages| - 1]);
      BlocksOutFromPage(pages[|pages| - 1].blocks, |pages|);
    }
  }

  /** The suffixes `is_image_file` accepts. */
  const ImageExtensions: seq<string> := [".jpg", ".jpeg", ".png", ".bmp", ".tiff", ".tif"]

  /** `is_image_file`: the lower-cased suffix is one of the six image extensions. */
  function IsImageFile(path: string): bool {
    Text.Lower(Paths.Suffix(path)) in ImageExtensions
  }

  /**
   * A file named `stem + ext` is an image exactly when `ext`, lower-cased, is one of
   * the six extensions, so `SCAN.JPG` is accepted and `.png` (a hidden file whose
   * suffix is empty) is not.
   */
  lemma IsImageFileByExtension(dir: string, stem: string, ext: string)
    requires dir == [] || dir[|dir| - 1] == '/'
    requires |stem| >= 1 && '/' !in stem
    requires |ext| >= 2 && ext[0] == '.' && '.' !in ext[1..] && '/' !in ext
    ensures IsImageFile(dir + stem + ext) <==> Text.Lower(ext) in ImageExtensions
  {
    Paths.SuffixOfNamedFile(dir, stem, ext);
  }

  /** A name that is only an extension, such as `.png`, has no suffix and is never an image. */
  lemma HiddenFileIsNotImage(dir: string, ext: string)
    requires dir == [] || dir[|dir| - 1] == '/'
    requires |ext| >= 2 && ext[0] == '.' && '.' !in ext[1..] && '/' !in ext
    ensures !IsImageFile(dir + ext)
  {
    Paths.HiddenFileHasNoSuffix(dir, ext);
  }
}
