/**
 * backend/app_compatible.py: the self-contained variant of the pipeline. Its
 * `validate` only turns string list fields into lists before the schema check; its
 * layout extractor answers a fixed mock block when PyMuPDF cannot be imported; and
 * `extract_text_from_file` dispatches on the file type.
 */
module AppCompatible {
  import opened Wrappers
  import opened Text
  import opened Blocks
  import opened Records
  import PdfParser
  import OcrParser
  import Paths
  import Validator

  // ---- validate: string list fields become lists ----

  /** A key that names one of the three list fields. */
  predicate IsListKey(k: Key) {
    k.Key? && IsList(k.field)
  }

  /**
   * The dictionary after the conversion loop: a list field holding a string holds
   * its stripped comma-separated items (none for the empty string); every other
   * entry, including a list field holding `None` or a list, is as it was.
   */
  function Converted(data: Record): Record {
    map k | k in data :: if IsListKey(k) then StringToList(data[k]) else data[k]
  }

  /** One pass of the conversion loop (lines 264-270). */
  method ConvertListField(d: FormDict, field: Field)
    requires IsList(field)
    modifies d
    ensures Key(field) in old(d.entries) ==>
      d.entries == old(d.entries)[Key(field) := StringToList(old(d.entries)[Key(field)])]
    ensures Key(field) !in old(d.entries) ==> d.entries == old(d.entries)
  {
    var k := Key(field);
    if k in d.entries && d.entries[k].Str? {
      if d.entries[k].s != "" {
        d.entries := d.entries[k := Lst(CommaItems(d.entries[k].s))];
      } else {
        d.entries := d.entries[k := Lst([])];
      }
    }
  }

  /** The conversion loop of `validate`, rewriting the caller's dictionary in place. */
  method ConvertListFields(d: FormDict)
    modifies d
    ensures d.entries == Converted(old(d.entries))
  {
    ghost var data := d.entries;
    FieldGroups();
    var j := 0;
    while j < |ListFields|
      invariant 0 <= j <= |ListFields|
      invariant d.entries.Keys == data.Keys
      invariant forall k :: k in d.entries && k.Key? && k.field in ListFields[..j] ==>
        d.entries[k] == StringToList(data[k])
      invariant forall k :: k in d.entries && !(k.Key? && k.field in ListFields[..j]) ==> d.entries[k] == data[k]
    {
      ConvertListField(d, ListFields[j]);
      assert ListFields[..j + 1] == ListFields[..j] + [ListFields[j]];
      j := j + 1;
    }
    assert ListFields[..j] == ListFields;
  }

  /**
   * The conversion keeps every key; a non-empty string list field becomes one
   * stripped item per comma plus one, an empty one `[]`; a list field holding `None`,
   * a list or an object, and every other key, keep their values.
   */
  lemma ConvertedSpec(data: Record)
    ensures Converted(data).Keys == data.Keys
    ensures forall f: Field :: IsList(f) && Key(f) in data && data[Key(f)].Str? && data[Key(f)].s != "" ==>
      && Converted(data)[Key(f)] == Lst(CommaItems(data[Key(f)].s))
      && |CommaItems(data[Key(f)].s)| == Count(data[Key(f)].s, ',') + 1
    ensures forall f: Field :: IsList(f) && Key(f) in data && data[Key(f)] == Str("") ==>
      Converted(data)[Key(f)] == Lst([])
    ensures forall k :: k in data && !(IsListKey(k) && data[k].Str?) ==> Converted(data)[k] == data[k]
  {
    forall f: Field | IsList(f) && Key(f) in data && data[Key(f)].Str? && data[Key(f)].s != ""
      ensures |CommaItems(data[Key(f)].s)| == Count(data[Key(f)].s, ',') + 1
    {
      CommaItemsSpec(data[Key(f)].s);
    }
  }

  /** Converting twice is converting once: no list field holds a string afterwards. */
  lemma ConvertedIdempotent(data: Record)
    ensures Converted(Converted(data)) == Converted(data)
  {
    var c := Converted(data);
    forall k | k in c ensures Converted(c)[k] == c[k] {
      if IsListKey(k) {
        assert !c[k].Str?;
      }
    }
  }

  /**
   * Where the two validators' loops differ: on a list field holding a string both
   * produce the same list, but a list field holding `None` stays `None` here while
   * `validator.validate` makes it `[]`, and a required field holding `None` is not
   * turned into "Unknown" here.
   */
  lemma ConvertedAgainstNormalized(data: Record, f: Field)
    requires Key(f) in data
    ensures IsList(f) && data[Key(f)].Str? ==> Converted(data)[Key(f)] == Validator.Normalized(data)[Key(f)]
    ensures IsList(f) && data[Key(f)] == Null ==>
      Converted(data)[Key(f)] == Null && Validator.Normalized(data)[Key(f)] == Lst([])
    ensures IsRequired(f) && data[Key(f)] == Null ==>
      Converted(data)[Key(f)] == Null && Validator.Normalized(data)[Key(f)] == Str("Unknown")
  {
  }

  /** A list field passes the schema check after conversion when it held any string. */
  predicate FitsAfterConversion(data: Record, f: Field) {
    if IsList(f) && Key(f) in data && data[Key(f)].Str? then true else Fits(data, f)
  }

  lemma ConvertedFits(data: Record, f: Field)
    ensures Fits(Converted(data), f) <==> FitsAfterConversion(data, f)
  {
  }

  /**
   * `validate` (lines 253-276): the caller's dictionary is converted in place, then
   * checked against `FormData`; a failure names the first field that does not fit.
   */
  method Validate(d: FormDict) returns (r: Result<Record, Field>)
    modifies d
    ensures d.entries == Converted(old(d.entries))
    ensures r == Conform(d.entries)
  {
    ConvertListFields(d);
    r := Conform(d.entries);
  }

  /**
   * The schema check after conversion accepts exactly the dictionaries whose
   * required fields hold strings, whose optional fields are absent, `None` or
   * strings, and whose list fields are absent, `None`, lists or strings.
   */
  lemma ValidateAccepts(data: Record)
    ensures Conform(Converted(data)).Ok? <==> forall f: Field :: FitsAfterConversion(data, f)
  {
    forall f: Field ensures Fits(Converted(data), f) <==> FitsAfterConversion(data, f) {
      ConvertedFits(data, f);
    }
  }

  // ---- The layout extractor with its import fallback ----

  /** The block answered when PyMuPDF cannot be imported. */
  const MockPdfBlock: Block := Block(
    text := Some("Mock PDF text"),
    page := Some(1),
    x0 := Some(0.0), y0 := Some(0.0),
    x1 := Some(100.0), y1 := Some(20.0),
    font := None, size := None, color := None,
    confidence := None)

  /**
   * `extract_text_with_layout` (lines 52-106): the same flattening as
   * backend/pdf_parser.py when PyMuPDF imports; otherwise the one mock block,
   * whether or not the file exists.
   */
  method ExtractTextWithLayout(path: string, fitzAvailable: bool, fileExists: bool, doc: PdfParser.Document)
    returns (r: Result<seq<Block>, Exception>)
    modifies doc
    ensures !fitzAvailable ==> r == Ok([MockPdfBlock]) && doc.closeCount == old(doc.closeCount)
    ensures fitzAvailable && !fileExists ==>
      r == Err(FileNotFoundError("PDF file not found: " + path)) && doc.closeCount == old(doc.closeCount)
    ensures fitzAvailable && fileExists ==>
      r == Ok(PdfParser.PagesOut(doc.pages)) && doc.closeCount == old(doc.closeCount) + 1
  {
    if !fitzAvailable {
      return Ok([MockPdfBlock]);
    }
    r := PdfParser.ExtractTextWithLayout(path, fileExists, doc);
  }

  // ---- Dispatch on the file type ----

  /** Which extractor `extract_text_from_file` hands a file to, or none. */
  datatype Route = ToPdf | ToImage | Unsupported

  function RouteOf(path: string, content: Option<seq<bv8>>): (r: Route)
    ensures r == ToPdf <==> PdfParser.IsPdfFile(path, content)
    ensures r == ToImage <==> !PdfParser.IsPdfFile(path, content) && OcrParser.IsImageFile(path)
  {
    if PdfParser.IsPdfFile(path, content) then ToPdf
    else if OcrParser.IsImageFile(path) then ToImage
    else Unsupported
  }

  /** A `.pdf` file without the `%PDF` header is neither a PDF nor an image, so it is refused. */
  lemma FakePdfRefused(path: string, content: Option<seq<bv8>>)
    requires Lower(Paths.Suffix(path)) == ".pdf" && !PdfParser.IsPdfFile(path, content)
    ensures RouteOf(path, content) == Unsupported
  {
    assert Lower(Paths.Suffix(path)) !in OcrParser.ImageExtensions;
  }

  /** An image is never read as a PDF, whatever its contents. */
  lemma ImageRoutedToImage(path: string, content: Option<seq<bv8>>)
    requires OcrParser.IsImageFile(path)
    ensures RouteOf(path, content) == ToImage
  {
    assert Lower(Paths.Suffix(path)) != ".pdf";
  }

  /**
   * `extract_text_from_file` (lines 437-457): a PDF goes to the layout extractor,
   * an image to the image extractor (whose mock answer is `imageBlocks`), anything
   * else raises ValueError naming the suffix as written.
   */
  method ExtractTextFromFile(
    path: string, content: Option<seq<bv8>>, fitzAvailable: bool, fileExists: bool,
    doc: PdfParser.Document, imageBlocks: Result<seq<Block>, Exception>)
    returns (r: Result<seq<Block>, Exception>)
    modifies doc
    ensures RouteOf(path, content) == ToImage ==> r == imageBlocks && doc.closeCount == old(doc.closeCount)
    ensures RouteOf(path, content) == Unsupported ==>
      r == Err(ValueError("Unsupported file type: " + Paths.Suffix(path))) && doc.closeCount == old(doc.closeCount)
    ensures RouteOf(path, content) == ToPdf && !fitzAvailable ==>
      r == Ok([MockPdfBlock]) && doc.closeCount == old(doc.closeCount)
    ensures RouteOf(path, content) == ToPdf && fitzAvailable && fileExists ==>
      r == Ok(PdfParser.PagesOut(doc.pages)) && doc.closeCount == old(doc.closeCount) + 1
    ensures RouteOf(path, content) == ToPdf && fitzAvailable && !fileExists ==>
      r == Err(FileNotFoundError("PDF file not found: " + path)) && doc.closeCount == old(doc.closeCount)
  {
    if PdfParser.IsPdfFile(path, content) {
      r := ExtractTextWithLayout(path, fitzAvailable, fileExists, doc);
    } else if OcrParser.IsImageFile(path) {
      r := imageBlocks;
    } else {
      r := Err(ValueError("Unsupported file type: " + Paths.Suffix(path)));
    }
  }
}
