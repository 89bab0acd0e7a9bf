/**
 * backend/llm_extractor.py: ordering text blocks by position and assembling the
 * prompt text (`_combine_text_blocks`), repairing the model's JSON answer, and the
 * fallback record built when extraction fails (`extract_fields`). The remote model
 * call is a parameter: a function from the prompt to the parsed answer or a failure.
 */
module LlmExtractor {
  import opened Wrappers
  import opened Text
  import opened Blocks
  import opened Records

  // ---- Sorting by (page, y0, x0) ----

  datatype SortKey = SortKey(page: int, y0: real, x0: real)

  /** `(block.get("page", 0), block.get("y0", 0), block.get("x0", 0))`. */
  function KeyOf(b: Block): SortKey {
    SortKey(b.page.GetOr(0), b.y0.GetOr(0.0), b.x0.GetOr(0.0))
  }

  /** A block missing `page`, `y0` or `x0` sorts exactly like the same block with 0 there. */
  lemma MissingKeysSortAsZero(b: Block)
    ensures b.page.None? ==> KeyOf(b) == KeyOf(b.(page := Some(0)))
    ensures b.y0.None? ==> KeyOf(b) == KeyOf(b.(y0 := Some(0.0)))
    ensures b.x0.None? ==> KeyOf(b) == KeyOf(b.(x0 := Some(0.0)))
  {
  }

  /** Python's tuple comparison `a <= b`. */
  predicate KeyLe(a: SortKey, b: SortKey) {
    a.page < b.page || (a.page == b.page && (a.y0 < b.y0 || (a.y0 == b.y0 && a.x0 <= b.x0)))
  }

  predicate Sorted(s: seq<Block>) {
    forall i, j :: 0 <= i < j < |s| ==> KeyLe(KeyOf(s[i]), KeyOf(s[j]))
  }

  /** Puts `b` before the first block whose key is not smaller, so `b` precedes its equals. */
  function Insert(b: Block, s: seq<Block>): seq<Block> {
    if s == [] then [b]
    else if KeyLe(KeyOf(b), KeyOf(s[0])) then [b] + s
    else [s[0]] + Insert(b, s[1..])
  }

  /** `sorted(text_blocks, key=...)`, a stable sort. */
  function SortBlocks(s: seq<Block>): seq<Block> {
    if s == [] then [] else Insert(s[0], SortBlocks(s[1..]))
  }

  lemma {:induction false} InsertPermutes(b: Block, s: seq<Block>)
    ensures multiset(Insert(b, s)) == multiset(s) + multiset{b}
  {
    if s != [] && !KeyLe(KeyOf(b), KeyOf(s[0])) {
      InsertPermutes(b, s[1..]);
      assert s == [s[0]] + s[1..];
    }
  }

  lemma KeyLeTrans(a: SortKey, b: SortKey, c: SortKey)
    requires KeyLe(a, b) && KeyLe(b, c)
    ensures KeyLe(a, c)
  {
  }

  lemma {:induction false} InsertSorted(b: Block, s: seq<Block>)
    requires Sorted(s)
    ensures Sorted(Insert(b, s))
  {
    if s == [] {
    } else if KeyLe(KeyOf(b), KeyOf(s[0])) {
      var r := [b] + s;
      forall i, j | 0 <= i < j < |r| ensures KeyLe(KeyOf(r[i]), KeyOf(r[j])) {
        if i == 0 && j > 1 {
          KeyLeTrans(KeyOf(b), KeyOf(s[0]), KeyOf(s[j - 1]));
        }
      }
    } else {
      var t := Insert(b, s[1..]);
      InsertSorted(b, s[1..]);
      InsertAbove(b, s[1..], KeyOf(s[0]));
      var r := [s[0]] + t;
      forall i, j | 0 <= i < j < |r| ensures KeyLe(KeyOf(r[i]), KeyOf(r[j])) {
        if i == 0 {
          assert r[j] == t[j - 1];
        } else {
          assert r[i] == t[i - 1] && r[j] == t[j - 1];
        }
      }
    }
  }

  /** Inserting a block no smaller than `x` among blocks no smaller than `x` keeps them all so. */
  lemma {:induction false} InsertAbove(b: Block, s: seq<Block>, x: SortKey)
    requires KeyLe(x, KeyOf(b))
    requires forall i :: 0 <= i < |s| ==> KeyLe(x, KeyOf(s[i]))
    ensures forall i :: 0 <= i < |Insert(b, s)| ==> KeyLe(x, KeyOf(Insert(b, s)[i]))
  {
    if s != [] && !KeyLe(KeyOf(b), KeyOf(s[0])) {
      InsertAbove(b, s[1..], x);
      assert Insert(b, s) == [s[0]] + Insert(b, s[1..]);
    }
  }

  lemma {:induction false} SortBlocksSortedPermutation(s: seq<Block>)
    ensures Sorted(SortBlocks(s))
    ensures multiset(SortBlocks(s)) == multiset(s)
    ensures |SortBlocks(s)| == |s|
  {
    if s != [] {
      SortBlocksSortedPermutation(s[1..]);
      InsertSorted(s[0], SortBlocks(s[1..]));
      InsertPermutes(s[0], SortBlocks(s[1..]));
      assert s == [s[0]] + s[1..];
    }
    assert |multiset(SortBlocks(s))| == |multiset(s)|;
  }

  /** The blocks of `s` whose key is `k`, in order. */
  function WithKey(s: seq<Block>, k: SortKey): seq<Block> {
    if s == [] then [] else (if KeyOf(s[0]) == k then [s[0]] else []) + WithKey(s[1..], k)
  }

  lemma {:induction false} InsertWithKey(b: Block, s: seq<Block>, k: SortKey)
    ensures WithKey(Insert(b, s), k) == (if KeyOf(b) == k then [b] else []) + WithKey(s, k)
  {
    if s == [] {
    } else if KeyLe(KeyOf(b), KeyOf(s[0])) {
      assert ([b] + s)[1..] == s;
    } else {
      InsertWithKey(b, s[1..], k);
      assert ([s[0]] + Insert(b, s[1..]))[1..] == Insert(b, s[1..]);
      assert !(KeyOf(b) == k && KeyOf(s[0]) == k);
    }
  }

  /**
   * Stability: among blocks with equal keys the sorted order is the input order,
   * i.e. for every key the blocks carrying it appear in the same sequence.
   */
  lemma {:induction false} SortBlocksStable(s: seq<Block>, k: SortKey)
    ensures WithKey(SortBlocks(s), k) == WithKey(s, k)
  {
    if s != [] {
      SortBlocksStable(s[1..], k);
      InsertWithKey(s[0], SortBlocks(s[1..]), k);
    }
  }

  // ---- Assembling the prompt text ----

  function PageOf(b: Block): int {
    b.page.GetOr(0)
  }

  predicate AllHaveText(s: seq<Block>) {
    forall i :: 0 <= i < |s| ==> s[i].text.Some?
  }

  /** The page banner `"\n--- PAGE {page} ---\n"`. */
  function Banner(page: int): string {
    "\n--- PAGE " + IntToString(page) + " ---\n"
  }

  /** Different pages get different banners. */
  lemma BannerInjective(p: int, q: int)
    requires Banner(p) == Banner(q)
    ensures p == q
  {
    var a, b := IntToString(p), IntToString(q);
    assert Banner(p)[10..|Banner(p)| - 5] == a;
    assert Banner(q)[10..|Banner(q)| - 5] == b;
    IntToStringInjective(p, q);
  }

  /** Block `i` is where the running page changes (the first block always is). */
  predicate StartsPage(s: seq<Block>, i: nat)
    requires i < |s|
  {
    i == 0 || PageOf(s[i - 1]) != PageOf(s[i])
  }

  /**
   * A block's text followed by one space. The rendering below is only used where
   * every block has a text (`Combined`, and the loop up to the first block without).
   */
  function Spaced(b: Block): string {
    b.text.GetOr("") + " "
  }

  /** What the loop appends for block `i`: a banner if the page changed, the text, one space. */
  function Piece(s: seq<Block>, i: nat): string
    requires i < |s|
  {
    (if StartsPage(s, i) then Banner(PageOf(s[i])) else "") + Spaced(s[i])
  }

  /** The text built from the first `n` blocks of `s`. */
  function Render(s: seq<Block>, n: nat): string
    requires n <= |s|
  {
    if n == 0 then "" else Render(s, n - 1) + Piece(s, n - 1)
  }

  /** Sorting neither adds nor removes blocks, so some block lacks text before sorting iff one does after. */
  lemma SortedHaveText(blocks: seq<Block>)
    ensures AllHaveText(SortBlocks(blocks)) <==> AllHaveText(blocks)
  {
    var s := SortBlocks(blocks);
    SortBlocksSortedPermutation(blocks);
    if AllHaveText(blocks) {
      forall i | 0 <= i < |s| ensures s[i].text.Some? {
        assert s[i] in multiset(blocks);
      }
    }
    if AllHaveText(s) {
      forall i | 0 <= i < |blocks| ensures blocks[i].text.Some? {
        assert blocks[i] in multiset(s);
      }
    }
  }

  /** The combined text of blocks that all have a `text` key. */
  function Combined(blocks: seq<Block>): string
    requires AllHaveText(blocks)
  {
    SortedHaveText(blocks);
    var s := SortBlocks(blocks);
    Render(s, |s|)
  }

  /** One turn of the loop below: the banner (or nothing), the text and a space extend the rendering by one block. */
  lemma RenderStep(s: seq<Block>, i: nat, previous: Option<int>, before: string, banner: string)
    requires i < |s| && s[i].text.Some?
    requires before == Render(s, i)
    requires previous != Some(PageOf(s[i])) ==> banner == Banner(PageOf(s[i]))
    requires previous == Some(PageOf(s[i])) ==> banner == ""
    requires i == 0 ==> previous == None
    requires i > 0 ==> previous == Some(PageOf(s[i - 1]))
    ensures before + banner + s[i].text.value + " " == Render(s, i + 1)
  {
    assert banner == if StartsPage(s, i) then Banner(PageOf(s[i])) else "";
    assert before + banner + s[i].text.value + " " == before + (banner + Spaced(s[i]));
  }

  /**
   * The loop of `_combine_text_blocks` over blocks already sorted: appends each
   * block's text and a space, preceded by a banner whenever the page differs from
   * the previous block's. A block without `text` raises KeyError.
   */
  method RenderBlocks(sorted: seq<Block>) returns (r: Result<string, Exception>)
    ensures r.Err? <==> !AllHaveText(sorted)
    ensures r.Err? ==> r.error == KeyError("text")
    ensures r.Ok? ==> AllHaveText(sorted) && r.value == Render(sorted, |sorted|)
  {
    var result := "";
    var currentPage: Option<int> := None;
    var i := 0;
    while i < |sorted|
      invariant 0 <= i <= |sorted|
      invariant forall j :: 0 <= j < i ==> sorted[j].text.Some?
      invariant i == 0 ==> currentPage == None
      invariant i > 0 ==> currentPage == Some(PageOf(sorted[i - 1]))
      invariant result == Render(sorted, i)
    {
      var page := PageOf(sorted[i]);
      ghost var previous := currentPage;
      var banner := "";
      if currentPage != Some(page) {
        banner := Banner(page);
        currentPage := Some(page);
      }
      if sorted[i].text.None? {
        assert !AllHaveText(sorted) by {
          assert !sorted[i].text.Some?;
        }
        return Err(KeyError("text"));
      }
      RenderStep(sorted, i, previous, result, banner);
      result := result + banner + sorted[i].text.value + " ";
      i := i + 1;
    }
    r := Ok(result);
  }

  /**
   * `_combine_text_blocks`: the blocks sorted by page, then top, then left, rendered
   * as above; a block without `text` raises KeyError.
   */
  method CombineTextBlocks(blocks: seq<Block>) returns (r: Result<string, Exception>)
    ensures r.Err? <==> !AllHaveText(blocks)
    ensures r.Err? ==> r.error == KeyError("text")
    ensures r.Ok? ==> AllHaveText(blocks) && r.value == Combined(blocks)
  {
    var sorted := SortBlocks(blocks);
    SortedHaveText(blocks);
    r := RenderBlocks(sorted);
  }

  /** No blocks, no text. */
  lemma CombinedEmpty()
    ensures Combined([]) == ""
  {
  }

  /** Blocks in ascending page order, as sorting leaves them. */
  predicate PagesAscending(s: seq<Block>) {
    forall i, j :: 0 <= i < j < |s| ==> PageOf(s[i]) <= PageOf(s[j])
  }

  lemma SortedPagesAscending(s: seq<Block>)
    requires Sorted(s)
    ensures PagesAscending(s)
  {
    forall i, j | 0 <= i < j < |s| ensures PageOf(s[i]) <= PageOf(s[j]) {
      assert KeyLe(KeyOf(s[i]), KeyOf(s[j]));
    }
  }

  /**
   * In blocks in page order a banner precedes block `i` exactly when no earlier
   * block is on the same page, so each page's banner stands right before that
   * page's first block.
   */
  lemma BannerBeforeFirstBlockOfPage(s: seq<Block>, i: nat)
    requires PagesAscending(s) && i < |s|
    ensures StartsPage(s, i) <==> forall j :: 0 <= j < i ==> PageOf(s[j]) != PageOf(s[i])
  {
    if StartsPage(s, i) && i > 0 {
      forall j | 0 <= j < i ensures PageOf(s[j]) != PageOf(s[i]) {
        assert PageOf(s[j]) <= PageOf(s[i - 1]) || j == i - 1;
      }
    }
  }

  /** The number of banners among the first `n` blocks. */
  function BannerCount(s: seq<Block>, n: nat): nat
    requires n <= |s|
  {
    if n == 0 then 0 else BannerCount(s, n - 1) + (if StartsPage(s, n - 1) then 1 else 0)
  }

  /** The distinct page values among the first `n` blocks. */
  function PagesAmong(s: seq<Block>, n: nat): set<int>
    requires n <= |s|
  {
    if n == 0 then {} else PagesAmong(s, n - 1) + {PageOf(s[n - 1])}
  }

  /** A page value is among the first `n` blocks exactly when one of them is on that page. */
  lemma {:induction false} PagesAmongMembers(s: seq<Block>, n: nat, q: int)
    requires n <= |s|
    ensures q in PagesAmong(s, n) <==> exists j :: 0 <= j < n && PageOf(s[j]) == q
  {
    if n > 0 {
      PagesAmongMembers(s, n - 1, q);
      if q in PagesAmong(s, n - 1) {
        var j :| 0 <= j < n - 1 && PageOf(s[j]) == q;
        assert 0 <= j < n && PageOf(s[j]) == q;
      }
    }
  }

  lemma AddNewElement(a: set<int>, x: int)
    requires x !in a
    ensures |a + {x}| == |a| + 1
  {
    assert a * {x} == {};
  }

  /** In sorted blocks there is exactly one banner per distinct page value. */
  lemma {:induction false} OneBannerPerPage(s: seq<Block>, n: nat)
    requires PagesAscending(s) && n <= |s|
    ensures BannerCount(s, n) == |PagesAmong(s, n)|
  {
    if n > 0 {
      OneBannerPerPage(s, n - 1);
      var p, before := PageOf(s[n - 1]), PagesAmong(s, n - 1);
      BannerBeforeFirstBlockOfPage(s, n - 1);
      PagesAmongMembers(s, n - 1, p);
      if StartsPage(s, n - 1) {
        AddNewElement(before, p);
      } else {
        assert PageOf(s[n - 2]) == p;
        assert before + {p} == before;
      }
    }
  }

  /** `text + " "` for each of the first `n` blocks, with no banners. */
  function Texts(s: seq<Block>, n: nat): string
    requires n <= |s|
  {
    if n == 0 then "" else Texts(s, n - 1) + Spaced(s[n - 1])
  }

  /** A block on the same page as its predecessor adds only its text and a space. */
  lemma RenderSamePage(s: seq<Block>, n: nat)
    requires 1 < n <= |s|
    requires PageOf(s[n - 2]) == PageOf(s[n - 1])
    ensures Render(s, n) == Render(s, n - 1) + Spaced(s[n - 1])
  {
    assert !StartsPage(s, n - 1);
    assert Piece(s, n - 1) == "" + Spaced(s[n - 1]) == Spaced(s[n - 1]);
  }

  /** The first block always opens with its page's banner. */
  lemma RenderFirst(s: seq<Block>)
    requires 0 < |s|
    ensures Render(s, 1) == Banner(PageOf(s[0])) + Texts(s, 1)
  {
    var t := Spaced(s[0]);
    assert Texts(s, 1) == "" + t == t;
    assert Render(s, 1) == "" + Piece(s, 0) == Piece(s, 0);
  }

  /** Blocks that all lie on one page render as that page's banner followed by their texts. */
  lemma {:induction false} RenderSinglePage(s: seq<Block>, n: nat, page: int)
    requires 0 < n <= |s|
    requires forall i :: 0 <= i < n ==> PageOf(s[i]) == page
    ensures Render(s, n) == Banner(page) + Texts(s, n)
  {
    if n == 1 {
      RenderFirst(s);
    } else {
      RenderSinglePage(s, n - 1, page);
      RenderSamePage(s, n);
      var b, t, x := Banner(page), Texts(s, n - 1), Spaced(s[n - 1]);
      assert Render(s, n) == (b + t) + x;
      assert Texts(s, n) == t + x;
    }
  }

  // ---- Repairing the model's answer ----

  /**
   * One of the two repair loops of `extract_fields`: every field of `fields` that
   * is missing or null is set to `filler`; every other key keeps its value.
   */
  method FillMissing(data: Record, fields: seq<Field>, filler: Value) returns (out: Record)
    ensures forall f :: f in fields ==>
      Key(f) in out && out[Key(f)] == (if Key(f) in data && data[Key(f)] != Null then data[Key(f)] else filler)
    ensures forall k: Key :: !(k.Key? && k.field in fields) ==>
      (k in out <==> k in data) && (k in data ==> out[k] == data[k])
  {
    out := data;
    var i := 0;
    while i < |fields|
      invariant 0 <= i <= |fields|
      invariant forall f :: f in fields[..i] ==>
        Key(f) in out && out[Key(f)] == (if Key(f) in data && data[Key(f)] != Null then data[Key(f)] else filler)
      invariant forall k: Key :: !(k.Key? && k.field in fields[..i]) ==>
        (k in out <==> k in data) && (k in data ==> out[k] == data[k])
    {
      var field := fields[i];
      if Key(field) !in out || out[Key(field)] == Null {
        out := out[Key(field) := filler];
      }
      assert fields[..i + 1] == fields[..i] + [field];
      i := i + 1;
    }
    assert fields[..i] == fields;
  }

  /** The answer `parsed` after both repair loops, field by field; other keys are kept. */
  ghost predicate IsPatchOf(data: Record, parsed: Record) {
    && (forall f: Field :: IsRequired(f) ==>
          Key(f) in data
          && data[Key(f)] == (if Key(f) in parsed && parsed[Key(f)] != Null then parsed[Key(f)] else Str("Unknown")))
    && (forall f: Field :: IsList(f) ==>
          Key(f) in data
          && data[Key(f)] == (if Key(f) in parsed && parsed[Key(f)] != Null then parsed[Key(f)] else Lst([])))
    && (forall k: Key :: !(k.Key? && (IsRequired(k.field) || IsList(k.field))) ==>
          (k in data <==> k in parsed) && (k in parsed ==> data[k] == parsed[k]))
  }

  /**
   * The two loops of `extract_fields` (lines 112-120): every required field that is
   * missing or null becomes "Unknown", every list field that is missing or null
   * becomes `[]`, and nothing else changes.
   */
  method PatchFields(parsed: Record) returns (data: Record)
    ensures IsPatchOf(data, parsed)
  {
    FieldGroups();
    var withStrings := FillMissing(parsed, RequiredFields, Str("Unknown"));
    data := FillMissing(withStrings, ListFields, Lst([]));
  }

  /** After the repair, would every schema field pass the schema's type check? */
  predicate PatchedFits(parsed: Record) {
    forall f: Field :: Key(f) in parsed && parsed[Key(f)] != Null ==>
      if IsList(f) then parsed[Key(f)].Lst? else parsed[Key(f)].Str?
  }

  /** The value a schema field ends up with when the repaired answer passes the schema. */
  function PatchedValue(parsed: Record, f: Field): Value {
    if Key(f) in parsed && parsed[Key(f)] != Null then parsed[Key(f)]
    else if IsRequired(f) then Str("Unknown")
    else if IsList(f) then Lst([])
    else Null
  }

  /**
   * The repaired answer passes the schema exactly when every non-null schema field
   * of the answer has the right type; it then comes out with a string in every
   * required field, a list in every list field and the answer's own non-null values.
   */
  lemma PatchThenConform(parsed: Record, data: Record)
    requires IsPatchOf(data, parsed)
    ensures Conform(data).Ok? <==> PatchedFits(parsed)
    ensures Conform(data).Ok? ==> forall f: Field :: Conform(data).value[Key(f)] == PatchedValue(parsed, f)
    ensures Conform(data).Ok? ==> forall f: Field :: IsRequired(f) ==> Conform(data).value[Key(f)].Str?
    ensures Conform(data).Ok? ==> forall f: Field :: IsList(f) ==> Conform(data).value[Key(f)].Lst?
  {
    if PatchedFits(parsed) {
      forall f: Field ensures Fits(data, f) {
      }
    }
    if Conform(data).Ok? {
      forall f: Field | Key(f) in parsed && parsed[Key(f)] != Null
        ensures if IsList(f) then parsed[Key(f)].Lst? else parsed[Key(f)].Str?
      {
        assert Fits(data, f);
      }
    }
  }

  // ---- The fallback after a failure ----

  /** `block.get("text", "")`. */
  function TextOrEmpty(b: Block): string {
    b.text.GetOr("")
  }

  /** The texts of at most the first five blocks, joined with single spaces. */
  function SampleJoin(blocks: seq<Block>): string {
    var head := if |blocks| <= 5 then blocks else blocks[..5];
    Join(seq(|head|, k requires 0 <= k < |head| => TextOrEmpty(head[k])), " ")
  }

  /** `sample_text`: the joined sample, cut to 50 characters plus "..." when longer. */
  function SampleText(blocks: seq<Block>): (r: string)
    ensures |r| <= 53
    ensures blocks == [] ==> r == ""
    ensures |SampleJoin(blocks)| <= 50 ==> r == SampleJoin(blocks)
    ensures |SampleJoin(blocks)| > 50 ==>
      |r| == 53 && r[..50] == SampleJoin(blocks)[..50] && r[50..] == "..."
  {
    if blocks == [] then ""
    else
      var joined := SampleJoin(blocks);
      if |joined| > 50 then joined[..50] + "..." else joined
  }

  /** Only the first five blocks matter to the sample. */
  lemma SampleIgnoresLaterBlocks(a: seq<Block>, b: seq<Block>)
    requires |a| >= 5
    ensures SampleText(a + b) == SampleText(a)
  {
    var headAB := if |a + b| <= 5 then a + b else (a + b)[..5];
    var headA := if |a| <= 5 then a else a[..5];
    assert headAB == headA;
    assert SampleJoin(a + b) == SampleJoin(a);
  }

  /** Field `f` of the record returned when extraction fails (lines 139-154). */
  function FallbackValue(f: Field, message: string, sample: string): Value {
    match f
    case PatientName => Str("Unable to extract - API error")
    case DateOfBirth => Str("Unknown")
    case Gender => Str("Unknown")
    case Address => Str("Unable to extract - API error")
    case PhoneNumber => Str("Unknown")
    case Email => Null
    case InsuranceProvider => Str("Unknown")
    case InsuranceId => Str("Unknown")
    case MedicalHistory => Lst([])
    case CurrentMedications => Lst([])
    case Allergies => Lst([])
    case PrimaryComplaint => Str("Error in extraction: " + message + ". Sample text: " + sample)
    case AppointmentDate => Null
    case DoctorName => Null
  }

  /** The record returned when extraction fails: one entry per schema field. */
  function ExtractionFallback(message: string, sample: string): Record {
    map k | k in SchemaKeys() :: FallbackValue(k.field, message, sample)
  }

  /** Each fallback value has its field's type: a string, an empty list, or `None`. */
  lemma FallbackValueKind(f: Field, message: string, sample: string)
    ensures IsRequired(f) ==> FallbackValue(f, message, sample).Str?
    ensures IsList(f) ==> FallbackValue(f, message, sample) == Lst([])
    ensures IsOptional(f) ==> FallbackValue(f, message, sample) == Null
  {
    match f
    case PrimaryComplaint =>
    case _ =>
  }

  /**
   * The fallback record has exactly the schema's fields, a string in every required
   * field and an empty list in every list field, and itself satisfies the schema.
   */
  lemma FallbackConforms(message: string, sample: string)
    ensures ExtractionFallback(message, sample).Keys == SchemaKeys()
    ensures forall f: Field :: IsRequired(f) ==> ExtractionFallback(message, sample)[Key(f)].Str?
    ensures forall f: Field :: IsList(f) ==> ExtractionFallback(message, sample)[Key(f)] == Lst([])
    ensures Conform(ExtractionFallback(message, sample)) == Ok(ExtractionFallback(message, sample))
  {
    var fb := ExtractionFallback(message, sample);
    forall f: Field
      ensures Fits(fb, f)
      ensures IsRequired(f) ==> fb[Key(f)].Str?
      ensures IsList(f) ==> fb[Key(f)] == Lst([])
    {
      FallbackValueKind(f, message, sample);
    }
    ConformComplete(fb);
  }

  // ---- extract_fields ----

  /** What the model call yields: the parsed JSON object, or the text of the exception. */
  datatype LlmOutcome = Parsed(data: Record) | Failed(message: string)

  /** The user message sent with the combined text. */
  function UserPrompt(combined: string): string {
    "Extract the healthcare form data from the following text:\n\n" + combined
  }

  /** The text of a schema failure naming the offending field (pydantic's wording is not modelled). */
  function SchemaErrorMessage(field: Field): string {
    "1 validation error for HealthcareFormFields\n" + Name(field)
  }

  /** A complete record: exactly the schema's keys, a string in every required field, a list in every list field. */
  ghost predicate Complete(rec: Record) {
    && rec.Keys == SchemaKeys()
    && (forall f: Field :: IsRequired(f) ==> rec[Key(f)].Str?)
    && (forall f: Field :: IsList(f) ==> rec[Key(f)].Lst?)
  }

  /**
   * The `try` block of `extract_fields` with its `except` clause, given what the
   * model call produced and the sample text the `except` clause would compute.
   */
  method HandleAnswer(outcome: LlmOutcome, sample: string) returns (rec: Record)
    ensures Complete(rec)
    ensures outcome.Failed? ==> rec == ExtractionFallback(outcome.message, sample)
    ensures outcome.Parsed? && PatchedFits(outcome.data) ==>
      forall f: Field :: rec[Key(f)] == PatchedValue(outcome.data, f)
    ensures outcome.Parsed? && !PatchedFits(outcome.data) ==>
      exists f: Field :: rec == ExtractionFallback(SchemaErrorMessage(f), sample)
  {
    match outcome {
      case Failed(message) =>
        FallbackConforms(message, sample);
        rec := ExtractionFallback(message, sample);
      case Parsed(parsed) =>
        var data := PatchFields(parsed);
        PatchThenConform(parsed, data);
        match Conform(data) {
          case Ok(validated) =>
            rec := validated;
          case Err(field) =>
            FallbackConforms(SchemaErrorMessage(field), sample);
            rec := ExtractionFallback(SchemaErrorMessage(field), sample);
        }
    }
  }

  /**
   * `LLMExtractor.extract_fields`. Combining the blocks happens outside the `try`, so
   * a block without text raises KeyError out of the call. Otherwise the result is
   * always a complete record. A parsed answer that passes the schema keeps its
   * non-null values; any failure (of the call, of the JSON, or of the schema) gives
   * the fallback record.
   */
  method ExtractFields(blocks: seq<Block>, llm: string -> LlmOutcome) returns (r: Result<Record, Exception>)
    ensures r.Err? <==> !AllHaveText(blocks)
    ensures r.Err? ==> r.error == KeyError("text")
    ensures r.Ok? ==> Complete(r.value)
    ensures r.Ok? ==>
      var outcome := llm(UserPrompt(Combined(blocks)));
      && (outcome.Failed? ==> r.value == ExtractionFallback(outcome.message, SampleText(blocks)))
      && (outcome.Parsed? && PatchedFits(outcome.data) ==>
            forall f: Field :: r.value[Key(f)] == PatchedValue(outcome.data, f))
      && (outcome.Parsed? && !PatchedFits(outcome.data) ==>
            exists f: Field :: r.value == ExtractionFallback(SchemaErrorMessage(f), SampleText(blocks)))
  {
    var combined := CombineTextBlocks(blocks);
    if combined.Err? {
      return Err(combined.error);
    }
    var rec := HandleAnswer(llm(UserPrompt(combined.value)), SampleText(blocks));
    r := Ok(rec);
  }
}
