/**
 * backend/form_filler.py: the summary of an extracted record, either drawn as an
 * image (`create_form_visualization`) or, when drawing is impossible, written as a
 * plain-text file (`_create_text_fallback`). Drawing itself is not modelled: what
 * is kept is where each row is placed (the `y_pos` threading) and the exact text
 * of the fallback file. Font metrics, PIL's availability and file-system failures
 * are parameters.
 */
module FormFiller {
  import opened Wrappers
  import opened Text
  import opened Records

  // ---- How a value is shown ----

  /** Python's `repr` of a string, for strings without quotes or backslashes. */
  function Quoted(s: string): string {
    "'" + s + "'"
  }

  function QuotedAll(items: seq<string>): seq<string> {
    seq(|items|, i requires 0 <= i < |items| => Quoted(items[i]))
  }

  /** `str(value)`, also what an f-string inserts. A JSON object is shown as an empty dict. */
  function Show(v: Value): string {
    match v
    case Null => "None"
    case Str(s) => s
    case Lst(items) => "[" + Join(QuotedAll(items), ", ") + "]"
    case Other => "{}"
  }

  /** `data.get(name, "N/A")`, shown. */
  function ScalarText(data: Record, f: Field): (r: string)
    ensures Key(f) !in data ==> r == "N/A"
    ensures Key(f) in data && data[Key(f)].Str? ==> r == data[Key(f)].s
  {
    if Key(f) in data then Show(data[Key(f)]) else "N/A"
  }

  /** `data.get(name, [])`. */
  function ListValue(data: Record, f: Field): (r: Value)
    ensures Key(f) !in data ==> r == Lst([])
  {
    if Key(f) in data then data[Key(f)] else Lst([])
  }

  /**
   * What a `for` loop over the value visits: the items of a list, the characters
   * of a string, nothing for an (empty) object; `None` cannot be iterated.
   */
  function Items(v: Value): Option<seq<string>> {
    match v
    case Null => None
    case Str(s) => Some(seq(|s|, i requires 0 <= i < |s| => [s[i]]))
    case Lst(items) => Some(items)
    case Other => Some([])
  }

  /** Python's `not v`. */
  predicate Falsy(v: Value) {
    match v
    case Null => true
    case Str(s) => s == ""
    case Lst(items) => items == []
    case Other => true
  }

  /** A value is falsy exactly when it is `None` or iterating it visits nothing. */
  lemma FalsyMeansNothingToVisit(v: Value)
    ensures Falsy(v) <==> Items(v) == None || Items(v) == Some([])
  {
    if v.Str? && v.s != "" {
      assert |Items(v).value| == |v.s|;
    }
  }

  // ---- Vertical advance of one row ----

  /**
   * `_draw_field`: a single-line value takes 25 pixels; a value with newlines takes
   * one `lineHeight` per line.
   */
  function DrawField(value: string, y: int, lineHeight: int): int {
    if '\n' in value then y + |Split(value, '\n')| * lineHeight else y + 25
  }

  /** The line count of a multi-line value is its number of newlines plus one, so at least two. */
  lemma DrawFieldAdvance(value: string, y: int, lineHeight: int)
    ensures '\n' !in value ==> DrawField(value, y, lineHeight) == y + 25
    ensures '\n' in value ==>
      DrawField(value, y, lineHeight) == y + (Count(value, '\n') + 1) * lineHeight
      && Count(value, '\n') + 1 >= 2
    ensures lineHeight > 0 ==> DrawField(value, y, lineHeight) > y
  {
    SplitPieces(value, '\n');
    CountZero(value, '\n');
  }

  /**
   * `_draw_list_field`: an empty (or `None`) value takes 25 pixels, otherwise one
   * `lineHeight` per item.
   */
  function DrawListField(v: Value, y: int, lineHeight: int): int {
    if Falsy(v) then y + 25
    else match Items(v)
      case Some(items) => y + |items| * lineHeight
      case None => y + 25
  }

  lemma DrawListFieldAdvance(v: Value, y: int, lineHeight: int)
    ensures Falsy(v) ==> DrawListField(v, y, lineHeight) == y + 25
    ensures v.Lst? && v.items != [] ==> DrawListField(v, y, lineHeight) == y + |v.items| * lineHeight
    ensures lineHeight > 0 ==> DrawListField(v, y, lineHeight) > y
  {
    FalsyMeansNothingToVisit(v);
  }

  // ---- The rows of the image and the y_pos threading ----

  /**
   * A section heading drawn `gap` pixels below the current position, a labelled
   * scalar field, or a labelled list field.
   */
  datatype Row =
    | Heading(title: string, gap: nat)
    | ScalarRow(caption: string, field: Field)
    | ListRow(caption: string, field: Field)

  /** The rows in drawing order (lines 72-135). */
  const FormRows: seq<Row> := [
    Heading("Patient Information", 0),
    ScalarRow("Patient Name:", PatientName),
    ScalarRow("Date of Birth:", DateOfBirth),
    ScalarRow("Gender:", Gender),
    ScalarRow("Address:", Address),
    ScalarRow("Phone Number:", PhoneNumber),
    ScalarRow("Email:", Email),
    Heading("Insurance Information", 20),
    ScalarRow("Insurance Provider:", InsuranceProvider),
    ScalarRow("Insurance ID:", InsuranceId),
    Heading("Medical Information", 20),
    ListRow("Medical History:", MedicalHistory),
    ListRow("Current Medications:", CurrentMedications),
    ListRow("Allergies:", Allergies),
    Heading("Appointment Information", 20),
    ScalarRow("Primary Complaint:", PrimaryComplaint),
    ScalarRow("Appointment Date:", AppointmentDate),
    ScalarRow("Doctor:", DoctorName)
  ]

  /** Where a row is drawn when the current position is `y`. */
  function Top(row: Row, y: int): int {
    match row
    case Heading(_, gap) => y + gap
    case _ => y
  }

  /**
   * The position after a row: a heading takes 30 pixels, a scalar field its
   * advance plus 10, a list field its advance plus 20.
   */
  function Next(row: Row, data: Record, y: int, lineHeight: int): int {
    match row
    case Heading(_, gap) => y + gap + 30
    case ScalarRow(_, f) => DrawField(ScalarText(data, f), y, lineHeight) + 10
    case ListRow(_, f) => DrawListField(ListValue(data, f), y, lineHeight) + 20
  }

  /** The position at which each row is drawn, starting from `y`. */
  function Layout(rows: seq<Row>, data: Record, y: int, lineHeight: int): (tops: seq<int>)
    ensures |tops| == |rows|
  {
    if rows == [] then [] else [Top(rows[0], y)] + Layout(rows[1..], data, Next(rows[0], data, y, lineHeight), lineHeight)
  }

  /** The position after the last row. */
  function EndY(rows: seq<Row>, data: Record, y: int, lineHeight: int): int {
    if rows == [] then y else EndY(rows[1..], data, Next(rows[0], data, y, lineHeight), lineHeight)
  }

  /**
   * One row of `create_form_visualization`: a heading moves down by its gap, is
   * drawn, and takes 30 pixels; a field is drawn where the position is, which then
   * moves by the field's advance and the 10 or 20 pixels that follow it.
   */
  method DrawRow(row: Row, data: Record, y: int, lineHeight: int) returns (top: int, next: int)
    ensures top == Top(row, y) && next == Next(row, data, y, lineHeight)
  {
    next := y;
    match row {
      case Heading(_, gap) =>
        next := next + gap;
        top := next;
        next := next + 30;
      case ScalarRow(_, f) =>
        top := next;
        next := DrawField(ScalarText(data, f), next, lineHeight);
        next := next + 10;
      case ListRow(_, f) =>
        top := next;
        next := DrawListField(ListValue(data, f), next, lineHeight);
        next := next + 20;
    }
  }

  /**
   * The drawing part of `create_form_visualization`: `y_pos` starts at `start`
   * (100 for the form) and is threaded through every row; returns where each row
   * was drawn and the final position.
   */
  method DrawRows(rows: seq<Row>, data: Record, start: int, lineHeight: int) returns (tops: seq<int>, y: int)
    ensures tops == Layout(rows, data, start, lineHeight)
    ensures y == EndY(rows, data, start, lineHeight)
  {
    y := start;
    tops := [];
    var i := 0;
    while i < |rows|
      invariant 0 <= i <= |rows|
      invariant tops + Layout(rows[i..], data, y, lineHeight) == Layout(rows, data, start, lineHeight)
      invariant EndY(rows[i..], data, y, lineHeight) == EndY(rows, data, start, lineHeight)
    {
      var top, next := DrawRow(rows[i], data, y, lineHeight);
      LayoutStep(rows[i..], data, y, lineHeight);
      assert rows[i..][1..] == rows[i + 1..];
      tops := tops + [top];
      y := next;
      i := i + 1;
    }
  }

  /** Placing a non-empty run of rows places the first, then the rest from where it ends. */
  lemma LayoutStep(rows: seq<Row>, data: Record, y: int, lineHeight: int)
    requires rows != []
    ensures Layout(rows, data, y, lineHeight)
      == [Top(rows[0], y)] + Layout(rows[1..], data, Next(rows[0], data, y, lineHeight), lineHeight)
    ensures EndY(rows, data, y, lineHeight) == EndY(rows[1..], data, Next(rows[0], data, y, lineHeight), lineHeight)
  {
  }

  /** Every row moves the position strictly down when `lineHeight` is positive. */
  lemma NextBelowTop(row: Row, data: Record, y: int, lineHeight: int)
    requires lineHeight > 0
    ensures y <= Top(row, y) < Next(row, data, y, lineHeight)
  {
    match row
    case Heading(_, _) =>
    case ScalarRow(_, f) => DrawFieldAdvance(ScalarText(data, f), y, lineHeight);
    case ListRow(_, f) => DrawListFieldAdvance(ListValue(data, f), y, lineHeight);
  }

  /**
   * With a positive line height the rows are drawn top to bottom without overlap
   * of their top edges: every position is at least the start, strictly below the
   * previous one, and above the final position.
   */
  lemma {:induction false} LayoutDescends(rows: seq<Row>, data: Record, y: int, lineHeight: int)
    requires lineHeight > 0
    ensures forall i :: 0 <= i < |rows| ==> y <= Layout(rows, data, y, lineHeight)[i] < EndY(rows, data, y, lineHeight)
    ensures forall i, j :: 0 <= i < j < |rows| ==>
      Layout(rows, data, y, lineHeight)[i] < Layout(rows, data, y, lineHeight)[j]
    ensures y <= EndY(rows, data, y, lineHeight)
  {
    if rows != [] {
      var next := Next(rows[0], data, y, lineHeight);
      NextBelowTop(rows[0], data, y, lineHeight);
      LayoutDescends(rows[1..], data, next, lineHeight);
      var tops := Layout(rows, data, y, lineHeight);
      assert tops[1..] == Layout(rows[1..], data, next, lineHeight);
    }
  }

  /** The image starts its rows at 100, the first of them the patient heading. */
  lemma LayoutStartsAt100(data: Record, lineHeight: int)
    ensures |Layout(FormRows, data, 100, lineHeight)| == 18
    ensures Layout(FormRows, data, 100, lineHeight)[0] == 100
  {
  }

  /** A row whose advance does not depend on the record or the font. */
  predicate PlainRow(row: Row, data: Record) {
    match row
    case Heading(_, _) => true
    case ScalarRow(_, f) => '\n' !in ScalarText(data, f)
    case ListRow(_, f) => Falsy(ListValue(data, f))
  }

  /**
   * When no shown value has a newline and every list field is empty, absent or
   * `None`, the placement is the same for any two such records and any font.
   */
  lemma {:induction false} PlainLayoutFixed(rows: seq<Row>, d1: Record, d2: Record, y: int, h1: int, h2: int)
    requires forall i :: 0 <= i < |rows| ==> PlainRow(rows[i], d1) && PlainRow(rows[i], d2)
    ensures Layout(rows, d1, y, h1) == Layout(rows, d2, y, h2)
    ensures EndY(rows, d1, y, h1) == EndY(rows, d2, y, h2)
  {
    if rows != [] {
      assert Next(rows[0], d1, y, h1) == Next(rows[0], d2, y, h2) by {
        match rows[0]
        case Heading(_, _) =>
        case ScalarRow(_, f) =>
          DrawFieldAdvance(ScalarText(d1, f), y, h1);
          DrawFieldAdvance(ScalarText(d2, f), y, h2);
        case ListRow(_, f) =>
          DrawListFieldAdvance(ListValue(d1, f), y, h1);
          DrawListFieldAdvance(ListValue(d2, f), y, h2);
      }
      PlainLayoutFixed(rows[1..], d1, d2, Next(rows[0], d1, y, h1), h1, h2);
    }
  }

  // ---- The text fallback ----

  /** The file content for a sequence of lines, each written with its newline. */
  function Unlines(lines: seq<string>): string {
    if lines == [] then "" else lines[0] + "\n" + Unlines(lines[1..])
  }

  lemma {:induction false} UnlinesSnoc(lines: seq<string>, line: string)
    ensures Unlines(lines + [line]) == Unlines(lines) + line + "\n"
  {
    if lines != [] {
      assert (lines + [line])[1..] == lines[1..] + [line];
      UnlinesSnoc(lines[1..], line);
    }
  }

  /** The content is the lines joined by newlines, with a final newline. */
  lemma {:induction false} UnlinesJoin(lines: seq<string>)
    ensures Unlines(lines) == Join(lines + [""], "\n")
  {
    if lines != [] {
      UnlinesJoin(lines[1..]);
      assert (lines + [""])[1..] == lines[1..] + [""];
    }
  }

  /** One `- item` line per item, in order. */
  function ItemLines(items: seq<string>): (r: seq<string>)
    ensures |r| == |items|
  {
    seq(|items|, i requires 0 <= i < |items| => "- " + items[i])
  }

  function FieldLine(caption: string, data: Record, f: Field): string {
    caption + " " + ScalarText(data, f)
  }

  function HeaderLines(formId: string): seq<string> {
    ["HEALTHCARE FORM DATA - ID: " + formId, ""]
  }

  function PatientLines(data: Record): seq<string> {
    ["PATIENT INFORMATION",
     FieldLine("Patient Name:", data, PatientName),
     FieldLine("Date of Birth:", data, DateOfBirth),
     FieldLine("Gender:", data, Gender),
     FieldLine("Address:", data, Address),
     FieldLine("Phone Number:", data, PhoneNumber),
     FieldLine("Email:", data, Email), ""]
  }

  function InsuranceLines(data: Record): seq<string> {
    ["INSURANCE INFORMATION",
     FieldLine("Insurance Provider:", data, InsuranceProvider),
     FieldLine("Insurance ID:", data, InsuranceId), ""]
  }

  /** A list heading followed by its item lines. */
  function ListLines(caption: string, items: seq<string>): seq<string> {
    [caption] + ItemLines(items)
  }

  function MedicalLines(history: seq<string>, medications: seq<string>, allergies: seq<string>): seq<string> {
    ["MEDICAL INFORMATION"] + ListLines("Medical History:", history)
    + [""] + ListLines("Current Medications:", medications)
    + [""] + ListLines("Allergies:", allergies)
  }

  function AppointmentLines(data: Record): seq<string> {
    ["", "APPOINTMENT INFORMATION",
     FieldLine("Primary Complaint:", data, PrimaryComplaint),
     FieldLine("Appointment Date:", data, AppointmentDate),
     FieldLine("Doctor:", data, DoctorName)]
  }

  /** The items of the three list sections, in writing order. */
  datatype ListItems = ListItems(history: seq<string>, medications: seq<string>, allergies: seq<string>)

  /** What the three list loops iterate over; None when one of them raises. */
  function ListsToWrite(data: Record): Option<ListItems> {
    var history := Items(ListValue(data, MedicalHistory));
    var medications := Items(ListValue(data, CurrentMedications));
    var allergies := Items(ListValue(data, Allergies));
    if history.Some? && medications.Some? && allergies.Some?
    then Some(ListItems(history.value, medications.value, allergies.value))
    else None
  }

  function LinesWith(data: Record, formId: string, l: ListItems): seq<string> {
    HeaderLines(formId) + PatientLines(data) + InsuranceLines(data)
    + MedicalLines(l.history, l.medications, l.allergies) + AppointmentLines(data)
  }

  /**
   * The lines of `{form_id}_screenshot.txt` (lines 190-224): the ID header, then
   * the PATIENT, INSURANCE, MEDICAL and APPOINTMENT sections in that order. A list
   * field that cannot be iterated makes the write fail (None).
   */
  function FallbackLines(data: Record, formId: string): Option<seq<string>> {
    match ListsToWrite(data)
    case Some(l) => Some(LinesWith(data, formId, l))
    case None => None
  }

  /** The file content grows by concatenation: writing `a` then `b` writes `a + b`. */
  lemma {:induction false} UnlinesAppend(a: seq<string>, b: seq<string>)
    ensures Unlines(a + b) == Unlines(a) + Unlines(b)
  {
    if a != [] {
      assert (a + b)[1..] == a[1..] + b;
      UnlinesAppend(a[1..], b);
    } else {
      assert a + b == b;
    }
  }

  /** The loop `for item in ...: f.write(f"- {item}\n")`. */
  method WriteItems(content: string, items: seq<string>) returns (out: string)
    ensures out == content + Unlines(ItemLines(items))
  {
    out := content;
    var i := 0;
    while i < |items|
      invariant 0 <= i <= |items|
      invariant out == content + Unlines(ItemLines(items[..i]))
    {
      assert ItemLines(items[..i + 1]) == ItemLines(items[..i]) + ["- " + items[i]];
      UnlinesSnoc(ItemLines(items[..i]), "- " + items[i]);
      out := out + "- " + items[i] + "\n";
      i := i + 1;
    }
    assert items[..i] == items;
  }

  /**
   * Consecutive `f.write` calls of fixed text: each line is written with its
   * newline, in order.
   */
  method WriteLines(content: string, text: seq<string>) returns (out: string)
    ensures out == content + Unlines(text)
  {
    out := content;
    var i := 0;
    while i < |text|
      invariant 0 <= i <= |text|
      invariant out == content + Unlines(text[..i])
    {
      assert text[..i + 1] == text[..i] + [text[i]];
      UnlinesSnoc(text[..i], text[i]);
      out := out + text[i] + "\n";
      i := i + 1;
    }
    assert text[..i] == text;
  }

  /** A list heading, then its items. */
  method WriteList(content: string, caption: string, items: seq<string>) returns (out: string)
    ensures out == content + ListText(caption, items)
  {
    out := WriteLines(content, [caption]);
    out := WriteItems(out, items);
  }

  /** What `WriteList` appends. */
  function ListText(caption: string, items: seq<string>): string {
    Unlines([caption]) + Unlines(ItemLines(items))
  }

  /** The text of the medical section, in the order it is written. */
  function MedicalText(history: seq<string>, medications: seq<string>, allergies: seq<string>): string {
    Unlines(["MEDICAL INFORMATION"])
    + ListText("Medical History:", history) + Unlines([""])
    + ListText("Current Medications:", medications) + Unlines([""])
    + ListText("Allergies:", allergies)
  }

  /** The medical section; iterating a list field that holds `None` raises (None). */
  method WriteMedical(content: string, history: Option<seq<string>>,
                      medications: Option<seq<string>>, allergies: Option<seq<string>>)
    returns (out: Option<string>)
    ensures out.Some? <==> history.Some? && medications.Some? && allergies.Some?
    ensures out.Some? ==> out.value == content + MedicalText(history.value, medications.value, allergies.value)
  {
    var c := WriteLines(content, ["MEDICAL INFORMATION"]);
    if history.None? {
      return None;
    }
    c := WriteList(c, "Medical History:", history.value);
    c := WriteLines(c, [""]);
    if medications.None? {
      return None;
    }
    c := WriteList(c, "Current Medications:", medications.value);
    c := WriteLines(c, [""]);
    if allergies.None? {
      return None;
    }
    c := WriteList(c, "Allergies:", allergies.value);
    out := Some(c);
    AppendAssoc6(content, Unlines(["MEDICAL INFORMATION"]), ListText("Medical History:", history.value), Unlines([""]),
      ListText("Current Medications:", medications.value), Unlines([""]), ListText("Allergies:", allergies.value));
  }

  lemma AppendAssoc6(s: string, a: string, b: string, c: string, d: string, e: string, f: string)
    ensures s + a + b + c + d + e + f == s + (a + b + c + d + e + f)
  {
  }

  function TextWith(data: Record, formId: string, l: ListItems): string {
    Unlines(HeaderLines(formId)) + Unlines(PatientLines(data)) + Unlines(InsuranceLines(data))
    + MedicalText(l.history, l.medications, l.allergies) + Unlines(AppointmentLines(data))
  }

  /**
   * The text of `{form_id}_screenshot.txt` in the order of the `f.write` calls,
   * or None when iterating a list field raises.
   */
  function FallbackText(data: Record, formId: string): Option<string> {
    match ListsToWrite(data)
    case Some(l) => Some(TextWith(data, formId, l))
    case None => None
  }

  /**
   * The `with open(...)` block of `_create_text_fallback`: the header and the four
   * sections written in order.
   */
  method WriteFallback(data: Record, formId: string) returns (r: Option<string>)
    ensures r == FallbackText(data, formId)
  {
    var c := WriteLines("", HeaderLines(formId));
    assert c == Unlines(HeaderLines(formId));
    c := WriteLines(c, PatientLines(data));
    c := WriteLines(c, InsuranceLines(data));
    var history := Items(ListValue(data, MedicalHistory));
    var medications := Items(ListValue(data, CurrentMedications));
    var allergies := Items(ListValue(data, Allergies));
    var medical := WriteMedical(c, history, medications, allergies);
    if medical.None? {
      return None;
    }
    c := WriteLines(medical.value, AppointmentLines(data));
    r := Some(c);
  }

  /** The written text is the fallback's lines, each followed by a newline. */
  lemma FallbackTextLines(data: Record, formId: string)
    ensures FallbackText(data, formId).None? <==> FallbackLines(data, formId).None?
    ensures FallbackText(data, formId).Some? ==>
      FallbackText(data, formId).value == Unlines(FallbackLines(data, formId).value)
  {
    if ListsToWrite(data).Some? {
      TextWithLines(data, formId, ListsToWrite(data).value);
    }
  }

  lemma TextWithLines(data: Record, formId: string, l: ListItems)
    ensures TextWith(data, formId, l) == Unlines(LinesWith(data, formId, l))
  {
    MedicalUnlines(l.history, l.medications, l.allergies);
    FallbackUnlines(HeaderLines(formId), PatientLines(data), InsuranceLines(data),
      MedicalLines(l.history, l.medications, l.allergies), AppointmentLines(data));
  }

  lemma MedicalUnlines(history: seq<string>, medications: seq<string>, allergies: seq<string>)
    ensures Unlines(MedicalLines(history, medications, allergies)) == MedicalText(history, medications, allergies)
  {
    var a, b, c := ListLines("Medical History:", history), ListLines("Current Medications:", medications),
                   ListLines("Allergies:", allergies);
    UnlinesAppend(["MEDICAL INFORMATION"] + a + [""] + b + [""], c);
    UnlinesAppend(["MEDICAL INFORMATION"] + a + [""] + b, [""]);
    UnlinesAppend(["MEDICAL INFORMATION"] + a + [""], b);
    UnlinesAppend(["MEDICAL INFORMATION"] + a, [""]);
    UnlinesAppend(["MEDICAL INFORMATION"], a);
    UnlinesAppend(["Medical History:"], ItemLines(history));
    UnlinesAppend(["Current Medications:"], ItemLines(medications));
    UnlinesAppend(["Allergies:"], ItemLines(allergies));
  }

  lemma FallbackUnlines(h: seq<string>, p: seq<string>, i: seq<string>, m: seq<string>, a: seq<string>)
    ensures Unlines(h + p + i + m + a) == Unlines(h) + Unlines(p) + Unlines(i) + Unlines(m) + Unlines(a)
  {
    UnlinesAppend(h + p + i + m, a);
    UnlinesAppend(h + p + i, m);
    UnlinesAppend(h + p, i);
    UnlinesAppend(h, p);
  }

  /** Number of items iterated in the three list fields. */
  function ItemCount(data: Record): nat {
    |Items(ListValue(data, MedicalHistory)).GetOr([])|
    + |Items(ListValue(data, CurrentMedications)).GetOr([])|
    + |Items(ListValue(data, Allergies)).GetOr([])|
  }

  /**
   * The fallback file has 25 fixed lines plus exactly one line per list item, and
   * the i-th medical-history line is `- ` followed by the i-th item.
   */
  lemma FallbackLineCount(data: Record, formId: string)
    requires FallbackLines(data, formId).Some?
    ensures |FallbackLines(data, formId).value| == 25 + ItemCount(data)
    ensures forall i :: 0 <= i < |Items(ListValue(data, MedicalHistory)).value| ==>
      FallbackLines(data, formId).value[16 + i] == "- " + Items(ListValue(data, MedicalHistory)).value[i]
  {
  }

  /**
   * The four section headings come in the fixed order PATIENT, INSURANCE, MEDICAL,
   * APPOINTMENT, after the ID header.
   */
  lemma FallbackSectionOrder(data: Record, formId: string)
    requires FallbackLines(data, formId).Some?
    ensures var lines := FallbackLines(data, formId).value;
      && lines[0] == "HEALTHCARE FORM DATA - ID: " + formId
      && lines[2] == "PATIENT INFORMATION"
      && lines[10] == "INSURANCE INFORMATION"
      && lines[14] == "MEDICAL INFORMATION"
      && lines[|lines| - 4] == "APPOINTMENT INFORMATION"
  {
  }

  /**
   * Reading the file back: when no shown value and no item holds a newline,
   * splitting the content at newlines gives exactly the lines, then the empty
   * remainder after the final newline.
   */
  lemma FallbackReadsBack(content: string, lines: seq<string>)
    requires content == Unlines(lines)
    requires forall i :: 0 <= i < |lines| ==> '\n' !in lines[i]
    ensures Split(content, '\n') == lines + [""]
  {
    UnlinesJoin(lines);
    assert forall i :: 0 <= i < |lines + [""]| ==> '\n' !in (lines + [""])[i] by {
      forall i | 0 <= i < |lines + [""]| ensures '\n' !in (lines + [""])[i] {
        if i < |lines| {
          assert (lines + [""])[i] == lines[i];
        }
      }
    }
    SplitJoin(lines + [""], '\n');
  }

  /** A missing field is written as "N/A" and a missing list field writes no item line. */
  lemma MissingFieldsInFallback(data: Record, f: Field)
    requires Key(f) !in data
    ensures ScalarText(data, f) == "N/A"
    ensures IsList(f) ==> Items(ListValue(data, f)) == Some([])
  {
  }

  /** A list field holding `None` makes the fallback fail, while the image still draws it as empty. */
  lemma NoneListBreaksFallback(data: Record, formId: string, f: Field, y: int, lineHeight: int)
    requires IsList(f) && Key(f) in data && data[Key(f)] == Null
    ensures FallbackLines(data, formId).None?
    ensures DrawListField(ListValue(data, f), y, lineHeight) == y + 25
  {
  }

  // ---- create_form_visualization ----

  /** What ends up on disk. */
  datatype Artifact = Image(tops: seq<int>) | TextFile(content: string) | NoFile

  /** `screenshot_dir / name`. */
  function InDir(dir: string, name: string): string {
    dir + "/" + name
  }

  /**
   * `create_form_visualization`: without PIL, or when drawing raises, the text
   * fallback is written instead of the image; a failed fallback write gives None.
   */
  method CreateFormVisualization(
    data: Record, formId: string, dir: string,
    pilAvailable: bool, drawingSucceeds: bool, lineHeight: int, writeSucceeds: bool)
    returns (r: Option<string>, artifact: Artifact)
    ensures pilAvailable && drawingSucceeds ==>
      r == Some(InDir(dir, formId + "_screenshot.png"))
      && artifact == Image(Layout(FormRows, data, 100, lineHeight))
    ensures !(pilAvailable && drawingSucceeds) && writeSucceeds && FallbackLines(data, formId).Some? ==>
      r == Some(InDir(dir, formId + "_screenshot.txt"))
      && artifact == TextFile(Unlines(FallbackLines(data, formId).value))
    ensures !(pilAvailable && drawingSucceeds) && !(writeSucceeds && FallbackLines(data, formId).Some?) ==>
      r == None && artifact == NoFile
  {
    if pilAvailable {
      var tops, y := DrawRows(FormRows, data, 100, lineHeight);
      if drawingSucceeds {
        return Some(InDir(dir, formId + "_screenshot.png")), Image(tops);
      }
    }
    if !writeSucceeds {
      return None, NoFile;
    }
    var content := WriteFallback(data, formId);
    FallbackTextLines(data, formId);
    if content.None? {
      return None, NoFile;
    }
    r, artifact := Some(InDir(dir, formId + "_screenshot.txt")), TextFile(content.value);
  }
}
