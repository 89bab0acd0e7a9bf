/**
 * The form record as the pipeline passes it around: a JSON-like dictionary from
 * field names to values, the field groups of the healthcare form, the in-place
 * dictionary the validators mutate, and the pydantic schema shared by
 * `HealthcareFormFields` (llm_extractor.py) and `FormData` (app_compatible.py).
 */
module Records {
  import opened Wrappers
  import opened Text

  /**
   * A JSON value: null, a string, a list of strings, or anything else (a nested
   * object), which no field of the form schemas accepts.
   */
  datatype Value = Null | Str(s: string) | Lst(items: seq<string>) | Other

  /** The fourteen fields of the healthcare form, in declaration order. */
  datatype Field =
    | PatientName | DateOfBirth | Gender | Address | PhoneNumber | Email
    | InsuranceProvider | InsuranceId | MedicalHistory | CurrentMedications | Allergies
    | PrimaryComplaint | AppointmentDate | DoctorName

  /** The dictionary key of each field. */
  function Name(f: Field): string {
    match f
    case PatientName => "patient_name"
    case DateOfBirth => "date_of_birth"
    case Gender => "gender"
    case Address => "address"
    case PhoneNumber => "phone_number"
    case Email => "email"
    case InsuranceProvider => "insurance_provider"
    case InsuranceId => "insurance_id"
    case MedicalHistory => "medical_history"
    case CurrentMedications => "current_medications"
    case Allergies => "allergies"
    case PrimaryComplaint => "primary_complaint"
    case AppointmentDate => "appointment_date"
    case DoctorName => "doctor_name"
  }

  /**
   * A dictionary key: the key of a form field, or any other key (whose text is
   * none of the fields' keys).
   */
  datatype Key = Key(field: Field) | Extra(name: string)

  type Record = map<Key, Value>

  /** The eight fields every schema requires as strings. */
  const RequiredFields: seq<Field> :=
    [PatientName, DateOfBirth, Gender, Address, PhoneNumber, InsuranceProvider, InsuranceId, PrimaryComplaint]

  /** The three list-valued fields. */
  const ListFields: seq<Field> := [MedicalHistory, CurrentMedications, Allergies]

  /** The three optional string fields. */
  const OptionalFields: seq<Field> := [Email, AppointmentDate, DoctorName]

  /** All fourteen schema fields, in declaration order. */
  const SchemaFields: seq<Field> :=
    [PatientName, DateOfBirth, Gender, Address, PhoneNumber, Email, InsuranceProvider, InsuranceId,
     MedicalHistory, CurrentMedications, Allergies, PrimaryComplaint, AppointmentDate, DoctorName]

  predicate IsList(f: Field) { f == MedicalHistory || f == CurrentMedications || f == Allergies }
  predicate IsOptional(f: Field) { f == Email || f == AppointmentDate || f == DoctorName }
  predicate IsRequired(f: Field) { !IsList(f) && !IsOptional(f) }

  /** The position of each field in the declaration order. */
  function Index(f: Field): (i: nat)
    ensures i < |SchemaFields| && SchemaFields[i] == f
  {
    match f
    case PatientName => 0
    case DateOfBirth => 1
    case Gender => 2
    case Address => 3
    case PhoneNumber => 4
    case Email => 5
    case InsuranceProvider => 6
    case InsuranceId => 7
    case MedicalHistory => 8
    case CurrentMedications => 9
    case Allergies => 10
    case PrimaryComplaint => 11
    case AppointmentDate => 12
    case DoctorName => 13
  }

  /** The three lists are the three groups, and every field is in the schema list. */
  lemma FieldGroups()
    ensures forall f: Field :: f in SchemaFields
    ensures forall f: Field :: IsRequired(f) <==> f in RequiredFields
    ensures forall f: Field :: IsList(f) <==> f in ListFields
    ensures forall f: Field :: IsOptional(f) <==> f in OptionalFields
    ensures |RequiredFields| == 8 && |ListFields| == 3 && |OptionalFields| == 3 && |SchemaFields| == 14
  {
    forall f: Field ensures f in SchemaFields {
      assert SchemaFields[Index(f)] == f;
    }
  }

  /** Different fields have different keys. */
  lemma NameInjective(f: Field, g: Field)
    requires Name(f) == Name(g)
    ensures f == g
  {
  }

  /** A dictionary that is updated in place and shared with the caller. */
  class FormDict {
    var entries: Record

    constructor (entries: Record)
      ensures this.entries == entries
    {
      this.entries := entries;
    }
  }

  /** `[item.strip() for item in s.split(',')]`. */
  function CommaItems(s: string): seq<string> {
    var pieces := Split(s, ',');
    seq(|pieces|, k requires 0 <= k < |pieces| => Strip(pieces[k]))
  }

  /**
   * There is one item per comma plus one; each item is the matching comma-separated
   * piece stripped, so no item holds a comma or starts or ends with whitespace.
   */
  lemma CommaItemsSpec(s: string)
    ensures |CommaItems(s)| == Count(s, ',') + 1
    ensures forall k :: 0 <= k < |CommaItems(s)| ==>
      var item := CommaItems(s)[k];
      && ',' !in item
      && (item == [] || (!IsSpace(item[0]) && !IsSpace(item[|item| - 1])))
  {
    var pieces := Split(s, ',');
    SplitPieces(s, ',');
    forall k | 0 <= k < |pieces|
      ensures ',' !in CommaItems(s)[k]
      ensures CommaItems(s)[k] == [] || (!IsSpace(CommaItems(s)[k][0]) && !IsSpace(CommaItems(s)[k][|CommaItems(s)[k]| - 1]))
    {
      StrippedPiece(pieces[k]);
    }
  }

  /** Stripping a piece without commas leaves no comma and no whitespace at either end. */
  lemma StrippedPiece(piece: string)
    requires ',' !in piece
    ensures ',' !in Strip(piece)
    ensures Strip(piece) == [] || (!IsSpace(Strip(piece)[0]) && !IsSpace(Strip(piece)[|Strip(piece)| - 1]))
  {
    StripEnds(piece);
    var l := StripLeft(piece);
    CharNotInSlice(piece, ',', |piece| - |l|, |piece|);
    assert l == piece[|piece| - |l|..|piece|];
    CharNotInSlice(l, ',', 0, |Strip(piece)|);
  }

  lemma CharNotInSlice(s: string, c: char, i: nat, j: nat)
    requires c !in s && i <= j <= |s|
    ensures c !in s[i..j]
  {
  }

  /**
   * When every comma-separated piece is already stripped, the items are exactly
   * those pieces and joining them with commas gives the original string back.
   */
  lemma CommaItemsJoin(s: string)
    requires forall k :: 0 <= k < |Split(s, ',')| ==> Strip(Split(s, ',')[k]) == Split(s, ',')[k]
    ensures CommaItems(s) == Split(s, ',')
    ensures Join(CommaItems(s), ",") == s
  {
    JoinSplit(s, ',');
  }

  /**
   * The string-to-list step shared by both validators: a non-empty string becomes
   * its stripped comma-separated items, an empty string the empty list; any other
   * value is left alone.
   */
  function StringToList(v: Value): (r: Value)
    ensures v.Str? ==> r.Lst?
    ensures v.Str? && v.s != "" ==> |r.items| == Count(v.s, ',') + 1
    ensures v.Str? && v.s == "" ==> r == Lst([])
    ensures !v.Str? ==> r == v
  {
    match v
    case Str(s) =>
      if s == "" then Lst([])
      else
        CommaItemsSpec(s);
        Lst(CommaItems(s))
    case _ => v
  }

  // ---- The pydantic schema `HealthcareFormFields` / app_compatible `FormData` ----

  /** Whether field `f` of `data` passes the schema's type check. */
  predicate Fits(data: Record, f: Field) {
    var k := Key(f);
    if IsRequired(f) then k in data && data[k].Str?
    else if IsList(f) then k !in data || data[k].Null? || data[k].Lst?
    else k !in data || data[k].Null? || data[k].Str?
  }

  /** The first field, in declaration order, that fails the type check. */
  function FirstMisfit(data: Record, fields: seq<Field>): (r: Option<Field>)
    ensures r.None? <==> forall k :: 0 <= k < |fields| ==> Fits(data, fields[k])
    ensures r.Some? ==> r.value in fields && !Fits(data, r.value)
  {
    if fields == [] then None
    else if !Fits(data, fields[0]) then Some(fields[0])
    else
      var r := FirstMisfit(data, fields[1..]);
      assert forall k :: 1 <= k < |fields| ==> fields[k] == fields[1..][k - 1];
      r
  }

  /** The default of a schema field that is absent: `[]` for lists, `None` otherwise. */
  function SchemaDefault(f: Field): Value {
    if IsList(f) then Lst([]) else Null
  }

  /** The keys of a record holding exactly the schema's fields. */
  function SchemaKeys(): (ks: set<Key>)
    ensures forall k :: k in ks <==> k.Key?
  {
    FieldGroups();
    set f: Field | f in SchemaFields :: Key(f)
  }

  /**
   * `Schema(**data).dict()`: fails naming the first field that does not fit;
   * otherwise keeps exactly the schema fields, filling absent ones with their
   * defaults and dropping every other key.
   */
  function Conform(data: Record): (r: Result<Record, Field>)
    ensures r.Ok? <==> forall f: Field :: Fits(data, f)
    ensures r.Err? ==> !Fits(data, r.error)
    ensures r.Ok? ==> r.value.Keys == SchemaKeys()
    ensures r.Ok? ==> forall f: Field :: Key(f) in data ==> r.value[Key(f)] == data[Key(f)]
    ensures r.Ok? ==> forall f: Field :: Key(f) !in data ==> r.value[Key(f)] == SchemaDefault(f)
  {
    FieldGroups();
    match FirstMisfit(data, SchemaFields)
    case Some(f) => Err(f)
    case None =>
      assert forall f: Field :: Fits(data, f) by {
        forall f: Field ensures Fits(data, f) {
          assert SchemaFields[Index(f)] == f;
        }
      }
      Ok(map k | k in SchemaKeys() :: if k in data then data[k] else SchemaDefault(k.field))
  }

  /**
   * A schema-conforming record holds a string in every required field, null or a
   * list in every list field, and null or a string in every optional field.
   */
  lemma ConformedShape(data: Record)
    requires Conform(data).Ok?
    ensures forall f: Field :: IsRequired(f) ==> Conform(data).value[Key(f)].Str?
    ensures forall f: Field :: IsList(f) ==>
      Conform(data).value[Key(f)].Null? || Conform(data).value[Key(f)].Lst?
    ensures forall f: Field :: IsOptional(f) ==>
      Conform(data).value[Key(f)].Null? || Conform(data).value[Key(f)].Str?
  {
    forall f: Field {
      ConformedField(data, f);
    }
  }

  lemma ConformedField(data: Record, f: Field)
    requires Conform(data).Ok?
    ensures IsRequired(f) ==> Conform(data).value[Key(f)].Str?
    ensures IsList(f) ==> Conform(data).value[Key(f)].Null? || Conform(data).value[Key(f)].Lst?
    ensures IsOptional(f) ==> Conform(data).value[Key(f)].Null? || Conform(data).value[Key(f)].Str?
  {
    ConformValue(data, f);
    FitsKind(data, f, Conform(data).value[Key(f)]);
  }

  /** The kind of value a field holds once it has passed the type check and taken its default. */
  lemma FitsKind(data: Record, f: Field, v: Value)
    requires Fits(data, f)
    requires Key(f) in data ==> v == data[Key(f)]
    requires Key(f) !in data ==> v == SchemaDefault(f)
    ensures IsRequired(f) ==> v.Str?
    ensures IsList(f) ==> v.Null? || v.Lst?
    ensures IsOptional(f) ==> v.Null? || v.Str?
  {
  }

  /** Each field of a conformed record is the given value, or the default when absent, and fits. */
  lemma ConformValue(data: Record, f: Field)
    requires Conform(data).Ok?
    ensures Fits(data, f)
    ensures Key(f) in data ==> Conform(data).value[Key(f)] == data[Key(f)]
    ensures Key(f) !in data ==> Conform(data).value[Key(f)] == SchemaDefault(f)
  {
  }

  /** A record holding exactly the schema fields, each of a type the schema accepts, is its own conformed form. */
  lemma ConformComplete(data: Record)
    requires data.Keys == SchemaKeys()
    requires forall f: Field :: Fits(data, f)
    ensures Conform(data) == Ok(data)
  {
    var c := Conform(data).value;
    forall k | k in c ensures c[k] == data[k] {
      assert k == Key(k.field);
    }
    assert c == data;
  }
}
