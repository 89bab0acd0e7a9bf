/**
 * backend/validator.py: the in-place normalisation of an extracted record
 * (`validate`, lines 178-194), the `FormData` model with its defaults and its two
 * custom validators, and the fallback object built when construction fails.
 */
module Validator {
  import opened Wrappers
  import opened Text
  import opened Records

  // ---- validate_gender ----

  const ValidGenders: seq<string> := ["Male", "Female", "Other", "Prefer not to say"]

  /**
   * `FormData.validate_gender` as written: empty or "Unknown" gives "Unknown"; a
   * value whose `title()` is in the list is replaced by it; anything else is kept.
   */
  function ValidateGender(v: string): (r: string)
    ensures r != ""
    ensures r == "Unknown" || r in ValidGenders || r == v
    ensures r == "Unknown" || Lower(r) == Lower(v)
  {
    if v == "" || v == "Unknown" then "Unknown"
    else if Title(v) in ValidGenders then (LowerTitle(v); Title(v))
    else v
  }

  /** Validating an already validated gender changes nothing. */
  lemma ValidateGenderIdempotent(v: string)
    ensures ValidateGender(ValidateGender(v)) == ValidateGender(v)
  {
    if v != "" && v != "Unknown" && Title(v) in ValidGenders {
      TitleIdempotent(v);
    }
  }

  /** A capital followed by lower-case letters is its own title form. */
  lemma TitleOfCapitalised(g: string)
    requires Capitalised(g)
    ensures Title(g) == g
  {
    forall i | 0 <= i < |g| ensures Title(g)[i] == g[i] {
      TitleAt(g, i);
    }
  }

  /** A capital followed by lower-case letters, as "Male", "Female" and "Other" are. */
  predicate Capitalised(g: string) {
    |g| > 0 && IsUpper(g[0]) && forall i :: 0 < i < |g| ==> IsLower(g[i])
  }

  lemma ListedWordsCapitalised()
    ensures Capitalised("Male") && Capitalised("Female") && Capitalised("Other")
  {
  }

  /**
   * Every casing of a capitalised listed gender ("male", "FEMALE", "oThEr", ...)
   * is normalised to the listed spelling.
   */
  lemma ValidateGenderNormalisesWords(v: string, g: string)
    requires g in ValidGenders && Capitalised(g) && Lower(v) == Lower(g)
    ensures ValidateGender(v) == g
  {
    TitleIgnoresCase(v, g);
    TitleOfCapitalised(g);
    assert |v| == |Lower(v)| == |g|;
    ValidateGenderTitled(v);
  }

  /** A non-empty answer other than "Unknown" whose title form is listed becomes that form. */
  lemma ValidateGenderTitled(v: string)
    requires Title(v) in ValidGenders && |v| != |"Unknown"| && v != ""
    ensures ValidateGender(v) == Title(v)
  {
  }

  /**
   * No string title-cases to "Prefer not to say": `title()` upper-cases the "n"
   * that follows the space, so that entry of the list is never matched.
   */
  lemma PreferNotToSayNeverMatches(v: string)
    ensures Title(v) != "Prefer not to say"
  {
    if |v| == 17 {
      TitleAt(v, 6);
      TitleAt(v, 7);
      if Title(v)[6] == ' ' {
        assert !IsLetter(v[6]);
        assert !IsLower(Title(v)[7]);
      }
    }
  }

  /** An answer as long as "Prefer not to say" is never normalised. */
  lemma LongAnswersKeptAsWritten(v: string)
    requires |v| == |"Prefer not to say"|
    ensures ValidateGender(v) == v
  {
    PreferNotToSayNeverMatches(v);
    assert |Title(v)| == 17;
    assert Title(v) !in ValidGenders;
  }

  /**
   * So no casing of "prefer not to say" is normalised: the lower-case answer
   * "prefer not to say" comes back as it is, not as the listed "Prefer not to say".
   */
  lemma PreferNotToSayKeptAsWritten(v: string)
    requires Lower(v) == "prefer not to say"
    ensures ValidateGender(v) == v
  {
    assert |v| == |Lower(v)|;
    LongAnswersKeptAsWritten(v);
  }

  /** The first entry of `gs` equal to `v` up to letter case. */
  function CaselessFind(v: string, gs: seq<string>): (r: Option<string>)
    ensures r.Some? ==> r.value in gs && Lower(r.value) == Lower(v)
    ensures r.None? ==> forall g :: g in gs ==> Lower(g) != Lower(v)
  {
    if gs == [] then None
    else if Lower(gs[0]) == Lower(v) then Some(gs[0])
    else CaselessFind(v, gs[1..])
  }

  /**
   * The evidently intended gender check: a value equal to a listed gender up to
   * letter case is replaced by the listed spelling, "Prefer not to say" included.
   */
  function ValidateGenderCorrected(v: string): (r: string)
    ensures r != ""
    ensures r == "Unknown" || r in ValidGenders || r == v
    ensures r == "Unknown" || Lower(r) == Lower(v)
  {
    if v == "" || v == "Unknown" then "Unknown"
    else match CaselessFind(v, ValidGenders)
      case Some(g) => g
      case None => v
  }

  /** The listed genders have different lengths, so a length picks one out. */
  lemma ListedByLength(g: string, h: string)
    requires g in ValidGenders && h in ValidGenders && |g| == |h|
    ensures g == h
  {
  }

  /** Every casing of every listed gender is normalised to the listed spelling. */
  lemma ValidateGenderCorrectedNormalises(v: string, g: string)
    requires g in ValidGenders && Lower(v) == Lower(g)
    ensures ValidateGenderCorrected(v) == g
  {
    assert |v| == |Lower(v)| == |g|;
    assert v != "" && v != "Unknown";
    var found := CaselessFind(v, ValidGenders);
    assert found.Some?;
    assert |found.value| == |Lower(found.value)| == |g|;
    ListedByLength(found.value, g);
  }

  /** Validating an already validated gender changes nothing. */
  lemma ValidateGenderCorrectedIdempotent(v: string)
    ensures ValidateGenderCorrected(ValidateGenderCorrected(v)) == ValidateGenderCorrected(v)
  {
    var r := ValidateGenderCorrected(v);
    if r in ValidGenders {
      ValidateGenderCorrectedNormalises(r, r);
    }
  }

  /** On a value matching a listed gender up to case, the two checks differ only for "Prefer not to say". */
  lemma CorrectionOnListed(v: string, g: string)
    requires v != "" && v != "Unknown"
    requires g in ValidGenders && Lower(v) == Lower(g)
    ensures ValidateGenderCorrected(v) == g
    ensures ValidateGender(v) == (if g == "Prefer not to say" then v else g)
  {
    ValidateGenderCorrectedNormalises(v, g);
    if g == "Prefer not to say" {
      assert |v| == |Lower(v)| == |Lower(g)| == |g|;
      LongAnswersKeptAsWritten(v);
    } else {
      ListedWordsCapitalised();
      ValidateGenderNormalisesWords(v, g);
    }
  }

  /** A value matching no listed gender up to case is kept by both checks. */
  lemma CorrectionOnUnlisted(v: string)
    requires v != "" && v != "Unknown"
    requires CaselessFind(v, ValidGenders).None?
    ensures ValidateGenderCorrected(v) == v && ValidateGender(v) == v
  {
    if Title(v) in ValidGenders {
      LowerTitle(v);
      assert false;
    }
  }

  /**
   * The corrected check differs from the one as written exactly where it gives the
   * listed "Prefer not to say" for an answer spelled otherwise; there the check as
   * written keeps the answer.
   */
  lemma CorrectionOnlyAffectsPreferNotToSay(v: string)
    ensures ValidateGenderCorrected(v) != ValidateGender(v) <==>
      ValidateGenderCorrected(v) == "Prefer not to say" && v != "Prefer not to say"
    ensures ValidateGenderCorrected(v) != ValidateGender(v) ==> ValidateGender(v) == v
  {
    if v == "" || v == "Unknown" {
    } else {
      var found := CaselessFind(v, ValidGenders);
      if found.Some? {
        var g := found.value;
        assert |g| == |Lower(g)| == |v|;
        CorrectionOnListed(v, g);
      } else {
        CorrectionOnUnlisted(v);
      }
    }
  }

  // ---- validate_date_format ----

  predicate IsDigit(c: char) { '0' <= c <= '9' }

  /** The shape `%Y-%m-%d` accepts in the common case: four, two and two digits. */
  predicate LooksIsoDate(s: string) {
    |s| == 10 && s[4] == '-' && s[7] == '-'
    && forall k :: 0 <= k < 10 && k != 4 && k != 7 ==> IsDigit(s[k])
  }

  /**
   * `FormData.validate_date_format`: `None` and the empty string are returned as
   * they are, and so is every other string, whether or not it parses as a date.
   */
  function ValidateDateFormat(v: Option<string>): (r: Option<string>)
    ensures r == v
  {
    match v
    case None => None
    case Some(s) =>
      if s == "" then v
      else if LooksIsoDate(s) then v
      else v
  }

  // ---- FormData construction ----
  // A validated `FormData` is represented by its `.dict()`: a record holding exactly
  // the fourteen fields.

  /** The default of a field left out of `FormData(**data)`. */
  function FormDefault(f: Field): Value {
    if f == PatientName || f == Address || f == PrimaryComplaint then Str("Unable to extract")
    else if IsRequired(f) then Str("Unknown")
    else if IsList(f) then Lst([])
    else Null
  }

  /** Whether field `f` of `data` has a type `FormData` accepts; every field has a default. */
  predicate FormFits(data: Record, f: Field) {
    var k := Key(f);
    if IsRequired(f) then k !in data || data[k].Str?
    else if IsList(f) then k !in data || data[k].Lst?
    else k !in data || data[k].Null? || data[k].Str?
  }

  function FirstFormMisfit(data: Record, fields: seq<Field>): (r: Option<Field>)
    ensures r.None? <==> forall k :: 0 <= k < |fields| ==> FormFits(data, fields[k])
    ensures r.Some? ==> !FormFits(data, r.value)
  {
    if fields == [] then None
    else if !FormFits(data, fields[0]) then Some(fields[0])
    else
      var r := FirstFormMisfit(data, fields[1..]);
      assert forall k :: 1 <= k < |fields| ==> fields[k] == fields[1..][k - 1];
      r
  }

  /** The value `FormData(**data)` starts from for field `f`: the given one, or the default. */
  function Given(data: Record, f: Field): Value {
    if Key(f) in data then data[Key(f)] else FormDefault(f)
  }

  /**
   * The custom validators of `FormData` applied to field `f`: the gender check as
   * written and the date check on both dates. On a default they do not run; the
   * defaults are values they keep.
   */
  function Validated(f: Field, v: Value): Value {
    match f
    case Gender => if v.Str? then Str(ValidateGender(v.s)) else v
    case DateOfBirth => if v.Str? then Str(ValidateDateFormat(Some(v.s)).value) else v
    case AppointmentDate =>
      if v.Str? then Str(ValidateDateFormat(Some(v.s)).value)
      else if v.Null? then (if ValidateDateFormat(None).None? then Null else v)
      else v
    case _ => v
  }

  /** Only the gender check changes a value: the date check returns what it is given. */
  lemma OnlyGenderValidatorChanges(f: Field, v: Value)
    requires f != Gender
    ensures Validated(f, v) == v
  {
    match f
    case DateOfBirth =>
      if v.Str? {
        assert ValidateDateFormat(Some(v.s)) == Some(v.s);
      }
    case AppointmentDate =>
      if v.Str? {
        assert ValidateDateFormat(Some(v.s)) == Some(v.s);
      } else if v.Null? {
        assert ValidateDateFormat(None) == None;
      }
    case _ =>
  }

  /**
   * `FormData(**data).dict()`: fails naming the first field whose value has the
   * wrong type; otherwise holds exactly the fourteen fields, each the given value or
   * the default, passed through the field's validator; other keys are dropped.
   */
  function FromRecord(data: Record): (r: Result<Record, Field>)
    ensures r.Ok? <==> forall f: Field :: FormFits(data, f)
    ensures r.Err? ==> !FormFits(data, r.error)
    ensures r.Ok? ==> r.value.Keys == SchemaKeys()
    ensures r.Ok? ==> forall f: Field :: r.value[Key(f)] == Validated(f, Given(data, f))
  {
    match FirstFormMisfit(data, SchemaFields)
    case Some(f) => Err(f)
    case None =>
      assert forall f: Field :: FormFits(data, f) by {
        forall f: Field ensures FormFits(data, f) {
          assert SchemaFields[Index(f)] == f;
        }
      }
      Ok(map k | k in SchemaKeys() :: Validated(k.field, Given(data, k.field)))
  }

  /** Each field of a built form is the given value or default, passed through the field's validator. */
  lemma FromRecordValue(data: Record, f: Field)
    requires FromRecord(data).Ok?
    ensures FormFits(data, f)
    ensures FromRecord(data).value[Key(f)] == Validated(f, Given(data, f))
  {
  }

  /**
   * A built form holds, for every field but the gender, exactly the given value or,
   * for a field not given, its default.
   */
  lemma FromRecordKeeps(data: Record, f: Field)
    requires FromRecord(data).Ok? && f != Gender
    ensures FromRecord(data).value[Key(f)] == Given(data, f)
  {
    FromRecordValue(data, f);
    OnlyGenderValidatorChanges(f, Given(data, f));
  }

  /** The gender of a built form is the given one (or the default "Unknown") passed through the gender check. */
  lemma FromRecordGender(data: Record)
    requires FromRecord(data).Ok?
    ensures Given(data, Gender).Str?
    ensures FromRecord(data).value[Key(Gender)] == Str(ValidateGender(Given(data, Gender).s))
  {
    FromRecordValue(data, Gender);
    GivenKind(data, Gender);
  }

  /** A form given any casing of "prefer not to say" keeps it as written: the gender check never lists its title form. */
  lemma FromRecordPreferNotToSay(data: Record)
    requires FromRecord(data).Ok?
    requires Key(Gender) in data && data[Key(Gender)].Str?
    requires Lower(data[Key(Gender)].s) == "prefer not to say"
    ensures FromRecord(data).value[Key(Gender)] == data[Key(Gender)]
  {
    FromRecordGender(data);
    PreferNotToSayKeptAsWritten(data[Key(Gender)].s);
  }

  /** The validators map strings to strings and leave `None` and lists alone. */
  lemma ValidatedKeepsKind(f: Field, v: Value)
    ensures v.Str? ==> Validated(f, v).Str?
    ensures !v.Str? ==> Validated(f, v) == v
  {
  }

  /** A value `FormData` accepts, or the default, has the type of its field. */
  lemma GivenKind(data: Record, f: Field)
    requires FormFits(data, f)
    ensures IsRequired(f) ==> Given(data, f).Str?
    ensures IsList(f) ==> Given(data, f).Lst?
    ensures IsOptional(f) ==> Given(data, f).Null? || Given(data, f).Str?
  {
  }

  /** Every required field of a built form is a string, every list field a list, every optional field `None` or a string. */
  lemma FromRecordTypes(data: Record, f: Field)
    requires FromRecord(data).Ok?
    ensures IsRequired(f) ==> FromRecord(data).value[Key(f)].Str?
    ensures IsList(f) ==> FromRecord(data).value[Key(f)].Lst?
    ensures IsOptional(f) ==> FromRecord(data).value[Key(f)].Null? || FromRecord(data).value[Key(f)].Str?
  {
    FromRecordValue(data, f);
    GivenKind(data, f);
    ValidatedKeepsKind(f, Given(data, f));
  }

  /** A record that gives none of the fields is accepted: every field takes its default. */
  lemma NoFieldsAccepted(data: Record)
    requires forall f: Field :: Key(f) !in data
    ensures FromRecord(data).Ok?
  {
    forall f: Field ensures FormFits(data, f) {
      assert Key(f) !in data;
    }
  }

  /**
   * Fields left out take the `FormData` defaults: "Unable to extract" for the name,
   * the address and the complaint, "Unknown" for the other required strings, `[]`
   * for the lists and `None` for the optional fields.
   */
  lemma AbsentFieldsTakeDefaults(data: Record, f: Field)
    requires FromRecord(data).Ok? && Key(f) !in data
    ensures FromRecord(data).value[Key(f)] == FormDefault(f)
  {
    if f == Gender {
      FromRecordGender(data);
    } else {
      FromRecordKeeps(data, f);
    }
  }

  /** The form built when construction fails (lines 205-214), field by field. */
  function ValidationFallbackValue(f: Field, message: string): Value {
    match f
    case PatientName => Str("Error in validation")
    case Address => Str("Error in validation")
    case PrimaryComplaint => Str("Error in validation: " + message)
    case _ => FormDefault(f)
  }

  /** The form built when construction fails: the fields it names, the defaults elsewhere. */
  function ValidationFallback(message: string): Record {
    map k | k in SchemaKeys() :: ValidationFallbackValue(k.field, message)
  }

  /** The text of a construction failure naming the field (pydantic's wording is not modelled). */
  function ValidationMessage(field: Field): string {
    "1 validation error for FormData\n" + Name(field)
  }

  // ---- validate ----

  /** What the two loops of `validate` do to the value under key `k`. */
  function NormalizedValue(k: Key, v: Value): Value {
    if k.Key? && IsRequired(k.field) then (if v == Null then Str("Unknown") else v)
    else if k.Key? && IsList(k.field) then (if v == Null then Lst([]) else StringToList(v))
    else v
  }

  /** The record after the two loops of `validate`. */
  function Normalized(data: Record): Record {
    map k | k in data :: NormalizedValue(k, data[k])
  }

  /** One pass of the first loop of `validate` (lines 178-181): a `None` required field becomes "Unknown". */
  method NormalizeRequiredField(d: FormDict, field: Field)
    requires IsRequired(field)
    modifies d
    ensures Key(field) in old(d.entries) ==>
      d.entries == old(d.entries)[Key(field) := NormalizedValue(Key(field), old(d.entries)[Key(field)])]
    ensures Key(field) !in old(d.entries) ==> d.entries == old(d.entries)
  {
    if Key(field) in d.entries && d.entries[Key(field)] == Null {
      d.entries := d.entries[Key(field) := Str("Unknown")];
    }
  }

  /**
   * One pass of the second loop of `validate` (lines 184-194): a `None` list field
   * becomes `[]`, a string one the list of its comma-separated items.
   */
  method NormalizeListField(d: FormDict, field: Field)
    requires IsList(field)
    modifies d
    ensures Key(field) in old(d.entries) ==>
      d.entries == old(d.entries)[Key(field) := NormalizedValue(Key(field), old(d.entries)[Key(field)])]
    ensures Key(field) !in old(d.entries) ==> d.entries == old(d.entries)
  {
    var k := Key(field);
    if k in d.entries {
      if d.entries[k] == Null {
        d.entries := d.entries[k := Lst([])];
      } else if d.entries[k].Str? {
        if d.entries[k].s != "" {
          d.entries := d.entries[k := Lst(CommaItems(d.entries[k].s))];
        } else {
          d.entries := d.entries[k := Lst([])];
        }
      }
    }
  }

  /** The first loop of `validate`: every required field present is normalised, nothing else changes. */
  method NormalizeRequiredFields(d: FormDict)
    modifies d
    ensures d.entries.Keys == old(d.entries).Keys
    ensures forall k :: k in d.entries && k.Key? && IsRequired(k.field) ==>
      d.entries[k] == NormalizedValue(k, old(d.entries)[k])
    ensures forall k :: k in d.entries && !(k.Key? && IsRequired(k.field)) ==> d.entries[k] == old(d.entries)[k]
  {
    ghost var data := d.entries;
    FieldGroups();
    var i := 0;
    while i < |RequiredFields|
      invariant 0 <= i <= |RequiredFields|
      invariant d.entries.Keys == data.Keys
      invariant forall k :: k in d.entries && k.Key? && k.field in RequiredFields[..i] ==>
        d.entries[k] == NormalizedValue(k, data[k])
      invariant forall k :: k in d.entries && !(k.Key? && k.field in RequiredFields[..i]) ==> d.entries[k] == data[k]
    {
      NormalizeRequiredField(d, RequiredFields[i]);
      assert RequiredFields[..i + 1] == RequiredFields[..i] + [RequiredFields[i]];
      i := i + 1;
    }
    assert RequiredFields[..i] == RequiredFields;
  }

  /** The second loop of `validate`: every list field present is normalised, nothing else changes. */
  method NormalizeListFields(d: FormDict)
    modifies d
    ensures d.entries.Keys == old(d.entries).Keys
    ensures forall k :: k in d.entries && k.Key? && IsList(k.field) ==>
      d.entries[k] == NormalizedValue(k, old(d.entries)[k])
    ensures forall k :: k in d.entries && !(k.Key? && IsList(k.field)) ==> d.entries[k] == old(d.entries)[k]
  {
    ghost var data := d.entries;
    FieldGroups();
    var j := 0;
    while j < |ListFields|
      invariant 0 <= j <= |ListFields|
      invariant d.entries.Keys == data.Keys
      invariant forall k :: k in d.entries && k.Key? && k.field in ListFields[..j] ==>
        d.entries[k] == NormalizedValue(k, data[k])
      invariant forall k :: k in d.entries && !(k.Key? && k.field in ListFields[..j]) ==> d.entries[k] == data[k]
    {
      NormalizeListField(d, ListFields[j]);
      assert ListFields[..j + 1] == ListFields[..j] + [ListFields[j]];
      j := j + 1;
    }
    assert ListFields[..j] == ListFields;
  }

  /**
   * Lines 178-194 of `validate`, updating the caller's dictionary in place: a
   * required field present with `None` becomes "Unknown"; a list field present with
   * `None` or a string is turned into a list.
   */
  method NormalizeInPlace(d: FormDict)
    modifies d
    ensures d.entries == Normalized(old(d.entries))
  {
    NormalizeRequiredFields(d);
    NormalizeListFields(d);
  }

  /**
   * Normalisation adds and removes no key; a required field present with `None` is
   * "Unknown" afterwards and other required values are unchanged; a list field
   * present with `None` or `""` is `[]`, with a non-empty string it holds one stripped
   * item per comma plus one, and a list stays as it was; other keys are untouched.
   */
  lemma NormalizedSpec(data: Record)
    ensures Normalized(data).Keys == data.Keys
    ensures forall f: Field :: IsRequired(f) && Key(f) in data ==>
      Normalized(data)[Key(f)] == if data[Key(f)] == Null then Str("Unknown") else data[Key(f)]
    ensures forall f: Field :: IsList(f) && Key(f) in data && data[Key(f)] in {Null, Str("")} ==>
      Normalized(data)[Key(f)] == Lst([])
    ensures forall f: Field :: IsList(f) && Key(f) in data && data[Key(f)].Str? && data[Key(f)].s != "" ==>
      && Normalized(data)[Key(f)] == Lst(CommaItems(data[Key(f)].s))
      && |CommaItems(data[Key(f)].s)| == Count(data[Key(f)].s, ',') + 1
    ensures forall f: Field :: IsList(f) && Key(f) in data && data[Key(f)].Lst? ==>
      Normalized(data)[Key(f)] == data[Key(f)]
    ensures forall k :: k in data && !(k.Key? && (IsRequired(k.field) || IsList(k.field))) ==>
      Normalized(data)[k] == data[k]
  {
    forall f: Field | IsList(f) && Key(f) in data && data[Key(f)].Str? && data[Key(f)].s != ""
      ensures |CommaItems(data[Key(f)].s)| == Count(data[Key(f)].s, ',') + 1
    {
      CommaItemsSpec(data[Key(f)].s);
    }
  }

  /** Normalising twice is normalising once. */
  lemma NormalizedIdempotent(data: Record)
    ensures Normalized(Normalized(data)) == Normalized(data)
  {
    var n := Normalized(data);
    forall k | k in n ensures NormalizedValue(k, n[k]) == n[k] {
    }
  }

  /**
   * After normalisation, `None` and strings never make construction fail: a record
   * whose fields hold only `None`, strings, or (in list fields) lists is accepted.
   */
  lemma NormalizedAccepted(data: Record)
    requires forall f: Field :: Key(f) in data ==>
      data[Key(f)].Null? || data[Key(f)].Str? || (IsList(f) && data[Key(f)].Lst?)
    ensures FromRecord(Normalized(data)).Ok?
  {
    var n := Normalized(data);
    forall f: Field ensures FormFits(n, f) {
    }
  }

  /**
   * `validator.validate`: normalises the caller's dictionary in place, then builds
   * the form; a failed construction gives the fallback object whose complaint names
   * the error.
   */
  method Validate(d: FormDict) returns (form: Record)
    modifies d
    ensures d.entries == Normalized(old(d.entries))
    ensures FromRecord(d.entries).Ok? ==> form == FromRecord(d.entries).value
    ensures FromRecord(d.entries).Err? ==>
      form == ValidationFallback(ValidationMessage(FromRecord(d.entries).error))
  {
    NormalizeInPlace(d);
    match FromRecord(d.entries) {
      case Ok(validated) => form := validated;
      case Err(field) => form := ValidationFallback(ValidationMessage(field));
    }
  }
}
