/** The apartment-building wizard's starting values and its four step schemas: building details,
    location, facilities and photos. */
module ApartmentSchemas {
  import opened Options
  import opened Js
  import opened Validation

  /** The five on/off facilities, in the order the facilities screen lists them. */
  datatype Facility = Lift | Parking | Generator | Security | Solar

  const AllFacilities: seq<Facility> := [Lift, Parking, Generator, Security, Solar]

  /** The key of a facility inside `facilities`. */
  function FacilityKey(f: Facility): (k: string)
    ensures k != "others"
  {
    match f
    case Lift => "lift"
    case Parking => "parking"
    case Generator => "generator"
    case Security => "security"
    case Solar => "solar"
  }

  /** Distinct facilities are stored under distinct keys, none of them `others`. */
  lemma FacilityKeysDistinct(f: Facility, g: Facility)
    ensures FacilityKey(f) == FacilityKey(g) <==> f == g
  {
    if f != g {
      assert FacilityKey(f)[0] != FacilityKey(g)[0] || FacilityKey(f)[1] != FacilityKey(g)[1];
    }
  }

  /** The facilities of a blank form: every toggle off, no other facilities. */
  function BlankFacilities(): (f: Value)
    ensures f.Obj? && Get(f, "others") == Str("")
    ensures forall x: Facility :: Get(f, FacilityKey(x)) == Bool(false)
  {
    Obj(map["lift" := Bool(false), "parking" := Bool(false), "generator" := Bool(false),
            "security" := Bool(false), "solar" := Bool(false), "others" := Str("")])
  }

  /** The starting values of a new building. There is no `existingMedia` key. */
  function InitialValues(): (v: Record)
    ensures "existingMedia" !in v
    ensures Field(v, "media") == Arr([]) && Field(v, "facilities") == BlankFacilities()
  {
    map[
      "apartment_name" := Str(""), "total_floors" := Str(""), "total_units" := Str(""),
      "description" := Str(""), "province_id" := Str(""), "district_id" := Str(""),
      "area_id" := Str(""), "address" := Str(""), "latitude" := Null, "longitude" := Null,
      "facilities" := BlankFacilities(), "media" := Arr([])
    ]
  }

  // ---------------------------------------------------------------- step 1: building details

  const NumberMessage: string := "Must be a number"

  /** The issue of a `Yup.number().typeError(...).required(message).positive().integer()` field:
      text that is not a number gets the type message, a missing value the required message,
      and a number that is not positive the positive message. */
  function CountIssue(v: Record, k: string, message: string): (r: seq<Issue>)
    ensures r == [] <==> PositiveInteger(Field(v, k))
    ensures PathsOf(r) <= {k} && (k in PathsOf(r) <==> r != [])
    ensures OnPaths(r)
    ensures NumberCast(Field(v, k)).NaN? ==> r == [Issue(Some(k), NumberMessage)]
    ensures IsNullish(NumberCast(Field(v, k))) ==> r == [Issue(Some(k), message)]
  {
    var c := NumberCast(Field(v, k));
    if c.NaN? then FieldIssue(true, k, NumberMessage)
    else if IsNullish(c) then FieldIssue(true, k, message)
    else FieldIssue(c.n <= 0, k, k + " must be a positive number")
  }

  /** The building-details step passes exactly when the name and description are filled in and
      both counts are positive whole numbers. */
  function Step1Issues(v: Record): (r: seq<Issue>)
    ensures OnPaths(r)
    ensures r == [] <==>
      RequiredString(Field(v, "apartment_name")) && PositiveInteger(Field(v, "total_floors"))
      && PositiveInteger(Field(v, "total_units")) && RequiredString(Field(v, "description"))
    ensures PathsOf(r) <= {"apartment_name", "total_floors", "total_units", "description"}
  {
    Join5(
      RequiredStringIssue(v, "apartment_name", "Apartment name is required"),
      CountIssue(v, "total_floors", "Total floors is required"),
      CountIssue(v, "total_units", "Total units is required"),
      RequiredStringIssue(v, "description", "Description is required"),
      [])
  }

  /** A count typed as the text of a positive integer passes; typed as `0` it does not. */
  lemma CountTextAccepted(v: Record, k: string, n: int)
    requires Field(v, k) == Str(IntToString(n))
    ensures CountIssue(v, k, "") == [] <==> n > 0
  {
    IntTextCast(n);
  }

  /** Yup reads the text of an integer back as that integer. */
  lemma IntTextCast(n: int)
    ensures NumberCast(Str(IntToString(n))) == Num(n)
  {
    IntStringRoundTrip(n);
    assert IntToString(n) != "";
    NoSpacesInIntText(n);
  }

  /** The text of an integer has no white space to strip. */
  lemma NoSpacesInIntText(n: int)
    ensures RemoveSpaces(IntToString(n)) == IntToString(n)
  {
    IntTextNoSpace(n);
    NoSpaceFixed(IntToString(n));
  }

  /** Removing white space from text without any changes nothing. */
  lemma {:induction false} NoSpaceFixed(s: string)
    requires forall i :: 0 <= i < |s| ==> !IsSpace(s[i])
    ensures RemoveSpaces(s) == s
  {
    if s != [] {
      NoSpaceFixed(s[1..]);
      assert [s[0]] + s[1..] == s;
    }
  }

  // ---------------------------------------------------------------- step 2: location

  /** The location step passes exactly when province, district, area and address are filled in
      and the coordinates are numbers or absent. */
  function Step2Issues(v: Record): (r: seq<Issue>)
    ensures OnPaths(r)
    ensures r == [] <==>
      RequiredString(Field(v, "province_id")) && RequiredString(Field(v, "district_id"))
      && RequiredString(Field(v, "area_id")) && RequiredString(Field(v, "address"))
      && NullableNumber(Field(v, "latitude")) && NullableNumber(Field(v, "longitude"))
    ensures PathsOf(r) <= {"province_id", "district_id", "area_id", "address", "latitude", "longitude"}
  {
    Join5(
      Join5(
        RequiredStringIssue(v, "province_id", "Province is required"),
        RequiredStringIssue(v, "district_id", "District is required"),
        RequiredStringIssue(v, "area_id", "Area is required"),
        RequiredStringIssue(v, "address", "Address is required"),
        []),
      NullableNumberIssue(v, "latitude"),
      NullableNumberIssue(v, "longitude"),
      [], [])
  }

  // ---------------------------------------------------------------- step 3: facilities

  /** `Yup.boolean()` (not required, not nullable). */
  predicate OptionalBoolean(x: Value) {
    x.Undefined? || x.Bool?
  }

  /** `Yup.string()` (not required, not nullable). */
  predicate OptionalString(x: Value) {
    x.Undefined? || IsStringLike(x)
  }

  /** The `facilities` shape: absent, or an object whose five toggles are booleans or absent and
      whose `others` is text or absent. */
  predicate FacilitiesValid(f: Value) {
    f.Undefined?
    || (f.Obj? && (forall x: Facility :: OptionalBoolean(Get(f, FacilityKey(x))))
        && OptionalString(Get(f, "others")))
  }

  /** The facilities step. Formik files the errors of `facilities.lift` and its siblings under
      `facilities`, the key the navigator touches. Nothing in it is required. */
  function Step3Issues(v: Record): (r: seq<Issue>)
    ensures OnPaths(r)
    ensures r == [] <==> FacilitiesValid(Field(v, "facilities"))
    ensures PathsOf(r) <= {"facilities"}
  {
    FieldIssue(!FacilitiesValid(Field(v, "facilities")), "facilities", TypeErrorMessage("facilities"))
  }

  // ---------------------------------------------------------------- step 4: photos

  const ImageMessage: string := "At least one image is required"

  /** The photos step: `media` must be an array (or absent) with at least one new file. The
      stored files in `existingMedia` are not consulted. */
  function Step4Issues(v: Record): (r: seq<Issue>)
    ensures OnPaths(r)
    ensures r == [] <==> ArrayOrAbsent(Field(v, "media")) && Field(v, "media") != Arr([])
    ensures PathsOf(r) <= {"media"}
  {
    var m := Field(v, "media");
    if !ArrayOrAbsent(m) then ArrayIssue(v, "media")
    else FieldIssue(m == Arr([]), "media", ImageMessage)
  }

  /** The photos rule does not look at the stored files: adding or removing them never changes
      its verdict. */
  lemma PhotosRuleIgnoresStoredFiles(v: Record, stored: Value)
    ensures Step4Issues(v["existingMedia" := stored]) == Step4Issues(v)
  {
    assert "existingMedia" != "media";
    assert Field(v["existingMedia" := stored], "media") == Field(v, "media");
  }

  // ---------------------------------------------------------------- the schema list

  const SchemaCount: nat := 4

  /** `stepSchemas[i]`: the issues of schema `i`. */
  function StepIssues(i: nat, v: Record): (r: seq<Issue>)
    requires i < SchemaCount
    ensures OnPaths(r)
  {
    match i
    case 0 => Step1Issues(v)
    case 1 => Step2Issues(v)
    case 2 => Step3Issues(v)
    case 3 => Step4Issues(v)
  }

  /** A blank form cannot leave the details step. */
  lemma BlankFormBlocksDetails()
    ensures StepIssues(0, InitialValues()) != []
  {
    assert Field(InitialValues(), "apartment_name") == Str("");
  }

  /** A blank form cannot leave the location step. */
  lemma BlankFormBlocksLocation()
    ensures StepIssues(1, InitialValues()) != []
  {
    assert Field(InitialValues(), "province_id") == Str("");
  }

  /** A blank form passes the facilities step and fails the photos rule. */
  lemma BlankFormFacilitiesAndPhotos()
    ensures StepIssues(2, InitialValues()) == [] && StepIssues(3, InitialValues()) != []
  {
    var f := BlankFacilities();
    assert forall x: Facility :: OptionalBoolean(Get(f, FacilityKey(x)));
  }
}
