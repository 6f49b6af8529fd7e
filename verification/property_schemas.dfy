/** The seven validation schemas of the property wizard, the category/type allow-list and the
    wizard's initial values. Each schema is a function from the Formik values to the list of
    issues Yup reports; the rules imported from the shared base schema, whose file is not part
    of this model, are a parameter. */
module PropertySchemas {
  import opened Options
  import opened Js
  import opened Validation

  const Categories: seq<string> := ["Apartment", "Sharak", "Normal"]
  const Purposes: seq<string> := ["SALE", "RENT"]

  /** `PROPERTY_CATEGORY_TYPES[category]`: the property types a category allows, or nothing for
      a name that is not a category. */
  function CategoryTypes(category: string): (r: Option<seq<string>>)
    ensures r.Some? <==> category in Categories
    ensures r.Some? ==> "House" in r.value && "Office" in r.value
    ensures r.Some? ==> forall t :: t in r.value ==> t in NormalTypes()
  {
    if category == "Apartment" then Some(["Office", "House"])
    else if category == "Sharak" then Some(["Plot", "House", "Office"])
    else if category == "Normal" then Some(NormalTypes())
    else None
  }

  function NormalTypes(): seq<string> {
    ["Plot", "House", "Office", "Shop", "Land", "Market"]
  }

  /** The rules of the shared base schema: given a field name and the values, the message the
      rule reports for that field, if any. */
  type BaseRules = (string, Record) -> Option<string>

  /** The issue a base rule reports for field `k`. */
  function BaseIssue(base: BaseRules, v: Record, k: string): (r: seq<Issue>)
    ensures r == [] <==> base(k, v).None?
    ensures PathsOf(r) <= {k} && (k in PathsOf(r) <==> r != [])
    ensures OnPaths(r)
  {
    match base(k, v)
    case None => []
    case Some(m) => [Issue(Some(k), m)]
  }

  /** The values a new listing starts from. */
  function InitialValues(): Record {
    map[
      "owner_person_id" := Str(""), "agent_id" := Str(""),
      "property_category" := Str("Normal"), "property_type" := Str(""), "purpose" := Str("SALE"),
      "title" := Str(""), "description" := Str(""), "area_size" := Str(""),
      "bedrooms" := Num(0), "bathrooms" := Num(0),
      "province_id" := Str(""), "district_id" := Str(""), "area_id" := Str(""), "location" := Str(""),
      "latitude" := Null, "longitude" := Null,
      "is_available_for_sale" := Bool(true), "is_available_for_rent" := Bool(false),
      "sale_price" := Str(""), "sale_currency" := Str("AF"),
      "rent_price" := Str(""), "rent_currency" := Str("AF"),
      "media" := Arr([]), "existingMedia" := Arr([]),
      "amenities" := Arr([])
    ]
  }

  /** A new listing starts as a normal listing for sale, with no type chosen. */
  lemma BlankOwnership()
    ensures Field(InitialValues(), "property_category") == Str("Normal")
    ensures Field(InitialValues(), "purpose") == Str("SALE")
    ensures Field(InitialValues(), "property_type") == Str("")
  {
  }

  /** A new listing starts offered for sale only, with no files. */
  lemma BlankPricingAndMedia()
    ensures Field(InitialValues(), "is_available_for_sale") == Bool(true)
    ensures Field(InitialValues(), "is_available_for_rent") == Bool(false)
    ensures Field(InitialValues(), "media") == Arr([]) && Field(InitialValues(), "existingMedia") == Arr([])
  {
  }

  /** A new listing belongs to neither a parent property nor a building. */
  lemma BlankHasNoParent()
    ensures "parent_property_id" !in InitialValues() && "apartment_id" !in InitialValues()
  {
  }

  // ---------------------------------------------------------------- step 1: owner and type

  /** The `is-valid-type` test: it passes when the category or the type is empty, and otherwise
      demands a category whose allow-list holds the type. */
  predicate TypeAllowed(category: Value, propertyType: Value) {
    !Truthy(category) || !Truthy(propertyType) ||
    (var allowed := CategoryTypes(StringOf(category));
     allowed.Some? && StringOf(propertyType) in allowed.value)
  }

  /** The issues of the ownership step: one per field at most, each under its field's path. */
  function Step1Issues(v: Record): (r: seq<Issue>)
    ensures OnPaths(r)
    ensures r == [] <==>
      NullableString(Field(v, "owner_person_id")) && NullableString(Field(v, "agent_id"))
      && OneOf(Field(v, "property_category"), Categories) && OneOf(Field(v, "purpose"), Purposes)
      && RequiredString(Field(v, "property_type"))
      && TypeAllowed(Field(v, "property_category"), Field(v, "property_type"))
    ensures PathsOf(r) <= {"owner_person_id", "agent_id", "property_category", "property_type", "purpose"}
  {
    var a := NullableStringIssue(v, "owner_person_id");
    var b := NullableStringIssue(v, "agent_id");
    var c := OneOfIssue(v, "property_category", Categories, "Property category is required");
    var d := TypeIssue(v);
    var e := OneOfIssue(v, "purpose", Purposes, "Purpose is required");
    Join5(a, b, c, d, e)
  }

  /** The paths step 1 reports under: those of its five field checks. */
  lemma Step1PathsUnion(v: Record)
    ensures PathsOf(Step1Issues(v)) ==
      PathsOf(NullableStringIssue(v, "owner_person_id")) + PathsOf(NullableStringIssue(v, "agent_id"))
      + PathsOf(OneOfIssue(v, "property_category", Categories, "Property category is required"))
      + PathsOf(TypeIssue(v)) + PathsOf(OneOfIssue(v, "purpose", Purposes, "Purpose is required"))
  {
  }

  /** Step 1 reports the type when it is missing or not allowed for the chosen category. */
  lemma Step1TypePath(v: Record)
    ensures "property_type" in PathsOf(Step1Issues(v)) <==>
      !RequiredString(Field(v, "property_type"))
      || !TypeAllowed(Field(v, "property_category"), Field(v, "property_type"))
  {
    Step1PathsUnion(v);
    assert PathsOf(NullableStringIssue(v, "owner_person_id")) <= {"owner_person_id"};
    assert PathsOf(NullableStringIssue(v, "agent_id")) <= {"agent_id"};
    assert PathsOf(OneOfIssue(v, "property_category", Categories, "Property category is required")) <= {"property_category"};
    assert PathsOf(OneOfIssue(v, "purpose", Purposes, "Purpose is required")) <= {"purpose"};
  }

  /** Step 1 reports the category when it is not one of the three. */
  lemma Step1CategoryPath(v: Record)
    ensures "property_category" in PathsOf(Step1Issues(v)) <==> !OneOf(Field(v, "property_category"), Categories)
  {
    Step1PathsUnion(v);
    assert PathsOf(NullableStringIssue(v, "owner_person_id")) <= {"owner_person_id"};
    assert PathsOf(NullableStringIssue(v, "agent_id")) <= {"agent_id"};
    assert PathsOf(TypeIssue(v)) <= {"property_type"};
    assert PathsOf(OneOfIssue(v, "purpose", Purposes, "Purpose is required")) <= {"purpose"};
  }

  /** Step 1 reports the purpose when it is neither SALE nor RENT. */
  lemma Step1PurposePath(v: Record)
    ensures "purpose" in PathsOf(Step1Issues(v)) <==> !OneOf(Field(v, "purpose"), Purposes)
  {
    Step1PathsUnion(v);
    assert PathsOf(NullableStringIssue(v, "owner_person_id")) <= {"owner_person_id"};
    assert PathsOf(NullableStringIssue(v, "agent_id")) <= {"agent_id"};
    assert PathsOf(OneOfIssue(v, "property_category", Categories, "Property category is required")) <= {"property_category"};
    assert PathsOf(TypeIssue(v)) <= {"property_type"};
  }

  /** The issue of `property_type`: required first, then the `is-valid-type` test. */
  function TypeIssue(v: Record): (r: seq<Issue>)
    ensures PathsOf(r) <= {"property_type"} && ("property_type" in PathsOf(r) <==> r != [])
    ensures OnPaths(r)
    ensures r == [] <==>
      RequiredString(Field(v, "property_type"))
      && TypeAllowed(Field(v, "property_category"), Field(v, "property_type"))
  {
    var propertyType := Field(v, "property_type");
    if !RequiredString(propertyType) then RequiredStringIssue(v, "property_type", "Property type is required")
    else FieldIssue(!TypeAllowed(Field(v, "property_category"), propertyType), "property_type",
                    "Invalid property type for selected category")
  }

  /** The issue of a `Yup.string().oneOf(options).required(message)` field: the required message
      when it is missing, a one-of message for any other value outside the options. */
  function OneOfIssue(v: Record, k: string, options: seq<string>, message: string): (r: seq<Issue>)
    ensures r == [] <==> OneOf(Field(v, k), options)
    ensures PathsOf(r) <= {k} && (k in PathsOf(r) <==> r != [])
    ensures OnPaths(r)
  {
    var x := Field(v, k);
    FieldIssue(!OneOf(x, options), k,
      if !RequiredString(x) then message else k + " must be one of the following values: " + JoinWith(options, ", "))
  }

  // ---------------------------------------------------------------- step 2: details

  /** The issues of the details step, each blocking: the step passes exactly when the title
      is absent or a string, the description and the whole location chain (city, district,
      region, address) are filled in, and the base rules accept the area size and room counts. */
  function Step2Issues(v: Record, base: BaseRules): (r: seq<Issue>)
    ensures OnPaths(r)
    ensures r == [] <==>
      NullableString(Field(v, "title"))
      && RequiredString(Field(v, "description"))
      && RequiredString(Field(v, "province_id")) && RequiredString(Field(v, "district_id"))
      && RequiredString(Field(v, "area_id")) && RequiredString(Field(v, "location"))
      && base("area_size", v).None? && base("bedrooms", v).None? && base("bathrooms", v).None?
  {
    Join5(
      Join5(
        NullableStringIssue(v, "title"),
        RequiredStringIssue(v, "description", "Description is required"),
        BaseIssue(base, v, "area_size"),
        BaseIssue(base, v, "bedrooms"),
        BaseIssue(base, v, "bathrooms")),
      RequiredStringIssue(v, "province_id", "City is required"),
      RequiredStringIssue(v, "district_id", "District is required"),
      RequiredStringIssue(v, "area_id", "Region is required"),
      RequiredStringIssue(v, "location", "Location is required"))
  }

  // ---------------------------------------------------------------- step 3: map position

  /** The issues of the map step: the coordinates are numbers or absent. */
  function Step3Issues(v: Record): (r: seq<Issue>)
    ensures OnPaths(r)
    ensures r == [] <==> NullableNumber(Field(v, "latitude")) && NullableNumber(Field(v, "longitude"))
  {
    Join5(NullableNumberIssue(v, "latitude"), NullableNumberIssue(v, "longitude"), [], [], [])
  }

  // ---------------------------------------------------------------- step 4: pricing

  /** The `when` condition on a currency: the price is truthy and `parseFloat` reads it as
      positive. */
  predicate PricePositive(price: Value) {
    Truthy(price) && ParseFloatPositive(StringOf(price))
  }

  /** The issue of a currency field: required while its price is positive, otherwise any string
      or nothing. */
  function CurrencyIssue(v: Record, priceKey: string, currencyKey: string): (r: seq<Issue>)
    ensures PathsOf(r) <= {currencyKey} && (currencyKey in PathsOf(r) <==> r != [])
    ensures OnPaths(r)
    ensures r == [] <==>
      if PricePositive(Field(v, priceKey)) then RequiredString(Field(v, currencyKey))
      else NullableString(Field(v, currencyKey))
  {
    if PricePositive(Field(v, priceKey)) then RequiredStringIssue(v, currencyKey, "Currency is required")
    else NullableStringIssue(v, currencyKey)
  }

  /** A price given as a number demands a currency exactly when it is positive. */
  lemma CurrencyRequiredIffPositive(v: Record, priceKey: string, currencyKey: string)
    requires Field(v, priceKey).Num?
    requires priceKey != currencyKey
    ensures CurrencyIssue(v, priceKey, currencyKey) != [] <==>
      if Field(v, priceKey).n > 0 then !RequiredString(Field(v, currencyKey))
      else !NullableString(Field(v, currencyKey))
  {
    ParseFloatPositiveOfInt(Field(v, priceKey).n);
  }

  /** The per-field issues of the pricing step. */
  function Step4FieldIssues(v: Record, base: BaseRules): (r: seq<Issue>)
    ensures OnPaths(r)
    ensures r == [] <==>
      base("is_available_for_sale", v).None? && base("is_available_for_rent", v).None?
      && base("sale_price", v).None? && base("rent_price", v).None?
      && CurrencyIssue(v, "sale_price", "sale_currency") == []
      && CurrencyIssue(v, "rent_price", "rent_currency") == []
    ensures "atLeastOnePurpose" !in PathsOf(r)
  {
    var a := BaseIssue(base, v, "is_available_for_sale");
    var b := BaseIssue(base, v, "is_available_for_rent");
    var c := BaseIssue(base, v, "sale_price");
    var d := CurrencyIssue(v, "sale_price", "sale_currency");
    var e := BaseIssue(base, v, "rent_price");
    var f := CurrencyIssue(v, "rent_price", "rent_currency");
    var first := Join5(a, b, c, d, e);
    var fields := {"is_available_for_sale", "is_available_for_rent", "sale_price", "sale_currency", "rent_price"};
    assert PathsOf(first) <= fields by {
      assert PathsOf(a) <= fields && PathsOf(b) <= fields && PathsOf(c) <= fields;
      assert PathsOf(d) <= fields && PathsOf(e) <= fields;
    }
    assert "atLeastOnePurpose" !in fields;
    assert "atLeastOnePurpose" !in PathsOf(f) by {
      assert PathsOf(f) <= {"rent_currency"};
    }
    assert first == [] <==> a == [] && b == [] && c == [] && d == [] && e == [];
    Join5(first, f, [], [], [])
  }

  /** The listing is offered for sale or for rent. */
  predicate HasPurpose(v: Record) {
    Truthy(Field(v, "is_available_for_sale")) || Truthy(Field(v, "is_available_for_rent"))
  }

  const PurposeMessage: string := "Must be available for either sale or rent"

  /** The pricing step as written: the at-least-one-purpose test is declared on the root
      object, so its issue carries no path. */
  function Step4IssuesAsWritten(v: Record, base: BaseRules): (r: seq<Issue>)
    ensures !HasPurpose(v) ==> |r| > 0 && r[|r| - 1] == Issue(None, PurposeMessage)
  {
    Step4FieldIssues(v, base) + (if HasPurpose(v) then [] else [Issue(None, PurposeMessage)])
  }

  /** As written, the purpose test never reaches the errors record: a listing offered neither
      for sale nor for rent passes the step whenever its fields do. */
  lemma PurposeTestNeverBlocks(v: Record, base: BaseRules)
    ensures FormErrors(Step4IssuesAsWritten(v, base)) == FormErrors(Step4FieldIssues(v, base))
    ensures "atLeastOnePurpose" !in FormErrors(Step4IssuesAsWritten(v, base))
  {
    FormErrorsIgnoresRoot(Step4FieldIssues(v, base), if HasPurpose(v) then [] else [Issue(None, PurposeMessage)]);
  }

  /** The pricing step with the purpose test reported under `atLeastOnePurpose`, the key the
      pricing screen displays. */
  function Step4Issues(v: Record, base: BaseRules): (r: seq<Issue>)
    ensures OnPaths(r)
    ensures r == [] <==> Step4FieldIssues(v, base) == [] && HasPurpose(v)
    ensures "atLeastOnePurpose" in PathsOf(r) <==> !HasPurpose(v)
  {
    Join5(Step4FieldIssues(v, base),
      FieldIssue(!HasPurpose(v), "atLeastOnePurpose", PurposeMessage), [], [], [])
  }

  // ---------------------------------------------------------------- step 5: media

  const ImageMessage: string := "At least one image is required"

  /** The at-least-one-image test reading `media` and `existingMedia` from `source`
      (`source || {}`), reporting under `path` when both are empty. */
  function ImageTest(source: Value, path: Option<string>): (r: seq<Issue>)
    ensures r == [] <==>
      (var s := Or(source, Obj(map[])); LengthOrZero(Get(s, "media")) + LengthOrZero(Get(s, "existingMedia")) > 0)
    ensures r != [] ==> r == [Issue(path, ImageMessage)]
  {
    var s := Or(source, Obj(map[]));
    if LengthOrZero(Get(s, "media")) + LengthOrZero(Get(s, "existingMedia")) > 0 then []
    else [Issue(path, ImageMessage)]
  }

  /** The media step as written: a test on the root object reads `this.parent`, which is
      undefined there, and reports without a path. */
  function Step5IssuesAsWritten(v: Record): (r: seq<Issue>)
    ensures |r| > 0 && r[|r| - 1] == Issue(None, ImageMessage)
  {
    var parent := Undefined;
    ArrayIssue(v, "media") + ImageTest(parent, None)
  }

  /** As written, the image test fails for every form, and is dropped: only a `media` value
      that is not an array can block the step. */
  lemma ImageTestAlwaysFailsUnseen(v: Record)
    ensures exists i :: 0 <= i < |Step5IssuesAsWritten(v)| && Step5IssuesAsWritten(v)[i].path.None?
    ensures FormErrors(Step5IssuesAsWritten(v)).Keys == if ArrayOrAbsent(Field(v, "media")) then {} else {"media"}
  {
    var r := Step5IssuesAsWritten(v);
    assert r[|r| - 1].path.None?;
    FormErrorsIgnoresRoot(ArrayIssue(v, "media"), ImageTest(Undefined, None));
  }

  /** The media step reading the form values and reporting under `media`. */
  function Step5Issues(v: Record): (r: seq<Issue>)
    ensures OnPaths(r)
    ensures "media" in PathsOf(r) <==>
      !ArrayOrAbsent(Field(v, "media"))
      || LengthOrZero(Field(v, "media")) + LengthOrZero(Field(v, "existingMedia")) == 0
    ensures PathsOf(r) <= {"media"} && (r == [] <==> "media" !in PathsOf(r))
  {
    assert Or(Obj(v), Obj(map[])) == Obj(v);
    Join5(ArrayIssue(v, "media"), ImageTest(Obj(v), Some("media")), [], [], [])
  }

  // ---------------------------------------------------------------- steps 6 and 7

  /** The issues of the amenities step: the amenities are an array or absent. */
  function Step6Issues(v: Record): (r: seq<Issue>)
    ensures OnPaths(r)
    ensures r == [] <==> ArrayOrAbsent(Field(v, "amenities"))
  {
    ArrayIssue(v, "amenities")
  }

  // ---------------------------------------------------------------- the schema list

  const SchemaCount: nat := 7

  /** `stepSchemas[i]`: the issues of schema `i`; the review step's schema has no fields. */
  function StepIssues(i: nat, v: Record, base: BaseRules): (r: seq<Issue>)
    requires i < SchemaCount
    ensures OnPaths(r)
    ensures i == 6 ==> r == []
  {
    match i
    case 0 => Step1Issues(v)
    case 1 => Step2Issues(v, base)
    case 2 => Step3Issues(v)
    case 3 => Step4Issues(v, base)
    case 4 => Step5Issues(v)
    case 5 => Step6Issues(v)
    case _ => []
  }


  /** The schema list as written, with the two root-object tests. */
  function StepIssuesAsWritten(i: nat, v: Record, base: BaseRules): (r: seq<Issue>)
    requires i < SchemaCount
    ensures i !in {3, 4} ==> r == StepIssues(i, v, base)
  {
    match i
    case 3 => Step4IssuesAsWritten(v, base)
    case 4 => Step5IssuesAsWritten(v)
    case _ => StepIssues(i, v, base)
  }

  /** The pricing schema sits at position 3 of the list. */
  lemma PricingSchemaAt(v: Record, base: BaseRules)
    ensures StepIssues(3, v, base) == Step4Issues(v, base)
  {
  }

  /** The media schema sits at position 4 of the list. */
  lemma MediaSchemaAt(v: Record, base: BaseRules)
    ensures StepIssues(4, v, base) == Step5Issues(v)
  {
  }

  /** As written, the pricing schema with its root test sits at position 3 of the list. */
  lemma PricingSchemaAsWrittenAt(v: Record, base: BaseRules)
    ensures StepIssuesAsWritten(3, v, base) == Step4IssuesAsWritten(v, base)
  {
  }

  /** As written, the media schema with its root test sits at position 4 of the list. */
  lemma MediaSchemaAsWrittenAt(v: Record, base: BaseRules)
    ensures StepIssuesAsWritten(4, v, base) == Step5IssuesAsWritten(v)
  {
  }
}
