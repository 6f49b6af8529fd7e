/** The property edit screen: the auth guard, the loading of the stored listing, and the
    conversion of the stored listing into the wizard's starting values. The server's answer and
    `JSON.parse` are inputs. */
module PropertyEdit {
  import opened Options
  import opened Js
  import opened Validation
  import opened PropertySchemas
  import opened PropertyWizard
  import opened Submission

  /** The auth store's flags. */
  datatype Auth = Auth(isLoading: bool, isAuthenticated: bool)

  /** What the load effect does. */
  datatype LoadStep = Wait | RedirectToLogin | FetchListing | NothingToLoad

  /** The load effect: nothing while auth is loading, a redirect when signed out, a fetch only
      when editing. */
  function LoadEffect(auth: Auth, id: Value): (s: LoadStep)
    ensures s == FetchListing <==> !auth.isLoading && auth.isAuthenticated && IsEditing(id)
    ensures s == RedirectToLogin <==> !auth.isLoading && !auth.isAuthenticated
    ensures auth.isLoading ==> s == Wait
  {
    if auth.isLoading then Wait
    else if !auth.isAuthenticated then RedirectToLogin
    else if IsEditing(id) then FetchListing
    else NothingToLoad
  }

  /** The spinner shows while the listing loads (which starts out true when editing) or while
      auth loads. */
  predicate ShowsSpinner(initialLoading: bool, auth: Auth) {
    initialLoading || auth.isLoading
  }

  /** The spinner covers the load effect's wait for auth; on a create screen with auth settled
      it never shows, and an edit screen opens on it. */
  lemma SpinnerWhileLoading(auth: Auth, id: Value, initialLoading: bool)
    ensures LoadEffect(auth, id) == Wait ==> ShowsSpinner(initialLoading, auth)
    ensures ShowsSpinner(IsEditing(id), auth) <==> IsEditing(id) || LoadEffect(auth, id) == Wait
  {
  }

  /** `JSON.parse`, an input: None when it throws. */
  type JsonParse = string -> Option<Value>

  /** The stored amenities: an array as is, a string that starts with `[` parsed, anything else
      an empty list. None when the parse throws. */
  function AmenitiesOf(x: Value, parse: JsonParse): (r: Option<Value>)
    ensures x.Arr? ==> r == Some(x)
    ensures !x.Arr? && !(x.Str? && StartsWith(x.s, "[")) ==> r == Some(Arr([]))
  {
    if x.Arr? then Some(x)
    else if x.Str? && StartsWith(x.s, "[") then parse(x.s)
    else Some(Arr([]))
  }

  /** The starting values of the edit, as written: no category, no owner, no parent. */
  function MapListingAsWritten(p: Value, parse: JsonParse): (r: Option<Record>)
    ensures r.Some? <==> AmenitiesOf(Get(p, "amenities"), parse).Some? && ExistingMediaOf(Get(p, "photos")).Some?
    ensures r.Some? ==>
      r.value == StoredValues(p, AmenitiesOf(Get(p, "amenities"), parse).value, ExistingMediaOf(Get(p, "photos")).value)
  {
    match AmenitiesOf(Get(p, "amenities"), parse)
    case None => None
    case Some(amenities) =>
      match ExistingMediaOf(Get(p, "photos"))
      case None => None
      case Some(existing) => Some(StoredValues(p, amenities, existing))
  }

  /** The fields the edit fills in. */
  const StoredKeys: set<string> := {
    "agent_id", "property_type", "purpose", "title", "description", "area_size", "bedrooms",
    "bathrooms", "province_id", "district_id", "area_id", "location", "latitude", "longitude",
    "is_available_for_sale", "is_available_for_rent", "sale_price", "sale_currency", "rent_price",
    "rent_currency", "media", "existingMedia", "amenities"
  }

  /** The form values of a stored listing whose amenities and photos convert to `amenities`
      and `existing`: one entry per stored key. */
  function StoredValues(p: Value, amenities: Value, existing: seq<Value>): Record {
    map key | key in StoredKeys :: StoredValue(p, amenities, existing, key)
  }

  /** The value the edit gives the field `key`. */
  function StoredValue(p: Value, amenities: Value, existing: seq<Value>, key: string): Value {
    if key == "agent_id" then Str(StringOf(Or(Get(p, "agent_id"), Str("")))) else
    if key == "property_type" then Or(Get(p, "property_type"), Str("House")) else
    if key == "purpose" then Or(Get(p, "purpose"), Str("SALE")) else
    if key == "title" then Or(Get(p, "title"), Str("")) else
    if key == "description" then Or(Get(p, "description"), Str("")) else
    if key == "area_size" then TextOrEmpty(Get(p, "area_size")) else
    if key == "bedrooms" then Or(Get(p, "bedrooms"), Num(0)) else
    if key == "bathrooms" then Or(Get(p, "bathrooms"), Num(0)) else
    if key == "province_id" then IdText(Get(p, "province_id")) else
    if key == "district_id" then IdText(Get(p, "district_id")) else
    if key == "area_id" then IdText(Get(p, "area_id")) else
    if key == "location" then Or(Or(Get(p, "location"), Get(p, "address")), Str("")) else
    if key == "latitude" then NumberOrNull(Get(p, "latitude")) else
    if key == "longitude" then NumberOrNull(Get(p, "longitude")) else
    if key == "is_available_for_sale" then ToBool(Get(p, "is_available_for_sale")) else
    if key == "is_available_for_rent" then ToBool(Get(p, "is_available_for_rent")) else
    if key == "sale_price" then TextOrEmpty(Get(p, "sale_price")) else
    if key == "sale_currency" then Or(Get(p, "sale_currency"), Str("AF")) else
    if key == "rent_price" then TextOrEmpty(Get(p, "rent_price")) else
    if key == "rent_currency" then Or(Get(p, "rent_currency"), Str("AF")) else
    if key == "media" then Arr([]) else
    if key == "existingMedia" then Arr(existing) else
    if key == "amenities" then amenities else
    Undefined
  }

  lemma MappedKeysDistinct()
    ensures "property_category" != "property_type" && "property_category" != "province_id"
    ensures "parent_property_id" != "property_type"
  {
  }

  /** As written, the edit's values carry no category, so the ownership step, which has no
      category control, can never be passed: the listing cannot be saved. */
  lemma EditBlocksOwnershipStep(p: Value, parse: JsonParse)
    requires MapListingAsWritten(p, parse).Some?
    ensures "property_category" !in MapListingAsWritten(p, parse).value
    ensures "property_category" in PathsOf(Step1Issues(MapListingAsWritten(p, parse).value))
    ensures Step1Issues(MapListingAsWritten(p, parse).value) != []
  {
    NoCategoryBlocks(MapListingAsWritten(p, parse).value);
  }

  /** A form with no category never passes the ownership step. */
  lemma NoCategoryBlocks(v: Record)
    requires "property_category" !in v
    ensures "property_category" in PathsOf(Step1Issues(v))
    ensures Step1Issues(v) != []
  {
    Step1CategoryPath(v);
  }

  /** As written, the edit's values carry neither a parent nor a building, so an inherited
      listing is edited with all seven screens. */
  lemma EditShowsAllScreens(p: Value, parse: JsonParse)
    requires MapListingAsWritten(p, parse).Some?
    ensures !IsInherited(MapListingAsWritten(p, parse).value)
    ensures Steps(MapListingAsWritten(p, parse).value) == AllSteps
  {
    var r := MapListingAsWritten(p, parse).value;
    NoParentKeys();
    assert Field(r, "parent_property_id") == Undefined && Field(r, "apartment_id") == Undefined;
  }

  /** The edit fills in neither a parent nor a building. */
  lemma NoParentKeys()
    ensures "parent_property_id" !in StoredKeys && "apartment_id" !in StoredKeys
  {
  }

  /** The edit's starting values with the stored category carried over (`Normal` when missing). */
  function MapListing(p: Value, parse: JsonParse): (r: Option<Record>)
    ensures r.Some? <==> MapListingAsWritten(p, parse).Some?
    ensures r.Some? ==> Field(r.value, "property_category") == Or(Get(p, "property_category"), Str("Normal"))
    ensures r.Some? ==> UpdatesOnly(MapListingAsWritten(p, parse).value, r.value, {"property_category"})
  {
    match MapListingAsWritten(p, parse)
    case None => None
    case Some(v) => Some(SetField(v, "property_category", Or(Get(p, "property_category"), Str("Normal"))))
  }

  /** The purpose, as the edit maps it. */
  lemma MappedPurpose(p: Value, parse: JsonParse)
    requires MapListingAsWritten(p, parse).Some?
    ensures Field(MapListingAsWritten(p, parse).value, "purpose") == Or(Get(p, "purpose"), Str("SALE"))
  {
  }

  /** The type, as the edit maps it. */
  lemma MappedType(p: Value, parse: JsonParse)
    requires MapListingAsWritten(p, parse).Some?
    ensures Field(MapListingAsWritten(p, parse).value, "property_type") == Or(Get(p, "property_type"), Str("House"))
  {
  }

  /** The agent, as the edit maps it: always text. */
  lemma MappedAgent(p: Value, parse: JsonParse)
    requires MapListingAsWritten(p, parse).Some?
    ensures Field(MapListingAsWritten(p, parse).value, "agent_id").Str?
  {
  }

  /** The edit sets no owner. */
  lemma MappedNoOwner(p: Value, parse: JsonParse)
    requires MapListingAsWritten(p, parse).Some?
    ensures "owner_person_id" !in MapListingAsWritten(p, parse).value
  {
  }

  /** Carrying the category over leaves every other field as the edit maps it. */
  lemma EditedFieldKept(p: Value, parse: JsonParse, key: string)
    requires MapListing(p, parse).Some?
    requires key != "property_category"
    ensures Field(MapListing(p, parse).value, key) == Field(MapListingAsWritten(p, parse).value, key)
  {
  }

  /** With the category carried over, a listing stored with a valid category, purpose and type
      passes the ownership step again, unless its owner or agent ids are malformed. */
  lemma EditedListingPassesOwnership(p: Value, parse: JsonParse)
    requires MapListing(p, parse).Some?
    requires OneOf(Get(p, "property_category"), Categories) && OneOf(Get(p, "purpose"), Purposes)
    requires Get(p, "property_type").Str? && TypeAllowed(Get(p, "property_category"), Get(p, "property_type"))
    requires Get(p, "property_type").s != ""
    ensures Step1Issues(MapListing(p, parse).value) == []
  {
    var r := MapListing(p, parse).value;
    OwnershipFieldsOfListing(p, parse);
    OwnershipFieldsPass(r);
  }

  /** The ownership fields of the edit with the category carried over. */
  lemma OwnershipFieldsOfListing(p: Value, parse: JsonParse)
    requires MapListing(p, parse).Some?
    ensures var r := MapListing(p, parse).value;
      Field(r, "property_category") == Or(Get(p, "property_category"), Str("Normal"))
      && Field(r, "purpose") == Or(Get(p, "purpose"), Str("SALE"))
      && Field(r, "property_type") == Or(Get(p, "property_type"), Str("House"))
      && Field(r, "agent_id").Str? && Field(r, "owner_person_id") == Undefined
  {
    MappedKeysDistinct();
    assert "purpose" != "property_category" && "agent_id" != "property_category";
    assert "owner_person_id" != "property_category";
    MappedPurpose(p, parse);
    MappedType(p, parse);
    MappedAgent(p, parse);
    MappedNoOwner(p, parse);
    EditedFieldKept(p, parse, "purpose");
    EditedFieldKept(p, parse, "property_type");
    EditedFieldKept(p, parse, "agent_id");
    EditedFieldKept(p, parse, "owner_person_id");
  }

  /** The ownership step passes once each of its fields is valid. */
  lemma OwnershipFieldsPass(v: Record)
    requires NullableString(Field(v, "owner_person_id")) && NullableString(Field(v, "agent_id"))
    requires OneOf(Field(v, "property_category"), Categories) && OneOf(Field(v, "purpose"), Purposes)
    requires RequiredString(Field(v, "property_type"))
    requires TypeAllowed(Field(v, "property_category"), Field(v, "property_type"))
    ensures Step1Issues(v) == []
  {
  }

  /** The location ids and prices, as the edit maps them. */
  lemma MappedNumberFields(p: Value, parse: JsonParse)
    requires MapListingAsWritten(p, parse).Some?
    ensures Field(MapListingAsWritten(p, parse).value, "province_id") == IdText(Get(p, "province_id"))
    ensures Field(MapListingAsWritten(p, parse).value, "district_id") == IdText(Get(p, "district_id"))
    ensures Field(MapListingAsWritten(p, parse).value, "area_id") == IdText(Get(p, "area_id"))
    ensures Field(MapListingAsWritten(p, parse).value, "sale_price") == TextOrEmpty(Get(p, "sale_price"))
    ensures Field(MapListingAsWritten(p, parse).value, "rent_price") == TextOrEmpty(Get(p, "rent_price"))
  {
  }

  /** Editing and saving without changes sends back the stored ids and prices: each non-zero
      integer is rendered as text for the form and read back as the same number. */
  lemma EditedNumbersRoundTrip(p: Value, parse: JsonParse, key: string, n: int)
    requires MapListing(p, parse).Some?
    requires key in ["province_id", "district_id", "area_id", "sale_price", "rent_price"]
    requires Get(p, key) == Num(n) && n != 0
    ensures Field(PropertyPayload(MapListing(p, parse).value), key) == Num(n)
  {
    MappedNumberFields(p, parse);
    assert key != "property_category" by {
      assert key[0] != 'p' || key[1] != 'r' || key[2] != 'o' || key[3] != 'p' || |key| != |"property_category"|;
    }
    EditedFieldKept(p, parse, key);
    assert Field(MapListing(p, parse).value, key) == Str(IntToString(n));
    PayloadReadsBack(MapListing(p, parse).value, key, n);
  }

  /** A numeric field holding the text of a non-zero integer is sent as that integer. */
  lemma PayloadReadsBack(v: Record, key: string, n: int)
    requires key in ["province_id", "district_id", "area_id", "sale_price", "rent_price"]
    requires Field(v, key) == Str(IntToString(n)) && n != 0
    ensures Field(PropertyPayload(v), key) == Num(n)
  {
    IntTextReadsBack(n);
    assert key in NumericKeys;
  }

  /** The server's answer to the fetch: a thrown error, or the returned value. */
  datatype Answer = Threw | Returned(listing: Value)

  /** After the fetch: an error (alert and back) when the fetch or the conversion throws, no
      starting values when nothing came back, otherwise the listing converted as written, which
      carries no category. */
  function AfterFetch(a: Answer, parse: JsonParse): (r: Loaded)
    ensures r.failed ==> r.initial.None?
    ensures a.Threw? ==> r.failed
    ensures a.Returned? && !Truthy(a.listing) ==> r == Loaded(None, false)
    ensures a.Returned? && Truthy(a.listing) ==>
      (r.failed <==> AmenitiesOf(Get(a.listing, "amenities"), parse).None? || ExistingMediaOf(Get(a.listing, "photos")).None?)
    ensures r.initial.Some? ==> a.Returned? && Truthy(a.listing) && r.initial == MapListingAsWritten(a.listing, parse)
    ensures r.initial.Some? ==> "property_category" !in r.initial.value
  {
    match a
    case Threw => Loaded(None, true)
    case Returned(p) =>
      if !Truthy(p) then Loaded(None, false)
      else match MapListingAsWritten(p, parse)
        case None => Loaded(None, true)
        case Some(v) =>
          EditBlocksOwnershipStep(p, parse);
          Loaded(Some(v), false)
  }

  /** As written, a listing that loads for editing opens on an ownership step it cannot pass. */
  lemma LoadedEditBlocksOwnership(a: Answer, parse: JsonParse)
    requires AfterFetch(a, parse).initial.Some?
    ensures Step1Issues(WizardValues(AfterFetch(a, parse).initial)) != []
  {
    NoCategoryBlocks(AfterFetch(a, parse).initial.value);
  }

  /** After the fetch, with the category carried over from the listing. */
  function AfterFetchCorrected(a: Answer, parse: JsonParse): (r: Loaded)
    ensures r.failed <==> AfterFetch(a, parse).failed
    ensures r.initial.Some? <==> AfterFetch(a, parse).initial.Some?
    ensures r.initial.Some? ==>
      Field(r.initial.value, "property_category") == Or(Get(a.listing, "property_category"), Str("Normal"))
    ensures r.initial.Some? ==>
      UpdatesOnly(AfterFetch(a, parse).initial.value, r.initial.value, {"property_category"})
  {
    match a
    case Threw => Loaded(None, true)
    case Returned(p) =>
      if !Truthy(p) then Loaded(None, false)
      else match MapListing(p, parse)
        case None => Loaded(None, true)
        case Some(v) => Loaded(Some(v), false)
  }

  /** `initial || initialValues`: the wizard's values. */
  function WizardValues(initial: Option<Record>): (v: Record)
    ensures initial.None? ==> v == InitialValues()
  {
    initial.GetOr(InitialValues())
  }

  /** When the fetch returns nothing, the edit opens on a blank listing, with all seven screens. */
  lemma EmptyAnswerOpensBlank(parse: JsonParse)
    ensures WizardValues(AfterFetch(Returned(Null), parse).initial) == InitialValues()
    ensures |Steps(WizardValues(AfterFetch(Returned(Null), parse).initial))| == 7
  {
  }
}
