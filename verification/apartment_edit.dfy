/** The apartment-building edit screen: the route id, the load through the store, and the
    conversion of the stored building into the wizard's starting values. The service's answer
    is an input. */
module ApartmentEdit {
  import opened Options
  import opened Js
  import opened Validation
  import opened Submission
  import opened ApartmentSchemas
  import opened ApartmentWizard
  import ApartmentStore

  /** `id ? Number(id) : undefined`: the id the wizard saves under. */
  function ApartmentId(id: Value): (r: Value)
    ensures !IsEditing(id) ==> r == Undefined
    ensures IsEditing(id) ==> r.Num? || r.NaN?
  {
    if IsEditing(id) then ToNumber(id) else Undefined
  }

  /** The stored facilities as the form holds them: each toggle `!!stored`, `others` the
      stored text or empty. */
  function MappedFacilities(f: Value): (r: Value)
    ensures r.Obj? && Get(r, "others") == Or(Get(f, "others"), Str(""))
    ensures forall x: Facility :: Get(r, FacilityKey(x)) == Bool(Truthy(Get(f, FacilityKey(x))))
  {
    Obj(map[
      "lift" := ToBool(Get(f, "lift")), "parking" := ToBool(Get(f, "parking")),
      "generator" := ToBool(Get(f, "generator")), "security" := ToBool(Get(f, "security")),
      "solar" := ToBool(Get(f, "solar")), "others" := Or(Get(f, "others"), Str(""))
    ])
  }

  /** The starting values of the edit. None when the stored photos are a value that is not an
      array, on which `map` throws. */
  function MapApartment(a: Value): (r: Option<Record>)
    ensures r.Some? <==> ExistingMediaOf(Get(a, "building_images")).Some?
    ensures r.Some? ==> r.value == StoredValues(a, ExistingMediaOf(Get(a, "building_images")).value)
  {
    match ExistingMediaOf(Get(a, "building_images"))
    case None => None
    case Some(existing) => Some(StoredValues(a, existing))
  }

  /** The fields the edit fills in. */
  const StoredKeys: set<string> := {
    "apartment_name", "total_floors", "total_units", "description", "province_id", "district_id",
    "area_id", "address", "latitude", "longitude", "facilities", "existingMedia", "media"
  }

  /** The form values of a stored building whose photos convert to `existing`: one entry per
      stored key. */
  function StoredValues(a: Value, existing: seq<Value>): Record {
    map key | key in StoredKeys :: StoredValue(a, existing, key)
  }

  /** The value the edit gives the field `key`. */
  function StoredValue(a: Value, existing: seq<Value>, key: string): Value {
    if key == "apartment_name" then Or(Get(a, "apartment_name"), Str("")) else
    if key == "total_floors" then TextOrEmpty(Get(a, "total_floors")) else
    if key == "total_units" then TextOrEmpty(Get(a, "total_units")) else
    if key == "description" then Or(Get(a, "description"), Str("")) else
    if key == "province_id" then IdText(Get(a, "province_id")) else
    if key == "district_id" then IdText(Get(a, "district_id")) else
    if key == "area_id" then IdText(Get(a, "area_id")) else
    if key == "address" then Or(Get(a, "address"), Str("")) else
    if key == "latitude" then Or(Get(a, "latitude"), Null) else
    if key == "longitude" then Or(Get(a, "longitude"), Null) else
    if key == "facilities" then MappedFacilities(Get(a, "facilities")) else
    if key == "existingMedia" then Arr(existing) else
    if key == "media" then Arr([]) else
    Undefined
  }

  /** The counts and location ids, as the edit maps them. */
  lemma MappedNumbers(a: Value)
    requires MapApartment(a).Some?
    ensures Field(MapApartment(a).value, "total_floors") == TextOrEmpty(Get(a, "total_floors"))
    ensures Field(MapApartment(a).value, "total_units") == TextOrEmpty(Get(a, "total_units"))
    ensures Field(MapApartment(a).value, "province_id") == IdText(Get(a, "province_id"))
    ensures Field(MapApartment(a).value, "district_id") == IdText(Get(a, "district_id"))
    ensures Field(MapApartment(a).value, "area_id") == IdText(Get(a, "area_id"))
  {
  }

  /** A form field holding the text of an integer is sent as that integer, unless it is `0` and
      one of the ids. */
  lemma NumberTextReadsBack(v: Record, k: string, n: int)
    requires k in NumberKeys && Field(v, k) == Str(IntToString(n))
    ensures ApartmentPayload(v)[k] == Num(n)
  {
    IntTextReadsBack(n);
  }

  /** Editing and saving without changes sends back the stored counts, zero included, and the
      stored non-zero ids; a stored id of zero is sent as `null`. */
  lemma StoredNumbersRoundTrip(a: Value, k: string, n: int)
    requires MapApartment(a).Some?
    requires k in NumberKeys && Get(a, k) == Num(n)
    ensures ApartmentPayload(MapApartment(a).value)[k] ==
      if n == 0 && k in ["province_id", "district_id", "area_id"] then Null else Num(n)
  {
    var v := MapApartment(a).value;
    MappedNumbers(a);
    if n == 0 && k in ["province_id", "district_id", "area_id"] {
      assert Field(v, k) == Str("");
    } else {
      assert Field(v, k) == Str(IntToString(n));
      NumberTextReadsBack(v, k, n);
    }
  }

  /** The name, description and address, as the edit maps them: the stored text, else empty. */
  lemma MappedTextFields(a: Value)
    requires MapApartment(a).Some?
    ensures Field(MapApartment(a).value, "apartment_name") == Or(Get(a, "apartment_name"), Str(""))
    ensures Field(MapApartment(a).value, "description") == Or(Get(a, "description"), Str(""))
    ensures Field(MapApartment(a).value, "address") == Or(Get(a, "address"), Str(""))
  {
  }

  /** The coordinates, as the edit maps them: the stored ones, else `null`. */
  lemma MappedCoordinates(a: Value)
    requires MapApartment(a).Some?
    ensures Field(MapApartment(a).value, "latitude") == Or(Get(a, "latitude"), Null)
    ensures Field(MapApartment(a).value, "longitude") == Or(Get(a, "longitude"), Null)
  {
  }

  /** Saving without changes sends the stored text fields and coordinates back as they were,
      when they were set; a zero coordinate becomes `null`. */
  lemma StoredPlainFieldsRoundTrip(a: Value, k: string)
    requires MapApartment(a).Some?
    requires k in ["apartment_name", "description", "address", "latitude", "longitude"]
    ensures Truthy(Get(a, k)) ==> ApartmentPayload(MapApartment(a).value)[k] == Get(a, k)
    ensures Get(a, k) == Num(0) && k in ["latitude", "longitude"] ==>
      ApartmentPayload(MapApartment(a).value)[k] == Null
  {
    MappedTextFields(a);
    MappedCoordinates(a);
    assert k in PlainKeys;
  }

  /** The facilities, as the edit maps them. */
  lemma MappedFacilitiesField(a: Value)
    requires MapApartment(a).Some?
    ensures Field(MapApartment(a).value, "facilities") == MappedFacilities(Get(a, "facilities"))
  {
  }

  /** The edited facilities pass the facilities step unless the stored `others` is set to
      something other than text; the toggles are always booleans. */
  lemma EditedFacilitiesPass(a: Value)
    requires MapApartment(a).Some?
    requires var o := Get(Get(a, "facilities"), "others"); !Truthy(o) || IsStringLike(o)
    ensures Step3Issues(MapApartment(a).value) == []
  {
    MappedFacilitiesField(a);
  }

  /** The stored photos, as the edit maps them: one `{url, type: 'photo'}` per stored url. */
  lemma MappedStoredPhotos(a: Value)
    requires MapApartment(a).Some?
    ensures Field(MapApartment(a).value, "existingMedia") == Arr(ExistingMediaOf(Get(a, "building_images")).value)
    ensures Field(MapApartment(a).value, "media") == Arr([])
  {
  }

  /** Saving an edit whose stored photos were left alone deletes none of them, as long as the
      stored urls are text. */
  lemma UntouchedPhotosDeleteNothing(a: Value, id: Value)
    requires MapApartment(a).Some?
    requires forall i :: 0 <= i < |Items(Get(a, "building_images"))| ==> Items(Get(a, "building_images"))[i].Str?
    ensures var v := MapApartment(a).value; ApartmentDeletions(true, id, v, Some(v)) == []
  {
    var v := MapApartment(a).value;
    MappedStoredPhotos(a);
    var stored := Items(Field(v, "existingMedia"));
    var images := Get(a, "building_images");
    if images.Arr? {
      assert Items(images) == images.items;
      assert forall i :: 0 <= i < |stored| ==> Get(stored[i], "url") == images.items[i];
    } else {
      assert stored == [];
    }
    assert StringUrls(stored);
    KeepingAllDeletesNone(stored);
  }

  /** The wizard's starting values: the loaded ones, or the blank form (`initial || initialValues`). */
  function FormValues(initial: Option<Record>): (v: Record)
    ensures initial.None? ==> v == InitialValues()
    ensures initial.Some? ==> v == initial.value
  {
    initial.GetOr(InitialValues())
  }

  /** The load, through the store's `fetchApartmentById(Number(id))`, which never throws: a
      failed request and a bad id both give back a falsy value, and the screen then keeps no
      starting values. Only the conversion can throw, which shows the error and goes back. */
  function Load(s: ApartmentStore.State, id: Value, resp: ApartmentStore.Response): (r: (ApartmentStore.State, Loaded))
    requires IsEditing(id)
    ensures r.0 == ApartmentStore.FetchApartmentById(s, ToNumber(id), resp).state
    ensures r.1.failed ==> r.1.initial.None?
    ensures var back := ApartmentStore.FetchApartmentById(s, ToNumber(id), resp).result.value;
      (!Truthy(back) ==> r.1 == Loaded(None, false))
      && (Truthy(back) ==> r.1 == (if MapApartment(back).Some? then Loaded(MapApartment(back), false) else Loaded(None, true)))
  {
    var st := ApartmentStore.FetchApartmentById(s, ToNumber(id), resp);
    var back := st.result.value;
    if !Truthy(back) then (st.state, Loaded(None, false))
    else match MapApartment(back)
      case None => (st.state, Loaded(None, true))
      case Some(v) => (st.state, Loaded(Some(v), false))
  }

  /** A failed request opens the blank form, still in edit mode and with no alert; the save
      will then update the building named by the route with whatever is entered. */
  lemma FailedFetchOpensBlank(s: ApartmentStore.State, id: Value, err: Value)
    requires IsEditing(id) && !ApartmentStore.BadId(ToNumber(id))
    ensures Load(s, id, ApartmentStore.Failed(err)).1 == Loaded(None, false)
    ensures FormValues(Load(s, id, ApartmentStore.Failed(err)).1.initial) == InitialValues()
    ensures Updates(true, ApartmentId(id))
  {
  }

  /** A route id that is not a number opens the blank form in edit mode, and the save creates a
      new building. */
  lemma NonNumericIdCreates(s: ApartmentStore.State, id: Value, resp: ApartmentStore.Response, createdId: Value, v: Record)
    requires IsEditing(id) && ToNumber(id).NaN?
    ensures Load(s, id, resp) == (s, Loaded(None, false))
    ensures ApartmentPlan(true, ApartmentId(id), createdId, v, None)[0] == Create(ApartmentPayload(v))
  {
    EditWithoutIdCreates(ApartmentId(id), createdId, v, None);
  }

  /** A stored building with an id and array photos opens with its values. */
  lemma StoredBuildingOpens(s: ApartmentStore.State, id: Value, data: Value)
    requires IsEditing(id) && !ApartmentStore.BadId(ToNumber(id))
    requires ApartmentStore.Identified(data) && Truthy(Get(data, "id"))
    requires Get(data, "building_images").Arr?
    ensures Load(s, id, ApartmentStore.Ok(data)).1 == Loaded(MapApartment(data), false)
    ensures MapApartment(data).Some?
  {
    assert ApartmentStore.Normalize(data) == data;
  }
}
