/** What the apartment wizard's screens write into the form: the address, the facility toggles
    and the other-facilities text, the picked photos, and the removal of new and stored photos;
    and when the photos screen shows its error. The image picker and the file-size check are
    inputs. */
module ApartmentSteps {
  import opened Options
  import opened Js
  import opened Seqs
  import opened Validation
  import opened ApartmentSchemas
  import opened LocationCascade
  import opened Submission

  // ---------------------------------------------------------------- location

  /** Typing the address stores the raw text. */
  function EnterAddress(v: Record, text: string): (r: Record)
    ensures Field(r, "address") == Str(text)
    ensures UpdatesOnly(v, r, {"address"})
  {
    SetField(v, "address", Str(text))
  }

  /** The address requirement of the location step holds exactly when something was typed. */
  lemma AddressRequirement(v: Record, text: string)
    ensures RequiredString(Field(EnterAddress(v, text), "address")) <==> text != ""
  {
  }

  /** Choosing a province, a district and an area, in that order, and typing an address passes
      the location step whenever the chosen ids are non-empty text and the coordinates are
      numbers or absent. */
  lemma ChosenLocationPasses(v: Record, province: string, district: string, area: string, text: string)
    requires province != "" && district != "" && area != "" && text != ""
    requires NullableNumber(Field(v, "latitude")) && NullableNumber(Field(v, "longitude"))
    ensures Step2Issues(EnterAddress(ChooseArea(ChooseDistrict(ChooseProvince(v, Str(province)), Str(district)), Str(area)), text)) == []
  {
    var c := ChooseArea(ChooseDistrict(ChooseProvince(v, Str(province)), Str(district)), Str(area));
    ChoicesStored(v, province, district, area);
    AddressKeepsLocation(c, text);
    LocationStepPasses(EnterAddress(c, text));
  }

  /** The three choices are stored, and the coordinates kept. */
  lemma ChoicesStored(v: Record, province: string, district: string, area: string)
    requires province != "" && district != ""
    ensures var c := ChooseArea(ChooseDistrict(ChooseProvince(v, Str(province)), Str(district)), Str(area));
      Field(c, "province_id") == Str(province) && Field(c, "district_id") == Str(district)
      && Field(c, "area_id") == Str(area)
      && Field(c, "latitude") == Field(v, "latitude") && Field(c, "longitude") == Field(v, "longitude")
  {
    LocationKeysDistinct();
    var a := ChooseProvince(v, Str(province));
    var b := ChooseDistrict(a, Str(district));
    var c := ChooseArea(b, Str(area));
    assert Field(b, "province_id") == Str(province) && Field(b, "district_id") == Str(district);
    assert Field(c, "province_id") == Str(province) && Field(c, "district_id") == Str(district);
    CoordinatesKept(v, a, b, c);
  }

  /** The location choices leave the coordinates alone. */
  lemma CoordinatesKept(v: Record, a: Record, b: Record, c: Record)
    requires UpdatesOnly(v, a, {"province_id", "district_id", "area_id"})
    requires UpdatesOnly(a, b, {"district_id", "area_id"}) && UpdatesOnly(b, c, {"area_id"})
    ensures Field(c, "latitude") == Field(v, "latitude") && Field(c, "longitude") == Field(v, "longitude")
  {
    assert "latitude" !in {"province_id", "district_id", "area_id"};
    assert "longitude" !in {"province_id", "district_id", "area_id"};
  }

  /** Typing the address leaves the location ids and coordinates alone. */
  lemma AddressKeepsLocation(c: Record, text: string)
    ensures forall k :: k in ["province_id", "district_id", "area_id", "latitude", "longitude"] ==>
      Field(EnterAddress(c, text), k) == Field(c, k)
  {
    assert "address" !in ["province_id", "district_id", "area_id", "latitude", "longitude"];
  }

  /** The location step's verdict from the six fields it reads. */
  lemma LocationStepPasses(d: Record)
    requires RequiredString(Field(d, "province_id")) && RequiredString(Field(d, "district_id"))
    requires RequiredString(Field(d, "area_id")) && RequiredString(Field(d, "address"))
    requires NullableNumber(Field(d, "latitude")) && NullableNumber(Field(d, "longitude"))
    ensures Step2Issues(d) == []
  {
  }

  // ---------------------------------------------------------------- facilities

  /** `setFieldValue('facilities.<key>', x)` on a form whose `facilities` is an object. */
  function SetFacility(v: Record, key: string, x: Value): (r: Record)
    requires Field(v, "facilities").Obj?
    ensures UpdatesOnly(v, r, {"facilities"})
    ensures Field(r, "facilities").Obj? && Get(Field(r, "facilities"), key) == x
    ensures forall k :: k != key ==> Get(Field(r, "facilities"), k) == Get(Field(v, "facilities"), k)
  {
    var f := Field(v, "facilities");
    SetField(v, "facilities", Obj(f.fields[key := x]))
  }

  /** A facility card's press: `onToggle(!value)`, written to that facility's key. The screen
      reads `values.facilities.<key>` while rendering, so `facilities` is an object. */
  function ToggleFacility(v: Record, f: Facility): (r: Record)
    requires Field(v, "facilities").Obj?
    ensures UpdatesOnly(v, r, {"facilities"}) && Field(r, "facilities").Obj?
    ensures Get(Field(r, "facilities"), FacilityKey(f)).Bool?
    ensures Truthy(Get(Field(r, "facilities"), FacilityKey(f))) <==> !Truthy(Get(Field(v, "facilities"), FacilityKey(f)))
    ensures forall g :: g != f ==> Get(Field(r, "facilities"), FacilityKey(g)) == Get(Field(v, "facilities"), FacilityKey(g))
    ensures Get(Field(r, "facilities"), "others") == Get(Field(v, "facilities"), "others")
  {
    FacilityKeysDistinctAll(f);
    SetFacility(v, FacilityKey(f), Bool(!Truthy(Get(Field(v, "facilities"), FacilityKey(f)))))
  }

  lemma FacilityKeysDistinctAll(f: Facility)
    ensures forall g :: g != f ==> FacilityKey(g) != FacilityKey(f)
  {
    forall g | g != f
      ensures FacilityKey(g) != FacilityKey(f)
    {
      FacilityKeysDistinct(f, g);
    }
  }

  /** Pressing a card twice restores the facility: a stored boolean exactly, any other stored
      value up to truthiness. */
  lemma {:induction false} ToggleTwiceRestores(v: Record, f: Facility)
    requires Field(v, "facilities").Obj?
    ensures Truthy(Get(Field(ToggleFacility(ToggleFacility(v, f), f), "facilities"), FacilityKey(f)))
      == Truthy(Get(Field(v, "facilities"), FacilityKey(f)))
    ensures Get(Field(v, "facilities"), FacilityKey(f)).Bool? ==>
      Get(Field(ToggleFacility(ToggleFacility(v, f), f), "facilities"), FacilityKey(f)) == Get(Field(v, "facilities"), FacilityKey(f))
  {
    var once := ToggleFacility(v, f);
    var twice := ToggleFacility(once, f);
    assert Truthy(Get(Field(once, "facilities"), FacilityKey(f))) == !Truthy(Get(Field(v, "facilities"), FacilityKey(f)));
    assert Truthy(Get(Field(twice, "facilities"), FacilityKey(f))) == !Truthy(Get(Field(once, "facilities"), FacilityKey(f)));
  }

  /** Typing in the other-facilities input writes `facilities.others` only. */
  function EnterOtherFacilities(v: Record, text: string): (r: Record)
    requires Field(v, "facilities").Obj?
    ensures UpdatesOnly(v, r, {"facilities"}) && Field(r, "facilities").Obj?
    ensures Get(Field(r, "facilities"), "others") == Str(text)
    ensures forall g: Facility :: Get(Field(r, "facilities"), FacilityKey(g)) == Get(Field(v, "facilities"), FacilityKey(g))
  {
    SetFacility(v, "others", Str(text))
  }

  /** Nothing on the facilities screen can make its step fail: pressing a card or typing the
      other facilities keeps a passing step passing. */
  lemma FacilitiesEditsKeepStepValid(v: Record, f: Facility, text: string)
    requires Field(v, "facilities").Obj? && Step3Issues(v) == []
    ensures Step3Issues(ToggleFacility(v, f)) == []
    ensures Step3Issues(EnterOtherFacilities(v, text)) == []
  {
    var a := Field(ToggleFacility(v, f), "facilities");
    assert forall g: Facility :: OptionalBoolean(Get(a, FacilityKey(g))) by {
      forall g: Facility ensures OptionalBoolean(Get(a, FacilityKey(g))) {
        if g != f {
          assert Get(a, FacilityKey(g)) == Get(Field(v, "facilities"), FacilityKey(g));
        }
      }
    }
    var b := Field(EnterOtherFacilities(v, text), "facilities");
    assert forall g: Facility :: OptionalBoolean(Get(b, FacilityKey(g)));
  }

  // ---------------------------------------------------------------- photos

  /** One asset the picker returns: its uri, file name and mime type as given, whether it passes
      the 10 MB size check, and the clock reading `Date.now()` gives while it is processed. */
  datatype Asset = Asset(uri: Value, fileName: Value, mimeType: Value, fitsSize: bool, clock: int)

  /** What the picker returns: a cancellation, or the chosen assets in pick order. */
  datatype PickResult = Cancelled | Picked(assets: seq<Asset>)

  /** The new-file item made from an asset, with `img_<time>.jpg` for a missing name and
      `image/jpeg` for a missing type. */
  function NewFile(a: Asset): (r: Value)
    ensures Get(r, "uri") == a.uri
    ensures Truthy(Get(r, "name")) && Truthy(Get(r, "mimeType"))
    ensures Truthy(a.fileName) ==> Get(r, "name") == a.fileName
    ensures Truthy(a.mimeType) ==> Get(r, "mimeType") == a.mimeType
  {
    Obj(map[
      "uri" := a.uri,
      "name" := Or(a.fileName, Str("img_" + IntToString(a.clock) + ".jpg")),
      "mimeType" := Or(a.mimeType, Str("image/jpeg"))])
  }

  /** The new files made from the assets that pass the size check, in pick order. */
  function Accepted(assets: seq<Asset>): (r: seq<Value>)
    ensures var kept := Filter(assets, (a: Asset) => a.fitsSize);
      |r| == |kept| && forall i :: 0 <= i < |r| ==> r[i] == NewFile(kept[i])
  {
    var kept := Filter(assets, (a: Asset) => a.fitsSize);
    seq(|kept|, i requires 0 <= i < |kept| => NewFile(kept[i]))
  }

  /** When every asset passes the size check, each one becomes a new file, in pick order. */
  lemma AllFitAllAccepted(assets: seq<Asset>)
    requires forall i :: 0 <= i < |assets| ==> assets[i].fitsSize
    ensures |Accepted(assets)| == |assets|
    ensures forall i :: 0 <= i < |assets| ==> Accepted(assets)[i] == NewFile(assets[i])
  {
    FilterAll(assets, (a: Asset) => a.fitsSize);
  }

  /** `handlePickImages`: a cancelled pick changes nothing; otherwise the accepted files are
      appended after the new files already in the form. The screen lists `values.media` while
      rendering, so it is an array. */
  function HandlePick(v: Record, pick: PickResult): (r: Record)
    requires Field(v, "media").Arr?
    ensures pick.Cancelled? ==> r == v
    ensures UpdatesOnly(v, r, {"media"}) && Field(r, "media").Arr?
    ensures pick.Picked? ==> Items(Field(r, "media")) == Items(Field(v, "media")) + Accepted(pick.assets)
    ensures |Items(Field(r, "media"))| <= |Items(Field(v, "media"))| + (if pick.Picked? then |pick.assets| else 0)
  {
    match pick
    case Cancelled => v
    case Picked(assets) => SetField(v, "media", Arr(Items(Field(v, "media")) + Accepted(assets)))
  }

  /** Picking keeps what was there: the earlier new files stay first and in order. */
  lemma PickKeepsEarlierFiles(v: Record, pick: PickResult)
    requires Field(v, "media").Arr?
    ensures var before := Items(Field(v, "media"));
      |before| <= |Items(Field(HandlePick(v, pick), "media"))|
      && Items(Field(HandlePick(v, pick), "media"))[..|before|] == before
  {
  }

  /** `removeMedia(index)`: the new files without the one at `index`. */
  function RemoveMedia(v: Record, index: int): (r: Record)
    requires Field(v, "media").Arr?
    ensures UpdatesOnly(v, r, {"media"}) && Field(r, "media").Arr?
    ensures Items(Field(r, "media")) == RemoveAt(Items(Field(v, "media")), index)
  {
    SetField(v, "media", Arr(RemoveAt(Items(Field(v, "media")), index)))
  }

  /** The stored files the screen lists: `values.existingMedia || []`. Listing them maps over
      that value, so it is an array or falsy. */
  predicate StoredListable(v: Record) {
    !Truthy(Field(v, "existingMedia")) || Field(v, "existingMedia").Arr?
  }

  /** `removeExistingMedia(index)`: the stored files without the one at `index`, missing stored
      files counting as none. */
  function RemoveExistingMedia(v: Record, index: int): (r: Record)
    requires StoredListable(v)
    ensures UpdatesOnly(v, r, {"existingMedia"}) && Field(r, "existingMedia").Arr?
    ensures Items(Field(r, "existingMedia")) == RemoveAt(Items(Field(v, "existingMedia")), index)
  {
    SetField(v, "existingMedia", Arr(RemoveAt(Items(Or(Field(v, "existingMedia"), Arr([]))), index)))
  }

  /** Removing exactly one new file shortens the list by one and keeps the others in order. */
  lemma RemoveMediaDropsOne(v: Record, index: int)
    requires Field(v, "media").Arr? && 0 <= index < |Items(Field(v, "media"))|
    ensures var before := Items(Field(v, "media"));
      var after := Items(Field(RemoveMedia(v, index), "media"));
      |after| == |before| - 1 && after == before[..index] + before[index + 1..]
  {
    var before := Items(Field(v, "media"));
    var after := Items(Field(RemoveMedia(v, index), "media"));
    assert after == before[..index] + before[index + 1..];
  }

  /** Removing one stored file on the photos screen, when the stored files carry distinct urls,
      makes Finalize delete exactly that file. */
  lemma RemovedStoredFileIsDeleted(v: Record, k: nat)
    requires Field(v, "existingMedia").Arr? && k < |Items(Field(v, "existingMedia"))|
    requires DistinctUrls(Items(Field(v, "existingMedia")))
    ensures var stored := Items(Field(v, "existingMedia"));
      DeletedMedia(stored, Items(Field(RemoveExistingMedia(v, k), "existingMedia"))) == [stored[k]]
  {
    RemovingOneDeletesIt(Items(Field(v, "existingMedia")), k);
  }

  /** The photos screen's error box: the `media` error, once touched, and only while there are
      no stored files. */
  predicate MediaErrorShown(v: Record, touched: map<string, bool>, errors: map<string, string>) {
    "media" in touched && touched["media"] && "media" in errors && errors["media"] != ""
    && LengthOrZero(Field(v, "existingMedia")) == 0
  }

  /** With stored files and no new file, the photos rule fails but its error is never shown. */
  lemma StoredFilesHideFailingRule(v: Record, touched: map<string, bool>)
    requires Field(v, "media") == Arr([]) && Field(v, "existingMedia").Arr? && Field(v, "existingMedia").items != []
    ensures Step4Issues(v) != [] && "media" in FormErrors(Step4Issues(v))
    ensures !MediaErrorShown(v, touched, FormErrors(Step4Issues(v)))
  {
    assert PathsOf(Step4Issues(v)) == {"media"};
  }

  /** Without stored files, a touched failing rule does show. */
  lemma ErrorShownWithoutStoredFiles(v: Record, touched: map<string, bool>)
    requires Field(v, "media") == Arr([]) && !Truthy(Field(v, "existingMedia")) && !Field(v, "existingMedia").Str?
    requires "media" in touched && touched["media"]
    ensures MediaErrorShown(v, touched, FormErrors(Step4Issues(v)))
  {
    assert Step4Issues(v) == [Issue(Some("media"), ImageMessage)];
  }
}
