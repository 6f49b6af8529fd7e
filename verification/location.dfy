/** The province, district and region cascade that both wizards' location screens run as
    effects: clearing a level clears the level below it. */
module LocationCascade {
  import opened Js
  import opened Navigator

  lemma LocationKeysDistinct()
    ensures "province_id" != "district_id" && "district_id" != "area_id" && "province_id" != "area_id"
  {
    assert "province_id"[0] != "district_id"[0];
  }

  /** The two effects of the location screens: an empty province clears the district, and an empty
      district clears the region. */
  function SettleLocation(v: Record): (r: Record)
    ensures UpdatesOnly(v, r, {"district_id", "area_id"})
    ensures Field(r, "province_id") == Field(v, "province_id")
    ensures !Truthy(Field(r, "province_id")) ==> Field(r, "district_id") == Str("")
    ensures !Truthy(Field(r, "district_id")) ==> Field(r, "area_id") == Str("")
    ensures Truthy(Field(v, "province_id")) ==> Field(r, "district_id") == Field(v, "district_id")
    ensures Truthy(Field(v, "province_id")) && Truthy(Field(v, "district_id")) ==> r == v
  {
    LocationKeysDistinct();
    var a := if Truthy(Field(v, "province_id")) then v else SetField(v, "district_id", Str(""));
    if Truthy(Field(a, "district_id")) then a else SetField(a, "area_id", Str(""))
  }

  /** Settling is idempotent: the effects reach a fixed point after one round. */
  lemma SettleLocationIdempotent(v: Record)
    ensures SettleLocation(SettleLocation(v)) == SettleLocation(v)
  {
    LocationKeysDistinct();
    var r := SettleLocation(v);
    if !Truthy(Field(r, "province_id")) {
      assert Field(r, "district_id") == Str("");
      assert Field(r, "area_id") == Str("");
      assert r["district_id" := Str("")] == r;
      assert r["area_id" := Str("")] == r;
    } else if !Truthy(Field(r, "district_id")) {
      assert r["area_id" := Str("")] == r;
    }
  }

  /** Choosing a province. */
  function ChooseProvince(v: Record, id: Value): (r: Record)
    ensures Field(r, "province_id") == id
    ensures UpdatesOnly(v, r, {"province_id", "district_id", "area_id"})
  {
    LocationKeysDistinct();
    SettleLocation(SetField(v, "province_id", id))
  }

  /** Switching to another non-empty province keeps the district chosen for the old one;
      clearing the province clears the district and the region. */
  lemma ProvinceChangeCascade(v: Record, id: Value)
    ensures Truthy(id) ==> Field(ChooseProvince(v, id), "district_id") == Field(v, "district_id")
    ensures !Truthy(id) ==>
      Field(ChooseProvince(v, id), "district_id") == Str("") && Field(ChooseProvince(v, id), "area_id") == Str("")
  {
    LocationKeysDistinct();
  }

  /** Choosing a district; the province is kept. */
  function ChooseDistrict(v: Record, id: Value): (r: Record)
    ensures Field(r, "province_id") == Field(v, "province_id")
    ensures Truthy(Field(v, "province_id")) ==> Field(r, "district_id") == id
    ensures UpdatesOnly(v, r, {"district_id", "area_id"})
  {
    LocationKeysDistinct();
    SettleLocation(SetField(v, "district_id", id))
  }

  /** Choosing a region under a chosen district writes only the region. */
  function ChooseArea(v: Record, id: Value): (r: Record)
    requires Truthy(Field(v, "province_id")) && Truthy(Field(v, "district_id"))
    ensures Field(r, "area_id") == id
    ensures UpdatesOnly(v, r, {"area_id"})
  {
    LocationKeysDistinct();
    SettleLocation(SetField(v, "area_id", id))
  }

  /** A location screen shows a field's error once the field is touched and has one. */
  predicate ErrorShown(touched: map<string, bool>, errors: map<string, string>, field: string) {
    field in touched && touched[field] && field in errors && errors[field] != ""
  }

  /** Before any Continue nothing is touched, so no location error shows. */
  lemma NoErrorShownAtStart(total: int, errors: map<string, string>, field: string)
    requires total > 0
    ensures !ErrorShown(Start(total).touched, errors, field)
  {
  }

  /** After a refused Continue every field with an error is touched, so a location field's
      error shows exactly when the field has a message. */
  lemma RefusedContinueShowsErrors(w: Wizard, errors: map<string, string>, field: string)
    requires |errors| > 0
    ensures ErrorShown(GoToNextStep(w, errors).wizard.touched, errors, field) <==>
      field in errors && errors[field] != ""
  {
  }
}
