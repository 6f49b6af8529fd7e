/** What the property wizard's step screens do to the form values and show from them: the
    ownership step's type, purpose and agent cards, the details step's location cascade,
    selectors and room sliders, the pricing step's switches, inputs and purpose banner, and the
    rows of the final review. */
module PropertySteps {
  import opened Options
  import opened Js
  import opened Seqs
  import opened Validation
  import opened PropertySchemas
  import opened LocationCascade

  // ---------------------------------------------------------------- ownership

  /** The type cards the ownership step offers, as written. */
  const OfferedTypes: seq<string> := ["House", "Apartment", "Villa", "Commercial", "Land", "Plot"]

  /** The purpose cards: their labels map to these values. */
  const OfferedPurposes: seq<string> := ["SALE", "RENT"]

  /** Tapping a type card. */
  function SelectType(v: Record, typeName: string): (r: Record)
    ensures Field(r, "property_type") == Str(typeName)
    ensures UpdatesOnly(v, r, {"property_type"})
  {
    SetField(v, "property_type", Str(typeName))
  }

  /** A card is highlighted when the form holds exactly its value. */
  predicate CardActive(v: Record, field: string, value: string) {
    StrictEquals(Field(v, field), Str(value))
  }

  /** Tapping a purpose card. */
  function SelectPurpose(v: Record, purpose: string): (r: Record)
    requires purpose in OfferedPurposes
    ensures CardActive(r, "purpose", purpose)
    ensures OneOf(Field(r, "purpose"), Purposes)
    ensures UpdatesOnly(v, r, {"purpose"})
  {
    SetField(v, "purpose", Str(purpose))
  }

  /** As written, three of the offered cards name types no category allows: picking one
      always leaves step 1 with an error, whatever else the form holds. */
  lemma UnlistedTypeBlocks(v: Record, typeName: string)
    requires typeName in ["Apartment", "Villa", "Commercial"]
    ensures typeName in OfferedTypes
    ensures Step1Issues(SelectType(v, typeName)) != []
  {
    assert "Villa" !in NormalTypes() by {
      assert "Villa"[0] != "House"[0];
    }
    var r := SelectType(v, typeName);
    var c := Field(r, "property_category");
    if OneOf(c, Categories) {
      assert Truthy(c);
      assert typeName !in CategoryTypes(c.s).value;
      assert !TypeAllowed(c, Str(typeName));
    }
  }

  /** The type cards for the chosen category: its allow-list (the widest one for a value that
      is not a category). */
  function OfferedTypesFor(category: Value): (r: seq<string>)
    ensures OneOf(category, Categories) ==> r == CategoryTypes(category.s).value
    ensures forall t :: t in r ==> t in NormalTypes()
  {
    CategoryTypes(StringOf(category)).GetOr(NormalTypes())
  }

  /** With the cards drawn from the category's allow-list, every card passes the type test of
      step 1 for a form whose category is valid. */
  lemma OfferedTypesForPass(v: Record, typeName: string)
    requires OneOf(Field(v, "property_category"), Categories)
    requires typeName in OfferedTypesFor(Field(v, "property_category"))
    ensures "property_type" !in PathsOf(Step1Issues(SelectType(v, typeName)))
  {
    var r := SelectType(v, typeName);
    assert Field(r, "property_category") == Field(v, "property_category");
    assert typeName != "";
    Step1TypePath(r);
  }

  /** An agent as the agent list holds it. */
  datatype Agent = Agent(userId: Value, fullName: Value)

  /** Tapping "No Agent". */
  function SelectNoAgent(v: Record): (r: Record)
    ensures NoAgentActive(r)
    ensures UpdatesOnly(v, r, {"agent_id"})
  {
    SetField(v, "agent_id", Str(""))
  }

  /** Tapping an agent's card stores the agent's id as a string. */
  function SelectAgent(v: Record, a: Agent): (r: Record)
    ensures Field(r, "agent_id") == Str(StringOf(a.userId))
    ensures UpdatesOnly(v, r, {"agent_id"})
  {
    SetField(v, "agent_id", Str(StringOf(a.userId)))
  }

  /** "No Agent" is highlighted while no agent is chosen. */
  predicate NoAgentActive(v: Record) {
    !Truthy(Field(v, "agent_id"))
  }

  /** An agent's card is highlighted while the form holds its id as a string. */
  predicate AgentActive(v: Record, a: Agent) {
    StrictEquals(Field(v, "agent_id"), Str(StringOf(a.userId)))
  }

  /** Distinct integers render as distinct strings. */
  lemma IntToStringInjective(x: int, y: int)
    requires IntToString(x) == IntToString(y)
    ensures x == y
  {
    IntStringRoundTrip(x);
    IntStringRoundTrip(y);
  }

  /** With numeric ids, choosing an agent highlights that agent's card alone. */
  lemma SelectAgentHighlightsOne(v: Record, a: Agent, b: Agent)
    requires a.userId.Num? && b.userId.Num?
    ensures AgentActive(SelectAgent(v, a), a)
    ensures !NoAgentActive(SelectAgent(v, a))
    ensures AgentActive(SelectAgent(v, a), b) <==> b.userId == a.userId
  {
    if AgentActive(SelectAgent(v, a), b) {
      IntToStringInjective(a.userId.n, b.userId.n);
    }
  }

  // ---------------------------------------------------------------- details: selectors, sliders

  /** An option of a location selector. */
  datatype Choice = Choice(id: Value, name: string)

  /** `options.find(opt => String(opt.id) === String(value))` */
  function SelectedChoice(options: seq<Choice>, value: Value): (r: Option<Choice>)
    ensures r.Some? <==> exists i :: 0 <= i < |options| && StringOf(options[i].id) == StringOf(value)
    ensures r.Some? ==> r.value in options && StringOf(r.value.id) == StringOf(value)
  {
    match FirstIndex(options, (c: Choice) => StringOf(c.id) == StringOf(value))
    case Some(i) => Some(options[i])
    case None => None
  }

  /** The selector's text: the chosen option's name, or the placeholder when no option matches. */
  function SelectorText(options: seq<Choice>, value: Value, placeholder: string): (t: string)
    ensures (forall i :: 0 <= i < |options| ==> StringOf(options[i].id) != StringOf(value)) ==> t == placeholder
  {
    match SelectedChoice(options, value)
    case Some(c) => c.name
    case None => placeholder
  }

  /** When the options' ids read as distinct strings, choosing an option shows its name. */
  lemma ChosenOptionShown(options: seq<Choice>, k: nat, placeholder: string)
    requires k < |options|
    requires forall i, j :: 0 <= i < j < |options| ==> StringOf(options[i].id) != StringOf(options[j].id)
    ensures SelectorText(options, options[k].id, placeholder) == options[k].name
  {
    var c := SelectedChoice(options, options[k].id);
    assert c.Some?;
  }

  /** A numeric id stored as its string, as the edit screen stores it, selects the option with
      that id. */
  lemma StringIdSelectsNumericOption(options: seq<Choice>, n: int, i: nat)
    requires i < |options| && options[i].id == Num(n)
    ensures SelectedChoice(options, Str(IntToString(n))).Some?
    ensures SelectedChoice(options, Str(IntToString(n))).value.id == Num(n)
      || StringOf(SelectedChoice(options, Str(IntToString(n))).value.id) == IntToString(n)
  {
    assert StringOf(options[i].id) == StringOf(Str(IntToString(n)));
  }

  /** Whether the type is a plot, whose rooms are not asked for. */
  predicate IsPlot(v: Record) {
    var t := Field(v, "property_type");
    t.Str? && t.s != "" && ToLower(t.s) == "plot"
  }

  /** Choosing the type decides whether the room sliders are shown, ignoring case. */
  lemma SlidersFollowType(v: Record, typeName: string)
    ensures !IsPlot(SelectType(v, typeName)) <==> ToLower(typeName) != "plot"
    ensures IsPlot(SelectType(v, "Plot")) && !IsPlot(SelectType(v, "House"))
  {
    assert ToLower("Plot") == "plot";
    assert ToLower("House")[0] == 'h';
  }

  const SliderMax: nat := 10

  /** The room sliders use the default maximum: the badge they show agrees with the review's
      room row for every count but zero, which the review shows as "N/A". */
  lemma SliderAndReviewAgree(n: nat)
    requires n <= SliderMax
    ensures n != 0 ==> SliderBadge(Num(n), SliderMax) == InfoText(RoomValue(Num(n)))
    ensures SliderBadge(Num(SliderMax), SliderMax) == "10+"
  {
    RoomRowText(n);
    assert IntToString(10) == "10" by {
      assert NatToString(10) == NatToString(1) + [DigitChar(0)];
    }
  }

  /** The slider's choices, 0 to `max`. */
  function SliderChoices(max: nat): (r: seq<nat>)
    ensures |r| == max + 1
    ensures forall i :: 0 <= i <= max ==> r[i] == i
  {
    seq(max + 1, i => i)
  }

  /** A slider label: the top choice reads `max+`. */
  function SliderLabel(num: int, max: nat): (t: string)
    ensures num == max ==> t == IntToString(max) + "+"
    ensures num != max ==> t == IntToString(num)
  {
    if num == max then IntToString(max) + "+" else IntToString(num)
  }

  /** The slider's badge for the stored value. */
  function SliderBadge(value: Value, max: nat): (t: string)
    ensures value == Num(max) ==> t == IntToString(max) + "+"
    ensures value.Num? && value.n != max ==> t == IntToString(value.n)
  {
    if StrictEquals(value, Num(max)) then IntToString(max) + "+" else StringOf(value)
  }

  /** Every choice's label is distinct from every other's. */
  lemma SliderLabelsDistinct(max: nat, a: nat, b: nat)
    requires a <= max && b <= max && a != b
    ensures SliderLabel(a, max) != SliderLabel(b, max)
  {
    if a == max {
      var t := SliderLabel(a, max);
      assert t[|t| - 1] == '+';
      assert AllDigits(IntToString(b));
    } else if b == max {
      var t := SliderLabel(b, max);
      assert t[|t| - 1] == '+';
      assert AllDigits(IntToString(a));
    } else {
      if SliderLabel(a, max) == SliderLabel(b, max) {
        IntToStringInjective(a, b);
      }
    }
  }

  /** Picking a slider choice stores the number. */
  function PickRooms(v: Record, field: string, n: nat): (r: Record)
    requires field in {"bedrooms", "bathrooms"}
    ensures Field(r, field) == Num(n)
    ensures UpdatesOnly(v, r, {field})
  {
    SetField(v, field, Num(n))
  }

  // ---------------------------------------------------------------- pricing

  /** Flipping the sale or rent switch writes only the flag; the price stays. */
  function SetAvailability(v: Record, flag: string, on: bool): (r: Record)
    requires flag in {"is_available_for_sale", "is_available_for_rent"}
    ensures Truthy(Field(r, flag)) <==> on
    ensures UpdatesOnly(v, r, {flag})
  {
    SetField(v, flag, Bool(on))
  }

  /** Typing into a price input stores the text verbatim. */
  function EnterPrice(v: Record, field: string, text: string): (r: Record)
    requires field in {"sale_price", "rent_price"}
    ensures Field(r, field) == Str(text)
    ensures UpdatesOnly(v, r, {field})
  {
    SetField(v, field, Str(text))
  }

  /** A price input is shown while its switch is on. */
  predicate PriceInputShown(v: Record, flag: string) {
    Truthy(Field(v, flag))
  }

  /** The text a price input shows for the stored price. */
  function PriceInputText(price: Value): (t: string)
    ensures !Truthy(price) ==> t == ""
  {
    if Truthy(price) then StringOf(price) else ""
  }

  /** The input shows back exactly what was typed, and switching the price off and on again
      shows it unchanged. */
  lemma PriceInputRoundTrip(v: Record, flag: string, field: string, text: string)
    requires flag in {"is_available_for_sale", "is_available_for_rent"}
    requires field in {"sale_price", "rent_price"}
    ensures PriceInputText(Field(EnterPrice(v, field, text), field)) == text
    ensures var w := SetAvailability(SetAvailability(EnterPrice(v, field, text), flag, false), flag, true);
      PriceInputShown(w, flag) && PriceInputText(Field(w, field)) == text
  {
    var w0 := EnterPrice(v, field, text);
    assert flag != field by {
      assert |flag| > 20 && |field| == 10;
    }
    var w := SetAvailability(SetAvailability(w0, flag, false), flag, true);
    assert Field(w, field) == Str(text);
  }

  /** The banner under the switches: the `atLeastOnePurpose` error, when there is one. */
  function PurposeBanner(errors: map<string, string>): (b: Option<string>)
    ensures b.Some? <==> "atLeastOnePurpose" in errors && errors["atLeastOnePurpose"] != ""
  {
    if "atLeastOnePurpose" in errors && errors["atLeastOnePurpose"] != "" then Some(errors["atLeastOnePurpose"])
    else None
  }

  /** As written, the banner never appears: the purpose test's issue has no path. */
  lemma PurposeBannerNeverShown(v: Record, base: BaseRules)
    ensures PurposeBanner(FormErrors(Step4IssuesAsWritten(v, base))).None?
  {
    PurposeTestNeverBlocks(v, base);
  }

  /** With the purpose test reported under `atLeastOnePurpose`, the banner appears, with the
      test's message, exactly when neither switch is on. */
  lemma PurposeBannerIffNoPurpose(v: Record, base: BaseRules)
    ensures PurposeBanner(FormErrors(Step4Issues(v, base))) ==
      if HasPurpose(v) then None else Some(PurposeMessage)
  {
    TrailingFieldMessage(Step4FieldIssues(v, base), !HasPurpose(v), "atLeastOnePurpose", PurposeMessage);
  }

  // ---------------------------------------------------------------- review

  /** The review's sections, in display order; each has an Edit link. */
  datatype Section = TypeAndAgent | Details | MapLocation | Pricing | Media | Amenities

  /** The step index each Edit link jumps to, as written: fixed positions in the seven-step
      list. */
  function EditIndexAsWritten(s: Section): (i: nat)
    ensures i < 6
  {
    match s
    case TypeAndAgent => 0
    case Details => 1
    case MapLocation => 2
    case Pricing => 3
    case Media => 4
    case Amenities => 5
  }

  /** `value || 'N/A'`: the text of an info row; React renders `true` as nothing. */
  function InfoText(x: Value): (t: string)
    ensures !Truthy(x) ==> t == "N/A"
    ensures Truthy(x) && (x.Str? || x.Num?) ==> t != ""
    ensures x.Str? && Truthy(x) ==> t == x.s
    ensures x == Bool(true) ==> t == ""
  {
    if !Truthy(x) then "N/A" else if x.Bool? then "" else StringOf(x)
  }

  /** A room count of exactly 10 reads `10+`. */
  function RoomValue(x: Value): Value {
    if StrictEquals(x, Num(10)) then Str("10+") else x
  }

  /** The text of a room row for a numeric count: `10+` for ten, `N/A` for zero, the digits
      otherwise. */
  lemma RoomRowText(n: int)
    ensures InfoText(RoomValue(Num(n))) ==
      if n == 10 then "10+" else if n == 0 then "N/A" else IntToString(n)
  {
  }

  /** The agent row: the name of the first listed agent whose id, as a string, is the stored
      one, or "Direct Listing". */
  function AgentName(agents: seq<Agent>, v: Record): Value {
    match FirstIndex(agents, (a: Agent) => StrictEquals(Str(StringOf(a.userId)), Field(v, "agent_id")))
    case Some(i) => Or(agents[i].fullName, Str("Direct Listing"))
    case None => Str("Direct Listing")
  }

  /** The review's agent row names the agent chosen on the ownership step, when the ids are
      distinct numbers. */
  lemma ReviewAgentRow(agents: seq<Agent>, v: Record, k: nat)
    requires k < |agents|
    requires forall i :: 0 <= i < |agents| ==> agents[i].userId.Num?
    requires forall i, j :: 0 <= i < j < |agents| ==> agents[i].userId != agents[j].userId
    requires agents[k].fullName.Str? && agents[k].fullName.s != ""
    ensures OwnershipRows(SelectAgent(v, agents[k]), agents)[2] == Row("Agent", agents[k].fullName.s)
  {
    ReviewNamesChosenAgent(agents, v, k);
  }

  /** Choosing a listed agent on the ownership step makes the review name that agent, when the
      ids are distinct numbers. */
  lemma ReviewNamesChosenAgent(agents: seq<Agent>, v: Record, k: nat)
    requires k < |agents|
    requires forall i :: 0 <= i < |agents| ==> agents[i].userId.Num?
    requires forall i, j :: 0 <= i < j < |agents| ==> agents[i].userId != agents[j].userId
    ensures AgentName(agents, SelectAgent(v, agents[k])) == Or(agents[k].fullName, Str("Direct Listing"))
  {
    var w := SelectAgent(v, agents[k]);
    var p := (a: Agent) => StrictEquals(Str(StringOf(a.userId)), Field(w, "agent_id"));
    assert p(agents[k]);
    match FirstIndex(agents, p)
    case Some(i) =>
      if i != k {
        IntToStringInjective(agents[i].userId.n, agents[k].userId.n);
      }
    case None =>
  }

  /** A labelled info row. */
  datatype Row = Row(caption: string, text: string)

  /** `n.toFixed(6)` for an integer coordinate. */
  function Fixed6(n: int): string {
    IntToString(n) + ".000000"
  }

  /** A coordinate badge: the value to six decimals, or "Not set". */
  function CoordText(x: Value): (t: string)
    ensures !Truthy(x) ==> t == "Not set"
    ensures x.Num? && x.n != 0 ==> t == Fixed6(x.n)
  {
    if !Truthy(x) then "Not set" else if x.Num? then Fixed6(x.n) else StringOf(x)
  }

  /** The type-and-agent section: the type and purpose as stored, and the agent's name. */
  function OwnershipRows(v: Record, agents: seq<Agent>): (rows: seq<Row>)
    ensures |rows| == 3
    ensures rows[0].caption == "Property Type" && rows[1].caption == "Purpose" && rows[2].caption == "Agent"
    ensures OneOf(Field(v, "purpose"), Purposes) ==> rows[1].text == Field(v, "purpose").s
    ensures !Truthy(Field(v, "property_type")) ==> rows[0].text == "N/A"
    ensures rows[2].text == InfoText(AgentName(agents, v))
  {
    [Row("Property Type", InfoText(Field(v, "property_type"))),
     Row("Purpose", InfoText(Field(v, "purpose"))),
     Row("Agent", InfoText(AgentName(agents, v)))]
  }

  /** The review shows room rows unless the type reads `plot` in any case. */
  predicate ReviewShowsRooms(v: Record) {
    var t := Field(v, "property_type");
    !(t.Str? && ToLower(t.s) == "plot")
  }

  /** The details section: title, area, the two room rows unless the type is a plot, and the
      address. */
  function DetailsRows(v: Record): (rows: seq<Row>)
    ensures |rows| == if ReviewShowsRooms(v) then 5 else 3
    ensures rows[0].caption == "Title" && rows[|rows| - 1].caption == "Location"
    ensures ReviewShowsRooms(v) ==> rows[2] == Row("Bedrooms", InfoText(RoomValue(Field(v, "bedrooms"))))
  {
    [Row("Title", InfoText(Field(v, "title"))),
     Row("Area Size", StringOf(Field(v, "area_size")) + " Sq. Ft.")]
    + (if ReviewShowsRooms(v) then
         [Row("Bedrooms", InfoText(RoomValue(Field(v, "bedrooms")))),
          Row("Bathrooms", InfoText(RoomValue(Field(v, "bathrooms"))))]
       else [])
    + [Row("Location", InfoText(Field(v, "location")))]
  }

  /** The review and the details step agree on plots: the sliders are hidden exactly when the
      room rows are, for every non-empty string type. */
  lemma PlotAgreement(v: Record)
    requires Field(v, "property_type").Str? && Field(v, "property_type").s != ""
    ensures IsPlot(v) <==> !ReviewShowsRooms(v)
  {
  }

  /** The pricing section: a sale row while the sale switch is on, a rent row while the rent
      switch is on. */
  function PricingRows(v: Record): (rows: seq<Row>)
    ensures |rows| == (if Truthy(Field(v, "is_available_for_sale")) then 1 else 0)
                    + (if Truthy(Field(v, "is_available_for_rent")) then 1 else 0)
    ensures Truthy(Field(v, "is_available_for_sale")) ==>
      rows[0] == Row("Sale Price", "Rs " + StringOf(Field(v, "sale_price")))
  {
    (if Truthy(Field(v, "is_available_for_sale")) then [Row("Sale Price", "Rs " + StringOf(Field(v, "sale_price")))] else [])
    + (if Truthy(Field(v, "is_available_for_rent")) then [Row("Rent Price", "Rs " + StringOf(Field(v, "rent_price")) + " / month")] else [])
  }

  /** The map section's two badges: a coordinate that is a number reads "Not set" exactly when
      it is zero. */
  function MapRows(v: Record): (rows: seq<Row>)
    ensures |rows| == 2 && rows[0].caption == "Lat" && rows[1].caption == "Lng"
    ensures Field(v, "latitude").Num? ==> (rows[0].text == "Not set" <==> Field(v, "latitude").n == 0)
    ensures Field(v, "longitude").Num? ==> (rows[1].text == "Not set" <==> Field(v, "longitude").n == 0)
  {
    Fixed6NotPlaceholder(Field(v, "latitude"));
    Fixed6NotPlaceholder(Field(v, "longitude"));
    [Row("Lat", CoordText(Field(v, "latitude"))), Row("Lng", CoordText(Field(v, "longitude")))]
  }

  /** A coordinate's six-decimal text is never the placeholder. */
  lemma Fixed6NotPlaceholder(x: Value)
    ensures x.Num? ==> Fixed6(x.n) != "Not set"
  {
    if x.Num? {
      var t := Fixed6(x.n);
      assert t[|t| - 1] == '0';
    }
  }

  /** The "No media uploaded" note: `media.length === 0 && existingMedia?.length === 0`. It shows
      only on a form with no new and no stored files, which the corrected media schema rejects,
      and it is hidden when the stored list is missing. */
  function NoMediaNote(v: Record): (shown: bool)
    ensures shown ==> Items(Field(v, "media")) == [] && Items(Field(v, "existingMedia")) == []
    ensures shown ==> "media" in PathsOf(Step5Issues(v))
    ensures Field(v, "media") == Arr([]) && Field(v, "existingMedia") == Arr([]) ==> shown
    ensures !(Field(v, "existingMedia").Arr? || Field(v, "existingMedia").Str?) ==> !shown
  {
    var m := Field(v, "media");
    var e := Field(v, "existingMedia");
    (m.Arr? || m.Str?) && LengthOrZero(m) == 0 && (e.Arr? || e.Str?) && LengthOrZero(e) == 0
  }

  /** Choosing a province or a district leaves the map badges as they were. */
  lemma MapRowsKeptByLocationChoices(v: Record, id: Value)
    ensures MapRows(ChooseProvince(v, id)) == MapRows(v)
    ensures MapRows(ChooseDistrict(v, id)) == MapRows(v)
  {
    var p := ChooseProvince(v, id);
    var d := ChooseDistrict(v, id);
    assert Field(p, "latitude") == Field(v, "latitude") && Field(p, "longitude") == Field(v, "longitude");
    assert Field(d, "latitude") == Field(v, "latitude") && Field(d, "longitude") == Field(v, "longitude");
  }

  /** The amenity chips, or none when the list is missing or empty. */
  function AmenityChips(v: Record): (chips: seq<Value>)
    ensures Field(v, "amenities").Arr? ==> chips == Field(v, "amenities").items
    ensures !Field(v, "amenities").Arr? ==> chips == []
  {
    Items(Field(v, "amenities"))
  }
}
