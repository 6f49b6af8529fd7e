/** The property wizard's shell: which steps a draft shows, which schema validates the shown
    step, what Continue, Skip, Back and the review's Edit links do, and what Finalize sends. */
module PropertyWizard {
  import opened Options
  import opened Js
  import opened Seqs
  import opened Validation
  import opened PropertySchemas
  import opened Navigator
  import opened Submission
  import opened PropertySteps

  /** The seven screens, in the order they are declared. */
  datatype Step = Ownership | BasicInfo | LocationStep | PricingStep | MediaStep | AmenitiesStep | FinalReview

  const AllSteps: seq<Step> := [Ownership, BasicInfo, LocationStep, PricingStep, MediaStep, AmenitiesStep, FinalReview]

  /** The header title of a screen. */
  function Title(s: Step): string {
    match s
    case Ownership => "Owner & Type"
    case BasicInfo => "Basic Info"
    case LocationStep => "Location"
    case PricingStep => "Pricing"
    case MediaStep => "Media"
    case AmenitiesStep => "Amenities"
    case FinalReview => "Final Review"
  }

  /** The screens that carry a key, and so may be dropped. */
  function Key(s: Step): Option<string> {
    match s
    case LocationStep => Some("location")
    case AmenitiesStep => Some("amenities")
    case _ => None
  }

  /** A draft that belongs to a parent property or an apartment building inherits its location
      and amenities. */
  predicate IsInherited(v: Record) {
    !IsNullish(Field(v, "parent_property_id")) || !IsNullish(Field(v, "apartment_id"))
  }

  /** Whether the wizard drops a screen: an inherited draft drops the screens keyed
      `location` and `amenities`, which are the only keyed ones. */
  predicate Dropped(inherited: bool, s: Step) {
    inherited && Key(s).Some?
  }

  /** The screens the wizard shows for a draft, in declaration order. The wizard filters on the
      starting values (`initial || initialValues`); the model passes the current values, which
      agree with them here because no screen writes `parent_property_id` or `apartment_id`. */
  function Steps(v: Record): (r: seq<Step>)
    ensures forall s :: s in r <==> !Dropped(IsInherited(v), s)
    ensures |r| == if IsInherited(v) then 5 else 7
  {
    AllStepsComplete();
    if IsInherited(v) then [Ownership, BasicInfo, PricingStep, MediaStep, FinalReview] else AllSteps
  }

  /** Every screen is declared. */
  lemma AllStepsComplete()
    ensures forall s :: s in AllSteps
  {
    forall s: Step
      ensures s in AllSteps
    {
      assert AllSteps[SchemaIndex(s)] == s;
    }
  }

  /** The shown screens keep the declared order. */
  lemma StepsKeepOrder(v: Record)
    ensures IsSubsequence(Steps(v), AllSteps)
  {
    var t := AllSteps;
    if IsInherited(v) {
      var r := Steps(v);
      assert r[1..][1..] == [PricingStep, MediaStep, FinalReview];
      assert t[1..][1..] == [LocationStep, PricingStep, MediaStep, AmenitiesStep, FinalReview];
      assert IsSubsequence([FinalReview], [AmenitiesStep, FinalReview]);
      assert IsSubsequence([MediaStep, FinalReview], [MediaStep, AmenitiesStep, FinalReview]);
      assert IsSubsequence([PricingStep, MediaStep, FinalReview], [LocationStep, PricingStep, MediaStep, AmenitiesStep, FinalReview]);
    } else {
      SubsequenceRefl(t);
    }
  }

  /** `ALL_STEPS.indexOf(step)`: the position of a screen in the declared list, which is also
      the position of its schema. */
  function SchemaIndex(s: Step): (i: nat)
    ensures i < SchemaCount && AllSteps[i] == s
  {
    match s
    case Ownership => 0
    case BasicInfo => 1
    case LocationStep => 2
    case PricingStep => 3
    case MediaStep => 4
    case AmenitiesStep => 5
    case FinalReview => 6
  }

  /** The issues of the schema that validates the shown screen `index`, with the schema list as
      written: the pricing and media schemas carry their root-object tests. */
  function ActiveIssues(v: Record, base: BaseRules, index: nat): (r: seq<Issue>)
    requires index < |Steps(v)|
    ensures Steps(v)[index] != PricingStep && Steps(v)[index] != MediaStep ==>
      r == ActiveIssuesCorrected(v, base, index)
  {
    StepIssuesAsWritten(SchemaIndex(Steps(v)[index]), v, base)
  }

  /** The issues of the corrected schema that validates the shown screen `index`; every one of
      them is reported on a field. */
  function ActiveIssuesCorrected(v: Record, base: BaseRules, index: nat): (r: seq<Issue>)
    requires index < |Steps(v)|
    ensures OnPaths(r)
  {
    StepIssues(SchemaIndex(Steps(v)[index]), v, base)
  }

  /** An inherited draft shows pricing third and media fourth, and validates them with the
      pricing and media schemas, not with the schemas at those display positions. */
  lemma InheritedSchemasFollowScreens(v: Record, base: BaseRules)
    requires IsInherited(v)
    ensures ActiveIssues(v, base, 2) == Step4IssuesAsWritten(v, base)
    ensures ActiveIssues(v, base, 3) == Step5IssuesAsWritten(v)
    ensures ActiveIssuesCorrected(v, base, 2) == Step4Issues(v, base)
    ensures ActiveIssuesCorrected(v, base, 3) == Step5Issues(v)
    ensures ActiveIssues(v, base, 4) == [] && ActiveIssuesCorrected(v, base, 4) == []
  {
    var r := Steps(v);
    assert r == [Ownership, BasicInfo, PricingStep, MediaStep, FinalReview];
    assert SchemaIndex(r[2]) == 3 && SchemaIndex(r[3]) == 4 && SchemaIndex(r[4]) == 6;
    PricingSchemaAsWrittenAt(v, base);
    MediaSchemaAsWrittenAt(v, base);
    PricingSchemaAt(v, base);
    MediaSchemaAt(v, base);
  }

  /** A wizard state for a draft. */
  predicate ValidFor(w: Wizard, v: Record) {
    Valid(w) && w.total == |Steps(v)|
  }

  /** What pressing the main button does. */
  datatype Press = Advance(result: Moved) | Finalize

  /** `handleNext`: Finalize on the last screen, otherwise `goToNextStep` with the form errors of
      the active schema as written. */
  function Continue(v: Record, base: BaseRules, w: Wizard): (p: Press)
    requires ValidFor(w, v)
    ensures p.Finalize? <==> IsLastStep(w)
  {
    if IsLastStep(w) then Finalize
    else Advance(GoToNextStep(w, FormErrors(ActiveIssues(v, base, w.index))))
  }

  /** Before the last screen, Continue moves on exactly when every issue of the shown screen's
      schema lacks a field path, and otherwise touches exactly the fields with issues. */
  lemma ContinueIffClean(v: Record, base: BaseRules, w: Wizard)
    requires ValidFor(w, v) && !IsLastStep(w)
    ensures Continue(v, base, w).result.moved <==>
      forall i :: 0 <= i < |ActiveIssues(v, base, w.index)| ==> ActiveIssues(v, base, w.index)[i].path.None?
    ensures !Continue(v, base, w).result.moved ==>
      Continue(v, base, w).result.wizard.touched.Keys == PathsOf(ActiveIssues(v, base, w.index))
  {
    FormErrorsEmptyIff(ActiveIssues(v, base, w.index));
  }

  /** `handleNext` over the corrected schemas, whose tests all report on a field. */
  function ContinueCorrected(v: Record, base: BaseRules, w: Wizard): (p: Press)
    requires ValidFor(w, v)
    ensures p.Finalize? <==> IsLastStep(w)
  {
    if IsLastStep(w) then Finalize
    else Advance(GoToNextStep(w, FormErrors(ActiveIssuesCorrected(v, base, w.index))))
  }

  /** With the corrected schemas, Continue moves on before the last screen exactly when the
      shown screen's schema reports nothing, and otherwise touches exactly the fields with
      errors. */
  lemma ContinueIffCleanCorrected(v: Record, base: BaseRules, w: Wizard)
    requires ValidFor(w, v) && !IsLastStep(w)
    ensures ContinueCorrected(v, base, w).result.moved <==> ActiveIssuesCorrected(v, base, w.index) == []
    ensures ActiveIssuesCorrected(v, base, w.index) != [] ==>
      ContinueCorrected(v, base, w).result.wizard.touched.Keys == PathsOf(ActiveIssuesCorrected(v, base, w.index))
  {
    OnPathsBlock(ActiveIssuesCorrected(v, base, w.index));
  }

  /** Away from the pricing and media screens the correction changes nothing. */
  lemma ContinueAgreesOffPricingAndMedia(v: Record, base: BaseRules, w: Wizard)
    requires ValidFor(w, v) && Steps(v)[w.index] != PricingStep && Steps(v)[w.index] != MediaStep
    ensures Continue(v, base, w) == ContinueCorrected(v, base, w)
  {
  }

  /** As written, the pricing screen moves on exactly when the price fields are clean, whatever
      the availability flags say. */
  lemma PricingContinueIffFieldsClean(v: Record, base: BaseRules, w: Wizard)
    requires ValidFor(w, v) && Steps(v)[w.index] == PricingStep
    ensures Continue(v, base, w).Advance?
    ensures Continue(v, base, w).result.moved <==> Step4FieldIssues(v, base) == []
  {
    ShownBeforeReview(v, w);
    assert SchemaIndex(Steps(v)[w.index]) == 3;
    PricingSchemaAsWrittenAt(v, base);
    PurposeTestNeverBlocks(v, base);
    OnPathsBlock(Step4FieldIssues(v, base));
  }

  /** As written, the media screen moves on exactly when `media` is an array, absent or empty
      text, whether or not there are any files. */
  lemma MediaContinueIffListShaped(v: Record, base: BaseRules, w: Wizard)
    requires ValidFor(w, v) && Steps(v)[w.index] == MediaStep
    ensures Continue(v, base, w).Advance?
    ensures Continue(v, base, w).result.moved <==> ArrayOrAbsent(Field(v, "media"))
  {
    ShownBeforeReview(v, w);
    assert SchemaIndex(Steps(v)[w.index]) == 4;
    MediaSchemaAsWrittenAt(v, base);
    ImageTestAlwaysFailsUnseen(v);
  }

  /** As written, the media screen of a draft with no media at all lets Continue through; the
      corrected schema holds it back. */
  lemma MediaScreenNeverDemandsImages(v: Record, base: BaseRules, w: Wizard)
    requires ValidFor(w, v) && Steps(v)[w.index] == MediaStep
    requires Field(v, "media") == Arr([]) && Field(v, "existingMedia") == Arr([])
    ensures Continue(v, base, w).result.moved
    ensures !ContinueCorrected(v, base, w).result.moved
  {
    ShownBeforeReview(v, w);
    assert SchemaIndex(Steps(v)[w.index]) == 4;
    MediaSchemaAsWrittenAt(v, base);
    MediaAsWrittenPasses(v);
    MediaSchemaAt(v, base);
    MediaBlocksEmpty(v);
  }

  /** A screen other than the review is not the last one. */
  lemma ShownBeforeReview(v: Record, w: Wizard)
    requires ValidFor(w, v) && Steps(v)[w.index] != FinalReview
    ensures !IsLastStep(w)
  {
    var steps := Steps(v);
    assert steps[|steps| - 1] == FinalReview;
  }

  /** As written, the media schema reports no field error for an empty array of media. */
  lemma MediaAsWrittenPasses(v: Record)
    requires Field(v, "media") == Arr([])
    ensures |FormErrors(Step5IssuesAsWritten(v))| == 0
  {
    ImageTestAlwaysFailsUnseen(v);
    assert ArrayOrAbsent(Field(v, "media"));
    var errors := FormErrors(Step5IssuesAsWritten(v));
    assert errors.Keys == {};
  }

  /** The corrected media schema reports an error for a form with no media at all. */
  lemma MediaBlocksEmpty(v: Record)
    requires Field(v, "media") == Arr([]) && Field(v, "existingMedia") == Arr([])
    ensures |FormErrors(Step5Issues(v))| != 0
  {
    var issues := Step5Issues(v);
    assert "media" in PathsOf(issues);
    OnPathsBlock(issues);
  }

  /** As written, the pricing screen lets Continue through with neither sale nor rent chosen,
      whenever the price fields are clean; the corrected schema holds it back. */
  lemma PricingScreenNeverDemandsPurpose(v: Record, base: BaseRules, w: Wizard)
    requires ValidFor(w, v) && Steps(v)[w.index] == PricingStep
    requires !HasPurpose(v) && Step4FieldIssues(v, base) == []
    ensures Continue(v, base, w).result.moved
    ensures !ContinueCorrected(v, base, w).result.moved
  {
    PricingContinueIffFieldsClean(v, base, w);
    var steps := Steps(v);
    assert SchemaIndex(steps[w.index]) == 3;
    PricingSchemaAt(v, base);
    var issues := ActiveIssuesCorrected(v, base, w.index);
    assert issues == Step4Issues(v, base);
    assert issues != [];
    OnPathsBlock(issues);
  }

  /** The Skip button is shown on the third screen. */
  predicate SkipShown(w: Wizard) {
    w.index == 2
  }

  /** Skip calls `goToNextStep` like Continue does, so it validates the screen all the same: the
      coordinates on the location screen, and the price fields on the pricing screen that an
      inherited draft shows third. */
  function Skip(v: Record, base: BaseRules, w: Wizard): (m: Moved)
    requires ValidFor(w, v) && SkipShown(w)
    ensures Continue(v, base, w) == Advance(m)
    ensures !IsInherited(v) ==> (m.moved <==> Step3Issues(v) == [])
    ensures IsInherited(v) ==> (m.moved <==> Step4FieldIssues(v, base) == [])
  {
    var steps := Steps(v);
    assert steps[2] == if IsInherited(v) then PricingStep else LocationStep;
    if IsInherited(v) then
      PricingContinueIffFieldsClean(v, base, w);
      GoToNextStep(w, FormErrors(ActiveIssues(v, base, w.index)))
    else
      ShownBeforeReview(v, w);
      assert SchemaIndex(steps[2]) == 2;
      OnPathsBlock(Step3Issues(v));
      GoToNextStep(w, FormErrors(ActiveIssues(v, base, w.index)))
  }

  /** Skip over the corrected schemas. */
  function SkipCorrected(v: Record, base: BaseRules, w: Wizard): (m: Moved)
    requires ValidFor(w, v) && SkipShown(w)
    ensures ContinueCorrected(v, base, w) == Advance(m)
    ensures m.moved <==> ActiveIssuesCorrected(v, base, w.index) == []
  {
    OnPathsBlock(ActiveIssuesCorrected(v, base, w.index));
    GoToNextStep(w, FormErrors(ActiveIssuesCorrected(v, base, w.index)))
  }

  /** The third screen is the location screen, or pricing when the location screen is dropped. */
  lemma SkipScreen(v: Record)
    ensures Steps(v)[2] == if IsInherited(v) then PricingStep else LocationStep
  {
  }

  /** The review's Edit link, as written: the fixed index, with no validation. */
  function EditAsWritten(w: Wizard, s: Section): (r: Wizard)
    ensures r.index == EditIndexAsWritten(s) && r.touched == w.touched
  {
    JumpTo(w, EditIndexAsWritten(s))
  }

  /** The screen a review section was filled on. */
  function SectionStep(s: Section): Step {
    match s
    case TypeAndAgent => Ownership
    case Details => BasicInfo
    case MapLocation => LocationStep
    case Pricing => PricingStep
    case Media => MediaStep
    case Amenities => AmenitiesStep
  }

  /** As written, on an inherited draft the Edit links land on the wrong screens: the map
      section's link opens pricing, the pricing link opens media, the media link opens the review
      itself, and the amenities link points past the last screen. */
  lemma InheritedEditMisroutes(v: Record, w: Wizard)
    requires IsInherited(v)
    ensures Steps(v)[EditAsWritten(w, MapLocation).index] == PricingStep
    ensures Steps(v)[EditAsWritten(w, Pricing).index] == MediaStep
    ensures Steps(v)[EditAsWritten(w, Media).index] == FinalReview
    ensures !ValidFor(EditAsWritten(w, Amenities), v)
  {
  }

  /** The display index of the screen a section was filled on, or none when that screen is not
      shown. */
  function ReviewEditTarget(steps: seq<Step>, s: Section): (r: Option<nat>)
    ensures r.Some? ==> r.value < |steps| && steps[r.value] == SectionStep(s)
    ensures r.None? <==> SectionStep(s) !in steps
  {
    FirstIndex(steps, (x: Step) => x == SectionStep(s))
  }

  /** With all screens shown, the corrected targets are the indices the links use as written. */
  lemma EditTargetsAgreeWhenComplete(v: Record, s: Section)
    requires !IsInherited(v)
    ensures ReviewEditTarget(Steps(v), s) == Some(EditIndexAsWritten(s))
  {
    var r := ReviewEditTarget(Steps(v), s);
    var k := EditIndexAsWritten(s);
    assert Steps(v) == AllSteps;
    assert AllSteps[k] == SectionStep(s);
    assert r.Some?;
    var i := r.value;
    SchemaIndexInverts(i);
    SchemaIndexInverts(k);
  }

  /** `SchemaIndex` reads a declared screen's position back. */
  lemma SchemaIndexInverts(i: nat)
    requires i < |AllSteps|
    ensures SchemaIndex(AllSteps[i]) == i
  {
  }

  /** Following a corrected link always reaches the section's own screen, or no screen at all
      for the sections an inherited draft does not show. */
  lemma EditTargetsInherited(v: Record)
    requires IsInherited(v)
    ensures ReviewEditTarget(Steps(v), MapLocation).None? && ReviewEditTarget(Steps(v), Amenities).None?
    ensures ReviewEditTarget(Steps(v), Pricing) == Some(2) && ReviewEditTarget(Steps(v), Media) == Some(3)
  {
    var steps := Steps(v);
    assert steps == [Ownership, BasicInfo, PricingStep, MediaStep, FinalReview];
    FirstShownTarget(steps, Pricing, 2);
    FirstShownTarget(steps, Media, 3);
  }

  /** The target of a link is the first position showing the section's screen. */
  lemma FirstShownTarget(steps: seq<Step>, s: Section, i: nat)
    requires i < |steps| && steps[i] == SectionStep(s)
    requires forall j :: 0 <= j < i ==> steps[j] != SectionStep(s)
    ensures ReviewEditTarget(steps, s) == Some(i)
  {
    var r := ReviewEditTarget(steps, s);
    assert r.Some? && r.value <= i;
  }

  // ---------------------------------------------------------------- payload

  /** The fields sent as `Number(x)` when truthy and `null` otherwise. */
  const NumericKeys: seq<string> := ["bedrooms", "bathrooms", "sale_price", "rent_price", "province_id",
    "district_id", "area_id", "owner_person_id", "agent_id", "apartment_id"]

  /** Coerce each of `keys` with `NumberOrNull`, reading the values of `v`. */
  function CoerceAll(v: Record, keys: seq<string>): (r: Record)
    ensures forall k :: k in keys ==> Field(r, k) == NumberOrNull(Field(v, k))
    ensures UpdatesOnly(v, r, set k | k in keys)
  {
    if keys == [] then v
    else SetField(CoerceAll(v, keys[1..]), keys[0], NumberOrNull(Field(v, keys[0])))
  }

  lemma PayloadKeysDistinct()
    ensures "area_size" !in NumericKeys && "amenities" !in NumericKeys && "area_size" != "amenities"
  {
    assert "area_size"[0] != "bathrooms"[0];
    assert "amenities"[0] != "bathrooms"[0];
    assert "area_size"[1] != "amenities"[1];
  }

  /** The request body: every field of the draft, with `area_size` always `Number()`-ed, the
      numeric fields coerced, and `amenities` defaulting to an empty list. */
  function PropertyPayload(v: Record): (p: Record)
    ensures Field(p, "area_size") == ToNumber(Field(v, "area_size"))
    ensures Field(p, "amenities") == Or(Field(v, "amenities"), Arr([]))
    ensures forall k :: k in NumericKeys ==> Field(p, k) == NumberOrNull(Field(v, k))
    ensures UpdatesOnly(v, p, (set k | k in NumericKeys) + {"area_size", "amenities"})
  {
    PayloadKeysDistinct();
    var c := CoerceAll(v, NumericKeys);
    UpdatesTwoMore(v, c, set k | k in NumericKeys, "area_size", ToNumber(Field(v, "area_size")),
      "amenities", Or(Field(v, "amenities"), Arr([])));
    SetField(SetField(c, "area_size", ToNumber(Field(v, "area_size"))), "amenities", Or(Field(v, "amenities"), Arr([])))
  }

  /** An empty area size is sent as 0, and a room count of 0 as null. */
  lemma PayloadZeroes(v: Record)
    requires Field(v, "area_size") == Str("") && Field(v, "bedrooms") == Num(0)
    ensures Field(PropertyPayload(v), "area_size") == Num(0)
    ensures Field(PropertyPayload(v), "bedrooms") == Null
  {
  }

  /** A price whose switch is off is still sent, as a number. */
  lemma DisabledPriceStillSent(v: Record, n: int)
    requires !Truthy(Field(v, "is_available_for_sale")) && n != 0
    requires Field(v, "sale_price") == Str(IntToString(n))
    ensures Field(PropertyPayload(v), "sale_price") == Num(n)
  {
    IntTextReadsBack(n);
  }

  // ---------------------------------------------------------------- submission

  /** The id the later calls use: the one being edited, or the one the create returned. */
  function TargetId(editing: bool, propertyId: Value, createdId: Value): Value {
    if editing then propertyId else createdId
  }

  /** One deletion per removed stored file, by url and with the file's type, `photo` when it has
      none. */
  function TypedDeletes(id: Value, gone: seq<Value>): (r: seq<Call>)
    ensures |r| == |gone|
    ensures forall i :: 0 <= i < |r| ==>
      r[i] == DeleteFile(id, Get(gone[i], "url"), Some(Or(Get(gone[i], "type"), Str("photo"))))
    ensures forall i :: 0 <= i < |r| ==> r[i].fileType.Some? && Truthy(r[i].fileType.value)
  {
    seq(|gone|, i requires 0 <= i < |gone| =>
      DeleteFile(id, Get(gone[i], "url"), Some(Or(Get(gone[i], "type"), Str("photo")))))
  }

  /** Whether Finalize looks for removed stored files: when editing a draft that started with
      stored files. */
  predicate ChecksStoredFiles(editing: bool, initial: Record) {
    editing && Truthy(Field(initial, "existingMedia"))
  }

  /** The stored files to delete: only when editing a draft that started with stored files. */
  function PropertyDeletions(editing: bool, id: Value, v: Record, initial: Record): (r: seq<Call>)
    ensures |r| == if editing && Truthy(Field(initial, "existingMedia"))
      then |DeletedMedia(Items(Field(initial, "existingMedia")), Items(Or(Field(v, "existingMedia"), Arr([]))))| else 0
    ensures forall i :: 0 <= i < |r| ==> r[i].DeleteFile? && r[i].id == id && r[i].fileType.Some?
    ensures !ChecksStoredFiles(editing, initial) ==> r == []
    ensures ChecksStoredFiles(editing, initial) ==>
      r == TypedDeletes(id, DeletedMedia(Items(Field(initial, "existingMedia")), Items(Or(Field(v, "existingMedia"), Arr([])))))
  {
    if ChecksStoredFiles(editing, initial) then
      TypedDeletes(id, DeletedMedia(Items(Field(initial, "existingMedia")), Items(Or(Field(v, "existingMedia"), Arr([])))))
    else []
  }

  /** When editing a draft that started with stored files, each stored file the user removed is
      deleted by its url, with its type or `photo`. */
  lemma {:induction false} RemovedFileDeleted(editing: bool, id: Value, v: Record, initial: Record, x: Value)
    requires ChecksStoredFiles(editing, initial)
    requires x in Items(Field(initial, "existingMedia"))
    requires !StillPresent(Items(Or(Field(v, "existingMedia"), Arr([]))), x)
    ensures DeleteFile(id, Get(x, "url"), Some(Or(Get(x, "type"), Str("photo")))) in PropertyDeletions(editing, id, v, initial)
  {
    var stored := Items(Field(initial, "existingMedia"));
    var gone := DeletedMedia(stored, Items(Or(Field(v, "existingMedia"), Arr([]))));
    var k :| 0 <= k < |stored| && stored[k] == x;
    assert x in gone;
    var j :| 0 <= j < |gone| && gone[j] == x;
    assert PropertyDeletions(editing, id, v, initial)[j] == DeleteFile(id, Get(x, "url"), Some(Or(Get(x, "type"), Str("photo"))));
  }

  /** The save: an update of the edited property, or a create. */
  function SaveCall(editing: bool, propertyId: Value, payload: Record): (c: Call)
    ensures c.Update? <==> editing
    ensures c.Update? ==> c == Update(propertyId, payload)
    ensures c.Create? ==> c == Create(payload)
  {
    if editing then Update(propertyId, payload) else Create(payload)
  }

  /** Whether Finalize uploads: `values.media && values.media.length > 0`. */
  predicate HasNewMedia(v: Record) {
    Truthy(Field(v, "media")) && LengthOrZero(Field(v, "media")) > 0
  }

  /** Finalize's calls, in order: the save, one upload when there are new files, then the
      deletions, all under the edited id or the created one. */
  function PropertyPlan(editing: bool, propertyId: Value, createdId: Value, v: Record, initial: Record): (plan: seq<Call>)
    ensures |plan| >= 1
    ensures plan[0] == SaveCall(editing, propertyId, PropertyPayload(v))
    ensures (|plan| > 1 && plan[1].Upload?) <==> HasNewMedia(v)
    ensures HasNewMedia(v) ==> plan[1] == Upload(TargetId(editing, propertyId, createdId), FileParts(Items(Field(v, "media"))))
    ensures var d := PropertyDeletions(editing, TargetId(editing, propertyId, createdId), v, initial);
      |plan| == 1 + (if HasNewMedia(v) then 1 else 0) + |d| && plan[|plan| - |d|..] == d
  {
    var id := TargetId(editing, propertyId, createdId);
    Plan(SaveCall(editing, propertyId, PropertyPayload(v)), id, HasNewMedia(v), FileParts(Items(Field(v, "media"))), PropertyDeletions(editing, id, v, initial))
  }

  /** The message of a failed save: the server's error text, or the fallback. */
  function PropertyErrorText(err: Value): (t: Value)
    ensures Truthy(t)
    ensures !Truthy(Get(Get(Get(err, "response"), "data"), "error")) ==> t == Str("Failed to save property")
  {
    FirstTruthy([Get(Get(Get(err, "response"), "data"), "error")], "Failed to save property")
  }

  /** Finalize: the calls made and the alert shown, given the created id, the position of the
      first failing call, and the error it fails with. */
  function FinalizeProperty(editing: bool, propertyId: Value, createdId: Value, v: Record, initial: Record,
                            failAt: Option<nat>, err: Value): (r: (Outcome, Alert))
    ensures r.0.ok <==> r.1.title == "Success"
    ensures r.0.ok ==> r.0.made == PropertyPlan(editing, propertyId, createdId, v, initial)
    ensures r.0.ok ==> r.1.message == Str("Property " + (if editing then "updated" else "created") + " successfully!")
    ensures !r.0.ok ==> r.1 == Alert("Error", PropertyErrorText(err))
    ensures IsPrefix(r.0.made, PropertyPlan(editing, propertyId, createdId, v, initial))
  {
    var plan := PropertyPlan(editing, propertyId, createdId, v, initial);
    var o := Perform(plan, failAt);
    if o.ok then (o, Alert("Success", Str("Property " + (if editing then "updated" else "created") + " successfully!")))
    else (o, Alert("Error", PropertyErrorText(err)))
  }

  predicate IsPrefix<T(==)>(a: seq<T>, b: seq<T>) {
    |a| <= |b| && a == b[..|a|]
  }
}
