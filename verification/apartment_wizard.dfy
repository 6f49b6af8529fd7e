/** The apartment-building wizard's shell: its four screens, the schema that validates each,
    what the main button and the back control do, the request body, and what Finalize sends. */
module ApartmentWizard {
  import opened Options
  import opened Js
  import opened Seqs
  import opened Validation
  import opened ApartmentSchemas
  import opened Navigator
  import opened Submission
  import opened ApartmentSteps

  /** The four screens, in order. */
  datatype Screen = BuildingDetails | LocationScreen | FacilitiesScreen | Photos

  const Screens: seq<Screen> := [BuildingDetails, LocationScreen, FacilitiesScreen, Photos]

  function Title(s: Screen): string {
    match s
    case BuildingDetails => "Building Details"
    case LocationScreen => "Location"
    case FacilitiesScreen => "Facilities"
    case Photos => "Photos"
  }

  /** A wizard state of this wizard: on one of the four screens. */
  predicate ValidState(w: Wizard) {
    Valid(w) && w.total == |Screens|
  }

  /** Every screen has its schema, at the same position. */
  lemma ScreensMatchSchemas()
    ensures |Screens| == SchemaCount
    ensures forall i :: 0 <= i < |Screens| ==> (Screens[i] == Photos <==> i == SchemaCount - 1)
  {
  }

  /** The header's progress in this wizard: a quarter per screen, full on the photos screen. */
  lemma ApartmentProgress(w: Wizard)
    requires ValidState(w)
    ensures Progress(w) == 25.0 * (w.index + 1) as real
    ensures Progress(w) == 100.0 <==> Screens[w.index] == Photos
  {
    ProgressFullIffLast(w);
  }

  /** Three error-free Nexts from the details screen reach the photos screen, the last one. */
  lemma CleanNextsReachPhotos()
    ensures Screens[NextTimes(Start(|Screens|), 3).index] == Photos
    ensures IsLastStep(NextTimes(Start(|Screens|), 3))
  {
    CleanNextsReachLast(Start(|Screens|), 3);
  }

  /** Back from any screen but the first lands on the screen before it, with no validation. */
  lemma BackFromScreen(w: Wizard)
    requires ValidState(w) && w.index > 0
    ensures GoToPreviousStep(w).moved && ValidState(GoToPreviousStep(w).wizard)
    ensures Screens[GoToPreviousStep(w).wizard.index] != Photos
  {
  }

  /** What pressing the main button does. */
  datatype Press = Advance(result: Moved) | Submit

  /** `handleNext`: submit on the last screen, otherwise `goToNextStep` with the errors of the
      screen's own schema. */
  function Continue(v: Record, w: Wizard): (p: Press)
    requires ValidState(w)
    ensures p.Submit? <==> IsLastStep(w)
  {
    if IsLastStep(w) then Submit
    else Advance(GoToNextStep(w, FormErrors(StepIssues(w.index, v))))
  }

  /** Before the last screen, Continue moves on exactly when the screen's schema reports nothing,
      and otherwise touches exactly the fields with errors. */
  lemma ContinueIffClean(v: Record, w: Wizard)
    requires ValidState(w) && !IsLastStep(w)
    ensures Continue(v, w).result.moved <==> StepIssues(w.index, v) == []
    ensures Continue(v, w).result.moved ==> Continue(v, w).result.wizard.index == w.index + 1
    ensures StepIssues(w.index, v) != [] ==>
      Continue(v, w).result.wizard.touched.Keys == PathsOf(StepIssues(w.index, v))
  {
    OnPathsBlock(StepIssues(w.index, v));
  }

  /** As written, the photos screen is the last one, so its button submits without consulting
      the photos rule: a building with no photo at all is saved. */
  lemma SubmitsWithoutPhotos(v: Record, w: Wizard)
    requires ValidState(w) && Screens[w.index] == Photos
    requires Field(v, "media") == Arr([])
    ensures StepIssues(w.index, v) != []
    ensures Continue(v, w) == Submit
  {
  }

  /** The photos rule as the photos screen presents it: at least one new or stored photo. */
  function PhotosIssues(v: Record): (r: seq<Issue>)
    ensures OnPaths(r) && PathsOf(r) <= {"media"}
    ensures forall i :: 0 <= i < |r| ==> r[i].message != ""
    ensures r == [] <==>
      ArrayOrAbsent(Field(v, "media"))
      && LengthOrZero(Field(v, "media")) + LengthOrZero(Field(v, "existingMedia")) > 0
  {
    Join5(ArrayIssue(v, "media"),
      FieldIssue(LengthOrZero(Field(v, "media")) + LengthOrZero(Field(v, "existingMedia")) == 0, "media", ImageMessage),
      [], [], [])
  }

  /** `handleNext` checking the photos rule before submitting. */
  function ContinueChecked(v: Record, w: Wizard): (p: Press)
    requires ValidState(w)
    ensures !IsLastStep(w) ==> p == Continue(v, w)
  {
    if IsLastStep(w) && PhotosIssues(v) != [] then Advance(GoToNextStep(w, FormErrors(PhotosIssues(v))))
    else Continue(v, w)
  }

  /** With the check, the last screen submits exactly when there is a new or stored photo;
      otherwise it stays put and touches `media`, so the error box appears whenever there are
      no stored photos. */
  lemma CheckedSubmitNeedsPhotos(v: Record, w: Wizard)
    requires ValidState(w) && IsLastStep(w)
    ensures ContinueChecked(v, w) == Submit <==> PhotosIssues(v) == []
    ensures PhotosIssues(v) != [] ==>
      !ContinueChecked(v, w).result.moved && ContinueChecked(v, w).result.wizard.index == w.index
      && ContinueChecked(v, w).result.wizard.touched.Keys == {"media"}
    ensures PhotosIssues(v) != [] && LengthOrZero(Field(v, "existingMedia")) == 0 ==>
      MediaErrorShown(v, ContinueChecked(v, w).result.wizard.touched, FormErrors(PhotosIssues(v)))
  {
    var r := PhotosIssues(v);
    if r != [] {
      OnPathsBlock(r);
      assert PathsOf(r) == {"media"};
      assert FormErrors(r)["media"] == FirstMessage(r, "media");
      FirstMessageNonEmpty(r, "media");
    }
  }

  // ---------------------------------------------------------------- payload

  /** The body's fields sent as `Number(x)` when truthy and `null` otherwise. */
  const NumberKeys: seq<string> := ["province_id", "district_id", "area_id", "total_floors", "total_units"]

  /** The body's fields sent as they are. */
  const PlainKeys: seq<string> := ["apartment_name", "description", "address", "latitude", "longitude", "facilities"]

  /** The request body: exactly the eleven listed fields, so no form state and no media. */
  function ApartmentPayload(v: Record): (p: Record)
    ensures p.Keys == (set k | k in NumberKeys) + (set k | k in PlainKeys)
    ensures forall k :: k in NumberKeys ==> p[k] == NumberOrNull(Field(v, k))
    ensures forall k :: k in PlainKeys ==> p[k] == Field(v, k)
  {
    assert forall k :: k in NumberKeys ==> k !in PlainKeys;
    map k | k in (set k | k in NumberKeys) + (set k | k in PlainKeys) ::
      if k in NumberKeys then NumberOrNull(Field(v, k)) else Field(v, k)
  }

  /** The body carries only the listed fields: neither the new nor the stored photos. */
  lemma PayloadShape(v: Record)
    ensures "media" !in ApartmentPayload(v) && "existingMedia" !in ApartmentPayload(v)
    ensures forall k :: k in ApartmentPayload(v) ==> k in NumberKeys || k in PlainKeys
  {
  }

  /** Two forms that agree on the eleven fields send the same body, whatever else they hold. */
  lemma PayloadReadsOnlyListed(v: Record, u: Record)
    requires forall k :: (k in NumberKeys || k in PlainKeys) ==> Field(v, k) == Field(u, k)
    ensures ApartmentPayload(v) == ApartmentPayload(u)
  {
  }

  // ---------------------------------------------------------------- submission

  /** Whether the save is an update: the screen edits and the id is a usable number. */
  predicate Updates(editing: bool, apartmentId: Value) {
    editing && Truthy(apartmentId)
  }

  /** The save call. */
  function ApartmentSave(editing: bool, apartmentId: Value, v: Record): (c: Call)
    ensures c.Update? <==> Updates(editing, apartmentId)
    ensures c.Update? ==> c.id == apartmentId
    ensures (c.Create? || c.Update?) && c.body == ApartmentPayload(v)
  {
    if Updates(editing, apartmentId) then Update(apartmentId, ApartmentPayload(v)) else Create(ApartmentPayload(v))
  }

  /** The id the later calls use: `id` starts as the route's id and is replaced by the created
      apartment's id when the save is a create. */
  function ApartmentTarget(editing: bool, apartmentId: Value, createdId: Value): Value {
    if Updates(editing, apartmentId) then apartmentId else createdId
  }

  /** Whether Finalize uploads: `values.media.length > 0`. */
  predicate HasNewFiles(v: Record) {
    LengthOrZero(Field(v, "media")) > 0
  }

  /** One deletion per removed stored file, by url and with no type. */
  function UntypedDeletes(id: Value, gone: seq<Value>): (r: seq<Call>)
    ensures |r| == |gone|
    ensures forall i :: 0 <= i < |r| ==> r[i] == DeleteFile(id, Get(gone[i], "url"), None)
  {
    seq(|gone|, i requires 0 <= i < |gone| => DeleteFile(id, Get(gone[i], "url"), None))
  }

  /** Whether Finalize looks for removed stored files: when editing a loaded listing that had
      stored files. */
  predicate ChecksDeletions(editing: bool, initial: Option<Record>) {
    editing && initial.Some? && Truthy(Field(initial.value, "existingMedia"))
  }

  /** The stored files to delete. */
  function ApartmentDeletions(editing: bool, id: Value, v: Record, initial: Option<Record>): (r: seq<Call>)
    ensures !ChecksDeletions(editing, initial) ==> r == []
    ensures ChecksDeletions(editing, initial) ==>
      r == UntypedDeletes(id, DeletedMedia(Items(Field(initial.value, "existingMedia")), Items(Field(v, "existingMedia"))))
  {
    if ChecksDeletions(editing, initial) then
      UntypedDeletes(id, DeletedMedia(Items(Field(initial.value, "existingMedia")), Items(Field(v, "existingMedia"))))
    else []
  }

  /** Finalize's calls, in order: the save, one upload when there are new files, then the
      deletions, all under the target id. */
  function ApartmentPlan(editing: bool, apartmentId: Value, createdId: Value, v: Record, initial: Option<Record>): (plan: seq<Call>)
    ensures |plan| >= 1 && plan[0] == ApartmentSave(editing, apartmentId, v)
    ensures (|plan| > 1 && plan[1].Upload?) <==> HasNewFiles(v)
    ensures HasNewFiles(v) ==> plan[1] == Upload(ApartmentTarget(editing, apartmentId, createdId), FileParts(Items(Field(v, "media"))))
    ensures var d := ApartmentDeletions(editing, ApartmentTarget(editing, apartmentId, createdId), v, initial);
      |plan| == 1 + (if HasNewFiles(v) then 1 else 0) + |d| && plan[|plan| - |d|..] == d
  {
    var id := ApartmentTarget(editing, apartmentId, createdId);
    var d := ApartmentDeletions(editing, id, v, initial);
    assert d != [] ==> d[0].DeleteFile?;
    Plan(ApartmentSave(editing, apartmentId, v), id, HasNewFiles(v), FileParts(Items(Field(v, "media"))), d)
  }

  /** An edit whose route id does not read as a usable number creates a new building instead,
      and its uploads and deletions go to the created one. */
  lemma EditWithoutIdCreates(apartmentId: Value, createdId: Value, v: Record, initial: Option<Record>)
    requires !Truthy(apartmentId)
    ensures ApartmentPlan(true, apartmentId, createdId, v, initial)[0] == Create(ApartmentPayload(v))
    ensures ApartmentTarget(true, apartmentId, createdId) == createdId
  {
  }

  /** The message of a failed save: the server's `error`, else its `message`, else the error's
      own message, else the fallback. */
  function ApartmentErrorText(err: Value): (t: Value)
    ensures Truthy(t)
    ensures var data := Get(Get(err, "response"), "data");
      (Truthy(Get(data, "error")) ==> t == Get(data, "error"))
      && (!Truthy(Get(data, "error")) && Truthy(Get(data, "message")) ==> t == Get(data, "message"))
      && (!Truthy(Get(data, "error")) && !Truthy(Get(data, "message")) && Truthy(Get(err, "message")) ==> t == Get(err, "message"))
      && (!Truthy(Get(data, "error")) && !Truthy(Get(data, "message")) && !Truthy(Get(err, "message")) ==> t == Str("Failed to save apartment"))
  {
    var data := Get(Get(err, "response"), "data");
    var c := [Get(data, "error"), Get(data, "message"), Get(err, "message")];
    assert c[0] == Get(data, "error") && c[1] == Get(data, "message") && c[2] == Get(err, "message");
    FirstTruthy(c, "Failed to save apartment")
  }

  /** Finalize: the calls made and the alert shown, given the created id, the position of the
      first failing call, and the error it fails with. The success text follows the editing
      flag, not the kind of save. */
  function FinalizeApartment(editing: bool, apartmentId: Value, createdId: Value, v: Record, initial: Option<Record>,
                             failAt: Option<nat>, err: Value): (r: (Outcome, Alert))
    ensures r.0.ok <==> r.1.title == "Success"
    ensures r.0.ok ==> r.0.made == ApartmentPlan(editing, apartmentId, createdId, v, initial)
    ensures r.0.ok ==> r.1.message == Str("Apartment building " + (if editing then "updated" else "created") + " successfully!")
    ensures !r.0.ok ==> r.1 == Alert("Error", ApartmentErrorText(err))
    ensures |r.0.made| <= |ApartmentPlan(editing, apartmentId, createdId, v, initial)|
    ensures r.0.made == ApartmentPlan(editing, apartmentId, createdId, v, initial)[..|r.0.made|]
  {
    var plan := ApartmentPlan(editing, apartmentId, createdId, v, initial);
    var o := Perform(plan, failAt);
    if o.ok then (o, Alert("Success", Str("Apartment building " + (if editing then "updated" else "created") + " successfully!")))
    else (o, Alert("Error", ApartmentErrorText(err)))
  }
}
