# KorX listing wizards — a Dafny model

KorX is a React Native real-estate app. Agents and owners use it to list properties and
apartment buildings. This project models the app's form logic in Dafny and proves properties
about it:

- **Property wizard.** Seven screens: owner & type, basic info, location, pricing, media,
  amenities, final review. A listing that inherits from a parent property or an apartment
  drops the location and amenities screens, which leaves five.
- **Apartment-building wizard.** Four screens: details, location, facilities, photos.
- **Validation.** The Yup schema of each screen, and how Formik turns the schema's issues into
  the per-field errors that decide whether Continue moves on.
- **Step navigator.** `useAddPropertyWizard` and `useAddApartmentWizard`, which are
  identical copies of one hook, modelled once.
- **Field edits.** The edits each screen makes to the form values.
- **Submission.** The payload that is sent, and the save plan: save, then upload new files,
  then delete the stored files the user removed.
- **Edit screens.** How the two edit screens map a stored listing or building into form values.
- **ApartmentStore.** The state transitions of the store.
- **Forgot-password screen.** Its four-step state machine.
- **Card and avatar helpers.** The helpers of the property card (badges, title, de-duplicated
  address, carousel dots) and of the avatar (size, initials, picture source).

Form values are a `map<string, Value>` (`Js.Record`). `Value` is a JavaScript value:
undefined, null, boolean, integer number, NaN, string, array, or object. Helpers in `Js` write
out the JavaScript semantics the code relies on:

- truthiness and `||`;
- `String(x)`, and `Number(text)` for integer numerals: text JavaScript would read as a
  fraction, an exponent, a hex, binary or octal numeral, or Infinity is NaN here;
- `trim` with JavaScript's full set of white space and line terminators;
- `toLowerCase` on ASCII letters, and `===`;
- the password's `length`, in UTF-16 code units.

A Yup schema is a function from values to a list of issues. Each issue carries an optional
path and a message. `Validation.FormErrors` is Formik's conversion: the first message per path
is kept, and issues without a path are dropped. Network answers, the image-url resolver, the
file-size check, `JSON.parse` and the clock are parameters.

Module layout:

- `Js`, `Seqs`, `Options`, `Validation`: shared definitions.
- `Navigator`: the step navigator (`useAddPropertyWizard`, and its copy `useAddApartmentWizard`).
- `PropertySchemas`, `PropertySteps`, `LocationCascade`: the property wizard's schemas, its
  screens' edits and rendering helpers, and the province/district/area cascade.
- `PropertyWizard`: the property wizard (`AddPropertyWizard`).
- `PropertyEdit`: the property edit screen.
- `Submission`: file parts, deleted media, and the save plan.
- `ApartmentSchemas`, `ApartmentSteps`, `ApartmentWizard`, `ApartmentEdit`: the apartment
  wizard and its edit screen.
- `ApartmentStore`, `ForgotPassword`, `PropertyCard`, `Avatar`: the store, the password
  recovery screen and the two components.

Behaviours of the code that a reader might not expect, which the model keeps:

- Changing the province clears the district only when the new province is empty. A non-empty
  province keeps the old district. Choosing a district clears the area only when the district
  is empty.
- The property payload spreads all form values. Inherited listings therefore still send
  location and amenities, and a price is sent even when its availability flag is off.
- The pricing screen's object-level test checks only the availability flags. It never checks
  that the enabled price is filled in.
- The apartment photos rule asks for at least one new file and ignores the stored ones. The
  photos screen hides that error while stored files exist.
- On the location screen, Skip runs the same validation as Continue.
- An edited listing that inherits from a parent still shows seven screens. The edit mapping
  never copies the parent ids.
- An empty answer from the property fetch opens the blank form without an error.
- A route id that is not a number opens the apartment form in edit mode, and its save creates a
  new building.
- A failed apartment fetch is swallowed by the store. The form opens blank, still in edit mode,
  and the save updates the building named by the route.
- The store treats an id as bad when it is falsy or NaN.
- Uploading and deleting files do not touch the store's `loading` and `error`.

## Model

| member | source | states |
|---|---|---|
| Validation.FormErrors | src/components/property/AddProperty/useAddPropertyWizard.ts:17-19 | the error map has exactly the paths that carry an issue, and each path's message is the first one reported for it |
| Validation.FormErrorsEmptyIff | src/components/property/AddProperty/useAddPropertyWizard.ts:17-19 | Formik reports no errors exactly when every issue lacks a path |
| Validation.OnPathsBlock | src/components/property/AddProperty/useAddPropertyWizard.ts:17-19 | for a schema whose issues all carry a path, the step is blocked exactly when there is an issue |
| Validation.FormErrorsIgnoresRoot | src/components/property/AddProperty/validationSchemas.ts:108-110 | appending path-less (object-level) issues leaves the error map unchanged |
| Validation.TrailingFieldMessage | src/components/property/AddProperty/validationSchemas.ts:108-110 | a field test added after tests on other paths shows its message on its path exactly when it fails |
| Validation.RequiredStringIssue | src/components/property/AddProperty/validationSchemas.ts:78 | `string().required(m)` fails exactly when the field is absent, empty or not string-like, and reports `m` on its path |
| Validation.NullableStringIssue | src/components/property/AddProperty/validationSchemas.ts:60-61 | `string().nullable()` accepts absent, null and string-like values only |
| Validation.NullableNumberIssue | src/components/property/AddProperty/validationSchemas.ts:89-90 | `number().nullable()` accepts absent, null and values that cast to a number, and rejects NaN |
| Validation.ArrayIssue | src/components/property/AddProperty/validationSchemas.ts:113 | `array()` accepts an array, an absent value or the empty string, and reports anything else on its path |
| PropertySchemas.CategoryTypes | src/components/property/AddProperty/validationSchemas.ts:4-8 | each of the three categories allows a list of Normal types that includes House and Office; other categories allow nothing |
| PropertySchemas.BaseIssue | src/components/property/AddProperty/validationSchemas.ts:79-81 | a field borrowed from the base schema fails exactly when the base rule reports it, on that field's path |
| PropertySchemas.BlankOwnership | src/components/property/AddProperty/validationSchemas.ts:20-57 | the blank form starts as a Normal sale with no type chosen |
| PropertySchemas.BlankPricingAndMedia | src/components/property/AddProperty/validationSchemas.ts:20-57 | the blank form is available for sale, not for rent, and has no new or stored media |
| PropertySchemas.BlankHasNoParent | src/components/property/AddProperty/validationSchemas.ts:20-57 | the blank form names no parent property and no apartment, so it shows all seven screens |
| PropertySchemas.Step1Issues | src/components/property/AddProperty/validationSchemas.ts:59-74 | the owner & type screen passes exactly when owner and agent are optional text, category and purpose are from their lists, and the type is given and allowed for the category |
| PropertySchemas.Step1TypePath | src/components/property/AddProperty/validationSchemas.ts:62-73 | the type field shows an error exactly when it is missing or not allowed for the category |
| PropertySchemas.Step1CategoryPath | src/components/property/AddProperty/validationSchemas.ts:62-73 | the category field shows an error exactly when it is not one of the three categories |
| PropertySchemas.Step1PurposePath | src/components/property/AddProperty/validationSchemas.ts:62-73 | the purpose field shows an error exactly when it is not SALE or RENT |
| PropertySchemas.TypeIssue | src/components/property/AddProperty/validationSchemas.ts:63-72 | the type test passes exactly when the type is given and, when a category is set, in that category's list |
| PropertySchemas.OneOfIssue | src/components/property/AddProperty/validationSchemas.ts:73 | `oneOf(list)` passes exactly when the field is a string in the list |
| PropertySchemas.Step2Issues | src/components/property/AddProperty/validationSchemas.ts:76-86 | basic info passes exactly when the description, province, district, area and location are given, the title is optional text and the base rules accept the sizes |
| PropertySchemas.Step3Issues | src/components/property/AddProperty/validationSchemas.ts:88-91 | the location screen passes exactly when both coordinates are absent, null or numbers |
| PropertySchemas.CurrencyIssue | src/components/property/AddProperty/validationSchemas.ts:97-107 | a currency is required exactly when its price parses as positive, and is otherwise optional text |
| PropertySchemas.CurrencyRequiredIffPositive | src/components/property/AddProperty/validationSchemas.ts:97-107 | for a numeric price, the currency errs exactly when the price is positive and the currency missing, or the currency is not text |
| PropertySchemas.Step4FieldIssues | src/components/property/AddProperty/validationSchemas.ts:93-107 | the pricing fields pass exactly when the base rules accept flags and prices and both currency rules hold; they never report the purpose banner |
| PropertySchemas.Step4IssuesAsWritten | src/components/property/AddProperty/validationSchemas.ts:108-110 | with neither flag set, the pricing schema ends with a path-less "at least one purpose" issue |
| PropertySchemas.PurposeTestNeverBlocks | src/components/property/AddProperty/validationSchemas.ts:108-110 | the object-level purpose test adds nothing to the form errors |
| PropertySchemas.Step4Issues | src/components/property/AddProperty/validationSchemas.ts:108-110 | corrected pricing schema: it passes exactly when the fields pass and a purpose is chosen, and reports the banner path exactly when none is |
| PropertySchemas.ImageTest | src/components/property/AddProperty/validationSchemas.ts:114-117 | the image test passes exactly when the object it reads holds at least one new or stored file |
| PropertySchemas.Step5IssuesAsWritten | src/components/property/AddProperty/validationSchemas.ts:112-117 | the media schema as written always ends with a failing path-less image issue |
| PropertySchemas.ImageTestAlwaysFailsUnseen | src/components/property/AddProperty/validationSchemas.ts:114-116 | the image issue never reaches the form errors; only a non-array `media` is reported |
| PropertySchemas.Step5Issues | src/components/property/AddProperty/validationSchemas.ts:112-117 | corrected media schema: `media` errs exactly when it is not an array or there are no new and no stored files |
| PropertySchemas.Step6Issues | src/components/property/AddProperty/validationSchemas.ts:119-121 | the amenities screen passes exactly when amenities is an array or absent |
| PropertySchemas.StepIssues | src/components/property/AddProperty/validationSchemas.ts:125-133 | every schema in the list reports on paths only, and the review schema is empty |
| PropertySchemas.StepIssuesAsWritten | src/components/property/AddProperty/validationSchemas.ts:125-133 | the list as written differs from the corrected one only at pricing and media |
| Navigator.Start | src/components/property/AddProperty/AddPropertyWizard.tsx:238 | the wizard opens on the first screen with nothing touched |
| Navigator.TouchAll | src/components/property/AddProperty/useAddPropertyWizard.ts:26-30 | every field with an error, and only those, is marked touched; the same holds for the copy in `src/components/apartment/useAddApartmentWizard.ts:23-27` |
| Navigator.GoToNextStep | src/components/property/AddProperty/useAddPropertyWizard.ts:14-33 | Next moves forward by one exactly when there are no errors and this is not the last screen; with errors it stays and touches exactly the erroneous fields; the same holds for the copy in `src/components/apartment/useAddApartmentWizard.ts:14-30` |
| Navigator.GoToPreviousStep | src/components/property/AddProperty/useAddPropertyWizard.ts:35-41 | Back moves one screen back exactly when not on the first, and otherwise changes nothing; the same holds for the copy in `src/components/apartment/useAddApartmentWizard.ts:32-38` |
| Navigator.BackPress | src/components/property/AddProperty/AddPropertyWizard.tsx:147 | the header back button closes the wizard on the first screen and otherwise goes one screen back |
| Navigator.JumpTo | src/components/property/AddProperty/AddPropertyWizard.tsx:182 | jumping sets the index and keeps the touched fields |
| Navigator.ProgressBounds | src/components/property/AddProperty/useAddPropertyWizard.ts:46 | progress lies in (0, 100] on every valid screen; the same holds for the copy in `src/components/apartment/useAddApartmentWizard.ts:43` |
| Navigator.ProgressFullIffLast | src/components/property/AddProperty/useAddPropertyWizard.ts:44-46 | progress is 100 exactly on the last screen; the same holds for the copy in `src/components/apartment/useAddApartmentWizard.ts:41-43` |
| Navigator.ProgressStrictlyIncreasing | src/components/property/AddProperty/useAddPropertyWizard.ts:46 | a later screen shows strictly more progress; the same holds for the copy in `src/components/apartment/useAddApartmentWizard.ts:43` |
| Navigator.ApplyKeepsValid | src/components/property/AddProperty/useAddPropertyWizard.ts:14-41 | Next and Back never leave the range of screens; the same holds for the copy in `src/components/apartment/useAddApartmentWizard.ts:14-38` |
| Navigator.Run | src/components/property/AddProperty/useAddPropertyWizard.ts:14-41 | any sequence of Next and Back presses ends on a valid screen of the same wizard; the same holds for the copy in `src/components/apartment/useAddApartmentWizard.ts:14-38` |
| Navigator.CleanNextsReachLast | src/components/property/AddProperty/useAddPropertyWizard.ts:19-23 | error-free Next presses reach the last screen after exactly the remaining count; the same holds for the copy in `src/components/apartment/useAddApartmentWizard.ts:17-21` |
| PropertyWizard.Steps | src/components/property/AddProperty/AddPropertyWizard.tsx:240-248 | the screens shown are all seven, minus location and amenities exactly for an inherited listing |
| PropertyWizard.StepsKeepOrder | src/components/property/AddProperty/AddPropertyWizard.tsx:243-248 | the shown screens keep the order of the full list |
| PropertyWizard.SchemaIndex | src/components/property/AddProperty/AddPropertyWizard.tsx:250 | each screen is validated by the schema at its own position in the full list |
| PropertyWizard.ActiveIssues | src/components/property/AddProperty/AddPropertyWizard.tsx:250 | the schema run on a screen is the one at its schema index in the list as written; away from pricing and media it equals the corrected one |
| PropertyWizard.ActiveIssuesCorrected | src/components/property/AddProperty/AddPropertyWizard.tsx:250 | corrected: the active screen's schema reports on field paths only |
| PropertyWizard.InheritedSchemasFollowScreens | src/components/property/AddProperty/AddPropertyWizard.tsx:241-250 | on an inherited listing, screens 2, 3 and 4 run the pricing, media and review schemas, both as written and corrected |
| PropertyWizard.Continue | src/components/property/AddProperty/AddPropertyWizard.tsx:133-139 | Continue, over the schemas as written, finalizes exactly on the last screen |
| PropertyWizard.ContinueIffClean | src/components/property/AddProperty/AddPropertyWizard.tsx:133-139 | before the last screen, Continue moves exactly when every issue of the screen's schema has no field path, and otherwise touches exactly the reported fields |
| PropertyWizard.ContinueCorrected | src/components/property/AddProperty/AddPropertyWizard.tsx:133-139 | corrected: Continue over the corrected schemas finalizes exactly on the last screen |
| PropertyWizard.ContinueIffCleanCorrected | src/components/property/AddProperty/AddPropertyWizard.tsx:133-139 | corrected: before the last screen, Continue moves exactly when the screen's schema reports nothing, and otherwise touches the reported fields |
| PropertyWizard.ContinueAgreesOffPricingAndMedia | src/components/property/AddProperty/validationSchemas.ts:125-133 | away from the pricing and media screens, Continue as written and corrected do the same |
| PropertyWizard.PricingContinueIffFieldsClean | src/components/property/AddProperty/validationSchemas.ts:93-110 | as written, the pricing screen moves exactly when the price fields are clean, whatever the sale and rent flags say |
| PropertyWizard.MediaContinueIffListShaped | src/components/property/AddProperty/validationSchemas.ts:112-117 | as written, the media screen moves exactly when `media` is an array or absent, whether or not any file is there |
| PropertyWizard.MediaScreenNeverDemandsImages | src/components/property/AddProperty/validationSchemas.ts:114-117 | with no files at all, the media screen as written lets Continue through; the corrected one holds it back |
| PropertyWizard.MediaAsWrittenPasses | src/components/property/AddProperty/validationSchemas.ts:114-117 | with an empty `media`, the media schema as written leaves no form errors |
| PropertyWizard.MediaBlocksEmpty | src/components/property/AddProperty/validationSchemas.ts:114-117 | with no new and no stored files, the corrected media schema leaves an error |
| PropertyWizard.PricingScreenNeverDemandsPurpose | src/components/property/AddProperty/validationSchemas.ts:108-110 | with neither sale nor rent chosen, the pricing screen as written lets Continue through; the corrected one holds it back |
| PropertyWizard.Skip | src/components/property/AddProperty/AddPropertyWizard.tsx:197-204 | Skip validates like Continue: it moves on the location screen exactly when the coordinates are valid, and on an inherited listing's pricing screen exactly when the price fields are clean |
| PropertyWizard.SkipCorrected | src/components/property/AddProperty/AddPropertyWizard.tsx:197-204 | corrected: Skip moves exactly when the corrected screen schema reports nothing |
| PropertyWizard.SkipScreen | src/components/property/AddProperty/AddPropertyWizard.tsx:197-204 | the screen at position 2, which shows Skip, is location, or pricing when inherited |
| PropertyWizard.EditAsWritten | src/components/property/AddProperty/steps/StepReview.tsx:27 | an Edit link jumps to its fixed index and keeps the touched fields |
| PropertyWizard.InheritedEditMisroutes | src/components/property/AddProperty/steps/StepReview.tsx:55-112 | on an inherited listing the Edit links for location, pricing and media open pricing, media and review, and the amenities link leaves the screen range; the amenities link sets index 5 of five screens, so `steps[5]` is undefined and the render at AddPropertyWizard.tsx:59 fails |
| PropertyWizard.ReviewEditTarget | src/components/property/AddProperty/steps/StepReview.tsx:27 | corrected Edit target: the index of the section's screen among those shown, or none when it is not shown |
| PropertyWizard.EditTargetsAgreeWhenComplete | src/components/property/AddProperty/steps/StepReview.tsx:55-112 | on a non-inherited listing the corrected targets equal the fixed indices |
| PropertyWizard.EditTargetsInherited | src/components/property/AddProperty/AddPropertyWizard.tsx:243-248 | on an inherited listing, location and amenities have no target, and pricing and media go to 2 and 3 |
| PropertyWizard.FirstShownTarget | src/components/property/AddProperty/steps/StepReview.tsx:27 | the target is the first position showing the section's screen |
| PropertyWizard.CoerceAll | src/components/property/AddProperty/AddPropertyWizard.tsx:67-76 | each listed field becomes its number, or null when falsy, and nothing else changes |
| PropertyWizard.PropertyPayload | src/components/property/AddProperty/AddPropertyWizard.tsx:63-77 | the payload is the form values with the area size as a number, the ids, rooms and prices as number-or-null, and amenities defaulted to empty |
| PropertyWizard.PayloadZeroes | src/components/property/AddProperty/AddPropertyWizard.tsx:67-68 | an empty area size is sent as 0, and zero bedrooms as null |
| PropertyWizard.DisabledPriceStillSent | src/components/property/AddProperty/AddPropertyWizard.tsx:70 | a sale price is sent even when sale is switched off |
| PropertyWizard.TypedDeletes | src/components/property/AddProperty/AddPropertyWizard.tsx:110-112 | one delete per removed file, in order, by its url and with its type, `photo` when it has none |
| PropertyWizard.PropertyDeletions | src/components/property/AddProperty/AddPropertyWizard.tsx:102-113 | an edit of a draft that started with stored files deletes each removed stored file, in order, by url and type under the saved id; otherwise nothing is deleted |
| PropertyWizard.RemovedFileDeleted | src/components/property/AddProperty/AddPropertyWizard.tsx:102-113 | every stored file the user removed gets a delete of its url with its type or `photo` |
| PropertyWizard.SaveCall | src/components/property/AddProperty/AddPropertyWizard.tsx:79-85 | an edit updates the listing under its id and a create creates it, both with the payload |
| PropertyWizard.PropertyPlan | src/components/property/AddProperty/AddPropertyWizard.tsx:80-113 | the calls are the save, then the upload exactly when there are new files, then the deletions |
| PropertyWizard.PropertyErrorText | src/components/property/AddProperty/AddPropertyWizard.tsx:119 | the error alert always has text, falling back to "Failed to save property" |
| PropertyWizard.FinalizeProperty | src/components/property/AddProperty/AddPropertyWizard.tsx:61-123 | success runs the whole plan and says created or updated; a failure stops after a prefix of the plan and shows the error text |
| PropertySteps.SelectType | src/components/property/AddProperty/steps/StepOwnership.tsx:61 | choosing a type card sets only the type |
| PropertySteps.SelectPurpose | src/components/property/AddProperty/steps/StepOwnership.tsx:102 | choosing a purpose card sets only the purpose, to an accepted value, and highlights that card |
| PropertySteps.UnlistedTypeBlocks | src/components/property/AddProperty/steps/StepOwnership.tsx:21-28 | the offered Apartment, Villa and Commercial cards each block the screen |
| PropertySteps.OfferedTypesFor | src/components/property/AddProperty/steps/StepOwnership.tsx:21-28 | corrected card list: exactly the chosen category's allowed types |
| PropertySteps.OfferedTypesForPass | src/components/property/AddProperty/validationSchemas.ts:63-72 | a type picked from the corrected list never errs on the type field |
| PropertySteps.SelectNoAgent | src/components/property/AddProperty/steps/StepOwnership.tsx:137-144 | "no agent" clears only the agent, and the no-agent card is highlighted |
| PropertySteps.SelectAgent | src/components/property/AddProperty/steps/StepOwnership.tsx:158 | choosing an agent stores the text of the agent's user id and nothing else |
| PropertySteps.SelectAgentHighlightsOne | src/components/property/AddProperty/steps/StepOwnership.tsx:148-158 | after choosing an agent, exactly the agents with that id are highlighted, and the no-agent card is not |
| PropertySteps.SelectedChoice | src/components/property/AddProperty/steps/StepDetails.tsx:61 | the selected option is one whose id reads as the same text as the value, when there is one |
| PropertySteps.SelectorText | src/components/property/AddProperty/steps/StepDetails.tsx:61-82 | with no matching option the selector shows its placeholder |
| PropertySteps.ChosenOptionShown | src/components/property/AddProperty/steps/StepDetails.tsx:61 | with distinct ids, selecting an option shows its name |
| PropertySteps.StringIdSelectsNumericOption | src/components/property/AddProperty/steps/StepDetails.tsx:61 | a text id from the form finds an option with the numeric id |
| PropertySteps.SlidersFollowType | src/components/property/AddProperty/steps/StepDetails.tsx:208 | the room sliders are shown exactly when the type is not Plot, in any letter case |
| PropertySteps.SliderChoices | src/components/property/AddProperty/steps/StepDetails.tsx:36 | a slider offers every count from 0 to its maximum |
| PropertySteps.SliderLabel | src/components/property/AddProperty/steps/StepDetails.tsx:48 | a count is labelled by its digits, and the maximum gets a trailing "+" |
| PropertySteps.SliderLabelsDistinct | src/components/property/AddProperty/steps/StepDetails.tsx:48 | different counts get different labels |
| PropertySteps.SliderBadge | src/components/property/AddProperty/steps/StepDetails.tsx:31 | the badge shows the chosen count, with "+" at the maximum |
| PropertySteps.SliderAndReviewAgree | src/components/property/AddProperty/steps/StepDetails.tsx:279-288 | the room sliders pass no maximum, so they take the default of 10 from line 23; their badge matches the review's room row for every count but zero, and reads "10+" at the maximum |
| PropertySteps.PickRooms | src/components/property/AddProperty/steps/StepDetails.tsx:280-288 | picking a count sets only that rooms field |
| PropertySteps.SetAvailability | src/components/property/AddProperty/steps/StepPricing.tsx:81-91 | a switch sets only its flag, on or off |
| PropertySteps.EnterPrice | src/components/property/AddProperty/steps/StepPricing.tsx:58 | typing a price stores the text and changes nothing else |
| PropertySteps.PriceInputText | src/components/property/AddProperty/steps/StepPricing.tsx:57 | an unset price shows an empty input |
| PropertySteps.PriceInputRoundTrip | src/components/property/AddProperty/steps/StepPricing.tsx:57-58 | typed text is shown back, also after switching the availability off and on again |
| PropertySteps.PurposeBanner | src/components/property/AddProperty/steps/StepPricing.tsx:97-101 | the banner shows exactly when the purpose error is set |
| PropertySteps.PurposeBannerNeverShown | src/components/property/AddProperty/steps/StepPricing.tsx:97-101 | with the schema as written, the banner never shows |
| PropertySteps.PurposeBannerIffNoPurpose | src/components/property/AddProperty/steps/StepPricing.tsx:97-101 | with the corrected schema, the banner shows its message exactly when neither sale nor rent is chosen |
| PropertySteps.EditIndexAsWritten | src/components/property/AddProperty/steps/StepReview.tsx:55-112 | every Edit link's fixed index is below 6 |
| PropertySteps.InfoText | src/components/property/AddProperty/steps/StepReview.tsx:44 | an unset value reads "N/A"; set text reads as itself and a set number is never blank; `true` shows nothing |
| PropertySteps.RoomRowText | src/components/property/AddProperty/steps/StepReview.tsx:66-67 | a room row reads "10+" at ten, "N/A" at zero, and otherwise the count |
| PropertySteps.ReviewNamesChosenAgent | src/components/property/AddProperty/steps/StepReview.tsx:21-58 | after choosing an agent from a list with distinct numeric ids, the review names that agent, or shows Direct Listing when the agent has no name |
| PropertySteps.OwnershipRows | src/components/property/AddProperty/steps/StepReview.tsx:55-58 | the type-and-agent card has the type, purpose and agent rows; a valid purpose reads as itself, an unset type reads "N/A", and the agent row names the matched agent |
| PropertySteps.ReviewAgentRow | src/components/property/AddProperty/steps/StepReview.tsx:55-58 | after choosing an agent with a non-empty name from a list with distinct numeric ids, the agent row shows that name |
| PropertySteps.CoordText | src/components/property/AddProperty/steps/StepReview.tsx:76-79 | an unset coordinate reads "Not set"; a set one is shown with six decimals |
| PropertySteps.MapRows | src/components/property/AddProperty/steps/StepReview.tsx:76-79 | the map card has a Lat and a Lng badge; a numeric coordinate reads "Not set" exactly when it is zero |
| PropertySteps.MapRowsKeptByLocationChoices | src/components/property/AddProperty/steps/StepDetails.tsx:299-321 | choosing a province or a district leaves the map badges unchanged |
| PropertySteps.DetailsRows | src/components/property/AddProperty/steps/StepReview.tsx:61-70 | the details card has five rows, or three without rooms, from Title to Location |
| PropertySteps.PlotAgreement | src/components/property/AddProperty/steps/StepReview.tsx:64 | for a non-empty type, the review hides rooms exactly when the details screen hides the sliders |
| PropertySteps.PricingRows | src/components/property/AddProperty/steps/StepReview.tsx:84-90 | one price row per enabled availability, sale first |
| PropertySteps.NoMediaNote | src/components/property/AddProperty/steps/StepReview.tsx:107-108 | "No media uploaded" shows only when there are no new and no stored files, which the corrected media schema rejects; it shows for two empty lists and never when the stored list is missing |
| PropertySteps.AmenityChips | src/components/property/AddProperty/steps/StepReview.tsx:112-125 | the chips are the amenities array, or none when it is not an array |
| LocationCascade.SettleLocation | src/components/property/AddProperty/steps/StepDetails.tsx:154-170 | the effects clear the district only without a province and the area only without a district, and touch nothing else |
| LocationCascade.SettleLocationIdempotent | src/components/property/AddProperty/steps/StepDetails.tsx:154-170 | running the clearing effects twice changes nothing more |
| LocationCascade.ChooseProvince | src/components/property/AddProperty/steps/StepDetails.tsx:154-161 | choosing a province sets it and touches only the location ids |
| LocationCascade.ProvinceChangeCascade | src/components/property/AddProperty/steps/StepDetails.tsx:154-161 | a new non-empty province keeps the old district; an empty one clears district and area |
| LocationCascade.ChooseDistrict | src/components/property/AddProperty/steps/StepDetails.tsx:163-170 | choosing a district under a province sets it and touches only district and area |
| LocationCascade.ChooseArea | src/components/property/AddProperty/steps/StepDetails.tsx:329 | choosing an area sets only the area |
| LocationCascade.NoErrorShownAtStart | src/components/property/AddProperty/steps/StepDetails.tsx:305-331 | before any Continue no location error shows (the apartment location screen, StepApartmentLocation.tsx:104-130, is the same) |
| LocationCascade.RefusedContinueShowsErrors | src/components/property/AddProperty/steps/StepDetails.tsx:305-331 | after a refused Continue a location field's error shows exactly when the field has a message (the same in StepApartmentLocation.tsx:104-130) |
| PropertyEdit.LoadEffect | src/features/property/screens/create.tsx:26-34 | the screen waits for auth, sends a signed-out user to login, and fetches only when signed in with an id |
| PropertyEdit.SpinnerWhileLoading | src/features/property/screens/create.tsx:90-96 | the spinner covers the wait for auth, an edit screen opens on it, and a create screen with auth settled never shows it |
| PropertyEdit.AmenitiesOf | src/features/property/screens/create.tsx:62-66 | stored amenities are kept when an array; anything that is not array-like text becomes empty |
| PropertyEdit.MapListingAsWritten | src/features/property/screens/create.tsx:39-67 | the edit succeeds exactly when amenities and photos convert, and then fills every mapped field |
| PropertyEdit.EditBlocksOwnershipStep | src/features/property/screens/create.tsx:39-67 | the mapped values lack a category, so the owner & type screen always reports it |
| PropertyEdit.NoCategoryBlocks | src/components/property/AddProperty/validationSchemas.ts:62 | any values without a category fail the owner & type screen on the category field |
| PropertyEdit.EditShowsAllScreens | src/features/property/screens/create.tsx:39-67 | an edited listing is never treated as inherited, so all seven screens are shown |
| PropertyEdit.MapListing | src/features/property/screens/create.tsx:39-67 | corrected mapping: the same values plus the stored category, defaulting to Normal |
| PropertyEdit.EditedFieldKept | src/features/property/screens/create.tsx:39-67 | the correction changes no field other than the category |
| PropertyEdit.EditedListingPassesOwnership | src/features/property/screens/create.tsx:39-67 | a stored listing with a valid category, purpose and allowed type passes the owner & type screen after the corrected mapping |
| PropertyEdit.MappedPurpose | src/features/property/screens/create.tsx:42 | the purpose is the stored one, defaulting to SALE |
| PropertyEdit.MappedType | src/features/property/screens/create.tsx:41 | the type is the stored one, defaulting to House |
| PropertyEdit.MappedAgent | src/features/property/screens/create.tsx:40 | the agent is always text |
| PropertyEdit.MappedNoOwner | src/features/property/screens/create.tsx:39-67 | the edit never fills the owner |
| PropertyEdit.MappedNumberFields | src/features/property/screens/create.tsx:48-58 | ids and prices are mapped to their text, or empty when unset |
| PropertyEdit.EditedNumbersRoundTrip | src/features/property/screens/create.tsx:48-58 | saving an untouched edit sends the stored non-zero ids and prices back as the same numbers |
| PropertyEdit.PayloadReadsBack | src/components/property/AddProperty/AddPropertyWizard.tsx:70-74 | a field holding an integer's text is sent as that integer |
| PropertyEdit.AfterFetch | src/features/property/screens/create.tsx:34-74 | a throw reports failure and keeps no values; an empty answer keeps no values and no failure; a listing fails exactly when its amenities or photos cannot be converted, and otherwise loads the values mapped as written, without a category |
| PropertyEdit.LoadedEditBlocksOwnership | src/features/property/screens/create.tsx:34-74 | a listing loaded for editing opens on an ownership step that reports issues |
| PropertyEdit.AfterFetchCorrected | src/features/property/screens/create.tsx:34-74 | corrected: fails and loads exactly when the as-written fetch does, and adds only the listing's category |
| PropertyEdit.WizardValues | src/components/property/AddProperty/AddPropertyWizard.tsx:240 | without starting values the wizard uses the blank form |
| PropertyEdit.EmptyAnswerOpensBlank | src/features/property/screens/create.tsx:38 | an empty answer opens the blank seven-screen form |
| Submission.FileParts | src/components/property/AddProperty/AddPropertyWizard.tsx:89-98 | one upload part per new file, carrying its uri, name and type |
| Submission.ExistingMediaOf | src/features/property/screens/create.tsx:61 | unset photos give no stored files; an array gives one `{url, type: photo}` per entry |
| Submission.DeletedMedia | src/components/property/AddProperty/AddPropertyWizard.tsx:106-108 | the deleted files are exactly the initial ones whose url no current file has |
| Submission.DeletedMediaInOrder | src/components/property/AddProperty/AddPropertyWizard.tsx:106-108 | the deletions follow the initial order |
| Submission.KeepingAllDeletesNone | src/components/property/AddProperty/AddPropertyWizard.tsx:106-108 | keeping every stored file deletes none |
| Submission.RemovingOneDeletesIt | src/components/property/AddProperty/AddPropertyWizard.tsx:106-112 | with distinct urls, removing one stored file deletes exactly that file |
| Submission.Plan | src/components/property/AddProperty/AddPropertyWizard.tsx:80-113 | the plan is the save, then the optional upload, then the deletions |
| Submission.Perform | src/components/property/AddProperty/AddPropertyWizard.tsx:61-123 | the calls run in order; a failure stops right after the failing call, otherwise the whole plan runs |
| Submission.FirstTruthy | src/components/apartment/AddApartmentWizard.tsx:110 | the message is the first set candidate, else the fallback |
| ApartmentSchemas.BlankFacilities | src/components/apartment/validationSchemas.ts:14-21 | every facility starts off, and "others" starts empty |
| ApartmentSchemas.InitialValues | src/components/apartment/validationSchemas.ts:3-23 | the blank building has no new files, blank facilities and no stored-files key |
| ApartmentSchemas.CountIssue | src/components/apartment/validationSchemas.ts:27-28 | a count passes exactly when it casts to a positive integer, with the number message for NaN and the required message when unset |
| ApartmentSchemas.CountTextAccepted | src/components/apartment/validationSchemas.ts:27-28 | an integer's text is accepted as a count exactly when the integer is positive |
| ApartmentSchemas.IntTextCast | src/components/apartment/validationSchemas.ts:27-28 | Yup's number cast reads an integer's text as that integer |
| ApartmentSchemas.Step1Issues | src/components/apartment/validationSchemas.ts:25-30 | details pass exactly when name and description are given and both counts are positive integers |
| ApartmentSchemas.Step2Issues | src/components/apartment/validationSchemas.ts:32-39 | location passes exactly when the three ids and the address are given and the coordinates are absent, null or numbers |
| ApartmentSchemas.Step3Issues | src/components/apartment/validationSchemas.ts:41-50 | facilities pass exactly when they are absent, or an object of optional booleans with optional text in "others" |
| ApartmentSchemas.Step4Issues | src/components/apartment/validationSchemas.ts:52-54 | photos pass exactly when `media` is a non-empty array |
| ApartmentSchemas.PhotosRuleIgnoresStoredFiles | src/components/apartment/validationSchemas.ts:52-54 | the photos rule does not look at the stored files |
| ApartmentSchemas.StepIssues | src/components/apartment/validationSchemas.ts:56-61 | every step schema reports on paths only |
| ApartmentSchemas.BlankFormBlocksDetails | src/components/apartment/validationSchemas.ts:25-30 | the blank building cannot pass details |
| ApartmentSchemas.BlankFormBlocksLocation | src/components/apartment/validationSchemas.ts:32-39 | the blank building cannot pass location |
| ApartmentSchemas.BlankFormFacilitiesAndPhotos | src/components/apartment/validationSchemas.ts:41-54 | the blank building passes facilities and fails photos |
| ApartmentSteps.EnterAddress | src/components/apartment/steps/StepApartmentLocation.tsx:144 | typing the address sets only the address |
| ApartmentSteps.AddressRequirement | src/components/apartment/validationSchemas.ts:36 | the address rule holds exactly when the typed text is non-empty |
| ApartmentSteps.AddressKeepsLocation | src/components/apartment/steps/StepApartmentLocation.tsx:144 | typing the address keeps the ids and coordinates |
| ApartmentSteps.ChosenLocationPasses | src/components/apartment/steps/StepApartmentLocation.tsx:30-46 | choosing province, district and area and typing an address passes the location step |
| ApartmentSteps.ChoicesStored | src/components/apartment/steps/StepApartmentLocation.tsx:30-46 | the three choices are stored and the coordinates are kept |
| ApartmentSteps.CoordinatesKept | src/components/apartment/steps/StepApartmentLocation.tsx:30-46 | edits limited to the location ids keep the coordinates |
| ApartmentSteps.LocationStepPasses | src/components/apartment/validationSchemas.ts:32-39 | given ids, address and numeric-or-unset coordinates pass the step |
| ApartmentSteps.SetFacility | src/components/apartment/steps/StepApartmentFacilities.tsx:41-43 | a facility edit sets one key of the facilities object and keeps the rest |
| ApartmentSteps.ToggleFacility | src/components/apartment/steps/StepApartmentFacilities.tsx:19-43 | a toggle flips one facility to a boolean and keeps the others and "others" |
| ApartmentSteps.ToggleTwiceRestores | src/components/apartment/steps/StepApartmentFacilities.tsx:19-43 | toggling twice restores the facility's state |
| ApartmentSteps.EnterOtherFacilities | src/components/apartment/steps/StepApartmentFacilities.tsx:91 | typing other facilities sets "others" and keeps the toggles |
| ApartmentSteps.FacilitiesEditsKeepStepValid | src/components/apartment/validationSchemas.ts:41-50 | toggles and typing keep a valid facilities step valid |
| ApartmentSteps.NewFile | src/components/apartment/steps/StepApartmentMedia.tsx:52-56 | a picked file keeps its uri and always has a name and a type, its own when given |
| ApartmentSteps.Accepted | src/components/apartment/steps/StepApartmentMedia.tsx:46-57 | the accepted files are the picked ones that fit the size limit, in order |
| ApartmentSteps.AllFitAllAccepted | src/components/apartment/steps/StepApartmentMedia.tsx:46-57 | when every file fits, every file is accepted |
| ApartmentSteps.HandlePick | src/components/apartment/steps/StepApartmentMedia.tsx:44-58 | a cancelled pick changes nothing; a pick appends the accepted files to the new files |
| ApartmentSteps.PickKeepsEarlierFiles | src/components/apartment/steps/StepApartmentMedia.tsx:45 | earlier new files stay first, in place |
| ApartmentSteps.RemoveMedia | src/components/apartment/steps/StepApartmentMedia.tsx:67-71 | removing a new file splices it out of `media` |
| ApartmentSteps.RemoveMediaDropsOne | src/components/apartment/steps/StepApartmentMedia.tsx:67-71 | removing at a valid index drops exactly that file |
| ApartmentSteps.RemoveExistingMedia | src/components/apartment/steps/StepApartmentMedia.tsx:73-77 | removing a stored file splices it out of `existingMedia` |
| ApartmentSteps.RemovedStoredFileIsDeleted | src/components/apartment/steps/StepApartmentMedia.tsx:73-77 | with distinct urls, removing a stored file makes it the one deletion |
| ApartmentSteps.StoredFilesHideFailingRule | src/components/apartment/steps/StepApartmentMedia.tsx:153 | with stored files and no new ones, the rule fails but no error is shown |
| ApartmentSteps.ErrorShownWithoutStoredFiles | src/components/apartment/steps/StepApartmentMedia.tsx:153 | with no files at all and the field touched, the error is shown |
| ApartmentWizard.ScreensMatchSchemas | src/components/apartment/AddApartmentWizard.tsx:28-33 | four screens, one per schema, with photos last |
| ApartmentWizard.ApartmentProgress | src/components/apartment/useAddApartmentWizard.ts:43 | the apartment header shows a quarter per screen, and 100 exactly on the photos screen |
| ApartmentWizard.CleanNextsReachPhotos | src/components/apartment/useAddApartmentWizard.ts:14-21 | three error-free Next presses from the details screen reach the photos screen, the last one |
| ApartmentWizard.BackFromScreen | src/components/apartment/useAddApartmentWizard.ts:32-38 | Back from any screen but the first moves one screen back, never onto photos |
| ApartmentWizard.Continue | src/components/apartment/AddApartmentWizard.tsx:117-123 | Continue submits exactly on the last screen |
| ApartmentWizard.ContinueIffClean | src/components/apartment/AddApartmentWizard.tsx:117-123 | before the last screen, Continue moves one screen exactly when the screen is clean, and otherwise touches the reported fields |
| ApartmentWizard.SubmitsWithoutPhotos | src/components/apartment/AddApartmentWizard.tsx:117-123 | on the photos screen with no files the rule fails, yet Continue submits |
| ApartmentWizard.PhotosIssues | src/components/apartment/validationSchemas.ts:52-54 | corrected photos rule: it passes exactly when `media` is an array or unset and there is at least one new or stored file |
| ApartmentWizard.ContinueChecked | src/components/apartment/AddApartmentWizard.tsx:117-123 | corrected Continue matches Continue before the last screen |
| ApartmentWizard.CheckedSubmitNeedsPhotos | src/components/apartment/AddApartmentWizard.tsx:117-123 | corrected Continue submits exactly when the photos rule passes, and otherwise stays and shows the photos error |
| ApartmentWizard.ApartmentPayload | src/components/apartment/AddApartmentWizard.tsx:56-69 | the payload holds exactly the counts and ids as number-or-null and the plain fields as entered |
| ApartmentWizard.PayloadShape | src/components/apartment/AddApartmentWizard.tsx:56-69 | the payload never carries files |
| ApartmentWizard.PayloadReadsOnlyListed | src/components/apartment/AddApartmentWizard.tsx:56-69 | values that agree on the listed fields give the same payload |
| ApartmentWizard.ApartmentSave | src/components/apartment/AddApartmentWizard.tsx:71-77 | an edit with an id updates under that id, anything else creates, always with the payload |
| ApartmentWizard.UntypedDeletes | src/components/apartment/AddApartmentWizard.tsx:101-103 | one untyped delete per removed file, by url |
| ApartmentWizard.ApartmentDeletions | src/components/apartment/AddApartmentWizard.tsx:93-104 | deletions happen only in an edit whose starting values had stored files, one per removed file |
| ApartmentWizard.ApartmentPlan | src/components/apartment/AddApartmentWizard.tsx:71-104 | the calls are the save, then the upload exactly when there are new files, then the deletions |
| ApartmentWizard.EditWithoutIdCreates | src/components/apartment/AddApartmentWizard.tsx:72-77 | an edit without an id creates, and uploads under the new id |
| ApartmentWizard.ApartmentErrorText | src/components/apartment/AddApartmentWizard.tsx:110 | the alert shows the server error, else its message, else the thrown message, else "Failed to save apartment" |
| ApartmentWizard.FinalizeApartment | src/components/apartment/AddApartmentWizard.tsx:52-115 | success runs the whole plan and says created or updated; a failure stops after a prefix and shows the error text |
| ApartmentStore.FetchApartments | src/stores/ApartmentStore.ts:16-33 | a success replaces the list and clears the error; a failure keeps it and records the message; loading ends |
| ApartmentStore.FetchMyApartments | src/stores/ApartmentStore.ts:35-52 | the same for the user's own list |
| ApartmentStore.FetchApartmentById | src/stores/ApartmentStore.ts:54-85 | a bad id returns null untouched; a found building becomes current with an id; an unidentified answer clears current; a failure records the error and returns nothing |
| ApartmentStore.Normalize | src/stores/ApartmentStore.ts:63-67 | a building known only by `apartment_id` gains an `id`; nothing else changes |
| ApartmentStore.FetchApartmentUnits | src/stores/ApartmentStore.ts:87-104 | a success replaces the units and clears the error; a failure keeps them and records the message |
| ApartmentStore.CreateApartment | src/stores/ApartmentStore.ts:106-128 | a created building with an id is put first in the user's list; otherwise it throws, with the missing-id error on an answer without one |
| ApartmentStore.CreatedIsFirst | src/stores/ApartmentStore.ts:113-117 | after a create the new building heads the list, followed by the old list |
| ApartmentStore.Replace | src/stores/ApartmentStore.ts:144-151 | the first building with the id, and the current one if it matches, are replaced |
| ApartmentStore.ReplaceTouchesFirstMatchOnly | src/stores/ApartmentStore.ts:144-151 | only the first match in the list changes |
| ApartmentStore.UpdateApartment | src/stores/ApartmentStore.ts:130-165 | a bad id throws untouched; an identified answer replaces the building; anything else records the error and throws |
| ApartmentStore.DeleteApartment | src/stores/ApartmentStore.ts:167-192 | a bad id throws untouched; a success drops the building from both lists and clears it if current |
| ApartmentStore.DeleteRemovesAll | src/stores/ApartmentStore.ts:175-176 | after a delete no listed building has the id, every other one remains, in order |
| ApartmentStore.DeleteIdempotent | src/stores/ApartmentStore.ts:175-176 | deleting again changes nothing more |
| ApartmentStore.ChangeFiles | src/stores/ApartmentStore.ts:194-228 | an upload or delete answer replaces the building; loading and error are untouched |
| ApartmentStore.LoadingEnds | src/stores/ApartmentStore.ts:80-84 | every request with a good id ends with loading off |
| ApartmentStore.BadIdChangesNothing | src/stores/ApartmentStore.ts:55-57 | a bad id leaves the state unchanged in fetch, update and delete |
| ApartmentEdit.ApartmentId | src/features/apartment/screens/create.tsx:70 | the wizard gets a number or NaN in edit mode and nothing otherwise |
| ApartmentEdit.MappedFacilities | src/features/apartment/screens/create.tsx:35-42 | each stored facility becomes a boolean, and "others" the stored text or empty |
| ApartmentEdit.MappedFacilitiesField | src/features/apartment/screens/create.tsx:35-42 | the facilities field holds the mapped facilities |
| ApartmentEdit.EditedFacilitiesPass | src/features/apartment/screens/create.tsx:35-42 | the mapped facilities pass the facilities step when the stored "others" is text or unset |
| ApartmentEdit.MapApartment | src/features/apartment/screens/create.tsx:24-45 | the mapping succeeds exactly when the stored photos convert, and then fills every edited field |
| ApartmentEdit.MappedNumbers | src/features/apartment/screens/create.tsx:26-31 | counts become their text, and ids their text or empty |
| ApartmentEdit.StoredNumbersRoundTrip | src/features/apartment/screens/create.tsx:26-31 | saving an untouched edit sends the stored counts and ids back, except a zero id, which becomes null |
| ApartmentEdit.NumberTextReadsBack | src/components/apartment/AddApartmentWizard.tsx:64-68 | an integer's text in a number field is sent as that integer |
| ApartmentEdit.MappedTextFields | src/features/apartment/screens/create.tsx:25-34 | name, description and address are the stored text or empty |
| ApartmentEdit.MappedCoordinates | src/features/apartment/screens/create.tsx:25-34 | coordinates are the stored ones or null |
| ApartmentEdit.StoredPlainFieldsRoundTrip | src/features/apartment/screens/create.tsx:25-34 | saving an untouched edit sends set text and coordinates back unchanged, and a zero coordinate as null |
| ApartmentEdit.MappedStoredPhotos | src/features/apartment/screens/create.tsx:43-44 | stored photos become stored files, with no new files |
| ApartmentEdit.UntouchedPhotosDeleteNothing | src/features/apartment/screens/create.tsx:43 | saving without removing photos deletes nothing |
| ApartmentEdit.FormValues | src/components/apartment/AddApartmentWizard.tsx:213 | without loaded values the wizard starts blank |
| ApartmentEdit.Load | src/features/apartment/screens/create.tsx:18-56 | the load goes through the store; an empty answer gives no values and no failure, and only a failed conversion fails |
| ApartmentEdit.FailedFetchOpensBlank | src/features/apartment/screens/create.tsx:21-23 | a failed request opens the blank form, and the save still updates under the route id |
| ApartmentEdit.NonNumericIdCreates | src/features/apartment/screens/create.tsx:22 | a non-numeric id loads nothing and the save creates |
| ApartmentEdit.StoredBuildingOpens | src/features/apartment/screens/create.tsx:22-45 | a stored building with an id and photo list opens with its values |
| ForgotPassword.GuardMessage | src/features/auth/screens/forgot-password.tsx:34-97 | each button is refused exactly when its input is missing, and reset also when the passwords differ or are shorter than six UTF-16 code units |
| ForgotPassword.Press | src/features/auth/screens/forgot-password.tsx:34-97 | a refused press shows the message and sends nothing; otherwise it sends the button's request with loading on and the error cleared |
| ForgotPassword.FailureText | src/features/auth/screens/forgot-password.tsx:46-102 | a failed request always shows some text |
| ForgotPassword.Settle | src/features/auth/screens/forgot-password.tsx:40-106 | an answer moves to the request's next step, restarts the timer after sending a code and goes to login after reset; a rejection only shows the error |
| ForgotPassword.Tick | src/features/auth/screens/forgot-password.tsx:23-32 | a tick lowers a running timer by one and changes nothing else |
| ForgotPassword.TicksCountDown | src/features/auth/screens/forgot-password.tsx:23-32 | n ticks lower the timer by n, stopping at zero |
| ForgotPassword.ResendWaitsForTimer | src/features/auth/screens/forgot-password.tsx:232 | after a code is sent, Resend is shown and becomes enabled exactly after the delay |
| ForgotPassword.BackToIdentify | src/features/auth/screens/forgot-password.tsx:152 | going back from the email step returns to identify and changes nothing else |
| ForgotPassword.StaysValid | src/features/auth/screens/forgot-password.tsx:11-32 | the step stays in 1..4 and the timer within its range through every action |
| ForgotPassword.StepMovesByOne | src/features/auth/screens/forgot-password.tsx:34-85 | a sent request advances exactly one step when answered, except Resend and Reset |
| ForgotPassword.ResetChecks | src/features/auth/screens/forgot-password.tsx:87-94 | reset is sent only with matching passwords of at least six UTF-16 code units, and a mismatch says so |
| ForgotPassword.AstralPasswordLongEnough | src/features/auth/screens/forgot-password.tsx:92-95 | three emoji above U+FFFF are six code units long, so the length rule lets them through |
| ForgotPassword.Bars | src/features/auth/screens/forgot-password.tsx:314-321 | there are four progress bars |
| ForgotPassword.BarsShowStep | src/features/auth/screens/forgot-password.tsx:314-321 | exactly the bars up to the current step are lit |
| PropertyCard.BadgesFollowPurpose | src/components/PropertyCard.tsx:71-72 | BOTH shows both badges; without the flags and BOTH, at most one shows |
| PropertyCard.Title | src/components/PropertyCard.tsx:74 | the title is the listing's, else its type, else the default |
| PropertyCard.Candidates | src/components/PropertyCard.tsx:75-81 | at most five address parts, all set |
| PropertyCard.DedupBy | src/components/PropertyCard.tsx:82-90 | the loop keeps the trimmed first occurrence of each non-empty key |
| PropertyCard.UniqueByKeys | src/components/PropertyCard.tsx:82-90 | the kept parts have exactly the keys seen in the input |
| PropertyCard.UniqueByDistinct | src/components/PropertyCard.tsx:82-90 | no two kept parts share a key |
| PropertyCard.UniqueByNonEmpty | src/components/PropertyCard.tsx:85-86 | no kept part has an empty key |
| PropertyCard.AddressPartsDistinct | src/components/PropertyCard.tsx:82-90 | the address parts are non-blank and distinct ignoring case and spaces, and cover every key in the input |
| PropertyCard.FullAddress | src/components/PropertyCard.tsx:75-91 | the address is the de-duplicated parts joined by ", ", and a non-text part makes it throw |
| PropertyCard.Dots | src/components/PropertyCard.tsx:103-107 | no dots for one image; otherwise between two and the maximum, with only the active one marked |
| PropertyCard.OneDotMarked | src/components/PropertyCard.tsx:107-113 | at most one dot is marked, and the active one is when it is shown |
| Avatar.AvatarSize | src/components/Avatar.tsx:17-25 | a number is used as is; sm, lg and xl map to their sizes, and any other name to 48 |
| Avatar.UnknownNamesAreMedium | src/components/Avatar.tsx:15-25 | an unknown size name gets the default 48 |
| Avatar.SplitJoins | src/components/Avatar.tsx:42 | splitting on spaces and joining back gives the name |
| Avatar.SplitInvertsJoin | src/components/Avatar.tsx:42 | joining space-free words and splitting gives them back |
| Avatar.FirstCharsOfSplit | src/components/Avatar.tsx:42-44 | the first letters contain no space, and are empty exactly for an all-space name |
| Avatar.Initials | src/components/Avatar.tsx:40-47 | at most two letters, and none without a name |
| Avatar.InitialsOfName | src/components/Avatar.tsx:40-47 | initials exist exactly when the name has a non-space, and are upper-cased letters of the name |
| Avatar.TwoWordInitials | src/components/Avatar.tsx:40-46 | two words give their upper-cased first letters |
| Avatar.ImageSource | src/components/Avatar.tsx:30-38 | no picture gives no source |
| Avatar.StoredPictureResolved | src/components/Avatar.tsx:30-38 | a stored picture shows through the resolver's url, and falls back when the resolver gives nothing |
| Avatar.LocalPictureIgnoresResolver | src/components/Avatar.tsx:33-38 | a local picture is shown as it is |
| Avatar.FaceOf | src/components/Avatar.tsx:56-75 | a picture always has a url, and letters are one or two |
| Avatar.NoPictureFallsBack | src/components/Avatar.tsx:56-75 | without a picture, letters show exactly when the name has a non-space, otherwise the person icon |

## Left out

- Rendering, styling, animation, navigation and toasts are not modelled. Only the values that
  decide what a screen shows are modelled.
- Network requests are not modelled. Each request is an input answer (`Response`, `Reply`,
  `Answer`) or a failure index into the save plan. Concurrency and ordering between requests
  are not modelled.
- `getImageUrl`, `validateFileSize`, `JSON.parse`, the clock and the image picker are
  parameters or inputs.
- Numbers are integers. Fractional prices, sizes and coordinates, and floating-point
  formatting, are not modelled. `toFixed(6)` is shown for integers only.
- Progress is computed on reals, not on JavaScript floating point.
- Case mapping is ASCII-only.
- Yup's own messages for wrong types are paraphrased. The messages the code writes are kept.
- `propertyBaseSchema` is not part of this model. Its rules for area size, rooms, flags and
  prices are the `BaseRules` parameter.
- The wizards' unused `activeSchema` export is not modelled. `router` and `onFinish` are the
  outcome of a finalize.
- The resend timer is modelled as discrete ticks.
- The apartment details, unit and dashboard screens, the client store and the services are
  not part of this model.
- PropertyEdit.AmenitiesOf: array-like text is left to the `JSON.parse` parameter, so its
  result is only constrained for arrays and non-array text.
- ForgotPassword.FailureText: states only that some text is shown, since the server's error
  shapes are not part of this model.
- PropertySteps.SelectorText: states only the placeholder case; the shown name is stated for
  distinct ids by `ChosenOptionShown`.
- Avatar.ImageSource: states only the no-picture case; the others are stated through `FaceOf`.
- Avatar.Initials: takes whole characters. JavaScript's `n[0]` and `slice(0, 2)` take UTF-16
  code units, so for a word that starts with a character above U+FFFF the code shows half of a
  surrogate pair, and the model shows the whole character. A lone surrogate is not a Dafny
  `char`. Names of characters up to U+FFFF agree.
- Avatar.InitialsOfName: states its initials in whole characters, with the same surrogate-pair
  gap as `Initials`.
- Avatar.TwoWordInitials: states its initials in whole characters, with the same surrogate-pair
  gap as `Initials`.
- PropertySteps.NoMediaNote: returns false when `media` is undefined or null, where the code
  reads `values.media.length` and throws.
- Validation.NumberCast: sends an array to NaN. Yup reads an array such as `[5]` through
  `parseFloat` as 5; no form field holds an array where a number is expected.
- Js.NumberOfString: reads only integer numerals. Text that JavaScript reads as a number with
  a fraction, an exponent or a hex, binary or octal prefix ("2.5", "2.0", "1e3", "0x10"), and
  "Infinity", read as NaN here, because `Value` holds only integers.
- Validation.NullableNumberIssue: through `NumberOfString`, it reports text such as "33.5",
  which Yup accepts, as not a number. Its promise covers integer text only.
- ApartmentSchemas.CountIssue: through `NumberOfString`, it reports "2.5" with the number
  message where Yup gives the integer message. It also reports "2.0" and "1e1", which Yup
  accepts, as not a number.
- PropertyWizard.PropertyPayload: sends NaN for fractional or exponent text in a numeric
  field, where the code sends that number.
- ApartmentWizard.ApartmentPayload: sends NaN for fractional or exponent text in a numeric
  field, where the code sends that number.

## Findings

| source | as written | input that shows it | evidently intended | confidence | as-written member | corrected member |
|---|---|---|---|---|---|---|
| src/components/property/AddProperty/validationSchemas.ts:108-110 | the at-least-one-purpose test is an object-level test with no path; Formik drops path-less errors, so it never blocks Continue and the pricing banner never shows | sale and rent both off, other pricing fields valid | Continue held back and the banner shown until sale or rent is on | not executed | PropertySchemas.PurposeTestNeverBlocks | PropertySchemas.Step4Issues |
| src/components/property/AddProperty/validationSchemas.ts:114-117 | the image test reads `this.parent`, which is undefined for the root object, so it always fails; being path-less it is dropped, so media never blocks | empty `media` and empty `existingMedia` on the media screen | Continue held back until at least one new or stored image | not executed | PropertySchemas.ImageTestAlwaysFailsUnseen | PropertySchemas.Step5Issues |
| src/components/property/AddProperty/steps/StepReview.tsx:55-112 | Edit links jump to fixed indices 0..5 | a listing with `parent_property_id` set (five screens): Edit on pricing opens media | each link opens its own screen among those shown | not executed | PropertyWizard.InheritedEditMisroutes | PropertyWizard.ReviewEditTarget |
| src/features/property/screens/create.tsx:39-67 | the edit mapping does not copy `property_category`, so the ownership screen reports a missing category for every edited listing | any stored listing that maps | the stored category, defaulting to Normal | not executed | PropertyEdit.EditBlocksOwnershipStep | PropertyEdit.EditedListingPassesOwnership |
| src/components/property/AddProperty/steps/StepOwnership.tsx:21-28 | type cards include Apartment, Villa and Commercial, which no category allows | choosing the Villa card | only the types the chosen category allows | not executed | PropertySteps.UnlistedTypeBlocks | PropertySteps.OfferedTypesForPass |
| src/components/apartment/AddApartmentWizard.tsx:117-123 | Continue on the last screen submits without validating the photos step | photos screen with an empty `media` | submit only when the photos rule passes | not executed | ApartmentWizard.SubmitsWithoutPhotos | ApartmentWizard.CheckedSubmitNeedsPhotos |
