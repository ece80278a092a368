# Restaurant form, hand-off service and API lookup — a Dafny model

This project models the core of a small Angular restaurant-management app:

- **The restaurant form component** (`ResturantForm`). It has eight bound
  inputs, a success message, an error banner and a `fieldErrors` dictionary.
  It validates the inputs with a Zod object schema, submits an insert or an
  update, and, when it has an id, fills itself from a record some caller
  stored in the hand-off service.
- **The hand-off service** (`RestaurantDataService`), a one-slot holder.
- **The API module**: the record shapes, the lookup by id, and the write
  operations, whose bodies are currently commented out.

The model has six modules:

- `Wrappers`: the `Option` type.
- `Api`: the records, the lookup and the no-op writes.
- `JsText`: ECMAScript `trim` and `replace(/\s/g, '')`.
- `RestaurantSchema`: the schema run as Zod runs it.
  - Fields are checked in declaration order.
  - `min(1)` sees the untrimmed value.
  - A failing check does not stop later checks.
  - The ordered issue list is written into `fieldErrors` one key at a time.
- `Services`: the service as a class with one mutable field.
- `Form`: the component as a class whose methods update its fields.

The outcome of the awaited API call is a `settle` parameter, and the write that
was awaited is returned as a value (`ApiCall`).

## Model

| member | source | states |
|---|---|---|
| Api.FindById | src/api/index.ts:90-91 | the result is a listed record with that id; it is null exactly when no record has the id |
| Api.FindByIdIsFirstMatch | src/api/index.ts:90 | when several records share the id, the first one in list order is returned |
| Api.GetRestaurantById | src/api/index.ts:87-96 | it fails, with the one fixed message, exactly when fetching the list failed; otherwise it returns the lookup's record or null |
| Api.InsertRestaurant | src/api/index.ts:50-80 | the promise resolves, the backend list is unchanged, and so no lookup result changes |
| Api.UpdateRestaurant | src/api/index.ts:104-133 | the promise resolves, the backend list is unchanged, and so no lookup result changes |
| Api.DeleteRestaurant | src/api/index.ts:140-158 | the promise resolves and the backend list is unchanged, so every record with that id is still listed |
| Api.ClearAllRestaurants | src/api/index.ts:164-172 | the promise resolves and the backend list is unchanged, so every lookup still finds what it found before |
| JsText.SkipLeading | src/app/resturant-form/resturant-form.ts:21 | returns the first non-whitespace position at or after `i`; everything skipped is whitespace |
| JsText.SkipTrailing | src/app/resturant-form/resturant-form.ts:21 | returns the end of the last non-whitespace character in the range; everything after it is whitespace |
| JsText.TrimSplitsOffWhitespace | src/app/resturant-form/resturant-form.ts:21 | `trim` returns a slice of its input; only whitespace lies around the slice, and neither end of the slice is whitespace |
| JsText.TrimOfPadded | src/app/resturant-form/resturant-form.ts:21 | conversely, whitespace around a core with non-whitespace ends is exactly what `trim` removes |
| JsText.TrimEmptyIffAllWhitespace | src/app/resturant-form/resturant-form.ts:21 | a string trims to "" exactly when it is all whitespace |
| JsText.TrimIdempotent | src/app/resturant-form/resturant-form.ts:21 | trimming twice is the same as trimming once |
| JsText.StripFrom | src/app/resturant-form/resturant-form.ts:26 | the result of the `\s` removal contains no whitespace and is no longer than the input |
| JsText.Trim | src/app/resturant-form/resturant-form.ts:21 | `String.prototype.trim`: the slice from the first to the last non-whitespace character. It has no contract of its own; TrimSplitsOffWhitespace and TrimOfPadded characterise it |
| JsText.StripWhitespace | src/app/resturant-form/resturant-form.ts:26 | `replace(/\s/g, '')`. It has no contract of its own; StripWhitespaceAppend, StripWhitespaceOfChar and StripWhitespaceKeepsClean characterise it |
| JsText.StripFromAppend | src/app/resturant-form/resturant-form.ts:26 | stripping from a position in `a + b` strips the rest of `a` and then all of `b` |
| JsText.StripFromShift | src/app/resturant-form/resturant-form.ts:26 | stripping `a + b` from a position inside `b` is stripping `b` from that position |
| JsText.StripWhitespaceAppend | src/app/resturant-form/resturant-form.ts:26 | the removal distributes over concatenation, so the kept characters stay in order |
| JsText.StripWhitespaceOfChar | src/app/resturant-form/resturant-form.ts:26 | a single whitespace character is removed and any other character is kept |
| JsText.StripFromKeepsClean | src/app/resturant-form/resturant-form.ts:26 | the removal changes nothing in a string that has no whitespace |
| JsText.StripWhitespaceKeepsClean | src/app/resturant-form/resturant-form.ts:26 | the same, for the whole string |
| RestaurantSchema.KeyInjective | src/app/resturant-form/resturant-form.ts:20-32 | the eight schema keys are pairwise distinct |
| RestaurantSchema.MatchesMobile | src/app/resturant-form/resturant-form.ts:25 | the pattern `^[\+]?[1-9][\d]{0,15}$`, read as "after an optional plus, 1 to 16 digits, the first of them not 0". MobileScanAgrees relates it to a character-by-character scanner |
| RestaurantSchema.RunDead | src/app/resturant-form/resturant-form.ts:25 | once the scanner has rejected, it rejects whatever follows |
| RestaurantSchema.RunDigits | src/app/resturant-form/resturant-form.ts:25 | after the first digit, the scanner accepts exactly runs of digits that stay within 16 digits in total |
| RestaurantSchema.MobileScanAgrees | src/app/resturant-form/resturant-form.ts:25 | a character-by-character scanner for `^[\+]?[1-9][\d]{0,15}$` accepts exactly the strings `MatchesMobile` accepts |
| RestaurantSchema.AcceptedMobileShape | src/app/resturant-form/resturant-form.ts:25 | an accepted number has 1 to 16 digits after an optional plus, and it contains no whitespace |
| RestaurantSchema.AcceptedMobileUnchangedByTransform | src/app/resturant-form/resturant-form.ts:25-26 | the whitespace-removing transform, which runs after the pattern check, never changes an accepted number |
| RestaurantSchema.MobileExamples | src/app/resturant-form/resturant-form.ts:25 | "+14155551234" is accepted; "", "0123" and "+1-555-0123" are rejected |
| RestaurantSchema.IndexOf | src/app/resturant-form/resturant-form.ts:22 | returns the first position of the character, or none when the character does not occur |
| RestaurantSchema.IsEmail | src/app/resturant-form/resturant-form.ts:22 | the library's email check: a local part and a domain split at the first `@`, the domain being labels each ended by a dot, then two or more letters. EmailExamples and EmptyIsNotEmail state what the form relies on |
| RestaurantSchema.EmailExamples | src/app/resturant-form/resturant-form.ts:22 | "a@b.com" is an email address and "bad-email" is not |
| RestaurantSchema.FieldIssues | src/app/resturant-form/resturant-form.ts:21-31 | the issues one field raises, in check order: `min(1)` on the untrimmed value, then, for email and mobile, the format check even when `min(1)` failed. FieldIssuesEmptyIffOk and FieldErrorsOfOneField state what they mean |
| RestaurantSchema.IssuesOf | src/app/resturant-form/resturant-form.ts:20-32 | the issues of the listed fields, in declaration order. NoIssuesIffRulesHold and ErrorsOfFields state what they mean |
| RestaurantSchema.SafeParse | src/app/resturant-form/resturant-form.ts:109 | `safeParse`: every issue in order, or the normalised record. SafeParseSucceedsIff and SafeParseNormalises state its two outcomes |
| RestaurantSchema.FieldIssuesEmptyIffOk | src/app/resturant-form/resturant-form.ts:21-31 | a field raises no issue exactly when its rule holds: non-empty for the five text fields, the format check for email and mobile, nothing for description |
| RestaurantSchema.NoIssuesIffRulesHold | src/app/resturant-form/resturant-form.ts:20-32 | the listed fields raise no issue exactly when every listed field's rule holds |
| RestaurantSchema.RulesHoldIffEveryFieldOk | src/app/resturant-form/resturant-form.ts:20-32 | the seven rules of the schema hold together exactly when every field of the schema passes |
| RestaurantSchema.EveryFieldOkGivesRules | src/app/resturant-form/resturant-form.ts:20-32 | if every field passes, all seven rules hold |
| RestaurantSchema.SafeParseSucceedsIff | src/app/resturant-form/resturant-form.ts:109 | `safeParse` succeeds exactly when every rule of the schema holds |
| RestaurantSchema.SafeParseNormalises | src/app/resturant-form/resturant-form.ts:20-32 | on success, each of the five text fields is trimmed and has no whitespace at either end, email and mobile are unchanged, and an absent description becomes "" |
| RestaurantSchema.BlankNameBecomesEmpty | src/app/resturant-form/resturant-form.ts:21 | any non-empty name made only of whitespace passes `min(1)` and is stored as "" |
| RestaurantSchema.ErrorsFrom | src/app/resturant-form/resturant-form.ts:116-119 | the dictionary the `forEach` builds by writing each issue's message under its key in turn. ErrorsFromKeys, LaterIssueWins and ErrorsFromAppend characterise it, and ValidateForm's loop is proved to compute it |
| RestaurantSchema.ErrorsFromKeys | src/app/resturant-form/resturant-form.ts:116-119 | the keys of the dictionary are exactly the keys of the issues |
| RestaurantSchema.LaterIssueWins | src/app/resturant-form/resturant-form.ts:116-119 | each key holds the message of the last issue reported for it |
| RestaurantSchema.ErrorsFromAppend | src/app/resturant-form/resturant-form.ts:116-119 | writing two runs of issues one after the other is the first dictionary overlaid by the second |
| RestaurantSchema.ErrorsFromSingle | src/app/resturant-form/resturant-form.ts:118 | one issue leaves one entry |
| RestaurantSchema.ErrorsFromPair | src/app/resturant-form/resturant-form.ts:118 | two issues for the same key leave the second message |
| RestaurantSchema.FieldErrorsOfOneField | src/app/resturant-form/resturant-form.ts:21-31 | one field's issues leave nothing when its rule holds, and otherwise its shown message under its key |
| RestaurantSchema.ErrorsOfFields | src/app/resturant-form/resturant-form.ts:109-119 | after a parse of the listed fields, a key is present exactly when its field is listed and fails, and it then holds that field's shown message |
| RestaurantSchema.FieldErrorsAfter | src/app/resturant-form/resturant-form.ts:111-120 | `fieldErrors` after validation: emptied, then filled from the issues when the parse failed. FieldErrorsMeaning states what it holds |
| RestaurantSchema.SchemaListsEveryField | src/app/resturant-form/resturant-form.ts:20-32 | every field belongs to the schema |
| RestaurantSchema.FieldErrorsAfterParse | src/app/resturant-form/resturant-form.ts:109-120 | the dictionary is the one the parse's issues leave, on success too (there are no issues then) |
| RestaurantSchema.FieldErrorsMeaning | src/app/resturant-form/resturant-form.ts:109-120 | after validation the dictionary is empty on success; otherwise its keys are exactly the failing fields, each holding its shown message |
| RestaurantSchema.FieldErrorsFlagFailingFields | src/app/resturant-form/resturant-form.ts:126-133 | a key holds a non-empty message exactly when its field's rule fails |
| RestaurantSchema.EmptyRequiredFieldReported | src/app/resturant-form/resturant-form.ts:21-30 | an empty name, city, state, country or address fails the parse and shows its "… is required" message |
| RestaurantSchema.EmptyEmailShowsFormatMessage | src/app/resturant-form/resturant-form.ts:22 | an empty email fails the parse; the format message overwrites "Email is required" |
| RestaurantSchema.EmptyMobileShowsFormatMessage | src/app/resturant-form/resturant-form.ts:24-25 | an empty mobile number fails the parse; the format message overwrites "Mobile number is required" |
| Services.RestaurantDataService.constructor | src/app/services/restaurant-data.service.ts:8 | a new service holds nothing |
| Services.RestaurantDataService.SetRestaurantData | src/app/services/restaurant-data.service.ts:10-12 | the slot holds the given record |
| Services.RestaurantDataService.GetRestaurantData | src/app/services/restaurant-data.service.ts:14-16 | returns the slot's content and changes nothing |
| Services.RestaurantDataService.ClearRestaurantData | src/app/services/restaurant-data.service.ts:18-20 | the slot is empty |
| Services.NewServiceIsEmpty | src/app/services/restaurant-data.service.ts:8-16 | a get on a new service returns null |
| Services.LastSetWins | src/app/services/restaurant-data.service.ts:10-16 | after two sets, a get returns the second record |
| Services.ClearForgets | src/app/services/restaurant-data.service.ts:10-20 | a set followed by a clear leaves nothing to get |
| Services.RepeatedGetsAgree | src/app/services/restaurant-data.service.ts:14-16 | two gets in a row return the same value, so reading does not consume the record |
| Form.Submission | src/app/resturant-form/resturant-form.ts:146-155 | the create/update payload copies the eight parsed fields (lines 167-176 build the same payload) |
| Form.IsEditId | src/app/resturant-form/resturant-form.ts:75 | `if (this.restaurantId)`: an id that is present and not zero |
| Form.CallFor | src/app/resturant-form/resturant-form.ts:144-178 | an update of the id in edit mode, otherwise an insert, with the payload of the parsed fields. SaveValid and AddRestaurant state when it is awaited |
| Form.Notice | src/app/resturant-form/resturant-form.ts:159-180 | "Restaurant updated successfully!" in edit mode and "Restaurant added successfully!" otherwise |
| Form.ResturantForm.FormData | src/app/resturant-form/resturant-form.ts:98-107 | the object handed to the schema: the eight inputs, with the description always present. ValidateForm states that it is unchanged by validation |
| Form.ResturantForm.constructor | src/app/resturant-form/resturant-form.ts:17-53 | a new form has no id, blank inputs, no messages, no field errors, and is not loading |
| Form.ResturantForm.NgOnInit | src/app/resturant-form/resturant-form.ts:62-72 | the form's id is the route's id, already converted to a number, or none |
| Form.ResturantForm.NgAfterViewInit | src/app/resturant-form/resturant-form.ts:74-94 | with a truthy id and a handed-over record, the inputs become that record's fields and the service is emptied; otherwise neither the inputs nor the service change |
| Form.ResturantForm.ValidateForm | src/app/resturant-form/resturant-form.ts:97-123 | the result is the schema's parse of the inputs; `fieldErrors` is rebuilt from scratch out of its issues; the inputs are unchanged |
| Form.ResturantForm.ValidatedErrorsFlagFailingFields | src/app/resturant-form/resturant-form.ts:126-133 | after validation, `hasFieldError` holds for a key exactly when its field fails, and `getFieldError` then returns the message that field shows |
| Form.ResturantForm.GetFieldError | src/app/resturant-form/resturant-form.ts:126-128 | returns the stored message for the key, or "" when there is none |
| Form.ResturantForm.HasFieldError | src/app/resturant-form/resturant-form.ts:131-133 | holds exactly when `getFieldError` returns a non-empty message |
| Form.ResturantForm.ClearMessages | src/app/resturant-form/resturant-form.ts:215-219 | both messages and `fieldErrors` are empty; the inputs are unchanged |
| Form.ResturantForm.ClearForm | src/app/resturant-form/resturant-form.ts:202-212 | all eight inputs, both messages and `fieldErrors` are empty |
| Form.ResturantForm.SaveValid | src/app/resturant-form/resturant-form.ts:141-195 | awaits an update of the id in edit mode and an insert otherwise; on success the form ends cleared with no message left; on failure only `loading` changes; `loading` ends false |
| Form.ResturantForm.SaveValidIntended | src/app/resturant-form/resturant-form.ts:141-195 | as SaveValid, except that on success the mode's success message is left showing |
| Form.ResturantForm.AddRestaurant | src/app/resturant-form/resturant-form.ts:136-199 | invalid inputs: no call, the fix-errors banner, the field errors, inputs kept. Valid inputs: the mode's write of the parsed fields is awaited; success clears the form and leaves no message; failure keeps the inputs |
| Form.ResturantForm.AddRestaurantIntended | src/app/resturant-form/resturant-form.ts:136-199 | as AddRestaurant, except that a successful write leaves "Restaurant updated successfully!" or "Restaurant added successfully!" showing |
| Form.SampleInputIsValid | src/app/resturant-form/resturant-form.ts:20-32 | a complete, well-formed entry satisfies every rule of the schema |
| Form.FillForm | src/app/resturant-form/resturant-form.ts:35-42 | typing an entry sets the eight inputs to it |
| Form.SuccessNoticeIsWiped | src/app/resturant-form/resturant-form.ts:166-189 | a valid entry on a new form is inserted, and after a successful write no success message is left showing |
| Form.IntendedNoticeIsShown | src/app/resturant-form/resturant-form.ts:166-189 | with the corrected order, the same submission shows "Restaurant added successfully!" |
| Form.EditHandOff | src/app/resturant-form/resturant-form.ts:62-94 | opening the form with a non-zero id and a handed-over record fills the inputs from the record and empties the service |
| Form.NoIdKeepsHandOff | src/app/resturant-form/resturant-form.ts:62-94 | without an id, the inputs stay blank and the handed-over record stays in the service |
| Form.EditSubmitsUpdate | src/app/resturant-form/resturant-form.ts:136-164 | submitting a valid edited record sends an update of that id, with the name trimmed, the mobile number unchanged and the description passed through |

## Left out

- `getAllRestaurants` (src/api/index.ts:34-43) performs an HTTP fetch and a
  JSON decode. The model does not perform them. What they produced is the
  `Fetch` parameter of `GetRestaurantById`. A network error, a body that is
  not JSON and a body that is not a list all become `FetchFailed`.
- Asynchrony is not modelled. The way the awaited write settled is the
  `settle` parameter. The intermediate state in which `loading` is true is not
  observable in the model.
- Console logging is not modelled, so the `catch` block changes nothing.
- `setTimeout`, `goBack` and router navigation are left out.
- `ChangeDetectorRef` and the Angular decorators are left out.
- The route-parameter subscription and the `+id` conversion are left out.
  `NgOnInit` receives the converted number. `Some(0)` stands for an id that
  converts to zero. An id that converts to NaN is not represented; NaN is
  falsy, so it acts like `None`.
- `loadingData` is declared but never set. It is modelled only as a field.
- The email check belongs to the validation library. It is modelled after the
  pattern of Zod version 3.22. The form-level proofs rely only on the fact that
  "" is not an email address.
- `fieldErrors` is a plain object. Keys inherited from the object prototype
  are not modelled.
- Database writes are no-ops:
  - `Api.InsertRestaurant`, `Api.UpdateRestaurant`, `Api.DeleteRestaurant`
    and `Api.ClearAllRestaurants` model the current bodies. Those bodies are
    commented out.
  - The localStorage code inside the comments is not modelled.
  - Because of this, there is no insert-then-lookup round trip to prove.
- The restaurant table, the application shell and the route table are not
  part of this model.
- Edit mode and the hand-off cannot be reached in the application as it
  stands. The restaurant table has no edit handler and never stores a record
  in the service (src/app/restaurant-table/restaurant-table.ts:29). No route
  carries an id (src/app/app.routes.ts:5-9), so `ngOnInit` always sets
  `null`. The model covers these paths because the component implements
  them. `Form.EditHandOff` and `Form.EditSubmitsUpdate` describe what would
  happen if some caller supplied an id and a record.
- The component's code has no location object nested inside the record and
  no guard against submitting twice. The model follows the code and has
  neither.

## Findings

| source | as written | input that shows it | evidently intended | confidence | as-written member | corrected member |
|---|---|---|---|---|---|---|
| src/app/resturant-form/resturant-form.ts:159-189 | after a successful write the success message is set and then `clearForm()` runs, which calls `clearMessages()` and empties it again in the same step, so the message is never shown | a valid entry on a new form, e.g. name "Pizza Palace", email "a@b.com", mobile "+14155551234", the other fields non-empty, with the insert resolving (Form.SuccessNoticeIsWiped proves that no message is left, Form.IntendedNoticeIsShown that the corrected order shows it) | clear the inputs and then show "Restaurant added successfully!" / "Restaurant updated successfully!" until the delayed navigation | medium, not executed | Form.ResturantForm.AddRestaurant | Form.ResturantForm.AddRestaurantIntended |
