/**
 * The restaurant form component: eight bound inputs, the message and error
 * state shown beside them, validation, submission and the edit-mode
 * hand-off. Routing, timers, logging and change detection are not modelled;
 * the outcome of the awaited API call is a parameter.
 */
module Form {
  import opened Wrappers
  import opened Api
  import opened RestaurantSchema
  import opened Services

  const FixErrorsMessage := "Please fix the validation errors below."
  const UpdatedMessage := "Restaurant updated successfully!"
  const AddedMessage := "Restaurant added successfully!"

  /** The API write a submission awaited, and the data it passed. */
  datatype ApiCall = Insert(data: CreateRestaurantData) | Update(id: int, data: CreateRestaurantData)

  /** The create/update payload built from a successful parse. */
  function Submission(d: RestaurantFields): CreateRestaurantData {
    CreateRestaurantData(d.name, d.email, d.mobile, d.city, d.state, d.country, d.address, Some(d.description))
  }

  /** The inputs as a handed-over record fills them. */
  function InputsOf(r: Restaurant): FormInput {
    FormInput(r.name, r.email, r.mobile, r.city, r.state, r.country, r.address, Some(r.description))
  }

  /** `if (this.restaurantId)`: an id that is present and not zero puts the
      form in edit mode. */
  predicate IsEditId(id: Option<int>) {
    id.Some? && id.value != 0
  }

  /** The write a valid submission awaits: an update of the id in edit mode,
      an insert otherwise. */
  function CallFor(id: Option<int>, d: RestaurantFields): ApiCall {
    if IsEditId(id) then Update(id.value, Submission(d)) else Insert(Submission(d))
  }

  /** The success message for the mode the id selects. */
  function Notice(id: Option<int>): string {
    if IsEditId(id) then UpdatedMessage else AddedMessage
  }

  /** All eight inputs empty. */
  const BlankInputs := FormInput("", "", "", "", "", "", "", Some(""))

  class ResturantForm {
    const restaurantDataService: RestaurantDataService
    /** The id from the route; `None` when there is none. */
    var restaurantId: Option<int>

    var nameInput: string
    var emailInput: string
    var mobileInput: string
    var cityInput: string
    var stateInput: string
    var countryInput: string
    var addressInput: string
    var descriptionInput: string

    var successMessage: string
    var errorMessage: string
    var fieldErrors: map<string, string>

    var loading: bool
    var loadingData: bool

    constructor (restaurantDataService: RestaurantDataService)
      ensures this.restaurantDataService == restaurantDataService
      ensures restaurantId == None && FormData() == BlankInputs
      ensures successMessage == "" && errorMessage == "" && fieldErrors == map[]
      ensures !loading && !loadingData
    {
      this.restaurantDataService := restaurantDataService;
      restaurantId := None;
      nameInput, emailInput, mobileInput, cityInput := "", "", "", "";
      stateInput, countryInput, addressInput, descriptionInput := "", "", "", "";
      successMessage, errorMessage, fieldErrors := "", "", map[];
      loading, loadingData := false, false;
    }

    /** The object handed to the schema: the eight inputs, the description
        always present. */
    function FormData(): FormInput
      reads this`nameInput, this`emailInput, this`mobileInput, this`cityInput
      reads this`stateInput, this`countryInput, this`addressInput, this`descriptionInput
    {
      FormInput(nameInput, emailInput, mobileInput, cityInput, stateInput, countryInput,
        addressInput, Some(descriptionInput))
    }

    /** Takes the id the route supplied, already converted to a number. */
    method NgOnInit(id: Option<int>)
      modifies this`restaurantId
      ensures restaurantId == id
    {
      restaurantId := id;
    }

    /** In edit mode with a record in the hand-off service, copies its eight
        fields into the inputs and empties the service; otherwise changes nothing. */
    method NgAfterViewInit()
      modifies this`nameInput, this`emailInput, this`mobileInput, this`cityInput
      modifies this`stateInput, this`countryInput, this`addressInput, this`descriptionInput
      modifies restaurantDataService
      ensures var handed := old(restaurantDataService.restaurantData);
        if IsEditId(restaurantId) && handed.Some? then
          FormData() == InputsOf(handed.value) && restaurantDataService.restaurantData == None
        else
          FormData() == old(FormData()) && restaurantDataService.restaurantData == handed
    {
      if IsEditId(restaurantId) {
        var restaurantData := restaurantDataService.GetRestaurantData();
        if restaurantData.Some? {
          var r := restaurantData.value;
          nameInput := r.name;
          emailInput := r.email;
          mobileInput := r.mobile;
          cityInput := r.city;
          stateInput := r.state;
          countryInput := r.country;
          addressInput := r.address;
          descriptionInput := r.description;
          restaurantDataService.ClearRestaurantData();
        }
      }
    }

    /** Parses the inputs and rebuilds `fieldErrors` from scratch: emptied
        first, then each issue written under its key in order. Afterwards a
        field is flagged exactly when its rule fails, with the message it shows. */
    method ValidateForm() returns (result: ParseResult)
      modifies this`fieldErrors
      ensures result == SafeParse(FormData())
      ensures fieldErrors == FieldErrorsAfter(result)
      ensures FormData() == old(FormData())
    {
      var input := FormData();
      result := SafeParse(input);
      fieldErrors := map[];
      if result.Failure? {
        var issues := result.issues;
        var i := 0;
        while i < |issues|
          invariant 0 <= i <= |issues|
          invariant fieldErrors == ErrorsFrom(issues[..i])
        {
          assert issues[..i + 1][..i] == issues[..i];
          fieldErrors := fieldErrors[Key(issues[i].field) := issues[i].message];
          i := i + 1;
        }
        assert issues[..|issues|] == issues;
      }
    }

    /** What the errors left by `ValidateForm` mean: a field is flagged
        exactly when its rule fails, and a flagged field shows its message. */
    lemma ValidatedErrorsFlagFailingFields()
      requires fieldErrors == FieldErrorsAfter(SafeParse(FormData()))
      ensures forall f :: HasFieldError(Key(f)) <==> !FieldOk(FormData(), f)
      ensures forall f :: HasFieldError(Key(f)) ==> GetFieldError(Key(f)) == ShownMessage(f)
    {
      FieldErrorsFlagFailingFields(FormData(), fieldErrors);
    }

    /** The stored message for a key, or "" when there is none. */
    function GetFieldError(fieldName: string): (r: string)
      reads this
      ensures fieldName in fieldErrors ==> r == fieldErrors[fieldName]
      ensures fieldName !in fieldErrors ==> r == ""
    {
      if fieldName in fieldErrors then fieldErrors[fieldName] else ""
    }

    /** Whether a key holds a non-empty message. */
    predicate HasFieldError(fieldName: string)
      reads this
      ensures HasFieldError(fieldName) <==> GetFieldError(fieldName) != ""
    {
      fieldName in fieldErrors && fieldErrors[fieldName] != ""
    }

    /** Empties the two messages and `fieldErrors`. */
    method ClearMessages()
      modifies this`successMessage, this`errorMessage, this`fieldErrors
      ensures successMessage == "" && errorMessage == "" && fieldErrors == map[]
      ensures FormData() == old(FormData())
    {
      successMessage := "";
      errorMessage := "";
      fieldErrors := map[];
    }

    /** Empties the eight inputs, then the messages. */
    method ClearForm()
      modifies this`nameInput, this`emailInput, this`mobileInput, this`cityInput
      modifies this`stateInput, this`countryInput, this`addressInput, this`descriptionInput
      modifies this`successMessage, this`errorMessage, this`fieldErrors
      ensures FormData() == BlankInputs
      ensures successMessage == "" && errorMessage == "" && fieldErrors == map[]
    {
      nameInput := "";
      emailInput := "";
      mobileInput := "";
      cityInput := "";
      stateInput := "";
      countryInput := "";
      addressInput := "";
      descriptionInput := "";
      ClearMessages();
    }

    /** The awaited write for valid data and what follows it (the `try`,
        `catch` and `finally` blocks): the call matches the mode; if it
        resolves, the success message is set and then the form is cleared,
        which clears the message again; if it rejects, nothing but `loading`
        changes. `loading` is false afterwards either way. */
    method SaveValid(data: RestaurantFields, settle: Settlement) returns (call: ApiCall)
      modifies this`nameInput, this`emailInput, this`mobileInput, this`cityInput
      modifies this`stateInput, this`countryInput, this`addressInput, this`descriptionInput
      modifies this`successMessage, this`errorMessage, this`fieldErrors, this`loading
      ensures call == CallFor(restaurantId, data) && !loading
      ensures settle == Resolved ==>
        FormData() == BlankInputs && successMessage == "" && errorMessage == "" && fieldErrors == map[]
      ensures settle == Rejected ==>
        && FormData() == old(FormData()) && successMessage == old(successMessage)
        && errorMessage == old(errorMessage) && fieldErrors == old(fieldErrors)
    {
      loading := true;
      call := CallFor(restaurantId, data);
      if settle == Resolved {
        successMessage := Notice(restaurantId);
        ClearForm();
      }
      loading := false;
    }

    /** SaveValid with the form cleared before the success message is set,
        so that the message stays up until the page navigates away. */
    method SaveValidIntended(data: RestaurantFields, settle: Settlement) returns (call: ApiCall)
      modifies this`nameInput, this`emailInput, this`mobileInput, this`cityInput
      modifies this`stateInput, this`countryInput, this`addressInput, this`descriptionInput
      modifies this`successMessage, this`errorMessage, this`fieldErrors, this`loading
      ensures call == CallFor(restaurantId, data) && !loading
      ensures settle == Resolved ==>
        FormData() == BlankInputs && successMessage == Notice(restaurantId) && errorMessage == "" && fieldErrors == map[]
      ensures settle == Rejected ==>
        && FormData() == old(FormData()) && successMessage == old(successMessage)
        && errorMessage == old(errorMessage) && fieldErrors == old(fieldErrors)
    {
      loading := true;
      call := CallFor(restaurantId, data);
      if settle == Resolved {
        ClearForm();
        successMessage := Notice(restaurantId);
      }
      loading := false;
    }

    /** Submits the form. `settle` is how the awaited API call settled; `call`
        is the API write that was awaited, if any.
        - Invalid inputs: no call, the validation banner, the field errors,
          inputs kept.
        - Valid inputs: an update of the current id in edit mode, an insert
          otherwise, with the parsed fields. If the call resolves, the form is
          cleared and no message is left; if it rejects, nothing is shown and
          the inputs are kept. `loading` ends false. */
    method AddRestaurant(settle: Settlement) returns (call: Option<ApiCall>)
      modifies this`nameInput, this`emailInput, this`mobileInput, this`cityInput
      modifies this`stateInput, this`countryInput, this`addressInput, this`descriptionInput
      modifies this`successMessage, this`errorMessage, this`fieldErrors, this`loading
      ensures var parsed := SafeParse(old(FormData()));
        && call == (if parsed.Success? then Some(CallFor(restaurantId, parsed.data)) else None)
        && successMessage == ""
        && errorMessage == (if parsed.Success? then "" else FixErrorsMessage)
        && fieldErrors == FieldErrorsAfter(parsed)
        && loading == (if parsed.Success? then false else old(loading))
        && FormData() == (if parsed.Success? && settle == Resolved then BlankInputs else old(FormData()))
    {
      ClearMessages();
      var result := ValidateForm();
      if result.Success? {
        var saved := SaveValid(result.data, settle);
        call := Some(saved);
      } else {
        call := None;
        errorMessage := FixErrorsMessage;
      }
    }

    /** AddRestaurant with SaveValidIntended in place of SaveValid: a resolved
        call leaves the success message for its mode. */
    method AddRestaurantIntended(settle: Settlement) returns (call: Option<ApiCall>)
      modifies this`nameInput, this`emailInput, this`mobileInput, this`cityInput
      modifies this`stateInput, this`countryInput, this`addressInput, this`descriptionInput
      modifies this`successMessage, this`errorMessage, this`fieldErrors, this`loading
      ensures var parsed := SafeParse(old(FormData()));
        && call == (if parsed.Success? then Some(CallFor(restaurantId, parsed.data)) else None)
        && successMessage == (if parsed.Success? && settle == Resolved then Notice(restaurantId) else "")
        && errorMessage == (if parsed.Success? then "" else FixErrorsMessage)
        && fieldErrors == FieldErrorsAfter(parsed)
        && loading == (if parsed.Success? then false else old(loading))
        && FormData() == (if parsed.Success? && settle == Resolved then BlankInputs else old(FormData()))
    {
      ClearMessages();
      var result := ValidateForm();
      if result.Success? {
        var saved := SaveValidIntended(result.data, settle);
        call := Some(saved);
      } else {
        call := None;
        errorMessage := FixErrorsMessage;
      }
    }
  }

  /** A complete, well-formed entry. */
  const SampleInput := FormInput("Pizza Palace", "a@b.com", "+14155551234", "New York", "NY", "USA", "123 Broadway St", Some(""))

  lemma SampleInputIsValid()
    ensures RulesHold(SampleInput)
  {
    EmailExamples();
    MobileExamples();
  }

  /** Types an entry into the eight inputs. */
  method FillForm(form: ResturantForm, input: FormInput)
    requires input.description.Some?
    modifies form`nameInput, form`emailInput, form`mobileInput, form`cityInput
    modifies form`stateInput, form`countryInput, form`addressInput, form`descriptionInput
    ensures form.FormData() == input
  {
    form.nameInput, form.emailInput, form.mobileInput, form.cityInput := input.name, input.email, input.mobile, input.city;
    form.stateInput, form.countryInput, form.addressInput, form.descriptionInput := input.state, input.country, input.address, input.description.value;
  }

  /** A valid entry on a fresh form, inserted and resolved, leaves no success
      message: the message is set and then cleared with the form. */
  method SuccessNoticeIsWiped(input: FormInput) returns (call: Option<ApiCall>, shown: string)
    requires RulesHold(input) && input.description.Some?
    ensures call.Some? && call.value.Insert? && shown == ""
  {
    var service := new RestaurantDataService();
    var form := new ResturantForm(service);
    FillForm(form, input);
    SafeParseSucceedsIff(input);
    assert !IsEditId(form.restaurantId) && SafeParse(form.FormData()).Success?;
    call := form.AddRestaurant(Resolved);
    shown := form.successMessage;
  }

  /** With the corrected order the same submission shows its message. */
  method IntendedNoticeIsShown(input: FormInput) returns (call: Option<ApiCall>, shown: string)
    requires RulesHold(input) && input.description.Some?
    ensures call.Some? && call.value.Insert? && shown == AddedMessage
  {
    var service := new RestaurantDataService();
    var form := new ResturantForm(service);
    FillForm(form, input);
    SafeParseSucceedsIff(input);
    assert !IsEditId(form.restaurantId) && SafeParse(form.FormData()).Success?;
    call := form.AddRestaurantIntended(Resolved);
    shown := form.successMessage;
  }

  /** Opening the form for editing with a record handed over fills the inputs
      with it and leaves the service empty. */
  method EditHandOff(record: Restaurant, id: int) returns (inputs: FormInput, left: Option<Restaurant>)
    requires id != 0
    ensures inputs == InputsOf(record) && left == None
  {
    var service := new RestaurantDataService();
    service.SetRestaurantData(record);
    var form := new ResturantForm(service);
    form.NgOnInit(Some(id));
    form.NgAfterViewInit();
    inputs := form.FormData();
    left := service.GetRestaurantData();
  }

  /** Without an id the handed-over record is neither used nor consumed. */
  method NoIdKeepsHandOff(record: Restaurant) returns (inputs: FormInput, left: Option<Restaurant>)
    ensures inputs == BlankInputs && left == Some(record)
  {
    var service := new RestaurantDataService();
    service.SetRestaurantData(record);
    var form := new ResturantForm(service);
    form.NgOnInit(None);
    form.NgAfterViewInit();
    inputs := form.FormData();
    left := service.GetRestaurantData();
  }

  /** Submitting an edited record sends an update of that id carrying the
      record's fields, trimmed. */
  method EditSubmitsUpdate(record: Restaurant, id: int) returns (call: Option<ApiCall>)
    requires id != 0
    requires RulesHold(InputsOf(record))
    ensures call.Some? && call.value.Update? && call.value.id == id
    ensures call.value.data.name == JsText.Trim(record.name) && call.value.data.mobile == record.mobile
    ensures call.value.data.description == Some(record.description)
  {
    var service := new RestaurantDataService();
    service.SetRestaurantData(record);
    var form := new ResturantForm(service);
    form.NgOnInit(Some(id));
    form.NgAfterViewInit();
    assert form.restaurantId == Some(id) && form.FormData() == InputsOf(record);
    SafeParseSucceedsIff(InputsOf(record));
    SafeParseNormalises(InputsOf(record));
    ghost var parsed := SafeParse(InputsOf(record));
    call := form.AddRestaurant(Resolved);
    assert call == Some(Update(id, Submission(parsed.data)));
  }
}
