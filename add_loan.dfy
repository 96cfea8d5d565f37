/** The four-step "Add New Loan" wizard (src/components/AddLoan/index.js): a step
    counter moved by Next and Back, the loan details the step forms write into, the
    save guard and request, and the confirmation dialog. */
module AddLoan {
  import opened Wrappers
  import GuarantorDetailsForm

  /** The stepper's labels. */
  const Steps: seq<string> := ["Loan Details", "Customer Details", "Vehicle Details", "Guarantor Details"]

  /** "Next" is shown below the last step, "Save" on it. */
  predicate CanGoNext(step: int) {
    step < |Steps| - 1
  }

  /** "Back" is shown after the first step. */
  predicate CanGoBack(step: int) {
    step > 0
  }

  /** A step the stepper can show. */
  predicate ValidStep(step: int) {
    0 <= step < |Steps|
  }

  /** Next and Back keep the step in range, undo each other, and "Save" is offered
      exactly on the last step. */
  lemma StepMoves(step: int)
    requires ValidStep(step)
    ensures CanGoNext(step) ==> ValidStep(step + 1) && CanGoBack(step + 1)
    ensures CanGoBack(step) ==> ValidStep(step - 1) && CanGoNext(step - 1)
    ensures !CanGoNext(step) <==> step == 3
  {
  }

  /** The names of the inputs each step's form wires to `handleInputChange`. The EMI
      field is read-only and writes nothing; the guarantor's address parts go to the
      guarantor form's own state, and only their combination reaches the loan (see
      `GuarantorAddressChange`). */
  function StepFields(step: int): (names: set<string>)
    requires ValidStep(step)
    ensures "emi" !in names && "guarantorFullAddress" !in names
  {
    if step == 0 then {"fileNumber", "loanAmount", "loanCreationDate", "interestRate", "tenure"}
    else if step == 1 then
      {"customerName", "customerPhonePrimary", "customerPhoneSecondary", "customerAadhaarNumber",
       "customerFatherName", "houseNo", "landmark", "street", "addressLine1", "addressLine2",
       "city", "state", "pinCode"}
    else if step == 2 then {"vehicleNumber", "vehicleModelYear", "vehicleInsuranceExpiryDate"}
    else {"guarantorName", "guarantorPhonePrimary", "guarantorAadhaarNumber"}
  }

  /** No two steps write the same field, so a step never overwrites another's input. */
  lemma StepFieldsDisjoint(i: int, j: int)
    requires ValidStep(i) && ValidStep(j) && i != j
    ensures StepFields(i) !! StepFields(j)
  {
  }

  /** `!loanDetails[name]` for a text field: missing and empty are both falsy. */
  predicate IsBlank(details: map<string, string>, name: string) {
    name !in details || details[name] == ""
  }

  /** The backend's answer to the save request. */
  datatype SaveResponse =
    | Status(code: int)
    | Failed(message: Option<string>)

  /** The alert a save attempt ends with, if any; None when the loan was created. */
  function SaveAlert(details: map<string, string>, response: SaveResponse): (alert: Option<string>)
    ensures alert.None? <==> !IsBlank(details, "fileNumber") && !IsBlank(details, "loanAmount") && response == Status(201)
    ensures IsBlank(details, "fileNumber") || IsBlank(details, "loanAmount") ==> alert == Some("Loan details cannot be empty!")
  {
    if IsBlank(details, "fileNumber") || IsBlank(details, "loanAmount") then Some("Loan details cannot be empty!")
    else match response
      case Status(code) =>
        if code == 201 then None else Some("Unexpected response. Please try again.")
      case Failed(message) =>
        Some(if message.Some? && message.value != "" then message.value else "Failed to save the loan. Please try again.")
  }

  /** The wizard's state. `closeRequested` records a call of the parent's `onClose`.
      `guarantorAddress` is the address state of the guarantor form, which is mounted
      only on the last step: it starts empty each time that step is entered. */
  class AddLoanWizard {
    var loanDetails: map<string, string>
    var guarantorAddress: GuarantorDetailsForm.Address
    var currentStep: int
    var isLoading: bool
    var openDialog: bool
    var alert: Option<string>
    var closeRequested: bool

    /** The step is one the stepper shows, the EMI is still the initial "0", and on the
        guarantor step the loan's address is the combination of the form's parts. */
    predicate Valid()
      reads this
    {
      ValidStep(currentStep) && "emi" in loanDetails && loanDetails["emi"] == "0" &&
      (currentStep == 3 ==>
        "guarantorFullAddress" in loanDetails &&
        loanDetails["guarantorFullAddress"] == GuarantorDetailsForm.CombineAddress(guarantorAddress))
    }

    /** Empty loan fields, an EMI of "0" and today's date as creation date, on the first
        step. */
    constructor (today: string)
      ensures Valid() && currentStep == 0 && !isLoading && !openDialog
      ensures loanDetails == map["fileNumber" := "", "loanAmount" := "", "interestRate" := "",
                                 "tenure" := "", "emi" := "0", "loanCreationDate" := today]
      ensures alert == None && !closeRequested
    {
      guarantorAddress := GuarantorDetailsForm.EmptyAddress;
      loanDetails := map["fileNumber" := "", "loanAmount" := "", "interestRate" := "",
                         "tenure" := "", "emi" := "0", "loanCreationDate" := today];
      currentStep := 0;
      isLoading := false;
      openDialog := false;
      alert := None;
      closeRequested := false;
    }

    /** `nextStep`, reached through the Next button. Entering the guarantor step mounts
        a fresh guarantor form: its address parts start empty and its effect's first run
        sets the loan's `guarantorFullAddress` to "", whatever was entered before. */
    method NextStep()
      requires Valid() && CanGoNext(currentStep) && !isLoading
      modifies this
      ensures Valid() && currentStep == old(currentStep) + 1
      ensures old(currentStep) == 2 ==>
        guarantorAddress == GuarantorDetailsForm.EmptyAddress &&
        loanDetails == old(loanDetails)["guarantorFullAddress" := ""]
      ensures old(currentStep) != 2 ==>
        guarantorAddress == old(guarantorAddress) && loanDetails == old(loanDetails)
      ensures openDialog == old(openDialog) && alert == old(alert)
      ensures isLoading == old(isLoading) && closeRequested == old(closeRequested)
    {
      currentStep := currentStep + 1;
      if currentStep == 3 {
        guarantorAddress := GuarantorDetailsForm.EmptyAddress;
        GuarantorDetailsForm.CombineAddressLength(guarantorAddress);
        loanDetails := loanDetails["guarantorFullAddress" := ""];
      }
    }

    /** `prevStep`, reached through the Back button. Leaving the guarantor step unmounts
        its form; the loan keeps the address it last pushed. */
    method PrevStep()
      requires Valid() && CanGoBack(currentStep) && !isLoading
      modifies this
      ensures Valid() && currentStep == old(currentStep) - 1
      ensures loanDetails == old(loanDetails) && guarantorAddress == old(guarantorAddress)
      ensures openDialog == old(openDialog) && alert == old(alert)
      ensures isLoading == old(isLoading) && closeRequested == old(closeRequested)
    {
      currentStep := currentStep - 1;
    }

    /** `handleInputChange` from the form on the current step: only the named field
        changes, and the EMI stays "0". */
    method HandleInputChange(name: string, value: string)
      requires Valid() && name in StepFields(currentStep)
      modifies this
      ensures Valid() && loanDetails == old(loanDetails)[name := value]
      ensures forall k :: k in old(loanDetails) && k != name ==> k in loanDetails && loanDetails[k] == old(loanDetails)[k]
      ensures currentStep == old(currentStep) && openDialog == old(openDialog) && alert == old(alert)
      ensures guarantorAddress == old(guarantorAddress)
      ensures isLoading == old(isLoading) && closeRequested == old(closeRequested)
    {
      loanDetails := loanDetails[name := value];
    }

    /** A change in one of the guarantor form's address inputs: the form's
        `handleAddressChange` updates that part, and its effect pushes the combination of
        all parts into the loan's `guarantorFullAddress`. */
    method GuarantorAddressChange(field: GuarantorDetailsForm.AddressField, value: string)
      requires Valid() && currentStep == 3
      modifies this
      ensures Valid()
      ensures guarantorAddress == GuarantorDetailsForm.SetField(old(guarantorAddress), field, value)
      ensures loanDetails == old(loanDetails)["guarantorFullAddress" := GuarantorDetailsForm.CombineAddress(guarantorAddress)]
      ensures currentStep == old(currentStep) && openDialog == old(openDialog) && alert == old(alert)
      ensures isLoading == old(isLoading) && closeRequested == old(closeRequested)
    {
      guarantorAddress := GuarantorDetailsForm.SetField(guarantorAddress, field, value);
      loanDetails := loanDetails["guarantorFullAddress" := GuarantorDetailsForm.CombineAddress(guarantorAddress)];
    }

    /** `handleSaveLoan`, reached through Save on the last step, the backend answering
        `response`. `requested` tells whether the request was sent; loading is over
        afterwards on every path, and the dialog opens only on status 201. */
    method HandleSaveLoan(response: SaveResponse) returns (requested: bool)
      requires Valid() && !CanGoNext(currentStep) && !isLoading
      modifies this
      ensures Valid() && !isLoading
      ensures requested <==> !IsBlank(old(loanDetails), "fileNumber") && !IsBlank(old(loanDetails), "loanAmount")
      ensures alert == SaveAlert(old(loanDetails), response)
      ensures openDialog == (old(openDialog) || (requested && response == Status(201)))
      ensures loanDetails == old(loanDetails) && currentStep == old(currentStep)
      ensures guarantorAddress == old(guarantorAddress) && closeRequested == old(closeRequested)
    {
      if IsBlank(loanDetails, "fileNumber") || IsBlank(loanDetails, "loanAmount") {
        alert := Some("Loan details cannot be empty!");
        return false;
      }
      requested := true;
      isLoading := true;
      match response {
        case Status(code) =>
          if code == 201 {
            openDialog := true;
            alert := None;
          } else {
            alert := Some("Unexpected response. Please try again.");
          }
        case Failed(message) =>
          alert := Some(if message.Some? && message.value != "" then message.value else "Failed to save the loan. Please try again.");
      }
      isLoading := false;
    }

    /** `handleCloseDialog(event, reason)`: a click on the backdrop or the Escape key
        leaves the dialog open; any other close shuts it and closes the wizard. */
    method HandleCloseDialog(reason: string)
      modifies this
      ensures reason == "backdropClick" || reason == "escapeKeyDown" ==>
        openDialog == old(openDialog) && closeRequested == old(closeRequested)
      ensures reason != "backdropClick" && reason != "escapeKeyDown" ==>
        !openDialog && closeRequested
      ensures loanDetails == old(loanDetails) && currentStep == old(currentStep)
      ensures isLoading == old(isLoading) && alert == old(alert)
      ensures guarantorAddress == old(guarantorAddress)
    {
      if reason != "backdropClick" && reason != "escapeKeyDown" {
        openDialog := false;
        closeRequested := true;
      }
    }
  }
}
