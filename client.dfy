/** The browser-side check of the contact form, run when a form is
    submitted: the email field and the phone field are checked, each is
    marked valid or invalid, and the submission is stopped when a check
    failed. */
module Client {
  import opened Wrappers
  import opened Strings
  import Forms

  const RequiredMessage: string := "Phone number is required."
  const DigitsOnlyMessage: string := "Phone number must contain only digits."
  const NineDigitsMessage: string := "Phone number must be exactly 9 digits."
  const InvalidEmailMessage: string := "Invalid email address."

  /** The class that opts a form into the check. */
  const NeedsValidation: string := "needs-validation"

  datatype PhoneVerdict = PhoneRequired | PhoneNotDigits | PhoneWrongLength | PhoneAccepted

  /** `/^[0-9]+$/.test(s)`. */
  predicate DigitsRegexMatches(s: string) {
    s != [] && AllDigits(s)
  }

  /** The phone check: the value, trimmed as JavaScript trims, must be
      present, and once the non-digits are removed, what is left must match
      the digits pattern and have nine characters. Trimming removes no
      digit, so the digits are those of the whole value. */
  function CheckPhone(value: string): (v: PhoneVerdict)
    ensures v == PhoneRequired <==> TrimIn(JavaScript, value) == []
    ensures v == PhoneNotDigits <==> TrimIn(JavaScript, value) != [] && Digits(value) == []
    ensures v == PhoneAccepted <==> TrimIn(JavaScript, value) != [] && |Digits(value)| == 9
  {
    var phone := TrimIn(JavaScript, value);
    DigitsOfTrim(JavaScript, value);
    if phone == [] then PhoneRequired
    else
      var digits := Digits(phone);
      if !DigitsRegexMatches(digits) then PhoneNotDigits
      else if |digits| != 9 then PhoneWrongLength
      else PhoneAccepted
  }

  /** The message shown under a rejected phone field. */
  function PhoneMessage(v: PhoneVerdict): Option<string> {
    match v
    case PhoneRequired => Some(RequiredMessage)
    case PhoneNotDigits => Some(DigitsOnlyMessage)
    case PhoneWrongLength => Some(NineDigitsMessage)
    case PhoneAccepted => None
  }

  /** With digits read as ASCII '0'..'9' on both sides, the browser and the
      server agree on a number the server does not read as empty: the
      browser accepts it exactly when the form's `clean` adds no phone
      error. The two trims differ (Python's also removes U+001C..U+001F and
      U+0085, JavaScript's also U+FEFF), but neither removes a digit, and
      nine digits make a number non-blank to both. Python's `isdigit` also
      accepts non-ASCII digits, which `\D` removes, so on those the two
      sides disagree; that case is outside this model. */
  lemma BrowserAgreesWithServer(value: string)
    requires Trim(value) != []
    ensures (CheckPhone(value) == PhoneAccepted) <==> ("phone_number" !in Forms.Clean(map["phone_number" := value]).errors)
  {
    assert Forms.PhoneOf(map["phone_number" := value]) == Trim(value);
    DigitsOfTrim(Python, value);
    if |Digits(value)| == 9 {
      DigitsOfTrim(JavaScript, value);
    }
  }

  /** The email field as the handler sees it: its value and the browser's
      own verdict on it (`checkValidity()`). */
  datatype EmailInput = EmailInput(value: string, browserValid: bool)

  /** A submitted form: its classes and the inputs it has. */
  datatype Form = Form(classes: set<string>, email: Option<EmailInput>, phone: Option<string>)

  /** How the handler marks an input. */
  datatype Mark = MarkedValid | MarkedInvalid(message: string)

  /** What the handler did: whether it stopped the submission, and how it
      marked each input (`None` when it left the input alone). */
  datatype Handled = Handled(prevented: bool, emailMark: Option<Mark>, phoneMark: Option<Mark>)

  predicate EmailRejected(email: Option<EmailInput>) {
    email.Some? && (email.value.value == [] || !email.value.browserValid)
  }

  predicate PhoneRejected(phone: Option<string>) {
    phone.Some? && CheckPhone(phone.value) != PhoneAccepted
  }

  /** The submit handler. */
  method OnSubmit(form: Form) returns (h: Handled)
    ensures NeedsValidation !in form.classes ==> h == Handled(false, None, None)
    ensures NeedsValidation in form.classes ==>
              (h.prevented <==> EmailRejected(form.email) || PhoneRejected(form.phone))
    ensures NeedsValidation in form.classes ==>
              && (h.emailMark.Some? <==> form.email.Some?)
              && (h.phoneMark.Some? <==> form.phone.Some?)
              && (form.email.Some? ==>
                    h.emailMark.value == if EmailRejected(form.email) then MarkedInvalid(InvalidEmailMessage) else MarkedValid)
              && (form.phone.Some? ==>
                    h.phoneMark.value == match PhoneMessage(CheckPhone(form.phone.value))
                                         case Some(message) => MarkedInvalid(message)
                                         case None => MarkedValid)
  {
    if NeedsValidation !in form.classes {
      return Handled(false, None, None);
    }
    var isOk := true;
    var emailMark := None;
    var phoneMark := None;
    if form.email.Some? {
      var input := form.email.value;
      if input.value == [] || !input.browserValid {
        emailMark := Some(MarkedInvalid(InvalidEmailMessage));
        isOk := false;
      } else {
        emailMark := Some(MarkedValid);
      }
    }
    if form.phone.Some? {
      var phone := TrimIn(JavaScript, form.phone.value);
      if phone == [] {
        phoneMark := Some(MarkedInvalid(RequiredMessage));
        isOk := false;
      } else {
        var digits := Digits(phone);
        if !DigitsRegexMatches(digits) {
          phoneMark := Some(MarkedInvalid(DigitsOnlyMessage));
          isOk := false;
        } else if |digits| != 9 {
          phoneMark := Some(MarkedInvalid(NineDigitsMessage));
          isOk := false;
        } else {
          phoneMark := Some(MarkedValid);
        }
      }
    }
    h := Handled(!isOk, emailMark, phoneMark);
  }
}
