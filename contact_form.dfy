/** The contact page of the client: the form state, the check it makes before
    sending, and the mapping from the service's answer to a localized message.
    The `fetch` call is replaced by its result, given as input. */
module ContactForm {
  import opened Wrappers
  import opened Decimal

  datatype FormField = Name | Email | Subject | Message | Company

  /** `ContactFormData`; `company` is the hidden honeypot input. */
  datatype FormData = FormData(name: string, email: string, subject: string, message: string, company: string)

  const EmptyForm: FormData := FormData("", "", "", "", "")

  function Field(d: FormData, f: FormField): string {
    match f
    case Name => d.name
    case Email => d.email
    case Subject => d.subject
    case Message => d.message
    case Company => d.company
  }

  /** `({ ...current, [field]: value })` */
  function WithField(d: FormData, f: FormField, v: string): (r: FormData)
    ensures Field(r, f) == v
    ensures forall g :: g != f ==> Field(r, g) == Field(d, g)
  {
    match f
    case Name => d.(name := v)
    case Email => d.(email := v)
    case Subject => d.(subject := v)
    case Message => d.(message := v)
    case Company => d.(company := v)
  }

  /** The client's own check before sending: the four visible fields are filled. */
  predicate ReadyToSend(d: FormData): (ok: bool)
    ensures ok <==> forall f :: f != Company ==> Field(d, f) != ""
  {
    assert forall f :: f != Company ==> Field(d, f) in {d.name, d.email, d.subject, d.message};
    assert Field(d, Name) == d.name && Field(d, Email) == d.email;
    assert Field(d, Subject) == d.subject && Field(d, Message) == d.message;
    d.name != "" && d.email != "" && d.subject != "" && d.message != ""
  }

  /** The localized texts of the contact page (one language of `copy`). */
  datatype ContactText = ContactText(
    success: string,
    generic: string,
    tooManyRequests: string,
    missingFields: string,
    invalidEmail: string,
    serviceUnavailable: string,
    deliveryFailed: string)

  const TooManyRequestsCode: string := "TOO_MANY_REQUESTS"
  const MissingFieldsCode: string := "MISSING_REQUIRED_FIELDS"
  const InvalidEmailCode: string := "INVALID_EMAIL_FORMAT"
  const ServiceUnavailableCode: string := "CONTACT_SERVICE_UNAVAILABLE"
  const DeliveryFailedCode: string := "EMAIL_DELIVERY_FAILED"

  /** The parsed JSON body of a response. A body that is not JSON (`null`)
      reads as all three fields absent. */
  datatype Payload = Payload(error: Option<string>, message: Option<string>, retryAfterSeconds: Option<int>)

  const NoPayload: Payload := Payload(None, None, None)

  /** What `fetch` produced: a response, or a rejection with its error message. */
  datatype FetchResult = Response(status: int, payload: Payload) | NetworkError(reason: string)

  /** `response.ok` */
  predicate IsOk(status: int) {
    200 <= status <= 299
  }

  /** `retryAfterSeconds` is truthy: present and not zero. */
  predicate HasRetryAfter(p: Payload) {
    p.retryAfterSeconds.Some? && p.retryAfterSeconds.value != 0
  }

  /** `` payload?.retryAfterSeconds ? ` (${payload.retryAfterSeconds}s)` : '' `` */
  function WaitSuffix(p: Payload): (s: string)
    ensures s != "" <==> HasRetryAfter(p)
    ensures HasRetryAfter(p) ==> s == " (" + IntToString(p.retryAfterSeconds.value) + "s)"
  {
    if HasRetryAfter(p) then " (" + IntToString(p.retryAfterSeconds.value) + "s)" else ""
  }

  predicate IsTooMany(status: int, p: Payload) {
    status == 429 || p.error == Some(TooManyRequestsCode)
  }

  predicate IsBadRequest(status: int, p: Payload) {
    status == 400 && (p.error == Some(MissingFieldsCode) || p.error == Some(InvalidEmailCode))
  }

  predicate IsUnavailable(status: int, p: Payload) {
    status == 503 || p.error == Some(ServiceUnavailableCode)
  }

  predicate IsDeliveryFailure(status: int, p: Payload) {
    status == 502 || p.error == Some(DeliveryFailedCode)
  }

  /** The message of the error thrown for a response that is not ok. */
  function ErrorMessage(status: int, p: Payload, t: ContactText): (m: string)
    ensures m == t.tooManyRequests + WaitSuffix(p)
         || m in {t.invalidEmail, t.missingFields, t.serviceUnavailable, t.deliveryFailed, t.generic}
         || (p.message.Some? && m == p.message.value)
  {
    if IsTooMany(status, p) then
      t.tooManyRequests + WaitSuffix(p)
    else if IsBadRequest(status, p) then
      if p.error == Some(InvalidEmailCode) then t.invalidEmail else t.missingFields
    else if IsUnavailable(status, p) then
      p.message.GetOr(t.serviceUnavailable)
    else if IsDeliveryFailure(status, p) then
      t.deliveryFailed
    else
      p.message.GetOr(t.generic)
  }

  /** Rule 1: a 429 status or the too-many code wins over everything else; the
      wait suffix appears only when `retryAfterSeconds` is truthy. */
  lemma TooManyTakesPrecedence(status: int, p: Payload, t: ContactText)
    requires IsTooMany(status, p)
    ensures ErrorMessage(status, p, t) == t.tooManyRequests + WaitSuffix(p)
    ensures !HasRetryAfter(p) ==> ErrorMessage(status, p, t) == t.tooManyRequests
    ensures HasRetryAfter(p) ==> |ErrorMessage(status, p, t)| > |t.tooManyRequests|
  {
  }

  /** Rule 2: a 400 with one of the two validation codes names that problem;
      a 400 with any other code falls through to the later rules. */
  lemma BadRequestNamesTheField(p: Payload, t: ContactText)
    requires p.error != Some(TooManyRequestsCode)
    ensures p.error == Some(InvalidEmailCode) ==> ErrorMessage(400, p, t) == t.invalidEmail
    ensures p.error == Some(MissingFieldsCode) ==> ErrorMessage(400, p, t) == t.missingFields
    ensures !IsBadRequest(400, p) ==> ErrorMessage(400, p, t) == ErrorMessage(0, p, t)
  {
  }

  /** Rule 3: service unavailable prefers the payload's own message. */
  lemma UnavailablePrefersPayloadMessage(status: int, p: Payload, t: ContactText)
    requires !IsTooMany(status, p) && !IsBadRequest(status, p) && IsUnavailable(status, p)
    ensures p.message.Some? ==> ErrorMessage(status, p, t) == p.message.value
    ensures p.message.None? ==> ErrorMessage(status, p, t) == t.serviceUnavailable
  {
  }

  /** Rule 4: a delivery failure always shows the fixed text, whatever message
      the payload carries. */
  lemma DeliveryFailureIgnoresPayloadMessage(status: int, p: Payload, other: Option<string>, t: ContactText)
    requires !IsTooMany(status, p) && !IsBadRequest(status, p) && !IsUnavailable(status, p)
    requires IsDeliveryFailure(status, p)
    ensures ErrorMessage(status, p, t) == t.deliveryFailed
    ensures ErrorMessage(status, p.(message := other), t) == t.deliveryFailed
  {
  }

  /** Rule 5: anything else shows the payload's message, or the generic text. */
  lemma OtherErrorsFallBack(status: int, p: Payload, t: ContactText)
    requires !IsTooMany(status, p) && !IsBadRequest(status, p)
    requires !IsUnavailable(status, p) && !IsDeliveryFailure(status, p)
    ensures ErrorMessage(status, p, t) == p.message.GetOr(t.generic)
    ensures ErrorMessage(status, NoPayload, t) == t.generic
  {
  }

  /** The state of `ContactPage`. */
  class ContactPageState {
    const text: ContactText
    var form: FormData
    var isLoading: bool
    var successMessage: string
    var errorMessage: string

    constructor (text: ContactText)
      ensures this.text == text && form == EmptyForm
      ensures !isLoading && successMessage == "" && errorMessage == ""
    {
      this.text := text;
      form := EmptyForm;
      isLoading := false;
      successMessage := "";
      errorMessage := "";
    }

    /** `onChange(field, value)`: only the named field changes. */
    method OnChange(f: FormField, v: string)
      modifies this
      ensures form == WithField(old(form), f, v)
      ensures Field(form, f) == v && forall g :: g != f ==> Field(form, g) == Field(old(form), g)
      ensures isLoading == old(isLoading)
      ensures successMessage == old(successMessage) && errorMessage == old(errorMessage)
    {
      form := WithField(form, f, v);
    }

    /** The synchronous part of `onSubmit`, up to the `fetch` call. Returns the
        body that is sent, or `None` when the form is incomplete. */
    method BeginSubmit() returns (sent: Option<FormData>)
      modifies this
      ensures form == old(form)
      ensures sent.None? <==> !ReadyToSend(old(form))
      ensures sent.None? ==>
        && errorMessage == text.missingFields && successMessage == ""
        && isLoading == old(isLoading)
      ensures sent.Some? ==>
        && sent.value == old(form)
        && isLoading && errorMessage == "" && successMessage == ""
    {
      if !ReadyToSend(form) {
        errorMessage := text.missingFields;
        successMessage := "";
        return None;
      }
      isLoading := true;
      errorMessage := "";
      successMessage := "";
      return Some(form);
    }

    /** The rest of `onSubmit`, once `fetch` has settled with `result`. */
    method FinishSubmit(result: FetchResult)
      requires isLoading
      modifies this
      ensures !isLoading
      ensures result.Response? && IsOk(result.status) ==>
        && successMessage == text.success && form == EmptyForm
        && errorMessage == old(errorMessage)
      ensures result.Response? && !IsOk(result.status) ==>
        && errorMessage == ErrorMessage(result.status, result.payload, text)
        && form == old(form) && successMessage == old(successMessage)
      ensures result.NetworkError? ==>
        && errorMessage == result.reason
        && form == old(form) && successMessage == old(successMessage)
    {
      match result {
        case NetworkError(reason) =>
          errorMessage := reason;
        case Response(status, payload) =>
          if !IsOk(status) {
            errorMessage := ErrorMessage(status, payload, text);
          } else {
            successMessage := text.success;
            form := EmptyForm;
          }
      }
      isLoading := false;
    }
  }
}
