/** The three-step vendor registration wizard: the form record and its
    field updates, the field-keyed validation of each step, the step counter
    that only advances past a valid step, the submitted payload (everything
    but the password confirmation) and the handling of the service's answer. */
module Registration {
  import opened Options
  import opened Text

  /** The form's fields. */
  datatype Field =
    | BusinessName | BusinessCategory | Address | City | State | Pincode | Country
    | OwnerName | Email | Phone | Password | ConfirmPassword
    | VerificationType | VerificationNumber | WebsiteUrl | LinkedinUrl | BusinessLogo

  datatype VendorForm = VendorForm(
    business_name: string, business_category: string, address: string, city: string,
    state: string, pincode: string, country: string, owner_name: string, email: string,
    phone: string, password: string, confirm_password: string, verification_type: string,
    verification_number: string, website_url: string, linkedin_url: string, business_logo: string)

  /** The form as the wizard opens it: every field empty. */
  const EmptyForm: VendorForm := VendorForm("", "", "", "", "", "", "", "", "", "", "", "", "", "", "", "", "")

  function Get(f: VendorForm, k: Field): string {
    match k
    case BusinessName => f.business_name
    case BusinessCategory => f.business_category
    case Address => f.address
    case City => f.city
    case State => f.state
    case Pincode => f.pincode
    case Country => f.country
    case OwnerName => f.owner_name
    case Email => f.email
    case Phone => f.phone
    case Password => f.password
    case ConfirmPassword => f.confirm_password
    case VerificationType => f.verification_type
    case VerificationNumber => f.verification_number
    case WebsiteUrl => f.website_url
    case LinkedinUrl => f.linkedin_url
    case BusinessLogo => f.business_logo
  }

  /** An input's change event: the named field takes the new value. */
  function Set(f: VendorForm, k: Field, v: string): (r: VendorForm)
    ensures Get(r, k) == v
    ensures forall k' :: k' != k ==> Get(r, k') == Get(f, k')
  {
    match k
    case BusinessName => f.(business_name := v)
    case BusinessCategory => f.(business_category := v)
    case Address => f.(address := v)
    case City => f.(city := v)
    case State => f.(state := v)
    case Pincode => f.(pincode := v)
    case Country => f.(country := v)
    case OwnerName => f.(owner_name := v)
    case Email => f.(email := v)
    case Phone => f.(phone := v)
    case Password => f.(password := v)
    case ConfirmPassword => f.(confirm_password := v)
    case VerificationType => f.(verification_type := v)
    case VerificationNumber => f.(verification_number := v)
    case WebsiteUrl => f.(website_url := v)
    case LinkedinUrl => f.(linkedin_url := v)
    case BusinessLogo => f.(business_logo := v)
  }

  /** Two forms that agree on every field are the same form. */
  lemma FormExtensionality(f: VendorForm, g: VendorForm)
    requires forall k :: Get(f, k) == Get(g, k)
    ensures f == g
  {
    assert Get(f, BusinessName) == Get(g, BusinessName);
    assert Get(f, BusinessCategory) == Get(g, BusinessCategory);
    assert Get(f, Address) == Get(g, Address);
    assert Get(f, City) == Get(g, City);
    assert Get(f, State) == Get(g, State);
    assert Get(f, Pincode) == Get(g, Pincode);
    assert Get(f, Country) == Get(g, Country);
    assert Get(f, OwnerName) == Get(g, OwnerName);
    assert Get(f, Email) == Get(g, Email);
    assert Get(f, Phone) == Get(g, Phone);
    assert Get(f, Password) == Get(g, Password);
    assert Get(f, ConfirmPassword) == Get(g, ConfirmPassword);
    assert Get(f, VerificationType) == Get(g, VerificationType);
    assert Get(f, VerificationNumber) == Get(g, VerificationNumber);
    assert Get(f, WebsiteUrl) == Get(g, WebsiteUrl);
    assert Get(f, LinkedinUrl) == Get(g, LinkedinUrl);
    assert Get(f, BusinessLogo) == Get(g, BusinessLogo);
  }

  /** Writing back a field's own value changes nothing. */
  lemma SetOwnValue(f: VendorForm, k: Field)
    ensures Set(f, k, Get(f, k)) == f
  {
    FormExtensionality(Set(f, k, Get(f, k)), f);
  }

  // ---------------------------------------------------------------------
  // Validation
  // ---------------------------------------------------------------------

  /** The least password length, in UTF-16 code units as `.length` counts. */
  const MinPasswordLength: int := 6

  /** Adds `k ↦ message` when `failed`. */
  function ErrorIf(m: map<Field, string>, failed: bool, k: Field, message: string): map<Field, string> {
    if failed then m[k := message] else m
  }

  /** The fields the address step requires. */
  const AddressFields: set<Field> := {BusinessName, BusinessCategory, Address, City, State, Country, Pincode}

  /** The message for an empty required field of the address step; the
      pincode's depends on the country. */
  function RequiredMessage(k: Field, country: string): string {
    match k
    case BusinessName => "Business name is required"
    case BusinessCategory => "Category is required"
    case Address => "Address is required"
    case City => "City is required"
    case State => "State is required"
    case Country => "Country is required"
    case Pincode => if country == "Canada" then "Postal code is required" else "Pincode is required"
    case _ => ""
  }

  /** The problems with the address step: one for each empty field. */
  function StepOneErrors(f: VendorForm): (e: map<Field, string>)
    ensures forall k :: k in e <==> k in AddressFields && Get(f, k) == ""
    ensures Pincode in e ==>
      e[Pincode] == if f.country == "Canada" then "Postal code is required" else "Pincode is required"
  {
    map k | k in AddressFields && Get(f, k) == "" :: RequiredMessage(k, f.country)
  }

  /** The problems with the owner step. */
  function StepTwoErrors(f: VendorForm): (e: map<Field, string>)
    ensures OwnerName in e <==> f.owner_name == ""
    ensures Email in e <==> '@' !in f.email
    ensures Phone in e <==> f.phone == ""
    ensures Password in e <==> Utf16Length(f.password) < MinPasswordLength
    ensures ConfirmPassword in e <==> f.password != f.confirm_password
    ensures forall k :: k in e ==> k in {OwnerName, Email, Phone, Password, ConfirmPassword}
  {
    var e0: map<Field, string> := map[];
    var e1 := ErrorIf(e0, f.owner_name == "", OwnerName, "Owner name is required");
    var e2 := ErrorIf(e1, '@' !in f.email, Email, "Valid email is required");
    var e3 := ErrorIf(e2, f.phone == "", Phone, "Phone is required");
    var e4 := ErrorIf(e3, f.password == "" || Utf16Length(f.password) < MinPasswordLength, Password, "Minimum 6 characters");
    ErrorIf(e4, f.password != f.confirm_password, ConfirmPassword, "Passwords do not match")
  }

  /** The problems with the fields of the current step, keyed by field. */
  function StepErrors(step: int, f: VendorForm): (e: map<Field, string>)
    ensures step != 1 && step != 2 ==> e == map[]
    ensures step == 1 ==> forall k :: k in e <==> k in AddressFields && Get(f, k) == ""
    ensures step == 1 && Pincode in e ==>
      e[Pincode] == if f.country == "Canada" then "Postal code is required" else "Pincode is required"
    ensures step == 2 ==>
      && (OwnerName in e <==> f.owner_name == "")
      && (Email in e <==> '@' !in f.email)
      && (Phone in e <==> f.phone == "")
      && (Password in e <==> Utf16Length(f.password) < MinPasswordLength)
      && (ConfirmPassword in e <==> f.password != f.confirm_password)
      && (forall k :: k in e ==> k in {OwnerName, Email, Phone, Password, ConfirmPassword})
  {
    if step == 1 then StepOneErrors(f)
    else if step == 2 then StepTwoErrors(f)
    else map[]
  }

  /** The wizard's state. */
  datatype Wizard = Wizard(
    step: int, form: VendorForm, errors: map<Field, string>,
    showSuccess: bool, showAlreadyExists: bool)

  /** The state the wizard opens in. */
  function Start(): (w: Wizard)
    ensures w.step == 1 && w.form == EmptyForm && w.errors == map[]
  {
    Wizard(1, EmptyForm, map[], false, false)
  }

  /** Checking the current step: true exactly when it has no errors; the
      stored errors become the step's errors, or are cleared on success. */
  function ValidateStep(w: Wizard): (r: (bool, Wizard))
    ensures r.0 <==> StepErrors(w.step, w.form) == map[]
    ensures r.1.errors == StepErrors(w.step, w.form)
    ensures r.1.(errors := w.errors) == w
  {
    var e := StepErrors(w.step, w.form);
    if |e| > 0 then (false, w.(errors := e)) else (true, w.(errors := map[]))
  }

  /** "Next": advances one step only when the current step validates. */
  function Next(w: Wizard): (r: Wizard)
    ensures r.step == if StepErrors(w.step, w.form) == map[] then w.step + 1 else w.step
    ensures r.errors == StepErrors(w.step, w.form)
    ensures r.(step := w.step, errors := w.errors) == w
  {
    var (ok, w') := ValidateStep(w);
    if ok then w'.(step := w'.step + 1) else w'
  }

  /** "Back": one step back, unconditionally. */
  function Prev(w: Wizard): (r: Wizard)
    ensures r.step == w.step - 1
    ensures r.(step := w.step) == w
  {
    w.(step := w.step - 1)
  }

  /** The first step fails exactly when one of its seven fields is empty. */
  lemma StepOneFailsIffFieldEmpty(w: Wizard)
    requires w.step == 1
    ensures Next(w).step == w.step <==>
      || w.form.business_name == "" || w.form.business_category == "" || w.form.address == ""
      || w.form.city == "" || w.form.state == "" || w.form.country == "" || w.form.pincode == ""
  {
    var e := StepErrors(1, w.form);
    if w.form.business_name == "" { assert BusinessName in e; }
    if w.form.business_category == "" { assert BusinessCategory in e; }
    if w.form.address == "" { assert Address in e; }
    if w.form.city == "" { assert City in e; }
    if w.form.state == "" { assert State in e; }
    if w.form.country == "" { assert Country in e; }
    if w.form.pincode == "" { assert Pincode in e; }
    if e != map[] {
      var k :| k in e;
    }
  }

  /** On the last step (and any other) "Next" always advances. */
  lemma LaterStepsAlwaysAdvance(w: Wizard)
    requires w.step != 1 && w.step != 2
    ensures Next(w).step == w.step + 1 && Next(w).errors == map[]
  {
  }

  /** The password length is counted in UTF-16 code units: three characters
      above U+FFFF make six units, enough to pass, while three characters of
      the basic plane do not. */
  lemma PasswordLengthInCodeUnits(f: VendorForm)
    ensures f.password == "\U{1F600}\U{1F600}\U{1F600}" ==> Password !in StepErrors(2, f)
    ensures f.password == "abc" ==> Password in StepErrors(2, f)
  {
    var p := f.password;
    if p == "\U{1F600}\U{1F600}\U{1F600}" {
      assert Utf16Length(p[2..]) == 2 by { assert p[2..][1..] == []; }
      assert Utf16Length(p[1..]) == 4 by { assert p[1..][1..] == p[2..]; }
      assert Utf16Length(p) == 6;
    } else if p == "abc" {
      assert Utf16Length(p[2..]) == 1 by { assert p[2..][1..] == []; }
      assert Utf16Length(p[1..]) == 2 by { assert p[1..][1..] == p[2..]; }
      assert Utf16Length(p) == 3;
    }
  }

  /** "Next" past a valid step, then "Back", returns to that step with its
      errors cleared. */
  lemma NextThenPrev(w: Wizard)
    requires StepErrors(w.step, w.form) == map[]
    ensures Prev(Next(w)) == w.(errors := map[])
  {
  }

  // ---------------------------------------------------------------------
  // Submission
  // ---------------------------------------------------------------------

  /** What is sent to the registration service: the form without the
      password confirmation. */
  datatype RegistrationPayload = RegistrationPayload(
    business_name: string, business_category: string, address: string, city: string,
    state: string, pincode: string, country: string, owner_name: string, email: string,
    phone: string, password: string, verification_type: string,
    verification_number: string, website_url: string, linkedin_url: string, business_logo: string)

  function PayloadOf(f: VendorForm): (p: RegistrationPayload)
    ensures FormOf(p, f.confirm_password) == f
    ensures p.password == f.password && p.email == f.email && p.business_name == f.business_name
  {
    RegistrationPayload(
      f.business_name, f.business_category, f.address, f.city, f.state, f.pincode,
      f.country, f.owner_name, f.email, f.phone, f.password, f.verification_type,
      f.verification_number, f.website_url, f.linkedin_url, f.business_logo)
  }

  /** The form recovered from a payload and a confirmation value. */
  function FormOf(p: RegistrationPayload, confirmPassword: string): VendorForm {
    VendorForm(
      p.business_name, p.business_category, p.address, p.city, p.state, p.pincode,
      p.country, p.owner_name, p.email, p.phone, p.password, confirmPassword,
      p.verification_type, p.verification_number, p.website_url, p.linkedin_url, p.business_logo)
  }

  /** The payload loses only the confirmation: together with it, the form is
      recovered; and forms differing only in the confirmation send the same
      payload. */
  lemma PayloadDropsOnlyConfirmation(f: VendorForm, other: string)
    ensures FormOf(PayloadOf(f), f.confirm_password) == f
    ensures PayloadOf(f.(confirm_password := other)) == PayloadOf(f)
  {
  }

  /** One entry of an array-valued `detail`: a string, or an object such as
      the `{loc, msg, type}` entries of a FastAPI validation refusal. */
  datatype DetailItem = StringItem(text: string) | ObjectItem

  /** The `detail` of a refusal as the JSON body carries it: absent or null;
      a string; an array; or any other value (a number, a boolean, a plain
      object), of which only its truthiness matters here. */
  datatype Detail =
    | NoDetail
    | Text(text: string)
    | Items(items: seq<DetailItem>)
    | OtherValue(truthy: bool)

  /** The registration service's answer. */
  datatype ServiceAnswer = Registered | Rejected(detail: Detail)

  const AlreadyExists: string := "Vendor already exists"
  const AlertPrefix: string := "\U{274C} "
  const RegistrationFailed: string := "Registration failed"
  const ObjectText: string := "[object Object]"

  /** An array entry converted to a string. */
  function ItemText(item: DetailItem): string {
    match item
    case StringItem(s) => s
    case ObjectItem => ObjectText
  }

  /** An array converted to a string, as `"..." + array` does: the entries'
      strings joined by commas. */
  function JoinItems(items: seq<DetailItem>): (t: string)
    ensures items == [] ==> t == ""
    ensures |items| == 1 ==> t == ItemText(items[0])
    ensures items != [] ==> |t| >= |items| - 1
    ensures (forall k | 0 <= k < |items| :: items[k].ObjectItem?) ==>
      |t| == if items == [] then 0 else |items| * 16 - 1
  {
    if |items| == 0 then ""
    else if |items| == 1 then ItemText(items[0])
    else
      var init := items[..|items| - 1];
      assert forall k | 0 <= k < |init| :: init[k] == items[k];
      assert |ObjectText| == 15;
      JoinItems(init) + "," + ItemText(items[|items| - 1])
  }

  /** One more entry adds a comma and that entry's string. */
  lemma JoinItemsSnoc(s: seq<DetailItem>, x: DetailItem)
    requires s != []
    ensures JoinItems(s + [x]) == JoinItems(s) + "," + ItemText(x)
  {
    assert (s + [x])[..|s + [x]| - 1] == s;
  }

  /** Two non-empty arrays side by side convert to their strings joined by
      a comma, so the entries are separated by exactly one comma each. */
  lemma {:induction false} JoinItemsAppend(a: seq<DetailItem>, b: seq<DetailItem>)
    requires a != [] && b != []
    ensures JoinItems(a + b) == JoinItems(a) + "," + JoinItems(b)
    decreases |b|
  {
    var init := b[..|b| - 1];
    var last := b[|b| - 1];
    assert b == init + [last];
    if init == [] {
      JoinItemsSnoc(a, last);
    } else {
      var front := a + init;
      assert a + b == front + [last];
      calc {
        JoinItems(a + b);
        { JoinItemsSnoc(front, last); }
        JoinItems(front) + "," + ItemText(last);
        { JoinItemsAppend(a, init); }
        (JoinItems(a) + "," + JoinItems(init)) + "," + ItemText(last);
        JoinItems(a) + "," + (JoinItems(init) + "," + ItemText(last));
        { JoinItemsSnoc(init, last); }
        JoinItems(a) + "," + JoinItems(b);
      }
    }
  }

  /** How the failure handler reads a detail: `detail || ""` gives the
      message; `message.includes(...)` then either finds the existing-vendor
      text (a substring of a string, an equal entry of an array), or misses,
      or throws because the message has no `includes`. */
  datatype Reading = Duplicate | Message(text: string) | Throws

  function ReadDetail(d: Detail): (r: Reading)
    ensures r.Throws? <==> d.OtherValue? && d.truthy
    ensures r.Duplicate? <==>
      (d.Text? && Includes(d.text, AlreadyExists)) || (d.Items? && StringItem(AlreadyExists) in d.items)
    ensures d.NoDetail? || (d.OtherValue? && !d.truthy) ==> r == Message("")
    ensures r.Message? && d.Text? ==> r.text == d.text
    ensures r.Message? && d.Items? ==> r.text == JoinItems(d.items)
  {
    match d
    case NoDetail => Message("")
    case Text(s) => if Includes(s, AlreadyExists) then Duplicate else Message(s)
    case Items(items) => if StringItem(AlreadyExists) in items then Duplicate else Message(JoinItems(items))
    case OtherValue(truthy) => if truthy then Throws else Message("")
  }

  /** The alert for a rejection, as the source writes it: the fallback text
      is the right operand of `||` after a non-empty concatenation, so it is
      never chosen. */
  function FailureAlertAsWritten(message: string): (a: string)
    ensures AlertPrefix <= a
  {
    var concatenated := AlertPrefix + message;
    if concatenated != "" then concatenated else RegistrationFailed
  }

  /** With no detail from the service the alert is a bare prefix and never
      the fallback text. */
  lemma AsWrittenFallbackUnreachable(message: string)
    ensures FailureAlertAsWritten(message) == AlertPrefix + message
    ensures FailureAlertAsWritten("") == AlertPrefix
    ensures FailureAlertAsWritten(message) != RegistrationFailed
  {
    assert (AlertPrefix + message)[0] != RegistrationFailed[0];
  }

  /** The alert for a rejection as intended: the service's detail, or the
      fallback text when there is none. */
  function FailureAlert(message: string): (a: string)
    ensures AlertPrefix <= a
    ensures |a| > |AlertPrefix|
    ensures message != "" ==> a[|AlertPrefix|..] == message
    ensures message == "" ==> a[|AlertPrefix|..] == RegistrationFailed
  {
    AlertPrefix + (if message != "" then message else RegistrationFailed)
  }

  /** One submission: the payload posted, the wizard after the service's
      answer, and the alert raised, if any. */
  datatype Submission = Submission(request: RegistrationPayload, wizard: Wizard, alert: Option<string>)

  /** Submitting the wizard, as the source does it: the form without its
      confirmation is posted; success opens the success dialog; a rejection
      whose detail mentions an existing vendor opens that dialog; a detail
      without `includes` throws out of the handler, so nothing is shown; any
      other rejection raises the as-written alert, which is the bare mark
      when the service gave no detail. */
  function Submit(w: Wizard, answer: ServiceAnswer): (r: Submission)
    ensures r.request == PayloadOf(w.form)
    ensures FormOf(r.request, w.form.confirm_password) == w.form
    ensures answer.Registered? ==> r.wizard == w.(showSuccess := true) && r.alert.None?
    ensures answer == Rejected(NoDetail) ==> r.wizard == w && r.alert == Some(AlertPrefix)
    ensures answer.Rejected? && answer.detail.Text? ==>
      var message := answer.detail.text;
      && (Includes(message, AlreadyExists) ==> r.wizard == w.(showAlreadyExists := true) && r.alert.None?)
      && (!Includes(message, AlreadyExists) ==> r.wizard == w && r.alert == Some(AlertPrefix + message))
    ensures answer.Rejected? && answer.detail.Items? ==>
      var items := answer.detail.items;
      && (StringItem(AlreadyExists) in items ==> r.wizard == w.(showAlreadyExists := true) && r.alert.None?)
      && (StringItem(AlreadyExists) !in items ==> r.wizard == w && r.alert == Some(AlertPrefix + JoinItems(items)))
    ensures answer.Rejected? && answer.detail.OtherValue? ==>
      r.wizard == w && r.alert == (if answer.detail.truthy then None else Some(AlertPrefix))
  {
    var request := PayloadOf(w.form);
    match answer
    case Registered => Submission(request, w.(showSuccess := true), None)
    case Rejected(detail) =>
      match ReadDetail(detail)
      case Duplicate => Submission(request, w.(showAlreadyExists := true), None)
      case Throws => Submission(request, w, None)
      case Message(message) =>
        AsWrittenFallbackUnreachable(message);
        Submission(request, w, Some(FailureAlertAsWritten(message)))
  }

  /** A FastAPI validation refusal, whose detail is an array of objects,
      shows "[object Object]" once per entry; a numeric detail throws inside
      the handler and shows nothing. */
  lemma NonTextDetails(w: Wizard)
    ensures Submit(w, Rejected(Items([ObjectItem]))).alert == Some(AlertPrefix + "[object Object]")
    ensures Submit(w, Rejected(Items([ObjectItem, ObjectItem]))).alert
      == Some(AlertPrefix + "[object Object],[object Object]")
    ensures Submit(w, Rejected(OtherValue(true))) == Submission(PayloadOf(w.form), w, None)
  {
    assert StringItem(AlreadyExists) !in [ObjectItem];
    assert StringItem(AlreadyExists) !in [ObjectItem, ObjectItem];
    assert [ObjectItem, ObjectItem][..1] == [ObjectItem];
    assert JoinItems([ObjectItem, ObjectItem]) == ObjectText + "," + ObjectText;
    assert ReadDetail(Items([ObjectItem, ObjectItem])) == Message(ObjectText + "," + ObjectText);
    assert ObjectText + "," + ObjectText == "[object Object],[object Object]";
    assert Submit(w, Rejected(Items([ObjectItem, ObjectItem]))).alert == Some(AlertPrefix + (ObjectText + "," + ObjectText));
  }

  /** The message the handler would show for a detail, or "" when it shows
      none. */
  function DetailMessage(d: Detail): string {
    match ReadDetail(d)
    case Message(m) => m
    case _ => ""
  }

  /** Submitting as intended: the same, except that the alert falls back to
      "Registration failed" when the message is empty. */
  function SubmitIntended(w: Wizard, answer: ServiceAnswer): (r: Submission)
    ensures r.request == PayloadOf(w.form)
    ensures answer.Registered? ==> r.wizard == w.(showSuccess := true) && r.alert.None?
    ensures answer == Rejected(NoDetail) ==> r.wizard == w && r.alert == Some(AlertPrefix + RegistrationFailed)
    ensures answer.Rejected? && answer.detail.Text? ==>
      var message := answer.detail.text;
      && (Includes(message, AlreadyExists) ==> r.wizard == w.(showAlreadyExists := true) && r.alert.None?)
      && (!Includes(message, AlreadyExists) ==> r.wizard == w && r.alert == Some(FailureAlert(message)))
    ensures answer.Rejected? && answer.detail.OtherValue? && answer.detail.truthy ==> r.wizard == w && r.alert.None?
  {
    var s := Submit(w, answer);
    if s.alert.Some? then s.(alert := Some(FailureAlert(DetailMessage(answer.detail)))) else s
  }

  /** The as-written and the intended submission agree on the request and
      the wizard always, and on the alert except for a refusal whose detail
      reads as an empty message. */
  lemma SubmitDiffersOnlyWithoutDetail(w: Wizard, answer: ServiceAnswer)
    ensures Submit(w, answer).(alert := SubmitIntended(w, answer).alert) == SubmitIntended(w, answer)
    ensures Submit(w, answer) != SubmitIntended(w, answer) <==>
      answer.Rejected? && ReadDetail(answer.detail) == Message("")
  {
    if answer.Rejected? && ReadDetail(answer.detail).Message? {
      var message := ReadDetail(answer.detail).text;
      if message == "" {
        assert |FailureAlert(message)| > |AlertPrefix| == |FailureAlertAsWritten(message)|;
      }
    }
  }
}
