/**
 * components/signup-form.tsx: the business sign-up form. Its state is the form
 * data, the password-visibility toggle and a loading flag; the password rule and
 * the gating of the submit button are pure predicates over that state.
 */
module SignupForm {
  import opened JsText

  /** The keys of `SignupFormData`. */
  datatype Field =
    | BusinessName | FirstName | LastName | MobileNumber | Email | Password
    | MonthlyRevenue | UseCase | ReferralCode | AcceptedTerms

  /** What `handleInputChange` stores: its `value` is typed `string | boolean`. */
  datatype FieldValue = Text(text: string) | Flag(flag: bool)

  type FormData = map<Field, FieldValue>

  predicate Complete(d: FormData) {
    forall f: Field :: f in d
  }

  /** The form data the component starts with (lines 22-33): every text empty, the terms not accepted. */
  function InitialFormData(): (d: FormData)
    ensures Complete(d)
    ensures d[AcceptedTerms] == Flag(false)
    ensures forall f :: f != AcceptedTerms ==> d[f] == Text("")
  {
    var d := map[BusinessName := Text(""), FirstName := Text(""), LastName := Text(""), MobileNumber := Text(""),
        Email := Text(""), Password := Text(""), MonthlyRevenue := Text(""), UseCase := Text(""),
        ReferralCode := Text(""), AcceptedTerms := Flag(false)];
    assert Complete(d) by {
      forall f: Field ensures f in d {
        assert f == BusinessName || f == FirstName || f == LastName || f == MobileNumber || f == Email
          || f == Password || f == MonthlyRevenue || f == UseCase || f == ReferralCode || f == AcceptedTerms;
      }
    }
    d
  }

  /** `{ ...prev, [field]: value }`: the named field takes the value and every other field keeps its own. */
  function WithField(d: FormData, field: Field, value: FieldValue): (r: FormData)
    ensures r.Keys == d.Keys + {field}
    ensures r[field] == value
    ensures forall g :: g in d && g != field ==> r[g] == d[g]
  {
    d[field := value]
  }

  // ---------------------------------------------------------------- isPasswordValid

  /** The password's `length` must reach this many UTF-16 code units. */
  const MinPasswordLength: nat := 12

  /** `/\d/`: an ASCII digit somewhere. */
  predicate HasDigit(s: string) {
    exists i :: 0 <= i < |s| && IsDigit(s[i])
  }

  /** The class `[!@#$%^&*]`. */
  predicate IsSpecial(c: char) {
    c == '!' || c == '@' || c == '#' || c == '$' || c == '%' || c == '^' || c == '&' || c == '*'
  }

  /** `/[!@#$%^&*]/`. */
  predicate HasSpecial(s: string) {
    exists i :: 0 <= i < |s| && IsSpecial(s[i])
  }

  /** `/[A-Z]/`. */
  predicate HasUpperCase(s: string) {
    exists i :: 0 <= i < |s| && 'A' <= s[i] <= 'Z'
  }

  /** `isPasswordValid` (lines 57-64): long enough, with a digit, a special character and a capital. */
  predicate IsPasswordValid(password: string) {
    JsLength(password) >= MinPasswordLength && HasDigit(password) && HasSpecial(password) && HasUpperCase(password)
  }

  /** A password made of `A`, `1`, `!` and padding `a`s. */
  function Sample(upper: char, digit: char, special: char, padding: nat): (p: string)
    ensures |p| == padding + 3
  {
    [upper, digit, special] + seq(padding, _ => 'a')
  }

  /** The sample's characters are all in the Basic Multilingual Plane, so its `length` is its size. */
  lemma SampleLength(upper: char, digit: char, special: char, padding: nat)
    requires upper as int <= 0xFFFF && digit as int <= 0xFFFF && special as int <= 0xFFFF
    ensures JsLength(Sample(upper, digit, special, padding)) == padding + 3
  {
    var p := Sample(upper, digit, special, padding);
    forall i | 0 <= i < |p| ensures p[i] as int <= 0xFFFF {
      if i >= 3 {
        assert p[i] == 'a';
      }
    }
    JsLengthOfBmp(p);
  }

  /** The length bound is needed: eleven characters with all three kinds are refused, twelve are accepted. */
  lemma LengthIsNeeded() returns (short: string, long: string)
    ensures HasDigit(short) && HasSpecial(short) && HasUpperCase(short) && !IsPasswordValid(short)
    ensures IsPasswordValid(long) && |long| == MinPasswordLength
  {
    short, long := Sample('A', '1', '!', 8), Sample('A', '1', '!', 9);
    SampleLength('A', '1', '!', 8);
    SampleLength('A', '1', '!', 9);
    assert IsDigit(short[1]) && IsSpecial(short[2]) && 'A' <= short[0] <= 'Z';
    assert IsDigit(long[1]) && IsSpecial(long[2]) && 'A' <= long[0] <= 'Z';
  }

  /** The digit is needed: twelve characters with a capital and a special character but no digit are refused. */
  lemma DigitIsNeeded() returns (p: string)
    ensures JsLength(p) >= MinPasswordLength && HasSpecial(p) && HasUpperCase(p) && !HasDigit(p)
    ensures !IsPasswordValid(p)
  {
    p := Sample('A', 'b', '!', 9);
    SampleLength('A', 'b', '!', 9);
    assert IsSpecial(p[2]) && 'A' <= p[0] <= 'Z';
    forall i | 0 <= i < |p| ensures !IsDigit(p[i]) {
      if i >= 3 {
        assert p[i] == 'a';
      }
    }
  }

  /** The special character is needed, and only the eight listed ones count: `?` does not. */
  lemma SpecialIsNeeded() returns (p: string)
    ensures JsLength(p) >= MinPasswordLength && HasDigit(p) && HasUpperCase(p) && !HasSpecial(p)
    ensures !IsPasswordValid(p)
  {
    p := Sample('A', '1', '?', 9);
    SampleLength('A', '1', '?', 9);
    assert IsDigit(p[1]) && 'A' <= p[0] <= 'Z';
    forall i | 0 <= i < |p| ensures !IsSpecial(p[i]) {
      if i >= 3 {
        assert p[i] == 'a';
      }
    }
  }

  /** The capital is needed: a lower-case password with a digit and a special character is refused. */
  lemma UpperCaseIsNeeded() returns (p: string)
    ensures JsLength(p) >= MinPasswordLength && HasDigit(p) && HasSpecial(p) && !HasUpperCase(p)
    ensures !IsPasswordValid(p)
  {
    p := Sample('z', '1', '!', 9);
    SampleLength('z', '1', '!', 9);
    assert IsDigit(p[1]) && IsSpecial(p[2]);
    forall i | 0 <= i < |p| ensures !('A' <= p[i] <= 'Z') {
      if i >= 3 {
        assert p[i] == 'a';
      }
    }
  }

  /**
   * `length` counts UTF-16 code units: eight characters pass when five of them lie
   * outside the Basic Multilingual Plane.
   */
  lemma LengthCountsCodeUnits() returns (p: string)
    ensures |p| == 8 && IsPasswordValid(p)
  {
    var tail := seq(5, _ => Astral);
    p := ['A', '1', '!'] + tail;
    assert IsDigit(p[1]) && IsSpecial(p[2]) && 'A' <= p[0] <= 'Z';
    assert p[1..] == ['1', '!'] + tail && p[1..][1..] == ['!'] + tail && p[1..][1..][1..] == tail;
    AstralLength(5);
    assert JsLength(p[1..][1..]) == 1 + JsLength(tail);
  }

  /** A character outside the Basic Multilingual Plane. */
  const Astral: char := '\U{1F600}'

  /** Each astral character is two UTF-16 code units. */
  lemma {:induction false} AstralLength(n: nat)
    ensures JsLength(seq(n, _ => Astral)) == 2 * n
  {
    if n > 0 {
      var s := seq(n, _ => Astral);
      assert s[1..] == seq(n - 1, _ => Astral);
      AstralLength(n - 1);
    }
  }

  // ---------------------------------------------------------------- the submit button

  /** `!formData.acceptedTerms` negated: the stored value is truthy. */
  predicate Accepted(v: FieldValue) {
    match v
    case Flag(b) => b
    case Text(s) => s != ""
  }

  /** `isPasswordValid(formData.password)`: a boolean has no `length`, and `undefined >= 12` is false. */
  predicate PasswordPasses(v: FieldValue) {
    v.Text? && IsPasswordValid(v.text)
  }

  /** Line 282: the submit button is disabled while loading, without accepted terms, or with an invalid password. */
  predicate Disabled(isLoading: bool, d: FormData)
    requires Complete(d)
  {
    isLoading || !Accepted(d[AcceptedTerms]) || !PasswordPasses(d[Password])
  }

  /** An enabled button means the form is idle, the terms were ticked and the password satisfies all four rules. */
  lemma EnabledMeansValid(isLoading: bool, d: FormData)
    requires Complete(d) && !Disabled(isLoading, d)
    ensures !isLoading && Accepted(d[AcceptedTerms])
    ensures d[Password].Text? && JsLength(d[Password].text) >= MinPasswordLength
    ensures HasDigit(d[Password].text) && HasSpecial(d[Password].text) && HasUpperCase(d[Password].text)
  {
  }

  /** A fresh form cannot be submitted: its password is empty and its terms are not accepted. */
  lemma InitiallyDisabled()
    ensures Disabled(false, InitialFormData())
    ensures !PasswordPasses(InitialFormData()[Password]) && !Accepted(InitialFormData()[AcceptedTerms])
  {
  }

  /** Typing into any other field leaves the button's state as it was. */
  lemma OtherFieldsKeepGating(isLoading: bool, d: FormData, field: Field, value: FieldValue)
    requires Complete(d) && field != AcceptedTerms && field != Password
    ensures Complete(WithField(d, field, value))
    ensures Disabled(isLoading, WithField(d, field, value)) == Disabled(isLoading, d)
  {
  }

  // ---------------------------------------------------------------- the component

  class SignupForm {
    var formData: FormData
    var showPassword: bool
    var isLoading: bool

    ghost predicate Valid()
      reads this
    {
      Complete(formData)
    }

    constructor ()
      ensures Valid() && formData == InitialFormData() && !showPassword && !isLoading
    {
      formData := InitialFormData();
      showPassword, isLoading := false, false;
    }

    /** `handleInputChange` (lines 38-43). */
    method HandleInputChange(field: Field, value: FieldValue)
      requires Valid()
      modifies this
      ensures Valid()
      ensures formData == WithField(old(formData), field, value)
      ensures formData[field] == value && forall g :: g != field ==> formData[g] == old(formData)[g]
      ensures showPassword == old(showPassword) && isLoading == old(isLoading)
    {
      formData := WithField(formData, field, value);
    }

    /** The eye button next to the password (line 179). */
    method TogglePasswordVisibility()
      modifies this
      ensures showPassword == !old(showPassword)
      ensures formData == old(formData) && isLoading == old(isLoading)
    {
      showPassword := !showPassword;
    }

    /** Line 282, on the component's state. */
    predicate SubmitDisabled()
      requires Valid()
      reads this
    {
      Disabled(isLoading, formData)
    }
  }
}
