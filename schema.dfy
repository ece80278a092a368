/**
 * The restaurant form's validation schema, read the way the validation
 * library runs it: the fields are checked in declaration order, the checks
 * of one field run in their own order on the value as it stands then, and a
 * failing check does not stop the later ones. The result is either the
 * normalised record or the ordered list of issues.
 */
module RestaurantSchema {
  import opened Wrappers
  import opened JsText

  /** The schema's keys, in declaration order. */
  datatype Field = Name | Email | Mobile | City | State | Country | Address | Description

  const SchemaOrder: seq<Field> := [Name, Email, Mobile, City, State, Country, Address, Description]

  /** The key an issue's path starts with, and the key of `fieldErrors`. */
  function Key(f: Field): string {
    match f
    case Name => "name"
    case Email => "email"
    case Mobile => "mobile"
    case City => "city"
    case State => "state"
    case Country => "country"
    case Address => "address"
    case Description => "description"
  }

  lemma KeyInjective(f: Field, g: Field)
    ensures Key(f) == Key(g) <==> f == g
  {
    if f != g {
      assert Key(f)[0] != Key(g)[0] || Key(f)[1] != Key(g)[1] || |Key(f)| != |Key(g)|;
    }
  }

  const EmailInvalid := "Please enter a valid email address"
  const MobileInvalid := "Please enter a valid mobile number"

  /** The message of the field's `min(1)` check. */
  function RequiredMessage(f: Field): string {
    match f
    case Name => "Restaurant name is required"
    case Email => "Email is required"
    case Mobile => "Mobile number is required"
    case City => "City is required"
    case State => "State is required"
    case Country => "Country is required"
    case Address => "Address is required"
    case Description => ""
  }

  // ---------------------------------------------------------------- mobile

  predicate IsDigit(c: char) { '0' <= c <= '9' }

  predicate AllDigits(s: string) {
    forall i :: 0 <= i < |s| ==> IsDigit(s[i])
  }

  /** The digits of a mobile number: the value without its optional leading `+`. */
  function MobileDigits(s: string): string {
    if |s| > 0 && s[0] == '+' then s[1..] else s
  }

  /** `^[\+]?[1-9][\d]{0,15}$`: an optional plus, a digit 1-9, then 0 to 15 digits. */
  predicate MatchesMobile(s: string) {
    var d := MobileDigits(s);
    1 <= |d| <= 16 && '1' <= d[0] <= '9' && AllDigits(d)
  }

  /** The same pattern as a scanner, one character at a time, as a regular
      expression engine runs it: an independent reading of the pattern. */
  datatype MobileScan = Start | AfterPlus | Digits(count: nat) | Dead

  function MobileStep(st: MobileScan, c: char): MobileScan {
    match st
    case Start => if c == '+' then AfterPlus else if '1' <= c <= '9' then Digits(1) else Dead
    case AfterPlus => if '1' <= c <= '9' then Digits(1) else Dead
    case Digits(n) => if IsDigit(c) && n < 16 then Digits(n + 1) else Dead
    case Dead => Dead
  }

  function MobileRun(st: MobileScan, s: string): MobileScan
    decreases |s|
  {
    if s == [] then st else MobileRun(MobileStep(st, s[0]), s[1..])
  }

  lemma {:induction false} RunDead(s: string)
    ensures MobileRun(Dead, s) == Dead
  {
    if s != [] { RunDead(s[1..]); }
  }

  lemma {:induction false} RunDigits(n: nat, s: string)
    requires 1 <= n <= 16
    decreases |s|
    ensures MobileRun(Digits(n), s) == if AllDigits(s) && n + |s| <= 16 then Digits(n + |s|) else Dead
  {
    if s != [] {
      if IsDigit(s[0]) && n < 16 {
        RunDigits(n + 1, s[1..]);
        if !AllDigits(s[1..]) {
          var i :| 0 <= i < |s[1..]| && !IsDigit(s[1..][i]);
          assert !IsDigit(s[i + 1]);
        }
      } else {
        RunDead(s[1..]);
      }
    }
  }

  /** The scanner accepts exactly the strings the pattern describes. */
  lemma MobileScanAgrees(s: string)
    ensures MobileRun(Start, s).Digits? <==> MatchesMobile(s)
  {
    if s != [] {
      var d := MobileDigits(s);
      if s[0] == '+' {
        if |s| > 1 && '1' <= s[1] <= '9' {
          RunDigits(1, s[2..]);
          assert d == [s[1]] + s[2..];
        } else if |s| > 1 {
          RunDead(s[2..]);
        }
      } else if '1' <= s[0] <= '9' {
        RunDigits(1, s[1..]);
        assert d == [s[0]] + s[1..];
      } else {
        RunDead(s[1..]);
      }
    }
  }

  /** An accepted mobile number holds 1 to 16 digits, and nothing but digits
      after the optional plus, so it contains no whitespace. */
  lemma AcceptedMobileShape(s: string)
    requires MatchesMobile(s)
    ensures 1 <= |MobileDigits(s)| <= 16 && AllDigits(MobileDigits(s))
    ensures NoWhitespace(s)
  {
    var d := MobileDigits(s);
    forall i | 0 <= i < |s| ensures !IsWhitespace(s[i]) {
      if |s| > 0 && s[0] == '+' && i > 0 {
        assert s[i] == d[i - 1];
      }
    }
  }

  /** The whitespace-stripping transform leaves every accepted number as it is. */
  lemma AcceptedMobileUnchangedByTransform(s: string)
    requires MatchesMobile(s)
    ensures StripWhitespace(s) == s
  {
    AcceptedMobileShape(s);
    StripWhitespaceKeepsClean(s);
  }

  lemma MobileExamples()
    ensures !MatchesMobile("0123") && !MatchesMobile("")
    ensures MatchesMobile("+14155551234")
    ensures !MatchesMobile("+1-555-0123")
  {
    assert MobileDigits("+1-555-0123")[1] == '-';
    assert AllDigits(MobileDigits("+14155551234"));
  }

  // ----------------------------------------------------------------- email

  predicate IsAsciiLetter(c: char) { 'a' <= c <= 'z' || 'A' <= c <= 'Z' }

  predicate IsAsciiAlnum(c: char) { IsAsciiLetter(c) || IsDigit(c) }

  /** The first position of `c` in `s`. */
  function IndexOf(s: string, c: char): (r: Option<nat>)
    ensures r.Some? ==> r.value < |s| && s[r.value] == c && forall j :: 0 <= j < r.value ==> s[j] != c
    ensures r.None? ==> forall j :: 0 <= j < |s| ==> s[j] != c
  {
    if s == [] then None
    else if s[0] == c then Some(0)
    else match IndexOf(s[1..], c)
      case None => None
      case Some(k) => Some(k + 1)
  }

  /** `(?!\.)(?!.*\.\.)([A-Z0-9_'+\-\.]*)[A-Z0-9_+-]` ignoring case: the part before `@`. */
  predicate LocalPart(l: string) {
    && |l| >= 1
    && l[0] != '.'
    && (forall i :: 0 <= i < |l| ==> IsAsciiAlnum(l[i]) || l[i] in "_'+-.")
    && (IsAsciiAlnum(l[|l| - 1]) || l[|l| - 1] in "_+-")
    && (forall i :: 0 <= i < |l| - 1 ==> !(l[i] == '.' && l[i + 1] == '.'))
  }

  /** `([A-Z0-9][A-Z0-9\-]*\.)+[A-Z]{2,}` ignoring case: labels each ended by a
      dot, then a top-level part of two or more letters. */
  predicate DomainPart(d: string)
    decreases |d|, 1
  {
    |d| >= 1 && IsAsciiAlnum(d[0]) && LabelRest(d[1..])
  }

  /** The rest of a label, its dot, and what follows the dot. */
  predicate LabelRest(d: string)
    decreases |d|, 0
  {
    |d| >= 1 &&
    if d[0] == '.' then TopLevel(d[1..]) || DomainPart(d[1..])
    else (IsAsciiAlnum(d[0]) || d[0] == '-') && LabelRest(d[1..])
  }

  predicate TopLevel(t: string) {
    |t| >= 2 && forall i :: 0 <= i < |t| ==> IsAsciiLetter(t[i])
  }

  /** The email check of the validation library (its version 3.22 pattern).
      Neither part admits `@`, so the split is at the first `@`. */
  predicate IsEmail(s: string) {
    match IndexOf(s, '@')
    case None => false
    case Some(at) => LocalPart(s[..at]) && DomainPart(s[at + 1..])
  }

  /** The one property of the email check the form's proofs rely on. */
  lemma EmptyIsNotEmail()
    ensures !IsEmail("")
  {
  }

  lemma EmailExamples()
    ensures IsEmail("a@b.com")
    ensures !IsEmail("bad-email")
  {
    var s := "a@b.com";
    assert IndexOf(s, '@') == Some(1);
    assert s[2..] == "b.com";
    assert "b.com"[1..] == ".com";
    assert ".com"[1..] == "com";
    assert TopLevel("com");
    assert LabelRest(".com");
    var bad := "bad-email";
    assert forall j :: 0 <= j < |bad| ==> bad[j] != '@';
  }

  // ---------------------------------------------------------------- schema

  /** What the form hands to the schema. The form always supplies a
      description string; `None` stands for a key that is absent. */
  datatype FormInput = FormInput(
    name: string,
    email: string,
    mobile: string,
    city: string,
    state: string,
    country: string,
    address: string,
    description: Option<string>)

  /** The schema's output on success. */
  datatype RestaurantFields = RestaurantFields(
    name: string,
    email: string,
    mobile: string,
    city: string,
    state: string,
    country: string,
    address: string,
    description: string)

  /** One failed check: the key it is reported under and its message. */
  datatype Issue = Issue(field: Field, message: string)

  datatype ParseResult = Success(data: RestaurantFields) | Failure(issues: seq<Issue>)

  /** The value the schema sees under a key. */
  function Value(input: FormInput, f: Field): string {
    match f
    case Name => input.name
    case Email => input.email
    case Mobile => input.mobile
    case City => input.city
    case State => input.state
    case Country => input.country
    case Address => input.address
    case Description => input.description.GetOr("")
  }

  /** The issues one field raises, in the order its checks run: `min(1)` is
      tested on the untrimmed value, and email and mobile run their format
      check even when `min(1)` failed. */
  function FieldIssues(f: Field, v: string): seq<Issue> {
    var required := if f != Description && |v| < 1 then [Issue(f, RequiredMessage(f))] else [];
    match f
    case Email => required + (if IsEmail(v) then [] else [Issue(Email, EmailInvalid)])
    case Mobile => required + (if MatchesMobile(v) then [] else [Issue(Mobile, MobileInvalid)])
    case _ => required
  }

  /** The issues of the listed fields, in list order. */
  function IssuesOf(input: FormInput, fs: seq<Field>): seq<Issue>
    decreases |fs|
  {
    if fs == [] then []
    else IssuesOf(input, fs[..|fs| - 1]) + FieldIssues(fs[|fs| - 1], Value(input, fs[|fs| - 1]))
  }

  /** What each field's rule asks of its value, stated without the checks. */
  predicate FieldOk(input: FormInput, f: Field) {
    match f
    case Email => IsEmail(input.email)
    case Mobile => MatchesMobile(input.mobile)
    case Description => true
    case _ => Value(input, f) != ""
  }

  lemma FieldIssuesEmptyIffOk(input: FormInput, f: Field)
    ensures FieldIssues(f, Value(input, f)) == [] <==> FieldOk(input, f)
  {
    EmptyIsNotEmail();
    MobileExamples();
  }

  /** The listed fields raise no issue exactly when each of their rules holds. */
  lemma {:induction false} NoIssuesIffRulesHold(input: FormInput, fs: seq<Field>)
    ensures IssuesOf(input, fs) == [] <==> forall f :: f in fs ==> FieldOk(input, f)
    decreases |fs|
  {
    if fs != [] {
      var init, last := fs[..|fs| - 1], fs[|fs| - 1];
      NoIssuesIffRulesHold(input, init);
      FieldIssuesEmptyIffOk(input, last);
      assert fs == init + [last];
    }
  }

  /** The schema's parse (`safeParse`): the normalised record, or every issue in order. */
  function SafeParse(input: FormInput): ParseResult {
    var issues := IssuesOf(input, SchemaOrder);
    if issues != [] then Failure(issues)
    else Success(RestaurantFields(
      Trim(input.name), input.email, StripWhitespace(input.mobile), Trim(input.city),
      Trim(input.state), Trim(input.country), Trim(input.address), input.description.GetOr("")))
  }

  /** Every rule of the schema holds of the input. */
  predicate RulesHold(input: FormInput) {
    && input.name != "" && IsEmail(input.email) && MatchesMobile(input.mobile)
    && input.city != "" && input.state != "" && input.country != "" && input.address != ""
  }

  /** Every rule holds exactly when every field of the schema is fine. */
  lemma RulesHoldIffEveryFieldOk(input: FormInput)
    ensures RulesHold(input) <==> forall f :: f in SchemaOrder ==> FieldOk(input, f)
  {
    if forall f :: f in SchemaOrder ==> FieldOk(input, f) {
      EveryFieldOkGivesRules(input);
    }
    if RulesHold(input) {
      forall f | f in SchemaOrder ensures FieldOk(input, f) {
        match f
        case Description =>
        case _ =>
      }
    }
  }

  lemma EveryFieldOkGivesRules(input: FormInput)
    requires forall f :: f in SchemaOrder ==> FieldOk(input, f)
    ensures RulesHold(input)
  {
    var ok := map f | f in SchemaOrder :: FieldOk(input, f);
    assert ok[Name] && ok[Email] && ok[Mobile] && ok[City];
    assert ok[State] && ok[Country] && ok[Address];
  }

  lemma SafeParseSucceedsIff(input: FormInput)
    ensures SafeParse(input).Success? <==> RulesHold(input)
  {
    NoIssuesIffRulesHold(input, SchemaOrder);
    RulesHoldIffEveryFieldOk(input);
  }

  /** A successful parse trims name, city, state, country and address, keeps
      the email and the mobile number as they were, passes a supplied
      description through and turns an absent one into "". */
  lemma SafeParseNormalises(input: FormInput)
    requires SafeParse(input).Success?
    ensures var d := SafeParse(input).data;
      && d.name == Trim(input.name) && TightEnds(d.name)
      && d.email == input.email
      && d.mobile == input.mobile
      && d.city == Trim(input.city) && TightEnds(d.city)
      && d.state == Trim(input.state) && TightEnds(d.state)
      && d.country == Trim(input.country) && TightEnds(d.country)
      && d.address == Trim(input.address) && TightEnds(d.address)
      && d.description == (if input.description.Some? then input.description.value else "")
  {
    SafeParseSucceedsIff(input);
    AcceptedMobileUnchangedByTransform(input.mobile);
    TrimSplitsOffWhitespace(input.name);
    TrimSplitsOffWhitespace(input.city);
    TrimSplitsOffWhitespace(input.state);
    TrimSplitsOffWhitespace(input.country);
    TrimSplitsOffWhitespace(input.address);
  }

  /** `min(1)` sees the untrimmed value: a non-empty name of only whitespace
      passes and is stored as "". */
  lemma BlankNameBecomesEmpty(input: FormInput)
    requires input.name != "" && AllWhitespace(input.name)
    requires IsEmail(input.email) && MatchesMobile(input.mobile)
    requires input.city != "" && input.state != "" && input.country != "" && input.address != ""
    ensures SafeParse(input).Success? && SafeParse(input).data.name == ""
  {
    SafeParseSucceedsIff(input);
    TrimEmptyIffAllWhitespace(input.name);
  }

  // ---------------------------------------------------------- field errors

  /** The `fieldErrors` dictionary the issues leave behind when each is written
      in turn under its key, so a later message for a key replaces an earlier one. */
  function ErrorsFrom(issues: seq<Issue>): (m: map<string, string>)
    decreases |issues|
  {
    if issues == [] then map[]
    else
      var init, last := issues[..|issues| - 1], issues[|issues| - 1];
      assert issues == init + [last];
      ErrorsFrom(init)[Key(last.field) := last.message]
  }

  /** The dictionary's keys are the keys of the issues, no more and no fewer. */
  lemma {:induction false} ErrorsFromKeys(issues: seq<Issue>)
    ensures forall x :: x in issues ==> Key(x.field) in ErrorsFrom(issues)
    ensures forall k :: k in ErrorsFrom(issues) ==> exists x :: x in issues && k == Key(x.field)
    decreases |issues|
  {
    if issues != [] {
      var init, last := issues[..|issues| - 1], issues[|issues| - 1];
      ErrorsFromKeys(init);
      assert issues == init + [last];
    }
  }

  /** A key holds the message of the last issue for it. */
  lemma {:induction false} LaterIssueWins(issues: seq<Issue>, k: nat)
    requires k < |issues|
    requires forall j :: k < j < |issues| ==> issues[j].field != issues[k].field
    ensures Key(issues[k].field) in ErrorsFrom(issues)
    ensures ErrorsFrom(issues)[Key(issues[k].field)] == issues[k].message
  {
    var n := |issues|;
    if k < n - 1 {
      var init := issues[..n - 1];
      LaterIssueWins(init, k);
      KeyInjective(issues[n - 1].field, issues[k].field);
    }
  }

  /** Writing two runs of issues in turn is writing the first and then
      overlaying the second. */
  lemma {:induction false} ErrorsFromAppend(a: seq<Issue>, b: seq<Issue>)
    ensures ErrorsFrom(a + b) == ErrorsFrom(a) + ErrorsFrom(b)
    decreases |b|
  {
    if b == [] {
      assert a + b == a;
    } else {
      var init, last := b[..|b| - 1], b[|b| - 1];
      assert (a + b)[..|a + b| - 1] == a + init;
      ErrorsFromAppend(a, init);
    }
  }

  /** The message a failing field ends up showing. For email and mobile the
      format check runs after `min(1)` and fails on "" too, so its message is
      the one kept: the "… is required" text of those two is never shown. */
  function ShownMessage(f: Field): string {
    match f
    case Email => EmailInvalid
    case Mobile => MobileInvalid
    case _ => RequiredMessage(f)
  }

  lemma ErrorsFromSingle(x: Issue)
    ensures ErrorsFrom([x]) == map[Key(x.field) := x.message]
  {
    assert [x][..0] == [];
  }

  lemma ErrorsFromPair(x: Issue, y: Issue)
    requires x.field == y.field
    ensures ErrorsFrom([x, y]) == map[Key(y.field) := y.message]
  {
    assert [x, y][..1] == [x];
    ErrorsFromSingle(x);
  }

  /** The dictionary one field's issues leave: empty when its rule holds,
      otherwise its shown message under its key. */
  lemma FieldErrorsOfOneField(input: FormInput, f: Field)
    ensures var m := ErrorsFrom(FieldIssues(f, Value(input, f)));
      m == if FieldOk(input, f) then map[] else map[Key(f) := ShownMessage(f)]
  {
    var v := Value(input, f);
    var required := Issue(f, RequiredMessage(f));
    match f
    case Email =>
      EmptyIsNotEmail();
      if v == "" {
        ErrorsFromPair(required, Issue(Email, EmailInvalid));
      } else if !IsEmail(v) {
        ErrorsFromSingle(Issue(Email, EmailInvalid));
      }
    case Mobile =>
      MobileExamples();
      if v == "" {
        ErrorsFromPair(required, Issue(Mobile, MobileInvalid));
      } else if !MatchesMobile(v) {
        ErrorsFromSingle(Issue(Mobile, MobileInvalid));
      }
    case Description =>
    case _ =>
      if v == "" {
        ErrorsFromSingle(required);
      }
  }

  /** `fieldErrors` after a parse of the listed fields: a field's key is
      present exactly when the field is listed and its rule fails, and then
      holds its shown message. */
  lemma {:induction false} ErrorsOfFields(input: FormInput, fs: seq<Field>)
    ensures var m := ErrorsFrom(IssuesOf(input, fs));
      && (forall f :: Key(f) in m <==> f in fs && !FieldOk(input, f))
      && (forall f :: Key(f) in m ==> m[Key(f)] == ShownMessage(f))
      && (forall k :: k in m ==> exists f :: k == Key(f))
    decreases |fs|
  {
    if fs != [] {
      var init, last := fs[..|fs| - 1], fs[|fs| - 1];
      ErrorsOfFields(input, init);
      var mi := ErrorsFrom(IssuesOf(input, init));
      var ml := ErrorsFrom(FieldIssues(last, Value(input, last)));
      ErrorsFromAppend(IssuesOf(input, init), FieldIssues(last, Value(input, last)));
      FieldErrorsOfOneField(input, last);
      var m := mi + ml;
      assert m == ErrorsFrom(IssuesOf(input, fs));
      assert fs == init + [last];
      forall f
        ensures Key(f) in m <==> f in fs && !FieldOk(input, f)
        ensures Key(f) in m ==> m[Key(f)] == ShownMessage(f)
      {
        KeyInjective(f, last);
        assert Key(f) in ml <==> f == last && !FieldOk(input, last);
        assert Key(f) in mi <==> f in init && !FieldOk(input, f);
        assert f in fs <==> f in init || f == last;
      }
    }
  }

  /** The dictionary `validateForm` leaves for a parse result. */
  function FieldErrorsAfter(r: ParseResult): map<string, string> {
    if r.Success? then map[] else ErrorsFrom(r.issues)
  }

  lemma SchemaListsEveryField(f: Field)
    ensures f in SchemaOrder
  {
  }

  /** Whatever the outcome, the dictionary is the one the parse's issues leave. */
  lemma FieldErrorsAfterParse(input: FormInput)
    ensures FieldErrorsAfter(SafeParse(input)) == ErrorsFrom(IssuesOf(input, SchemaOrder))
  {
  }

  /** After validation, `fieldErrors` is empty on success; otherwise its keys
      are exactly the failing fields, each with its shown message. */
  lemma FieldErrorsMeaning(input: FormInput)
    ensures var m := FieldErrorsAfter(SafeParse(input));
      && (SafeParse(input).Success? ==> m == map[])
      && (forall f :: Key(f) in m <==> !FieldOk(input, f))
      && (forall f :: Key(f) in m ==> m[Key(f)] == ShownMessage(f))
      && (forall k :: k in m ==> exists f :: k == Key(f))
  {
    FieldErrorsAfterParse(input);
    ErrorsOfFields(input, SchemaOrder);
    forall f ensures f in SchemaOrder {
      SchemaListsEveryField(f);
    }
  }

  /** What the form's two queries read off the dictionary validation left:
      a key holds a non-empty message exactly when its field's rule fails. */
  lemma FieldErrorsFlagFailingFields(input: FormInput, m: map<string, string>)
    requires m == FieldErrorsAfter(SafeParse(input))
    ensures forall f :: (Key(f) in m && m[Key(f)] != "") <==> !FieldOk(input, f)
    ensures forall f :: Key(f) in m ==> m[Key(f)] == ShownMessage(f)
  {
    FieldErrorsMeaning(input);
    forall f | Key(f) in m ensures m[Key(f)] != "" {
      assert f != Description;
    }
  }

  /** An empty name, city, state, country or address fails the parse and is
      reported under its own key with its "… is required" message. */
  lemma EmptyRequiredFieldReported(input: FormInput, f: Field)
    requires f in {Name, City, State, Country, Address}
    requires Value(input, f) == ""
    ensures SafeParse(input).Failure?
    ensures var m := FieldErrorsAfter(SafeParse(input));
      Key(f) in m && m[Key(f)] == RequiredMessage(f)
  {
    FieldErrorsMeaning(input);
  }

  /** An empty email raises two issues and the later one is kept, so the
      "Email is required" message is not what the form shows. */
  lemma EmptyEmailShowsFormatMessage(input: FormInput)
    requires input.email == ""
    ensures SafeParse(input).Failure?
    ensures var m := FieldErrorsAfter(SafeParse(input));
      Key(Email) in m && m[Key(Email)] == EmailInvalid
  {
    EmptyIsNotEmail();
    FieldErrorsMeaning(input);
    SafeParseSucceedsIff(input);
  }

  /** An empty mobile number likewise shows the format message. */
  lemma EmptyMobileShowsFormatMessage(input: FormInput)
    requires input.mobile == ""
    ensures SafeParse(input).Failure?
    ensures var m := FieldErrorsAfter(SafeParse(input));
      Key(Mobile) in m && m[Key(Mobile)] == MobileInvalid
  {
    MobileExamples();
    FieldErrorsMeaning(input);
    SafeParseSucceedsIff(input);
  }
}
