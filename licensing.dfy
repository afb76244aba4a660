/**
 * The licensing screens: redeeming an activation code, the system owner's console
 * (adding a restaurant, its subscription, issuing and resetting codes), the older
 * super-admin list with its subscription badge, the licence-key screen, and the
 * subscription dialog with its date field.
 */
module Licensing {
  import opened Wrappers
  import opened Domain
  import opened Text
  import opened Dates
  import Tenancy

  // Padding and case

  /** Upper-casing leaves white space alone. */
  lemma UpperKeepsSpaces(pad: string)
    requires forall i :: 0 <= i < |pad| ==> IsSpace(pad[i])
    ensures Upper(pad) == pad
  {
  }

  /** Upper-casing a concatenation upper-cases each part. */
  lemma UpperConcat(a: string, b: string)
    ensures Upper(a + b) == Upper(a) + Upper(b)
  {
  }

  /** White space typed around a value does not change what is matched after `trim` and upper-casing. */
  lemma TrimUpperIgnoresPadding(left: string, s: string, right: string)
    requires forall i :: 0 <= i < |left| ==> IsSpace(left[i])
    requires forall i :: 0 <= i < |right| ==> IsSpace(right[i])
    ensures Trim(Upper(left + s + right)) == Trim(Upper(s))
  {
    UpperConcat(left + s, right);
    UpperConcat(left, s);
    UpperKeepsSpaces(left);
    UpperKeepsSpaces(right);
    TrimIgnoresPadding(left, Upper(s), right);
  }

  /** A text that neither starts nor ends with white space is its own trim. */
  lemma TrimOfTrimmed(s: string)
    requires s != [] && !IsSpace(s[0]) && !IsSpace(s[|s| - 1])
    ensures Trim(s) == s
  {
  }

  // Redeeming a code

  datatype ActivationError = CodeNotValid | CodeAlreadyUsed

  /** The error a redemption result shows: none for success, a distinct one for each failure. */
  function ErrorFor(r: Tenancy.ActivationResult): (e: Option<ActivationError>)
    ensures e.None? <==> r == Tenancy.Success
    ensures r == Tenancy.InvalidCode ==> e == Some(CodeNotValid)
    ensures r == Tenancy.AlreadyUsed ==> e == Some(CodeAlreadyUsed)
  {
    match r
    case Success => None
    case InvalidCode => Some(CodeNotValid)
    case AlreadyUsed => Some(CodeAlreadyUsed)
  }

  datatype CodeForm = CodeForm(code: string, error: Option<ActivationError>)

  const InitialCodeForm := CodeForm("", None)

  /** The code field shows what is typed, upper-cased. */
  function TypeCode(f: CodeForm, typed: string): (r: CodeForm)
    ensures |r.code| == |typed| && r.error == f.error
    ensures forall i :: 0 <= i < |typed| ==> r.code[i] == UpperChar(typed[i])
  {
    f.(code := Upper(typed))
  }

  /**
   * Submitting: the trimmed code is redeemed; the error is first cleared and then
   * set from the result, so a success leaves none and a failure shows only its own.
   */
  function SubmitCode(f: CodeForm, rs: seq<Restaurant>, now: int)
    : (r: (CodeForm, (seq<Restaurant>, Tenancy.ActivationResult, Option<string>)))
    ensures r.1 == Tenancy.InitialActivate(rs, Trim(f.code), now)
    ensures r.0.code == f.code && r.0.error == ErrorFor(r.1.1)
  {
    var outcome := Tenancy.InitialActivate(rs, Trim(f.code), now);
    (CodeForm(f.code, ErrorFor(outcome.1)), outcome)
  }

  /** An issued code consists of characters that upper-casing keeps and ends in none that `trim` removes. */
  lemma IssuedCodeIsCanonical(random: string)
    requires forall i :: 2 <= i < |random| ==> Tenancy.IsBase36Lower(random[i])
    ensures Upper(Tenancy.CodeFrom(random)) == Tenancy.CodeFrom(random)
    ensures Trim(Tenancy.CodeFrom(random)) == Tenancy.CodeFrom(random)
  {
    var c := Tenancy.CodeFrom(random);
    assert c[0] == 'F';
    assert forall i :: 0 <= i < |c| ==> UpperChar(c[i]) == c[i] by {
      forall i | 0 <= i < |c| ensures UpperChar(c[i]) == c[i] {
        if i >= 3 { assert Tenancy.IsBase36Upper(c[i]); }
        else { assert c[..3][i] == c[i]; }
      }
    }
    assert !IsSpace(c[|c| - 1]) by {
      if |c| > 3 { assert Tenancy.IsBase36Upper(c[|c| - 1]); }
      else { assert c[..3][2] == c[|c| - 1]; }
    }
    TrimOfTrimmed(c);
  }

  /**
   * Typing an issued code in any letter case, with white space around it, submits
   * exactly that code.
   */
  lemma TypedCodeSubmitsIssuedCode(left: string, typed: string, right: string, random: string,
                                    rs: seq<Restaurant>, now: int)
    requires forall i :: 0 <= i < |left| ==> IsSpace(left[i])
    requires forall i :: 0 <= i < |right| ==> IsSpace(right[i])
    requires forall i :: 2 <= i < |random| ==> Tenancy.IsBase36Lower(random[i])
    requires Upper(typed) == Tenancy.CodeFrom(random)
    ensures (SubmitCode(TypeCode(InitialCodeForm, left + typed + right), rs, now)).1 ==
      Tenancy.InitialActivate(rs, Tenancy.CodeFrom(random), now)
  {
    TrimUpperIgnoresPadding(left, typed, right);
    IssuedCodeIsCanonical(random);
  }

  // Restaurant forms

  datatype RestaurantForm = RestaurantForm(name: string, id: string)

  /** `\s+` replaced by one `_` per run. */
  function CollapseSpaces(s: string): (r: string)
    ensures forall i :: 0 <= i < |r| ==> !IsSpace(r[i])
    ensures |r| <= |s|
    decreases |s|
  {
    if s == [] then []
    else if IsSpace(s[0]) then ['_'] + CollapseSpaces(TrimStart(s[1..]))
    else [s[0]] + CollapseSpaces(s[1..])
  }

  /** The id field of the owner's form: lower-cased, each run of white space one `_`. */
  function NormaliseId(typed: string): (id: string)
    ensures forall i :: 0 <= i < |id| ==> !IsSpace(id[i])
  {
    CollapseSpaces(Lower(typed))
  }

  lemma {:induction false} CollapseSpaceless(s: string)
    requires forall i :: 0 <= i < |s| ==> !IsSpace(s[i])
    ensures CollapseSpaces(s) == s
    decreases |s|
  {
    if s != [] {
      CollapseSpaceless(s[1..]);
    }
  }

  /** A run of white space before a word becomes one `_`. */
  lemma CollapsePadThenWord(pad: string, b: string)
    requires forall i :: 0 <= i < |b| ==> !IsSpace(b[i])
    requires pad != [] && forall i :: 0 <= i < |pad| ==> IsSpace(pad[i])
    ensures CollapseSpaces(pad + b) == "_" + b
  {
    assert (pad + b)[0] == pad[0];
    assert (pad + b)[1..] == pad[1..] + b;
    TrimStartSpaces(pad[1..], b);
    assert TrimStart(b) == b by {
      assert b == [] || !IsSpace(b[0]);
    }
    CollapseSpaceless(b);
  }

  /** Two words separated by white space become the words joined by one `_`. */
  lemma {:induction false} CollapseJoinsWords(a: string, pad: string, b: string)
    requires forall i :: 0 <= i < |a| ==> !IsSpace(a[i])
    requires forall i :: 0 <= i < |b| ==> !IsSpace(b[i])
    requires pad != [] && forall i :: 0 <= i < |pad| ==> IsSpace(pad[i])
    ensures CollapseSpaces(a + pad + b) == a + "_" + b
    decreases |a|
  {
    if a == [] {
      assert a + pad + b == pad + b;
      CollapsePadThenWord(pad, b);
    } else {
      var s := a + pad + b;
      assert s[0] == a[0] && !IsSpace(a[0]);
      assert s[1..] == a[1..] + pad + b;
      assert CollapseSpaces(s) == [a[0]] + CollapseSpaces(s[1..]);
      CollapseJoinsWords(a[1..], pad, b);
      assert a + "_" + b == [a[0]] + (a[1..] + "_" + b);
    }
  }

  /** Normalising an id already normalised changes nothing, so each keystroke keeps the field stable. */
  lemma NormaliseIdIdempotent(typed: string)
    ensures NormaliseId(NormaliseId(typed)) == NormaliseId(typed)
  {
    var id := NormaliseId(typed);
    assert Lower(id) == id by {
      forall i | 0 <= i < |id| ensures LowerChar(id[i]) == id[i] {
        LowerOnceEnough(Lower(typed), i);
      }
    }
    CollapseSpaceless(id);
  }

  /** Collapsing keeps characters that are never upper-case letters when its input has none. */
  lemma LowerOnceEnough(s: string, i: nat)
    requires NoUpper(s)
    requires i < |CollapseSpaces(s)|
    ensures LowerChar(CollapseSpaces(s)[i]) == CollapseSpaces(s)[i]
  {
    NoUpperSurvives(s);
  }

  predicate NoUpper(s: string)
  {
    forall j :: 0 <= j < |s| ==> !('A' <= s[j] <= 'Z')
  }

  lemma NoUpperSuffix(s: string, k: nat)
    requires NoUpper(s) && k <= |s|
    ensures NoUpper(s[k..])
  {
    assert forall j :: 0 <= j < |s| - k ==> s[k..][j] == s[k + j];
  }

  lemma {:induction false} NoUpperSurvives(s: string)
    requires NoUpper(s)
    ensures NoUpper(CollapseSpaces(s))
    decreases |s|
  {
    if s != [] {
      NoUpperSuffix(s, 1);
      var rest := s[1..];
      if IsSpace(s[0]) {
        var t := TrimStart(rest);
        assert rest[|rest| - |t|..] == t;
        NoUpperSuffix(rest, |rest| - |t|);
        NoUpperSurvives(t);
        assert CollapseSpaces(s) == ['_'] + CollapseSpaces(t);
      } else {
        NoUpperSurvives(rest);
        assert CollapseSpaces(s) == [s[0]] + CollapseSpaces(rest);
      }
    }
  }

  /** The owner's console normalises the id on every change. */
  function OwnerIdChange(f: RestaurantForm, typed: string): (r: RestaurantForm)
    ensures r.name == f.name && r.id == NormaliseId(typed)
  {
    f.(id := NormaliseId(typed))
  }

  /** The super-admin list keeps the id as typed. */
  function SuperAdminIdChange(f: RestaurantForm, typed: string): (r: RestaurantForm)
    ensures r.name == f.name && r.id == typed
  {
    f.(id := typed)
  }

  /** Both forms save only with a name and an id. */
  function SubmitRestaurant(f: RestaurantForm): (r: Option<RestaurantForm>)
    ensures r.Some? <==> f.name != "" && f.id != ""
    ensures r.Some? ==> r.value == f
  {
    if f.name != "" && f.id != "" then Some(f) else None
  }

  /** An id saved from the owner's console never holds white space; one from the super-admin list can. */
  lemma OnlyOwnerIdsAreSpaceless(name: string, typed: string)
    requires name != "" && typed != ""
    ensures var saved := SubmitRestaurant(OwnerIdChange(RestaurantForm(name, ""), typed));
      saved.Some? && forall i :: 0 <= i < |saved.value.id| ==> !IsSpace(saved.value.id[i])
    ensures SubmitRestaurant(SuperAdminIdChange(RestaurantForm(name, ""), " ")).value.id == " "
  {
    var id := NormaliseId(typed);
    assert |Lower(typed)| > 0;
    assert id != [];
  }

  // The owner's console

  /** A date cell: a stored end date, or the perpetual marker. */
  datatype EndDateCell = Perpetual | EndsOn(date: int)

  /** A code cell: the code, or the "not issued" marker for a missing or empty code. */
  datatype CodeCell = NotIssued | Code(code: string)

  datatype Row = Row(activated: bool, code: CodeCell, end: EndDateCell, canGenerate: bool, canReset: bool)

  /**
   * One restaurant's row: its state, its code or "not issued", its end date or
   * "perpetual", and which of the two code buttons is enabled.
   */
  function RowFor(r: Restaurant): (row: Row)
    ensures row.activated == r.isActivated
    ensures row.code == NotIssued <==> r.activationCode.None? || r.activationCode == Some("")
    ensures row.code.Code? ==> Some(row.code.code) == r.activationCode
    ensures row.end == Perpetual <==> r.subscriptionEndDate.None?
    ensures row.end.EndsOn? ==> Some(row.end.date) == r.subscriptionEndDate
    ensures row.canGenerate <==> !r.isActivated
    ensures row.canReset <==> r.isActivated
  {
    Row(r.isActivated,
        match r.activationCode
        case None => NotIssued
        case Some(c) => if c == "" then NotIssued else Code(c),
        match r.subscriptionEndDate
        case None => Perpetual
        case Some(t) => EndsOn(t),
        !r.isActivated, r.isActivated)
  }

  /** Exactly one of the two code buttons is enabled on every row. */
  lemma OneCodeButtonEnabled(r: Restaurant)
    ensures RowFor(r).canGenerate != RowFor(r).canReset
  {
  }

  /** What the console hands to the application. A perpetual subscription is `None`. */
  datatype ConsoleCommand =
    | NoCommand
    | AddRestaurant(name: string, id: string)
    | UpdateSubscription(restaurantId: string, end: Option<string>)
    | ResetActivation(restaurantId: string)

  datatype Console = Console(
    addOpen: bool,
    subscriptionOpen: bool,
    confirmResetOpen: bool,
    selected: Option<Restaurant>,
    toReset: Option<string>)

  const InitialConsole := Console(false, false, false, None, None)

  function OpenSubscription(c: Console, r: Restaurant): (out: Console)
    ensures out == c.(selected := Some(r), subscriptionOpen := true)
  {
    c.(selected := Some(r), subscriptionOpen := true)
  }

  /** Saving a subscription forwards the selected restaurant's id with the date, then closes and clears. */
  function SaveSubscription(c: Console, end: Option<string>): (r: (Console, ConsoleCommand))
    ensures !r.0.subscriptionOpen && r.0.selected.None?
    ensures r.0.addOpen == c.addOpen && r.0.confirmResetOpen == c.confirmResetOpen && r.0.toReset == c.toReset
    ensures c.selected.Some? ==> r.1 == UpdateSubscription(c.selected.value.id, end)
    ensures c.selected.None? ==> r.1 == NoCommand
  {
    var cmd := match c.selected
      case Some(r) => UpdateSubscription(r.id, end)
      case None => NoCommand;
    (c.(subscriptionOpen := false, selected := None), cmd)
  }

  /** Saving the form adds the restaurant and closes the form. */
  function SaveRestaurant(c: Console, f: RestaurantForm): (r: (Console, ConsoleCommand))
    ensures r.0 == c.(addOpen := false)
    ensures r.1 == AddRestaurant(f.name, f.id)
  {
    (c.(addOpen := false), AddRestaurant(f.name, f.id))
  }

  function RequestReset(c: Console, id: string): (out: Console)
    ensures out == c.(toReset := Some(id), confirmResetOpen := true)
  {
    c.(toReset := Some(id), confirmResetOpen := true)
  }

  /** Confirming forwards the pending id only when there is one (an empty id counts as none), then clears it. */
  function ConfirmReset(c: Console): (r: (Console, ConsoleCommand))
    ensures !r.0.confirmResetOpen && r.0.toReset.None?
    ensures r.0.addOpen == c.addOpen && r.0.subscriptionOpen == c.subscriptionOpen && r.0.selected == c.selected
    ensures r.1 == ResetActivation(c.toReset.GetOr("")) <==> c.toReset.Some? && c.toReset.value != ""
    ensures r.1 != ResetActivation(c.toReset.GetOr("")) ==> r.1 == NoCommand
  {
    var cmd := match c.toReset
      case Some(id) => if id != "" then ResetActivation(id) else NoCommand
      case None => NoCommand;
    (c.(confirmResetOpen := false, toReset := None), cmd)
  }

  /** Resetting through the console resets exactly the row asked for, once. */
  lemma ResetThroughConsole(c: Console, id: string)
    requires id != ""
    ensures var r := ConfirmReset(RequestReset(c, id));
      r.1 == ResetActivation(id) && ConfirmReset(r.0).1 == NoCommand
  {
  }

  /** The application's side of the console's commands. */
  function ApplyCommand(rs: seq<Restaurant>, cmd: ConsoleCommand, parse: string -> Option<int>): (out: seq<Restaurant>)
    ensures cmd == NoCommand ==> out == rs
    ensures cmd.AddRestaurant? ==>
      out == rs + [Restaurant(cmd.id, cmd.name, None, None, false, None)]
    ensures cmd.ResetActivation? ==> out == Tenancy.ResetActivation(rs, cmd.restaurantId)
    ensures cmd.UpdateSubscription? ==>
      |out| == |rs| &&
      forall i :: 0 <= i < |rs| ==>
        out[i] == if rs[i].id == cmd.restaurantId
                  then rs[i].(subscriptionEndDate := if cmd.end.None? then None else parse(cmd.end.value))
                  else rs[i]
  {
    match cmd
    case NoCommand => rs
    case AddRestaurant(name, id) => Tenancy.AddRestaurant(rs, Restaurant(id, name, None, None, false, None))
    case UpdateSubscription(id, end) =>
      Tenancy.UpdateSubscription(rs, id, match end case None => None case Some(s) => parse(s))
    case ResetActivation(id) => Tenancy.ResetActivation(rs, id)
  }

  // The super-admin list

  datatype SubscriptionStatus = NotSubscribed | Lapsed | Active

  /**
   * The badge: no end date is "not subscribed"; an end date before the start of
   * today is "expired"; otherwise, today included, "active".
   */
  function StatusOf(end: Option<int>, startOfToday: int): (s: SubscriptionStatus)
    ensures s == NotSubscribed <==> end.None?
    ensures s == Lapsed <==> end.Some? && end.value < startOfToday
    ensures s == Active <==> end.Some? && end.value >= startOfToday
  {
    match end
    case None => NotSubscribed
    case Some(t) => if t < startOfToday then Lapsed else Active
  }

  /**
   * The badge and the gate disagree: the badge calls a date "not subscribed" when
   * the gate treats it as perpetual, and "active" for an end date earlier today,
   * which the gate already treats as expired.
   */
  lemma BadgeAndGateDisagree(r: Restaurant, startOfToday: int, now: int)
    requires startOfToday <= now
    ensures r.subscriptionEndDate.None? ==> StatusOf(r.subscriptionEndDate, startOfToday) == NotSubscribed && !Tenancy.Expired(r, now)
    ensures r.subscriptionEndDate.Some? && startOfToday <= r.subscriptionEndDate.value < now ==>
      StatusOf(r.subscriptionEndDate, startOfToday) == Active && Tenancy.Expired(r, now)
  {
  }

  // The licence-key screen

  datatype Licence = Trial30 | Pro365 | Lifetime

  /** The licence a normalised key names, if any. */
  function LicenceFor(key: string): (l: Option<Licence>)
    ensures l == Some(Trial30) <==> key == "TRIAL30"
    ensures l == Some(Pro365) <==> key == "PRO365"
    ensures l == Some(Lifetime) <==> key == "LIFETIME"
  {
    if key == "TRIAL30" then Some(Trial30)
    else if key == "PRO365" then Some(Pro365)
    else if key == "LIFETIME" then Some(Lifetime)
    else None
  }

  /** Days of subscription; a lifetime licence has no end date. */
  function DurationDays(l: Licence): (d: Option<nat>)
    ensures d.None? <==> l == Lifetime
    ensures l == Trial30 ==> d == Some(30)
    ensures l == Pro365 ==> d == Some(365)
  {
    match l
    case Trial30 => Some(30)
    case Pro365 => Some(365)
    case Lifetime => None
  }

  datatype LicenceOutcome = KeyRejected | NameRejected | Activate(name: string, durationDays: Option<nat>)

  /**
   * Submitting the licence screen: the key is trimmed and upper-cased and checked
   * first; then a blank name is refused; otherwise the trimmed name is activated
   * with the key's duration.
   */
  function SubmitLicence(name: string, keyInput: string): (r: LicenceOutcome)
    ensures r == KeyRejected <==> LicenceFor(Trim(Upper(keyInput))).None?
    ensures r == NameRejected <==> LicenceFor(Trim(Upper(keyInput))).Some? && Trim(name) == ""
    ensures r.Activate? ==>
      (r.name == Trim(name) && r.name != "" &&
       r.durationDays == DurationDays(LicenceFor(Trim(Upper(keyInput))).value))
  {
    match LicenceFor(Trim(Upper(keyInput)))
    case None => KeyRejected
    case Some(l) => if Trim(name) == "" then NameRejected else Activate(Trim(name), DurationDays(l))
  }

  /** Keys are matched regardless of letter case and surrounding white space. */
  lemma LicenceKeyPaddingIgnored(name: string, left: string, key: string, right: string)
    requires forall i :: 0 <= i < |left| ==> IsSpace(left[i])
    requires forall i :: 0 <= i < |right| ==> IsSpace(right[i])
    ensures SubmitLicence(name, left + key + right) == SubmitLicence(name, key)
  {
    TrimUpperIgnoresPadding(left, key, right);
  }

  // The subscription dialog

  /** The date field starts at the restaurant's end date, or empty for a perpetual one. */
  function InitialEndField(end: Option<CalendarDate>): (s: string)
    ensures end.None? ==> s == ""
    ensures end.Some? && 1000 <= end.value.year <= 9999 && end.value.monthIndex < 12 && end.value.day < 100 ==>
      ParseDateInput(s) == end
  {
    assert end.Some? && 1000 <= end.value.year <= 9999 && end.value.monthIndex < 12 && end.value.day < 100 ==>
      ParseDateInput(FormatDateForInput(end)) == end by {
      if end.Some? && 1000 <= end.value.year <= 9999 && end.value.monthIndex < 12 && end.value.day < 100 {
        DateInputRoundTrip(end.value);
      }
    }
    FormatDateForInput(end)
  }

  /** Saving: an empty field is perpetual (`None`); any other value is handed on as the new date. */
  function SaveEndField(field: string): (r: Option<string>)
    ensures r.None? <==> field == ""
    ensures r.Some? ==> r.value == field
  {
    if field == "" then None else Some(field)
  }

  /** The lifetime button empties the field. */
  function SetLifetime(field: string): (r: string)
    ensures SaveEndField(r).None?
  {
    ""
  }

  /** Opening the dialog and saving it unchanged keeps the subscription as it was. */
  lemma SaveUnchangedKeepsEnd(end: Option<CalendarDate>)
    requires end.Some? ==> 1000 <= end.value.year <= 9999 && end.value.monthIndex < 12 && end.value.day < 100
    ensures end.None? ==> SaveEndField(InitialEndField(end)).None?
    ensures end.Some? ==>
      (SaveEndField(InitialEndField(end)).Some? &&
       ParseDateInput(SaveEndField(InitialEndField(end)).value) == end)
  {
    if end.Some? {
      DateInputRoundTrip(end.value);
    }
  }
}
