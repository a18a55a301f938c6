/** Validation of the two forms the handlers accept: the expense form of
    `add_expense` and `edit_expense` (app.py:216-235, app.py:288-307) and
    the `SignupForm` (app.py:24-55). A field missing from the request is
    the empty string, which Python treats the same way as `None` here: both
    are falsy, and `.get(name, '')` defaults to ''. */
module Forms {
  import opened Sequences
  import opened Text
  import opened Dates
  import opened Money

  datatype ExpenseForm = ExpenseForm(amount: string, date: string, category: string, description: string)

  /** Why a submitted expense form was turned away, one per flashed message. */
  datatype Rejection = MissingFields | InvalidAmount | InvalidDate

  datatype Checked =
    | Accepted(amount: int, date: Date, category: string, description: string)
    | Refused(reason: Rejection)

  /** Amount and date are tested raw; category and description after `.strip()`. */
  predicate AllFieldsGiven(f: ExpenseForm)
  {
    f.amount != [] && f.date != [] && Strip(f.category) != [] && Strip(f.description) != []
  }

  /** The checks in the handlers' order: all fields given, then the amount
      parses, then the date is a real `YYYY-MM-DD` day. What is stored is a
      real date and two non-empty texts without surrounding whitespace. */
  function CheckExpenseForm(f: ExpenseForm): (r: Checked)
    ensures r.Accepted? ==>
      && IsRealDate(r.date)
      && r.category != [] && Stripped(r.category)
      && r.description != [] && Stripped(r.description)
  {
    if !AllFieldsGiven(f) then Refused(MissingFields)
    else match ParseAmount(f.amount)
      case None => Refused(InvalidAmount)
      case Some(amount) =>
        match ParseIsoDate(f.date)
        case None => Refused(InvalidDate)
        case Some(date) =>
          Accepted(amount, date, Strip(f.category), Strip(f.description))
  }

  /** Each refusal happens exactly when its check is the first to fail, and
      an accepted form carries the parsed amount and date and the stripped
      texts. */
  lemma CheckExpenseFormCases(f: ExpenseForm)
    ensures var r := CheckExpenseForm(f);
      && (r == Refused(MissingFields) <==> !AllFieldsGiven(f))
      && (r == Refused(InvalidAmount) <==> AllFieldsGiven(f) && ParseAmount(f.amount).None?)
      && (r == Refused(InvalidDate) <==>
            AllFieldsGiven(f) && ParseAmount(f.amount).Some? && ParseIsoDate(f.date).None?)
      && (r.Accepted? ==>
            && ParseAmount(f.amount) == Some(r.amount) && ParseIsoDate(f.date) == Some(r.date)
            && r.category == Strip(f.category) && r.description == Strip(f.description))
  {
  }

  /** A category of only whitespace counts as missing. */
  lemma BlankCategoryExample()
    ensures CheckExpenseForm(ExpenseForm("12.5", "2024-02-29", "  ", "lunch")) == Refused(MissingFields)
  {
    assert AllSpace("  ");
  }

  /** The fields of `SignupForm`. */
  datatype SignupForm = SignupForm(name: string, email: string, password: string, confirm: string)

  /** WTForms' `DataRequired`: the field is present and not only whitespace. */
  predicate DataRequired(s: string)
  {
    Strip(s) != []
  }

  /** WTForms' `Length(min, max)`, counting every character, whitespace included. */
  predicate LengthBetween(s: string, min: nat, max: nat)
  {
    min <= |s| <= max
  }

  /** `form.validate_on_submit()` on a POST: the validators of app.py:26-54
      (the `Email()` check aside). No validator compares the password with
      its confirmation. */
  predicate SignupFormValid(f: SignupForm)
  {
    && DataRequired(f.name) && LengthBetween(f.name, 2, 100)
    && DataRequired(f.email)
    && DataRequired(f.password) && |f.password| >= 6
    && DataRequired(f.confirm) && |f.confirm| >= 6
  }

  /** A valid form carries a password of at least six characters, one of
      them not whitespace. */
  lemma ValidPasswordShape(f: SignupForm)
    requires SignupFormValid(f)
    ensures |f.password| >= 6 && exists i :: 0 <= i < |f.password| && !IsSpace(f.password[i])
  {
    assert !AllSpace(f.password);
  }

  /** The confirmation is never compared with the password: whatever the
      password, any other confirmation that passes its own two validators
      leaves the form valid. */
  lemma ConfirmationNotCompared(f: SignupForm, confirm: string)
    requires SignupFormValid(f)
    requires DataRequired(confirm) && |confirm| >= 6 && confirm != f.password
    ensures SignupFormValid(f.(confirm := confirm)) && f.(confirm := confirm).confirm != f.password
  {
  }
}
