/** The expense tracker as its Flask handlers drive it (app.py:58-336):
    the three tables and the signed-in session, changed in place by
    sign-up, sign-in, logout and the add, edit and delete handlers, and
    read by the dashboard and the expense list. A response is the page
    rendered or the redirect taken, with the message flashed. */
module Ledger {
  import opened Sequences
  import opened Text
  import opened Schema
  import opened Forms
  import opened Redirects
  import opened Reports
  import opened Store

  /** `url_for` of the routes a handler redirects to. */
  const HomePath: string := "/"
  const SignInPath: string := "/SignIn"
  const SignUpPath: string := "/SignUp"
  const DashboardPath: string := "/dashboard"

  /** `url_for('edit_expense', expense_id=...)`, the query string aside. */
  function EditFormPath(expenseId: nat): string
  {
    "/expense/" + NatToDecimal(expenseId) + "/edit"
  }

  /** The fixed targets of the edit and delete handlers are local paths,
      as `NextTarget`'s results are. */
  lemma SignInPathLocal()
    ensures IsLocalPath(SignInPath)
  {
    assert SignInPath[1] == 'S';
    LocalByHead(SignInPath);
  }

  lemma EditFormPathLocal(expenseId: nat)
    ensures IsLocalPath(EditFormPath(expenseId))
  {
    var p := EditFormPath(expenseId);
    assert p[..9] == "/expense/";
    assert p[1] == 'e';
    LocalByHead(p);
  }

  /** The `user_id`, `name` and `email` keys of Flask's session. */
  datatype Session = Session(userId: int, name: string, email: string)

  function SessionOf(u: User): Session
  {
    Session(u.id, u.name, u.email)
  }

  /** The message a handler flashes. */
  datatype Notice =
    | SignedIn | BadCredentials
    | EmailTaken | AccountCreated
    | SignInRequired | NotFound | FormRefused(reason: Rejection)
    | ExpenseAdded | ExpenseUpdated | ExpenseDeleted
    | LoggedOut

  datatype Response =
    | Redirect(location: string, notice: Option<Notice>)
    | Render(template: string, notice: Option<Notice>)

  /** What the two read-only pages show. */
  datatype View =
    | SignInFirst
    | DashboardView(categories: seq<Category>, recent: seq<Expense>, total: int,
                    chartLabels: seq<string>, chartValues: seq<int>)
    | ExpenseListView(categories: seq<Category>, expenses: seq<Expense>, total: int, selected: Option<int>)

  /** `[row[0] for row in category_totals]`. */
  function ChartLabels(rows: seq<BreakdownRow>): (r: seq<string>)
    ensures |r| == |rows| && forall i :: 0 <= i < |rows| ==> r[i] == rows[i].name
  {
    seq(|rows|, i requires 0 <= i < |rows| => rows[i].name)
  }

  /** `[row[1] for row in category_totals]`, kept in cents. */
  function ChartValues(rows: seq<BreakdownRow>): (r: seq<int>)
    ensures |r| == |rows| && forall i :: 0 <= i < |rows| ==> r[i] == rows[i].total
  {
    seq(|rows|, i requires 0 <= i < |rows| => rows[i].total)
  }

  function Itself(x: int): int { x }

  /** The values list adds up to what the rows it is taken from add up to. */
  lemma {:induction false} ChartValuesSum(rows: seq<BreakdownRow>)
    ensures SumBy(ChartValues(rows), Itself) == SumBy(rows, RowTotal)
  {
    if rows != [] {
      assert ChartValues(rows)[1..] == ChartValues(rows[1..]);
      ChartValuesSum(rows[1..]);
    }
  }

  /** The three tables and the session, as one value. */
  datatype State = State(users: seq<User>, categories: seq<Category>, expenses: seq<Expense>,
                         session: Option<Session>)

  /** What a handler leaves behind: the new state and its response. */
  datatype Handled = Handled(state: State, resp: Response)

  /** The schema's constraints hold, and a signed-in session names a user. */
  predicate LedgerInvariant(st: State)
  {
    && StoreInvariant(st.users, st.categories, st.expenses)
    && (st.session.Some? ==> exists k :: 0 <= k < |st.users| && st.session.value == SessionOf(st.users[k]))
  }

  /** `after` holds exactly the rows of `before` whose id is not `id`. */
  ghost predicate KeepsAllBut(before: seq<Expense>, after: seq<Expense>, id: int)
  {
    forall e :: e in after <==> e in before && e.id != id
  }

  /** Every row keeps its place, id and owner, and only the row with id
      `id` may differ. */
  predicate TouchesOnly(before: seq<Expense>, after: seq<Expense>, id: int)
  {
    && |after| == |before|
    && forall j :: 0 <= j < |before| ==>
      && after[j].id == before[j].id && after[j].userId == before[j].userId
      && (before[j].id != id ==> after[j] == before[j])
  }

  /** The signed-in user's row with id `expenseId`, if there is one. */
  function OwnRow(st: State, expenseId: int): Option<nat>
  {
    if st.session.None? then None else FindOwned(st.expenses, expenseId, st.session.value.userId)
  }

  /** `signup` (app.py:92-121): a valid POST from a visitor adds one user,
      with the next id and the salted hash of the password, exactly when
      no user has that e-mail; nothing else changes. */
  function SignUpStep(st: State, hasher: (string, string) -> string, isPost: bool, form: SignupForm,
                      salt: string): (h: Handled)
    ensures h.state == st.(users := h.state.users)
    ensures h.state.users != st.users <==>
      st.session.None? && isPost && SignupFormValid(form) && FindUserByEmail(st.users, form.email).None?
    ensures h.state.users != st.users ==>
      && h.state.users == st.users + [User(NextKey(st.users, UserKey), form.name, form.email,
                                           HashPassword(hasher, salt, form.password))]
      && h.resp == Redirect(SignInPath, Some(AccountCreated))
    ensures st.session.Some? ==> h.resp == Redirect(DashboardPath, None)
    ensures st.session.None? && !(isPost && SignupFormValid(form)) ==> h.resp == Render("signup.html", None)
    ensures st.session.None? && isPost && SignupFormValid(form) && FindUserByEmail(st.users, form.email).Some? ==>
      h.resp == Redirect(SignUpPath, Some(EmailTaken))
  {
    if st.session.Some? then Handled(st, Redirect(DashboardPath, None))
    else if !(isPost && SignupFormValid(form)) then Handled(st, Render("signup.html", None))
    else match Register(st.users, form.name, form.email, HashPassword(hasher, salt, form.password))
      case None => Handled(st, Redirect(SignUpPath, Some(EmailTaken)))
      case Some(r) => Handled(st.(users := r), Redirect(SignInPath, Some(AccountCreated)))
  }

  /** `add_expense` (app.py:282-328): only a signed-in user whose form
      passes the checks writes anything, and then one row is appended, with
      the next rowid, for that user with the parsed amount, date and
      description, filed under the category of the given name, found or
      else created as `ResolveCategory` says. */
  function AddExpenseStep(st: State, form: ExpenseForm): (h: Handled)
    ensures h.state.users == st.users && h.state.session == st.session
    ensures st.categories <= h.state.categories
    ensures h.state != st ==> st.session.Some? && CheckExpenseForm(form).Accepted?
    ensures st.session.None? ==> h.resp == Redirect(SignInPath, Some(SignInRequired))
    ensures st.session.Some? && CheckExpenseForm(form).Refused? ==>
      h.resp == Redirect(DashboardPath, Some(FormRefused(CheckExpenseForm(form).reason)))
    ensures st.session.Some? && CheckExpenseForm(form).Accepted? ==>
      var c, n := CheckExpenseForm(form), |st.expenses|;
      && |h.state.expenses| == n + 1 && h.state.expenses[..n] == st.expenses
      && h.state.expenses[n].id == NextKey(st.expenses, ExpenseKey)
      && h.state.expenses[n].userId == st.session.value.userId
      && h.state.expenses[n].amount == c.amount && h.state.expenses[n].date == c.date
      && h.state.expenses[n].description == c.description
      && Category(h.state.expenses[n].categoryId, c.category) in h.state.categories
      && h.state.categories == ResolveCategory(st.categories, c.category).categories
      && h.state.expenses[n].categoryId == ResolveCategory(st.categories, c.category).id
      && h.resp == Redirect(DashboardPath, Some(ExpenseAdded))
  {
    if st.session.None? then Handled(st, Redirect(SignInPath, Some(SignInRequired)))
    else match CheckExpenseForm(form)
      case Refused(reason) => Handled(st, Redirect(DashboardPath, Some(FormRefused(reason))))
      case Accepted(amount, date, name, description) =>
        var res := ResolveCategory(st.categories, name);
        var e := NewExpense(st.expenses, st.session.value.userId, res.id, amount, description, date);
        assert (st.expenses + [e])[..|st.expenses|] == st.expenses;
        Handled(st.(categories := res.categories, expenses := st.expenses + [e]),
                Redirect(DashboardPath, Some(ExpenseAdded)))
  }

  /** Row `i` rewritten from an accepted form: it keeps its place, id and
      owner and takes the parsed amount, date, description and the category
      of the given name, found or else created as `ResolveCategory` says;
      no other row changes. */
  function ReviseRow(st: State, i: nat, c: Checked): (r: State)
    requires i < |st.expenses| && c.Accepted?
    ensures r.users == st.users && r.session == st.session && st.categories <= r.categories
    ensures TouchesOnly(st.expenses, r.expenses, st.expenses[i].id)
    ensures && r.expenses[i].amount == c.amount && r.expenses[i].date == c.date
            && r.expenses[i].description == c.description
            && Category(r.expenses[i].categoryId, c.category) in r.categories
    ensures && r.categories == ResolveCategory(st.categories, c.category).categories
            && r.expenses[i].categoryId == ResolveCategory(st.categories, c.category).id
  {
    var res := ResolveCategory(st.categories, c.category);
    st.(categories := res.categories,
        expenses := st.expenses[i := Revise(st.expenses[i], res.id, c.amount, c.description, c.date)])
  }

  /** `edit_expense` (app.py:203-259): only a POST that passes the checks,
      for a row the signed-in user owns, writes anything, and then only as
      `ReviseRow` says. */
  function EditExpenseStep(st: State, expenseId: nat, isPost: bool, form: ExpenseForm,
                           argsNext: string, formNext: string): (h: Handled)
    ensures h.state.users == st.users && h.state.session == st.session
    ensures st.categories <= h.state.categories
    ensures TouchesOnly(st.expenses, h.state.expenses, expenseId)
    ensures h.state != st ==> OwnRow(st, expenseId).Some? && isPost && CheckExpenseForm(form).Accepted?
    ensures st.session.None? ==> h.resp == Redirect(SignInPath, Some(SignInRequired))
    ensures st.session.Some? && OwnRow(st, expenseId).None? ==> h.resp == Redirect(ExpenseListPath, Some(NotFound))
    ensures OwnRow(st, expenseId).Some? && !isPost ==> h.resp == Redirect(NextTarget(argsNext), None)
    ensures OwnRow(st, expenseId).Some? && isPost && CheckExpenseForm(form).Refused? ==>
      h.resp == Redirect(EditFormPath(expenseId), Some(FormRefused(CheckExpenseForm(form).reason)))
    ensures OwnRow(st, expenseId).Some? && isPost && CheckExpenseForm(form).Accepted? ==>
      && h.state == ReviseRow(st, OwnRow(st, expenseId).value, CheckExpenseForm(form))
      && h.resp == Redirect(NextTarget(FirstGiven(argsNext, formNext)), Some(ExpenseUpdated))
  {
    match OwnRow(st, expenseId)
    case None =>
      if st.session.None? then Handled(st, Redirect(SignInPath, Some(SignInRequired)))
      else Handled(st, Redirect(ExpenseListPath, Some(NotFound)))
    case Some(i) =>
      if !isPost then Handled(st, Redirect(NextTarget(argsNext), None))
      else if CheckExpenseForm(form).Refused? then
        Handled(st, Redirect(EditFormPath(expenseId), Some(FormRefused(CheckExpenseForm(form).reason))))
      else
        Handled(ReviseRow(st, i, CheckExpenseForm(form)),
                Redirect(NextTarget(FirstGiven(argsNext, formNext)), Some(ExpenseUpdated)))
  }

  /** `delete_expense` (app.py:261-280): only a row the signed-in user owns
      goes, one occurrence of it and nothing else; no category goes with it. */
  function DeleteExpenseStep(st: State, expenseId: nat, argsNext: string, formNext: string): (h: Handled)
    ensures h.state == st.(expenses := h.state.expenses)
    ensures OwnRow(st, expenseId).None? ==> h.state == st
    ensures st.session.None? ==> h.resp == Redirect(SignInPath, Some(SignInRequired))
    ensures st.session.Some? && OwnRow(st, expenseId).None? ==> h.resp == Redirect(ExpenseListPath, Some(NotFound))
    ensures OwnRow(st, expenseId).Some? ==>
      var i := OwnRow(st, expenseId).value;
      && multiset(h.state.expenses) == multiset(st.expenses) - multiset{st.expenses[i]}
      && h.resp == Redirect(NextTarget(FirstGiven(formNext, argsNext)), Some(ExpenseDeleted))
  {
    match OwnRow(st, expenseId)
    case None =>
      if st.session.None? then Handled(st, Redirect(SignInPath, Some(SignInRequired)))
      else Handled(st, Redirect(ExpenseListPath, Some(NotFound)))
    case Some(i) =>
      Handled(st.(expenses := RemoveAt(st.expenses, i)),
              Redirect(NextTarget(FirstGiven(formNext, argsNext)), Some(ExpenseDeleted)))
  }

  /** Each handler keeps the invariant. */
  lemma SignUpKeeps(st: State, hasher: (string, string) -> string, isPost: bool, form: SignupForm, salt: string)
    requires LedgerInvariant(st)
    ensures LedgerInvariant(SignUpStep(st, hasher, isPost, form, salt).state)
  {
    var hash := HashPassword(hasher, salt, form.password);
    if st.session.None? && isPost && SignupFormValid(form) && Register(st.users, form.name, form.email, hash).Some? {
      RegisterKeepsInvariant(st.users, st.categories, st.expenses, form.name, form.email, hash);
    }
  }

  lemma AddExpenseKeeps(st: State, form: ExpenseForm)
    requires LedgerInvariant(st)
    ensures LedgerInvariant(AddExpenseStep(st, form).state)
  {
    if st.session.Some? && CheckExpenseForm(form).Accepted? {
      var c, uid := CheckExpenseForm(form), st.session.value.userId;
      var k :| 0 <= k < |st.users| && st.session.value == SessionOf(st.users[k]);
      assert HasUser(st.users, uid);
      AddKeepsInvariant(st.users, st.categories, st.expenses, uid, c.amount, c.date, c.category, c.description);
    }
  }

  lemma EditExpenseKeeps(st: State, expenseId: nat, isPost: bool, form: ExpenseForm, argsNext: string, formNext: string)
    requires LedgerInvariant(st)
    ensures LedgerInvariant(EditExpenseStep(st, expenseId, isPost, form, argsNext, formNext).state)
  {
    if OwnRow(st, expenseId).Some? && isPost && CheckExpenseForm(form).Accepted? {
      var i, c := OwnRow(st, expenseId).value, CheckExpenseForm(form);
      EditKeepsInvariant(st.users, st.categories, st.expenses, i, c.amount, c.date, c.category, c.description);
    }
  }

  lemma DeleteExpenseKeeps(st: State, expenseId: nat, argsNext: string, formNext: string)
    requires LedgerInvariant(st)
    ensures LedgerInvariant(DeleteExpenseStep(st, expenseId, argsNext, formNext).state)
  {
    if OwnRow(st, expenseId).Some? {
      DeleteKeepsInvariant(st.users, st.categories, st.expenses, OwnRow(st, expenseId).value);
    }
  }

  /** With the ids distinct, a delete that finds the row removes exactly
      the row with that id. */
  lemma DeleteRemovesExactly(st: State, expenseId: nat, argsNext: string, formNext: string)
    requires LedgerInvariant(st) && OwnRow(st, expenseId).Some?
    ensures KeepsAllBut(st.expenses, DeleteExpenseStep(st, expenseId, argsNext, formNext).state.expenses, expenseId)
  {
    RemoveAtExactly(st.expenses, OwnRow(st, expenseId).value);
  }

  /** An accepted add raises the signed-in user's total by the amount. */
  lemma AddExpenseRaisesTotal(st: State, form: ExpenseForm)
    requires st.session.Some? && CheckExpenseForm(form).Accepted?
    ensures var uid := st.session.value.userId;
      TotalSpent(AddExpenseStep(st, form).state.expenses, uid, None)
        == TotalSpent(st.expenses, uid, None) + CheckExpenseForm(form).amount
  {
    var c, uid := CheckExpenseForm(form), st.session.value.userId;
    var res := ResolveCategory(st.categories, c.category);
    TotalAfterAppend(st.expenses, NewExpense(st.expenses, uid, res.id, c.amount, c.description, c.date), uid, None);
  }

  /** What one user adds, edits or deletes leaves every other user's rows,
      and so their listings and totals, as they were. */
  lemma AddExpenseInvisibleToOthers(st: State, form: ExpenseForm, other: int, filter: Option<int>)
    requires st.session.None? || st.session.value.userId != other
    ensures var after := AddExpenseStep(st, form).state.expenses;
      && ExpensesOfUser(after, other) == ExpensesOfUser(st.expenses, other)
      && Listing(after, other, filter) == Listing(st.expenses, other, filter)
      && TotalSpent(after, other, filter) == TotalSpent(st.expenses, other, filter)
  {
    var after := AddExpenseStep(st, form).state.expenses;
    if st.session.Some? && CheckExpenseForm(form).Accepted? {
      var c, uid := CheckExpenseForm(form), st.session.value.userId;
      var res := ResolveCategory(st.categories, c.category);
      AddInvisibleToOthers(st.expenses, NewExpense(st.expenses, uid, res.id, c.amount, c.description, c.date), other);
    }
    OtherUsersInvisible(after, st.expenses, other, filter);
  }

  lemma EditExpenseInvisibleToOthers(st: State, expenseId: nat, isPost: bool, form: ExpenseForm,
                                     argsNext: string, formNext: string, other: int, filter: Option<int>)
    requires st.session.None? || st.session.value.userId != other
    ensures var after := EditExpenseStep(st, expenseId, isPost, form, argsNext, formNext).state.expenses;
      && ExpensesOfUser(after, other) == ExpensesOfUser(st.expenses, other)
      && Listing(after, other, filter) == Listing(st.expenses, other, filter)
      && TotalSpent(after, other, filter) == TotalSpent(st.expenses, other, filter)
  {
    var after := EditExpenseStep(st, expenseId, isPost, form, argsNext, formNext).state.expenses;
    if OwnRow(st, expenseId).Some? && isPost && CheckExpenseForm(form).Accepted? {
      var i, c := OwnRow(st, expenseId).value, CheckExpenseForm(form);
      var res := ResolveCategory(st.categories, c.category);
      EditInvisibleToOthers(st.expenses, i, res.id, c.amount, c.description, c.date, other);
    }
    OtherUsersInvisible(after, st.expenses, other, filter);
  }

  lemma DeleteExpenseInvisibleToOthers(st: State, expenseId: nat, argsNext: string, formNext: string,
                                       other: int, filter: Option<int>)
    requires st.session.None? || st.session.value.userId != other
    ensures var after := DeleteExpenseStep(st, expenseId, argsNext, formNext).state.expenses;
      && ExpensesOfUser(after, other) == ExpensesOfUser(st.expenses, other)
      && Listing(after, other, filter) == Listing(st.expenses, other, filter)
      && TotalSpent(after, other, filter) == TotalSpent(st.expenses, other, filter)
  {
    var after := DeleteExpenseStep(st, expenseId, argsNext, formNext).state.expenses;
    if OwnRow(st, expenseId).Some? {
      DeleteInvisibleToOthers(st.expenses, OwnRow(st, expenseId).value, other);
    }
    OtherUsersInvisible(after, st.expenses, other, filter);
  }

  /** With the corrected sanitiser, every redirect of the edit and delete
      handlers stays on this site. */
  lemma EditRedirectsLocal(st: State, expenseId: nat, isPost: bool, form: ExpenseForm,
                           argsNext: string, formNext: string)
    ensures var resp := EditExpenseStep(st, expenseId, isPost, form, argsNext, formNext).resp;
      resp.Redirect? && IsLocalPath(resp.location)
  {
    SignInPathLocal();
    ExpenseListPathIsLocal();
    EditFormPathLocal(expenseId);
  }

  lemma DeleteRedirectsLocal(st: State, expenseId: nat, argsNext: string, formNext: string)
    ensures var resp := DeleteExpenseStep(st, expenseId, argsNext, formNext).resp;
      resp.Redirect? && IsLocalPath(resp.location)
  {
    SignInPathLocal();
    ExpenseListPathIsLocal();
  }

  /** The dashboard's data for one user: every category in name order, the
      four newest of the user's expenses (`Recent`, whose rows
      `RecentAreNewest` characterises), the user's total and one chart bar
      per category in the same order, whose values add up to that total. */
  function DashboardFor(categories: seq<Category>, expenses: seq<Expense>, userId: int): (v: View)
    requires DistinctKeys(categories, CategoryKey) && DistinctKeys(expenses, ExpenseKey)
    requires forall e :: e in expenses && e.userId == userId ==> HasCategory(categories, e.categoryId)
    ensures v.DashboardView?
    ensures multiset(v.categories) == multiset(categories)
    ensures forall i, j :: 0 <= i < j < |v.categories| ==> CodePointLe(v.categories[i].name, v.categories[j].name)
    ensures v.recent == Recent(expenses, userId)
    ensures |v.recent| <= 4 && forall e :: e in v.recent ==> e in expenses && e.userId == userId
    ensures |v.chartLabels| == |v.chartValues| == |v.categories| == |categories|
    ensures forall i :: 0 <= i < |v.categories| ==>
      v.chartLabels[i] == v.categories[i].name && v.chartValues[i] == CategoryTotal(expenses, userId, v.categories[i].id)
    ensures forall c :: c in categories ==>
      exists i :: 0 <= i < |v.chartLabels| && v.chartLabels[i] == c.name
        && v.chartValues[i] == CategoryTotal(expenses, userId, c.id)
    ensures SumBy(v.chartValues, Itself) == v.total == TotalSpent(expenses, userId, None)
  {
    var rows := Breakdown(categories, expenses, userId);
    RecentAreNewest(expenses, userId);
    BreakdownSumIsTotal(categories, expenses, userId);
    ChartValuesSum(rows);
    ChartCoversCategories(categories, expenses, userId);
    DashboardView(ByName(categories), Recent(expenses, userId), TotalSpent(expenses, userId, None),
                  ChartLabels(rows), ChartValues(rows))
  }

  /** Each category has its label in the chart, with this user's total in
      it at the same position of the values. */
  lemma ChartCoversCategories(categories: seq<Category>, expenses: seq<Expense>, userId: int)
    ensures var rows := Breakdown(categories, expenses, userId);
      var labels, values := ChartLabels(rows), ChartValues(rows);
      forall c :: c in categories ==>
        exists i :: 0 <= i < |labels| && labels[i] == c.name && values[i] == CategoryTotal(expenses, userId, c.id)
  {
    var rows := Breakdown(categories, expenses, userId);
    var labels, values := ChartLabels(rows), ChartValues(rows);
    BreakdownCoversCategories(categories, expenses, userId);
    forall c | c in categories
      ensures exists i :: 0 <= i < |labels| && labels[i] == c.name && values[i] == CategoryTotal(expenses, userId, c.id)
    {
      var i :| 0 <= i < |rows| && rows[i] == BreakdownRow(c.name, CategoryTotal(expenses, userId, c.id));
      assert labels[i] == c.name && values[i] == CategoryTotal(expenses, userId, c.id);
    }
  }

  /** The expense list's data for one user: exactly the user's rows in the
      selected category (all of them for no or a zero `category_id`),
      newest first, and a total that is the sum of the rows shown. */
  function ExpenseListFor(categories: seq<Category>, expenses: seq<Expense>, userId: int, filter: Option<int>): (v: View)
    requires DistinctKeys(expenses, ExpenseKey)
    ensures v.ExpenseListView?
    ensures multiset(v.categories) == multiset(categories)
    ensures forall i, j :: 0 <= i < j < |v.categories| ==> CodePointLe(v.categories[i].name, v.categories[j].name)
    ensures forall e :: e in v.expenses <==> e in expenses && Matches(e, userId, filter)
    ensures forall i, j :: 0 <= i < j < |v.expenses| ==> Newer(v.expenses[i], v.expenses[j])
    ensures v.total == SumBy(v.expenses, AmountOf)
    ensures v.selected == filter
  {
    var listed := Listing(expenses, userId, filter);
    ListingOrder(expenses, userId, filter);
    SumByPermutation(listed, Selected(expenses, userId, filter), AmountOf);
    ExpenseListView(ByName(categories), listed, TotalSpent(expenses, userId, filter), filter)
  }

  /** The application's database and session. The handlers that write
      change the fields in place, as their step functions above describe. */
  class ExpenseTracker {
    var users: seq<User>
    var categories: seq<Category>
    var expenses: seq<Expense>
    var session: Option<Session>
    /** The key-derivation function behind `generate_password_hash`. */
    const hasher: (string, string) -> string

    function Current(): State
      reads this
    {
      State(users, categories, expenses, session)
    }

    ghost predicate Valid()
      reads this
    {
      LedgerInvariant(Current())
    }

    /** `db.create_all()` on an empty database, nobody signed in. */
    constructor (hasher: (string, string) -> string)
      ensures Valid() && this.hasher == hasher
      ensures users == [] && categories == [] && expenses == [] && session == None
    {
      this.hasher := hasher;
      users, categories, expenses, session := [], [], [], None;
    }

    method SignUp(isPost: bool, form: SignupForm, salt: string) returns (resp: Response)
      requires Valid()
      modifies this`users
      ensures Valid()
      ensures Handled(Current(), resp) == SignUpStep(old(Current()), hasher, isPost, form, salt)
    {
      var h := SignUpStep(Current(), hasher, isPost, form, salt);
      SignUpKeeps(Current(), hasher, isPost, form, salt);
      users := h.state.users;
      resp := h.resp;
      assert Current() == h.state;
    }

    /** `signin` (app.py:66-88): a POST whose e-mail and password match a
        user stores that user in the session. */
    method SignIn(isPost: bool, email: string, password: string) returns (resp: Response)
      requires Valid()
      modifies this`session
      ensures Valid()
      ensures old(session).Some? ==> session == old(session) && resp == Redirect(DashboardPath, None)
      ensures old(session).None? && !isPost ==> session == None && resp == Render("signin.html", None)
      ensures old(session).None? && isPost ==>
        match Authenticate(users, hasher, email, password)
        case Some(u) => session == Some(SessionOf(u)) && resp == Redirect(DashboardPath, Some(SignedIn))
        case None => session == None && resp == Render("signin.html", Some(BadCredentials))
    {
      if session.Some? {
        return Redirect(DashboardPath, None);
      }
      if !isPost {
        return Render("signin.html", None);
      }
      match Authenticate(users, hasher, email, password)
      case Some(u) =>
        var k :| 0 <= k < |users| && users[k] == u;
        session := Some(SessionOf(u));
        resp := Redirect(DashboardPath, Some(SignedIn));
      case None =>
        resp := Render("signin.html", Some(BadCredentials));
    }

    /** `logout` (app.py:330-336): the session keys go, signed in or not. */
    method Logout() returns (resp: Response)
      requires Valid()
      modifies this`session
      ensures Valid() && session == None
      ensures resp == Redirect(HomePath, Some(LoggedOut))
    {
      session := None;
      resp := Redirect(HomePath, Some(LoggedOut));
    }

    method AddExpense(form: ExpenseForm) returns (resp: Response)
      requires Valid()
      modifies this`categories, this`expenses
      ensures Valid()
      ensures Handled(Current(), resp) == AddExpenseStep(old(Current()), form)
    {
      var h := AddExpenseStep(Current(), form);
      AddExpenseKeeps(Current(), form);
      categories, expenses := h.state.categories, h.state.expenses;
      resp := h.resp;
      assert Current() == h.state;
    }

    method EditExpense(expenseId: nat, isPost: bool, form: ExpenseForm, argsNext: string, formNext: string)
      returns (resp: Response)
      requires Valid()
      modifies this`categories, this`expenses
      ensures Valid()
      ensures Handled(Current(), resp) == EditExpenseStep(old(Current()), expenseId, isPost, form, argsNext, formNext)
    {
      var h := EditExpenseStep(Current(), expenseId, isPost, form, argsNext, formNext);
      EditExpenseKeeps(Current(), expenseId, isPost, form, argsNext, formNext);
      categories, expenses := h.state.categories, h.state.expenses;
      resp := h.resp;
      assert Current() == h.state;
    }

    method DeleteExpense(expenseId: nat, argsNext: string, formNext: string) returns (resp: Response)
      requires Valid()
      modifies this`expenses
      ensures Valid()
      ensures Handled(Current(), resp) == DeleteExpenseStep(old(Current()), expenseId, argsNext, formNext)
    {
      var h := DeleteExpenseStep(Current(), expenseId, argsNext, formNext);
      DeleteExpenseKeeps(Current(), expenseId, argsNext, formNext);
      expenses := h.state.expenses;
      resp := h.resp;
      assert Current() == h.state;
    }

    /** `dashboard` (app.py:123-164) for the signed-in user; a visitor is
        sent to sign in. */
    function Dashboard(): (v: View)
      requires Valid()
      reads this
      ensures v.SignInFirst? <==> session.None?
      ensures session.Some? ==> v == DashboardFor(categories, expenses, session.value.userId)
    {
      if session.None? then SignInFirst else DashboardFor(categories, expenses, session.value.userId)
    }

    /** `myexpence` (app.py:168-199) for the signed-in user; a visitor is
        sent to sign in. */
    function MyExpenses(filter: Option<int>): (v: View)
      requires Valid()
      reads this
      ensures v.SignInFirst? <==> session.None?
      ensures session.Some? ==> v == ExpenseListFor(categories, expenses, session.value.userId, filter)
    {
      if session.None? then SignInFirst else ExpenseListFor(categories, expenses, session.value.userId, filter)
    }
  }
}
