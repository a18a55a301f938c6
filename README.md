# Personal expense tracker: a verified model

The system is a small Flask web application. A visitor signs up with a name,
e-mail and password, then signs in. A signed-in user records expenses, each
with an amount, a date, a category given by name and a description. The user
can edit and delete their own expenses, see a dashboard (their total, their
four newest expenses, and a chart with one bar per category) and list their
expenses newest first, optionally narrowed to one category. The data lives in
three SQLite tables, `user`, `category` and `expence`, declared with
SQLAlchemy.

This project models that core in Dafny:

- `schema.dfy`: the three tables as sequences of rows in insertion order, and
  the constraints the schema declares. These are primary keys (SQLite rowids),
  the unique `email` and category `name` columns, non-null columns and the two
  foreign keys of an expense.
- `store.dfy`: the row-level operations the handlers perform. These are the
  lookups by e-mail, by category name and by id plus owner, registration,
  get-or-create of a category, and adding, revising and removing an expense.
  Each one is proved to keep the schema's constraints and to leave other
  users' rows alone.
- `forms.dfy`, `money.dfy`, `dates.dfy`, `text.dfy`: validation of the
  expense form and the sign-up form. Amounts are whole cents, because the
  column is `Numeric(10, 2)`. Dates follow the field patterns of
  `strptime("%Y-%m-%d")`, leap years included, over ASCII digits (see Left out). `str.strip` uses Python's exact set of
  whitespace characters.
- `redirects.dfy`: the `next` sanitiser of the edit and delete handlers. It is
  modelled as written and in a corrected form (see Findings).
- `reports.dfy`: the read-only queries. These are the total with its optional
  category filter, the listing ordered by date and id descending, the four
  most recent expenses, and the per-category breakdown ordered by name.
- `ledger.dfy`: each handler as a pure step function from one state (tables
  plus session) to the next state and the response. The class
  `ExpenseTracker` holds the tables and the session as fields. Its methods
  change those fields in place exactly as the step functions say, and they
  keep the invariant `Valid()`.
- `sequences.dfy`: filtering, summing and insertion sorting over sequences,
  with the lemmas the other modules need.

Where the system's specification and its code disagree, the model follows the code:

- Any amount that parses is accepted, zero and negative amounts included. The
  specification calls for a positive amount.
- The password confirmation is never compared with the password. `EqualTo` is
  imported but not used.
- Only the all-time dashboard exists. There are no month-scoped breakdowns and
  no budgets.

## Model

| member | source | states |
|---|---|---|
| Schema.NextKey | models/__init__.py:9 | The next rowid is larger than every id in use, one more than the largest, and 1 for an empty table |
| Schema.AppendNextKey | models/__init__.py:29 | A row added with the next rowid keeps the ids distinct and positive |
| Schema.ReferencesExtended | models/__init__.py:30-31 | Adding users or categories never breaks an expense's foreign keys |
| Schema.ExpensesOfUser | models/__init__.py:14 | `user.expenses` holds exactly the rows whose `user_id` is the user's |
| Schema.ExpensesOfCategory | models/__init__.py:23 | `category.expences` holds exactly the rows whose `category_id` is the category's |
| Store.CheckPassword | app.py:77 | `check_password_hash(stored, password)`: the password, hashed with the stored salt, gives the stored digest |
| Store.HashPassword | app.py:106 | The stored hash keeps its salt, and `check_password_hash` accepts the password it was made from |
| Store.FindUserByEmail | app.py:75 | Returns a user with that e-mail, or None exactly when no user has it |
| Store.FindUserByEmailUnique | models/__init__.py:11 | With unique e-mails, the lookup finds the only user with that e-mail |
| Store.Authenticate | app.py:75-77 | A result is a user with that e-mail whose stored hash matches the password |
| Store.AuthenticateExact | app.py:75-77 | Sign-in succeeds if and only if some user has that e-mail and password |
| Store.Register | app.py:99-114 | Refuses exactly when the e-mail is taken; otherwise appends one user with the next id |
| Store.RegisterKeepsInvariant | app.py:109-114 | A registration keeps ids distinct and positive, e-mails unique and every reference resolving |
| Store.SignUpThenSignIn | app.py:106-109 | A user who has just signed up signs in with the same e-mail and password |
| Store.FindCategory | app.py:237 | Returns a category with exactly that name, or None exactly when no category has it |
| Store.ResolveCategory | app.py:237-241 | Get-or-create: an existing name reuses its row; a new name appends one category with the next id; either way the category exists afterwards |
| Store.ResolveCategoryIdempotent | app.py:310-314 | Resolving the same name again creates nothing more and gives the same id |
| Store.ResolveCategoryKeepsInvariant | models/__init__.py:21 | Get-or-create keeps category ids distinct and names unique, and the resolved id names a category |
| Store.FindOwned | app.py:210 | Finds a row with both that id and that owner, or None exactly when there is none |
| Store.RemoveAt | app.py:273 | Deleting removes exactly one occurrence of the row, and the table shrinks by one |
| Store.AddKeepsInvariant | app.py:310-325 | Adding an expense for an existing user keeps every constraint of the schema |
| Store.EditKeepsInvariant | app.py:237-248 | Rewriting one expense's four fields keeps every constraint of the schema |
| Store.DeleteKeepsInvariant | app.py:273-274 | Deleting an expense keeps every constraint, and no category is removed with it |
| Store.RemoveAtExactly | app.py:268-274 | With distinct ids, a delete keeps exactly the rows whose id differs from the deleted one |
| Store.AddInvisibleToOthers | app.py:316-322 | Adding a row owned by one user leaves every other user's rows unchanged |
| Store.EditInvisibleToOthers | app.py:243-246 | Revising one user's row leaves every other user's rows unchanged |
| Store.DeleteInvisibleToOthers | app.py:268-274 | Deleting one user's row leaves every other user's rows unchanged |
| Forms.CheckExpenseForm | app.py:288-307 | An accepted form carries a real date and a non-empty stripped category and description |
| Forms.CheckExpenseFormCases | app.py:293-307 | Each refusal happens exactly when its check is the first to fail; an accepted form carries the parsed amount and date and the stripped texts |
| Forms.BlankCategoryExample | app.py:290-293 | A category of only spaces counts as a missing field |
| Forms.SignupFormValid | app.py:24-55 | `validate_on_submit` on the sign-up form: a name of 2 to 100 characters, and an e-mail, a password and a confirmation that are all present and not blank; the password and the confirmation have at least six characters each |
| Forms.ValidPasswordShape | app.py:40-46 | A valid sign-up form has a password of at least six characters, one of which is not whitespace |
| Forms.ConfirmationNotCompared | app.py:48-54 | A confirmation that differs from the password still leaves the form valid |
| Money.ParseAmount | app.py:297-301 | An amount is accepted exactly when its stripped text scans into sign, whole and fraction digits, and is then worth those parts in cents |
| Money.ParseSpelling | app.py:297-301 | Whitespace, an optional `+` or `-`, digits, an optional point with at most two digits after it (at least one digit in all), then whitespace: such a text is accepted, and is worth the whole digits times 100 plus the fraction's cents, negated after a `-` |
| Money.ParsedIsSpelling | app.py:297-301 | Conversely, every accepted text is such a literal with whitespace around it, and is worth what that literal spells |
| Money.AmountRoundTrip | app.py:298 | Every amount in cents, written in its canonical form, parses back to itself |
| Money.ScannedAmountFits | models/__init__.py:32 | An accepted amount with at most eight whole digits fits `Numeric(10, 2)` |
| Money.WholeAndFractionExample | app.py:298 | "12.5" is 1250 cents |
| Money.FractionOnlyExample | app.py:298 | ".5" is 50 cents |
| Money.LongFractionRefused | app.py:297-301 | A third fraction digit is refused, whatever the digits |
| Money.ExponentRefused | app.py:297-301 | An exponent is refused, whatever the digits around it |
| Money.BarePointRefused | app.py:297-301 | A lone point is refused |
| Dates.IsRealDate | app.py:304 | A date `datetime` accepts: year 1 to 9999, month 1 to 12, and a day within that month |
| Dates.DaysInMonth | app.py:304 | Every month has 28 to 31 days, and 29 exactly for February of a leap year |
| Dates.ParseIsoDate | app.py:304-307 | An accepted date is a real calendar day between years 1 and 9999 |
| Dates.MonthText | app.py:304 | The `%m` spellings of a month: two zero-padded digits, or one digit for months 1 to 9 |
| Dates.DayText | app.py:304 | The `%d` spellings of a day: two zero-padded digits, or for days 1 to 9 one digit, alone or after a space |
| Dates.YearFieldSpelling | app.py:304 | The `%Y` field reads `y` exactly when the text is `y` as four zero-padded digits |
| Dates.MonthFieldSpelling | app.py:304 | The `%m` field reads `m` exactly when the text is a spelling of month `m` |
| Dates.DayFieldSpelling | app.py:304 | The `%d` field reads `d` exactly when the text is a spelling of day `d` |
| Dates.ParsedIsoDateSpelled | app.py:304-307 | Every accepted text is a real date's four year digits, a dash, a month spelling, a dash and a day spelling, with nothing before or after |
| Dates.SpelledIsoDateParses | app.py:304-307 | Every real date written as year, dash, month spelling, dash, day spelling is accepted as that date |
| Dates.ParseIsoDateExactly | app.py:304-307 | A text parses to a date if and only if the date is real and the text is its year, a dash, a month spelling, a dash and a day spelling |
| Text.DigitsValueInjective | app.py:304 | Two digit strings of one length that spell the same number are equal, so a four-digit year has one spelling |
| Dates.IsoDateRoundTrip | app.py:304 | Every real date, written as YYYY-MM-DD, parses back to itself |
| Dates.LeapDayAccepted | app.py:304 | February 29 is accepted in 2024 and 2000 |
| Dates.LeapDayRefused | app.py:304 | February 29 is refused in 2023 and 1900 |
| Dates.FieldShapeExamples | app.py:304 | Unpadded and space-padded fields are accepted; trailing characters and year 0 are refused |
| Dates.DateBeforeTrichotomy | app.py:138 | Two dates are equal or exactly one comes first |
| Dates.DateBeforeTransitive | app.py:138 | Date order is transitive |
| Text.IsSpace | app.py:290-291 | `str.isspace` on one character: the controls 9 to 13 and 28 to 31, the space, U+0085, and the Unicode space, line and paragraph separators (U+00A0, U+1680, U+2000 to U+200A, U+2028, U+2029, U+202F, U+205F, U+3000) |
| Text.CodePointLe | app.py:128 | `ORDER BY name` under SQLite's BINARY collation: code-point order, with a proper prefix first |
| Text.Strip | app.py:290-291 | The result has no whitespace at either end, is no longer than the input, and is empty exactly when the input is all whitespace |
| Text.StripIsSlice | app.py:290-291 | The result is the slice of the input between a whitespace-only prefix and a whitespace-only suffix; with no whitespace at its own ends, that is exactly what `str.strip()` keeps |
| Text.StripFixesStripped | app.py:290 | Text without surrounding whitespace is its own strip |
| Text.StripIdempotent | app.py:290 | Stripping twice is stripping once |
| Redirects.FirstGiven | app.py:251 | `a or b` on strings: a non-empty `a` wins, otherwise `b`; empty exactly when both are |
| Redirects.NextTargetAsWritten | app.py:251-259 | The sanitiser as written keeps `next` exactly when it is non-empty and starts with '/', and otherwise gives the expense list |
| Redirects.NextTarget | app.py:277-280 | The corrected sanitiser always gives a local path: `next` exactly when it is one, and the expense list otherwise |
| Redirects.ExpenseListPathIsLocal | app.py:253 | The fallback target is a local path |
| Redirects.SchemeRelativeAcceptedAsWritten | app.py:252 | `//host` passes the check as written but not the corrected one |
| Redirects.SchemeRelativeNotLocal | app.py:252 | A target starting with `//` is never a local path, whatever follows |
| Redirects.SanitisersAgree | app.py:278 | The two sanitisers differ exactly on targets that start with '/' and are not local paths |
| Reports.Selected | app.py:176-178 | The query selects exactly the user's rows, in the chosen category when one is given |
| Reports.TotalSpent | app.py:182-188 | The `total_spending` query, also the dashboard's at app.py:129-133: the sum of the amounts of the user's rows, in the chosen category when one is given |
| Reports.TotalOfNothing | app.py:129-133 | With no matching rows the total is 0 |
| Reports.TotalAfterAppend | app.py:182-188 | One more row raises the total by its amount exactly when it matches the query |
| Reports.ZeroFilterIsNoFilter | app.py:177 | `category_id=0` selects and totals the same as no category |
| Reports.SelectedFromOwnRows | app.py:176 | Every query reads only the user's own rows |
| Reports.ListedAheadIsTotalPreorder | app.py:180 | Date descending, then id descending, is a total preorder |
| Reports.Listing | app.py:180 | The listing is a permutation of the selected rows |
| Reports.ListingOrder | app.py:176-180 | The listing holds exactly the matching rows, each strictly newer than every later one |
| Reports.ListingIsDetermined | app.py:180 | Any newest-first arrangement of the selected rows equals the listing |
| Reports.Recent | app.py:136-141 | The recent rows are the first four of the unfiltered listing, or all of it when shorter |
| Reports.RecentAreNewest | app.py:136-141 | Recent rows are the user's own, and each is newer than every listed row left out |
| Reports.OtherUsersInvisible | app.py:176-188 | Rows of other users never change a user's selection, total, listing or recent rows |
| Reports.CategoryTotal | app.py:146-148 | The outer join's sum for one category: the amounts of the user's rows in that category, 0 when there are none |
| Reports.CategoryTotalIsFilteredTotal | app.py:146-148 | A chart bar equals the expense list's total filtered to that category |
| Reports.ByName | app.py:128 | The categories ordered by name: a permutation of the table, in code-point order of the names |
| Reports.RowsFor | app.py:143-152 | One row per category, in order, with the category's name and the user's total in it |
| Reports.Breakdown | app.py:143-152 | The breakdown has as many rows as there are categories |
| Reports.BreakdownCoversCategories | app.py:143-152 | Every category has its row, even with no spending, and every row belongs to an existing category |
| Reports.BreakdownAscending | app.py:150 | With unique names, the rows are strictly ascending by name |
| Reports.GroupsSumToTotal | app.py:148-149 | Summing the groups of all categories counts each of the user's expenses once |
| Reports.BreakdownSumIsTotal | app.py:143-152 | The bars add up to the user's total |
| Reports.BreakdownOfOwnRows | app.py:148 | Other users' rows never reach a user's chart |
| Ledger.ChartLabels | app.py:153 | The labels list holds the rows' names in order |
| Ledger.ChartValues | app.py:154 | The values list holds the rows' totals in order |
| Ledger.ChartValuesSum | app.py:154 | The values add up to what the rows add up to |
| Ledger.SignUpStep | app.py:92-121 | Sign-up adds a user if and only if a visitor posts a valid form with an unused e-mail; then it appends exactly one user with the next id and the salted hash. The four responses are fixed, and nothing else changes |
| Ledger.AddExpenseStep | app.py:282-328 | Only a signed-in user with an accepted form writes anything. That write appends one row with the next rowid, the user's id and the parsed amount, date and description, filed under the named category, and the category table becomes exactly what `ResolveCategory` (get-or-create of that one name) makes of it. Responses cover a missing session, a refused form and an accepted one |
| Ledger.ReviseRow | app.py:243-246 | The row keeps its place, id and owner and takes the form's amount, date, description and the id `ResolveCategory` gives the named category; the category table becomes exactly `ResolveCategory`'s; no other row changes |
| Ledger.EditExpenseStep | app.py:203-259 | The edit handler with the corrected `next` sanitiser (see Findings). Only a POST with an accepted form on a row the user owns writes anything, and then only as `ReviseRow` says. A missing session, a missing or foreign row, a GET and a refused form leave the state unchanged, each with its own response |
| Ledger.DeleteExpenseStep | app.py:261-280 | The delete handler with the corrected `next` sanitiser (see Findings). Only a row the user owns is removed, exactly one occurrence of it; a missing session or a missing or foreign row changes nothing; no category goes |
| Ledger.SignUpKeeps | app.py:109-114 | Sign-up keeps the schema's constraints and the session naming a user |
| Ledger.AddExpenseKeeps | app.py:316-325 | Adding an expense keeps the schema's constraints and the session naming a user |
| Ledger.EditExpenseKeeps | app.py:237-248 | Editing keeps the schema's constraints and the session naming a user |
| Ledger.DeleteExpenseKeeps | app.py:273-274 | Deleting keeps the schema's constraints and the session naming a user |
| Ledger.DeleteRemovesExactly | app.py:268-274 | A delete that finds the row keeps exactly the rows with another id |
| Ledger.AddExpenseRaisesTotal | app.py:316-325 | An accepted add raises the user's total by the amount |
| Ledger.AddExpenseInvisibleToOthers | app.py:316-322 | One user's add leaves every other user's rows, listing and totals unchanged |
| Ledger.EditExpenseInvisibleToOthers | app.py:210 | One user's edit leaves every other user's rows, listing and totals unchanged |
| Ledger.DeleteExpenseInvisibleToOthers | app.py:268 | One user's delete leaves every other user's rows, listing and totals unchanged |
| Ledger.EditRedirectsLocal | app.py:251-259 | Every response of the edit handler, with the corrected sanitiser, redirects to a local path; as written, app.py:252 lets `//host` through (see Findings) |
| Ledger.DeleteRedirectsLocal | app.py:277-280 | Every response of the delete handler, with the corrected sanitiser, redirects to a local path; as written, app.py:278 lets `//host` through (see Findings) |
| Ledger.DashboardFor | app.py:123-164 | The dashboard shows every category in name order; the recent rows are `Recent` (the four newest of the user's rows by date, then id, as `RecentAreNewest` states); one bar per category, in the same order, carries that category's name and the user's spending in it; the bars add up to the total, which is the user's total |
| Ledger.ChartCoversCategories | app.py:153-154 | Each category has its label in the chart, with the user's total at the same position of the values |
| Ledger.ExpenseListFor | app.py:168-199 | The list holds exactly the user's rows in the selected category, newest first, and the total is the sum of the rows shown; the filter's categories are in code-point name order |
| Ledger.ExpenseTracker.constructor | app.py:342 | An empty database with nobody signed in satisfies the invariant |
| Ledger.ExpenseTracker.SignUp | app.py:92-121 | Changes the users table and responds as `SignUpStep` says, and keeps the invariant |
| Ledger.ExpenseTracker.SignIn | app.py:66-88 | A visitor's POST that authenticates stores that user in the session; a bad one leaves the visitor signed out with a notice; a signed-in user is redirected |
| Ledger.ExpenseTracker.Logout | app.py:330-336 | The session is emptied and the home page follows |
| Ledger.ExpenseTracker.AddExpense | app.py:282-328 | Changes the tables and responds as `AddExpenseStep` says, and keeps the invariant |
| Ledger.ExpenseTracker.EditExpense | app.py:203-259 | Changes the tables and responds as `EditExpenseStep` says (with the corrected sanitiser), and keeps the invariant |
| Ledger.ExpenseTracker.DeleteExpense | app.py:261-280 | Changes the expense table and responds as `DeleteExpenseStep` says (with the corrected sanitiser), and keeps the invariant |
| Ledger.ExpenseTracker.Dashboard | app.py:123-127 | A visitor is sent to sign in; a signed-in user gets `DashboardFor` their id |
| Ledger.ExpenseTracker.MyExpenses | app.py:168-173 | A visitor is sent to sign in; a signed-in user gets `ExpenseListFor` their id and filter |

## Left out

- The home route (app.py:58-64) renders a landing page and changes no state.
- Page rendering and flash texts: a response is the redirect target or the template name, plus a tag for the message flashed.
- The WTForms `Email()` validator and CSRF protection: both are library logic outside this code.
- Password hashing: `hasher` is an uninterpreted key-derivation function, and the random salt is a parameter.
- Money.ParseAmount: accepts only an optional sign, digits, an optional point and at most two fraction digits, around optional whitespace. Python's `Decimal` also accepts exponents, `NaN`, `Infinity`, underscores and longer fractions, and the source goes on with those: what it then stores (a rounded or floating-point value), or for `NaN` the failed insert and the error page with nothing written, is not modelled. The model refuses those spellings.
- Money.ParseAmount: digits are ASCII `0`-`9` only. `Decimal` also reads any other Unicode decimal digit (category Nd, such as `٥` or `５`); the model refuses those amounts.
- Dates.ParseIsoDate: digits are ASCII `0`-`9` only. Python's `_strptime` builds `%Y` from `\d\d\d\d` and the second digit of `%d` from `\d`, and in a `str` pattern `\d` matches any Unicode decimal digit, so the source also accepts dates such as `２０２４-01-01` or `2024-01-1٥`; the model refuses them. The month field and the other day digits are literal ASCII classes in `_strptime`, as modelled.
- Money.ParseAmount: a whole part longer than eight digits is accepted but not checked against the column width, because SQLite does not enforce `Numeric(10, 2)`. `ScannedAmountFits` states when an amount fits.
- Totals are exact sums of cents. SQLite sums `Numeric` columns as floating point, and the chart turns them into `float`. Neither is modelled.
- Ledger.EditExpenseStep, Ledger.DeleteExpenseStep, Ledger.ExpenseTracker.EditExpense, Ledger.ExpenseTracker.DeleteExpense: these use the corrected sanitiser `NextTarget`, not the as-written one at app.py:252-254 and app.py:278-280. On a `next` that starts with '/' but is not a local path, such as `//evil.example/x`, the source redirects there (off-site) where the model redirects to the expense list; `SanitisersAgree` states that this is the only difference.
- Ledger.EditFormPath: the redirect back to the edit form after a refused form (app.py:223, app.py:229, app.py:235) carries the `next` query parameter; the model keeps the path and drops the query string.
- Ledger.ExpenseTracker.SignIn: a missing `email` or `password` field is the empty string. In the source it is `None`, which matches no user (the column is NOT NULL) and cannot be checked against a hash.
- A GET request to the delete route gets a 405 from Flask; the model has no method parameter for delete.
- The clock (`date.today()` for the form default), the configuration, the `.env` file and the startup code (app.py:13-22, app.py:338-344), apart from `db.create_all()` on an empty database, which is the class constructor.
- Rowid exhaustion: after the largest 64-bit rowid SQLite picks random ids. The model's ids are unbounded integers.
- Declared string widths (`String(50)`, `String(100)`, `String(120)`, `String(200)`, `String(255)`): SQLite does not enforce them.
- Transactions, `flush`/`commit` and concurrent requests, including two requests creating the same category at once: each handler is one atomic step.
- The JavaScript under `static/`: it wires the page and draws the chart, with no state of the application.

## Findings

| source | as written | input that shows it | evidently intended | confidence | as-written member | corrected member |
|---|---|---|---|---|---|---|
| app.py:252 | The edit handler (and the same test at app.py:257 and app.py:278 in the delete handler) keeps `next` whenever it starts with '/'. A browser reads `//host/path` as a scheme-relative URL naming another site, so the check lets an open redirect through | `next=//evil.example/x` on an edit or delete | Keep `next` only when it is a path on this site, and fall back to the expense list otherwise | high, not executed | Redirects.NextTargetAsWritten (shown by Redirects.SchemeRelativeAcceptedAsWritten) | Redirects.NextTarget (used by the handlers; locality proved by Ledger.EditRedirectsLocal and Ledger.DeleteRedirectsLocal) |
