/** The lookups and row changes the handlers of app.py make through
    SQLAlchemy, as functions from the old tables to the new, with the
    proofs that each keeps the constraints of the schema and touches no
    other user's rows. */
module Store {
  import opened Sequences
  import opened Text
  import opened Dates
  import opened Schema

  /** `generate_password_hash(password)` with the salt it draws given as a
      parameter; `hasher` stands for the key-derivation function. */
  function HashPassword(hasher: (string, string) -> string, salt: string, password: string): (h: PasswordHash)
    ensures h.salt == salt && CheckPassword(hasher, h, password)
  {
    PasswordHash(salt, hasher(salt, password))
  }

  /** `check_password_hash(stored, password)`. */
  predicate CheckPassword(hasher: (string, string) -> string, stored: PasswordHash, password: string)
  {
    hasher(stored.salt, password) == stored.digest
  }

  /** `User.query.filter_by(email=email).first()`. */
  function FindUserByEmail(users: seq<User>, email: string): (r: Option<User>)
    ensures r.Some? ==> r.value in users && r.value.email == email
    ensures r.None? <==> forall u :: u in users ==> u.email != email
  {
    if users == [] then None
    else if users[0].email == email then Some(users[0])
    else
      assert users == [users[0]] + users[1..];
      FindUserByEmail(users[1..], email)
  }

  /** With e-mails unique, the user found is the only one with that e-mail. */
  lemma FindUserByEmailUnique(users: seq<User>, email: string, u: User)
    requires UniqueEmails(users) && u in users && u.email == email
    ensures FindUserByEmail(users, email) == Some(u)
  {
    var found := FindUserByEmail(users, email).value;
    var i :| 0 <= i < |users| && users[i] == u;
    var j :| 0 <= j < |users| && users[j] == found;
    if i != j {
      assert false;
    }
  }

  /** The test at app.py:75-77: a user with this e-mail whose stored hash
      matches the password. */
  function Authenticate(users: seq<User>, hasher: (string, string) -> string, email: string, password: string): (r: Option<User>)
    ensures r.Some? ==> r.value in users && r.value.email == email && CheckPassword(hasher, r.value.password, password)
  {
    match FindUserByEmail(users, email)
    case Some(u) => if CheckPassword(hasher, u.password, password) then Some(u) else None
    case None => None
  }

  /** Sign-in succeeds exactly when some user has this e-mail and password. */
  lemma AuthenticateExact(users: seq<User>, hasher: (string, string) -> string, email: string, password: string)
    requires UniqueEmails(users)
    ensures Authenticate(users, hasher, email, password).Some? <==>
      exists u :: u in users && u.email == email && CheckPassword(hasher, u.password, password)
  {
    if u :| u in users && u.email == email && CheckPassword(hasher, u.password, password) {
      FindUserByEmailUnique(users, email, u);
    }
  }

  /** Sign-up's insert (app.py:99-114): refused when the e-mail is taken,
      otherwise a new user with the next rowid. */
  function Register(users: seq<User>, name: string, email: string, password: PasswordHash): (r: Option<seq<User>>)
    ensures r.None? <==> exists u :: u in users && u.email == email
    ensures r.Some? ==> r.value == users + [User(NextKey(users, UserKey), name, email, password)]
  {
    match FindUserByEmail(users, email)
    case Some(_) => None
    case None => Some(users + [User(NextKey(users, UserKey), name, email, password)])
  }

  lemma RegisterKeepsInvariant(users: seq<User>, categories: seq<Category>, expenses: seq<Expense>,
                               name: string, email: string, password: PasswordHash)
    requires StoreInvariant(users, categories, expenses)
    requires Register(users, name, email, password).Some?
    ensures StoreInvariant(Register(users, name, email, password).value, categories, expenses)
  {
    var u := User(NextKey(users, UserKey), name, email, password);
    var r := users + [u];
    AppendNextKey(users, UserKey, u);
    assert UniqueEmails(r) by {
      assert forall i :: 0 <= i < |users| ==> users[i] in users;
      DistinctKeysAppend(users, u, UserEmail);
    }
    ReferencesExtended(users, r, categories, categories, expenses);
  }

  /** A user who has just signed up can sign in with the same e-mail and password. */
  lemma SignUpThenSignIn(users: seq<User>, hasher: (string, string) -> string, salt: string,
                         name: string, email: string, password: string)
    requires UniqueEmails(users)
    requires Register(users, name, email, HashPassword(hasher, salt, password)).Some?
    ensures var r := Register(users, name, email, HashPassword(hasher, salt, password)).value;
      Authenticate(r, hasher, email, password) == Some(r[|r| - 1])
  {
    var r := Register(users, name, email, HashPassword(hasher, salt, password)).value;
    var u := r[|r| - 1];
    assert r == users + [u];
    assert FindUserByEmail(users, email).None?;
    FindUserAfterAbsent(users, u);
  }

  lemma {:induction false} FindUserAfterAbsent(users: seq<User>, u: User)
    requires forall v :: v in users ==> v.email != u.email
    ensures FindUserByEmail(users + [u], u.email) == Some(u)
  {
    if users != [] {
      assert (users + [u])[1..] == users[1..] + [u];
      assert users[0] in users;
      FindUserAfterAbsent(users[1..], u);
    } else {
      assert users + [u] == [u];
    }
  }

  /** `Category.query.filter_by(name=name).first()`. */
  function FindCategory(categories: seq<Category>, name: string): (r: Option<Category>)
    ensures r.Some? ==> r.value in categories && r.value.name == name
    ensures r.None? <==> forall c :: c in categories ==> c.name != name
  {
    if categories == [] then None
    else if categories[0].name == name then Some(categories[0])
    else
      assert categories == [categories[0]] + categories[1..];
      FindCategory(categories[1..], name)
  }

  /** The category table after get-or-create, and the id given to the expense. */
  datatype Resolved = Resolved(categories: seq<Category>, id: int)

  /** Get-or-create by exact name (app.py:237-241, app.py:310-314): an
      existing category is reused, otherwise one is added with the next rowid. */
  function ResolveCategory(categories: seq<Category>, name: string): (r: Resolved)
    ensures Category(r.id, name) in r.categories && categories <= r.categories
    ensures (exists c :: c in categories && c.name == name) ==> r.categories == categories
    ensures (forall c :: c in categories ==> c.name != name) ==>
      r.categories == categories + [Category(r.id, name)] && r.id == NextKey(categories, CategoryKey)
  {
    match FindCategory(categories, name)
    case Some(c) => Resolved(categories, c.id)
    case None =>
      var id := NextKey(categories, CategoryKey);
      assert (categories + [Category(id, name)])[|categories|] == Category(id, name);
      Resolved(categories + [Category(id, name)], id)
  }

  /** Resolving a name twice creates at most one category: the second time
      finds the first one's row. */
  lemma ResolveCategoryIdempotent(categories: seq<Category>, name: string)
    ensures var r := ResolveCategory(categories, name);
      ResolveCategory(r.categories, name) == r
  {
    var r := ResolveCategory(categories, name);
    if FindCategory(categories, name).None? {
      FindCategoryAfterAbsent(categories, Category(r.id, name));
    }
  }

  lemma {:induction false} FindCategoryAfterAbsent(categories: seq<Category>, c: Category)
    requires forall d :: d in categories ==> d.name != c.name
    ensures FindCategory(categories + [c], c.name) == Some(c)
  {
    if categories != [] {
      assert (categories + [c])[1..] == categories[1..] + [c];
      assert categories[0] in categories;
      FindCategoryAfterAbsent(categories[1..], c);
    } else {
      assert categories + [c] == [c];
    }
  }

  /** The category table's constraints survive get-or-create, and the
      resolved id names a category. */
  lemma ResolveCategoryKeepsInvariant(categories: seq<Category>, name: string)
    requires CategoriesValid(categories) && StrippedText(name)
    ensures var r := ResolveCategory(categories, name);
      CategoriesValid(r.categories) && HasCategory(r.categories, r.id)
  {
    var r := ResolveCategory(categories, name);
    var k :| 0 <= k < |r.categories| && r.categories[k] == Category(r.id, name);
    if FindCategory(categories, name).None? {
      NewCategoryKeepsInvariant(categories, name);
    }
  }

  lemma NewCategoryKeepsInvariant(categories: seq<Category>, name: string)
    requires CategoriesValid(categories) && StrippedText(name)
    requires forall c :: c in categories ==> c.name != name
    ensures CategoriesValid(categories + [Category(NextKey(categories, CategoryKey), name)])
  {
    var c := Category(NextKey(categories, CategoryKey), name);
    var r := categories + [c];
    AppendNextKey(categories, CategoryKey, c);
    assert UniqueNames(r) by {
      assert forall i :: 0 <= i < |categories| ==> categories[i] in categories;
      DistinctKeysAppend(categories, c, CategoryName);
    }
    assert forall i :: 0 <= i < |r| ==> StrippedText(r[i].name) by {
      forall i | 0 <= i < |r| ensures StrippedText(r[i].name) {
        if i < |categories| {
          assert r[i] == categories[i];
        }
      }
    }
  }

  /** `filter_by(id=expense_id, user_id=user_id).first()`, as the row's position. */
  function FindOwned(expenses: seq<Expense>, expenseId: int, userId: int): (r: Option<nat>)
    ensures r.Some? ==> r.value < |expenses| && expenses[r.value].id == expenseId && expenses[r.value].userId == userId
    ensures r.None? <==> forall i :: 0 <= i < |expenses| ==> !(expenses[i].id == expenseId && expenses[i].userId == userId)
  {
    if expenses == [] then None
    else if expenses[0].id == expenseId && expenses[0].userId == userId then Some(0)
    else match FindOwned(expenses[1..], expenseId, userId)
      case Some(i) => Some(i + 1)
      case None => None
  }

  /** The four assignments of app.py:243-246; id and owner stay. */
  function Revise(e: Expense, categoryId: int, amount: int, description: string, date: Date): Expense
  {
    e.(categoryId := categoryId, amount := amount, description := description, date := date)
  }

  /** The new row of app.py:316-322, with the next rowid. */
  function NewExpense(expenses: seq<Expense>, userId: int, categoryId: int, amount: int, description: string, date: Date): Expense
  {
    Expense(NextKey(expenses, ExpenseKey), userId, categoryId, amount, description, date)
  }

  function RemoveAt(expenses: seq<Expense>, i: nat): (r: seq<Expense>)
    requires i < |expenses|
    ensures multiset(r) == multiset(expenses) - multiset{expenses[i]}
    ensures |r| == |expenses| - 1
  {
    assert expenses == expenses[..i] + [expenses[i]] + expenses[i + 1..];
    expenses[..i] + expenses[i + 1..]
  }

  /** Adding an expense for a signed-in user, with a stripped non-empty
      description and category name and a real date, keeps every constraint. */
  lemma AddKeepsInvariant(users: seq<User>, categories: seq<Category>, expenses: seq<Expense>,
                          userId: int, amount: int, date: Date, name: string, description: string)
    requires StoreInvariant(users, categories, expenses) && HasUser(users, userId)
    requires IsRealDate(date) && StrippedText(name) && StrippedText(description)
    ensures var res := ResolveCategory(categories, name);
      StoreInvariant(users, res.categories, expenses + [NewExpense(expenses, userId, res.id, amount, description, date)])
  {
    var res := ResolveCategory(categories, name);
    ResolveCategoryKeepsInvariant(categories, name);
    var e := NewExpense(expenses, userId, res.id, amount, description, date);
    AppendExpenseKeepsRows(expenses, e);
    ReferencesExtended(users, users, categories, res.categories, expenses);
    AppendExpenseKeepsReferences(users, res.categories, expenses, e);
  }

  lemma AppendExpenseKeepsRows(expenses: seq<Expense>, e: Expense)
    requires ExpensesValid(expenses) && WellFormedExpense(e) && e.id == NextKey(expenses, ExpenseKey)
    ensures ExpensesValid(expenses + [e])
  {
    var es := expenses + [e];
    AppendNextKey(expenses, ExpenseKey, e);
    forall i | 0 <= i < |es| ensures WellFormedExpense(es[i]) {
      if i < |expenses| {
        assert es[i] == expenses[i];
      }
    }
  }

  lemma AppendExpenseKeepsReferences(users: seq<User>, categories: seq<Category>, expenses: seq<Expense>, e: Expense)
    requires ReferencesResolve(users, categories, expenses)
    requires HasUser(users, e.userId) && HasCategory(categories, e.categoryId)
    ensures ReferencesResolve(users, categories, expenses + [e])
  {
    var es := expenses + [e];
    forall i | 0 <= i < |es| ensures HasUser(users, es[i].userId) && HasCategory(categories, es[i].categoryId) {
      if i < |expenses| {
        assert es[i] == expenses[i];
      }
    }
  }

  /** A successful edit keeps every constraint. */
  lemma EditKeepsInvariant(users: seq<User>, categories: seq<Category>, expenses: seq<Expense>, i: nat,
                           amount: int, date: Date, name: string, description: string)
    requires StoreInvariant(users, categories, expenses) && i < |expenses|
    requires IsRealDate(date) && StrippedText(name) && StrippedText(description)
    ensures var res := ResolveCategory(categories, name);
      StoreInvariant(users, res.categories, expenses[i := Revise(expenses[i], res.id, amount, description, date)])
  {
    var res := ResolveCategory(categories, name);
    ResolveCategoryKeepsInvariant(categories, name);
    ReferencesExtended(users, users, categories, res.categories, expenses);
    ReviseKeepsRows(users, res.categories, expenses, i, Revise(expenses[i], res.id, amount, description, date));
  }

  lemma ReviseKeepsRows(users: seq<User>, categories: seq<Category>, expenses: seq<Expense>, i: nat, e: Expense)
    requires ExpensesValid(expenses) && ReferencesResolve(users, categories, expenses) && i < |expenses|
    requires e.id == expenses[i].id && e.userId == expenses[i].userId
    requires WellFormedExpense(e) && HasCategory(categories, e.categoryId)
    ensures ExpensesValid(expenses[i := e]) && ReferencesResolve(users, categories, expenses[i := e])
  {
    var es := expenses[i := e];
    DistinctKeysUpdate(expenses, i, e, ExpenseKey);
    assert forall j :: 0 <= j < |es| ==> es[j].id >= 1 && WellFormedExpense(es[j]) by {
      forall j | 0 <= j < |es| ensures es[j].id >= 1 && WellFormedExpense(es[j]) {
        if j != i {
          assert es[j] == expenses[j];
        }
      }
    }
    assert ReferencesResolve(users, categories, es) by {
      forall j | 0 <= j < |es| ensures HasUser(users, es[j].userId) && HasCategory(categories, es[j].categoryId) {
        if j != i {
          assert es[j] == expenses[j];
        }
      }
    }
  }

  /** Deleting a row keeps every constraint; no category goes with it. */
  lemma DeleteKeepsInvariant(users: seq<User>, categories: seq<Category>, expenses: seq<Expense>, i: nat)
    requires StoreInvariant(users, categories, expenses) && i < |expenses|
    ensures StoreInvariant(users, categories, RemoveAt(expenses, i))
  {
    RemoveAtKeepsRows(expenses, i);
    RemoveAtKeepsReferences(users, categories, expenses, i);
  }

  lemma RemoveAtKeepsRows(expenses: seq<Expense>, i: nat)
    requires ExpensesValid(expenses) && i < |expenses|
    ensures ExpensesValid(RemoveAt(expenses, i))
  {
    var es := RemoveAt(expenses, i);
    DistinctKeysSubset(expenses, es, ExpenseKey);
    forall j | 0 <= j < |es| ensures es[j].id >= 1 && WellFormedExpense(es[j]) {
      RemoveAtIndex(expenses, i, j);
    }
  }

  lemma RemoveAtKeepsReferences(users: seq<User>, categories: seq<Category>, expenses: seq<Expense>, i: nat)
    requires ReferencesResolve(users, categories, expenses) && i < |expenses|
    ensures ReferencesResolve(users, categories, RemoveAt(expenses, i))
  {
    var es := RemoveAt(expenses, i);
    forall j | 0 <= j < |es| ensures HasUser(users, es[j].userId) && HasCategory(categories, es[j].categoryId) {
      RemoveAtIndex(expenses, i, j);
    }
  }

  /** With the ids distinct, deleting row `i` removes exactly the row
      with its id and keeps every other row. */
  lemma RemoveAtExactly(expenses: seq<Expense>, i: nat)
    requires DistinctKeys(expenses, ExpenseKey) && i < |expenses|
    ensures forall e :: e in RemoveAt(expenses, i) <==> e in expenses && e.id != expenses[i].id
  {
    var r := RemoveAt(expenses, i);
    forall e ensures e in r <==> e in expenses && e.id != expenses[i].id {
      if e in r {
        var j :| 0 <= j < |r| && r[j] == e;
        RemoveAtIndex(expenses, i, j);
        assert ExpenseKey(expenses[if j < i then j else j + 1]) != ExpenseKey(expenses[i]);
      }
      if e in expenses && e.id != expenses[i].id {
        var k :| 0 <= k < |expenses| && expenses[k] == e;
        var j := if k < i then k else k - 1;
        RemoveAtIndex(expenses, i, j);
      }
    }
  }

  /** Where each remaining row sat before the removal. */
  lemma RemoveAtIndex(expenses: seq<Expense>, i: nat, j: nat)
    requires i < |expenses| && j < |expenses| - 1
    ensures RemoveAt(expenses, i)[j] == expenses[if j < i then j else j + 1]
  {
    assert RemoveAt(expenses, i) == expenses[..i] + expenses[i + 1..];
  }

  /** Another user's add, edit or delete leaves this user's rows as they
      were, and so (by `OtherUsersInvisible`) every total and listing. */
  lemma AddInvisibleToOthers(expenses: seq<Expense>, e: Expense, userId: int)
    requires e.userId != userId
    ensures ExpensesOfUser(expenses + [e], userId) == ExpensesOfUser(expenses, userId)
  {
    FilterAppend(expenses, [e], OwnedBy(userId));
    assert [e][1..] == [];
  }

  lemma EditInvisibleToOthers(expenses: seq<Expense>, i: nat, categoryId: int, amount: int,
                              description: string, date: Date, userId: int)
    requires i < |expenses| && expenses[i].userId != userId
    ensures ExpensesOfUser(expenses[i := Revise(expenses[i], categoryId, amount, description, date)], userId)
      == ExpensesOfUser(expenses, userId)
  {
    FilterUpdateDropped(expenses, i, Revise(expenses[i], categoryId, amount, description, date), OwnedBy(userId));
  }

  lemma DeleteInvisibleToOthers(expenses: seq<Expense>, i: nat, userId: int)
    requires i < |expenses| && expenses[i].userId != userId
    ensures ExpensesOfUser(RemoveAt(expenses, i), userId) == ExpensesOfUser(expenses, userId)
  {
    FilterRemoveDropped(expenses, i, OwnedBy(userId));
  }
}
