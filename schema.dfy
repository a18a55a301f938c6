/** The three tables of models/__init__.py as rows, and the constraints the
    database schema declares over them: primary keys, the unique e-mail and
    category-name columns, non-null columns and the two foreign keys of an
    expense. A table is the sequence of its rows in insertion order, which is
    the order SQLite returns them in when a query has no ORDER BY. */
module Schema {
  import opened Sequences
  import opened Text
  import opened Dates

  /** What `generate_password_hash` stores: the random salt it drew and the
      digest of salt and password. */
  datatype PasswordHash = PasswordHash(salt: string, digest: string)

  datatype User = User(id: int, name: string, email: string, password: PasswordHash)

  datatype Category = Category(id: int, name: string)

  /** An `Expence` row; `amount` in cents. */
  datatype Expense = Expense(id: int, userId: int, categoryId: int, amount: int, description: string, date: Date)

  function UserKey(u: User): int { u.id }
  function CategoryKey(c: Category): int { c.id }
  function ExpenseKey(e: Expense): int { e.id }

  function UserEmail(u: User): string { u.email }
  function CategoryName(c: Category): string { c.name }

  /** A primary-key or `unique=True` column holds no value twice. */
  predicate DistinctKeys<T, K(==)>(rows: seq<T>, key: T -> K)
  {
    forall i, j :: 0 <= i < j < |rows| ==> key(rows[i]) != key(rows[j])
  }

  /** Rows drawn from a table with distinct keys have distinct keys. */
  lemma DistinctKeysSubset<T, K>(a: seq<T>, b: seq<T>, key: T -> K)
    requires DistinctKeys(a, key) && multiset(b) <= multiset(a)
    ensures DistinctKeys(b, key)
  {
    assert NoDuplicates(a);
    forall i, j | 0 <= i < j < |b| ensures key(b[i]) != key(b[j]) {
      if key(b[i]) == key(b[j]) {
        assert b[i] in multiset(a) && b[j] in multiset(a);
        var k :| 0 <= k < |a| && a[k] == b[i];
        var l :| 0 <= l < |a| && a[l] == b[j];
        if b[i] == b[j] {
          RepeatCountsTwice(b, i, j);
          NoDuplicatesCountsOnce(a, b[i]);
          assert false;
        } else {
          assert false;
        }
      }
    }
  }

  /** A row whose key no other row has keeps the keys distinct. */
  lemma DistinctKeysAppend<T, K>(rows: seq<T>, row: T, key: T -> K)
    requires DistinctKeys(rows, key)
    requires forall i :: 0 <= i < |rows| ==> key(rows[i]) != key(row)
    ensures DistinctKeys(rows + [row], key)
  {
    var r := rows + [row];
    forall i, j | 0 <= i < j < |r| ensures key(r[i]) != key(r[j]) {
      assert r[i] == rows[i];
      if j < |rows| {
        assert r[j] == rows[j];
      }
    }
  }

  /** Changing a row but not its key keeps the keys distinct. */
  lemma DistinctKeysUpdate<T, K>(rows: seq<T>, i: nat, row: T, key: T -> K)
    requires DistinctKeys(rows, key) && i < |rows| && key(row) == key(rows[i])
    ensures DistinctKeys(rows[i := row], key)
  {
    var r := rows[i := row];
    forall j, k | 0 <= j < k < |r| ensures key(r[j]) != key(r[k]) {
      assert key(r[j]) == key(rows[j]) && key(r[k]) == key(rows[k]);
    }
  }

  /** SQLite hands out rowids from 1 upwards. */
  predicate PositiveKeys<T>(rows: seq<T>, key: T -> int)
  {
    forall i :: 0 <= i < |rows| ==> key(rows[i]) >= 1
  }

  /** The rowid SQLite gives the next row of a table declared without
      AUTOINCREMENT: one more than the largest in use, 1 for an empty table. */
  function NextKey<T>(rows: seq<T>, key: T -> int): (k: int)
    ensures forall i :: 0 <= i < |rows| ==> key(rows[i]) < k
    ensures rows == [] ==> k == 1
    ensures rows != [] ==> exists i :: 0 <= i < |rows| && key(rows[i]) == k - 1
  {
    if rows == [] then 1
    else
      var rest := NextKey(rows[1..], key);
      if rows[1..] == [] || key(rows[0]) + 1 >= rest then
        key(rows[0]) + 1
      else
        assert exists i :: 0 <= i < |rows[1..]| && key(rows[1..][i]) == rest - 1;
        var i :| 0 <= i < |rows[1..]| && key(rows[1..][i]) == rest - 1;
        assert key(rows[i + 1]) == rest - 1;
        rest
  }

  /** A fresh key keeps the keys distinct and positive. */
  lemma AppendNextKey<T>(rows: seq<T>, key: T -> int, row: T)
    requires DistinctKeys(rows, key) && PositiveKeys(rows, key)
    requires key(row) == NextKey(rows, key)
    ensures DistinctKeys(rows + [row], key) && PositiveKeys(rows + [row], key)
  {
    DistinctKeysAppend(rows, row, key);
    var r := rows + [row];
    forall i | 0 <= i < |r| ensures key(r[i]) >= 1 {
      if i < |rows| {
        assert r[i] == rows[i];
      } else if rows != [] {
        var k :| 0 <= k < |rows| && key(rows[k]) == NextKey(rows, key) - 1;
        assert key(rows[k]) >= 1;
      }
    }
  }

  /** No two users share an e-mail address (`unique=True` on `email`). */
  predicate UniqueEmails(users: seq<User>)
  {
    DistinctKeys(users, UserEmail)
  }

  /** No two categories share a name (`unique=True` on `name`). */
  predicate UniqueNames(categories: seq<Category>)
  {
    DistinctKeys(categories, CategoryName)
  }

  predicate HasUser(users: seq<User>, id: int)
  {
    exists i :: 0 <= i < |users| && users[i].id == id
  }

  predicate HasCategory(categories: seq<Category>, id: int)
  {
    exists i :: 0 <= i < |categories| && categories[i].id == id
  }

  /** Text the handlers store after `.strip()` and a non-empty check
      (`StripFixesStripped`: such text is its own strip). */
  predicate StrippedText(s: string)
  {
    s != [] && Stripped(s)
  }

  /** Keys present in a table are present in any table extending it. */
  lemma HasUserExtended(users: seq<User>, more: seq<User>, id: int)
    requires users <= more && HasUser(users, id)
    ensures HasUser(more, id)
  {
    var k :| 0 <= k < |users| && users[k].id == id;
    assert more[k] == users[k];
  }

  lemma HasCategoryExtended(categories: seq<Category>, more: seq<Category>, id: int)
    requires categories <= more && HasCategory(categories, id)
    ensures HasCategory(more, id)
  {
    var k :| 0 <= k < |categories| && categories[k].id == id;
    assert more[k] == categories[k];
  }

  /** Growing the user and category tables keeps every reference resolving. */
  lemma ReferencesExtended(users: seq<User>, moreUsers: seq<User>, categories: seq<Category>,
                           moreCategories: seq<Category>, expenses: seq<Expense>)
    requires ReferencesResolve(users, categories, expenses)
    requires users <= moreUsers && categories <= moreCategories
    ensures ReferencesResolve(moreUsers, moreCategories, expenses)
  {
    forall i | 0 <= i < |expenses|
      ensures HasUser(moreUsers, expenses[i].userId) && HasCategory(moreCategories, expenses[i].categoryId)
    {
      HasUserExtended(users, moreUsers, expenses[i].userId);
      HasCategoryExtended(categories, moreCategories, expenses[i].categoryId);
    }
  }

  /** What the handlers write into an expense row beyond its keys: a real
      calendar date and a stripped, non-empty description. */
  predicate WellFormedExpense(e: Expense)
  {
    IsRealDate(e.date) && StrippedText(e.description)
  }

  /** Both foreign keys of every expense name an existing row. */
  predicate ReferencesResolve(users: seq<User>, categories: seq<Category>, expenses: seq<Expense>)
  {
    forall i :: 0 <= i < |expenses| ==>
      HasUser(users, expenses[i].userId) && HasCategory(categories, expenses[i].categoryId)
  }

  /** The user table: keys and the unique e-mail column. */
  predicate UsersValid(users: seq<User>)
  {
    DistinctKeys(users, UserKey) && PositiveKeys(users, UserKey) && UniqueEmails(users)
  }

  /** The category table: keys, the unique name column, and names as the handlers write them. */
  predicate CategoriesValid(categories: seq<Category>)
  {
    && DistinctKeys(categories, CategoryKey) && PositiveKeys(categories, CategoryKey) && UniqueNames(categories)
    && (forall i :: 0 <= i < |categories| ==> StrippedText(categories[i].name))
  }

  /** The expense table: keys and rows as the handlers write them. */
  predicate ExpensesValid(expenses: seq<Expense>)
  {
    && DistinctKeys(expenses, ExpenseKey) && PositiveKeys(expenses, ExpenseKey)
    && (forall i :: 0 <= i < |expenses| ==> WellFormedExpense(expenses[i]))
  }

  /** The constraints of the three tables together. */
  predicate StoreInvariant(users: seq<User>, categories: seq<Category>, expenses: seq<Expense>)
  {
    UsersValid(users) && CategoriesValid(categories) && ExpensesValid(expenses)
    && ReferencesResolve(users, categories, expenses)
  }

  function OwnedBy(userId: int): Expense -> bool
  {
    (e: Expense) => e.userId == userId
  }

  function FiledUnder(categoryId: int): Expense -> bool
  {
    (e: Expense) => e.categoryId == categoryId
  }

  /** The `User.expenses` relationship: exactly the rows whose `user_id` is the user's. */
  function ExpensesOfUser(expenses: seq<Expense>, userId: int): (r: seq<Expense>)
    ensures forall e :: e in r <==> e in expenses && e.userId == userId
  {
    Filter(expenses, OwnedBy(userId))
  }

  /** The `Category.expences` relationship: exactly the rows whose `category_id` is the category's. */
  function ExpensesOfCategory(expenses: seq<Expense>, categoryId: int): (r: seq<Expense>)
    ensures forall e :: e in r <==> e in expenses && e.categoryId == categoryId
  {
    Filter(expenses, FiledUnder(categoryId))
  }
}
