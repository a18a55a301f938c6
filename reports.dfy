/** The read-only queries behind the dashboard (app.py:123-164) and the
    expense list (app.py:168-199): the signed-in user's total, the
    expense listing newest first, the four most recent expenses and the
    per-category breakdown of the chart. */
module Reports {
  import opened Sequences
  import opened Text
  import opened Dates
  import opened Schema

  /** `if selected_category_id:` narrows the query only for a non-zero
      category id; an absent or unparsable `category_id` is `None`. */
  predicate Narrows(filter: Option<int>)
  {
    filter.Some? && filter.value != 0
  }

  /** The WHERE clause: the user's own expenses, in the selected category if any. */
  predicate Matches(e: Expense, userId: int, filter: Option<int>)
  {
    e.userId == userId && (Narrows(filter) ==> e.categoryId == filter.value)
  }

  function MatchesFor(userId: int, filter: Option<int>): Expense -> bool
  {
    (e: Expense) => Matches(e, userId, filter)
  }

  /** The rows the query selects, in table order. */
  function Selected(expenses: seq<Expense>, userId: int, filter: Option<int>): (r: seq<Expense>)
    ensures forall e :: e in r <==> e in expenses && Matches(e, userId, filter)
    ensures multiset(r) <= multiset(expenses)
  {
    Filter(expenses, MatchesFor(userId, filter))
  }

  function AmountOf(e: Expense): int { e.amount }

  /** `coalesce(sum(amount), 0)` over the selected rows. */
  function TotalSpent(expenses: seq<Expense>, userId: int, filter: Option<int>): int
  {
    SumBy(Selected(expenses, userId, filter), AmountOf)
  }

  /** With nothing selected the total is 0, not NULL. */
  lemma TotalOfNothing(expenses: seq<Expense>, userId: int, filter: Option<int>)
    requires forall e :: e in expenses ==> !Matches(e, userId, filter)
    ensures TotalSpent(expenses, userId, filter) == 0
  {
    FilterNone(expenses, MatchesFor(userId, filter));
  }

  /** One more row adds its amount to the total exactly when it is selected. */
  lemma TotalAfterAppend(expenses: seq<Expense>, e: Expense, userId: int, filter: Option<int>)
    ensures TotalSpent(expenses + [e], userId, filter) ==
      TotalSpent(expenses, userId, filter) + (if Matches(e, userId, filter) then e.amount else 0)
  {
    var p := MatchesFor(userId, filter);
    FilterAppend(expenses, [e], p);
    assert [e][1..] == [];
    SumByAppend(Filter(expenses, p), Filter([e], p), AmountOf);
  }

  /** `category_id=0` lists the same rows as no `category_id` at all. */
  lemma ZeroFilterIsNoFilter(expenses: seq<Expense>, userId: int)
    ensures Selected(expenses, userId, Some(0)) == Selected(expenses, userId, None)
    ensures TotalSpent(expenses, userId, Some(0)) == TotalSpent(expenses, userId, None)
  {
    FilterSamePredicate(expenses, MatchesFor(userId, Some(0)), MatchesFor(userId, None));
  }

  /** Every query reads the user's own rows only. */
  lemma SelectedFromOwnRows(expenses: seq<Expense>, userId: int, filter: Option<int>)
    ensures Selected(expenses, userId, filter) ==
      Filter(ExpensesOfUser(expenses, userId), MatchesFor(userId, filter))
  {
    FilterTwice(expenses, OwnedBy(userId), MatchesFor(userId, filter), MatchesFor(userId, filter));
  }

  /** `a` may be listed before `b`: later date first, then larger id first. */
  predicate ListedAhead(a: Expense, b: Expense)
  {
    DateBefore(b.date, a.date) || (a.date == b.date && a.id >= b.id)
  }

  /** Strictly newer in the listing's order. */
  predicate Newer(a: Expense, b: Expense)
  {
    DateBefore(b.date, a.date) || (a.date == b.date && a.id > b.id)
  }

  lemma ListedAheadIsTotalPreorder()
    ensures TotalPreorder(ListedAhead)
  {
    forall a: Expense, b: Expense ensures ListedAhead(a, b) || ListedAhead(b, a) {
      DateBeforeTrichotomy(a.date, b.date);
    }
    forall a: Expense, b: Expense, c: Expense | ListedAhead(a, b) && ListedAhead(b, c)
      ensures ListedAhead(a, c)
    {
      if DateBefore(c.date, b.date) && DateBefore(b.date, a.date) {
        DateBeforeTransitive(c.date, b.date, a.date);
      }
    }
  }

  /** `ORDER BY date DESC, id DESC` over the selected rows. */
  function Listing(expenses: seq<Expense>, userId: int, filter: Option<int>): (r: seq<Expense>)
    ensures multiset(r) == multiset(Selected(expenses, userId, filter))
  {
    SortBy(Selected(expenses, userId, filter), ListedAhead)
  }

  /** The listing holds exactly the selected rows, newest first; with the
      table's distinct ids no two rows tie, so each row is strictly newer
      than every row after it. */
  lemma ListingOrder(expenses: seq<Expense>, userId: int, filter: Option<int>)
    requires DistinctKeys(expenses, ExpenseKey)
    ensures forall e :: e in Listing(expenses, userId, filter) <==> e in expenses && Matches(e, userId, filter)
    ensures var r := Listing(expenses, userId, filter);
      forall i, j :: 0 <= i < j < |r| ==> Newer(r[i], r[j])
  {
    var r := Listing(expenses, userId, filter);
    var s := Selected(expenses, userId, filter);
    forall e ensures e in r <==> e in s {
      assert e in r <==> e in multiset(r);
      assert e in s <==> e in multiset(s);
    }
    ListedAheadIsTotalPreorder();
    SortBySorted(s, ListedAhead);
    DistinctKeysSubset(expenses, r, ExpenseKey);
    forall i, j | 0 <= i < j < |r| ensures Newer(r[i], r[j]) {
      assert ListedAhead(r[i], r[j]);
      assert r[i].id != r[j].id;
    }
  }

  /** The listing is the only newest-first arrangement of the selected rows. */
  lemma ListingIsDetermined(expenses: seq<Expense>, userId: int, filter: Option<int>, other: seq<Expense>)
    requires DistinctKeys(expenses, ExpenseKey)
    requires multiset(other) == multiset(Selected(expenses, userId, filter))
    requires SortedBy(other, ListedAhead)
    ensures other == Listing(expenses, userId, filter)
  {
    var r := Listing(expenses, userId, filter);
    ListedAheadIsTotalPreorder();
    SortBySorted(Selected(expenses, userId, filter), ListedAhead);
    DistinctKeysSubset(expenses, r, ExpenseKey);
    forall x, y | x in r && y in r && ListedAhead(x, y) && ListedAhead(y, x) ensures x == y {
      DateBeforeTrichotomy(x.date, y.date);
      var i :| 0 <= i < |r| && r[i] == x;
      var j :| 0 <= j < |r| && r[j] == y;
      assert i == j;
    }
    SortedPermutationUnique(r, other, ListedAhead);
  }

  /** The dashboard's `.limit(4)` on the unfiltered listing. */
  function Recent(expenses: seq<Expense>, userId: int): (r: seq<Expense>)
    ensures |r| <= 4
    ensures var l := Listing(expenses, userId, None);
      |r| == (if |l| < 4 then |l| else 4) && r == l[..|r|]
  {
    var l := Listing(expenses, userId, None);
    if |l| <= 4 then l else l[..4]
  }

  /** The recent rows are the user's and each is newer than every listed
      row left out of them. */
  lemma RecentAreNewest(expenses: seq<Expense>, userId: int)
    requires DistinctKeys(expenses, ExpenseKey)
    ensures forall e :: e in Recent(expenses, userId) ==> e in expenses && e.userId == userId
    ensures var r, l := Recent(expenses, userId), Listing(expenses, userId, None);
      forall i, j :: 0 <= i < |r| <= j < |l| ==> Newer(r[i], l[j])
  {
    ListingOrder(expenses, userId, None);
    var l := Listing(expenses, userId, None);
    var r := Recent(expenses, userId);
    forall e | e in r ensures e in l {
      var i :| 0 <= i < |r| && r[i] == e;
      assert l[i] == e;
    }
  }

  /** Whatever other users add, change or delete, a user's totals, listing
      and recent rows stay the same. */
  lemma OtherUsersInvisible(a: seq<Expense>, b: seq<Expense>, userId: int, filter: Option<int>)
    requires ExpensesOfUser(a, userId) == ExpensesOfUser(b, userId)
    ensures Selected(a, userId, filter) == Selected(b, userId, filter)
    ensures TotalSpent(a, userId, filter) == TotalSpent(b, userId, filter)
    ensures Listing(a, userId, filter) == Listing(b, userId, filter)
    ensures Recent(a, userId) == Recent(b, userId)
  {
    SelectedFromOwnRows(a, userId, filter);
    SelectedFromOwnRows(b, userId, filter);
    SelectedFromOwnRows(a, userId, None);
    SelectedFromOwnRows(b, userId, None);
  }

  /** One bar of the chart: a category name and this user's spending in it. */
  datatype BreakdownRow = BreakdownRow(name: string, total: int)

  /** The outer join's ON clause: this user's rows of this category. */
  function SpentOn(userId: int, categoryId: int): Expense -> bool
  {
    (e: Expense) => e.userId == userId && e.categoryId == categoryId
  }

  /** `coalesce(sum(amount), 0)` of one category's group. */
  function CategoryTotal(expenses: seq<Expense>, userId: int, categoryId: int): int
  {
    SumBy(Filter(expenses, SpentOn(userId, categoryId)), AmountOf)
  }

  /** A chart bar shows what the expense list totals when filtered to its category. */
  lemma CategoryTotalIsFilteredTotal(expenses: seq<Expense>, userId: int, categoryId: int)
    requires categoryId != 0
    ensures CategoryTotal(expenses, userId, categoryId) == TotalSpent(expenses, userId, Some(categoryId))
  {
    FilterSamePredicate(expenses, SpentOn(userId, categoryId), MatchesFor(userId, Some(categoryId)));
  }

  /** `Category.name.asc()` under SQLite's BINARY collation. */
  predicate NameNoLater(a: Category, b: Category)
  {
    CodePointLe(a.name, b.name)
  }

  /** The categories as `order_by(Category.name)` returns them. */
  function ByName(categories: seq<Category>): (r: seq<Category>)
    ensures multiset(r) == multiset(categories) && |r| == |categories|
    ensures forall i, j :: 0 <= i < j < |r| ==> CodePointLe(r[i].name, r[j].name)
  {
    NameNoLaterIsTotalPreorder();
    SortBySorted(categories, NameNoLater);
    SortBy(categories, NameNoLater)
  }

  /** One row per category, in the given order. */
  function RowsFor(categories: seq<Category>, expenses: seq<Expense>, userId: int): (rows: seq<BreakdownRow>)
    ensures |rows| == |categories|
    ensures forall i :: 0 <= i < |rows| ==>
      rows[i] == BreakdownRow(categories[i].name, CategoryTotal(expenses, userId, categories[i].id))
  {
    if categories == [] then []
    else
      [BreakdownRow(categories[0].name, CategoryTotal(expenses, userId, categories[0].id))]
        + RowsFor(categories[1..], expenses, userId)
  }

  /** The outer join grouped by category and ordered by name. */
  function Breakdown(categories: seq<Category>, expenses: seq<Expense>, userId: int): (rows: seq<BreakdownRow>)
    ensures |rows| == |categories|
  {
    RowsFor(ByName(categories), expenses, userId)
  }

  lemma NameNoLaterIsTotalPreorder()
    ensures TotalPreorder(NameNoLater)
  {
    forall a: Category, b: Category ensures NameNoLater(a, b) || NameNoLater(b, a) {
      CodePointLeTotal(a.name, b.name);
    }
    forall a: Category, b: Category, c: Category | NameNoLater(a, b) && NameNoLater(b, c)
      ensures NameNoLater(a, c)
    {
      CodePointLeTransitive(a.name, b.name, c.name);
    }
  }

  /** Every existing category has its row, even with no spending, and
      every row is the row of an existing category. */
  lemma BreakdownCoversCategories(categories: seq<Category>, expenses: seq<Expense>, userId: int)
    ensures var rows := Breakdown(categories, expenses, userId);
      && (forall c :: c in categories ==>
            exists i :: 0 <= i < |rows| && rows[i] == BreakdownRow(c.name, CategoryTotal(expenses, userId, c.id)))
      && (forall i :: 0 <= i < |rows| ==>
            exists c :: c in categories && rows[i] == BreakdownRow(c.name, CategoryTotal(expenses, userId, c.id)))
  {
    var sorted := ByName(categories);
    var rows := Breakdown(categories, expenses, userId);
    forall c | c in categories
      ensures exists i :: 0 <= i < |rows| && rows[i] == BreakdownRow(c.name, CategoryTotal(expenses, userId, c.id))
    {
      assert c in multiset(sorted);
      var i :| 0 <= i < |sorted| && sorted[i] == c;
      assert rows[i] == BreakdownRow(c.name, CategoryTotal(expenses, userId, c.id));
    }
    forall i | 0 <= i < |rows|
      ensures exists c :: c in categories && rows[i] == BreakdownRow(c.name, CategoryTotal(expenses, userId, c.id))
    {
      assert sorted[i] in multiset(categories);
    }
  }

  /** With the names unique, the rows are strictly ascending by name. */
  lemma BreakdownAscending(categories: seq<Category>, expenses: seq<Expense>, userId: int)
    requires UniqueNames(categories)
    ensures var rows := Breakdown(categories, expenses, userId);
      forall i, j :: 0 <= i < j < |rows| ==> CodePointLe(rows[i].name, rows[j].name) && rows[i].name != rows[j].name
  {
    var sorted := ByName(categories);
    var rows := Breakdown(categories, expenses, userId);
    NameNoLaterIsTotalPreorder();
    SortBySorted(categories, NameNoLater);
    DistinctKeysSubset(categories, sorted, CategoryName);
    forall i, j | 0 <= i < j < |rows|
      ensures CodePointLe(rows[i].name, rows[j].name) && rows[i].name != rows[j].name
    {
      assert NameNoLater(sorted[i], sorted[j]);
      assert CategoryName(sorted[i]) != CategoryName(sorted[j]);
    }
  }

  function RowTotal(row: BreakdownRow): int { row.total }

  function TotalOfCategory(expenses: seq<Expense>, userId: int): Category -> int
  {
    (c: Category) => CategoryTotal(expenses, userId, c.id)
  }

  lemma {:induction false} RowsSum(categories: seq<Category>, expenses: seq<Expense>, userId: int)
    ensures SumBy(RowsFor(categories, expenses, userId), RowTotal) == SumBy(categories, TotalOfCategory(expenses, userId))
  {
    if categories != [] {
      RowsSum(categories[1..], expenses, userId);
      var rows := RowsFor(categories, expenses, userId);
      assert rows[1..] == RowsFor(categories[1..], expenses, userId);
    }
  }

  /** What one expense adds to one category's group. */
  function ShareOf(e: Expense, userId: int): Category -> int
  {
    (c: Category) => if e.userId == userId && e.categoryId == c.id then e.amount else 0
  }

  lemma {:induction false} ShareOfAbsent(categories: seq<Category>, e: Expense, userId: int)
    requires forall i :: 0 <= i < |categories| ==> categories[i].id != e.categoryId
    ensures SumBy(categories, ShareOf(e, userId)) == 0
  {
    if categories != [] {
      ShareOfAbsent(categories[1..], e, userId);
    }
  }

  /** An expense of this user counts in exactly one group: the one of its
      category, which exists and whose id no other category has. */
  lemma {:induction false} ShareOfOwned(categories: seq<Category>, e: Expense, userId: int)
    requires DistinctKeys(categories, CategoryKey)
    requires e.userId == userId ==> HasCategory(categories, e.categoryId)
    ensures SumBy(categories, ShareOf(e, userId)) == if e.userId == userId then e.amount else 0
  {
    if e.userId != userId {
      ShareOfAbsentOwner(categories, e, userId);
    } else if categories[0].id == e.categoryId {
      assert forall i :: 0 <= i < |categories[1..]| ==> categories[1..][i].id != e.categoryId by {
        forall i | 0 <= i < |categories[1..]| ensures categories[1..][i].id != e.categoryId {
          assert CategoryKey(categories[0]) != CategoryKey(categories[i + 1]);
        }
      }
      ShareOfAbsent(categories[1..], e, userId);
    } else {
      var k :| 0 <= k < |categories| && categories[k].id == e.categoryId;
      assert categories[1..][k - 1].id == e.categoryId;
      assert DistinctKeys(categories[1..], CategoryKey) by {
        forall i, j | 0 <= i < j < |categories[1..]|
          ensures CategoryKey(categories[1..][i]) != CategoryKey(categories[1..][j])
        {
          assert CategoryKey(categories[i + 1]) != CategoryKey(categories[j + 1]);
        }
      }
      ShareOfOwned(categories[1..], e, userId);
    }
  }

  lemma {:induction false} ShareOfAbsentOwner(categories: seq<Category>, e: Expense, userId: int)
    requires e.userId != userId
    ensures SumBy(categories, ShareOf(e, userId)) == 0
  {
    if categories != [] {
      ShareOfAbsentOwner(categories[1..], e, userId);
    }
  }

  /** Summing the groups of all categories sums each of this user's expenses once. */
  lemma {:induction false} GroupsSumToTotal(categories: seq<Category>, expenses: seq<Expense>, userId: int)
    requires DistinctKeys(categories, CategoryKey)
    requires forall e :: e in expenses && e.userId == userId ==> HasCategory(categories, e.categoryId)
    ensures SumBy(categories, TotalOfCategory(expenses, userId)) == TotalSpent(expenses, userId, None)
  {
    if expenses == [] {
      SumBySameTerms(categories, TotalOfCategory(expenses, userId), ShareOfNone());
      ShareOfNoneSum(categories);
    } else {
      var e, rest := expenses[0], expenses[1..];
      forall i | 0 <= i < |categories|
        ensures TotalOfCategory(expenses, userId)(categories[i])
          == ShareOf(e, userId)(categories[i]) + TotalOfCategory(rest, userId)(categories[i])
      {
        CategoryTotalHead(expenses, userId, categories[i]);
      }
      SumBySplit(categories, TotalOfCategory(expenses, userId), ShareOf(e, userId), TotalOfCategory(rest, userId));
      ShareOfOwned(categories, e, userId);
      GroupsSumToTotal(categories, rest, userId);
      TotalSpentHead(expenses, userId);
    }
  }

  /** A category's total is the first row's share plus the rest's total. */
  lemma CategoryTotalHead(expenses: seq<Expense>, userId: int, c: Category)
    requires expenses != []
    ensures TotalOfCategory(expenses, userId)(c)
      == ShareOf(expenses[0], userId)(c) + TotalOfCategory(expenses[1..], userId)(c)
  {
    FilterHead(expenses, SpentOn(userId, c.id));
  }

  /** The user's total is the first row's amount, when it is theirs, plus the rest's total. */
  lemma TotalSpentHead(expenses: seq<Expense>, userId: int)
    requires expenses != []
    ensures TotalSpent(expenses, userId, None)
      == (if expenses[0].userId == userId then expenses[0].amount else 0) + TotalSpent(expenses[1..], userId, None)
  {
    FilterHead(expenses, MatchesFor(userId, None));
  }

  function ShareOfNone(): Category -> int
  {
    (c: Category) => 0
  }

  lemma {:induction false} ShareOfNoneSum(categories: seq<Category>)
    ensures SumBy(categories, ShareOfNone()) == 0
  {
    if categories != [] {
      ShareOfNoneSum(categories[1..]);
    }
  }

  /** When every expense of the user names an existing category, the chart's
      bars add up to the dashboard's total. */
  lemma BreakdownSumIsTotal(categories: seq<Category>, expenses: seq<Expense>, userId: int)
    requires DistinctKeys(categories, CategoryKey)
    requires forall e :: e in expenses && e.userId == userId ==> HasCategory(categories, e.categoryId)
    ensures SumBy(Breakdown(categories, expenses, userId), RowTotal) == TotalSpent(expenses, userId, None)
  {
    var sorted := ByName(categories);
    RowsSum(sorted, expenses, userId);
    SumByPermutation(sorted, categories, TotalOfCategory(expenses, userId));
    GroupsSumToTotal(categories, expenses, userId);
  }

  /** Another user's rows never reach this user's chart. */
  lemma BreakdownOfOwnRows(a: seq<Expense>, b: seq<Expense>, categories: seq<Category>, userId: int)
    requires ExpensesOfUser(a, userId) == ExpensesOfUser(b, userId)
    ensures Breakdown(categories, a, userId) == Breakdown(categories, b, userId)
  {
    var sorted := ByName(categories);
    forall i | 0 <= i < |sorted|
      ensures CategoryTotal(a, userId, sorted[i].id) == CategoryTotal(b, userId, sorted[i].id)
    {
      var cid := sorted[i].id;
      FilterTwice(a, OwnedBy(userId), SpentOn(userId, cid), SpentOn(userId, cid));
      FilterTwice(b, OwnedBy(userId), SpentOn(userId, cid), SpentOn(userId, cid));
    }
  }
}
