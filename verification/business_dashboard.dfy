/** The owner dashboard's reports: `getMonthlyStats`, which buckets income and expense
    records by calendar month with per-category totals and a per-user breakdown, and
    `getSelectedRangeStats`, which sums the records of an inclusive day range. */
module BusinessDashboard {
  import opened Common
  import opened Calendar
  import opened Records

  /** A record's populated `user`. */
  datatype Author = Author(id: Id, name: string, username: string)

  /** The amounts of an income record, or the `type` and amount of an expense record
      (`type` is None when the record has none). */
  datatype Amounts =
    | Takings(cash: int, pos: int, ticket: int, scratch: int, numerical: int)
    | Outgoing(kind: Option<string>, amount: int)

  /** A record as the dashboard holds it: an income record carries its populated store,
      an expense record has no store field at all. */
  datatype Row = Row(date: CalendarDay, store: Option<Id>, user: Author, amounts: Amounts)

  type IncomeRow = r: Row | r.amounts.Takings? && r.store.Some?
    witness Row(Date(1970, 1, 1), Some(0), Author(0, "", ""), Takings(0, 0, 0, 0, 0))
  type ExpenseRow = r: Row | r.amounts.Outgoing? && r.store.None?
    witness Row(Date(1970, 1, 1), None, Author(0, "", ""), Outgoing(None, 0))

  /** The seven figures a month, a user or a range reports. */
  datatype Totals = Totals(cash: int, pos: int, ticket: int, scratch: int, numerical: int, expenses: int, payments: int)

  const Zero: Totals := Totals(0, 0, 0, 0, 0, 0, 0)

  function Plus(a: Totals, b: Totals): Totals {
    Totals(a.cash + b.cash, a.pos + b.pos, a.ticket + b.ticket, a.scratch + b.scratch,
           a.numerical + b.numerical, a.expenses + b.expenses, a.payments + b.payments)
  }

  /** `totalNet`: the five takings less expenses and payments. */
  function Net(t: Totals): int {
    t.cash + t.pos + t.ticket + t.scratch + t.numerical - t.expenses - t.payments
  }

  const ExpenseKind: string := "expense"

  /** What one record adds: an income record its five amounts; an expense record its
      amount, to expenses when its type is exactly "expense" and to payments otherwise. */
  function Contribution(r: Row): (c: Totals)
    ensures r.amounts.Takings? ==> c.expenses == 0 && c.payments == 0
    ensures r.amounts.Takings? ==>
      Net(c) == r.amounts.cash + r.amounts.pos + r.amounts.ticket + r.amounts.scratch + r.amounts.numerical
    ensures r.amounts.Outgoing? ==>
      c.cash == 0 && c.pos == 0 && c.ticket == 0 && c.scratch == 0 && c.numerical == 0 && Net(c) == -r.amounts.amount
    ensures r.amounts.Outgoing? && r.amounts.kind != Some(ExpenseKind) ==> c.payments == r.amounts.amount && c.expenses == 0
    ensures r.amounts.Outgoing? && r.amounts.kind == Some(ExpenseKind) ==> c.expenses == r.amounts.amount && c.payments == 0
  {
    match r.amounts
    case Takings(cash, pos, ticket, scratch, numerical) => Totals(cash, pos, ticket, scratch, numerical, 0, 0)
    case Outgoing(kind, amount) =>
      if kind == Some(ExpenseKind) then Totals(0, 0, 0, 0, 0, amount, 0) else Totals(0, 0, 0, 0, 0, 0, amount)
  }

  // ---------------------------------------------------------------------------
  // reference totals

  /** Which records a total counts: those of a month, of a store, of a range of days
      (first and last included) and of an author, for each of these that is given. */
  datatype Selector = Selector(month: Option<Month>, store: Option<Id>, days: Option<(CalendarDay, CalendarDay)>,
                               user: Option<Id>)

  /** A month key, `${year}-${MM}`. */
  datatype Month = Month(year: int, month: int)

  function MonthOf(d: CalendarDay): Month {
    Month(d.year, d.month)
  }

  const Everything: Selector := Selector(None, None, None, None)

  predicate Selects(sel: Selector, r: Row) {
    && (sel.month.Some? ==> MonthOf(r.date) == sel.month.value)
    && (sel.store.Some? ==> r.store == sel.store)
    && (sel.days.Some? ==> NotAfter(sel.days.value.0, r.date) && NotAfter(r.date, sel.days.value.1))
    && (sel.user.Some? ==> r.user.id == sel.user.value)
  }

  /** What a record adds to a total: its contribution when selected, nothing otherwise. */
  function Share(sel: Selector, r: Row): Totals {
    if Selects(sel, r) then Contribution(r) else Zero
  }

  /** The sum of the contributions of the selected records. */
  function Total(rows: seq<Row>, sel: Selector): Totals
    decreases |rows|
  {
    if rows == [] then Zero else Plus(Total(rows[..|rows| - 1], sel), Share(sel, rows[|rows| - 1]))
  }

  lemma PlusAssociates(a: Totals, b: Totals, c: Totals)
    ensures Plus(Plus(a, b), c) == Plus(a, Plus(b, c))
  {
  }

  lemma PlusZero(a: Totals)
    ensures Plus(a, Zero) == a && Plus(Zero, a) == a
  {
  }

  lemma {:induction false} TotalAppend(a: seq<Row>, b: seq<Row>, sel: Selector)
    ensures Total(a + b, sel) == Plus(Total(a, sel), Total(b, sel))
    decreases |b|
  {
    if b == [] {
      assert a + b == a;
      PlusZero(Total(a, sel));
    } else {
      var init, last := b[..|b| - 1], b[|b| - 1];
      var ab := a + b;
      assert ab[..|ab| - 1] == a + init;
      assert ab[|ab| - 1] == last;
      TotalAppend(a, init, sel);
      assert Total(ab, sel) == Plus(Total(a + init, sel), Share(sel, last));
      assert Total(b, sel) == Plus(Total(init, sel), Share(sel, last));
      PlusAssociates(Total(a, sel), Total(init, sel), Share(sel, last));
    }
  }

  /** `rows.filter(...)` for a selector. */
  function Select(rows: seq<Row>, sel: Selector): (r: seq<Row>)
    ensures forall x :: x in r <==> x in rows && Selects(sel, x)
    decreases |rows|
  {
    if rows == [] then []
    else
      var last := rows[|rows| - 1];
      Select(rows[..|rows| - 1], sel) + (if Selects(sel, last) then [last] else [])
  }

  /** Two selectors that constrain different fields, and the one that applies both. */
  predicate Disjoint(a: Selector, b: Selector) {
    && !(a.month.Some? && b.month.Some?) && !(a.store.Some? && b.store.Some?)
    && !(a.days.Some? && b.days.Some?) && !(a.user.Some? && b.user.Some?)
  }

  function Meet(a: Selector, b: Selector): (m: Selector)
    requires Disjoint(a, b)
    ensures forall r :: Selects(m, r) <==> Selects(a, r) && Selects(b, r)
  {
    Selector(if a.month.Some? then a.month else b.month,
             if a.store.Some? then a.store else b.store,
             if a.days.Some? then a.days else b.days,
             if a.user.Some? then a.user else b.user)
  }

  /** Totalling the records a filter kept is totalling with both selections. */
  lemma {:induction false} SelectTotal(rows: seq<Row>, keep: Selector, sel: Selector)
    requires Disjoint(keep, sel)
    ensures Total(Select(rows, keep), sel) == Total(rows, Meet(keep, sel))
    decreases |rows|
  {
    if rows != [] {
      var init, last := rows[..|rows| - 1], rows[|rows| - 1];
      SelectTotal(init, keep, sel);
      var kept := if Selects(keep, last) then [last] else [];
      assert Select(rows, keep) == Select(init, keep) + kept;
      TotalAppend(Select(init, keep), kept, sel);
      if Selects(keep, last) {
        assert kept[..0] == [];
        assert Total(kept, sel) == Plus(Zero, Share(sel, last));
        PlusZero(Share(sel, last));
      }
      assert Share(Meet(keep, sel), last) == (if Selects(keep, last) then Share(sel, last) else Zero);
    }
  }

  // ---------------------------------------------------------------------------
  // getMonthlyStats

  datatype UserStat = UserStat(userId: Id, name: string, totals: Totals)

  /** One month's figures: the totals, `totalNet` (set last) and the user breakdown. */
  datatype MonthStat = MonthStat(totals: Totals, net: int, users: seq<UserStat>)

  const EmptyMonth: MonthStat := MonthStat(Zero, 0, [])

  /** `entry.user.name || entry.user.username`. */
  function DisplayName(a: Author): string {
    if a.name != "" then a.name else a.username
  }

  /** `userBreakdown.find(u => u.userId === id)`. */
  function FindUser(users: seq<UserStat>, id: Id): (r: Option<nat>)
    ensures r.None? <==> forall i :: 0 <= i < |users| ==> users[i].userId != id
    ensures r.Some? ==> r.value < |users| && users[r.value].userId == id
  {
    First(users, (u: UserStat) => u.userId == id)
  }

  /** Find the author's stat, pushing a zero one when missing, and add c to it. */
  function Credit(users: seq<UserStat>, a: Author, c: Totals): seq<UserStat> {
    match FindUser(users, a.id)
    case Some(j) => users[j := users[j].(totals := Plus(users[j].totals, c))]
    case None => users + [UserStat(a.id, DisplayName(a), Plus(Zero, c))]
  }

  /** One pass of a `forEach` body: the month's stat (created when missing) gains the
      record's contribution, in its totals and in its author's stat. */
  function Step(data: map<Month, MonthStat>, r: Row): map<Month, MonthStat> {
    var k := MonthOf(r.date);
    var ms := if k in data then data[k] else EmptyMonth;
    var c := Contribution(r);
    data[k := MonthStat(Plus(ms.totals, c), ms.net, Credit(ms.users, r.user, c))]
  }

  /** `monthlyData` after processing the rows in order. */
  function Fold(rows: seq<Row>): map<Month, MonthStat>
    decreases |rows|
  {
    if rows == [] then map[] else Step(Fold(rows[..|rows| - 1]), rows[|rows| - 1])
  }

  /** The last `forEach`: each month's `totalNet`. */
  function WithNet(data: map<Month, MonthStat>): (r: map<Month, MonthStat>)
    ensures r.Keys == data.Keys
    ensures forall k :: k in r ==>
      r[k].totals == data[k].totals && r[k].users == data[k].users && r[k].net == Net(data[k].totals)
  {
    map k | k in data :: data[k].(net := Net(data[k].totals))
  }

  /** The records the report reads: with a store filter, only that store's. Reading
      `store._id` of a record without a store throws, so the filter fails (None) as soon
      as one of the records has no store. */
  function ForStore(rows: seq<Row>, storeFilter: Option<Id>): (r: Option<seq<Row>>)
    ensures r.None? <==> storeFilter.Some? && exists x :: x in rows && x.store.None?
    ensures r.Some? ==> forall x :: x in r.value <==> x in rows && (storeFilter.Some? ==> x.store == storeFilter)
  {
    if storeFilter.None? then Some(rows)
    else if exists x :: x in rows && x.store.None? then None
    else Some(Select(rows, Selector(None, storeFilter, None, None)))
  }

  /** The report on the given records; None when the store filter throws. */
  function Report(entries: seq<IncomeRow>, expenses: seq<ExpenseRow>, storeFilter: Option<Id>)
    : Option<map<Month, MonthStat>>
  {
    match (ForStore(entries, storeFilter), ForStore(expenses, storeFilter))
    case (Some(a), Some(b)) => Some(WithNet(Fold(a + b)))
    case _ => None
  }

  /** With a store selected the report throws exactly when an expense was fetched: every
      income record has a store, no expense record has one. */
  lemma StoreFilterThrows(entries: seq<IncomeRow>, expenses: seq<ExpenseRow>, storeFilter: Option<Id>)
    ensures Report(entries, expenses, storeFilter).None? <==> storeFilter.Some? && expenses != []
  {
    if storeFilter.Some? && expenses != [] {
      assert expenses[0] in expenses;
    }
  }

  /** A step adds the record's month and changes no other month. */
  lemma StepFrame(data: map<Month, MonthStat>, r: Row)
    ensures Step(data, r).Keys == data.Keys + {MonthOf(r.date)}
    ensures forall k :: k in data && k != MonthOf(r.date) ==> Step(data, r)[k] == data[k]
  {
  }

  lemma FoldSnoc(rows: seq<Row>, r: Row)
    ensures Fold(rows + [r]) == Step(Fold(rows), r)
  {
    assert (rows + [r])[..|rows|] == rows;
  }

  method MonthlyStats(entries: seq<IncomeRow>, expenses: seq<ExpenseRow>, storeFilter: Option<Id>)
    returns (stats: Option<map<Month, MonthStat>>)
    ensures stats == Report(entries, expenses, storeFilter)
  {
    var filteredEntries := ForStore(entries, storeFilter);
    var filteredExpenses := ForStore(expenses, storeFilter);
    if filteredEntries.None? || filteredExpenses.None? {
      return None;
    }
    var incomes, outgoings := filteredEntries.value, filteredExpenses.value;
    var data := ForEach(map[], [], incomes);
    assert [] + incomes == incomes;
    data := ForEach(data, incomes, outgoings);
    stats := Some(map k | k in data :: data[k].(net := Net(data[k].totals)));
  }

  /** A `forEach` over rows, continuing from the data of the rows already done. */
  method ForEach(data: map<Month, MonthStat>, ghost done: seq<Row>, rows: seq<Row>)
    returns (data': map<Month, MonthStat>)
    requires data == Fold(done)
    ensures data' == Fold(done + rows)
  {
    data' := data;
    var i := 0;
    assert done + rows[..0] == done;
    while i < |rows|
      invariant 0 <= i <= |rows|
      invariant data' == Fold(done + rows[..i])
    {
      PrefixStep(done, rows, i);
      data' := Record(data', rows[i]);
      i := i + 1;
    }
    AllRows(rows, i);
  }

  /** One more record of the loop is one more step of the fold. */
  lemma PrefixStep(done: seq<Row>, rows: seq<Row>, i: nat)
    requires i < |rows|
    ensures Fold(done + rows[..i + 1]) == Step(Fold(done + rows[..i]), rows[i])
  {
    var before := done + rows[..i];
    assert done + rows[..i + 1] == before + [rows[i]];
    FoldSnoc(before, rows[i]);
  }

  /** The body of a `forEach`, statement by statement. */
  method Record(data: map<Month, MonthStat>, r: Row) returns (data': map<Month, MonthStat>)
    ensures data' == Step(data, r)
  {
    var key := MonthOf(r.date);
    data' := data;
    if key !in data' {
      data' := data'[key := EmptyMonth];
    }
    var monthStat := data'[key];
    var c := Contribution(r);
    var users := monthStat.users;
    var found := FindUser(users, r.user.id);
    ghost var credited := Credit(users, r.user, c);
    if found.None? {
      users := users + [UserStat(r.user.id, DisplayName(r.user), Zero)];
      found := Some(|users| - 1);
    }
    var u := found.value;
    users := users[u := users[u].(totals := Plus(users[u].totals, c))];
    assert users == credited;
    data' := data'[key := MonthStat(Plus(monthStat.totals, c), monthStat.net, users)];
  }

  // ---------------------------------------------------------------------------
  // what the monthly report means

  /** A month appears exactly when some record falls in it. */
  lemma {:induction false} FoldKeys(rows: seq<Row>)
    ensures forall k :: k in Fold(rows) <==> exists i :: 0 <= i < |rows| && MonthOf(rows[i].date) == k
    decreases |rows|
  {
    if rows != [] {
      var init := rows[..|rows| - 1];
      FoldKeys(init);
      forall k ensures k in Fold(rows) <==> exists i :: 0 <= i < |rows| && MonthOf(rows[i].date) == k {
        if k in Fold(init) {
          var i :| 0 <= i < |init| && MonthOf(init[i].date) == k;
          assert rows[i] == init[i];
        }
        if i :| 0 <= i < |rows| - 1 && MonthOf(rows[i].date) == k {
          assert init[i] == rows[i];
        }
      }
    }
  }

  /** Each month's totals are the sum of the contributions of the records of that month. */
  lemma {:induction false} FoldTotals(rows: seq<Row>, k: Month)
    requires k in Fold(rows)
    ensures Fold(rows)[k].totals == Total(rows, Selector(Some(k), None, None, None))
    decreases |rows|
  {
    var init, last := rows[..|rows| - 1], rows[|rows| - 1];
    var sel := Selector(Some(k), None, None, None);
    assert Fold(rows) == Step(Fold(init), last);
    assert Total(rows, sel) == Plus(Total(init, sel), Share(sel, last));
    StepFrame(Fold(init), last);
    if k in Fold(init) {
      FoldTotals(init, k);
    } else {
      ZeroOutsideKeys(init, k);
    }
    if MonthOf(last.date) == k {
      assert Share(sel, last) == Contribution(last);
    } else {
      assert Share(sel, last) == Zero;
      assert Fold(rows)[k] == Fold(init)[k];
      PlusZero(Total(init, sel));
    }
  }

  /** A month no record falls in totals zero. */
  lemma {:induction false} ZeroOutsideKeys(rows: seq<Row>, k: Month)
    requires k !in Fold(rows)
    ensures Total(rows, Selector(Some(k), None, None, None)) == Zero
    decreases |rows|
  {
    if rows != [] {
      var init, last := rows[..|rows| - 1], rows[|rows| - 1];
      assert Fold(rows) == Step(Fold(init), last);
      StepFrame(Fold(init), last);
      assert k !in Fold(init) && MonthOf(last.date) != k;
      ZeroOutsideKeys(init, k);
      assert !Selects(Selector(Some(k), None, None, None), last);
    }
  }

  /** Sum of the users' totals. */
  function SumUsers(users: seq<UserStat>): Totals
    decreases |users|
  {
    if users == [] then Zero else Plus(SumUsers(users[..|users| - 1]), users[|users| - 1].totals)
  }

  predicate UniqueUsers(users: seq<UserStat>) {
    forall i, j :: 0 <= i < j < |users| ==> users[i].userId != users[j].userId
  }

  /** A month's breakdown lists each user once and its users' totals add up to the month's. */
  predicate Consistent(ms: MonthStat) {
    UniqueUsers(ms.users) && SumUsers(ms.users) == ms.totals
  }

  /** Adding to one user's stat adds to the sum. */
  lemma {:induction false} SumUpdate(users: seq<UserStat>, j: nat, c: Totals)
    requires j < |users|
    ensures SumUsers(users[j := users[j].(totals := Plus(users[j].totals, c))]) == Plus(SumUsers(users), c)
    decreases |users|
  {
    var updated := users[j := users[j].(totals := Plus(users[j].totals, c))];
    var n := |users| - 1;
    assert updated[..n] == if j == n then users[..n] else users[..n][j := users[j].(totals := Plus(users[j].totals, c))];
    if j < n {
      SumUpdate(users[..n], j, c);
    }
  }

  /** Crediting a record keeps the breakdown consistent, keeps every listed user, and lists
      the record's author. */
  lemma Credited(users: seq<UserStat>, a: Author, c: Totals)
    requires UniqueUsers(users)
    ensures var r := Credit(users, a, c);
      UniqueUsers(r) && SumUsers(r) == Plus(SumUsers(users), c) && FindUser(r, a.id).Some?
      && |users| <= |r| && forall i :: 0 <= i < |users| ==> r[i].userId == users[i].userId
  {
    match FindUser(users, a.id)
    case Some(j) =>
      var r := users[j := users[j].(totals := Plus(users[j].totals, c))];
      assert Credit(users, a, c) == r;
      assert forall i :: 0 <= i < |users| ==> r[i].userId == users[i].userId;
      SumUpdate(users, j, c);
      assert r[j].userId == a.id;
    case None =>
      var r := users + [UserStat(a.id, DisplayName(a), Plus(Zero, c))];
      assert Credit(users, a, c) == r;
      assert r[..|users|] == users;
      assert forall i :: 0 <= i < |users| ==> r[i] == users[i];
      PlusZero(c);
      assert SumUsers(r) == Plus(SumUsers(users), c);
      assert r[|users|].userId == a.id;
  }

  /** A step keeps every month consistent and keeps every listed user listed, and lists
      the record's author in the record's month. */
  lemma StepConsistent(data: map<Month, MonthStat>, r: Row)
    requires forall k :: k in data ==> Consistent(data[k])
    ensures forall k :: k in Step(data, r) ==> Consistent(Step(data, r)[k])
    ensures FindUser(Step(data, r)[MonthOf(r.date)].users, r.user.id).Some?
    ensures forall k, id :: k in data && FindUser(data[k].users, id).Some? ==>
      k in Step(data, r) && FindUser(Step(data, r)[k].users, id).Some?
  {
    StepFrame(data, r);
    var k := MonthOf(r.date);
    var ms := if k in data then data[k] else EmptyMonth;
    Credited(ms.users, r.user, Contribution(r));
    forall k', id | k' in data && FindUser(data[k'].users, id).Some?
      ensures k' in Step(data, r) && FindUser(Step(data, r)[k'].users, id).Some?
    {
      if k' == k {
        var before := FindUser(data[k].users, id).value;
        assert Step(data, r)[k].users[before].userId == id;
      }
    }
  }

  /** Every month of the fold is consistent, and every record's author is listed in the
      breakdown of the record's month. */
  lemma {:induction false} FoldConsistent(rows: seq<Row>)
    ensures forall k :: k in Fold(rows) ==> Consistent(Fold(rows)[k])
    ensures forall i :: 0 <= i < |rows| ==>
      MonthOf(rows[i].date) in Fold(rows) && FindUser(Fold(rows)[MonthOf(rows[i].date)].users, rows[i].user.id).Some?
    decreases |rows|
  {
    if rows != [] {
      var init, last := rows[..|rows| - 1], rows[|rows| - 1];
      FoldConsistent(init);
      StepConsistent(Fold(init), last);
      forall i | 0 <= i < |rows| - 1
        ensures MonthOf(rows[i].date) in Fold(rows)
        ensures FindUser(Fold(rows)[MonthOf(rows[i].date)].users, rows[i].user.id).Some?
      {
        assert rows[i] == init[i];
      }
    }
  }

  /** The net of a month is the sum of its users' nets. */
  function SumNets(users: seq<UserStat>): int
    decreases |users|
  {
    if users == [] then 0 else SumNets(users[..|users| - 1]) + Net(users[|users| - 1].totals)
  }

  lemma {:induction false} NetOfSum(users: seq<UserStat>)
    ensures SumNets(users) == Net(SumUsers(users))
    decreases |users|
  {
    if users != [] {
      NetOfSum(users[..|users| - 1]);
    }
  }

  /** The records a report that does not throw reads. */
  function Counted(entries: seq<IncomeRow>, expenses: seq<ExpenseRow>, storeFilter: Option<Id>): seq<Row>
    requires Report(entries, expenses, storeFilter).Some?
  {
    ForStore(entries, storeFilter).value + ForStore(expenses, storeFilter).value
  }

  /** The report is the fold of the records it reads. */
  lemma ReportFolds(entries: seq<IncomeRow>, expenses: seq<ExpenseRow>, storeFilter: Option<Id>)
    requires Report(entries, expenses, storeFilter).Some?
    ensures Report(entries, expenses, storeFilter).value == WithNet(Fold(Counted(entries, expenses, storeFilter)))
  {
  }

  /** Totalling what the report reads is totalling every record with the store selected. */
  lemma CountedTotal(entries: seq<IncomeRow>, expenses: seq<ExpenseRow>, storeFilter: Option<Id>, sel: Selector)
    requires Report(entries, expenses, storeFilter).Some?
    requires sel.store.None?
    ensures Total(Counted(entries, expenses, storeFilter), sel) == Total(entries + expenses, sel.(store := storeFilter))
  {
    var a, b := ForStore(entries, storeFilter).value, ForStore(expenses, storeFilter).value;
    TotalAppend(a, b, sel);
    TotalAppend(entries, expenses, sel.(store := storeFilter));
    if storeFilter.Some? {
      var byStore := Selector(None, storeFilter, None, None);
      assert a == Select(entries, byStore) && b == Select(expenses, byStore);
      assert Meet(byStore, sel) == sel.(store := storeFilter);
      SelectTotal(entries, byStore, sel);
      SelectTotal(expenses, byStore, sel);
    } else {
      assert sel.(store := storeFilter) == sel;
    }
  }

  /** The records the report reads are those of the selected store. */
  lemma CountedRows(entries: seq<IncomeRow>, expenses: seq<ExpenseRow>, storeFilter: Option<Id>)
    requires Report(entries, expenses, storeFilter).Some?
    ensures forall r :: r in Counted(entries, expenses, storeFilter) <==>
      r in entries + expenses && (storeFilter.Some? ==> r.store == storeFilter)
  {
  }

  /** A month is in the fold iff one of the records falls in it. */
  lemma MonthsListed(rows: seq<Row>, k: Month)
    ensures k in Fold(rows) <==> exists r :: r in rows && MonthOf(r.date) == k
  {
    FoldKeys(rows);
    if exists r :: r in rows && MonthOf(r.date) == k {
      var r :| r in rows && MonthOf(r.date) == k;
      var i :| 0 <= i < |rows| && rows[i] == r;
    }
  }

  /** A month is listed iff some record of the selected store falls in it. */
  lemma ReportKeys(entries: seq<IncomeRow>, expenses: seq<ExpenseRow>, storeFilter: Option<Id>, k: Month)
    requires Report(entries, expenses, storeFilter).Some?
    ensures k in Report(entries, expenses, storeFilter).value <==>
      exists r :: r in entries + expenses && MonthOf(r.date) == k && (storeFilter.Some? ==> r.store == storeFilter)
  {
    var rows := Counted(entries, expenses, storeFilter);
    ReportFolds(entries, expenses, storeFilter);
    MonthsListed(rows, k);
    CountedRows(entries, expenses, storeFilter);
    if k in Fold(rows) {
      var r :| r in rows && MonthOf(r.date) == k;
      assert r in entries + expenses && (storeFilter.Some? ==> r.store == storeFilter);
    }
    if exists r :: r in entries + expenses && MonthOf(r.date) == k && (storeFilter.Some? ==> r.store == storeFilter) {
      var r :| r in entries + expenses && MonthOf(r.date) == k && (storeFilter.Some? ==> r.store == storeFilter);
      assert r in rows;
    }
  }

  /** A listed month's totals are the sum over the records of that month (and of the
      selected store, when filtered). */
  lemma ReportTotals(entries: seq<IncomeRow>, expenses: seq<ExpenseRow>, storeFilter: Option<Id>, k: Month)
    requires Report(entries, expenses, storeFilter).Some? && k in Report(entries, expenses, storeFilter).value
    ensures Report(entries, expenses, storeFilter).value[k].totals ==
      Total(entries + expenses, Selector(Some(k), storeFilter, None, None))
  {
    ReportFolds(entries, expenses, storeFilter);
    FoldTotals(Counted(entries, expenses, storeFilter), k);
    CountedTotal(entries, expenses, storeFilter, Selector(Some(k), None, None, None));
  }

  /** A listed month's net is its takings less its expenses and payments, and also the sum
      of its users' nets; its users are listed once each, with totals adding up to the
      month's, and every author of a counted record is listed. */
  lemma ReportBreakdown(entries: seq<IncomeRow>, expenses: seq<ExpenseRow>, storeFilter: Option<Id>, k: Month)
    requires Report(entries, expenses, storeFilter).Some? && k in Report(entries, expenses, storeFilter).value
    ensures var ms := Report(entries, expenses, storeFilter).value[k];
      ms.net == Net(ms.totals) && ms.net == SumNets(ms.users) && Consistent(ms)
    ensures forall r :: r in Counted(entries, expenses, storeFilter) && MonthOf(r.date) == k ==>
      FindUser(Report(entries, expenses, storeFilter).value[k].users, r.user.id).Some?
  {
    var rows := Counted(entries, expenses, storeFilter);
    ReportFolds(entries, expenses, storeFilter);
    FoldConsistent(rows);
    NetOfSum(Fold(rows)[k].users);
    forall r | r in rows && MonthOf(r.date) == k
      ensures FindUser(Report(entries, expenses, storeFilter).value[k].users, r.user.id).Some?
    {
      var i :| 0 <= i < |rows| && rows[i] == r;
    }
  }

  /** The records of month k written by user u. */
  function ByUser(k: Month, u: Id): Selector {
    Selector(Some(k), None, None, Some(u))
  }

  /** The breakdown of month k, empty while the month is not listed. */
  function UsersOf(data: map<Month, MonthStat>, k: Month): seq<UserStat> {
    if k in data then data[k].users else []
  }

  /** `find` returns the first user with the id. */
  lemma FindFirst(users: seq<UserStat>, u: Id, j: nat)
    requires j < |users| && users[j].userId == u
    requires forall i :: 0 <= i < j ==> users[i].userId != u
    ensures FindUser(users, u) == Some(j)
  {
  }

  /** Crediting an author leaves its stat holding what it held before (nothing when it
      was not listed) plus the record's contribution. */
  lemma CreditSame(users: seq<UserStat>, a: Author, c: Totals)
    ensures var r := Credit(users, a, c);
      FindUser(r, a.id).Some?
      && r[FindUser(r, a.id).value].totals ==
         Plus(if FindUser(users, a.id).Some? then users[FindUser(users, a.id).value].totals else Zero, c)
  {
    var r := Credit(users, a, c);
    match FindUser(users, a.id)
    case Some(j) =>
      assert r == users[j := users[j].(totals := Plus(users[j].totals, c))];
      FindFirst(r, a.id, j);
    case None =>
      assert r == users + [UserStat(a.id, DisplayName(a), Plus(Zero, c))];
      FindFirst(r, a.id, |users|);
  }

  /** Crediting an author leaves every other user's stat where and as it was. */
  lemma CreditOther(users: seq<UserStat>, a: Author, c: Totals, u: Id)
    requires a.id != u
    ensures FindUser(Credit(users, a, c), u) == FindUser(users, u)
    ensures FindUser(users, u).Some? ==>
      Credit(users, a, c)[FindUser(users, u).value] == users[FindUser(users, u).value]
  {
    var r := Credit(users, a, c);
    assert |users| <= |r| && forall i :: 0 <= i < |users| ==> r[i].userId == users[i].userId && (users[i].userId != a.id ==> r[i] == users[i]);
    assert forall i :: |users| <= i < |r| ==> r[i].userId == a.id;
    match FindUser(users, u)
    case Some(m) =>
      FindFirst(r, u, m);
    case None =>
      assert forall i :: 0 <= i < |r| ==> r[i].userId != u;
  }

  /** A step changes the breakdown of the record's month only, by crediting its author. */
  lemma StepUsers(data: map<Month, MonthStat>, r: Row, k: Month)
    ensures UsersOf(Step(data, r), k) ==
      if MonthOf(r.date) == k then Credit(UsersOf(data, k), r.user, Contribution(r)) else UsersOf(data, k)
  {
  }

  /** A user's stat holds `t` (or the user is unlisted and `t` is zero); after one more
      record it holds `t` plus the record's share for that user and month. */
  lemma CreditedShare(before: seq<UserStat>, r: Row, k: Month, u: Id, t: Totals)
    requires FindUser(before, u).Some? ==> before[FindUser(before, u).value].totals == t
    requires FindUser(before, u).None? ==> t == Zero
    ensures var after := if MonthOf(r.date) == k then Credit(before, r.user, Contribution(r)) else before;
      && (FindUser(after, u).Some? ==> after[FindUser(after, u).value].totals == Plus(t, Share(ByUser(k, u), r)))
      && (FindUser(after, u).None? ==> Plus(t, Share(ByUser(k, u), r)) == Zero)
  {
    var sel := ByUser(k, u);
    if MonthOf(r.date) == k && r.user.id == u {
      assert Share(sel, r) == Contribution(r);
      CreditSame(before, r.user, Contribution(r));
    } else {
      assert Share(sel, r) == Zero;
      PlusZero(t);
      if MonthOf(r.date) == k {
        CreditOther(before, r.user, Contribution(r), u);
      }
    }
  }

  /** Each user listed in a month's breakdown holds the totals of that user's own records
      of the month, and a user not listed has none. */
  lemma {:induction false} FoldUserTotals(rows: seq<Row>, k: Month, u: Id)
    ensures var users := UsersOf(Fold(rows), k);
      FindUser(users, u).Some? ==> users[FindUser(users, u).value].totals == Total(rows, ByUser(k, u))
    ensures FindUser(UsersOf(Fold(rows), k), u).None? ==> Total(rows, ByUser(k, u)) == Zero
    decreases |rows|
  {
    if rows != [] {
      var init, last := rows[..|rows| - 1], rows[|rows| - 1];
      var sel := ByUser(k, u);
      FoldUserTotals(init, k, u);
      assert Fold(rows) == Step(Fold(init), last);
      assert Total(rows, sel) == Plus(Total(init, sel), Share(sel, last));
      StepUsers(Fold(init), last, k);
      CreditedShare(UsersOf(Fold(init), k), last, k, u, Total(init, sel));
    }
  }

  /** Each user of a listed month's breakdown holds the totals of that user's own records
      of the month (and of the selected store), and an author not listed has none. */
  lemma ReportUserTotals(entries: seq<IncomeRow>, expenses: seq<ExpenseRow>, storeFilter: Option<Id>, k: Month, u: Id)
    requires Report(entries, expenses, storeFilter).Some? && k in Report(entries, expenses, storeFilter).value
    ensures var users := Report(entries, expenses, storeFilter).value[k].users;
      FindUser(users, u).Some? ==>
        users[FindUser(users, u).value].totals == Total(entries + expenses, Selector(Some(k), storeFilter, None, Some(u)))
    ensures var users := Report(entries, expenses, storeFilter).value[k].users;
      FindUser(users, u).None? ==> Total(entries + expenses, Selector(Some(k), storeFilter, None, Some(u))) == Zero
  {
    ReportFolds(entries, expenses, storeFilter);
    FoldUserTotals(Counted(entries, expenses, storeFilter), k, u);
    CountedTotal(entries, expenses, storeFilter, ByUser(k, u));
  }

  // ---------------------------------------------------------------------------
  // getSelectedRangeStats

  /** The records from the start of day `first` to the end of day `last`. */
  function Days(first: CalendarDay, last: CalendarDay): Selector {
    Selector(None, None, Some((first, last)), None)
  }

  /** Comparing the records' Dates with the range's ends is comparing their day numbers. */
  lemma DaysMeaning(first: CalendarDay, last: CalendarDay, r: Row)
    ensures Selects(Days(first, last), r) <==>
      DaysFromCivil(first) <= DaysFromCivil(r.date) <= DaysFromCivil(last)
  {
    OrderAgrees(first, r.date);
    OrderAgrees(r.date, last);
  }

  /** Filters both lists to the range, then sums the income amounts with one `reduce` and
      the expense amounts, by type, with another. */
  method SelectedRangeStats(entries: seq<IncomeRow>, expenses: seq<ExpenseRow>, first: CalendarDay, last: CalendarDay)
    returns (totals: Totals, net: int)
    ensures totals == Total(entries + expenses, Days(first, last))
    ensures net == Net(totals)
  {
    var selectedEntries := Select(entries, Days(first, last));
    var selectedExpenses := Select(expenses, Days(first, last));
    var income := SumTakings(selectedEntries);
    var expensesSum, paymentsSum := SumOutgoing(selectedExpenses);
    totals := Totals(income.cash, income.pos, income.ticket, income.scratch, income.numerical, expensesSum, paymentsSum);
    net := totals.cash + totals.pos + totals.ticket + totals.scratch + totals.numerical - totals.expenses - totals.payments;
    IncomeOnly(selectedEntries, entries);
    SelectTotal(entries, Days(first, last), Everything);
    SelectTotal(expenses, Days(first, last), Everything);
    TotalAppend(entries, expenses, Days(first, last));
  }

  /** The income `reduce`: each takings field summed over the records. */
  method SumTakings(rows: seq<Row>) returns (income: Totals)
    requires forall r :: r in rows ==> r.amounts.Takings?
    ensures income == Total(rows, Everything)
  {
    income := Zero;
    var i := 0;
    while i < |rows|
      invariant 0 <= i <= |rows|
      invariant income == Total(rows[..i], Everything)
    {
      var entry := rows[i];
      assert entry in rows;
      TotalStep(rows, i, Everything);
      income := Totals(income.cash + entry.amounts.cash, income.pos + entry.amounts.pos,
                       income.ticket + entry.amounts.ticket, income.scratch + entry.amounts.scratch,
                       income.numerical + entry.amounts.numerical, income.expenses, income.payments);
      i := i + 1;
    }
    AllRows(rows, i);
  }

  /** The expense `reduce`: amounts of type "expense" to expenses, the rest to payments. */
  method SumOutgoing(rows: seq<Row>) returns (expensesSum: int, paymentsSum: int)
    requires forall r :: r in rows ==> r.amounts.Outgoing?
    ensures Total(rows, Everything) == Totals(0, 0, 0, 0, 0, expensesSum, paymentsSum)
  {
    expensesSum, paymentsSum := 0, 0;
    var j := 0;
    while j < |rows|
      invariant 0 <= j <= |rows|
      invariant Total(rows[..j], Everything) == Totals(0, 0, 0, 0, 0, expensesSum, paymentsSum)
    {
      var expense := rows[j];
      assert expense in rows;
      TotalStep(rows, j, Everything);
      if expense.amounts.kind == Some(ExpenseKind) {
        expensesSum := expensesSum + expense.amounts.amount;
      } else {
        paymentsSum := paymentsSum + expense.amounts.amount;
      }
      j := j + 1;
    }
    AllRows(rows, j);
  }

  /** The loops' step: one more record adds its share. */
  lemma TotalStep(rows: seq<Row>, i: nat, sel: Selector)
    requires i < |rows|
    ensures Total(rows[..i + 1], sel) == Plus(Total(rows[..i], sel), Share(sel, rows[i]))
  {
    assert rows[..i + 1][..i] == rows[..i];
  }

  lemma AllRows(rows: seq<Row>, i: nat)
    requires i == |rows|
    ensures rows[..i] == rows
  {
  }

  /** Income records add nothing to expenses or payments. */
  lemma {:induction false} IncomeOnly(rows: seq<Row>, entries: seq<IncomeRow>)
    requires forall r :: r in rows ==> r in entries
    ensures Total(rows, Everything).expenses == 0 && Total(rows, Everything).payments == 0
    decreases |rows|
  {
    if rows != [] {
      IncomeOnly(rows[..|rows| - 1], entries);
      assert rows[|rows| - 1] in entries;
    }
  }

  /** Totals that select the same records are equal. */
  lemma {:induction false} SameSelection(rows: seq<Row>, a: Selector, b: Selector)
    requires forall r :: r in rows ==> (Selects(a, r) <==> Selects(b, r))
    ensures Total(rows, a) == Total(rows, b)
    decreases |rows|
  {
    if rows != [] {
      SameSelection(rows[..|rows| - 1], a, b);
      assert rows[|rows| - 1] in rows;
    }
  }

  /** One record falls in exactly one half of a range split after day `b`, or in neither. */
  lemma SplitRow(r: Row, a: CalendarDay, b: CalendarDay, c: CalendarDay)
    requires NotAfter(a, b) && NotAfter(b, c)
    ensures Share(Days(a, c), r) == Plus(Share(Days(a, b), r), Share(Days(NextDay(b), c), r))
  {
    var x := r.date;
    SplitAfter(a, b, c, x);
    SplitShare(Contribution(r), Selects(Days(a, c), r), Selects(Days(a, b), r), Selects(Days(NextDay(b), c), r));
  }

  /** A whole that is exactly one of two halves, or neither, shares out as their sum. */
  lemma SplitShare(t: Totals, inWhole: bool, inLeft: bool, inRight: bool)
    requires inWhole <==> inLeft || inRight
    requires !(inLeft && inRight)
    ensures (if inWhole then t else Zero) == Plus(if inLeft then t else Zero, if inRight then t else Zero)
  {
  }

  lemma PlusShuffle(a: Totals, b: Totals, c: Totals, d: Totals)
    ensures Plus(Plus(a, b), Plus(c, d)) == Plus(Plus(a, c), Plus(b, d))
  {
  }

  /** Splitting a range after any day before its end splits its totals: the records up to
      that day and those from the next day on. */
  lemma {:induction false} RangeSplit(rows: seq<Row>, a: CalendarDay, b: CalendarDay, c: CalendarDay)
    requires NotAfter(a, b) && NotAfter(b, c)
    ensures Total(rows, Days(a, c)) == Plus(Total(rows, Days(a, b)), Total(rows, Days(NextDay(b), c)))
    decreases |rows|
  {
    if rows != [] {
      var init, last := rows[..|rows| - 1], rows[|rows| - 1];
      RangeSplit(init, a, b, c);
      SplitRow(last, a, b, c);
      PlusShuffle(Total(init, Days(a, b)), Total(init, Days(NextDay(b), c)),
        Share(Days(a, b), last), Share(Days(NextDay(b), c), last));
    }
  }

  /** The range from the 1st to the last day of a month (the "this month" preset) sums the
      same records as that month's row of the monthly report without a store filter. */
  lemma MonthIsItsRange(entries: seq<IncomeRow>, expenses: seq<ExpenseRow>, today: CalendarDay)
    requires Report(entries, expenses, None).Some? && MonthOf(today) in Report(entries, expenses, None).value
    ensures Report(entries, expenses, None).value[MonthOf(today)].totals ==
      Total(entries + expenses, Days(FirstOfMonth(today), LastDayOfMonth(today.year, today.month)))
  {
    var k := MonthOf(today);
    var first, last := FirstOfMonth(today), LastDayOfMonth(today.year, today.month);
    ReportTotals(entries, expenses, None, k);
    assert forall r :: r in entries + expenses ==>
      (Selects(Selector(Some(k), None, None, None), r) <==> Selects(Days(first, last), r));
    SameSelection(entries + expenses, Selector(Some(k), None, None, None), Days(first, last));
  }
}
