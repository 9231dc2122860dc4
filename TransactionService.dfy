/** The transaction store and its queries.
    The Where, OrderByDescending, Sum and FirstOrDefault operators the service composes its
    queries from are functions on sequences; the service itself is a class whose `rows`
    field is the Transactions table, updated in place by create, update and delete. */
module Services {
  import opened Models

  // ---------------------------------------------------------------------------
  // Query operators
  // ---------------------------------------------------------------------------

  /** The predicates the queries filter by. */
  datatype Condition =
    | OwnedBy(userId: string)
    | CreatedFrom(start: DateTime)
    | CreatedUntil(end: DateTime)
    | CreatedInMonth(month: int)
    | CreatedInYear(year: int)
    | OfKind(kind: TransactionType)
    | OfUndefinedKind

  predicate Holds(c: Condition, t: Transaction)
  {
    match c
    case OwnedBy(u) => t.userId == u
    case CreatedFrom(d) => NotAfter(d, t.createdAt)
    case CreatedUntil(d) => NotAfter(t.createdAt, d)
    case CreatedInMonth(m) => t.createdAt.month == m
    case CreatedInYear(y) => t.createdAt.year == y
    case OfKind(k) => t.kind == k
    case OfUndefinedKind => t.kind.Undefined?
  }

  /** Where: a selection of the elements of `s`, each satisfying `c`. WhereCounts states
      that it keeps every such element as often as it occurs in `s`. */
  function Where(s: seq<Transaction>, c: Condition): (r: seq<Transaction>)
    ensures |r| <= |s|
    ensures forall i :: 0 <= i < |r| ==> Holds(c, r[i])
  {
    if s == [] then []
    else
      assert s == [s[0]] + s[1..];
      var rest := Where(s[1..], c);
      if Holds(c, s[0]) then [s[0]] + rest else rest
  }

  /** Where keeps exactly the elements satisfying `c`, with their multiplicities. */
  lemma {:induction false} WhereCounts(s: seq<Transaction>, c: Condition)
    ensures forall t :: multiset(Where(s, c))[t] == if Holds(c, t) then multiset(s)[t] else 0
  {
    if s != [] {
      assert s == [s[0]] + s[1..];
      WhereCounts(s[1..], c);
    }
  }

  /** Filtering two orderings of the same rows gives two orderings of the same selection. */
  lemma WhereOfPermutation(a: seq<Transaction>, b: seq<Transaction>, c: Condition)
    requires multiset(a) == multiset(b)
    ensures multiset(Where(a, c)) == multiset(Where(b, c))
  {
    WhereCounts(a, c);
    WhereCounts(b, c);
    assert forall t :: multiset(Where(a, c))[t] == multiset(Where(b, c))[t];
  }

  /** Newest first: no element is created later than one before it. */
  predicate NewestFirst(s: seq<Transaction>)
  {
    forall i, j :: 0 <= i < j < |s| ==> NotAfter(s[j].createdAt, s[i].createdAt)
  }

  /** Puts `x` in front of the first element not newer than it. */
  function InsertNewestFirst(x: Transaction, s: seq<Transaction>): (r: seq<Transaction>)
    requires NewestFirst(s)
    ensures NewestFirst(r)
    ensures multiset(r) == multiset(s) + multiset{x}
    ensures |r| == |s| + 1
    ensures forall i :: 0 <= i < |r| ==> r[i] == x || r[i] in s
  {
    if s == [] || NotAfter(s[0].createdAt, x.createdAt) then
      assert forall j :: 0 <= j < |s| ==> NotAfter(s[j].createdAt, s[0].createdAt);
      [x] + s
    else
      assert s == [s[0]] + s[1..];
      var rest := InsertNewestFirst(x, s[1..]);
      assert forall i :: 0 <= i < |rest| ==> NotAfter(rest[i].createdAt, s[0].createdAt);
      [s[0]] + rest
  }

  /** OrderByDescending(t => t.CreatedAt), as a stable insertion sort: the same elements,
      newest first. */
  function SortNewestFirst(s: seq<Transaction>): (r: seq<Transaction>)
    ensures NewestFirst(r)
    ensures multiset(r) == multiset(s)
  {
    if s == [] then []
    else
      assert s == [s[0]] + s[1..];
      InsertNewestFirst(s[0], SortNewestFirst(s[1..]))
  }

  /** Sum(selector): the fold the balance and the summary compute. */
  function Sum(s: seq<Transaction>, f: Transaction -> int): (r: int)
  {
    if s == [] then 0 else f(s[0]) + Sum(s[1..], f)
  }

  /** A selector that is never negative on the rows gives a non-negative total. */
  lemma {:induction false} SumNonNegative(s: seq<Transaction>, f: Transaction -> int)
    ensures (forall t :: t in s ==> f(t) >= 0) ==> Sum(s, f) >= 0
  {
    if s != [] {
      SumNonNegative(s[1..], f);
      assert forall t :: t in s[1..] ==> t in s;
    }
  }

  /** t => t.Amount */
  function Amount(t: Transaction): (r: int)
  {
    t.amount
  }

  /** t => t.Type == Income ? t.Amount : -t.Amount */
  function SignedAmount(t: Transaction): (r: int)
  {
    if t.kind == Income then t.amount else -t.amount
  }

  lemma {:induction false} SumOfConcat(p: seq<Transaction>, q: seq<Transaction>, f: Transaction -> int)
    ensures Sum(p + q, f) == Sum(p, f) + Sum(q, f)
  {
    if p == [] {
      assert p + q == q;
    } else {
      assert (p + q)[1..] == p[1..] + q;
      SumOfConcat(p[1..], q, f);
    }
  }

  /** Taking one row out of a fold takes out its selected value. */
  lemma SumOfRemoveAt(b: seq<Transaction>, k: nat, f: Transaction -> int)
    requires k < |b|
    ensures Sum(b, f) == f(b[k]) + Sum(b[..k] + b[k + 1..], f)
  {
    assert b == b[..k] + b[k..];
    SumOfConcat(b[..k], b[k..], f);
    assert b[k..][1..] == b[k + 1..];
    assert Sum(b[k..], f) == f(b[k]) + Sum(b[k + 1..], f);
    SumOfConcat(b[..k], b[k + 1..], f);
  }

  /** Taking one row out of a sequence takes one occurrence out of its multiset. */
  lemma MultisetOfRemoveAt(b: seq<Transaction>, k: nat)
    requires k < |b|
    ensures multiset(b[..k] + b[k + 1..]) == multiset(b) - multiset{b[k]}
  {
    assert b == b[..k] + [b[k]] + b[k + 1..];
    assert multiset(b) == multiset(b[..k]) + multiset{b[k]} + multiset(b[k + 1..]);
  }

  /** A sum does not depend on the order of the rows it folds over. */
  lemma {:induction false} SumOfPermutation(a: seq<Transaction>, b: seq<Transaction>, f: Transaction -> int)
    requires multiset(a) == multiset(b)
    ensures Sum(a, f) == Sum(b, f)
    decreases |a|
  {
    if a == [] {
      assert |b| == |multiset(b)| == 0;
    } else {
      var x := a[0];
      assert x in multiset(b);
      var k :| 0 <= k < |b| && b[k] == x;
      SumOfRemoveAt(b, k, f);
      MultisetOfRemoveAt(b, k);
      assert a == [x] + a[1..];
      assert multiset(a[1..]) == multiset(a) - multiset{x};
      SumOfPermutation(a[1..], b[..k] + b[k + 1..], f);
    }
  }

  /** The signed sum is the income total minus the expense total minus the total of the rows
      whose Type is neither: the selector sends every Type other than Income to -Amount. */
  lemma {:induction false} SignedSumSplits(s: seq<Transaction>)
    ensures Sum(s, SignedAmount)
         == Sum(Where(s, OfKind(Income)), Amount) - Sum(Where(s, OfKind(Expense)), Amount)
            - Sum(Where(s, OfUndefinedKind), Amount)
  {
    if s != [] {
      SignedSumSplits(s[1..]);
      var inc, exp, odd := Where(s[1..], OfKind(Income)), Where(s[1..], OfKind(Expense)),
                           Where(s[1..], OfUndefinedKind);
      match s[0].kind
      case Income => assert ([s[0]] + inc)[1..] == inc;
      case Expense => assert ([s[0]] + exp)[1..] == exp;
      case Undefined(_) => assert ([s[0]] + odd)[1..] == odd;
    }
  }

  /** Every row a Where keeps is a row of its input that satisfies the condition. */
  lemma WhereWithin(s: seq<Transaction>, c: Condition)
    ensures forall t :: t in Where(s, c) ==> t in s && Holds(c, t)
  {
    WhereCounts(s, c);
  }

  /** When no row satisfies the condition, the selection is empty and sums to zero. */
  lemma {:induction false} SumWhereNoneHolds(s: seq<Transaction>, c: Condition, f: Transaction -> int)
    ensures (forall t :: t in s ==> !Holds(c, t)) ==> Where(s, c) == [] && Sum(Where(s, c), f) == 0
  {
    if s != [] {
      SumWhereNoneHolds(s[1..], c, f);
      assert forall t :: t in s[1..] ==> t in s;
    }
  }

  /** When every row a user owns has a defined Type, that user's rows of undefined Type sum to zero. */
  lemma OwnedRowsDefined(s: seq<Transaction>, u: string)
    ensures (forall t :: t in s && t.userId == u ==> !t.kind.Undefined?) ==>
              Sum(Where(Where(s, OwnedBy(u)), OfUndefinedKind), Amount) == 0
  {
    WhereWithin(s, OwnedBy(u));
    SumWhereNoneHolds(Where(s, OwnedBy(u)), OfUndefinedKind, Amount);
  }

  /** Appending a row extends a query by that row exactly when it satisfies the condition. */
  lemma {:induction false} WhereOfAppend(s: seq<Transaction>, x: Transaction, c: Condition)
    ensures Where(s + [x], c) == Where(s, c) + (if Holds(c, x) then [x] else [])
  {
    if s == [] {
      assert [] + [x] == [x];
      assert [x][1..] == [];
    } else {
      var tail := if Holds(c, x) then [x] else [];
      assert (s + [x])[0] == s[0];
      assert (s + [x])[1..] == s[1..] + [x];
      WhereOfAppend(s[1..], x, c);
      assert Where(s + [x], c) == (if Holds(c, s[0]) then [s[0]] else []) + Where(s[1..] + [x], c);
      assert Where(s, c) == (if Holds(c, s[0]) then [s[0]] else []) + Where(s[1..], c);
    }
  }

  /** A new row moves its owner's balance by its signed amount and no other user's balance. */
  lemma BalanceOfAppend(s: seq<Transaction>, x: Transaction, u: string)
    ensures Sum(Where(s + [x], OwnedBy(u)), SignedAmount)
         == Sum(Where(s, OwnedBy(u)), SignedAmount) + (if x.userId == u then SignedAmount(x) else 0)
  {
    WhereOfAppend(s, x, OwnedBy(u));
    var added := if x.userId == u then [x] else [];
    SumOfConcat(Where(s, OwnedBy(u)), added, SignedAmount);
    assert [x][1..] == [];
  }

  /** Replacing a row that satisfies the condition neither before nor after leaves the query as it was. */
  lemma {:induction false} WhereOfReplace(s: seq<Transaction>, i: nat, x: Transaction, c: Condition)
    requires i < |s|
    requires !Holds(c, s[i]) && !Holds(c, x)
    ensures Where(s[i := x], c) == Where(s, c)
  {
    if i > 0 {
      assert s[i := x][1..] == s[1..][i - 1 := x];
      WhereOfReplace(s[1..], i - 1, x, c);
    } else {
      assert s[i := x][1..] == s[1..];
    }
  }

  /** Removing a row that does not satisfy the condition leaves the query as it was. */
  lemma {:induction false} WhereOfRemove(s: seq<Transaction>, i: nat, c: Condition)
    requires i < |s|
    requires !Holds(c, s[i])
    ensures Where(s[..i] + s[i + 1..], c) == Where(s, c)
  {
    if i > 0 {
      assert (s[..i] + s[i + 1..])[1..] == s[1..][..i - 1] + s[1..][i..];
      assert (s[..i] + s[i + 1..])[0] == s[0];
      WhereOfRemove(s[1..], i - 1, c);
    } else {
      assert s[..i] + s[i + 1..] == s[1..];
    }
  }

  /** Removing the row at `i` from a table keyed by id keeps it keyed by id and drops
      exactly the rows carrying that row's id. */
  lemma RemoveAt(s: seq<Transaction>, i: nat)
    requires UniqueIds(s) && i < |s|
    ensures UniqueIds(s[..i] + s[i + 1..])
    ensures forall t :: t in s[..i] + s[i + 1..] <==> t in s && t.id != s[i].id
  {
  }

  /** FirstOrDefault(t => t.Id == id), by position: the first index holding that id, if any. */
  function FirstIndexOf(s: seq<Transaction>, id: string): (r: Option<nat>)
    ensures r.None? <==> forall j :: 0 <= j < |s| ==> s[j].id != id
    ensures r.Some? ==> r.value < |s| && s[r.value].id == id
    ensures r.Some? ==> forall j :: 0 <= j < r.value ==> s[j].id != id
  {
    if s == [] then None
    else if s[0].id == id then Some(0)
    else match FirstIndexOf(s[1..], id)
      case None => None
      case Some(k) => Some(k + 1)
  }

  /** The primary key: no two rows share an id. */
  predicate UniqueIds(s: seq<Transaction>)
  {
    forall i, j :: 0 <= i < j < |s| ==> s[i].id != s[j].id
  }

  /** The optional filters of the filtered query. */
  datatype DateFilter = DateFilter(
    startDate: Option<DateTime>,
    endDate: Option<DateTime>,
    month: Option<int>,
    year: Option<int>)

  const NoFilter := DateFilter(None, None, None, None)

  /** A creation time passes the filter when it meets every supplied bound or value. */
  predicate Admits(f: DateFilter, d: DateTime)
  {
    && (f.startDate.Some? ==> NotAfter(f.startDate.value, d))
    && (f.endDate.Some? ==> NotAfter(d, f.endDate.value))
    && (f.month.Some? ==> d.month == f.month.value)
    && (f.year.Some? ==> d.year == f.year.value)
  }

  /** `q` holds, with their multiplicities in `s`, exactly the rows of `u` whose creation
      time passes `f`. */
  ghost predicate Selects(q: seq<Transaction>, s: seq<Transaction>, u: string, f: DateFilter)
  {
    forall t :: multiset(q)[t] == if t.userId == u && Admits(f, t.createdAt) then multiset(s)[t] else 0
  }

  /** A date condition can narrow a filter that does not yet constrain its field. */
  predicate Narrowable(f: DateFilter, c: Condition)
  {
    match c
    case CreatedFrom(_) => f.startDate.None?
    case CreatedUntil(_) => f.endDate.None?
    case CreatedInMonth(_) => f.month.None?
    case CreatedInYear(_) => f.year.None?
    case _ => false
  }

  /** The filter that also demands the date condition `c`. */
  function Tighten(f: DateFilter, c: Condition): (r: DateFilter)
  {
    match c
    case CreatedFrom(d) => f.(startDate := Some(d))
    case CreatedUntil(d) => f.(endDate := Some(d))
    case CreatedInMonth(m) => f.(month := Some(m))
    case CreatedInYear(y) => f.(year := Some(y))
    case _ => f
  }

  /** The tightened filter admits a row exactly when the old filter does and the row meets `c`. */
  lemma TightenAdmits(f: DateFilter, c: Condition, t: Transaction)
    requires Narrowable(f, c)
    ensures Admits(Tighten(f, c), t.createdAt) == (Admits(f, t.createdAt) && Holds(c, t))
  {
  }

  /** Narrowing a selection by one more date condition selects by the tightened filter. */
  lemma NarrowSelection(q: seq<Transaction>, s: seq<Transaction>, u: string, f: DateFilter, c: Condition)
    requires Selects(q, s, u, f)
    requires Narrowable(f, c)
    ensures Selects(Where(q, c), s, u, Tighten(f, c))
  {
    WhereCounts(q, c);
    forall t: Transaction
      ensures multiset(Where(q, c))[t]
           == if t.userId == u && Admits(Tighten(f, c), t.createdAt) then multiset(s)[t] else 0
    {
      TightenAdmits(f, c, t);
    }
  }

  // ---------------------------------------------------------------------------
  // The service
  // ---------------------------------------------------------------------------

  class TransactionService {
    /** The Transactions table, in insertion order. */
    var rows: seq<Transaction>

    ghost predicate Valid()
      reads this
    {
      UniqueIds(rows)
    }

    constructor (initial: seq<Transaction>)
      requires UniqueIds(initial)
      ensures Valid() && rows == initial
    {
      rows := initial;
    }

    /** The caller's transactions, newest first: every stored row of that user, as often as
        stored, and nothing else. */
    function GetUserTransactions(userId: string): (r: seq<Transaction>)
      reads this
      ensures forall t :: multiset(r)[t] == if t.userId == userId then multiset(rows)[t] else 0
      ensures NewestFirst(r)
    {
      WhereCounts(rows, OwnedBy(userId));
      SortNewestFirst(Where(rows, OwnedBy(userId)))
    }

    /** The caller's transactions whose creation time passes every supplied filter, newest
        first. The query is narrowed one filter at a time. */
    method GetFilteredTransactions(userId: string, filter: DateFilter) returns (r: seq<Transaction>)
      ensures Selects(r, rows, userId, filter)
      ensures NewestFirst(r)
      ensures filter == NoFilter ==> r == GetUserTransactions(userId)
    {
      var query := Where(rows, OwnedBy(userId));
      WhereCounts(rows, OwnedBy(userId));
      ghost var passed := NoFilter;
      if filter.startDate.Some? {
        NarrowSelection(query, rows, userId, passed, CreatedFrom(filter.startDate.value));
        query := Where(query, CreatedFrom(filter.startDate.value));
        passed := Tighten(passed, CreatedFrom(filter.startDate.value));
      }
      if filter.endDate.Some? {
        NarrowSelection(query, rows, userId, passed, CreatedUntil(filter.endDate.value));
        query := Where(query, CreatedUntil(filter.endDate.value));
        passed := Tighten(passed, CreatedUntil(filter.endDate.value));
      }
      if filter.month.Some? {
        NarrowSelection(query, rows, userId, passed, CreatedInMonth(filter.month.value));
        query := Where(query, CreatedInMonth(filter.month.value));
        passed := Tighten(passed, CreatedInMonth(filter.month.value));
      }
      if filter.year.Some? {
        NarrowSelection(query, rows, userId, passed, CreatedInYear(filter.year.value));
        query := Where(query, CreatedInYear(filter.year.value));
        passed := Tighten(passed, CreatedInYear(filter.year.value));
      }
      assert passed == filter;
      assert filter == NoFilter ==> query == Where(rows, OwnedBy(userId));
      r := SortNewestFirst(query);
    }

    /** The caller's balance: Income counted positive, every other Type negative, over that
        user's rows only. It is the income total minus the expense total minus the total of
        rows of an undefined Type (which neither total counts), and zero for a user with no
        transactions. */
    function GetUserBalance(userId: string): (r: int)
      reads this
      ensures var owned := Where(rows, OwnedBy(userId));
              r == Sum(Where(owned, OfKind(Income)), Amount) - Sum(Where(owned, OfKind(Expense)), Amount)
                   - Sum(Where(owned, OfUndefinedKind), Amount)
      ensures (forall t :: t in rows && t.userId == userId ==> !t.kind.Undefined?) ==>
                var owned := Where(rows, OwnedBy(userId));
                r == Sum(Where(owned, OfKind(Income)), Amount) - Sum(Where(owned, OfKind(Expense)), Amount)
      ensures (forall t :: t in rows ==> t.userId != userId) ==> r == 0
    {
      var owned := Where(rows, OwnedBy(userId));
      SignedSumSplits(owned);
      OwnedRowsDefined(rows, userId);
      SumWhereNoneHolds(rows, OwnedBy(userId), SignedAmount);
      Sum(owned, SignedAmount)
    }

    /** The row with the given id, whoever owns it; None when there is none. */
    function GetTransaction(id: string): (r: Option<Transaction>)
      reads this
      ensures r.None? <==> forall t :: t in rows ==> t.id != id
      ensures r.Some? ==> r.value in rows && r.value.id == id
      ensures r.Some? && UniqueIds(rows) ==> forall t :: t in rows && t.id == id ==> t == r.value
    {
      match FirstIndexOf(rows, id)
      case None => None
      case Some(i) => Some(rows[i])
    }

    /** Adds the row and returns it as re-read from the table. A row whose id is already
        stored violates the primary key: nothing is stored and None is returned. */
    method CreateTransaction(t: Transaction) returns (r: Option<Transaction>)
      requires Valid()
      modifies this
      ensures Valid()
      ensures FirstIndexOf(old(rows), t.id).Some? ==> r == None && rows == old(rows)
      ensures FirstIndexOf(old(rows), t.id).None? ==> rows == old(rows) + [t] && r == Some(t)
      ensures forall v :: v != t.userId ==> Where(rows, OwnedBy(v)) == Where(old(rows), OwnedBy(v))
    {
      if FirstIndexOf(rows, t.id).Some? {
        return None;
      }
      ghost var before := rows;
      rows := rows + [t];
      forall v | v != t.userId
        ensures Where(rows, OwnedBy(v)) == Where(before, OwnedBy(v))
      {
        WhereOfAppend(before, t, OwnedBy(v));
      }
      assert rows[|before|] == t;
      r := GetTransaction(t.id);
    }

    /** Overwrites amount, description and type of the stored row with the same id and
        stamps its update time; id, owner and creation time stay. Fails, changing nothing,
        when no row has that id. */
    method UpdateTransaction(t: Transaction, now: DateTime) returns (ok: bool)
      requires Valid()
      modifies this
      ensures Valid()
      ensures ok == FirstIndexOf(old(rows), t.id).Some?
      ensures !ok ==> rows == old(rows)
      ensures ok ==>
        var i := FirstIndexOf(old(rows), t.id).value;
        rows == old(rows)[i := old(rows)[i].(amount := t.amount, description := t.description,
                                             kind := t.kind, updatedAt := Some(now))]
      ensures ok ==>
        var i := FirstIndexOf(old(rows), t.id).value;
        forall v :: v != old(rows)[i].userId ==> Where(rows, OwnedBy(v)) == Where(old(rows), OwnedBy(v))
    {
      match FirstIndexOf(rows, t.id)
      case None =>
        ok := false;
      case Some(i) =>
        ghost var before := rows;
        var existing := rows[i];
        var revised := existing.(amount := t.amount, description := t.description,
                                 kind := t.kind, updatedAt := Some(now));
        rows := rows[i := revised];
        forall v | v != existing.userId
          ensures Where(rows, OwnedBy(v)) == Where(before, OwnedBy(v))
        {
          WhereOfReplace(before, i, revised, OwnedBy(v));
        }
        ok := true;
    }

    /** Removes the row with the given id and no other. Fails, changing nothing, when no row
        has that id. */
    method DeleteTransaction(id: string) returns (ok: bool)
      requires Valid()
      modifies this
      ensures Valid()
      ensures ok == FirstIndexOf(old(rows), id).Some?
      ensures !ok ==> rows == old(rows)
      ensures ok ==>
        var i := FirstIndexOf(old(rows), id).value;
        rows == old(rows)[..i] + old(rows)[i + 1..]
      ensures forall t :: t in rows <==> t in old(rows) && t.id != id
      ensures ok ==>
        var i := FirstIndexOf(old(rows), id).value;
        forall v :: v != old(rows)[i].userId ==> Where(rows, OwnedBy(v)) == Where(old(rows), OwnedBy(v))
    {
      match FirstIndexOf(rows, id)
      case None =>
        ok := false;
      case Some(i) =>
        ghost var before := rows;
        var doomed := rows[i];
        rows := rows[..i] + rows[i + 1..];
        forall v | v != doomed.userId
          ensures Where(rows, OwnedBy(v)) == Where(before, OwnedBy(v))
        {
          WhereOfRemove(before, i, OwnedBy(v));
        }
        RemoveAt(before, i);
        ok := true;
    }
  }
}
