/** The transaction endpoints. Every endpoint first rejects a missing or empty identity
    claim; update and delete then fetch the row and compare its owner with the caller, so
    that another user's row is reported as not found and left as it is. */
module TransactionEndpoints {
  import opened Models
  import opened Responses
  import opened Services

  const StartAfterEnd := "Start date cannot be after end date"
  const TransactionNotFound := "Transaction not found"
  /** Stands for the validation dictionary that `BadRequest(ModelState)` returns. */
  const InvalidBody := "The request body failed validation"
  const CreateFailed := "An error occurred while creating the transaction"

  /** The three folds of the summary endpoint over a list of transactions. */
  function Summarize(ts: seq<Transaction>): (r: TransactionSummary)
    ensures r.balance == r.totalIncome - r.totalExpenses - Sum(Where(ts, OfUndefinedKind), Amount)
    ensures (forall t :: t in ts ==> !t.kind.Undefined?) ==> r.balance == r.totalIncome - r.totalExpenses
  {
    SignedSumSplits(ts);
    SumWhereNoneHolds(ts, OfUndefinedKind, Amount);
    TransactionSummary(
      Sum(Where(ts, OfKind(Income)), Amount),
      Sum(Where(ts, OfKind(Expense)), Amount),
      Sum(ts, SignedAmount))
  }

  /** A row whose Type is neither Income nor Expense counts in the Balance, as -Amount, and in
      neither total. */
  lemma UndefinedTypeSkewsSummary()
    ensures var t := Transaction("t1", "u1", 5, "d", Undefined(2), DateTime(2024, 1, 1, 0), None);
            var summary := Summarize([t]);
            && summary.totalIncome == 0 && summary.totalExpenses == 0 && summary.balance == -5
            && summary.balance != summary.totalIncome - summary.totalExpenses
  {
    var t := Transaction("t1", "u1", 5, "d", Undefined(2), DateTime(2024, 1, 1, 0), None);
    assert [t][1..] == [];
  }

  /** The summary of a user's listing has the income and expense totals of that user's rows,
      and its balance is the one the balance endpoint reports: the listing's order does not
      change any of the sums. */
  lemma SummaryAgreesWithBalance(service: TransactionService, userId: string)
    ensures var owned := Where(service.rows, OwnedBy(userId));
            var summary := Summarize(service.GetUserTransactions(userId));
            && summary.totalIncome == Sum(Where(owned, OfKind(Income)), Amount)
            && summary.totalExpenses == Sum(Where(owned, OfKind(Expense)), Amount)
            && summary.balance == service.GetUserBalance(userId)
  {
    var owned := Where(service.rows, OwnedBy(userId));
    var listed := service.GetUserTransactions(userId);
    WhereCounts(service.rows, OwnedBy(userId));
    assert multiset(listed) == multiset(owned);
    SumOfPermutation(listed, owned, SignedAmount);
    SignedSumSplits(owned);
    WhereOfPermutation(listed, owned, OfKind(Income));
    SumOfPermutation(Where(listed, OfKind(Income)), Where(owned, OfKind(Income)), Amount);
    WhereOfPermutation(listed, owned, OfKind(Expense));
    SumOfPermutation(Where(listed, OfKind(Expense)), Where(owned, OfKind(Expense)), Amount);
  }

  class TransactionController {
    const service: TransactionService

    constructor (service: TransactionService)
      ensures this.service == service
    {
      this.service := service;
    }

    /** GET: the caller's transactions, newest first. */
    method GetTransactions(claim: Option<string>) returns (r: ActionResult<seq<Transaction>>)
      ensures IsNullOrEmpty(claim) ==> r == Unauthorized(NotAuthenticated)
      ensures !IsNullOrEmpty(claim) ==> r == Ok(service.GetUserTransactions(claim.value))
    {
      if IsNullOrEmpty(claim) {
        return Unauthorized(NotAuthenticated);
      }
      r := Ok(service.GetUserTransactions(claim.value));
    }

    /** GET filter: rejects a start date after the end date; otherwise the caller's
        transactions passing every supplied filter, newest first. */
    method GetFilteredTransactions(claim: Option<string>, startDate: Option<DateTime>,
                                   endDate: Option<DateTime>, month: Option<int>, year: Option<int>)
      returns (r: ActionResult<seq<Transaction>>)
      ensures IsNullOrEmpty(claim) ==> r == Unauthorized(NotAuthenticated)
      ensures (!IsNullOrEmpty(claim) && startDate.Some? && endDate.Some?
               && After(startDate.value, endDate.value)) ==> r == BadRequest(StartAfterEnd)
      ensures (!IsNullOrEmpty(claim) && !(startDate.Some? && endDate.Some?
               && After(startDate.value, endDate.value))) ==> r.Ok?
      ensures r.Ok? || r == Unauthorized(NotAuthenticated) || r == BadRequest(StartAfterEnd)
      ensures r.Ok? ==>
                && !IsNullOrEmpty(claim)
                && Selects(r.value, service.rows, claim.value, DateFilter(startDate, endDate, month, year))
                && NewestFirst(r.value)
    {
      if IsNullOrEmpty(claim) {
        return Unauthorized(NotAuthenticated);
      }
      if startDate.Some? && endDate.Some? && After(startDate.value, endDate.value) {
        return BadRequest(StartAfterEnd);
      }
      var transactions := service.GetFilteredTransactions(claim.value, DateFilter(startDate, endDate, month, year));
      r := Ok(transactions);
    }

    /** GET balance: the caller's signed sum. */
    method GetBalance(claim: Option<string>) returns (r: ActionResult<int>)
      ensures IsNullOrEmpty(claim) ==> r == Unauthorized(NotAuthenticated)
      ensures !IsNullOrEmpty(claim) ==> r == Ok(service.GetUserBalance(claim.value))
    {
      if IsNullOrEmpty(claim) {
        return Unauthorized(NotAuthenticated);
      }
      r := Ok(service.GetUserBalance(claim.value));
    }

    /** GET summary: the caller's income total, expense total and their difference, which is
        the balance the balance endpoint reports. */
    method GetSummary(claim: Option<string>) returns (r: ActionResult<TransactionSummary>)
      ensures IsNullOrEmpty(claim) ==> r == Unauthorized(NotAuthenticated)
      ensures !IsNullOrEmpty(claim) ==>
                var owned := Where(service.rows, OwnedBy(claim.value));
                && r.Ok?
                && r.value.totalIncome == Sum(Where(owned, OfKind(Income)), Amount)
                && r.value.totalExpenses == Sum(Where(owned, OfKind(Expense)), Amount)
                && r.value.balance == r.value.totalIncome - r.value.totalExpenses
                                      - Sum(Where(owned, OfUndefinedKind), Amount)
                && r.value.balance == service.GetUserBalance(claim.value)
      ensures !IsNullOrEmpty(claim) && (forall t :: t in service.rows && t.userId == claim.value ==> !t.kind.Undefined?) ==>
                r.Ok? && r.value.balance == r.value.totalIncome - r.value.totalExpenses
      ensures !IsNullOrEmpty(claim) && (forall t :: t in service.rows ==> t.amount >= 0) ==>
                r.Ok? && r.value.totalIncome >= 0 && r.value.totalExpenses >= 0
    {
      if IsNullOrEmpty(claim) {
        return Unauthorized(NotAuthenticated);
      }
      var transactions := service.GetUserTransactions(claim.value);
      SummaryAgreesWithBalance(service, claim.value);
      var owned := Where(service.rows, OwnedBy(claim.value));
      WhereWithin(service.rows, OwnedBy(claim.value));
      WhereWithin(owned, OfKind(Income));
      WhereWithin(owned, OfKind(Expense));
      SumNonNegative(Where(owned, OfKind(Income)), Amount);
      SumNonNegative(Where(owned, OfKind(Expense)), Amount);
      r := Ok(Summarize(transactions));
    }

    /** POST: stores the body as the caller's, created now, whatever owner and creation time
        the body carried. A body whose id is already stored is not stored (500). */
    method CreateTransaction(claim: Option<string>, modelStateValid: bool, body: Transaction, now: DateTime)
      returns (r: ActionResult<Transaction>)
      requires service.Valid()
      modifies service
      ensures service.Valid()
      ensures IsNullOrEmpty(claim) ==> r == Unauthorized(NotAuthenticated) && service.rows == old(service.rows)
      ensures !IsNullOrEmpty(claim) && !modelStateValid ==>
                r == BadRequest(InvalidBody) && service.rows == old(service.rows)
      ensures !IsNullOrEmpty(claim) && modelStateValid ==>
                var stamped := body.(userId := claim.value, createdAt := now);
                if FirstIndexOf(old(service.rows), body.id).None?
                then r == Created(stamped) && service.rows == old(service.rows) + [stamped]
                else r == InternalError(CreateFailed) && service.rows == old(service.rows)
      ensures r.Created? ==> r.value.userId == claim.value && r.value.createdAt == now
      ensures !IsNullOrEmpty(claim) ==>
                forall v :: v != claim.value ==> Where(service.rows, OwnedBy(v)) == Where(old(service.rows), OwnedBy(v))
    {
      if IsNullOrEmpty(claim) {
        return Unauthorized(NotAuthenticated);
      }
      if !modelStateValid {
        return BadRequest(InvalidBody);
      }
      var transaction := body.(userId := claim.value, createdAt := now);
      var created := service.CreateTransaction(transaction);
      match created
      case None =>
        r := InternalError(CreateFailed);
      case Some(t) =>
        r := Created(t);
    }

    /** PUT: when the row exists and belongs to the caller, takes amount, description and
        type from the body and stamps the update time; the row keeps its id, owner and creation
        time. An absent row and another user's row both give NotFound and change nothing. */
    method UpdateTransaction(claim: Option<string>, modelStateValid: bool, id: string, body: Transaction, now: DateTime)
      returns (r: ActionResult<()>)
      requires service.Valid()
      modifies service
      ensures service.Valid()
      ensures r == NoContent || r == Unauthorized(NotAuthenticated) || r == BadRequest(InvalidBody)
              || r == NotFound(TransactionNotFound)
      ensures r != NoContent ==> service.rows == old(service.rows)
      ensures IsNullOrEmpty(claim) ==> r == Unauthorized(NotAuthenticated)
      ensures !IsNullOrEmpty(claim) && !modelStateValid ==> r == BadRequest(InvalidBody)
      ensures !IsNullOrEmpty(claim) && modelStateValid ==>
                (r == NoContent <==> exists t :: t in old(service.rows) && t.id == id && t.userId == claim.value)
      ensures !IsNullOrEmpty(claim) && modelStateValid && r != NoContent ==> r == NotFound(TransactionNotFound)
      ensures r == NoContent ==>
                var i := FirstIndexOf(old(service.rows), id).value;
                && old(service.rows)[i].userId == claim.value
                && service.rows == old(service.rows)[i := old(service.rows)[i].(
                     amount := body.amount, description := body.description,
                     kind := body.kind, updatedAt := Some(now))]
      ensures !IsNullOrEmpty(claim) ==>
                forall v :: v != claim.value ==> Where(service.rows, OwnedBy(v)) == Where(old(service.rows), OwnedBy(v))
    {
      if IsNullOrEmpty(claim) {
        return Unauthorized(NotAuthenticated);
      }
      if !modelStateValid {
        return BadRequest(InvalidBody);
      }
      var existing := service.GetTransaction(id);
      if existing.None? || existing.value.userId != claim.value {
        return NotFound(TransactionNotFound);
      }
      var transaction := body.(id := id, userId := claim.value,
                               createdAt := existing.value.createdAt, updatedAt := Some(now));
      var ok := service.UpdateTransaction(transaction, now);
      assert ok;
      r := NoContent;
    }

    /** DELETE: removes the row when it exists and belongs to the caller. An absent row and
        another user's row both give NotFound, and the row stays stored. */
    method DeleteTransaction(claim: Option<string>, id: string) returns (r: ActionResult<()>)
      requires service.Valid()
      modifies service
      ensures service.Valid()
      ensures r == NoContent || r == Unauthorized(NotAuthenticated) || r == NotFound(TransactionNotFound)
      ensures r != NoContent ==> service.rows == old(service.rows)
      ensures IsNullOrEmpty(claim) ==> r == Unauthorized(NotAuthenticated)
      ensures !IsNullOrEmpty(claim) ==>
                (r == NoContent <==> exists t :: t in old(service.rows) && t.id == id && t.userId == claim.value)
      ensures !IsNullOrEmpty(claim) && r != NoContent ==> r == NotFound(TransactionNotFound)
      ensures r == NoContent ==>
                var i := FirstIndexOf(old(service.rows), id).value;
                && old(service.rows)[i].userId == claim.value
                && service.rows == old(service.rows)[..i] + old(service.rows)[i + 1..]
                && forall t :: t in service.rows <==> t in old(service.rows) && t.id != id
      ensures !IsNullOrEmpty(claim) ==>
                forall v :: v != claim.value ==> Where(service.rows, OwnedBy(v)) == Where(old(service.rows), OwnedBy(v))
    {
      if IsNullOrEmpty(claim) {
        return Unauthorized(NotAuthenticated);
      }
      var transaction := service.GetTransaction(id);
      if transaction.None? || transaction.value.userId != claim.value {
        return NotFound(TransactionNotFound);
      }
      var ok := service.DeleteTransaction(id);
      assert ok;
      r := NoContent;
    }
  }
}
