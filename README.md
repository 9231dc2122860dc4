# Expense tracker: transaction store, transaction endpoints and authentication

This project models the core of an ASP.NET Core expense-tracking backend. Users register and log in. Each user records Income and Expense transactions, and the API lists, filters, totals, updates and deletes them. Every query and mutation is scoped to the user named by the caller's identity claim.

Modules, one per source component:

- `Models` (Models.dfy): the entities. `Transaction` (the C# `Type` property is the field `kind`), `TransactionType` (Income, Expense, or `Undefined(code)` for any other enum value), `User`, `TransactionSummary`. `DateTime` is a `(year, month, day, ticks)` value ordered lexicographically by `NotAfter`.
- `Responses` (Responses.dfy): `ActionResult<T>`, one constructor per HTTP status the controllers produce. `IsNullOrEmpty` is the guard on the identity claim.
- `Services` (TransactionService.dfy): the query operators the service builds its LINQ queries from.
  - `Where` filters by a `Condition`.
  - `SortNewestFirst` is a stable insertion sort that models `OrderByDescending(CreatedAt)`.
  - `Sum` takes a selector, like LINQ's `Sum`.
  - `FirstIndexOf` models `FirstOrDefault` by id.
  - The class `TransactionService` holds the Transactions table as `rows: seq<Transaction>`. Its `Valid()` is the primary key: ids are unique.
  - The pure queries are functions that read the table. The filtered query and the three mutations are methods.
- `TransactionEndpoints` (TransactionController.dfy): the class `TransactionController`, with one method per endpoint over the service. It also holds the summary fold `Summarize`.
- `AuthEndpoints` (AuthController.dfy): the class `AuthController`.
  - It holds the Users table as `users: map<string, User>`, keyed by id.
  - Its `Valid()` says that every user is stored under its own id, and states the unique index on `Email` from `ApplicationDbContext`.
  - BCrypt and the JWT service are the function fields `hashPassword(password, salt)`, `verifyPassword(password, hash)` and `generateToken(id, email, role)`.
  - `HasherSound()` is the hypothesis that `verifyPassword(p, hashPassword(p, salt))` always holds.

Parameters stand for everything the source gets from its environment:

- `now` is the clock reading (`DateTime.UtcNow`).
- `newId` is the fresh Guid of a registered user.
- `salt` is BCrypt's random salt.
- `claim` is the NameIdentifier claim taken from the validated token.
- `modelStateValid` is the framework's `ModelState.IsValid`.

Facts about the program that the model follows:

- The start-after-end check is made in the controller (TransactionController.cs:71), before the service is called.
- Update overwrites the body's id with the route id (TransactionController.cs:203), and also its owner and creation time (lines 204-205).
- Email matching is exact string equality (AuthController.cs:64).
- Create keeps the body's `Id` and `UpdatedAt` and overwrites only `UserId` and `CreatedAt` (TransactionController.cs:162-163). A client-supplied id that is already stored makes the insert fail. `CreateTransaction` returns `None` for this, and the endpoint answers 500.
- Register inserts too (AuthController.cs:42-43). A `newId` that is already a key makes that insert fail (500), and nothing is stored.
- `Type` is a C# enum, so it holds any integer, not only Income (0) and Expense (1). Nothing checks the value before it is stored. The model carries the other values as `Undefined(code)`. For such a row the balance selector (TransactionService.cs:86, TransactionController.cs:128) counts -Amount, while neither the income total nor the expense total counts it. So the balance is the income total minus the expense total minus the total of those rows. It equals the plain difference when every row has a defined Type; in general, exactly when the rows of undefined Type total 0.

## Model

| member | source | states |
|---|---|---|
| `Models.NotAfterIsTotalOrder` | ExpenseTracker.API/Services/TransactionService.cs:27 | the timestamp order used for sorting and for the date bounds is reflexive, total, antisymmetric and transitive |
| `Services.Where` | ExpenseTracker.API/Services/TransactionService.cs:26 | a Where result is no longer than its input and every element satisfies the condition (WhereCounts states which elements it keeps) |
| `Services.WhereCounts` | ExpenseTracker.API/Services/TransactionService.cs:26 | Where keeps every element satisfying the condition, exactly as often as it occurs in the input, and nothing else |
| `Services.WhereOfPermutation` | ExpenseTracker.API/Controllers/TransactionController.cs:126-127 | filtering two orderings of the same rows selects the same multiset |
| `Services.InsertNewestFirst` | ExpenseTracker.API/Services/TransactionService.cs:27 | inserting into a newest-first list keeps it newest first and adds exactly that element |
| `Services.SortNewestFirst` | ExpenseTracker.API/Services/TransactionService.cs:27 | OrderByDescending(CreatedAt) returns a permutation of its input that is sorted newest first |
| `Services.SumNonNegative` | ExpenseTracker.API/Controllers/TransactionController.cs:126-127 | the LINQ Sum fold (`Services.Sum`) of a selector that is never negative on the rows is never negative |
| `Services.SumOfPermutation` | ExpenseTracker.API/Controllers/TransactionController.cs:126-128 | a Sum over rows does not depend on their order, so summing the sorted listing equals summing the table's rows |
| `Services.SignedSumSplits` | ExpenseTracker.API/Controllers/TransactionController.cs:126-128 | the signed sum with selector `SignedAmount` (Income +Amount, every other Type -Amount) equals the Income total minus the Expense total minus the total of the rows of undefined Type |
| `Services.WhereWithin` | ExpenseTracker.API/Services/TransactionService.cs:85 | every row a Where keeps is a row of its input satisfying the condition |
| `Services.OwnedRowsDefined` | ExpenseTracker.API/Services/TransactionService.cs:84-86 | when all of a user's rows have a defined Type, that user's rows of undefined Type sum to 0 |
| `Services.SumWhereNoneHolds` | ExpenseTracker.API/Services/TransactionService.cs:84-86 | for every input: when no row satisfies the condition, the selection is empty and its sum is 0 |
| `Services.WhereOfAppend` | ExpenseTracker.API/Services/TransactionService.cs:114 | adding a row extends a query by that row exactly when the row satisfies the query's condition |
| `Services.BalanceOfAppend` | ExpenseTracker.API/Services/TransactionService.cs:84-86 | a new row changes its owner's balance by its signed amount and leaves every other user's balance as it was |
| `Services.WhereOfReplace` | ExpenseTracker.API/Services/TransactionService.cs:142-145 | rewriting a row that belongs to neither side of a condition leaves that query unchanged |
| `Services.WhereOfRemove` | ExpenseTracker.API/Services/TransactionService.cs:168 | removing a row that does not satisfy a condition leaves that query unchanged |
| `Services.FirstIndexOf` | ExpenseTracker.API/Services/TransactionService.cs:99-101 | FirstOrDefault by id finds the first row holding the id, or reports that no row holds it |
| `Services.NarrowSelection` | ExpenseTracker.API/Services/TransactionService.cs:51-69 | each extra Where on the query narrows the selection to rows that also pass the added date bound or month/year value |
| `Services.RemoveAt` | ExpenseTracker.API/Services/TransactionService.cs:167-168 | removing one row keeps ids unique and drops exactly the rows carrying that row's id |
| `Services.TransactionService.GetUserTransactions` | ExpenseTracker.API/Services/TransactionService.cs:25-29 | the listing holds each of the user's rows exactly as often as stored, no row of another user, newest first |
| `Services.TransactionService.GetFilteredTransactions` | ExpenseTracker.API/Services/TransactionService.cs:47-71 | the result holds exactly the user's rows whose CreatedAt passes every supplied filter (>= start, <= end, month, year), newest first; with no filter it is the plain listing |
| `Services.TransactionService.GetUserBalance` | ExpenseTracker.API/Services/TransactionService.cs:84-86 | the balance over the user's rows is the Income total minus the Expense total minus the total of rows of undefined Type; it equals Income minus Expense whenever all the user's rows have a defined Type, and 0 for a user without rows |
| `Services.TransactionService.GetTransaction` | ExpenseTracker.API/Services/TransactionService.cs:99-101 | returns a stored row with that id, whoever owns it (the only one under the primary key), and None exactly when no row has the id |
| `Services.TransactionService.CreateTransaction` | ExpenseTracker.API/Services/TransactionService.cs:114-121 | appends the row and returns it as re-read; an id already stored changes nothing and fails; other users' rows are untouched |
| `Services.TransactionService.UpdateTransaction` | ExpenseTracker.API/Services/TransactionService.cs:134-147 | a missing id fails with the table unchanged; otherwise only Amount, Description, Type and UpdatedAt := now of that row change, and every other row is unchanged |
| `Services.TransactionService.DeleteTransaction` | ExpenseTracker.API/Services/TransactionService.cs:160-169 | a missing id fails with the table unchanged; otherwise exactly the row with that id is removed |
| `TransactionEndpoints.Summarize` | ExpenseTracker.API/Controllers/TransactionController.cs:124-129 | the summary's Balance equals TotalIncome minus TotalExpenses minus the total of rows of undefined Type, so it equals TotalIncome minus TotalExpenses whenever every Type is defined |
| `TransactionEndpoints.UndefinedTypeSkewsSummary` | ExpenseTracker.API/Controllers/TransactionController.cs:126-128 | a single row of undefined Type and Amount 5 gives totals 0 and 0 but Balance -5 |
| `TransactionEndpoints.SummaryAgreesWithBalance` | ExpenseTracker.API/Controllers/TransactionController.cs:123-129 | the summary's income and expense totals are those of the user's rows, and its Balance equals the balance endpoint's signed sum (TransactionService.cs:86) |
| `TransactionEndpoints.TransactionController.GetTransactions` | ExpenseTracker.API/Controllers/TransactionController.cs:36-44 | Unauthorized for a missing or empty claim, otherwise the caller's newest-first listing |
| `TransactionEndpoints.TransactionController.GetFilteredTransactions` | ExpenseTracker.API/Controllers/TransactionController.cs:65-78 | Unauthorized for a missing claim; BadRequest when both dates are given and start is after end; otherwise Ok with exactly the caller's rows passing the filters, newest first |
| `TransactionEndpoints.TransactionController.GetBalance` | ExpenseTracker.API/Controllers/TransactionController.cs:94-101 | Unauthorized for a missing claim, otherwise the caller's balance |
| `TransactionEndpoints.TransactionController.GetSummary` | ExpenseTracker.API/Controllers/TransactionController.cs:117-131 | Unauthorized for a missing claim; otherwise the Income and Expense totals of the caller's rows and a Balance equal to the balance endpoint's value, which is their difference minus the rows of undefined Type (their difference whenever all the caller's rows have a defined Type); both totals are non-negative when no stored Amount is negative |
| `TransactionEndpoints.TransactionController.CreateTransaction` | ExpenseTracker.API/Controllers/TransactionController.cs:150-168 | Unauthorized or BadRequest with nothing stored; otherwise the body is stored with UserId = caller and CreatedAt = now, whatever the body supplied; no other user's rows change |
| `TransactionEndpoints.TransactionController.UpdateTransaction` | ExpenseTracker.API/Controllers/TransactionController.cs:186-209 | NoContent exactly when a row with the id exists and belongs to the caller; then it takes amount, description and type from the body, UpdatedAt = now, and keeps id, UserId and CreatedAt; with a valid claim and body, an absent row and another user's row both give NotFound("Transaction not found"); every outcome other than NoContent changes nothing |
| `TransactionEndpoints.TransactionController.DeleteTransaction` | ExpenseTracker.API/Controllers/TransactionController.cs:226-239 | NoContent exactly when a row with the id exists and belongs to the caller, and then exactly that row is removed; an absent or foreign row gives NotFound and the table, that row included, is unchanged |
| `AuthEndpoints.FindByEmail` | ExpenseTracker.API/Controllers/AuthController.cs:64 | finds the user with the email when there is one; under the unique index that user is the only candidate |
| `AuthEndpoints.InsertKeepsInvariants` | ExpenseTracker.API/Data/ApplicationDbContext.cs:23-25 | inserting a user with a new key and a new email keeps the keys and the unique email index consistent |
| `AuthEndpoints.AuthController.Register` | ExpenseTracker.API/Controllers/AuthController.cs:27-58 | a taken email gives BadRequest with the table unchanged; otherwise exactly one user is added with the request's email and names, Role "User" and the password's hash; the answer carries the token for (id, email, role) and the public fields only; email uniqueness is kept; a login with the same email and password then returns a token for the same (id, email, role) and the same public fields |
| `AuthEndpoints.AuthController.Login` | ExpenseTracker.API/Controllers/AuthController.cs:64-84 | succeeds exactly when a user with the email exists and the password verifies against its hash, returning that user's token and public fields; an unknown email and a wrong password give the identical Unauthorized("Invalid email or password"); the table is not changed |
| `AuthEndpoints.AuthController.GetProfile` | ExpenseTracker.API/Controllers/AuthController.cs:91-110 | Unauthorized for a missing or empty claim, NotFound when the id is not stored, and Ok with the public fields of the caller's own record whenever it is stored; the table is not changed |

## Left out

- Program.cs is out of scope: dependency injection, JWT bearer validation (issuer, audience, lifetime, signing key), CORS and Swagger. The identity claim reaches the endpoints as a parameter. The floating-point WeatherForecast code there is not modelled either.
- BCrypt hashing and JwtService token generation are function values with no properties beyond `HasherSound`. The JwtService source is not part of this model.
- ApplicationDbContext is modelled only through the table invariants: unique transaction ids and unique user emails. The index on Transactions.UserId is a performance matter. No code enforces that a transaction's owner exists, so this model does not state it.
- ModelState validation (`[Required]`, `[EmailAddress]`) is the boolean `modelStateValid`, checked where the action body checks it. Under `[ApiController]` the framework answers 400 before the action runs, so in the source an empty claim with an invalid body gets 400, where the model answers Unauthorized. Register's body has no such check, so its automatic framework validation is not modelled.
- Logging, async/await and the catch-all 500 handlers are left out. The only 500s modelled are the failed inserts listed above. Each request is one sequential step, so the fetch-then-write race between concurrent update and delete requests is not modelled.
- `Undefined(code)` is not restricted to codes other than 0 and 1. The model never builds such a value, and nothing in it depends on the code.
- Amounts are unbounded integers. Decimal overflow and precision are not modelled.
- Update reads the clock twice in the source (once in the controller, once in the service). The model uses a single `now` for both.
- Services.TransactionService.UpdateTransaction: the controller always calls it on an existing id, so the exception path (500) for a missing id cannot be reached through the controller. The service method still models that path.
- Services.SortNewestFirst: only sortedness and permutation are stated. The database does not promise the insertion-order tie-break that the stable sort gives, so the order among equal CreatedAt values is not stated.
- DateTime is not checked for calendar validity. A month filter outside 1-12 simply matches nothing, as in the source.
