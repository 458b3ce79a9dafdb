# Transfer ledger

A model of the fund-transfer core of a personal-finance ledger. Users hold
statements (DEPOSIT, WITHDRAW, TRANSFER); a user's balance is never stored
but folded over their statements. `TransferStatementUseCase.execute` checks
that the sender exists, that the destination exists and that the amount
does not exceed the sender's balance, in that order, and then appends two
records to the statement store: a WITHDRAW on the sender described as
`"Transfered to " + destination name`, and a TRANSFER on the destination
carrying the caller's description and the sender's id.

Layout:

- `wrappers.dfy`: `Option` and `Outcome` (success, or a typed error).
- `transfer_errors.dfy`: the two transfer errors, their message and status.
- `statements.dfy`: statements, the balance fold, a reference definition
  (credits minus debits), and the ledger total.
- `repositories.dfy`: the users store (id to user) and the append-only
  statement store as classes.
- `transfer_statement.dfy`: the request, the two transfer legs, the use case
  class with `Execute`, and the balance lemmas about a transfer.
- `transfer_scenarios.dfy`: the use case's test scenarios, as client methods
  that build stores, call `Execute` and state what results.

The use case reads the request field `sender_user_id`, and so does the
model. The unit tests pass a field named `send_user_id` in all four
transfer tests, so under the code as written the use case never receives a
sender id: every one of those tests reaches the sender check and raises
`UserNotFoundError`. For the two "not found" tests this is the error they
expect. The success test could therefore not observe 900 and 100, and the
out-of-funds test would pass, since its `toEqual` compares message and
status, which the two errors share, and not the class. The scenario
methods `TransferScenarios.TransferScenario` and
`TransferScenarios.OutOfFundScenario` model those two tests as intended:
the sender id is passed in the field the use case reads. The model keeps
the two errors as distinct values, which the tests cannot tell apart.

The code never checks that an amount is positive, so a zero or negative
amount passes the funds check whenever it does not exceed the sender's
balance, in particular whenever that balance is non-negative. A negative
amount then takes money from the destination, and nothing checks the
destination's funds, so a transfer can push the destination below zero.
The funds check rejects only `amount > balance`, so between distinct users
an amount equal to the balance succeeds and leaves the sender at zero; a
transfer to oneself leaves that user's balance as it was. The two appends
run with no transaction around them.

The repository's source is not among the files modelled;
`Statements.Balance` follows the rule the tests fix. That a DEPOSIT
adds and a WITHDRAW subtracts is fixed by the balance and create-statement
tests; that a TRANSFER record adds to its owner's balance is taken from
the intended result of the transfer test, where the destination holds 100
from the incoming transfer alone.

## Model

| member | source | states |
|---|---|---|
| TransferErrors.TransferStatementError.Message | src/modules/statements/useCases/transferStatement/TransferStatementsError.ts:4-14 | defines the message each error hands to the application error: "User not found" for both kinds |
| TransferErrors.TransferStatementError.StatusCode | src/modules/statements/useCases/transferStatement/TransferStatementsError.ts:4-14 | defines the status code each error hands to the application error: 404 for both kinds |
| Statements.Signed | src/modules/statements/useCases/transferStatement/TransferStatementUseCase.ts:33-36 | defines a statement's effect on its owner's balance: DEPOSIT and TRANSFER add the amount, WITHDRAW subtracts it |
| Statements.Balance | src/modules/statements/useCases/transferStatement/TransferStatementUseCase.ts:33-36 | defines the balance query the funds check consults: the fold of the effects of the user's own statements |
| TransferStatement.TransferLegs | src/modules/statements/useCases/transferStatement/TransferStatementUseCase.ts:42-55 | defines the two records a transfer appends, in order: a WITHDRAW on the sender described "Transfered to " + destination name, then a TRANSFER on the destination with the caller's description and the sender's id |
| TransferErrors.ErrorsDifferOnlyByKind | src/modules/statements/useCases/transferStatement/TransferStatementsError.ts:3-15 | both errors carry message "User not found" and status 404; two errors are equal exactly when they are of the same kind |
| Statements.BalanceIsCreditsMinusDebits | src/modules/statements/useCases/getBalance/GetBalanceUseCase.spec.ts:40-62 | the balance fold equals the user's DEPOSIT and TRANSFER amounts minus their WITHDRAW amounts |
| Statements.BalanceOfConcat | src/modules/statements/useCases/createStatement/CreateStatementUseCase.spec.ts:75-102 | appending records to the store adds their balance to the user's balance, which is how a deposit then a withdrawal yield their difference |
| Statements.TotalBalanceOfConcat | src/modules/statements/useCases/transferStatement/TransferStatementUseCase.ts:42-55 | appending records to the store adds their signed total to the store's total |
| Statements.DepositsAndWithdrawalExample | src/modules/statements/useCases/getBalance/GetBalanceUseCase.spec.ts:40-62 | deposits of 100 and 70 and a withdrawal of 25 give a balance of 145 |
| Repositories.UsersRepository.FindById | src/modules/statements/useCases/transferStatement/TransferStatementUseCase.ts:19-31 | a lookup finds a user exactly when the id is registered, and the user found has that id |
| Repositories.StatementsRepository.Create | src/modules/statements/useCases/transferStatement/TransferStatementUseCase.ts:42-55 | creating a statement appends exactly that record and leaves the earlier records untouched |
| Repositories.StatementsRepository.GetUserBalance | src/modules/statements/useCases/transferStatement/TransferStatementUseCase.ts:33-36 | the balance query returns the user's credits minus their debits |
| TransferStatement.BalanceAfterTransfer | src/modules/statements/useCases/transferStatement/TransferStatementUseCase.ts:42-55 | after the two legs are appended, every user's balance moves by minus the amount if they sent and plus the amount if they received |
| TransferStatement.TransferMovesAmount | src/modules/statements/useCases/transferStatement/TransferStatementUseCase.spec.ts:69-93 | between distinct users the sender loses the amount, the destination gains it, and every other balance is unchanged |
| TransferStatement.SelfTransferIsNeutral | src/modules/statements/useCases/transferStatement/TransferStatementUseCase.ts:19-55 | a transfer to oneself, which nothing rejects, leaves every balance unchanged |
| TransferStatement.TransferKeepsSenderSolvent | src/modules/statements/useCases/transferStatement/TransferStatementUseCase.ts:33-40 | when the amount does not exceed a non-negative sender balance, the sender's balance stays non-negative after the transfer |
| TransferStatement.NegativeTransferDrainsDestination | src/modules/statements/useCases/transferStatement/TransferStatementUseCase.ts:33-55 | between distinct users a negative amount, which passes the funds check whenever it does not exceed the sender's balance, lowers the destination's balance and drives it below zero when it exceeds what the destination holds |
| TransferStatement.TransferConservesTotal | src/modules/statements/useCases/transferStatement/TransferStatementUseCase.ts:42-55 | a transfer leaves the total held in the store unchanged |
| TransferStatement.TransferStatementUseCase.constructor | src/modules/statements/useCases/transferStatement/TransferStatementUseCase.ts:10-14 | the use case keeps the two stores it is given |
| TransferStatement.TransferStatementUseCase.Execute | src/modules/statements/useCases/transferStatement/TransferStatementUseCase.ts:16-56 | unknown sender, then unknown destination, give UserNotFoundError; then amount > sender balance gives OutOfFundError; any failure leaves the store unchanged; success happens exactly when all three checks pass, appends the WITHDRAW then the TRANSFER leg, and moves each balance by its share |
| TransferScenarios.UnknownUsersScenario | src/modules/statements/useCases/transferStatement/TransferStatementUseCase.spec.ts:34-54 | with neither user registered the transfer fails with UserNotFoundError |
| TransferScenarios.TransferScenario | src/modules/statements/useCases/transferStatement/TransferStatementUseCase.spec.ts:56-94 | after a deposit of 1000 and a transfer of 100 the sender holds 900 and the destination 100 |
| TransferScenarios.OutOfFundScenario | src/modules/statements/useCases/transferStatement/TransferStatementUseCase.spec.ts:96-124 | after a deposit of 200 a transfer of 300 fails with OutOfFundError and appends nothing |

## Left out

- The HTTP controller, request routing, authentication and dependency-injection container: framework glue, not ledger logic.
- The create-statement, get-balance and get-statement-operation use cases, and the users use cases: their sources are not part of this model. Their tests also pin down rejections of their own (insufficient funds on a withdrawal, a missing statement); the only part of them this model uses is the balance rule, which `Statements.Balance` models.
- Statement ids, creation timestamps and user ids' generation: opaque values produced by the persistence layer.
- Asynchrony, concurrency, store failures and atomicity: `execute` is modelled as one sequential method, and the source has no transaction around its two appends.
- The persistence layer itself: the stores are modelled as an in-memory map and sequence, as in the tests' in-memory repositories.
- Amounts are unbounded integers, not JavaScript floating-point numbers; as in the source, a negative or zero amount is not rejected.
