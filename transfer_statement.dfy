/** The transfer use case: validate the sender, the destination and the
    sender's funds, in that order, then append a withdrawal on the sender
    and an incoming transfer on the destination. */
module TransferStatement {
  import opened Wrappers
  import opened Statements
  import opened TransferErrors
  import opened Repositories

  datatype TransferStatementRequest = TransferStatementRequest(
    senderUserId: UserId,
    destinationUserId: UserId,
    amount: int,
    description: string)

  /** The two records a successful transfer appends, in this order: the
      sender's withdrawal, named after the destination, then the
      destination's incoming transfer, which records who sent it. */
  function TransferLegs(request: TransferStatementRequest, destination: User): (legs: seq<Statement>) {
    [Statement(request.senderUserId, request.amount, Withdraw, "Transfered to " + destination.name, None),
     Statement(destination.id, request.amount, Transfer, request.description, Some(request.senderUserId))]
  }

  /** How much a transfer moves into `user`'s balance: minus the amount for
      the sender, plus the amount for the destination, both for a user who
      sends to themself. */
  function TransferDelta(request: TransferStatementRequest, destination: User, user: UserId): (delta: int) {
    (if user == destination.id then request.amount else 0)
    - (if user == request.senderUserId then request.amount else 0)
  }

  /** After the two legs are appended, each balance moves by exactly its
      share of the transfer. */
  lemma BalanceAfterTransfer(ledger: seq<Statement>, request: TransferStatementRequest,
                             destination: User, user: UserId)
    ensures Balance(ledger + TransferLegs(request, destination), user)
         == Balance(ledger, user) + TransferDelta(request, destination, user)
  {
    var legs := TransferLegs(request, destination);
    assert legs == [legs[0]] + [legs[1]];
    BalanceOfConcat([legs[0]], [legs[1]], user);
    BalanceOfConcat(ledger, legs, user);
  }

  /** Between distinct users the sender loses the amount, the destination
      gains it, and no one else is affected. */
  lemma TransferMovesAmount(ledger: seq<Statement>, request: TransferStatementRequest,
                            destination: User, user: UserId)
    requires request.senderUserId != destination.id
    ensures user == request.senderUserId ==>
      Balance(ledger + TransferLegs(request, destination), user) == Balance(ledger, user) - request.amount
    ensures user == destination.id ==>
      Balance(ledger + TransferLegs(request, destination), user) == Balance(ledger, user) + request.amount
    ensures user != request.senderUserId && user != destination.id ==>
      Balance(ledger + TransferLegs(request, destination), user) == Balance(ledger, user)
  {
    BalanceAfterTransfer(ledger, request, destination, user);
  }

  /** Sending to oneself appends a withdrawal and a transfer of the same
      amount, so every balance is unchanged. */
  lemma SelfTransferIsNeutral(ledger: seq<Statement>, request: TransferStatementRequest,
                              destination: User, user: UserId)
    requires request.senderUserId == destination.id
    ensures Balance(ledger + TransferLegs(request, destination), user) == Balance(ledger, user)
  {
    BalanceAfterTransfer(ledger, request, destination, user);
  }

  /** A transfer that passes the funds check never drives a non-negative
      sender balance below zero. */
  lemma TransferKeepsSenderSolvent(ledger: seq<Statement>, request: TransferStatementRequest,
                                   destination: User)
    requires 0 <= Balance(ledger, request.senderUserId)
    requires request.amount <= Balance(ledger, request.senderUserId)
    ensures 0 <= Balance(ledger + TransferLegs(request, destination), request.senderUserId)
  {
    BalanceAfterTransfer(ledger, request, destination, request.senderUserId);
  }

  /** Nothing checks the sign of the amount or the destination's funds: a
      negative amount, which passes the funds check whenever it does not
      exceed the sender's balance, takes money from the destination and can
      leave the destination below zero. */
  lemma NegativeTransferDrainsDestination(ledger: seq<Statement>, request: TransferStatementRequest,
                                          destination: User)
    requires request.senderUserId != destination.id
    requires request.amount < 0
    ensures Balance(ledger + TransferLegs(request, destination), destination.id)
          < Balance(ledger, destination.id)
    ensures Balance(ledger, destination.id) < -request.amount ==>
      Balance(ledger + TransferLegs(request, destination), destination.id) < 0
  {
    BalanceAfterTransfer(ledger, request, destination, destination.id);
  }

  /** A transfer creates and destroys no money: the ledger's total is
      unchanged. */
  lemma TransferConservesTotal(ledger: seq<Statement>, request: TransferStatementRequest,
                               destination: User)
    ensures TotalBalance(ledger + TransferLegs(request, destination)) == TotalBalance(ledger)
  {
    var legs := TransferLegs(request, destination);
    assert legs == [legs[0]] + [legs[1]];
    TotalBalanceOfConcat([legs[0]], [legs[1]]);
    TotalBalanceOfConcat(ledger, legs);
  }

  class TransferStatementUseCase {
    const usersRepository: UsersRepository
    const statementsRepository: StatementsRepository

    constructor (usersRepository: UsersRepository, statementsRepository: StatementsRepository)
      ensures this.usersRepository == usersRepository
      ensures this.statementsRepository == statementsRepository
    {
      this.usersRepository := usersRepository;
      this.statementsRepository := statementsRepository;
    }

    /** Performs the transfer described by `request`. On failure the
        statement store is unchanged; on success it has grown by exactly the
        two transfer legs and every balance has moved by its share. */
    method Execute(request: TransferStatementRequest) returns (outcome: Outcome<TransferStatementError>)
      requires usersRepository.Valid()
      modifies statementsRepository
      ensures request.senderUserId !in usersRepository.users ==>
        outcome == Fail(UserNotFoundError)
      ensures (request.senderUserId in usersRepository.users
               && request.destinationUserId !in usersRepository.users) ==>
        outcome == Fail(UserNotFoundError)
      ensures (request.senderUserId in usersRepository.users
               && request.destinationUserId in usersRepository.users
               && request.amount > Balance(old(statementsRepository.statements), request.senderUserId)) ==>
        outcome == Fail(OutOfFundError)
      ensures outcome.Pass? <==>
        request.senderUserId in usersRepository.users
        && request.destinationUserId in usersRepository.users
        && request.amount <= Balance(old(statementsRepository.statements), request.senderUserId)
      ensures outcome.Fail? ==> statementsRepository.statements == old(statementsRepository.statements)
      ensures outcome.Pass? ==>
        statementsRepository.statements
          == old(statementsRepository.statements)
             + TransferLegs(request, usersRepository.users[request.destinationUserId])
      ensures outcome.Pass? ==> forall user ::
        Balance(statementsRepository.statements, user)
          == Balance(old(statementsRepository.statements), user)
             + TransferDelta(request, usersRepository.users[request.destinationUserId], user)
    {
      var sender := usersRepository.FindById(request.senderUserId);
      if sender.None? {
        return Fail(UserNotFoundError);
      }

      var destination := usersRepository.FindById(request.destinationUserId);
      if destination.None? {
        return Fail(UserNotFoundError);
      }

      var senderBalance := statementsRepository.GetUserBalance(request.senderUserId);
      if request.amount > senderBalance {
        return Fail(OutOfFundError);
      }

      ghost var ledger := statementsRepository.statements;
      var withdrawal := statementsRepository.Create(
        sender.value.id, request.amount, Withdraw, "Transfered to " + destination.value.name, None);
      var incoming := statementsRepository.Create(
        destination.value.id, request.amount, Transfer, request.description, Some(request.senderUserId));
      assert statementsRepository.statements == ledger + TransferLegs(request, destination.value);
      forall user
        ensures Balance(statementsRepository.statements, user)
             == Balance(ledger, user) + TransferDelta(request, destination.value, user)
      {
        BalanceAfterTransfer(ledger, request, destination.value, user);
      }
      return Pass;
    }
  }
}
