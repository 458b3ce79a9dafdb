/** Client code mirroring the use case's own test scenarios: what callers
    can conclude about Execute from its contract alone. */
module TransferScenarios {
  import opened Wrappers
  import opened Statements
  import opened TransferErrors
  import opened Repositories
  import opened TransferStatement

  /** Sender and destination are both unknown: the sender check fires. */
  method UnknownUsersScenario() returns (outcome: Outcome<TransferStatementError>)
    ensures outcome == Fail(UserNotFoundError)
  {
    var users := new UsersRepository(map[]);
    var statements := new StatementsRepository();
    var useCase := new TransferStatementUseCase(users, statements);
    outcome := useCase.Execute(TransferStatementRequest("sender", "destination", 100, "Payment"));
  }

  /** The sender deposits 1000 and sends 100: 900 remain and the
      destination holds 100 from the incoming transfer alone. */
  method TransferScenario() returns (outcome: Outcome<TransferStatementError>,
                                     senderBalance: int, destinationBalance: int)
    ensures outcome == Pass
    ensures senderBalance == 900 && destinationBalance == 100
  {
    var users := new UsersRepository(map["s" := User("s", "Jerson Uyekita"),
                                         "d" := User("d", "Sabrina Galvão")]);
    var statements := new StatementsRepository();
    var deposit := statements.Create("s", 1000, Deposit, "Batata chips", None);
    assert Balance(statements.statements, "s") == 1000;
    assert Balance(statements.statements, "d") == 0;
    var useCase := new TransferStatementUseCase(users, statements);
    outcome := useCase.Execute(TransferStatementRequest("s", "d", 100, "Payment"));
    senderBalance := statements.GetUserBalance("s");
    destinationBalance := statements.GetUserBalance("d");
  }

  /** The sender deposits 200 and tries to send 300: OutOfFundError, and
      nothing is appended. */
  method OutOfFundScenario() returns (outcome: Outcome<TransferStatementError>, records: nat)
    ensures outcome == Fail(OutOfFundError)
    ensures records == 1
  {
    var users := new UsersRepository(map["s" := User("s", "Jerson Uyekita"),
                                         "d" := User("d", "Sabrina Galvão")]);
    var statements := new StatementsRepository();
    var deposit := statements.Create("s", 200, Deposit, "Batata chips", None);
    assert Balance(statements.statements, "s") == 200;
    var useCase := new TransferStatementUseCase(users, statements);
    outcome := useCase.Execute(TransferStatementRequest("s", "d", 300, "Payment"));
    records := |statements.statements|;
  }
}
