/** The two stores the transfer works against: the users it looks up and
    the statements it reads balances from and appends to. Both stand for
    the persistence layer; only their observable behaviour is modelled. */
module Repositories {
  import opened Wrappers
  import opened Statements

  /** A registered user as the transfer sees it: id and display name. */
  datatype User = User(id: UserId, name: string)

  class UsersRepository {
    var users: map<UserId, User>

    /** Every user is stored under its own id. */
    ghost predicate Valid()
      reads this
    {
      forall id :: id in users ==> users[id].id == id
    }

    constructor (users: map<UserId, User>)
      requires forall id :: id in users ==> users[id].id == id
      ensures Valid() && this.users == users
    {
      this.users := users;
    }

    /** Looks a user up by id; absent ids yield None. */
    function FindById(id: UserId): (found: Option<User>)
      reads this
      requires Valid()
      ensures found.Some? <==> id in users
      ensures found.Some? ==> found.value == users[id] && found.value.id == id
    {
      if id in users then Some(users[id]) else None
    }
  }

  /** The append-only statement store. */
  class StatementsRepository {
    var statements: seq<Statement>

    constructor ()
      ensures statements == []
    {
      statements := [];
    }

    /** Appends one record and returns it; earlier records are untouched. */
    method Create(userId: UserId, amount: int, kind: OperationType, description: string,
                  senderId: Option<UserId>)
      returns (st: Statement)
      modifies this
      ensures st == Statement(userId, amount, kind, description, senderId)
      ensures statements == old(statements) + [st]
    {
      st := Statement(userId, amount, kind, description, senderId);
      statements := statements + [st];
    }

    /** The balance query: `userId`'s credits minus their debits. */
    function GetUserBalance(userId: UserId): (balance: int)
      reads this
      ensures balance == Credits(statements, userId) - Debits(statements, userId)
    {
      BalanceIsCreditsMinusDebits(statements, userId);
      Balance(statements, userId)
    }
  }
}
