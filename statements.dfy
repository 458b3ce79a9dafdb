/** Statements and the balance derived from them. A statement is an
    immutable monetary event owned by one user; a balance is never stored,
    it is folded over the owner's statements on every query. */
module Statements {
  import opened Wrappers

  type UserId = string

  datatype OperationType = Deposit | Withdraw | Transfer

  /** One ledger record. `senderId` is set only on the receiving leg of a
      transfer. Record ids and creation timestamps are opaque and left out. */
  datatype Statement = Statement(
    userId: UserId,
    amount: int,
    kind: OperationType,
    description: string,
    senderId: Option<UserId>)

  /** The effect of a statement on its owner's balance: deposits and incoming
      transfers add, withdrawals subtract. */
  function Signed(st: Statement): (effect: int) {
    match st.kind
    case Deposit => st.amount
    case Transfer => st.amount
    case Withdraw => -st.amount
  }

  /** The balance of `user`: a fold over the ledger that counts only the
      statements `user` owns. */
  function Balance(ledger: seq<Statement>, user: UserId): (balance: int) {
    if ledger == [] then 0
    else (if ledger[0].userId == user then Signed(ledger[0]) else 0) + Balance(ledger[1..], user)
  }

  /** Reference definition, part one: the sum of the amounts of `user`'s
      DEPOSIT and TRANSFER records. */
  function Credits(ledger: seq<Statement>, user: UserId): (credits: int) {
    if ledger == [] then 0
    else
      var st := ledger[0];
      (if st.userId == user && st.kind != Withdraw then st.amount else 0) + Credits(ledger[1..], user)
  }

  /** Reference definition, part two: the sum of the amounts of `user`'s
      WITHDRAW records. */
  function Debits(ledger: seq<Statement>, user: UserId): (debits: int) {
    if ledger == [] then 0
    else
      var st := ledger[0];
      (if st.userId == user && st.kind == Withdraw then st.amount else 0) + Debits(ledger[1..], user)
  }

  /** The sum of the effects of every statement, whoever owns it: the money
      held in the ledger as a whole. */
  function TotalBalance(ledger: seq<Statement>): (total: int) {
    if ledger == [] then 0 else Signed(ledger[0]) + TotalBalance(ledger[1..])
  }

  /** A balance is the user's deposits and incoming transfers minus the
      user's withdrawals. */
  lemma {:induction false} BalanceIsCreditsMinusDebits(ledger: seq<Statement>, user: UserId)
    ensures Balance(ledger, user) == Credits(ledger, user) - Debits(ledger, user)
  {
    if ledger != [] {
      BalanceIsCreditsMinusDebits(ledger[1..], user);
    }
  }

  /** Appending to the ledger adds the balance of what was appended. */
  lemma {:induction false} BalanceOfConcat(a: seq<Statement>, b: seq<Statement>, user: UserId)
    ensures Balance(a + b, user) == Balance(a, user) + Balance(b, user)
  {
    if a == [] {
      assert a + b == b;
    } else {
      assert (a + b)[1..] == a[1..] + b;
      BalanceOfConcat(a[1..], b, user);
    }
  }

  /** Appending to the ledger adds the total of what was appended. */
  lemma {:induction false} TotalBalanceOfConcat(a: seq<Statement>, b: seq<Statement>)
    ensures TotalBalance(a + b) == TotalBalance(a) + TotalBalance(b)
  {
    if a == [] {
      assert a + b == b;
    } else {
      assert (a + b)[1..] == a[1..] + b;
      TotalBalanceOfConcat(a[1..], b);
    }
  }

  /** Deposits of 100 and 70 and a withdrawal of 25 leave a balance of 145. */
  lemma DepositsAndWithdrawalExample(user: UserId)
    ensures Balance([Statement(user, 100, Deposit, "Batata frita", None),
                     Statement(user, 70, Deposit, "Batata frita", None),
                     Statement(user, 25, Withdraw, "Batata frita", None)], user) == 145
  {
    var d100 := Statement(user, 100, Deposit, "Batata frita", None);
    var d70 := Statement(user, 70, Deposit, "Batata frita", None);
    var w25 := Statement(user, 25, Withdraw, "Batata frita", None);
    assert [d100, d70, w25] == [d100] + [d70] + [w25];
    BalanceOfConcat([d100] + [d70], [w25], user);
    BalanceOfConcat([d100], [d70], user);
  }
}
