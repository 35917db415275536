/** The bank-account command with one-shot undo of Behavioral/Command/command.cpp.

    The account and the command are objects the C++ code updates in place, so
    they are classes here.  Their methods are proved against the value-level
    transition functions below (DepositTo, WithdrawFrom, CallEffect, UndoEffect), and the
    properties the command promises are proved about those functions. */
module BankCommand {
  import opened Common

  /** `balance += amount` on an `unsigned`: addition modulo 2^32. */
  function DepositTo(balance: u32, amount: u32): (r: u32)
    ensures balance + amount < TWO_32 ==> r == balance + amount
    ensures balance + amount >= TWO_32 ==> r == balance + amount - TWO_32 && r < balance
  {
    (balance + amount) % TWO_32
  }

  /** Outcome of a guarded withdrawal: whether it happened and the new balance. */
  datatype Withdrawal = Withdrawal(ok: bool, balance: u32)

  function WithdrawFrom(balance: u32, amount: u32): (r: Withdrawal)
    ensures r.ok <==> amount <= balance
    ensures r.ok ==> r.balance + amount == balance
    ensures !r.ok ==> r.balance == balance
  {
    if balance >= amount then Withdrawal(true, balance - amount) else Withdrawal(false, balance)
  }

  class BankAccount {
    const name: string
    var balance: u32

    constructor (name: string)
      ensures this.name == name && balance == 0
    {
      this.name := name;
      balance := 0;
    }

    method Deposit(amount: u32)
      modifies this
      ensures balance == DepositTo(old(balance), amount)
    {
      balance := (balance + amount) % TWO_32;
    }

    method Withdraw(amount: u32) returns (ok: bool)
      modifies this
      ensures Withdrawal(ok, balance) == WithdrawFrom(old(balance), amount)
    {
      if balance >= amount {
        balance := balance - amount;
        return true;
      }
      return false;
    }
  }

  datatype Action = DepositAction | WithdrawAction

  /** What a command and its account hold between calls. */
  datatype CommandState = CommandState(balance: u32, successful: bool, undone: bool)

  /** A freshly constructed command over an account with balance b. */
  function Fresh(b: u32): CommandState
  {
    CommandState(b, true, false)
  }

  /** `call()`: re-applies the action every time; a withdrawal records its outcome,
      a deposit leaves the recorded outcome alone; `undone` is never consulted. */
  function CallEffect(action: Action, amount: u32, s: CommandState): (r: CommandState)
    ensures r.undone == s.undone
    ensures action == DepositAction ==>
      r.balance == DepositTo(s.balance, amount) && r.successful == s.successful
    ensures action == WithdrawAction ==>
      r.successful == (amount <= s.balance) && r.balance == WithdrawFrom(s.balance, amount).balance
  {
    match action
    case DepositAction => s.(balance := DepositTo(s.balance, amount))
    case WithdrawAction =>
      var w := WithdrawFrom(s.balance, amount);
      s.(balance := w.balance, successful := w.ok)
  }

  /** `undo()`: does nothing once undone; otherwise marks the command undone and
      applies the inverse action, a guarded withdrawal for a deposit and, only when
      the recorded outcome is a success, a deposit for a withdrawal. */
  function UndoEffect(action: Action, amount: u32, s: CommandState): (r: CommandState)
    ensures s.undone ==> r == s
    ensures r.undone && r.successful == s.successful
    ensures !s.undone && action == DepositAction ==>
      r.balance == WithdrawFrom(s.balance, amount).balance
    ensures !s.undone && action == WithdrawAction ==>
      r.balance == (if s.successful then DepositTo(s.balance, amount) else s.balance)
  {
    if s.undone then s
    else
      match action
      case DepositAction => s.(undone := true, balance := WithdrawFrom(s.balance, amount).balance)
      case WithdrawAction =>
        s.(undone := true, balance := if s.successful then DepositTo(s.balance, amount) else s.balance)
  }

  class BankAccountCommand {
    const account: BankAccount
    const action: Action
    const amount: u32
    var successfulAction: bool
    var undoneAction: bool

    constructor (account: BankAccount, action: Action, amount: u32)
      ensures this.account == account && this.action == action && this.amount == amount
      ensures State() == Fresh(account.balance)
    {
      this.account := account;
      this.action := action;
      this.amount := amount;
      successfulAction := true;
      undoneAction := false;
    }

    /** The command's flags together with the balance of its own account. */
    function State(): CommandState
      reads this, account
    {
      CommandState(account.balance, successfulAction, undoneAction)
    }

    /** Touches this command and the account it was built with, nothing else. */
    method Call()
      modifies this, account
      ensures State() == CallEffect(action, amount, old(State()))
    {
      match action
      case DepositAction =>
        account.Deposit(amount);
      case WithdrawAction =>
        successfulAction := account.Withdraw(amount);
    }

    method Undo()
      modifies this, account
      ensures State() == UndoEffect(action, amount, old(State()))
    {
      if undoneAction {
        return;
      }
      undoneAction := true;
      match action
      case DepositAction =>
        var _ := account.Withdraw(amount);
      case WithdrawAction =>
        if successfulAction {
          account.Deposit(amount);
        }
    }
  }

  /** Undo is effective at most once: a second undo changes nothing. */
  lemma UndoIsIdempotent(action: Action, amount: u32, s: CommandState)
    ensures UndoEffect(action, amount, UndoEffect(action, amount, s)) == UndoEffect(action, amount, s)
  {
  }

  /** Undoing a withdrawal right after its call gives back the balance from before
      the call, whether the withdrawal succeeded or failed. */
  lemma UndoWithdrawRestores(amount: u32, s: CommandState)
    requires !s.undone
    ensures var r := UndoEffect(WithdrawAction, amount, CallEffect(WithdrawAction, amount, s));
      r.balance == s.balance && r.undone
  {
  }

  /** Undoing a deposit right after its call gives back the earlier balance when the
      deposit did not wrap around. */
  lemma UndoDepositRestores(amount: u32, s: CommandState)
    requires !s.undone
    requires s.balance + amount < TWO_32
    ensures UndoEffect(DepositAction, amount, CallEffect(DepositAction, amount, s)).balance == s.balance
  {
  }

  /** When the balance has dropped below the amount since the deposit, its undo
      moves no money yet still uses up the command's one undo. */
  lemma UndoDepositWithoutFunds(amount: u32, s: CommandState)
    requires !s.undone && s.balance < amount
    ensures var r := UndoEffect(DepositAction, amount, s);
      r.balance == s.balance && r.undone
      && UndoEffect(DepositAction, amount, r) == r
  {
  }

  /** `successfulAction` starts out true, so undoing a withdrawal command that was
      never called deposits its amount. */
  lemma UndoUncalledWithdrawDeposits(amount: u32, b: u32)
    ensures UndoEffect(WithdrawAction, amount, Fresh(b)).balance == DepositTo(b, amount)
  {
  }

  /** A deposit that wraps around the 32-bit balance cannot be undone: from
      4294967295, depositing 1 gives 0, and the guarded withdrawal of 1 fails. */
  lemma UndoWrappedDepositFails()
    ensures CallEffect(DepositAction, 1, Fresh(TWO_32 - 1)).balance == 0
    ensures UndoEffect(DepositAction, 1, CallEffect(DepositAction, 1, Fresh(TWO_32 - 1))).balance == 0
  {
  }
}
