/** Design by contract: a bank account whose operations demand their preconditions of the
    caller and keep the class invariant, and a binary search over a sorted list. */
module DesignByContract {

  /** One entry of the transaction history (the source records it as formatted text). */
  datatype Transaction = Deposit(amount: real) | Withdrawal(amount: real)

  /** The change a history makes to the balance: deposits add, withdrawals subtract. */
  function Net(history: seq<Transaction>): real {
    if history == [] then 0.0
    else
      var last := history[|history| - 1];
      Net(history[..|history| - 1]) + (if last.Deposit? then last.amount else -last.amount)
  }

  /** Recording one more transaction moves the net change by exactly its amount. */
  lemma NetAppend(history: seq<Transaction>, t: Transaction)
    ensures Net(history + [t]) == Net(history) + (if t.Deposit? then t.amount else -t.amount)
  {
    assert (history + [t])[..|history|] == history;
  }

  class BankAccount {
    var accountNumber: int
    var balance: real
    var transactions: seq<Transaction>
    /** The balance the account was opened with; the history explains every change since. */
    ghost var opening: real

    /** `_check_invariants`: a positive account number and a balance that is not negative. */
    predicate Invariant()
      reads this
    {
      accountNumber > 0 && balance >= 0.0
    }

    /** The balance is the opening balance plus the net effect of the recorded history. */
    ghost predicate Valid()
      reads this
    {
      Invariant() && balance == opening + Net(transactions)
    }

    /** `BankAccount(account_number, initial_balance)` */
    constructor (accountNumber: int, initialBalance: real := 0.0)
      requires accountNumber > 0
      requires initialBalance >= 0.0
      ensures Valid()
      ensures this.accountNumber == accountNumber && balance == initialBalance && transactions == []
    {
      this.accountNumber := accountNumber;
      balance := initialBalance;
      transactions := [];
      opening := initialBalance;
    }

    /** `deposit(amount)` */
    method Deposit(amount: real)
      requires Valid()
      requires amount > 0.0
      modifies this
      ensures Valid()
      ensures balance == old(balance) + amount
      ensures transactions == old(transactions) + [Transaction.Deposit(amount)]
      ensures accountNumber == old(accountNumber) && opening == old(opening)
    {
      NetAppend(transactions, Transaction.Deposit(amount));
      balance := balance + amount;
      transactions := transactions + [Transaction.Deposit(amount)];
    }

    /** `withdraw(amount)`: the caller must not ask for more than the balance. */
    method Withdraw(amount: real)
      requires Valid()
      requires amount > 0.0
      requires balance >= amount
      modifies this
      ensures Valid()
      ensures balance == old(balance) - amount
      ensures transactions == old(transactions) + [Withdrawal(amount)]
      ensures accountNumber == old(accountNumber) && opening == old(opening)
    {
      NetAppend(transactions, Withdrawal(amount));
      balance := balance - amount;
      transactions := transactions + [Withdrawal(amount)];
    }

    /** `get_balance()` */
    method GetBalance() returns (b: real)
      requires Valid()
      ensures b == balance && b >= 0.0
      ensures b == opening + Net(transactions)
    {
      b := balance;
    }
  }

  /** An account opened without an initial balance starts at 0.0 with an empty history. */
  method OpenWithDefaultBalance() returns (b: real, entries: nat)
    ensures b == 0.0 && entries == 0
  {
    var account := new BankAccount(1);
    b := account.GetBalance();
    entries := |account.transactions|;
  }

  /** A deposit followed by a withdrawal of the same amount restores the balance and leaves
      two entries in the history. */
  method DepositThenWithdraw(account: BankAccount, amount: real)
    requires account.Valid() && amount > 0.0
    modifies account
    ensures account.Valid()
    ensures account.balance == old(account.balance)
    ensures account.transactions == old(account.transactions) + [Deposit(amount), Withdrawal(amount)]
  {
    account.Deposit(amount);
    account.Withdraw(amount);
  }

  /** `is_sorted`: every adjacent pair is in order. */
  predicate IsSorted(s: seq<int>) {
    forall i :: 0 <= i < |s| - 1 ==> s[i] <= s[i + 1]
  }

  /** Adjacent order is the same as order of every pair, so duplicates are allowed and the
      empty and one-element lists are sorted. */
  lemma {:induction false} SortedIffPairwise(s: seq<int>)
    ensures IsSorted(s) <==> forall i, j :: 0 <= i <= j < |s| ==> s[i] <= s[j]
    decreases |s|
  {
    if |s| > 1 && IsSorted(s) {
      var t := s[1..];
      assert IsSorted(t) by {
        forall i | 0 <= i < |t| - 1 ensures t[i] <= t[i + 1] {
          assert t[i] == s[i + 1] && t[i + 1] == s[i + 2];
        }
      }
      SortedIffPairwise(t);
      forall i, j | 0 <= i <= j < |s| ensures s[i] <= s[j] {
        if 0 < i {
          assert s[i] == t[i - 1] && s[j] == t[j - 1];
        } else if 0 < j {
          assert s[1] == t[0] && s[j] == t[j - 1];
        }
      }
    }
  }

  /** `binary_search(sorted_list, target)`: an index that holds `target`, or -1 when the
      target occurs nowhere in the list. */
  method BinarySearch(s: seq<int>, target: int) returns (r: int)
    requires |s| > 0 && IsSorted(s)
    ensures -1 <= r < |s|
    ensures r >= 0 ==> s[r] == target
    ensures r == -1 <==> target !in s
  {
    SortedIffPairwise(s);
    var left, right := 0, |s| - 1;
    while left <= right
      invariant 0 <= left <= |s| && -1 <= right < |s| && left <= right + 1
      invariant forall k :: 0 <= k < left ==> s[k] < target
      invariant forall k :: right < k < |s| ==> s[k] > target
      decreases right - left
    {
      var mid := (left + right) / 2;
      if s[mid] == target {
        return mid;
      } else if s[mid] < target {
        left := mid + 1;
      } else {
        right := mid - 1;
      }
    }
    r := -1;
  }
}
