/**
 * The ledger services of backend/app/services.py over an in-memory store.
 * The database session becomes the fields of a Ledger object: each table is a
 * field, row ids are positions counted from 1 (account ids come from a
 * counter), and a commit is an assignment to the fields.
 */
module Services {
  import opened Wrappers
  import opened Utils
  import opened Models
  import opened LedgerRules

  class Ledger {
    var accounts: Accounts
    var nextAccountId: int
    var transactions: seq<Transaction>
    var journalEntries: seq<JournalEntry>
    var journalLines: seq<JournalLine>
    var statements: seq<FinancialStatement>
    var statementItems: seq<StatementItem>

    /** Account ids are 1 .. nextAccountId - 1, and every row refers to rows that exist. */
    ghost predicate Valid()
      reads this
    {
      && 1 <= nextAccountId
      && (forall id :: id in accounts <==> 1 <= id < nextAccountId)
      && (forall i | 0 <= i < |transactions| :: transactions[i].accountId in accounts)
      && (forall i | 0 <= i < |journalLines| ::
            1 <= journalLines[i].entryId <= |journalEntries| && journalLines[i].accountId in accounts)
      && (forall i | 0 <= i < |statementItems| ::
            1 <= statementItems[i].statementId <= |statements| && statementItems[i].accountId in accounts)
    }

    /** The sum of all account balances. */
    function TotalBalance(): int
      reads this
    {
      Total(accounts, 1, nextAccountId)
    }

    constructor ()
      ensures Valid()
      ensures accounts == map[] && nextAccountId == 1
      ensures transactions == [] && journalEntries == [] && journalLines == []
      ensures statements == [] && statementItems == []
    {
      accounts := map[];
      nextAccountId := 1;
      transactions := [];
      journalEntries := [];
      journalLines := [];
      statements := [];
      statementItems := [];
    }

    /** create_account, with the clock reading for the account code passed in as `now`. */
    method CreateAccount(name: string, accountType: string, initialBalance: int, description: string, now: DateTime)
      returns (id: int)
      requires Valid() && ValidClock(now)
      modifies this
      ensures Valid()
      ensures id == old(nextAccountId) && id !in old(accounts)
      ensures accounts == old(accounts)[id := Account(name, accountType, GenerateAccountCode(name, now),
                                                      description, initialBalance, true)]
      ensures nextAccountId == old(nextAccountId) + 1
      ensures unchanged(this`transactions, this`journalEntries, this`journalLines, this`statements, this`statementItems)
      ensures TotalBalance() == old(TotalBalance()) + initialBalance
    {
      var code := GenerateAccountCode(name, now);
      id := nextAccountId;
      TotalExtend(accounts, id, Account(name, accountType, code, description, initialBalance, true), 1);
      accounts := accounts[id := Account(name, accountType, code, description, initialBalance, true)];
      nextAccountId := nextAccountId + 1;
    }

    /**
     * post_transaction: fails on an unknown account or an unknown type with
     * nothing written; otherwise moves the balance and records one transaction.
     */
    method PostTransaction(accountId: int, amount: int, transactionType: string, description: string)
      returns (r: Result<nat, LedgerError>)
      requires Valid()
      modifies this
      ensures Valid()
      ensures match Post(old(accounts), accountId, amount, transactionType)
              case Err(e) => r == Err(e) && unchanged(this)
              case Ok(after) =>
                && r == Ok(|transactions|)
                && accounts == after
                && transactions == old(transactions) + [Transaction(accountId, amount, transactionType, description)]
                && unchanged(this`nextAccountId, this`journalEntries, this`journalLines, this`statements, this`statementItems)
                && TotalBalance() == old(TotalBalance()) + PostingDelta(amount, transactionType)
    {
      if accountId !in accounts {
        return Err(AccountNotFound(accountId));
      }
      var account := accounts[accountId];
      if transactionType == "debit" {
        account := account.(balance := account.balance + amount);
      } else if transactionType == "credit" {
        account := account.(balance := account.balance - amount);
      } else {
        return Err(InvalidTransactionType);
      }
      PostingMovesTotal(accounts, accountId, amount, transactionType, 1, nextAccountId);
      accounts := accounts[accountId := account];
      transactions := transactions + [Transaction(accountId, amount, transactionType, description)];
      r := Ok(|transactions|);
    }

    /**
     * create_journal_entry: an unbalanced entry is refused before any write.
     * Otherwise the header is committed at once; the lines and balance updates
     * are pending until the final commit and are discarded when a line names
     * an unknown account.
     */
    method CreateJournalEntry(description: string, lines: seq<LineInput>)
      returns (r: Result<nat, LedgerError>)
      requires Valid()
      modifies this
      ensures Valid()
      ensures !Balanced(lines) ==> r == Err(UnbalancedEntry) && unchanged(this)
      ensures Balanced(lines) ==>
                && journalEntries == old(journalEntries) + [JournalEntry(description)]
                && unchanged(this`nextAccountId, this`transactions, this`statements, this`statementItems)
      ensures Balanced(lines) && MissingIndex(old(accounts), lines) < |lines| ==>
                && r == Err(AccountNotFound(lines[MissingIndex(old(accounts), lines)].accountId))
                && accounts == old(accounts)
                && journalLines == old(journalLines)
      ensures Balanced(lines) && MissingIndex(old(accounts), lines) == |lines| ==>
                && r == Ok(|journalEntries|)
                && accounts == ApplyLines(old(accounts), lines)
                && journalLines == old(journalLines) + RecordLines(|journalEntries|, lines)
                && TotalBalance() == old(TotalBalance())
    {
      var totalDebit := SumDebits(lines);
      var totalCredit := SumCredits(lines);
      if totalDebit != totalCredit {
        return Err(UnbalancedEntry);
      }

      journalEntries := journalEntries + [JournalEntry(description)];
      var entryId := |journalEntries|;

      var staged := StageLines(accounts, entryId, lines);
      if staged.Err? {
        return Err(staged.error);
      }
      BalancedEntryKeepsTotal(accounts, lines, 1, nextAccountId);
      accounts := staged.value.0;
      journalLines := journalLines + staged.value.1;
      r := Ok(entryId);
    }

    /**
     * generate_financial_statement: records the header, then one item per
     * qualifying account, in account-id order, holding its current balance.
     */
    method GenerateFinancialStatement(statementType: string, periodStart: DateTime, periodEnd: DateTime)
      returns (statementId: nat)
      requires Valid()
      modifies this
      ensures Valid()
      ensures statements == old(statements) + [FinancialStatement(statementType, periodStart, periodEnd)]
      ensures statementId == |statements|
      ensures statementItems == old(statementItems) + StatementItems(statementId, accounts, statementType, 1, nextAccountId)
      ensures unchanged(this`accounts, this`nextAccountId, this`transactions, this`journalEntries, this`journalLines)
    {
      statements := statements + [FinancialStatement(statementType, periodStart, periodEnd)];
      statementId := |statements|;

      for id := 1 to nextAccountId
        invariant unchanged(this`accounts, this`nextAccountId, this`transactions, this`journalEntries, this`journalLines)
        invariant statements == old(statements) + [FinancialStatement(statementType, periodStart, periodEnd)]
        invariant statementItems == old(statementItems) + StatementItems(statementId, accounts, statementType, 1, id)
      {
        var account := accounts[id];
        var amount;
        if statementType == "Balance Sheet" && account.accountType in ["Asset", "Liability", "Equity"] {
          amount := account.balance;
        } else if statementType == "Income Statement" && account.accountType in ["Revenue", "Expense"] {
          amount := account.balance;
        } else {
          continue;
        }
        statementItems := statementItems + [StatementItem(statementId, id, amount)];
      }
    }

    /** convert_and_post_transaction: post_transaction applied to the converted amount. */
    method ConvertAndPostTransaction(accountId: int, amount: int, fromCurrency: string, toCurrency: string,
                                     rate: Rate, transactionType: string, description: string)
      returns (r: Result<nat, LedgerError>)
      requires Valid()
      modifies this
      ensures Valid()
      ensures var converted := ConvertCurrency(amount, fromCurrency, toCurrency, rate);
              match Post(old(accounts), accountId, converted, transactionType)
              case Err(e) => r == Err(e) && unchanged(this)
              case Ok(after) =>
                && r == Ok(|transactions|)
                && accounts == after
                && transactions == old(transactions) + [Transaction(accountId, converted, transactionType, description)]
                && unchanged(this`nextAccountId, this`journalEntries, this`journalLines, this`statements, this`statementItems)
                && TotalBalance() == old(TotalBalance()) + PostingDelta(converted, transactionType)
    {
      var converted := ConvertCurrency(amount, fromCurrency, toCurrency, rate);
      r := PostTransaction(accountId, converted, transactionType, description);
    }
  }

  /**
   * The loop of create_journal_entry over the lines: builds the balance updates
   * and line rows the final commit writes, stopping at the first line whose
   * account does not exist.
   */
  method StageLines(accounts: Accounts, entryId: nat, lines: seq<LineInput>)
    returns (r: Result<(Accounts, seq<JournalLine>), LedgerError>)
    ensures MissingIndex(accounts, lines) < |lines| ==>
              r == Err(AccountNotFound(lines[MissingIndex(accounts, lines)].accountId))
    ensures MissingIndex(accounts, lines) == |lines| ==>
              r == Ok((ApplyLines(accounts, lines), RecordLines(entryId, lines)))
  {
    var pending := accounts;
    var pendingLines: seq<JournalLine> := [];
    for i := 0 to |lines|
      invariant forall j | 0 <= j < i :: lines[j].accountId in accounts
      invariant pending == ApplyLines(accounts, lines[..i])
      invariant pendingLines == RecordLines(entryId, lines[..i])
    {
      var line := lines[i];
      if line.accountId !in pending {
        return Err(AccountNotFound(line.accountId));
      }
      pendingLines := pendingLines + [JournalLine(entryId, line.accountId, line.debit, line.credit)];
      var account := pending[line.accountId];
      pending := pending[line.accountId := account.(balance := account.balance + line.debit - line.credit)];
      assert lines[..i + 1][..i] == lines[..i];
    }
    assert lines[..|lines|] == lines;
    r := Ok((pending, pendingLines));
  }

  /** Adding the account with the next id adds its balance to the total. */
  lemma {:induction false} TotalExtend(accounts: Accounts, id: int, account: Account, lo: int)
    requires lo <= id && id !in accounts
    ensures Total(accounts[id := account], lo, id + 1) == Total(accounts, lo, id) + account.balance
    decreases id - lo
  {
    if lo < id {
      TotalExtend(accounts, id, account, lo + 1);
    }
  }

  /**
   * A cash account debited 500 and credited 200 stands at 300, and a balance
   * sheet generated afterwards lists it with that amount.
   */
  method CashScenario() {
    var ledger := new Ledger();
    var now := DateTime(2024, 1, 31, 12, 0, 0);
    var cash := ledger.CreateAccount("Cash", "Asset", 0, "", now);
    var posted := ledger.PostTransaction(cash, 500, "debit", "");
    assert ledger.accounts[cash].balance == 500;
    posted := ledger.PostTransaction(cash, 200, "credit", "");
    assert ledger.accounts[cash].balance == 300;
    var statementId := ledger.GenerateFinancialStatement("Balance Sheet", now, now);
    assert ledger.statementItems == [StatementItem(statementId, cash, 300)];
  }
}
