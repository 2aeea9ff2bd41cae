/**
 * Record shapes of backend/app/models.py, restricted to the fields the ledger
 * services read or write. Money fields are integer minor units; creation
 * timestamps that the database fills in on its own are not recorded.
 */
module Models {
  import opened Utils

  /** A general-ledger account; `accountType` is free text such as "Asset" or "Expense". */
  datatype Account = Account(
    name: string,
    accountType: string,
    code: string,
    description: string,
    balance: int,
    isActive: bool)

  /** A posted debit or credit against one account. */
  datatype Transaction = Transaction(
    accountId: int,
    amount: int,
    transactionType: string,
    description: string)

  /** A journal entry header; the services never set its `reference`, so it is not kept. */
  datatype JournalEntry = JournalEntry(description: string)

  /** One line of a journal entry, as stored. */
  datatype JournalLine = JournalLine(entryId: nat, accountId: int, debit: int, credit: int)

  /** One line of a journal entry, as a caller hands it in (`{account_id, debit, credit}`). */
  datatype LineInput = LineInput(accountId: int, debit: int, credit: int)

  /** A financial statement header; the period is a label, not a filter. */
  datatype FinancialStatement = FinancialStatement(
    statementType: string,
    periodStart: DateTime,
    periodEnd: DateTime)

  /** One account's balance copied into a statement. */
  datatype StatementItem = StatementItem(statementId: nat, accountId: int, amount: int)

  /** The `ValueError`s the services raise. */
  datatype LedgerError =
    | AccountNotFound(accountId: int)   // a posting or a journal line names no existing account
    | InvalidTransactionType            // a posting whose type is neither debit nor credit
    | UnbalancedEntry                   // a journal entry whose debits and credits differ
}
