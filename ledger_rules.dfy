/**
 * The bookkeeping rules of backend/app/services.py as functions on values:
 * what a posting and a journal entry do to the account balances, and which
 * accounts a statement lists. The Ledger class is proved against these.
 */
module LedgerRules {
  import opened Wrappers
  import opened Models

  /** The accounts table, keyed by account id. */
  type Accounts = map<int, Account>

  /** Moves one account's balance by `delta`, leaving every other field and account alone. */
  function Adjust(accounts: Accounts, id: int, delta: int): (r: Accounts)
    requires id in accounts
    ensures r.Keys == accounts.Keys
    ensures r[id].balance == accounts[id].balance + delta
    ensures r[id].(balance := accounts[id].balance) == accounts[id]
    ensures forall k | k in accounts && k != id :: r[k] == accounts[k]
  {
    accounts[id := accounts[id].(balance := accounts[id].balance + delta)]
  }

  /** Sum of the balances of the accounts whose ids lie in [lo, hi). */
  function Total(accounts: Accounts, lo: int, hi: int): int
    decreases hi - lo
  {
    if lo >= hi then 0
    else (if lo in accounts then accounts[lo].balance else 0) + Total(accounts, lo + 1, hi)
  }

  /** Adjusting one account moves the total of a range holding it by exactly the delta. */
  lemma {:induction false} TotalAdjust(accounts: Accounts, id: int, delta: int, lo: int, hi: int)
    requires id in accounts
    ensures Total(Adjust(accounts, id, delta), lo, hi)
            == Total(accounts, lo, hi) + (if lo <= id < hi then delta else 0)
    decreases hi - lo
  {
    if lo < hi {
      TotalAdjust(accounts, id, delta, lo + 1, hi);
    }
  }

  // ---------------------------------------------------------------------------
  // post_transaction
  // ---------------------------------------------------------------------------

  /**
   * post_transaction's effect on the accounts: unknown account first, then an
   * unknown type; a debit adds the amount, a credit subtracts it.
   */
  function Post(accounts: Accounts, accountId: int, amount: int, transactionType: string)
    : (r: Result<Accounts, LedgerError>)
    ensures accountId !in accounts ==> r == Err(AccountNotFound(accountId))
    ensures accountId in accounts && transactionType != "debit" && transactionType != "credit"
            ==> r == Err(InvalidTransactionType)
    ensures r.Ok? ==> accountId in accounts && r.value.Keys == accounts.Keys
    ensures r.Ok? && transactionType == "debit" ==>
              r.value[accountId].balance == accounts[accountId].balance + amount
    ensures r.Ok? && transactionType == "credit" ==>
              r.value[accountId].balance == accounts[accountId].balance - amount
    ensures r.Ok? ==> r.value[accountId] == accounts[accountId].(balance := r.value[accountId].balance)
    ensures r.Ok? ==> forall id | id in accounts && id != accountId :: r.value[id] == accounts[id]
  {
    if accountId !in accounts then Err(AccountNotFound(accountId))
    else if transactionType == "debit" then Ok(Adjust(accounts, accountId, amount))
    else if transactionType == "credit" then Ok(Adjust(accounts, accountId, -amount))
    else Err(InvalidTransactionType)
  }

  /** The signed effect of a valid transaction type on the balance. */
  function PostingDelta(amount: int, transactionType: string): int {
    if transactionType == "debit" then amount else -amount
  }

  /** A credit of the amount just debited undoes the debit, and the other way round. */
  lemma PostingReversal(accounts: Accounts, accountId: int, amount: int)
    requires accountId in accounts
    ensures Post(accounts, accountId, amount, "debit").Ok?
    ensures Post(Post(accounts, accountId, amount, "debit").value, accountId, amount, "credit") == Ok(accounts)
    ensures Post(Post(accounts, accountId, amount, "credit").value, accountId, amount, "debit") == Ok(accounts)
  {
    var d := Post(accounts, accountId, amount, "debit").value;
    assert d[accountId := d[accountId].(balance := d[accountId].balance - amount)] == accounts;
    var c := Post(accounts, accountId, amount, "credit").value;
    assert c[accountId := c[accountId].(balance := c[accountId].balance + amount)] == accounts;
  }

  /** A successful posting moves the sum of all balances by its signed amount. */
  lemma PostingMovesTotal(accounts: Accounts, accountId: int, amount: int, transactionType: string, lo: int, hi: int)
    requires Post(accounts, accountId, amount, transactionType).Ok?
    requires lo <= accountId < hi
    ensures Total(Post(accounts, accountId, amount, transactionType).value, lo, hi)
            == Total(accounts, lo, hi) + PostingDelta(amount, transactionType)
  {
    TotalAdjust(accounts, accountId, PostingDelta(amount, transactionType), lo, hi);
  }

  // ---------------------------------------------------------------------------
  // create_journal_entry
  // ---------------------------------------------------------------------------

  /** Total of the debit amounts of the lines. */
  function SumDebits(lines: seq<LineInput>): (r: int)
    ensures (forall i | 0 <= i < |lines| :: lines[i].debit >= 0) ==> r >= 0
    ensures (forall i | 0 <= i < |lines| :: lines[i].debit == 0) ==> r == 0
  {
    if |lines| == 0 then 0 else SumDebits(lines[..|lines| - 1]) + lines[|lines| - 1].debit
  }

  /** Total of the credit amounts of the lines. */
  function SumCredits(lines: seq<LineInput>): (r: int)
    ensures (forall i | 0 <= i < |lines| :: lines[i].credit >= 0) ==> r >= 0
    ensures (forall i | 0 <= i < |lines| :: lines[i].credit == 0) ==> r == 0
  {
    if |lines| == 0 then 0 else SumCredits(lines[..|lines| - 1]) + lines[|lines| - 1].credit
  }

  /**
   * The double-entry condition checked before anything is written. An entry
   * with no lines passes it, and so does any entry whose every line debits
   * what it credits.
   */
  predicate Balanced(lines: seq<LineInput>): (ok: bool)
    ensures |lines| == 0 ==> ok
    ensures |lines| == 1 ==> (ok <==> lines[0].debit == lines[0].credit)
    ensures (forall i | 0 <= i < |lines| :: lines[i].debit == lines[i].credit) ==> ok
  {
    LinewiseEqualSums(lines);
    SumDebits(lines) == SumCredits(lines)
  }

  /** Lines that each debit what they credit have equal debit and credit totals. */
  lemma {:induction false} LinewiseEqualSums(lines: seq<LineInput>)
    ensures (forall i | 0 <= i < |lines| :: lines[i].debit == lines[i].credit) ==>
              SumDebits(lines) == SumCredits(lines)
  {
    if |lines| > 0 && forall i | 0 <= i < |lines| :: lines[i].debit == lines[i].credit {
      var front := lines[..|lines| - 1];
      assert forall i | 0 <= i < |front| :: front[i] == lines[i];
      LinewiseEqualSums(front);
    }
  }

  predicate AllAccountsExist(accounts: Accounts, lines: seq<LineInput>) {
    forall i | 0 <= i < |lines| :: lines[i].accountId in accounts
  }

  /** Index of the first line whose account is unknown, or `|lines|` when all are known. */
  function MissingIndex(accounts: Accounts, lines: seq<LineInput>): (k: nat)
    ensures k <= |lines|
    ensures forall i | 0 <= i < k :: lines[i].accountId in accounts
    ensures k < |lines| ==> lines[k].accountId !in accounts
  {
    if |lines| == 0 then 0
    else if lines[0].accountId !in accounts then 0
    else 1 + MissingIndex(accounts, lines[1..])
  }

  /** One journal line: `balance += debit - credit` on its account. */
  function ApplyLine(accounts: Accounts, line: LineInput): (r: Accounts)
    requires line.accountId in accounts
    ensures r.Keys == accounts.Keys
    ensures r[line.accountId].balance
            == accounts[line.accountId].balance + line.debit - line.credit
    ensures r[line.accountId].(balance := accounts[line.accountId].balance)
            == accounts[line.accountId]
    ensures forall k | k in accounts && k != line.accountId :: r[k] == accounts[k]
  {
    Adjust(accounts, line.accountId, line.debit - line.credit)
  }

  /** The journal lines applied in order. */
  function ApplyLines(accounts: Accounts, lines: seq<LineInput>): (r: Accounts)
    requires AllAccountsExist(accounts, lines)
    ensures r.Keys == accounts.Keys
  {
    if |lines| == 0 then accounts
    else ApplyLine(ApplyLines(accounts, lines[..|lines| - 1]), lines[|lines| - 1])
  }

  /** Sum of debit - credit over the lines that name account `id`. */
  function NetChange(id: int, lines: seq<LineInput>): (d: int)
    ensures (forall i | 0 <= i < |lines| :: lines[i].accountId != id) ==> d == 0
  {
    if |lines| == 0 then 0
    else
      var last := lines[|lines| - 1];
      NetChange(id, lines[..|lines| - 1]) + (if last.accountId == id then last.debit - last.credit else 0)
  }

  /** The journal lines as recorded under entry `entryId`. */
  function RecordLines(entryId: nat, lines: seq<LineInput>): seq<JournalLine> {
    seq(|lines|, i requires 0 <= i < |lines| =>
      JournalLine(entryId, lines[i].accountId, lines[i].debit, lines[i].credit))
  }

  /**
   * Each account's balance changes by the sum, over its lines, of debit - credit;
   * nothing else about the account changes.
   */
  lemma {:induction false} ApplyLinesBalance(accounts: Accounts, lines: seq<LineInput>, id: int)
    requires AllAccountsExist(accounts, lines)
    requires id in accounts
    ensures ApplyLines(accounts, lines)[id]
            == accounts[id].(balance := accounts[id].balance + NetChange(id, lines))
  {
    if |lines| > 0 {
      ApplyLinesBalance(accounts, lines[..|lines| - 1], id);
    }
  }

  /** Applying the lines moves the total of all balances by total debits - total credits. */
  lemma {:induction false} ApplyLinesTotal(accounts: Accounts, lines: seq<LineInput>, lo: int, hi: int)
    requires AllAccountsExist(accounts, lines)
    requires forall i | 0 <= i < |lines| :: lo <= lines[i].accountId < hi
    ensures Total(ApplyLines(accounts, lines), lo, hi)
            == Total(accounts, lo, hi) + SumDebits(lines) - SumCredits(lines)
  {
    if |lines| > 0 {
      var init, last := lines[..|lines| - 1], lines[|lines| - 1];
      ApplyLinesTotal(accounts, init, lo, hi);
      TotalAdjust(ApplyLines(accounts, init), last.accountId, last.debit - last.credit, lo, hi);
    }
  }

  /** The double-entry rule: a balanced entry leaves the sum of all balances unchanged. */
  lemma BalancedEntryKeepsTotal(accounts: Accounts, lines: seq<LineInput>, lo: int, hi: int)
    requires AllAccountsExist(accounts, lines) && Balanced(lines)
    requires forall i | 0 <= i < |lines| :: lo <= lines[i].accountId < hi
    ensures Total(ApplyLines(accounts, lines), lo, hi) == Total(accounts, lo, hi)
  {
    ApplyLinesTotal(accounts, lines, lo, hi);
  }

  /** A posting is a one-line journal entry with the amount on the debit or credit side. */
  lemma PostingIsOneLineEntry(accounts: Accounts, accountId: int, amount: int)
    requires accountId in accounts
    ensures Post(accounts, accountId, amount, "debit") == Ok(ApplyLines(accounts, [LineInput(accountId, amount, 0)]))
    ensures Post(accounts, accountId, amount, "credit") == Ok(ApplyLines(accounts, [LineInput(accountId, 0, amount)]))
  {
    assert [LineInput(accountId, amount, 0)][..0] == [];
    assert [LineInput(accountId, 0, amount)][..0] == [];
  }

  // ---------------------------------------------------------------------------
  // generate_financial_statement
  // ---------------------------------------------------------------------------

  /** Which account types a statement of the given type lists. */
  predicate Qualifies(statementType: string, accountType: string): (ok: bool)
    ensures ok ==> statementType == "Balance Sheet" || statementType == "Income Statement"
    ensures ok ==> accountType in ["Asset", "Liability", "Equity", "Revenue", "Expense"]
  {
    || (statementType == "Balance Sheet" && accountType in ["Asset", "Liability", "Equity"])
    || (statementType == "Income Statement" && accountType in ["Revenue", "Expense"])
  }

  /** The ids in [lo, hi) of the accounts a statement of this type lists. */
  ghost function QualifyingIds(accounts: Accounts, statementType: string, lo: int, hi: int): set<int> {
    set id | lo <= id < hi && id in accounts && Qualifies(statementType, accounts[id].accountType)
  }

  /** The items of one statement, one per account, enumerating the ids of [lo, hi) in order. */
  function StatementItems(statementId: nat, accounts: Accounts, statementType: string, lo: int, hi: int)
    : (items: seq<StatementItem>)
    ensures forall i | 0 <= i < |items| ::
              && items[i].statementId == statementId
              && lo <= items[i].accountId < hi
              && items[i].accountId in accounts
              && Qualifies(statementType, accounts[items[i].accountId].accountType)
              && items[i].amount == accounts[items[i].accountId].balance
    ensures forall i, j | 0 <= i < j < |items| :: items[i].accountId < items[j].accountId
    ensures (set i | 0 <= i < |items| :: items[i].accountId) == QualifyingIds(accounts, statementType, lo, hi)
    decreases hi - lo
  {
    if lo >= hi then []
    else
      var init := StatementItems(statementId, accounts, statementType, lo, hi - 1);
      var id := hi - 1;
      ghost var ids := set i | 0 <= i < |init| :: init[i].accountId;
      if id in accounts && Qualifies(statementType, accounts[id].accountType) then
        var items := init + [StatementItem(statementId, id, accounts[id].balance)];
        assert (set i | 0 <= i < |items| :: items[i].accountId) == ids + {id} by {
          forall x | x in ids ensures x in (set i | 0 <= i < |items| :: items[i].accountId) {
            var i :| 0 <= i < |init| && init[i].accountId == x;
            assert items[i].accountId == x;
          }
          assert items[|init|].accountId == id;
        }
        assert QualifyingIds(accounts, statementType, lo, hi)
               == QualifyingIds(accounts, statementType, lo, hi - 1) + {id};
        items
      else
        assert QualifyingIds(accounts, statementType, lo, hi)
               == QualifyingIds(accounts, statementType, lo, hi - 1);
        init
  }

  /** A statement type other than the two known ones lists nothing. */
  lemma {:induction false} UnknownStatementTypeIsEmpty(statementId: nat, accounts: Accounts, statementType: string, lo: int, hi: int)
    requires statementType != "Balance Sheet" && statementType != "Income Statement"
    ensures StatementItems(statementId, accounts, statementType, lo, hi) == []
    decreases hi - lo
  {
    if lo < hi {
      UnknownStatementTypeIsEmpty(statementId, accounts, statementType, lo, hi - 1);
    }
  }

  /** No account type is listed by both statements, and each of the five standard types by one. */
  lemma StatementsPartitionStandardTypes(accountType: string)
    ensures !(Qualifies("Balance Sheet", accountType) && Qualifies("Income Statement", accountType))
    ensures accountType in ["Asset", "Liability", "Equity", "Revenue", "Expense"]
            <==> Qualifies("Balance Sheet", accountType) || Qualifies("Income Statement", accountType)
  {
  }
}
