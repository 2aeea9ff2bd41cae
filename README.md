# Ledger core in Dafny

A model of the bookkeeping core of a small accounting backend: the ledger
services (`backend/app/services.py`) and the pure helpers they use
(`backend/app/utils.py`).

- `wrappers.dfy` — module `Wrappers`: `Option` and `Result`.
- `models.dfy` — module `Models`: the records the services read and write.
  These are an account, a transaction, a journal entry and its lines, and a
  financial statement and its items. It also holds the three `ValueError`s
  the services raise, as `LedgerError`.
- `utils.dfy` — module `Utils`: these helpers, as functions:
  - `validate_email`;
  - `is_valid_currency_code`;
  - `generate_account_code`, with the clock reading passed in;
  - `convert_currency`.
- `ledger_rules.dfy` — module `LedgerRules`: the bookkeeping rules as functions
  on the accounts table, with the lemmas about them:
  - what a posting does to a balance;
  - the double-entry check and what a journal entry does to balances;
  - which accounts a statement lists.
- `services.dfy` — module `Services`: class `Ledger`, whose fields are the
  tables. Its methods are `create_account`, `post_transaction`,
  `create_journal_entry`, `generate_financial_statement` and
  `convert_and_post_transaction`. Each one updates the fields in place, as the
  source updates rows. Each is proved against the functions of `LedgerRules`.
  Each keeps the object invariant `Valid()`: account ids run from 1 up to a
  counter, and every transaction, line and item refers to rows that exist.

Money is an integer number of minor units (cents), so the debit/credit
equality test is exact. An exchange rate is an exact fraction `num / den`.
`round(amount * rate, 2)` becomes rounding to the nearest minor unit; an exact
tie goes to the even neighbour, as Python's `round` does.

The database session is replaced by the object's fields, and a commit is an
assignment to them. `create_journal_entry` commits its header before it looks
up the lines' accounts (services.py:54-56). The balance updates and line rows
it builds afterwards are only pending in the session until the final commit
(services.py:74). When a line names an unknown account, the method raises and
leaves that pending work uncommitted; the code itself discards nothing. The
work is dropped when the session is rolled back or removed at the end of the
request. The model takes that outcome: header recorded, no lines, no balance
change. The method `StageLines` is that loop, building the pending work.
Journal creation is therefore not all-or-nothing: the header survives a failed
line, and the model follows the code.

`Account.query.all()` gives no ordering guarantee. The model enumerates
accounts in ascending id order, the order of the primary key.

## Model

| member | source | states |
|---|---|---|
| `Utils.ValidateEmail` | backend/app/utils.py:5-11 | `validate_email` accepts exactly the strings `local@label.tail`, optionally followed by one `\n` (what `$` tolerates). `local` is non-empty over `[A-Za-z0-9_.+-]`, `label` is non-empty over `[A-Za-z0-9-]` (no dot), and `tail` is non-empty over `[A-Za-z0-9-.]`. Both directions are proved. |
| `Utils.EmailAcceptedExample` | backend/app/utils.py:10-11 | An ordinary address with `.`, `+` and `-` is accepted. |
| `Utils.EmailAcceptedEdgeCases` | backend/app/utils.py:10-11 | One trailing newline is accepted, and so is a tail made only of dots (`a@b..`). |
| `Utils.EmailRefusedExamples` | backend/app/utils.py:10-11 | Refused: no dot after `@`, an `@` in the tail, and two trailing newlines. |
| `Utils.IndexOf` | backend/app/utils.py:10 | Finds the first occurrence of a character, which is where each greedy character class of the pattern must stop. |
| `Utils.UpperOfLower` | backend/app/utils.py:55 | Upper-casing forgets the input's case and is idempotent. |
| `Utils.CurrencyCodeIgnoresCase` | backend/app/utils.py:50-55 | A code, its lower-cased form and its upper-cased form are accepted alike. |
| `Utils.LowerCaseCodesAccepted` | backend/app/utils.py:54-55 | Each of the ten listed codes is accepted in lower case. |
| `Utils.IsValidCurrencyCode` | backend/app/utils.py:50-55 | An accepted code has exactly three characters, all ASCII letters. |
| `Utils.FormatStamp` | backend/app/utils.py:63 | `%Y%m%d%H%M%S` yields exactly 14 decimal digits. |
| `Utils.StampRoundTrip` | backend/app/utils.py:63 | Reading back a formatted stamp gives the same instant. |
| `Utils.StampParseRoundTrip` | backend/app/utils.py:63 | A 14-character text that reads as a valid instant is exactly that instant's stamp. |
| `Utils.GenerateAccountCode` | backend/app/utils.py:57-64 | The code has length min(3, \|name\|) + 14. Its first min(3, \|name\|) characters are the name's upper-cased. The rest reads back as the supplied instant. |
| `Utils.AccountCodeDeterminesParts` | backend/app/utils.py:62-64 | Equal codes come from the same second and the same upper-cased name prefix. |
| `Utils.AccountCodesCollide` | backend/app/utils.py:62-64 | Conversely, names with the same upper-cased prefix get the same code within one second. Only the storage layer's unique constraint keeps codes unique. |
| `Utils.StampExample` | backend/app/utils.py:63 | 2024-01-31 12:00:00 formats as `20240131120000`. |
| `Utils.AccountCodeExample` | backend/app/utils.py:62-64 | "Cash" at that instant gives `CAS20240131120000`. |
| `Utils.AccountCodeShortNameExample` | backend/app/utils.py:62-64 | A two-character name is used whole: "ap" gives `AP20240131120000`. |
| `Utils.RoundHalfEven` | backend/app/utils.py:72 | The result is within half a unit of n/d, and an exact tie rounds to an even value. |
| `Utils.RoundIsNearest` | backend/app/utils.py:72 | No integer is nearer to n/d than the rounded value. |
| `Utils.ConvertCurrency` | backend/app/utils.py:66-72 | Equal currencies give back the amount whatever the rate. Otherwise the result is within half a minor unit of amount × rate. |
| `Utils.ConvertIsNearest` | backend/app/utils.py:72 | Between different currencies the result is the nearest minor unit to amount × rate. |
| `Utils.ConvertExact` | backend/app/utils.py:66-72 | When amount × rate is a whole number of minor units, that number is returned exactly. |
| `Utils.ConvertExamples` | backend/app/utils.py:70-72 | 100.00 USD at 0.9 is 90.00 EUR. 100.00 USD to USD stays 100.00 at rate 1.3. |
| `LedgerRules.Adjust` | backend/app/services.py:31-33 | Moves the named account's balance by the delta. Its other fields, every other account and the set of ids are unchanged. |
| `LedgerRules.TotalAdjust` | backend/app/services.py:70-71 | Moving one account's balance by a delta moves the sum of balances over a range that holds it by the same delta. |
| `LedgerRules.Post` | backend/app/services.py:21-35 | An unknown account fails first, then an unknown type. A debit adds the amount and a credit subtracts it. The account's other fields, every other account and the set of ids are unchanged. |
| `LedgerRules.PostingReversal` | backend/app/services.py:30-33 | A credit of the amount just debited restores the accounts exactly, and the other way round. |
| `LedgerRules.PostingMovesTotal` | backend/app/services.py:30-33 | A successful posting moves the sum of all balances by +amount (debit) or −amount (credit). |
| `LedgerRules.SumDebits` | backend/app/services.py:48 | The debit total is nonnegative when every debit is, and zero when every debit is zero. |
| `LedgerRules.SumCredits` | backend/app/services.py:49 | The credit total is nonnegative when every credit is, and zero when every credit is zero. |
| `LedgerRules.Balanced` | backend/app/services.py:48-51 | An entry with no lines passes the double-entry check. A one-line entry passes exactly when its debit equals its credit. Any entry whose every line debits what it credits passes. |
| `LedgerRules.MissingIndex` | backend/app/services.py:58-61 | Gives the index of the first line naming an unknown account. Every earlier line names a known one. |
| `LedgerRules.ApplyLine` | backend/app/services.py:70-71 | One line moves its account's balance by debit − credit. Its other fields, every other account and the set of ids are unchanged. |
| `LedgerRules.ApplyLines` | backend/app/services.py:58-72 | Applying journal lines keeps the set of account ids. |
| `LedgerRules.NetChange` | backend/app/services.py:70-71 | An account named by no line has a net change of zero. |
| `LedgerRules.ApplyLinesBalance` | backend/app/services.py:58-72 | Each account's balance changes by the sum, over its own lines, of debit − credit. Nothing else about it changes. |
| `LedgerRules.ApplyLinesTotal` | backend/app/services.py:47-74 | Applying the lines moves the sum of all balances by Σdebit − Σcredit. |
| `LedgerRules.BalancedEntryKeepsTotal` | backend/app/services.py:124-127 | The double-entry rule: a balanced entry leaves the sum of all balances unchanged. |
| `LedgerRules.PostingIsOneLineEntry` | backend/app/services.py:30-71 | A debit posting equals a one-line entry with that debit, and a credit posting equals one with that credit. |
| `LedgerRules.Qualifies` | backend/app/services.py:88-91 | Only a "Balance Sheet" or an "Income Statement" lists an account, and only one of the five standard account types. |
| `LedgerRules.StatementItems` | backend/app/services.py:86-100 | Each item belongs to the statement and names an existing account whose type qualifies. Its amount is that account's current balance. Account ids strictly increase, so there is at most one item per account, in enumeration order. The set of listed ids is exactly the set of qualifying accounts. |
| `LedgerRules.UnknownStatementTypeIsEmpty` | backend/app/services.py:88-93 | A statement type other than "Balance Sheet" or "Income Statement" lists no account. |
| `LedgerRules.StatementsPartitionStandardTypes` | backend/app/services.py:88-91 | No account type is listed by both statements. The types listed by either are exactly Asset, Liability, Equity, Revenue and Expense. |
| `Services.Ledger.CreateAccount` | backend/app/services.py:5-19 | Adds, under the next id, an active account with the given name, type, description and initial balance. Its code is `GenerateAccountCode(name, now)`. No other table changes, and the total balance grows by the initial balance. |
| `Services.TotalExtend` | backend/app/services.py:9-16 | Adding the account with the next id adds its balance to the sum of all balances. |
| `Services.Ledger.PostTransaction` | backend/app/services.py:21-45 | On failure (see `Post`) it returns the error and changes nothing, with no transaction recorded. On success the accounts become `Post`'s result. Exactly one transaction (account id, amount, type, description) is appended, and no other table changes. The total moves by the signed amount. |
| `Services.StageLines` | backend/app/services.py:58-72 | Stops at the first line naming an unknown account, with that id as the error. Otherwise it yields the accounts after all lines and the line rows in order. |
| `Services.Ledger.CreateJournalEntry` | backend/app/services.py:47-75 | An unbalanced entry fails before any write. A balanced one always appends its header. With an unknown account it fails on the first such line, and balances and lines are unchanged. Otherwise the balances become `ApplyLines` of the lines, the line rows are appended under the new entry id, and the sum of all balances is unchanged. |
| `Services.Ledger.GenerateFinancialStatement` | backend/app/services.py:77-103 | Appends the statement header, then exactly `StatementItems` over all accounts in id order. Balances and other tables are unchanged. |
| `Services.Ledger.ConvertAndPostTransaction` | backend/app/services.py:105-110 | Behaves exactly as `PostTransaction` with the amount replaced by `ConvertCurrency(amount, from, to, rate)`. |

`Services.CashScenario` is a client of these contracts, and they suffice to
prove it. A cash account debited 500 and credited 200 stands at 300, and the
balance sheet then lists it with 300.

## Left out

- `backend/app/routes.py`: the HTTP handlers are not part of this model. This
  includes their inline copies of the ledger rules, and statement retrieval by
  id, which exists only there.
- `backend/app/__init__.py`: application and extension wiring, not part of this model.
- `format_datetime`, `parse_datetime` and `response_with` in utils.py are thin
  wrappers over `strptime`, `strftime` and `jsonify`.
- Floating point: money is integer minor units and a rate is an exact fraction.
  Binary rounding artefacts of `round(amount * rate, 2)` are not modelled, and
  neither are false rejections from exact float equality in the journal check.
- Dynamic typing: arguments of the wrong Python type (a non-numeric amount, a
  line without a `debit` or `credit` key, which makes `sum` raise `KeyError`
  before any write) cannot be expressed. A line always carries both amounts, so
  the `0.0` defaults at services.py:66-67 and 71 never apply.
- Utils.Upper: ASCII case mapping only. Python's `str.upper` is Unicode-wide:
  `ß` becomes `SS`, which lengthens an account-code prefix, and `ſ` becomes
  `S`, so `"uſd"` passes the currency check.
- Utils.GenerateAccountCode: the clock reading is a parameter. It must have a
  four-digit year, because `%Y` padding for years below 1000 depends on the
  platform.
- Services.Ledger.CreateAccount: never fails. The failure from the unique
  constraint on the account code (models.py:19) belongs to the storage layer.
- Services.Ledger.CreateJournalEntry: assumes no commit on the same session
  between the failed line and the session's rollback or teardown. A caller that
  catches the error and commits on that session would persist the earlier
  lines' balance changes and rows; that outcome is not modelled.
- Database-filled fields: `created_at`, `date`, `entry_date` and `generated_at`
  are not recorded. Nor is the journal entry's `reference`, which the services
  never set. Row ids are positions counted from 1.
- Persistence: commits, rollbacks and session teardown are modelled only by
  their outcome, as described above. Concurrency and atomicity across requests
  are not modelled.
