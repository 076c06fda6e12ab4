# budgetbot: message interpretation and spending report

A Dafny model of the logic at the heart of `bot.py`, a Telegram bot that
keeps an in-memory list of expenses. A free-text message such as
`"10 food"` or `"spent 4.50 on Shopping"` is read for an amount (the first
match of the regular expression `\d*\.?\d+`) and a category (the first
whitespace-separated word whose upper-case form is one of FOOD, SHOPPING,
TRANSPORTATION, ENTERTAINMENT, SPORT); when both are present the pair is
appended to the list together with the date, otherwise the bot apologises.
On request the bot reports, category by category in the table's declared
order, the sum of the amounts recorded for each category with a positive
sum, writing whole sums without a fractional part, or a fixed
"no spending" reply when there is nothing to report.

Files and modules:

- `options.dfy` (`Options`): the `Option` type.
- `lexis.dfy` (`Lexis`): digits, Python's whitespace set and `str.split()`,
  upper/lower/title case on the characters that matter, `str(int)`.
- `scanner.dfy` (`Scanner`): the first match of `\d*\.?\d+` and the exact
  decimal value of the matched text, with an independent description of what the
  pattern matches (`IsNumeral`) and the proof that the scanner finds the
  leftmost-longest match.
- `ledger.dfy` (`Ledger`): the category table, expense records, per-category
  totals, the report as lines and as text.
- `bot.dfy` (`Bot`): how a message is interpreted, and the class
  `ExpenseBot` whose field `expenses` is the module-level list of `bot.py`,
  with the methods `AddExpense`, `Spending`, `GetExpenses`, `ShowExpenses`
  and `Echo`.

Amounts are exact reals (the value of the matched decimal text), the date
is a parameter of `Echo` instead of `date.today()`, and Python's `repr` of
a non-integral float, which the model does not reproduce, is a parameter
`floatRepr` of the text functions.

## Model

| member | source | states |
|---|---|---|
| `Bot.FirstCategory` | bot.py:80 | the first category word, upper-cased: `None` exactly when no word of the message names a table category, and otherwise always a table name |
| `Bot.Interpret` | bot.py:79-81 | what `echo` would record: when it records anything, the category is a table name and the amount is not negative |
| `Bot.ConfirmationText` | bot.py:83-85 | the confirmation of a recorded entry never reads like the "Sorry" reply or the "no spending" reply |
| `Bot.ExpenseBot.constructor` | bot.py:31 | the list of expenses starts empty |
| `Bot.ExpenseBot.AddExpense` | bot.py:35-37 | the list grows by exactly one, the new record `(amount, category, date)` is last, every earlier record is unchanged, and the whole list is returned |
| `Bot.ExpenseBot.Spending` | bot.py:43 | the loop's sum equals the total of the amounts of exactly the records of that category |
| `Bot.ExpenseBot.GetExpenses` | bot.py:40-48 | the string built by the loop over the table is the text of the report lines `Report(expenses)` |
| `Bot.ExpenseBot.ShowExpenses` | bot.py:68-73 | the reply is the "no spending" message exactly when no table category has a positive total; otherwise it is the report text |
| `Bot.ExpenseBot.Echo` | bot.py:76-87 | when the message has an amount and a category word, exactly one record (first amount, first category, today) is appended and the confirmation is returned; otherwise the ledger is unchanged and the "Sorry" reply is returned; a ledger of table categories and non-negative amounts stays so |
| `Bot.FirstQualifying` | bot.py:80 | picks the index of the first word whose upper-case form is a table name, and `None` exactly when no word is one |
| `Bot.InterpretRecordsIff` | bot.py:79-82 | a message is recorded if and only if it has a full match of the amount pattern and a word naming a category |
| `Bot.InterpretPicksFirst` | bot.py:79-82 | the recorded amount is the value of the leftmost-longest match, non-negative; the recorded category is the upper-cased first qualifying word and is always a table name |
| `Bot.AnyCasingQualifies` | bot.py:80 | a word spelling a table name with any mix of upper- and lower-case letters qualifies and records that name |
| `Bot.QualifyingWordIsLetters` | bot.py:80 | a word naming a category contains no digit, point or whitespace |
| `Bot.NumberIsNoCategory` | bot.py:80 | the decimal rendering of a natural number never names a category |
| `Bot.InterpretAmountFirst` | bot.py:79-82 | `"<n> <word>"` records `(n, WORD)` |
| `Bot.InterpretCategoryFirst` | bot.py:79-82 | `"<word> <n>"` records `(n, WORD)` too: the order of amount and category does not matter |
| `Bot.ReportIsNotNoSpending` | bot.py:69-73 | a non-empty report never reads like the "no spending" reply |
| `Scanner.DigitRunEnd` | bot.py:79 | ends the maximal run of digits that begins at the given position |
| `Scanner.FirstMatchFrom` | bot.py:79 | returns the first position at or after the start where a match can begin, with the greedy end, and `None` exactly when there is none |
| `Scanner.MatchEnd` | bot.py:79 | the greedy end of a match that can begin at the given position: past that position, within the text, and at the end of the text or before a non-digit |
| `Scanner.FirstMatch` | bot.py:79 | the first match of the pattern: `None` exactly when no position can begin one, otherwise a non-empty span inside the text that begins where a match can begin |
| `Scanner.NumeralValue` | bot.py:79 | the exact value of a full match is not negative, and its integer part is the value of the digits before the point |
| `Scanner.NumeralBeginsAtStart` | bot.py:79 | every full match of `\d*\.?\d+` begins with a digit or with a point followed by a digit |
| `Scanner.MatchIsNumeral` | bot.py:79 | the greedy match is a full match of the pattern |
| `Scanner.MatchIsLongest` | bot.py:79 | no longer full match begins where the greedy match begins |
| `Scanner.FirstMatchIsLeftmostLongest` | bot.py:79 | the list of matches is empty exactly when no substring matches, and otherwise its head is the leftmost-longest match |
| `Scanner.LeftmostLongestIsFirstMatch` | bot.py:79 | the leftmost-longest match is always the one picked, so the description is exact |
| `Scanner.FirstAmount` | bot.py:79 | the first amount is never negative |
| `Scanner.FirstAmountIsLeftmostLongest` | bot.py:79 | there is a first amount exactly when the message has a match, and it is the value of the leftmost-longest match |
| `Scanner.NatTextIsNumeral` | bot.py:44-47 | the text of a whole number is a full match of the amount pattern and reads back as that number |
| `Scanner.Examples` | bot.py:79 | `"1.2.3"` matches `"1.2"`, `"5."` matches `"5"`, `"spent .5"` matches `".5"`, and a word without digits has no match |
| `Scanner.AmountExample` | bot.py:79 | `"12.50 on food"` reads 12.5 |
| `Lexis.IsSpace` | bot.py:80 | Python's whitespace set, which holds no digit, no point and no cased letter |
| `Lexis.UpperChar` | bot.py:80 | `str.upper` on one character: a lower-case ASCII letter becomes its upper-case letter, an upper-case letter and every uncased character other than dotless i and long s are left alone |
| `Lexis.Upper` | bot.py:80 | `str.upper` on a word keeps its length, and upper-casing its result again changes nothing |
| `Lexis.Title` | bot.py:47 | `str.title` keeps the length, upper-cases the first character and every character after an uncased one, and lower-cases every character after a cased one |
| `Lexis.NatText` | bot.py:83-85 | `str(int)`: a non-empty digit string without a leading zero |
| `Lexis.NatTextValue` | bot.py:83-85 | reading the digits of `str(n)` back gives `n` |
| `Lexis.WordLength` | bot.py:80 | the leading run of non-whitespace characters ends at whitespace or at the end |
| `Lexis.Words` | bot.py:80 | every word of `split()` is non-empty and free of whitespace |
| `Lexis.WordsKeepEveryOtherChar` | bot.py:80 | the words glued together are the message without its whitespace |
| `Lexis.WordsAroundSpace` | bot.py:80 | a whitespace character splits the words on its two sides independently |
| `Lexis.SingleWord` | bot.py:80 | a non-empty text without whitespace is a single word |
| `Ledger.CatIndex` | bot.py:32 | gives the position of a table name in the table |
| `Ledger.Total` | bot.py:43 | the sum over the records of one category is not negative when no amount is, and is zero when no record has that category |
| `Ledger.LinesFor` | bot.py:42-47 | the loop over some categories gives at most one line per category, each with a positive total |
| `Ledger.Report` | bot.py:42-47 | the loop over the whole table gives at most as many lines as the table has names, each with a positive total |
| `Ledger.IntText` | bot.py:83-85 | `str(int)`: non-empty, with a minus sign exactly for a negative number and only digits otherwise |
| `Ledger.AmountText` | bot.py:44-47 | an amount equal to its integer part is written as a non-empty string of digits when it is not negative |
| `Ledger.LineText` | bot.py:47 | each report line begins with "You've spent $" and ends with a newline |
| `Ledger.ReportText` | bot.py:47 | the text of a non-empty report ends with a newline |
| `Ledger.LinesSound` | bot.py:42-47 | the loop run over any list of names (each prefix of the table, so after every round) gives only lines for names it visited, each with that name's total, which is positive |
| `Ledger.LinesOrdered` | bot.py:42-47 | over names none of which repeats, the loop's lines follow the order of the names |
| `Ledger.LinesComplete` | bot.py:42-47 | each visited name gets a line exactly when its total is positive |
| `Ledger.Position` | bot.py:42 | the position of a visited name in the list of names the loop runs over |
| `Ledger.ReportLines` | bot.py:40-48 | the report has only table categories, in declared order, at most one line each, each line's amount being the sum over the records of exactly that category; a category has a line if and only if that sum is positive |
| `Ledger.ReportEmptyIff` | bot.py:46-48 | the report has no line exactly when no table category has a positive total |
| `Ledger.AddChangesOnlyItsCategory` | bot.py:35-43 | the defining equation of the total, used as a helper: appending a record raises its own category's total by its amount and leaves every other total alone |
| `Ledger.UnknownCategoryIgnored` | bot.py:42-43 | a record whose category is not in the table never changes the report |
| `Ledger.TotalNotPositive` | bot.py:43-46 | with no positive amount recorded, no total is positive |
| `Ledger.NothingSpentNoLines` | bot.py:41-48 | an empty ledger, or one holding only zero amounts, gives no line and the empty string |
| `Ledger.WholeAmountText` | bot.py:44-47 | a whole total is written as digits only, with no fractional part, and reads back as the total |
| `Ledger.ReportTextAppend` | bot.py:47 | the defining equation of the text, used as a helper: each line is appended to the end of the text |
| `Ledger.NextRoundText` | bot.py:42-47 | one round of the loop adds the category's line to the text exactly when its total is positive |
| `Ledger.ReportTextEmptyIff` | bot.py:41-48 | the report text is empty exactly when there is no line, and otherwise begins with "You've spent $" |

## Left out

- The Telegram side (`start`, `help_command`, the `reply_text` and `reply_markdown_v2` calls, `Updater`, the dispatcher and polling in `main`): transport, not logic. The replies are the strings the methods return.
- Loading the environment and configuring logging: process set-up.
- `db.py`: a thin wrapper over PostgreSQL whose month filtering and "delete the latest" behaviour live in SQL the model cannot see; db.py is not part of this model.
- Floating point: amounts are exact reals, so IEEE rounding in `float(n)` and `sum` is not modelled, and neither is overflow. An amount beyond the range of a double (say four hundred nines followed by " food") becomes infinity: `echo` appends that record (bot.py:82) and then `int()` raises `OverflowError` (bot.py:83), so no reply is sent, and every later `get_expenses` raises at bot.py:44. Likewise a finite sum of huge amounts can overflow to infinity in `get_expenses`. The model records the exact value and replies.
- Python's `repr` of a non-integral float is not modelled; the text functions take it as the parameter `floatRepr`. Whether a reply or report is empty does not depend on it.
- `\d` in Python matches every Unicode decimal digit; the model accepts ASCII `0-9` only.
- `Lexis.UpperChar`: maps `a-z`, dotless i and long s (the characters whose upper case is one ASCII letter) and leaves every other character alone, so it agrees with `str.upper` on whether a word names a category but not on the full upper-case text of other words. `Lexis.LowerChar` and `Lexis.Title` cover ASCII only, which is all the table names use.
- `date.today()` is the parameter `today` of `Echo`; nothing in bot.py inspects dates.
- The conversions of a whole amount to `int` in `get_expenses` and `echo` keep every finite value and only change how it is written, so the model applies them in `AmountText` only; on infinity they raise, as the floating-point line says.
- Shorthand aliases, a MISC category, a category prompt for amount-only messages, undo, monthly filtering, grand totals and a rule that amounts be positive do not appear in bot.py, so the model follows the code: `"0 food"` records a zero amount, a message without a category word is simply not understood, and the "no spending" reply is chosen from the emptiness of the report text, so a ledger holding only zero amounts gets it too.
