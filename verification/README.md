# Bank-statement extraction, modelled in Dafny

A verified model of the extraction engine in `backend/app.py`. That engine takes the
text of a bank statement and produces three things:

- **`allowed_file`** (lines 15-18) accepts an uploaded file name when its extension,
  lower-cased, is `pdf`.
- **`extract_account_details`** (lines 20-36) builds a dictionary of account fields.
  It runs six labelled patterns (`Account No`, `A/C Name`, `Address`, `Open Date`,
  `Sanction Limit`, `Interest Rate`) with `re.search` and DOTALL over the whole
  text. Each field that matches stores its group 1, stripped.
- **`extract_transactions`** (lines 38-58) builds one record per ledger line. It walks
  `re.finditer` over the ledger-line pattern of line 41. The record holds the date,
  the stripped description and three amount columns, cleaned by chained
  `str.replace` calls (lines 53-55).

Modules:

- `Options`: the `Option` type.
- `Text`: the Python string operations the code calls. These are `str.strip()`,
  `str.lower()` and `str.replace(p, '')`, together with ASCII `\s`, `\d` and
  letters.
- `Regex`: the part of Python's `re` the patterns need.
  - Patterns are literals, a character class under a counted greedy or lazy
    quantifier, concatenation, `|`, `(?:…)?` and numbered groups.
  - `Successes` lists the end states of a match in the order a backtracking engine
    tries them. `re.match` is its first entry (`MatchAt`), and `re.search` tries the
    start positions left to right (`Search`).
  - The declarative relation `Derives` is its partner. `SuccessesExact` proves that
    the list holds exactly the derivable end states.
- `Upload`: `allowed_file`.
- `AccountDetails`:
  - the six patterns, `Lookup` (lines 32-34), and `Details` as the specification of
    the loop;
  - the method `ExtractAccountDetails`, proved equal to `Details`;
  - the field-by-field promises.
- `Amounts`: the three normalisations of lines 53-55 and the amount shapes.
- `Transactions`:
  - the pattern of line 41 as a `Regex` value (`Ledger`);
  - `Layout` and `Fits`, a declarative reading of the pattern, proved equivalent to
    a match in both directions;
  - `FindAll`, the `finditer` scan, and `Record`, one row;
  - the method `ExtractTransactions`, whose loop appends one record per match.
- `LedgerFacts`: what the rows promise.
  - `RowOf` gives the row of a ledger line read off the text, and `MatchRow` ties it
    to `Record`.
  - The shape of every column is proved.
  - `IsScan` is an independent description of a left-to-right non-overlapping
    scan. `ScanUnique` proves that `FindAll` is the only sequence meeting it.
  - Further lemmas: no ledger line is skipped, the matches come in order, and every
    date is read off the text.

Four consequences of the code are easy to miss:

- **Amounts separated by single blanks give no record.** The pattern at line 41
  puts a mandatory `\s+` before and after each optional amount group. So when the
  credit group is absent, at least two blanks must precede the balance
  (`LedgerFacts.BalanceSpacing`). A match exists exactly where a `Layout` fits
  (`LedgerFacts.MatchIffLine`). A line such as
  `15-Jan-2024 ATM Withdrawal 5,000.00Dr 45,000.00Cr` therefore gives no record.
- **The Debit column keeps `Cr`.** Line 53 removes only `Dr` and commas, so a debit
  written `1,000.00Cr` becomes `1000.00Cr` (`Amounts.DebitOfAmount`,
  `LedgerFacts.DebitColumnShape`).
- **A lone amount without a suffix is read as a debit.** The engine tries group 3
  before group 4. So `20-Feb-2024 Salary Credit  50,000.00   95,000.00Cr` gives
  Debit `50000.00` and an empty Credit. Such an amount reaches the Credit column only
  when a single blank separates it from the balance.
- **A blank line-ended field stores the next line.** The patterns at lines 24, 27
  and 28 read `\s*:\s*(.*?)\n`, searched with DOTALL (line 32). The greedy `\s*`
  after the colon also takes the line break. So `A/C Name: ` followed by a line
  break and a value on the next line stores that value
  (`AccountDetails.NameTakesNextLine`). The empty string is proved only for a text
  that ends at that line break (`AccountDetails.BlankValueIsEmpty`).

## Model

| member | source | states |
|---|---|---|
| Upload.RSplitOnce | backend/app.py:18 | `rsplit('.', 1)`: without a `.` the whole name comes back alone; with one, the two parts are the text before and after the last `.`, and the second part has no `.` |
| Upload.RSplitOnceUnique | backend/app.py:18 | the split at the last `.` is the only split of the name whose second part has no `.` |
| Upload.AllowedFile | backend/app.py:18 | an allowed name has at least four characters, a `.` fourth from the end, and a last three that lower-case to `pdf`; the converse is `Upload.AllowedFileIff` |
| Upload.AllowedFileIff | backend/app.py:15-18 | a name is allowed exactly when it has at least four characters, the fourth from the end is `.`, and the last three, lower-cased, are `pdf` |
| Upload.AllowedFileAcceptsBare | backend/app.py:17-18 | `.pdf` is allowed |
| Upload.AllowedFileAcceptsUpper | backend/app.py:17-18 | `X.PDF` is allowed: the extension is compared lower-cased |
| Upload.AllowedFileRejectsDouble | backend/app.py:17-18 | `a.pdf.exe` is refused: only the text after the last `.` counts |
| Upload.AllowedFileRejectsUndotted | backend/app.py:17-18 | `pdf` and `report` are refused: a name without `.` never passes |
| Text.Lower | backend/app.py:18 | `lower()` keeps the length, turns each ASCII capital into the letter 32 code points above it, keeps every other character, and leaves no capital in the result |
| Text.LowerIdempotent | backend/app.py:18 | lower-casing an already lower-cased name changes nothing |
| Text.Remove | backend/app.py:53-55 | `replace(p, '')` never makes the text longer |
| Text.RemoveCharGone | backend/app.py:53-55 | after `replace(c, '')` for a single character `c`, no `c` is left |
| Text.Strip | backend/app.py:34 | `strip()` gives a trimmed slice of its input, with only whitespace before and after it |
| Text.StripUnique | backend/app.py:34 | whitespace, a trimmed string, whitespace: stripping gives back exactly the trimmed string |
| Text.StripTrimmed | backend/app.py:34 | stripping a trimmed string leaves it unchanged |
| Regex.Run | backend/app.py:23 | a run of a character class stops at the bound, at the end of the text, or at the first character outside the class |
| Regex.RunLongest | backend/app.py:23 | every run of the class from that index, within the bound, is at most as long as `Run` |
| Regex.Successes | backend/app.py:41 | the end states of a match in the order the backtracking engine tries them; its promises are carried by `Regex.SuccessesValid`, `Regex.SuccessesExact` and `Regex.ContinueFirst` |
| Regex.SuccessesValid | backend/app.py:41 | every end state of a match lies inside the text, after the start, with every group inside the text |
| Regex.Sound | backend/app.py:41 | every end state the backtracking matcher lists is derivable |
| Regex.Complete | backend/app.py:41 | every derivable end state appears in the backtracking matcher's list |
| Regex.SuccessesExact | backend/app.py:41 | an end state is in the matcher's list if and only if it is derivable |
| Regex.ContinueFirst | backend/app.py:41 | the first success of a sequence comes from the first intermediate state from which the rest of the pattern succeeds |
| Regex.CatFirst | backend/app.py:41 | the first match of `a b` is the first match of `b` after the first state of `a` from which `b` succeeds |
| Regex.RepeatEmpty | backend/app.py:24 | where no character of the class follows, `cls*` followed by the rest matches exactly as the rest alone |
| Regex.GreedyFirst | backend/app.py:24 | where the rest matches after the longest run, the first success of a greedy quantifier followed by the rest takes that whole run |
| Regex.LazyGroupFirst | backend/app.py:24-28 | the first match of `(.*?)b` ends its group at the first position from which `b` matches |
| Regex.GroupFirst | backend/app.py:41 | a group's first match is its body's first match, with the group recorded |
| Regex.MatchAt | backend/app.py:43 | `pattern.match(t, i)` succeeds exactly when the pattern has a success from `i`; the match starts at `i` and its groups lie in the text |
| Regex.MatchDerives | backend/app.py:43 | the match at `i` is a derivation from `i` |
| Regex.DerivesMatch | backend/app.py:43 | a derivation from `i` means the match at `i` succeeds |
| Regex.Search | backend/app.py:32 | `re.search` returns the match at the first index from which the pattern matches, and `None` only when it matches nowhere |
| Regex.SearchFinds | backend/app.py:32 | when the pattern first matches at `j`, the search returns the match at `j` |
| Regex.SearchMisses | backend/app.py:32 | when the pattern matches nowhere, the search returns `None` |
| Regex.Captured | backend/app.py:34 | `group(n)` has a value exactly when group `n` took part in the match, and that value is the text between the group's start and end |
| AccountDetails.Key | backend/app.py:23-28 | every field's key is one of the six names |
| AccountDetails.KeyInjective | backend/app.py:22-29 | the six fields have six different keys |
| AccountDetails.Pattern | backend/app.py:23-28 | the six patterns of lines 23-28, each its label, `:`, `\s*` and a value pattern; what they match is carried by `AccountDetails.FieldMatchLabel`, `DigitsFirst`, `UpToFirst` and `DateFirst` |
| AccountDetails.Lookup | backend/app.py:32-34 | a field has a value exactly when its search succeeds, and the value is trimmed |
| AccountDetails.Details | backend/app.py:29-36 | the dictionary holds only the six keys; the entries are described by `AccountDetails.DetailsKeys` |
| AccountDetails.DetailsOverEntry | backend/app.py:31-34 | after the loop, a field's key is present exactly when its lookup found a value, and it maps to that value |
| AccountDetails.DetailsOverStep | backend/app.py:31-34 | one pass of the loop adds the field's key when its pattern matches and changes nothing otherwise |
| AccountDetails.DetailsOverTrimmed | backend/app.py:34 | when every lookup gives a trimmed value, every stored value is trimmed |
| AccountDetails.DetailsOverEmpty | backend/app.py:31-34 | when no lookup gives a value, the dictionary stays empty |
| AccountDetails.ExtractAccountDetails | backend/app.py:20-36 | the loop over the six patterns returns exactly `Details(text)` |
| AccountDetails.DetailsKeys | backend/app.py:31-34 | a key is present if and only if its pattern matches at some index of the text, and it then holds the stripped group 1 of the first match |
| AccountDetails.FieldMatchLabel | backend/app.py:32 | a field's match starts at its label and has a group 1 |
| AccountDetails.FieldNeedsLabel | backend/app.py:32 | a field has a value only when its label occurs in the text |
| AccountDetails.DetailsWithoutLabels | backend/app.py:20-36 | a text in which none of the six labels occurs gives an empty dictionary |
| AccountDetails.DetailsOfEmptyText | backend/app.py:20-36 | the empty text gives an empty dictionary |
| AccountDetails.DetailsTrimmed | backend/app.py:34 | every stored value has no leading or trailing whitespace |
| AccountDetails.DigitsFirst | backend/app.py:23 | the first success of `(\d+)` captures the whole run of digits and no digit follows it |
| AccountDetails.UpToFirst | backend/app.py:24-28 | the first success of `(.*?)stop` ends its group at the first occurrence of `stop` |
| AccountDetails.DateFirst | backend/app.py:26 | the first success of `(\d{2}-\d{2}-\d{4})` captures exactly the next ten characters |
| AccountDetails.DateShape | backend/app.py:26 | where that value pattern matches, ten characters of the form `NN-NN-NNNN` follow |
| AccountDetails.AccountNoIsDigitRun | backend/app.py:23 | `account_no` is a non-empty run of digits that no further digit follows, and it is stored unchanged |
| AccountDetails.OpenDateCapture | backend/app.py:26 | `open_date` is the stripped ten characters that follow the label at some index past it, and they have the date pattern's shape |
| AccountDetails.OpenDateShape | backend/app.py:26 | `open_date` is exactly ten characters of the form `NN-NN-NNNN` |
| AccountDetails.LineFieldsSingleLine | backend/app.py:24-28 | `account_name`, `sanction_limit` and `interest_rate` never contain a line break, despite DOTALL |
| AccountDetails.AddressStopsAtCity | backend/app.py:25 | `address` never contains `\nCity` |
| AccountDetails.LineBreakAfter | backend/app.py:24-28 | a line-ended field's group 1 ends at a line break after its label, and the match ends just past that line break |
| AccountDetails.LineFieldNeedsBreak | backend/app.py:24-28 | a text without a line break gives none of the three line-ended fields |
| AccountDetails.BlankNameMatches | backend/app.py:24 | a text that consists only of `A/C Name:`, whitespace and a final line break matches the `account_name` pattern |
| AccountDetails.BlankValueIsEmpty | backend/app.py:24 | a text that consists only of `A/C Name:`, whitespace and a final line break stores `account_name` as the empty string |
| AccountDetails.EmptyNamePresent | backend/app.py:24 | the text `A/C Name: \n`, which ends at its line break, gives the key `account_name`, present with value `""` |
| AccountDetails.NextLineUpTo | backend/app.py:24 | from the start of a value with no line break, `(.*?)\n` captures the whole value and ends just past the line break after it |
| AccountDetails.NameFirst | backend/app.py:24 | on `A/C Name:`, whitespace, a line break and a non-empty trimmed value, the first match is the first success of `(.*?)\n` from the start of the value: `\s*` takes the line break too |
| AccountDetails.NameTakesNextLine | backend/app.py:22-34 | `A/C Name:`, whitespace, a line break, a non-empty trimmed value without line break and a final line break: the stored `account_name` is that value, not `""` |
| AccountDetails.NameOnNextLine | backend/app.py:22-34 | `A/C Name: \nJo\n` gives the key `account_name` with value `Jo` |
| AccountDetails.EmptyNameAbsent | backend/app.py:24 | `A/C Name: ` with no line break gives no `account_name` key |
| Amounts.PlainOfAmount | backend/app.py:41 | dropping the separators of a `[\d,]+\.\d{2}` amount leaves digits, one point and two cents, in order |
| Amounts.NormalizeDebit | backend/app.py:53 | the Debit column has no comma, is no longer than the group, and is `""` when the group is; its value on amounts is `Amounts.DebitOfAmount` |
| Amounts.NormalizeCredit | backend/app.py:54 | the Credit column has no comma, is no longer than the group, and is `""` when the group is; its value on amounts is `Amounts.CreditOfAmount` |
| Amounts.NormalizeBalance | backend/app.py:55 | the Balance column has no comma and is no longer than the group; its value on amounts is `Amounts.BalanceOfAmount` |
| Amounts.DebitOfAmount | backend/app.py:53 | the Debit column of an amount with a suffix loses its commas and a `Dr`, but keeps a `Cr` |
| Amounts.CreditOfAmount | backend/app.py:54 | the Credit column loses only the commas and is a plain amount |
| Amounts.BalanceOfAmount | backend/app.py:55 | the Balance column loses the commas and its `Dr` or `Cr`, and is a plain amount |
| Amounts.DirectionAndSeparatorsCommute | backend/app.py:53-55 | on amount-shaped text, removing `Dr` or `Cr` and removing commas give the same result in either order |
| Amounts.RemovalOrderMatters | backend/app.py:53-55 | on `D,r` the two orders differ: `Dr` one way, `""` the other |
| Transactions.DateDerives | backend/app.py:41 | group 1 matches exactly a `DD-Mon-YYYY` token of eleven characters |
| Transactions.BalanceTailDerives | backend/app.py:41 | `\s+` and group 5 read blanks and then an amount with a mandatory `Dr`/`Cr` |
| Transactions.CreditSlotDerives | backend/app.py:41 | the blanks, the optional group 4 and the balance read an optional credit amount and the balance with the required blanks |
| Transactions.DebitSlotDerives | backend/app.py:41 | the blanks, the optional group 3 and the rest read an optional debit amount, with an optional suffix, and the rest of the amounts |
| Transactions.DescSlotDerives | backend/app.py:41 | everything after the date reads as blanks, a description with no line break, and the amounts, with the groups they report |
| Transactions.LedgerDerives | backend/app.py:41 | a derivation of the whole pattern gives a `Layout` that fits the text, with the match's end and groups |
| Transactions.BalanceTailFrom | backend/app.py:41 | blanks and a suffixed balance derive the balance tail |
| Transactions.CreditSlotFrom | backend/app.py:41 | a credit part laid out in the text derives the credit slot |
| Transactions.DebitSlotFrom | backend/app.py:41 | an amounts part laid out in the text derives the debit slot |
| Transactions.DescSlotFrom | backend/app.py:41 | a layout after the date derives the rest of the pattern |
| Transactions.DateFrom | backend/app.py:41 | a `DD-Mon-YYYY` token derives the date group's body |
| Transactions.LedgerFrom | backend/app.py:41 | every layout that fits the text derives the whole pattern, with the groups `Groups(l)` |
| Transactions.FitsLength | backend/app.py:41 | a ledger line is at least 21 characters long |
| Transactions.MatchLayout | backend/app.py:41 | the match at `i` is the match of a layout that fits at `i` |
| Transactions.MatchAdvances | backend/app.py:43 | every match spans at least 21 characters, so `finditer` never yields an empty match |
| Transactions.FindAll | backend/app.py:43 | every match `finditer` yields is the match of the pattern at its own start |
| Transactions.Record | backend/app.py:44-56 | a record's description is trimmed and none of its three amount columns has a comma; its columns are `LedgerFacts.MatchRow` |
| Transactions.TransactionsOf | backend/app.py:38-58 | one record per `finditer` match, in the same order |
| Transactions.Records | backend/app.py:50-56 | one record per match, in the same order |
| Transactions.RecordsSnoc | backend/app.py:50 | appending the record of the next match extends the rows by exactly that record |
| Transactions.ExtractTransactions | backend/app.py:38-58 | the loop returns exactly the records of the `finditer` matches, in order |
| LedgerFacts.AmountIs | backend/app.py:41 | an amount in the text has the `[\d,]+\.\d{2}` shape |
| LedgerFacts.DirectionIs | backend/app.py:41 | a direction in the text is `Dr` or `Cr` |
| LedgerFacts.GroupsAt | backend/app.py:41 | groups 1, 2 and 5 are always reported; group 3 is reported exactly when there is a debit, and group 4 exactly when there is a credit |
| LedgerFacts.DebitRow | backend/app.py:53 | the Debit column of a line is its debit amount without commas, plus `Cr` when it carried one, or `""` without a debit |
| LedgerFacts.CreditRow | backend/app.py:54 | the Credit column of a line is its credit amount without commas, or `""` without a credit |
| LedgerFacts.BalanceRow | backend/app.py:55 | the Balance column is the balance amount without commas or suffix, and is a plain amount |
| LedgerFacts.LayoutRecord | backend/app.py:44-56 | a match whose groups are those of a fitting layout records that layout's row |
| LedgerFacts.MatchRow | backend/app.py:44-56 | the match at `i` has a layout that fits at `i`, its groups are that layout's groups, and its record is the row read off that layout |
| LedgerFacts.MatchColumns | backend/app.py:46-47 | in the record of the match at `i`, Debit is `""` exactly when group 3 took no part, and Credit exactly when group 4 took no part |
| LedgerFacts.RowsMissingGroups | backend/app.py:43-56 | in every row returned, Debit is `""` exactly when group 3 of its match took no part, and Credit exactly when group 4 did not |
| LedgerFacts.DateShape | backend/app.py:44 | a date is eleven characters: two digits, `-`, three ASCII letters, `-`, four digits |
| LedgerFacts.DescriptionShape | backend/app.py:45 | a stripped description read without DOTALL is trimmed and has no line break |
| LedgerFacts.KeptCr | backend/app.py:53 | a plain amount followed by `Cr` is a Debit column |
| LedgerFacts.DebitColumnShape | backend/app.py:46 | the Debit column is `""` exactly when group 3 did not take part; otherwise it is a plain amount, possibly followed by `Cr` |
| LedgerFacts.CreditColumnShape | backend/app.py:47 | the Credit column is `""` exactly when group 4 did not take part; otherwise it is a plain amount |
| LedgerFacts.RowShape | backend/app.py:44-55 | the row of a line is well formed, and Debit and Credit are empty exactly when their groups are missing |
| LedgerFacts.RowsWellFormed | backend/app.py:50-56 | every row has such a date, a trimmed one-line description, a non-empty plain balance, and a Debit and Credit of the stated shapes |
| LedgerFacts.SearchLeftmost | backend/app.py:43 | a search from `from` finds the leftmost match from there, and finds nothing exactly when no index up to the end matches |
| LedgerFacts.LeftmostSearch | backend/app.py:43 | the leftmost match from `from` is what the search returns |
| LedgerFacts.ScanCons | backend/app.py:43 | a leftmost match followed by a scan from its end is a scan |
| LedgerFacts.ScanTail | backend/app.py:43 | what follows the first match of a scan is a scan from that match's end |
| LedgerFacts.ScanHead | backend/app.py:43 | the first match of a scan is the search result from where it starts, and an empty scan means the search fails |
| LedgerFacts.FindAllScan | backend/app.py:43 | `finditer`'s matches are a left-to-right scan: each is the leftmost match from the end of the one before, and none follows the last |
| LedgerFacts.FindAllFrom | backend/app.py:43 | `finditer` yields the first search result and then goes on from its end |
| LedgerFacts.ScanUnique | backend/app.py:43 | any sequence of matches that is a left-to-right scan equals `finditer`'s |
| LedgerFacts.MatchIffLine | backend/app.py:41 | the pattern matches at `i` if and only if a ledger line starts at `i` |
| LedgerFacts.ScanCovers | backend/app.py:43 | an index before the end of a match lies between some match's resume point and its end |
| LedgerFacts.EveryLineCovered | backend/app.py:43 | every index where a ledger line starts is a match start or lies inside an earlier match: no line is skipped |
| LedgerFacts.MatchesInOrder | backend/app.py:43 | matches do not overlap and come in increasing order of start, each at least 21 characters long |
| LedgerFacts.MatchDate | backend/app.py:44 | the record of the match at `i` has as its date the eleven characters at `i` |
| LedgerFacts.RowsFromLines | backend/app.py:43-51 | each row's match starts a ledger line, and its date is read off the text there |
| LedgerFacts.RowsNeedADate | backend/app.py:39-43 | a text without any `DD-Mon-YYYY` token gives no rows |
| LedgerFacts.BalanceSpacing | backend/app.py:41 | a blank precedes the balance, and another blank or a credit digit precedes that one; without a credit, two blanks precede it, and with neither a debit nor a credit, three |

## Left out

- The Flask application:
  - the routes `upload_file` and `health_check`;
  - the configuration, CORS and the HTTP request and response handling;
  - the check that rejects an extraction with no transactions.

  These are HTTP input and output around the extractors.
- `process_pdf` and the PyMuPDF text extraction. This is a foreign library call. The
  model takes the concatenated page text as its input.
- The Excel export through pandas and `send_file`: foreign libraries and binary
  output.
- `secure_filename` and the temporary files: an unseen library and filesystem work.
- The React front end.
- Unicode: `\s`, `\d`, `strip()` and `lower()` are modelled on ASCII, where `\s`
  and `strip()` share Python's `str.isspace` set. Non-ASCII whitespace, digits and
  case mappings are not modelled.
- The dictionary's insertion order. The account details are a `map`, so their key
  order is not modelled.
- `finditer`'s rule for empty matches. It never applies, because every match of line
  41 is at least 21 characters long (`Transactions.MatchAdvances`).
- Python's regular-expression engine beyond the constructs the seven patterns use.
  Those constructs are literals, a single character class under a counted quantifier,
  concatenation, `|`, `(?:…)?` and numbered groups.
- Worked examples on particular ledger lines are not stated as lemmas. This covers the
  single-spaced line above and the normalisation of `12,345.00Dr`. Only their general
  forms are proved: `LedgerFacts.BalanceSpacing`, `LedgerFacts.MatchIffLine` and
  `Amounts.DirectionAndSeparatorsCommute`.
- Which column a lone unsuffixed amount reaches is not stated as a lemma. With at
  least two blanks on each side of the amount, `Fits` admits both readings, and only
  the order in which the engine tries them decides.
  The row lemmas state only that each column is `""` exactly when its group is
  missing (`LedgerFacts.RowsMissingGroups`).
- The next-line reading of a blank line-ended field is stated as a lemma only for
  `account_name`. The `sanction_limit` and `interest_rate` patterns have the same
  `\s*:\s*(.*?)\n` shape.
