# citycosy-aide-compta in Dafny

This project models the logic of three pages of the CityCosy accounting helper, a Next.js
application for a short-term-rental agency in Strasbourg.

- **The fusion page** (`app/page.js`):
  - It reads a Lodgify bookings export and an Airbnb export. Both go through its own CSV reader, `parseCSV`.
  - It maps every row to a common booking record by taking the first non-empty of alternative columns.
  - It merges the two lists (`fusionner`): Lodgify then Airbnb, stably sorted by apartment name and then by arrival date.
  - It writes the merged list back as a CSV text (`exporter`) and can clear everything (`reinitialiser`).
- **The two invoice pages** (`app/factures/page.js`, `app/factures-gestion/page.js`):
  - Each reads an invoice CSV with `,` or `;` as delimiter and keeps the rows whose invoice number and client are filled in. The second page uses the owner's name as the client column.
  - Each formats dates (`formatDate`) and pre-cleans amounts (`parseAmount`).
  - Each lets the user step through the invoices with clamped Previous/Next buttons.
  - The first page also builds a stay reference string.

`fusionner` does no code matching, payout grouping, deduplication, status or alert computation: it is a concatenation followed by a sort.

Modules:

- `Wrappers` (`wrappers.dfy`): `Option`.
- `Strings` (`strings.dfy`): the JavaScript string operations the pages use.
  - `trim` with ECMAScript's whitespace set.
  - The quote stripping `replace(/^"|"$/g, '')`.
  - `split` on a set of single characters, via a fold `Cut`, and `join`.
  - `replace(',', '.')` and `replace(/[€$,]/g, '')`.
  - Lexicographic order.
- `Seqs` (`seqs.dfy`): `filter` and the subsequence relation.
- `Csv` (`csv.dfy`): the quote-aware reader shared by all three pages, parameterised by its delimiter set.
  - The character loop is a method, `SplitValues`, proved against a fold over the scanner state (`Run`).
  - The row builder and the reader are also methods proved against functions.
- `Fusion` (`fusion.dfy`): the booking record, the two mappings, the sort order and its stable insertion sort, the export text, and the page state.
  - The stable insertion sort works in place on an array (`SortInPlace`).
  - The page state is a class `FusionPage` with the three lists the page keeps.
- `Invoices` (`invoices.dfy`): the invoice reader, `formatDate`, `parseAmount`, the reference, and the navigator.
  - The navigator is a class `Navigator`, shared by both invoice pages and parameterised by the required columns.

Two things the browser supplies are parameters of the model:

- The arrival-date key `new Date(arrivee)` is a function `date: string -> int`.
- The rendering of an amount in the exported text is a function `printed: string -> string`. That rendering is `parseFloat` followed by number-to-string.

## Model

| member | source | states |
|---|---|---|
| Strings.Trim | citycosy-aide-compta/app/page.js:15 | `trim` leaves no whitespace at either end, keeps an already trimmed string, and adds no character |
| Strings.IsSpace | citycosy-aide-compta/app/page.js:15 | the characters `trim` removes, ECMAScript WhiteSpace and LineTerminator; Trim and TrimSpec state the trim over them |
| Strings.TrimSpec | citycosy-aide-compta/app/page.js:15 | `trim` returns a contiguous slice of its input, and it returns `''` exactly when the input is all whitespace |
| Strings.StripQuotes | citycosy-aide-compta/app/page.js:15 | the quote-stripping replace removes one leading and one trailing `"` when both are there, and changes nothing in a string without `"`; StripQuotesLone covers a `"` at one end only and a string with `"` at neither end |
| Strings.StripQuotesLone | citycosy-aide-compta/app/page.js:15 | a `"` at only one end is removed alone, a lone `"` becomes the empty string, and a string with no `"` at either end is unchanged even with `"` inside |
| Strings.Clean | citycosy-aide-compta/app/page.js:27 | a value is trimmed and then unquoted; a trimmed value without `"` is unchanged |
| Strings.Split | citycosy-aide-compta/app/page.js:15 | `split` gives one more piece than the number of separator characters |
| Strings.SplitJoin | citycosy-aide-compta/app/page.js:104 | joining pieces that do not contain the separator and splitting again gives back the pieces |
| Strings.JoinSplit | citycosy-aide-compta/app/page.js:12 | splitting on a character and joining with it gives back the text |
| Strings.Join | citycosy-aide-compta/app/page.js:104 | `join(sep)`: the pieces with `sep` between them; SplitJoin and JoinSplit make it the inverse of `split` |
| Strings.ReplaceFirst | citycosy-aide-compta/app/page.js:57 | `replace(',', '.')` keeps the length and changes nothing in a string without `,` |
| Strings.ReplaceFirstAt | citycosy-aide-compta/app/page.js:57 | only the first `,` is replaced, and every later character is kept |
| Strings.RemoveAll | citycosy-aide-compta/app/page.js:78 | `replace(/[€$,]/g, '')` leaves none of the characters, keeps exactly the others, and shortens the string by their count |
| Strings.RemoveAllSingle | citycosy-aide-compta/app/page.js:78 | one character is dropped when it is among the removed ones and kept otherwise |
| Strings.RemoveAllAppend | citycosy-aide-compta/app/page.js:78 | removal works piece by piece, so the kept characters keep their order and number |
| Strings.LexLessIrreflexive | citycosy-aide-compta/app/page.js:89 | no apartment name sorts before itself |
| Strings.LexLessTransitive | citycosy-aide-compta/app/page.js:89 | the order on apartment names is transitive |
| Strings.LexLessTotal | citycosy-aide-compta/app/page.js:89 | two different apartment names are always ordered one way or the other |
| Strings.LexLess | citycosy-aide-compta/app/page.js:89 | the code-point order standing for `localeCompare`; LexLessIrreflexive, LexLessTransitive and LexLessTotal make it a strict total order |
| Seqs.Filter | citycosy-aide-compta/app/factures/page.js:43 | `filter` keeps only elements that pass and never lengthens |
| Seqs.FilterMembers | citycosy-aide-compta/app/factures/page.js:43 | an element is kept exactly when it is in the input and passes |
| Seqs.FilterSubsequence | citycosy-aide-compta/app/factures/page.js:43 | the kept elements are in their original order |
| Seqs.FilterAppend | citycosy-aide-compta/app/factures/page.js:43 | filtering a concatenation is the concatenation of the filtered parts |
| Seqs.FilterCount | citycosy-aide-compta/app/factures/page.js:43 | a passing element is kept as many times as it occurs, a failing one never |
| Seqs.FilterAllPass | citycosy-aide-compta/app/page.js:12 | when every element passes, `filter` returns its input |
| Csv.SplitValues | citycosy-aide-compta/app/page.js:18-33 | the character loop computes the fold `Tokenize` over the scanner state |
| Csv.Step | citycosy-aide-compta/app/page.js:23-31 | one character of the loop body: a `"` toggles `inQuotes`, a delimiter outside quotes closes the field, any other character is appended; RunCounts, RunText and SplitValues state its effect |
| Csv.Run | citycosy-aide-compta/app/page.js:22-32 | the loop over a line as a fold of Step; RunCounts and RunAppend state what it counts and that it composes over concatenation |
| Csv.Tokenize | citycosy-aide-compta/app/page.js:18-33 | the values of a line, the last field pushed after the loop; TokenizeCount, TokenizeNoQuote, TokenizePlain and TokenizeRendered state them |
| Csv.RunCounts | citycosy-aide-compta/app/page.js:22-33 | after a prefix, the scanner is inside quotes exactly when it has met an odd number of `"`, and it has pushed one value per delimiter met outside quotes |
| Csv.TokenizeCount | citycosy-aide-compta/app/factures/page.js:25-36 | a line gives one more value than its delimiters outside quotes |
| Csv.TokenizeNoQuote | citycosy-aide-compta/app/page.js:24-31 | no value ever contains a `"` |
| Csv.TokenizePlain | citycosy-aide-compta/app/page.js:22-33 | on a line without `"`, the values are the cleaned pieces of a plain split on the delimiters |
| Csv.RunText | citycosy-aide-compta/app/page.js:24-31 | text without `"` read inside quotes, or text without delimiters, is appended to the current field; a delimiter inside quotes stays in the field |
| Csv.TokenizeRendered | citycosy-aide-compta/app/page.js:22-33 | cells written bare or quoted and joined by a delimiter are read back as their texts |
| Csv.RowOfKeys | citycosy-aide-compta/app/page.js:35-38 | a row has a key exactly for each header |
| Csv.RowOf | citycosy-aide-compta/app/page.js:35-38 | the row `forEach` builds, a later duplicate header overwriting an earlier one; RowOfKeys and RowOfAt state its keys and values |
| Csv.RowOfAt | citycosy-aide-compta/app/page.js:35-38 | for a header not repeated later, the row holds the value at its position, or `''` if that value is missing or empty |
| Csv.ValueAt | citycosy-aide-compta/app/page.js:37 | the value at position `i`, or `''` when the line has fewer values: a missing value is falsy and an empty one is already `''`; RowOfAt puts it under header `i` |
| Csv.BuildRow | citycosy-aide-compta/app/page.js:35-39 | the `forEach` loop builds the row `RowOf` describes |
| Csv.Headers | citycosy-aide-compta/app/factures/page.js:19 | the header line gives one more name than it has delimiters, with no quote awareness |
| Csv.Lines | citycosy-aide-compta/app/page.js:12 | every kept line is non-blank, and there are no more lines than newlines plus one |
| Csv.NonBlank | citycosy-aide-compta/app/page.js:12 | the filter `line => line.trim()`; NoLinesIffBlank and LinesOfJoin state which lines it keeps |
| Csv.ParseRows | citycosy-aide-compta/app/page.js:12-17 | there is one row per non-blank line after the first |
| Csv.RowsOf | citycosy-aide-compta/app/page.js:17-40 | the `.map` over the data lines, one row per line; RowsOfAt gives row `i`, ReadBody is the loop proved equal to it |
| Csv.LineRow | citycosy-aide-compta/app/page.js:18-39 | one data line tokenized and made into a row; RowsOfAt and ParseRowsAt state its cells |
| Csv.RowsOfAt | citycosy-aide-compta/app/page.js:17-40 | row `i` is built from the tokens of data line `i` (`LineRow`) |
| Csv.NoLinesIffBlank | citycosy-aide-compta/app/page.js:12-13 | the text has no non-blank line exactly when it is all whitespace |
| Csv.ParseRowsNone | citycosy-aide-compta/app/page.js:12-13 | the reader stops early exactly when the text is all whitespace |
| Csv.LinesOfJoin | citycosy-aide-compta/app/page.js:12 | non-blank lines without a newline, joined by newlines, are read back as those lines |
| Csv.ParseRowsAt | citycosy-aide-compta/app/page.js:11-41 | cell `j` of row `i` is the token at position `j` of line `i + 1`, taken over the cleaned header names |
| Csv.ReadBody | citycosy-aide-compta/app/page.js:17-40 | the `.map` over the data lines builds the rows `RowsOf` describes |
| Csv.ReadRows | citycosy-aide-compta/app/factures/page.js:17-43 | the reader computes `ParseRows` for any delimiter set |
| Csv.ParseCsv | citycosy-aide-compta/app/page.js:11-41 | `[]` for an all-whitespace text, otherwise one row per non-blank line after the header line |
| Csv.ReadCsv | citycosy-aide-compta/app/page.js:11-41 | `parseCSV` returns `ParseCsv`, and `[]` for an all-whitespace text |
| Fusion.FirstNonEmptyHit | citycosy-aide-compta/app/page.js:51-55 | a field takes the value of the first alternative column that is present and non-empty |
| Fusion.FirstNonEmptyMiss | citycosy-aide-compta/app/page.js:51-55 | a field falls back to `''` (or `'0'` for the amount) when no alternative column gives a value |
| Fusion.FirstNonEmpty | citycosy-aide-compta/app/page.js:51-55 | `row.A || row.B || fallback` is the fallback or the non-empty value of one of the columns |
| Fusion.LodgifyBooking | citycosy-aide-compta/app/page.js:50-58 | a Lodgify record is tagged `Lodgify`, and its amount text is as long as the raw one |
| Fusion.AirbnbBooking | citycosy-aide-compta/app/page.js:71-79 | an Airbnb record is tagged `Airbnb`, and its amount text has no `€`, `$` or `,` |
| Fusion.LodgifyAmount | citycosy-aide-compta/app/page.js:57 | only the first `,` of the Lodgify amount becomes `.`, and an amount without `,` is kept |
| Fusion.AirbnbAmount | citycosy-aide-compta/app/page.js:78 | the Airbnb amount is the raw amount with `€`, `$` and `,` removed piece by piece, the other characters in order |
| Fusion.AirbnbSeparator | citycosy-aide-compta/app/page.js:78 | one `,`, `€` or `$` between two runs free of them is dropped: `1,234` gives `1234` |
| Fusion.LodgifyBookingsAt | citycosy-aide-compta/app/page.js:50-58 | record `i` is the mapping of row `i`, one record per row |
| Fusion.AirbnbBookingsAt | citycosy-aide-compta/app/page.js:71-79 | record `i` is the mapping of row `i`, one record per row |
| Fusion.LodgifyBookings | citycosy-aide-compta/app/page.js:50-58 | `parsed.map` with the Lodgify mapping, one record per row; LodgifyBookingsAt gives record `i` |
| Fusion.AirbnbBookings | citycosy-aide-compta/app/page.js:71-79 | `parsed.map` with the Airbnb mapping, one record per row; AirbnbBookingsAt gives record `i` |
| Fusion.LessTrichotomy | citycosy-aide-compta/app/page.js:87-92 | two bookings compare less, greater, or equal on apartment and date, and never both less and greater |
| Fusion.LessTransitive | citycosy-aide-compta/app/page.js:87-92 | the comparator's order is transitive |
| Fusion.LessSplit | citycosy-aide-compta/app/page.js:87-92 | the comparator's incomparability is transitive, so the order is a strict weak order |
| Fusion.Less | citycosy-aide-compta/app/page.js:87-92 | the comparator: apartment names first, arrival keys for the same apartment; LessTrichotomy, LessTransitive and LessSplit make it a strict weak order |
| Fusion.StableSort | citycosy-aide-compta/app/page.js:87-92 | the sort keeps the length; StableSortPermutes, StableSortSorted and StableSortTies state that it is a stable sort |
| Fusion.StableSortPermutes | citycosy-aide-compta/app/page.js:86-87 | sorting neither adds nor drops a booking |
| Fusion.StableSortSorted | citycosy-aide-compta/app/page.js:87-92 | the sorted list is ordered by apartment, then by arrival date |
| Fusion.StableSortTies | citycosy-aide-compta/app/page.js:87-92 | bookings with the same apartment and date keep their input order |
| Fusion.FusionTies | citycosy-aide-compta/app/page.js:86-92 | among equal keys, the Lodgify bookings come first, then the Airbnb ones, each in their own order |
| Fusion.InsertSplit | citycosy-aide-compta/app/page.js:87-92 | inserting a booking puts it after the prefix not above it and before the suffix above it |
| Fusion.InsertAt | citycosy-aide-compta/app/page.js:87-92 | one insertion step shifts greater elements right and leaves the rest of the array untouched |
| Fusion.SortInPlace | citycosy-aide-compta/app/page.js:87-92 | the in-place `sort` leaves the array holding `StableSort` of its old contents |
| Fusion.ExportText | citycosy-aide-compta/app/page.js:96-97 | there is no export exactly when the merged list is empty |
| Fusion.ExportLines | citycosy-aide-compta/app/page.js:101-103 | `fusedData.map` to one line per booking; ExportLinesAt gives line `i` and ExportRoundTrip reads all of them back |
| Fusion.ExportLine | citycosy-aide-compta/app/page.js:101-103 | an exported line starts with the apartment in quotes; ExportLineReads states that it reads back as its seven fields |
| Fusion.ExportHeaders | citycosy-aide-compta/app/page.js:100 | the fixed header line `ExportHeader` reads back as the seven column names |
| Fusion.ExportLineReads | citycosy-aide-compta/app/page.js:101-103 | an exported line with readable fields reads back as apartment, arrival, departure, client, code, source and amount |
| Fusion.ExportRoundTrip | citycosy-aide-compta/app/page.js:99-104 | reading the exported text with `parseCSV` gives one row per booking, keyed by the header, with the exported field strings |
| Fusion.ReimportAsLodgify | citycosy-aide-compta/app/page.js:50-58 | an exported row loaded as a Lodgify file gives back the booking with source `Lodgify` and amount `'0'`, because the mapping reads no `Montant` column |
| Fusion.ReimportedCells | citycosy-aide-compta/app/page.js:50-58 | an exported row has the second-choice Lodgify columns and none of the first-choice ones |
| Fusion.LodgifyOfSecondColumns | citycosy-aide-compta/app/page.js:50-58 | a row with only the second-choice Lodgify columns maps to them, with amount `'0'` |
| Fusion.FusionPage.constructor | citycosy-aide-compta/app/page.js:7-9 | the page starts with three empty lists |
| Fusion.ReadLodgifyFile | citycosy-aide-compta/app/page.js:47-58 | an uploaded Lodgify text becomes one booking per parsed row, none for an all-whitespace text |
| Fusion.ReadAirbnbFile | citycosy-aide-compta/app/page.js:68-79 | an uploaded Airbnb text becomes one booking per parsed row, none for an all-whitespace text |
| Fusion.FusionPage.LoadLodgify | citycosy-aide-compta/app/page.js:43-62 | without a file nothing changes; otherwise the Lodgify list is the mapping of the parsed rows and the other lists are kept |
| Fusion.FusionPage.LoadAirbnb | citycosy-aide-compta/app/page.js:64-83 | without a file nothing changes; otherwise the Airbnb list is the mapping of the parsed rows and the other lists are kept |
| Fusion.FusionPage.Fusionner | citycosy-aide-compta/app/page.js:85-94 | the merged list is a sorted permutation of Lodgify then Airbnb, stable on ties, and the inputs are kept |
| Fusion.FusionPage.Exporter | citycosy-aide-compta/app/page.js:96-104 | the exported text is `ExportText` of the merged list, absent exactly when it is empty |
| Fusion.FusionPage.Reinitialiser | citycosy-aide-compta/app/page.js:114-118 | all three lists become empty |
| Invoices.ParseInvoices | citycosy-aide-compta/app/factures-gestion/page.js:18-45 | the reader fails exactly on an all-whitespace text; kept invoices are complete and no more than the data lines |
| Invoices.KeptInvoices | citycosy-aide-compta/app/factures/page.js:43 | the kept invoices are the complete parsed rows, each as often as it occurs, as a subsequence in original order |
| Invoices.KeptInvoicesAppend | citycosy-aide-compta/app/factures-gestion/page.js:45 | the invoices of two stretches of rows are the invoices of each, in turn |
| Invoices.AllCompleteKept | citycosy-aide-compta/app/factures-gestion/page.js:45 | when every row is complete, no row is dropped |
| Invoices.Complete | citycosy-aide-compta/app/factures-gestion/page.js:45 | the filter's test: every required column present and non-empty; KeptInvoices and AllCompleteKept state which rows it keeps |
| Invoices.ReadInvoices | citycosy-aide-compta/app/factures/page.js:17-43 | the file handler's reading and filtering compute `ParseInvoices` |
| Invoices.Part | citycosy-aide-compta/app/factures/page.js:65-66 | element `i` of the destructured `split('-')`, or the text `undefined` a template prints for a missing one; FormatIsoDate and FormatShortDate state what `formatDate` makes of the parts |
| Invoices.FormatDate | citycosy-aide-compta/app/factures/page.js:61-69 | `''` gives `''`; input with `/`, and input without `/` and `-`, is unchanged; the dash branch always emits a `/` |
| Invoices.FormatDateChanges | citycosy-aide-compta/app/factures-gestion/page.js:63-71 | `formatDate` changes only input that has a `-` and no `/` |
| Invoices.FormatDateIdempotent | citycosy-aide-compta/app/factures/page.js:63-67 | applying `formatDate` twice is the same as once |
| Invoices.FormatIsoDate | citycosy-aide-compta/app/factures/page.js:64-66 | `Y-M-D` with three parts free of `-` and `/` becomes `D/M/Y` |
| Invoices.FormatShortDate | citycosy-aide-compta/app/factures/page.js:64-66 | `Y-M` becomes `undefined/M/Y` |
| Invoices.ParseAmount | citycosy-aide-compta/app/factures/page.js:53-56 | the amount is 0 exactly for a missing, empty or `'0'` value; otherwise the text keeps its length and is unchanged without `,` |
| Invoices.ParseAmountComma | citycosy-aide-compta/app/factures-gestion/page.js:55-58 | only the first `,` becomes `.`, and later commas stay |
| Invoices.CellOr | citycosy-aide-compta/app/factures/page.js:124 | a column of the current invoice as interpolated, `missing` standing for an absent column; ReferenceOfIsoStay and ReferenceWithoutDates state the reference it yields with and without date columns |
| Invoices.ReferenceOfIsoStay | citycosy-aide-compta/app/factures/page.js:124 | a stay with ISO dates gives `apartment - séjour du D/M/Y au D/M/Y` |
| Invoices.ReferenceWithoutDates | citycosy-aide-compta/app/factures/page.js:124 | a row without dates gives the apartment and empty dates |
| Invoices.Reference | citycosy-aide-compta/app/factures/page.js:124 | the reference template over the apartment and the formatted dates; ReferenceOfIsoStay and ReferenceWithoutDates state its value |
| Invoices.Stay | citycosy-aide-compta/app/factures/page.js:124 | the template `${appartement} - séjour du ${arrivee} au ${depart}`; ReferenceOfIsoStay and ReferenceWithoutDates state the reference through it |
| Invoices.PrevIndex | citycosy-aide-compta/app/factures/page.js:131 | `Math.max(0, currentIndex - 1)`; NavigationInRange keeps it in the list, NavigationUndo makes it undo Next, PrevTimesFrom gives `n` clicks |
| Invoices.NextIndex | citycosy-aide-compta/app/factures/page.js:144 | `Math.min(invoicesData.length - 1, currentIndex + 1)`; NavigationInRange keeps it in the list, NavigationUndo makes it undo Previous, NextTimesFromStart gives `n` clicks |
| Invoices.NavigationInRange | citycosy-aide-compta/app/factures-gestion/page.js:153-178 | with a non-empty list, both buttons keep the index in `[0, len - 1]`, Previous never moves forward and Next never moves back |
| Invoices.NavigationUndo | citycosy-aide-compta/app/factures/page.js:131-144 | Previous undoes Next below the last invoice, and Next undoes Previous above the first |
| Invoices.NextTimesFromStart | citycosy-aide-compta/app/factures/page.js:144 | `n` clicks on Next from the first invoice reach `min(n, len - 1)` |
| Invoices.PrevTimesFrom | citycosy-aide-compta/app/factures/page.js:131 | `n` clicks on Previous from invoice `i` reach `max(0, i - n)` |
| Invoices.Navigator.constructor | citycosy-aide-compta/app/factures/page.js:6-8 | a page starts with no invoice, index 0 and the upload screen shown |
| Invoices.Navigator.UploadVisible | citycosy-aide-compta/app/factures-gestion/page.js:87 | the upload screen shows while `showUpload` is set or the list is empty; ViewHasInvoice and the button preconditions rest on it |
| Invoices.Navigator.PreviousDisabled | citycosy-aide-compta/app/factures-gestion/page.js:154 | Previous is disabled at index 0; PreviousDisabledIffStuck relates it to the click |
| Invoices.Navigator.NextDisabled | citycosy-aide-compta/app/factures-gestion/page.js:179 | Next is disabled at the last index; NextDisabledIffStuck relates it to the click |
| Invoices.Navigator.PreviousDisabledIffStuck | citycosy-aide-compta/app/factures-gestion/page.js:153-154 | Previous is disabled exactly where clicking it would not move the index |
| Invoices.Navigator.NextDisabledIffStuck | citycosy-aide-compta/app/factures-gestion/page.js:178-179 | Next is disabled exactly where clicking it would not move the index |
| Invoices.Navigator.AmountOf | citycosy-aide-compta/app/factures-gestion/page.js:123 | an amount of the current invoice is 0 exactly when its cell is missing, empty or `'0'`; otherwise its text keeps its length and is unchanged without `,` |
| Invoices.Lookup | citycosy-aide-compta/app/factures-gestion/page.js:123 | a cell as `parseAmount` receives it, `None` for `undefined`; AmountOf states the amount it leads to |
| Invoices.Navigator.CurrentInvoice | citycosy-aide-compta/app/factures/page.js:116 | `invoicesData[currentIndex]`, `None` outside the list; ViewHasInvoice states that the invoice view always has the invoice at the index |
| Invoices.Navigator.ViewHasInvoice | citycosy-aide-compta/app/factures-gestion/page.js:87-120 | whenever the upload screen is not shown, the current invoice is the one at the index |
| Invoices.Navigator.Load | citycosy-aide-compta/app/factures/page.js:10-51 | without a file, or with an all-whitespace text, nothing changes; otherwise the kept invoices are loaded, the upload screen hidden and the index reset to 0 |
| Invoices.Navigator.Previous | citycosy-aide-compta/app/factures-gestion/page.js:153 | the index becomes `max(0, i - 1)` and nothing else changes |
| Invoices.Navigator.Next | citycosy-aide-compta/app/factures-gestion/page.js:178 | the index becomes `min(len - 1, i + 1)` and nothing else changes |
| Invoices.Navigator.NewFile | citycosy-aide-compta/app/factures-gestion/page.js:144 | the upload screen is shown again, and invoices and index are kept |

## Left out

- All JSX rendering, the Tailwind classes, the SVG logo and `app/layout.js`: these are presentation, with no logic.
- The browser's part:
  - reading the file (`FileReader`, `file.text()`);
  - the download (`Blob`, `URL.createObjectURL`, the `<a>` click);
  - `alert`, `window.print()`.
  The file's text, or its absence, is a parameter of the loading methods.
- The dated name of the downloaded file (`new Date().toISOString()`): it depends on the clock.
- `printAllInvoices` and `isPrintingAll` (`app/factures-gestion/page.js:73-85`): they are asynchronous, timed with `setTimeout` and drive `window.print()`.
- Floating point:
  - `parseFloat`, `calculateHT`, `calculateTVA`, `toFixed` and the display guards on parsed amounts are not modelled.
  - An amount stays the text handed to `parseFloat` (`Booking.montant`, `Invoices.Amount`).
  - In the export, its rendering is the parameter `printed`.
- `localeCompare` is modelled as code-point lexicographic order. Locale collation is engine-dependent.
- `new Date(arrivee)` is an arbitrary integer key. The order of unparseable dates is not modelled: NaN differences make the comparator inconsistent, and JavaScript then leaves the order implementation-defined.
- Strings are sequences of code points, not of UTF-16 units. This matters only for characters outside the Basic Multilingual Plane.
- Invoices.Navigator.Load: a text with no non-blank line makes the invoice pages throw at `lines[0]`. The model leaves the page state unchanged instead of modelling an exception.
- Invoices.Navigator.Previous, Invoices.Navigator.Next: these require the invoice view to be shown, because the buttons exist only there. The model does not cover a click while the upload screen is shown.
- JavaScript objects: a row is a `map` from header to value. Object prototype keys such as `__proto__` are not modelled, and neither is key order.
- React state updates are modelled as immediate field assignments. Batching and re-rendering are not modelled.
