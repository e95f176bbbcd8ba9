# Bank OCR account decoding, modelled in Dafny

`bank-ocr.js` reads a text file of "seven-segment" account numbers drawn with
spaces, underscores and pipes. Each account is a band of three lines of 27
columns followed by one separator line. The program decodes every band into
nine characters (a digit, or `?` for an unreadable glyph), validates each
account with a mod-11 checksum, and writes one line per account labelled
`OK`, `ERR` or `ILL`.

This project models the pure pipeline from the raw text to the labelled lines.
Five modules follow the program's helpers:

- `Glyphs`: the ten-entry glyph table and `searchDigitDictionary`.
- `Account`: `parseOcrAccount`. It cuts a band into nine three-column windows
  and follows JavaScript's clamping `substring`.
- `TextFile`: `split('\n')` and `parseOcrTextFile`, which takes lines in
  strides of four and follows JavaScript's clamping `slice`.
- `Checksum`: `validateCheckSum`. It runs on JavaScript numbers, so a
  non-digit character makes `parseInt` NaN, and NaN spreads through the sum.
- `State`: `validateState`, plus the composition
  `map(validateState, parseOcrTextFile(text))` that the main code writes out.

Every operation is paired with an independent definition and a lemma linking
the two:

- the table with `GlyphRows`, a digit-to-rows listing;
- the account decoder with `Render`, which prints an account;
- splitting with `Join`;
- the file parser with `Format`, which prints a list of accounts;
- the reversed, looped checksum with a left-to-right `WeightedSum`;
- the label with `Classify` and the reader `StatusOfLine`.

The loops of `bank-ocr.js` are modelled as recursive functions (`AccountLoop`,
`BandsFrom`, `SumFrom`) and are related to the closed forms by lemmas.

## Model

| member | source | states |
|---|---|---|
| Glyphs.DictionaryIsGlyphTable | bank-ocr.js:20-31 | every key of the table is nine characters long, maps to a digit, and is that digit's glyph rows joined, so the table is one-to-one |
| Glyphs.DictionarySize | bank-ocr.js:20-31 | the table has exactly ten keys and its values are exactly the digits '0'..'9' |
| Glyphs.EveryDigitHasGlyph | bank-ocr.js:20-31 | the joined glyph of every digit is a key of the table and maps back to that digit |
| Glyphs.SearchDigitDictionary | bank-ocr.js:18-33 | the result is '?' exactly when the joined rows are not a key; otherwise it is the digit whose glyph joins to the same key; any key not of length nine gives '?' |
| Glyphs.DecodeGlyph | bank-ocr.js:18-33 | decoding the printed rows of a digit returns that digit |
| Account.ParseOcrAccount | bank-ocr.js:39-50 | the account always has exactly nine characters, each a digit or '?' |
| Account.AccountLoopComputesParse | bank-ocr.js:41-49 | parseOcrAccount's loop over window starts 0, 3, ..., 24 builds exactly the nine decoded windows in order |
| Account.AccountLoopAppends | bank-ocr.js:41-48 | from any window start on, the loop appends the decodings of the remaining windows to what it has |
| Account.Substring | bank-ocr.js:43-45 | `substring` clamps both bounds to the string and swaps them when reversed: the result is never longer than the distance between the bounds, and its column i is the string's column at the smaller bound plus i, absent past the string's end |
| Account.Cell | bank-ocr.js:42-46 | the matrix handed to the decoder has three rows of at most three characters each; column i of row r is column index + i of line r, absent past that line's end |
| Account.AccountLoop | bank-ocr.js:41-48 | the loop keeps the characters it already has and adds exactly one per window still to visit |
| Account.AccountLoopStep | bank-ocr.js:41-48 | one turn at window w appends character w of the decoded account and moves three columns on |
| Account.Locality | bank-ocr.js:41-47 | character k depends only on columns 3k..3k+2 of the first three lines |
| Account.IgnoresColumnsFrom27 | bank-ocr.js:41-46 | columns from 27 on, and lines after the third, never affect the account |
| Account.ShortLineIsIllegible | bank-ocr.js:43-47 | a line shorter than 3k+3 makes character k '?' (short lines never fail) |
| Account.DigitIffGlyph | bank-ocr.js:41-47 | character k is digit d exactly when all three lines reach column 3k+3 and their windows spell d's glyph |
| Account.RenderRoundTrip | bank-ocr.js:39-50 | printing a nine-digit account and decoding the print returns the account |
| TextFile.Split | bank-ocr.js:58 | splitting yields one more piece than there are line feeds, none holding a line feed |
| TextFile.JoinSplit | bank-ocr.js:58 | joining the pieces with line feeds restores the text |
| TextFile.SplitJoin | bank-ocr.js:58 | splitting a join of feed-free lines returns those lines |
| TextFile.Slice | bank-ocr.js:63 | `slice` clamps both bounds: within bounds it is the subsequence; an end past the sequence gives the rest from the start (the 1 or 2 lines of a trailing partial stride); a start at or past the end of the sequence, or an end not after the start, gives nothing; it is never longer than the sequence |
| TextFile.BandsFrom | bank-ocr.js:62-68 | every band the stride-four loop hands to the account decoder has exactly three lines |
| TextFile.BandsFromCount | bank-ocr.js:62-68 | the stride-four loop keeps one band per stride that still has three lines |
| TextFile.BandsFromAt | bank-ocr.js:62-66 | band j is lines 4j .. 4j+2, all present |
| TextFile.ParseOcrTextFile | bank-ocr.js:56-70 | n split lines give (n+1) div 4 accounts, account j decoded from lines 4j..4j+2, in input order |
| TextFile.AccountCount | bank-ocr.js:58-68 | a text with b line feeds gives (b+2) div 4 accounts, so a trailing partial band yields nothing |
| TextFile.SliceOfAgreeingLines | bank-ocr.js:63 | the slice taken at a stride start reads only the three lines it covers |
| TextFile.SeparatorsNeverRead | bank-ocr.js:62-68 | texts whose lines differ only on every fourth (separator) line decode to the same accounts |
| TextFile.FormatRoundTrip | bank-ocr.js:56-70 | printing nine-digit accounts as bands with separators and parsing the text returns the same accounts in the same order |
| Checksum.ParseInt | bank-ocr.js:82 | parsing a character gives an integer exactly for a decimal digit, and that integer is the digit's value |
| Checksum.Reverse | bank-ocr.js:78 | the reversed account has the same length, with position i holding the character at n-1-i |
| Checksum.ValidateCheckSum | bank-ocr.js:76-85 | the check passes exactly when every character is a digit and the weighted sum (rightmost weight 1, rising leftward) is a multiple of 11 |
| Checksum.ForEachSumDecides | bank-ocr.js:78-84 | the forEach sum over the reversed account is an integer multiple of 11 exactly when the account is all digits and its weighted sum is a multiple of 11 |
| Checksum.SumFrom | bank-ocr.js:79-83 | the forEach sum ends as an integer only when it starts as one and every remaining character is a digit; otherwise it is NaN |
| Checksum.ReversedSumIsWeightedSum | bank-ocr.js:78-83 | summing (index+1) times the digit over the reversed account equals the left-to-right weighted sum |
| Checksum.WeightedSumOfNine | bank-ocr.js:78-83 | for nine digits d0..d8 the sum is 9d0 + 8d1 + ... + 1d8 |
| Checksum.CheckSumZeros | bank-ocr.js:76-85 | 000000000 passes |
| Checksum.CheckSumPasses | bank-ocr.js:76-85 | 345882865 passes (sum 231) |
| Checksum.CheckSumFails | bank-ocr.js:76-85 | 333393193 fails (sum 171) |
| Checksum.SingleSubstitutionDetected | bank-ocr.js:76-85 | changing any one digit of a passing nine-digit account makes it fail |
| State.ValidateState | bank-ocr.js:91-105 | the label is the account, one space and the code of its status: ILL if it holds a '?', else OK when the checksum holds, else ERR |
| State.ValidateStateReadsBack | bank-ocr.js:91-105 | the output starts with the unchanged account, then a space, then exactly one of the three codes, namely the account's status |
| State.IllegibleFirst | bank-ocr.js:92-96 | a '?' anywhere gives ILL, whatever the digits and their checksum |
| State.ProcessAll | bank-ocr.js:114-138 | one labelled line per decoded account, in order |
| State.ResultLineLength | bank-ocr.js:91-105 | each label validateState returns for a decoded account has 12 (OK) or 13 (ERR, ILL) characters; line 138 then appends a line feed |
| State.ProcessFormatted | bank-ocr.js:114-138 | a printed list of nine-digit accounts produces, in order, each account with its label |
| State.AllZerosLine | bank-ocr.js:91-105 | 000000000 is labelled OK |
| State.IllegibleLine | bank-ocr.js:92-96 | 86110??36 is labelled ILL |

## Left out

- File and console I/O (bank-ocr.js:107-153): reading the file, opening the output file with its create-on-ENOENT fallback, writing, closing and logging. Only the pure composition is modelled, as `State.ProcessAll`.
- Object-prototype lookup: in JavaScript, keys such as `__proto__` or `valueOf` find inherited properties of the table object. The model's table is a finite map holding exactly the ten entries. In JavaScript, windows reading `__p`, `rot` and `o__` join to the key `__proto__`, and `parseOcrAccount` then appends the text "[object Object]" to the account. With short lines, `valueOf` or `toString` can be hit the same way, and the function's source text is appended. The nine-character guarantee of `Account.ParseOcrAccount` holds only for the model's table.
- Account.ParseOcrAccount: requires at least three lines. Given fewer, `parseOcrAccount` throws a TypeError at bank-ocr.js:43-45 when it calls `substring` on a missing line. Its only caller, bank-ocr.js:64, always passes three lines, so that error path is not modelled.
- Checksum.ValidateCheckSum: the sum is unbounded; JavaScript's double-precision rounding for sums above 2^53 is not modelled. A sum that large needs an account of millions of digits; a nine-digit sum is at most 405.
- Strings are sequences of characters; UTF-16 code units are not modelled, and a carriage return is an ordinary character, so CRLF text keeps '\r' at the end of each line.
- `parseInt` is modelled only on the one-character strings the checksum passes to it, where it is the digit's value or NaN.
- The glyph of '1' in the table uses the middle column (`"   "`, `" | "`, `" | "`), and the model follows the table as written.
