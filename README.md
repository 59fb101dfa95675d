# Barcode page: value generation, validation and the result list

This project models the logic behind the barcode/QR page of the toolbox
(`src/pages/Barcode/Manage/index.tsx`):

- the random value builders: uppercase alphanumerics and digit strings;
- the check-digit generators for UPC-A, EAN-13 and EAN-8;
- the per-symbology value validator;
- the handlers that change the page's list of generated codes:
  - a random batch replaces the list;
  - a batch built from typed content, one entry per line or `count` copies
    of a single line, is put in front of it;
  - clearing empties it;
  - the copy-all handler builds the export text.

The modules follow the page's structure:

- `Text` (text.dfy) covers:
  - `String.prototype.trim`;
  - the `\d` class;
  - `split(/\r?\n/)` and `join('\n')`.
- `CodeTypes` (code_types.dfy) holds the symbology tag and the `GeneratedCode` record.
- `CheckDigit` (check_digit.dfy) holds the page's positional sums.
  - It also holds the right-aligned weighted sum of GS1 General Specifications section 7.9.1.
  - It proves the two equal.
- `Validation` (validation.dfy) is `validateValueByType`.
- `RandomValues` (random_values.dfy) covers:
  - `getRandomAlphaNum` and `getRandomDigits`;
  - the three generators;
  - `generateRandomValueByType`.
  - The two builders and the three generators are methods with loops; the
    dispatch calls them.
- `BatchList` (batch_list.dfy) covers the handlers:
  - as specification functions on the old list, with lemmas about them;
  - as a class `BarcodeManage` whose `codes` field the handler methods update.
  - Each handler's `ensures` ties the new state to its specification function.

`Math.random()` and `Date.now()` are parameters:

- the generators receive their draws as index sequences;
- a handler receives `clock(i)`, the clock reading taken for entry `i`;
- a handler also receives `suffix(i)`, the random base-36 fragment of entry `i`'s id.

Given those, everything is deterministic.

The EAN-13 generator weights the even 1-indexed positions by 3; UPC-A and
EAN-8 weight the odd ones.
`CheckDigit.PositionalSumsAreGs1` shows why the code is right: for a 12-digit
base the even positions are exactly the ones GS1 weights by 3.
`CheckDigit.OddWeightingDiffersForEvenLength` shows that the odd weighting
would give a wrong EAN-13 check digit.

## Model

| member | source | states |
|---|---|---|
| Text.DigitsOf | src/pages/Barcode/Manage/index.tsx:61 | `split('').map(Number)` on a digit string gives one value below 10 per character, each spelled by that character |
| Text.DigitString | src/pages/Barcode/Manage/index.tsx:50-56 | the digit string spelling a digit sequence is all digits, as long as the sequence, and `DigitsOf` reads the sequence back |
| Text.DigitStringOfDigits | src/pages/Barcode/Manage/index.tsx:61 | spelling the digit values of a digit string gives the string back |
| Text.Trim | src/pages/Barcode/Manage/index.tsx:144 | `trim()` leaves no whitespace at either end and never lengthens the string |
| Text.TrimBlank | src/pages/Barcode/Manage/index.tsx:144-148 | the trimmed value is empty exactly when the raw value is all whitespace |
| Text.TrimmedIsFixpoint | src/pages/Barcode/Manage/index.tsx:144 | a value with no whitespace at either end is left unchanged by `trim()` |
| Text.TrimIdempotent | src/pages/Barcode/Manage/index.tsx:144 | trimming twice is trimming once |
| Text.TrimOmits | src/pages/Barcode/Manage/index.tsx:232 | trimming never introduces a character that was absent, e.g. a line feed |
| Text.SplitLinesBlank | src/pages/Barcode/Manage/index.tsx:231-233 | every piece of `split(/\r?\n/)` is all whitespace exactly when the whole text is |
| Text.SplitLines | src/pages/Barcode/Manage/index.tsx:231 | `split(/\r?\n/)` always yields at least one piece, and no piece contains a line feed |
| Text.SplitJoin | src/pages/Barcode/Manage/index.tsx:231 | splitting the `\n`-join of lines with no line feed and no trailing carriage return gives those lines back |
| Text.JoinSplit | src/pages/Barcode/Manage/index.tsx:231 | joining the pieces of a text without carriage returns gives the text back |
| Text.JoinLines | src/pages/Barcode/Manage/index.tsx:309 | `join('\n')`: the lines with one line feed between neighbours; `SplitJoin` and `JoinSplit` prove it and `SplitLines` inverse to each other |
| CodeTypes.TypeNameInjective | src/pages/Barcode/Manage/index.tsx:24 | two symbology tags print the same exactly when they are the same tag |
| CheckDigit.CheckDigitFor | src/pages/Barcode/Manage/index.tsx:76 | `(10 - total % 10) % 10` is a digit that brings the total to a multiple of ten |
| CheckDigit.CheckDigitUnique | src/pages/Barcode/Manage/index.tsx:76 | a digit completes the total to a multiple of ten if and only if it is that digit |
| CheckDigit.SumOdd | src/pages/Barcode/Manage/index.tsx:64-73 | the sum of the digits at odd 1-indexed positions counted from the left, the page's `sumOdd` (specification function; `SumsStep` and `SumsFromFront` state its properties) |
| CheckDigit.SumEven | src/pages/Barcode/Manage/index.tsx:64-73 | the sum of the digits at even 1-indexed positions counted from the left, the page's `sumEven` (specification function; `SumsStep` and `SumsFromFront` state its properties) |
| CheckDigit.SumsStep | src/pages/Barcode/Manage/index.tsx:64-73 | one more digit adds to the odd-position sum or the even-position sum, by the parity of its 1-indexed position |
| CheckDigit.SumsFromFront | src/pages/Barcode/Manage/index.tsx:64-73 | read from the front, the first digit is odd-positioned and the rest swap parity |
| CheckDigit.PositionalSumsAreGs1 | src/pages/Barcode/Manage/index.tsx:58-125 | 3·odd + even for an odd-length base (UPC-A, EAN-8), and odd + 3·even for an even-length base (EAN-13), both equal the right-aligned GS1 weighted sum |
| CheckDigit.Gs1ValidIffCheckDigit | src/pages/Barcode/Manage/index.tsx:75-78 | a base followed by a digit satisfies the GS1 mod-10 rule if and only if the digit is the base's GS1 check digit |
| CheckDigit.OddWeightingDiffersForEvenLength | src/pages/Barcode/Manage/index.tsx:81-102 | the odd weighting of UPC-A and EAN-8, applied to a 12-digit base, can miss the GS1 check digit, so EAN-13 needs its even weighting |
| CheckDigit.ZeroSums | src/pages/Barcode/Manage/index.tsx:64-73 | an all-zero base has zero positional sums |
| Validation.Validate | src/pages/Barcode/Manage/index.tsx:143-179 | `validateValueByType`: None (the source's `null`) for an accepted value, otherwise the reason; the BlankRejectedFirst, NumericRule, Code39Rule and LengthRule rows state exactly which values each symbology accepts |
| Validation.ReasonText | src/pages/Barcode/Manage/index.tsx:147-175 | the message the page shows for each reason, with the source's own wording |
| Validation.ReasonTextDistinct | src/pages/Barcode/Manage/index.tsx:147-175 | two reasons show the same message exactly when they are the same reason |
| Validation.BlankRejectedFirst | src/pages/Barcode/Manage/index.tsx:143-148 | whatever the symbology, the empty-content message is returned exactly for all-whitespace input |
| Validation.NumericRule | src/pages/Barcode/Manage/index.tsx:151-165 | EAN-13, EAN-8 and UPC-A accept exactly the values that trim to 13, 8 or 12 ASCII digits; any other non-blank value gets that symbology's own message |
| Validation.Code39Rule | src/pages/Barcode/Manage/index.tsx:166-170 | Code 39 accepts exactly the non-blank values made only of `0-9A-Z.$/+% -` |
| Validation.Code39RejectsLowercase | src/pages/Barcode/Manage/index.tsx:166-170 | a lower-case letter anywhere in the trimmed value makes Code 39 refuse it |
| Validation.LengthRule | src/pages/Barcode/Manage/index.tsx:171-178 | CODE128 and QR codes accept exactly the non-blank values of at most 256 characters; only longer ones get the too-long message |
| Validation.ValidateIgnoresPadding | src/pages/Barcode/Manage/index.tsx:144 | the verdict on a value equals the verdict on its trimmed form |
| Validation.Ean13Examples | src/pages/Barcode/Manage/index.tsx:151-155 | `1234567890123` is accepted as EAN-13 and `123` is refused with the 13-digit message |
| Validation.Code39Examples | src/pages/Barcode/Manage/index.tsx:166-170 | `ABC-123` is accepted as Code 39 and `abc` is refused |
| Validation.CheckDigitNotVerified | src/pages/Barcode/Manage/index.tsx:151-155 | any 13 digits pass as EAN-13, including those whose last digit is not the GS1 check digit |
| RandomValues.AlphaNumFrom | src/pages/Barcode/Manage/index.tsx:41-48 | one alphabet character per draw: as long as the draws, only `A-Z0-9` |
| RandomValues.AlphabetIndex | src/pages/Barcode/Manage/index.tsx:42 | every `A-Z0-9` character has a position in the 36-character alphabet |
| RandomValues.AlphaNumFromCovers | src/pages/Barcode/Manage/index.tsx:41-48 | every string over `A-Z0-9` is produced by some draws |
| RandomValues.RandomAlphaNum | src/pages/Barcode/Manage/index.tsx:41-48 | `getRandomAlphaNum(length)` returns the alphabet characters named by the draws: exactly `length` of them, all in `A-Z0-9` |
| RandomValues.RandomDigits | src/pages/Barcode/Manage/index.tsx:50-56 | `getRandomDigits(length)` returns exactly `length` ASCII digits spelling the draws |
| RandomValues.CompletedBase | src/pages/Barcode/Manage/index.tsx:75-78 | the digit computed from the positional sums is the base's GS1 check digit, and base plus that digit reads back as the draws followed by it |
| RandomValues.GenerateUpcA | src/pages/Barcode/Manage/index.tsx:58-79 | 12 digits: the 11 drawn, then the digit making 3·odd + even + check ≡ 0 (mod 10), which is the GS1 check digit |
| RandomValues.GenerateEan13 | src/pages/Barcode/Manage/index.tsx:81-102 | 13 digits: the 12 drawn, then the digit making odd + 3·even + check ≡ 0 (mod 10), which is the GS1 check digit |
| RandomValues.GenerateEan8 | src/pages/Barcode/Manage/index.tsx:104-125 | 8 digits: the 7 drawn, then the digit making 3·odd + even + check ≡ 0 (mod 10), which is the GS1 check digit |
| RandomValues.GenerateRandomValueByType | src/pages/Barcode/Manage/index.tsx:127-141 | the dispatch returns `RandomValue` for the symbology: the completed base for numeric symbologies, 10 alphanumerics for Code 39, 12 for CODE128 and QR |
| RandomValues.RandomValue | src/pages/Barcode/Manage/index.tsx:127-141 | the value the dispatch builds from given draws: base digits plus their GS1 check digit for EAN-13, EAN-8 and UPC-A, the drawn alphanumerics otherwise; `RandomValueAccepted` states what it guarantees |
| RandomValues.RandomValueAccepted | src/pages/Barcode/Manage/index.tsx:127-179 | every generated value passes validation for its own symbology, has length 13, 8, 12, 10 or 12, and for EAN-13, EAN-8 and UPC-A satisfies the GS1 rule |
| BatchList.IndexedIdsAreDistinct | src/pages/Barcode/Manage/index.tsx:206-207 | ids that embed each entry's index are pairwise distinct |
| BatchList.NonBlankTrimmed | src/pages/Barcode/Manage/index.tsx:232-233 | trim-then-filter keeps only non-empty trimmed lines, never more than it got, and adds no line feed; the lemmas below fix which lines it keeps |
| BatchList.ContentLines | src/pages/Barcode/Manage/index.tsx:230-233 | every content line is non-empty, holds no line feed and does not end in a carriage return; ContentLinesBlank and the NonBlankTrimmed lemmas say which lines they are |
| BatchList.NonBlankTrimmedKeeps | src/pages/Barcode/Manage/index.tsx:232-233 | lines already trimmed and non-empty pass trim-then-filter unchanged |
| BatchList.NonBlankTrimmedAppend | src/pages/Barcode/Manage/index.tsx:232-233 | trim-then-filter works piece by piece: on two runs of pieces it gives the results for each run, in order |
| BatchList.NonBlankTrimmedOne | src/pages/Barcode/Manage/index.tsx:232-233 | one piece gives its trim if that is not empty, and nothing otherwise |
| BatchList.NonBlankTrimmedKeepsPiece | src/pages/Barcode/Manage/index.tsx:232-233 | every piece whose trim is not empty is kept, as its trim |
| BatchList.NonBlankTrimmedFromPieces | src/pages/Barcode/Manage/index.tsx:232-233 | every line that comes out is the trim of some piece |
| BatchList.NonBlankTrimmedEmpty | src/pages/Barcode/Manage/index.tsx:232-238 | nothing comes out exactly when every piece is all whitespace |
| BatchList.ContentLinesBlank | src/pages/Barcode/Manage/index.tsx:230-238 | the content has no lines, and is refused as empty, exactly when the text is all whitespace |
| BatchList.ContentLinesReentry | src/pages/Barcode/Manage/index.tsx:230-233 | the content lines of the lines joined back with `\n` are the same lines |
| BatchList.FirstInvalid | src/pages/Barcode/Manage/index.tsx:247-254 | the first refused line (0-based) and its reason, or nothing; FirstInvalidSpec and FirstInvalidAt state this |
| BatchList.FirstRefusalSpec | src/pages/Barcode/Manage/index.tsx:247-254 | scanning verdicts finds nothing if and only if every line is accepted; otherwise it names a refused line whose predecessors are all accepted |
| BatchList.FirstInvalidSpec | src/pages/Barcode/Manage/index.tsx:247-254 | the same, stated over the lines and the validator |
| BatchList.FirstRefusalAt | src/pages/Barcode/Manage/index.tsx:247-254 | a refusal preceded only by acceptances is the one reported |
| BatchList.FirstInvalidAt | src/pages/Barcode/Manage/index.tsx:247-254 | a refused line preceded only by accepted lines is the one reported, with its reason |
| BatchList.FindInvalidLine | src/pages/Barcode/Manage/index.tsx:247-254 | the validation loop with early exit returns the first refused line (0-based) and its reason, or nothing |
| BatchList.GenerateStep | src/pages/Barcode/Manage/index.tsx:189-218 | `handleGenerate` as a function of the old list: the message and the new list; GenerateRefusesCount, GenerateReplaces and GenerateKeepsValid state what it does |
| BatchList.GenerateRefusesCount | src/pages/Barcode/Manage/index.tsx:196-204 | a count ≤ 0 or > 100 is refused with its own message and the list is unchanged |
| BatchList.GenerateReplaces | src/pages/Barcode/Manage/index.tsx:206-213 | a count in 1..100 replaces the list with exactly `count` entries of the chosen symbology, with distinct ids, all accepted by the validator |
| BatchList.GenerateKeepsValid | src/pages/Barcode/Manage/index.tsx:189-218 | after `handleGenerate` every entry passes validation, if every entry did before |
| BatchList.FromValueStep | src/pages/Barcode/Manage/index.tsx:220-297 | `handleGenerateFromValue` as a function of the old list: `FromLinesStep` on the content lines; FromValueKeepsValid and ContentLinesBlank state what it does |
| BatchList.FromLinesStep | src/pages/Barcode/Manage/index.tsx:235-292 | the handler after splitting: the message and the new list; the FromLines and FromLine rows state each outcome |
| BatchList.FromLinesNoContent | src/pages/Barcode/Manage/index.tsx:235-238 | no non-blank line: refused, list unchanged |
| BatchList.FromLinesIgnoreCount | src/pages/Barcode/Manage/index.tsx:240-265 | with more than one line the count has no influence |
| BatchList.FromLinesTooMany | src/pages/Barcode/Manage/index.tsx:242-245 | more than 100 lines: refused, list unchanged |
| BatchList.FromLinesReportsFirstInvalid | src/pages/Barcode/Manage/index.tsx:247-254 | with several lines and one refused, the batch is refused, the list is unchanged, and the message names the first refused line counted from 1, with its reason |
| BatchList.FromLinesPrepended | src/pages/Barcode/Manage/index.tsx:256-263 | with several accepted lines, one entry per line in input order goes in front, ids are distinct, and the old list follows unchanged |
| BatchList.FromLineCountFirst | src/pages/Barcode/Manage/index.tsx:267-276 | with one line the count is checked before the line is validated |
| BatchList.FromLineRefused | src/pages/Barcode/Manage/index.tsx:278-283 | a single refused line is reported with the validator's reason and the list is unchanged |
| BatchList.FromLinePrepended | src/pages/Barcode/Manage/index.tsx:285-292 | a single accepted line with count in 1..100 puts `count` entries holding that line in front, with distinct ids, and the old list follows unchanged |
| BatchList.FromLinesOnlyPrependsValid | src/pages/Barcode/Manage/index.tsx:235-292 | whatever the outcome, the new list is some accepted entries of the chosen symbology followed by the whole old list |
| BatchList.FromValueKeepsValid | src/pages/Barcode/Manage/index.tsx:220-297 | after `handleGenerateFromValue` every entry passes validation, if every entry did before |
| BatchList.PrependKeepsValid | src/pages/Barcode/Manage/index.tsx:262 | accepted entries spread in front of an all-accepted list give an all-accepted list |
| BatchList.ExportLine | src/pages/Barcode/Manage/index.tsx:309 | `${type}: ${value}` for one entry; ExportLineInjective states that it determines the entry's type and value |
| BatchList.ExportLineInjective | src/pages/Barcode/Manage/index.tsx:309 | two entries give the same export line exactly when they have the same type and the same value |
| BatchList.ExportText | src/pages/Barcode/Manage/index.tsx:303-317 | the export lines joined with line feeds; ExportTextLines states that the lines can be read back |
| BatchList.ExportTextLines | src/pages/Barcode/Manage/index.tsx:309 | splitting the export text on line breaks gives one `TYPE: value` line per entry, in list order, when every value is a plain line (no line feed, no trailing carriage return) |
| BatchList.BarcodeManage.constructor | src/pages/Barcode/Manage/index.tsx:183 | the page starts with an empty list |
| BatchList.BarcodeManage.HandleGenerate | src/pages/Barcode/Manage/index.tsx:189-218 | the message and the new list are those of `GenerateStep` on the old list; the GenerateRefusesCount and GenerateReplaces rows state what that step does |
| BatchList.BarcodeManage.HandleGenerateFromValue | src/pages/Barcode/Manage/index.tsx:220-297 | the message and the new list are those of `FromValueStep` on the old list; the FromLines and FromLine rows state what that step does |
| BatchList.BarcodeManage.HandleClear | src/pages/Barcode/Manage/index.tsx:299-301 | the list is empty afterwards |
| BatchList.BarcodeManage.HandleCopyAll | src/pages/Barcode/Manage/index.tsx:303-317 | an empty list offers nothing and shows the nothing-to-export message; otherwise the export text is offered to the clipboard, and the message depends on whether the clipboard accepted it |

## Left out

- Randomness and time: `Math.random()` and `Date.now()` become parameters, namely the draws, `clock(i)` and `suffix(i)`. Nothing is claimed about their distribution or the clock's monotonicity.
- Entry ids: an id is kept as its parts (time, index, suffix). The string rendering is not modelled. Distinctness is proved from the index part alone, which is what the page relies on within one batch. Ids across batches are not compared.
- Messages: toasts are modelled by which message is shown, not by their wording. The validator's reasons carry their exact text in `Validation.ReasonText`.
- Rendering: drawing the codes (`react-barcode`, `qrcode.react`) and all React/antd layout and form wiring are left out. `form.validateFields()` is treated as having produced `type`, `customValue` and `count`. Its rejection path (`catch`, ignored) is not modelled.
- Clipboard I/O: `navigator.clipboard.writeText` is a boolean parameter saying whether the write succeeded.
- Missing content: `customValue || ''` for missing content is not modelled. The content is always a string, and the empty string behaves the same way.
- Form values: `count` is an integer. The form's non-integer or missing counts are not modelled.
- Text.Trim: removes ASCII whitespace only (space, tab, LF, VT, FF, CR). JavaScript's `trim()` also removes Unicode spaces such as U+00A0 and U+2028, and the model does not.
- Validation.LengthRule: counts characters, not UTF-16 code units. For text outside the Basic Multilingual Plane, JavaScript's `length` is larger.
- RandomValues.GenerateRandomValueByType: its `ensures` states the value only (`RandomValue`). That the value passes validation is proved separately, in `RandomValues.RandomValueAccepted`.
- Code outside the page: the socket hook, the Electron main, preload and IPC files, and the other pages are not part of this model.
