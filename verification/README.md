# mtg-proxifier core, modelled in Dafny

mtg-proxifier turns a Magic: The Gathering decklist into printable proxy
cards. This project models the pure logic at its centre, on both the PHP
server side and the TypeScript client side:

- **Decklist line parsing and deck expansion (PHP, `Deck`).** A line loses
  everything from its first `//` and is trimmed. It is then matched against
  `quantity [SET#NUMBER] name`. Only the non-empty fields become search
  terms. The deck takes `quantity` copies of the first card found. The deck
  also behaves as an `ArrayAccess`/`Iterator` over its PHP `$cards` array.
- **The card record (`Card`).** The constructor rejects a payload without an
  id and fills in defaults. The type line yields super types, card types and
  sub types, where exactly one result comes back as a bare string rather
  than a list. `jsonSerialize` adds power/toughness for creatures and
  loyalty for planeswalkers.
- **The deprecated card's presentation helpers.** These are the `{X}` /
  `{X/Y}` mana-symbol markup with split and Phyrexian symbols and the
  `q` to `untap` rename, the colour and guild label, the type icons, and the
  footer `toHTML` chooses.
- **The browser deck (`js/Deck.ts`).** It splits lines, reads an optional
  count, pushes one card per copy with ids 1, 2, …, and keeps the
  `push`/`splice` surface. It also lists names for the batch lookup and hands
  each card its lookup result.
- **The browser card (`js/Card.ts`).** Its bracket regex assigns set and
  number the other way round from the PHP parser.

Every regular expression is written out as a recogniser over `seq<char>`.
Each recogniser reproduces the engine's greedy backtracking (`[MIR] X` reads
as set `MI`, number `R`) and each engine's own reading of `.` and `$`:
- PCRE's `.` stops only at a line feed, and its `$` also matches before a
  final line feed.
- JavaScript's `.` stops at LF, CR, U+2028 and U+2029, and its `$` matches
  only at the very end.

The card database (`Card::where(...)->all()`) is a lookup function passed as
a parameter.

Modules, one file each:
- `wrappers.dfy`: `Option`, `Result`.
- `seqs.dfy`: `Repeat`, `Filter`, `FlatMap`, `Map`.
- `text.dfy`: PHP `trim`/`explode`/`empty`, JS `split`, ASCII `strtolower`, digits.
- `bracket.dfy`: the shared `[A#B] ` recogniser.
- `php_deck.dfy`: `interpretLine`, `findCards`, the constructor.
- `deck_array.dfy`: `ArrayAccess`/`Iterator`.
- `card_record.dfy`: `models/Card.php`.
- `mana_codec.dfy` and `legacy_card.dfy`: `models/Deprecated/Card.php`.
- `client_card.dfy`: `js/Card.ts`.
- `client_deck.dfy`: `js/Deck.ts`.

## Model

| member | source | states |
|---|---|---|
| Text.BeforeDoubleSlashOfComment | models/Deck.php:59 | when a `//` comment follows a line that holds no `//` and does not end in `/`, what remains is exactly that line |
| Text.JoinSplit | models/Card.php:108 | explode followed by implode on the same separator gives back the text |
| Text.SplitJoin | models/Card.php:108 | explode of pieces joined by a separator none of them contains gives back the pieces |
| Text.SplitCount | models/Card.php:134-137 | explode gives two or more pieces exactly when the separator occurs |
| Text.Trim | models/Deck.php:62 | the result is a middle slice of the text with only PHP whitespace cut off on either side; it has none at either end, and a text without it at its ends is unchanged |
| Bracket.Match | models/Deck.php:65 | what the bracket group accepts is `[`, two non-empty upper-case codes with an optional `#`, and `] `, spelled at the start of the line |
| Bracket.MatchComplete | models/Deck.php:65 | whenever the line starts with such a spelling, the bracket group matches |
| Bracket.MatchWithHash | models/Deck.php:65 | `[A#B] ` captures A and B |
| Bracket.MatchWithoutHash | models/Deck.php:65 | without `#`, backtracking leaves the last character of the code as the second group, so `[MIR] ` gives MI and R |
| Bracket.LowerCaseRejected | models/Deck.php:65 | a lower-case code is never a bracket reference |
| PhpDeck.QuantityGroup | models/Deck.php:65 | the quantity group is a prefix of the line, made of zero or more digits and a space, and is absent exactly when no space follows the leading digits |
| PhpDeck.TailGroup | models/Deck.php:65 | `(.*)$` succeeds exactly when the rest holds no line feed, or only one at its very end; the name it takes is the rest, or the rest less that final line feed |
| PhpDeck.MatchLine | models/Deck.php:65-70 | the whole match is the quantity group, then the bracket reference as spelled, then the name; it is the line itself or the line less a final line feed; the name holds no line feed; set and number are the bracket's codes, or "" without a bracket |
| PhpDeck.MatchLineFailsOnLineFeed | models/Deck.php:65-70 | a line not ending in a line feed fails the regex exactly when it contains one |
| PhpDeck.QuantityOf | models/Deck.php:73-76 | an absent count, or one whose value is 0, becomes 1; any other count is kept as its raw text with the space |
| PhpDeck.Copies | models/Deck.php:41 | the loop appends at least one copy: one for the default quantity, and N for a raw "N " group |
| PhpDeck.CountedCopies | models/Deck.php:41-42 | a count N of at least 1 gives N copies, and "0 " gives one copy |
| PhpDeck.SearchTerms | models/Deck.php:101-116 | the search has the key name, set or number exactly when that field is not PHP-empty (so "0" is left out), with the field's value |
| PhpDeck.FindCards | models/Deck.php:99-124 | false exactly when all three fields are PHP-empty, otherwise the lookup's answer for the search terms |
| PhpDeck.InterpretLine | models/Deck.php:56-88 | a match carries a quantity of at least one and the result of findCards on its own name, set and number |
| PhpDeck.InterpretFailsOnlyOnLineFeed | models/Deck.php:59-70 | interpretLine returns false exactly when the cleaned line still holds a line feed |
| PhpDeck.EmptyNameOnlyForBlankLine | models/Deck.php:31-44 | the name is empty exactly for a line that is blank once cleaned, and such a line has no search terms and adds no card |
| PhpDeck.QuantityDefaultsToOne | models/Deck.php:73-76 | a line that does not start with a digit gets quantity 1 |
| PhpDeck.SetAndNumberTogether | models/Deck.php:65-83 | set and number are both empty (no bracket) or both non-empty codes |
| PhpDeck.MatchCountedLine | models/Deck.php:65 | "N name" yields the quantity group "N " and the name, with empty set and number |
| PhpDeck.MatchBracketLine | models/Deck.php:65 | "[A#B] name" yields set A, number B and the name, with no quantity |
| PhpDeck.InterpretCountedLine | models/Deck.php:56-88 | "N name" is interpreted as that name with no set or number, and quantity "N ", or 1 when N is 0 |
| PhpDeck.InterpretBracketLine | models/Deck.php:56-88 | "[A#B] name" is interpreted as set A, number B, quantity 1 |
| PhpDeck.MatchFullLine | models/Deck.php:65 | "N [A#B] name" yields the quantity group "N ", set A, number B and the name |
| PhpDeck.InterpretFullLine | models/Deck.php:56-88 | "N [A#B] name" is interpreted as set A, number B, the name, and quantity "N " (1 when N is 0) |
| PhpDeck.MatchUnhashedLine | models/Deck.php:65 | "[MIR] name": without `#` the last code character becomes the number, so set MI and number R |
| PhpDeck.MatchLowerCaseBracketLine | models/Deck.php:65 | a line opening with a lower-case bracket has no set or number, and the bracket stays in the name |
| PhpDeck.CommentIgnored | models/Deck.php:59 | appending `//` and any comment does not change the interpretation |
| PhpDeck.SameCleanSameInterpretation | models/Deck.php:59-65 | the interpretation depends only on the cleaned line |
| PhpDeck.CleanKeeps | models/Deck.php:59-62 | a line with no `/` and no outer whitespace is not changed by cleaning |
| PhpDeck.LineContribution | models/Deck.php:36-44 | a line adds nothing exactly when interpretLine failed, had no search terms or found no card; otherwise it adds quantity copies of the first card found |
| PhpDeck.ExpandAppend | models/Deck.php:31-45 | the deck of two runs of lines is the deck of the first followed by the deck of the second |
| PhpDeck.AppendCopies | models/Deck.php:41-43 | the inner loop appends exactly n copies of the card |
| PhpDeck.AddLine | models/Deck.php:33-44 | one pass of the loop appends exactly the line's contribution: nothing when interpretLine failed or found no card, else quantity copies of the first card found |
| PhpDeck.BuildDeck | models/Deck.php:29-46 | the constructor's cards are the per-line contributions, in line order |
| DeckArray.FromList | models/Deck.php:43 | a list stored under keys 0 .. n-1, pointer at 0 |
| DeckArray.AppendsNumberFromZero | models/Deck.php:43 | appending cards one by one to a new deck files them under keys 0 .. n-1 in order |
| DeckArray.OffsetExists | models/Deck.php:132-135 | offsetExists holds exactly when offsetGet returns a card |
| DeckArray.OffsetGet | models/Deck.php:145-148 | a missing offset gives null, a present one its card |
| DeckArray.OffsetSet | models/Deck.php:158-165 | a null offset appends under the next key and grows the count by one; a given offset stores there; no other entry changes |
| DeckArray.OffsetUnset | models/Deck.php:174-177 | the key is gone, the count drops by one exactly when it was there, and the other keys stay with their cards |
| DeckArray.Current | models/Deck.php:186-189 | current yields a card exactly when the pointer is a key, and it is the card stored under the pointer, as offsetGet would give it |
| DeckArray.Next | models/Deck.php:194-197 | next moves the pointer one on and changes nothing else |
| DeckArray.Valid | models/Deck.php:214-217 | valid holds exactly when the pointer is below the count |
| DeckArray.Rewind | models/Deck.php:222-225 | rewind puts the pointer at 0 and changes nothing else |
| DeckArray.IteratorWalk | models/Deck.php:186-225 | a sanity check that follows from the definitions: key() after rewind is 0 and grows by one per next, and valid right after rewind means a non-empty deck; the statement about iteration as a whole is DeckArray.Traverse |
| DeckArray.Traverse | models/Deck.php:186-225 | a foreach yields all cards in key order exactly when the keys are 0 .. count-1, and fails otherwise |
| CardRecord.NewCard | models/Card.php:78-104 | no id or a PHP-empty id is an error; a missing required field is reported in source order; otherwise fields are copied and absent optional ones defaulted |
| CardRecord.CardRoundTrip | models/Card.php:87-103 | a card written back as a payload is rebuilt unchanged |
| CardRecord.PayloadRoundTrip | models/Card.php:87-103 | rebuilding from the payload of a built card gives the same card |
| CardRecord.ShapeOf | models/Card.php:112-116 | a bare string exactly for one result, a list otherwise, with no word lost |
| CardRecord.SuperTypes | models/Card.php:106-117 | the super types are the type-line words among Basic, Legendary, Snow, World, with their counts |
| CardRecord.CardTypes | models/Card.php:119-130 | the card types are the type-line words among the seven card types, with their counts |
| CardRecord.TypesInLineOrder | models/Card.php:106-124 | for a type line of clean words, super and card types come in type-line order with duplicates |
| CardRecord.WordsOfJoin | models/Card.php:108-109 | exploding and trimming a type line of clean words gives back the words |
| CardRecord.SubTypes | models/Card.php:132-147 | the sub types come back as a bare string exactly when there is one, and a type line without an em dash has none |
| CardRecord.SubTypesBetweenDashes | models/Card.php:134-146 | the sub types are the kept, trimmed, space-separated words between the first em dash and the second; text after a second dash is ignored |
| CardRecord.SubTypesAreWords | models/Card.php:138-141 | every sub type is a non-empty, not "0", space-free word |
| CardRecord.SubTypesAfterDash | models/Card.php:134-146 | "types — w1 w2 …" has exactly the words after the dash as its sub types |
| CardRecord.Serialize | models/Card.php:154-184 | all fixed fields are copied, power and toughness appear exactly for a Creature, loyalty exactly for a Planeswalker |
| CardRecord.SerializedKeys | models/Card.php:156-170 | the eleven fixed keys always appear, in order |
| CardRecord.KeysByFlags | models/Card.php:156-181 | power and toughness follow the fixed keys together, and loyalty comes last |
| CardRecord.SerializeKeepsCard | models/Card.php:172-181 | a planeswalker creature serializes power, toughness and loyalty |
| ManaCodec.MatchToken | models/Deprecated/Card.php:113 | what the pattern matches is a well-formed `{X}` or `{X/Y}` spelled at the start of the text |
| ManaCodec.MatchTokenComplete | models/Deprecated/Card.php:113 | every well-formed token at the start of the text is matched as itself |
| ManaCodec.Tokenize | models/Deprecated/Card.php:113 | the scan yields only well-formed tokens, nothing for an empty text, and starts with the token found at the start or else with the first character left alone |
| ManaCodec.TokenizeRoundTrip | models/Deprecated/Card.php:113 | the replacement scan loses and invents no text |
| ManaCodec.TokenizeLiteral | models/Deprecated/Card.php:113 | a character other than `{` is never part of a match |
| ManaCodec.TokenizeToken | models/Deprecated/Card.php:113 | a well-formed token is found as one piece and the scan resumes after it |
| ManaCodec.ConvertLiteralPrefix | models/Deprecated/Card.php:111-131 | text before the first `{` passes through unchanged |
| ManaCodec.ConvertTokenPrefix | models/Deprecated/Card.php:113-130 | a token is replaced by its markup and the rest is converted on its own |
| ManaCodec.ConvertManaSymbols | models/Deprecated/Card.php:111-131 | text without `{` is returned as it is |
| ManaCodec.UnmatchedBraceKept | models/Deprecated/Card.php:113 | a `{` that opens no symbol is copied and the scan resumes right after it |
| ManaCodec.MalformedUnchanged | models/Deprecated/Card.php:113 | the two examples `{}` and `{W` are left as they are; the general rule is UnmatchedBraceKept |
| ManaCodec.ConvertOneToken | models/Deprecated/Card.php:113-130 | a text that is one token becomes exactly that token's markup |
| ManaCodec.RenderSymbol | models/Deprecated/Card.php:141-159 | a whole symbol is `mi-X mi-mana`, a Phyrexian half `mi-p mi-mana-X`, a split half `mi-X`, with X the lower-cased name and q renamed untap |
| ManaCodec.RenderToken | models/Deprecated/Card.php:114-129 | an absent or PHP-empty second half renders the first whole; a `P` second half makes the first Phyrexian; otherwise a `P` first half makes the second Phyrexian; the output is a split div exactly when none of these applies, and then it is `<div class="mi-split">` around the two halves' split icons, first then second, closed by `</div>` |
| ManaCodec.PhyrexianEitherSide | models/Deprecated/Card.php:117-122 | `{P/X}` and `{X/P}` render the same Phyrexian symbol |
| ManaCodec.RenderSymbolInjective | models/Deprecated/Card.php:141-159 | two symbols render alike exactly when their lower-cased, untap-renamed names agree |
| ManaCodec.UntapEverywhere | models/Deprecated/Card.php:144-147 | Q and q render as untap whether split or Phyrexian |
| ManaCodec.ExampleUntap | models/Deprecated/Card.php:114-116 | `{Q}` becomes `<i class='mi mi-untap mi-mana'></i>` |
| ManaCodec.ExamplePhyrexian | models/Deprecated/Card.php:117-119 | `{W/P}` becomes `<i class='mi mi-p mi-mana-w'></i>` |
| ManaCodec.ExamplePhyrexianFirst | models/Deprecated/Card.php:120-122 | `{P/W}` becomes `<i class='mi mi-p mi-mana-w'></i>` too |
| ManaCodec.ExampleSplit | models/Deprecated/Card.php:123-128 | `{2/U}` becomes a `mi-split` div holding the 2 and the u icon |
| LegacyCard.ColourNamed | models/Deprecated/Card.php:246-281 | a name is read as a colour only when it is that colour's full name, and as none when it is no colour's full name |
| LegacyCard.ColourNamedOf | models/Deprecated/Card.php:246-281 | every colour's full name is read back as that colour |
| LegacyCard.TwoHouse | models/Deprecated/Card.php:240-284 | a guild label comes out only for exactly two different full colour names |
| LegacyCard.TwoHouseIsGuildTable | models/Deprecated/Card.php:240-284 | the if-chain equals an order-independent guild table over the full colour names |
| LegacyCard.TwoHouseSymmetric | models/Deprecated/Card.php:240-284 | the order of the pair does not matter |
| LegacyCard.EveryPairHasAGuild | models/Deprecated/Card.php:246-281 | each of the ten pairs of distinct colours has its guild name |
| LegacyCard.NoGuildForCodes | models/Deprecated/Card.php:242-283 | letter codes and a repeated colour give the empty label |
| LegacyCard.ColorString | models/Deprecated/Card.php:212-233 | no colour is colorless, one its lower-cased name, two the guild of the pair, more multicolored |
| LegacyCard.ColorStringClassifies | models/Deprecated/Card.php:212-233 | no colour is colorless, one its lower-case name, two their guild, more multicolored |
| LegacyCard.SingleImageIcon | models/Deprecated/Card.php:190-205 | an icon is drawn exactly for the seven card types, and it is the `image-icon` div with the extra class around `svg/<lower-case type>.svg` |
| LegacyCard.ImageIcon | models/Deprecated/Card.php:167-181 | with the kept card types re-indexed, icons are drawn exactly for one or two card types; one type gives its single icon, and two types give their two icons with the `split` class, in order |
| LegacyCard.TribalInstantFails | models/Deprecated/Card.php:170-174 | "Tribal Instant" reads a key array_intersect did not keep, where the intended icon is the instant's |
| LegacyCard.ImageIconAsWrittenAgrees | models/Deprecated/Card.php:167-181 | whenever the written method returns, it returns the intended icons |
| LegacyCard.ImageIconAsWritten | models/Deprecated/Card.php:170-177 | the written method fails exactly when one or two card types are present and a non-type stands among the first of them |
| LegacyCard.SelectFooter | models/Deprecated/Card.php:68-81 | no footer exactly when the type line names neither Creature nor Planeswalker; the loyalty footer exactly when it names Planeswalker; each footer carries its own fields |
| LegacyCard.FooterChoice | models/Deprecated/Card.php:68-81 | the later planeswalker check wins over the creature check, a footer appears exactly for either word, and the text box is marked exactly then |
| ClientCard.Parse | js/Card.ts:6-26 | the id is kept; the text is the bracket reference as spelled, if any, followed by the name, which holds no line terminator; with a bracket the number is its first code and the set its second, without one both are undefined |
| ClientCard.ParseFailsOnlyOnTerminator | js/Card.ts:6-26 | the constructor throws exactly for text that holds a line terminator |
| ClientCard.BracketSwapped | js/Card.ts:21-23 | "[A#B] name" gives number A and set B, while the PHP parser gives set A and number B |
| ClientCard.NoBracketWholeName | js/Card.ts:6-23 | text that does not start with `[` is the whole name, with no set or number |
| ClientCard.ShortBracketKept | js/Card.ts:6 | "[M] X" is not a reference: it stays in the name |
| ClientDeck.Lines | js/Deck.ts:17-21 | every line is a non-empty, line-feed-free piece of the decklist, and every non-empty piece is a line as often as it occurs; whitespace-only pieces stay |
| ClientDeck.LinesOfJoin | js/Deck.ts:17-21 | a decklist written line by line gives back its non-empty lines in order, and all of them when none is empty |
| ClientDeck.QuantityGroup | js/Deck.ts:24 | the count group is a prefix of one or more digits and a space, and the greedy group is absent exactly when the line does not start with digits followed by a space |
| ClientDeck.UpToTerminator | js/Deck.ts:24 | `(.*)` without `$` stops at the first line terminator |
| ClientDeck.NameOf | js/Deck.ts:24-29 | the name is what follows the count group, up to the first line terminator |
| ClientDeck.Quantity | js/Deck.ts:36-43 | the quantity is at least 1: 1 without a count, otherwise the count's value when above 0 and 1 when it is 0 |
| ClientDeck.CountedLine | js/Deck.ts:24-49 | "N name" gives N copies of the name, and one copy when N is 0 |
| ClientDeck.UncountedLine | js/Deck.ts:24-49 | a line without a leading digit is one copy of itself up to its first line terminator |
| ClientDeck.Push | js/Deck.ts:58-61 | push appends the card and re-syncs length with the array, returning it |
| ClientDeck.NewDeck | js/Deck.ts:15-51 | card i is built from the i-th name of the expanded lines with id i + 1, and length agrees |
| ClientDeck.PushCopies | js/Deck.ts:46-49 | the inner loop pushes quantity cards of the line's name with consecutive ids |
| ClientDeck.BuiltIds | js/Deck.ts:48 | the ids are 1, 2, …, n in push order |
| ClientDeck.SpliceStart | js/Deck.ts:71-74 | the start is clamped into the array: a negative start counts from the end and stops at 0, a start past the end stops at the length |
| ClientDeck.SpliceCount | js/Deck.ts:71-74 | the delete count is the given count clamped to [0, what remains after the start] |
| ClientDeck.Splice | js/Deck.ts:71-74 | the cards before the start stay, the items follow, then the cards after the deleted ones; length does not change |
| ClientDeck.SpliceNothing | js/Deck.ts:71-74 | deleting nothing and inserting nothing changes nothing |
| ClientDeck.SpliceLeavesLengthStale | js/Deck.ts:58-74 | after a splice that removes cards, length disagrees with the array until the next push |
| ClientDeck.RequestNames | js/Deck.ts:109-112 | the request names are the cards' names in deck order |
| ClientDeck.RequestKeepsDuplicates | js/Deck.ts:109-112 | "N name" puts the name in the request N times |
| ClientDeck.ProcessResponse | js/Deck.ts:123-139 | one treatment per card, in deck order, each depending only on that card and the response |
| ClientDeck.ResponsePartitions | js/Deck.ts:128-138 | each card has loading cleared and then exactly one call: importData with the entry under its name when the name is found, setError otherwise |
| ClientDeck.SameNameSameTreatment | js/Deck.ts:128-138 | cards with the same name are treated alike |
| ClientDeck.MoreFoundOnlyImportsMore | js/Deck.ts:128-138 | a response that finds more names keeps every imported card imported with the same data |

## Left out

- `models/Scry.php` is not part of this model. `performRequest` is HTTP I/O, `lookupCardByName` is an empty stub, and `lookupCard` does not construct a card.
- The batch lookup that `api/GetCard.php` calls does not exist in the source, so the offset-based reconciliation of results is not modelled.
- PhpDeck.FindCards: the `lookup` parameter stands for the intended mtgsdk query `Card::where(...)->all()`. As written, `models/Deck.php` is in `namespace Proxifier` and imports no `Card`, so the call resolves to `Proxifier\Card` (`models/Card.php`), which has no `where` method. Every line with search terms therefore raises an Error in the code as written. The mtgsdk subclass is the global `Card` of `models/Deprecated/Card.php`, whose namespace line is commented out.
- The mtgsdk parent's `__get`, `htmlText` and the rest of the `toHTML` template are left out; only the footer choice is modelled.
- `json_decode` of a string payload is left out: `CardRecord.NewCard` takes the decoded object as a `Payload` of optional fields.
- `JSON.parse`, XMLHttpRequest, the DOM, `deckInit`, `renderTemplate`, `js/Main.ts` and the FitText files are I/O or floating-point layout.
- `importData`, `setError` and `setLoading` are not defined in `js/Card.ts`. `ClientDeck.ProcessResponse` records which calls each card receives, not their effect.
- ClientDeck.Quantity: the model keeps a count's exact value. `Number` rounds a count above 2^53 to the nearest double. A count beyond about 1.8e308 becomes `Infinity`, and then the loop `i < quantity` never ends. Neither case is modelled.
- PhpDeck.Copies: a count beyond PHP's integer range is not turned into a float. The model keeps the exact value.
- DeckArray.OffsetSet: offsets are integers. PHP's conversion of string, float, bool or null keys is not modelled. The next append key follows PHP before 8.3, where a negative key does not move it.
- ClientDeck.ProcessResponse: `in` also finds keys inherited from `Object.prototype` (such as "constructor"). The lookup result is a map of own keys only.
- CardRecord.SubTypes: the em dash is one character. PHP's `explode('—', …)` works on its three UTF-8 bytes, which gives the same split on well-formed UTF-8.
- Text.Lower and ManaCodec.IconName lower-case ASCII letters only, as PHP 8's `strtolower` does.
- DeckArray.OffsetExists: `isset` is also false for a key that holds null. The deck's values are cards, so storing null through `offsetSet` is not modelled.
- ClientDeck.Splice: `start` and `deleteCount` are integers. JavaScript's conversion of fractional, NaN or infinite numbers (ToIntegerOrInfinity) is not modelled.

Behaviours of the code that the model keeps as they are:
- `getTwoHouseColorName` tests the full names (`Black`, `Blue`, …), so a
  pair of letter codes such as `B`, `U` gets the empty label, not "dimir".
- `interpretLine` yields an empty name only for a line that is blank once
  the comment is cut and the ends trimmed (`3 ` trims to `3`, which is a
  name). Such a line has no search terms, so `findCards` returns false and
  the line adds no card.
- The `q` to `untap` rename also applies inside split and Phyrexian symbols.

## Findings

| source | as written | input that shows it | evidently intended | confidence | as-written member | corrected member |
|---|---|---|---|---|---|---|
| models/Deprecated/Card.php:170-177 | `array_intersect` keeps the original indexes, and the code then reads `$types[0]` and `$types[1]` | the types `["Tribal", "Instant"]`: the only kept entry is at index 1, so `$types[0]` is null and `getSingleImageIcon` raises a TypeError | the kept card types re-indexed (`array_values`), giving the instant icon | high, not executed | LegacyCard.TribalInstantFails | LegacyCard.ImageIcon |
