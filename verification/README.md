# Ad-hoc account decoder, modelled in Dafny

This project models the schema-bound JSON decoder of micronaut-serialization's
`serde-adhoc` module. The decoder has two parts:

- `AdhocParser`: a single forward cursor over a byte array, driven by a two-mode token
  state machine (`nextToken`).
- The assembly step in `AdhocJsonMapper`: it drains the parser and builds an `Account`
  with exactly three `OtherAccount`s from the parser's key/value map.

The decoder never reads key names. It finds the next `"` and assumes the key from a
positional counter into the fixed list `name, accountNumber, balance, isActive,
favoriteAccounts`. It then reads the value with a scanner specialised to that key:

- a quoted string;
- a ten-byte number;
- a six-byte balance window;
- a `t`/`f` literal;
- nothing, for `favoriteAccounts`, which switches to array mode. In array mode the key
  counter skips `balance` and cycles once per nested record.

Modules, one file each:

- `Wrappers` (`wrappers.dfy`): `Option` and `Result`.
- `Bytes` (`bytes.dfy`): unsigned bytes, with Java's signed view (`JavaByte`) where the
  source compares or subtracts bytes.
- `Scan` (`scan.dfy`): the forward scans `findNextQuote`, `findNextDigit`, the `t`/`f`
  scan and the key loop, as one `Find`.
- `Numbers` (`numbers.dfy`): `longPow`, `parseAccountNumber`, and the decimal reading
  and rendering of fixed-width numbers.
- `Parser` (`parser.dfy`): the parser state and `nextToken`. Java exceptions become a
  `Fault` result (`IndexOutOfBounds`, `NullPointer`), so every input has a defined
  outcome. The source's evaluation order is kept:
  - inside the array, for a number the `getOthersAccounts()[posOacc]` access happens
    after the digit scan and before the ten-byte read; for a boolean it happens before
    the `t`/`f` scan;
  - for a name, that access happens after the two quote scans.
- `ParserFacts` (`parser_facts.dfy`):
  - what one `nextToken` call does, stated against the bytes;
  - the counter invariant `Consistent` that every call keeps from a fresh parser on.
- `Mapper` (`mapper.dfy`): `readValue`, meaning drain until end of input, then assemble.
  Assembly unboxes a missing `long`/`boolean`/`double` as a `NullPointer` fault.
- `Render` (`render.dfy`): the byte layout the decoder is built for, and the round trip
  `Decode(RenderAccount(a)) == Ok(a)` for every account that layout can carry.

## Model

| member | source | states |
|---|---|---|
| Bytes.JavaByte | serde-adhoc/src/main/java/io/micronaut/serde/adhoc/parser/AdhocParser.java:149 | a byte compared with `'0'`/`'9'` is widened with sign: result in [-128, 128), congruent to the raw byte mod 256, and equal to it exactly when the byte is below 128 |
| Scan.Find | serde-adhoc/src/main/java/io/micronaut/serde/adhoc/parser/AdhocParser.java:142-152 | the forward scan stops at the first matching byte at or after the cursor; it reports no match exactly when no byte from the cursor to the end matches (where the unguarded Java loops index past the array) |
| Scan.FindIs | serde-adhoc/src/main/java/io/micronaut/serde/adhoc/parser/AdhocParser.java:142-146 | a matching byte preceded only by non-matching ones is the one the scan stops at |
| Numbers.LongPow | serde-adhoc/src/main/java/io/micronaut/serde/adhoc/parser/AdhocParser.java:163-174 | exponentiation by squaring equals a^b for every b >= 0, and 1 for a negative b (the loop never runs) |
| Numbers.ParseAccountNumber | serde-adhoc/src/main/java/io/micronaut/serde/adhoc/parser/AdhocParser.java:154-161 | reads exactly ten bytes, cursor advances by 10, value is their place-value sum with the first weighted 10^9; ten digits give a value in [0, 10^10); any ten bytes stay inside a Java `long` |
| Numbers.DecimalValueRange | serde-adhoc/src/main/java/io/micronaut/serde/adhoc/parser/AdhocParser.java:156-159 | n digit bytes read as a number lie in [0, 10^n) |
| Numbers.DecimalValueBound | serde-adhoc/src/main/java/io/micronaut/serde/adhoc/parser/AdhocParser.java:156-159 | n arbitrary bytes read as a number lie within [20 - 20·10^n, 10·10^n - 10], so the 64-bit accumulator cannot wrap for ten bytes |
| Numbers.DigitsRoundTrip | serde-adhoc/src/main/java/io/micronaut/serde/adhoc/parser/AdhocParser.java:154-161 | a number below 10^w written as w zero-padded digits reads back as itself |
| Numbers.DecimalValueRoundTrip | serde-adhoc/src/main/java/io/micronaut/serde/adhoc/parser/AdhocParser.java:154-161 | a digit string read as a number and written back at the same width is the same string |
| Parser.NextToken | serde-adhoc/src/main/java/io/micronaut/serde/adhoc/parser/AdhocParser.java:86-140 | one call never changes the buffer and never moves the cursor back; it is a value token exactly when a key was pending; any token other than end of input strictly decreases twice-bytes-left-plus-pending |
| Parser.ValueStep | serde-adhoc/src/main/java/io/micronaut/serde/adhoc/parser/AdhocParser.java:97-134 | every value branch clears the pending key and moves the cursor only forward |
| Parser.Favorite | serde-adhoc/src/main/java/io/micronaut/serde/adhoc/parser/AdhocParser.java:195-197 | the nested map at a slot exists exactly when the array was stored and the slot is below its length; a missing array is a null dereference, an overrun an index fault |
| Parser.Init | serde-adhoc/src/main/java/io/micronaut/serde/adhoc/parser/AdhocParser.java:54-62 | a fresh parser over the input: cursor at 0 (all bytes left), key mode at top level, counters at 0, an empty map with no nested array yet (so a nested lookup is a null dereference); `ParserFacts.InitConsistent` shows it satisfies the counter invariant |
| Parser.KeyStep | serde-adhoc/src/main/java/io/micronaut/serde/adhoc/parser/AdhocParser.java:87-96 | key mode: end of input exactly when no quote lies ahead, leaving the cursor at or past the end and nothing else changed; otherwise the first quote ahead opens the key `ACC_KEYS[posAcc]`, the cursor lands its length + 2 past that quote and the counter advances; a sixth key is an index fault; the map, slot and mode are never touched |
| Parser.QuotedText | serde-adhoc/src/main/java/io/micronaut/serde/adhoc/parser/AdhocParser.java:99-102 | the two quote scans succeed exactly when a quote lies ahead with another after it; the text is then the quote-free bytes strictly between the first quote at or after the cursor and the next one; otherwise an index fault |
| Parser.NameValue | serde-adhoc/src/main/java/io/micronaut/serde/adhoc/parser/AdhocParser.java:98-108 | a name value is the quote-free text `QuotedText` finds, with the cursor one past the closing quote; it is `put` into the top-level map, or inside the array into the current nested map with that map's other fields, the other nested maps and the top level all kept; a null dereference only inside the array with no array stored |
| Parser.AccountNumberValue | serde-adhoc/src/main/java/io/micronaut/serde/adhoc/parser/AdhocParser.java:109-117 | the number is the ten bytes from the first digit at or after the cursor, read as a decimal; the cursor ends at that digit + 10, within the buffer; only the `accountNumber` field changes, at top level or in the current nested map (its name and flag kept); in array mode the key counter also skips `balance` |
| Parser.BalanceValue | serde-adhoc/src/main/java/io/micronaut/serde/adhoc/parser/AdhocParser.java:118-121 | the balance is the six-byte window starting at the first digit, stored at top level whatever the mode; it only ever fails with an index fault |
| Parser.ReadBoolean | serde-adhoc/src/main/java/io/micronaut/serde/adhoc/parser/AdhocParser.java:182-193 | succeeds exactly when a `t` or `f` lies ahead; the flag is whether the first such byte is `t`, and the cursor lands 4 (for `t`) or 5 (for `f`) past it; otherwise an index fault |
| Parser.BooleanValue | serde-adhoc/src/main/java/io/micronaut/serde/adhoc/parser/AdhocParser.java:122-129 | the flag `ReadBoolean` finds is stored at top level, or in array mode into the current nested map with its name and number kept, after which the slot advances and the key counter restarts; nothing else in the map changes |
| Parser.EnterArray | serde-adhoc/src/main/java/io/micronaut/serde/adhoc/parser/AdhocParser.java:130-134 | the `favoriteAccounts` value consumes no byte and keeps the slot, stores an array of exactly three empty nested maps, enters array mode and resets the key counter; the top-level slots are kept |
| ParserFacts.KeyStepLanding | serde-adhoc/src/main/java/io/micronaut/serde/adhoc/parser/AdhocParser.java:87-94 | in key mode the next state is fixed: cursor at first quote + \|key\| + 2, key counter + 1, pending key `ACC_KEYS[posAcc]`, nothing else changed |
| ParserFacts.KeyBytesNotCompared | serde-adhoc/src/main/java/io/micronaut/serde/adhoc/parser/AdhocParser.java:90-93 | two buffers that agree up to the first quote give the same key token and next state, whatever the key bytes are |
| ParserFacts.EndOfInputExactly | serde-adhoc/src/main/java/io/micronaut/serde/adhoc/parser/AdhocParser.java:88-96 | in key mode end of input is reported exactly when no quote lies ahead; the cursor then sits at the buffer's end (or stays beyond it) and the map is untouched |
| ParserFacts.CursorCanPassEnd | serde-adhoc/src/main/java/io/micronaut/serde/adhoc/parser/AdhocParser.java:92 | the unbounded key skip moves the cursor past the end of a one-byte buffer holding a quote |
| ParserFacts.NameValueSlice | serde-adhoc/src/main/java/io/micronaut/serde/adhoc/parser/AdhocParser.java:98-108 | the name stored is exactly the bytes strictly between the next two quotes; cursor one past the closing quote; at top level or into the current nested map only |
| ParserFacts.AccountNumberWindow | serde-adhoc/src/main/java/io/micronaut/serde/adhoc/parser/AdhocParser.java:109-117 | the number is the ten bytes from the first digit read as a decimal, below 10^10 for digits; cursor at that digit + 10; in array mode the key counter also skips `balance` |
| ParserFacts.BalanceWindow | serde-adhoc/src/main/java/io/micronaut/serde/adhoc/parser/AdhocParser.java:118-121 | the balance is the six-byte window from the first digit, always stored at top level; cursor at that digit + 6 |
| ParserFacts.BooleanLiteral | serde-adhoc/src/main/java/io/micronaut/serde/adhoc/parser/AdhocParser.java:122-129 | the flag is true exactly when the first `t`/`f` byte is `t`; cursor at that byte + 4 or + 5; in array mode the slot advances and the key counter restarts |
| ParserFacts.EnterArrayStep | serde-adhoc/src/main/java/io/micronaut/serde/adhoc/parser/AdhocParser.java:130-134 | the `favoriteAccounts` value consumes no byte, stores three empty nested maps, enters array mode and resets the key counter |
| ParserFacts.InitConsistent | serde-adhoc/src/main/java/io/micronaut/serde/adhoc/parser/AdhocParser.java:54-62 | a fresh parser satisfies the counter invariant |
| ParserFacts.StepPreservesConsistent | serde-adhoc/src/main/java/io/micronaut/serde/adhoc/parser/AdhocParser.java:103-128 | every successful call keeps the counter invariant (in array mode only `name`, `accountNumber`, `isActive` are awaited and the slot never passes 3); a key step leaves the map alone; in array mode top-level slots and other nested slots are untouched |
| ParserFacts.ConsistentFaults | serde-adhoc/src/main/java/io/micronaut/serde/adhoc/parser/AdhocParser.java:86-140 | from a consistent state the only fault is an index fault while a value (never the array switch) is read |
| Mapper.Drain | serde-adhoc/src/main/java/io/micronaut/serde/adhoc/AdhocJsonMapper.java:88-91 | the loop ends only on end of input; the drained parser keeps the buffer, has a cursor no smaller than at the start, has no key pending, and reports end of input again if asked |
| Mapper.Decode | serde-adhoc/src/main/java/io/micronaut/serde/adhoc/AdhocJsonMapper.java:72-76 | every decoded account has exactly three favourites; each call builds a fresh parser over the bytes, so the account and its fields are those `Mapper.ReadValue` states for the drained map, and the fault split is `Mapper.DecodeFaults` |
| Mapper.DrainConsistent | serde-adhoc/src/main/java/io/micronaut/serde/adhoc/AdhocJsonMapper.java:88-91 | draining a consistent parser keeps it consistent, and the loop can only fail with an index fault |
| Mapper.OtherAccountValues | serde-adhoc/src/main/java/io/micronaut/serde/adhoc/AdhocJsonMapper.java:110-112 | entry `idx` of the stored nested array, present exactly when the array exists and is long enough |
| Mapper.ComposeOtherAccount | serde-adhoc/src/main/java/io/micronaut/serde/adhoc/AdhocJsonMapper.java:104-108 | succeeds exactly when the nested map at `idx` exists and holds an account number and a flag; the result carries that map's name, number and flag, and no nested balance is read |
| Mapper.ReadAccount | serde-adhoc/src/main/java/io/micronaut/serde/adhoc/AdhocJsonMapper.java:92-100 | succeeds exactly when every unboxed value is present; the account's name, number, balance and flag are the top-level slots and its three favourites come from nested maps 0, 1, 2 in that order |
| Mapper.ReadValue | serde-adhoc/src/main/java/io/micronaut/serde/adhoc/AdhocJsonMapper.java:87-102 | a result is produced exactly when draining succeeds and the drained map is complete; the account's fields are those of the drained map (top-level slots, nested maps 0, 1, 2), read only once the parser reports end of input; a token-loop fault is passed on unchanged |
| Mapper.AssemblyFaults | serde-adhoc/src/main/java/io/micronaut/serde/adhoc/AdhocJsonMapper.java:93-108 | with the nested array absent or of three maps, assembly fails only by a null dereference |
| Mapper.DecodeFaults | serde-adhoc/src/main/java/io/micronaut/serde/adhoc/AdhocJsonMapper.java:72-76 | a failed decode is an index fault exactly when the token loop failed, otherwise a null dereference in the assembly |
| Render.KeyStepOver | serde-adhoc/src/main/java/io/micronaut/serde/adhoc/parser/AdhocParser.java:87-94 | a key written as quote, key bytes, quote after quote-free junk is consumed in one key step that lands just past the closing quote and makes the expected key pending |
| Render.NameStepOver | serde-adhoc/src/main/java/io/micronaut/serde/adhoc/parser/AdhocParser.java:98-108 | a `:"name"` value is read back as exactly the written name, into the top-level or current nested map, with the cursor just past the closing quote |
| Render.NumberStepOver | serde-adhoc/src/main/java/io/micronaut/serde/adhoc/parser/AdhocParser.java:109-117 | a `:` followed by ten zero-padded digits is read back as the written number; in array mode the key counter also skips `balance` |
| Render.BalanceStepOver | serde-adhoc/src/main/java/io/micronaut/serde/adhoc/parser/AdhocParser.java:118-121 | a `:` followed by six bytes starting with a digit is read back as those six bytes, stored at top level |
| Render.FlagStepOver | serde-adhoc/src/main/java/io/micronaut/serde/adhoc/parser/AdhocParser.java:122-129 | `:true` / `:false` are read back as the written flag; in array mode the slot advances and the key counter restarts |
| Render.ItemsRun | serde-adhoc/src/main/java/io/micronaut/serde/adhoc/parser/AdhocParser.java:86-140 | on the rendering of a list of key/value items the token loop reaches exactly the state the items describe, with the rest of the buffer ahead |
| Render.RoundTrip | serde-adhoc/src/main/java/io/micronaut/serde/adhoc/AdhocJsonMapper.java:72-102 | decoding the canonical rendering of a well-formed account gives back that account |

The counter invariant `ParserFacts.Consistent` holds the schema's positional order.

- At top level, a pending key is `ACC_KEYS[posAcc - 1]` and no array is stored.
- In array mode, the array holds three nested maps. The key counter stands at 0, 1 or 3
  while a key is awaited, so `balance` is never awaited. The slot never passes 3.

`Render` writes the layout the decoder is built for, without whitespace:
`{"name":"…","accountNumber":dddddddddd,"balance":bbbbbb,"isActive":true,"favoriteAccounts":[{"name":"…","accountNumber":dddddddddd,"isActive":false},…]}`

- Names are quote-free.
- Numbers are written with ten zero-padded digits.
- The balance is six bytes starting with a digit.

The proof describes the rendering as a list of items, each a separator plus a key and its
value. `Render.Effect` gives, for each item, the state the decoder should reach: which
slot it fills and where the cursor lands. `Render.ItemsRun` proves by induction that the
decoder reaches exactly those states.

## Left out

- I/O: `readValue(InputStream)` only reads all bytes and delegates. `close()` is empty.
- The `System.err` line in the unexpected-key branch is logging. That branch is also
  unreachable: the pending key is always drawn from `ACC_KEYS`, so the model's key type
  has exactly those five values.
- `Double.parseDouble` in `parseBalance`: floating point. The balance is kept as its raw
  six-byte window. The `NumberFormatException` a non-numeric window would raise is
  therefore not modelled.
- `new String(…, UTF_8)`: names are kept as the raw bytes between the quotes. UTF-8
  decoding is a library call.
- `getDeserializeMap` only returns the map. The model reads the parser's `acc` field
  directly.
- The `ObjectMapper` methods that return null, empty arrays or nothing (the tree, write
  and reactive-parser methods, and `getStreamConfig`) have no behaviour.
- `Account`/`OtherAccount` getters and `toString`, the annotation mappers, `SerdeConfig`,
  `Serdeable`, `Serializer`, `LocalDateSerde`, the Gradle scripts and the test are
  framework code, formatting or configuration around the decoder.
- Numbers.LongPow: computed on unbounded integers, without 64-bit wrap-around. The source
  calls it only as `longPow(10, i)` with 0 <= i <= 8, where every intermediate is at most
  10^16 < 2^63.
- Numbers.ParseAccountNumber: the running sum is not checked against 64-bit overflow step
  by step. Only the final value is: `Numbers.DecimalValueBound` bounds every prefix the
  same way, well inside a `long`.
- Render.RoundTrip: covers only the whitespace-free canonical layout above. Every scan
  skips the bytes it is not looking for, so spaces or newlines between tokens decode the
  same way, but the rendering does not produce them (`Render.ItemsRun` itself accepts any
  quote-free bytes before a key). Other key orders and escaped quotes are not read back by
  the decoder at all: keys are assigned by position, and a `\"` ends a name.
- Render.WellFormed admits every six-byte balance window that starts with a digit,
  including ones `Double.parseDouble` rejects, such as `1abcde`. The source throws a
  `NumberFormatException` for those, while `Render.RoundTrip` proves `Ok`, because the
  model keeps the raw window (see the `parseBalance` line above).
- The cursor `posArray` is a Java `int`; the model's natural-number cursor drops its
  wrap-around. This only matters for a buffer within 18 bytes of 2^31, the largest single
  jump being the key skip over `favoriteAccounts`.
- Each decode builds a fresh parser, so no state carries over between calls. This holds by
  construction: `Mapper.Decode` is a function of the bytes alone, so it has no separate
  lemma.
- The cursor can exceed the buffer length (`ParserFacts.CursorCanPassEnd`). The key skip
  adds the assumed key's length, and the boolean skip adds 4 or 5, neither checked
  against the buffer; the only bound the code checks is the key loop's guard. The model
  keeps the cursor as an unbounded natural number and follows the code.
- An out-of-bounds array access or a null dereference throws in the code, and nothing in
  the decoder catches it. The model turns these exceptions into `Fault` results rather
  than preconditions, so malformed inputs are covered too.
