# Counterparty symbology table of bfxfixgw, in Dafny

The FIX gateway translates instrument symbols between Bitfinex's own names and
the names each connected counterparty uses. The translations come from a
plain-text file. A line `[Name]` selects a counterparty. A line `left=right`
under it maps the Bitfinex symbol `left` to the counterparty symbol `right`.
The line `passthrough=true`, in any capitalisation, switches that counterparty
to "no translation". `FromBitfinex` translates a Bitfinex symbol by a keyed
lookup. `ToBitfinex` translates back by scanning the counterparty's map.

This project models `service/symbol/file.go`:

- `wrappers.dfy` (module `Wrappers`): `Option`.
- `gostrings.dfy` (module `GoStrings`): the parts of Go's `strings` package
  the parser uses. `Split` on `=` is proved to be undone by `Join`, to give
  separator-free pieces, and to give two or more pieces exactly when the line
  holds an `=`. `ToLower` lowers ASCII letters.
- `symbology.dfy` (module `Symbology`): the symbol set (`SymbolSet`, with
  `Get` and `Set`) and the parser state `Table` (the cursor plus the
  counterparty map). `Step` is one call of `parse`. `LoadFrom` and `Load` fold
  `Step` over the lines of a file. `Forward` specifies `FromBitfinex`.
  `IsReverseAnswer` gives every answer `ToBitfinex` may return. The class
  `FileSymbology` keeps the source's two fields and updates them in place:
  `Parse` is proved equal to `Step`, and the two lookup methods are proved
  against `Forward` and `IsReverseAnswer`. `ToBitfinex` loops over the keys in
  an arbitrary order, as ranging over a Go map does. `NewFileSymbology` loops
  over the lines and is proved equal to `Load`.
- `properties.dfy` (module `SymbologyProperties`): lemmas about whole files,
  single lines and the two lookup directions, plus worked configurations.

`parse` is more lenient than the file format in the comment at
`service/symbol/file.go:33-37` suggests, and the model keeps that leniency:

- A line with more than one `=` is not ignored. It stores the text before the
  first `=` against the text between the first and second `=`.
- Mapping lines before any header are not ignored. They land under the
  counterparty `""`, because the cursor starts out empty.
- A bare `[Name]` header does not register `Name`. Only the first line with an
  `=` under it does.
- `[a=b]` is a header and a mapping line at once. It sets the cursor to `a=b`
  and stores `[a` -> `b]` under it.

## Model

| member | source | states |
|---|---|---|
| GoStrings.Split | service/symbol/file.go:48-49 | the pieces contain no `=`, joining them with `=` gives back the line, and there are at least two pieces exactly when the line has an `=` |
| GoStrings.SplitAtFirst | service/symbol/file.go:48 | the first piece of a line is the text before its first `=`; the other pieces come from the text after it |
| GoStrings.SplitWithoutSeparator | service/symbol/file.go:48-51 | a line without `=` is a single piece, so `parse` returns early on it |
| GoStrings.SplitPair | service/symbol/file.go:48-60 | `k=v` with no other `=` splits into exactly `k` and `v` |
| GoStrings.ToLower | service/symbol/file.go:57 | the lowered text is as long as the input and holds no capital letter |
| GoStrings.ToLowerKeepsLowerCase | service/symbol/file.go:57 | text without capitals is left as it is, so lowering twice is lowering once |
| GoStrings.ToLowerMatchesIgnoringCase | service/symbol/file.go:57 | comparing the lowered text with `passthrough` or `true` is a case-insensitive comparison, character by character |
| Symbology.NewSymbolSet | service/symbol/file.go:18-22 | a new symbol set translates nothing and is not passthrough |
| Symbology.SymbolSet.Set | service/symbol/file.go:24-26 | after `set(k, v)`, `k` reads `v`, every other key reads as before, and the passthrough flag is untouched |
| Symbology.SymbolSet.Get | service/symbol/file.go:28-31 | `get(k)` succeeds exactly when `k` is a key, and then returns its value |
| Symbology.IsHeader | service/symbol/file.go:45 | a line that starts with `[` and ends with `]` has at least two characters |
| Symbology.HeaderName | service/symbol/file.go:45-46 | the new cursor of a header line is the text strictly between its brackets |
| Symbology.GoSlice | service/symbol/file.go:46 | a Go slice `s[lo:hi]` succeeds exactly when `0 <= lo <= hi <= len(s)` and then holds `s[lo..hi]` |
| Symbology.HeaderSliceInBounds | service/symbol/file.go:45-46 | the slice `line[1:len(line)-1]` never panics on a line that starts with `[` and ends with `]`, and yields the header's name |
| Symbology.Key | service/symbol/file.go:48-60 | the key (`s[0]`) is a prefix of the line without `=`; it is followed by an `=` when the line has one and is the whole line otherwise |
| Symbology.Value | service/symbol/file.go:48-60 | the value (`s[1]`) has no `=`, `key=value` starts the line, and what follows it, if anything, is another `=` |
| Symbology.IsPassthroughPair | service/symbol/file.go:57 | the passthrough switch is recognised exactly when the key is `passthrough` and the value `true`, each letter in either case |
| Symbology.SetOrNew | service/symbol/file.go:52-56 | the cursor's registered symbol set, or a new empty, non-passthrough one when it has none |
| Symbology.Step | service/symbol/file.go:44-62 | a header sets the cursor to the bracketed name; a line without `=` leaves the counterparty map unchanged; a line with `=` registers the cursor's counterparty (a new empty set if absent) and either sets its passthrough flag (passthrough/true in any case) or stores key -> value; other counterparties are untouched |
| Symbology.LoadFrom | service/symbol/file.go:73-75 | folding `parse` over lines leaves the cursor at its old value or at a name some header line gave, and registers only counterparties that were registered before, the old cursor, or named by a header |
| Symbology.Load | service/symbol/file.go:70-75 | after a whole file the cursor and every registered counterparty are `""` or the name in some header line |
| Symbology.FileSymbology.constructor | service/symbol/file.go:70 | a new table has an empty cursor and no counterparties |
| Symbology.FileSymbology.Parse | service/symbol/file.go:44-62 | updating the two fields in place yields exactly `Step` of the old state |
| Symbology.NewFileSymbology | service/symbol/file.go:65-77 | parsing the lines in order yields `Load` of the lines |
| Symbology.Forward | service/symbol/file.go:101-116 | unknown counterparty: `""` with an error; passthrough: the input unchanged; otherwise the mapped value when the symbol is a key, and `""` with an unknown-symbol error when it is not |
| Symbology.FileSymbology.FromBitfinex | service/symbol/file.go:101-116 | returns what `Forward` gives on the current table and changes nothing |
| Symbology.IsReverseAnswer | service/symbol/file.go:83-97 | a permitted `ToBitfinex` answer succeeds exactly when the counterparty is known and is passthrough or has a key mapping to the input; a failed answer carries `""` |
| Symbology.FileSymbology.ToBitfinex | service/symbol/file.go:80-98 | unknown counterparty: `""` with an error; passthrough: the input unchanged; otherwise some key whose value is the input, or `""` with an unknown-symbol error when no key maps to it; changes nothing |
| SymbologyProperties.LoadFromAppend | service/symbol/file.go:73-75 | loading a file in two parts equals loading the second part from the state the first part left |
| SymbologyProperties.CounterpartiesOnlyGrow | service/symbol/file.go:52-56 | no line removes a registered counterparty |
| SymbologyProperties.PassthroughIsSticky | service/symbol/file.go:57-58 | once passthrough is on for a counterparty, no later line turns it off |
| SymbologyProperties.HeadersAloneRegisterNothing | service/symbol/file.go:45-51 | a file without any `=` registers no counterparty, even when it has headers |
| SymbologyProperties.HeaderlessLinesLandUnderEmptyName | service/symbol/file.go:39-47 | without headers the cursor stays `""` and only the counterparty `""` can be registered |
| SymbologyProperties.CursorIsLastHeader | service/symbol/file.go:45-47 | after loading, the cursor is the name in the last header line |
| SymbologyProperties.MappingLineStores | service/symbol/file.go:52-60 | a `k=v` line stores `k` -> `v` under the cursor's counterparty and leaves its other keys and its flag as they were |
| SymbologyProperties.LastWriteWins | service/symbol/file.go:24-26 | a later line for the same Bitfinex symbol replaces the earlier translation |
| SymbologyProperties.PassthroughLineSetsFlag | service/symbol/file.go:57-58 | `passthrough=true` sets the flag and stores no translation |
| SymbologyProperties.PassthroughFalseIsAMapping | service/symbol/file.go:57-60 | `passthrough=false` is not the switch, and `PassThrough=TRUE` is |
| SymbologyProperties.UnknownCounterpartyFailsBothWays | service/symbol/file.go:83-87 | an unknown counterparty fails in both directions with `""` |
| SymbologyProperties.PassthroughIsIdentityBothWays | service/symbol/file.go:88-90 | a passthrough counterparty returns the input unchanged in both directions, whatever entries it has |
| SymbologyProperties.ForwardThenReverse | service/symbol/file.go:91-95 | if `FromBitfinex(x)` succeeds with `y` on a translating counterparty, `ToBitfinex(y)` succeeds with a symbol that translates to `y` again |
| SymbologyProperties.ReverseThenForward | service/symbol/file.go:111-115 | a symbol `ToBitfinex(y)` returns is translated back to `y` by `FromBitfinex` |
| SymbologyProperties.ReverseFailsIffUnmapped | service/symbol/file.go:91-97 | `ToBitfinex` fails on a translating counterparty exactly when no key maps to the input |
| SymbologyProperties.ConfiguredPairRoundTrip | service/symbol/file.go:44-116 | a pair written last under its header is found in both directions after loading |
| SymbologyProperties.HeaderOnlyMovesCursor | service/symbol/file.go:45-51 | a header without `=` moves the cursor and leaves the counterparty map alone |
| SymbologyProperties.LoadTwoLines | service/symbol/file.go:73-75 | a two-line file is parsed first line first |
| SymbologyProperties.SinglePairLookups | service/symbol/file.go:91-115 | with one counterparty mapping `k` to `v`, `k` and `v` translate into each other and any other symbol is unknown in both directions |
| SymbologyProperties.BloombergTable | service/symbol/file.go:33-37 | `[Bloomberg]`, `tBTCUSD=BXY` loads into one counterparty with one translation |
| SymbologyProperties.BloombergExample | service/symbol/file.go:33-37 | for that file, `tBTCUSD` translates to `BXY`, `BXY` back to `tBTCUSD`, and `ZZZ` is unknown in both directions |
| SymbologyProperties.ReutersExample | service/symbol/file.go:57-58 | `[Reuters]`, `passthrough=true` makes every symbol translate to itself |
| SymbologyProperties.BracketedMappingExample | service/symbol/file.go:45-60 | `[a=b]` sets the cursor to `a=b` and stores `[a` -> `b]` under it |
| SymbologyProperties.MappingLinePieces | service/symbol/file.go:48-60 | on a line `k=v=rest`, the key is `k` and the value is `v`, whatever `rest` holds |
| SymbologyProperties.ExtraPiecesIgnored | service/symbol/file.go:48-60 | a line `k=v=rest` stores `k` -> `v` under the cursor and leaves the other keys alone |

## Left out

- Opening, scanning and closing the file in `NewFileSymbology` (file.go:66-76) is I/O. The model takes the lines as a sequence. An open failure, `bufio.Scanner`'s line splitting, and its silent stop on a line over 64 KiB (its error is never checked) are not modelled.
- The `sync.Mutex` around the lookups (file.go:41, 81-82, 102-103) only serves concurrency. The lookups are methods without a `modifies` clause, so they cannot change the table.
- `log.Printf` calls and the text of the `fmt.Errorf` messages are side effects and formatting. A failure is a `LookupError` that says whether the counterparty or the symbol was unknown; the returned symbol is then `""`, as in the source.
- GoStrings.ToLower: does not model Go's Unicode `strings.ToLower`, because only equality with the ASCII words `passthrough` and `true` matters. Lowering ASCII letters gives that equality for ASCII text.
- Strings are sequences of characters, not UTF-8 bytes. Every byte position the source uses (`[`, `]`, `=`) is an ASCII character, so byte and character slicing agree.
- Symbol sets are values held in the counterparty map, not pointers updated in place. Each pointer is stored in exactly one map entry and never escapes, so the aliasing cannot be observed.
- Symbology.FileSymbology.ToBitfinex: which matching key is returned is left open, because Go's map iteration order is unspecified. The model picks the keys in an arbitrary order.
- convert/websocket.go is not part of this model. `OrderFromV1Order` relies on `strconv.ParseFloat`, float64 arithmetic and foreign library types. Its helpers are one-line type assertions.
