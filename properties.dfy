/**
 * What the symbology table promises over whole configuration files and
 * across its two lookup directions.
 */
module SymbologyProperties {
  import opened Wrappers
  import opened GoStrings
  import opened Symbology

  // ---------------------------------------------------------------------
  // Loading a file
  // ---------------------------------------------------------------------

  /** Loading a file in two parts is loading the second part from where the first left off. */
  lemma {:induction false} LoadFromAppend(t: Table, a: seq<string>, b: seq<string>)
    ensures LoadFrom(t, a + b) == LoadFrom(LoadFrom(t, a), b)
    decreases |b|
  {
    if b != [] {
      var ab := a + b;
      assert ab[..|ab| - 1] == a + b[..|b| - 1];
      assert ab[|ab| - 1] == b[|b| - 1];
      LoadFromAppend(t, a, b[..|b| - 1]);
    } else {
      assert a + b == a;
    }
  }

  /** A counterparty, once registered, stays registered; the parser never removes one. */
  lemma {:induction false} CounterpartiesOnlyGrow(t: Table, lines: seq<string>)
    ensures t.counterparties.Keys <= LoadFrom(t, lines).counterparties.Keys
    decreases |lines|
  {
    if lines != [] {
      CounterpartiesOnlyGrow(t, lines[..|lines| - 1]);
    }
  }

  /** Once a counterparty is in passthrough mode no later line turns that off. */
  lemma {:induction false} PassthroughIsSticky(t: Table, lines: seq<string>, cp: string)
    requires cp in t.counterparties && t.counterparties[cp].passthrough
    ensures cp in LoadFrom(t, lines).counterparties
    ensures LoadFrom(t, lines).counterparties[cp].passthrough
    decreases |lines|
  {
    if lines != [] {
      PassthroughIsSticky(t, lines[..|lines| - 1], cp);
    }
  }

  /**
   * A file without a single `=` registers no counterparty at all: a bare
   * `[Name]` header only moves the cursor.
   */
  lemma {:induction false} HeadersAloneRegisterNothing(lines: seq<string>)
    requires forall i :: 0 <= i < |lines| ==> '=' !in lines[i]
    ensures Load(lines).counterparties == map[]
    decreases |lines|
  {
    if lines != [] {
      HeadersAloneRegisterNothing(lines[..|lines| - 1]);
    }
  }

  /**
   * Before the first header the cursor is the empty name, so every mapping
   * line of a file without headers lands under the counterparty "".
   */
  lemma {:induction false} HeaderlessLinesLandUnderEmptyName(lines: seq<string>)
    requires forall i :: 0 <= i < |lines| ==> !IsHeader(lines[i])
    ensures Load(lines).cursor == ""
    ensures Load(lines).counterparties.Keys <= {""}
    decreases |lines|
  {
    if lines != [] {
      HeaderlessLinesLandUnderEmptyName(lines[..|lines| - 1]);
    }
  }

  /** After a file is loaded, the cursor names the last header line of the file. */
  lemma {:induction false} CursorIsLastHeader(lines: seq<string>, j: nat)
    requires j < |lines| && IsHeader(lines[j])
    requires forall i :: j < i < |lines| ==> !IsHeader(lines[i])
    ensures "[" + Load(lines).cursor + "]" == lines[j]
    decreases |lines|
  {
    if j < |lines| - 1 {
      CursorIsLastHeader(lines[..|lines| - 1], j);
    }
  }

  // ---------------------------------------------------------------------
  // Single lines
  // ---------------------------------------------------------------------

  /**
   * A line `k=v` (no further `=`, not a header, not the passthrough switch)
   * registers the cursor's counterparty and stores `k` -> `v` in its set,
   * leaving every other translation and the passthrough flag as they were.
   */
  lemma MappingLineStores(t: Table, k: string, v: string)
    requires '=' !in k && '=' !in v
    requires !IsHeader(k + "=" + v) && !IsPassthroughPair(k, v)
    ensures var r := Step(t, k + "=" + v);
      && r.cursor == t.cursor
      && t.cursor in r.counterparties
      && r.counterparties[t.cursor].Get(k) == Some(v)
      && r.counterparties[t.cursor].passthrough == SetOrNew(t, t.cursor).passthrough
      && forall k' :: k' != k ==> r.counterparties[t.cursor].Get(k') == SetOrNew(t, t.cursor).Get(k')
  {
    SplitPair(k, '=', v);
    assert '=' in k + "=" + v by { assert (k + "=" + v)[|k|] == '='; }
  }

  /** A later line for the same Bitfinex symbol replaces the earlier translation. */
  lemma LastWriteWins(t: Table, k: string, v1: string, v2: string)
    requires '=' !in k && '=' !in v1 && '=' !in v2
    requires !IsHeader(k + "=" + v1) && !IsPassthroughPair(k, v1)
    requires !IsHeader(k + "=" + v2) && !IsPassthroughPair(k, v2)
    ensures var r := Step(Step(t, k + "=" + v1), k + "=" + v2);
      t.cursor in r.counterparties && r.counterparties[t.cursor].Get(k) == Some(v2)
  {
    MappingLineStores(t, k, v1);
    MappingLineStores(Step(t, k + "=" + v1), k, v2);
  }

  /**
   * A `passthrough=true` line (any capitalisation) switches the cursor's
   * counterparty to passthrough and stores no translation.
   */
  lemma PassthroughLineSetsFlag(t: Table, k: string, v: string)
    requires '=' !in k && '=' !in v
    requires !IsHeader(k + "=" + v) && IsPassthroughPair(k, v)
    ensures var r := Step(t, k + "=" + v);
      && r.cursor == t.cursor
      && t.cursor in r.counterparties
      && r.counterparties[t.cursor].passthrough
      && r.counterparties[t.cursor].symbols == SetOrNew(t, t.cursor).symbols
  {
    SplitPair(k, '=', v);
    assert '=' in k + "=" + v by { assert (k + "=" + v)[|k|] == '='; }
  }

  /** Only the exact words, up to case, switch passthrough on; `passthrough=false` is a mapping. */
  lemma PassthroughFalseIsAMapping()
    ensures !IsPassthroughPair("passthrough", "false")
    ensures IsPassthroughPair("PassThrough", "TRUE")
  {
    ToLowerMatchesIgnoringCase("false", "true");
    ToLowerMatchesIgnoringCase("PassThrough", "passthrough");
    ToLowerMatchesIgnoringCase("TRUE", "true");
  }

  // ---------------------------------------------------------------------
  // The two lookup directions
  // ---------------------------------------------------------------------

  /** An unknown counterparty fails in both directions, whatever the symbol. */
  lemma UnknownCounterpartyFailsBothWays(t: Table, symbol: string, cp: string, sym: string, err: Option<LookupError>)
    requires cp !in t.counterparties
    requires IsReverseAnswer(t, symbol, cp, sym, err)
    ensures Forward(t, symbol, cp) == ("", Some(UnknownCounterparty(cp)))
    ensures sym == "" && err == Some(UnknownCounterparty(cp))
  {
  }

  /** A passthrough counterparty translates every symbol to itself in both directions. */
  lemma PassthroughIsIdentityBothWays(t: Table, symbol: string, cp: string, sym: string, err: Option<LookupError>)
    requires cp in t.counterparties && t.counterparties[cp].passthrough
    requires IsReverseAnswer(t, symbol, cp, sym, err)
    ensures Forward(t, symbol, cp) == (symbol, None)
    ensures sym == symbol && err == None
  {
  }

  /**
   * Round trip: if `FromBitfinex(x, cp)` succeeds with `y` on a translating
   * counterparty, then `ToBitfinex(y, cp)` succeeds, and whatever Bitfinex
   * symbol it picks translates to `y` again.
   */
  lemma ForwardThenReverse(t: Table, x: string, cp: string, sym: string, err: Option<LookupError>)
    requires cp in t.counterparties && !t.counterparties[cp].passthrough
    requires Forward(t, x, cp).1 == None
    requires IsReverseAnswer(t, Forward(t, x, cp).0, cp, sym, err)
    ensures err == None
    ensures Forward(t, sym, cp) == Forward(t, x, cp)
  {
    var y := Forward(t, x, cp).0;
    assert t.counterparties[cp].symbols[x] == y;
    assert HasReverse(t.counterparties[cp], y);
  }

  /**
   * The other way round: a Bitfinex symbol that `ToBitfinex(y, cp)` returns
   * on a translating counterparty is translated back to `y` by `FromBitfinex`.
   */
  lemma ReverseThenForward(t: Table, y: string, cp: string, sym: string)
    requires cp in t.counterparties && !t.counterparties[cp].passthrough
    requires IsReverseAnswer(t, y, cp, sym, None)
    ensures Forward(t, sym, cp) == (y, None)
  {
  }

  /**
   * `ToBitfinex` fails on a translating counterparty exactly when no
   * Bitfinex symbol translates to the requested one.
   */
  lemma ReverseFailsIffUnmapped(t: Table, y: string, cp: string, sym: string, err: Option<LookupError>)
    requires cp in t.counterparties && !t.counterparties[cp].passthrough
    requires IsReverseAnswer(t, y, cp, sym, err)
    ensures err.Some? <==> forall bfx :: bfx in t.counterparties[cp].symbols ==> t.counterparties[cp].symbols[bfx] != y
    ensures err.Some? ==> sym == "" && err == Some(UnknownSymbol(y, cp))
  {
  }

  /**
   * A pair configured last under its header is found in both directions:
   * `FromBitfinex(k, c)` gives `v`, and `ToBitfinex(v, c)` succeeds with a
   * symbol that translates to `v`.
   */
  lemma ConfiguredPairRoundTrip(lines: seq<string>, c: string, k: string, v: string, sym: string, err: Option<LookupError>)
    requires '=' !in c && '=' !in k && '=' !in v
    requires !IsHeader(k + "=" + v) && !IsPassthroughPair(k, v)
    requires var r := Load(lines + ["[" + c + "]", k + "=" + v]);
      c in r.counterparties && !r.counterparties[c].passthrough
    requires IsReverseAnswer(Load(lines + ["[" + c + "]", k + "=" + v]), v, c, sym, err)
    ensures Forward(Load(lines + ["[" + c + "]", k + "=" + v]), k, c) == (v, None)
    ensures err == None && Forward(Load(lines + ["[" + c + "]", k + "=" + v]), sym, c) == (v, None)
  {
    var header := "[" + c + "]";
    assert IsHeader(header);
    assert '=' !in header;
    LoadFromAppend(Initial, lines, [header, k + "=" + v]);
    var t := Step(Load(lines), header);
    assert [header, k + "=" + v][..1] == [header];
    assert LoadFrom(Load(lines), [header]) == t;
    assert t.cursor == c;
    MappingLineStores(t, k, v);
    var r := Load(lines + [header, k + "=" + v]);
    assert r == Step(t, k + "=" + v);
    ForwardThenReverse(r, k, c, sym, err);
  }

  // ---------------------------------------------------------------------
  // Worked configurations
  // ---------------------------------------------------------------------

  /** A header without `=` only moves the cursor. */
  lemma HeaderOnlyMovesCursor(t: Table, c: string)
    requires '=' !in c
    ensures Step(t, "[" + c + "]") == Table(c, t.counterparties)
  {
    var header := "[" + c + "]";
    assert IsHeader(header);
    assert '=' !in header;
  }

  /** A two-line file is the parser applied to its first line, then to its second. */
  lemma LoadTwoLines(first: string, second: string)
    ensures Load([first, second]) == Step(Step(Initial, first), second)
  {
    var lines := [first, second];
    assert lines[..1] == [first];
    assert [first][..0] == [];
    assert LoadFrom(Initial, [first]) == Step(Initial, first);
    assert LoadFrom(Initial, lines) == Step(LoadFrom(Initial, lines[..1]), second);
  }

  /** The table the file `[Bloomberg]`, `tBTCUSD=BXY` loads into. */
  lemma BloombergTable()
    ensures Load(["[Bloomberg]", "tBTCUSD=BXY"])
         == Table("Bloomberg", map["Bloomberg" := SymbolSet(map["tBTCUSD" := "BXY"], false)])
  {
    var name, k, v := "Bloomberg", "tBTCUSD", "BXY";
    var header, line := "[" + name + "]", k + "=" + v;
    assert header == "[Bloomberg]" && line == "tBTCUSD=BXY";
    HeaderOnlyMovesCursor(Initial, name);
    var t0 := Table(name, map[]);
    assert !IsHeader(line);
    assert !IsPassthroughPair(k, v) by {
      assert |ToLower(k)| == 7;
    }
    MappingLineStores(t0, k, v);
    LoadTwoLines(header, line);
    var r := Step(t0, line);
    assert r.counterparties.Keys == {name};
    assert r.counterparties[name].symbols == map[k := v];
  }

  /** Lookups in the table of one counterparty `c` that maps `k` to `v` only. */
  lemma SinglePairLookups(t: Table, c: string, k: string, v: string, other: string)
    requires t == Table(c, map[c := SymbolSet(map[k := v], false)])
    requires other != k && other != v
    ensures Forward(t, k, c) == (v, None)
    ensures forall sym, err :: IsReverseAnswer(t, v, c, sym, err) ==> sym == k && err == None
    ensures Forward(t, other, c) == ("", Some(UnknownSymbol(other, c)))
    ensures forall sym, err :: IsReverseAnswer(t, other, c, sym, err) ==>
              sym == "" && err == Some(UnknownSymbol(other, c))
  {
    assert k in t.counterparties[c].symbols && t.counterparties[c].symbols[k] == v;
    assert HasReverse(t.counterparties[c], v);
    assert !HasReverse(t.counterparties[c], other);
  }

  /**
   * `[Bloomberg]` then `tBTCUSD=BXY`: `tBTCUSD` and `BXY` translate into each
   * other, and `ZZZ` is unknown in both directions.
   */
  lemma BloombergExample()
    ensures Forward(Load(["[Bloomberg]", "tBTCUSD=BXY"]), "tBTCUSD", "Bloomberg") == ("BXY", None)
    ensures forall sym, err :: IsReverseAnswer(Load(["[Bloomberg]", "tBTCUSD=BXY"]), "BXY", "Bloomberg", sym, err) ==>
              sym == "tBTCUSD" && err == None
    ensures Forward(Load(["[Bloomberg]", "tBTCUSD=BXY"]), "ZZZ", "Bloomberg") == ("", Some(UnknownSymbol("ZZZ", "Bloomberg")))
    ensures forall sym, err :: IsReverseAnswer(Load(["[Bloomberg]", "tBTCUSD=BXY"]), "ZZZ", "Bloomberg", sym, err) ==>
              sym == "" && err == Some(UnknownSymbol("ZZZ", "Bloomberg"))
  {
    BloombergTable();
    SinglePairLookups(Load(["[Bloomberg]", "tBTCUSD=BXY"]), "Bloomberg", "tBTCUSD", "BXY", "ZZZ");
  }

  /** `[Reuters]` then `passthrough=true`: every symbol translates to itself. */
  lemma ReutersExample(symbol: string)
    ensures Forward(Load(["[Reuters]", "passthrough=true"]), symbol, "Reuters") == (symbol, None)
  {
    var name, k, v := "Reuters", "passthrough", "true";
    var header, line := "[" + name + "]", k + "=" + v;
    assert header == "[Reuters]" && line == "passthrough=true";
    HeaderOnlyMovesCursor(Initial, name);
    var t0 := Table(name, map[]);
    assert !IsHeader(line);
    ToLowerMatchesIgnoringCase(k, k);
    ToLowerMatchesIgnoringCase(v, v);
    PassthroughLineSetsFlag(t0, k, v);
    LoadTwoLines(header, line);
  }

  /**
   * `[a=b]` is a header and a mapping line at once: the cursor becomes `a=b`
   * and the pair `[a` -> `b]` is stored under it.
   */
  lemma BracketedMappingExample()
    ensures Step(Initial, "[a=b]") == Table("a=b", map["a=b" := SymbolSet(map["[a" := "b]"], false)])
  {
    assert IsHeader("[a=b]");
    assert HeaderName("[a=b]") == "a=b";
    assert "[a=b]" == "[a" + "=" + "b]";
    SplitPair("[a", '=', "b]");
    assert Key("[a=b]") == "[a" && Value("[a=b]") == "b]";
    assert !IsPassthroughPair("[a", "b]") by {
      assert |ToLower("[a")| == 2;
    }
  }

  /**
   * On a line with a second `=`, the key is the text before the first `=`
   * and the value the text between the first and the second; the rest of
   * the line is never looked at.
   */
  lemma MappingLinePieces(k: string, v: string, rest: string)
    requires '=' !in k && '=' !in v
    ensures '=' in k + "=" + v + "=" + rest
    ensures Key(k + "=" + v + "=" + rest) == k && Value(k + "=" + v + "=" + rest) == v
  {
    var line := k + "=" + v + "=" + rest;
    assert line == k + ['='] + (v + ['='] + rest);
    assert line[|k|] == '=';
    SplitAtFirst(k, '=', v + ['='] + rest);
    SplitAtFirst(v, '=', rest);
  }

  /** Only the first two pieces of a line count: `k=v=rest` stores `k` -> `v`. */
  lemma ExtraPiecesIgnored(t: Table, k: string, v: string, rest: string)
    requires '=' !in k && '=' !in v
    requires !IsHeader(k + "=" + v + "=" + rest) && !IsPassthroughPair(k, v)
    ensures var r := Step(t, k + "=" + v + "=" + rest);
      && r.cursor == t.cursor
      && t.cursor in r.counterparties
      && r.counterparties[t.cursor].Get(k) == Some(v)
      && forall k' :: k' != k ==> r.counterparties[t.cursor].Get(k') == SetOrNew(t, t.cursor).Get(k')
  {
    MappingLinePieces(k, v, rest);
  }
}
