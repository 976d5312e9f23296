/**
 * The counterparty symbol-translation table of the FIX gateway
 * (service/symbol/file.go).
 *
 * A configuration file names counterparties in `[square brackets]`; the
 * `key=value` lines after a header map a Bitfinex symbol (left) to the
 * counterparty's own symbol (right), and `passthrough=true` switches a
 * counterparty to "no translation". The table is built by folding the line
 * parser over the file's lines and is then queried in both directions.
 */
module Symbology {
  import opened Wrappers
  import opened GoStrings

  // ---------------------------------------------------------------------
  // Symbol sets
  // ---------------------------------------------------------------------

  /** The translations of one counterparty: Bitfinex symbol to counterparty symbol. */
  datatype SymbolSet = SymbolSet(symbols: map<string, string>, passthrough: bool)
  {
    /** The counterparty symbol stored for Bitfinex symbol `k`, if any. */
    function Get(k: string): (r: Option<string>)
      ensures r.Some? <==> k in symbols
      ensures r.Some? ==> r.value == symbols[k]
    {
      if k in symbols then Some(symbols[k]) else None
    }

    /** The set with `k` translated to `v`; a previous translation of `k` is replaced. */
    function Set(k: string, v: string): (r: SymbolSet)
      ensures r.Get(k) == Some(v)
      ensures forall k' :: k' != k ==> r.Get(k') == Get(k')
      ensures r.passthrough == passthrough
    {
      this.(symbols := symbols[k := v])
    }
  }

  /** A freshly created symbol set: nothing is translated and passthrough is off. */
  function NewSymbolSet(): (s: SymbolSet)
    ensures forall k :: s.Get(k) == None
    ensures !s.passthrough
  {
    SymbolSet(map[], false)
  }

  // ---------------------------------------------------------------------
  // The parser's state and one parsing step
  // ---------------------------------------------------------------------

  /**
   * The state the parser threads through the lines: the counterparty the
   * following lines belong to, and the symbol set of each counterparty
   * registered so far.
   */
  datatype Table = Table(cursor: string, counterparties: map<string, SymbolSet>)

  /** The state before the first line: no counterparty named yet, nothing registered. */
  const Initial := Table("", map[])

  /**
   * A header line: it opens with `[` and closes with `]`. Whatever else the
   * line holds (an `=`, another bracket) does not matter.
   */
  predicate IsHeader(line: string)
    ensures IsHeader(line) ==> |line| >= 2
  {
    |line| > 0 && line[0] == '[' && line[|line| - 1] == ']'
  }

  /** The text strictly between the brackets of a header line. */
  function HeaderName(line: string): (name: string)
    requires IsHeader(line)
    ensures "[" + name + "]" == line
  {
    line[1..|line| - 1]
  }

  /**
   * The text before the first `=` of a line: a prefix of the line without
   * `=`, followed by an `=` when the line has one (the whole line otherwise).
   */
  function Key(line: string): (k: string)
    ensures '=' !in k && k <= line
    ensures '=' in line ==> |k| < |line| && line[|k|] == '='
    ensures '=' !in line ==> k == line
  {
    Split(line, '=')[0]
  }

  /**
   * The text between the first and the second `=` of a line that has one:
   * `Key(line) + "=" + v` starts the line, `v` has no `=`, and what follows
   * it, if anything, is another `=`.
   */
  function Value(line: string): (v: string)
    requires '=' in line
    ensures '=' !in v && Key(line) + "=" + v <= line
    ensures |Key(line)| + 1 + |v| < |line| ==> line[|Key(line)| + 1 + |v|] == '='
  {
    var parts := Split(line, '=');
    assert line == parts[0] + ['='] + Join(parts[1..], '=');
    parts[1]
  }

  /** A mapping line whose two sides read `passthrough` and `true`, in any case. */
  predicate IsPassthroughPair(k: string, v: string)
    ensures IsPassthroughPair(k, v) <==>
              MatchesIgnoringCase(k, "passthrough") && MatchesIgnoringCase(v, "true")
  {
    ToLowerMatchesIgnoringCase(k, "passthrough");
    ToLowerMatchesIgnoringCase(v, "true");
    ToLower(k) == "passthrough" && ToLower(v) == "true"
  }

  /**
   * The symbol set of counterparty `c`: the registered one, or a new empty,
   * non-passthrough one when `c` has none yet.
   */
  function SetOrNew(t: Table, c: string): (s: SymbolSet)
    ensures c in t.counterparties ==> s == t.counterparties[c]
    ensures c !in t.counterparties ==> s.symbols == map[] && !s.passthrough
  {
    if c in t.counterparties then t.counterparties[c] else NewSymbolSet()
  }

  /**
   * One call of `parse`. A header sets the cursor to the name between its
   * brackets, any other line keeps it. A line without `=` leaves the
   * counterparty map alone. A line with `=` registers the cursor's
   * counterparty, starting from a new symbol set if it had none, and then
   * either switches it to passthrough (`passthrough=true`, any case) or
   * stores `Key(line)` -> `Value(line)`. No other counterparty changes.
   */
  function Step(t: Table, line: string): (r: Table)
    ensures IsHeader(line) ==> "[" + r.cursor + "]" == line
    ensures !IsHeader(line) ==> r.cursor == t.cursor
    ensures '=' !in line ==> r.counterparties == t.counterparties
    ensures '=' in line ==> r.counterparties.Keys == t.counterparties.Keys + {r.cursor}
    ensures forall c :: c in t.counterparties && c != r.cursor ==>
              c in r.counterparties && r.counterparties[c] == t.counterparties[c]
    ensures '=' in line && IsPassthroughPair(Key(line), Value(line)) ==>
              r.counterparties[r.cursor] == SetOrNew(t, r.cursor).(passthrough := true)
    ensures '=' in line && !IsPassthroughPair(Key(line), Value(line)) ==>
              r.counterparties[r.cursor] == SetOrNew(t, r.cursor).Set(Key(line), Value(line))
  {
    var cursor := if IsHeader(line) then HeaderName(line) else t.cursor;
    var s := Split(line, '=');
    if |s| < 2 then
      t.(cursor := cursor)
    else
      var symbols := SetOrNew(t, cursor);
      var updated :=
        if IsPassthroughPair(s[0], s[1]) then symbols.(passthrough := true)
        else symbols.Set(s[0], s[1]);
      Table(cursor, t.counterparties[cursor := updated])
  }

  /** Some header line among `lines` names counterparty `c`. */
  predicate NamedBy(lines: seq<string>, c: string)
  {
    exists i :: 0 <= i < |lines| && IsHeader(lines[i]) && "[" + c + "]" == lines[i]
  }

  /**
   * Registering an empty set and then storing the filled one leaves only
   * the latter, as the source's in-place update of the registered set does.
   */
  lemma OverwriteTwice(m: map<string, SymbolSet>, k: string, first: SymbolSet, second: SymbolSet)
    ensures m[k := first][k := second] == m[k := second]
  {
  }

  /**
   * The parser run over `lines`, one after the other, starting from `t`.
   * The cursor ends at its old value or at a name some header gave; every
   * counterparty registered on the way is the old cursor or such a name.
   */
  function LoadFrom(t: Table, lines: seq<string>): (r: Table)
    ensures r.cursor == t.cursor || NamedBy(lines, r.cursor)
    ensures forall c :: c in r.counterparties ==>
              c in t.counterparties || c == t.cursor || NamedBy(lines, c)
    decreases |lines|
  {
    if lines == [] then t
    else
      var prefix := lines[..|lines| - 1];
      var last := lines[|lines| - 1];
      var before := LoadFrom(t, prefix);
      assert forall c :: NamedBy(prefix, c) ==> NamedBy(lines, c) by {
        forall c | NamedBy(prefix, c) ensures NamedBy(lines, c) {
          var i :| 0 <= i < |prefix| && IsHeader(prefix[i]) && "[" + c + "]" == prefix[i];
          assert lines[i] == prefix[i];
        }
      }
      var r := Step(before, last);
      assert IsHeader(last) ==> NamedBy(lines, r.cursor) by {
        if IsHeader(last) {
          assert lines[|lines| - 1] == last;
        }
      }
      r
  }

  /**
   * The table a configuration file with these lines produces: its cursor and
   * every counterparty it registers are `""` or the name of a header line.
   */
  function Load(lines: seq<string>): (r: Table)
    ensures r.cursor == "" || NamedBy(lines, r.cursor)
    ensures forall c :: c in r.counterparties ==> c == "" || NamedBy(lines, c)
  {
    LoadFrom(Initial, lines)
  }

  // ---------------------------------------------------------------------
  // The two lookups
  // ---------------------------------------------------------------------

  /** Why a lookup failed. */
  datatype LookupError =
    | UnknownCounterparty(counterparty: string)
    | UnknownSymbol(symbol: string, counterparty: string)

  /**
   * `FromBitfinex`: a Bitfinex symbol translated for a counterparty. A failure
   * comes with the empty string, as the source returns it.
   */
  function Forward(t: Table, symbol: string, counterparty: string): (r: (string, Option<LookupError>))
    ensures counterparty !in t.counterparties ==> r == ("", Some(UnknownCounterparty(counterparty)))
    ensures counterparty in t.counterparties && t.counterparties[counterparty].passthrough ==>
              r == (symbol, None)
    ensures counterparty in t.counterparties && !t.counterparties[counterparty].passthrough &&
            symbol in t.counterparties[counterparty].symbols ==>
              r == (t.counterparties[counterparty].symbols[symbol], None)
    ensures counterparty in t.counterparties && !t.counterparties[counterparty].passthrough &&
            symbol !in t.counterparties[counterparty].symbols ==>
              r == ("", Some(UnknownSymbol(symbol, counterparty)))
  {
    if counterparty !in t.counterparties then ("", Some(UnknownCounterparty(counterparty)))
    else
      var symset := t.counterparties[counterparty];
      if symset.passthrough then (symbol, None)
      else
        match symset.Get(symbol)
        case None => ("", Some(UnknownSymbol(symbol, counterparty)))
        case Some(sym) => (sym, None)
  }

  /** Some Bitfinex symbol of the set translates to `symbol`. */
  predicate HasReverse(symset: SymbolSet, symbol: string)
  {
    exists bfx :: bfx in symset.symbols && symset.symbols[bfx] == symbol
  }

  /**
   * The answers `ToBitfinex` may give. The source scans a Go map, whose order
   * is unspecified, so when several Bitfinex symbols translate to `symbol`
   * any one of them is a permitted answer.
   */
  ghost predicate IsReverseAnswer(t: Table, symbol: string, counterparty: string,
                                  sym: string, err: Option<LookupError>)
    ensures IsReverseAnswer(t, symbol, counterparty, sym, err) ==>
              (err == None <==>
                 (counterparty in t.counterparties &&
                  (t.counterparties[counterparty].passthrough || HasReverse(t.counterparties[counterparty], symbol))))
    ensures IsReverseAnswer(t, symbol, counterparty, sym, err) && err != None ==> sym == ""
  {
    if counterparty !in t.counterparties then
      sym == "" && err == Some(UnknownCounterparty(counterparty))
    else if t.counterparties[counterparty].passthrough then
      sym == symbol && err == None
    else if HasReverse(t.counterparties[counterparty], symbol) then
      err == None && sym in t.counterparties[counterparty].symbols &&
      t.counterparties[counterparty].symbols[sym] == symbol
    else
      sym == "" && err == Some(UnknownSymbol(symbol, counterparty))
  }

  // ---------------------------------------------------------------------
  // The table object
  // ---------------------------------------------------------------------

  /** `FileSymbology`: the cursor and the counterparty map, updated in place while parsing. */
  class FileSymbology {
    var counterparty: string
    var counterparties: map<string, SymbolSet>

    /** The parser state these fields hold. */
    function State(): Table
      reads this
    {
      Table(counterparty, counterparties)
    }

    /** An empty table, as `NewFileSymbology` allocates it before the first line. */
    constructor ()
      ensures State() == Initial
    {
      counterparty := "";
      counterparties := map[];
    }

    /** `parse`: consume one configuration line. */
    method Parse(line: string)
      modifies this
      ensures State() == Step(old(State()), line)
    {
      if IsHeader(line) {
        counterparty := HeaderName(line);
      }
      var s := Split(line, '=');
      if |s| < 2 {
        return;
      }
      var symbols: SymbolSet;
      if counterparty in counterparties {
        symbols := counterparties[counterparty];
      } else {
        symbols := NewSymbolSet();
        counterparties := counterparties[counterparty := symbols];
      }
      if IsPassthroughPair(s[0], s[1]) {
        symbols := symbols.(passthrough := true);
      } else {
        symbols := symbols.Set(s[0], s[1]);
      }
      OverwriteTwice(old(counterparties), counterparty, NewSymbolSet(), symbols);
      counterparties := counterparties[counterparty := symbols];
    }

    /** `ToBitfinex`: translate a counterparty symbol back to a Bitfinex symbol. */
    method ToBitfinex(symbol: string, counterparty: string) returns (sym: string, err: Option<LookupError>)
      ensures IsReverseAnswer(State(), symbol, counterparty, sym, err)
    {
      if counterparty !in counterparties {
        return "", Some(UnknownCounterparty(counterparty));
      }
      var symset := counterparties[counterparty];
      if symset.passthrough {
        return symbol, None;
      }
      var unvisited := symset.symbols.Keys;
      while unvisited != {}
        invariant unvisited <= symset.symbols.Keys
        invariant forall bfx :: bfx in symset.symbols && bfx !in unvisited ==> symset.symbols[bfx] != symbol
        decreases unvisited
      {
        var bfx :| bfx in unvisited;
        if symset.symbols[bfx] == symbol {
          return bfx, None;
        }
        unvisited := unvisited - {bfx};
      }
      return "", Some(UnknownSymbol(symbol, counterparty));
    }

    /** `FromBitfinex`: translate a Bitfinex symbol to the counterparty's symbol. */
    method FromBitfinex(symbol: string, counterparty: string) returns (sym: string, err: Option<LookupError>)
      ensures (sym, err) == Forward(State(), symbol, counterparty)
    {
      if counterparty !in counterparties {
        return "", Some(UnknownCounterparty(counterparty));
      }
      var symset := counterparties[counterparty];
      if symset.passthrough {
        return symbol, None;
      }
      var found := symset.Get(symbol);
      if found.None? {
        return "", Some(UnknownSymbol(symbol, counterparty));
      }
      return found.value, None;
    }
  }

  /**
   * `NewFileSymbology`: the table built from the lines of a configuration
   * file, parsed in order.
   */
  method NewFileSymbology(lines: seq<string>) returns (f: FileSymbology)
    ensures fresh(f)
    ensures f.State() == Load(lines)
  {
    f := new FileSymbology();
    var i := 0;
    while i < |lines|
      invariant 0 <= i <= |lines|
      invariant f.State() == LoadFrom(Initial, lines[..i])
    {
      assert lines[..i + 1][..i] == lines[..i];
      f.Parse(lines[i]);
      i := i + 1;
    }
    assert lines[..|lines|] == lines;
  }

  // ---------------------------------------------------------------------
  // The header slice
  // ---------------------------------------------------------------------

  /** Go's slice expression `s[lo:hi]`; None stands for the run-time panic it raises on bad bounds. */
  function GoSlice(s: string, lo: int, hi: int): (r: Option<string>)
    ensures r.Some? <==> 0 <= lo <= hi <= |s|
    ensures r.Some? ==> |r.value| == hi - lo && forall i :: 0 <= i < hi - lo ==> r.value[i] == s[lo + i]
  {
    if 0 <= lo <= hi <= |s| then Some(s[lo..hi]) else None
  }

  /**
   * `line[1:len(line)-1]` on a header line never panics: a line that starts
   * with `[` and ends with `]` has at least two characters, so the slice
   * bounds are in order, and the slice is the header's name.
   */
  lemma HeaderSliceInBounds(line: string)
    requires IsHeader(line)
    ensures GoSlice(line, 1, |line| - 1) == Some(HeaderName(line))
  {
    assert |line| >= 2;
  }
}
