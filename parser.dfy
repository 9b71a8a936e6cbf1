/**
  * The line parser: one log line, split on whitespace, becomes a marker or an
  * event according to its third token.
  *
  *   marker: `... ALLOC: <w> <txg>, <w> <pass>`  (third token `ALLOC:` or `FREE:`)
  *   event:  `... A <w> <start>-<end> <w> <len>` (third token `A` or `F`, numbers in hex)
  */
module Parser {
  import opened Outcomes
  import opened Text
  import opened Entries

  /** `is_debug_line(tok)`: the third token names a marker line. */
  predicate IsDebugLine(tok: string)
  {
    tok == "ALLOC:" || tok == "FREE:"
  }

  /** `parse_debug_type(tok)`; any token but the two marker names fails its assertion. */
  function ParseDebugType(tok: string): (r: Result<Kind, Failure>)
    ensures r.Ok? <==> IsDebugLine(tok)
  {
    if tok == "ALLOC:" then Ok(Alloc)
    else if tok == "FREE:" then Ok(Free)
    else Err(BadType(tok))
  }

  /** `parse_standard_type(tok)`; any token but `A` and `F` fails its assertion. */
  function ParseStandardType(tok: string): (r: Result<Kind, Failure>)
    ensures r.Ok? <==> tok == "A" || tok == "F"
  {
    if tok == "A" then Ok(Alloc)
    else if tok == "F" then Ok(Free)
    else Err(BadType(tok))
  }

  /** The third token of a marker line of this kind. */
  function DebugToken(k: Kind): string
  {
    match k
    case Alloc => "ALLOC:"
    case Free => "FREE:"
  }

  /** The marker branch of `parse_entry_line`, evaluated in the order Python evaluates it. */
  function ParseDebugTokens(tokens: seq<string>): Result<Entry, Failure>
    requires |tokens| >= 3
  {
    match ParseDebugType(tokens[2])
    case Err(f) => Err(f)
    case Ok(kind) =>
      if |tokens| < 5 then Err(MissingToken(4))
      else
        var txgText := Strip(tokens[4], IsComma);
        match ParseDecimal(txgText)
        case None => Err(BadNumber(txgText))
        case Some(txg) =>
          if |tokens| < 7 then Err(MissingToken(6))
          else
            match ParseDecimal(tokens[6])
            case None => Err(BadNumber(tokens[6]))
            case Some(txgPass) => Ok(Debug(DebugEntry(kind, txg, txgPass)))
  }

  /** The event branch of `parse_entry_line`: the type is checked before tokens 5 and 7 are read. */
  function ParseStandardTokens(tokens: seq<string>): Result<Entry, Failure>
    requires |tokens| >= 3
  {
    match ParseStandardType(tokens[2])
    case Err(f) => Err(f)
    case Ok(kind) =>
      if |tokens| < 5 then Err(MissingToken(4))
      else
        var startText := BeforeFirst(tokens[4], '-');
        match ParseHex(startText)
        case None => Err(BadNumber(startText))
        case Some(start) =>
          if |tokens| < 7 then Err(MissingToken(6))
          else
            match ParseHex(tokens[6])
            case None => Err(BadNumber(tokens[6]))
            case Some(len) => Ok(Standard(StandardEntry(kind, start, len, None)))
  }

  /** `parse_entry_line` on the tokens of the line. */
  function ParseTokens(tokens: seq<string>): Result<Entry, Failure>
  {
    if |tokens| < 3 then Err(MissingToken(2))
    else if IsDebugLine(tokens[2]) then ParseDebugTokens(tokens)
    else ParseStandardTokens(tokens)
  }

  /** `parse_entry_line(line)`. */
  function ParseEntryLine(line: string): Result<Entry, Failure>
  {
    ParseTokens(Split(line))
  }

  /** What `parse_file` does with each line it reads: strip it, then parse it. */
  function ParseLine(line: string): Result<Entry, Failure>
  {
    ParseEntryLine(Strip(line, IsSpace))
  }

  /**
    * The list comprehension of `parse_file`: every line parsed, in order; the
    * first line that fails aborts the whole run with its error.
    */
  function ParseLines(lines: seq<string>): (r: Result<seq<Entry>, Failure>)
    ensures r.Ok? <==> forall i :: 0 <= i < |lines| ==> ParseLine(lines[i]).Ok?
    ensures r.Ok? ==>
      |r.value| == |lines| && forall i :: 0 <= i < |lines| ==> ParseLine(lines[i]) == Ok(r.value[i])
    ensures r.Err? ==>
      exists i :: 0 <= i < |lines| && ParseLine(lines[i]) == Err(r.error)
                  && forall j :: 0 <= j < i ==> ParseLine(lines[j]).Ok?
  {
    MapAll(lines, ParseLine)
  }

  // ---------------------------------------------------------------------
  // Lemmas
  // ---------------------------------------------------------------------

  /** Stripping the line first does not change what it parses to. */
  lemma StripIsHarmless(line: string)
    ensures ParseLine(line) == ParseEntryLine(line)
  {
    SplitStrip(line);
  }

  /**
    * A line with fewer than three tokens fails on the third; a line that parses
    * has at least seven, and is a marker exactly when its third token is `ALLOC:` or `FREE:`.
    */
  lemma ParseClassification(tokens: seq<string>)
    ensures |tokens| < 3 ==> ParseTokens(tokens) == Err(MissingToken(2))
    ensures ParseTokens(tokens).Ok? ==>
      |tokens| >= 7 && (ParseTokens(tokens).value.Debug? <==> IsDebugLine(tokens[2]))
  {
  }

  /** A third token that is neither a marker name nor `A`/`F` aborts the run. */
  lemma UnknownTypeFails(tokens: seq<string>)
    requires |tokens| >= 3
    requires !IsDebugLine(tokens[2]) && tokens[2] != "A" && tokens[2] != "F"
    ensures ParseTokens(tokens) == Err(BadType(tokens[2]))
  {
  }

  /**
    * A line parses to the marker `d` exactly when its third token names `d`'s
    * kind, its fifth (commas stripped) is `d`'s group in decimal and its seventh
    * is `d`'s pass in decimal.
    */
  lemma ParseDebugLine(tokens: seq<string>, d: DebugEntry)
    ensures ParseTokens(tokens) == Ok(Debug(d)) <==>
      |tokens| >= 7 && tokens[2] == DebugToken(d.kind)
      && ParseDecimal(Strip(tokens[4], IsComma)) == Some(d.txg)
      && ParseDecimal(tokens[6]) == Some(d.txgPass)
  {
  }

  /**
    * A line parses to the event `e` exactly when its third token is `e`'s type
    * marker, the text before the first `-` of its fifth is `e`'s start in hex and
    * its seventh is `e`'s length in hex; a fresh event has no marker attached.
    */
  lemma ParseStandardLine(tokens: seq<string>, e: StandardEntry)
    ensures ParseTokens(tokens) == Ok(Standard(e)) <==>
      |tokens| >= 7 && tokens[2] == TypeChar(e.kind)
      && ParseHex(BeforeFirst(tokens[4], '-')) == Some(e.start)
      && ParseHex(tokens[6]) == Some(e.len)
      && e.debug.None?
  {
  }

  /** The type marker survives a round trip through the parser and `_type_char`. */
  lemma TypeMarkerRoundTrip(k: Kind, tok: string)
    ensures ParseStandardType(TypeChar(k)) == Ok(k)
    ensures ParseDebugType(DebugToken(k)) == Ok(k)
    ensures tok == "A" || tok == "F" ==> TypeChar(ParseStandardType(tok).value) == tok
  {
  }

  /** A marker line written with single spaces parses back to the marker it describes. */
  lemma DebugLineRoundTrip(d: DebugEntry, w0: string, w1: string, w3: string, w5: string)
    requires IsWord(w0) && IsWord(w1) && IsWord(w3) && IsWord(w5)
    ensures ParseEntryLine(JoinWords([w0, w1, DebugToken(d.kind), w3, FormatDecimal(d.txg) + ",",
                                      w5, FormatDecimal(d.txgPass)])) == Ok(Debug(d))
  {
    var t, p := FormatDecimal(d.txg), FormatDecimal(d.txgPass);
    var tokens := [w0, w1, DebugToken(d.kind), w3, t + ",", w5, p];
    assert IsWord(",") && IsWord(DebugToken(d.kind));
    WordConcat(t, ",");
    SplitJoin(tokens);
    DigitsHaveNoPunctuation(t, 10);
    StripTrailingComma(t);
    DecimalRoundTrip(d.txg);
    DecimalRoundTrip(d.txgPass);
    ParseDebugLine(tokens, d);
  }

  /**
    * An event line written with single spaces parses back to the event it
    * describes, whatever end it logs after the `-`: the end is not read.
    */
  lemma StandardLineRoundTrip(k: Kind, start: nat, len: nat, loggedEnd: string,
                              w0: string, w1: string, w3: string, w5: string)
    requires IsWord(w0) && IsWord(w1) && IsWord(w3) && IsWord(w5)
    requires forall i :: 0 <= i < |loggedEnd| ==> !IsSpace(loggedEnd[i])
    ensures ParseEntryLine(JoinWords([w0, w1, TypeChar(k), w3, FormatHex(start) + "-" + loggedEnd,
                                      w5, FormatHex(len)]))
            == Ok(Standard(StandardEntry(k, start, len, None)))
  {
    var hs := FormatHex(start);
    var range := hs + "-" + loggedEnd;
    assert IsWord(range) by {
      forall i | 0 <= i < |range| ensures !IsSpace(range[i]) {
        if i < |hs| { assert range[i] == hs[i]; }
        else if i > |hs| { assert range[i] == loggedEnd[i - |hs| - 1]; }
      }
    }
    var tokens := [w0, w1, TypeChar(k), w3, range, w5, FormatHex(len)];
    assert IsWord(TypeChar(k));
    SplitJoin(tokens);
    DigitsHaveNoPunctuation(hs, 16);
    assert range == hs + ['-'] + loggedEnd;
    BeforeFirstSeparator(hs, '-', loggedEnd);
    HexRoundTrip(start);
    HexRoundTrip(len);
    ParseStandardLine(tokens, StandardEntry(k, start, len, None));
  }
}
