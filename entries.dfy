/**
  * The two kinds of space-map log entry, the overlap test between a logged
  * range and a query, and the line a standard entry prints as.
  */
module Entries {
  import opened Outcomes
  import opened Text

  /** `SME_TYPE_FREE` (0) and `SME_TYPE_ALLOC` (1). */
  datatype Kind = Free | Alloc

  /** A marker line: the transaction group and the pass now being synced. */
  datatype DebugEntry = DebugEntry(kind: Kind, txg: nat, txgPass: nat)

  /**
    * An allocation or free of the bytes [start, start + len). `debug` is the
    * marker the squasher attaches; a freshly parsed entry has none.
    */
  datatype StandardEntry = StandardEntry(kind: Kind, start: nat, len: nat, debug: Option<DebugEntry>)

  /** One parsed log line. */
  datatype Entry = Debug(marker: DebugEntry) | Standard(event: StandardEntry)

  /** Why a run aborts: the Python exception that would end it. */
  datatype Failure =
    | MissingToken(index: nat)   // IndexError: the line has no token at this 0-based index
    | BadType(token: string)     // AssertionError: not a type the line's shape allows
    | BadNumber(token: string)   // ValueError: int() refused the text
    | NoDebugContext             // UnboundLocalError: a standard entry before any marker

  /** `end()`: one past the last byte; computed, never stored. */
  function End(e: StandardEntry): nat
  {
    e.start + e.len
  }

  /** Byte `x` lies in the entry's range. */
  predicate InEntry(e: StandardEntry, x: int)
  {
    e.start <= x < End(e)
  }

  /** Byte `x` lies in the query range [start, start + len). */
  predicate InQuery(start: nat, len: nat, x: int)
  {
    start <= x < start + len
  }

  /** `overlaps_with(start, len)`: the query starts inside the entry, or ends inside or at its end. */
  predicate Overlaps(e: StandardEntry, start: nat, len: nat)
  {
    var targetEnd := start + len;
    if e.start <= start && start < End(e) then true
    else if e.start < targetEnd && targetEnd <= End(e) then true
    else false
  }

  /** For a non-empty query, the test asks whether its first or its last byte lies in the entry. */
  lemma OverlapsByEndBytes(e: StandardEntry, start: nat, len: nat)
    requires len > 0
    ensures Overlaps(e, start, len) <==> InEntry(e, start) || InEntry(e, start + len - 1)
  {
  }

  /**
    * For a non-empty query, the test is range intersection except when the
    * query strictly contains the entry on both sides: that case is not reported.
    */
  lemma OverlapsVsIntersection(e: StandardEntry, start: nat, len: nat)
    requires len > 0
    ensures Overlaps(e, start, len) <==>
      (exists x :: InEntry(e, x) && InQuery(start, len, x)) && !(start < e.start && End(e) < start + len)
  {
    if Overlaps(e, start, len) {
      var x := if InEntry(e, start) then start else start + len - 1;
      assert InEntry(e, x) && InQuery(start, len, x);
    }
    if exists x :: InEntry(e, x) && InQuery(start, len, x) {
      var x :| InEntry(e, x) && InQuery(start, len, x);
      assert e.start < e.start + e.len;
    }
  }

  /** A zero-length query is reported when it sits anywhere in a non-empty entry, its end included. */
  lemma OverlapsEmptyQuery(e: StandardEntry, start: nat)
    ensures Overlaps(e, start, 0) <==> e.len > 0 && e.start <= start <= End(e)
  {
  }

  /** A zero-length entry overlaps no query. */
  lemma EmptyEntryOverlapsNothing(e: StandardEntry, start: nat, len: nat)
    requires e.len == 0
    ensures !Overlaps(e, start, len)
  {
  }

  /** The boundary cases of the entry [0x100, 0x200), and the asymmetry of the test. */
  lemma OverlapsExamples(k: Kind, debug: Option<DebugEntry>)
    ensures var e := StandardEntry(k, 0x100, 0x100, debug);
      Overlaps(e, 0x100, 1) && Overlaps(e, 0x1ff, 1) && !Overlaps(e, 0x200, 0x10)
      && !Overlaps(e, 0, 0x1000)
      && Overlaps(StandardEntry(k, 0, 0x1000, debug), 0x100, 0x100)
  {
  }

  /** `_type_char()`: "A" for an allocation, "F" for a free. */
  function TypeChar(k: Kind): string
  {
    match k
    case Alloc => "A"
    case Free => "F"
  }

  /**
    * `time_info()`: `'{:10d} {:2d}'` of the transaction group and the pass. The
    * field is at least 13 characters wide and reads back, token by token, as
    * the group and the pass.
    */
  function TimeInfo(d: DebugEntry): (r: string)
    ensures |r| >= 13
    ensures Split(r) == [FormatDecimal(d.txg), FormatDecimal(d.txgPass)]
    ensures ParseDecimal(Split(r)[0]) == Some(d.txg) && ParseDecimal(Split(r)[1]) == Some(d.txgPass)
  {
    var t, p := FormatDecimal(d.txg), FormatDecimal(d.txgPass);
    SplitTimeField(t, p);
    LeftPadShape(t, 10);
    LeftPadShape(p, 2);
    DecimalRoundTrip(d.txg);
    DecimalRoundTrip(d.txgPass);
    LeftPad(t, 10) + " " + LeftPad(p, 2)
  }

  /**
    * `_debug_info()`: the marker's time information, or "" when there is no
    * marker. The field is empty exactly when there is no marker, and otherwise
    * reads back as the marker's group and pass.
    */
  function DebugInfo(e: StandardEntry): (r: string)
    ensures r == "" <==> e.debug.None?
    ensures Split(r) == TimeTokens(e.debug)
    ensures e.debug.Some? ==>
      ParseDecimal(Split(r)[0]) == Some(e.debug.value.txg)
      && ParseDecimal(Split(r)[1]) == Some(e.debug.value.txgPass)
  {
    match e.debug
    case None => ""
    case Some(d) => TimeInfo(d)
  }

  /** `__str__()`: `'{} {} [{:10x}, {:10x}] {:10x}'` of the time, the type, start, end and length. */
  function Render(e: StandardEntry): string
  {
    DebugInfo(e) + (" " + TypeChar(e.kind)) + (" [" + LeftPad(FormatHex(e.start), 10) + ",")
    + (" " + LeftPad(FormatHex(End(e)), 10) + "]") + (" " + LeftPad(FormatHex(e.len), 10))
  }

  /** The tokens of the time field: none without a marker, else the group and the pass in decimal. */
  function TimeTokens(debug: Option<DebugEntry>): seq<string>
  {
    match debug
    case None => []
    case Some(d) => [FormatDecimal(d.txg), FormatDecimal(d.txgPass)]
  }

  /** The tokens of `[{:10x},`: the bracket stands alone unless the number fills the field. */
  function StartTokens(start: nat): seq<string>
  {
    var h := FormatHex(start);
    if |h| < 10 then ["[", h + ","] else ["[" + h + ","]
  }

  /** Two right-aligned words with a space between them split back to the two words. */
  lemma SplitTimeField(t: string, p: string)
    requires IsWord(t) && IsWord(p)
    ensures Split(LeftPad(t, 10) + " " + LeftPad(p, 2)) == [t, p]
  {
    var rest := " " + LeftPad(p, 2);
    assert LeftPad(t, 10) + " " + LeftPad(p, 2) == LeftPad(t, 10) + rest;
    SplitConcat(LeftPad(t, 10), rest);
    SplitLeftPad(t, 10, "");
    assert LeftPad(t, 10) + "" == LeftPad(t, 10) && t + "" == t;
    SplitSpaceFirst(' ', LeftPad(p, 2));
    SplitLeftPad(p, 2, "");
    assert LeftPad(p, 2) + "" == LeftPad(p, 2) && p + "" == p;
  }

  /** A right-aligned field after a separating space splits to its word. */
  lemma SplitField(w: string, width: nat, tail: string)
    requires IsWord(w + tail)
    ensures Split(" " + LeftPad(w, width) + tail) == [w + tail]
  {
    assert " " + LeftPad(w, width) + tail == [' '] + (LeftPad(w, width) + tail);
    SplitSpaceFirst(' ', LeftPad(w, width) + tail);
    SplitLeftPad(w, width, tail);
  }

  /** A word shorter than the field: the bracket stands alone, the padding splits it off. */
  lemma SplitBracketedShort(w: string)
    requires IsWord(w) && |w| < 10
    ensures Split("[" + LeftPad(w, 10) + ",") == ["[", w + ","]
  {
    WordConcat(w, ",");
    var padded := Spaces(10 - |w|) + (w + ",");
    assert "[" + LeftPad(w, 10) + "," == "[" + padded;
    assert padded[0] == ' ';
    SplitPadded(10 - |w|, w + ",");
    assert IsWord("[");
    SplitWord("[");
    SplitConcat("[", padded);
  }

  /** A word that fills the field: the bracket, the word and the comma form one token. */
  lemma SplitBracketedFull(w: string)
    requires IsWord(w) && |w| >= 10
    ensures Split("[" + LeftPad(w, 10) + ",") == ["[" + w + ","]
  {
    assert IsWord("[") && IsWord(",");
    WordConcat(w, ",");
    WordConcat("[", w + ",");
    assert "[" + LeftPad(w, 10) + "," == "[" + (w + ",");
    SplitWord("[" + (w + ","));
  }

  /** The field `[{:10x},` splits as `StartTokens` says. */
  lemma SplitStartField(start: nat)
    ensures Split(" [" + LeftPad(FormatHex(start), 10) + ",") == StartTokens(start)
  {
    var hs := FormatHex(start);
    var body := "[" + LeftPad(hs, 10) + ",";
    assert Split(body) == StartTokens(start) by {
      if |hs| < 10 {
        SplitBracketedShort(hs);
      } else {
        SplitBracketedFull(hs);
      }
    }
    assert " [" + LeftPad(hs, 10) + "," == [' '] + body;
    SplitSpaceFirst(' ', body);
  }

  /** Five pieces, each after the first opening with a space, split piece by piece. */
  lemma SplitPieces(a: string, b: string, c: string, d: string, f: string)
    requires |b| > 0 && |c| > 0 && |d| > 0 && |f| > 0
    requires IsSpace(b[0]) && IsSpace(c[0]) && IsSpace(d[0]) && IsSpace(f[0])
    ensures Split(a + b + c + d + f) == Split(a) + Split(b) + Split(c) + Split(d) + Split(f)
  {
    SplitConcat(a + b + c + d, f);
    SplitConcat(a + b + c, d);
    SplitConcat(a + b, c);
    SplitConcat(a, b);
  }

  /** A printed line splits into the time, the type marker, and start, end and length in hex. */
  lemma RenderTokens(e: StandardEntry)
    ensures Split(Render(e)) ==
      TimeTokens(e.debug) + [TypeChar(e.kind)] + StartTokens(e.start)
      + [FormatHex(End(e)) + "]", FormatHex(e.len)]
  {
    var he, hl := FormatHex(End(e)), FormatHex(e.len);
    var x1 := " " + TypeChar(e.kind);
    var x2 := " [" + LeftPad(FormatHex(e.start), 10) + ",";
    var x3 := " " + LeftPad(he, 10) + "]";
    var x4 := " " + LeftPad(hl, 10);
    assert Split(Render(e)) == Split(DebugInfo(e)) + Split(x1) + Split(x2) + Split(x3) + Split(x4) by {
      SplitPieces(DebugInfo(e), x1, x2, x3, x4);
    }
    assert Split(x1) == [TypeChar(e.kind)] by {
      SplitSpaceFirst(' ', TypeChar(e.kind));
      SplitWord(TypeChar(e.kind));
    }
    assert Split(x2) == StartTokens(e.start) by {
      SplitStartField(e.start);
    }
    assert Split(x3) == [he + "]"] by {
      assert IsWord("]");
      WordConcat(he, "]");
      SplitField(he, 10, "]");
    }
    assert Split(x4) == [hl] by {
      assert x4 == " " + LeftPad(hl, 10) + "" && hl + "" == hl;
      SplitField(hl, 10, "");
    }
  }

  /**
    * A printed line can be read back: its first two tokens are the marker's
    * group and pass, its last is the length, the one before the end.
    */
  lemma RenderReadsBack(e: StandardEntry)
    ensures var t := Split(Render(e));
      |t| >= 4
      && ParseHex(t[|t| - 1]) == Some(e.len)
      && ParseHex(TrimRight(t[|t| - 2], c => c == ']')) == Some(End(e))
      && (e.debug.Some? ==>
            ParseDecimal(t[0]) == Some(e.debug.value.txg)
            && ParseDecimal(t[1]) == Some(e.debug.value.txgPass)
            && t[2] == TypeChar(e.kind))
      && (e.debug.None? ==> t[0] == TypeChar(e.kind))
  {
    RenderTokens(e);
    var t := Split(Render(e));
    TailReadsBack(e, t);
    TimeReadsBack(e, t);
  }

  /** The last two tokens of a printed line give back the length and the end. */
  lemma TailReadsBack(e: StandardEntry, t: seq<string>)
    requires t == TimeTokens(e.debug) + [TypeChar(e.kind)] + StartTokens(e.start)
                  + [FormatHex(End(e)) + "]", FormatHex(e.len)]
    ensures |t| >= 4
    ensures ParseHex(t[|t| - 1]) == Some(e.len)
    ensures ParseHex(TrimRight(t[|t| - 2], c => c == ']')) == Some(End(e))
  {
    var he := FormatHex(End(e));
    assert t[|t| - 1] == FormatHex(e.len) && t[|t| - 2] == he + "]";
    HexRoundTrip(e.len);
    HexRoundTrip(End(e));
    assert TrimRight(he + "]", c => c == ']') == he by {
      assert (he + "]")[..|he|] == he;
      assert he[|he| - 1] != ']';
    }
  }

  /** The first tokens of a printed line give back the marker's group and pass, then the type. */
  lemma TimeReadsBack(e: StandardEntry, t: seq<string>)
    requires t == TimeTokens(e.debug) + [TypeChar(e.kind)] + StartTokens(e.start)
                  + [FormatHex(End(e)) + "]", FormatHex(e.len)]
    ensures e.debug.Some? ==>
      |t| >= 3
      && ParseDecimal(t[0]) == Some(e.debug.value.txg)
      && ParseDecimal(t[1]) == Some(e.debug.value.txgPass)
      && t[2] == TypeChar(e.kind)
    ensures e.debug.None? ==> |t| >= 1 && t[0] == TypeChar(e.kind)
  {
    var front := TimeTokens(e.debug) + [TypeChar(e.kind)];
    assert t[..|front|] == front;
    if e.debug.Some? {
      assert t[0] == front[0] && t[1] == front[1] && t[2] == front[2];
      DecimalRoundTrip(e.debug.value.txg);
      DecimalRoundTrip(e.debug.value.txgPass);
    } else {
      assert t[0] == front[0];
    }
  }
}
