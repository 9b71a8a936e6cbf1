/**
  * The report: a header, then every event whose range the query overlaps, in
  * log order; and the whole run from log lines to report lines.
  */
module Timeline {
  import opened Outcomes
  import opened Seqs
  import opened Text
  import opened Entries
  import opened Parser
  import opened Squasher

  /** The header row, `'{:>10} {:>2} T [{:>10}, {:>10}] {:>10}'` of the column names. */
  function Header(): string
  {
    (LeftPad("TXG", 10) + " " + LeftPad("P", 2) + " T [" + LeftPad("START", 10))
    + (", " + LeftPad("END", 10) + "] " + LeftPad("RUN", 10))
  }

  /**
    * The events of `entries` that `overlaps_with(start, len)` accepts, in log
    * order: an event is kept exactly when it is in the log and the query
    * overlaps it; markers never are.
    */
  function Matching(start: nat, len: nat, entries: seq<Entry>): (m: seq<StandardEntry>)
    ensures |m| <= |entries|
    ensures forall e :: e in m <==> Standard(e) in entries && Overlaps(e, start, len)
  {
    if entries == [] then []
    else
      var prefix, last := entries[..|entries| - 1], entries[|entries| - 1];
      assert entries == prefix + [last];
      Matching(start, len, prefix)
      + match last
        case Debug(_) => []
        case Standard(e) => if Overlaps(e, start, len) then [e] else []
  }

  /** `line` is the printed line of an event of `entries` that the query overlaps. */
  ghost predicate ReportedLine(line: string, start: nat, len: nat, entries: seq<Entry>)
  {
    exists e :: Standard(e) in entries && Overlaps(e, start, len) && line == Render(e)
  }

  /**
    * What `generate_timeline` prints: the header, then a line for each event of
    * the log that the query overlaps, and no other line.
    */
  function Report(start: nat, len: nat, entries: seq<Entry>): (lines: seq<string>)
    ensures 1 <= |lines| <= |entries| + 1 && lines[0] == Header()
    ensures forall k :: 1 <= k < |lines| ==> ReportedLine(lines[k], start, len, entries)
    ensures forall e :: Standard(e) in entries && Overlaps(e, start, len) ==> Render(e) in lines[1..]
  {
    var m := Matching(start, len, entries);
    var lines := [Header()] + Rows(m);
    HeadedRows(Header(), m, start, len, entries, lines);
    lines
  }

  /**
    * A header followed by the lines of `m`, where `m` holds exactly the
    * overlapping events of `entries`, is a line per such event and no other.
    */
  lemma HeadedRows(h: string, m: seq<StandardEntry>, start: nat, len: nat, entries: seq<Entry>,
                   lines: seq<string>)
    requires |m| <= |entries|
    requires forall e :: e in m <==> Standard(e) in entries && Overlaps(e, start, len)
    requires lines == [h] + Rows(m)
    ensures 1 <= |lines| <= |entries| + 1 && lines[0] == h
    ensures forall k :: 1 <= k < |lines| ==> ReportedLine(lines[k], start, len, entries)
    ensures forall e :: Standard(e) in entries && Overlaps(e, start, len) ==> Render(e) in lines[1..]
  {
    var rows := Rows(m);
    PrependShifts(h, rows);
    assert lines[1..] == rows;
    forall k | 1 <= k < |lines|
      ensures ReportedLine(lines[k], start, len, entries)
    {
      var e := m[k - 1];
      assert e in m && lines[k] == rows[k - 1];
      assert Standard(e) in entries && Overlaps(e, start, len) && lines[k] == Render(e);
    }
    forall e | Standard(e) in entries && Overlaps(e, start, len)
      ensures Render(e) in lines[1..]
    {
      var i :| 0 <= i < |m| && m[i] == e;
      assert rows[i] == Render(e);
    }
  }

  /** The report is the header, then the line of each matching event in turn. */
  lemma ReportRows(start: nat, len: nat, entries: seq<Entry>)
    ensures Report(start, len, entries) == [Header()] + Rows(Matching(start, len, entries))
  {
  }

  /** One printed line per event, in order. */
  function Rows(m: seq<StandardEntry>): (r: seq<string>)
    ensures |r| == |m| && forall k :: 0 <= k < |m| ==> r[k] == Render(m[k])
  {
    seq(|m|, k requires 0 <= k < |m| => Render(m[k]))
  }

  /** A single event prints its own line. */
  lemma RowsSingle(e: StandardEntry)
    ensures Rows([e]) == [Render(e)]
  {
    OneElement(Rows([e]));
  }

  /** Two events print their two lines, in order. */
  lemma RowsPair(x: StandardEntry, y: StandardEntry)
    ensures Rows([x, y]) == [Render(x), Render(y)]
  {
    TwoElements(Rows([x, y]));
  }

  /** One more event adds its line at the end. */
  lemma RowsSnoc(m: seq<StandardEntry>, e: StandardEntry)
    ensures Rows(m + [e]) == Rows(m) + [Render(e)]
  {
    var l, r := Rows(m + [e]), Rows(m) + [Render(e)];
    AppendIndex(m, e);
    AppendIndex(Rows(m), Render(e));
    assert forall k :: 0 <= k < |l| ==> l[k] == r[k];
  }

  /**
    * `generate_timeline(start, len, entries)`: the header, then the loop.
    * `txg` and `txgPass` follow the markers it meets but are never printed;
    * the list it is given has been squashed, so it meets none.
    */
  method GenerateTimeline(start: nat, len: nat, entries: seq<Entry>) returns (lines: seq<string>)
    ensures lines == Report(start, len, entries)
  {
    lines := [Header()];
    var txg, txgPass := 0, 0;
    var i := 0;
    while i < |entries|
      invariant 0 <= i <= |entries|
      invariant lines == Report(start, len, entries[..i])
    {
      TakeOneMore(entries, i);
      ReportStep(start, len, entries[..i], entries[i]);
      match entries[i] {
        case Debug(d) =>
          txg, txgPass := d.txg, d.txgPass;
        case Standard(e) =>
          if Overlaps(e, start, len) {
            lines := lines + [Render(e)];
          }
      }
      i := i + 1;
    }
    TakeAll(entries);
  }

  /** The line one more entry adds to the report: its own when it is an overlapping event, else none. */
  function StepLines(start: nat, len: nat, x: Entry): seq<string>
  {
    match x
    case Debug(_) => []
    case Standard(e) => if Overlaps(e, start, len) then [Render(e)] else []
  }

  /** Reading one more entry extends the report by that entry's line, if any. */
  lemma ReportStep(start: nat, len: nat, entries: seq<Entry>, x: Entry)
    ensures Report(start, len, entries + [x]) == Report(start, len, entries) + StepLines(start, len, x)
  {
    var all := entries + [x];
    assert all[..|all| - 1] == entries && all[|all| - 1] == x;
    var m := Matching(start, len, entries);
    var h := [Header()];
    match x {
      case Debug(_) =>
        assert Matching(start, len, all) == m + [];
        assert m + [] == m;
        assert StepLines(start, len, x) == [];
      case Standard(e) =>
        if Overlaps(e, start, len) {
          assert Matching(start, len, all) == m + [e];
          RowsSnoc(m, e);
          ConcatAssoc(h, Rows(m), [Render(e)]);
        } else {
          assert Matching(start, len, all) == m + [];
          assert m + [] == m;
          assert StepLines(start, len, x) == [];
        }
    }
  }

  /** The events a squashed list is made of, as entries again. */
  function Events(es: seq<StandardEntry>): (r: seq<Entry>)
    ensures |r| == |es| && forall k :: 0 <= k < |es| ==> r[k] == Standard(es[k])
  {
    seq(|es|, k requires 0 <= k < |es| => Standard(es[k]))
  }

  /**
    * `generate_timeline(start, len, slurp_entries(path))` on the lines of the
    * file: parse every line, squash, report. Any failure aborts before a report.
    */
  function Run(start: nat, len: nat, lines: seq<string>): Result<seq<string>, Failure>
  {
    match ParseLines(lines)
    case Err(f) => Err(f)
    case Ok(raw) =>
      match Squash(raw)
      case Err(f) => Err(f)
      case Ok(es) => Ok(Report(start, len, Events(es)))
  }

  // ---------------------------------------------------------------------
  // Lemmas
  // ---------------------------------------------------------------------

  /** Filtering a concatenation filters each part: the report keeps log order. */
  lemma {:induction false} MatchingConcat(start: nat, len: nat, a: seq<Entry>, b: seq<Entry>)
    ensures Matching(start, len, a + b) == Matching(start, len, a) + Matching(start, len, b)
    decreases |b|
  {
    if b == [] {
      assert a + b == a;
    } else {
      var b' := b[..|b| - 1];
      assert (a + b)[..|a + b| - 1] == a + b';
      assert (a + b)[|a + b| - 1] == b[|b| - 1];
      MatchingConcat(start, len, a, b');
    }
  }

  /** A log made only of events, every one overlapping the query, is reported whole. */
  lemma {:induction false} MatchingAllOverlap(start: nat, len: nat, es: seq<StandardEntry>)
    requires forall k :: 0 <= k < |es| ==> Overlaps(es[k], start, len)
    ensures Matching(start, len, Events(es)) == es
  {
    if es != [] {
      var front := es[..|es| - 1];
      assert Events(es)[..|es| - 1] == Events(front);
      MatchingAllOverlap(start, len, front);
      assert es == front + [es[|es| - 1]];
    }
  }

  /** A malformed line anywhere in the log aborts the run: no partial report. */
  lemma MalformedLineAborts(start: nat, len: nat, lines: seq<string>, i: nat)
    requires i < |lines| && ParseLine(lines[i]).Err?
    ensures Run(start, len, lines).Err?
  {
  }

  /** An event logged before any marker aborts the run. */
  lemma OrphanEventAborts(start: nat, len: nat, lines: seq<string>)
    requires ParseLines(lines).Ok?
    requires Squash(ParseLines(lines).value).Err?
    ensures Run(start, len, lines) == Err(NoDebugContext)
  {
    NoDebugContextOnly(ParseLines(lines).value);
  }

  /**
    * A successful run prints the header and then lines for events that carry
    * a marker and overlap the query, each line the event's own.
    */
  lemma RunReportsMarkedEvents(start: nat, len: nat, lines: seq<string>)
    requires Run(start, len, lines).Ok?
    ensures var out := Run(start, len, lines).value;
      var es := Squash(ParseLines(lines).value).value;
      var m := Matching(start, len, Events(es));
      |out| == |m| + 1 && out[0] == Header()
      && forall k :: 0 <= k < |m| ==>
           out[k + 1] == Render(m[k]) && m[k].debug.Some? && Overlaps(m[k], start, len) && m[k] in es
  {
    var raw := ParseLines(lines).value;
    var es := Squash(raw).value;
    assert Run(start, len, lines) == Ok(Report(start, len, Events(es)));
    SquashedEventsReported(start, len, raw);
  }

  /** Every event the report of a squashed log shows carries a marker, overlaps the query and came from the log. */
  lemma SquashedEventsReported(start: nat, len: nat, raw: seq<Entry>)
    requires Squash(raw).Ok?
    ensures var es := Squash(raw).value;
      var m := Matching(start, len, Events(es));
      forall k :: 0 <= k < |m| ==> m[k].debug.Some? && Overlaps(m[k], start, len) && m[k] in es
  {
    var es := Squash(raw).value;
    var m := Matching(start, len, Events(es));
    SquashAttachesMarkers(raw);
    forall k | 0 <= k < |m|
      ensures m[k].debug.Some? && Overlaps(m[k], start, len) && m[k] in es
    {
      assert m[k] in m;
      var j :| 0 <= j < |Events(es)| && Events(es)[j] == Standard(m[k]);
      assert es[j] == m[k];
    }
  }

  /**
    * Two events after two markers, both overlapping the query, print in log
    * order, the first with the first marker's time, the second with the second's.
    */
  lemma ReportInLogOrder(start: nat, len: nat, a: DebugEntry, e1: StandardEntry, b: DebugEntry, e2: StandardEntry)
    requires Overlaps(e1, start, len) && Overlaps(e2, start, len)
    ensures var raw := [Debug(a), Standard(e1), Debug(b), Standard(e2)];
      Squash(raw).Ok?
      && Report(start, len, Events(Squash(raw).value))
         == [Header(), Render(e1.(debug := Some(a))), Render(e2.(debug := Some(b)))]
  {
    var raw := [Debug(a), Standard(e1), Debug(b), Standard(e2)];
    SquashTwoMarkers(a, e1, b, e2);
    var es := [e1.(debug := Some(a)), e2.(debug := Some(b))];
    MatchingAllOverlap(start, len, es);
    ReportRows(start, len, Events(es));
    RowsPair(es[0], es[1]);
    ConsPair(Header(), Render(es[0]), Render(es[1]));
  }

  /** The marker line `ALLOC: txg 5, pass 0` of the example log, around four filler words. */
  function ExampleMarkerLine(fill: seq<string>): string
    requires |fill| == 4
  {
    JoinWords([fill[0], fill[1], "ALLOC:", fill[2], "5,", fill[3], "0"])
  }

  /** The event line `A range: 100-200 size: 100` of the example log, around four filler words. */
  function ExampleEventLine(fill: seq<string>): string
    requires |fill| == 4
  {
    JoinWords([fill[0], fill[1], "A", fill[2], "100-200", fill[3], "100"])
  }

  /** The example marker line parses to the marker of group 5, pass 0. */
  lemma ExampleMarkerParses(fill: seq<string>)
    requires |fill| == 4 && forall k :: 0 <= k < 4 ==> IsWord(fill[k])
    ensures ParseLine(ExampleMarkerLine(fill)) == Ok(Debug(DebugEntry(Alloc, 5, 0)))
  {
    var d := DebugEntry(Alloc, 5, 0);
    var line := ExampleMarkerLine(fill);
    assert FormatDecimal(5) == "5" && FormatDecimal(0) == "0";
    var tokens := [fill[0], fill[1], DebugToken(d.kind), fill[2], FormatDecimal(d.txg) + ",",
                   fill[3], FormatDecimal(d.txgPass)];
    assert "5" + "," == "5,";
    assert tokens == [fill[0], fill[1], "ALLOC:", fill[2], "5,", fill[3], "0"];
    assert line == JoinWords(tokens);
    DebugLineRoundTrip(d, fill[0], fill[1], fill[2], fill[3]);
    StripIsHarmless(line);
  }

  /** The example event line parses to an allocation of 0x100 bytes at 0x100. */
  lemma ExampleEventParses(fill: seq<string>)
    requires |fill| == 4 && forall k :: 0 <= k < 4 ==> IsWord(fill[k])
    ensures ParseLine(ExampleEventLine(fill)) == Ok(Standard(StandardEntry(Alloc, 0x100, 0x100, None)))
  {
    var line := ExampleEventLine(fill);
    assert FormatHex(0x100) == "100" by {
      assert FormatDigits(1, 16) == "1";
      assert FormatDigits(0x10, 16) == "10";
    }
    var tokens := [fill[0], fill[1], TypeChar(Alloc), fill[2], FormatHex(0x100) + "-" + "200",
                   fill[3], FormatHex(0x100)];
    assert "100" + "-" + "200" == "100-200";
    assert line == JoinWords(tokens);
    assert forall i :: 0 <= i < |"200"| ==> !IsSpace("200"[i]);
    StandardLineRoundTrip(Alloc, 0x100, 0x100, "200", fill[0], fill[1], fill[2], fill[3]);
    StripIsHarmless(line);
  }

  /** Two lines that parse on their own parse together, in order. */
  lemma ParseTwoLines(a: string, b: string, x: Entry, y: Entry)
    requires ParseLine(a) == Ok(x) && ParseLine(b) == Ok(y)
    ensures ParseLines([a, b]) == Ok([x, y])
  {
    MapAllPair(a, b, ParseLine);
  }

  /** The example log parses to its marker and its event. */
  lemma ExampleParses(fill: seq<string>)
    requires |fill| == 4 && forall k :: 0 <= k < 4 ==> IsWord(fill[k])
    ensures ParseLines([ExampleMarkerLine(fill), ExampleEventLine(fill)])
            == Ok([Debug(DebugEntry(Alloc, 5, 0)), Standard(StandardEntry(Alloc, 0x100, 0x100, None))])
  {
    ExampleMarkerParses(fill);
    ExampleEventParses(fill);
    ParseTwoLines(ExampleMarkerLine(fill), ExampleEventLine(fill),
                  Debug(DebugEntry(Alloc, 5, 0)), Standard(StandardEntry(Alloc, 0x100, 0x100, None)));
  }

  /** The example's event takes the example's marker. */
  lemma ExampleSquashes()
    ensures Squash([Debug(DebugEntry(Alloc, 5, 0)), Standard(StandardEntry(Alloc, 0x100, 0x100, None))])
            == Ok([StandardEntry(Alloc, 0x100, 0x100, Some(DebugEntry(Alloc, 5, 0)))])
  {
    var d := DebugEntry(Alloc, 5, 0);
    var e := StandardEntry(Alloc, 0x100, 0x100, None);
    var raw := [Debug(d), Standard(e)];
    var tagged := e.(debug := Some(d));
    var raw1 := [Debug(d)];
    assert raw[..1] == raw1 && raw1[..0] == [];
    assert Squash(raw1) == Ok([]);
    assert [] + [tagged] == [tagged];
  }

  /**
    * The example of one marker `ALLOC: txg 5, pass 0` and one allocation of
    * 100-200 (length 100, in hex), queried at 0x150 for 0x10: the header and
    * one line, tagged group 5 pass 0, type A, start 0x100, end 0x200, length 0x100.
    */
  lemma EndToEndExample(fill: seq<string>)
    requires |fill| == 4 && forall k :: 0 <= k < 4 ==> IsWord(fill[k])
    ensures Run(0x150, 0x10, [ExampleMarkerLine(fill), ExampleEventLine(fill)])
            == Ok([Header(), Render(StandardEntry(Alloc, 0x100, 0x100, Some(DebugEntry(Alloc, 5, 0))))])
  {
    ExampleParses(fill);
    ExampleSquashes();
    var tagged := StandardEntry(Alloc, 0x100, 0x100, Some(DebugEntry(Alloc, 5, 0)));
    assert Overlaps(tagged, 0x150, 0x10);
    SingleEventReport(0x150, 0x10, tagged);
  }

  /** A log of one event that the query overlaps reports the header and that event's line. */
  lemma SingleEventReport(start: nat, len: nat, e: StandardEntry)
    requires Overlaps(e, start, len)
    ensures Report(start, len, Events([e])) == [Header(), Render(e)]
  {
    var log := Events([e]);
    MatchingAllOverlap(start, len, [e]);
    ReportRows(start, len, log);
    RowsSingle(e);
  }

  /** The left half of the header row: the time, type and start columns. */
  lemma HeaderLeft()
    ensures LeftPad("TXG", 10) + " " + LeftPad("P", 2) + " T [" + LeftPad("START", 10)
            == "       TXG  P T [     START"
  {
    var txg, p, st := "       TXG", " P", "     START";
    assert LeftPad("TXG", 10) == txg;
    assert LeftPad("P", 2) == p;
    assert LeftPad("START", 10) == st;
    assert txg + " " == "       TXG ";
    assert "       TXG " + p == "       TXG  P";
    assert "       TXG  P" + " T [" == "       TXG  P T [";
  }

  /** The right half of the header row: the end and length columns. */
  lemma HeaderRight()
    ensures ", " + LeftPad("END", 10) + "] " + LeftPad("RUN", 10) == ",        END]        RUN"
  {
    var en, run := "       END", "       RUN";
    assert LeftPad("END", 10) == en;
    assert LeftPad("RUN", 10) == run;
    assert ", " + en == ",        END";
    assert ",        END" + "] " == ",        END] ";
  }

  /** The header row as Python prints it, written in its two halves. */
  lemma HeaderText()
    ensures Header() == "       TXG  P T [     START" + ",        END]        RUN"
  {
    HeaderLeft();
    HeaderRight();
  }
}
