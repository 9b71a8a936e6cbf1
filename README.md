# zsmrt: a verified model of the space-map range timeline

`zsmrt` reads a ZFS space-map debug log and prints a timeline for one byte
range. The log holds two kinds of line:

- a **marker** (`... ALLOC: <w> <txg>, <w> <pass>` or `... FREE: ...`) names
  the transaction group and the pass that the following events belong to;
- an **event** (`... A <w> <start>-<end> <w> <len>` or `F`, numbers in hex)
  records one allocation or free of the bytes `[start, start + len)`.

The tool parses every line, then squashes the list: each event takes the most
recent marker before it and the markers are dropped. It then prints a header
and one line for every event whose range the query `(start, len)` overlaps,
in log order.

This project models `zsmrt/zsmrt.py` in Dafny and proves what it does:

| file | module | what it holds |
|---|---|---|
| `outcomes.dfy` | `Outcomes` | `Option`, `Result`, and `MapAll`: a list comprehension that stops at the first failing element |
| `seqs.dfy` | `Seqs` | small facts about sequences used by the proofs |
| `text.dfy` | `Text` | the parts of Python's `str` and `int` the tool relies on: `split()` on `str.isspace()` characters, `strip`, `split('-')[0]`, `int(s)` and `int(s, 16)` on plain digit strings, and the `{:Nd}`, `{:Nx}` and `{:>N}` formats |
| `entries.dfy` | `Entries` | the entry datatypes, `end()`, `overlaps_with`, `_type_char`, `time_info`, `_debug_info` and `__str__` |
| `parser.dfy` | `Parser` | `is_debug_line`, `parse_debug_type`, `parse_standard_type`, `parse_entry_line`, and the per-line loop of `parse_file` |
| `squash.dfy` | `Squasher` | `squash_debug_entries` as a loop, and the recursive function it is proved equal to |
| `timeline.dfy` | `Timeline` | `generate_timeline` as a loop, the report it computes, and the whole run from log lines to report lines |

Entries are values. `SME_TYPE_FREE`/`SME_TYPE_ALLOC` become the datatype
`Kind`, and `isdebug`/`isalloc`/`isfree` become constructor tests. Every
exception that would stop a run becomes an `Err` of type `Failure`:
- `MissingToken(i)` is the `IndexError` of a line with no token `i`;
- `BadType(tok)` is the `AssertionError` of `parse_debug_type` or `parse_standard_type`;
- `BadNumber(text)` is the `ValueError` of `int`;
- `NoDebugContext` is the `UnboundLocalError` on `debug_e` when an event comes before any marker.

Two behaviours of the code are easy to misread, and the model keeps them as written:

- **An event before any marker.** One might expect such an event to print
  with an empty time field. The code reads the unbound `debug_e` and raises,
  so `Squash` returns `Err(NoDebugContext)` and the whole run aborts.
  `Squasher.SquashSucceedsIff` and `Timeline.OrphanEventAborts` state this.
- **Squashing twice.** The squasher is not idempotent. A marker-free list with
  at least one event has no `debug_e` to bind, so squashing an already
  squashed, non-empty list raises. `Squasher.SquashMarkerFree` proves that
  such a squash succeeds exactly when the list is empty.

## Model

| member | source | states |
|---|---|---|
| Entries.OverlapsVsIntersection | zsmrt/zsmrt.py:34-41 | for a non-empty query, the test holds exactly when the two ranges share a byte and the query does not strictly contain the entry on both sides |
| Entries.OverlapsByEndBytes | zsmrt/zsmrt.py:34-41 | for a non-empty query, the test holds exactly when the query's first or last byte lies in the entry |
| Entries.OverlapsEmptyQuery | zsmrt/zsmrt.py:34-41 | a zero-length query is reported exactly when the entry is non-empty and the query point lies in `[start, end]`, end included |
| Entries.EmptyEntryOverlapsNothing | zsmrt/zsmrt.py:34-41 | a zero-length entry overlaps no query |
| Entries.OverlapsExamples | zsmrt/zsmrt.py:34-41 | for the entry `[0x100, 0x200)`: (0x100, 1) and (0x1ff, 1) are reported, (0x200, 0x10) is not, and the containing query (0, 0x1000) is not |
| Entries.DebugInfo | zsmrt/zsmrt.py:50-54 | the time field is empty exactly when there is no marker; with one it splits into the marker's group and pass, which `int` reads back |
| Entries.TimeInfo | zsmrt/zsmrt.py:14-15 | the `{:10d} {:2d}` field is at least 13 characters wide and splits into the group and the pass in decimal, which `int` reads back |
| Entries.RenderTokens | zsmrt/zsmrt.py:56-59 | a printed line splits into the time tokens, the type letter, `[start,` (one or two tokens by width), `end]` and the length, in hex |
| Entries.RenderReadsBack | zsmrt/zsmrt.py:56-59 | a printed line reads back: the last token is the length, the one before (without `]`) is `end() = start + len`, and the first tokens are the group, the pass and the type letter |
| Parser.ParseDebugType | zsmrt/zsmrt.py:66-71 | succeeds exactly on `ALLOC:` and `FREE:`; any other token fails the assertion |
| Parser.ParseStandardType | zsmrt/zsmrt.py:73-78 | succeeds exactly on `A` and `F`; any other token fails the assertion |
| Parser.TypeMarkerRoundTrip | zsmrt/zsmrt.py:43-48 | `_type_char` of a parsed type gives back `A` or `F`, and each kind parses back from its letter and its marker name |
| Parser.ParseClassification | zsmrt/zsmrt.py:80-91 | fewer than three tokens fails on the third; a parsed line has at least seven tokens and is a marker exactly when its third token is `ALLOC:` or `FREE:` |
| Parser.UnknownTypeFails | zsmrt/zsmrt.py:87-88 | a third token that is neither a marker name nor `A`/`F` fails with that token |
| Parser.ParseDebugLine | zsmrt/zsmrt.py:80-86 | tokens parse to a given marker exactly when token 3 names its kind, token 5 without commas is its group in decimal and token 7 is its pass in decimal |
| Parser.ParseStandardLine | zsmrt/zsmrt.py:87-91 | tokens parse to a given event exactly when token 3 is its letter, the text of token 5 before the first `-` is its start in hex, token 7 is its length in hex, and no marker is attached |
| Parser.DebugLineRoundTrip | zsmrt/zsmrt.py:80-86 | a marker line written with single spaces parses back to the marker it was written from |
| Parser.StandardLineRoundTrip | zsmrt/zsmrt.py:87-91 | an event line parses back to its event whatever end it logs after the `-` |
| Parser.StripIsHarmless | zsmrt/zsmrt.py:95 | stripping a line before parsing it does not change the result |
| Parser.ParseLines | zsmrt/zsmrt.py:93-96 | every line parsed in order; succeeds exactly when every line parses, and otherwise fails with the error of the first line that fails |
| Outcomes.MapAll | zsmrt/zsmrt.py:95 | the list comprehension: `Ok` exactly when every element succeeds, with the values in order; otherwise the error of the first failure |
| Squasher.SquashDebugEntries | zsmrt/zsmrt.py:98-106 | the loop returns exactly what `Squash` specifies, including the failure on an event before any marker |
| Squasher.LastDebug | zsmrt/zsmrt.py:100-102 | there is no last marker exactly when the entries are all events |
| Squasher.LastDebugIsLatest | zsmrt/zsmrt.py:100-102 | the last marker found is in the list and only events follow it |
| Squasher.SquashSucceedsIff | zsmrt/zsmrt.py:98-106 | the squash succeeds exactly when every event has some marker before it |
| Squasher.NoDebugContextOnly | zsmrt/zsmrt.py:104 | the only way the squash fails is the unbound marker |
| Squasher.SquashFailurePersists | zsmrt/zsmrt.py:104 | once a prefix fails, the whole squash fails the same way: the pass stops at the first orphan event |
| Squasher.SquashContents | zsmrt/zsmrt.py:98-106 | the output has one entry per event; the event at index `i` sits at the number of events before it and carries the last marker before it |
| Squasher.LaterEventLaterPosition | zsmrt/zsmrt.py:98-106 | a later event lands at a later output position, so events keep their order with no loss or duplication |
| Squasher.SquashAttachesMarkers | zsmrt/zsmrt.py:104 | after a successful squash every event carries a marker |
| Squasher.SquashMarkerFree | zsmrt/zsmrt.py:98-106 | squashing a list made only of events succeeds exactly when the list is empty |
| Squasher.SquashTwoMarkers | zsmrt/zsmrt.py:98-106 | for marker A, event 1, marker B, event 2, event 1 carries A and event 2 carries B |
| Timeline.Report | zsmrt/zsmrt.py:111-119 | the header first; every later line is the printed line of an event of the log that the query overlaps, and every such event has its line; no more lines than entries, plus the header (one line per entry, in log order, is `Timeline.ReportStep`) |
| Timeline.GenerateTimeline | zsmrt/zsmrt.py:111-119 | the loop produces exactly `Report`; its `txg`/`txgPass` locals have no effect on the output |
| Timeline.ReportStep | zsmrt/zsmrt.py:115-119 | reading one more entry adds that entry's line exactly when it is an event the query overlaps |
| Timeline.Matching | zsmrt/zsmrt.py:115-119 | an event is kept exactly when it is in the log and the query overlaps it; markers never are; no more results than entries (order is `Timeline.MatchingConcat`) |
| Timeline.MatchingConcat | zsmrt/zsmrt.py:115-119 | filtering a concatenation filters each part, so the report keeps log order |
| Timeline.MatchingAllOverlap | zsmrt/zsmrt.py:115-119 | a list of events that all overlap the query is reported whole |
| Timeline.SingleEventReport | zsmrt/zsmrt.py:111-119 | one overlapping event gives the header and that event's line |
| Timeline.HeaderText | zsmrt/zsmrt.py:112-113 | the header row is `       TXG  P T [     START,        END]        RUN` |
| Timeline.MalformedLineAborts | zsmrt/zsmrt.py:93-96 | a line that fails to parse aborts the whole run with no report |
| Timeline.OrphanEventAborts | zsmrt/zsmrt.py:98-109 | a parsed log with an event before any marker aborts the run with the unbound-marker error |
| Timeline.RunReportsMarkedEvents | zsmrt/zsmrt.py:108-119 | a successful run prints the header, then lines for events that carry a marker, overlap the query and come from the log |
| Timeline.SquashedEventsReported | zsmrt/zsmrt.py:111-119 | every reported event of a squashed log carries a marker, overlaps the query and is one of the squashed events |
| Timeline.ReportInLogOrder | zsmrt/zsmrt.py:98-119 | two overlapping events after two markers print in log order, each with its own marker's time |
| Timeline.EndToEndExample | zsmrt/zsmrt.py:80-119 | the log `ALLOC: 5, 0` / `A 100-200 100`, queried at (0x150, 0x10), gives the header and one line for the allocation of 0x100 bytes at 0x100, tagged group 5 pass 0 |
| Text.SplitJoin | zsmrt/zsmrt.py:81 | `split()` undoes joining words with single spaces |
| Text.SplitStrip | zsmrt/zsmrt.py:95 | `strip()` of surrounding whitespace does not change the tokens of a line |
| Text.TrimLeft | zsmrt/zsmrt.py:84 | the result is a suffix; every dropped character is one to strip and the first one kept is not |
| Text.TrimRight | zsmrt/zsmrt.py:84 | the result is a prefix; every dropped character is one to strip and the last one kept is not |
| Text.StripTrailingComma | zsmrt/zsmrt.py:84 | `strip(',')` removes the comma after a group number and leaves the digits |
| Text.BeforeFirst | zsmrt/zsmrt.py:89 | `split('-')[0]` is the prefix with no `-`, ended by the first `-` or by the end of the text |
| Text.BeforeFirstSeparator | zsmrt/zsmrt.py:89 | the start of `start-end` is the text before the `-` when the start has no `-` |
| Text.FormatDigits | zsmrt/zsmrt.py:58-59 | the written number is one word of digits in its base, with no leading zero: it starts with `0` exactly when it is `0` |
| Text.ValueOfFormat | zsmrt/zsmrt.py:58-59 | reading back a written number gives the number |
| Text.DecimalRoundTrip | zsmrt/zsmrt.py:84-85 | `int` of a number written with `{:d}` is the number |
| Text.HexRoundTrip | zsmrt/zsmrt.py:89-90 | `int(..., 16)` of a number written with `{:x}` is the number |
| Text.LeftPadShape | zsmrt/zsmrt.py:58-59 | a right-aligned field is as wide as the field or the text, whichever is wider: spaces, then the text |
| Text.SplitLeftPad | zsmrt/zsmrt.py:58-59 | a right-aligned field splits back to its text |
| Entries.End | zsmrt/zsmrt.py:22-23 | no contract; the body is `end()`; its properties are in `Entries.OverlapsVsIntersection` and `Entries.RenderReadsBack` |
| Entries.Overlaps | zsmrt/zsmrt.py:34-41 | no contract; the body is `overlaps_with`, branch for branch; its properties are `Entries.OverlapsVsIntersection`, `Entries.OverlapsByEndBytes`, `Entries.OverlapsEmptyQuery` and `Entries.EmptyEntryOverlapsNothing` |
| Entries.TypeChar | zsmrt/zsmrt.py:43-48 | no contract; the body is `_type_char`; its property is `Parser.TypeMarkerRoundTrip` |
| Entries.Render | zsmrt/zsmrt.py:56-59 | no contract; the body is `__str__`; its properties are `Entries.RenderTokens` and `Entries.RenderReadsBack` |
| Parser.IsDebugLine | zsmrt/zsmrt.py:61-64 | no contract; the body is `is_debug_line`; its property is `Parser.ParseClassification` |
| Parser.ParseTokens | zsmrt/zsmrt.py:80-91 | no contract; the body is `parse_entry_line` after the split, in Python's evaluation order; its properties are `Parser.ParseClassification`, `Parser.UnknownTypeFails`, `Parser.ParseDebugLine` and `Parser.ParseStandardLine` |
| Parser.ParseEntryLine | zsmrt/zsmrt.py:80-91 | no contract; the body is `parse_entry_line`; its properties are `Parser.DebugLineRoundTrip` and `Parser.StandardLineRoundTrip` |
| Parser.ParseLine | zsmrt/zsmrt.py:95 | no contract; the body strips the line and parses it; its property is `Parser.StripIsHarmless` |
| Squasher.Squash | zsmrt/zsmrt.py:98-106 | no contract; the body is the squash, entry by entry; its properties are `Squasher.SquashSucceedsIff`, `Squasher.SquashContents` and the other `Squasher` lemmas |
| Timeline.Header | zsmrt/zsmrt.py:112-113 | no contract; the body is the header's format; its property is `Timeline.HeaderText` |
| Timeline.Run | zsmrt/zsmrt.py:108-123 | no contract; the body parses, squashes and reports; its properties are `Timeline.MalformedLineAborts`, `Timeline.OrphanEventAborts`, `Timeline.RunReportsMarkedEvents` and `Timeline.EndToEndExample` |
| Text.Split | zsmrt/zsmrt.py:81 | every token is a word; its properties are `Text.SplitJoin` and `Text.SplitStrip` |
| Text.Strip | zsmrt/zsmrt.py:84 | no contract; the body trims both ends; its properties are `Text.TrimLeft`, `Text.TrimRight` and `Text.StripTrailingComma` |
| Text.ParseDecimal | zsmrt/zsmrt.py:84-85 | no contract; the body is `int(s)` on digit strings; its property is `Text.DecimalRoundTrip` |
| Text.ParseHex | zsmrt/zsmrt.py:89-90 | no contract; the body is `int(s, 16)` on digit strings; its property is `Text.HexRoundTrip` |
| Text.FormatDecimal | zsmrt/zsmrt.py:14-15 | no contract; the body is `{:d}`; its properties are `Text.FormatDigits` and `Text.DecimalRoundTrip` |
| Text.FormatHex | zsmrt/zsmrt.py:58-59 | no contract; the body is `{:x}`; its properties are `Text.FormatDigits` and `Text.HexRoundTrip` |
| Text.LeftPad | zsmrt/zsmrt.py:58-59 | no contract; the body is `{:>w}`; its properties are `Text.LeftPadShape` and `Text.SplitLeftPad` |

## Left out

- File I/O: `parse_file` opens and reads the file; the model takes the file's lines as a `seq<string>`.
- The command line: `main`, `cmd_get_timeline` and the `__main__` block only handle `sys.argv`, print `Nope!` and exit. The `int(start, 16)`/`int(len, 16)` conversion there is the same as `Text.ParseHex`; the model takes the query as two numbers.
- Console output: `print` becomes the returned list of report lines.
- In-place update: `squash_debug_entries` sets the `debug` field of the parsed objects themselves, so the list it was given sees the change. The model returns updated copies, so it does not capture that aliasing.
- Python `int` leniencies: signs, `_` separators, a `0x` prefix, non-ASCII digits and surrounding whitespace are not accepted; such text fails like any other bad number. Lines come from `split()`, so surrounding whitespace cannot reach `int` anyway.
- `_type_char`'s assertion: entries only get their type from the parser, so the type is always `A` or `F` and the assertion cannot fail. `Kind` has just these two values.
- Timeline.HeaderText: the header is stated as the concatenation of its two literal halves, not as one literal.
- Python 2: `IsSpace` is Python 3's `str.isspace()` set, which `split()` and `strip()` break on. Under Python 2, which the `#!/usr/bin/python` line may start, `split()` and `strip()` on byte strings break only on space, `\t`, `\n`, `\r`, `\v` and `\f`, not on `\x1c`-`\x1f`, `\x85` or `\xa0`. The model assumes Python 3.
