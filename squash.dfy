/**
  * The squasher: one left-to-right pass over the parsed entries that drops
  * the markers and gives each event the marker most recently seen before it.
  */
module Squasher {
  import opened Outcomes
  import opened Entries

  /** The most recent marker in `s`, if there is one. */
  function LastDebug(s: seq<Entry>): (r: Option<DebugEntry>)
    ensures r.None? <==> forall j :: 0 <= j < |s| ==> s[j].Standard?
  {
    if s == [] then None
    else
      match s[|s| - 1]
      case Debug(d) => Some(d)
      case Standard(_) => LastDebug(s[..|s| - 1])
  }

  /** The number of events in `s`. */
  function CountStandard(s: seq<Entry>): (n: nat)
    ensures n <= |s|
  {
    if s == [] then 0
    else CountStandard(s[..|s| - 1]) + if s[|s| - 1].Standard? then 1 else 0
  }

  /**
    * What `squash_debug_entries` returns, stated entry by entry from the end:
    * the squash of all but the last entry, then the last entry if it is an
    * event, carrying the marker before it. An event with no marker before it
    * is the `UnboundLocalError` Python raises on `debug_e`.
    */
  function Squash(s: seq<Entry>): Result<seq<StandardEntry>, Failure>
  {
    if s == [] then Ok([])
    else
      var prefix := s[..|s| - 1];
      match Squash(prefix)
      case Err(f) => Err(f)
      case Ok(out) =>
        match s[|s| - 1]
        case Debug(_) => Ok(out)
        case Standard(e) =>
          match LastDebug(prefix)
          case None => Err(NoDebugContext)
          case Some(d) => Ok(out + [e.(debug := Some(d))])
  }

  /**
    * `squash_debug_entries(raw_entries)`: the loop keeps the last marker seen
    * in `debugE` and appends each event, its `debug` set to that marker.
    */
  method SquashDebugEntries(rawEntries: seq<Entry>) returns (r: Result<seq<StandardEntry>, Failure>)
    ensures r == Squash(rawEntries)
  {
    var entries: seq<StandardEntry> := [];
    var debugE: Option<DebugEntry> := None;  // unbound until the first marker
    var i := 0;
    while i < |rawEntries|
      invariant 0 <= i <= |rawEntries|
      invariant Squash(rawEntries[..i]) == Ok(entries)
      invariant debugE == LastDebug(rawEntries[..i])
    {
      assert rawEntries[..i + 1][..i] == rawEntries[..i];
      match rawEntries[i] {
        case Debug(d) =>
          debugE := Some(d);
        case Standard(e) =>
          if debugE.None? {
            SquashFailurePersists(rawEntries, i + 1);
            return Err(NoDebugContext);
          }
          entries := entries + [e.(debug := debugE)];
      }
      i := i + 1;
    }
    assert rawEntries[..i] == rawEntries;
    return Ok(entries);
  }

  // ---------------------------------------------------------------------
  // Lemmas
  // ---------------------------------------------------------------------

  /** The marker `LastDebug` finds is in `s`, and only events follow it. */
  lemma {:induction false} LastDebugIsLatest(s: seq<Entry>)
    requires LastDebug(s).Some?
    ensures exists j :: 0 <= j < |s| && s[j] == Debug(LastDebug(s).value)
                        && forall k :: j < k < |s| ==> s[k].Standard?
  {
    var last := |s| - 1;
    if s[last].Debug? {
      assert s[last] == Debug(LastDebug(s).value);
    } else {
      var prefix := s[..last];
      LastDebugIsLatest(prefix);
      var j :| 0 <= j < |prefix| && prefix[j] == Debug(LastDebug(prefix).value)
                && forall k :: j < k < |prefix| ==> prefix[k].Standard?;
      assert s[j] == prefix[j];
      assert forall k :: j < k < |s| ==> s[k].Standard? by {
        assert forall k :: j < k < last ==> s[k] == prefix[k];
      }
    }
  }

  /** Once a prefix fails, the whole squash fails the same way: the pass stops at the first orphan event. */
  lemma {:induction false} SquashFailurePersists(s: seq<Entry>, n: nat)
    requires n <= |s| && Squash(s[..n]).Err?
    ensures Squash(s) == Squash(s[..n])
    decreases |s|
  {
    if n < |s| {
      var prefix := s[..|s| - 1];
      assert prefix[..n] == s[..n];
      SquashFailurePersists(prefix, n);
    } else {
      assert s[..n] == s;
    }
  }

  /** The only way a squash fails is an event before any marker. */
  lemma {:induction false} NoDebugContextOnly(s: seq<Entry>)
    ensures Squash(s).Err? ==> Squash(s).error == NoDebugContext
  {
    if s != [] {
      NoDebugContextOnly(s[..|s| - 1]);
    }
  }

  /** The squash succeeds exactly when every event has some marker before it. */
  lemma {:induction false} SquashSucceedsIff(s: seq<Entry>)
    ensures Squash(s).Ok? <==>
      forall i :: 0 <= i < |s| && s[i].Standard? ==> exists j :: 0 <= j < i && s[j].Debug?
  {
    if s != [] {
      var prefix := s[..|s| - 1];
      SquashSucceedsIff(prefix);
      assert forall i :: 0 <= i < |prefix| ==> prefix[i] == s[i];
      if s[|s| - 1].Standard? && Squash(prefix).Ok? {
        assert s[..|s| - 1] == prefix;
        if LastDebug(prefix).Some? {
          LastDebugIsLatest(prefix);
          var j :| 0 <= j < |prefix| && prefix[j] == Debug(LastDebug(prefix).value);
          assert s[j].Debug?;
        }
      }
    }
  }

  /**
    * A successful squash holds exactly the events of the input, in their order,
    * each carrying the most recent marker before it: the event at index `i`
    * lands at the number of events before it.
    */
  lemma {:induction false} SquashContents(s: seq<Entry>)
    requires Squash(s).Ok?
    ensures |Squash(s).value| == CountStandard(s)
    ensures forall i :: 0 <= i < |s| && s[i].Standard? ==>
      CountStandard(s[..i]) < |Squash(s).value|
      && LastDebug(s[..i]).Some?
      && Squash(s).value[CountStandard(s[..i])] == s[i].event.(debug := LastDebug(s[..i]))
  {
    if s != [] {
      var prefix := s[..|s| - 1];
      SquashContents(prefix);
      var out := Squash(s).value;
      forall i | 0 <= i < |s| && s[i].Standard?
        ensures CountStandard(s[..i]) < |out| && LastDebug(s[..i]).Some?
                && out[CountStandard(s[..i])] == s[i].event.(debug := LastDebug(s[..i]))
      {
        if i < |prefix| {
          assert prefix[i] == s[i] && prefix[..i] == s[..i];
        } else {
          assert s[..i] == prefix;
        }
      }
    }
  }

  /** Events keep their relative order: a later event has more events before it. */
  lemma {:induction false} LaterEventLaterPosition(s: seq<Entry>, i: nat, j: nat)
    requires i < j <= |s| && s[i].Standard?
    ensures CountStandard(s[..i]) < CountStandard(s[..j])
    decreases j
  {
    if j == i + 1 {
      assert s[..j][..i] == s[..i];
    } else {
      assert s[..j][..j - 1] == s[..j - 1];
      LaterEventLaterPosition(s, i, j - 1);
    }
  }

  /** After a successful squash every event has a marker, so its time field is never empty. */
  lemma {:induction false} SquashAttachesMarkers(s: seq<Entry>)
    requires Squash(s).Ok?
    ensures forall k :: 0 <= k < |Squash(s).value| ==> Squash(s).value[k].debug.Some?
  {
    if s != [] {
      SquashAttachesMarkers(s[..|s| - 1]);
    }
  }

  /**
    * Squashing entries that are all events (an already-squashed list) fails
    * unless the list is empty: nothing binds the marker.
    */
  lemma SquashMarkerFree(s: seq<Entry>)
    requires forall i :: 0 <= i < |s| ==> s[i].Standard?
    ensures Squash(s).Ok? <==> s == []
  {
    SquashSucceedsIff(s);
    if s != [] {
      assert s[0].Standard?;
    }
  }

  /** Each event is tagged with its own marker: markers A, event 1, marker B, event 2. */
  lemma SquashTwoMarkers(a: DebugEntry, e1: StandardEntry, b: DebugEntry, e2: StandardEntry)
    ensures Squash([Debug(a), Standard(e1), Debug(b), Standard(e2)])
      == Ok([e1.(debug := Some(a)), e2.(debug := Some(b))])
  {
    var s1 := [Debug(a)];
    var s2 := s1 + [Standard(e1)];
    var s3 := s2 + [Debug(b)];
    var s4 := s3 + [Standard(e2)];
    assert s1[..0] == [] && s2[..1] == s1 && s3[..2] == s2 && s4[..3] == s3;
    assert Squash(s1) == Ok([]);
    assert LastDebug(s1) == Some(a);
    var t1, t2 := e1.(debug := Some(a)), e2.(debug := Some(b));
    assert [] + [t1] == [t1] && [t1] + [t2] == [t1, t2];
    assert s2[|s2| - 1] == Standard(e1);
    assert Squash(s2) == Ok([t1]);
    assert LastDebug(s3) == Some(b);
    assert Squash(s3) == Ok([e1.(debug := Some(a))]);
    assert s4[|s4| - 1] == Standard(e2);
    assert s4 == [Debug(a), Standard(e1), Debug(b), Standard(e2)];
  }
}
