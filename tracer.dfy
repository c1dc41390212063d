/**
 * The trace recorder (`TracerManager`): an active buffer of events, a drain
 * that turns each buffered event into one object of the output file's
 * `traceEvents` array, the file framing, and the scope guard (`ScopedTrace`)
 * that pairs begin and end events. The recorder runs sequentially here; the
 * in-flight counter of the source's flush barrier is kept as a ghost field.
 */
module Tracer {
  import opened Wrappers
  import opened Events
  import opened Text

  /** INTERNAL_TRACER_BUFFER_SIZE: the number of buffered events that triggers a drain. */
  const BufferSize: nat := 1000000

  /** What `init` writes: the array's opening and `std::endl`. */
  const Header: string := "{\"traceEvents\":[\n"

  /** What teardown writes after the final drain: `std::endl`, `]}`, `std::endl`. */
  const Footer: string := "\n]}\n"

  /**
   * The text the drain writes for a batch of event objects: each object
   * preceded by ",\n", except the very first object the recorder ever writes
   * (`afterFirst` is the state of the `firstEntry` once-flag).
   */
  function Entries(objects: seq<string>, afterFirst: bool): string
    decreases |objects|, 1
  {
    if objects == [] then "" else EntriesFrom(objects, afterFirst)
  }

  /**
   * `Entries` of a non-empty batch: the first object, then the others after
   * separators. Kept apart from `Entries` so that a mention of `Entries` in a
   * contract unfolds by one case only, which keeps the proofs about it small.
   */
  function EntriesFrom(objects: seq<string>, afterFirst: bool): string
    requires objects != []
    decreases |objects|, 0
  {
    if afterFirst then ",\n" + (objects[0] + Entries(objects[1..], true))
    else objects[0] + Entries(objects[1..], true)
  }

  /** Reference: items separated by `sep`, with no separator before the first or after the last. */
  function Join(items: seq<string>, sep: string): string
    decreases |items|
  {
    if |items| == 0 then "" else if |items| == 1 then items[0] else items[0] + sep + Join(items[1..], sep)
  }

  /** The objects of `events`, one per event, in order. */
  function Objects(events: seq<Event>, timeOffset: int): (r: seq<string>)
    ensures |r| == |events|
    decreases |events|, 1
  {
    if events == [] then [] else ObjectsCons(events, timeOffset)
  }

  /** `Objects` of a non-empty batch; split off from `Objects` for the same reason as `EntriesFrom`. */
  function ObjectsCons(events: seq<Event>, timeOffset: int): (r: seq<string>)
    requires events != []
    ensures |r| == |events|
    decreases |events|, 0
  {
    [SerializeEvent(events[0], timeOffset)] + Objects(events[1..], timeOffset)
  }

  lemma {:induction false} ObjectsAppend(a: seq<Event>, b: seq<Event>, timeOffset: int)
    ensures Objects(a + b, timeOffset) == Objects(a, timeOffset) + Objects(b, timeOffset)
    decreases |a|
  {
    if a == [] {
      assert a + b == b;
    } else {
      assert (a + b)[1..] == a[1..] + b;
      ObjectsAppend(a[1..], b, timeOffset);
    }
  }

  /**
   * What the drain writes is the objects joined by ",\n" — each exactly once,
   * in order — with one more separator in front when an object was already
   * written before.
   */
  lemma {:induction false} EntriesIsJoin(objects: seq<string>, afterFirst: bool)
    ensures Entries(objects, afterFirst)
         == (if afterFirst && objects != [] then ",\n" else "") + Join(objects, ",\n")
    decreases |objects|
  {
    if objects != [] {
      var tail := objects[1..];
      EntriesIsJoin(tail, true);
      if tail == [] {
        assert Entries(objects, afterFirst) == (if afterFirst then ",\n" else "") + objects[0] + "";
      }
    }
  }

  /**
   * Draining in several batches writes what one drain of all the objects
   * would: the once-flag keeps the separator away from the very first object
   * only, however the events are split between flushes.
   */
  lemma {:induction false} EntriesAppend(a: seq<string>, b: seq<string>, afterFirst: bool)
    ensures Entries(a + b, afterFirst) == Entries(a, afterFirst) + Entries(b, afterFirst || a != [])
    decreases |a|
  {
    if a == [] {
      assert a + b == b;
    } else {
      assert (a + b)[1..] == a[1..] + b;
      EntriesAppend(a[1..], b, true);
    }
  }

  /** A non-empty batch written after earlier objects is the same batch with ",\n" in front. */
  lemma EntriesSeparator(objects: seq<string>)
    requires objects != []
    ensures Entries(objects, true) == ",\n" + Entries(objects, false)
  {
  }

  /** The records of the objects written for `events`. */
  function Views(events: seq<Event>, timeOffset: int): (r: seq<Record>)
    ensures |r| == |events|
    ensures forall i | 0 <= i < |events| :: r[i] == View(events[i], timeOffset)
  {
    seq(|events|, i requires 0 <= i < |events| => View(events[i], timeOffset))
  }

  /** Reads a whole trace file: the header, the array's objects, the footer. */
  function ParseDocument(s: string): Option<seq<Record>> {
    var body :- Lit(Header, s);
    if body == Footer then Some([])
    else
      var objects :- ParseObjects(body);
      if objects.1 == Footer then Some(objects.0) else None
  }

  /**
   * Objects separated by ",\n", followed by text that does not start with a
   * separator, read back as their records, when each object reads back as
   * its record whatever follows it.
   */
  lemma {:induction false} ParseEntries(objects: seq<string>, recs: seq<Record>, rest: string)
    requires objects != [] && |recs| == |objects|
    requires forall i, t {:trigger ParseObjects(objects[i] + t)} | 0 <= i < |objects| :: ParseObjects(objects[i] + t) == ParseMore(recs[i], t)
    requires !(",\n" <= rest)
    ensures ParseObjects(Entries(objects, false) + rest) == Some((recs, rest))
    decreases |objects|
  {
    var after := Entries(objects[1..], true) + rest;
    assert ParseObjects(objects[0] + after) == ParseMore(recs[0], after);
    if |objects| == 1 {
      ParseLast(objects, recs, rest);
    } else {
      ParseEntriesTail(objects, recs);
      ParseEntries(objects[1..], recs[1..], rest);
      ParseCons(objects, recs, rest);
    }
  }

  /** A single object followed by text that does not start with a separator. */
  lemma ParseLast(objects: seq<string>, recs: seq<Record>, rest: string)
    requires |objects| == 1 && |recs| == 1
    requires ParseObjects(objects[0] + (Entries(objects[1..], true) + rest)) == ParseMore(recs[0], Entries(objects[1..], true) + rest)
    requires !(",\n" <= rest)
    ensures ParseObjects(Entries(objects, false) + rest) == Some((recs, rest))
  {
    var after := Entries(objects[1..], true) + rest;
    assert Entries(objects[1..], true) == "";
    assert after == rest;
    EntriesCons(objects, rest);
    assert ParseMore(recs[0], rest) == Some(([recs[0]], rest));
    assert recs == [recs[0]];
  }

  /** The first object, a separator, then objects that read back as `recs[1..]`. */
  lemma ParseCons(objects: seq<string>, recs: seq<Record>, rest: string)
    requires |objects| > 1 && |recs| == |objects|
    requires ParseObjects(objects[0] + (Entries(objects[1..], true) + rest)) == ParseMore(recs[0], Entries(objects[1..], true) + rest)
    requires ParseObjects(Entries(objects[1..], false) + rest) == Some((recs[1..], rest))
    ensures ParseObjects(Entries(objects, false) + rest) == Some((recs, rest))
  {
    assert recs == [recs[0]] + recs[1..];
    var after := Entries(objects[1..], true) + rest;
    EntriesCons(objects, rest);
    SeparatedRest(objects[1..], rest);
    ParseMoreNext(objects[0], after, recs[0], recs[1..], rest);
  }

  /** After an object, a separator hands the reader over to the next object. */
  lemma ParseMoreNext(first: string, after: string, rec: Record, more: seq<Record>, rest: string)
    requires ",\n" <= after
    requires ParseObjects(first + after) == ParseMore(rec, after)
    requires ParseObjects(after[2..]) == Some((more, rest))
    ensures ParseObjects(first + after) == Some(([rec] + more, rest))
  {
  }

  /** The text for a list of objects is the first object, then the text for the others. */
  lemma EntriesCons(objects: seq<string>, rest: string)
    requires objects != []
    ensures Entries(objects, false) + rest == objects[0] + (Entries(objects[1..], true) + rest)
  {
    AppendAssoc(objects[0], Entries(objects[1..], true), rest);
  }

  /** After the first object, the text starts with a separator, then the others' text. */
  lemma SeparatedRest(objects: seq<string>, rest: string)
    requires objects != []
    ensures ",\n" <= Entries(objects, true) + rest
    ensures (Entries(objects, true) + rest)[2..] == Entries(objects, false) + rest
  {
    var inner := Entries(objects, false);
    EntriesSeparator(objects);
    AppendAssoc(",\n", inner, rest);
    assert (",\n" + (inner + rest))[2..] == inner + rest;
  }

  /** The read-back premise for a list carries over to its tail. */
  lemma ParseEntriesTail(objects: seq<string>, recs: seq<Record>)
    requires |objects| > 1 && |recs| == |objects|
    requires forall i, t {:trigger ParseObjects(objects[i] + t)} | 0 <= i < |objects| :: ParseObjects(objects[i] + t) == ParseMore(recs[i], t)
    ensures forall i, t {:trigger ParseObjects(objects[1..][i] + t)} | 0 <= i < |objects[1..]| :: ParseObjects(objects[1..][i] + t) == ParseMore(recs[1..][i], t)
  {
    forall i, t | 0 <= i < |objects[1..]|
      ensures ParseObjects(objects[1..][i] + t) == ParseMore(recs[1..][i], t)
    {
      assert objects[1..][i] == objects[i + 1];
      assert ParseObjects(objects[i + 1] + t) == ParseMore(recs[i + 1], t);
    }
  }

  /** The object of the event at position `i` of a batch. */
  lemma {:induction false} ObjectAt(events: seq<Event>, i: nat, timeOffset: int)
    requires i < |events|
    ensures Objects(events, timeOffset)[i] == SerializeEvent(events[i], timeOffset)
    decreases i
  {
    assert Objects(events, timeOffset) == ObjectsCons(events, timeOffset);
    if i > 0 {
      ObjectAt(events[1..], i - 1, timeOffset);
    }
  }

  /**
   * The objects the drain writes for a non-empty batch, followed by text that
   * does not start with a separator, read back as the batch's records, in
   * order (provided no printed string holds a double quote).
   */
  lemma ParseBatch(events: seq<Event>, timeOffset: int, rest: string)
    requires events != []
    requires forall i | 0 <= i < |events| :: QuoteFree(events[i])
    requires !(",\n" <= rest)
    ensures ParseObjects(Entries(Objects(events, timeOffset), false) + rest) == Some((Views(events, timeOffset), rest))
  {
    var objects := Objects(events, timeOffset);
    var recs := Views(events, timeOffset);
    forall i, t | 0 <= i < |objects|
      ensures ParseObjects(objects[i] + t) == ParseMore(recs[i], t)
    {
      ObjectAt(events, i, timeOffset);
      SerializeRoundTrip(events[i], timeOffset, t);
    }
    ParseEntries(objects, recs, rest);
  }

  /**
   * Round trip of a whole trace file: when the recorder drains events into a
   * file it opened before any drain, the closed file reads back as exactly
   * those events' records, in order (provided no printed string holds a
   * double quote, since nothing is escaped).
   */
  lemma DocumentRoundTrip(events: seq<Event>, timeOffset: int)
    requires forall i | 0 <= i < |events| :: QuoteFree(events[i])
    ensures ParseDocument(Header + Entries(Objects(events, timeOffset), false) + Footer) == Some(Views(events, timeOffset))
  {
    var body := Entries(Objects(events, timeOffset), false) + Footer;
    assert Header + Entries(Objects(events, timeOffset), false) + Footer == Header + body;
    if events == [] {
      assert body == Footer;
    } else {
      assert Footer[0] == '\n';
      ParseBatch(events, timeOffset, Footer);
      assert body != Footer by {
        assert SerializeEvent(events[0], timeOffset)[0] == '{';
        assert body[0] == '{';
      }
    }
  }

  /**
   * Events drained before `init` consume the once-flag, so the first object
   * written to the file afterwards begins with a separator and the file does
   * not read back.
   */
  lemma EarlyDrainBreaksDocument(events: seq<Event>, timeOffset: int)
    requires events != []
    ensures ParseDocument(Header + Entries(Objects(events, timeOffset), true) + Footer) == None
  {
    var body := Entries(Objects(events, timeOffset), true) + Footer;
    assert Header + Entries(Objects(events, timeOffset), true) + Footer == Header + body;
    EntriesSeparator(Objects(events, timeOffset));
    assert body[0] == ',';
    assert Lit(Header, Header + body) == Some(body);
    assert ParseObjects(body) == ParseFromCat(body) == None;
  }

  /**
   * The source's `processEvent` as written, on a full buffer. `flush()` waits
   * until no record operation is in flight, and `flushCV` is never notified,
   * so the wait returns only if that holds when it starts. `None` means that
   * the call never returns.
   */
  function ProcessEventAsWritten(buffer: seq<Event>, inFlight: nat, e: Event): (r: Option<seq<Event>>)
    ensures r.None? <==> |buffer| + 1 >= BufferSize
    ensures r.Some? ==> r.value == buffer + [e]
  {
    var counter := inFlight + 1;
    var pushed := buffer + [e];
    if |pushed| >= BufferSize then
      if counter == 0 then Some([]) else None
    else
      Some(pushed)
  }

  /**
   * Records `events` one after another with the source's `processEvent` as
   * written, no other operation in flight; `None` once a call never returns.
   */
  function AsWrittenRun(buffer: seq<Event>, events: seq<Event>): Option<seq<Event>>
    decreases |events|
  {
    if events == [] then Some(buffer)
    else match ProcessEventAsWritten(buffer, 0, events[0])
      case None => None
      case Some(next) => AsWrittenRun(next, events[1..])
  }

  /**
   * As written, a run of record calls appends every event until the one that
   * brings the buffer to `BufferSize`: that call counts itself as in flight
   * while it calls `flush()`, so the barrier never opens and it blocks forever.
   */
  lemma {:induction false} FullBufferBlocks(buffer: seq<Event>, events: seq<Event>)
    ensures AsWrittenRun(buffer, events)
         == if events != [] && |buffer| + |events| >= BufferSize then None else Some(buffer + events)
    decreases |events|
  {
    if events != [] {
      assert ProcessEventAsWritten(buffer, 0, events[0])
          == if |buffer| + 1 >= BufferSize then None else Some(buffer + [events[0]]);
      if |buffer| + 1 < BufferSize {
        FullBufferBlocks(buffer + [events[0]], events[1..]);
        assert buffer + [events[0]] + events[1..] == buffer + events;
      }
    } else {
      assert buffer + events == buffer;
    }
  }

  /** From an empty buffer, the millionth call of any run blocks. */
  lemma MillionthCallBlocks(events: seq<Event>)
    requires |events| == BufferSize
    ensures AsWrittenRun([], events[..BufferSize - 1]) == Some(events[..BufferSize - 1])
    ensures AsWrittenRun([], events) == None
  {
    var first := events[..BufferSize - 1];
    assert |first| == BufferSize - 1 && [] + first == first;
    FullBufferBlocks([], first);
    FullBufferBlocks([], events);
  }

  /** One more event of a batch adds its entry to what the drain has written of the batch. */
  lemma WriteEntry(out0: string, out: string, batch: seq<Event>, i: nat, timeOffset: int, afterFirst: bool)
    requires i < |batch|
    requires out == out0 + Entries(Objects(batch[..i], timeOffset), afterFirst)
    ensures out + ((if afterFirst || i > 0 then ",\n" else "") + SerializeEvent(batch[i], timeOffset))
         == out0 + Entries(Objects(batch[..i + 1], timeOffset), afterFirst)
  {
    var objects := Objects(batch[..i], timeOffset);
    var x := SerializeEvent(batch[i], timeOffset);
    assert batch[..i + 1] == batch[..i] + [batch[i]];
    ObjectsAppend(batch[..i], [batch[i]], timeOffset);
    assert Objects([batch[i]], timeOffset) == [x];
    EntriesSnoc(objects, x, afterFirst);
    AppendAssoc(out0, Entries(objects, afterFirst), (if afterFirst || i > 0 then ",\n" else "") + x);
  }

  /** Appending one object to a batch adds that object's entry to the batch's text. */
  lemma EntriesSnoc(objects: seq<string>, x: string, afterFirst: bool)
    ensures Entries(objects + [x], afterFirst)
         == Entries(objects, afterFirst) + ((if afterFirst || objects != [] then ",\n" else "") + x)
  {
    EntriesAppend(objects, [x], afterFirst);
    var sep := afterFirst || objects != [];
    assert Entries([x], sep) == EntriesFrom([x], sep);
    assert Entries([x], afterFirst || objects != []) == (if afterFirst || objects != [] then ",\n" else "") + x + "";
  }

  /**
   * Writing a drained batch to a file that holds the header and the objects
   * drained since it was opened leaves the header and the objects of all
   * events drained since then.
   */
  lemma FileGrows(out: string, drained: seq<Event>, batch: seq<Event>, fileStart: nat, timeOffset: int)
    requires fileStart <= |drained|
    requires out == Header + Entries(Objects(drained[fileStart..], timeOffset), fileStart > 0)
    ensures out + Entries(Objects(batch, timeOffset), drained != [])
         == Header + Entries(Objects((drained + batch)[fileStart..], timeOffset), fileStart > 0)
  {
    var before := drained[fileStart..];
    assert (drained + batch)[fileStart..] == before + batch;
    ObjectsAppend(before, batch, timeOffset);
    EntriesAppend(Objects(before, timeOffset), Objects(batch, timeOffset), fileStart > 0);
    assert (fileStart > 0 || before != []) == (drained != []);
    AppendAssoc(Header, Entries(Objects(before, timeOffset), fileStart > 0), Entries(Objects(batch, timeOffset), drained != []));
  }

  /**
   * The effect of recording `e` on a recorder's (buffer, drained history):
   * appended at the buffer's end, or, when that fills the buffer, the whole
   * buffer including `e` drained. Nothing is lost or reordered, and the
   * buffer stays below its size.
   */
  function RecordStep(state: (seq<Event>, seq<Event>), e: Event): (r: (seq<Event>, seq<Event>))
    ensures r.1 + r.0 == state.1 + state.0 + [e]
    ensures |r.0| < BufferSize
    ensures r.0 == [] || r.0[|r.0| - 1] == e
    ensures |state.0| + 1 < BufferSize ==> r.1 == state.1
    ensures |state.0| + 1 >= BufferSize ==> r.0 == []
  {
    if |state.0| + 1 < BufferSize then (state.0 + [e], state.1) else ([], state.1 + state.0 + [e])
  }

  /** `RecordStep` for each of `events` in turn. */
  function RecordAll(state: (seq<Event>, seq<Event>), events: seq<Event>): (r: (seq<Event>, seq<Event>))
    ensures r.1 + r.0 == state.1 + state.0 + events
    ensures events != [] ==> |r.0| < BufferSize
    decreases |events|
  {
    if events == [] then state
    else
      var n := |events| - 1;
      assert events == events[..n] + [events[n]];
      RecordStep(RecordAll(state, events[..n]), events[n])
  }

  /** The recorder, one instance standing for the process-wide singleton. */
  class Recorder {
    /** The active buffer that record operations append to. */
    var eventBuffer: seq<Event>
    /** The text written to the output file so far. */
    var out: string
    /** The `firstEntry` once-flag: set once the first object has been drained. */
    var firstWritten: bool
    /** Whether the output file is open; writes to a stream that is not open are lost. */
    var isOpen: bool
    /** Set by `init`; nothing reads it. */
    var isTracing: bool
    /** The time origin captured when the recorder is created. */
    var timeOffset: int

    /** The flush barrier's `eventsInProgress`: record operations in flight. */
    ghost var inFlight: nat
    /** Every event recorded so far, in order. */
    ghost var recorded: seq<Event>
    /** Every event drained so far, in order. */
    ghost var drained: seq<Event>
    /** How many events had been drained when the output file was last opened. */
    ghost var fileStart: nat

    /**
     * The bookkeeping: every recorded event is either drained or still in the
     * buffer, in order; the once-flag is set exactly when something was
     * drained; an open file holds the header and the entries of exactly the
     * events drained since it was opened.
     */
    ghost predicate Consistent()
      reads this
    {
      && recorded == drained + eventBuffer
      && fileStart <= |drained|
      && firstWritten == (drained != [])
      && (isOpen ==> out == Header + Entries(Objects(drained[fileStart..], timeOffset), fileStart > 0))
    }

    /** Between operations the buffer also stays below the drain threshold. */
    ghost predicate Valid()
      reads this
    {
      Consistent() && |eventBuffer| < BufferSize
    }

    /** The fields that only `init` and teardown change. */
    ghost function Settings(): (bool, bool, int, nat)
      reads this
    {
      (isOpen, isTracing, timeOffset, fileStart)
    }

    /** The buffer and the drained history are what recording `e` makes of `buffer0` and `drained0`. */
    ghost predicate AppendedFrom(buffer0: seq<Event>, drained0: seq<Event>, e: Event)
      reads this
    {
      (eventBuffer, drained) == RecordStep((buffer0, drained0), e)
    }

    /** The private constructor: nothing buffered, no file, the time origin `now`. */
    constructor (now: int)
      ensures Valid() && inFlight == 0
      ensures eventBuffer == [] && recorded == [] && drained == []
      ensures !firstWritten && !isOpen && !isTracing && timeOffset == now && out == ""
    {
      eventBuffer := [];
      out := "";
      firstWritten := false;
      isOpen := false;
      isTracing := false;
      timeOffset := now;
      inFlight := 0;
      recorded := [];
      drained := [];
      fileStart := 0;
    }

    /**
     * `init`: opens the output file, replacing whatever was there, and writes
     * the header. The once-flag is left as it is.
     */
    method Init()
      requires Valid()
      modifies this
      ensures Valid() && isOpen && isTracing && out == Header
      ensures fileStart == |drained|
      ensures eventBuffer == old(eventBuffer) && recorded == old(recorded) && drained == old(drained)
      ensures firstWritten == old(firstWritten) && timeOffset == old(timeOffset) && inFlight == old(inFlight)
    {
      out := Header;
      isOpen := true;
      isTracing := true;
      fileStart := |drained|;
      assert drained[fileStart..] == [];
    }

    /**
     * The drain body of `flush`: swaps the active buffer out and writes one
     * entry per event, in order. Called by `Flush`, by teardown, and by
     * `ProcessEvent` when the buffer fills.
     */
    method Drain()
      requires Consistent()
      modifies this
      ensures Valid()
      ensures eventBuffer == [] && recorded == old(recorded) && drained == old(drained) + old(eventBuffer)
      ensures out == old(out) + (if isOpen then Entries(Objects(old(eventBuffer), timeOffset), old(firstWritten)) else "")
      ensures Settings() == old(Settings()) && inFlight == old(inFlight)
    {
      var flushBuffer := eventBuffer;
      eventBuffer := [];
      WriteBatch(flushBuffer);
      if isOpen {
        FileGrows(old(out), old(drained), flushBuffer, fileStart, timeOffset);
      }
    }

    /**
     * The loop of the drain: for each event of the swapped-out batch, in
     * order, builds its object (preceded by ",\n" unless the once-flag fires)
     * and writes it to the file. The loop works on copies of the stream's
     * text and the once-flag and stores them back at the end; nothing reads
     * either while the drain runs.
     */
    method WriteBatch(flushBuffer: seq<Event>)
      modifies this
      ensures out == old(out) + (if isOpen then Entries(Objects(flushBuffer, timeOffset), old(firstWritten)) else "")
      ensures firstWritten == (old(firstWritten) || flushBuffer != [])
      ensures drained == old(drained) + flushBuffer
      ensures eventBuffer == old(eventBuffer) && recorded == old(recorded)
      ensures Settings() == old(Settings()) && inFlight == old(inFlight)
    {
      var text, first, open := out, firstWritten, isOpen;
      ghost var text0, first0 := text, first;
      var i := 0;
      while i < |flushBuffer|
        invariant 0 <= i <= |flushBuffer|
        invariant text == text0 + (if open then Entries(Objects(flushBuffer[..i], timeOffset), first0) else "")
        invariant first == (first0 || i > 0)
        modifies {}
      {
        var raw := flushBuffer[i];
        ghost var sep := if first then ",\n" else "";
        var traceBuffer := ",\n";
        if !first {
          traceBuffer := traceBuffer[2..];
          first := true;
        }
        assert traceBuffer == sep;
        traceBuffer := traceBuffer + SerializeEvent(raw, timeOffset);
        if open {
          WriteEntry(text0, text, flushBuffer, i, timeOffset, first0);
          text := text + traceBuffer;
        }
        i := i + 1;
      }
      assert flushBuffer[..i] == flushBuffer;
      out, firstWritten, drained := text, first, drained + flushBuffer;
    }

    /**
     * `flush`: may start only when no record operation is in flight (the
     * barrier wait), then drains.
     */
    method Flush()
      requires Valid() && inFlight == 0
      modifies this
      ensures Valid()
      ensures eventBuffer == [] && recorded == old(recorded) && drained == old(drained) + old(eventBuffer)
      ensures out == old(out) + (if isOpen then Entries(Objects(old(eventBuffer), timeOffset), old(firstWritten)) else "")
      ensures Settings() == old(Settings()) && inFlight == 0
    {
      Drain();
    }

    /**
     * `processEvent`: counts itself in flight, appends the event, drains when
     * the buffer reaches its size, and leaves the buffer below that size.
     * The source calls `flush()` at this point, whose barrier cannot open
     * while this call is in flight (see ProcessEventAsWritten); here the
     * overflow path drains directly.
     */
    method ProcessEvent(category: string, name: string, ph: char, id: nat, argName: string, argValue: ArgValue,
                        ts: int, pid: nat, tid: nat)
      requires Valid()
      modifies this
      ensures Valid() && inFlight == old(inFlight) && Settings() == old(Settings())
      ensures recorded == old(recorded) + [Event(name, category, id, ts, pid, tid, ph, argName, argValue)]
      ensures AppendedFrom(old(eventBuffer), old(drained), Event(name, category, id, ts, pid, tid, ph, argName, argValue))
      ensures isOpen || out == old(out)
    {
      inFlight := inFlight + 1;
      var ev := Event(name, category, id, ts, pid, tid, ph, argName, argValue);
      eventBuffer := eventBuffer + [ev];
      recorded := recorded + [ev];
      if |eventBuffer| >= BufferSize {
        Drain();
      }
      inFlight := inFlight - 1;
    }

    method DurationBegin(category: string, name: string, key: string, value: ArgValue, ts: int, pid: nat, tid: nat)
      requires Valid()
      modifies this
      ensures Valid() && inFlight == old(inFlight) && Settings() == old(Settings())
      ensures recorded == old(recorded) + [EventOf(DurationBeginCall(category, name, key, value), ts, pid, tid)]
      ensures AppendedFrom(old(eventBuffer), old(drained), EventOf(DurationBeginCall(category, name, key, value), ts, pid, tid))
      ensures isOpen || out == old(out)
    {
      ProcessEvent(category, name, 'B', 0, key, value, ts, pid, tid);
    }

    method DurationEnd(category: string, name: string, key: string, value: ArgValue, ts: int, pid: nat, tid: nat)
      requires Valid()
      modifies this
      ensures Valid() && inFlight == old(inFlight) && Settings() == old(Settings())
      ensures recorded == old(recorded) + [EventOf(DurationEndCall(category, name, key, value), ts, pid, tid)]
      ensures AppendedFrom(old(eventBuffer), old(drained), EventOf(DurationEndCall(category, name, key, value), ts, pid, tid))
      ensures isOpen || out == old(out)
    {
      ProcessEvent(category, name, 'E', 0, key, value, ts, pid, tid);
    }

    method Instant(category: string, name: string, ts: int, pid: nat, tid: nat)
      requires Valid()
      modifies this
      ensures Valid() && inFlight == old(inFlight) && Settings() == old(Settings())
      ensures recorded == old(recorded) + [EventOf(InstantCall(category, name), ts, pid, tid)]
      ensures AppendedFrom(old(eventBuffer), old(drained), EventOf(InstantCall(category, name), ts, pid, tid))
      ensures isOpen || out == old(out)
    {
      ProcessEvent(category, name, 'i', 0, "", NoArg, ts, pid, tid);
    }

    method Counter(category: string, name: string, count: int, ts: int, pid: nat, tid: nat)
      requires Valid()
      modifies this
      ensures Valid() && inFlight == old(inFlight) && Settings() == old(Settings())
      ensures recorded == old(recorded) + [EventOf(CounterCall(category, name, count), ts, pid, tid)]
      ensures AppendedFrom(old(eventBuffer), old(drained), EventOf(CounterCall(category, name, count), ts, pid, tid))
      ensures isOpen || out == old(out)
    {
      ProcessEvent(category, name, 'C', 0, name, IntArg(count), ts, pid, tid);
    }

    method AsyncBegin(category: string, name: string, id: nat, key: string, value: ArgValue, ts: int, pid: nat, tid: nat)
      requires Valid()
      modifies this
      ensures Valid() && inFlight == old(inFlight) && Settings() == old(Settings())
      ensures recorded == old(recorded) + [EventOf(AsyncBeginCall(category, name, id, key, value), ts, pid, tid)]
      ensures AppendedFrom(old(eventBuffer), old(drained), EventOf(AsyncBeginCall(category, name, id, key, value), ts, pid, tid))
      ensures isOpen || out == old(out)
    {
      ProcessEvent(category, name, 'b', id, key, value, ts, pid, tid);
    }

    method AsyncStep(category: string, name: string, id: nat, step: string, ts: int, pid: nat, tid: nat)
      requires Valid()
      modifies this
      ensures Valid() && inFlight == old(inFlight) && Settings() == old(Settings())
      ensures recorded == old(recorded) + [EventOf(AsyncStepCall(category, name, id, step), ts, pid, tid)]
      ensures AppendedFrom(old(eventBuffer), old(drained), EventOf(AsyncStepCall(category, name, id, step), ts, pid, tid))
      ensures isOpen || out == old(out)
    {
      ProcessEvent(category, name, 'n', id, "step", StrArg(step), ts, pid, tid);
    }

    method AsyncEnd(category: string, name: string, id: nat, key: string, value: ArgValue, ts: int, pid: nat, tid: nat)
      requires Valid()
      modifies this
      ensures Valid() && inFlight == old(inFlight) && Settings() == old(Settings())
      ensures recorded == old(recorded) + [EventOf(AsyncEndCall(category, name, id, key, value), ts, pid, tid)]
      ensures AppendedFrom(old(eventBuffer), old(drained), EventOf(AsyncEndCall(category, name, id, key, value), ts, pid, tid))
      ensures isOpen || out == old(out)
    {
      ProcessEvent(category, name, 'e', id, key, value, ts, pid, tid);
    }

    method FlowStart(category: string, name: string, id: nat, key: string, value: ArgValue, ts: int, pid: nat, tid: nat)
      requires Valid()
      modifies this
      ensures Valid() && inFlight == old(inFlight) && Settings() == old(Settings())
      ensures recorded == old(recorded) + [EventOf(FlowStartCall(category, name, id, key, value), ts, pid, tid)]
      ensures AppendedFrom(old(eventBuffer), old(drained), EventOf(FlowStartCall(category, name, id, key, value), ts, pid, tid))
      ensures isOpen || out == old(out)
    {
      ProcessEvent(category, name, 's', id, key, value, ts, pid, tid);
    }

    method FlowStep(category: string, name: string, id: nat, step: string, ts: int, pid: nat, tid: nat)
      requires Valid()
      modifies this
      ensures Valid() && inFlight == old(inFlight) && Settings() == old(Settings())
      ensures recorded == old(recorded) + [EventOf(FlowStepCall(category, name, id, step), ts, pid, tid)]
      ensures AppendedFrom(old(eventBuffer), old(drained), EventOf(FlowStepCall(category, name, id, step), ts, pid, tid))
      ensures isOpen || out == old(out)
    {
      ProcessEvent(category, name, 't', id, "step", StrArg(step), ts, pid, tid);
    }

    method FlowFinish(category: string, name: string, id: nat, key: string, value: ArgValue, ts: int, pid: nat, tid: nat)
      requires Valid()
      modifies this
      ensures Valid() && inFlight == old(inFlight) && Settings() == old(Settings())
      ensures recorded == old(recorded) + [EventOf(FlowFinishCall(category, name, id, key, value), ts, pid, tid)]
      ensures AppendedFrom(old(eventBuffer), old(drained), EventOf(FlowFinishCall(category, name, id, key, value), ts, pid, tid))
      ensures isOpen || out == old(out)
    {
      ProcessEvent(category, name, 'f', id, key, value, ts, pid, tid);
    }

    method Metadata(metadataName: string, argValue: string, ts: int, pid: nat, tid: nat)
      requires Valid()
      modifies this
      ensures Valid() && inFlight == old(inFlight) && Settings() == old(Settings())
      ensures recorded == old(recorded) + [EventOf(MetadataCall(metadataName, argValue), ts, pid, tid)]
      ensures AppendedFrom(old(eventBuffer), old(drained), EventOf(MetadataCall(metadataName, argValue), ts, pid, tid))
      ensures isOpen || out == old(out)
    {
      ProcessEvent("", metadataName, 'M', 0, "name", StrArg(argValue), ts, pid, tid);
    }

    /**
     * The destructor: if the file is open, a final flush, the footer, and the
     * file is closed. The whole file is then the header, the entries of the
     * events drained since it was opened, and the footer.
     */
    method Close()
      requires Valid() && inFlight == 0
      modifies this
      ensures Valid() && !isOpen && inFlight == 0
      ensures old(isOpen) ==> eventBuffer == [] && drained == old(drained) + old(eventBuffer) && recorded == old(recorded)
      ensures old(isOpen) ==> out == old(out) + Entries(Objects(old(eventBuffer), timeOffset), old(firstWritten)) + Footer
      ensures old(isOpen) ==> out == Header + Entries(Objects(drained[fileStart..], timeOffset), fileStart > 0) + Footer
      ensures timeOffset == old(timeOffset) && isTracing == old(isTracing) && fileStart == old(fileStart)
      ensures !old(isOpen) ==> unchanged(this)
    {
      if isOpen {
        Flush();
        out := out + Footer;
        isOpen := false;
      }
    }
  }

  /** The events a sequence of stamped calls records on one thread. */
  function EventsOf(body: seq<(Call, int)>, pid: nat, tid: nat): (r: seq<Event>)
    ensures |r| == |body|
    ensures forall i | 0 <= i < |body| :: r[i] == EventOf(body[i].0, body[i].1, pid, tid)
  {
    seq(|body|, i requires 0 <= i < |body| => EventOf(body[i].0, body[i].1, pid, tid))
  }

  /**
   * The begin and end events of one scope: same category, name, key and
   * value, phases B and E.
   */
  predicate ScopePair(b: Event, e: Event) {
    && b.phase == 'B' && e.phase == 'E'
    && b.category == e.category && b.name == e.name
    && b.argName == e.argName && b.argValue == e.argValue
    && b.id == 0 && e.id == 0
  }

  /** A begin and an end recorded with the same captured arguments form a scope pair. */
  lemma ScopeEventsPair(category: string, name: string, key: string, value: ArgValue,
                        tsBegin: int, tsEnd: int, pid: nat, tid: nat)
    ensures ScopePair(EventOf(DurationBeginCall(category, name, key, value), tsBegin, pid, tid),
                      EventOf(DurationEndCall(category, name, key, value), tsEnd, pid, tid))
  {
  }

  /** `ScopedTrace`: captures its arguments, records the begin at construction and the end at destruction. */
  class ScopedTrace {
    const recorder: Recorder
    const category: string
    const name: string
    const key: string
    const value: ArgValue
    /** Whether the destructor has run. */
    ghost var ended: bool

    constructor (recorder: Recorder, category: string, name: string, key: string, value: ArgValue,
                 ts: int, pid: nat, tid: nat)
      requires recorder.Valid()
      modifies recorder
      ensures recorder.Valid() && recorder.inFlight == old(recorder.inFlight)
      ensures recorder.Settings() == old(recorder.Settings())
      ensures recorder.recorded == old(recorder.recorded) + [EventOf(DurationBeginCall(category, name, key, value), ts, pid, tid)]
      ensures recorder.AppendedFrom(old(recorder.eventBuffer), old(recorder.drained),
                                    EventOf(DurationBeginCall(category, name, key, value), ts, pid, tid))
      ensures recorder.isOpen || recorder.out == old(recorder.out)
      ensures this.recorder == recorder && this.category == category && this.name == name
      ensures this.key == key && this.value == value && !ended
    {
      this.recorder := recorder;
      this.category := category;
      this.name := name;
      this.key := key;
      this.value := value;
      ended := false;
      new;
      recorder.DurationBegin(category, name, key, value, ts, pid, tid);
    }

    /** The destructor, which runs once. */
    method End(ts: int, pid: nat, tid: nat)
      requires recorder.Valid() && !ended
      modifies this, recorder
      ensures recorder.Valid() && recorder.inFlight == old(recorder.inFlight) && ended
      ensures recorder.Settings() == old(recorder.Settings())
      ensures recorder.recorded == old(recorder.recorded) + [EventOf(DurationEndCall(category, name, key, value), ts, pid, tid)]
      ensures recorder.AppendedFrom(old(recorder.eventBuffer), old(recorder.drained),
                                    EventOf(DurationEndCall(category, name, key, value), ts, pid, tid))
      ensures recorder.isOpen || recorder.out == old(recorder.out)
    {
      recorder.DurationEnd(category, name, key, value, ts, pid, tid);
      ended := true;
    }
  }

  /**
   * One record operation, as the macro layer dispatches it; the recorded
   * event is the call's event.
   */
  method RecordCall(recorder: Recorder, c: Call, ts: int, pid: nat, tid: nat)
    requires recorder.Valid()
    modifies recorder
    ensures recorder.Valid() && recorder.inFlight == old(recorder.inFlight)
    ensures recorder.Settings() == old(recorder.Settings())
    ensures recorder.recorded == old(recorder.recorded) + [EventOf(c, ts, pid, tid)]
    ensures recorder.AppendedFrom(old(recorder.eventBuffer), old(recorder.drained), EventOf(c, ts, pid, tid))
    ensures recorder.isOpen || recorder.out == old(recorder.out)
  {
    match c
    case DurationBeginCall(cat, n, k, v) => recorder.DurationBegin(cat, n, k, v, ts, pid, tid);
    case DurationEndCall(cat, n, k, v) => recorder.DurationEnd(cat, n, k, v, ts, pid, tid);
    case InstantCall(cat, n) => recorder.Instant(cat, n, ts, pid, tid);
    case CounterCall(cat, n, count) => recorder.Counter(cat, n, count, ts, pid, tid);
    case AsyncBeginCall(cat, n, id, k, v) => recorder.AsyncBegin(cat, n, id, k, v, ts, pid, tid);
    case AsyncStepCall(cat, n, id, step) => recorder.AsyncStep(cat, n, id, step, ts, pid, tid);
    case AsyncEndCall(cat, n, id, k, v) => recorder.AsyncEnd(cat, n, id, k, v, ts, pid, tid);
    case FlowStartCall(cat, n, id, k, v) => recorder.FlowStart(cat, n, id, k, v, ts, pid, tid);
    case FlowStepCall(cat, n, id, step) => recorder.FlowStep(cat, n, id, step, ts, pid, tid);
    case FlowFinishCall(cat, n, id, k, v) => recorder.FlowFinish(cat, n, id, k, v, ts, pid, tid);
    case MetadataCall(mn, mv) => recorder.Metadata(mn, mv, ts, pid, tid);
  }

  /**
   * A scope as `TRACER_SCOPE` opens it: the guard records the begin, the
   * scope's body records its own calls, and leaving the scope records the
   * end with the arguments captured at the start — exactly one end for the
   * one begin, around everything the body recorded.
   */
  method TraceScope(recorder: Recorder, category: string, name: string, key: string, value: ArgValue,
                    tsBegin: int, body: seq<(Call, int)>, tsEnd: int, pid: nat, tid: nat)
    requires recorder.Valid()
    modifies recorder
    ensures recorder.Valid() && recorder.inFlight == old(recorder.inFlight)
    ensures recorder.Settings() == old(recorder.Settings())
    ensures recorder.recorded == old(recorder.recorded)
      + [EventOf(DurationBeginCall(category, name, key, value), tsBegin, pid, tid)]
      + EventsOf(body, pid, tid)
      + [EventOf(DurationEndCall(category, name, key, value), tsEnd, pid, tid)]
    ensures (recorder.eventBuffer, recorder.drained)
         == RecordAll((old(recorder.eventBuffer), old(recorder.drained)),
                      [EventOf(DurationBeginCall(category, name, key, value), tsBegin, pid, tid)]
                      + EventsOf(body, pid, tid)
                      + [EventOf(DurationEndCall(category, name, key, value), tsEnd, pid, tid)])
    ensures recorder.isOpen || recorder.out == old(recorder.out)
  {
    ghost var state0 := (recorder.eventBuffer, recorder.drained);
    var begin := EventOf(DurationBeginCall(category, name, key, value), tsBegin, pid, tid);
    var end := EventOf(DurationEndCall(category, name, key, value), tsEnd, pid, tid);
    var scope := new ScopedTrace(recorder, category, name, key, value, tsBegin, pid, tid);
    ghost var state1 := (recorder.eventBuffer, recorder.drained);
    RecordCalls(recorder, body, pid, tid);
    ghost var state2 := (recorder.eventBuffer, recorder.drained);
    scope.End(tsEnd, pid, tid);
    RecordAllOne(state0, begin);
    RecordAllOne(state2, end);
    RecordAllAppend(state0, [begin], EventsOf(body, pid, tid));
    RecordAllAppend(state0, [begin] + EventsOf(body, pid, tid), [end]);
  }

  /** The calls of a scope's body, recorded one after the other, in order. */
  method RecordCalls(recorder: Recorder, body: seq<(Call, int)>, pid: nat, tid: nat)
    requires recorder.Valid()
    modifies recorder
    ensures recorder.Valid() && recorder.inFlight == old(recorder.inFlight)
    ensures recorder.Settings() == old(recorder.Settings())
    ensures recorder.recorded == old(recorder.recorded) + EventsOf(body, pid, tid)
    ensures (recorder.eventBuffer, recorder.drained)
         == RecordAll((old(recorder.eventBuffer), old(recorder.drained)), EventsOf(body, pid, tid))
    ensures recorder.isOpen || recorder.out == old(recorder.out)
  {
    ghost var state0 := (recorder.eventBuffer, recorder.drained);
    var i := 0;
    while i < |body|
      invariant 0 <= i <= |body|
      invariant recorder.Valid() && recorder.inFlight == old(recorder.inFlight)
      invariant recorder.Settings() == old(recorder.Settings())
      invariant recorder.recorded == old(recorder.recorded) + EventsOf(body[..i], pid, tid)
      invariant (recorder.eventBuffer, recorder.drained) == RecordAll(state0, EventsOf(body[..i], pid, tid))
      invariant recorder.isOpen || recorder.out == old(recorder.out)
    {
      var ev := EventOf(body[i].0, body[i].1, pid, tid);
      RecordCall(recorder, body[i].0, body[i].1, pid, tid);
      assert EventsOf(body[..i + 1], pid, tid) == EventsOf(body[..i], pid, tid) + [ev];
      RecordAllSnoc(state0, EventsOf(body[..i], pid, tid), ev);
      i := i + 1;
    }
    assert body[..i] == body;
  }

  /** Recording one more event is one more `RecordStep`. */
  lemma RecordAllSnoc(state: (seq<Event>, seq<Event>), events: seq<Event>, e: Event)
    ensures RecordAll(state, events + [e]) == RecordStep(RecordAll(state, events), e)
  {
    assert (events + [e])[..|events|] == events;
  }

  /** Recording a single event is one `RecordStep`. */
  lemma RecordAllOne(state: (seq<Event>, seq<Event>), e: Event)
    ensures RecordAll(state, [e]) == RecordStep(state, e)
  {
    RecordAllSnoc(state, [], e);
    assert [] + [e] == [e];
  }

  /** Recording `a` and then `b` has the effect of recording `a + b`. */
  lemma {:induction false} RecordAllAppend(state: (seq<Event>, seq<Event>), a: seq<Event>, b: seq<Event>)
    ensures RecordAll(state, a + b) == RecordAll(RecordAll(state, a), b)
    decreases |b|
  {
    if b == [] {
      assert a + b == a;
    } else {
      var n := |b| - 1;
      assert b == b[..n] + [b[n]];
      assert a + b == (a + b[..n]) + [b[n]];
      RecordAllSnoc(state, a + b[..n], b[n]);
      RecordAllAppend(state, a, b[..n]);
      RecordAllSnoc(RecordAll(state, a), b[..n], b[n]);
    }
  }
}
