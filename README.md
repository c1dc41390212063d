# tracer.hpp in Dafny

A model of `tracer.hpp`, a header-only C++ event tracer. The tracer buffers
events in memory and writes them to a JSON file in the Chrome Trace Event
Format. The model covers:

- the `Event` record and the record operations: durations, instants,
  counters, async and flow events, and metadata;
- `processEvent`, which counts itself in flight, appends to the event
  buffer and calls `flush()` when the buffer reaches 1,000,000 events. As
  written, that call never returns (see Findings). The model's
  `processEvent` drains the full buffer instead;
- `flush`, which waits for the in-flight counter to reach zero, swaps the
  buffer out and writes one JSON object per event, separated by `",\n"`,
  with a `std::call_once` flag that keeps the separator away from the very
  first object;
- `init` (header) and the destructor (final flush, footer, close);
- `getIdStr` and the `std::to_string` / `std::hex` renderings;
- `ScopedTrace`, which records a begin on construction and an end on
  destruction.

Files:

- `wrappers.dfy`: `Option`.
- `text.dfy` (module `Text`): decimal and hex numerals and the readers that
  invert them.
- `events.dfy` (module `Events`):
  - the `Event` record, the phase codes, and the event each record
    operation builds;
  - `getIdStr`, the object written for one event, and a reader for that
    object layout, used to prove that nothing is lost.
- `tracer.dfy` (module `Tracer`):
  - the `Recorder` class, which holds the tracer's mutable state:
    - `eventBuffer`, the text written to the file, the `firstEntry`
      once-flag, whether the stream is open, `isTracing` and `timeOffset`;
    - ghost history: what was recorded, what was drained, and the
      in-flight counter of the flush barrier;
  - the whole-file layout and its read-back;
  - the `ScopedTrace` guard;
  - the deadlock finding.

Time, process id and thread id are parameters of every record operation
(the source reads a clock, `getpid()` and a hash of the thread id). The
correlation id is an opaque `nat`, with 0 for the null pointer. The output
file is a `string` field. `init` replaces it with the header, and drains
and the destructor append to it.

What the code writes, and the model with it:

- The `id` member is written for every event, as `"0x0"` when the id is
  null.
- `args` is left out when an event has no argument.
- The `args` member is written as `"args": {` with a space.
- No string is escaped.

## Model

| member | source | states |
|---|---|---|
| Text.Decimal | tracer.hpp:171 | signed `std::to_string`: never empty, and it starts with a minus sign exactly when the number is negative (its digits are `Numeral`'s; `ReadIntOf` reads it back) |
| Text.Numeral | tracer.hpp:169-171 | `std::to_string` of a non-negative number is a non-empty run of decimal digits with no leading zero (just "0" for zero) |
| Text.NumeralValue | tracer.hpp:169-171 | reading a printed numeral's digits gives back the number printed |
| Text.NumeralInjective | tracer.hpp:270 | two numbers print the same numeral (decimal or `std::hex`) exactly when they are equal |
| Text.NumeralOfValue | tracer.hpp:169-171 | every canonical digit string is the numeral of its value, so printing is onto the canonical numerals |
| Text.ReadIntOf | tracer.hpp:171 | the signed `ts - timeOffset` field, minus sign included, reads back as the same integer and stops at the next non-digit |
| Text.ReadNatOf | tracer.hpp:169-170 | the `pid` and `tid` fields (and the hex digits of the id) read back as the same number |
| Text.SplitAtOf | tracer.hpp:168 | a string without a double quote, printed between quotes, is recovered by cutting at the next quote |
| Events.Code | tracer.hpp:85-150 | the phase character each operation passes to `processEvent`; the reader's decoding maps it back to the phase |
| Events.EventOf | tracer.hpp:85-150 | the event each record operation hands to `processEvent`: the code of its phase and the caller's time, pid and tid, and its phase code is one of the async or flow codes `b n e s t f` exactly when the operation takes a correlation id |
| Events.CodeDecodes | tracer.hpp:85-150 | the eleven phase codes B E i C b n e s t f M are pairwise distinct: a code decodes to a phase exactly when it is that phase's code |
| Events.EventOfStamps | tracer.hpp:85-150 | each record operation stamps the code of its own phase, the caller's time, pid and tid, and a non-null id only for the async and flow operations, which take one |
| Events.EventOfArguments | tracer.hpp:85-150 | counter: its value under the counter's own name. Step operations: the step label under "step". Metadata: empty category, null id, value under "name". Instant: no argument. Templated operations: the caller's key and value |
| Events.IdStr | tracer.hpp:265-275 | `getIdStr` prints "0x" and the lower-case hex digits of the id, and "0x0" for null agrees with that form |
| Events.IdStrInjective | tracer.hpp:265-275 | distinct ids print differently and equal ids alike |
| Events.ArgsStr | tracer.hpp:176-188 | the `args` member is empty exactly when the event carries no argument; otherwise it starts with the comma and ends with the closing brace (read back by `ArgsRoundTrip`) |
| Events.SerializeEvent | tracer.hpp:166-190 | the object written for one event, the concatenation of `Pieces`; its layout is stated by `SerializeNested` and its read-back by `SerializeRoundTrip` |
| Events.SerializeNested | tracer.hpp:166-190 | an event's object is `{"cat":…,"pid":…,"tid":…,"ts":…,"ph":…,"name":…,"id":…` then the optional `args` member and `}`, in that order |
| Events.ArgsRoundTrip | tracer.hpp:176-188 | the `args` member reads back as the event's key and integer or string value, and is absent exactly when the event carries no argument |
| Events.IntArgReadsBack | tracer.hpp:179-182 | an integer argument `"args": {"k":n}` reads back as key k and value n |
| Events.StrArgReadsBack | tracer.hpp:183-186 | a string argument `"args": {"k":"v"}` without quotes in k or v reads back as key k and value v |
| Events.ParseObjectsOf | tracer.hpp:166-169 | the object's opening, `cat` and `pid` read back as written |
| Events.ParseFromTidOf | tracer.hpp:170-171 | `tid` and `ts` (relative to the time origin) read back as written |
| Events.ParseFromPhOf | tracer.hpp:172-173 | the phase character and the name read back as written |
| Events.ParseFromIdOf | tracer.hpp:174-190 | the id, the optional `args` member and the closing brace read back as written |
| Events.SerializeRoundTrip | tracer.hpp:166-190 | an event whose strings hold no double quote reads back from its object field for field, with `ts` shifted by the time origin, and the reader continues right after the object |
| Events.EventRoundTrip | tracer.hpp:166-190 | a single event's object reads back as exactly that event's record |
| Events.UnescapedQuotesCollide | tracer.hpp:168-185 | strings are written without escaping, so two different events can produce the same object |
| Events.CounterReadsBack | tracer.hpp:104-107 | `counter("main", "greebles", 5)` reads back as a `C` event with one argument `greebles: 5` |
| Tracer.Entries | tracer.hpp:164-167 | the text a drain writes for a batch, each object preceded by ",\n" except the first one the recorder ever writes; related to a plain join by `EntriesIsJoin` and across drains by `EntriesAppend` |
| Tracer.Objects | tracer.hpp:164-192 | the drain writes one object per buffered event |
| Tracer.ObjectsAppend | tracer.hpp:164-192 | the objects of two batches written one after the other are the objects of the joined batch, in order |
| Tracer.EntriesIsJoin | tracer.hpp:164-167 | a drained batch is its objects joined by ",\n", each exactly once and in order, with one more separator in front once any object has been written |
| Tracer.EntriesAppend | tracer.hpp:164-167 | draining in several batches writes the same text as one drain of all the events: the once-flag drops only the very first separator |
| Tracer.EntriesSnoc | tracer.hpp:164-191 | one more loop iteration appends that event's separator and object to the text |
| Tracer.WriteEntry | tracer.hpp:164-191 | after i iterations the stream holds the text of the batch's first i objects |
| Tracer.FileGrows | tracer.hpp:152-193 | writing a drained batch keeps the file equal to the header plus the objects of every event drained since the file was opened |
| Tracer.ParseEntries | tracer.hpp:164-191 | objects separated by ",\n" read back, in order, as the list of their records |
| Tracer.ParseBatch | tracer.hpp:164-191 | the text of a drained batch reads back as the records of the batch's events, in order |
| Tracer.DocumentRoundTrip | tracer.hpp:78-83 | a file written by init, drains that start with the first object, and the destructor reads back as the records of the drained events, in order (`[]` when none) |
| Tracer.EarlyDrainBreaksDocument | tracer.hpp:164-167 | if events are drained before `init`, the once-flag is already spent, the file's first object follows a stray ",\n", and the file does not read back |
| Tracer.ProcessEventAsWritten | tracer.hpp:239-258 | the source's `processEvent`, as written: it never returns exactly when the event brings the buffer to 1,000,000, and otherwise appends the event |
| Tracer.FullBufferBlocks | tracer.hpp:239-258 | as written, a run of record calls appends each event and returns until the call that brings the buffer to 1,000,000, which calls `flush()` while counted in flight and never returns |
| Tracer.MillionthCallBlocks | tracer.hpp:239-258 | as written, from an empty buffer the first 999,999 calls of any run return and the 1,000,000th blocks |
| Tracer.RecordStep | tracer.hpp:251-255 | recording one event into (buffer, drained history): below 1,000,000 nothing is drained and the event goes at the end of the buffer; the event that fills the buffer drains all of it, itself included. No event is lost or reordered, and the buffer stays below 1,000,000 |
| Tracer.RecordAll | tracer.hpp:251-255 | recording events one after the other: the drained history followed by the buffer is the old one followed by the events, and the buffer stays below its size |
| Tracer.RecordAllAppend | tracer.hpp:251-255 | recording `a` and then `b` leaves the buffer and history as recording `a + b` does |
| Tracer.Recorder.constructor | tracer.hpp:206-210 | a new recorder has an empty buffer, no file, tracing off and the given time origin |
| Tracer.Recorder.Init | tracer.hpp:78-83 | init opens the file afresh with just the header and sets `isTracing`. The buffer, the once-flag and the time origin are left as they are |
| Tracer.Recorder.Drain | tracer.hpp:154-192 | the drain empties the buffer, moves its events to the drained history in order, and appends their entries to the file if it is open. Otherwise the text is lost |
| Tracer.Recorder.WriteBatch | tracer.hpp:164-192 | the loop writes each event's entry in order and sets the once-flag if it wrote anything |
| Tracer.Recorder.Flush | tracer.hpp:152-193 | flush starts only with no record operation in flight, then drains: buffer emptied, entries written, nothing recorded lost |
| Tracer.Recorder.ProcessEvent | tracer.hpp:239-258 | the event is appended to the recorded history and to the buffer. When the buffer reaches its size, the whole buffer is drained. The buffer stays below 1,000,000 and the in-flight count returns to its old value |
| Tracer.Recorder.DurationBegin | tracer.hpp:85-90 | records the `B` event of the call |
| Tracer.Recorder.DurationEnd | tracer.hpp:92-97 | records the `E` event of the call |
| Tracer.Recorder.Instant | tracer.hpp:99-102 | records the `i` event of the call, with no argument |
| Tracer.Recorder.Counter | tracer.hpp:104-107 | records the `C` event, with the count under the counter's name |
| Tracer.Recorder.AsyncBegin | tracer.hpp:109-114 | records the `b` event with the caller's id |
| Tracer.Recorder.AsyncStep | tracer.hpp:116-119 | records the `n` event with the step under "step" |
| Tracer.Recorder.AsyncEnd | tracer.hpp:121-126 | records the `e` event with the caller's id |
| Tracer.Recorder.FlowStart | tracer.hpp:128-133 | records the `s` event with the caller's id |
| Tracer.Recorder.FlowStep | tracer.hpp:135-138 | records the `t` event with the step under "step" |
| Tracer.Recorder.FlowFinish | tracer.hpp:140-145 | records the `f` event with the caller's id |
| Tracer.Recorder.Metadata | tracer.hpp:147-150 | records the `M` event with empty category and the value under "name" |
| Tracer.Recorder.Close | tracer.hpp:195-203 | if the file is open: a final flush and the footer. The file is then exactly the header, the entries of every event drained since it was opened, and the footer. The time origin, `isTracing` and the file's start are kept. Otherwise nothing changes |
| Tracer.RecordCall | tracer.hpp:15-54 | a record macro records exactly its call's event, with the buffer and drained history as `RecordStep` gives them, and the file unchanged unless it is open |
| Tracer.ScopeEventsPair | tracer.hpp:281-293 | the begin and end of a scope share category, name, key, value and the null id, with phases B and E |
| Tracer.ScopedTrace.constructor | tracer.hpp:284-288 | the guard captures its arguments and records the `B` event, with the buffer and drained history as `RecordStep` gives them |
| Tracer.ScopedTrace.End | tracer.hpp:290-293 | the destructor records the `E` event with the captured arguments, with the buffer and drained history as `RecordStep` gives them |
| Tracer.RecordCalls | tracer.hpp:19 | the calls in a scope's body are recorded in order; the buffer and drained history are `RecordAll` of their events |
| Tracer.TraceScope | tracer.hpp:19 | a traced scope records its begin, then everything its body records, then exactly one matching end; the buffer and drained history are `RecordAll` of those events, and the file changes only if it is open |

## Left out

- Threads, the mutexes, the atomic counter and `flushCV`: the model is
  sequential. The flush barrier is a ghost count of record operations in
  flight, and `Flush` and `Close` require it to be zero.
- The clock (`getTime`), `getpid()` and `gettid()` are parameters.
- The singleton and its `std::call_once` creation: one `Recorder` instance
  stands for it.
- `reserve`, which only affects capacity, is not modelled.
- `flushBuffer` is a local of `Drain`. The source keeps it as a member, but
  nothing reads it between flushes.
- Output stream failures are not modelled. A stream that is not open drops
  its writes.
- The demo programs `minitrace_test.cpp` and `minitrace_test_mt.cpp` are
  not part of this model.
- Integer widths: `pid` (`uint32_t`), `tid` (`unsigned long`), the id
  pointer width, `ts` and `timeOffset` (`int64_t`) and the `int` counter are
  unbounded. The `int64_t` subtraction `ts - timeOffset` is assumed not to
  overflow.
- `isTracing`: set by `Init`, read nowhere, as in the source.
- String escaping: the source escapes nothing, and neither does the model.
  The read-back lemmas use a reader of the object layout, not a JSON reader,
  and require strings without double quotes;
  `Events.UnescapedQuotesCollide` shows what goes wrong otherwise.
- Valid JSON: a backslash or a control character (a newline, say) in a
  category, name, key or string value also makes the file invalid JSON.
  The layout reader reads such strings back unchanged, so the read-back
  lemmas do not exclude them, and no lemma states that the file is JSON.
- The compile-time template parameter `T` becomes the `ArgValue` variant.
  The `void *` alternative is `NoArg`, and so is any `T` other than `int`
  and `std::string` (a string literal's `const char *`, `long`, `double`),
  whose value the source discards.
- Tracer.ScopedTrace: the source class does not delete its copy
  constructor, so a copied guard would run a second destructor and record a
  second `E`. The model's `ended` flag, and `TraceScope`'s single end, hold
  for the one named guard the macro declares.
- Tracer.Recorder.WriteBatch: the loop builds the text in a local copy and
  stores it in the field at the end, rather than writing to the stream on
  each iteration.
- Tracer.Recorder.ProcessEvent: drains directly when the buffer fills,
  where the source calls `flush()` and deadlocks (see Findings).
- Tracer.TraceScope: the body's calls are a list of stamped record
  operations. Arbitrary code in the scope is not modelled.

## Findings

| source | as written | input that shows it | evidently intended | confidence | as-written member | corrected member |
|---|---|---|---|---|---|---|
| tracer.hpp:254-255 | `processEvent` calls `flush()` while its own increment of `eventsInProgress` (line 242) is still counted. `flush()` waits at line 156 for the count to reach zero, and `flushCV` is never notified | any record call that brings the buffer to 1,000,000 events | the full buffer is drained and the call returns | high; not executed | Tracer.FullBufferBlocks | Tracer.Recorder.ProcessEvent |
