/**
 * The event record of the tracer, the record operations that build it, and
 * the text each event becomes in the output file (one JSON object of the
 * Chrome Trace Event Format per event).
 */
module Events {
  import opened Wrappers
  import opened Text

  /**
   * The argument value of an event: the `std::variant<int, std::string, void *>`
   * of the source, where the `void *` alternative (left by the `nullptr`
   * default) means the event carries no argument.
   */
  datatype ArgValue = IntArg(i: int) | StrArg(s: string) | NoArg

  /**
   * One recorded event, field for field as the source's `Event`. The
   * correlation id is an opaque token: 0 stands for the null pointer.
   */
  datatype Event = Event(
    name: string,
    category: string,
    id: nat,
    ts: int,
    pid: nat,
    tid: nat,
    phase: char,
    argName: string,
    argValue: ArgValue)

  /** The semantic phases of the record operations. */
  datatype Phase =
    | DurationBegin | DurationEnd | Instant | Counter
    | AsyncBegin | AsyncStep | AsyncEnd
    | FlowStart | FlowStep | FlowFinish
    | Metadata

  /** The phase code of the Chrome Trace Event Format. */
  function Code(p: Phase): (c: char)
    ensures PhaseOfCode(c) == Some(p)
  {
    match p
    case DurationBegin => 'B'
    case DurationEnd => 'E'
    case Instant => 'i'
    case Counter => 'C'
    case AsyncBegin => 'b'
    case AsyncStep => 'n'
    case AsyncEnd => 'e'
    case FlowStart => 's'
    case FlowStep => 't'
    case FlowFinish => 'f'
    case Metadata => 'M'
  }

  /** What the layout reader reads back from a phase code. */
  function PhaseOfCode(c: char): Option<Phase> {
    match c
    case 'B' => Some(DurationBegin)
    case 'E' => Some(DurationEnd)
    case 'i' => Some(Instant)
    case 'C' => Some(Counter)
    case 'b' => Some(AsyncBegin)
    case 'n' => Some(AsyncStep)
    case 'e' => Some(AsyncEnd)
    case 's' => Some(FlowStart)
    case 't' => Some(FlowStep)
    case 'f' => Some(FlowFinish)
    case 'M' => Some(Metadata)
    case _ => None
  }

  /** Each phase has its own code, and a code names at most one phase. */
  lemma CodeDecodes(p: Phase, c: char)
    ensures PhaseOfCode(c) == Some(p) <==> Code(p) == c
  {
    match p
    case DurationBegin =>
    case DurationEnd =>
    case Instant =>
    case Counter =>
    case AsyncBegin =>
    case AsyncStep =>
    case AsyncEnd =>
    case FlowStart =>
    case FlowStep =>
    case FlowFinish =>
    case Metadata =>
  }

  /**
   * A call of one of the public record operations with its arguments. For the
   * templated operations `value` is what the template argument `T` selects:
   * `IntArg` for `int`, `StrArg` for `std::string`, `NoArg` for the default
   * `void *` (the key is then stored but never printed). Any other `T`
   * (`const char *` from a literal, `long`, `double`) is discarded too: the
   * call carries `NoArg`.
   */
  datatype Call =
    | DurationBeginCall(category: string, name: string, key: string, value: ArgValue)
    | DurationEndCall(category: string, name: string, key: string, value: ArgValue)
    | InstantCall(category: string, name: string)
    | CounterCall(category: string, name: string, count: int)
    | AsyncBeginCall(category: string, name: string, id: nat, key: string, value: ArgValue)
    | AsyncStepCall(category: string, name: string, id: nat, step: string)
    | AsyncEndCall(category: string, name: string, id: nat, key: string, value: ArgValue)
    | FlowStartCall(category: string, name: string, id: nat, key: string, value: ArgValue)
    | FlowStepCall(category: string, name: string, id: nat, step: string)
    | FlowFinishCall(category: string, name: string, id: nat, key: string, value: ArgValue)
    | MetadataCall(metadataName: string, metadataValue: string)

  function PhaseOf(c: Call): Phase {
    match c
    case DurationBeginCall(_, _, _, _) => DurationBegin
    case DurationEndCall(_, _, _, _) => DurationEnd
    case InstantCall(_, _) => Instant
    case CounterCall(_, _, _) => Counter
    case AsyncBeginCall(_, _, _, _, _) => AsyncBegin
    case AsyncStepCall(_, _, _, _) => AsyncStep
    case AsyncEndCall(_, _, _, _, _) => AsyncEnd
    case FlowStartCall(_, _, _, _, _) => FlowStart
    case FlowStepCall(_, _, _, _) => FlowStep
    case FlowFinishCall(_, _, _, _, _) => FlowFinish
    case MetadataCall(_, _) => Metadata
  }

  /** Whether the operation takes a correlation id (the async and flow families). */
  predicate Correlated(c: Call) {
    c.AsyncBeginCall? || c.AsyncStepCall? || c.AsyncEndCall? ||
    c.FlowStartCall? || c.FlowStepCall? || c.FlowFinishCall?
  }

  /** Whether the operation takes a caller-chosen key and value (the templated ones). */
  predicate Templated(c: Call) {
    c.DurationBeginCall? || c.DurationEndCall? || c.AsyncBeginCall? || c.AsyncEndCall? ||
    c.FlowStartCall? || c.FlowFinishCall?
  }

  /**
   * The event a record operation hands to `processEvent`, stamped with the
   * time, process and thread of the call.
   */
  function EventOf(c: Call, ts: int, pid: nat, tid: nat): (r: Event)
    ensures r.phase == Code(PhaseOf(c))
    ensures r.ts == ts && r.pid == pid && r.tid == tid
    ensures Correlated(c) <==> r.phase in "bnestf"
  {
    match c
    case DurationBeginCall(cat, name, key, value) => Event(name, cat, 0, ts, pid, tid, 'B', key, value)
    case DurationEndCall(cat, name, key, value) => Event(name, cat, 0, ts, pid, tid, 'E', key, value)
    case InstantCall(cat, name) => Event(name, cat, 0, ts, pid, tid, 'i', "", NoArg)
    case CounterCall(cat, name, count) => Event(name, cat, 0, ts, pid, tid, 'C', name, IntArg(count))
    case AsyncBeginCall(cat, name, id, key, value) => Event(name, cat, id, ts, pid, tid, 'b', key, value)
    case AsyncStepCall(cat, name, id, step) => Event(name, cat, id, ts, pid, tid, 'n', "step", StrArg(step))
    case AsyncEndCall(cat, name, id, key, value) => Event(name, cat, id, ts, pid, tid, 'e', key, value)
    case FlowStartCall(cat, name, id, key, value) => Event(name, cat, id, ts, pid, tid, 's', key, value)
    case FlowStepCall(cat, name, id, step) => Event(name, cat, id, ts, pid, tid, 't', "step", StrArg(step))
    case FlowFinishCall(cat, name, id, key, value) => Event(name, cat, id, ts, pid, tid, 'f', key, value)
    case MetadataCall(metadataName, v) => Event(metadataName, "", 0, ts, pid, tid, 'M', "name", StrArg(v))
  }

  /**
   * Every operation stamps its event with the code of its own phase, with the
   * caller's time, process and thread, and with a non-null id only when it is
   * an async or flow operation that was given one.
   */
  lemma EventOfStamps(c: Call, ts: int, pid: nat, tid: nat)
    ensures var e := EventOf(c, ts, pid, tid);
      && PhaseOfCode(e.phase) == Some(PhaseOf(c))
      && e.ts == ts && e.pid == pid && e.tid == tid
      && (Correlated(c) ==> e.id == c.id)
      && (!Correlated(c) ==> e.id == 0)
  {
    CodeDecodes(PhaseOf(c), EventOf(c, ts, pid, tid).phase);
  }

  /** `getIdStr`: "0x0" for the null id, otherwise "0x" and the lower-case hex digits. */
  function IdStr(id: nat): (s: string)
    ensures s == "0x" + Numeral(id, 16)
  {
    if id != 0 then "0x" + Numeral(id, 16) else "0x0"
  }

  /** Equal ids print alike and distinct ids print differently. */
  lemma IdStrInjective(a: nat, b: nat)
    ensures IdStr(a) == IdStr(b) <==> a == b
  {
    if IdStr(a) == IdStr(b) {
      assert IdStr(a)[2..] == Numeral(a, 16) && IdStr(b)[2..] == Numeral(b, 16);
      NumeralInjective(a, b, 16);
    }
  }

  /** The `args` member that the `std::visit` appends: nothing when there is no argument. */
  function ArgsStr(e: Event): (r: string)
    ensures r == "" <==> e.argValue.NoArg?
    ensures r != "" ==> r[0] == ',' && r[|r| - 1] == '}'
  {
    match e.argValue
    case IntArg(n) => ",\"args\": {\"" + e.argName + "\":" + Decimal(n) + "}"
    case StrArg(v) => ",\"args\": {\"" + e.argName + "\":\"" + v + "\"}"
    case NoArg => ""
  }

  /**
   * The pieces the drain appends to an event's text, in order; `timeOffset` is
   * the recorder's time origin.
   */
  function Pieces(e: Event, timeOffset: int): seq<string> {
    ["{\"cat\":\"", e.category,
     "\",\"pid\":", Numeral(e.pid, 10),
     ",\"tid\":", Numeral(e.tid, 10),
     ",\"ts\":", Decimal(e.ts - timeOffset),
     ",\"ph\":\"", [e.phase],
     "\",\"name\":\"", e.name,
     "\",\"id\":\"", IdStr(e.id), "\"",
     ArgsStr(e),
     "}"]
  }

  /** The JSON object written for one event: its pieces, concatenated. */
  function SerializeEvent(e: Event, timeOffset: int): string {
    Concat(Pieces(e, timeOffset))
  }

  /** The object written for an event, spelled out piece by piece. */
  lemma SerializeNested(e: Event, timeOffset: int)
    ensures SerializeEvent(e, timeOffset) ==
      "{\"cat\":\"" + (e.category +
      ("\",\"pid\":" + (Numeral(e.pid, 10) +
      (",\"tid\":" + (Numeral(e.tid, 10) +
      (",\"ts\":" + (Decimal(e.ts - timeOffset) +
      (",\"ph\":\"" + ([e.phase] +
      ("\",\"name\":\"" + (e.name +
      ("\",\"id\":\"" + (IdStr(e.id) + ("\"" +
      (ArgsStr(e) +
      "}")))))))))))))))
  {
    Concat17(Pieces(e, timeOffset));
  }

  /** Seventeen pieces concatenated, nested to the right. */
  lemma Concat17(p: seq<string>)
    requires |p| == 17
    ensures Concat(p) == p[0] + (p[1] + (p[2] + (p[3] + (p[4] + (p[5] + (p[6] + (p[7] + (p[8] + (p[9] + (p[10] + (p[11] + (p[12] + (p[13] + (p[14] + (p[15] + (p[16]))))))))))))))))
  {
    assert p[17..] == [];
    assert p[16] + [] == p[16];
    ConcatSuffix(p, 16);
    ConcatSuffix(p, 15);
    ConcatSuffix(p, 14);
    ConcatSuffix(p, 13);
    ConcatSuffix(p, 12);
    ConcatSuffix(p, 11);
    ConcatSuffix(p, 10);
    ConcatSuffix(p, 9);
    ConcatSuffix(p, 8);
    ConcatSuffix(p, 7);
    ConcatSuffix(p, 6);
    ConcatSuffix(p, 5);
    ConcatSuffix(p, 4);
    ConcatSuffix(p, 3);
    ConcatSuffix(p, 2);
    ConcatSuffix(p, 1);
    ConcatSuffix(p, 0);
    assert p[0..] == p;
  }

  /**
   * What the layout reader reads from one event object: the fields as written,
   * `ts` relative to the time origin. The reader takes a string to run up to
   * the next double quote and decodes no escapes, so it is not a JSON reader.
   */
  datatype Record = Record(
    cat: string,
    pid: nat,
    tid: nat,
    ts: int,
    ph: char,
    name: string,
    id: nat,
    args: Option<(string, ArgValue)>)

  /** The record an event should read back as: an argument is visible only when the event carries one. */
  function View(e: Event, timeOffset: int): Record {
    Record(e.category, e.pid, e.tid, e.ts - timeOffset, e.phase, e.name, e.id,
           if e.argValue.NoArg? then None else Some((e.argName, e.argValue)))
  }

  /** No string field that gets printed contains a double quote (the source escapes nothing). */
  predicate QuoteFree(e: Event) {
    && '"' !in e.category
    && '"' !in e.name
    && (!e.argValue.NoArg? ==> '"' !in e.argName)
    && (e.argValue.StrArg? ==> '"' !in e.argValue.s)
  }

  /** Reads the optional `args` member written by `ArgsStr`. */
  function ParseArgs(s: string): (r: Option<(Option<(string, ArgValue)>, string)>)
    ensures r.Some? ==> |r.value.1| <= |s|
  {
    if "}" <= s then Some((None, s))
    else
      var r0 :- Lit(",\"args\": {\"", s);
      var (key, r1) := SplitAt(r0, '"');
      var r2 :- Lit("\":", r1);
      if r2 != [] && r2[0] == '"' then
        var (v, r3) := SplitAt(r2[1..], '"');
        var r4 :- Lit("\"}", r3);
        Some((Some((key, StrArg(v))), r4))
      else
        var n :- ReadInt(r2);
        var r4 :- Lit("}", n.1);
        Some((Some((key, IntArg(n.0))), r4))
  }

  /**
   * Reads event objects in the exact layout `SerializeEvent` writes,
   * separated by ",\n", and returns their records and the text after the
   * last object. The reader descends member by member: `ParseFromCat` reads
   * an object's opening, `cat` and `pid`, the next three parts read the
   * other members, and `ParseMore` decides whether another object follows.
   */
  function ParseObjects(s: string): (r: Option<(seq<Record>, string)>)
    ensures r.Some? ==> |r.value.1| < |s|
    decreases |s|, 1
  {
    ParseFromCat(s)
  }

  /**
   * Reads an object's opening brace, `cat` and `pid`. Kept apart from
   * `ParseObjects` so that a mention of `ParseObjects` in a contract does not
   * unfold the whole reader, which keeps the proofs about lists small.
   */
  function ParseFromCat(s: string): (r: Option<(seq<Record>, string)>)
    ensures r.Some? ==> |r.value.1| < |s|
    decreases |s|, 0
  {
    var r0 :- Lit("{\"cat\":\"", s);
    var (cat, r1) := SplitAt(r0, '"');
    var r2 :- Lit("\",\"pid\":", r1);
    var pid :- ReadNat(r2, 10);
    ParseFromTid(Record(cat, pid.0, 0, 0, ' ', "", 0, None), pid.1)
  }

  /** Reads `tid` and `ts` into the partly read record `rec`. */
  function ParseFromTid(rec: Record, s: string): (r: Option<(seq<Record>, string)>)
    ensures r.Some? ==> |r.value.1| < |s|
    decreases |s|, 0
  {
    var r0 :- Lit(",\"tid\":", s);
    var tid :- ReadNat(r0, 10);
    var r1 :- Lit(",\"ts\":", tid.1);
    var ts :- ReadInt(r1);
    ParseFromPh(rec.(tid := tid.0, ts := ts.0), ts.1)
  }

  /** Reads `ph` and `name`. */
  function ParseFromPh(rec: Record, s: string): (r: Option<(seq<Record>, string)>)
    ensures r.Some? ==> |r.value.1| < |s|
    decreases |s|, 0
  {
    var r0 :- Lit(",\"ph\":\"", s);
    if r0 == [] then None
    else
      var r1 :- Lit("\",\"name\":\"", r0[1..]);
      var (name, r2) := SplitAt(r1, '"');
      ParseFromId(rec.(ph := r0[0], name := name), r2)
  }

  /** Reads `id`, the optional `args` and the closing brace. */
  function ParseFromId(rec: Record, s: string): (r: Option<(seq<Record>, string)>)
    ensures r.Some? ==> |r.value.1| < |s|
    decreases |s|, 0
  {
    var r0 :- Lit("\",\"id\":\"0x", s);
    var id :- ReadNat(r0, 16);
    var r1 :- Lit("\"", id.1);
    var args :- ParseArgs(r1);
    var r2 :- Lit("}", args.1);
    ParseMore(rec.(id := id.0, args := args.0), r2)
  }

  /** After the object read as `rec`: more objects when ",\n" follows, otherwise the end of the list. */
  function ParseMore(rec: Record, s: string): (r: Option<(seq<Record>, string)>)
    ensures r.Some? ==> |r.value.1| <= |s|
    decreases |s|, 0
  {
    if ",\n" <= s then
      var more :- ParseObjects(s[2..]);
      Some(([rec] + more.0, more.1))
    else
      Some(([rec], s))
  }

  /** Reads a text that is exactly one event object. */
  function ParseEvent(s: string): Option<Record> {
    var objects :- ParseObjects(s);
    if objects.1 == [] && |objects.0| == 1 then Some(objects.0[0]) else None
  }

  lemma ArgsRoundTrip(e: Event, rest: string)
    requires QuoteFree(e)
    ensures ParseArgs(ArgsStr(e) + ("}" + rest)) == Some((View(e, 0).args, "}" + rest))
  {
    var s := ArgsStr(e) + ("}" + rest);
    match e.argValue
    case NoArg =>
      assert s == "}" + rest;
    case IntArg(n) =>
      var a, k, d, r := ",\"args\": {\"", e.argName, Decimal(n), "}" + rest;
      AppendAssoc(a + k + "\":" + d, "}", r);
      AppendAssoc(a + k + "\":", d, "}" + r);
      AppendAssoc(a + k, "\":", d + ("}" + r));
      AppendAssoc(a, k, "\":" + (d + ("}" + r)));
      IntArgReadsBack(e.argName, n, "}" + rest);
    case StrArg(v) =>
      var a, k, r := ",\"args\": {\"", e.argName, "}" + rest;
      AppendAssoc(a + k + "\":\"" + v, "\"}", r);
      AppendAssoc(a + k + "\":\"", v, "\"}" + r);
      AppendAssoc(a + k, "\":\"", v + ("\"}" + r));
      AppendAssoc(a, k, "\":\"" + (v + ("\"}" + r)));
      StrArgReadsBack(e.argName, v, "}" + rest);
  }

  /** An integer argument is read back with its key. */
  lemma IntArgReadsBack(key: string, n: int, rest: string)
    requires '"' !in key
    ensures ParseArgs(",\"args\": {\"" + (key + ("\":" + (Decimal(n) + ("}" + rest)))))
         == Some((Some((key, IntArg(n))), rest))
  {
    var r2 := Decimal(n) + ("}" + rest);
    var s := ",\"args\": {\"" + (key + ("\":" + r2));
    assert s[0] == ',';
    SplitAtOf(key, '"', "\":" + r2);
    ReadIntOf(n, "}" + rest);
  }

  /** A string argument with no double quote in it is read back with its key. */
  lemma StrArgReadsBack(key: string, v: string, rest: string)
    requires '"' !in key && '"' !in v
    ensures ParseArgs(",\"args\": {\"" + (key + ("\":\"" + (v + ("\"}" + rest)))))
         == Some((Some((key, StrArg(v))), rest))
  {
    var r2 := "\"" + (v + ("\"}" + rest));
    var s := ",\"args\": {\"" + (key + ("\":\"" + (v + ("\"}" + rest))));
    assert s == ",\"args\": {\"" + (key + ("\":" + r2));
    assert s[0] == ',';
    SplitAtOf(key, '"', "\":" + r2);
    assert r2[0] == '"' && r2[1..] == v + ("\"}" + rest);
    SplitAtOf(v, '"', "\"}" + rest);
  }

  lemma ParseObjectsOf(cat: string, pid: nat, tail: string)
    requires '"' !in cat
    requires tail == [] || tail[0] == ','
    ensures ParseObjects("{\"cat\":\"" + (cat + ("\",\"pid\":" + (Numeral(pid, 10) + tail))))
         == ParseFromTid(Record(cat, pid, 0, 0, ' ', "", 0, None), tail)
  {
    var s := "{\"cat\":\"" + (cat + ("\",\"pid\":" + (Numeral(pid, 10) + tail)));
    assert ParseObjects(s) == ParseFromCat(s);
    SplitAtOf(cat, '"', "\",\"pid\":" + (Numeral(pid, 10) + tail));
    ReadNatOf(pid, 10, tail);
  }

  lemma ParseFromTidOf(rec: Record, tid: nat, ts: int, tail: string, s: string)
    requires tail == [] || tail[0] == ','
    requires s == ",\"tid\":" + (Numeral(tid, 10) + (",\"ts\":" + (Decimal(ts) + tail)))
    ensures ParseFromTid(rec, s) == ParseFromPh(rec.(tid := tid, ts := ts), tail)
  {
    ReadNatOf(tid, 10, ",\"ts\":" + (Decimal(ts) + tail));
    ReadIntOf(ts, tail);
  }

  lemma ParseFromPhOf(rec: Record, ph: char, name: string, tail: string)
    requires '"' !in name
    requires tail == [] || tail[0] == '"'
    ensures ParseFromPh(rec, ",\"ph\":\"" + ([ph] + ("\",\"name\":\"" + (name + tail))))
         == ParseFromId(rec.(ph := ph, name := name), tail)
  {
    var r0 := [ph] + ("\",\"name\":\"" + (name + tail));
    assert r0[0] == ph && r0[1..] == "\",\"name\":\"" + (name + tail);
    SplitAtOf(name, '"', tail);
  }

  lemma ParseFromIdOf(rec: Record, e: Event, rest: string)
    requires QuoteFree(e)
    ensures ParseFromId(rec, "\",\"id\":\"" + (IdStr(e.id) + ("\"" + (ArgsStr(e) + ("}" + rest)))))
         == ParseMore(rec.(id := e.id, args := View(e, 0).args), rest)
  {
    var tail := "\"" + (ArgsStr(e) + ("}" + rest));
    assert "\",\"id\":\"" + (IdStr(e.id) + tail) == "\",\"id\":\"0x" + (Numeral(e.id, 16) + tail);
    ReadNatOf(e.id, 16, tail);
    ArgsRoundTrip(e, rest);
  }

  /**
   * Round trip: an event whose printed strings hold no double quote is read
   * back from its object exactly, with `ts` relative to the time origin, and
   * the reader goes on with the text after the object.
   */
  lemma SerializeRoundTrip(e: Event, timeOffset: int, rest: string)
    requires QuoteFree(e)
    ensures ParseObjects(SerializeEvent(e, timeOffset) + rest) == ParseMore(View(e, timeOffset), rest)
  {
    var t4, t8, t12 := SerializeSplit(e, timeOffset, rest);
    var r0 := Record(e.category, e.pid, 0, 0, ' ', "", 0, None);
    ParseObjectsOf(e.category, e.pid, t4);
    assert ParseObjects(SerializeEvent(e, timeOffset) + rest) == ParseFromTid(r0, t4);
    ParseAfterPid(e, timeOffset, t4, t8, t12, rest);
  }

  /** The reader's parts after `pid` take up the rest of an event's fields. */
  lemma ParseAfterPid(e: Event, timeOffset: int, t4: string, t8: string, t12: string, rest: string)
    requires QuoteFree(e)
    requires t4 == ",\"tid\":" + (Numeral(e.tid, 10) + (",\"ts\":" + (Decimal(e.ts - timeOffset) + t8)))
    requires t8 == ",\"ph\":\"" + ([e.phase] + ("\",\"name\":\"" + (e.name + t12)))
    requires t12 == "\",\"id\":\"" + (IdStr(e.id) + ("\"" + (ArgsStr(e) + ("}" + rest))))
    requires t8[0] == ',' && t12[0] == '"'
    ensures ParseFromTid(Record(e.category, e.pid, 0, 0, ' ', "", 0, None), t4)
         == ParseMore(View(e, timeOffset), rest)
  {
    var r0 := Record(e.category, e.pid, 0, 0, ' ', "", 0, None);
    var r1 := r0.(tid := e.tid, ts := e.ts - timeOffset);
    ParseFromTidOf(r0, e.tid, e.ts - timeOffset, t8, t4);
    ParseAfterTs(e, timeOffset, t8, t12, rest);
  }

  /** The reader's parts after `ts` take up `ph`, `name`, `id` and `args`. */
  lemma ParseAfterTs(e: Event, timeOffset: int, t8: string, t12: string, rest: string)
    requires QuoteFree(e)
    requires t8 == ",\"ph\":\"" + ([e.phase] + ("\",\"name\":\"" + (e.name + t12)))
    requires t12 == "\",\"id\":\"" + (IdStr(e.id) + ("\"" + (ArgsStr(e) + ("}" + rest))))
    requires t12[0] == '"'
    ensures ParseFromPh(Record(e.category, e.pid, e.tid, e.ts - timeOffset, ' ', "", 0, None), t8)
         == ParseMore(View(e, timeOffset), rest)
  {
    var r1 := Record(e.category, e.pid, e.tid, e.ts - timeOffset, ' ', "", 0, None);
    var r2 := r1.(ph := e.phase, name := e.name);
    ParseFromPhOf(r1, e.phase, e.name, t12);
    assert ParseFromPh(r1, t8) == ParseFromId(r2, t12);
    ParseFromIdOf(r2, e, rest);
    assert r2.(id := e.id, args := View(e, 0).args) == View(e, timeOffset);
    assert ParseFromId(r2, t12) == ParseMore(View(e, timeOffset), rest);
  }

  /**
   * An event's object followed by `rest`, cut where each of the reader's
   * parts starts: at `tid`, at `ph` and at `id`.
   */
  lemma SerializeSplit(e: Event, timeOffset: int, rest: string) returns (t4: string, t8: string, t12: string)
    ensures SerializeEvent(e, timeOffset) + rest
         == "{\"cat\":\"" + (e.category + ("\",\"pid\":" + (Numeral(e.pid, 10) + t4)))
    ensures t4 == ",\"tid\":" + (Numeral(e.tid, 10) + (",\"ts\":" + (Decimal(e.ts - timeOffset) + t8)))
    ensures t8 == ",\"ph\":\"" + ([e.phase] + ("\",\"name\":\"" + (e.name + t12)))
    ensures t12 == "\",\"id\":\"" + (IdStr(e.id) + ("\"" + (ArgsStr(e) + ("}" + rest))))
    ensures t4[0] == ',' && t8[0] == ',' && t12[0] == '"'
  {
    // the suffixes of the object, from its last piece back to the whole
    var s16 := "}";
    var s15 := ArgsStr(e) + s16;
    var s14 := "\"" + s15;
    var s13 := IdStr(e.id) + s14;
    var s12 := "\",\"id\":\"" + s13;
    var s11 := e.name + s12;
    var s10 := "\",\"name\":\"" + s11;
    var s9 := [e.phase] + s10;
    var s8 := ",\"ph\":\"" + s9;
    var s7 := Decimal(e.ts - timeOffset) + s8;
    var s6 := ",\"ts\":" + s7;
    var s5 := Numeral(e.tid, 10) + s6;
    var s4 := ",\"tid\":" + s5;
    var s3 := Numeral(e.pid, 10) + s4;
    var s2 := "\",\"pid\":" + s3;
    var s1 := e.category + s2;
    var s0 := "{\"cat\":\"" + s1;
    SerializeNested(e, timeOffset);
    assert SerializeEvent(e, timeOffset) == s0;
    t4, t8, t12 := s4 + rest, s8 + rest, s12 + rest;
    // `rest` moves inside, one piece at a time
    AppendAssoc("{\"cat\":\"", s1, rest);
    AppendAssoc(e.category, s2, rest);
    AppendAssoc("\",\"pid\":", s3, rest);
    AppendAssoc(Numeral(e.pid, 10), s4, rest);
    AppendAssoc(",\"tid\":", s5, rest);
    AppendAssoc(Numeral(e.tid, 10), s6, rest);
    AppendAssoc(",\"ts\":", s7, rest);
    AppendAssoc(Decimal(e.ts - timeOffset), s8, rest);
    AppendAssoc(",\"ph\":\"", s9, rest);
    AppendAssoc([e.phase], s10, rest);
    AppendAssoc("\",\"name\":\"", s11, rest);
    AppendAssoc(e.name, s12, rest);
    AppendAssoc("\",\"id\":\"", s13, rest);
    AppendAssoc(IdStr(e.id), s14, rest);
    AppendAssoc("\"", s15, rest);
    AppendAssoc(ArgsStr(e), s16, rest);
  }

  /** A text that is one event object reads back as that event. */
  lemma EventRoundTrip(e: Event, timeOffset: int)
    requires QuoteFree(e)
    ensures ParseEvent(SerializeEvent(e, timeOffset)) == Some(View(e, timeOffset))
  {
    SerializeRoundTrip(e, timeOffset, "");
    assert SerializeEvent(e, timeOffset) + "" == SerializeEvent(e, timeOffset);
  }

  /**
   * Strings are written without escaping, so a double quote in an argument
   * lets two different events print the same object: the key `a` with the
   * value `b":"c` reads exactly like the key `a":"b` with the value `c`.
   */
  lemma UnescapedQuotesCollide()
    ensures exists e1: Event, e2: Event :: e1 != e2 && SerializeEvent(e1, 0) == SerializeEvent(e2, 0)
  {
    var e1 := Event("n", "c", 0, 0, 1, 2, 'B', "a", StrArg("b\":\"c"));
    var e2 := e1.(argName := "a\":\"b", argValue := StrArg("c"));
    assert ArgsStr(e1) == ArgsStr(e2) == ",\"args\": {\"a\":\"b\":\"c\"}";
    assert e1 != e2 && SerializeEvent(e1, 0) == SerializeEvent(e2, 0);
  }

  /**
   * The arguments each record operation attaches: a counter is its own
   * argument, named after the event; the step operations attach the step
   * label under "step"; metadata has no category, a null id and its value
   * under "name"; an instant has none; the others pass key and value through.
   */
  lemma EventOfArguments(c: Call, ts: int, pid: nat, tid: nat)
    ensures var e := EventOf(c, ts, pid, tid);
      && (c.CounterCall? ==> e.name == c.name && e.argName == c.name && e.argValue == IntArg(c.count))
      && (c.AsyncStepCall? || c.FlowStepCall? ==> e.argName == "step" && e.argValue == StrArg(c.step))
      && (c.MetadataCall? ==> e.category == "" && e.id == 0 && e.name == c.metadataName
                              && e.argName == "name" && e.argValue == StrArg(c.metadataValue))
      && (c.InstantCall? ==> e.argValue == NoArg)
      && (Templated(c) ==> e.argName == c.key && e.argValue == c.value)
      && (!c.MetadataCall? ==> e.category == c.category && e.name == c.name)
  {
  }

  /**
   * `counter("main", "greebles", 5)` reads back as a `C` event whose only
   * argument is named after the counter and holds its value.
   */
  lemma CounterReadsBack(ts: int, pid: nat, tid: nat, timeOffset: int)
    ensures ParseEvent(SerializeEvent(EventOf(CounterCall("main", "greebles", 5), ts, pid, tid), timeOffset))
         == Some(Record("main", pid, tid, ts - timeOffset, 'C', "greebles", 0, Some(("greebles", IntArg(5)))))
  {
    var e := EventOf(CounterCall("main", "greebles", 5), ts, pid, tid);
    assert e == Event("greebles", "main", 0, ts, pid, tid, 'C', "greebles", IntArg(5));
    assert QuoteFree(e) by {
      assert '"' !in "main" && '"' !in "greebles";
    }
    EventRoundTrip(e, timeOffset);
    assert View(e, timeOffset) == Record("main", pid, tid, ts - timeOffset, 'C', "greebles", 0, Some(("greebles", IntArg(5))));
  }
}
