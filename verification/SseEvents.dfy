/** The SSE event decoder (libs/sdk-py/langgraph_sdk/sse.py) on top of the line splitter.
    Event names and ids are kept as their UTF-8 bytes, data as the bytes handed to the JSON parser. */
module SseEvents {
  import opened Prelude
  import opened SseLines

  const COLON: Byte := 58
  const SPACE: Byte := 32
  const NUL: Byte := 0
  const EVENT: Bytes := [101, 118, 101, 110, 116]
  const DATA: Bytes := [100, 97, 116, 97]
  const ID: Bytes := [105, 100]
  const RETRY: Bytes := [114, 101, 116, 114, 121]

  datatype StreamPart = StreamPart(event: Bytes, data: Option<Bytes>, id: Option<Bytes>)

  /** The fields of the decoder between two lines. */
  datatype Fields = Fields(event: Bytes, data: Bytes, lastId: Bytes, retry: Option<int>)

  /** Python's `int(...)` on the bytes of a retry field: None stands for ValueError. */
  type IntParser = Bytes -> Option<int>

  function NonEmpty(b: Bytes): Option<Bytes> {
    if b == [] then None else Some(b)
  }

  /** `line.partition(b":")`, as the position of the first colon. */
  function ColonAt(line: Bytes): (i: nat)
    ensures i <= |line| && (i < |line| ==> line[i] == COLON)
    ensures forall j :: 0 <= j < i ==> line[j] != COLON
  {
    if line == [] || line[0] == COLON then 0 else 1 + ColonAt(line[1..])
  }

  function FieldName(line: Bytes): Bytes { line[..ColonAt(line)] }

  function FieldValue(line: Bytes): Bytes {
    var i := ColonAt(line);
    if i == |line| then []
    else if |line| > i + 1 && line[i + 1] == SPACE then line[i + 2..]
    else line[i + 1..]
  }

  /** How a decoder folds one line into its fields. */
  type Reader = (Fields, Bytes) -> Fields

  /** What one non-empty line does to the fields; comments start with the colon. */
  function ReadField(parse: IntParser, f: Fields, line: Bytes): Fields {
    var name, value := FieldName(line), FieldValue(line);
    if name == EVENT then f.(event := value)
    else if name == DATA then f.(data := f.data + value)
    else if name == ID then (if NUL in value then f else f.(lastId := value))
    else if name == RETRY then (if parse(value).Some? then f.(retry := parse(value)) else f)
    else f
  }

  predicate Idle(f: Fields) {
    f.event == [] && f.data == [] && f.lastId == [] && f.retry == None
  }

  function Dispatch(f: Fields): seq<StreamPart> {
    if Idle(f) then [] else [StreamPart(f.event, NonEmpty(f.data), NonEmpty(f.lastId))]
  }

  /** Between two events only the last id is carried over. */
  function Fresh(lastId: Bytes): Fields { Fields([], [], lastId, None) }

  function Reads(parse: IntParser): Reader {
    (f: Fields, line: Bytes) => if line == [] then Fresh(f.lastId) else ReadField(parse, f, line)
  }

  function After(read: Reader, f: Fields, lines: seq<Bytes>): Fields
    decreases |lines|
  {
    if lines == [] then f else After(read, read(f, lines[0]), lines[1..])
  }

  /** The parts dispatched for a list of lines: one empty line, at most one part. */
  function Parts(read: Reader, f: Fields, lines: seq<Bytes>): seq<StreamPart>
    decreases |lines|
  {
    if lines == [] then []
    else (if lines[0] == [] then Dispatch(f) else []) + Parts(read, read(f, lines[0]), lines[1..])
  }

  lemma {:induction false} PartsConcat(read: Reader, f: Fields, xs: seq<Bytes>, ys: seq<Bytes>)
    ensures Parts(read, f, xs + ys) == Parts(read, f, xs) + Parts(read, After(read, f, xs), ys)
    ensures After(read, f, xs + ys) == After(read, After(read, f, xs), ys)
    decreases |xs|
  {
    if xs == [] {
      assert xs + ys == ys;
    } else {
      assert (xs + ys)[1..] == xs[1..] + ys;
      PartsConcat(read, read(f, xs[0]), xs[1..], ys);
    }
  }

  // ------------------------------------------------------------------ decoder

  class SSEDecoder {
    const parse: IntParser
    var event: Bytes
    var data: Bytes
    var lastEventId: Bytes
    var retry: Option<int>

    constructor (parse: IntParser)
      ensures this.parse == parse && State() == Fresh([])
    {
      this.parse := parse;
      event, data, lastEventId, retry := [], [], [], None;
    }

    function State(): Fields
      reads this
    {
      Fields(event, data, lastEventId, retry)
    }

    method Decode(line: Bytes) returns (part: Option<StreamPart>)
      modifies this
      ensures part == if line == [] && !Idle(old(State())) then Some(Dispatch(old(State()))[0]) else None
      ensures State() == Reads(parse)(old(State()), line)
    {
      if line == [] {
        if event == [] && data == [] && lastEventId == [] && retry == None {
          return None;
        }
        part := Some(StreamPart(event, NonEmpty(data), NonEmpty(lastEventId)));
        event, data, retry := [], [], None;
        return;
      }
      part := None;
      if line[0] == COLON {
        return;
      }
      var name, value := FieldName(line), FieldValue(line);
      if name == EVENT {
        event := value;
      } else if name == DATA {
        data := data + value;
      } else if name == ID {
        if NUL !in value {
          lastEventId := value;
        }
      } else if name == RETRY {
        var n := parse(value);
        if n.Some? {
          retry := n;
        }
      }
    }
  }

  /** Whether data reads as the JSON `null`, which the client cannot tell from no data. */
  type NullTest = Bytes -> bool

  /** The client keeps a part that has a name or data. */
  predicate Kept(nul: NullTest, p: StreamPart) { p.event != [] || (p.data.Some? && !nul(p.data.value)) }

  function Filter(nul: NullTest, parts: seq<StreamPart>): seq<StreamPart> {
    if parts == [] then []
    else (if Kept(nul, parts[0]) then [parts[0]] else []) + Filter(nul, parts[1..])
  }

  lemma {:induction false} FilterConcat(nul: NullTest, xs: seq<StreamPart>, ys: seq<StreamPart>)
    ensures Filter(nul, xs + ys) == Filter(nul, xs) + Filter(nul, ys)
  {
    if xs == [] {
      assert xs + ys == ys;
    } else {
      assert (xs + ys)[1..] == xs[1..] + ys;
      FilterConcat(nul, xs[1..], ys);
      Regroup(if Kept(nul, xs[0]) then [xs[0]] else [], Filter(nul, xs[1..]), Filter(nul, ys));
    }
  }

  /** The parts of a whole body; the client ends it with one more empty line. */
  function BodyParts(parse: IntParser, nul: NullTest, body: Bytes): seq<StreamPart> {
    Filter(nul, Parts(Reads(parse), Fresh([]), SplitLines(body) + [[]]))
  }

  /** The client's loop over a chunked body depends on the body only, not on the cuts. */
  method StreamParts(parse: IntParser, nul: NullTest, chunks: seq<Bytes>) returns (parts: seq<StreamPart>)
    ensures parts == BodyParts(parse, nul, Flatten(chunks))
  {
    var decoder := new SSEDecoder(parse);
    ghost var read := Reads(parse);
    var lines := IterLinesRaw(chunks);
    parts := [];
    for i := 0 to |lines|
      invariant decoder.parse == parse
      invariant parts == Filter(nul, Parts(read, Fresh([]), lines[..i]))
      invariant decoder.State() == After(read, Fresh([]), lines[..i])
    {
      NextPart(read, nul, lines[..i], lines[i]);
      assert lines[..i + 1] == lines[..i] + [lines[i]];
      var kept := Receive(decoder, nul, lines[i]);
      parts := parts + kept;
    }
    assert lines[..|lines|] == lines;
    NextPart(read, nul, lines, []);
    var kept := Receive(decoder, nul, []);
    parts := parts + kept;
  }

  /** Decodes one line and keeps its part if it is worth keeping. */
  method Receive(decoder: SSEDecoder, nul: NullTest, line: Bytes) returns (kept: seq<StreamPart>)
    modifies decoder
    ensures kept == Filter(nul, if line == [] then Dispatch(old(decoder.State())) else [])
    ensures decoder.State() == Reads(decoder.parse)(old(decoder.State()), line)
  {
    var part := decoder.Decode(line);
    kept := if part.Some? && Kept(nul, part.value) then [part.value] else [];
  }

  lemma NextPart(read: Reader, nul: NullTest, lines: seq<Bytes>, line: Bytes)
    ensures var f := After(read, Fresh([]), lines);
            Parts(read, Fresh([]), lines + [line]) ==
            Parts(read, Fresh([]), lines) + (if line == [] then Dispatch(f) else [])
    ensures var f := After(read, Fresh([]), lines);
            Filter(nul, Parts(read, Fresh([]), lines + [line])) ==
            Filter(nul, Parts(read, Fresh([]), lines)) + Filter(nul, if line == [] then Dispatch(f) else [])
    ensures After(read, Fresh([]), lines + [line]) == read(After(read, Fresh([]), lines), line)
  {
    PartsConcat(read, Fresh([]), lines, [line]);
    FilterConcat(nul, Parts(read, Fresh([]), lines), Parts(read, After(read, Fresh([]), lines), [line]));
  }

  // ------------------------------------------------------- locality of events

  /** The value of the last usable id field, or else the id carried in. */
  function LastId(carried: Bytes, lines: seq<Bytes>): Bytes
    decreases |lines|
  {
    if lines == [] then carried
    else LastId(if lines[0] != [] && FieldName(lines[0]) == ID && NUL !in FieldValue(lines[0])
                then FieldValue(lines[0]) else carried, lines[1..])
  }

  lemma {:induction false} AfterLastId(parse: IntParser, f: Fields, lines: seq<Bytes>)
    ensures After(Reads(parse), f, lines).lastId == LastId(f.lastId, lines)
    decreases |lines|
  {
    if lines != [] {
      AfterLastId(parse, Reads(parse)(f, lines[0]), lines[1..]);
    }
  }

  /** Behind an empty line nothing of the earlier text matters but the last id. */
  lemma BlockIndependence(parse: IntParser, f: Fields, before: seq<Bytes>, behind: seq<Bytes>)
    ensures var read := Reads(parse);
            Parts(read, f, before + [[]] + behind) ==
            Parts(read, f, before + [[]]) + Parts(read, Fresh(LastId(f.lastId, before)), behind)
  {
    var read := Reads(parse);
    PartsConcat(read, f, before + [[]], behind);
    PartsConcat(read, f, before, [[]]);
    AfterLastId(parse, f, before);
  }

  // --------------------------------------------------------------- round trip

  /** A message as a server writes it: an optional id, a name, and any number of data lines. */
  datatype Message = Message(name: Bytes, data: seq<Bytes>, id: Option<Bytes>)

  ghost predicate Printable(m: Message) {
    && m.name != [] && Clean(m.name)
    && (forall d :: d in m.data ==> Clean(d))
    && (m.id.Some? ==> Clean(m.id.value) && NUL !in m.id.value)
  }

  function Field(name: Bytes, value: Bytes): Bytes { name + [COLON, SPACE] + value }

  function DataLines(data: seq<Bytes>): (r: seq<Bytes>) {
    if data == [] then [] else [Field(DATA, data[0])] + DataLines(data[1..])
  }

  function MessageLines(m: Message): seq<Bytes> {
    (if m.id.Some? then [Field(ID, m.id.value)] else []) + [Field(EVENT, m.name)] + DataLines(m.data) + [[]]
  }

  function AllLines(ms: seq<Message>): seq<Bytes> {
    if ms == [] then [] else MessageLines(ms[0]) + AllLines(ms[1..])
  }

  /** What the client is to receive: the data lines glued together, the id carried forward. */
  function Received(ms: seq<Message>, lastId: Bytes): seq<StreamPart> {
    if ms == [] then []
    else
      var id := if ms[0].id.Some? then ms[0].id.value else lastId;
      [StreamPart(ms[0].name, NonEmpty(Flatten(ms[0].data)), NonEmpty(id))] + Received(ms[1..], id)
  }

  lemma ReadBack(name: Bytes, value: Bytes)
    requires COLON !in name
    ensures FieldName(Field(name, value)) == name && FieldValue(Field(name, value)) == value
  {
    var line := Field(name, value);
    var i := ColonAt(line);
    assert line[|name|] == COLON;
    assert forall j :: 0 <= j < |name| ==> line[j] == name[j];
    assert line[..|name|] == name && line[|name| + 2..] == value;
  }

  /** A line is cut at its first colon, and of the text behind it one leading space is dropped; a line
      without a colon is all name. */
  lemma FieldParsed(name: Bytes, text: Bytes)
    requires COLON !in name
    ensures FieldName(name) == name && FieldValue(name) == []
    ensures FieldName(name + [COLON] + text) == name
    ensures (text == [] || text[0] != SPACE) ==> FieldValue(name + [COLON] + text) == text
    ensures FieldValue(name + [COLON] + [SPACE] + text) == text
  {
    assert name[..|name|] == name;
    var line, spaced := name + [COLON] + text, name + [COLON] + [SPACE] + text;
    assert line[|name|] == COLON && spaced[|name|] == COLON;
    assert forall j :: 0 <= j < |name| ==> line[j] == name[j] && spaced[j] == name[j];
    assert ColonAt(line) == |name| && ColonAt(spaced) == |name|;
    assert line[..|name|] == name && line[|name| + 1..] == text;
    assert spaced[|name| + 1] == SPACE && spaced[|name| + 2..] == text;
    assert text != [] ==> line[|name| + 1] == text[0];
  }

  /** All that the round trip needs to know about reading a line. */
  ghost predicate UnderstandsFields(read: Reader) {
    && (forall f: Fields :: read(f, []) == Fresh(f.lastId))
    && (forall f: Fields, v: Bytes :: read(f, Field(EVENT, v)) == f.(event := v))
    && (forall f: Fields, v: Bytes :: read(f, Field(DATA, v)) == f.(data := f.data + v))
    && (forall f: Fields, v: Bytes :: NUL !in v ==> read(f, Field(ID, v)) == f.(lastId := v))
  }

  lemma DecoderUnderstandsFields(parse: IntParser)
    ensures UnderstandsFields(Reads(parse))
  {
    var read := Reads(parse);
    forall f: Fields, v: Bytes
      ensures read(f, Field(EVENT, v)) == f.(event := v)
    {
      ReadBack(EVENT, v);
    }
    forall f: Fields, v: Bytes
      ensures read(f, Field(DATA, v)) == f.(data := f.data + v)
    {
      ReadBack(DATA, v);
    }
    forall f: Fields, v: Bytes | NUL !in v
      ensures read(f, Field(ID, v)) == f.(lastId := v)
    {
      ReadBack(ID, v);
    }
  }

  lemma {:induction false} NoEmptyLineNoPart(read: Reader, f: Fields, lines: seq<Bytes>)
    requires [] !in lines
    ensures Parts(read, f, lines) == []
    decreases |lines|
  {
    if lines != [] {
      NoEmptyLineNoPart(read, read(f, lines[0]), lines[1..]);
    }
  }

  lemma AfterCons(read: Reader, f: Fields, line: Bytes, lines: seq<Bytes>)
    ensures After(read, f, [line] + lines) == After(read, read(f, line), lines)
  {
    assert ([line] + lines)[1..] == lines;
  }

  lemma {:induction false} AfterData(read: Reader, f: Fields, data: seq<Bytes>)
    requires UnderstandsFields(read)
    ensures After(read, f, DataLines(data)) == f.(data := f.data + Flatten(data))
    ensures [] !in DataLines(data)
    decreases |data|
  {
    if data == [] {
      assert f.data + [] == f.data;
    } else {
      AfterData(read, f.(data := f.data + data[0]), data[1..]);
      AfterCons(read, f, Field(DATA, data[0]), DataLines(data[1..]));
      Regroup(f.data, data[0], Flatten(data[1..]));
    }
  }

  lemma OneLine(read: Reader, f: Fields, line: Bytes)
    ensures After(read, f, [line]) == read(f, line)
    ensures Parts(read, f, [line]) == if line == [] then Dispatch(f) else []
  {
    assert [line][1..] == [];
  }

  lemma {:induction false} MessageParts(read: Reader, m: Message, lastId: Bytes)
    requires UnderstandsFields(read)
    requires Printable(m)
    ensures var id := if m.id.Some? then m.id.value else lastId;
            Parts(read, Fresh(lastId), MessageLines(m)) == Received([m], lastId) &&
            After(read, Fresh(lastId), MessageLines(m)) == Fresh(id)
  {
    var ids := if m.id.Some? then [Field(ID, m.id.value)] else [];
    var id := if m.id.Some? then m.id.value else lastId;
    if m.id.Some? {
      OneLine(read, Fresh(lastId), Field(ID, id));
    }
    var named := Fields(m.name, [], id, None);
    OneLine(read, Fresh(id), Field(EVENT, m.name));
    PartsConcat(read, Fresh(lastId), ids, [Field(EVENT, m.name)]);
    PartsConcat(read, Fresh(lastId), ids + [Field(EVENT, m.name)], DataLines(m.data));
    AfterData(read, named, m.data);
    NoEmptyLineNoPart(read, named, DataLines(m.data));
    assert [] + Flatten(m.data) == Flatten(m.data);
    PartsConcat(read, Fresh(lastId), ids + [Field(EVENT, m.name)] + DataLines(m.data), [[]]);
  }

  function IdAfter(ms: seq<Message>, lastId: Bytes): Bytes
    decreases |ms|
  {
    if ms == [] then lastId else IdAfter(ms[1..], if ms[0].id.Some? then ms[0].id.value else lastId)
  }

  lemma {:induction false} AllParts(read: Reader, ms: seq<Message>, lastId: Bytes)
    requires UnderstandsFields(read)
    requires forall m :: m in ms ==> Printable(m)
    ensures Parts(read, Fresh(lastId), AllLines(ms)) == Received(ms, lastId)
    ensures After(read, Fresh(lastId), AllLines(ms)) == Fresh(IdAfter(ms, lastId))
    decreases |ms|
  {
    if ms != [] {
      var id := if ms[0].id.Some? then ms[0].id.value else lastId;
      MessageParts(read, ms[0], lastId);
      PartsConcat(read, Fresh(lastId), MessageLines(ms[0]), AllLines(ms[1..]));
      AllParts(read, ms[1..], id);
      ReceivedCons(ms, lastId);
    }
  }

  lemma ReceivedCons(ms: seq<Message>, lastId: Bytes)
    requires ms != []
    ensures var id := if ms[0].id.Some? then ms[0].id.value else lastId;
            Received(ms, lastId) == Received([ms[0]], lastId) + Received(ms[1..], id)
  {}

  lemma {:induction false} ReceivedKept(nul: NullTest, ms: seq<Message>, lastId: Bytes)
    requires forall m :: m in ms ==> m.name != []
    ensures Filter(nul, Received(ms, lastId)) == Received(ms, lastId)
    decreases |ms|
  {
    if ms != [] {
      ReceivedKept(nul, ms[1..], if ms[0].id.Some? then ms[0].id.value else lastId);
    }
  }

  /** Whatever terminators the server uses and however the body is cut, the client gets the
      messages back in order. */
  lemma RoundTrip(parse: IntParser, nul: NullTest, ms: seq<Message>, ends: seq<Eol>, chunks: seq<Bytes>)
    requires forall m :: m in ms ==> Printable(m)
    requires |ends| == |AllLines(ms)| && Unambiguous(AllLines(ms), ends)
    requires Flatten(chunks) == Render(AllLines(ms), ends)
    ensures BodyParts(parse, nul, Flatten(chunks)) == Received(ms, [])
  {
    var read, lines := Reads(parse), AllLines(ms);
    DecoderUnderstandsFields(parse);
    AllLinesClean(ms);
    SplitRender(lines, ends);
    AllParts(read, ms, []);
    PartsConcat(read, Fresh([]), lines, [[]]);
    FilterConcat(nul, Parts(read, Fresh([]), lines), Parts(read, After(read, Fresh([]), lines), [[]]));
    ReceivedKept(nul, ms, []);
  }

  lemma {:induction false} AllLinesClean(ms: seq<Message>)
    requires forall m :: m in ms ==> Printable(m)
    ensures forall l :: l in AllLines(ms) ==> Clean(l)
  {
    if ms != [] {
      var m := ms[0];
      assert Printable(m);
      DataLinesClean(m.data);
      FieldClean(EVENT, m.name);
      if m.id.Some? {
        FieldClean(ID, m.id.value);
      }
      AllLinesClean(ms[1..]);
    }
  }

  lemma FieldClean(name: Bytes, value: Bytes)
    requires Clean(name) && Clean(value)
    ensures Clean(Field(name, value)) && Field(name, value) != []
  {}

  lemma {:induction false} DataLinesClean(data: seq<Bytes>)
    requires forall d :: d in data ==> Clean(d)
    ensures forall l :: l in DataLines(data) ==> Clean(l)
  {
    if data != [] {
      DataLinesClean(data[1..]);
      FieldClean(DATA, data[0]);
    }
  }

  /** One style of terminator throughout is never ambiguous. */
  lemma UniformEnds(lines: seq<Bytes>, ends: seq<Eol>)
    requires |lines| == |ends|
    requires forall i, j :: 0 <= i < j < |ends| ==> ends[i] == ends[j]
    ensures Unambiguous(lines, ends)
  {
    forall i | 0 <= i < |lines| - 1 && ends[i] == Cr
      ensures ends[i + 1] != Lf
    {
      assert ends[i] == ends[i + 1];
    }
  }

  // --------------------------------------------------- deviations of the code

  /** Data lines joined as section 9.2.6 of the HTML Living Standard asks, with LF between them. */
  function JoinLf(data: seq<Bytes>): Bytes {
    if data == [] then [] else if |data| == 1 then data[0] else data[0] + [LF] + JoinLf(data[1..])
  }

  /** The decoder glues data lines without LF: it agrees with the standard on at most one line. */
  lemma {:induction false} DataJoin(data: seq<Bytes>)
    ensures |JoinLf(data)| == |Flatten(data)| + (if data == [] then 0 else |data| - 1)
    ensures Flatten(data) == JoinLf(data) <==> |data| <= 1
  {
    if |data| > 1 {
      DataJoin(data[1..]);
    } else if |data| == 1 {
      assert Flatten(data) == data[0] + Flatten<Byte>([]);
    }
  }

  /** Where the decoder holds no data, it dispatches exactly when it holds a name or a retry time, or an
      id was ever seen; the client drops the part unless named. */
  lemma EmptyDataDispatch(read: Reader, nul: NullTest, f: Fields)
    requires f.data == []
    ensures Parts(read, f, [[]]) != [] <==> f.event != [] || f.retry.Some? || f.lastId != []
    ensures Filter(nul, Parts(read, f, [[]])) != [] <==> f.event != []
  {
    assert Parts(read, f, [[]]) == Dispatch(f) + Parts(read, Fresh(f.lastId), []);
    assert Dispatch(f) + [] == Dispatch(f);
    if !Idle(f) {
      var p := Dispatch(f)[0];
      assert Filter(nul, [p]) == (if Kept(nul, p) then [p] else []) + Filter(nul, []);
    }
  }
}
