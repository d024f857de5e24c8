/** The event stream as the HTML Living Standard reads it (sections 9.2.5 and 9.2.6), and when the
    client (libs/sdk-py/langgraph_sdk/sse.py, _sync/http.py) reads it alike. */
module SseStandard {
  import opened Prelude
  import opened SseEvents
  import opened SseLines

  const BOM: Bytes := [239, 187, 191]

  // ------------------------------------------------------------- the standard

  /** The event type, data and last event id buffers. */
  datatype Buffers = Buffers(event: Bytes, data: Bytes, lastId: Bytes)

  /** One line that is not empty: every data line is followed by LF in the buffer. */
  function Process(b: Buffers, line: Bytes): Buffers {
    var name, value := FieldName(line), FieldValue(line);
    if name == EVENT then b.(event := value)
    else if name == DATA then b.(data := b.data + value + [LF])
    else if name == ID && NUL !in value then b.(lastId := value)
    else b
  }

  /** An empty line: nothing without data, else an event with the last LF removed. */
  function DispatchEvent(b: Buffers): seq<StreamPart> {
    if b.data == [] then []
    else [StreamPart(b.event, Some(b.data[..|b.data| - 1]), NonEmpty(b.lastId))]
  }

  /** What is pending when the lines end is discarded. */
  function Events(b: Buffers, lines: seq<Bytes>): seq<StreamPart>
    decreases |lines|
  {
    if lines == [] then []
    else if lines[0] == [] then DispatchEvent(b) + Events(Buffers([], [], b.lastId), lines[1..])
    else Events(Process(b, lines[0]), lines[1..])
  }

  function StandardLines(lastId: Bytes, lines: seq<Bytes>): seq<StreamPart> { Events(Buffers([], [], lastId), lines) }

  /** A leading byte order mark is dropped. */
  function StandardParts(body: Bytes): seq<StreamPart> {
    StandardLines([], SplitLines(if BOM <= body then body[|BOM|..] else body))
  }

  /** The client on a list of lines; it ends them with an empty line of its own. */
  function ClientLines(parse: IntParser, nul: NullTest, lastId: Bytes, lines: seq<Bytes>): seq<StreamPart> {
    Filter(nul, Parts(Reads(parse), Fresh(lastId), lines + [[]]))
  }

  // ------------------------------------------------------ blocks and their fields

  function FirstEmpty(lines: seq<Bytes>): (k: nat)
    ensures k <= |lines| && (k < |lines| ==> lines[k] == []) && [] !in lines[..k]
  {
    if lines == [] || lines[0] == [] then 0 else
      var k := 1 + FirstEmpty(lines[1..]);
      assert lines[..k] == [lines[0]] + lines[1..][..k - 1];
      k
  }

  /** The values of the fields of one name. */
  function Values(name: Bytes, lines: seq<Bytes>): seq<Bytes> {
    if lines == [] then []
    else (if FieldName(lines[0]) == name then [FieldValue(lines[0])] else []) + Values(name, lines[1..])
  }

  function LastOr(carried: Bytes, values: seq<Bytes>): Bytes {
    if values == [] then carried else values[|values| - 1]
  }

  /** The event name of a block. */
  function Name(block: seq<Bytes>): Bytes { LastOr([], Values(EVENT, block)) }

  /** Each value followed by LF. */
  function Terminated(values: seq<Bytes>): Bytes {
    if values == [] then [] else values[0] + [LF] + Terminated(values[1..])
  }

  lemma {:induction false} TerminatedIsJoin(values: seq<Bytes>)
    requires values != []
    ensures Terminated(values) == JoinLf(values) + [LF]
  {
    if |values| > 1 {
      TerminatedIsJoin(values[1..]);
      Regroup(values[0] + [LF], JoinLf(values[1..]), [LF]);
    } else {
      assert Terminated(values) == values[0] + [LF] + Terminated([]);
    }
  }

  lemma LastOrNext(carried: Bytes, value: Bytes, values: seq<Bytes>)
    ensures LastOr(value, values) == LastOr(carried, [value] + values)
  {}

  /** The decoder's fields behind a block. */
  lemma {:induction false} FieldsAfter(parse: IntParser, f: Fields, block: seq<Bytes>)
    requires [] !in block
    ensures var g := After(Reads(parse), f, block);
      && g.event == LastOr(f.event, Values(EVENT, block))
      && g.data == f.data + Flatten(Values(DATA, block))
      && g.lastId == LastId(f.lastId, block)
    decreases |block|
  {
    if block == [] {
      assert f.data + [] == f.data;
    } else {
      var line, g := block[0], ReadField(parse, f, block[0]);
      FieldsAfter(parse, g, block[1..]);
      LastOrNext(f.event, FieldValue(line), Values(EVENT, block[1..]));
      if FieldName(line) == DATA {
        Regroup(f.data, FieldValue(line), Flatten(Values(DATA, block[1..])));
        assert Values(DATA, block)[1..] == Values(DATA, block[1..]);
      } else {
        assert Values(DATA, block) == Values(DATA, block[1..]);
      }
      if FieldName(line) != EVENT {
        assert Values(EVENT, block) == Values(EVENT, block[1..]);
      }
    }
  }

  /** The standard's events, a block at a time. */
  lemma {:induction false} EventsOfBlock(b: Buffers, block: seq<Bytes>, rest: seq<Bytes>)
    requires [] !in block
    ensures var c := Buffers(LastOr(b.event, Values(EVENT, block)), b.data + Terminated(Values(DATA, block)),
                             LastId(b.lastId, block));
      Events(b, block + rest) == Events(c, rest)
    decreases |block|
  {
    if block == [] {
      assert block + rest == rest && b.data + [] == b.data;
    } else {
      var line, tail := block[0], block[1..];
      assert (block + rest)[0] == line && (block + rest)[1..] == tail + rest;
      EventsOfBlock(Process(b, line), tail, rest);
      LastOrNext(b.event, FieldValue(line), Values(EVENT, tail));
      if FieldName(line) == DATA {
        Regroup(b.data, FieldValue(line) + [LF], Terminated(Values(DATA, tail)));
        Regroup(b.data, FieldValue(line), [LF]);
        assert Values(DATA, block)[1..] == Values(DATA, tail);
      } else {
        assert Values(DATA, block) == Values(DATA, tail);
      }
      if FieldName(line) != EVENT {
        assert Values(EVENT, block) == Values(EVENT, tail);
      }
    }
  }

  // --------------------------------------------------------- one block, both ways

  function StandardOne(block: seq<Bytes>, lastId: Bytes): seq<StreamPart> {
    var d := Values(DATA, block);
    if d == [] then [] else [StreamPart(Name(block), Some(JoinLf(d)), NonEmpty(LastId(lastId, block)))]
  }

  function ClientOne(nul: NullTest, block: seq<Bytes>, lastId: Bytes): seq<StreamPart> {
    var x := Flatten(Values(DATA, block));
    if Name(block) == [] && (x == [] || nul(x)) then []
    else [StreamPart(Name(block), NonEmpty(x), NonEmpty(LastId(lastId, block)))]
  }

  lemma StandardBlock(lastId: Bytes, block: seq<Bytes>, rest: seq<Bytes>)
    requires [] !in block
    ensures StandardLines(lastId, block + [[]] + rest) ==
            StandardOne(block, lastId) + StandardLines(LastId(lastId, block), rest)
  {
    var b := Buffers([], [], lastId);
    Regroup(block, [[]], rest);
    EventsOfBlock(b, block, [[]] + rest);
    assert ([[]] + rest)[1..] == rest;
    var d := Values(DATA, block);
    assert [] + Terminated(d) == Terminated(d);
    if d != [] {
      TerminatedIsJoin(d);
      assert (JoinLf(d) + [LF])[..|JoinLf(d)|] == JoinLf(d);
    }
  }

  lemma ClientOneIs(parse: IntParser, nul: NullTest, lastId: Bytes, block: seq<Bytes>)
    requires [] !in block
    ensures ClientLines(parse, nul, lastId, block) == ClientOne(nul, block, lastId)
  {
    var read := Reads(parse);
    PartsConcat(read, Fresh(lastId), block, [[]]);
    NoEmptyLineNoPart(read, Fresh(lastId), block);
    FieldsAfter(parse, Fresh(lastId), block);
    var g := After(read, Fresh(lastId), block);
    assert [] + Flatten(Values(DATA, block)) == Flatten(Values(DATA, block));
    OneLine(read, g, []);
    assert Parts(read, Fresh(lastId), block + [[]]) == [] + Dispatch(g) == Dispatch(g);
    if !Idle(g) {
      var p := Dispatch(g)[0];
      assert Filter(nul, [p]) == (if Kept(nul, p) then [p] else []) + Filter(nul, []);
    }
  }

  lemma ClientBlock(parse: IntParser, nul: NullTest, lastId: Bytes, block: seq<Bytes>, rest: seq<Bytes>)
    requires [] !in block
    ensures ClientLines(parse, nul, lastId, block + [[]] + rest) ==
            ClientOne(nul, block, lastId) + ClientLines(parse, nul, LastId(lastId, block), rest)
  {
    var read := Reads(parse);
    Regroup(block + [[]], rest, [[]]);
    BlockIndependence(parse, Fresh(lastId), block, rest + [[]]);
    FilterConcat(nul, Parts(read, Fresh(lastId), block + [[]]),
                 Parts(read, Fresh(LastId(lastId, block)), rest + [[]]));
    ClientOneIs(parse, nul, lastId, block);
  }

  // ------------------------------------------------------------ where they agree

  /** A finished block that both read alike: no data and no name, or one data line that is not empty
      and, without a name, does not read as null. */
  predicate Conforms(nul: NullTest, block: seq<Bytes>) {
    var d := Values(DATA, block);
    || (d == [] && Name(block) == [])
    || (|d| == 1 && d[0] != [] && (Name(block) != [] || !nul(d[0])))
  }

  /** An unfinished block that the client does not dispatch either. */
  predicate Silent(nul: NullTest, block: seq<Bytes>) {
    var x := Flatten(Values(DATA, block));
    Name(block) == [] && (x == [] || nul(x))
  }

  predicate AllConform(nul: NullTest, lines: seq<Bytes>)
    decreases |lines|
  {
    var k := FirstEmpty(lines);
    if k == |lines| then Silent(nul, lines) else Conforms(nul, lines[..k]) && AllConform(nul, lines[k + 1..])
  }

  lemma OneValue(values: seq<Bytes>)
    requires |values| == 1
    ensures Flatten(values) == values[0] == JoinLf(values)
  {
    assert Flatten(values) == values[0] + Flatten<Byte>([]);
  }

  lemma ConformsAlike(nul: NullTest, block: seq<Bytes>, lastId: Bytes)
    requires Conforms(nul, block)
    ensures ClientOne(nul, block, lastId) == StandardOne(block, lastId)
  {
    var d := Values(DATA, block);
    if |d| == 1 {
      OneValue(d);
    }
  }

  /** What a part of the client can look like. */
  predicate Possible(nul: NullTest, p: StreamPart) {
    p.data.Some? ==> p.data.value != [] && LF !in p.data.value && (p.event != [] || !nul(p.data.value))
  }

  ghost predicate AllClean(lines: seq<Bytes>) { forall l :: l in lines ==> Clean(l) }

  lemma {:induction false} ValuesClean(name: Bytes, lines: seq<Bytes>)
    requires AllClean(lines)
    ensures forall v :: v in Values(name, lines) ==> LF !in v
  {
    if lines != [] {
      assert Clean(lines[0]);
      ValuesClean(name, lines[1..]);
    }
  }

  lemma {:induction false} FlattenClean(values: seq<Bytes>)
    requires forall v :: v in values ==> LF !in v
    ensures LF !in Flatten(values)
  {
    if values != [] {
      FlattenClean(values[1..]);
    }
  }

  lemma {:induction false} JoinHasLf(values: seq<Bytes>)
    requires |values| > 1
    ensures LF in JoinLf(values)
  {
    assert JoinLf(values)[|values[0]|] == LF;
  }

  lemma ClientOnePossible(nul: NullTest, block: seq<Bytes>, lastId: Bytes)
    requires AllClean(block)
    ensures forall p :: p in ClientOne(nul, block, lastId) ==> Possible(nul, p)
  {
    ValuesClean(DATA, block);
    FlattenClean(Values(DATA, block));
  }

  lemma SplitBlock(lines: seq<Bytes>, k: nat)
    requires k < |lines| && lines[k] == []
    ensures lines == lines[..k] + [[]] + lines[k + 1..]
  {}

  lemma {:induction false} ClientPossible(parse: IntParser, nul: NullTest, lastId: Bytes, lines: seq<Bytes>)
    requires AllClean(lines)
    ensures forall p :: p in ClientLines(parse, nul, lastId, lines) ==> Possible(nul, p)
    decreases |lines|
  {
    var k := FirstEmpty(lines);
    var block := lines[..k];
    ClientOnePossible(nul, block, lastId);
    if k == |lines| {
      assert block == lines;
      ClientOneIs(parse, nul, lastId, lines);
    } else {
      SplitBlock(lines, k);
      ClientBlock(parse, nul, lastId, block, lines[k + 1..]);
      ClientPossible(parse, nul, LastId(lastId, block), lines[k + 1..]);
    }
  }

  lemma {:induction false} StandardHasData(b: Buffers, lines: seq<Bytes>)
    ensures forall p :: p in Events(b, lines) ==> p.data.Some?
    decreases |lines|
  {
    if lines != [] {
      StandardHasData(if lines[0] == [] then Buffers([], [], b.lastId) else Process(b, lines[0]), lines[1..]);
    }
  }

  /** A block that does not conform cannot be made up for by what follows it. */
  lemma NeverMadeUp(nul: NullTest, block: seq<Bytes>, lastId: Bytes, client: seq<StreamPart>, standard: seq<StreamPart>)
    requires !Conforms(nul, block) && AllClean(block)
    requires forall p :: p in client ==> Possible(nul, p)
    requires forall p :: p in standard ==> p.data.Some?
    ensures ClientOne(nul, block, lastId) + client != StandardOne(block, lastId) + standard
  {
    var d := Values(DATA, block);
    var cs, ss := ClientOne(nul, block, lastId) + client, StandardOne(block, lastId) + standard;
    if d == [] {
      assert cs[0].data.None?;
      assert ss == standard;
      assert ss != [] ==> ss[0] in standard;
    } else {
      ClientOnePossible(nul, block, lastId);
      assert cs != [] ==> cs[0] in ClientOne(nul, block, lastId) || cs[0] in client;
      if |d| > 1 {
        JoinHasLf(d);
      }
      assert !Possible(nul, ss[0]);
    }
  }

  /** A finished block gives the standard's event, or like it none, exactly when it conforms. */
  lemma BlockAgreesIff(nul: NullTest, block: seq<Bytes>, lastId: Bytes)
    requires AllClean(block)
    ensures ClientOne(nul, block, lastId) == StandardOne(block, lastId) <==> Conforms(nul, block)
  {
    if Conforms(nul, block) {
      ConformsAlike(nul, block, lastId);
    } else {
      NeverMadeUp(nul, block, lastId, [], []);
      SameHeads(ClientOne(nul, block, lastId), StandardOne(block, lastId));
    }
  }

  lemma SameHeads(xs: seq<StreamPart>, ys: seq<StreamPart>)
    ensures xs + [] == ys + [] <==> xs == ys
  {
    assert xs + [] == xs && ys + [] == ys;
  }

  /** On clean lines the client yields the standard's events exactly when every finished block
      conforms and the unfinished one at the end is silent. */
  lemma {:induction false} LinesAgreeIff(parse: IntParser, nul: NullTest, lastId: Bytes, lines: seq<Bytes>)
    requires AllClean(lines)
    ensures ClientLines(parse, nul, lastId, lines) == StandardLines(lastId, lines) <==> AllConform(nul, lines)
    decreases |lines|
  {
    var k := FirstEmpty(lines);
    var block := lines[..k];
    if k == |lines| {
      assert block == lines && lines + [] == lines;
      ClientOneIs(parse, nul, lastId, lines);
      EventsOfBlock(Buffers([], [], lastId), lines, []);
    } else {
      var rest, id := lines[k + 1..], LastId(lastId, block);
      SplitBlock(lines, k);
      ClientBlock(parse, nul, lastId, block, rest);
      StandardBlock(lastId, block, rest);
      if Conforms(nul, block) {
        ConformsAlike(nul, block, lastId);
        SameTails(ClientOne(nul, block, lastId), ClientLines(parse, nul, id, rest), StandardLines(id, rest));
        LinesAgreeIff(parse, nul, id, rest);
      } else {
        ClientPossible(parse, nul, id, rest);
        StandardHasData(Buffers([], [], id), rest);
        NeverMadeUp(nul, block, lastId, ClientLines(parse, nul, id, rest), StandardLines(id, rest));
      }
    }
  }

  lemma SameTails(xs: seq<StreamPart>, ys: seq<StreamPart>, zs: seq<StreamPart>)
    ensures xs + ys == xs + zs <==> ys == zs
  {
    assert (xs + ys)[|xs|..] == ys && (xs + zs)[|xs|..] == zs;
  }

  /** For a body without byte order mark, however it is cut into chunks, the client yields the
      standard's events exactly when all blocks conform and nothing is left over at the end. */
  lemma BodyAgreesIff(parse: IntParser, nul: NullTest, body: Bytes)
    requires !(BOM <= body)
    ensures BodyParts(parse, nul, body) == StandardParts(body) <==> AllConform(nul, SplitLines(body))
  {
    LinesAreClean([], body);
    LinesAgreeIff(parse, nul, [], SplitLines(body));
  }

  // ------------------------------------------------------------ the order mark

  lemma FirstLine(open: Bytes, text: Bytes)
    requires open != []
    ensures var lines := Lines(open, text); lines != [] && open <= lines[0]
    decreases |text|
  {
    if text != [] && text[0] != CR && text[0] != LF {
      FirstLine(open + [text[0]], text[1..]);
    }
  }

  /** Behind a byte order mark, which the standard drops, the client reads past the whole first line. */
  lemma OrderMark(parse: IntParser, nul: NullTest, body: Bytes)
    requires BOM <= body
    ensures SplitLines(body) != []
    ensures BodyParts(parse, nul, body) == ClientLines(parse, nul, [], SplitLines(body)[1..])
  {
    var lines := SplitLines(body);
    assert body == BOM + body[|BOM|..];
    LinesOfClean([], BOM, body[|BOM|..]);
    assert [] + BOM == BOM;
    FirstLine(BOM, body[|BOM|..]);
    var line := lines[0];
    assert line[0] == BOM[0] && FieldName(line) <= line;
    assert FieldName(line) != [];
    assert FieldName(line)[0] == BOM[0];
    assert Reads(parse)(Fresh([]), line) == Fresh([]);
    assert (lines + [[]])[1..] == lines[1..] + [[]];
    assert Parts(Reads(parse), Fresh([]), lines + [[]]) ==
      [] + Parts(Reads(parse), Fresh([]), lines[1..] + [[]]);
    assert [] + Parts(Reads(parse), Fresh([]), lines[1..] + [[]]) == Parts(Reads(parse), Fresh([]), lines[1..] + [[]]);
  }

  lemma {:induction false} OpenIsFirst(a: Bytes, b: Bytes, text: Bytes)
    requires text != []
    ensures Lines(a, text) != [] && Lines(b, text) != [] && Lines(a, text)[1..] == Lines(b, text)[1..]
    decreases |text|
  {
    if text[0] != CR && text[0] != LF && |text| > 1 {
      OpenIsFirst(a + [text[0]], b + [text[0]], text[1..]);
    }
  }

  /** A line in which the standard finds nothing to keep. */
  predicate SaysNothing(line: Bytes) {
    var name := FieldName(line);
    name != EVENT && name != DATA && (name == ID ==> NUL in FieldValue(line))
  }

  /** So with a byte order mark they agree under the same condition on the other lines, provided the
      line behind the mark says nothing. */
  lemma OrderMarkAgreesIff(parse: IntParser, nul: NullTest, body: Bytes)
    requires BOM <= body
    requires var lines := SplitLines(body[|BOM|..]); lines != [] ==> SaysNothing(lines[0])
    ensures SplitLines(body) != []
    ensures BodyParts(parse, nul, body) == StandardParts(body) <==> AllConform(nul, SplitLines(body)[1..])
  {
    var text := body[|BOM|..];
    var lines := SplitLines(text);
    OrderMark(parse, nul, body);
    LinesAreClean([], body);
    LinesAgreeIff(parse, nul, [], SplitLines(body)[1..]);
    assert body == BOM + text;
    LinesOfClean([], BOM, text);
    assert [] + BOM == BOM;
    if text == [] {
      assert SplitLines(body)[1..] == [];
    } else {
      OpenIsFirst(BOM, [], text);
      assert StandardLines([], lines) == [] + StandardLines([], lines[1..]);
    }
  }

  /** What is left to compare where the line behind the mark says something: the rest of its block,
      which the client reads without it, and everything behind the block. */
  lemma OrderMarkBlock(parse: IntParser, nul: NullTest, body: Bytes, line: Bytes, block: seq<Bytes>, rest: seq<Bytes>)
    requires BOM <= body && SplitLines(body[|BOM|..]) == [line] + block + [[]] + rest
    requires line != [] && [] !in block
    ensures BodyParts(parse, nul, body) ==
            ClientOne(nul, block, []) + ClientLines(parse, nul, LastId([], block), rest)
    ensures StandardParts(body) ==
            StandardOne([line] + block, []) + StandardLines(LastId([], [line] + block), rest)
    ensures AllClean([line] + block + [[]] + rest)
  {
    var text := body[|BOM|..];
    OrderMark(parse, nul, body);
    assert body == BOM + text;
    LinesOfClean([], BOM, text);
    assert [] + BOM == BOM;
    OpenIsFirst(BOM, [], text);
    assert ([line] + block + [[]] + rest)[1..] == block + [[]] + rest;
    ClientBlock(parse, nul, [], block, rest);
    StandardBlock([], [line] + block, rest);
    LinesAreClean([], text);
  }

  /** A data line behind the mark, in a block with a further data line, always makes them disagree. */
  lemma MarkedDataDisagrees(
    parse: IntParser, nul: NullTest, body: Bytes, line: Bytes, block: seq<Bytes>, rest: seq<Bytes>)
    requires BOM <= body && SplitLines(body[|BOM|..]) == [line] + block + [[]] + rest
    requires line != [] && [] !in block && FieldName(line) == DATA && Values(DATA, block) != []
    ensures BodyParts(parse, nul, body) != StandardParts(body)
  {
    OrderMarkBlock(parse, nul, body, line, block, rest);
    var client, standard := BodyParts(parse, nul, body), StandardParts(body);
    assert ([line] + block)[1..] == block;
    JoinHasLf(Values(DATA, [line] + block));
    assert !Possible(nul, standard[0]);
    assert AllClean(block) && AllClean(rest);
    ClientOnePossible(nul, block, []);
    ClientPossible(parse, nul, LastId([], block), rest);
    assert client != [] ==> Possible(nul, client[0]);
  }

  /** Where both have an event for that block, they can only agree if the line behind the mark changes
      neither its name, nor its data, nor its id. */
  lemma MarkedBlockSame(parse: IntParser, nul: NullTest, body: Bytes, line: Bytes, block: seq<Bytes>, rest: seq<Bytes>)
    requires BOM <= body && SplitLines(body[|BOM|..]) == [line] + block + [[]] + rest
    requires line != [] && [] !in block
    requires ClientOne(nul, block, []) != [] && StandardOne([line] + block, []) != []
    requires BodyParts(parse, nul, body) == StandardParts(body)
    ensures Name(block) == Name([line] + block) && LastId([], block) == LastId([], [line] + block)
    ensures NonEmpty(Flatten(Values(DATA, block))) == Some(JoinLf(Values(DATA, [line] + block)))
  {
    OrderMarkBlock(parse, nul, body, line, block, rest);
    assert ClientOne(nul, block, [])[0] == BodyParts(parse, nul, body)[0];
    assert StandardOne([line] + block, [])[0] == StandardParts(body)[0];
  }

  /** They can also agree by accident: `data: x` behind the mark, an empty line, and `data: x` unfinished.
      The client misses the first event and dispatches the one that the standard discards. */
  lemma AccidentalAgreement(parse: IntParser, nul: NullTest, body: Bytes, x: Bytes)
    requires BOM <= body && SplitLines(body[|BOM|..]) == [Field(DATA, x), [], Field(DATA, x)]
    requires x != [] && !nul(x)
    ensures BodyParts(parse, nul, body) == StandardParts(body) == [StreamPart([], Some(x), None)]
  {
    var line := Field(DATA, x);
    var none: seq<Bytes> := [];
    ReadBack(DATA, x);
    assert [line] + none + [[]] + [line] == [line, [], line];
    OrderMarkBlock(parse, nul, body, line, none, [line]);
    assert [line] + none == [line] && [line][1..] == none;
    assert Values(DATA, [line]) == [x] && Values(EVENT, [line]) == none;
    OneValue([x]);
    ClientOneIs(parse, nul, [], [line]);
    EventsOfBlock(Buffers([], [], []), [line], none);
  }
}
