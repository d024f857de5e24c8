/** The incremental line splitter of the SSE client (libs/sdk-py/langgraph_sdk/sse.py). */
module SseLines {
  import opened Prelude

  type Byte = b: int | 0 <= b < 256
  type Bytes = seq<Byte>

  const LF: Byte := 10
  const CR: Byte := 13

  // ---------------------------------------------------------------- reference

  /** Splits `text` at LF, CR and CRLF; `open` is the already read start of the first line.
      As with Python's `bytes.splitlines`, a final terminator opens no further line. */
  function Lines(open: Bytes, text: Bytes): seq<Bytes>
    decreases |text|
  {
    if text == [] then
      if open == [] then [] else [open]
    else if text[0] == LF then
      [open] + Lines([], text[1..])
    else if text[0] == CR then
      [open] + Lines([], if |text| > 1 && text[1] == LF then text[2..] else text[1..])
    else
      Lines(open + [text[0]], text[1..])
  }

  function SplitLines(text: Bytes): seq<Bytes> {
    Lines([], text)
  }

  /** The terminated lines of a text, and what follows the last terminator. */
  datatype Scan = Scan(closed: seq<Bytes>, rest: Bytes)

  function ScanLines(open: Bytes, text: Bytes): Scan
    decreases |text|
  {
    if text == [] then
      Scan([], open)
    else if text[0] == LF || text[0] == CR then
      var next := if text[0] == CR && |text| > 1 && text[1] == LF then text[2..] else text[1..];
      var s := ScanLines([], next);
      Scan([open] + s.closed, s.rest)
    else
      ScanLines(open + [text[0]], text[1..])
  }

  /** A text can be scanned without seeing what follows it, unless it ends in CR and LF follows. */
  lemma {:induction false} LinesAfterScan(open: Bytes, text: Bytes, more: Bytes)
    requires text != [] && text[|text| - 1] == CR ==> more == [] || more[0] != LF
    ensures var s := ScanLines(open, text);
            Lines(open, text + more) == s.closed + Lines(s.rest, more)
    decreases |text|
  {
    if text == [] {
      assert text + more == more;
    } else {
      var next := if text[0] == CR && |text| > 1 && text[1] == LF then text[2..] else text[1..];
      assert (text + more)[1..] == text[1..] + more;
      if text[0] == CR && |text| > 1 && text[1] == LF {
        assert (text + more)[2..] == text[2..] + more;
      }
      if text[0] == LF || text[0] == CR {
        LinesAfterScan([], next, more);
      } else {
        LinesAfterScan(open + [text[0]], text[1..], more);
      }
    }
  }

  /** What the open line contributes: it is put in front of the first line of the text. */
  lemma {:induction false} ScanOpen(open: Bytes, text: Bytes)
    ensures var s, t := ScanLines(open, text), ScanLines([], text);
            if t.closed == [] then s == Scan([], open + t.rest)
            else s == Scan([open + t.closed[0]] + t.closed[1..], t.rest)
    decreases |text|
  {
    if text != [] && text[0] != LF && text[0] != CR {
      ScanOpen(open + [text[0]], text[1..]);
      ScanOpen([text[0]], text[1..]);
      assert [] + [text[0]] == [text[0]];
      assert ScanLines([], text) == ScanLines([text[0]], text[1..]);
      var t := ScanLines([], text[1..]);
      assert open + [text[0]] + t.rest == open + ([text[0]] + t.rest);
      if t.closed != [] {
        assert open + [text[0]] + t.closed[0] == open + ([text[0]] + t.closed[0]);
      }
    } else {
      assert open + [] == open;
    }
  }

  /** Where a text ends decides whether an unterminated line is left over. */
  lemma {:induction false} ScanRest(open: Bytes, text: Bytes)
    requires text != []
    ensures var s := ScanLines(open, text);
            if text[|text| - 1] == LF || text[|text| - 1] == CR
            then s.rest == [] && s.closed != [] else s.rest != []
    decreases |text|
  {
    var next := if text[0] == CR && |text| > 1 && text[1] == LF then text[2..] else text[1..];
    if text[0] == LF || text[0] == CR {
      if next != [] { ScanRest([], next); }
    } else if text[1..] != [] {
      ScanRest(open + [text[0]], text[1..]);
    }
  }

  // ------------------------------------------------------------------ decoder

  /** `lines` has been delivered for `input`, and the decoder state (`open`, `held`)
      stands for exactly the part of `input` that is not delivered: whatever comes next. */
  ghost predicate Delivered(open0: Bytes, input: Bytes, lines: seq<Bytes>, open: Bytes, held: Bytes) {
    forall more: Bytes :: LinesWith(open0, input, more) == lines + LinesWith(open, held, more)
  }

  ghost function LinesWith(open: Bytes, text: Bytes, more: Bytes): seq<Bytes> {
    Lines(open, text + more)
  }

  class BytesLineDecoder {
    var buffer: Bytes
    var trailingCr: bool

    constructor ()
      ensures buffer == [] && !trailingCr
    {
      buffer, trailingCr := [], false;
    }

    /** The carriage return that is held back until the next call. */
    function Held(): Bytes
      reads this
    {
      if trailingCr then [CR] else []
    }

    method Decode(chunk: Bytes) returns (lines: seq<Bytes>)
      modifies this
      ensures Delivered(old(buffer), old(Held()) + chunk, lines, buffer, Held())
    {
      ghost var open, whole := buffer, Held() + chunk;
      var text := chunk;
      if trailingCr {
        text := [CR] + text;
        trailingCr := false;
      }
      assert text == whole;
      if text != [] && text[|text| - 1] == CR {
        trailingCr := true;
        text := text[..|text| - 1];
      }
      assert text + Held() == whole;
      lines := Feed(text);
    }

    /** The part of `Decode` behind the treatment of a trailing CR: `text` is read for good. */
    method Feed(text: Bytes) returns (lines: seq<Bytes>)
      requires text != [] && text[|text| - 1] == CR ==> trailingCr
      modifies this`buffer
      ensures Delivered(old(buffer), text + Held(), lines, buffer, Held())
    {
      if text == [] {
        assert [] + Held() == Held();
        return [];
      }
      DeliveredByScan(buffer, text, Held());
      SplitWithOpen(buffer, text);
      var trailingNewline := text[|text| - 1] == LF || text[|text| - 1] == CR;
      lines := SplitLines(text);
      if |lines| == 1 && !trailingNewline {
        buffer := buffer + lines[0];
        return [];
      }
      if buffer != [] {
        lines := [buffer + lines[0]] + lines[1..];
        buffer := [];
      }
      if !trailingNewline {
        buffer := buffer + lines[|lines| - 1];
        lines := lines[..|lines| - 1];
      }
    }

    method Flush() returns (lines: seq<Bytes>)
      modifies this
      ensures lines == Lines(old(buffer), old(Held()))
      ensures buffer == [] && !trailingCr
    {
      if buffer == [] && !trailingCr {
        return [];
      }
      lines := [buffer];
      buffer, trailingCr := [], false;
    }
  }

  lemma DeliveredNothing(open: Bytes, held: Bytes)
    ensures Delivered(open, held, [], open, held)
  {}

  /** A whole split is the scanned lines followed by the unterminated one. */
  lemma SplitIsScan(text: Bytes)
    requires text != []
    ensures var s := ScanLines([], text);
            if text[|text| - 1] == LF || text[|text| - 1] == CR
            then SplitLines(text) == s.closed && s.closed != [] && s.rest == []
            else SplitLines(text) == s.closed + [s.rest] && s.rest != []
  {
    ScanRest([], text);
    ScanIsLines([], text);
  }

  /** The decoder's rearrangement of the split text, case by case, is the scan. */
  lemma SplitWithOpen(open: Bytes, text: Bytes)
    requires text != []
    ensures var s, lines := ScanLines(open, text), SplitLines(text);
            var newline := text[|text| - 1] == LF || text[|text| - 1] == CR;
            lines != [] &&
            if |lines| == 1 && !newline then s == Scan([], open + lines[0])
            else
              var all := if open == [] then lines else [open + lines[0]] + lines[1..];
              if newline then s == Scan(all, []) else s == Scan(all[..|all| - 1], [] + all[|all| - 1])
  {
    SplitIsScan(text);
    ScanOpen(open, text);
    var t := ScanLines([], text);
    var lines := SplitLines(text);
    if t.closed != [] {
      if open == [] {
        assert [open + t.closed[0]] + t.closed[1..] == t.closed;
      }
      assert lines[1..] == t.closed[1..] + lines[|t.closed|..];
    }
  }

  lemma {:induction false} ScanIsLines(open: Bytes, text: Bytes)
    ensures var s := ScanLines(open, text);
            Lines(open, text) == s.closed + (if s.rest == [] then [] else [s.rest])
    decreases |text|
  {
    if text == [] {
    } else if text[0] == LF || text[0] == CR {
      ScanIsLines([], if text[0] == CR && |text| > 1 && text[1] == LF then text[2..] else text[1..]);
    } else {
      ScanIsLines(open + [text[0]], text[1..]);
    }
  }

  /** Scanning `text` delivers its lines even if it ends in CR, provided a CR follows:
      only a following LF could have belonged to the last terminator. */
  lemma {:induction false} DeliveredByScan(open: Bytes, text: Bytes, held: Bytes)
    requires text != []
    requires text[|text| - 1] == CR ==> held == [CR]
    requires held == [] || held == [CR]
    ensures Delivered(open, text + held, ScanLines(open, text).closed, ScanLines(open, text).rest, held)
  {
    var s := ScanLines(open, text);
    forall more: Bytes
      ensures LinesWith(open, text + held, more) == s.closed + LinesWith(s.rest, held, more)
    {
      assert text + held + more == text + (held + more);
      LinesAfterScan(open, text, held + more);
    }
  }

  /** Chunk invariance: however the body is cut, the lines are those of the whole body. */
  method IterLinesRaw(chunks: seq<Bytes>) returns (lines: seq<Bytes>)
    ensures lines == SplitLines(Flatten(chunks))
  {
    var decoder := new BytesLineDecoder();
    lines := [];
    DeliveredNothing([], []);
    for i := 0 to |chunks|
      invariant Delivered([], Flatten(chunks[..i]), lines, decoder.buffer, decoder.Held())
    {
      ghost var open, held := decoder.buffer, decoder.Held();
      ghost var before := lines;
      var more := decoder.Decode(chunks[i]);
      lines := lines + more;
      assert chunks[..i + 1] == chunks[..i] + [chunks[i]];
      FlattenAppend(chunks[..i], chunks[i]);
      DeliveredTrans(Flatten(chunks[..i]), before, open, held, chunks[i], more, decoder.buffer, decoder.Held());
    }
    ghost var open, held := decoder.buffer, decoder.Held();
    ghost var before := lines;
    var more := decoder.Flush();
    lines := lines + more;
    assert chunks[..|chunks|] == chunks;
    assert LinesWith([], Flatten(chunks), []) == before + LinesWith(open, held, []);
    assert Flatten(chunks) + [] == Flatten(chunks) && held + [] == held;
  }

  lemma DeliveredTrans(input: Bytes, lines: seq<Bytes>, open: Bytes, held: Bytes,
                       chunk: Bytes, out: seq<Bytes>, open': Bytes, held': Bytes)
    requires Delivered([], input, lines, open, held)
    requires Delivered(open, held + chunk, out, open', held')
    ensures Delivered([], input + chunk, lines + out, open', held')
  {
    forall more: Bytes
      ensures LinesWith([], input + chunk, more) == lines + out + LinesWith(open', held', more)
    {
      assert input + chunk + more == input + (chunk + more);
      assert held + chunk + more == held + (chunk + more);
      assert LinesWith([], input, chunk + more) == lines + LinesWith(open, held, chunk + more);
      assert LinesWith(open, held + chunk, more) == out + LinesWith(open', held', more);
    }
  }

  // --------------------------------------------------------------- round trip

  datatype Eol = Lf | Cr | CrLf {
    function Text(): Bytes {
      match this
      case Lf => [LF]
      case Cr => [CR]
      case CrLf => [CR, LF]
    }
  }

  ghost predicate Clean(line: Bytes) {
    LF !in line && CR !in line
  }

  /** Prints each line followed by its terminator. */
  function Render(lines: seq<Bytes>, ends: seq<Eol>): Bytes
    requires |lines| == |ends|
  {
    if lines == [] then [] else lines[0] + (ends[0].Text() + Render(lines[1..], ends[1..]))
  }

  /** No CR is followed by an empty line that ends in LF: printed, the two look like one CRLF. */
  ghost predicate Unambiguous(lines: seq<Bytes>, ends: seq<Eol>)
    requires |lines| == |ends|
  {
    forall i :: 0 <= i < |lines| - 1 && ends[i] == Cr && lines[i + 1] == [] ==> ends[i + 1] != Lf
  }

  lemma {:induction false} LinesOfClean(open: Bytes, line: Bytes, more: Bytes)
    requires Clean(line)
    ensures Lines(open, line + more) == Lines(open + line, more)
    decreases |line|
  {
    if line == [] {
      assert line + more == more && open + line == open;
    } else {
      assert (line + more)[1..] == line[1..] + more;
      assert (line + more)[0] == line[0];
      LinesOfClean(open + [line[0]], line[1..], more);
      assert open + [line[0]] + line[1..] == open + line;
    }
  }

  /** One printed line, and the two ways in which the text behind it is read. */
  lemma SplitFirst(lines: seq<Bytes>, ends: seq<Eol>)
    requires |lines| == |ends| && lines != [] && Clean(lines[0])
    ensures var rest := Render(lines[1..], ends[1..]);
            SplitLines(Render(lines, ends)) ==
            [lines[0]] + SplitLines(if ends[0] == Cr && rest != [] && rest[0] == LF then rest[1..] else rest)
  {
    var rest := Render(lines[1..], ends[1..]);
    LinesOfClean([], lines[0], ends[0].Text() + rest);
    assert [] + lines[0] == lines[0];
    TerminatorFirst(lines[0], ends[0], rest);
  }

  lemma TerminatorFirst(line: Bytes, end: Eol, rest: Bytes)
    ensures Lines(line, end.Text() + rest) ==
            [line] + Lines([], if end == Cr && rest != [] && rest[0] == LF then rest[1..] else rest)
  {
    var tail := end.Text() + rest;
    if end == CrLf {
      assert tail[2..] == rest;
    } else {
      assert tail[1..] == rest;
      if end == Cr && rest != [] && rest[0] == LF {
        assert tail[2..] == rest[1..];
      }
    }
  }

  /** A printed text starts with LF only if its first line is empty and ends in LF. */
  lemma RenderHead(lines: seq<Bytes>, ends: seq<Eol>)
    requires |lines| == |ends| && forall l :: l in lines ==> Clean(l)
    ensures var text := Render(lines, ends);
            (text != [] && text[0] == LF) <==> (lines != [] && lines[0] == [] && ends[0] == Lf)
    ensures lines != [] && lines[0] == [] && ends[0] == Lf ==>
              Render(lines, ends)[1..] == Render(lines[1..], ends[1..])
  {
    if lines != [] {
      assert lines[0] in lines;
      if lines[0] != [] {
        assert Render(lines, ends)[0] == lines[0][0];
      } else {
        assert Render(lines, ends) == ends[0].Text() + Render(lines[1..], ends[1..]);
      }
    }
  }

  /** Reading a printed text never yields more lines, and fewer when it is ambiguous. */
  lemma {:induction false} SplitCount(lines: seq<Bytes>, ends: seq<Eol>)
    requires |lines| == |ends| && forall l :: l in lines ==> Clean(l)
    ensures |SplitLines(Render(lines, ends))| <= |lines|
    ensures !Unambiguous(lines, ends) ==> |SplitLines(Render(lines, ends))| < |lines|
    decreases |lines|
  {
    if lines != [] {
      SplitFirst(lines, ends);
      RenderHead(lines[1..], ends[1..]);
      if |lines| > 1 && ends[0] == Cr && lines[1] == [] && ends[1] == Lf {
        assert lines[1..][1..] == lines[2..] && ends[1..][1..] == ends[2..];
        SplitCount(lines[2..], ends[2..]);
      } else {
        SplitCount(lines[1..], ends[1..]);
        if Unambiguous(lines[1..], ends[1..]) {
          forall i | 0 <= i < |lines| - 1 && ends[i] == Cr && lines[i + 1] == []
            ensures ends[i + 1] != Lf
          {
            if i > 0 {
              assert ends[1..][i - 1] == ends[i] && lines[1..][i] == lines[i + 1];
            }
          }
        }
      }
    }
  }

  /** Printing and reading back gives the same lines exactly when the text is unambiguous. */
  lemma {:induction false} SplitRender(lines: seq<Bytes>, ends: seq<Eol>)
    requires |lines| == |ends| && forall l :: l in lines ==> Clean(l)
    ensures SplitLines(Render(lines, ends)) == lines <==> Unambiguous(lines, ends)
  {
    if Unambiguous(lines, ends) {
      SplitUnambiguous(lines, ends);
    } else {
      SplitCount(lines, ends);
    }
  }

  lemma {:induction false} SplitUnambiguous(lines: seq<Bytes>, ends: seq<Eol>)
    requires |lines| == |ends| && forall l :: l in lines ==> Clean(l)
    requires Unambiguous(lines, ends)
    ensures SplitLines(Render(lines, ends)) == lines
  {
    if lines != [] {
      SplitFirst(lines, ends);
      RenderHead(lines[1..], ends[1..]);
      if |lines| > 1 {
        assert ends[0] == Cr && lines[1] == [] ==> ends[0 + 1] != Lf;
      }
      forall i | 0 <= i < |lines[1..]| - 1 && ends[1..][i] == Cr && lines[1..][i + 1] == []
        ensures ends[1..][i + 1] != Lf
      {
        assert ends[i + 1] == Cr && lines[i + 1 + 1] == [];
      }
      SplitUnambiguous(lines[1..], ends[1..]);
    }
  }

  /** Lines read from any text contain no terminator. */
  lemma {:induction false} LinesAreClean(open: Bytes, text: Bytes)
    requires Clean(open)
    ensures forall l :: l in Lines(open, text) ==> Clean(l)
    decreases |text|
  {
    if text == [] {
    } else if text[0] == LF || text[0] == CR {
      LinesAreClean([], if text[0] == CR && |text| > 1 && text[1] == LF then text[2..] else text[1..]);
    } else {
      LinesAreClean(open + [text[0]], text[1..]);
    }
  }
}
