/** Framing of a server-sent event stream, as the OpenAI and Anthropic clients do it:
    section 9.2.6 of the WHATWG HTML Standard for the data field, except that payloads
    are trimmed and empty ones skipped. */
module SseFraming {
  import opened Text

  const DATA := "data:"

  /** The data payload of a line: trimmed, and "" for comments, other fields and empty data. */
  function Payload(line: string): string {
    if HasPrefix(line, ":") then ""
    else if HasPrefix(line, DATA) then TrimSpace(TrimPrefix(line, DATA))
    else ""
  }

  /** Only data lines carry a payload: what follows the field name, trimmed. */
  lemma PayloadIs(line: string, data: string)
    ensures Payload(DATA + data) == TrimSpace(data)
    ensures !(DATA <= line) ==> Payload(line) == ""
  {
    hide TrimSpace;
    assert DATA[0] == 'd' && (DATA + data)[0] == 'd';
    assert (DATA + data)[|DATA|..] == data;
  }

  /** The non-empty payloads of a block of lines, in order. */
  function Payloads(block: seq<string>): seq<string> {
    if block == [] then []
    else Payloads(block[..|block| - 1]) + if Payload(block[|block| - 1]) == "" then []
      else [Payload(block[|block| - 1])]
  }

  function JoinLines(parts: seq<string>): string {
    if parts == [] then ""
    else if |parts| == 1 then parts[0]
    else JoinLines(parts[..|parts| - 1]) + "\n" + parts[|parts| - 1]
  }

  /** The blocks that a blank line ends; what follows the last blank line is not among them. */
  function Blocks(lines: seq<string>): seq<seq<string>> {
    if lines == [] then []
    else
      var front, last := lines[..|lines| - 1], lines[|lines| - 1];
      if last == "" then Blocks(front) + [Unended(front)] else Blocks(front)
  }

  /** The lines after the last blank line. */
  function Unended(lines: seq<string>): seq<string> {
    if lines == [] || lines[|lines| - 1] == "" then []
    else Unended(lines[..|lines| - 1]) + [lines[|lines| - 1]]
  }

  /** The events of a stream: one for each ended block with any data. An unended block
      is discarded. */
  function Events(lines: seq<string>): seq<string> {
    EventsOf(Blocks(lines))
  }

  function EventsOf(blocks: seq<seq<string>>): seq<string> {
    if blocks == [] then []
    else
      var last := Payloads(blocks[|blocks| - 1]);
      EventsOf(blocks[..|blocks| - 1]) + if last == [] then [] else [JoinLines(last)]
  }

  /** One line of the scanning loop: the buffer afterwards, and the event dispatched. */
  function ScanLine(buffer: string, line: string): (string, Option<string>) {
    if line == "" then ("", if buffer == "" then None else Some(buffer))
    else if Payload(line) == "" then (buffer, None)
    else (if buffer == "" then Payload(line) else buffer + "\n" + Payload(line), None)
  }

  lemma {:induction false} JoinedPayloads(block: seq<string>)
    ensures JoinLines(Payloads(block)) == "" <==> Payloads(block) == []
  {
    if block != [] {
      JoinedPayloads(block[..|block| - 1]);
      var all, before := Payloads(block), Payloads(block[..|block| - 1]);
      if Payload(block[|block| - 1]) != "" {
        assert all[..|all| - 1] == before;
      }
    }
  }

  /** A blank line ends the block before it. */
  lemma BlankLine(lines: seq<string>)
    ensures Unended(lines + [""]) == [] && Events(lines + [""]) == Events(lines) + EventsOf([Unended(lines)])
  {
    hide Payload, TrimSpace, Payloads, JoinLines;
    var all, blocks := lines + [""], Blocks(lines) + [Unended(lines)];
    assert all[..|all| - 1] == lines && Blocks(all) == blocks;
    assert blocks[..|blocks| - 1] == Blocks(lines);
    assert [Unended(lines)][..0] == [] && EventsOf([]) == [];
  }

  /** Any other line joins the unended block. */
  lemma MoreOfBlock(lines: seq<string>, line: string)
    requires line != ""
    ensures Unended(lines + [line]) == Unended(lines) + [line] && Events(lines + [line]) == Events(lines)
  {
    hide Payload, TrimSpace, Payloads, JoinLines, EventsOf;
    var all := lines + [line];
    assert all[..|all| - 1] == lines;
  }

  lemma PayloadsOneMore(block: seq<string>, line: string)
    ensures Payloads(block + [line]) == Payloads(block) + if Payload(line) == "" then [] else [Payload(line)]
  {
    hide Payload;
    assert (block + [line])[..|block|] == block;
  }

  lemma JoinOneMore(parts: seq<string>, part: string)
    ensures JoinLines(parts + [part]) == if parts == [] then part else JoinLines(parts) + "\n" + part
  {
    assert (parts + [part])[..|parts|] == parts;
  }

  /** Scanning on by a line keeps the buffer at the joined payloads of the unended
      block, and dispatches exactly the next event. */
  lemma ScanFrames(lines: seq<string>, line: string)
    ensures var (buffer, event) := ScanLine(JoinLines(Payloads(Unended(lines))), line);
            && buffer == JoinLines(Payloads(Unended(lines + [line])))
            && Events(lines + [line]) == Events(lines) + if event.Some? then [event.value] else []
  {
    hide Payload, TrimSpace, Events, Unended, JoinLines;
    var block := Unended(lines);
    JoinedPayloads(block);
    if line == "" {
      BlankLine(lines);
      NoPayloads();
      assert [block][..0] == [];
    } else {
      MoreOfBlock(lines, line);
      hide Payloads;
      PayloadsOneMore(block, line);
      JoinOneMore(Payloads(block), Payload(line));
      assert Payloads(block) + [] == Payloads(block) && Events(lines) + [] == Events(lines);
    }
  }

  lemma NoPayloads()
    ensures JoinLines(Payloads([])) == "" && EventsOf([]) == []
  {
  }

  /** The data lines of a block make one event, joined by line breaks; a blank line parts
      events, and a block that none ends makes none. */
  lemma TwoDataLines(a: string, b: string)
    requires TrimSpace(a) != "" && TrimSpace(b) != ""
    ensures Events([DATA + a] + [DATA + b]) == []
    ensures Events([DATA + a] + [DATA + b] + [""]) == [TrimSpace(a) + "\n" + TrimSpace(b)]
    ensures Events([DATA + a] + [""] + [DATA + b] + [""]) == [TrimSpace(a), TrimSpace(b)]
  {
    hide TrimSpace, Payload, Events, Unended, Payloads, JoinLines;
    Nothing();
    var first := [DATA + a];
    assert [] + first == first;
    ScanData([], a);
    ScanData(first, b);
    ScanFrames(first + [DATA + b], "");
    ScanFrames(first, "");
    ScanData(first + [""], b);
    ScanFrames(first + [""] + [DATA + b], "");
  }

  /** A data line adds to the buffer and dispatches nothing. */
  lemma ScanData(lines: seq<string>, data: string)
    requires TrimSpace(data) != ""
    ensures Events(lines + [DATA + data]) == Events(lines)
    ensures var buffer := JoinLines(Payloads(Unended(lines)));
            JoinLines(Payloads(Unended(lines + [DATA + data]))) ==
            if buffer == "" then TrimSpace(data) else buffer + "\n" + TrimSpace(data)
  {
    hide TrimSpace, Payload, Events, Unended, Payloads, JoinLines;
    PayloadIs("", data);
    assert (DATA + data)[0] == 'd';
    ScanFrames(lines, DATA + data);
    assert Events(lines) + [] == Events(lines);
  }

  lemma Nothing()
    ensures Events([]) == [] && JoinLines(Payloads(Unended([]))) == ""
  {
  }
}
