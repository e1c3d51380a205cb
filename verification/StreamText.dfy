/** That an answer arrives as it was sent: from the JSON payloads of an upstream model to the text that the clients of
    src/meno_rag/llm/client.py and src/meno_rag/llm/openrouter_client.py yield. */
module StreamText {
  import opened Text
  import opened Json
  import opened SseStream

  // ---------------------------------------------------------------- one payload

  /** A payload without an error, whose first choice carries `content` and ends with `finish` (null: not yet). */
  ghost predicate Carries(data: Value, content: Value, finish: Value) {
    && data.Dict? && (!Has(data, "error") || Get(data, "error") == Dict(map[]))
    && exists choice, delta, later ::
         && Get(data, "choices") == List([choice] + later)
         && Has(choice, "delta") && Get(choice, "delta") == delta && delta.Dict?
         && Get(delta, "content") == content && Get(choice, "finish_reason") == finish
  }

  /** Both clients hand over exactly the text, the vLLM client with the reason to finish; an empty text is nothing. */
  lemma TextIsHandedOver(data: Value, text: string, finish: Value, show: Value -> string)
    requires Carries(data, Str(text), finish)
    ensures ReadVllm(data) == if text == "" && finish == Null then Deltas([])
                              else Deltas([Delta(text, if finish == Null then None else Some(finish))])
    ensures ReadOpenRouter(data, show) == if text == "" then Deltas([]) else Deltas([Delta(text, None)])
  {
    var choice, delta, later :|
      && Get(data, "choices") == List([choice] + later)
      && Has(choice, "delta") && Get(choice, "delta") == delta && delta.Dict?
      && Get(delta, "content") == Str(text) && Get(choice, "finish_reason") == finish;
    assert First(Get(data, "choices")) == Some(choice);
  }

  /** Content that is not text is handed over as nothing. */
  lemma OtherContentIsNothing(data: Value, content: Value, show: Value -> string)
    requires Carries(data, content, Null) && !content.Str?
    ensures ReadVllm(data) == ReadOpenRouter(data, show) == Deltas([])
  {
    var choice, delta, later :|
      && Get(data, "choices") == List([choice] + later)
      && Has(choice, "delta") && Get(choice, "delta") == delta && delta.Dict?
      && Get(delta, "content") == content && Get(choice, "finish_reason") == Null;
    assert First(Get(data, "choices")) == Some(choice);
  }

  /** An error with a message stops both clients with that message, whatever else the payload holds. */
  lemma MessageIsRaised(data: Value, show: Value -> string)
    requires Has(data, "error") && Get(data, "error").Dict? && Truthy(Get(Get(data, "error"), "message"))
    ensures ReadVllm(data) == ReadOpenRouter(data, show) == Raised(Upstream(Get(Get(data, "error"), "message")))
  {
  }

  /** Any other error that counts as true stops the OpenRouter client with what it prints as; the vLLM client stops
      without a message of its own when it is not a dictionary. */
  lemma OtherErrorIsShown(data: Value, show: Value -> string)
    requires Has(data, "error") && Truthy(Get(data, "error"))
    requires Get(data, "error").Dict? ==> !Truthy(Get(Get(data, "error"), "message"))
    ensures ReadOpenRouter(data, show) == Raised(Upstream(Str(show(Get(data, "error")))))
    ensures !Get(data, "error").Dict? ==> ReadVllm(data) == Raised(WrongShape)
  {
  }

  /** A payload that is not JSON stops both clients, unless it is the end marker, which is nothing. */
  lemma BrokenPayloadIsRaised(block: string, payload: string, loads: string -> Option<Value>, show: Value -> string)
    requires PayloadOf(block) == Some(payload) && loads(payload).None?
    ensures ParseBlock(block, loads) == ParseBlockOpenRouter(block, loads, show)
            == if payload == "[DONE]" then Deltas([]) else Raised(NotJson)
  {
  }

  // ---------------------------------------------------------------- blocks of several lines

  /** The characters at which a line ends, one by one. */
  lemma LineBreaksAre(c: char)
    ensures IsLineBreak(c) <==>
            c in {'\n', '\U{000b}', '\U{000c}', '\r', '\U{001c}', '\U{001d}', '\U{001e}', '\U{0085}', '\U{2028}',
                  '\U{2029}'}
  {
  }

  /** A line ends at its first break; a carriage return with a line feed behind it is one break. */
  lemma LineEndsAtBreak(line: string, c: char, later: string)
    requires NoBreaks(line) && IsLineBreak(c)
    ensures (c == '\r' ==> later == "" || later[0] != '\n') ==>
              SplitLines(line + [c] + later) == [line] + SplitLines(later)
    ensures SplitLines(line + "\r\n" + later) == [line] + SplitLines(later)
  {
    if c == '\r' ==> later == "" || later[0] != '\n' {
      BreakThenRest(line, [c], later);
    }
    BreakThenRest(line, "\r\n", later);
  }

  lemma BreakThenRest(line: string, b: string, later: string)
    requires NoBreaks(line) && b != "" && IsLineBreak(b[0]) && (|b| == 1 || b == "\r\n")
    requires b == "\r" ==> later == "" || later[0] != '\n'
    ensures SplitLines(line + b + later) == [line] + SplitLines(later)
  {
    var s := line + b + later;
    assert forall j :: 0 <= j < |line| ==> s[j] == line[j] && line[j] in line;
    assert s[|line|] == b[0];
    assert FirstBreak(s, 0) == |line|;
    assert s[..|line|] == line && s[|line| + |b|..] == later;
  }

  lemma OneLine(line: string)
    requires NoBreaks(line) && line != ""
    ensures SplitLines(line) == [line]
  {
    assert forall j :: 0 <= j < |line| ==> line[j] in line;
  }

  lemma {:induction false} LinesAreSplit(lines: seq<string>)
    requires lines != [] && lines[|lines| - 1] != "" && forall l :: l in lines ==> NoBreaks(l)
    ensures SplitLines(Join("\n", lines)) == lines
  {
    assert lines[0] in lines;
    if |lines| == 1 {
      OneLine(lines[0]);
    } else {
      LinesAreSplit(lines[1..]);
      JoinCons("\n", lines);
      LineEndsAtBreak(lines[0], '\n', Join("\n", lines[1..]));
    }
  }

  /** The data lines among other lines, in order. */
  lemma {:induction false} DataLinesAreKept(lines: seq<string>, parts: seq<string>)
    requires |lines| == |parts|
    requires forall i :: 0 <= i < |lines| ==> lines[i] == "data:" + parts[i]
    ensures |DataLines(lines)| == |parts| && forall i :: 0 <= i < |parts| ==> DataLines(lines)[i] == Strip(parts[i])
  {
    if lines == [] {
    } else {
      DataLinesAreKept(lines[1..], parts[1..]);
      assert lines[0][5..] == parts[0];
      var d := DataLines(lines);
      assert d == [Strip(parts[0])] + DataLines(lines[1..]);
      forall i | 0 <= i < |parts| ensures d[i] == Strip(parts[i]) {
        assert i > 0 ==> d[i] == DataLines(lines[1..])[i - 1];
      }
    }
  }

  lemma {:induction false} OtherLinesAreIgnored(front: seq<string>, line: string, later: seq<string>)
    requires !("data:" <= line)
    ensures DataLines(front + [line] + later) == DataLines(front + later)
  {
    if front == [] {
      assert front + [line] + later == [line] + later && front + later == later;
    } else {
      OtherLinesAreIgnored(front[1..], line, later);
      assert (front + [line] + later)[1..] == front[1..] + [line] + later;
      assert (front + later)[1..] == front[1..] + later;
    }
  }

  /** A payload sent as several data lines arrives with a line feed between the stripped parts. */
  lemma PartsAreJoined(parts: seq<string>, data: seq<string>)
    requires parts != [] && |data| == |parts|
    requires forall i :: 0 <= i < |parts| ==> NoBreaks(parts[i]) && data[i] == Strip(parts[i])
    ensures var lines := seq(|parts|, i requires 0 <= i < |parts| => "data:" + parts[i]);
            PayloadOf(Join("\n", lines)) == Some(Join("\n", data))
  {
    var lines := seq(|parts|, i requires 0 <= i < |parts| => "data:" + parts[i]);
    forall l | l in lines ensures NoBreaks(l) {
      var i :| 0 <= i < |lines| && lines[i] == l;
      DataIsClean(parts[i]);
    }
    LinesAreSplit(lines);
    DataLinesAreKept(lines, parts);
    assert DataLines(lines) == data;
  }

  lemma DataIsClean(part: string)
    requires NoBreaks(part)
    ensures NoBreaks("data:" + part)
  {
    forall c | c in "data:" + part ensures !IsLineBreak(c) {
      assert c in part || c in "data:";
    }
  }

  // ---------------------------------------------------------------- whole streams

  /** What a payload on the wire says: the end marker says nothing. */
  ghost predicate Sends(p: string, loads: string -> Option<Value>, text: string, finish: Value) {
    if p == "[DONE]" then text == "" && finish == Null
    else loads(p).Some? && Carries(loads(p).value, Str(text), finish)
  }

  /** The texts that are not empty, in order. */
  function Spoken(texts: seq<string>): seq<string> {
    if texts == [] then []
    else
      var front, text := Spoken(texts[..|texts| - 1]), texts[|texts| - 1];
      if text == "" then front else front + [text]
  }

  /** The last reason that is not null. */
  function LastReason(finishes: seq<Value>): Option<Value> {
    if finishes == [] then None
    else if finishes[|finishes| - 1] != Null then Some(finishes[|finishes| - 1])
    else LastReason(finishes[..|finishes| - 1])
  }

  lemma {:induction false} SpokenSpellsAll(texts: seq<string>)
    ensures Concat(Spoken(texts)) == Concat(texts)
  {
    if texts == [] {
    } else {
      var front, text := texts[..|texts| - 1], texts[|texts| - 1];
      SpokenSpellsAll(front);
      assert text == "" ==> Concat(front) + text == Concat(front);
    }
  }

  /** A piece of an answer as a parser hands it over: nothing at all, or one delta. */
  function Said(text: string, finish: Value): seq<Delta> {
    if text == "" && finish == Null then [] else [Delta(text, if finish == Null then None else Some(finish))]
  }

  lemma FrameIsRead(p: string, loads: string -> Option<Value>, text: string, finish: Value, show: Value -> string)
    requires NoBreaks(p) && Strip(p) == p && Sends(p, loads, text, finish)
    ensures Vllm(loads)(Frame(p)) == Deltas(Said(text, finish))
    ensures OpenRouter(loads, show)(Frame(p)) == Deltas(Said(text, Null))
  {
    FrameRoundTripIff(p);
    if p != "[DONE]" {
      TextIsHandedOver(loads(p).value, text, finish, show);
    }
  }

  lemma YieldSaid(o: Outcome, text: string, finish: Value)
    ensures Yield(o, Said(text, finish)) == o.(tokens := o.tokens + (if text == "" then [] else [text]),
                                              finish := if finish == Null then o.finish else Some(finish))
  {
    assert o.tokens + [] == o.tokens;
    if Said(text, finish) != [] {
      assert Said(text, finish)[..0] == [];
    }
  }

  /** A consumer of blocks that each say one thing. */
  lemma {:induction false} BlocksSpeak(blocks: seq<string>, parse: string -> BlockResult, texts: seq<string>,
                                       finishes: seq<Value>)
    requires |texts| == |blocks| && |finishes| == |blocks|
    requires forall i :: 0 <= i < |blocks| ==> parse(blocks[i]) == Deltas(Said(texts[i], finishes[i]))
    ensures FeedAll(START, blocks, parse) == Outcome(Spoken(texts), LastReason(finishes), None)
  {
    if blocks == [] {
    } else {
      var n := |blocks| - 1;
      BlocksSpeak(blocks[..n], parse, texts[..n], finishes[..n]);
      YieldSaid(FeedAll(START, blocks[..n], parse), texts[n], finishes[n]);
      assert Spoken(texts[..n]) + [] == Spoken(texts[..n]);
    }
  }

  lemma {:induction false} NoReason(finishes: seq<Value>)
    requires forall i :: 0 <= i < |finishes| ==> finishes[i] == Null
    ensures LastReason(finishes) == None
  {
    if finishes == [] {
    } else {
      NoReason(finishes[..|finishes| - 1]);
    }
  }

  /** What the payloads say, one after another. */
  ghost predicate AllSend(payloads: seq<string>, loads: string -> Option<Value>, texts: seq<string>,
                          finishes: seq<Value>)
  {
    && |texts| == |payloads| && |finishes| == |payloads|
    && forall i :: 0 <= i < |payloads| ==>
         NoBreaks(payloads[i]) && Strip(payloads[i]) == payloads[i] && Sends(payloads[i], loads, texts[i], finishes[i])
  }

  lemma FramesSpeak(payloads: seq<string>, frames: seq<string>, loads: string -> Option<Value>, texts: seq<string>,
                    finishes: seq<Value>, show: Value -> string)
    requires AllSend(payloads, loads, texts, finishes)
    requires |frames| == |payloads| && forall i :: 0 <= i < |frames| ==> frames[i] == Frame(payloads[i])
    ensures FeedAll(START, frames, Vllm(loads)) == Outcome(Spoken(texts), LastReason(finishes), None)
    ensures FeedAll(START, frames, OpenRouter(loads, show)) == Outcome(Spoken(texts), None, None)
  {
    var unfinished := seq(|texts|, _ => Null);
    forall i | 0 <= i < |frames|
      ensures Vllm(loads)(frames[i]) == Deltas(Said(texts[i], finishes[i]))
      ensures OpenRouter(loads, show)(frames[i]) == Deltas(Said(texts[i], unfinished[i]))
    {
      FrameIsRead(payloads[i], loads, texts[i], finishes[i], show);
    }
    BlocksSpeak(frames, Vllm(loads), texts, finishes);
    BlocksSpeak(frames, OpenRouter(loads, show), texts, unfinished);
    NoReason(unfinished);
  }

  /** The framed payloads, with or without the blank line behind the last one. */
  function Wire(payloads: seq<string>, closed: bool): string {
    if closed || payloads == [] then Encode(payloads)
    else Encode(payloads[..|payloads| - 1]) + Frame(payloads[|payloads| - 1])
  }

  lemma FrameIsOneBlock(p: string)
    requires NoBreaks(p)
    ensures Blocks(Frame(p)) == [] && Rest(Frame(p)) == Frame(p) && Strip(Frame(p)) != ""
  {
    var f := Frame(p);
    FrameChars(p);
    assert SEPARATOR[0] == '\n' && IsLineBreak('\n');
    forall i ensures !At(f, SEPARATOR, i) {
      AtIndex(f, SEPARATOR, i, 0);
      assert 0 <= i < |f| ==> f[i] in f && !IsLineBreak(f[i]);
    }
    assert f[0] == 'd' && f[0] in f;
    StripIsBlankIff(f);
  }

  /** A text whose rest is empty and one more block without a separator. */
  lemma LastBlockIsFlushed(text: string, f: string)
    requires Rest(text) == "" && Blocks(f) == [] && Rest(f) == f && Strip(f) != ""
    ensures Received(text + f) == Blocks(text) + [f]
  {
    SplitResumes(text, f);
    assert "" + f == f;
    assert Blocks(text) + [] == Blocks(text);
  }

  lemma TerminatedIsReceived(text: string)
    requires Rest(text) == ""
    ensures Received(text) == Blocks(text)
  {
    assert Blocks(text) + [] == Blocks(text);
  }

  lemma ClosedWireIsReceived(payloads: seq<string>)
    requires forall p :: p in payloads ==> NoBreaks(p)
    ensures var r := Received(Encode(payloads));
            |r| == |payloads| && forall i :: 0 <= i < |payloads| ==> r[i] == Frame(payloads[i])
  {
    EncodedBlocks(payloads);
    TerminatedIsReceived(Encode(payloads));
  }

  lemma OpenWireIsReceived(front: seq<string>, last: string)
    requires NoBreaks(last) && forall p :: p in front ==> NoBreaks(p)
    ensures var r := Received(Encode(front) + Frame(last));
            |r| == |front| + 1 && r[|front|] == Frame(last) && forall i :: 0 <= i < |front| ==> r[i] == Frame(front[i])
  {
    EncodedBlocks(front);
    FrameIsOneBlock(last);
    LastBlockIsFlushed(Encode(front), Frame(last));
  }

  lemma WireIsReceived(payloads: seq<string>, closed: bool)
    requires forall p :: p in payloads ==> NoBreaks(p)
    ensures var r := Received(Wire(payloads, closed));
            |r| == |payloads| && forall i :: 0 <= i < |payloads| ==> r[i] == Frame(payloads[i])
  {
    if closed || payloads == [] {
      ClosedWireIsReceived(payloads);
    } else {
      assert payloads[|payloads| - 1] in payloads;
      OpenWireIsReceived(payloads[..|payloads| - 1], payloads[|payloads| - 1]);
    }
  }

  /** However a stream of payloads is cut into network chunks: the tokens of both clients are the texts that are not
      empty, together they spell the whole answer, nothing fails, and the vLLM client knows the last reason given. */
  lemma TextArrives(payloads: seq<string>, closed: bool, chunks: seq<string>, loads: string -> Option<Value>,
                    texts: seq<string>, finishes: seq<Value>, show: Value -> string)
    requires AllSend(payloads, loads, texts, finishes) && Concat(chunks) == Wire(payloads, closed)
    ensures var o := StreamOutcome(Concat(chunks), Vllm(loads));
            o == Outcome(Spoken(texts), LastReason(finishes), None) && Concat(o.tokens) == Concat(texts)
    ensures var o := StreamOutcome(Concat(chunks), OpenRouter(loads, show));
            o == Outcome(Spoken(texts), None, None) && Concat(o.tokens) == Concat(texts)
  {
    forall p | p in payloads ensures NoBreaks(p) {
      var i :| 0 <= i < |payloads| && payloads[i] == p;
    }
    WireIsReceived(payloads, closed);
    FramesSpeak(payloads, Received(Concat(chunks)), loads, texts, finishes, show);
    StreamIsFed(Concat(chunks), Vllm(loads));
    StreamIsFed(Concat(chunks), OpenRouter(loads, show));
    SpokenSpellsAll(texts);
  }
}
