/** Reassembly of a chunked server-sent-event stream: the buffer loops of src/meno_rag/llm/client.py and
    src/meno_rag/llm/openrouter_client.py with their two parsers, and the `data:` framing of
    src/meno_rag/api/events.py.  `json.loads` is an arbitrary function from text to a JSON value. */
module SseStream {
  import opened Text
  import opened Json

  /** A piece of an answer; `finish` is any JSON value but null. */
  datatype Delta = Delta(content: string, finish: Option<Value>)

  /** What a parser raises: the ValueError of `json.loads`, an AttributeError, TypeError, KeyError or IndexError
      of a payload of another shape, or an error the upstream reports. */
  datatype Fault = NotJson | WrongShape | Upstream(message: Value)

  datatype BlockResult = Deltas(deltas: seq<Delta>) | Raised(error: Fault)

  /** What the loop has yielded; once `error` is set the generator has raised. */
  datatype Outcome = Outcome(tokens: seq<string>, finish: Option<Value>, error: Option<Fault>)

  const START := Outcome([], None, None)
  const SEPARATOR := "\n\n"

  // ---------------------------------------------------------------- specification on the whole text

  /** Where the first blank line is, or -1. */
  function Sep(text: string): (r: int)
    ensures r == -1 || 0 <= r <= |text| - 2
  {
    FindFrom(text, SEPARATOR, 0)
  }

  /** The event blocks of a text: cut at every blank line, leftmost first. */
  function Blocks(text: string): seq<string>
    decreases |text|
  {
    var i := Sep(text);
    if i < 0 then [] else [text[..i]] + Blocks(text[i + 2..])
  }

  /** What follows the last block. */
  function Rest(text: string): string
    decreases |text|
  {
    var i := Sep(text);
    if i < 0 then text else Rest(text[i + 2..])
  }

  function Yield(o: Outcome, deltas: seq<Delta>): (r: Outcome)
    ensures r.error == o.error
  {
    if deltas == [] then o
    else
      var prev, d := Yield(o, deltas[..|deltas| - 1]), deltas[|deltas| - 1];
      prev.(tokens := if d.content != "" then prev.tokens + [d.content] else prev.tokens,
            finish := if d.finish.Some? then d.finish else prev.finish)
  }

  function Feed(o: Outcome, block: string, parse: string -> BlockResult): Outcome {
    if o.error.Some? then o
    else
      match parse(block)
      case Deltas(ds) => Yield(o, ds)
      case Raised(e) => o.(error := Some(e))
  }

  function FeedAll(o: Outcome, blocks: seq<string>, parse: string -> BlockResult): Outcome {
    if blocks == [] then o else Feed(FeedAll(o, blocks[..|blocks| - 1], parse), blocks[|blocks| - 1], parse)
  }

  /** The outcome of a stream as a function of its whole text. */
  function StreamOutcome(text: string, parse: string -> BlockResult): Outcome {
    var o := FeedAll(START, Blocks(text), parse);
    if Strip(Rest(text)) != "" then Feed(o, Rest(text), parse) else o
  }

  function Concat(chunks: seq<string>): string {
    if chunks == [] then "" else Concat(chunks[..|chunks| - 1]) + chunks[|chunks| - 1]
  }

  // ---------------------------------------------------------------- the buffer loop

  lemma FirstStaysFirst(a: string, b: string)
    requires Sep(a) >= 0
    ensures Sep(a + b) == Sep(a)
  {
    assert (a + b)[..|a|] == a;
    AtPrefix(a + b, |a|, SEPARATOR, Sep(a));
    AtPrefix(a + b, |a|, SEPARATOR, Sep(a + b));
  }

  lemma StepTo(text: string, i: nat, tail: string)
    requires Sep(text) == i && tail == text[i + 2..]
    ensures Blocks(text) == [text[..i]] + Blocks(tail) && Rest(text) == Rest(tail)
  {
  }

  lemma Reassociate(x: string, u: seq<string>, v: seq<string>)
    ensures [x] + (u + v) == [x] + u + v
  {
  }

  /** Cutting can be resumed: only the rest of the text seen so far matters for the text to come. */
  lemma {:induction false} SplitResumes(a: string, b: string)
    ensures Blocks(a + b) == Blocks(a) + Blocks(Rest(a) + b)
    ensures Rest(a + b) == Rest(Rest(a) + b)
    decreases |a|
  {
    var i := Sep(a);
    if i < 0 {
      assert Blocks(a) == [] && Rest(a) == a;
    } else {
      var tail, ab := a[i + 2..], a + b;
      FirstStaysFirst(a, b);
      assert ab[..i] == a[..i];
      assert ab[i + 2..] == tail + b;
      StepTo(a, i, tail);
      StepTo(ab, i, tail + b);
      SplitResumes(tail, b);
      Reassociate(a[..i], Blocks(tail), Blocks(Rest(tail) + b));
    }
  }

  lemma {:induction false} FeedAllConcat(o: Outcome, a: seq<string>, b: seq<string>, parse: string -> BlockResult)
    ensures FeedAll(o, a + b, parse) == FeedAll(FeedAll(o, a, parse), b, parse)
  {
    if b == [] {
      assert a + b == a;
    } else {
      assert (a + b)[..|a + b| - 1] == a + b[..|b| - 1];
      FeedAllConcat(o, a, b[..|b| - 1], parse);
    }
  }

  lemma {:induction false} ErrorStops(o: Outcome, blocks: seq<string>, parse: string -> BlockResult)
    requires o.error.Some?
    ensures FeedAll(o, blocks, parse) == o
  {
    if blocks == [] {
    } else {
      ErrorStops(o, blocks[..|blocks| - 1], parse);
    }
  }

  /** Once a block has raised, the rest of the text no longer matters. */
  lemma ErrorIsFinal(text: string, later: string, parse: string -> BlockResult)
    requires FeedAll(START, Blocks(text), parse).error.Some?
    ensures StreamOutcome(text + later, parse) == FeedAll(START, Blocks(text), parse)
  {
    var more := Blocks(Rest(text) + later);
    SplitResumes(text, later);
    FeedAllConcat(START, Blocks(text), more, parse);
    ErrorStops(FeedAll(START, Blocks(text), parse), more, parse);
  }

  lemma {:induction false} ConcatSplit(chunks: seq<string>, i: nat)
    requires i <= |chunks|
    ensures Concat(chunks) == Concat(chunks[..i]) + Concat(chunks[i..])
  {
    if i == |chunks| {
      assert chunks[..i] == chunks;
    } else {
      var front := chunks[..|chunks| - 1];
      ConcatSplit(front, i);
      assert front[..i] == chunks[..i];
      assert chunks[i..][..|chunks[i..]| - 1] == front[i..];
      assert (Concat(chunks[..i]) + Concat(front[i..])) + chunks[|chunks| - 1]
          == Concat(chunks[..i]) + (Concat(front[i..]) + chunks[|chunks| - 1]);
    }
  }

  /** Feeding a list of blocks begins with its first. */
  lemma FeedFirst(o: Outcome, block: string, later: seq<string>, parse: string -> BlockResult)
    ensures FeedAll(o, [block] + later, parse) == FeedAll(Feed(o, block, parse), later, parse)
    ensures Feed(o, block, parse).error.Some? ==> FeedAll(o, [block] + later, parse) == Feed(o, block, parse)
  {
    assert [block][..0] == [];
    FeedAllConcat(o, [block], later, parse);
    if Feed(o, block, parse).error.Some? {
      ErrorStops(Feed(o, block, parse), later, parse);
    }
  }

  /** One parsed block handed to the consumer. */
  method Emit(o: Outcome, deltas: seq<Delta>) returns (r: Outcome)
    ensures r == Yield(o, deltas)
  {
    r := o;
    for i := 0 to |deltas|
      invariant r == Yield(o, deltas[..i])
    {
      assert deltas[..i + 1][..i] == deltas[..i];
      if deltas[i].content != "" {
        r := r.(tokens := r.tokens + [deltas[i].content]);
      }
      if deltas[i].finish.Some? {
        r := r.(finish := deltas[i].finish);
      }
    }
    assert deltas[..|deltas|] == deltas;
  }

  /** The inner loop: feeds every complete block of the buffer, stopping at the first that raises. */
  method Drain(start: Outcome, buffer: string, parse: string -> BlockResult) returns (o: Outcome, rest: string)
    requires start.error.None?
    ensures o == FeedAll(start, Blocks(buffer), parse)
    ensures o.error.None? ==> rest == Rest(buffer)
  {
    o, rest := start, buffer;
    var i := Sep(rest);
    while i >= 0
      invariant i == Sep(rest) && o.error.None?
      invariant FeedAll(start, Blocks(buffer), parse) == FeedAll(o, Blocks(rest), parse)
      invariant Rest(buffer) == Rest(rest)
      decreases |rest|
    {
      var block, tail := rest[..i], rest[i + 2..];
      StepTo(rest, i, tail);
      FeedFirst(o, block, Blocks(tail), parse);
      rest := tail;
      match parse(block) {
        case Raised(e) =>
          o := o.(error := Some(e));
          return;
        case Deltas(ds) =>
          o := Emit(o, ds);
      }
      i := Sep(rest);
    }
  }

  /** The loop of `stream_chat_completion`: what it yields, and where it raises, depends only on the
      concatenated text, however the text was split into network chunks. */
  method StreamChatCompletion(chunks: seq<string>, parse: string -> BlockResult) returns (o: Outcome)
    ensures o == StreamOutcome(Concat(chunks), parse)
  {
    o := START;
    var buffer := "";
    for n := 0 to |chunks|
      invariant o.error.None?
      invariant buffer == Rest(Concat(chunks[..n]))
      invariant o == FeedAll(START, Blocks(Concat(chunks[..n])), parse)
    {
      ghost var seen := Concat(chunks[..n]);
      assert chunks[..n + 1][..n] == chunks[..n];
      SplitResumes(seen, chunks[n]);
      buffer := buffer + chunks[n];
      FeedAllConcat(START, Blocks(seen), Blocks(buffer), parse);
      o, buffer := Drain(o, buffer, parse);
      if o.error.Some? {
        ConcatSplit(chunks, n + 1);
        ErrorIsFinal(Concat(chunks[..n + 1]), Concat(chunks[n + 1..]), parse);
        return;
      }
    }
    assert chunks[..|chunks|] == chunks;
    if Strip(buffer) != "" {
      match parse(buffer) {
        case Raised(e) => o := o.(error := Some(e));
        case Deltas(ds) => o := Emit(o, ds);
      }
    }
  }

  function Glue(blocks: seq<string>): string {
    if blocks == [] then "" else blocks[0] + SEPARATOR + Glue(blocks[1..])
  }

  lemma FirstBlockHasNoSeparator(text: string)
    requires Sep(text) >= 0
    ensures !Contains(text[..Sep(text)], SEPARATOR)
  {
    forall j ensures !At(text[..Sep(text)], SEPARATOR, j) {
      AtPrefix(text, Sep(text), SEPARATOR, j);
    }
  }

  lemma AroundSeparator(text: string, i: nat)
    requires Sep(text) == i
    ensures text == text[..i] + SEPARATOR + text[i + 2..]
  {
  }

  lemma {:induction false} GlueBlocks(text: string)
    ensures Glue(Blocks(text)) + Rest(text) == text
    decreases |text|
  {
    var i := Sep(text);
    if i < 0 {
      assert Blocks(text) == [] && Rest(text) == text;
    } else {
      var block, tail := text[..i], text[i + 2..];
      GlueBlocks(tail);
      StepTo(text, i, tail);
      GlueStep(block, Blocks(tail), Rest(tail));
      AroundSeparator(text, i);
    }
  }

  lemma {:induction false} BlocksHaveNoSeparator(text: string, b: string)
    requires b in Blocks(text) || b == Rest(text)
    ensures !Contains(b, SEPARATOR)
    decreases |text|
  {
    var i := Sep(text);
    if i >= 0 {
      StepTo(text, i, text[i + 2..]);
      if b == text[..i] {
        FirstBlockHasNoSeparator(text);
      } else {
        BlocksHaveNoSeparator(text[i + 2..], b);
      }
    }
  }

  /** The blocks and the rest are the text itself, and none of them holds a blank line. */
  lemma BlocksMeaning(text: string)
    ensures Glue(Blocks(text)) + Rest(text) == text
    ensures forall b :: b in Blocks(text) || b == Rest(text) ==> !Contains(b, SEPARATOR)
  {
    GlueBlocks(text);
    forall b | b in Blocks(text) || b == Rest(text) ensures !Contains(b, SEPARATOR) {
      BlocksHaveNoSeparator(text, b);
    }
  }

  lemma GlueStep(block: string, blocks: seq<string>, rest: string)
    ensures Glue([block] + blocks) + rest == block + SEPARATOR + (Glue(blocks) + rest)
  {
  }

  // ---------------------------------------------------------------- one block

  predicate IsLineBreak(c: char) {
    '\U{000a}' <= c <= '\U{000d}' || '\U{001c}' <= c <= '\U{001e}' || c == '\U{0085}' || c == '\U{2028}'
    || c == '\U{2029}'
  }

  predicate NoBreaks(s: string) {
    forall c :: c in s ==> !IsLineBreak(c)
  }

  function FirstBreak(s: string, from: nat): (r: nat)
    requires from <= |s|
    ensures from <= r <= |s| && (forall j :: from <= j < r ==> !IsLineBreak(s[j])) && (r < |s| ==> IsLineBreak(s[r]))
    decreases |s| - from
  {
    if from == |s| || IsLineBreak(s[from]) then from else FirstBreak(s, from + 1)
  }

  /** Where the line after the first break starts; CR LF counts as one break. */
  function NextLine(s: string): (k: nat)
    requires s != "" && FirstBreak(s, 0) < |s|
    ensures FirstBreak(s, 0) < k <= |s|
  {
    var i := FirstBreak(s, 0);
    if s[i] == '\r' && i + 1 < |s| && s[i + 1] == '\n' then i + 2 else i + 1
  }

  /** Python's `str.splitlines()`. */
  function SplitLines(s: string): seq<string>
    decreases |s|
  {
    if s == "" then []
    else
      var i := FirstBreak(s, 0);
      if i == |s| then [s]
      else [s[..i]] + SplitLines(s[NextLine(s)..])
  }

  /** The stripped remainder of every line that begins with `data:`. */
  function DataLines(lines: seq<string>): seq<string> {
    if lines == [] then []
    else
      var later := DataLines(lines[1..]);
      if "data:" <= lines[0] then [Strip(lines[0][5..])] + later else later
  }

  /** The payload of a block, if it has any data line. */
  function PayloadOf(block: string): Option<string> {
    var data := DataLines(SplitLines(block));
    if data == [] then None else Some(Join("\n", data))
  }

  // ---------------------------------------------------------------- one payload

  /** `choices[0]`, where only a non-empty list or text has a first item. */
  function First(v: Value): Option<Value> {
    match v
    case List(items) => if items != [] then Some(items[0]) else None
    case Str(s) => if s != "" then Some(Str([s[0]])) else None
    case _ => None
  }

  /** `choice.get("delta", {})`, which must be a dictionary for the lookups that follow. */
  function DeltaOf(choice: Value): Option<Value> {
    if !choice.Dict? then None
    else if !Has(choice, "delta") then Some(Dict(map[]))
    else if Get(choice, "delta").Dict? then Some(Get(choice, "delta"))
    else None
  }

  function ContentOf(delta: Value): string
    requires delta.Dict?
  {
    match Get(delta, "content")
    case Str(s) => s
    case _ => ""
  }

  /** The vLLM client after `json.loads`. */
  function ReadVllm(data: Value): BlockResult {
    if !data.Dict? then Raised(WrongShape)
    else
      var error := if Has(data, "error") then Get(data, "error") else Dict(map[]);
      if !error.Dict? then Raised(WrongShape)
      else if Truthy(Get(error, "message")) then Raised(Upstream(Get(error, "message")))
      else
        var choice := First(if Has(data, "choices") then Get(data, "choices") else List([Dict(map[])]));
        if choice.None? || DeltaOf(choice.value).None? then Raised(WrongShape)
        else
          var content, finish := ContentOf(DeltaOf(choice.value).value), Get(choice.value, "finish_reason");
          if content != "" || finish != Null
          then Deltas([Delta(content, if finish != Null then Some(finish) else None)])
          else Deltas([])
  }

  /** The OpenRouter client after `json.loads`; `show` is Python's `str`. */
  function ReadOpenRouter(data: Value, show: Value -> string): BlockResult {
    if !data.Dict? then Raised(WrongShape)
    else
      var error := Get(data, "error");
      if error.Dict? && Truthy(Get(error, "message")) then Raised(Upstream(Get(error, "message")))
      else if Truthy(error) then Raised(Upstream(Str(show(error))))
      else
        var choices := if Truthy(Get(data, "choices")) then Get(data, "choices") else List([]);
        var delta :=
          if !Truthy(choices) then Some(Dict(map[]))
          else if First(choices).None? then None
          else DeltaOf(First(choices).value);
        if delta.None? then Raised(WrongShape)
        else if ContentOf(delta.value) != "" then Deltas([Delta(ContentOf(delta.value), None)])
        else Deltas([])
  }

  function ParsePayload(payload: string, loads: string -> Option<Value>): BlockResult {
    if payload == "[DONE]" then Deltas([])
    else if loads(payload).None? then Raised(NotJson)
    else ReadVllm(loads(payload).value)
  }

  /** `_parse_sse_content_with_finish` of the vLLM client. */
  function ParseBlock(block: string, loads: string -> Option<Value>): BlockResult {
    var payload := PayloadOf(block);
    if payload.None? then Deltas([]) else ParsePayload(payload.value, loads)
  }

  /** `_parse_sse_content` of the OpenRouter client. */
  function ParseBlockOpenRouter(block: string, loads: string -> Option<Value>, show: Value -> string): BlockResult {
    var payload := PayloadOf(block);
    if payload.None? || payload.value == "[DONE]" then Deltas([])
    else if loads(payload.value).None? then Raised(NotJson)
    else ReadOpenRouter(loads(payload.value).value, show)
  }

  // ---------------------------------------------------------------- when the two clients deliver alike

  /** The shapes of an `error` field that matter: absent or an empty dictionary; another falsy value; a dictionary
      with other entries but no message; anything else. */
  datatype ErrorShape = NoError | FalsyError | WordlessError | LoudError

  function ShapeOfError(data: Value): ErrorShape {
    if !Has(data, "error") then NoError
    else
      var error := Get(data, "error");
      if error.Dict? then
        if error.fields == map[] then NoError else if Truthy(Get(error, "message")) then LoudError else WordlessError
      else if Truthy(error) then LoudError
      else FalsyError
  }

  /** The shapes of a `choices` field that matter: absent; falsy; beginning with a choice whose delta, if any, is a
      dictionary; anything else. */
  datatype ChoicesShape = NoChoices | FalsyChoices | GoodChoices | BadChoices

  function ShapeOfChoices(data: Value): ChoicesShape {
    if !Has(data, "choices") then NoChoices
    else
      var choices := Get(data, "choices");
      if !Truthy(choices) then FalsyChoices
      else if choices.List? && DeltaOf(choices.items[0]).Some? then GoodChoices
      else BadChoices
  }

  /** The payloads on which both clients do the same. */
  predicate ReadAlike(data: Value) {
    data.Dict? ==>
      match ShapeOfError(data)
      case NoError => ShapeOfChoices(data) != FalsyChoices
      case FalsyError => ShapeOfChoices(data) == BadChoices
      case WordlessError => ShapeOfChoices(data) == FalsyChoices || ShapeOfChoices(data) == BadChoices
      case LoudError => true
  }

  /** The vLLM client raises, in terms of the same shapes. */
  predicate VllmRaises(data: Value) {
    data.Dict? ==>
      || ShapeOfError(data) == FalsyError || ShapeOfError(data) == LoudError
      || ShapeOfChoices(data) == FalsyChoices || ShapeOfChoices(data) == BadChoices
  }

  /** The text a consumer sees. */
  function Tokens(ds: seq<Delta>): seq<string> {
    if ds == [] then []
    else
      var front, d := Tokens(ds[..|ds| - 1]), ds[|ds| - 1];
      if d.content != "" then front + [d.content] else front
  }

  /** Both raise, or both hand over the same tokens. */
  predicate SameResult(r: BlockResult, t: BlockResult) {
    r.Raised? == t.Raised? && (r.Deltas? ==> Tokens(r.deltas) == Tokens(t.deltas))
  }

  lemma TokensOfOne(d: Delta)
    ensures Tokens([d]) == if d.content != "" then [d.content] else []
  {
    assert [d][..0] == [];
  }

  /** On every JSON value: the two clients do the same exactly when its shape says so. */
  lemma ReadAlikeIff(data: Value, show: Value -> string)
    ensures SameResult(ReadVllm(data), ReadOpenRouter(data, show)) <==> ReadAlike(data)
    ensures ReadVllm(data).Raised? <==> VllmRaises(data)
  {
    match ReadVllm(data)
    case Raised(_) =>
    case Deltas(ds) =>
      if ds != [] {
        assert ds == [ds[0]];
        TokensOfOne(ds[0]);
        TokensOfOne(Delta(ds[0].content, None));
      }
  }

  /** Two payloads on which they differ: a null error stops the vLLM client only, and so does an empty list of
      choices. */
  lemma NullErrorAndNoChoicesDiffer(show: Value -> string)
    ensures var delta := Dict(map["delta" := Dict(map["content" := Str("a")])]);
            var nullError := Dict(map["error" := Null, "choices" := List([delta])]);
            && ReadVllm(nullError) == Raised(WrongShape)
            && ReadOpenRouter(nullError, show) == Deltas([Delta("a", None)])
    ensures var noChoices := Dict(map["choices" := List([])]);
            ReadVllm(noChoices) == Raised(WrongShape) && ReadOpenRouter(noChoices, show) == Deltas([])
  {
  }

  // ---------------------------------------------------------------- whole streams

  /** The parsers the two loops call. */
  function Vllm(loads: string -> Option<Value>): string -> BlockResult {
    (block: string) => ParseBlock(block, loads)
  }

  function OpenRouter(loads: string -> Option<Value>, show: Value -> string): string -> BlockResult {
    (block: string) => ParseBlockOpenRouter(block, loads, show)
  }

  /** The blocks a loop hands to its parser, the trailing flush included. */
  function Received(text: string): seq<string> {
    Blocks(text) + if Strip(Rest(text)) != "" then [Rest(text)] else []
  }

  lemma StreamIsFed(text: string, parse: string -> BlockResult)
    ensures StreamOutcome(text, parse) == FeedAll(START, Received(text), parse)
  {
    assert (Blocks(text) + [Rest(text)])[..|Blocks(text)|] == Blocks(text);
    assert Blocks(text) + [] == Blocks(text);
  }

  predicate BlockAlike(block: string, loads: string -> Option<Value>) {
    var p := PayloadOf(block);
    p.None? || p.value == "[DONE]" || loads(p.value).None? || ReadAlike(loads(p.value).value)
  }

  predicate BlockRaises(block: string, loads: string -> Option<Value>) {
    var p := PayloadOf(block);
    p.Some? && p.value != "[DONE]" && (loads(p.value).Some? ==> VllmRaises(loads(p.value).value))
  }

  ghost predicate RaisedBefore(blocks: seq<string>, i: nat, loads: string -> Option<Value>)
    requires i <= |blocks|
  {
    exists j :: 0 <= j < i && BlockRaises(blocks[j], loads)
  }

  /** No block on which the clients differ is reached. */
  ghost predicate NeverDiverges(blocks: seq<string>, loads: string -> Option<Value>) {
    forall i :: 0 <= i < |blocks| && !BlockAlike(blocks[i], loads) ==> RaisedBefore(blocks, i, loads)
  }

  /** What a consumer can tell apart: the tokens so far and whether the stream has failed. */
  predicate SeenAlike(o: Outcome, p: Outcome) {
    o.tokens == p.tokens && o.error.Some? == p.error.Some?
  }

  /** The consumers of the two clients see the same after every block. */
  ghost predicate DeliverAlike(blocks: seq<string>, loads: string -> Option<Value>, show: Value -> string) {
    forall n :: 0 <= n <= |blocks| ==>
      SeenAlike(FeedAll(START, blocks[..n], Vllm(loads)), FeedAll(START, blocks[..n], OpenRouter(loads, show)))
  }

  lemma BlockAlikeIff(block: string, loads: string -> Option<Value>, show: Value -> string)
    ensures SameResult(Vllm(loads)(block), OpenRouter(loads, show)(block)) <==> BlockAlike(block, loads)
    ensures Vllm(loads)(block).Raised? <==> BlockRaises(block, loads)
  {
    var p := PayloadOf(block);
    if p.Some? && loads(p.value).Some? {
      ReadAlikeIff(loads(p.value).value, show);
    }
  }

  lemma {:induction false} YieldAppendsTokens(o: Outcome, ds: seq<Delta>)
    ensures Yield(o, ds).tokens == o.tokens + Tokens(ds)
  {
    if ds == [] {
    } else {
      YieldAppendsTokens(o, ds[..|ds| - 1]);
    }
  }

  /** One block more keeps both consumers alike exactly when the parsers agree on it. */
  lemma FedAlikeIff(o: Outcome, p: Outcome, block: string, parse: string -> BlockResult, other: string -> BlockResult)
    requires SeenAlike(o, p) && o.error.None?
    ensures SeenAlike(Feed(o, block, parse), Feed(p, block, other)) <==> SameResult(parse(block), other(block))
    ensures Feed(o, block, parse).error.Some? <==> parse(block).Raised?
  {
    if parse(block).Deltas? && other(block).Deltas? {
      YieldAppendsTokens(o, parse(block).deltas);
      YieldAppendsTokens(p, other(block).deltas);
      assert o.tokens + Tokens(parse(block).deltas) == p.tokens + Tokens(other(block).deltas) ==>
          (o.tokens + Tokens(parse(block).deltas))[|o.tokens|..]
            == (p.tokens + Tokens(other(block).deltas))[|o.tokens|..];
    }
  }

  lemma {:induction false} AllFedAlike(blocks: seq<string>, loads: string -> Option<Value>, show: Value -> string)
    requires NeverDiverges(blocks, loads)
    ensures var o := FeedAll(START, blocks, Vllm(loads));
            && SeenAlike(o, FeedAll(START, blocks, OpenRouter(loads, show)))
            && (o.error.Some? <==> RaisedBefore(blocks, |blocks|, loads))
  {
    if blocks == [] {
    } else {
      var front, block := blocks[..|blocks| - 1], blocks[|blocks| - 1];
      PrefixNeverDiverges(blocks, loads, |front|);
      AllFedAlike(front, loads, show);
      var o, p := FeedAll(START, front, Vllm(loads)), FeedAll(START, front, OpenRouter(loads, show));
      RaisedBeforePrefix(blocks, |front|, loads);
      BlockAlikeIff(block, loads, show);
      if o.error.None? {
        FedAlikeIff(o, p, block, Vllm(loads), OpenRouter(loads, show));
      }
    }
  }

  /** The front has raised if and only if the whole has raised before its end, or on its last block. */
  lemma RaisedBeforePrefix(blocks: seq<string>, n: nat, loads: string -> Option<Value>)
    requires n <= |blocks|
    ensures RaisedBefore(blocks[..n], n, loads) <==> RaisedBefore(blocks, n, loads)
    ensures n < |blocks| ==>
              (RaisedBefore(blocks, n + 1, loads) <==> RaisedBefore(blocks, n, loads) || BlockRaises(blocks[n], loads))
  {
    if RaisedBefore(blocks, n, loads) {
      var j :| 0 <= j < n && BlockRaises(blocks[j], loads);
      assert BlockRaises(blocks[..n][j], loads);
    }
  }

  lemma PrefixNeverDiverges(blocks: seq<string>, loads: string -> Option<Value>, n: nat)
    requires n <= |blocks| && NeverDiverges(blocks, loads)
    ensures NeverDiverges(blocks[..n], loads)
  {
    forall i | 0 <= i < n && !BlockAlike(blocks[..n][i], loads) ensures RaisedBefore(blocks[..n], i, loads) {
      assert RaisedBefore(blocks, i, loads);
      var j :| 0 <= j < i && BlockRaises(blocks[j], loads);
      assert BlockRaises(blocks[..n][j], loads);
    }
  }

  /** The first block on which the clients differ, no earlier one having raised. */
  lemma FirstDivergence(blocks: seq<string>, loads: string -> Option<Value>) returns (i: nat)
    requires !NeverDiverges(blocks, loads)
    ensures i < |blocks| && !BlockAlike(blocks[i], loads) && !RaisedBefore(blocks, i, loads)
    ensures NeverDiverges(blocks[..i], loads)
    decreases |blocks|
  {
    i :| 0 <= i < |blocks| && !BlockAlike(blocks[i], loads) && !RaisedBefore(blocks, i, loads);
    if !NeverDiverges(blocks[..i], loads) {
      var k := FirstDivergence(blocks[..i], loads);
      RaisedBeforePrefix(blocks[..i], k, loads);
      RaisedBeforePrefix(blocks, k, loads);
      assert blocks[..i][..k] == blocks[..k];
      i := k;
    }
  }

  /** On every stream, the clients deliver the same tokens and fail at the same block exactly when no block that
      is reached has a payload they read differently. */
  lemma ClientsDeliverAlikeIff(text: string, loads: string -> Option<Value>, show: Value -> string)
    ensures DeliverAlike(Received(text), loads, show) <==> NeverDiverges(Received(text), loads)
    ensures NeverDiverges(Received(text), loads) ==>
              SeenAlike(StreamOutcome(text, Vllm(loads)), StreamOutcome(text, OpenRouter(loads, show)))
  {
    var blocks := Received(text);
    StreamIsFed(text, Vllm(loads));
    StreamIsFed(text, OpenRouter(loads, show));
    if NeverDiverges(blocks, loads) {
      AllFedAlike(blocks, loads, show);
      forall n | 0 <= n <= |blocks|
        ensures SeenAlike(FeedAll(START, blocks[..n], Vllm(loads)),
            FeedAll(START, blocks[..n], OpenRouter(loads, show)))
      {
        PrefixNeverDiverges(blocks, loads, n);
        AllFedAlike(blocks[..n], loads, show);
      }
    } else {
      var i := FirstDivergence(blocks, loads);
      DivergenceIsSeen(blocks, loads, show, i);
    }
  }

  lemma DivergenceIsSeen(blocks: seq<string>, loads: string -> Option<Value>, show: Value -> string, i: nat)
    requires i < |blocks| && !BlockAlike(blocks[i], loads) && !RaisedBefore(blocks, i, loads)
    requires NeverDiverges(blocks[..i], loads)
    ensures !DeliverAlike(blocks, loads, show)
  {
    var o, p := FeedAll(START, blocks[..i], Vllm(loads)), FeedAll(START, blocks[..i], OpenRouter(loads, show));
    AllFedAlike(blocks[..i], loads, show);
    RaisedBeforePrefix(blocks, i, loads);
    BlockAlikeIff(blocks[i], loads, show);
    FedAlikeIff(o, p, blocks[i], Vllm(loads), OpenRouter(loads, show));
    assert blocks[..i + 1][..i] == blocks[..i];
    assert !SeenAlike(FeedAll(START, blocks[..i + 1], Vllm(loads)),
        FeedAll(START, blocks[..i + 1], OpenRouter(loads, show)));
  }

  // ---------------------------------------------------------------- framing round trip

  function Frame(payload: string): string {
    "data: " + payload
  }

  /** The stream that a server sends for a list of payloads: `sse_data` of each. */
  function Encode(payloads: seq<string>): string {
    if payloads == [] then "" else Frame(payloads[0]) + SEPARATOR + Encode(payloads[1..])
  }

  function Weight(data: seq<string>): nat {
    if data == [] then 0 else |data[0]| + 1 + Weight(data[1..])
  }

  lemma {:induction false} StripShortens(s: string)
    ensures |Strip(s)| <= |s|
    decreases |s|
  {
    if s == "" {
    } else {
      if IsSpace(s[0]) {
        StripShortens(s[1..]);
      } else if IsSpace(s[|s| - 1]) {
        StripShortens(s[..|s| - 1]);
      }
    }
  }

  lemma LineWeight(line: string)
    ensures Weight(DataLines([line])) <= |line|
  {
    if "data:" <= line {
      StripShortens(line[5..]);
      assert [line][1..] == [];
      assert DataLines([line]) == [Strip(line[5..])];
    }
  }

  lemma DataLinesHead(line: string, later: seq<string>)
    ensures Weight(DataLines([line] + later)) == Weight(DataLines([line])) + Weight(DataLines(later))
  {
  }

  /** Splitting into data lines never gains characters. */
  lemma {:induction false} WeightBound(s: string)
    ensures Weight(DataLines(SplitLines(s))) <= |s|
    decreases |s|
  {
    if s == "" {
    } else {
      var i := FirstBreak(s, 0);
      if i == |s| {
        LineWeight(s);
      } else {
        LineWeight(s[..i]);
        WeightBound(s[NextLine(s)..]);
        DataLinesHead(s[..i], SplitLines(s[NextLine(s)..]));
      }
    }
  }

  lemma {:induction false} WeightAppend(data: seq<string>, x: string)
    ensures Weight(data + [x]) == Weight(data) + |x| + 1
  {
    if data == [] {
      assert data + [x] == [x];
    } else {
      assert (data + [x])[1..] == data[1..] + [x];
      WeightAppend(data[1..], x);
    }
  }

  lemma {:induction false} JoinLength(data: seq<string>)
    requires data != []
    ensures |Join("\n", data)| == Weight(data) - 1
  {
    if |data| > 1 {
      JoinLength(data[..|data| - 1]);
      WeightAppend(data[..|data| - 1], data[|data| - 1]);
      assert data == data[..|data| - 1] + [data[|data| - 1]];
    }
  }

  lemma FrameChars(p: string)
    ensures |Frame(p)| == |p| + 6 && "data:" <= Frame(p) && Frame(p)[5] == ' '
    ensures forall j :: 0 <= j < 6 ==> !IsLineBreak(Frame(p)[j])
    ensures forall j :: 0 <= j < |p| ==> Frame(p)[j + 6] == p[j]
    ensures NoBreaks(p) ==> NoBreaks(Frame(p))
  {
  }

  lemma FrameWithoutBreaks(p: string)
    requires NoBreaks(p)
    ensures PayloadOf(Frame(p)) == Some(Strip(p))
  {
    var f := Frame(p);
    FrameChars(p);
    assert SplitLines(f) == [f] by {
      var i := FirstBreak(f, 0);
      assert forall j :: 0 <= j < |f| ==> f[j] in f && !IsLineBreak(f[j]);
    }
    assert f[5..][1..] == p;
    assert DataLines([f]) == [Strip(p)];
  }

  lemma FrameWithBreak(p: string)
    requires !NoBreaks(p)
    ensures PayloadOf(Frame(p)).None? || |PayloadOf(Frame(p)).value| < |p|
  {
    var f := Frame(p);
    FrameChars(p);
    var c :| c in p && IsLineBreak(c);
    var j :| 0 <= j < |p| && p[j] == c;
    assert f[j + 6] == c;
    var i := FirstBreak(f, 0);
    var line := f[..i];
    var k := NextLine(f);
    var later := SplitLines(f[k..]);
    WeightBound(f[k..]);
    StripFrameLine(line);
    var data := [Strip(line[5..])] + DataLines(later);
    assert ([line] + later)[1..] == later;
    assert data[1..] == DataLines(later);
    assert DataLines([line] + later) == data;
    JoinLength(data);
  }

  lemma StripFrameLine(line: string)
    requires |line| >= 6 && "data:" <= line && line[5] == ' '
    ensures |Strip(line[5..])| <= |line| - 6
  {
    assert line[5..][0] == ' ' && line[5..][1..] == line[6..];
    StripShortens(line[6..]);
  }

  /** A framed payload is read back exactly when it has no Python line break and no blank at either end.
      Line breaks other than CR and LF (U+0085, U+2028, ...) are data to section 9.2.6 of the WHATWG HTML
      Living Standard, but `splitlines` cuts the payload there. */
  lemma FrameRoundTripIff(p: string)
    ensures PayloadOf(Frame(p)) == Some(p) <==> NoBreaks(p) && Strip(p) == p
  {
    if NoBreaks(p) {
      FrameWithoutBreaks(p);
    } else {
      FrameWithBreak(p);
    }
  }

  /** U+2028 inside a payload truncates it. */
  lemma LineSeparatorTruncates()
    ensures PayloadOf(Frame("a\U{2028}b")) == Some("a")
  {
    var f := Frame("a\U{2028}b");
    assert f == "data: a\U{2028}b";
    assert FirstBreak(f, 0) == 7 by {
      assert forall j :: 0 <= j < 7 ==> !IsLineBreak(f[j]);
      assert IsLineBreak(f[7]);
    }
    assert f[..7] == "data: a" && f[8..] == "b";
    assert FirstBreak("b", 0) == 1;
    assert SplitLines("b") == ["b"];
    assert SplitLines(f) == ["data: a", "b"];
    assert "data: a"[5..] == " a" && " a"[1..] == "a";
    assert DataLines(["b"]) == [];
    assert DataLines(["data: a", "b"]) == ["a"];
  }

  lemma FrameIsFirstBlock(p: string, later: string)
    requires NoBreaks(p)
    ensures Sep(Frame(p) + SEPARATOR + later) == |Frame(p)|
  {
    var f := Frame(p);
    var s := f + SEPARATOR + later;
    FrameChars(p);
    assert s[|f|..|f| + 2] == SEPARATOR;
    assert At(s, SEPARATOR, |f|);
    forall i | 0 <= i < |f| ensures !At(s, SEPARATOR, i) {
      assert s[i] == f[i] && f[i] in f;
      AtIndex(s, SEPARATOR, i, 0);
    }
  }

  /** The deltas of a list of payloads, with no framing in between. */
  function FeedPayloads(o: Outcome, payloads: seq<string>, loads: string -> Option<Value>): Outcome {
    if payloads == [] then o
    else
      var front := FeedPayloads(o, payloads[..|payloads| - 1], loads);
      if front.error.Some? then front
      else
        match ParsePayload(payloads[|payloads| - 1], loads)
        case Deltas(ds) => Yield(front, ds)
        case Raised(e) => front.(error := Some(e))
  }

  lemma FirstFrame(p: string, later: string)
    requires NoBreaks(p)
    ensures Blocks(Frame(p) + SEPARATOR + later) == [Frame(p)] + Blocks(later)
    ensures Rest(Frame(p) + SEPARATOR + later) == Rest(later)
  {
    var text := Frame(p) + SEPARATOR + later;
    FrameIsFirstBlock(p, later);
    assert text[..|Frame(p)|] == Frame(p) && text[|Frame(p)| + 2..] == later;
    StepTo(text, |Frame(p)|, later);
  }

  lemma {:induction false} EncodedBlocks(payloads: seq<string>)
    requires forall p :: p in payloads ==> NoBreaks(p)
    ensures Rest(Encode(payloads)) == ""
    ensures Blocks(Encode(payloads)) == seq(|payloads|, i requires 0 <= i < |payloads| => Frame(payloads[i]))
  {
    if payloads == [] {
    } else {
      var p, later := payloads[0], Encode(payloads[1..]);
      var text := Frame(p) + SEPARATOR + later;
      FirstFrame(p, later);
      EncodedBlocks(payloads[1..]);
    }
  }

  lemma {:induction false} FramesFeed(payloads: seq<string>, loads: string -> Option<Value>,
                                      parse: string -> BlockResult)
    requires forall p :: p in payloads ==> NoBreaks(p) && Strip(p) == p
    requires forall b :: parse(b) == ParseBlock(b, loads)
    ensures FeedAll(START, seq(|payloads|, i requires 0 <= i < |payloads| => Frame(payloads[i])), parse)
            == FeedPayloads(START, payloads, loads)
  {
    if payloads == [] {
    } else {
      var front, p := payloads[..|payloads| - 1], payloads[|payloads| - 1];
      FramesFeed(front, loads, parse);
      FrameRoundTripIff(p);
      var frames := seq(|payloads|, i requires 0 <= i < |payloads| => Frame(payloads[i]));
      assert frames[..|frames| - 1] == seq(|front|, i requires 0 <= i < |front| => Frame(front[i]));
    }
  }

  /** A framing law, not a path of the service: `sse_data` frames go to browsers, while these parsers read the
      streams of upstream models.  Clean payloads framed that way and cut into arbitrary network chunks would reach
      the vLLM client as if they had been handed over directly. */
  lemma StreamRoundTrip(payloads: seq<string>, chunks: seq<string>, loads: string -> Option<Value>,
                        parse: string -> BlockResult)
    requires forall p :: p in payloads ==> NoBreaks(p) && Strip(p) == p
    requires forall b :: parse(b) == ParseBlock(b, loads)
    requires Concat(chunks) == Encode(payloads)
    ensures StreamOutcome(Concat(chunks), parse) == FeedPayloads(START, payloads, loads)
  {
    EncodedBlocks(payloads);
    FramesFeed(payloads, loads, parse);
  }
}
