/** Question and history extraction (`extract_question_and_history`, src/meno_rag/stand/pipeline.py) and
    the history validation of src/meno_rag/stand/dialogue_history.py. */
module DialogueHistory {
  import opened Roles
  import opened Text

  datatype ChatMessage = ChatMessage(role: Role, content: string)

  datatype Extracted =
    | Question(question: string, history: seq<ChatMessage>)
    | NoMessages
    | NoUserMessage
    | EmptyQuestion

  // ---------------------------------------------------------------- white space

  /** A list of words with one character more: a blank ends a word, any other extends the word it touches or begins
      one. */
  function Extended(words: seq<string>, touches: bool, c: char): seq<string> {
    if IsSpace(c) then words
    else if touches && words != [] then words[..|words| - 1] + [words[|words| - 1] + [c]]
    else words + [[c]]
  }

  /** The last character of a text follows one that is not blank. */
  predicate Touches(s: string) {
    |s| > 1 && !IsSpace(s[|s| - 2])
  }

  /** Python's `str.split()`: the maximal runs of non-blank characters. */
  function Words(s: string): seq<string> {
    if s == "" then []
    else Extended(Words(s[..|s| - 1]), Touches(s), s[|s| - 1])
  }

  /** `" ".join(content.strip().split()).strip()` */
  function Collapse(s: string): string {
    Strip(Join(" ", Words(Strip(s))))
  }

  predicate Blank(s: string) {
    forall c :: c in s ==> IsSpace(c)
  }

  /** A word: not empty, without blanks. */
  predicate IsWord(w: string) {
    w != "" && forall c :: c in w ==> !IsSpace(c)
  }

  lemma WordsStep(s: string, c: char)
    ensures Words(s + [c]) == Extended(Words(s), s != "" && !IsSpace(s[|s| - 1]), c)
  {
    assert (s + [c])[..|s|] == s && (s != "" ==> (s + [c])[|s| - 1] == s[|s| - 1]);
  }

  lemma FrontAndLast(s: string)
    requires s != ""
    ensures s == s[..|s| - 1] + [s[|s| - 1]]
  {
  }

  lemma {:induction false} NoWordsIff(s: string)
    ensures Words(s) == [] <==> Blank(s)
  {
    if s == "" {
    } else {
      var front, c := s[..|s| - 1], s[|s| - 1];
      NoWordsIff(front);
      FrontAndLast(s);
      WordsStep(front, c);
      BlankAppend(front, c);
    }
  }

  /** Every item of the list is a word. */
  lemma {:induction false} WordsAreWords(s: string)
    ensures forall i :: 0 <= i < |Words(s)| ==> IsWord(Words(s)[i])
  {
    if s == "" {
    } else {
      var front, c := s[..|s| - 1], s[|s| - 1];
      WordsAreWords(front);
      FrontAndLast(s);
      WordsStep(front, c);
    }
  }

  lemma WordsMeaning(s: string)
    ensures Words(s) == [] <==> Blank(s)
    ensures forall i :: 0 <= i < |Words(s)| ==> Words(s)[i] != "" && !IsSpace(Words(s)[i][0])
  {
    NoWordsIff(s);
    WordsAreWords(s);
    forall i | 0 <= i < |Words(s)| ensures Words(s)[i] != "" && !IsSpace(Words(s)[i][0]) {
      assert IsWord(Words(s)[i]);
      assert Words(s)[i][0] in Words(s)[i];
    }
  }

  lemma BlankAppend(s: string, c: char)
    ensures Blank(s + [c]) <==> Blank(s) && IsSpace(c)
  {
  }

  lemma {:induction false} JoinKeepsFirst(words: seq<string>)
    requires words != [] && words[0] != ""
    ensures Join(" ", words) != "" && Join(" ", words)[0] == words[0][0]
  {
    if |words| > 1 {
      JoinKeepsFirst(words[..|words| - 1]);
    }
  }

  lemma {:induction false} StripOfBlankIff(s: string)
    ensures Blank(Strip(s)) <==> Blank(s)
    decreases |s|
  {
    if s != "" && IsSpace(s[0]) {
      StripOfBlankIff(s[1..]);
      assert s == [s[0]] + s[1..];
    } else if s != "" && IsSpace(s[|s| - 1]) {
      StripOfBlankIff(s[..|s| - 1]);
      assert s == s[..|s| - 1] + [s[|s| - 1]];
    }
  }

  /** A question collapses to nothing exactly when it is blank. */
  lemma CollapseIsEmptyIff(s: string)
    ensures Collapse(s) == "" <==> Blank(s)
  {
    var words := Words(Strip(s));
    WordsMeaning(Strip(s));
    StripOfBlankIff(s);
    if words != [] {
      JoinKeepsFirst(words);
      var j := Join(" ", words);
      StripIsBlankIff(j);
      assert j[0] in j;
    }
  }

  // ---------------------------------------------------------------- the words of a question

  /** A word alone is its own list of words. */
  lemma {:induction false} WordAlone(w: string)
    requires IsWord(w)
    ensures Words(w) == [w]
  {
    var front, c := w[..|w| - 1], w[|w| - 1];
    assert w == front + [c];
    if front == "" {
    } else {
      assert IsWord(front) by {
        forall d | d in front ensures !IsSpace(d) {
          assert d in w;
        }
      }
      WordAlone(front);
      assert w[|w| - 2] in w;
    }
  }

  lemma EndsWithWord(s: string)
    requires s != "" && !IsSpace(s[|s| - 1])
    ensures Words(s) != []
  {
    WordsMeaning(s);
    assert s[|s| - 1] in s;
  }

  lemma BlankAtEnd(s: string)
    requires s != "" && IsSpace(s[|s| - 1])
    ensures Words(s) == Words(s[..|s| - 1]) + Words(s[|s|..])
  {
    FrontAndLast(s);
    WordsStep(s[..|s| - 1], s[|s| - 1]);
    assert s[|s|..] == "";
  }

  lemma TouchesAWord(s: string)
    requires Touches(s)
    ensures Words(s[..|s| - 1]) != []
  {
    EndsWithWord(s[..|s| - 1]);
  }

  lemma FrontOfTail(s: string, i: nat)
    requires i < |s| - 1 && IsSpace(s[i])
    ensures var front, tail := s[..|s| - 1], s[i + 1..];
            && front[..i] == s[..i] && front[i + 1..] == tail[..|tail| - 1]
            && tail != "" && tail[|tail| - 1] == s[|s| - 1] && Touches(tail) == Touches(s)
  {
  }

  /** What is appended behind a known text: only lists of words, no texts. */
  lemma SplitStep(front: seq<string>, a: seq<string>, b: seq<string>, touches: bool, c: char, whole: seq<string>,
                  tail: seq<string>)
    requires front == a + b && (touches ==> b != [])
    requires whole == Extended(front, touches, c) && tail == Extended(b, touches, c)
    ensures whole == a + tail
  {
  }

  /** A blank character separates: the words before it, then the words behind it. */
  lemma {:induction false} WordsSplit(s: string, i: nat)
    requires i < |s| && IsSpace(s[i])
    ensures Words(s) == Words(s[..i]) + Words(s[i + 1..])
    decreases |s|
  {
    if i == |s| - 1 {
      BlankAtEnd(s);
    } else {
      WordsSplit(s[..|s| - 1], i);
      FrontOfTail(s, i);
      if Touches(s) {
        TouchesAWord(s[i + 1..]);
      }
      SplitStep(Words(s[..|s| - 1]), Words(s[..i]), Words(s[..|s| - 1][i + 1..]), Touches(s), s[|s| - 1], Words(s),
                Words(s[i + 1..]));
    }
  }

  lemma WordBehind(s: string, w: string, words: seq<string>)
    requires Words(s) == words && IsWord(w)
    ensures Words(s + " " + w) == words + [w]
  {
    var whole := s + " " + w;
    WordsSplit(whole, |s|);
    assert whole[..|s|] == s && whole[|s| + 1..] == w;
    WordAlone(w);
  }

  /** Words joined by single blanks are read back. */
  lemma {:induction false} WordsOfJoin(words: seq<string>)
    requires forall i :: 0 <= i < |words| ==> IsWord(words[i])
    ensures Words(Join(" ", words)) == words
  {
    if |words| == 1 {
      WordAlone(words[0]);
    } else if |words| > 1 {
      var front, last := words[..|words| - 1], words[|words| - 1];
      WordsOfJoin(front);
      WordBehind(Join(" ", front), last, front);
      assert words == front + [last];
    }
  }

  lemma OuterBlanks(s: string)
    requires s != ""
    ensures IsSpace(s[0]) ==> Words(s) == Words(s[1..])
    ensures IsSpace(s[|s| - 1]) ==> Words(s) == Words(s[..|s| - 1])
  {
    if IsSpace(s[0]) {
      WordsSplit(s, 0);
      assert [] + Words(s[1..]) == Words(s[1..]);
    }
    if IsSpace(s[|s| - 1]) {
      WordsSplit(s, |s| - 1);
      assert s[|s|..] == "" && Words(s[..|s| - 1]) + [] == Words(s[..|s| - 1]);
    }
  }

  lemma {:induction false} StripKeepsWords(s: string)
    ensures Words(Strip(s)) == Words(s)
    decreases |s|
  {
    if s == "" {
    } else {
      OuterBlanks(s);
      if IsSpace(s[0]) {
        StripKeepsWords(s[1..]);
      } else if IsSpace(s[|s| - 1]) {
        StripKeepsWords(s[..|s| - 1]);
      }
    }
  }

  lemma {:induction false} JoinEndsWithWords(words: seq<string>)
    requires words != [] && forall i :: 0 <= i < |words| ==> IsWord(words[i])
    ensures var j := Join(" ", words); j != "" && !IsSpace(j[0]) && !IsSpace(j[|j| - 1])
  {
    var last := words[|words| - 1];
    assert last[|last| - 1] in last && words[0][0] in words[0];
    JoinKeepsFirst(words);
    assert |words| > 1 ==> Join(" ", words) == (Join(" ", words[..|words| - 1]) + " ") + last;
  }

  /** A collapsed question has the words of the question, in order, with one blank between them and none outside. */
  lemma CollapseMeaning(s: string)
    ensures Collapse(s) == Join(" ", Words(s)) && Words(Collapse(s)) == Words(s)
    ensures Collapse(Collapse(s)) == Collapse(s)
  {
    CollapseIsJoin(s);
    WordsAreWords(s);
    WordsOfJoin(Words(s));
    CollapseIsJoin(Collapse(s));
  }

  lemma CollapseIsJoin(s: string)
    ensures Collapse(s) == Join(" ", Words(s))
  {
    StripKeepsWords(s);
    WordsAreWords(s);
    if Words(s) != [] {
      JoinEndsWithWords(Words(s));
    }
  }

  // ---------------------------------------------------------------- extraction

  /** The user and assistant messages, in order. */
  function Dialogue(messages: seq<ChatMessage>): seq<ChatMessage> {
    if messages == [] then []
    else
      var front, m := Dialogue(messages[..|messages| - 1]), messages[|messages| - 1];
      if m.role.System? then front else front + [m]
  }

  function LastUser(messages: seq<ChatMessage>): (r: int)
    ensures r == -1 ==> forall m :: m in messages ==> !m.role.User?
    ensures r != -1 ==> 0 <= r < |messages| && messages[r].role.User?
                        && forall i :: r < i < |messages| ==> !messages[i].role.User?
  {
    if messages == [] then -1
    else if messages[|messages| - 1].role.User? then |messages| - 1
    else LastUser(messages[..|messages| - 1])
  }

  function Trim(raw: seq<ChatMessage>): seq<ChatMessage> {
    if |raw| % 2 == 0 then raw
    else if raw[0].role.Assistant? then raw[1..]
    else raw[..|raw| - 1]
  }

  function Extract(messages: seq<ChatMessage>): Extracted {
    if messages == [] then NoMessages
    else
      var last := LastUser(messages);
      if last < 0 then NoUserMessage
      else
        var question := Collapse(messages[last].content);
        if question == "" then EmptyQuestion else Question(question, Trim(Dialogue(messages[..last])))
  }

  // ---------------------------------------------------------------- validation

  datatype Verdict = Accepted | UnknownRole(idx: nat) | WrongRole(idx: nat) | OddLength

  function Other(r: Role): Role {
    if r.User? then Assistant else User
  }

  ghost predicate AlternatesFrom(r: Role, s: seq<ChatMessage>) {
    forall i :: 0 <= i < |s| ==> s[i].role == if i % 2 == 0 then r else Other(r)
  }

  ghost predicate Alternates(s: seq<ChatMessage>) {
    AlternatesFrom(User, s) || AlternatesFrom(Assistant, s)
  }

  /** The validation loop of `prepare_dialogue_history`: it accepts exactly the dialogues made of whole
      (user, assistant) turns, and otherwise names the first offending item. */
  method ValidateHistory(history: seq<ChatMessage>) returns (v: Verdict)
    ensures v == Accepted <==> AlternatesFrom(User, history) && |history| % 2 == 0
    ensures v == OddLength <==> AlternatesFrom(User, history) && |history| % 2 != 0
    ensures v.UnknownRole? || v.WrongRole? ==>
              && v.idx < |history| && AlternatesFrom(User, history[..v.idx])
                 && !AlternatesFrom(User, history[..v.idx + 1])
              && (v.UnknownRole? <==> history[v.idx].role.System?)
  {
    if |history| == 0 {
      return Accepted;
    }
    var expected := User;
    for idx := 0 to |history|
      invariant AlternatesFrom(User, history[..idx])
      invariant expected == if idx % 2 == 0 then User else Assistant
    {
      var current := history[idx].role;
      assert history[..idx + 1] == history[..idx] + [history[idx]];
      assert history[..idx + 1][idx] == history[idx];
      if current.System? {
        return UnknownRole(idx);
      }
      if current != expected {
        return WrongRole(idx);
      }
      expected := if expected.User? then Assistant else User;
    }
    assert history[..|history|] == history;
    if |history| % 2 != 0 {
      return OddLength;
    }
    return Accepted;
  }

  ghost predicate Valid(history: seq<ChatMessage>) {
    AlternatesFrom(User, history) && |history| % 2 == 0
  }

  lemma TrimIsValidIff(raw: seq<ChatMessage>)
    ensures Valid(Trim(raw)) <==>
              if |raw| % 2 == 0 then AlternatesFrom(User, raw)
              else if raw[0].role.Assistant? then AlternatesFrom(Assistant, raw)
              else AlternatesFrom(User, raw[..|raw| - 1])
  {
  }

  /** For every list of messages that carries a question: the extracted history passes validation exactly
      when it alternates after dropping a leading assistant message, or failing that the last message, of
      an odd history. */
  lemma ExtractedIsValidIff(messages: seq<ChatMessage>)
    requires Extract(messages).Question?
    ensures var raw := Dialogue(messages[..LastUser(messages)]);
            Valid(Extract(messages).history) <==>
              if |raw| % 2 == 0 then AlternatesFrom(User, raw)
              else if raw[0].role.Assistant? then AlternatesFrom(Assistant, raw)
              else AlternatesFrom(User, raw[..|raw| - 1])
  {
    TrimIsValidIff(Dialogue(messages[..LastUser(messages)]));
  }

  /** Among alternating histories the only one that trips the validator is a non-empty even one that starts
      with the assistant (and therefore ends with a user message left unanswered). */
  lemma AlternatingHistoryIsValidIff(messages: seq<ChatMessage>)
    requires Extract(messages).Question?
    requires Alternates(Dialogue(messages[..LastUser(messages)]))
    ensures var raw := Dialogue(messages[..LastUser(messages)]);
            Valid(Extract(messages).history) <==> !(raw != [] && |raw| % 2 == 0 && raw[0].role.Assistant?)
  {
    ExtractedIsValidIff(messages);
    AlternatingPrefix(Dialogue(messages[..LastUser(messages)]));
  }

  lemma AlternatingPrefix(raw: seq<ChatMessage>)
    requires Alternates(raw)
    ensures raw != [] && AlternatesFrom(User, raw) ==> AlternatesFrom(User, raw[..|raw| - 1])
    ensures raw != [] && raw[0].role.User? ==> AlternatesFrom(User, raw) && !AlternatesFrom(Assistant, raw)
    ensures raw != [] && raw[0].role.Assistant? ==> AlternatesFrom(Assistant, raw) && !AlternatesFrom(User, raw)
    ensures raw != [] ==> raw[0].role.User? || raw[0].role.Assistant?
  {
  }

  /** Replaying any alternating dialogue that ends with a non-blank user question, whoever spoke first and
      with system messages anywhere, never trips the validator. */
  lemma ReplayIsValid(messages: seq<ChatMessage>)
    requires messages != [] && messages[|messages| - 1].role.User? && !Blank(messages[|messages| - 1].content)
    requires Alternates(Dialogue(messages))
    ensures Extract(messages).Question? && Valid(Extract(messages).history)
  {
    var front, q := messages[..|messages| - 1], messages[|messages| - 1];
    var raw := Dialogue(front);
    CollapseIsEmptyIff(q.content);
    BeforeQuestion(raw, q);
    AlternatingHistoryIsValidIff(messages);
  }

  lemma BeforeQuestion(raw: seq<ChatMessage>, q: ChatMessage)
    requires Alternates(raw + [q]) && q.role.User?
    ensures Alternates(raw) && !(raw != [] && |raw| % 2 == 0 && raw[0].role.Assistant?)
  {
    var all := raw + [q];
    assert all[|raw|] == q && forall i :: 0 <= i < |raw| ==> raw[i] == all[i];
  }

  /** A conversation stored as whole (user, assistant) turns comes back from a replay unchanged. */
  lemma StoredTurnsReplayUnchanged(stored: seq<ChatMessage>, question: ChatMessage)
    requires Valid(stored) && question.role.User? && !Blank(question.content)
    ensures Extract(stored + [question]) == Question(Collapse(question.content), stored)
  {
    var messages := stored + [question];
    assert messages[..|stored|] == stored;
    CollapseIsEmptyIff(question.content);
    NoSystemMessages(stored);
  }

  lemma {:induction false} NoSystemMessages(s: seq<ChatMessage>)
    requires forall i :: 0 <= i < |s| ==> !s[i].role.System?
    ensures Dialogue(s) == s
  {
    if s == [] {
    } else {
      NoSystemMessages(s[..|s| - 1]);
      assert s == s[..|s| - 1] + [s[|s| - 1]];
    }
  }

  lemma {:induction false} DialogueConcat(a: seq<ChatMessage>, b: seq<ChatMessage>)
    ensures Dialogue(a + b) == Dialogue(a) + Dialogue(b)
  {
    if b == [] {
      assert a + b == a;
    } else {
      DialogueConcat(a, b[..|b| - 1]);
      assert (a + b)[..|a + b| - 1] == a + b[..|b| - 1];
    }
  }

  lemma {:induction false} LastUserIs(messages: seq<ChatMessage>, i: nat)
    requires i < |messages| && messages[i].role.User?
    requires forall k :: i < k < |messages| ==> !messages[k].role.User?
    ensures LastUser(messages) == i
  {
    if i < |messages| - 1 {
      LastUserIs(messages[..|messages| - 1], i);
    }
  }

  /** The history in front of the question: an odd number of messages loses a leading answer, or its last message. */
  function WholeHistory(raw: seq<ChatMessage>): seq<ChatMessage> {
    if |raw| % 2 == 0 then raw else if raw[0].role.Assistant? then raw[1..] else raw[..|raw| - 1]
  }

  /** The last user message asks, in its own words with one blank between them; what follows it does not matter, and
      what goes before is the history without its system messages. */
  lemma QuestionAndHistory(messages: seq<ChatMessage>, i: nat)
    requires i < |messages| && messages[i].role.User? && !Blank(messages[i].content)
    requires forall k :: i < k < |messages| ==> !messages[k].role.User?
    ensures Extract(messages) == Question(Join(" ", Words(messages[i].content)), WholeHistory(Dialogue(messages[..i])))
  {
    CollapseIsEmptyIff(messages[i].content);
    CollapseIsJoin(messages[i].content);
    LastUserIs(messages, i);
  }

  /** A request is refused when it has no message, no user message, or a blank last user message. */
  lemma RefusedIff(messages: seq<ChatMessage>)
    ensures Extract(messages) == NoMessages <==> messages == []
    ensures Extract(messages) == NoUserMessage <==> messages != [] && forall m :: m in messages ==> !m.role.User?
    ensures Extract(messages) == EmptyQuestion <==>
              exists i :: 0 <= i < |messages| && IsLastQuestion(messages, i) && Blank(messages[i].content)
  {
    var last := LastUser(messages);
    if last >= 0 {
      CollapseIsEmptyIff(messages[last].content);
      assert IsLastQuestion(messages, last);
    }
  }

  ghost predicate IsLastQuestion(messages: seq<ChatMessage>, i: nat)
    requires i < |messages|
  {
    messages[i].role.User? && forall k :: i < k < |messages| ==> !messages[k].role.User?
  }

  /** The messages that are not from the system, in order. */
  lemma DialogueMeaning(a: seq<ChatMessage>, m: ChatMessage, b: seq<ChatMessage>)
    ensures Dialogue(a + [m] + b) == Dialogue(a) + (if m.role.System? then [] else [m]) + Dialogue(b)
    ensures Dialogue([]) == []
  {
    DialogueConcat(a, [m]);
    DialogueConcat(a + [m], b);
    assert [m][..0] == [];
  }

  /** The assistant-first exception is real. */
  lemma UnansweredAssistantStartIsRejected()
    ensures var messages := [ChatMessage(Assistant, "a"), ChatMessage(User, "b"), ChatMessage(User, "c")];
            Alternates(Dialogue(messages[..2])) && Extract(messages).Question? && !Valid(Extract(messages).history)
  {
    var messages := [ChatMessage(Assistant, "a"), ChatMessage(User, "b"), ChatMessage(User, "c")];
    assert messages[..2] == [ChatMessage(Assistant, "a"), ChatMessage(User, "b")];
    NoSystemMessages(messages[..2]);
    assert AlternatesFrom(Assistant, messages[..2]);
    assert 'c' in "c" && !IsSpace('c');
    CollapseIsEmptyIff("c");
    AlternatingHistoryIsValidIff(messages);
  }
}
