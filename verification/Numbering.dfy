/** The numbered documents of a prompt: printed by `_assemble_context`
    (src/meno_rag/stand/pipeline.py), counted back by `calculate_number_of_documents_in_context`
    (src/meno_rag/stand/qa.py). */
module Numbering {
  import opened Text

  const MARKER := "==========\nDOCUMENT "
  const CLOSING := "\n=========="

  // ---------------------------------------------------------------- printing

  function Header(n: nat): string {
    MARKER + Decimal(n) + CLOSING + "\n\n"
  }

  function Piece(n: nat, text: string): string {
    Header(n) + Strip(text)
  }

  function Pieces(texts: seq<string>): seq<string> {
    seq(|texts|, i requires 0 <= i < |texts| => Piece(i + 1, texts[i]))
  }

  /** The texts as pieces numbered from 1, joined by blank lines. */
  function Context(texts: seq<string>): string {
    Join("\n\n", Pieces(texts))
  }

  lemma ContextAppend(texts: seq<string>, last: string)
    ensures Context(texts + [last]) ==
            (if texts == [] then "" else Context(texts) + "\n\n") + Piece(|texts| + 1, last)
  {
    var parts := Pieces(texts + [last]);
    assert parts[..|parts| - 1] == Pieces(texts);
  }

  /** A piece as the prompt shows it. */
  lemma PieceText(n: nat, text: string)
    ensures Piece(n, text) == "==========\nDOCUMENT " + Decimal(n) + "\n==========\n\n" + Strip(text)
  {
    assert CLOSING + "\n\n" == "\n==========\n\n";
    assert (MARKER + Decimal(n)) + CLOSING + "\n\n" == (MARKER + Decimal(n)) + (CLOSING + "\n\n");
  }

  // ---------------------------------------------------------------- counting back

  datatype Count = Counted(n: int) | NoDocument | NoClosing | BadNumber

  function Between(s: string, lo: int, hi: int): string {
    if 0 <= lo <= hi <= |s| then s[lo..hi] else ""
  }

  /** `calculate_number_of_documents_in_context`; the last three cases are its ValueErrors. */
  function CountDocuments(context: string): Count {
    if |Strip(context)| == 0 then Counted(0)
    else
      var start := RFind(context, MARKER);
      if start < 0 then NoDocument else NumberIn(context[start..])
  }

  /** The number printed behind the marker that `rest` begins with. */
  function NumberIn(rest: string): Count
    requires rest != ""
  {
    var end := FindFrom(rest[1..], CLOSING, 0);
    if end < 0 then NoClosing
    else
      var number := ParseInt(Between(rest, |MARKER|, end + 1));
      if number.Some? then Counted(number.value) else BadNumber
  }

  /** A text counts as nothing when it is blank, and cannot be counted when it is not and has no marker. */
  lemma UncountedIff(context: string)
    ensures Strip(context) == "" ==> CountDocuments(context) == Counted(0)
    ensures CountDocuments(context) == NoDocument <==> Strip(context) != "" && !Contains(context, MARKER)
  {
  }

  // ---------------------------------------------------------------- the round trip

  lemma HeaderParts(n: nat)
    ensures var h, d := Header(n), |Decimal(n)|;
            && |h| == 33 + d && |MARKER| == 20 && |CLOSING| == 11
            && (forall j :: 0 <= j < 20 ==> h[j] == MARKER[j])
            && h[20..20 + d] == Decimal(n)
            && (forall j :: 0 <= j < 11 ==> h[20 + d + j] == CLOSING[j])
            && h[31 + d] == '\n' && h[32 + d] == '\n'
  {
  }

  lemma HeaderDigits(n: nat)
    ensures forall j :: 20 <= j < 20 + |Decimal(n)| ==> j < |Header(n)| && IsDigit(Header(n)[j])
  {
    HeaderParts(n);
    DecimalDigits(n);
    forall j | 20 <= j < 20 + |Decimal(n)| ensures j < |Header(n)| && IsDigit(Header(n)[j]) {
      assert Header(n)[j] == Decimal(n)[j - 20] && Decimal(n)[j - 20] in Decimal(n);
    }
  }

  lemma HeaderChars(n: nat)
    ensures var h, d := Header(n), |Decimal(n)|;
            && |h| == 33 + d
            && (forall j :: 0 <= j < 10 ==> h[j] == '=') && h[10] == '\n' && h[11] == 'D'
            && (forall j :: 11 <= j < 20 + d ==> h[j] != '=' && h[j] != '\n')
            && h[20..20 + d] == Decimal(n)
            && h[20 + d] == '\n' && (forall j :: 21 + d <= j < 31 + d ==> h[j] == '=')
            && h[31 + d] == '\n' && h[32 + d] == '\n'
  {
    var h, d := Header(n), |Decimal(n)|;
    HeaderParts(n);
    HeaderDigits(n);
    assert forall j :: 0 <= j < 11 ==> h[20 + d + j] == CLOSING[j];
    assert forall j :: 21 + d <= j < 31 + d ==> h[j] == CLOSING[j - 20 - d];
  }

  /** No marker begins inside a header except at its start, whatever follows the header. */
  lemma NoStraddlingMarker(pre: string, n: nat, body: string, i: int)
    requires |pre| < i < |pre| + |Header(n)|
    ensures !At(pre + Header(n) + body, MARKER, i)
  {
    var s, h, d := pre + Header(n) + body, Header(n), |Decimal(n)|;
    var o := i - |pre|;
    HeaderChars(n);
    assert forall j :: 0 <= j < |h| ==> s[|pre| + j] == h[j];
    assert forall j :: 0 <= j < 10 ==> MARKER[j] == '=';
    assert MARKER[10] == '\n' && MARKER[11] == 'D';
    AtIndex(s, MARKER, i, 0);
    if 0 < o < 10 {
      AtIndex(s, MARKER, i, 10 - o);
    } else if 21 + d < o < 31 + d {
      AtIndex(s, MARKER, i, 31 + d - o);
    } else if o == 21 + d {
      AtIndex(s, MARKER, i, 11);
    }
  }

  lemma HeaderStartsWithMarker(pre: string, n: nat, body: string)
    ensures At(pre + Header(n) + body, MARKER, |pre|)
  {
  }

  lemma LastMarker(pre: string, n: nat, body: string)
    ensures var s := pre + Header(n) + body;
            RFind(s, MARKER) ==
              if Contains(body, MARKER) then |pre| + |Header(n)| + RFind(body, MARKER) else |pre|
  {
    var s, q := pre + Header(n) + body, pre + Header(n);
    var r := RFind(s, MARKER);
    HeaderStartsWithMarker(pre, n, body);
    if |pre| < r < |q| {
      NoStraddlingMarker(pre, n, body, r);
    }
    if Contains(body, MARKER) {
      var b := RFind(body, MARKER);
      AtShift(q, body, MARKER, b);
      AtShift(q, body, MARKER, r - |q|);
    } else if |q| <= r {
      AtShift(q, body, MARKER, r - |q|);
    }
  }

  /** The first closing ruler after a header's start is the header's own. */
  lemma FirstClosing(n: nat, rest: string)
    ensures FindFrom((Header(n) + rest)[1..], CLOSING, 0) == 19 + |Decimal(n)|
  {
    var h, d := Header(n), |Decimal(n)|;
    var s := h + rest;
    var tail := s[1..];
    HeaderChars(n);
    assert forall j :: 0 <= j < |h| ==> s[j] == h[j];
    assert tail[19 + d..30 + d] == CLOSING by {
      assert CLOSING[0] == '\n' && forall j :: 1 <= j < 11 ==> CLOSING[j] == '=';
      forall j | 0 <= j < 11 ensures tail[19 + d + j] == CLOSING[j] {
        assert tail[19 + d + j] == h[20 + d + j];
      }
    }
    assert At(tail, CLOSING, 19 + d);
    forall i | 0 <= i < 19 + d ensures !At(tail, CLOSING, i) {
      AtIndex(tail, CLOSING, i, 0);
      AtIndex(tail, CLOSING, i, 1);
      assert tail[i] == h[i + 1] && tail[i + 1] == s[i + 2];
    }
  }

  lemma NotBlank(s: string, i: nat)
    requires i < |s| && !IsSpace(s[i])
    ensures |Strip(s)| != 0
  {
    StripIsBlankIff(s);
    assert s[i] in s;
  }

  lemma NumberInHeader(n: nat, body: string)
    ensures NumberIn(Header(n) + body) == Counted(n)
  {
    var s, d := Header(n) + body, |Decimal(n)|;
    HeaderChars(n);
    FirstClosing(n, body);
    assert Between(s, 20, 20 + d) == Header(n)[20..20 + d] == Decimal(n);
    assert |MARKER| == 20;
    DecimalRoundTrip(n);
  }

  lemma TailAfter(pre: string, s: string, k: nat)
    requires k <= |s|
    ensures (pre + s)[|pre| + k..] == s[k..]
  {
  }

  lemma HeaderIsVisible(pre: string, n: nat, body: string)
    ensures |Strip(pre + Header(n) + body)| != 0
  {
    HeaderChars(n);
    assert (pre + Header(n) + body)[|pre|] == Header(n)[0];
    NotBlank(pre + Header(n) + body, |pre|);
  }

  lemma CountFromMarker(s: string, start: nat)
    requires |Strip(s)| != 0 && RFind(s, MARKER) == start
    ensures CountDocuments(s) == NumberIn(s[start..])
  {
  }

  lemma MarkedBodyIsVisible(body: string)
    requires Contains(body, MARKER)
    ensures |Strip(body)| != 0
  {
    AtIndex(body, MARKER, RFind(body, MARKER), 0);
    NotBlank(body, RFind(body, MARKER));
  }

  /** A body with a marker of its own decides what is counted. */
  lemma CountMarkedBody(pre: string, n: nat, body: string)
    requires Contains(body, MARKER)
    ensures CountDocuments(pre + Header(n) + body) == CountDocuments(body)
  {
    var s, b := pre + Header(n) + body, RFind(body, MARKER);
    MarkedBodyIsVisible(body);
    CountFromMarker(body, b);
    LastMarker(pre, n, body);
    HeaderIsVisible(pre, n, body);
    CountFromMarker(s, |pre + Header(n)| + b);
    TailAfter(pre + Header(n), body, b);
    assert s[|pre + Header(n)| + b..] == body[b..];
  }

  lemma FromHeader(pre: string, header: string, body: string)
    ensures (pre + header + body)[|pre|..] == header + body
  {
  }

  lemma CountPlainBody(pre: string, n: nat, body: string)
    requires !Contains(body, MARKER)
    ensures CountDocuments(pre + Header(n) + body) == Counted(n)
  {
    LastMarker(pre, n, body);
    HeaderIsVisible(pre, n, body);
    CountFromMarker(pre + Header(n) + body, |pre|);
    FromHeader(pre, Header(n), body);
    NumberInHeader(n, body);
  }

  /** Counting in a text that ends with a numbered piece: either the piece's own number, or, when its body
      carries a marker, whatever the body alone would count to. */
  lemma CountAfterHeader(pre: string, n: nat, body: string)
    ensures CountDocuments(pre + Header(n) + body) ==
            if Contains(body, MARKER) then CountDocuments(body) else Counted(n)
  {
    if Contains(body, MARKER) {
      CountMarkedBody(pre, n, body);
    } else {
      CountPlainBody(pre, n, body);
    }
  }

  /** What counting returns on every assembled context: the number of documents, unless the last one
      carries a marker itself; then the count is what that document alone counts to. */
  lemma CountOfContext(texts: seq<string>)
    ensures CountDocuments(Context(texts)) ==
            if texts == [] then Counted(0)
            else if Contains(Strip(texts[|texts| - 1]), MARKER) then CountDocuments(Strip(texts[|texts| - 1]))
            else Counted(|texts|)
  {
    if texts != [] {
      var front, last := texts[..|texts| - 1], texts[|texts| - 1];
      var pre := if front == [] then "" else Context(front) + "\n\n";
      ContextAppend(front, last);
      assert texts == front + [last];
      assert Context(texts) == pre + Header(|texts|) + Strip(last);
      CountAfterHeader(pre, |texts|, Strip(last));
    }
  }

  /** The round trip: documents free of the marker are counted back exactly. */
  lemma NumberingRoundTrip(texts: seq<string>)
    requires forall t :: t in texts ==> !Contains(Strip(t), MARKER)
    ensures CountDocuments(Context(texts)) == Counted(|texts|)
  {
    CountOfContext(texts);
    assert texts != [] ==> texts[|texts| - 1] in texts;
  }
}
