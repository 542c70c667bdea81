/**
 An independent reading of one line of TOML v1.0.0 (section "String"): bare text, one-line strings, multi-line
 strings and a comment, each given as a token. The scanner is compared with it.
 */
module ConfigStrings {
  import opened Sequences
  import opened ConfigText

  datatype Token =
    | Bare(c: char)
    | OneLine(q: Quote, body: string)
    | MultiLine(q: Quote, body: string)

  /** How a line ends: after its last token, in a comment, or inside a multi-line string it opened. */
  datatype Tail = Nothing | Comment(text: string) | Opens(q: Quote, body: string)

  function Marks(q: Quote): string {
    [Mark(q), Mark(q), Mark(q)]
  }

  predicate Escapes(s: string, q: Quote) {
    q.Double? && s != "" && s[0] == '\\'
  }

  /** The content of a one-line string: escapes are pairs, and no mark stands outside one. */
  predicate OneLineBody(s: string, q: Quote) {
    s == ""
    || if Escapes(s, q) then |s| >= 2 && OneLineBody(s[2..], q) else s[0] != Mark(q) && OneLineBody(s[1..], q)
  }

  /** The content of a multi-line string: never three marks in a row outside an escape. */
  predicate MultiLineBody(s: string, q: Quote) {
    s == ""
    || if Escapes(s, q) then |s| >= 2 && MultiLineBody(s[2..], q) else !Triple(s, q) && MultiLineBody(s[1..], q)
  }

  /** How many unescaped marks the content ends with; TOML allows two before the closing three. */
  function TrailingMarks(s: string, q: Quote): nat
    decreases |s|
  {
    if s == "" then 0
    else if Escapes(s, q) then TrailingMarks(Drop(s, 2), q)
    else if forall c :: c in s ==> c == Mark(q) then |s|
    else TrailingMarks(s[1..], q)
  }

  function RenderTail(tail: Tail): string {
    match tail
    case Nothing => ""
    case Comment(text) => "#" + text
    case Opens(q, body) => Marks(q) + body
  }

  function Render(tokens: seq<Token>, tail: Tail): string {
    if tokens == [] then RenderTail(tail)
    else
      var rest := Render(tokens[1..], tail);
      match tokens[0]
      case Bare(c) => [c] + rest
      case OneLine(q, body) => [Mark(q)] + body + [Mark(q)] + rest
      case MultiLine(q, body) => Marks(q) + body + Marks(q) + rest
  }

  predicate NoMarkFirst(s: string, q: Quote) {
    s == "" || s[0] != Mark(q)
  }

  /** A line of TOML that starts outside strings. */
  predicate WellFormed(tokens: seq<Token>, tail: Tail) {
    if tokens == [] then tail.Opens? ==> MultiLineBody(tail.body, tail.q)
    else
      && WellFormed(tokens[1..], tail)
      && match tokens[0]
         case Bare(c) => c != '"' && c != '\'' && c != '#'
         case OneLine(q, body) => OneLineBody(body, q) && NoMarkFirst(Render(tokens[1..], tail), q)
         case MultiLine(q, body) => MultiLineBody(body, q) && NoMarkFirst(Render(tokens[1..], tail), q)
  }

  /** A closed multi-line string whose content ends in exactly one mark. */
  predicate ExtraMark(token: Token) {
    token.MultiLine? && TrailingMarks(token.body, token.q) == 1
  }

  /** The multi-line string a line ends in, as TOML reads it. */
  function EndsIn(tail: Tail): Option<Quote> {
    if tail.Opens? then Some(tail.q) else None
  }

  /** A line that never closes the multi-line string it starts in ends in it. */
  lemma {:induction false} StaysInside(body: string, q: Quote)
    requires MultiLineBody(body, q)
    ensures Scan(body, Some(q)) == Some(q)
    decreases |body|
  {
    if body != "" {
      StaysInside(if Escapes(body, q) then body[2..] else body[1..], q);
    }
  }

  lemma StepOverEscape(body: string, q: Quote, rest: string)
    requires MultiLineBody(body, q) && Escapes(body, q)
    ensures Scan(body + Marks(q) + rest, Some(q)) == Scan(body[2..] + Marks(q) + rest, Some(q))
  {
    var s := body + Marks(q) + rest;
    assert s[2..] == body[2..] + Marks(q) + rest;
  }

  lemma StepInside(body: string, q: Quote, rest: string)
    requires body != "" && !Escapes(body, q) && !Triple(body, q) && exists c :: c in body && c != Mark(q)
    ensures Scan(body + Marks(q) + rest, Some(q)) == Scan(body[1..] + Marks(q) + rest, Some(q))
  {
    NotClosedYet(body, q, rest);
    var s := body + Marks(q) + rest;
    assert s[1..] == body[1..] + Marks(q) + rest;
  }

  /** A multi-line string is left at its closing marks, unless its content ends in exactly one mark. */
  lemma {:induction false} ClosingReads(body: string, q: Quote, rest: string)
    requires MultiLineBody(body, q) && TrailingMarks(body, q) != 1 && NoMarkFirst(rest, q)
    ensures Scan(body + Marks(q) + rest, Some(q)) == Scan(rest, None)
    decreases |body|
  {
    var s := body + Marks(q) + rest;
    if body == "" {
      assert s[3..] == rest;
    } else if Escapes(body, q) {
      StepOverEscape(body, q, rest);
      ClosingReads(body[2..], q, rest);
    } else if forall c :: c in body ==> c == Mark(q) {
      TwoMarks(body, q);
      assert s[3..] == body + rest;
      assert (body + rest)[1..] == [Mark(q)] + rest;
      assert AfterString([Mark(q)] + rest, q) == rest;
    } else {
      StepInside(body, q, rest);
      ClosingReads(body[1..], q, rest);
    }
  }

  lemma TwoMarks(body: string, q: Quote)
    requires body != "" && MultiLineBody(body, q) && !Escapes(body, q)
    requires forall c :: c in body ==> c == Mark(q)
    requires TrailingMarks(body, q) != 1
    ensures body == [Mark(q), Mark(q)]
  {
    assert |body| >= 2;
    assert forall i :: 0 <= i < |body| ==> body[i] in body;
  }

  lemma NotClosedYet(body: string, q: Quote, rest: string)
    requires body != "" && !Triple(body, q) && exists c :: c in body && c != Mark(q)
    ensures !Triple(body + Marks(q) + rest, q)
  {
    var k :| 0 <= k < |body| && body[k] != Mark(q);
    var s := body + Marks(q) + rest;
    assert s[k] == body[k];
    assert forall j :: 0 <= j < |body| ==> s[j] == body[j];
  }

  /**
   The exception, for every line: with exactly one extra mark the scanner takes that mark for the start of a
   one-line string, and reads on behind the mark that would close it.
   */
  lemma {:induction false} OneExtraMarkReads(body: string, q: Quote, rest: string)
    requires MultiLineBody(body, q) && TrailingMarks(body, q) == 1 && NoMarkFirst(rest, q)
    ensures Scan(body + Marks(q) + rest, Some(q)) == Scan(AfterString(rest, q), None)
    decreases |body|
  {
    var s := body + Marks(q) + rest;
    if Escapes(body, q) {
      StepOverEscape(body, q, rest);
      OneExtraMarkReads(body[2..], q, rest);
    } else if forall c :: c in body ==> c == Mark(q) {
      assert body[0] in body;
      assert s[3..] == [Mark(q)] + rest;
      assert ([Mark(q)] + rest)[1..] == rest;
    } else {
      StepInside(body, q, rest);
      OneExtraMarkReads(body[1..], q, rest);
    }
  }

  /** So the next multi-line string on the line is missed. */
  lemma OneExtraMarkMisread(body: string, q: Quote)
    requires MultiLineBody(body, q) && TrailingMarks(body, q) == 1
    ensures NoMarkFirst("," + Marks(q), q)
    ensures Scan("," + Marks(q), None) == Some(q)
    ensures Scan(body + Marks(q) + ("," + Marks(q)), Some(q)) == None
  {
    var rest := "," + Marks(q);
    assert rest[1..] == Marks(q) && Marks(q)[3..] == "";
    OneExtraMarkReads(body, q, rest);
    AfterComma(q);
    var two: string := [Mark(q), Mark(q)];
    assert two[1..] == [Mark(q)] && [Mark(q)][1..] == "";
    assert AfterString(two[1..], q) == "";
  }

  lemma AfterComma(q: Quote)
    ensures AfterString("," + Marks(q), q) == [Mark(q), Mark(q)]
  {
    var rest := "," + Marks(q);
    assert rest[1..] == Marks(q);
    assert Marks(q)[1..] == [Mark(q), Mark(q)];
  }

  /**
   The scanner leaves a multi-line string where TOML does, whatever follows, exactly when the content does not end
   in one mark.
   */
  lemma ClosesIff(body: string, q: Quote)
    requires MultiLineBody(body, q)
    ensures (forall rest ::
               NoMarkFirst(rest, q) ==> Scan(body + Marks(q) + rest, Some(q)) == Scan(rest, None))
            <==> TrailingMarks(body, q) != 1
  {
    if TrailingMarks(body, q) == 1 {
      OneExtraMarkMisread(body, q);
    } else {
      forall rest | NoMarkFirst(rest, q)
        ensures Scan(body + Marks(q) + rest, Some(q)) == Scan(rest, None)
      {
        ClosingReads(body, q, rest);
      }
    }
  }

  lemma {:induction false} OneLineReads(body: string, q: Quote, rest: string)
    requires OneLineBody(body, q)
    ensures AfterString(body + [Mark(q)] + rest, q) == rest
    decreases |body|
  {
    var s := body + [Mark(q)] + rest;
    if body == "" {
      assert s[1..] == rest;
    } else if Escapes(body, q) {
      assert s[2..] == body[2..] + [Mark(q)] + rest;
      OneLineReads(body[2..], q, rest);
    } else {
      assert s[1..] == body[1..] + [Mark(q)] + rest;
      OneLineReads(body[1..], q, rest);
    }
  }

  lemma OneLineTokenReads(q: Quote, body: string, rest: string)
    requires OneLineBody(body, q) && NoMarkFirst(rest, q)
    ensures Scan([Mark(q)] + body + [Mark(q)] + rest, None) == Scan(rest, None)
  {
    var s := [Mark(q)] + body + [Mark(q)] + rest;
    assert s[1..] == body + [Mark(q)] + rest;
    OneLineReads(body, q, rest);
    assert body == "" ==> (|s| >= 3 ==> s[2] == rest[0]);
    assert body != "" ==> s[1] == body[0];
  }

  lemma MultiLineTokenReads(q: Quote, body: string, rest: string)
    requires MultiLineBody(body, q) && TrailingMarks(body, q) != 1 && NoMarkFirst(rest, q)
    ensures Scan(Marks(q) + body + Marks(q) + rest, None) == Scan(rest, None)
  {
    var s := Marks(q) + body + Marks(q) + rest;
    assert s[3..] == body + Marks(q) + rest;
    ClosingReads(body, q, rest);
  }

  lemma ExtraMarkTokenReads(q: Quote, body: string, rest: string)
    requires MultiLineBody(body, q) && TrailingMarks(body, q) == 1 && NoMarkFirst(rest, q)
    ensures Scan(Marks(q) + body + Marks(q) + rest, None) == Scan(AfterString(rest, q), None)
  {
    var s := Marks(q) + body + Marks(q) + rest;
    assert s[3..] == body + Marks(q) + rest;
    OneExtraMarkReads(body, q, rest);
  }

  lemma TailReads(tail: Tail)
    requires tail.Opens? ==> MultiLineBody(tail.body, tail.q)
    ensures Scan(RenderTail(tail), None) == EndsIn(tail)
  {
    if tail.Opens? {
      assert RenderTail(tail)[3..] == tail.body;
      StaysInside(tail.body, tail.q);
    }
  }

  /** A token without an extra mark is read as one unit. */
  lemma TokenReads(tokens: seq<Token>, tail: Tail)
    requires WellFormed(tokens, tail) && tokens != [] && !ExtraMark(tokens[0])
    ensures Scan(Render(tokens, tail), None) == Scan(Render(tokens[1..], tail), None)
  {
    var rest := Render(tokens[1..], tail);
    match tokens[0]
    case Bare(c) => assert ([c] + rest)[1..] == rest;
    case OneLine(q, body) => OneLineTokenReads(q, body, rest);
    case MultiLine(q, body) => MultiLineTokenReads(q, body, rest);
  }

  /** On a line without an extra mark, the scanner ends where the tokens end. */
  lemma {:induction false} LineReads(tokens: seq<Token>, tail: Tail)
    requires WellFormed(tokens, tail) && forall token :: token in tokens ==> !ExtraMark(token)
    ensures Scan(Render(tokens, tail), None) == EndsIn(tail)
  {
    if tokens == [] {
      TailReads(tail);
    } else {
      TokenReads(tokens, tail);
      LineReads(tokens[1..], tail);
    }
  }

  /**
   On any other line it reads right up to the first extra mark, and from there as if a one-line string had begun:
   the line is misread exactly when that leaves the rest of it with another ending.
   */
  lemma {:induction false} FirstExtraMarkReads(tokens: seq<Token>, tail: Tail, n: nat)
    requires WellFormed(tokens, tail) && n < |tokens| && ExtraMark(tokens[n])
    requires forall k :: 0 <= k < n ==> !ExtraMark(tokens[k])
    ensures Scan(Render(tokens, tail), None)
            == Scan(AfterString(Render(tokens[n + 1..], tail), tokens[n].q), None)
  {
    if n == 0 {
      ExtraMarkTokenReads(tokens[0].q, tokens[0].body, Render(tokens[1..], tail));
    } else {
      TokenReads(tokens, tail);
      FirstExtraMarkReads(tokens[1..], tail, n - 1);
      assert tokens[1..][n..] == tokens[n + 1..];
    }
  }

  /** The same for a line that starts inside a multi-line string and closes it. */
  lemma ClosingLineReads(q: Quote, body: string, tokens: seq<Token>, tail: Tail)
    requires MultiLineBody(body, q) && TrailingMarks(body, q) != 1
    requires WellFormed(tokens, tail) && NoMarkFirst(Render(tokens, tail), q)
    requires forall token :: token in tokens ==> !ExtraMark(token)
    ensures Scan(body + Marks(q) + Render(tokens, tail), Some(q)) == EndsIn(tail)
  {
    ClosingReads(body, q, Render(tokens, tail));
    LineReads(tokens, tail);
  }
}
