/**
 An independent reading of table headers, from TOML v1.0.0 (sections "Keys", "Table" and "Array of Tables"): which
 of them the merge sees, and where a default goes when it does not see one.
 */
module ConfigHeaders {
  import opened Sequences
  import opened ConfigText
  import opened ConfigMigration
  import opened ConfigMerge
  import S = ConfigStrings

  /** One part of a dotted key: a bare key, or a basic or literal string. */
  datatype Name = Bare(text: string) | Quoted(q: Quote, body: string)

  datatype Part = Part(before: string, name: Name, after: string)

  /** `[a.b]` or `[[a.b]]`, with white space where TOML allows it and an optional comment. */
  datatype Header = Header(indent: string, ofTables: bool, parts: seq<Part>, blank: string, comment: Option<string>)

  /** White space, as TOML has it. */
  predicate Blank(s: string) {
    forall c :: c in s ==> c == ' ' || c == '\t'
  }

  predicate ValidPart(p: Part) {
    && Blank(p.before) && Blank(p.after)
    && match p.name
       case Bare(text) => text != "" && forall c :: c in text ==> IsNameChar(c)
       case Quoted(q, body) => S.OneLineBody(body, q)
  }

  predicate ValidHeader(h: Header) {
    Blank(h.indent) && Blank(h.blank) && h.parts != [] && forall p :: p in h.parts ==> ValidPart(p)
  }

  function NameText(name: Name): string {
    match name
    case Bare(text) => text
    case Quoted(q, body) => [Mark(q)] + (body + [Mark(q)])
  }

  function PartText(p: Part): string {
    p.before + (NameText(p.name) + p.after)
  }

  function KeyText(parts: seq<Part>): string {
    if parts == [] then ""
    else if |parts| == 1 then PartText(parts[0])
    else PartText(parts[0]) + ("." + KeyText(parts[1..]))
  }

  function Ending(h: Header): string {
    h.blank + if h.comment.Some? then "#" + h.comment.value else ""
  }

  /** The line, without its line ending. */
  function HeaderText(h: Header): string {
    if h.ofTables then h.indent + ("[[" + (KeyText(h.parts) + ("]]" + Ending(h))))
    else h.indent + ("[" + (KeyText(h.parts) + ("]" + Ending(h))))
  }

  predicate PlainPart(p: Part) {
    p.name.Bare? && p.before == "" && p.after == ""
  }

  /** A table, not an array of tables, whose key is written with bare parts and no white space inside. */
  predicate PlainHeader(h: Header) {
    !h.ofTables && forall p :: p in h.parts ==> PlainPart(p)
  }

  // ----- Which headers are seen -----

  predicate Spaces(s: string) {
    forall c :: c in s ==> IsSpace(c)
  }

  lemma {:induction false} SkipBlank(blank: string, rest: string)
    requires Spaces(blank)
    ensures SkipSpace(blank + rest) == SkipSpace(rest)
  {
    if blank == "" {
      assert blank + rest == rest;
    } else {
      assert blank[0] in blank && forall c :: c in blank[1..] ==> c in blank;
      assert (blank + rest)[1..] == blank[1..] + rest;
      SkipBlank(blank[1..], rest);
    }
  }

  lemma {:induction false} RunOver(x: string, rest: string)
    requires forall c :: c in x ==> IsTableChar(c)
    ensures Run(x + rest, true) == |x| + Run(rest, true)
  {
    if x == "" {
      assert x + rest == rest;
    } else {
      assert x[0] in x && forall c :: c in x[1..] ==> c in x;
      assert (x + rest)[1..] == x[1..] + rest;
      RunOver(x[1..], rest);
    }
  }

  /** The run of name characters in front of `t` ends before `t` does, and not at a closing bracket. */
  predicate StopsShort(t: string) {
    Run(t, true) < |t| && t[Run(t, true)] != ']'
  }

  lemma OverStops(x: string, rest: string)
    requires (forall c :: c in x ==> IsTableChar(c)) && StopsShort(rest)
    ensures StopsShort(x + rest)
  {
    RunOver(x, rest);
  }

  lemma FirstStops(t: string)
    requires t != "" && !IsTableChar(t[0]) && t[0] != ']'
    ensures StopsShort(t)
  {
  }

  /** A part that is not plain stops the run. */
  lemma PartStops(p: Part, rest: string)
    requires ValidPart(p) && !PlainPart(p)
    ensures StopsShort(PartText(p) + rest)
  {
    var t := PartText(p) + rest;
    if p.before != "" {
      assert t[0] == p.before[0] && p.before[0] in p.before;
      FirstStops(t);
    } else if p.name.Quoted? {
      assert t[0] == Mark(p.name.q);
      FirstStops(t);
    } else {
      var tail := p.after + rest;
      assert p.after[0] in p.after && tail[0] == p.after[0];
      FirstStops(tail);
      OverStops(p.name.text, tail);
      assert t == p.name.text + tail;
    }
  }

  /** So does a key that holds such a part. */
  lemma {:induction false} KeyStops(parts: seq<Part>, rest: string)
    requires (forall p :: p in parts ==> ValidPart(p)) && exists p :: p in parts && !PlainPart(p)
    ensures StopsShort(KeyText(parts) + rest)
  {
    var tail := if |parts| == 1 then rest else "." + (KeyText(parts[1..]) + rest);
    assert KeyText(parts) + rest == PartText(parts[0]) + tail;
    if !PlainPart(parts[0]) {
      PartStops(parts[0], tail);
    } else {
      var p :| p in parts && !PlainPart(p);
      assert p in parts[1..];
      assert forall x :: x in parts[1..] ==> x in parts;
      KeyStops(parts[1..], rest);
      OverStops(".", KeyText(parts[1..]) + rest);
      assert PartText(parts[0]) == parts[0].name.text;
      OverStops(PartText(parts[0]), tail);
    }
  }

  /** A plain key is one run of name characters. */
  lemma {:induction false} PlainKeyRuns(parts: seq<Part>)
    requires parts != [] && forall p :: p in parts ==> ValidPart(p) && PlainPart(p)
    ensures KeyText(parts) != "" && forall c :: c in KeyText(parts) ==> IsTableChar(c)
  {
    assert parts[0] in parts && PartText(parts[0]) == parts[0].name.text;
    if |parts| > 1 {
      assert forall x :: x in parts[1..] ==> x in parts;
      PlainKeyRuns(parts[1..]);
    }
  }

  lemma BracketFirst(indent: string, t: string)
    requires Spaces(indent)
    ensures SkipSpace(indent + ("[" + t)) == "[" + t && ("[" + t)[1..] == t
  {
    SkipBlank(indent, "[" + t);
  }

  lemma EndingSkips(h: Header)
    requires Blank(h.blank)
    ensures SkipSpace(Ending(h)) == "" || SkipSpace(Ending(h))[0] == '#'
  {
    SkipBlank(h.blank, if h.comment.Some? then "#" + h.comment.value else "");
  }

  /** A bracketed name, then white space or a comment. */
  lemma BracketedName(key: string, end: string)
    requires key != "" && forall c :: c in key ==> IsTableChar(c)
    requires SkipSpace(end) == "" || SkipSpace(end)[0] == '#'
    ensures var t := key + ("]" + end); var n := Run(t, true);
      n == |key| && t[n] == ']' && t[n + 1..] == end && t[..n] == key
  {
    RunAll(key, "]" + end);
  }

  lemma BracketsRead(indent: string, key: string, end: string)
    requires Spaces(indent) && key != "" && forall c :: c in key ==> IsTableChar(c)
    requires SkipSpace(end) == "" || SkipSpace(end)[0] == '#'
    ensures TableName(indent + ("[" + (key + ("]" + end)))) == Some(key)
  {
    BracketFirst(indent, key + ("]" + end));
    BracketedName(key, end);
  }

  lemma PlainHeaderReads(h: Header)
    requires ValidHeader(h) && PlainHeader(h)
    ensures TableName(HeaderText(h)) == Some(KeyText(h.parts))
  {
    PlainKeyRuns(h.parts);
    EndingSkips(h);
    BracketsRead(h.indent, KeyText(h.parts), Ending(h));
  }

  lemma OtherHeaderReads(h: Header)
    requires ValidHeader(h) && !PlainHeader(h)
    ensures TableName(HeaderText(h)) == None
  {
    if h.ofTables {
      var t := "[" + (KeyText(h.parts) + ("]]" + Ending(h)));
      assert "[[" + (KeyText(h.parts) + ("]]" + Ending(h))) == "[" + t;
      BracketFirst(h.indent, t);
      assert Run(t, true) == 0;
    } else {
      var t := KeyText(h.parts) + ("]" + Ending(h));
      BracketFirst(h.indent, t);
      KeyStops(h.parts, "]" + Ending(h));
    }
  }

  /** A TOML header is seen exactly when it is plain, and then under the name TOML gives it. */
  lemma HeaderReadsIff(h: Header)
    requires ValidHeader(h)
    ensures TableName(HeaderText(h)) == if PlainHeader(h) then Some(KeyText(h.parts)) else None
  {
    if PlainHeader(h) {
      PlainHeaderReads(h);
    } else {
      OtherHeaderReads(h);
    }
  }

  /** A name in brackets alone on its line, with white space of any kind around it and perhaps a comment. */
  predicate Bracketed(line: string, indent: string, key: string, end: string) {
    && Spaces(indent) && key != "" && (forall c :: c in key ==> IsTableChar(c))
    && (SkipSpace(end) == "" || SkipSpace(end)[0] == '#')
    && line == indent + ("[" + (key + ("]" + end)))
  }

  lemma {:induction false} SkippedFront(s: string)
    ensures Spaces(s[..|s| - |SkipSpace(s)|]) && s[|s| - |SkipSpace(s)|..] == SkipSpace(s)
  {
    if s != "" && IsSpace(s[0]) {
      SkippedFront(s[1..]);
      var n := |s| - |SkipSpace(s)|;
      assert s[..n] == [s[0]] + s[1..][..n - 1];
      assert s[n..] == s[1..][n - 1..];
    }
  }

  lemma KeyCut(t: string, n: nat)
    requires n < |t| && t[n] == ']' && forall i :: 0 <= i < n ==> IsTableChar(t[i])
    ensures t == t[..n] + ("]" + t[n + 1..])
    ensures forall c :: c in t[..n] ==> IsTableChar(c)
  {
    assert t == t[..n] + t[n..];
    assert t[n..] == "]" + t[n + 1..];
  }

  lemma FrontCut(line: string) returns (indent: string)
    ensures Spaces(indent) && line == indent + SkipSpace(line)
  {
    SkippedFront(line);
    var k := |line| - |SkipSpace(line)|;
    indent := line[..k];
    assert line == line[..k] + line[k..];
  }

  lemma FirstCut(s: string)
    requires s != "" && s[0] == '['
    ensures s == "[" + s[1..]
  {
  }

  lemma TableParts(line: string) returns (t: string, n: nat)
    requires TableName(line).Some?
    ensures SkipSpace(line) == "[" + t
    ensures 0 < n < |t| && t[n] == ']' && TableName(line).value == t[..n]
    ensures (forall i :: 0 <= i < n ==> IsTableChar(t[i]))
    ensures SkipSpace(t[n + 1..]) == "" || SkipSpace(t[n + 1..])[0] == '#'
  {
    t := SkipSpace(line)[1..];
    n := Run(t, true);
    FirstCut(SkipSpace(line));
  }

  lemma SeenShape(line: string) returns (indent: string, end: string)
    requires TableName(line).Some?
    ensures Bracketed(line, indent, TableName(line).value, end)
  {
    indent := FrontCut(line);
    var t, n := TableParts(line);
    KeyCut(t, n);
    end := t[n + 1..];
  }

  /** The lines taken for headers are exactly these, a row of a multi-line array like `[1]` among them. */
  lemma SeenIff(line: string, key: string)
    ensures TableName(line) == Some(key) <==> exists indent, end :: Bracketed(line, indent, key, end)
  {
    if TableName(line) == Some(key) {
      var indent, end := SeenShape(line);
    } else {
      forall indent, end
        ensures !Bracketed(line, indent, key, end)
      {
        if Bracketed(line, indent, key, end) {
          BracketsRead(indent, key, end);
        }
      }
    }
  }

  // ----- Where defaults go -----

  /** The line of a header. */
  function HeaderLine(h: Header): string {
    HeaderText(h) + "\n"
  }

  lemma ClosingsSnoc(lines: seq<string>, line: string)
    ensures Closings(lines + [line]) ==
      var r := Read(lines);
      if r.state.None? && TableName(line).Some? && r.section != "" then Closings(lines)[r.section := |lines|]
      else Closings(lines)
  {
    assert (lines + [line])[..|lines|] == lines;
  }

  /**
   Behind a table, a header ends it for the merge exactly when the header is plain; behind any other header the
   table seems to go on.
   */
  lemma EndingIff(lines: seq<string>, h: Header)
    requires ValidHeader(h) && Read(lines).state.None? && Read(lines).section != ""
    requires PlainHeader(h) ==> KeyText(h.parts) != Read(lines).section
    ensures var section, longer := Read(lines).section, lines + [HeaderLine(h)];
      && section in Endings(longer)
      && Endings(longer)[section] == if PlainHeader(h) then |lines| else |lines| + 1
  {
    HeaderReadsIff(h);
    TableNewline(HeaderText(h));
    ReadSnoc(lines, HeaderLine(h));
    ClosingsSnoc(lines, HeaderLine(h));
    if PlainHeader(h) {
      assert KeyText(h.parts) == Read(lines + [HeaderLine(h)]).section;
    } else {
      SectionStays(Read(lines), HeaderLine(h));
    }
  }

  lemma SectionStays(r: Reading, line: string)
    requires TableName(line).None?
    ensures ReadLine(r, line).section == r.section
  {
  }

  lemma {:induction false} NothingInserted(lines: seq<string>, pending: seq<Block>)
    requires forall i: nat :: i <= |lines| ==> BlockAt(pending, i) == []
    ensures Simultaneous(lines, pending) == lines
  {
    if lines != [] {
      NothingInserted(lines[..|lines| - 1], pending);
      assert lines == lines[..|lines| - 1] + [lines[|lines| - 1]];
    }
  }

  lemma OneBlock(index: nat, values: seq<string>, i: nat)
    ensures BlockAt([Block(index, values)], i) == if i == index then values else []
  {
    assert [Block(index, values)][1..] == [];
  }

  lemma NothingBefore(lines: seq<string>, values: seq<string>, index: nat)
    requires |lines| < index
    ensures Simultaneous(lines, [Block(index, values)]) == lines
  {
    forall i: nat | i <= |lines|
      ensures BlockAt([Block(index, values)], i) == []
    {
      OneBlock(index, values, i);
    }
    NothingInserted(lines, [Block(index, values)]);
  }

  lemma SimultaneousSnoc(lines: seq<string>, line: string, pending: seq<Block>)
    ensures Simultaneous(lines + [line], pending) ==
      Simultaneous(lines, pending) + [line] + Rendered(BlockAt(pending, |lines| + 1))
  {
    assert (lines + [line])[..|lines|] == lines;
  }

  /** One block, inserted at the end of some of the lines. */
  lemma InsertedAt(lines: seq<string>, line: string, values: seq<string>)
    ensures Simultaneous(lines + [line], [Block(|lines| + 1, values)]) == lines + [line] + Rendered(values)
  {
    SimultaneousSnoc(lines, line, [Block(|lines| + 1, values)]);
    NothingBefore(lines, values, |lines| + 1);
    OneBlock(|lines| + 1, values, |lines| + 1);
  }

  /** The same in front of a last line. */
  lemma InsertedBefore(lines: seq<string>, line: string, values: seq<string>)
    requires lines != []
    ensures Simultaneous(lines + [line], [Block(|lines|, values)]) == lines + Rendered(values) + [line]
  {
    var init, last := lines[..|lines| - 1], lines[|lines| - 1];
    assert lines == init + [last];
    InsertedAt(init, last, values);
    SimultaneousSnoc(lines, line, [Block(|lines|, values)]);
    OneBlock(|lines|, values, |lines| + 1);
    assert Rendered([]) == [];
  }

  lemma OneEdit(lines: seq<string>, a: Addition)
    requires MissingOf(lines, a) != [] && a.section in Endings(lines)
    ensures Merged(lines, [a]) == Simultaneous(lines, [Block(Endings(lines)[a.section], MissingOf(lines, a))])
  {
    assert [a][..0] == [];
    assert Appended(lines, []) == [] && Pending(lines, []) == [];
    assert Pending(lines, [a]) == [Block(Endings(lines)[a.section], MissingOf(lines, a))];
  }

  /**
   A default for the table in front of a header stays in that table exactly when the header is plain. Behind any
   other header, such as one of an array of tables, it lands in the table which that header opens.
   */
  lemma DefaultStaysIff(lines: seq<string>, h: Header, a: Addition)
    requires ValidHeader(h) && Read(lines).state.None? && Read(lines).section != ""
    requires PlainHeader(h) ==> KeyText(h.parts) != Read(lines).section
    requires a.section == Read(lines).section && MissingOf(lines + [HeaderLine(h)], a) != []
    ensures var added := Rendered(MissingOf(lines + [HeaderLine(h)], a));
      Merged(lines + [HeaderLine(h)], [a])
      == if PlainHeader(h) then lines + added + [HeaderLine(h)] else lines + [HeaderLine(h)] + added
  {
    EndingIff(lines, h);
    var values := MissingOf(lines + [HeaderLine(h)], a);
    OneEdit(lines + [HeaderLine(h)], a);
    if PlainHeader(h) {
      InsertedBefore(lines, HeaderLine(h), values);
    } else {
      InsertedAt(lines, HeaderLine(h), values);
    }
  }

  /** `[[name]]` */
  function ArrayOf(name: string): Header {
    Header("", true, [Part("", Bare(name), "")], "", None)
  }

  lemma ArrayLine(name: string)
    ensures HeaderLine(ArrayOf(name)) == "[[" + (name + "]]\n")
  {
    var h := ArrayOf(name);
    assert KeyText(h.parts) == PartText(h.parts[0]) == name;
    assert Ending(h) == "";
    assert HeaderText(h) == "[[" + (name + "]]");
  }

  lemma BracketNoKey(line: string)
    requires line != "" && line[0] == '['
    ensures KeyName(line) == None
  {
    assert SkipSpace(line) == line;
    assert Run(line, false) == 0;
  }

  lemma KeysStay(r: Reading, line: string)
    requires KeyName(line) == None
    ensures ReadLine(r, line).keys == r.keys
  {
  }

  lemma NoKeyInHeader(lines: seq<string>, name: string)
    ensures Read(lines + [HeaderLine(ArrayOf(name))]).keys == Read(lines).keys
  {
    ArrayLine(name);
    BracketNoKey(HeaderLine(ArrayOf(name)));
    ReadSnoc(lines, HeaderLine(ArrayOf(name)));
    KeysStay(Read(lines), HeaderLine(ArrayOf(name)));
  }

  lemma OneMissing(value: string, section: string)
    ensures Missing([value], section, {}) == [value] && Rendered([value]) == [value + "\n"]
  {
    assert [value][..0] == [];
  }

  lemma SectionOnly(section: string)
    requires section != "" && forall c :: c in section ==> IsTableChar(c)
    ensures Read([TableLine(section)]) == Reading(None, section, {section}, {})
  {
    TableLineReads(section, Read([]));
    ReadSnoc([], TableLine(section));
    assert [] + [TableLine(section)] == [TableLine(section)];
  }

  lemma ArrayIsHeader(name: string)
    requires name != "" && forall c :: c in name ==> IsNameChar(c)
    ensures ValidHeader(ArrayOf(name)) && !PlainHeader(ArrayOf(name))
  {
  }

  lemma MissingBehindArray(section: string, name: string, value: string)
    requires section != "" && forall c :: c in section ==> IsTableChar(c)
    ensures MissingOf([TableLine(section)] + [HeaderLine(ArrayOf(name))], Addition(section, [value])) == [value]
  {
    SectionOnly(section);
    NoKeyInHeader([TableLine(section)], name);
    OneMissing(value, section);
  }

  /** Under `[section]` and `[[name]]`, a default for the section is written into the element of the array. */
  lemma ArrayTakesDefault(section: string, name: string, value: string)
    requires section != "" && forall c :: c in section ==> IsTableChar(c)
    requires name != "" && forall c :: c in name ==> IsNameChar(c)
    ensures var lines := [TableLine(section)] + ["[[" + (name + "]]\n")];
      Merged(lines, [Addition(section, [value])]) == lines + [value + "\n"]
  {
    SectionOnly(section);
    ArrayIsHeader(name);
    ArrayLine(name);
    OneMissing(value, section);
    MissingBehindArray(section, name, value);
    DefaultStaysIff([TableLine(section)], ArrayOf(name), Addition(section, [value]));
  }
}
