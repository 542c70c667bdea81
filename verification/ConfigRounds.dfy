/**
 From lines back to text: what was merged splits into lines that read the same, so a second merge of the text
 changes nothing.
 */
module ConfigRounds {
  import opened Sequences
  import opened ConfigText
  import opened ConfigMigration
  import opened ConfigMerge
  import S = ConfigStrings

  // ----- Splitting what was joined -----

  lemma {:induction false} FirstLineAgain(s: string)
    requires s != ""
    ensures FirstLine(s[..FirstLine(s)]) == FirstLine(s)
  {
    var n := FirstLine(s);
    var t := s[..n];
    if !(s[0] == '\r' && |s| > 1 && s[1] == '\n') && !IsBreak(s[0]) && |s| > 1 {
      FirstLineAgain(s[1..]);
      assert t[1..] == s[1..][..n - 1];
    }
  }

  lemma {:induction false} FirstLineEnds(s: string)
    requires s != ""
    ensures var n := FirstLine(s);
      && (n < |s| ==> Closed(s[..n]) && !Straddles(s[..n], s[n..]))
      && (!Closed(s[..n]) ==> forall c :: c in s[..n] ==> !IsBreak(c))
      && (s[n - 1] != '\n' ==> '\n' !in s[..n])
  {
    var n := FirstLine(s);
    if s[0] == '\r' && |s| > 1 && s[1] == '\n' {
    } else if !IsBreak(s[0]) && |s| > 1 {
      FirstLineEnds(s[1..]);
      assert s[..n] == [s[0]] + s[1..][..n - 1];
      assert s[n..] == s[1..][n - 1..];
    }
  }

  lemma {:induction false} NoBreakSplits(s: string)
    requires forall c :: c in s ==> !IsBreak(c)
    ensures FirstLine(s + "\n") == |s| + 1
  {
    if s != "" {
      assert s[0] in s && forall c :: c in s[1..] ==> c in s;
      assert (s + "\n")[1..] == s[1..] + "\n";
      NoBreakSplits(s[1..]);
    }
  }

  lemma WholeLine(s: string)
    requires s != "" && FirstLine(s) == |s|
    ensures SplitLines(s) == [s]
  {
    assert s[..|s|] == s && s[|s|..] == "";
  }

  /** A line that splits into itself, or into itself and the line feed that was added to it. */
  ghost predicate Stable(line: string) {
    && line != ""
    && (SplitLines(line) == [line]
        || exists stem: string :: stem != "" && line == stem + "\n" && SplitLines(line) == [stem, "\n"])
  }

  ghost predicate Tidy(lines: seq<string>) {
    lines == []
    || (var init, last := lines[..|lines| - 1], lines[|lines| - 1];
        && Tidy(init) && Stable(last) && (init != [] ==> Closed(Join(init))) && !Straddles(Join(init), last))
  }

  lemma TidySnoc(lines: seq<string>, line: string)
    requires Tidy(lines) && (lines != [] ==> Closed(Join(lines))) && Stable(line) && !Straddles(Join(lines), line)
    ensures Tidy(lines + [line])
    ensures Join(lines + [line]) == Join(lines) + line
  {
    assert (lines + [line])[..|lines|] == lines;
  }

  /** A line feed on a line of its own reads like one at the end of the line before. */
  lemma StemReads(r: Reading, stem: string)
    ensures ReadLine(ReadLine(r, stem), "\n") == ReadLine(r, stem + "\n")
  {
    KeyNewline(stem);
    TableNewline(stem);
    ScanNewline(stem, r.state);
    assert "\n"[1..] == "" && SkipSpace("\n") == "";
    ScanNewline("", Scan(stem, r.state));
    assert "" + "\n" == "\n";
  }

  /** Joined and split again, tidy lines read the same. */
  lemma {:induction false} ResplitReads(lines: seq<string>)
    requires Tidy(lines)
    ensures Read(SplitLines(Join(lines))) == Read(lines)
  {
    if lines != [] {
      var init, last := lines[..|lines| - 1], lines[|lines| - 1];
      ResplitReads(init);
      SplitConcat(Join(init), last);
      var x := SplitLines(Join(init));
      ReadSnoc(x, last);
      if SplitLines(last) != [last] {
        var stem: string :| stem != "" && last == stem + "\n" && SplitLines(last) == [stem, "\n"];
        assert x + [stem, "\n"] == (x + [stem]) + ["\n"];
        ReadSnoc(x, stem);
        ReadSnoc(x + [stem], "\n");
        StemReads(Read(x), stem);
      }
    }
  }

  /** Lines in front stay in front. */
  lemma {:induction false} TidyFront(first: string, rest: seq<string>)
    requires Tidy(rest) && SplitLines(first) == [first] && first != "" && Closed(first)
    requires !Straddles(first, Join(rest))
    ensures Tidy([first] + rest)
  {
    var all := [first] + rest;
    if rest == [] {
      assert all[..0] == [];
    } else {
      var init, last := rest[..|rest| - 1], rest[|rest| - 1];
      assert all[..|all| - 1] == [first] + init;
      JoinFront(first, init);
      TidyFront(first, init);
    }
  }

  /** What splitting produces is tidy, and an unfinished last line holds no line feed. */
  lemma {:induction false} SplitIsTidy(s: string)
    ensures Tidy(SplitLines(s))
    ensures forall l :: l in SplitLines(s) ==> l != "" && SplitLines(l) == [l] && FirstLine(l) == |l|
    decreases |s|
  {
    if s != "" {
      var n := FirstLine(s);
      var first, rest := s[..n], SplitLines(s[n..]);
      FirstLineAgain(s);
      FirstLineEnds(s);
      WholeLine(first);
      SplitIsTidy(s[n..]);
      JoinSplit(s[n..]);
      if rest == [] {
        assert SplitLines(s)[..0] == [];
      } else {
        assert n < |s|;
        TidyFront(first, rest);
      }
    }
  }

  lemma TerminatedStable(l: string)
    requires l != "" && FirstLine(l) == |l| && l[|l| - 1] != '\n'
    ensures Stable(l + "\n")
  {
    var t := l + "\n";
    FirstLineEnds(l);
    assert l[..|l|] == l;
    WholeLine(l);
    if !Closed(l) {
      NoBreakSplits(l);
      WholeLine(t);
    } else if l[|l| - 1] == '\r' {
      ReturnFeed(l);
      WholeLine(t);
    } else {
      SplitConcat(l, "\n");
      assert FirstLine("\n") == 1;
      WholeLine("\n");
      assert SplitLines(t) == [l, "\n"];
    }
  }

  lemma {:induction false} ReturnFeed(l: string)
    requires l != "" && FirstLine(l) == |l| && l[|l| - 1] == '\r'
    ensures FirstLine(l + "\n") == |l| + 1
  {
    if |l| > 1 {
      assert (l + "\n")[1..] == l[1..] + "\n";
      ReturnFeed(l[1..]);
    }
  }

  ghost predicate EndsWithFeed(text: string) {
    text == "" || text[|text| - 1] == '\n'
  }

  lemma FinishedStable(init: seq<string>, last: string)
    requires Tidy(init + [last]) && last != "" && FirstLine(last) == |last|
    ensures Stable(Finished(last)) && !Straddles(Join(init), Finished(last))
    ensures Tidy(init) && (init != [] ==> Closed(Join(init)))
  {
    assert (init + [last])[..|init|] == init;
    if Finished(last) != last {
      TerminatedStable(last);
    }
  }

  /** A line list whose last line is finished. */
  ghost predicate WellTerminated(lines: seq<string>) {
    Tidy(lines) && lines != [] && Closed(Join(lines)) && EndsWithFeed(Join(lines))
  }

  lemma FinishedTidy(init: seq<string>, last: string)
    requires Tidy(init + [last]) && last != "" && FirstLine(last) == |last|
    ensures WellTerminated(init + [Finished(last)])
  {
    FinishedStable(init, last);
    TidySnoc(init, Finished(last));
  }

  lemma LastLineIsWhole(s: string)
    requires s != ""
    ensures var lines := SplitLines(s); var last := lines[|lines| - 1];
      lines != [] && last != "" && FirstLine(last) == |last|
  {
    SplitIsTidy(s);
    var lines := SplitLines(s);
    assert lines[|lines| - 1] in lines;
  }

  /** The lines a merge starts from are tidy, and the last one ends with a line feed. */
  lemma TerminatedIsTidy(s: string)
    ensures s == "" ==> Terminated(SplitLines(s)) == []
    ensures s != "" ==> WellTerminated(Terminated(SplitLines(s)))
  {
    if s != "" {
      LastLineIsWhole(s);
      SplitIsTidy(s);
      var lines := SplitLines(s);
      assert lines == lines[..|lines| - 1] + [lines[|lines| - 1]];
      FinishedTidy(lines[..|lines| - 1], lines[|lines| - 1]);
    }
  }

  lemma PlainStable(value: string)
    requires PlainDefault(value)
    ensures Stable(value + "\n") && value != "" && value[0] != '\n'
  {
    NoBreakSplits(value);
    WholeLine(value + "\n");
    assert value != "" by {
      assert SkipSpace(value) != "";
    }
    assert value[0] in value;
  }

  /** `s` ends with a line feed, or the way `was` ends. */
  ghost predicate EndsLike(s: string, was: string) {
    s == "" || s[|s| - 1] == '\n' || (was != "" && s[|s| - 1] == was[|was| - 1])
  }

  /** Tidy lines that end with a line feed, or with the line ending of `was`. */
  ghost predicate TidyTo(lines: seq<string>, was: string) {
    Tidy(lines) && (lines != [] ==> Closed(Join(lines))) && EndsLike(Join(lines), was)
  }

  lemma FeedEnds(s: string, was: string, line: string)
    requires EndsLike(s, was) && line != "" && line[|line| - 1] == '\n' && (was != "" ==> line[0] != '\n')
    ensures !Straddles(s, line) && Closed(s + line) && EndsLike(s + line, was)
  {
    assert (s + line)[|s + line| - 1] == line[|line| - 1];
  }

  /** One more line that ends with a line feed. */
  lemma TidyFeed(lines: seq<string>, line: string, was: string)
    requires TidyTo(lines, was) && Stable(line) && line[|line| - 1] == '\n' && (was != "" ==> line[0] != '\n')
    ensures TidyTo(lines + [line], was)
  {
    FeedEnds(Join(lines), was, line);
    TidySnoc(lines, line);
  }

  lemma {:induction false} TidyBlock(lines: seq<string>, values: seq<string>, was: string)
    requires TidyTo(lines, was) && forall v :: v in values ==> PlainDefault(v)
    ensures TidyTo(lines + Rendered(values), was)
  {
    if values == [] {
      assert lines + Rendered(values) == lines;
    } else {
      var init, v := values[..|values| - 1], values[|values| - 1];
      assert v in values;
      TidyBlock(lines, init, was);
      PlainStable(v);
      TidyFeed(lines + Rendered(init), v + "\n", was);
      Associative(lines, Rendered(init), [v + "\n"]);
    }
  }

  /** Insertion keeps lines tidy. */
  lemma {:induction false} SimultaneousTidy(lines: seq<string>, pending: seq<Block>)
    requires Tidy(lines) && (lines != [] ==> Closed(Join(lines)))
    requires forall b, v :: b in pending && v in b.values ==> PlainDefault(v)
    ensures TidyTo(Simultaneous(lines, pending), Join(lines))
  {
    BlockAtMember(pending, |lines|);
    var values := BlockAt(pending, |lines|);
    if lines == [] {
      TidyBlock([], values, "");
      assert [] + Rendered(values) == Simultaneous(lines, pending);
    } else {
      var init, last := lines[..|lines| - 1], lines[|lines| - 1];
      SimultaneousTidy(init, pending);
      TidyKept(Simultaneous(init, pending), Join(init), last);
      TidyBlock(Simultaneous(init, pending) + [last], values, Join(lines));
    }
  }

  lemma KeptEnds(s: string, was: string, last: string)
    requires EndsLike(s, was) && last != "" && Closed(was + last) && !Straddles(was, last)
    ensures !Straddles(s, last) && Closed(s + last) && EndsLike(s + last, was + last)
  {
    assert (s + last)[|s + last| - 1] == last[|last| - 1] == (was + last)[|was + last| - 1];
  }

  lemma TidyKept(before: seq<string>, was: string, last: string)
    requires TidyTo(before, was)
    requires Stable(last) && Closed(was + last) && !Straddles(was, last)
    ensures TidyTo(before + [last], was + last)
  {
    KeptEnds(Join(before), was, last);
    TidySnoc(before, last);
  }

  lemma TableLineStable(section: string)
    requires section != "" && forall c :: c in section ==> IsTableChar(c)
    ensures Stable(TableLine(section))
  {
    var stem := "[" + section + "]";
    assert TableLine(section) == stem + "\n";
    forall c | c in stem
      ensures !IsBreak(c)
    {
      assert c == '[' || c == ']' || c in section;
    }
    NoBreakSplits(stem);
    WholeLine(TableLine(section));
  }

  lemma BlankStable()
    ensures Stable("\n")
  {
    assert FirstLine("\n") == 1;
    WholeLine("\n");
  }

  lemma TidyAppendedFor(before: seq<string>, lines: seq<string>, p: seq<string>, a: Addition)
    requires TidyTo(before, "") && PlainAddition(a)
    ensures TidyTo(before + AppendedFor(lines, p, a), "")
  {
    var m := MissingOf(lines, a);
    if m == [] || a.section in Endings(lines) {
      assert before + AppendedFor(lines, p, a) == before;
    } else {
      var b := if lines != [] || p != [] then ["\n"] else [];
      if b != [] {
        BlankStable();
        TidyFeed(before, "\n", "");
      } else {
        assert before + b == before;
      }
      TableLineStable(a.section);
      TidyFeed(before + b, TableLine(a.section), "");
      TidyBlock(before + b + [TableLine(a.section)], m, "");
      Associative(before, b, [TableLine(a.section)]);
      Associative(before, b + [TableLine(a.section)], Rendered(m));
    }
  }

  lemma {:induction false} TidyAppended(before: seq<string>, lines: seq<string>, additions: seq<Addition>)
    requires TidyTo(before, "") && forall a :: a in additions ==> PlainAddition(a)
    ensures TidyTo(before + Appended(lines, additions), "")
  {
    if additions == [] {
      assert before + Appended(lines, additions) == before;
    } else {
      var init, a := additions[..|additions| - 1], additions[|additions| - 1];
      assert additions == init + [a];
      TidyAppended(before, lines, init);
      TidyAppendedFor(before + Appended(lines, init), lines, Appended(lines, init), a);
      AppendedSnoc(lines, init, a);
      Associative(before, Appended(lines, init), AppendedFor(lines, Appended(lines, init), a));
    }
  }

  lemma MergedIsTidy(text: string, additions: seq<Addition>)
    requires PlainAdditions(additions)
    ensures TidyTo(Merged(Terminated(SplitLines(text)), additions), "")
  {
    var lines := Terminated(SplitLines(text));
    TerminatedIsTidy(text);
    var pending := Pending(lines, additions);
    forall b, v | b in pending && v in b.values
      ensures PlainDefault(v)
    {
      var a := PendingFrom(lines, additions, b);
    }
    SimultaneousTidy(lines, pending);
    TidyAppended(Simultaneous(lines, pending), lines, additions);
  }

  // ----- The text -----

  /** The text ends outside multi-line strings, once its last line is finished. */
  ghost predicate EndsOutside(text: string) {
    Read(Terminated(SplitLines(text))).state.None?
  }

  lemma LastLineEnds(init: seq<string>, last: string)
    requires last != "" && EndsWithFeed(Join(init + [last]))
    ensures Finished(last) == last
  {
    assert (init + [last])[..|init|] == init;
    var text := Join(init) + last;
    assert text[|text| - 1] == last[|last| - 1];
  }

  lemma TerminatedAlready(text: string)
    requires EndsWithFeed(text)
    ensures Terminated(SplitLines(text)) == SplitLines(text)
  {
    if text != "" {
      var lines := SplitLines(text);
      LastLineIsWhole(text);
      JoinSplit(text);
      assert lines == lines[..|lines| - 1] + [lines[|lines| - 1]];
      LastLineEnds(lines[..|lines| - 1], lines[|lines| - 1]);
    }
  }

  /** Merging the merged text again changes nothing. */
  lemma MergeTwice(text: string, additions: seq<Addition>)
    requires PlainAdditions(additions) && EndsOutside(text)
    ensures MergedText(MergedText(text, additions), additions) == MergedText(text, additions)
  {
    var out := Merged(Terminated(SplitLines(text)), additions);
    var again := MergedText(text, additions);
    MergedIsTidy(text, additions);
    TerminatedAlready(again);
    MergedKeys(Terminated(SplitLines(text)), additions);
    ResplitReads(out);
    CompleteIsFixed(SplitLines(again), additions);
    JoinSplit(again);
  }

  /** Every default key is read in its table of the merged text, and nothing else is new. */
  lemma MergedTextKeys(text: string, additions: seq<Addition>)
    requires PlainAdditions(additions) && EndsOutside(text)
    ensures Read(SplitLines(MergedText(text, additions))).keys ==
      Read(Terminated(SplitLines(text))).keys + Wanted(additions)
    ensures EndsOutside(MergedText(text, additions))
  {
    var out := Merged(Terminated(SplitLines(text)), additions);
    MergedIsTidy(text, additions);
    TerminatedAlready(MergedText(text, additions));
    MergedKeys(Terminated(SplitLines(text)), additions);
    ResplitReads(out);
  }

  // ----- `candidate_text` -----

  /** `key = value` */
  function Assignment(key: string, value: string): string {
    key + " = " + value
  }

  function Quoted(body: string): string {
    ['"'] + body + ['"']
  }

  function VersionLine(): string {
    Assignment("schema_version", "1")
  }

  /** The schema version of a file that has none is put in front, on a line of its own. */
  function WithVersion(versionLine: string, text: string): string {
    versionLine + "\n" + ("\n" + text)
  }

  function CandidateText(text: string, version: nat, additions: seq<Addition>): string {
    if version == 0 then WithVersion(VersionLine(), MergedText(text, additions)) else MergedText(text, additions)
  }

  function LifecycleDefaults(): Addition {
    Extended(Addition("lifecycle", []), Assignment("enabled", "false"))
  }

  /** The texts of the cluster table; its address and namespace are fixed, its files depend on the host. */
  datatype Observer = Observer(server: string, namespace: string, tokenFile: string, caFile: string)

  function Extended(a: Addition, value: string): Addition {
    a.(values := a.values + [value])
  }

  function ClusterDefaults(o: Observer): Addition {
    var a := Extended(Addition("cluster", []), Assignment("server", Quoted(o.server)));
    var b := Extended(a, Assignment("namespace", Quoted(o.namespace)));
    var c := Extended(b, Assignment("token_file", Quoted(o.tokenFile)));
    var d := Extended(c, Assignment("ca_file", Quoted(o.caFile)));
    Extended(d, Assignment("timeout_seconds", "5"))
  }

  /** The tables a migration completes; the cluster table only when the observer's files are in place. */
  function Defaults(observer: Option<Observer>): seq<Addition> {
    match observer
    case None => [LifecycleDefaults()]
    case Some(o) => [LifecycleDefaults(), ClusterDefaults(o)]
  }

  predicate IsName(s: string) {
    s != "" && forall c :: c in s ==> IsNameChar(c)
  }

  predicate IsBareValue(s: string) {
    forall c :: c in s ==> !IsBreak(c) && c != '#' && c != '"' && c != '\''
  }

  /** A text that needs no escape in a one-line string. */
  predicate IsCleanText(s: string) {
    forall c :: c in s ==> !IsBreak(c) && c != '"' && c != '\\'
  }

  lemma {:induction false} BareSkips(s: string, rest: string)
    requires IsBareValue(s)
    ensures Scan(s + rest, None) == Scan(rest, None)
  {
    if s == "" {
      assert s + rest == rest;
    } else {
      assert s[0] in s && forall c :: c in s[1..] ==> c in s;
      assert (s + rest)[1..] == s[1..] + rest;
      BareSkips(s[1..], rest);
    }
  }

  lemma {:induction false} RunName(s: string, rest: string)
    requires (forall c :: c in s ==> IsNameChar(c)) && (rest == "" || !IsNameChar(rest[0]))
    ensures Run(s + rest, false) == |s|
  {
    if s == "" {
      assert s + rest == rest;
    } else {
      assert s[0] in s && forall c :: c in s[1..] ==> c in s;
      assert (s + rest)[1..] == s[1..] + rest;
      RunName(s[1..], rest);
    }
  }

  lemma AssignmentKey(key: string, value: string)
    requires IsName(key)
    ensures KeyName(Assignment(key, value)) == Some(key)
  {
    var line := Assignment(key, value);
    var rest := " = " + value;
    assert line == key + rest;
    assert line[0] == key[0] && key[0] in key;
    assert SkipSpace(line) == line;
    RunName(key, rest);
    assert line[|key|..] == rest && line[..|key|] == key;
    assert rest[1..] == "= " + value;
    assert SkipSpace(rest[1..]) == rest[1..];
    assert SkipSpace(rest) == rest[1..];
  }

  lemma NameIsBare(key: string)
    requires IsName(key)
    ensures IsBareValue(key + " = ")
  {
    forall c | c in key + " = "
      ensures !IsBreak(c) && c != '#' && c != '"' && c != '\''
    {
      assert c in key || c == ' ' || c == '=';
    }
  }

  /** A name assigned a number or a truth value is a plain default under that name. */
  lemma BareAssignment(key: string, value: string)
    requires IsName(key) && IsBareValue(value)
    ensures PlainDefault(Assignment(key, value)) && DefaultKey(Assignment(key, value)) == key
  {
    AssignmentKey(key, value);
    DefaultKeyIsKey(Assignment(key, value));
    NameIsBare(key);
    BareSkips(key + " = ", value);
    BareSkips(value, "");
    assert value + "" == value;
    assert forall c :: c in Assignment(key, value) ==> c in key + " = " || c in value;
  }

  lemma {:induction false} CleanIsOneLine(s: string)
    requires IsCleanText(s)
    ensures S.OneLineBody(s, Double)
  {
    if s != "" {
      assert s[0] in s && forall c :: c in s[1..] ==> c in s;
      CleanIsOneLine(s[1..]);
    }
  }

  /** So is a name assigned a text that needs no escape. */
  lemma QuotedAssignment(key: string, body: string)
    requires IsName(key) && IsCleanText(body)
    ensures PlainDefault(Assignment(key, Quoted(body))) && DefaultKey(Assignment(key, Quoted(body))) == key
  {
    var line := Assignment(key, Quoted(body));
    AssignmentKey(key, Quoted(body));
    DefaultKeyIsKey(line);
    NameIsBare(key);
    BareSkips(key + " = ", Quoted(body));
    CleanIsOneLine(body);
    S.OneLineTokenReads(Double, body, "");
    assert Quoted(body) == [Mark(Double)] + body + [Mark(Double)] + "";
    assert forall c :: c in line ==> c in key + " = " || c == '"' || c in body;
  }

  lemma ExtendQuoted(a: Addition, key: string, body: string)
    requires PlainAddition(a) && IsName(key) && IsCleanText(body)
    ensures PlainAddition(Extended(a, Assignment(key, Quoted(body))))
  {
    QuotedAssignment(key, body);
  }

  lemma ExtendBare(a: Addition, key: string, value: string)
    requires PlainAddition(a) && IsName(key) && IsBareValue(value)
    ensures PlainAddition(Extended(a, Assignment(key, value)))
  {
    BareAssignment(key, value);
  }

  lemma LifecyclePlain()
    ensures PlainAddition(LifecycleDefaults())
  {
    ExtendBare(Addition("lifecycle", []), "enabled", "false");
  }

  ghost predicate IsCleanObserver(o: Observer) {
    IsCleanText(o.server) && IsCleanText(o.namespace) && IsCleanText(o.tokenFile) && IsCleanText(o.caFile)
  }

  lemma ClusterPlain(o: Observer)
    requires IsCleanObserver(o)
    ensures PlainAddition(ClusterDefaults(o))
  {
    var a := Addition("cluster", []);
    ExtendQuoted(a, "server", o.server);
    var b := Extended(a, Assignment("server", Quoted(o.server)));
    ExtendQuoted(b, "namespace", o.namespace);
    var c := Extended(b, Assignment("namespace", Quoted(o.namespace)));
    ExtendQuoted(c, "token_file", o.tokenFile);
    var d := Extended(c, Assignment("token_file", Quoted(o.tokenFile)));
    ExtendQuoted(d, "ca_file", o.caFile);
    ExtendBare(Extended(d, Assignment("ca_file", Quoted(o.caFile))), "timeout_seconds", "5");
  }

  /** The defaults the migration adds meet what the merge relies on. */
  lemma DefaultsArePlain(observer: Option<Observer>)
    requires observer.Some? ==> IsCleanObserver(observer.value)
    ensures PlainAdditions(Defaults(observer))
  {
    LifecyclePlain();
    if observer.Some? {
      ClusterPlain(observer.value);
    }
  }

  /** Lines of no table, outside strings, in front only add their keys. */
  lemma {:induction false} FrontReads(front: seq<string>, lines: seq<string>)
    requires Read(front).state.None? && Read(front).section == ""
    ensures Read(front + lines).state == Read(lines).state && Read(front + lines).section == Read(lines).section
    ensures Read(front + lines).keys == Read(front).keys + Read(lines).keys
  {
    if lines == [] {
      assert front + lines == front;
    } else {
      var init, last := lines[..|lines| - 1], lines[|lines| - 1];
      FrontReads(front, init);
      assert front + lines == (front + init) + [last];
      ReadSnoc(front + init, last);
    }
  }

  lemma VersionLines(line: string, rest: string)
    requires PlainDefault(line)
    ensures SplitLines(WithVersion(line, rest)) == [line + "\n", "\n"] + SplitLines(rest)
  {
    NoBreakSplits(line);
    WholeLine(line + "\n");
    assert FirstLine("\n") == 1;
    WholeLine("\n");
    SplitConcat(line + "\n", "\n" + rest);
    SplitConcat("\n", rest);
  }

  lemma VersionReads(line: string)
    requires PlainDefault(line)
    ensures var r := Read([line + "\n", "\n"]);
      r.state.None? && r.section == "" && r.keys == {("", DefaultKey(line))}
  {
    var start: seq<string> := [];
    ReadSnoc(start, line + "\n");
    PlainLineReads(line, Read(start));
    assert start + [line + "\n"] == [line + "\n"];
    ReadSnoc([line + "\n"], "\n");
    assert [line + "\n"] + ["\n"] == [line + "\n", "\n"];
    BlankReads(Read([line + "\n"]));
  }

  lemma VersionIsPlain()
    ensures PlainDefault(VersionLine())
  {
    BareAssignment("schema_version", "1");
  }

  /** With the version in front, a merged text is still complete. */
  lemma VersionKeepsComplete(line: string, merged: string, additions: seq<Addition>)
    requires PlainDefault(line) && EndsWithFeed(merged) && Wanted(additions) <= Read(SplitLines(merged)).keys
    ensures MergedText(WithVersion(line, merged), additions) == WithVersion(line, merged)
  {
    var candidate := WithVersion(line, merged);
    VersionLines(line, merged);
    VersionReads(line);
    TerminatedAlready(candidate);
    FrontReads([line + "\n", "\n"], SplitLines(merged));
    CompleteIsFixed(SplitLines(candidate), additions);
    JoinSplit(candidate);
  }

  /** A migrated configuration, of either schema version, is its own migration. */
  lemma MigrateTwice(text: string, version: nat, additions: seq<Addition>)
    requires PlainAdditions(additions) && EndsOutside(text)
    ensures CandidateText(CandidateText(text, version, additions), 1, additions)
            == CandidateText(text, version, additions)
  {
    if version != 0 {
      MergeTwice(text, additions);
    } else {
      VersionIsPlain();
      MergedIsTidy(text, additions);
      MergedTextKeys(text, additions);
      VersionKeepsComplete(VersionLine(), MergedText(text, additions), additions);
    }
  }

  lemma VersionText()
    ensures VersionLine() == "schema_version = 1"
  {
  }

  lemma VersionAdds(text: string, additions: seq<Addition>, rest: string)
    requires PlainAdditions(additions) && EndsOutside(text) && rest == MergedText(text, additions)
    ensures Read(SplitLines(WithVersion(VersionLine(), rest))).keys ==
      Read(Terminated(SplitLines(text))).keys + Wanted(additions) + {("", "schema_version")}
  {
    BareAssignment("schema_version", "1");
    VersionLines(VersionLine(), rest);
    VersionReads(VersionLine());
    FrontReads([VersionLine() + "\n", "\n"], SplitLines(rest));
    MergedTextKeys(text, additions);
  }

  /**
   The migration of a text without a schema version has the version on its first line and then the migration of the
   rest; it reads the version, the keys of the text and the defaults, and nothing else.
   */
  lemma VersionComesFirst(text: string, additions: seq<Addition>)
    requires PlainAdditions(additions) && EndsOutside(text)
    ensures SplitLines(CandidateText(text, 0, additions)) ==
      ["schema_version = 1" + "\n", "\n"] + SplitLines(CandidateText(text, 1, additions))
    ensures Read(SplitLines(CandidateText(text, 0, additions))).keys ==
      Read(Terminated(SplitLines(text))).keys + Wanted(additions) + {("", "schema_version")}
  {
    VersionIsPlain();
    VersionText();
    VersionLines(VersionLine(), MergedText(text, additions));
    VersionAdds(text, additions, MergedText(text, additions));
  }

  lemma OffText()
    ensures Assignment("enabled", "false") == "enabled = false"
  {
  }

  lemma OffKey(line: string)
    requires line == Assignment("enabled", "false")
    ensures DefaultKey(line) == "enabled"
  {
    BareAssignment("enabled", "false");
  }

  lemma LifecycleAdds(a: Addition)
    requires a == LifecycleDefaults()
    ensures a.section == "lifecycle" && a.values == ["enabled = false"] && DefaultKey(a.values[0]) == "enabled"
  {
    OffText();
    OffKey(a.values[0]);
  }

  /** A migration that finds no switch for the lifecycle turns it off, in its table. */
  lemma LifecycleStaysOff(text: string, observer: Option<Observer>)
    requires EndsOutside(text) && (observer.Some? ==> IsCleanObserver(observer.value))
    requires ("lifecycle", "enabled") !in Read(Terminated(SplitLines(text))).keys
    ensures Stands(Merged(Terminated(SplitLines(text)), Defaults(observer)), "lifecycle", "enabled = false" + "\n")
  {
    DefaultsArePlain(observer);
    LifecycleAdds(Defaults(observer)[0]);
    DefaultsStand(Terminated(SplitLines(text)), Defaults(observer), Defaults(observer)[0],
                  Defaults(observer)[0].values[0]);
  }
}
