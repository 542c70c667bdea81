/**
 The text of a configuration file, as manager/config_migration.py reads it: lines, table headers, keys, and
 which lines lie inside a multi-line string.
 */
module ConfigText {
  import opened Sequences

  // ----- Lines: `str.splitlines(keepends=True)` and `"".join` -----

  /** The characters that end a line. */
  predicate IsBreak(c: char) {
    || '\U{0A}' <= c <= '\U{0D}' || '\U{1C}' <= c <= '\U{1E}'
    || c == '\U{85}' || c == '\U{2028}' || c == '\U{2029}'
  }

  /** The length of the first line, its ending included; carriage return and line feed end a line together. */
  function FirstLine(s: string): (n: nat)
    ensures n <= |s| && (s != "" ==> n > 0)
  {
    if s == "" then 0
    else if s[0] == '\r' && |s| > 1 && s[1] == '\n' then 2
    else if IsBreak(s[0]) then 1
    else 1 + FirstLine(s[1..])
  }

  function SplitLines(s: string): seq<string>
    decreases |s|
  {
    if s == "" then [] else [s[..FirstLine(s)]] + SplitLines(s[FirstLine(s)..])
  }

  function Join(lines: seq<string>): string {
    if lines == [] then "" else Join(lines[..|lines| - 1]) + lines[|lines| - 1]
  }

  lemma {:induction false} JoinFront(first: string, rest: seq<string>)
    ensures Join([first] + rest) == first + Join(rest)
  {
    var all := [first] + rest;
    if rest == [] {
      assert all[..0] == [];
    } else {
      assert all[..|all| - 1] == [first] + rest[..|rest| - 1];
      JoinFront(first, rest[..|rest| - 1]);
    }
  }

  /** Splitting loses nothing. */
  lemma {:induction false} JoinSplit(s: string)
    ensures Join(SplitLines(s)) == s
    decreases |s|
  {
    if s != "" {
      var n := FirstLine(s);
      JoinSplit(s[n..]);
      JoinFront(s[..n], SplitLines(s[n..]));
    }
  }

  predicate Closed(s: string) {
    s != "" && IsBreak(s[|s| - 1])
  }

  /** Two texts that would share a carriage return and line feed. */
  predicate Straddles(a: string, b: string) {
    a != "" && b != "" && a[|a| - 1] == '\r' && b[0] == '\n'
  }

  lemma {:induction false} FirstLineStays(a: string, b: string)
    requires Closed(a) && !Straddles(a, b)
    ensures FirstLine(a + b) == FirstLine(a)
  {
    if !IsBreak(a[0]) {
      assert (a + b)[1..] == a[1..] + b;
      FirstLineStays(a[1..], b);
    }
  }

  /** A text that ends with a line ending splits apart from what follows it. */
  lemma {:induction false} SplitConcat(a: string, b: string)
    requires a == "" || Closed(a)
    requires !Straddles(a, b)
    ensures SplitLines(a + b) == SplitLines(a) + SplitLines(b)
    decreases |a|
  {
    if a == "" {
      assert a + b == b;
    } else {
      FirstLineStays(a, b);
      var n := FirstLine(a);
      assert (a + b)[..n] == a[..n] && (a + b)[n..] == a[n..] + b;
      SplitConcat(a[n..], b);
      Associative([a[..n]], SplitLines(a[n..]), SplitLines(b));
    }
  }

  // ----- Names: SECTION_RE, KEY_RE and the key of a default -----

  predicate IsSpace(c: char) {
    || '\U{09}' <= c <= '\U{0D}' || '\U{1C}' <= c <= '\U{20}' || c == '\U{85}' || c == '\U{A0}' || c == '\U{1680}'
    || '\U{2000}' <= c <= '\U{200A}' || c == '\U{2028}' || c == '\U{2029}' || c == '\U{202F}' || c == '\U{205F}'
    || c == '\U{3000}'
  }

  predicate IsNameChar(c: char) {
    'A' <= c <= 'Z' || 'a' <= c <= 'z' || '0' <= c <= '9' || c == '_' || c == '-'
  }

  predicate IsTableChar(c: char) {
    IsNameChar(c) || c == '.'
  }

  function SkipSpace(s: string): (r: string)
    ensures |r| <= |s|
  {
    if s != "" && IsSpace(s[0]) then SkipSpace(s[1..]) else s
  }

  /** The length of the longest run of name characters in front; a table name may hold dots. */
  function Run(s: string, dots: bool): (n: nat)
    ensures n <= |s|
    ensures forall i :: 0 <= i < n ==> IsTableChar(s[i]) && (dots || IsNameChar(s[i]))
    ensures n < |s| ==> !(if dots then IsTableChar(s[n]) else IsNameChar(s[n]))
  {
    if s != "" && (if dots then IsTableChar(s[0]) else IsNameChar(s[0])) then 1 + Run(s[1..], dots) else 0
  }

  /** The table a line opens: `^\s*\[([A-Za-z0-9_.-]+)\]\s*(?:#.*)?$`. */
  function TableName(line: string): Option<string> {
    var s := SkipSpace(line);
    if s == "" || s[0] != '[' then None
    else
      var t := s[1..];
      var n := Run(t, true);
      if n == 0 || n == |t| || t[n] != ']' then None
      else
        var u := SkipSpace(t[n + 1..]);
        if u == "" || u[0] == '#' then Some(t[..n]) else None
  }

  /** The key a line assigns: `^\s*([A-Za-z0-9_-]+)\s*=`. */
  function KeyName(line: string): Option<string> {
    var s := SkipSpace(line);
    var n := Run(s, false);
    var u := SkipSpace(s[n..]);
    if n > 0 && u != "" && u[0] == '=' then Some(s[..n]) else None
  }

  function BeforeEquals(s: string): string {
    if s == "" || s[0] == '=' then "" else [s[0]] + BeforeEquals(s[1..])
  }

  function StripEnd(s: string): string {
    if s != "" && IsSpace(s[|s| - 1]) then StripEnd(s[..|s| - 1]) else s
  }

  /** `value.split("=", 1)[0].strip()` */
  function DefaultKey(value: string): string {
    StripEnd(SkipSpace(BeforeEquals(value)))
  }

  lemma {:induction false} BeforeEqualsSkips(s: string)
    ensures SkipSpace(BeforeEquals(s)) == BeforeEquals(SkipSpace(s))
  {
    if s != "" && IsSpace(s[0]) {
      assert BeforeEquals(s)[1..] == BeforeEquals(s[1..]);
      BeforeEqualsSkips(s[1..]);
    }
  }

  /** A name, then white space up to an equals sign, is cut and stripped to the name. */
  lemma {:induction false} NameBeforeEquals(s: string, n: nat)
    requires n <= |s| && forall i :: 0 <= i < n ==> IsNameChar(s[i])
    requires var u := SkipSpace(s[n..]); u != "" && u[0] == '='
    ensures StripEnd(BeforeEquals(s)) == s[..n]
    decreases |s|
  {
    if n > 0 {
      assert s[1..][n - 1..] == s[n..];
      NameBeforeEquals(s[1..], n - 1);
      var rest := BeforeEquals(s[1..]);
      StripEndFront(s[0], rest);
      assert s[..n] == [s[0]] + s[1..][..n - 1];
    } else if s[0] != '=' {
      assert s[0..] == s;
      assert s[1..][0..] == s[1..];
      NameBeforeEquals(s[1..], 0);
      StripEndFront(s[0], BeforeEquals(s[1..]));
    }
  }

  lemma {:induction false} StripEndFront(c: char, s: string)
    ensures StripEnd([c] + s) == if StripEnd(s) == "" && IsSpace(c) then "" else [c] + StripEnd(s)
  {
    if s == "" {
      assert ([c] + s)[..0] == "";
    } else if IsSpace(s[|s| - 1]) {
      assert ([c] + s)[..|s|] == [c] + s[..|s| - 1];
      StripEndFront(c, s[..|s| - 1]);
    }
  }

  /** The key a default is looked up by is the key the line then assigns. */
  lemma DefaultKeyIsKey(value: string)
    requires KeyName(value).Some?
    ensures DefaultKey(value) == KeyName(value).value
  {
    BeforeEqualsSkips(value);
    var s := SkipSpace(value);
    NameBeforeEquals(s, Run(s, false));
  }

  lemma {:induction false} SkipSpaceNewline(s: string)
    ensures SkipSpace(s + "\n") == if SkipSpace(s) == "" then "" else SkipSpace(s) + "\n"
  {
    if s == "" {
      assert s + "\n" == "\n";
      assert "\n"[1..] == "";
    } else if IsSpace(s[0]) {
      assert (s + "\n")[1..] == s[1..] + "\n";
      SkipSpaceNewline(s[1..]);
    }
  }

  lemma {:induction false} RunNewline(s: string, dots: bool)
    ensures Run(s + "\n", dots) == Run(s, dots)
  {
    if s == "" {
      assert s + "\n" == "\n";
    } else {
      assert (s + "\n")[1..] == s[1..] + "\n";
      RunNewline(s[1..], dots);
    }
  }

  /** A final line feed changes neither reading of a line. */
  lemma KeyNewline(line: string)
    ensures KeyName(line + "\n") == KeyName(line)
  {
    SkipSpaceNewline(line);
    var s := SkipSpace(line);
    if s != "" {
      RunNewline(s, false);
      var n := Run(s, false);
      assert (s + "\n")[n..] == s[n..] + "\n";
      SkipSpaceNewline(s[n..]);
      assert (s + "\n")[..n] == s[..n];
    }
  }

  lemma TableNewline(line: string)
    ensures TableName(line + "\n") == TableName(line)
  {
    SkipSpaceNewline(line);
    var s := SkipSpace(line);
    if s != "" && s[0] == '[' {
      var t := s[1..];
      assert (s + "\n")[1..] == t + "\n";
      RunNewline(t, true);
      var n := Run(t, true);
      if n < |t| {
        assert (t + "\n")[n + 1..] == t[n + 1..] + "\n";
        SkipSpaceNewline(t[n + 1..]);
        assert (t + "\n")[..n] == t[..n];
      }
    }
  }

  // ----- Multi-line strings -----

  datatype Quote = Double | Single

  function Mark(q: Quote): char {
    if q.Double? then '"' else '\''
  }

  predicate Triple(s: string, q: Quote) {
    |s| >= 3 && s[0] == Mark(q) && s[1] == Mark(q) && s[2] == Mark(q)
  }

  function Drop(s: string, n: nat): (r: string)
    ensures |r| <= |s| && (s != "" && n > 0 ==> |r| < |s|)
  {
    if n <= |s| then s[n..] else ""
  }

  /** What follows a one-line string whose opening mark has been read. */
  function AfterString(s: string, q: Quote): (r: string)
    ensures |r| <= |s|
    decreases |s|
  {
    if s == "" then ""
    else if q.Double? && s[0] == '\\' then AfterString(Drop(s, 2), q)
    else if s[0] == Mark(q) then s[1..]
    else AfterString(s[1..], q)
  }

  /** The multi-line string a text is in after `s`, if it was in `state` before. */
  function Scan(s: string, state: Option<Quote>): Option<Quote>
    decreases |s|
  {
    if s == "" then state
    else match state
      case Some(q) =>
        if Triple(s, q) then Scan(s[3..], None)
        else if q.Double? && s[0] == '\\' then Scan(Drop(s, 2), state)
        else Scan(s[1..], state)
      case None =>
        if s[0] == '#' then None
        else if Triple(s, Double) then Scan(s[3..], Some(Double))
        else if Triple(s, Single) then Scan(s[3..], Some(Single))
        else if s[0] == '"' then Scan(AfterString(s[1..], Double), None)
        else if s[0] == '\'' then Scan(AfterString(s[1..], Single), None)
        else Scan(s[1..], None)
  }

  /** `_multiline_string_state`: one pass with an index that may step past the end. */
  method MultilineStringState(line: string, state: Option<Quote>) returns (r: Option<Quote>)
    ensures r == Scan(line, state)
  {
    r := state;
    var index := 0;
    while index < |line|
      invariant Scan(Drop(line, index), r) == Scan(line, state)
      decreases |line| - index
    {
      ghost var s := Drop(line, index);
      assert forall n: nat | index + n <= |line| :: s[n..] == line[index + n..];
      assert forall n: nat :: Drop(s, n) == Drop(line, index + n);
      if r.Some? {
        if StartsTriple(line, index, r.value) {
          r, index := None, index + 3;
        } else if r.value.Double? && line[index] == '\\' {
          index := index + 2;
        } else {
          index := index + 1;
        }
      } else if line[index] == '#' {
        return;
      } else if StartsTriple(line, index, Double) || StartsTriple(line, index, Single) {
        r, index := Some(if line[index] == '"' then Double else Single), index + 3;
      } else if line[index] == '"' || line[index] == '\'' {
        var q := if line[index] == '"' then Double else Single;
        index := SkipString(line, index + 1, q);
      } else {
        index := index + 1;
      }
    }
  }

  predicate StartsTriple(line: string, index: nat, q: Quote)
    requires index <= |line|
    ensures StartsTriple(line, index, q) == Triple(line[index..], q)
  {
    index + 3 <= |line| && line[index] == Mark(q) && line[index + 1] == Mark(q) && line[index + 2] == Mark(q)
  }

  method SkipString(line: string, start: nat, q: Quote) returns (index: nat)
    requires start <= |line|
    ensures start <= index
    ensures Drop(line, index) == AfterString(line[start..], q)
  {
    index := start;
    while index < |line|
      invariant start <= index
      invariant AfterString(Drop(line, index), q) == AfterString(line[start..], q)
      decreases |line| - index
    {
      ghost var s := Drop(line, index);
      assert forall n: nat :: Drop(s, n) == Drop(line, index + n);
      assert s[1..] == Drop(line, index + 1);
      if q.Double? && line[index] == '\\' {
        index := index + 2;
      } else if line[index] == Mark(q) {
        index := index + 1;
        return;
      } else {
        index := index + 1;
      }
    }
  }

  lemma {:induction false} AfterStringNewline(s: string, q: Quote)
    ensures AfterString(s + "\n", q) == AfterString(s, q) + "\n"
            || (AfterString(s + "\n", q) == "" && AfterString(s, q) == "")
    decreases |s|
  {
    if s == "" {
      assert s + "\n" == "\n";
      assert "\n"[1..] == "";
    } else {
      assert (s + "\n")[1..] == s[1..] + "\n";
      if q.Double? && s[0] == '\\' {
        if |s| >= 2 {
          assert (s + "\n")[2..] == s[2..] + "\n";
        }
        if |s| >= 2 {
          AfterStringNewline(s[2..], q);
        }
      } else if s[0] != Mark(q) {
        AfterStringNewline(s[1..], q);
      }
    }
  }

  /** A line feed after a text changes nothing in what the text leaves open. */
  lemma {:induction false} ScanNewline(s: string, state: Option<Quote>)
    ensures Scan(s + "\n", state) == Scan(s, state)
    decreases |s|
  {
    var t := s + "\n";
    if s == "" {
      assert t == "\n" && t[1..] == "";
    } else {
      assert t[1..] == s[1..] + "\n";
      assert |s| >= 2 ==> t[2..] == s[2..] + "\n";
      assert |s| >= 3 ==> t[3..] == s[3..] + "\n";
      assert forall q :: Triple(t, q) == Triple(s, q);
      if state.Some? {
        if Triple(s, state.value) {
          ScanNewline(s[3..], None);
        } else if state.value.Double? && s[0] == '\\' {
          if |s| >= 2 { ScanNewline(s[2..], state); }
        } else {
          ScanNewline(s[1..], state);
        }
      } else if s[0] != '#' {
        if Triple(s, Double) {
          ScanNewline(s[3..], Some(Double));
        } else if Triple(s, Single) {
          ScanNewline(s[3..], Some(Single));
        } else if s[0] == '"' || s[0] == '\'' {
          var q := if s[0] == '"' then Double else Single;
          AfterStringNewline(s[1..], q);
          ScanNewline(AfterString(s[1..], q), None);
        } else {
          ScanNewline(s[1..], None);
        }
      }
    }
  }
}
