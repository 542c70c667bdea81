/**
 The callback codec of manager/communications.py: a typed read command as a string of at most 64 bytes,
 four fields separated by colons.
 */
module Communications {
  import opened Sequences
  import Decimal

  datatype Kind = Summary | Health | Preflight | Incidents | History | Help

  datatype ReadCommand = ReadCommand(kind: Kind, page: int, component: Option<string>)

  datatype Error = PageOutOfRange | InvalidComponent | TooLarge | InvalidCallback | UnknownKind

  datatype Result<T> = Ok(value: T) | Err(error: Error)

  predicate IsComponentChar(c: char) {
    'a' <= c <= 'z' || '0' <= c <= '9' || c == '-'
  }

  /** `^[a-z0-9][a-z0-9-]{0,63}$` */
  predicate IsComponent(s: string) {
    1 <= |s| <= 64 && s[0] != '-' && forall c :: c in s ==> IsComponentChar(c)
  }

  /** What the constructor of a command checks. */
  function Checked(c: ReadCommand): Result<ReadCommand> {
    if !(1 <= c.page <= 1000) then Err(PageOutOfRange)
    else if c.component.Some? && !IsComponent(c.component.value) then Err(InvalidComponent)
    else Ok(c)
  }

  /** A page between 1 and 1000, and a component only under a name of 1 to 64 lower-case letters, digits and dashes. */
  ghost predicate Valid(c: ReadCommand) {
    && 1 <= c.page <= 1000
    && (c.component.Some? ==>
          && 1 <= |c.component.value| <= 64 && c.component.value[0] != '-'
          && forall i :: 0 <= i < |c.component.value| ==> IsComponentChar(c.component.value[i]))
  }

  lemma CheckedIffValid(c: ReadCommand)
    ensures Checked(c) == Ok(c) <==> Valid(c)
    ensures Checked(c).Ok? ==> Checked(c).value == c
  {
    if c.component.Some? {
      assert forall x :: x in c.component.value <==>
        exists i :: 0 <= i < |c.component.value| && c.component.value[i] == x;
    }
  }

  function KindName(k: Kind): string {
    match k
    case Summary => "summary"
    case Health => "health"
    case Preflight => "preflight"
    case Incidents => "incidents"
    case History => "history"
    case Help => "help"
  }

  function KindOf(s: string): Option<Kind> {
    if s == "summary" then Some(Summary)
    else if s == "health" then Some(Health)
    else if s == "preflight" then Some(Preflight)
    else if s == "incidents" then Some(Incidents)
    else if s == "history" then Some(History)
    else if s == "help" then Some(Help)
    else None
  }

  function ComponentField(component: Option<string>): string {
    if component.None? || component.value == "" then "-" else component.value
  }

  function Frame(kind: string, page: string, component: string): string {
    "read" + ":" + (kind + ":" + (page + ":" + component))
  }

  function EncodeCallback(c: ReadCommand): Result<string>
    requires c.page >= 0
  {
    var value := Frame(KindName(c.kind), Decimal.Print(c.page), ComponentField(c.component));
    if |value| > 64 then Err(TooLarge) else Ok(value)
  }

  /** `s.split(":")` */
  function Split(s: string): (r: seq<string>)
    ensures |r| > 0
  {
    if s == "" then [""]
    else if s[0] == ':' then [""] + Split(s[1..])
    else
      var rest := Split(s[1..]);
      [[s[0]] + rest[0]] + rest[1..]
  }

  function DecodeCallback(value: string): Result<ReadCommand> {
    var parts := Split(value);
    if |parts| != 4 || parts[0] != "read" || !Decimal.IsDigits(parts[2]) then Err(InvalidCallback)
    else
      var kind := KindOf(parts[1]);
      if kind.None? then Err(UnknownKind)
      else Checked(ReadCommand(kind.value, Decimal.Parse(parts[2]), if parts[3] == "-" then None else Some(parts[3])))
  }

  // ----- Splitting -----

  lemma {:induction false} SplitField(field: string, rest: string)
    requires ':' !in field
    ensures Split(field + ":" + rest) == [field] + Split(rest)
  {
    var s := field + ":" + rest;
    if field == "" {
      assert s[1..] == rest;
    } else {
      assert s[1..] == field[1..] + ":" + rest;
      SplitField(field[1..], rest);
      assert [field[0]] + field[1..] == field;
    }
  }

  lemma {:induction false} SplitLast(field: string)
    requires ':' !in field
    ensures Split(field) == [field]
  {
    if field != "" {
      SplitLast(field[1..]);
      assert [field[0]] + field[1..] == field;
    }
  }

  lemma {:induction false} SplitParts(s: string)
    ensures forall p :: p in Split(s) ==> ':' !in p
  {
    if s != "" {
      SplitParts(s[1..]);
      var rest := Split(s[1..]);
      assert rest[0] in rest && forall p :: p in rest[1..] ==> p in rest;
    }
  }

  /** The text is its first field, a colon, and the text of the others. */
  lemma {:induction false} SplitFirst(s: string) returns (rest: string)
    requires |Split(s)| > 1
    ensures s == Split(s)[0] + ":" + rest && Split(rest) == Split(s)[1..]
  {
    if s[0] == ':' {
      rest := s[1..];
    } else {
      rest := SplitFirst(s[1..]);
    }
  }

  lemma {:induction false} SplitSingle(s: string)
    requires |Split(s)| == 1
    ensures Split(s) == [s]
  {
    if s != "" {
      SplitSingle(s[1..]);
      assert [s[0]] + s[1..] == s;
    }
  }

  lemma FrameSplits(kind: string, page: string, component: string)
    requires ':' !in kind && ':' !in page && ':' !in component
    ensures Split(Frame(kind, page, component)) == ["read", kind, page, component]
  {
    SplitField("read", kind + ":" + (page + ":" + component));
    SplitField(kind, page + ":" + component);
    SplitField(page, component);
    SplitLast(component);
  }

  lemma FourFields(value: string)
    requires |Split(value)| == 4 && Split(value)[0] == "read"
    ensures value == Frame(Split(value)[1], Split(value)[2], Split(value)[3])
  {
    var a := SplitFirst(value);
    var b := SplitFirst(a);
    var c := SplitFirst(b);
    SplitSingle(c);
  }

  // ----- The codec -----

  lemma KindNames(k: Kind)
    ensures KindOf(KindName(k)) == Some(k) && ':' !in KindName(k)
  {
  }

  lemma NameOfKind(s: string)
    requires KindOf(s).Some?
    ensures KindName(KindOf(s).value) == s
  {
  }

  /** A field of a command holds no colon, and the placeholder is no component. */
  lemma FieldsAreClean(c: ReadCommand)
    requires Valid(c)
    ensures ':' !in Decimal.Print(c.page) && ':' !in ComponentField(c.component)
    ensures ComponentField(c.component) == "-" <==> c.component.None?
  {
    assert forall d :: d in Decimal.Print(c.page) ==> Decimal.IsDigit(d);
  }

  /** Whatever a valid command encodes to decodes to that command, within the size limit. */
  lemma RoundTrip(c: ReadCommand)
    requires Valid(c) && EncodeCallback(c).Ok?
    ensures DecodeCallback(EncodeCallback(c).value) == Ok(c)
    ensures |EncodeCallback(c).value| <= 64
  {
    CheckedIffValid(c);
    FieldsAreClean(c);
    KindNames(c.kind);
    FrameSplits(KindName(c.kind), Decimal.Print(c.page), ComponentField(c.component));
    Decimal.ParsePrint(c.page);
  }

  lemma EncodingIsInjective(c: ReadCommand, d: ReadCommand)
    requires Valid(c) && Valid(d) && EncodeCallback(c).Ok? && EncodeCallback(c) == EncodeCallback(d)
    ensures c == d
  {
    RoundTrip(c);
    RoundTrip(d);
  }

  /** `value` spells `c`, up to leading zeros of the page. */
  ghost predicate Spells(value: string, c: ReadCommand, digits: string) {
    && Valid(c) && Decimal.IsDigits(digits) && Decimal.Parse(digits) == c.page
    && value == Frame(KindName(c.kind), digits, ComponentField(c.component))
  }

  /** Decoding accepts exactly the spellings of valid commands, however long, and returns what they spell. */
  lemma DecodesExactly(value: string, c: ReadCommand)
    ensures DecodeCallback(value) == Ok(c) <==> exists digits :: Spells(value, c, digits)
  {
    CheckedIffValid(c);
    if DecodeCallback(value) == Ok(c) {
      var parts := Split(value);
      FourFields(value);
      NameOfKind(parts[1]);
      assert Spells(value, c, parts[2]);
    }
    if digits :| Spells(value, c, digits) {
      FieldsAreClean(c);
      KindNames(c.kind);
      assert forall d :: d in digits ==> Decimal.IsDigit(d);
      FrameSplits(KindName(c.kind), digits, ComponentField(c.component));
    }
  }

  /** Encoding again gives the shortest spelling: a decoded text within the limit always encodes. */
  lemma EncodingIsShortest(value: string)
    requires DecodeCallback(value).Ok? && |value| <= 64
    ensures var c := DecodeCallback(value).value;
      EncodeCallback(c).Ok? && |EncodeCallback(c).value| <= |value| && DecodeCallback(EncodeCallback(c).value) == Ok(c)
  {
    var c := DecodeCallback(value).value;
    DecodesExactly(value, c);
    CheckedIffValid(c);
    var digits :| Spells(value, c, digits);
    Decimal.PrintShortest(digits);
    RoundTrip(c);
  }
}
