/**
 What merging defaults does to a configuration file: nothing is lost or moved to another table, every default
 key is there afterwards, and merging again changes nothing.
 */
module ConfigMerge {
  import opened Sequences
  import opened ConfigText
  import opened ConfigMigration

  // ----- `_merge_defaults` -----

  method MissingValues(values: seq<string>, section: string, keys: map<string, set<string>>, ghost r: Reading)
      returns (missing: seq<string>)
    requires KeysAgree(keys, r)
    ensures missing == Missing(values, section, r.keys)
  {
    missing := [];
    for i := 0 to |values|
      invariant missing == Missing(values[..i], section, r.keys)
    {
      assert values[..i + 1][..i] == values[..i];
      assert (section, DefaultKey(values[i])) in r.keys <==> section in keys && DefaultKey(values[i]) in keys[section];
      if !(section in keys && DefaultKey(values[i]) in keys[section]) {
        missing := missing + [values[i]];
      }
    }
    assert values[..|values|] == values;
  }

  /** The edits: what to splice in where, and what to append. */
  method CollectEdits(lines: seq<string>, additions: seq<Addition>) returns (pending: seq<Block>, appended: seq<string>)
    ensures pending == Pending(lines, additions) && appended == Appended(lines, additions)
  {
    var keys, endings := SectionKeys(lines);
    pending, appended := [], [];
    for i := 0 to |additions|
      invariant pending == Pending(lines, additions[..i]) && appended == Appended(lines, additions[..i])
    {
      assert additions[..i + 1][..i] == additions[..i];
      var a := additions[i];
      var missing := MissingValues(a.values, a.section, keys, Read(lines));
      if missing != [] {
        if a.section in endings {
          pending := pending + [Block(endings[a.section], missing)];
        } else {
          if lines != [] || appended != [] {
            appended := appended + ["\n"];
          }
          appended := appended + [TableLine(a.section)] + Rendered(missing);
        }
      }
    }
    assert additions[..|additions|] == additions;
  }

  method SpliceAll(start: seq<string>, pending: seq<Block>) returns (lines: seq<string>)
    requires DistinctIndices(pending) && Within(pending, |start|)
    ensures lines == Simultaneous(start, pending)
  {
    var sorted := SortedDown(pending);
    lines := start;
    for i := 0 to |sorted|
      invariant Within(sorted[i..], |lines|)
      invariant Spliced(lines, sorted[i..]) == Spliced(start, sorted)
    {
      var b := sorted[i];
      assert sorted[i..][0] == b && sorted[i..][1..] == sorted[i + 1..];
      lines := lines[..b.index] + Rendered(b.values) + lines[b.index..];
    }
    BottomUpIsSimultaneous(start, sorted);
    forall i: nat
      ensures BlockAt(sorted, i) == BlockAt(pending, i)
    {
      BlockAtOrderFree(sorted, pending, i);
    }
    SimultaneousCongruent(start, sorted, pending);
  }

  method MergeDefaults(text: string, additions: seq<Addition>) returns (r: string)
    requires PlainAdditions(additions)
    ensures r == MergedText(text, additions)
  {
    var lines := Terminated(SplitLines(text));
    var pending, appended := CollectEdits(lines, additions);
    PendingDistinct(lines, additions);
    lines := SpliceAll(lines, pending);
    r := Join(lines + appended);
  }

  // ----- How inserted lines read -----

  function KeysAdded(section: string, values: seq<string>): set<(string, string)> {
    set v | v in values :: (section, DefaultKey(v))
  }

  lemma PlainLineReads(value: string, r: Reading)
    requires PlainDefault(value) && r.state.None?
    ensures ReadLine(r, value + "\n") == r.(keys := r.keys + {(r.section, DefaultKey(value))})
  {
    KeyNewline(value);
    TableNewline(value);
    ScanNewline(value, None);
    DefaultKeyIsKey(value);
    var s := SkipSpace(value);
    assert Run(s, false) > 0 && IsNameChar(s[0]);
    assert TableName(value).None?;
  }

  /** A block of defaults adds its keys to the current table and changes nothing else. */
  lemma {:induction false} BlockReads(lines: seq<string>, values: seq<string>)
    requires Read(lines).state.None? && forall v :: v in values ==> PlainDefault(v)
    ensures Read(lines + Rendered(values)) ==
      Read(lines).(keys := Read(lines).keys + KeysAdded(Read(lines).section, values))
  {
    if values == [] {
      assert lines + Rendered(values) == lines;
    } else {
      var init, v := values[..|values| - 1], values[|values| - 1];
      assert values == init + [v];
      BlockReads(lines, init);
      assert lines + Rendered(values) == (lines + Rendered(init)) + [v + "\n"];
      ReadSnoc(lines + Rendered(init), v + "\n");
      PlainLineReads(v, Read(lines + Rendered(init)));
      assert KeysAdded(Read(lines).section, values) ==
        KeysAdded(Read(lines).section, init) + {(Read(lines).section, DefaultKey(v))};
    }
  }

  lemma {:induction false} BareReads(s: string)
    requires forall c :: c in s ==> c != '#' && c != '"' && c != '\''
    ensures Scan(s, None) == None
  {
    if s != "" {
      assert s[0] in s;
      assert forall c :: c in s[1..] ==> c in s;
      BareReads(s[1..]);
    }
  }

  lemma {:induction false} RunAll(s: string, rest: string)
    requires forall c :: c in s ==> IsTableChar(c)
    requires rest == "" || !IsTableChar(rest[0])
    ensures Run(s + rest, true) == |s|
  {
    if s == "" {
      assert s + rest == rest;
    } else {
      assert s[0] in s && forall c :: c in s[1..] ==> c in s;
      assert (s + rest)[1..] == s[1..] + rest;
      RunAll(s[1..], rest);
    }
  }

  lemma TableLineReads(section: string, r: Reading)
    requires section != "" && (forall c :: c in section ==> IsTableChar(c)) && r.state.None?
    ensures ReadLine(r, TableLine(section)) == r.(section := section, sections := r.sections + {section})
  {
    var line := TableLine(section);
    assert line[1..] == section + "]\n";
    RunAll(section, "]\n");
    assert (section + "]\n")[|section| + 1..] == "\n";
    assert SkipSpace("\n") == "" by { assert "\n"[1..] == ""; }
    assert (section + "]\n")[..|section|] == section;
    forall c | c in line
      ensures c != '#' && c != '"' && c != '\''
    {
      assert c == '[' || c == ']' || c == '\n' || c in section;
    }
    BareReads(line);
  }

  lemma BlankReads(r: Reading)
    requires r.state.None?
    ensures ReadLine(r, "\n") == r
  {
    assert "\n"[1..] == "";
    assert SkipSpace("\n") == "";
  }

  // ----- Reading the merged lines -----

  /** Blocks stand outside multi-line strings and hold plain defaults. */
  ghost predicate BlocksFit(lines: seq<string>, pending: seq<Block>) {
    forall b :: b in pending ==>
      && (forall v :: v in b.values ==> PlainDefault(v))
      && (b.index <= |lines| ==> Read(lines[..b.index]).state.None?)
  }

  /** `p` is a key inserted in front of line `i`, in the table that is current there. */
  ghost predicate GainedAt(lines: seq<string>, pending: seq<Block>, i: nat, p: (string, string)) {
    i <= |lines| && p in KeysAdded(Read(lines[..i]).section, BlockAt(pending, i))
  }

  function Gained(lines: seq<string>, pending: seq<Block>): set<(string, string)> {
    var here := KeysAdded(Read(lines).section, BlockAt(pending, |lines|));
    if lines == [] then here else Gained(lines[..|lines| - 1], pending) + here
  }

  lemma BlockHereReads(lines: seq<string>, before: seq<string>, pending: seq<Block>)
    requires BlocksFit(lines, pending)
    requires Read(before).state == Read(lines).state && Read(before).section == Read(lines).section
    ensures Read(before + Rendered(BlockAt(pending, |lines|))) ==
      Read(before).(keys := Read(before).keys + KeysAdded(Read(lines).section, BlockAt(pending, |lines|)))
  {
    BlockAtMember(pending, |lines|);
    assert lines[..|lines|] == lines;
    if BlockAt(pending, |lines|) == [] {
      assert before + [] == before;
    } else {
      BlockReads(before, BlockAt(pending, |lines|));
    }
  }

  /** Insertion changes what is read by exactly the keys inserted. */
  lemma {:induction false} SimultaneousReads(lines: seq<string>, pending: seq<Block>)
    requires BlocksFit(lines, pending)
    ensures Read(Simultaneous(lines, pending)) == Read(lines).(keys := Read(lines).keys + Gained(lines, pending))
  {
    if lines == [] {
      BlockHereReads(lines, [], pending);
      assert [] + Rendered(BlockAt(pending, 0)) == Simultaneous(lines, pending);
    } else {
      var init, last := lines[..|lines| - 1], lines[|lines| - 1];
      assert forall k: nat | k <= |init| :: lines[..k] == init[..k];
      SimultaneousReads(init, pending);
      ReadSnoc(Simultaneous(init, pending), last);
      BlockHereReads(lines, Simultaneous(init, pending) + [last], pending);
    }
  }

  lemma GainedBefore(lines: seq<string>, pending: seq<Block>, i: nat, p: (string, string))
    requires i < |lines|
    ensures GainedAt(lines, pending, i, p) <==> GainedAt(lines[..|lines| - 1], pending, i, p)
  {
    assert lines[..|lines| - 1][..i] == lines[..i];
  }

  lemma {:induction false} GainedMeans(lines: seq<string>, pending: seq<Block>, p: (string, string))
    ensures p in Gained(lines, pending) <==> exists i: nat :: GainedAt(lines, pending, i, p)
  {
    assert lines[..|lines|] == lines;
    assert GainedAt(lines, pending, |lines|, p) <==>
      p in KeysAdded(Read(lines).section, BlockAt(pending, |lines|));
    if lines != [] {
      var init := lines[..|lines| - 1];
      GainedMeans(init, pending, p);
      if i: nat :| GainedAt(init, pending, i, p) {
        GainedBefore(lines, pending, i, p);
      }
      if i: nat :| GainedAt(lines, pending, i, p) && i < |lines| {
        GainedBefore(lines, pending, i, p);
      }
    }
  }

  /** The keys of the defaults in `additions` that are missing, for tables that exist, or for tables that do not. */
  function MissingKeys(lines: seq<string>, additions: seq<Addition>, present: bool): set<(string, string)> {
    set a, v | a in additions && (a.section in Endings(lines)) == present && v in MissingOf(lines, a)
      :: (a.section, DefaultKey(v))
  }

  lemma PendingFits(lines: seq<string>, additions: seq<Addition>)
    requires PlainAdditions(additions) && Read(lines).state.None?
    ensures BlocksFit(lines, Pending(lines, additions))
  {
    EndingsMean(lines);
    assert lines[..|lines|] == lines;
    forall b | b in Pending(lines, additions)
      ensures (forall v :: v in b.values ==> PlainDefault(v))
           && (b.index <= |lines| ==> Read(lines[..b.index]).state.None?)
    {
      var a := PendingFrom(lines, additions, b);
      assert EndsAt(lines, a.section, b.index);
    }
  }

  lemma PendingGains(lines: seq<string>, additions: seq<Addition>)
    requires PlainAdditions(additions)
    ensures Gained(lines, Pending(lines, additions)) == MissingKeys(lines, additions, true)
  {
    var pending := Pending(lines, additions);
    EndingsMean(lines);
    PendingDistinct(lines, additions);
    forall p | p in Gained(lines, pending)
      ensures p in MissingKeys(lines, additions, true)
    {
      GainedMeans(lines, pending, p);
      var i: nat :| GainedAt(lines, pending, i, p);
      BlockAtMember(pending, i);
      var a := PendingFrom(lines, additions, Block(i, BlockAt(pending, i)));
      assert EndsAt(lines, a.section, i);
    }
    forall p | p in MissingKeys(lines, additions, true)
      ensures p in Gained(lines, pending)
    {
      var a, v :|
        a in additions && a.section in Endings(lines) && v in MissingOf(lines, a) && p == (a.section, DefaultKey(v));
      var e := Endings(lines)[a.section];
      assert EndsAt(lines, a.section, e);
      PendingHas(lines, additions, a);
      BlockAtIs(pending, Block(e, MissingOf(lines, a)));
      assert GainedAt(lines, pending, e, p);
      GainedMeans(lines, pending, p);
    }
  }

  /** One new table at the end. */
  lemma NewTableReads(before: seq<string>, blank: bool, a: Addition, values: seq<string>)
    requires PlainAddition(a) && Read(before).state.None? && forall v :: v in values ==> PlainDefault(v)
    ensures var after := Read(before + (if blank then ["\n"] else []) + [TableLine(a.section)] + Rendered(values));
      && after.state.None? && after.keys == Read(before).keys + KeysAdded(a.section, values)
  {
    var x := before + (if blank then ["\n"] else []);
    if blank {
      ReadSnoc(before, "\n");
      BlankReads(Read(before));
    } else {
      assert x == before;
    }
    ReadSnoc(x, TableLine(a.section));
    TableLineReads(a.section, Read(x));
    BlockReads(x + [TableLine(a.section)], values);
  }

  /** What one addition appends after `p`. */
  function AppendedFor(lines: seq<string>, p: seq<string>, a: Addition): seq<string> {
    if MissingOf(lines, a) == [] || a.section in Endings(lines) then []
    else (if lines != [] || p != [] then ["\n"] else []) + [TableLine(a.section)] + Rendered(MissingOf(lines, a))
  }

  function NewTableKeys(lines: seq<string>, a: Addition): set<(string, string)> {
    if a.section in Endings(lines) then {} else KeysAdded(a.section, MissingOf(lines, a))
  }

  lemma AppendedForReads(before: seq<string>, lines: seq<string>, p: seq<string>, a: Addition)
    requires PlainAddition(a) && Read(before).state.None?
    ensures var after := Read(before + AppendedFor(lines, p, a));
      && after.state.None?
      && after.keys == Read(before).keys + NewTableKeys(lines, a)
  {
    var m := MissingOf(lines, a);
    if m == [] || a.section in Endings(lines) {
      assert before + AppendedFor(lines, p, a) == before;
      assert m == [] ==> KeysAdded(a.section, m) == {};
    } else {
      var blank := lines != [] || p != [];
      NewTableReads(before, blank, a, m);
      var b := if blank then ["\n"] else [];
      Associative(before, b, [TableLine(a.section)]);
      Associative(before, b + [TableLine(a.section)], Rendered(m));
    }
  }

  lemma AppendedSnoc(lines: seq<string>, init: seq<Addition>, a: Addition)
    ensures Appended(lines, init + [a]) == Appended(lines, init) + AppendedFor(lines, Appended(lines, init), a)
  {
    assert (init + [a])[..|init|] == init;
  }

  /** Appending adds the missing keys of the tables that did not exist. */
  ghost predicate AppendedWell(before: seq<string>, lines: seq<string>, additions: seq<Addition>) {
    var after := Read(before + Appended(lines, additions));
    after.state.None? && after.keys == Read(before).keys + MissingKeys(lines, additions, false)
  }

  lemma AppendedStep(before: seq<string>, lines: seq<string>, init: seq<Addition>, a: Addition)
    requires AppendedWell(before, lines, init) && PlainAddition(a)
    ensures AppendedWell(before, lines, init + [a])
  {
    var p := Appended(lines, init);
    var q := AppendedFor(lines, p, a);
    AppendedForReads(before + p, lines, p, a);
    AppendedSnoc(lines, init, a);
    Associative(before, p, q);
    AddMissingKeys(lines, init, a);
    assert Read(before + p).keys + NewTableKeys(lines, a)
        == Read(before).keys + (MissingKeys(lines, init, false) + NewTableKeys(lines, a));
  }

  lemma {:induction false} AppendedReads(before: seq<string>, lines: seq<string>, additions: seq<Addition>)
    requires (forall a :: a in additions ==> PlainAddition(a)) && Read(before).state.None?
    ensures AppendedWell(before, lines, additions)
  {
    if additions == [] {
      assert before + Appended(lines, additions) == before;
    } else {
      var init, a := additions[..|additions| - 1], additions[|additions| - 1];
      assert additions == init + [a];
      AppendedReads(before, lines, init);
      AppendedStep(before, lines, init, a);
    }
  }

  lemma AddMissingKeys(lines: seq<string>, init: seq<Addition>, a: Addition)
    ensures MissingKeys(lines, init + [a], false) == MissingKeys(lines, init, false) + NewTableKeys(lines, a)
  {
  }

  /** Every default key, of every table. */
  function Wanted(additions: seq<Addition>): set<(string, string)> {
    set a, v | a in additions && v in a.values :: (a.section, DefaultKey(v))
  }

  /** After merging, exactly the keys read before and the default keys are read, each in its table. */
  lemma MergedKeys(lines: seq<string>, additions: seq<Addition>)
    requires PlainAdditions(additions) && Read(lines).state.None?
    ensures Read(Merged(lines, additions)).keys == Read(lines).keys + Wanted(additions)
    ensures Read(Merged(lines, additions)).state.None?
  {
    var pending := Pending(lines, additions);
    PendingFits(lines, additions);
    SimultaneousReads(lines, pending);
    PendingGains(lines, additions);
    AppendedReads(Simultaneous(lines, pending), lines, additions);
    var missing := MissingKeys(lines, additions, true) + MissingKeys(lines, additions, false);
    forall p | p in Wanted(additions)
      ensures p in Read(lines).keys + missing
    {
      var a, v :| a in additions && v in a.values && p == (a.section, DefaultKey(v));
      if p !in Read(lines).keys {
        assert v in MissingOf(lines, a);
      }
    }
    assert missing <= Wanted(additions);
  }

  // ----- Where a default stands -----

  /** One of `lines` is `line`, in the table `section` and outside strings. */
  ghost predicate Stands(lines: seq<string>, section: string, line: string) {
    exists i :: 0 <= i < |lines| && lines[i] == line && ReadsIn(lines[..i], section)
  }

  ghost predicate ReadsIn(lines: seq<string>, section: string) {
    Read(lines).state.None? && Read(lines).section == section
  }

  lemma StandsMore(lines: seq<string>, more: seq<string>, section: string, line: string)
    requires Stands(lines, section, line)
    ensures Stands(lines + more, section, line)
  {
    var i :| 0 <= i < |lines| && lines[i] == line && ReadsIn(lines[..i], section);
    assert (lines + more)[..i] == lines[..i] && (lines + more)[i] == line;
  }

  /** Each line of a block stands in the table that is current there. */
  lemma {:induction false} BlockStands(before: seq<string>, section: string, values: seq<string>, v: string)
    requires ReadsIn(before, section) && (forall x :: x in values ==> PlainDefault(x)) && v in values
    ensures Stands(before + Rendered(values), section, v + "\n")
  {
    var init, last := values[..|values| - 1], values[|values| - 1];
    assert values == init + [last];
    Associative(before, Rendered(init), [last + "\n"]);
    if v in init {
      BlockStands(before, section, init, v);
      StandsMore(before + Rendered(init), [last + "\n"], section, v + "\n");
    } else {
      BlockReads(before, init);
      var all := before + Rendered(init) + [last + "\n"];
      assert all[..|before + Rendered(init)|] == before + Rendered(init);
      assert all[|before + Rendered(init)|] == v + "\n" && ReadsIn(before + Rendered(init), section);
    }
  }

  lemma FitsBefore(lines: seq<string>, pending: seq<Block>)
    requires lines != [] && BlocksFit(lines, pending)
    ensures BlocksFit(lines[..|lines| - 1], pending)
  {
    forall b | b in pending && b.index < |lines|
      ensures Read(lines[..|lines| - 1][..b.index]).state.None?
    {
      assert lines[..|lines| - 1][..b.index] == lines[..b.index];
    }
  }

  /** A value spliced in at the end stands in the last table. */
  lemma LastStands(lines: seq<string>, pending: seq<Block>, v: string)
    requires BlocksFit(lines, pending) && v in BlockAt(pending, |lines|)
    ensures Stands(Simultaneous(lines, pending), Read(lines).section, v + "\n")
  {
    BlockAtMember(pending, |lines|);
    assert lines[..|lines|] == lines;
    if lines == [] {
      BlockStands([], Read([]).section, BlockAt(pending, 0), v);
      assert [] + Rendered(BlockAt(pending, 0)) == Simultaneous(lines, pending);
    } else {
      var init, last := lines[..|lines| - 1], lines[|lines| - 1];
      FitsBefore(lines, pending);
      SimultaneousReads(init, pending);
      ReadSnoc(Simultaneous(init, pending), last);
      BlockStands(Simultaneous(init, pending) + [last], Read(lines).section, BlockAt(pending, |lines|), v);
    }
  }

  /** A value spliced in front of line `i` stands in the table that is current at that line. */
  lemma {:induction false} SimultaneousStands(lines: seq<string>, pending: seq<Block>, i: nat, v: string)
    requires BlocksFit(lines, pending) && i <= |lines| && v in BlockAt(pending, i)
    ensures Stands(Simultaneous(lines, pending), Read(lines[..i]).section, v + "\n")
  {
    if i < |lines| {
      var init, last := lines[..|lines| - 1], lines[|lines| - 1];
      assert lines[..i] == init[..i];
      FitsBefore(lines, pending);
      SimultaneousStands(init, pending, i, v);
      StandsMore(Simultaneous(init, pending), [last], Read(init[..i]).section, v + "\n");
      StandsMore(Simultaneous(init, pending) + [last], Rendered(BlockAt(pending, |lines|)), Read(init[..i]).section,
                 v + "\n");
    } else {
      assert lines[..i] == lines;
      LastStands(lines, pending, v);
    }
  }

  /** A value of a new table stands in it. */
  lemma AppendedForStands(before: seq<string>, lines: seq<string>, p: seq<string>, a: Addition, v: string)
    requires PlainAddition(a) && Read(before).state.None? && a.section !in Endings(lines) && v in MissingOf(lines, a)
    ensures Stands(before + AppendedFor(lines, p, a), a.section, v + "\n")
  {
    var b := if lines != [] || p != [] then ["\n"] else [];
    var head := before + b + [TableLine(a.section)];
    NewTableReads(before, b != [], a, []);
    assert head + Rendered([]) == head;
    ReadSnoc(before + b, TableLine(a.section));
    if b != [] {
      ReadSnoc(before, "\n");
      BlankReads(Read(before));
    } else {
      assert before + b == before;
    }
    TableLineReads(a.section, Read(before + b));
    BlockStands(head, a.section, MissingOf(lines, a), v);
    Associative(before, b, [TableLine(a.section)]);
    Associative(before, b + [TableLine(a.section)], Rendered(MissingOf(lines, a)));
  }

  lemma {:induction false} AppendedStands(before: seq<string>, lines: seq<string>, additions: seq<Addition>,
                                          a: Addition, v: string)
    requires (forall x :: x in additions ==> PlainAddition(x)) && Read(before).state.None?
    requires a in additions && a.section !in Endings(lines) && v in MissingOf(lines, a)
    ensures Stands(before + Appended(lines, additions), a.section, v + "\n")
  {
    var init, last := additions[..|additions| - 1], additions[|additions| - 1];
    assert additions == init + [last];
    AppendedSnoc(lines, init, last);
    var p := Appended(lines, init);
    Associative(before, p, AppendedFor(lines, p, last));
    if a in init {
      AppendedStands(before, lines, init, a, v);
      StandsMore(before + p, AppendedFor(lines, p, last), a.section, v + "\n");
    } else {
      AppendedReads(before, lines, init);
      AppendedForStands(before + p, lines, p, last, v);
    }
  }

  /** Every default whose key was not read stands, as it was given, on a line of its own in its table. */
  lemma DefaultsStand(lines: seq<string>, additions: seq<Addition>, a: Addition, v: string)
    requires PlainAdditions(additions) && Read(lines).state.None?
    requires a in additions && v in a.values && (a.section, DefaultKey(v)) !in Read(lines).keys
    ensures Stands(Merged(lines, additions), a.section, v + "\n")
  {
    var pending := Pending(lines, additions);
    PendingFits(lines, additions);
    assert v in MissingOf(lines, a);
    if a.section in Endings(lines) {
      var e := Endings(lines)[a.section];
      EndingsMean(lines);
      assert EndsAt(lines, a.section, e);
      PendingDistinct(lines, additions);
      PendingHas(lines, additions, a);
      BlockAtIs(pending, Block(e, MissingOf(lines, a)));
      SimultaneousStands(lines, pending, e, v);
      StandsMore(Simultaneous(lines, pending), Appended(lines, additions), a.section, v + "\n");
    } else {
      SimultaneousReads(lines, pending);
      AppendedStands(Simultaneous(lines, pending), lines, additions, a, v);
    }
  }

  // ----- Conservation -----

  /** `after` holds every line of `before`, in order, at `places`, in the same table and string state as before. */
  ghost predicate Kept(before: seq<string>, after: seq<string>, places: seq<nat>) {
    && |places| == |before|
    && (forall i, j :: 0 <= i < j < |places| ==> places[i] < places[j])
    && (forall i :: 0 <= i < |places| ==>
          && places[i] < |after| && after[places[i]] == before[i]
          && Read(after[..places[i]]).state == Read(before[..i]).state
          && Read(after[..places[i]]).section == Read(before[..i]).section)
  }

  function Places(lines: seq<string>, pending: seq<Block>): seq<nat> {
    if lines == [] then []
    else Places(lines[..|lines| - 1], pending) + [|Simultaneous(lines[..|lines| - 1], pending)|]
  }

  lemma KeptMore(before: seq<string>, after: seq<string>, places: seq<nat>, more: seq<string>)
    requires Kept(before, after, places)
    ensures Kept(before, after + more, places)
  {
    forall i | 0 <= i < |places|
      ensures (after + more)[..places[i]] == after[..places[i]]
    {
    }
  }

  lemma KeptLonger(before: seq<string>, after: seq<string>, places: seq<nat>, last: string, i: nat)
    requires Kept(before, after, places) && i < |places|
    ensures places[i] < |after| && (after + [last])[places[i]] == (before + [last])[i]
    ensures (after + [last])[..places[i]] == after[..places[i]] && (before + [last])[..i] == before[..i]
  {
  }

  /** One more line kept, at the end of what is there so far. */
  lemma KeptSnoc(before: seq<string>, after: seq<string>, places: seq<nat>, last: string)
    requires Kept(before, after, places)
    requires Read(after).state == Read(before).state && Read(after).section == Read(before).section
    ensures Kept(before + [last], after + [last], places + [|after|])
  {
    var a, b, p := before + [last], after + [last], places + [|after|];
    forall i | 0 <= i < |p|
      ensures p[i] < |b| && b[p[i]] == a[i] && Read(b[..p[i]]).state == Read(a[..i]).state
      ensures Read(b[..p[i]]).section == Read(a[..i]).section
      ensures i < |places| ==> p[i] < |after|
    {
      if i < |places| {
        KeptLonger(before, after, places, last, i);
      } else {
        assert b[..|after|] == after && a[..|before|] == before;
      }
    }
  }

  lemma {:induction false} SimultaneousKeeps(lines: seq<string>, pending: seq<Block>)
    requires BlocksFit(lines, pending)
    ensures Kept(lines, Simultaneous(lines, pending), Places(lines, pending))
  {
    if lines != [] {
      var init, last := lines[..|lines| - 1], lines[|lines| - 1];
      var before := Simultaneous(init, pending);
      assert forall k: nat | k <= |init| :: lines[..k] == init[..k];
      SimultaneousKeeps(init, pending);
      SimultaneousReads(init, pending);
      KeptSnoc(init, before, Places(init, pending), last);
      assert lines == init + [last];
      KeptMore(lines, before + [last], Places(lines, pending), Rendered(BlockAt(pending, |lines|)));
    }
  }

  /** All original lines survive, in order and in their table; so do the string states they start in. */
  lemma MergeConserves(lines: seq<string>, additions: seq<Addition>)
    requires PlainAdditions(additions) && Read(lines).state.None?
    ensures Kept(lines, Merged(lines, additions), Places(lines, Pending(lines, additions)))
  {
    PendingFits(lines, additions);
    SimultaneousKeeps(lines, Pending(lines, additions));
    KeptMore(lines, Simultaneous(lines, Pending(lines, additions)), Places(lines, Pending(lines, additions)),
             Appended(lines, additions));
  }

  // ----- Merging again -----

  lemma {:induction false} NoneMissing(values: seq<string>, section: string, keys: set<(string, string)>)
    requires KeysAdded(section, values) <= keys
    ensures Missing(values, section, keys) == []
  {
    if values != [] {
      var init, v := values[..|values| - 1], values[|values| - 1];
      assert v in values && (section, DefaultKey(v)) in KeysAdded(section, values);
      assert KeysAdded(section, init) <= KeysAdded(section, values);
      NoneMissing(init, section, keys);
    }
  }

  lemma {:induction false} NothingMissing(lines: seq<string>, additions: seq<Addition>)
    requires Wanted(additions) <= Read(lines).keys
    ensures Pending(lines, additions) == [] && Appended(lines, additions) == []
  {
    if additions != [] {
      var init, a := additions[..|additions| - 1], additions[|additions| - 1];
      assert Wanted(init) <= Wanted(additions);
      NothingMissing(lines, init);
      assert KeysAdded(a.section, a.values) <= Wanted(additions);
      NoneMissing(a.values, a.section, Read(lines).keys);
    }
  }

  /** When every default key is read, merging returns the lines it was given. */
  lemma CompleteIsFixed(lines: seq<string>, additions: seq<Addition>)
    requires Wanted(additions) <= Read(lines).keys
    ensures Merged(lines, additions) == lines
  {
    NothingMissing(lines, additions);
    NothingInserted(lines);
  }
}
