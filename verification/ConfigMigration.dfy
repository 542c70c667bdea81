/**
 Merging defaults into a configuration file as text (manager/config_migration.py): which table every line
 belongs to, where tables end, and lines spliced in from the bottom up.
 */
module ConfigMigration {
  import opened Sequences
  import opened ConfigText

  /** What is known after some lines: the open multi-line string, the current table, and every table and key. */
  datatype Reading = Reading(state: Option<Quote>, section: string, sections: set<string>, keys: set<(string, string)>)

  function ReadLine(r: Reading, line: string): Reading {
    var next :=
      if r.state.Some? then r
      else match TableName(line)
        case Some(s) => r.(section := s, sections := r.sections + {s})
        case None =>
          match KeyName(line)
          case Some(k) => r.(keys := r.keys + {(r.section, k)})
          case None => r;
    next.(state := Scan(line, r.state))
  }

  function Read(lines: seq<string>): Reading {
    if lines == [] then Reading(None, "", {}, {}) else ReadLine(Read(lines[..|lines| - 1]), lines[|lines| - 1])
  }

  lemma ReadSnoc(lines: seq<string>, line: string)
    ensures Read(lines + [line]) == ReadLine(Read(lines), line)
  {
    assert (lines + [line])[..|lines|] == lines;
  }

  /** For every table that another table follows: the line of the table that follows its last opening. */
  function Closings(lines: seq<string>): map<string, nat> {
    if lines == [] then map[]
    else
      var init := lines[..|lines| - 1];
      var r := Read(init);
      if r.state.None? && TableName(lines[|lines| - 1]).Some? && r.section != ""
      then Closings(init)[r.section := |init|] else Closings(init)
  }

  /** For every table: where it ends, the last one at the end of the file. */
  function Endings(lines: seq<string>): map<string, nat> {
    var section := Read(lines).section;
    if section != "" then Closings(lines)[section := |lines|] else Closings(lines)
  }

  ghost predicate KeysAgree(keys: map<string, set<string>>, r: Reading) {
    && (forall s, k :: s in keys && k in keys[s] ==> (s, k) in r.keys)
    && (forall p :: p in r.keys ==> p.0 in keys && p.1 in keys[p.0])
  }

  function AddTable(keys: map<string, set<string>>, section: string): map<string, set<string>> {
    if section in keys then keys else keys[section := {}]
  }

  method AddKey(keys: map<string, set<string>>, section: string, key: string, ghost r: Reading)
      returns (next: map<string, set<string>>)
    requires KeysAgree(keys, r)
    ensures KeysAgree(next, r.(keys := r.keys + {(section, key)}))
  {
    next := AddTable(keys, section);
    next := next[section := next[section] + {key}];
  }

  /** What one more line adds to the reading and to the endings. */
  lemma OneMoreLine(lines: seq<string>, index: nat)
    requires index < |lines|
    ensures var r := Read(lines[..index]);
      && Read(lines[..index + 1]) == ReadLine(r, lines[index])
      && Closings(lines[..index + 1]) ==
           if r.state.None? && TableName(lines[index]).Some? && r.section != ""
           then Closings(lines[..index])[r.section := index] else Closings(lines[..index])
  {
    assert lines[..index + 1][..index] == lines[..index];
  }

  /** `_section_keys` */
  method SectionKeys(lines: seq<string>) returns (keys: map<string, set<string>>, endings: map<string, nat>)
    ensures KeysAgree(keys, Read(lines))
    ensures endings == Endings(lines)
  {
    keys, endings := map[], map[];
    var current := "";
    var state: Option<Quote> := None;
    for index := 0 to |lines|
      invariant current == Read(lines[..index]).section && state == Read(lines[..index]).state
      invariant KeysAgree(keys, Read(lines[..index]))
      invariant endings == Closings(lines[..index])
    {
      OneMoreLine(lines, index);
      if state.None? {
        var table, key := TableName(lines[index]), KeyName(lines[index]);
        if table.Some? {
          if current != "" {
            endings := endings[current := index];
          }
          current := table.value;
          keys := AddTable(keys, current);
        } else if key.Some? {
          keys := AddKey(keys, current, key.value, Read(lines[..index]));
        }
      }
      state := MultilineStringState(lines[index], state);
    }
    assert lines[..|lines|] == lines;
    if current != "" {
      endings := endings[current := |lines|];
    }
  }

  lemma {:induction false} TableNamesAreNotEmpty(lines: seq<string>)
    ensures "" !in Read(lines).sections
    ensures Read(lines).section == "" || Read(lines).section in Read(lines).sections
  {
    if lines != [] {
      TableNamesAreNotEmpty(lines[..|lines| - 1]);
    }
  }

  /** Where a table ends, it is the current table, and no multi-line string is open unless the file ends there. */
  ghost predicate EndsAt(lines: seq<string>, section: string, index: nat) {
    && index <= |lines| && section != ""
    && Read(lines[..index]).section == section
    && (index < |lines| ==> Read(lines[..index]).state.None?)
  }

  lemma {:induction false} ClosingsMean(lines: seq<string>)
    ensures forall s :: s in Closings(lines) ==> EndsAt(lines, s, Closings(lines)[s]) && Closings(lines)[s] < |lines|
    ensures forall s :: s in Read(lines).sections ==> s in Closings(lines) || s == Read(lines).section
    ensures forall s :: s in Closings(lines) ==> s in Read(lines).sections
  {
    if lines != [] {
      var init := lines[..|lines| - 1];
      ClosingsMean(init);
      TableNamesAreNotEmpty(init);
      assert forall k: nat | k <= |init| :: lines[..k] == init[..k];
      forall s | s in Closings(lines)
        ensures EndsAt(lines, s, Closings(lines)[s]) && Closings(lines)[s] < |lines|
      {
        if s in Closings(init) && Closings(lines)[s] == Closings(init)[s] {
          assert EndsAt(init, s, Closings(init)[s]);
        } else {
          assert lines[..|init|] == init;
        }
      }
    }
  }

  lemma EndingsMean(lines: seq<string>)
    ensures forall s :: s in Endings(lines) ==> EndsAt(lines, s, Endings(lines)[s])
    ensures Endings(lines).Keys == Read(lines).sections
  {
    ClosingsMean(lines);
    TableNamesAreNotEmpty(lines);
    assert lines[..|lines|] == lines;
  }

  // ----- Defaults -----

  /** One table's defaults, as whole assignments. */
  datatype Addition = Addition(section: string, values: seq<string>)

  /** A default that is one self-contained assignment on one line. */
  predicate PlainDefault(value: string) {
    (forall c :: c in value ==> !IsBreak(c)) && KeyName(value).Some? && Scan(value, None) == None
  }

  predicate PlainAddition(a: Addition) {
    && a.section != "" && (forall c :: c in a.section ==> IsTableChar(c))
    && (forall v :: v in a.values ==> PlainDefault(v))
  }

  /** A dictionary of plain defaults. */
  predicate PlainAdditions(additions: seq<Addition>) {
    && (forall a :: a in additions ==> PlainAddition(a))
    && (forall i, j :: 0 <= i < j < |additions| ==> additions[i].section != additions[j].section)
  }

  function Missing(values: seq<string>, section: string, keys: set<(string, string)>): (r: seq<string>)
    ensures forall v :: v in r <==> v in values && (section, DefaultKey(v)) !in keys
  {
    if values == [] then []
    else
      var r := Missing(values[..|values| - 1], section, keys);
      var v := values[|values| - 1];
      if (section, DefaultKey(v)) in keys then r else r + [v]
  }

  function Rendered(values: seq<string>): seq<string> {
    if values == [] then [] else Rendered(values[..|values| - 1]) + [values[|values| - 1] + "\n"]
  }

  /** Defaults to insert in front of line `index`. */
  datatype Block = Block(index: nat, values: seq<string>)

  function MissingOf(lines: seq<string>, a: Addition): seq<string> {
    Missing(a.values, a.section, Read(lines).keys)
  }

  function Pending(lines: seq<string>, additions: seq<Addition>): seq<Block> {
    if additions == [] then []
    else
      var p := Pending(lines, additions[..|additions| - 1]);
      var a := additions[|additions| - 1];
      if MissingOf(lines, a) == [] || a.section !in Endings(lines) then p
      else p + [Block(Endings(lines)[a.section], MissingOf(lines, a))]
  }

  function TableLine(section: string): string {
    "[" + section + "]\n"
  }

  function Appended(lines: seq<string>, additions: seq<Addition>): seq<string> {
    if additions == [] then []
    else
      var p := Appended(lines, additions[..|additions| - 1]);
      var a := additions[|additions| - 1];
      if MissingOf(lines, a) == [] || a.section in Endings(lines) then p
      else p + (if lines != [] || p != [] then ["\n"] else []) + [TableLine(a.section)] + Rendered(MissingOf(lines, a))
  }

  /** The defaults to insert in front of line `i`. */
  function BlockAt(pending: seq<Block>, i: nat): seq<string> {
    if pending == [] then []
    else if pending[0].index == i then pending[0].values
    else BlockAt(pending[1..], i)
  }

  /** All blocks inserted at once, at positions of the original lines. */
  function Simultaneous(lines: seq<string>, pending: seq<Block>): seq<string> {
    if lines == [] then Rendered(BlockAt(pending, 0))
    else Simultaneous(lines[..|lines| - 1], pending) + [lines[|lines| - 1]] + Rendered(BlockAt(pending, |lines|))
  }

  function Merged(lines: seq<string>, additions: seq<Addition>): seq<string> {
    Simultaneous(lines, Pending(lines, additions)) + Appended(lines, additions)
  }

  /** A line with a line feed at its end. */
  function Finished(line: string): string {
    if line != "" && line[|line| - 1] == '\n' then line else line + "\n"
  }

  function Terminated(lines: seq<string>): seq<string> {
    if lines == [] then [] else lines[..|lines| - 1] + [Finished(lines[|lines| - 1])]
  }

  function MergedText(text: string, additions: seq<Addition>): string {
    Join(Merged(Terminated(SplitLines(text)), additions))
  }

  // ----- Bottom-up insertion is simultaneous insertion -----

  predicate Descending(pending: seq<Block>) {
    forall i, j :: 0 <= i < j < |pending| ==> pending[i].index > pending[j].index
  }

  predicate DistinctIndices(pending: seq<Block>) {
    forall i, j :: 0 <= i < j < |pending| ==> pending[i].index != pending[j].index
  }

  predicate Within(pending: seq<Block>, n: nat) {
    forall b :: b in pending ==> b.index <= n
  }

  function Insert(b: Block, s: seq<Block>): (r: seq<Block>)
    requires Descending(s)
    requires forall x :: x in s ==> x.index != b.index
    ensures Descending(r)
    ensures forall x :: x in r <==> x == b || x in s
  {
    if s == [] then [b]
    else if b.index > s[0].index then [b] + s
    else
      assert s[0] in s;
      var t := Insert(b, s[1..]);
      assert forall x :: x in t ==> x.index < s[0].index;
      [s[0]] + t
  }

  /** `sorted(pending, reverse=True)` */
  function SortedDown(pending: seq<Block>): (r: seq<Block>)
    requires DistinctIndices(pending)
    ensures Descending(r)
    ensures forall x :: x in r <==> x in pending
  {
    if pending == [] then []
    else
      var t := SortedDown(pending[1..]);
      assert forall x :: x in pending <==> x == pending[0] || x in pending[1..];
      Insert(pending[0], t)
  }

  lemma {:induction false} BlockAtMember(pending: seq<Block>, i: nat)
    ensures BlockAt(pending, i) == [] || Block(i, BlockAt(pending, i)) in pending
  {
    if pending != [] && pending[0].index != i {
      BlockAtMember(pending[1..], i);
    }
  }

  lemma {:induction false} BlockAtIs(pending: seq<Block>, b: Block)
    requires DistinctIndices(pending) && b in pending
    ensures BlockAt(pending, b.index) == b.values
  {
    if pending[0] != b {
      assert b in pending[1..];
      BlockAtIs(pending[1..], b);
    }
  }

  /** Only which blocks there are matters, not their order. */
  lemma BlockAtOrderFree(p: seq<Block>, q: seq<Block>, i: nat)
    requires DistinctIndices(p) && DistinctIndices(q)
    requires forall b :: b in p <==> b in q
    ensures BlockAt(p, i) == BlockAt(q, i)
  {
    BlockAtMember(p, i);
    BlockAtMember(q, i);
    if BlockAt(p, i) != [] {
      BlockAtIs(q, Block(i, BlockAt(p, i)));
    } else if BlockAt(q, i) != [] {
      BlockAtIs(p, Block(i, BlockAt(q, i)));
    }
  }

  lemma {:induction false} SimultaneousCongruent(lines: seq<string>, p: seq<Block>, q: seq<Block>)
    requires forall i: nat :: i <= |lines| ==> BlockAt(p, i) == BlockAt(q, i)
    ensures Simultaneous(lines, p) == Simultaneous(lines, q)
  {
    if lines != [] {
      SimultaneousCongruent(lines[..|lines| - 1], p, q);
    }
  }

  lemma {:induction false} NothingInserted(lines: seq<string>)
    ensures Simultaneous(lines, []) == lines
  {
    if lines != [] {
      NothingInserted(lines[..|lines| - 1]);
      assert lines == lines[..|lines| - 1] + [lines[|lines| - 1]];
    }
  }

  function SpliceOne(lines: seq<string>, b: Block): (r: seq<string>)
    requires b.index <= |lines|
    ensures |r| >= |lines|
  {
    lines[..b.index] + Rendered(b.values) + lines[b.index..]
  }

  /** The blocks spliced in one after the other. */
  function Spliced(lines: seq<string>, pending: seq<Block>): seq<string>
    requires Within(pending, |lines|)
    decreases |pending|
  {
    if pending == [] then lines
    else
      assert pending[0] in pending && forall b :: b in pending[1..] ==> b in pending;
      Spliced(SpliceOne(lines, pending[0]), pending[1..])
  }

  /** Lines below every block ride along. */
  lemma {:induction false} SplicedTail(lines: seq<string>, tail: seq<string>, pending: seq<Block>)
    requires Within(pending, |lines|)
    ensures Within(pending, |lines + tail|)
    ensures Spliced(lines + tail, pending) == Spliced(lines, pending) + tail
    decreases |pending|
  {
    if pending != [] {
      var b := pending[0];
      assert b in pending && forall x :: x in pending[1..] ==> x in pending;
      assert SpliceOne(lines + tail, b) == SpliceOne(lines, b) + tail;
      SplicedTail(SpliceOne(lines, b), tail, pending[1..]);
    }
  }

  lemma {:induction false} BeyondIsEmpty(pending: seq<Block>, i: nat)
    requires forall b :: b in pending ==> b.index != i
    ensures BlockAt(pending, i) == []
  {
    BlockAtMember(pending, i);
    if BlockAt(pending, i) != [] {
      assert Block(i, BlockAt(pending, i)).index == i;
    }
  }

  /** Bottom-up, every insertion leaves the positions of the later ones where they were. */
  lemma {:induction false} BottomUpIsSimultaneous(lines: seq<string>, pending: seq<Block>)
    requires Descending(pending) && Within(pending, |lines|)
    ensures Spliced(lines, pending) == Simultaneous(lines, pending)
    decreases |lines| + |pending|
  {
    if pending == [] {
      NothingInserted(lines);
    } else if pending[0].index == |lines| {
      var rest := pending[1..];
      assert Within(rest, |lines|) by { assert forall b :: b in rest ==> b in pending; }
      assert SpliceOne(lines, pending[0]) == lines + Rendered(pending[0].values);
      SplicedTail(lines, Rendered(pending[0].values), rest);
      BottomUpIsSimultaneous(lines, rest);
      BeyondIsEmpty(rest, |lines|);
      LastBlock(lines, pending);
    } else {
      var init := lines[..|lines| - 1];
      assert pending[0] in pending;
      assert Within(pending, |init|);
      assert lines == init + [lines[|lines| - 1]];
      SplicedTail(init, [lines[|lines| - 1]], pending);
      BottomUpIsSimultaneous(init, pending);
      BeyondIsEmpty(pending, |lines|);
    }
  }

  lemma LastBlock(lines: seq<string>, pending: seq<Block>)
    requires pending != [] && pending[0].index == |lines| && BlockAt(pending[1..], |lines|) == []
    ensures Simultaneous(lines, pending) == Simultaneous(lines, pending[1..]) + Rendered(pending[0].values)
  {
    var block: seq<string> := Rendered(pending[0].values);
    if lines == [] {
      assert [] + block == block;
    } else {
      SimultaneousCongruent(lines[..|lines| - 1], pending, pending[1..]);
      var before := Simultaneous(lines[..|lines| - 1], pending) + [lines[|lines| - 1]];
      assert before + [] == before;
    }
  }

  lemma {:induction false} PendingFrom(lines: seq<string>, additions: seq<Addition>, b: Block) returns (a: Addition)
    requires b in Pending(lines, additions)
    ensures a in additions && a.section in Endings(lines)
    ensures b == Block(Endings(lines)[a.section], MissingOf(lines, a))
  {
    var init := additions[..|additions| - 1];
    a := additions[|additions| - 1];
    if b in Pending(lines, init) {
      a := PendingFrom(lines, init, b);
    }
  }

  lemma {:induction false} PendingHas(lines: seq<string>, additions: seq<Addition>, a: Addition)
    requires a in additions && a.section in Endings(lines) && MissingOf(lines, a) != []
    ensures Block(Endings(lines)[a.section], MissingOf(lines, a)) in Pending(lines, additions)
  {
    var init := additions[..|additions| - 1];
    if a != additions[|additions| - 1] {
      assert a in init;
      PendingHas(lines, init, a);
    }
  }

  /** No two tables end at the same line, so no two blocks meet. */
  lemma {:induction false} PendingDistinct(lines: seq<string>, additions: seq<Addition>)
    requires PlainAdditions(additions)
    ensures DistinctIndices(Pending(lines, additions))
    ensures Within(Pending(lines, additions), |lines|)
  {
    if additions != [] {
      var init := additions[..|additions| - 1];
      var a := additions[|additions| - 1];
      PendingDistinct(lines, init);
      EndingsMean(lines);
      forall b | b in Pending(lines, init) && a.section in Endings(lines)
        ensures b.index != Endings(lines)[a.section]
      {
        var other := PendingFrom(lines, init, b);
        assert EndsAt(lines, other.section, b.index);
      }
    }
  }
}
