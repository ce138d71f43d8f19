/** Writing a parameter into a file that does not end in a newline: what is added runs on from the last
    line, and fgets may cut the joined line in two. */
module IniOpenEnd {
  import opened Common
  import opened TextLines
  import opened IniFile

  /** What is added first. */
  function AddedFirst(lines: seq<string>, group: string, key: string, value: string): string {
    if Flag(lines, group, key, |lines|) then Entry(key, value) else GroupLine(group)
  }

  /** What comes behind it. */
  function Behind(lines: seq<string>, group: string, key: string, value: string): seq<string> {
    if Flag(lines, group, key, |lines|) then [] else [Entry(key, value)]
  }

  /** The lines of a file whose last one is not terminated, and none of them is to be rewritten. */
  ghost predicate OpenEnd(lines: seq<string>, group: string, key: string) {
    lines != [] && !AllWhole(lines) && CutUp(lines) && !AnyHit(lines, group, key)
  }

  /** Every text either ends cleanly or has an open end. */
  lemma CleanOrOpen(text: string, group: string, key: string)
    ensures CleanEnd(text, group, key) <==> !OpenEnd(Lines(text), group, key)
  {
    LinesAreCutUp(text);
    hide Lines, CutUp, AnyHit, Piece, Whole;
  }

  /** The last line with what runs on from it. */
  function JoinedLine(lines: seq<string>, group: string, key: string, value: string): string
    requires lines != []
  {
    lines[|lines| - 1] + AddedFirst(lines, group, key, value)
  }

  // ----- The lines of the file afterwards -----

  ghost function JoinedLines(lines: seq<string>, group: string, key: string, value: string): (r: seq<string>)
    requires lines != []
  {
    lines[..|lines| - 1] + (Lines(JoinedLine(lines, group, key, value)) + Behind(lines, group, key, value))
  }

  lemma LastIsOpen(lines: seq<string>)
    requires lines != [] && CutUp(lines) && !AllWhole(lines)
    ensures AllWhole(lines[..|lines| - 1]) && Piece(lines[|lines| - 1]) && !Whole(lines[|lines| - 1])
  {
    hide Whole, Piece;
    var front := lines[..|lines| - 1];
    assert forall i :: 0 <= i < |front| ==> front[i] == lines[i];
  }

  /** One line, or two if it is too long for one fgets. */
  function Halves(all: string): (r: seq<string>)
  {
    if |all| < BUFFER then [all] else [all[..BUFFER - 1], all[BUFFER - 1..]]
  }

  lemma HalvesConcat(all: string)
    ensures Concat(Halves(all)) == all
  {
    var parts := Halves(all);
    if |parts| == 2 {
      assert parts[1..] == [parts[1]] && [parts[1]][1..] == [];
      assert Concat([]) == "" && Concat([parts[1]]) == parts[1] + "";
      assert all == parts[0] + parts[1] && parts[1] + "" == parts[1];
    } else {
      assert parts[1..] == [] && all == all + "";
    }
  }

  lemma HalvesWhole(all: string)
    requires 0 < |all| < 2 * BUFFER - 1 && all[|all| - 1] == '\n' && forall i :: 0 <= i < |all| - 1 ==> all[i] != '\n'
    ensures AllWhole(Halves(all))
  {
    if |all| < BUFFER {
      assert Whole(all);
    } else {
      assert Whole(all[..BUFFER - 1]) && Whole(all[BUFFER - 1..]);
    }
    hide Whole;
  }

  lemma JoinedHalves(last: string, added: string)
    requires Piece(last) && !Whole(last) && Whole(added) && added[|added| - 1] == '\n'
    ensures Lines(last + added) == Halves(last + added) && AllWhole(Halves(last + added))
  {
    HalvesWhole(last + added);
    HalvesConcat(last + added);
    hide Lines, Concat, Whole, Piece, Halves;
    LinesConcat(Halves(last + added));
  }

  lemma ConcatPair(a: string, b: string)
    ensures Concat([a, b]) == a + b
  {
    assert [a, b][1..] == [b] && [b][1..] == [];
    assert Concat([b]) == b + "";
  }

  lemma ConcatThrough(front: seq<string>, last: string, added: string, more: seq<string>)
    ensures Concat(front + [last, added] + more) == Concat(front + (Lines(last + added) + more))
  {
    hide Lines, Concat;
    var parts := Lines(last + added);
    ConcatLines(last + added);
    ConcatPair(last, added);
    ConcatJoin(front + [last, added], more);
    ConcatJoin(front, [last, added]);
    ConcatJoin(front, parts + more);
    ConcatJoin(parts, more);
    Associative(Concat(front), last + added, Concat(more));
  }

  lemma ModifiedAtOpenEnd(lines: seq<string>, group: string, key: string, value: string)
    requires OpenEnd(lines, group, key)
    ensures var n := |lines|;
      n > 0 && Modified(lines, group, key, value)
      == lines[..n - 1] + [lines[n - 1], AddedFirst(lines, group, key, value)] + Behind(lines, group, key, value)
  {
    hide Flag, Entry, GroupLine, CutUp, AllWhole;
    assert Replaced(lines, group, key, Entry(key, value)) == lines;
    assert lines == lines[..|lines| - 1] + [lines[|lines| - 1]];
  }

  lemma JoinedIsWhole(lines: seq<string>, group: string, key: string, value: string)
    requires Writable(group, key, value) && OpenEnd(lines, group, key)
    ensures var n, all := |lines|, JoinedLine(lines, group, key, value);
      && n > 0 && AllWhole(lines[..n - 1]) && Lines(all) == Halves(all) && AllWhole(Lines(all))
      && AllWhole(Behind(lines, group, key, value))
  {
    EntryStarts(group, key, value);
    LastIsOpen(lines);
    hide Flag, Writable, CutUp, Lines, Halves;
    JoinedHalves(lines[|lines| - 1], AddedFirst(lines, group, key, value));
  }

  lemma LinesAfterJoin(lines: seq<string>, group: string, key: string, value: string)
    requires Writable(group, key, value) && OpenEnd(lines, group, key)
    ensures lines != []
    ensures Lines(Concat(Modified(lines, group, key, value))) == JoinedLines(lines, group, key, value)
  {
    JoinedIsWhole(lines, group, key, value);
    ModifiedAtOpenEnd(lines, group, key, value);
    var n, added, more := |lines|, AddedFirst(lines, group, key, value), Behind(lines, group, key, value);
    var front, last := lines[..n - 1], lines[n - 1];
    hide Lines, Concat, Whole, AddedFirst, Behind, Modified, OpenEnd, Writable, Halves;
    ConcatThrough(front, last, added, more);
    LinesConcat(front + (Lines(last + added) + more));
  }

  // ----- Reading the new lines -----

  /** ReadParam's loop from some line on, the group seen before it or not. */
  ghost function ReadFrom(lines: seq<string>, seen: bool, group: Option<string>, key: string): Option<string> {
    if lines == [] then None
    else if seen && Starts(lines[0], key) then Some(lines[0])
    else ReadFrom(lines[1..], seen || (group.Some? && Starts(lines[0], group.value)), group, key)
  }

  lemma {:induction false} FoundFrom(lines: seq<string>, group: Option<string>, key: string, m: nat)
    requires m <= Search(lines, group, key, 0)
    ensures Found(lines, group, key) == ReadFrom(lines[m..], Open(lines, group, m), group, key)
    decreases |lines| - m
  {
    hide Starts, Search;
    if m < |lines| {
      var rest := lines[m..];
      assert rest[0] == lines[m] && rest[1..] == lines[m + 1..];
      if ReadAt(lines, group, key, m) {
        SearchIs(lines, group, key, m);
      } else {
        assert Search(lines, group, key, 0) != m;
        assert Open(lines, group, m + 1) <==> Open(lines, group, m) || (group.Some? && Starts(lines[m], group.value));
        FoundFrom(lines, group, key, m + 1);
      }
    }
  }

  /** Reading lines that are new from line m on. */
  lemma ReadNew(lines: seq<string>, m: nat, tail: seq<string>, group: Option<string>, key: string)
    requires m <= |lines|
    ensures Found(lines[..m] + tail, group, key)
         == if Search(lines, group, key, 0) < m then Found(lines, group, key)
            else ReadFrom(tail, Open(lines, group, m), group, key)
  {
    hide Starts, ReadFrom;
    var after := lines[..m] + tail;
    SameReading(lines, after, group, key, m);
    var r := Search(lines, group, key, 0);
    if r < m {
      SearchIs(after, group, key, r);
    } else {
      assert forall i :: 0 <= i < m ==> !ReadAt(after, group, key, i);
      hide ReadAt, Open;
      assert m <= Search(after, group, key, 0);
      FoundFrom(after, group, key, m);
      assert after[m..] == tail;
    }
  }

  lemma OpenIsRaised(lines: seq<string>, group: string, key: string)
    requires !Comparable(group, key) && !AnyHit(lines, group, key)
    ensures Search(lines, Some(group), key, 0) == |lines|
    ensures Open(lines, Some(group), |lines|) <==> Flag(lines, group, key, |lines|)
  {
    SearchIsFirstHit(lines, group, key);
    FlagMeans(lines, group, key, |lines|);
    hide Starts, Flag, Hit;
    if Open(lines, Some(group), |lines|) {
      FirstRaises(lines, group, key, |lines|);
    }
  }

  lemma SeenBefore(lines: seq<string>, group: string)
    requires lines != []
    ensures Open(lines, Some(group), |lines|)
      <==> Open(lines, Some(group), |lines| - 1) || Starts(lines[|lines| - 1], group)
  {
    hide Starts;
  }

  lemma StartsMore(line: string, more: string, key: string)
    ensures Starts(line, key) ==> Starts(line + more, key)
  {}

  lemma BothBegin(line: string, more: string, key: string)
    requires Starts(line + more, key) && !Starts(line, key)
    ensures line < key
  {
    var both := line + more;
    assert both[..|line|] == line && both[..|key|] == key;
  }

  /** A last line that turns into a line of the key is the beginning of that key, and the group was seen
      before it. */
  lemma BeginsKey(lines: seq<string>, group: string, key: string, value: string)
    requires Writable(group, key, value) && OpenEnd(lines, group, key) && Flag(lines, group, key, |lines|)
    requires Starts(lines[|lines| - 1] + Entry(key, value), key)
    ensures lines[|lines| - 1] < key && Open(lines, Some(group), |lines| - 1)
  {
    var n, last, e := |lines|, lines[|lines| - 1], Entry(key, value);
    OpenIsRaised(lines, group, key);
    SeenBefore(lines, group);
    StartsMore(last, e, group);
    NoLineHasBoth(group, key, last + e);
    assert !ReadAt(lines, Some(group), key, n - 1);
    hide Entry, Flag, Writable, Comparable, OpenEnd, Search, Starts, Open;
    BothBegin(last, e, key);
  }

  /** The group added is new: no line starts with it. */
  lemma NotSeen(lines: seq<string>, group: string, key: string, value: string)
    requires Writable(group, key, value) && OpenEnd(lines, group, key) && !Flag(lines, group, key, |lines|)
    ensures !Open(lines, Some(group), |lines| - 1)
  {
    OpenIsRaised(lines, group, key);
    SeenBefore(lines, group);
  }

  // ----- What a line reads as -----

  ghost predicate ReadsAs(found: Option<string>, value: string) {
    found.Some? && AfterEquals(found.value).Some? && Trim(AfterEquals(found.value).value) == value
  }

  lemma ReadIs(text: string, group: Option<string>, key: string, value: string)
    requires value != ""
    ensures Read(text, group, key, "") == (|value|, value) <==> ReadsAs(Found(Lines(text), group, key), value)
  {
    hide Lines, Found, AfterEquals, Trim;
  }

  lemma {:induction false} TrimShortens(s: string)
    ensures |Trim(s)| <= |s|
    ensures s != "" && s[|s| - 1] == '\n' ==> |Trim(s)| < |s|
  {
    if s != "" {
      TrimShortens(s[1..]);
    }
  }

  /** What follows the first equals sign is shorter by it and what comes before, and ends as the line. */
  lemma {:induction false} AfterEqualsIsShort(s: string, m: nat)
    requires m <= |s| && forall i :: 0 <= i < m ==> s[i] != '='
    requires AfterEquals(s).Some?
    ensures var v := AfterEquals(s).value;
      |v| + m + 1 <= |s| && s[|s| - |v|..] == v
    decreases |s|
  {
    if s[0] != '=' {
      AfterEqualsIsShort(s[1..], if m > 0 then m - 1 else 0);
    }
  }

  lemma {:induction false} NoEquals(s: string)
    requires '=' !in s
    ensures AfterEquals(s).None?
  {
    if s != "" {
      NoEquals(s[1..]);
    }
  }

  /** Too short a line cannot give the value. */
  lemma TooShort(line: string, m: nat, value: string)
    requires m <= |line| && forall i :: 0 <= i < m ==> line[i] != '='
    requires |line| <= |value| + m + 1 && value != ""
    requires line != "" && (|line| == |value| + m + 1 ==> line[|line| - 1] == '\n')
    ensures !ReadsAs(Some(line), value)
  {
    if AfterEquals(line).Some? {
      AfterEqualsIsShort(line, m);
      var v := AfterEquals(line).value;
      TrimShortens(v);
      assert v != "" ==> v[|v| - 1] == line[|line| - 1];
    }
  }

  // ----- The entry runs on from the last line -----

  lemma EntryIs(group: string, key: string, value: string)
    requires Writable(group, key, value)
    ensures Entry(key, value) == key + "=" + value + "\n" && |Entry(key, value)| == |key| + |value| + 2 < BUFFER
    ensures '=' !in key && !Starts(GroupLine(group), key) && GroupLine(group) == group + "\n"
  {
    EntryStarts(group, key, value);
  }

  lemma {:induction false} TrimKept(value: string)
    requires forall i :: 0 <= i < |value| ==> !Dropped(value[i])
    ensures Trim(value) == value
  {
    if value != "" {
      TrimKept(value[1..]);
    }
  }

  /** A line of the beginning of the key and the entry, or all of it but the newline. */
  lemma JoinedReads(last: string, group: string, key: string, value: string)
    requires Writable(group, key, value) && last <= key
    ensures ReadsAs(Some(last + Entry(key, value)), value)
    ensures ReadsAs(Some(last + key + "=" + value), value)
  {
    EntryIs(group, key, value);
    var rest := value + "\n";
    assert '=' !in last + key;
    AfterKey(last + key, rest);
    AfterKey(last + key, value);
    TrimKeeps(value);
    TrimKept(value);
    assert last + Entry(key, value) == last + key + "=" + rest;
    hide Entry, Writable, Trim, AfterEquals;
  }

  /** Cut off by more than the newline, it has less than the value. */
  lemma CutReadsLess(last: string, group: string, key: string, value: string)
    requires Writable(group, key, value) && last <= key && value != ""
    requires |last| < BUFFER && |last + Entry(key, value)| > BUFFER
    ensures !ReadsAs(Some((last + Entry(key, value))[..BUFFER - 1]), value)
  {
    EntryIs(group, key, value);
    var all := last + Entry(key, value);
    assert all == (last + key) + ("=" + value + "\n");
    var head := all[..BUFFER - 1];
    if |last| + |key| <= BUFFER - 1 {
      assert forall i :: 0 <= i < |last| + |key| ==> head[i] == (last + key)[i];
      hide Entry, Writable;
      TooShort(head, |last| + |key|, value);
    } else {
      assert forall i :: 0 <= i < |head| ==> head[i] == (last + key)[i];
      hide Entry, Writable;
      NoEquals(head);
    }
  }

  /** What fgets takes next of the entry never gives the value, even if it starts with the key. */
  lemma RestReadsLess(last: string, group: string, key: string, value: string)
    requires Writable(group, key, value) && value != "" && |last| < BUFFER - 1
    requires |last + Entry(key, value)| >= BUFFER
    ensures var rest := (last + Entry(key, value))[BUFFER - 1..];
      Starts(rest, key) ==> !ReadsAs(Some(rest), value)
  {
    EntryIs(group, key, value);
    var e := Entry(key, value);
    var d := BUFFER - 1 - |last|;
    var rest := (last + e)[BUFFER - 1..];
    assert rest == e[d..];
    if d <= |key| {
      assert rest[|key| - d] == e[|key|] == '=';
      NotTheKey(rest, key, |key| - d);
    } else if Starts(rest, key) {
      assert rest[|rest| - 1] == '\n';
      hide Entry, Writable;
      TooShort(rest, 0, value);
    }
  }

  lemma NotTheKey(line: string, key: string, i: nat)
    requires i < |line| && i < |key| && line[i] == '=' && '=' !in key
    ensures !Starts(line, key)
  {}

  // ----- The results -----

  /** The joined line is a line of the key, all but perhaps its newline taken by one fgets; or it is a line
      of the group added, and what fgets takes next of it does not stand in for the parameter. */
  ghost predicate JoinsWell(lines: seq<string>, group: string, key: string, value: string)
    requires lines != []
  {
    var all := JoinedLine(lines, group, key, value);
    if Flag(lines, group, key, |lines|) then Starts(all, key) && |all| <= BUFFER
    else
      && Starts(all, group)
      && (|all| >= BUFFER && Starts(all[BUFFER - 1..], key) ==> ReadsAs(Some(all[BUFFER - 1..]), value))
  }

  lemma HeadStarts(all: string, key: string)
    requires |all| >= BUFFER && |key| < BUFFER
    ensures Starts(all[..BUFFER - 1], key) <==> Starts(all, key)
  {
    assert all[..BUFFER - 1][..|key|] == all[..|key|];
  }

  /** What is read from one new line, from two and from three. */
  function FirstOf(a: string, b: string, c: string, seen: bool, group: string, key: string): Option<string> {
    var seenB := seen || Starts(a, group);
    var seenC := seenB || Starts(b, group);
    if seen && Starts(a, key) then Some(a)
    else if seenB && Starts(b, key) then Some(b)
    else if seenC && Starts(c, key) then Some(c)
    else None
  }

  lemma ReadNone(seen: bool, group: string, key: string)
    ensures ReadFrom([], seen, Some(group), key) == None
  {}

  lemma ReadOne(a: string, seen: bool, group: string, key: string)
    ensures ReadFrom([a], seen, Some(group), key) == if seen && Starts(a, key) then Some(a) else None
  {
    hide Starts;
    assert [a][1..] == [];
    ReadNone(seen || Starts(a, group), group, key);
  }

  lemma ReadTwo(a: string, b: string, seen: bool, group: string, key: string)
    ensures ReadFrom([a, b], seen, Some(group), key)
         == if seen && Starts(a, key) then Some(a)
            else if (seen || Starts(a, group)) && Starts(b, key) then Some(b) else None
  {
    hide Starts;
    assert [a, b][1..] == [b];
    ReadOne(b, seen || Starts(a, group), group, key);
  }

  lemma ReadThree(a: string, b: string, c: string, seen: bool, group: string, key: string)
    ensures ReadFrom([a, b, c], seen, Some(group), key) == FirstOf(a, b, c, seen, group, key)
  {
    hide Starts;
    assert [a, b, c][1..] == [b, c];
    ReadTwo(b, c, seen || Starts(a, group), group, key);
  }

  /** The entry itself runs on. */
  lemma EntryRunsOn(lines: seq<string>, group: string, key: string, value: string)
    requires Writable(group, key, value) && value != ""
    requires OpenEnd(lines, group, key) && Flag(lines, group, key, |lines|)
    ensures var all := JoinedLine(lines, group, key, value);
      var found := ReadFrom(Halves(all), Open(lines, Some(group), |lines| - 1), Some(group), key);
      && (ReadsAs(found, value) <==> JoinsWell(lines, group, key, value))
      && (|all| < BUFFER && !JoinsWell(lines, group, key, value) ==> found.None?)
  {
    var n, last, e := |lines|, lines[|lines| - 1], Entry(key, value);
    var seen := Open(lines, Some(group), n - 1);
    EntryIs(group, key, value);
    LastIsOpen(lines);
    if Starts(last + e, key) {
      BeginsKey(lines, group, key, value);
      JoinedReads(last, group, key, value);
    }
    hide OpenEnd, Open, Flag;
    if |last + e| < BUFFER {
      ReadOne(last + e, seen, group, key);
    } else {
      EntryInTwo(last, group, key, value, seen);
    }
    hide Entry, Writable, Starts, ReadsAs, AfterEquals;
  }

  lemma EntryInTwo(last: string, group: string, key: string, value: string, seen: bool)
    requires Writable(group, key, value) && value != "" && |last| < BUFFER - 1 && |last + Entry(key, value)| >= BUFFER
    requires Starts(last + Entry(key, value), key) ==> seen && last <= key
    ensures var all := last + Entry(key, value);
      ReadsAs(ReadFrom(Halves(all), seen, Some(group), key), value) <==> Starts(all, key) && |all| <= BUFFER
  {
    EntryIs(group, key, value);
    var all := last + Entry(key, value);
    var head, rest := all[..BUFFER - 1], all[BUFFER - 1..];
    ReadTwo(head, rest, seen, group, key);
    HeadStarts(all, key);
    RestReadsLess(last, group, key, value);
    if Starts(all, key) {
      if |all| > BUFFER {
        CutReadsLess(last, group, key, value);
      } else {
        JoinedReads(last, group, key, value);
        assert all == (last + key + "=" + value) + "\n";
        assert head == last + key + "=" + value;
      }
    }
    hide Entry, Writable, Starts, ReadsAs;
  }

  /** The group runs on, and the entry comes behind it. */
  lemma GroupRunsOn(lines: seq<string>, group: string, key: string, value: string)
    requires Writable(group, key, value) && value != "" && OpenEnd(lines, group, key)
    requires !Flag(lines, group, key, |lines|)
    ensures var all := JoinedLine(lines, group, key, value);
      var found := ReadFrom(Halves(all) + [Entry(key, value)], false, Some(group), key);
      && (ReadsAs(found, value) <==> JoinsWell(lines, group, key, value))
      && (|all| < BUFFER && !JoinsWell(lines, group, key, value) ==> found.None?)
  {
    var last, e := lines[|lines| - 1], Entry(key, value);
    var all := last + GroupLine(group);
    EntryStarts(group, key, value);
    LastIsOpen(lines);
    assert ReadsAs(Some(e), value) by {
      JoinedReads("", group, key, value);
      assert "" + e == e;
    }
    hide OpenEnd, Flag, ReadsAs;
    if |all| < BUFFER {
      assert Halves(all) + [e] == [all, e];
      ReadTwo(all, e, false, group, key);
    } else {
      var head, rest := all[..BUFFER - 1], all[BUFFER - 1..];
      assert Halves(all) + [e] == [head, rest, e];
      ReadThree(head, rest, e, false, group, key);
      HeadStarts(all, group);
      RestIsNoGroup(last, group);
    }
    hide Entry, GroupLine, Writable, Starts;
  }

  /** What fgets takes next of a group line is too short to start with the group. */
  lemma RestIsNoGroup(last: string, group: string)
    requires '\n' !in group && |group| + 1 < BUFFER && |last| < BUFFER - 1 && |last + GroupLine(group)| >= BUFFER
    ensures !Starts((last + GroupLine(group))[BUFFER - 1..], group)
  {
    var rest := (last + GroupLine(group))[BUFFER - 1..];
    assert GroupLine(group) == group + "\n";
    assert rest[|rest| - 1] == '\n';
  }

  /** After a write at an unterminated last line the value is read back if and only if what is joined onto
      that line joins well; on a line that fits one fgets, nothing is found otherwise. */
  lemma WriteAtOpenEnd(text: string, group: string, key: string, value: string)
    requires Writable(group, key, value) && value != "" && OpenEnd(Lines(text), group, key)
    ensures var lines := Lines(text);
      var read := Read(ModifiedText(text, group, key, value), Some(group), key, "");
      && lines != []
      && (read == (|value|, value) <==> JoinsWell(lines, group, key, value))
      && (|JoinedLine(lines, group, key, value)| < BUFFER && !JoinsWell(lines, group, key, value) ==>
            read == (-1, ""))
  {
    var lines := Lines(text);
    LinesAfterJoin(lines, group, key, value);
    JoinedIsWhole(lines, group, key, value);
    FoundAtOpenEnd(lines, group, key, value);
    hide Lines, Found, Modified, JoinedLines, JoinsWell, ReadsAs, Writable, OpenEnd, ReadFrom, Halves;
    ReadIs(ModifiedText(text, group, key, value), Some(group), key, value);
  }

  lemma OpenEndRaised(lines: seq<string>, group: string, key: string, value: string)
    requires Writable(group, key, value) && OpenEnd(lines, group, key)
    ensures lines != [] && Search(lines, Some(group), key, 0) == |lines|
  {
    hide Starts, Flag, Search, CutUp, AllWhole;
    OpenIsRaised(lines, group, key);
  }

  lemma FoundIsReadFrom(lines: seq<string>, group: string, key: string, value: string)
    requires Writable(group, key, value) && OpenEnd(lines, group, key)
    ensures Found(JoinedLines(lines, group, key, value), Some(group), key)
         == ReadFrom(Halves(JoinedLine(lines, group, key, value)) + Behind(lines, group, key, value),
                     Open(lines, Some(group), |lines| - 1), Some(group), key)
  {
    OpenEndRaised(lines, group, key, value);
    hide Lines, Found, ReadFrom, Halves, Writable, OpenEnd, Flag, Open, Search, Starts, JoinedLine, Behind;
    JoinedIsWhole(lines, group, key, value);
    ReadNew(lines, |lines| - 1, Lines(JoinedLine(lines, group, key, value)) + Behind(lines, group, key, value),
            Some(group), key);
  }

  lemma FoundAtOpenEnd(lines: seq<string>, group: string, key: string, value: string)
    requires Writable(group, key, value) && value != "" && OpenEnd(lines, group, key)
    ensures var all, found := JoinedLine(lines, group, key, value),
                              Found(JoinedLines(lines, group, key, value), Some(group), key);
      && (ReadsAs(found, value) <==> JoinsWell(lines, group, key, value))
      && (|all| < BUFFER && !JoinsWell(lines, group, key, value) ==> found.None?)
  {
    assert lines != [];
    hide Found, ReadFrom, Halves, JoinsWell, ReadsAs, Writable, OpenEnd, Flag, Open, Starts, JoinedLine, JoinedLines,
         Entry, GroupLine, Comparable;
    FoundIsReadFrom(lines, group, key, value);
    var halves := Halves(JoinedLine(lines, group, key, value));
    assert halves + [] == halves;
    if Flag(lines, group, key, |lines|) {
      EntryRunsOn(lines, group, key, value);
    } else {
      GroupRunsOn(lines, group, key, value);
      NotSeen(lines, group, key, value);
    }
  }

  lemma {:induction false} ReadFromEnd(lines: seq<string>, last: string, seen: bool, group: Option<string>, key: string)
    requires !Starts(last, key)
    ensures ReadFrom(lines + [last], seen, group, key) == ReadFrom(lines, seen, group, key)
    decreases |lines|
  {
    hide Starts;
    if lines == [] {
      assert (lines + [last])[1..] == [];
    } else {
      assert (lines + [last])[1..] == lines[1..] + [last];
      ReadFromEnd(lines[1..], last, seen || (group.Some? && Starts(lines[0], group.value)), group, key);
    }
  }

  /** The parameter line behind an added group is no line of another key. */
  lemma TailReads(lines: seq<string>, group: string, key: string, value: string, seen: bool,
                  other: Option<string>, otherKey: string)
    requires Writable(group, key, value) && lines != [] && !Comparable(key, otherKey)
    ensures var all := Lines(JoinedLine(lines, group, key, value));
      ReadFrom(all + Behind(lines, group, key, value), seen, other, otherKey) == ReadFrom(all, seen, other, otherKey)
  {
    EntryStarts(group, key, value);
    NoLineHasBoth(key, otherKey, Entry(key, value));
    hide Lines, JoinedLine, Entry, GroupLine, Starts, Flag, Writable, Comparable, ReadFrom;
    var all := Lines(JoinedLine(lines, group, key, value));
    ReadFromEnd(all, Entry(key, value), seen, other, otherKey);
    assert all + [] == all;
  }

  /** Another parameter is read as before from any line but the last, and otherwise from the lines that
      fgets makes of the joined one. */
  lemma OthersAtOpenEnd(text: string, group: string, key: string, value: string,
                        other: Option<string>, otherKey: string)
    requires Writable(group, key, value) && OpenEnd(Lines(text), group, key) && !Comparable(key, otherKey)
    ensures var lines := Lines(text);
      var n := |lines|;
      && n > 0
      && Found(Lines(ModifiedText(text, group, key, value)), other, otherKey)
         == if Search(lines, other, otherKey, 0) < n - 1 then Found(lines, other, otherKey)
            else ReadFrom(Lines(JoinedLine(lines, group, key, value)), Open(lines, other, n - 1), other, otherKey)
  {
    hide Lines, Writable, OpenEnd, Comparable, Search, Open, ReadFrom, Found, JoinedLine, Behind, Modified;
    var lines := Lines(text);
    LinesAfterJoin(lines, group, key, value);
    var n := |lines|;
    TailReads(lines, group, key, value, Open(lines, other, n - 1), other, otherKey);
    ReadNew(lines, n - 1, Lines(JoinedLine(lines, group, key, value)) + Behind(lines, group, key, value),
            other, otherKey);
  }

  lemma ExampleLines()
    ensures GroupLine("[G]") == "[G]\n" && Entry("b", "2") == "b=2\n"
    ensures Modified(["a=1"], "[G]", "b", "2") == ["a=1", "[G]\n", "b=2\n"]
  {
    var g, e := GroupLine("[G]"), Entry("b", "2");
    assert g == "[G]\n" && e == "b=2\n";
    var lines := ["a=1"];
    assert !Starts("a=1", "[G]") && !Starts("a=1", "b") by {
      assert "a=1"[0] == 'a';
    }
    assert Replaced(lines, "[G]", "b", e) == lines;
    assert !Flag(lines, "[G]", "b", 0) && !Flag(lines, "[G]", "b", 1) && !AnyHit(lines, "[G]", "b");
    assert Added(lines, "[G]", "b", "2") == [g, e];
  }

  lemma ExampleFound()
    ensures Found(["a=1[G]\n", "b=2\n"], Some("[G]"), "b").None?
  {
    var after := ["a=1[G]\n", "b=2\n"];
    assert !Starts(after[0], "[G]") && !Starts(after[1], "[G]") by {
      assert after[0][0] == 'a' && after[1][0] == 'b';
    }
    SearchIs(after, Some("[G]"), "b", 2);
  }

  lemma ExampleRead()
    ensures Lines(Concat(["a=1", "[G]\n", "b=2\n"])) == ["a=1[G]\n", "b=2\n"]
  {
    var after := ["a=1[G]\n", "b=2\n"];
    ConcatThree("a=1", "[G]\n", "b=2\n");
    assert "a=1" + "[G]\n" + "b=2\n" == "a=1[G]\n" + "b=2\n";
    ConcatPair("a=1[G]\n", "b=2\n");
    hide Concat;
    LinesConcat(after);
  }

  /** For example: the parameter just written is not found. */
  lemma NoFinalNewline()
    ensures Writable("[G]", "b", "2")
    ensures Read(ModifiedText("a=1", "[G]", "b", "2"), Some("[G]"), "b", "") == (-1, "")
  {
    assert Writable("[G]", "b", "2") by {
      assert "[G]"[0] == '[' && "b"[0] == 'b';
    }
    hide Lines, Concat, Found, Modified, Writable;
    LinesOfOne("a=1");
    ExampleLines();
    ExampleRead();
    ExampleFound();
    assert Lines(ModifiedText("a=1", "[G]", "b", "2")) == ["a=1[G]\n", "b=2\n"];
    assert Found(Lines(ModifiedText("a=1", "[G]", "b", "2")), Some("[G]"), "b").None?;
  }

  lemma LinesOfOne(text: string)
    requires 0 < |text| < BUFFER - 1 && '\n' !in text
    ensures Lines(text) == [text]
  {
    var n := Cut(text);
    assert n == |text| && text[..n] == text && text[n..] == "";
  }

  lemma ConcatThree(a: string, b: string, c: string)
    ensures Concat([a, b, c]) == a + b + c
  {
    assert [a, b, c][1..] == [b, c] && [b, c][1..] == [c] && [c][1..] == [];
    assert Concat([c]) == c;
    Associative(a, b, c);
  }
}
