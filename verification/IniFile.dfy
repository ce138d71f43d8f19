/** The parameter files (fileConfig.c): reading and rewriting key=value lines under group lines,
    through a line buffer of 256 bytes. */
module IniFile {
  import opened Common
  import opened TextLines

  // ----- Writing -----

  /** The line written for a parameter, cut to the buffer by snprintf. */
  function Entry(key: string, value: string): string {
    Truncated(key + "=" + value + "\n")
  }

  function GroupLine(group: string): string {
    Truncated(group + "\n")
  }

  function Truncated(s: string): string {
    if |s| < BUFFER then s else s[..BUFFER - 1]
  }

  predicate Starts(line: string, key: string) {
    key <= line
  }

  /** Whether the group flag is up after the first n lines: a group line raises it, the first line
      of the key after that lowers it. */
  function Flag(lines: seq<string>, group: string, key: string, n: nat): bool
    requires n <= |lines|
  {
    n > 0 && (Starts(lines[n - 1], group)
              || (Flag(lines, group, key, n - 1) && !Starts(lines[n - 1], key)))
  }

  /** Line i is rewritten. */
  predicate Hit(lines: seq<string>, group: string, key: string, i: nat)
    requires i < |lines|
  {
    !Starts(lines[i], group) && Flag(lines, group, key, i) && Starts(lines[i], key)
  }

  function Replaced(lines: seq<string>, group: string, key: string, entry: string): (r: seq<string>)
    ensures |r| == |lines|
  {
    seq(|lines|, i requires 0 <= i < |lines| => if Hit(lines, group, key, i) then entry else lines[i])
  }

  ghost predicate AnyHit(lines: seq<string>, group: string, key: string) {
    exists i :: 0 <= i < |lines| && Hit(lines, group, key, i)
  }

  /** What is added at the end of the file. */
  ghost function Added(lines: seq<string>, group: string, key: string, value: string): seq<string> {
    if AnyHit(lines, group, key) then []
    else (if Flag(lines, group, key, |lines|) then [] else [GroupLine(group)]) + [Entry(key, value)]
  }

  ghost function Modified(lines: seq<string>, group: string, key: string, value: string): seq<string> {
    Replaced(lines, group, key, Entry(key, value)) + Added(lines, group, key, value)
  }

  // ----- Reading -----

  /** The group has been seen before line n; without a group every line counts. */
  ghost predicate Open(lines: seq<string>, group: Option<string>, n: nat)
    requires n <= |lines|
  {
    group.None? || exists i :: 0 <= i < n && Starts(lines[i], group.value)
  }

  ghost predicate ReadAt(lines: seq<string>, group: Option<string>, key: string, i: nat)
    requires i < |lines|
  {
    Open(lines, group, i) && Starts(lines[i], key)
  }

  /** The line a parameter is read from, or the number of lines. */
  ghost function Search(lines: seq<string>, group: Option<string>, key: string, n: nat): (r: nat)
    requires n <= |lines|
    ensures n <= r <= |lines|
    ensures r < |lines| ==> ReadAt(lines, group, key, r)
    ensures forall i :: n <= i < r ==> !ReadAt(lines, group, key, i)
    decreases |lines| - n
  {
    if n == |lines| || ReadAt(lines, group, key, n) then n
    else Search(lines, group, key, n + 1)
  }

  ghost function Found(lines: seq<string>, group: Option<string>, key: string): Option<string> {
    var r := Search(lines, group, key, 0);
    if r < |lines| then Some(lines[r]) else None
  }

  /** strstrim drops characters 13, 10 and 20. */
  predicate Dropped(c: char) {
    c == 13 as char || c == 10 as char || c == 20 as char
  }

  function Trim(s: string): string {
    if s == "" then "" else (if Dropped(s[0]) then "" else [s[0]]) + Trim(s[1..])
  }

  /** What follows the first equals sign. */
  function AfterEquals(s: string): Option<string> {
    if s == "" then None else if s[0] == '=' then Some(s[1..]) else AfterEquals(s[1..])
  }

  /** The caller's buffer: what strstrim writes is not terminated, so the rest stays. */
  function Overwritten(old_: string, s: string): string {
    if |s| < |old_| then s + old_[|s|..] else s
  }

  /** The result code and the caller's buffer. */
  ghost function Read(text: string, group: Option<string>, key: string, buffer: string): (int, string) {
    var found := Found(Lines(text), group, key);
    if found.None? || AfterEquals(found.value).None? then (-1, buffer)
    else
      var value := Overwritten(buffer, Trim(AfterEquals(found.value).value));
      (if |value| == 0 then -1 else |value|, value)
  }

  // ----- Facts about the two -----

  /** One is the beginning of the other. */
  predicate Comparable(a: string, b: string) {
    a <= b || b <= a
  }

  lemma NoLineHasBoth(a: string, b: string, line: string)
    requires !Comparable(a, b)
    ensures !(Starts(line, a) && Starts(line, b))
  {}

  /** A group line with no line of the key between it and line n. */
  ghost predicate Raised(lines: seq<string>, group: string, key: string, n: nat, i: nat)
    requires n <= |lines|
  {
    i < n && Starts(lines[i], group) && forall j :: i < j < n ==> !Starts(lines[j], key)
  }

  lemma {:induction false} FlagMeans(lines: seq<string>, group: string, key: string, n: nat)
    requires n <= |lines|
    ensures Flag(lines, group, key, n) <==> exists i :: Raised(lines, group, key, n, i)
  {
    hide Starts;
    if n > 0 {
      FlagMeans(lines, group, key, n - 1);
      forall i: nat | i < n - 1 && Raised(lines, group, key, n, i)
        ensures Raised(lines, group, key, n - 1, i)
      {}
      if Starts(lines[n - 1], group) {
        assert Raised(lines, group, key, n, n - 1);
      } else if Flag(lines, group, key, n) {
        var i :| Raised(lines, group, key, n - 1, i);
        assert Raised(lines, group, key, n, i);
      }
    }
  }

  lemma HitIsRead(lines: seq<string>, group: string, key: string, i: nat)
    requires i < |lines| && Hit(lines, group, key, i)
    ensures ReadAt(lines, Some(group), key, i)
  {
    hide Starts;
    FlagMeans(lines, group, key, i);
    var h :| Raised(lines, group, key, i, h);
  }

  /** The line that is read is the first one that a write rewrites. */
  lemma SearchIsFirstHit(lines: seq<string>, group: string, key: string)
    requires !Comparable(group, key)
    ensures var r := Search(lines, Some(group), key, 0);
      && (r < |lines| ==> Hit(lines, group, key, r))
      && (forall i :: 0 <= i < r ==> !Hit(lines, group, key, i))
  {
    var r := Search(lines, Some(group), key, 0);
    if r < |lines| {
      FlagMeans(lines, group, key, r);
      NoLineHasBoth(group, key, lines[r]);
      FirstRaises(lines, group, key, r);
    }
    forall i | 0 <= i < r
      ensures !Hit(lines, group, key, i)
    {
      if Hit(lines, group, key, i) {
        HitIsRead(lines, group, key, i);
      }
    }
  }

  lemma FirstRaises(lines: seq<string>, group: string, key: string, r: nat)
    requires r <= |lines| && Open(lines, Some(group), r)
    requires forall i :: 0 <= i < r ==> !ReadAt(lines, Some(group), key, i)
    ensures exists i :: Raised(lines, group, key, r, i)
  {
    hide Starts;
    var i :| 0 <= i < r && Starts(lines[i], group);
    forall j | i < j < r
      ensures !Starts(lines[j], key)
    {
      assert Open(lines, Some(group), j) && !ReadAt(lines, Some(group), key, j);
    }
    assert Raised(lines, group, key, r, i);
  }

  lemma SearchIs(lines: seq<string>, group: Option<string>, key: string, r: nat)
    requires r <= |lines| && (r < |lines| ==> ReadAt(lines, group, key, r))
    requires forall i :: 0 <= i < r ==> !ReadAt(lines, group, key, i)
    ensures Search(lines, group, key, 0) == r
  {
    hide ReadAt;
  }

  /** Lines that agree on which of them start with the key and with the group are read alike. */
  lemma SameReading(a: seq<string>, b: seq<string>, group: Option<string>, key: string, n: nat)
    requires n <= |a| && n <= |b|
    requires forall i :: 0 <= i < n ==>
               && (Starts(a[i], key) <==> Starts(b[i], key))
               && (group.Some? ==> (Starts(a[i], group.value) <==> Starts(b[i], group.value)))
    ensures forall i :: 0 <= i <= n ==> (Open(a, group, i) <==> Open(b, group, i))
    ensures forall i :: 0 <= i < n ==> (ReadAt(a, group, key, i) <==> ReadAt(b, group, key, i))
  {
    hide Starts;
  }

  // ----- Read after write -----

  /** Neither is the beginning of the other, the key has no equals sign, the value has no carriage return,
      line feed or character 20, and the group line and the key with its equals sign fit in the buffer. */
  predicate Storable(group: string, key: string, value: string) {
    && !Comparable(group, key)
    && '=' !in key && '\n' !in key && '\n' !in group
    && (forall i :: 0 <= i < |value| ==> value[i] as int !in {10, 13, 20})
    && |key| + 1 < BUFFER && |group| + 1 < BUFFER
  }

  /** And so does the whole line. */
  predicate Writable(group: string, key: string, value: string) {
    Storable(group, key, value) && |key| + |value| + 2 < BUFFER
  }

  /** As much of the value as the buffer has room for. */
  function Stored(key: string, value: string): string
    requires |key| + 1 < BUFFER
  {
    if |key| + 1 + |value| < BUFFER then value else value[..BUFFER - 2 - |key|]
  }

  lemma EntryIs(group: string, key: string, value: string)
    requires Storable(group, key, value)
    ensures Entry(key, value) == key + "=" + (Stored(key, value) + if |key| + |value| + 2 < BUFFER then "\n" else "")
    ensures |Entry(key, value)| < BUFFER
    ensures |key| + |value| + 2 >= BUFFER ==> |Entry(key, value)| == BUFFER - 1
  {
    var s := key + "=" + value + "\n";
    if |s| >= BUFFER {
      assert s[..BUFFER - 1] == key + "=" + value[..BUFFER - 2 - |key|];
    }
  }

  lemma EntryStarts(group: string, key: string, value: string)
    requires Storable(group, key, value)
    ensures var e, g := Entry(key, value), GroupLine(group);
      && (Writable(group, key, value) ==> e == key + "=" + value + "\n") && g == group + "\n"
      && Starts(e, key) && Starts(g, group) && !Starts(e, group) && !Starts(g, key)
      && Whole(e) && Whole(g)
  {
    var e := Entry(key, value);
    EntryIs(group, key, value);
    NoLineHasBoth(group, key, e);
    NoLineHasBoth(group, key, GroupLine(group));
    assert e[..|key|] == key;
    assert GroupLine(group)[..|group|] == group;
  }

  /** After a write the parameter is read from the line just written, whatever was there before. */
  lemma FoundAfterWrite(lines: seq<string>, group: string, key: string, value: string)
    requires Storable(group, key, value)
    ensures Found(Modified(lines, group, key, value), Some(group), key) == Some(Entry(key, value))
  {
    EntryStarts(group, key, value);
    var e := Entry(key, value);
    var after := Modified(lines, group, key, value);
    var r := Search(lines, Some(group), key, 0);
    SearchIsFirstHit(lines, group, key);
    hide Entry, GroupLine, Starts, Flag;
    forall i | 0 <= i < |lines|
      ensures Starts(after[i], key) <==> Starts(lines[i], key)
      ensures Starts(after[i], group) <==> Starts(lines[i], group)
    {
      NoLineHasBoth(group, key, lines[i]);
    }
    SameReading(lines, after, Some(group), key, |lines|);
    if r < |lines| {
      SearchIs(after, Some(group), key, r);
    } else {
      WrittenAtEnd(lines, group, key, value);
    }
  }

  lemma WrittenAtEnd(lines: seq<string>, group: string, key: string, value: string)
    requires Storable(group, key, value)
    requires Search(lines, Some(group), key, 0) == |lines|
    ensures Found(Modified(lines, group, key, value), Some(group), key) == Some(Entry(key, value))
  {
    EntryStarts(group, key, value);
    SearchIsFirstHit(lines, group, key);
    var n := |lines|;
    FlagMeans(lines, group, key, n);
    if Open(lines, Some(group), n) {
      FirstRaises(lines, group, key, n);
    }
    var after, e := Modified(lines, group, key, value), Entry(key, value);
    assert Replaced(lines, group, key, e) == lines;
    var tail := if Flag(lines, group, key, n) then [e] else [GroupLine(group), e];
    assert after == lines + tail;
    hide Entry, GroupLine, Starts, Flag, Modified, Search;
    AppendedIsRead(lines, tail, group, key);
  }

  lemma AppendedIsRead(lines: seq<string>, tail: seq<string>, group: string, key: string)
    requires forall i :: 0 <= i < |lines| ==> !ReadAt(lines, Some(group), key, i)
    requires 1 <= |tail| <= 2 && Starts(tail[|tail| - 1], key)
    requires |tail| == 1 ==> Open(lines, Some(group), |lines|)
    requires |tail| == 2 ==> Starts(tail[0], group) && !Starts(tail[0], key)
    ensures Found(lines + tail, Some(group), key) == Some(tail[|tail| - 1])
  {
    hide Starts;
    var after := lines + tail;
    SameReading(lines, after, Some(group), key, |lines|);
    var r := |after| - 1;
    if |tail| == 2 {
      assert after[|lines|] == tail[0];
    }
    assert after[r] == tail[|tail| - 1] && Open(after, Some(group), r);
    SearchIs(after, Some(group), key, r);
  }

  /** Reading any other key, in any group, is not affected: that key and the one written must not
      be prefixes of each other, nor a group name and the key written, nor may the other key be
      the beginning of a group line that has to be added. */
  lemma OtherKeysKept(lines: seq<string>, group: string, key: string, value: string,
                      other: Option<string>, otherKey: string)
    requires Storable(group, key, value) && !Comparable(key, otherKey)
    requires other.Some? ==> !Comparable(other.value, key)
    requires !Starts(GroupLine(group), otherKey)
    ensures Found(Modified(lines, group, key, value), other, otherKey) == Found(lines, other, otherKey)
  {
    EntryStarts(group, key, value);
    var e, after := Entry(key, value), Modified(lines, group, key, value);
    NoLineHasBoth(key, otherKey, e);
    if other.Some? {
      NoLineHasBoth(other.value, key, e);
    }
    hide Entry, GroupLine, Starts, Flag;
    forall i | 0 <= i < |lines|
      ensures Starts(after[i], otherKey) <==> Starts(lines[i], otherKey)
      ensures Starts(after[i], otherKey) ==> after[i] == lines[i]
      ensures other.Some? ==> (Starts(after[i], other.value) <==> Starts(lines[i], other.value))
    {
      NoLineHasBoth(key, otherKey, lines[i]);
      if other.Some? {
        NoLineHasBoth(other.value, key, lines[i]);
      }
    }
    SameReading(lines, after, other, otherKey, |lines|);
    assert forall i :: |lines| <= i < |after| ==> !Starts(after[i], otherKey);
    var r := Search(lines, other, otherKey, 0);
    SearchIs(after, other, otherKey, if r < |lines| then r else |after|);
  }

  /** Line r of the key is rewritten: the group written has a line before it with no line of the key
      in between. */
  ghost predicate Reaches(lines: seq<string>, group: string, key: string, r: nat)
    requires r <= |lines|
  {
    exists i :: Raised(lines, group, key, r, i)
  }

  /** The line added at the end is read under the other group: that has been seen, or is what the
      added group line starts with. */
  ghost predicate AddedIsSeen(lines: seq<string>, group: string, key: string, other: string) {
    && !AnyHit(lines, group, key)
    && (Open(lines, Some(other), |lines|)
        || (!Flag(lines, group, key, |lines|) && Starts(GroupLine(group), other)))
  }

  /** The same key in another group is not safe. There it is read from line r, if from any; after the
      write it is read from the line written if and only if line r was rewritten or, where there was
      none to read, the line added is seen, and from the same line as before otherwise. */
  lemma SameKeyElsewhere(lines: seq<string>, group: string, key: string, value: string, other: string)
    requires Storable(group, key, value) && !Comparable(other, key)
    ensures var r := Search(lines, Some(other), key, 0);
      Found(Modified(lines, group, key, value), Some(other), key)
      == if (if r < |lines| then Reaches(lines, group, key, r) else AddedIsSeen(lines, group, key, other))
         then Some(Entry(key, value)) else Found(lines, Some(other), key)
  {
    var r := Search(lines, Some(other), key, 0);
    if r < |lines| {
      KeyElsewhereKept(lines, group, key, value, other);
    } else {
      KeyElsewhereAdded(lines, group, key, value, other);
    }
  }

  lemma SameStarts(lines: seq<string>, group: string, key: string, value: string, other: string)
    requires Storable(group, key, value) && !Comparable(other, key)
    ensures var after := Modified(lines, group, key, value);
      && |lines| <= |after| && !Starts(Entry(key, value), other)
      && forall i :: 0 <= i < |lines| ==>
           && (Starts(after[i], key) <==> Starts(lines[i], key))
           && (Starts(after[i], other) <==> Starts(lines[i], other))
  {
    EntryStarts(group, key, value);
    NoLineHasBoth(other, key, Entry(key, value));
    hide Entry, GroupLine, Starts, Flag;
    forall i | 0 <= i < |lines|
      ensures var after := Modified(lines, group, key, value);
        && (Starts(after[i], key) <==> Starts(lines[i], key))
        && (Starts(after[i], other) <==> Starts(lines[i], other))
    {
      NoLineHasBoth(other, key, lines[i]);
    }
  }

  lemma KeyElsewhereKept(lines: seq<string>, group: string, key: string, value: string, other: string)
    requires Storable(group, key, value) && !Comparable(other, key)
    requires Search(lines, Some(other), key, 0) < |lines|
    ensures var r := Search(lines, Some(other), key, 0);
      Found(Modified(lines, group, key, value), Some(other), key)
      == Some(if Reaches(lines, group, key, r) then Entry(key, value) else lines[r])
  {
    var r, after := Search(lines, Some(other), key, 0), Modified(lines, group, key, value);
    SameStarts(lines, group, key, value, other);
    NoLineHasBoth(group, key, lines[r]);
    FlagMeans(lines, group, key, r);
    assert after[r] == if Reaches(lines, group, key, r) then Entry(key, value) else lines[r];
    hide Entry, GroupLine, Starts, Flag, Modified, Reaches;
    SameReading(lines, after, Some(other), key, |lines|);
    SearchIs(after, Some(other), key, r);
  }

  lemma KeyElsewhereAdded(lines: seq<string>, group: string, key: string, value: string, other: string)
    requires Storable(group, key, value) && !Comparable(other, key)
    requires Search(lines, Some(other), key, 0) == |lines|
    ensures Found(Modified(lines, group, key, value), Some(other), key)
      == if AddedIsSeen(lines, group, key, other) then Some(Entry(key, value)) else None
  {
    var n, after, e, g := |lines|, Modified(lines, group, key, value), Entry(key, value), GroupLine(group);
    SameStarts(lines, group, key, value, other);
    EntryStarts(group, key, value);
    hide Entry, GroupLine, Starts;
    SameReading(lines, after, Some(other), key, n);
    assert !AnyHit(lines, group, key) ==> after[|after| - 1] == e;
    assert |after| == n + 2 ==> after[n] == g;
    hide Modified, Flag, Replaced;
    if AddedIsSeen(lines, group, key, other) {
      assert Open(after, Some(other), |after| - 1);
      SearchIs(after, Some(other), key, |after| - 1);
    } else {
      SearchIs(after, Some(other), key, |after|);
    }
  }

  // ----- Whole files -----

  ghost function ModifiedText(text: string, group: string, key: string, value: string): string {
    Concat(Modified(Lines(text), group, key, value))
  }

  /** What is added does not run on from an unterminated last line. */
  ghost predicate CleanEnd(text: string, group: string, key: string) {
    AllWhole(Lines(text)) || AnyHit(Lines(text), group, key)
  }

  lemma LinesAfterWrite(text: string, group: string, key: string, value: string)
    requires Storable(group, key, value) && CleanEnd(text, group, key)
    ensures Lines(ModifiedText(text, group, key, value)) == Modified(Lines(text), group, key, value)
  {
    EntryStarts(group, key, value);
    LinesAreCutUp(text);
    hide Lines, Concat, Whole, Piece, Entry, GroupLine, Flag, Starts, Storable, Hit;
    var lines := Lines(text);
    ReplacedIsCutUp(lines, group, key, Entry(key, value));
    if AnyHit(lines, group, key) {
      assert Modified(lines, group, key, value) == Replaced(lines, group, key, Entry(key, value));
    }
    LinesConcat(Modified(lines, group, key, value));
  }

  lemma ReplacedIsCutUp(lines: seq<string>, group: string, key: string, entry: string)
    requires CutUp(lines) && Whole(entry)
    ensures CutUp(Replaced(lines, group, key, entry))
    ensures AllWhole(lines) ==> AllWhole(Replaced(lines, group, key, entry))
  {
    hide Hit;
    var after := Replaced(lines, group, key, entry);
    if !AllWhole(lines) {
      var front, was := after[..|lines| - 1], lines[..|lines| - 1];
      forall i | 0 <= i < |front|
        ensures Whole(front[i])
      {
        assert Whole(was[i]) && was[i] == lines[i];
      }
    }
  }

  lemma {:induction false} AfterKey(key: string, rest: string)
    requires '=' !in key
    ensures AfterEquals(key + "=" + rest) == Some(rest)
  {
    var s := key + "=" + rest;
    if key == "" {
      assert s[1..] == rest;
    } else {
      AfterKey(key[1..], rest);
      assert s[0] == key[0] && s[1..] == key[1..] + "=" + rest;
    }
  }

  lemma {:induction false} TrimKeeps(value: string)
    requires forall i :: 0 <= i < |value| ==> value[i] as int !in {10, 13, 20}
    ensures Trim(value + "\n") == value
  {
    var s := value + "\n";
    if value == "" {
      assert s[1..] == "" && Dropped(s[0]);
    } else {
      TrimKeeps(value[1..]);
      assert s[1..] == value[1..] + "\n";
    }
  }

  /** strstrim goes through the string character by character: the three it drops go wherever they are, and
      the others stay in their order. */
  lemma TrimsEach(a: string, c: char, b: string)
    ensures Trim(a + [c] + b) == Trim(a) + (if c as int in {10, 13, 20} then "" else [c]) + Trim(b)
  {
    TrimAdds(a + [c], b);
    TrimAdds(a, [c]);
    hide Trim;
    TrimOne(c);
  }

  lemma TrimOne(c: char)
    ensures Trim([c]) == if c as int in {10, 13, 20} then "" else [c]
  {
    assert [c][1..] == "";
  }

  lemma {:induction false} TrimAdds(a: string, b: string)
    ensures Trim(a + b) == Trim(a) + Trim(b)
    decreases |a|
  {
    hide Dropped;
    if a == "" {
      assert a + b == b;
    } else {
      assert (a + b)[1..] == a[1..] + b;
      TrimAdds(a[1..], b);
    }
  }

  lemma ReadIsEntry(text: string, group: string, key: string, value: string, buffer: string)
    requires Storable(group, key, value) && Found(Lines(text), Some(group), key) == Some(Entry(key, value))
    ensures var v := Overwritten(buffer, Stored(key, value));
      Read(text, Some(group), key, buffer) == (if |v| == 0 then -1 else |v|, v)
  {
    var stored := Stored(key, value);
    var rest := stored + if |key| + |value| + 2 < BUFFER then "\n" else "";
    EntryIs(group, key, value);
    AfterKey(key, rest);
    assert Trim(rest) == stored by {
      TrimKeeps(stored);
      TrimAdds(stored, "\n");
      TrimOne('\n');
      assert stored + "" == stored;
    }
    hide Lines, Found, Entry, Trim, AfterEquals, Overwritten;
  }

  /** After ModifyParam, ReadParam gives back the value, whether the key or the group existed or not, cut off
      where the line did not fit in 255 characters. What the caller's buffer held before shows through behind
      it if it was longer, and the length is that of both together. */
  lemma ReadAfterWrite(text: string, group: string, key: string, value: string, buffer: string)
    requires Storable(group, key, value) && CleanEnd(text, group, key)
    ensures var r := Read(ModifiedText(text, group, key, value), Some(group), key, buffer);
      var stored := if |key| + 1 + |value| <= 255 then value else value[..254 - |key|];
      && r.1 == stored + (if |buffer| > |stored| then buffer[|stored|..] else "")
      && r.0 == if r.1 == "" then -1 else |r.1|
  {
    LinesAfterWrite(text, group, key, value);
    FoundAfterWrite(Lines(text), group, key, value);
    ReadIsEntry(ModifiedText(text, group, key, value), group, key, value, buffer);
    hide Lines, Modified, Found, ModifiedText, CleanEnd, Entry, Storable;
  }

  /** So a value whose line fits comes back if and only if the buffer held no longer string, and a longer one
      if and only if the buffer was as long as it and ended in what was cut off. */
  lemma ValueBackExactly(text: string, group: string, key: string, value: string, buffer: string)
    requires Storable(group, key, value) && CleanEnd(text, group, key)
    ensures var r := Read(ModifiedText(text, group, key, value), Some(group), key, buffer);
      r.1 == value <==>
        if |key| + 1 + |value| <= 255 then |buffer| <= |value|
        else |buffer| == |value| && buffer[254 - |key|..] == value[254 - |key|..]
  {
    ReadAfterWrite(text, group, key, value, buffer);
    if |key| + 1 + |value| > 255 && |buffer| == |value| {
      assert value == value[..254 - |key|] + value[254 - |key|..];
    }
    hide ModifiedText, Read, Storable;
  }

  /** And every other parameter reads as before. */
  lemma OthersReadAsBefore(text: string, group: string, key: string, value: string,
                           other: Option<string>, otherKey: string, buffer: string)
    requires Storable(group, key, value) && CleanEnd(text, group, key) && !Comparable(key, otherKey)
    requires other.Some? ==> !Comparable(other.value, key)
    requires !Starts(GroupLine(group), otherKey)
    ensures Read(ModifiedText(text, group, key, value), other, otherKey, buffer)
         == Read(text, other, otherKey, buffer)
  {
    LinesAfterWrite(text, group, key, value);
    OtherKeysKept(Lines(text), group, key, value, other, otherKey);
    hide Lines, Modified, Found, ModifiedText, CleanEnd;
  }

  // ----- The code -----

  class ParamFile {
    var present: bool
    var text: string

    constructor (present: bool, text: string)
      ensures this.present == present && this.text == text
    {
      this.present, this.text := present, text;
    }

    /** ModifyParam; tmpOk says whether the temporary file can be opened. */
    method ModifyParam(group: string, key: string, value: string, tmpOk: bool) returns (result: int)
      modifies this`text
      ensures result == if present && tmpOk then 0 else -1
      ensures text == if present && tmpOk then ModifiedText(old(text), group, key, value) else old(text)
    {
      if !present || !tmpOk {
        return -1;
      }
      ghost var lines := Lines(text);
      ghost var replaced := Replaced(lines, group, key, Entry(key, value));
      hide Concat, Lines, Entry, GroupLine, Replaced, Flag, Hit;
      var newText, flag, hits := CopyReplacing(group, key, value);
      if hits == 0 {
        ghost var added := Added(lines, group, key, value);
        if !flag {
          newText := newText + GroupLine(group);
        }
        newText := newText + Entry(key, value);
        AddedText(replaced, added, newText);
      } else {
        assert replaced + [] == replaced;
      }
      text := newText;
      return 0;
    }

    /** The loop over the old file. */
    method CopyReplacing(group: string, key: string, value: string)
        returns (newText: string, flag: bool, hits: int)
      ensures var lines := Lines(text);
        && newText == Concat(Replaced(lines, group, key, Entry(key, value)))
        && flag == Flag(lines, group, key, |lines|)
        && hits >= 0 && (hits > 0 <==> AnyHit(lines, group, key))
    {
      var rest := text;
      newText, flag, hits := "", false, 0;
      ghost var lines, i := Lines(text), 0;
      ghost var replaced := Replaced(lines, group, key, Entry(key, value));
      hide Concat, Cut, Starts, Entry;
      ConcatNone();
      while rest != ""
        invariant 0 <= i <= |lines| && Lines(rest) == lines[i..]
        invariant newText == Concat(replaced[..i])
        invariant flag == Flag(lines, group, key, i) && hits >= 0
        invariant hits > 0 <==> exists j :: 0 <= j < i && Hit(lines, group, key, j)
        decreases |rest|
      {
        var buf := rest[..Cut(rest)];
        rest := rest[Cut(rest)..];
        assert buf == lines[i] && lines[i..][1..] == lines[i + 1..];
        ConcatMore(replaced, i);
        if Starts(buf, group) {
          flag := true;
          newText := newText + buf;
        } else if flag && Starts(buf, key) {
          assert Hit(lines, group, key, i);
          buf := Entry(key, value);
          newText := newText + buf;
          hits := hits + 1;
          flag := false;
        } else {
          newText := newText + buf;
        }
        i := i + 1;
      }
      assert replaced[..i] == replaced;
    }

    /** ReadParam; buffer is the string the caller's buffer holds. */
    method ReadParam(group: Option<string>, key: string, buffer: string) returns (result: int, value: string)
      ensures (result, value) == if present then Read(text, group, key, buffer) else (-1, buffer)
    {
      if !present {
        return -1, buffer;
      }
      var rest, flag := text, group.None?;
      ghost var lines, i := Lines(text), 0;
      hide Cut, Starts;
      while rest != ""
        invariant 0 <= i <= |lines| && Lines(rest) == lines[i..]
        invariant flag == Open(lines, group, i)
        invariant forall j :: 0 <= j < i ==> !ReadAt(lines, group, key, j)
        decreases |rest|
      {
        var buf := rest[..Cut(rest)];
        rest := rest[Cut(rest)..];
        assert buf == lines[i] && lines[i..][1..] == lines[i + 1..];
        if !flag && Starts(buf, group.value) {
          flag := true;
        } else if flag && Starts(buf, key) {
          SearchIs(lines, group, key, i);
          var pos := AfterEquals(buf);
          if pos.None? {
            return -1, buffer;
          }
          value := Overwritten(buffer, Trim(pos.value));
          result := if |value| == 0 then -1 else |value|;
          return;
        }
        i := i + 1;
      }
      SearchIs(lines, group, key, |lines|);
      return -1, buffer;
    }
  }

  lemma AddedText(lines: seq<string>, added: seq<string>, text: string)
    requires 1 <= |added| <= 2
    requires text == if |added| == 1 then Concat(lines) + added[0] else Concat(lines) + added[0] + added[1]
    ensures text == Concat(lines + added)
  {
    ConcatJoin(lines, added);
    if |added| == 1 {
      assert Concat(added) == added[0];
    } else {
      assert added[1..][1..] == [] && Concat(added[1..]) == added[1];
      Associative(Concat(lines), added[0], added[1]);
    }
  }
}
