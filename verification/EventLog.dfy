/** The log file (log.c): one line for each entry, the oldest thousand dropped when it is full, and
    the search for the entries of a day. */
module EventLog {
  import opened TextLines

  const MAX_LOG_NUMBER := 10000
  const FULL := MAX_LOG_NUMBER + 1000
  const DROP := 1000
  const MAX_LOG_DESC_LEN := 128

  datatype Time = Time(year: int, month: int, day: int, hour: int, minute: int, second: int)

  datatype Kind = Sys | Event | Other

  datatype Entry = Entry(kind: Kind, time: Time, desc: string)

  datatype Record = Record(time: Time, desc: string)

  // ----- Lines -----

  function Digit(n: int): char
    requires 0 <= n < 10
  {
    ('0' as int + n) as char
  }

  function Two(n: int): (s: string)
    requires 0 <= n < 100
    ensures |s| == 2
  {
    [Digit(n / 10), Digit(n % 10)]
  }

  function Four(n: int): (s: string)
    requires 0 <= n < 10000
    ensures |s| == 4
  {
    Two(n / 100) + Two(n % 100)
  }

  predicate ValidTime(t: Time) {
    && 1000 <= t.year < 10000 && 1 <= t.month <= 12 && 1 <= t.day <= 31
    && 0 <= t.hour < 24 && 0 <= t.minute < 60 && 0 <= t.second <= 60
  }

  function Stamp(t: Time): (s: string)
    requires ValidTime(t)
    ensures |s| == 17
  {
    Four(t.year) + Two(t.month) + Two(t.day) + " "
    + Two(t.hour) + ":" + Two(t.minute) + ":" + Two(t.second)
  }

  /** A description fits its field. */
  predicate Storable(e: Entry) {
    ValidTime(e.time) && |e.desc| < MAX_LOG_DESC_LEN
  }

  /** And stays on one line. */
  predicate Valid(e: Entry) {
    Storable(e) && '\n' !in e.desc
  }

  function Line(e: Entry): (s: string)
    requires Storable(e)
    ensures |s| == 21 + |e.desc|
  {
    (if e.kind == Event then "e" else "s") + Stamp(e.time) + " " + e.desc + "\r\n"
  }

  ghost predicate AllValid(es: seq<Entry>) {
    forall i :: 0 <= i < |es| ==> Valid(es[i])
  }

  ghost function LinesOf(es: seq<Entry>): (ls: seq<string>)
    requires AllValid(es)
    ensures |ls| == |es|
    ensures forall i :: 0 <= i < |es| ==> ls[i] == Line(es[i])
  {
    seq(|es|, i requires 0 <= i < |es| => Line(es[i]))
  }

  // ----- Writing -----

  /** The file and the line count kept in memory. */
  datatype Log = Log(text: string, count: int)

  /** ok says that the files needed can be opened. */
  function Write(s: Log, e: Entry, ok: bool): Log
    requires Storable(e)
  {
    if !ok then s
    else if s.count < FULL then Log(s.text + Line(e), s.count + 1)
    else Log(Concat(Later(Lines(s.text))) + Line(e), s.count - DROP + 1)
  }

  function Later(lines: seq<string>): seq<string> {
    if |lines| <= DROP then [] else lines[DROP..]
  }

  /** LOG_Init when the program starts again: the lines are counted anew. */
  function Restarted(s: Log): Log {
    Log(s.text, |Lines(s.text)|)
  }

  datatype Attempt = Attempt(entry: Entry, ok: bool) | Restart

  ghost predicate AllStorable(run: seq<Attempt>) {
    forall i :: 0 <= i < |run| ==> run[i].Attempt? ==> Storable(run[i].entry)
  }

  ghost predicate AllValidAttempts(run: seq<Attempt>) {
    forall i :: 0 <= i < |run| ==> run[i].Attempt? ==> Valid(run[i].entry)
  }

  ghost function WriteAll(run: seq<Attempt>): Log
    requires AllStorable(run)
  {
    if run == [] then Log("", 0)
    else
      var n := |run| - 1;
      if run[n].Restart? then Restarted(WriteAll(run[..n]))
      else Write(WriteAll(run[..n]), run[n].entry, run[n].ok)
  }

  /** The entries whose write succeeded. */
  ghost function Written(run: seq<Attempt>): (es: seq<Entry>)
    requires AllValidAttempts(run)
    ensures AllValid(es)
  {
    if run == [] then []
    else
      var n := |run| - 1;
      Written(run[..n]) + if run[n].Attempt? && run[n].ok then [run[n].entry] else []
  }

  /** How many of n entries are kept. */
  function Kept(n: nat): (k: nat)
    ensures k <= n && k <= FULL && (k == n || k > MAX_LOG_NUMBER)
  {
    if n == 0 then 0 else if Kept(n - 1) < FULL then Kept(n - 1) + 1 else FULL - DROP + 1
  }

  lemma DigitsAreDigits(n: int)
    requires 0 <= n < 100
    ensures '0' <= Two(n)[0] <= '9' && '0' <= Two(n)[1] <= '9'
  {}

  lemma LineIsWhole(e: Entry)
    requires Valid(e)
    ensures Whole(Line(e))
  {
    var t := e.time;
    DigitsAreDigits(t.year / 100);
    DigitsAreDigits(t.year % 100);
    DigitsAreDigits(t.month);
    DigitsAreDigits(t.day);
    DigitsAreDigits(t.hour);
    DigitsAreDigits(t.minute);
    DigitsAreDigits(t.second);
    hide Two;
    assert forall i :: 0 <= i < 17 ==> Stamp(t)[i] != '\n';
    hide Stamp;
  }

  /** One more entry at the end of what is in the file. */
  lemma LinesMore(lines: seq<string>, e: Entry)
    requires AllWhole(lines) && Valid(e)
    ensures Lines(Concat(lines) + Line(e)) == lines + [Line(e)]
  {
    LineIsWhole(e);
    hide Lines, Line, Whole;
    LinesConcat(lines + [Line(e)]);
    ConcatJoin(lines, [Line(e)]);
    assert Concat([Line(e)]) == Line(e);
  }

  lemma LinesOfMore(es: seq<Entry>, e: Entry)
    requires AllValid(es) && Valid(e)
    ensures AllValid(es + [e]) && LinesOf(es + [e]) == LinesOf(es) + [Line(e)]
  {
    hide Valid, Line;
  }

  lemma LinesOfLater(es: seq<Entry>, k: nat)
    requires AllValid(es) && k <= |es|
    ensures AllValid(es[k..]) && LinesOf(es[k..]) == LinesOf(es)[k..]
  {
    hide Valid, Line;
  }

  lemma LinesOfWhole(es: seq<Entry>)
    requires AllValid(es)
    ensures AllWhole(LinesOf(es))
  {
    hide Valid, Line, Whole;
    forall i | 0 <= i < |es| {
      LineIsWhole(es[i]);
    }
  }

  /** What a write makes of the entries in the file. */
  ghost function Turned(kept: seq<Entry>, e: Entry): seq<Entry>
  {
    (if |kept| < FULL then kept else kept[DROP..]) + [e]
  }

  lemma WriteKeeps(s: Log, kept: seq<Entry>, e: Entry)
    requires AllValid(kept) && Valid(e) && Lines(s.text) == LinesOf(kept)
    requires s.count == |kept| <= FULL
    ensures AllValid(Turned(kept, e)) && Lines(Write(s, e, true).text) == LinesOf(Turned(kept, e))
  {
    ConcatLines(s.text);
    var rest := if |kept| < FULL then kept else kept[DROP..];
    hide Lines, Concat, Line, Whole, Valid;
    if |kept| == FULL {
      LinesOfLater(kept, DROP);
    }
    LinesOfWhole(rest);
    LinesOfMore(rest, e);
    hide LinesOf;
    assert s.count < FULL ==> s.text == Concat(LinesOf(rest));
    assert s.count == FULL ==> Later(Lines(s.text)) == LinesOf(rest);
    LinesMore(LinesOf(rest), e);
  }

  /** The file holds exactly the newest of the entries written, one line each and in order, and
      the count is how many those are. */
  ghost predicate Holds(s: Log, written: seq<Entry>)
    requires AllValid(written)
  {
    s.count == Kept(|written|) && Lines(s.text) == LinesOf(written[|written| - s.count..])
  }

  lemma TurnedIsSuffix(written: seq<Entry>, e: Entry, count: nat)
    requires count <= |written| && count <= FULL
    ensures var turned := Turned(written[|written| - count..], e);
      && |turned| == (if count < FULL then count + 1 else FULL - DROP + 1)
      && (written + [e])[|written| + 1 - |turned|..] == turned
  {}

  lemma CountsNext(s: Log, written: seq<Entry>, e: Entry)
    requires AllValid(written) && Valid(e) && Holds(s, written)
    ensures s.count <= |written| && s.count <= FULL
    ensures Write(s, e, true).count == Kept(|written| + 1) == if s.count < FULL then s.count + 1 else FULL - DROP + 1
  {
    hide Lines, LinesOf, Line, Concat, Valid, Later;
  }

  lemma WriteHolds(s: Log, written: seq<Entry>, e: Entry)
    requires AllValid(written) && Valid(e) && Holds(s, written)
    ensures Holds(Write(s, e, true), written + [e])
  {
    hide Kept, Write, Lines, LinesOf, Line, Concat, Turned, Valid, Later;
    CountsNext(s, written, e);
    WriteKeeps(s, written[|written| - s.count..], e);
    TurnedIsSuffix(written, e, s.count);
  }

  lemma RestartHolds(s: Log, written: seq<Entry>)
    requires AllValid(written) && Holds(s, written)
    ensures Restarted(s) == s
  {
    hide Lines, LinesOf, Valid;
  }

  /** After any number of writes, some of which may fail, and of restarts, that is so. */
  lemma {:induction false} FileIsSuffix(run: seq<Attempt>)
    requires AllValidAttempts(run)
    ensures AllStorable(run) && Holds(WriteAll(run), Written(run))
  {
    if run != [] {
      var n := |run| - 1;
      FileIsSuffix(run[..n]);
      var s, h := WriteAll(run[..n]), Written(run[..n]);
      assert h + [] == h;
      if run[n].Restart? {
        assert WriteAll(run) == Restarted(s) && Written(run) == h;
        RestartHolds(s, h);
      } else {
        var e := run[n].entry;
        assert WriteAll(run) == Write(s, e, run[n].ok);
        assert Written(run) == if run[n].ok then h + [e] else h;
        hide Holds, Written, WriteAll, Valid;
        if run[n].ok {
          WriteHolds(s, h, e);
        }
      }
    } else {
      var none: seq<Entry> := [];
      assert none[0..] == none;
    }
  }

  /** How many that is: everything up to 11000 entries, and from then on between 10001 and 11000. */
  lemma {:induction false} KeptIs(n: nat)
    ensures Kept(n) == if n <= FULL then n else MAX_LOG_NUMBER + 1 + (n - FULL - 1) % DROP
  {
    if n > 0 {
      KeptIs(n - 1);
    }
  }

  // ----- Descriptions of more than one line -----

  function Newlines(s: string): nat {
    if s == "" then 0 else (if s[0] == '\n' then 1 else 0) + Newlines(s[1..])
  }

  lemma {:induction false} NewlinesJoin(a: string, b: string)
    ensures Newlines(a + b) == Newlines(a) + Newlines(b)
  {
    if a == "" {
      assert a + b == b;
    } else {
      NewlinesJoin(a[1..], b);
      assert (a + b)[1..] == a[1..] + b;
    }
  }

  lemma {:induction false} NoNewline(s: string)
    ensures Newlines(s) == 0 <==> '\n' !in s
  {
    if s != "" {
      NoNewline(s[1..]);
    }
  }

  lemma FirstNewline(text: string, n: nat)
    requires 0 < n <= |text| && text[n - 1] == '\n' && forall i :: 0 <= i < n - 1 ==> text[i] != '\n'
    ensures Newlines(text) == 1 + Newlines(text[n..])
  {
    var front, back := text[..n - 1], text[n - 1..];
    NoNewline(front);
    NewlinesJoin(front, back);
    assert text == front + back && back[1..] == text[n..];
  }

  /** A short text that ends in a newline has as many lines as newlines. */
  lemma {:induction false} ShortLines(text: string)
    requires |text| < BUFFER - 1 && (text != "" ==> text[|text| - 1] == '\n')
    ensures |Lines(text)| == Newlines(text) && AllWhole(Lines(text))
    decreases |text|
  {
    if text != "" {
      var n := Cut(text);
      FirstNewline(text, n);
      assert Whole(text[..n]);
      var rest := text[n..];
      assert Lines(text) == [text[..n]] + Lines(rest);
      assert rest != "" ==> rest[|rest| - 1] == text[|text| - 1];
      hide Lines, Whole, Newlines, Cut;
      ShortLines(rest);
    }
  }

  lemma LineBreaks(e: Entry)
    requires Storable(e)
    ensures |Lines(Line(e))| == 1 + Newlines(e.desc) && AllWhole(Lines(Line(e)))
  {
    var blank := Entry(e.kind, e.time, "");
    LineIsWhole(blank);
    var head := (if e.kind == Event then "e" else "s") + Stamp(e.time) + " ";
    assert Line(blank) == head + "" + "\r\n" == head + "\r\n";
    assert forall i :: 0 <= i < |head| ==> head[i] == Line(blank)[i];
    assert Line(e) == head + (e.desc + "\r\n");
    NoNewline(head);
    NewlinesJoin(head, e.desc + "\r\n");
    NewlinesJoin(e.desc, "\r\n");
    assert "\r\n"[1..] == "\n";
    hide Stamp, Lines, AllWhole, Whole;
    ShortLines(Line(e));
  }

  lemma MoreLines(lines: seq<string>, more: string)
    requires AllWhole(lines) && AllWhole(Lines(more))
    ensures Lines(Concat(lines) + more) == lines + Lines(more)
  {
    hide Lines, Concat, Whole;
    ConcatLines(more);
    ConcatJoin(lines, Lines(more));
    LinesConcat(lines + Lines(more));
  }

  /** The newlines in descriptions written since the program started. */
  ghost function Extra(run: seq<Attempt>): nat {
    if run == [] then 0
    else
      var n := |run| - 1;
      if run[n].Restart? then 0
      else Extra(run[..n]) + if run[n].ok then Newlines(run[n].entry.desc) else 0
  }

  lemma WriteMisses(s: Log, e: Entry)
    requires Storable(e) && AllWhole(Lines(s.text)) && |Lines(s.text)| >= s.count
    ensures var t := Write(s, e, true);
      && AllWhole(Lines(t.text)) && |Lines(t.text)| - t.count == |Lines(s.text)| - s.count + Newlines(e.desc)
  {
    hide Lines, Concat, Line, Whole, Storable, Newlines;
    LineBreaks(e);
    ConcatLines(s.text);
    MoreLines(if s.count < FULL then Lines(s.text) else Later(Lines(s.text)), Line(e));
  }

  /** A newline in a description makes the count fall behind the lines of the file, by one for each
      since the program started and for as long as it runs; so the count is the number of lines if and
      only if none was written. */
  lemma {:induction false} CountMisses(run: seq<Attempt>)
    requires AllStorable(run)
    ensures var s := WriteAll(run);
      AllWhole(Lines(s.text)) && |Lines(s.text)| == s.count + Extra(run)
  {
    if run != [] {
      var n := |run| - 1;
      hide Write, Lines, AllWhole, Storable;
      CountMisses(run[..n]);
      if run[n].Attempt? {
        WriteMisses(WriteAll(run[..n]), run[n].entry);
        WriteFails(WriteAll(run[..n]), run[n].entry);
      }
    }
  }

  lemma WriteFails(s: Log, e: Entry)
    requires Storable(e)
    ensures Write(s, e, false) == s
  {}

  // ----- Reading -----

  predicate IsDigit(c: char) {
    '0' <= c <= '9'
  }

  /** atoi on text without leading blanks or sign. */
  function Atoi(s: string): int {
    AtoiFrom(s, 0)
  }

  function AtoiFrom(s: string, n: int): int
    decreases |s|
  {
    if s == "" || !IsDigit(s[0]) then n else AtoiFrom(s[1..], 10 * n + (s[0] as int - '0' as int))
  }

  /** Where strsep cuts. */
  function Until(s: string, c: char): (i: nat)
    ensures i <= |s| && (i < |s| ==> s[i] == c)
    ensures forall j :: 0 <= j < i ==> s[j] != c
  {
    if s == "" || s[0] == c then 0 else 1 + Until(s[1..], c)
  }

  function After(s: string, c: char): string {
    if Until(s, c) < |s| then s[Until(s, c) + 1..] else ""
  }

  /** A line long enough for what the search takes out of it, with all the separators. */
  predicate Readable(line: string) {
    && |line| >= 21
    && var s := line[1..|line| - 2];
       var rest := After(s, ' ');
       Until(s, ' ') >= 8 && Until(s, ' ') < |s|
       && Until(rest, ':') < |rest| && Until(After(rest, ':'), ':') < |After(rest, ':')|
  }

  /** ParseTimeFromLog, given what follows the first character, without the line end. */
  function ParseTime(s: string): Time
    requires Until(s, ' ') >= 8
  {
    var rest := After(s, ' ');
    var minutes := After(rest, ':');
    Time(Atoi(s[..4]), Atoi(s[4..6]), Atoi(s[6..8]),
         Atoi(rest[..Until(rest, ':')]), Atoi(minutes[..Until(minutes, ':')]),
         Atoi(After(minutes, ':')))
  }

  predicate SameDay(a: Time, b: Time) {
    a.year == b.year && a.month == b.month && a.day == b.day
  }

  predicate TypeMatches(kind: Kind, c: char) {
    (kind == Event && c == 'e') || (kind == Sys && c == 's')
  }

  function RecordOf(line: string): Record
    requires Readable(line)
  {
    var s := line[..|line| - 2];
    var desc := s[19..];
    Record(ParseTime(s[1..]), if |desc| <= MAX_LOG_DESC_LEN then desc else desc[..MAX_LOG_DESC_LEN])
  }

  /** The search takes apart the lines of its kind only. */
  predicate ReadableFor(line: string, kind: Kind) {
    line != "" && (TypeMatches(kind, line[0]) ==> Readable(line))
  }

  predicate Matches(line: string, day: Time, kind: Kind): (m: bool)
    requires ReadableFor(line, kind)
    ensures m ==> Readable(line)
  {
    TypeMatches(kind, line[0]) && SameDay(RecordOf(line).time, day)
  }

  predicate AllReadable(lines: seq<string>, kind: Kind) {
    forall i :: 0 <= i < |lines| ==> ReadableFor(lines[i], kind)
  }

  /** What LOG_ReadLog adds to found records while it goes through these lines. */
  function ReadOn(lines: seq<string>, day: Time, kind: Kind, found: nat): seq<Record>
    requires AllReadable(lines, kind)
  {
    if lines == [] || found >= MAX_LOG_NUMBER then []
    else if Matches(lines[0], day, kind) then
      [RecordOf(lines[0])] + ReadOn(lines[1..], day, kind, found + 1)
    else ReadOn(lines[1..], day, kind, found)
  }

  // ----- A line says what was written -----

  lemma DigitBack(n: int)
    requires 0 <= n < 10
    ensures IsDigit(Digit(n)) && Digit(n) as int - '0' as int == n
  {}

  lemma AtoiTwo(n: int, rest: string, acc: int)
    requires 0 <= n < 100 && (rest == "" || !IsDigit(rest[0]))
    ensures AtoiFrom(Two(n) + rest, acc) == 100 * acc + n
  {
    DigitBack(n / 10);
    DigitBack(n % 10);
    var s := Two(n) + rest;
    var a := 10 * acc + n / 10;
    var b := 10 * a + n % 10;
    assert s[0] == Digit(n / 10) && s[1..][0] == Digit(n % 10) && s[1..][1..] == rest;
    assert AtoiFrom(rest, b) == b;
    assert AtoiFrom(s[1..], a) == AtoiFrom(rest, b);
  }

  lemma AtoiFour(n: int)
    requires 0 <= n < 10000
    ensures Atoi(Four(n)) == n
  {
    DigitBack(n / 100 / 10);
    DigitBack(n / 100 % 10);
    var s := Four(n);
    var a := n / 100 / 10;
    assert s[0] == Digit(a) && s[1..][0] == Digit(n / 100 % 10);
    assert s[1..][1..] == Two(n % 100) + "";
    AtoiTwo(n % 100, "", n / 100);
    assert AtoiFrom(s[1..], a) == AtoiFrom(s[1..][1..], n / 100);
  }

  lemma UntilIs(s: string, c: char, i: nat)
    requires i < |s| && s[i] == c && forall j :: 0 <= j < i ==> s[j] != c
    ensures Until(s, c) == i
  {}

  lemma TwoHasNo(n: int, c: char)
    requires 0 <= n < 100 && !IsDigit(c)
    ensures Two(n)[0] != c && Two(n)[1] != c
  {
    DigitBack(n / 10);
    DigitBack(n % 10);
  }

  /** The clock part, with whatever follows it. */
  lemma ClockBack(t: Time, desc: string)
    requires ValidTime(t)
    ensures var rest := Two(t.hour) + ":" + Two(t.minute) + ":" + Two(t.second) + " " + desc;
      var minutes := After(rest, ':');
      && Until(rest, ':') == 2 && Until(minutes, ':') == 2
      && Atoi(rest[..2]) == t.hour && Atoi(minutes[..2]) == t.minute
      && Atoi(After(minutes, ':')) == t.second
  {
    TwoHasNo(t.hour, ':');
    TwoHasNo(t.minute, ':');
    var seconds := Two(t.second) + (" " + desc);
    var minutes := Two(t.minute) + (":" + seconds);
    var rest := Two(t.hour) + ":" + Two(t.minute) + ":" + Two(t.second) + " " + desc;
    assert rest == Two(t.hour) + (":" + minutes);
    hide Two;
    UntilIs(rest, ':', 2);
    assert After(rest, ':') == minutes;
    UntilIs(minutes, ':', 2);
    assert After(minutes, ':') == seconds;
    assert rest[..2] == Two(t.hour) + "" && minutes[..2] == Two(t.minute) + "";
    hide Until, After;
    AtoiTwo(t.hour, "", 0);
    AtoiTwo(t.minute, "", 0);
    AtoiTwo(t.second, " " + desc, 0);
  }

  /** Parsing a written line gives back the time and the description. */
  lemma StampBack(t: Time, desc: string)
    requires ValidTime(t)
    ensures var s := Stamp(t) + " " + desc;
      && Until(s, ' ') == 8 && Until(After(s, ' '), ':') == 2
      && Until(After(After(s, ' '), ':'), ':') == 2
      && ParseTime(s) == t
  {
    var s := Stamp(t) + " " + desc;
    var rest := Two(t.hour) + ":" + Two(t.minute) + ":" + Two(t.second) + " " + desc;
    var date := Four(t.year) + Two(t.month) + Two(t.day);
    assert s == date + (" " + rest);
    TwoHasNo(t.year / 100, ' ');
    TwoHasNo(t.year % 100, ' ');
    TwoHasNo(t.month, ' ');
    TwoHasNo(t.day, ' ');
    hide Two, Stamp;
    assert forall i :: 0 <= i < 8 ==> date[i] != ' ';
    assert s[8] == ' ';
    UntilIs(s, ' ', 8);
    assert After(s, ' ') == rest;
    assert s[..4] == Four(t.year) && s[4..6] == Two(t.month) + "" && s[6..8] == Two(t.day) + "";
    hide Until, After, Four;
    AtoiFour(t.year);
    AtoiTwo(t.month, "", 0);
    AtoiTwo(t.day, "", 0);
    ClockBack(t, desc);
  }

  lemma LineShape(e: Entry)
    requires Valid(e)
    ensures var line, t := Line(e), Stamp(e.time) + " " + e.desc;
      && line[0] == (if e.kind == Event then 'e' else 's')
      && line[1..|line| - 2] == t && line[..|line| - 2][1..] == t && line[..|line| - 2][19..] == e.desc
  {
    hide Stamp;
    var t := Stamp(e.time) + " " + e.desc;
    assert Line(e) == (if e.kind == Event then "e" else "s") + t + "\r\n";
    hide Line;
  }

  lemma RecordBack(e: Entry)
    requires Valid(e)
    ensures Readable(Line(e)) && RecordOf(Line(e)) == Record(e.time, e.desc)
    ensures Line(e)[0] == if e.kind == Event then 'e' else 's'
  {
    LineShape(e);
    StampBack(e.time, e.desc);
    hide Until, After, ParseTime, Stamp, Line;
  }

  // ----- The search finds what was written -----

  /** The kind an entry is found under: everything but an event is written as a system entry. */
  function FoundAs(kind: Kind): Kind {
    if kind == Event then Event else Sys
  }

  predicate Wanted(e: Entry, day: Time, kind: Kind) {
    FoundAs(e.kind) == kind && e.time.year == day.year && e.time.month == day.month && e.time.day == day.day
  }

  /** The entries of that day and kind, in order. */
  ghost function Filtered(es: seq<Entry>, day: Time, kind: Kind): seq<Record> {
    if es == [] then []
    else
      (if Wanted(es[0], day, kind) then [Record(es[0].time, es[0].desc)] else [])
      + Filtered(es[1..], day, kind)
  }

  lemma AllBack(es: seq<Entry>, kind: Kind)
    requires AllValid(es)
    ensures AllReadable(LinesOf(es), kind)
  {
    hide Valid, Line, Readable;
    forall i | 0 <= i < |es| {
      RecordBack(es[i]);
    }
  }

  function FirstOf(rs: seq<Record>, n: int): seq<Record> {
    if n <= 0 then [] else if |rs| <= n then rs else rs[..n]
  }

  lemma WantedIsMatched(e: Entry, day: Time, kind: Kind)
    requires Valid(e)
    ensures Readable(Line(e)) && (Matches(Line(e), day, kind) <==> Wanted(e, day, kind))
  {
    RecordBack(e);
    hide Valid, Line, Readable, RecordOf;
  }

  lemma FilterStep(es: seq<Entry>, day: Time, kind: Kind)
    requires es != []
    ensures var later := Filtered(es[1..], day, kind);
      Filtered(es, day, kind)
      == if Wanted(es[0], day, kind) then [Record(es[0].time, es[0].desc)] + later else later
  {
    hide Wanted;
  }

  /** One line more in front. */
  lemma ReadMore(lines: seq<string>, es: seq<Entry>, day: Time, kind: Kind, found: nat)
    requires AllReadable(lines, kind) && lines != [] && es != [] && found < MAX_LOG_NUMBER && Readable(lines[0])
    requires RecordOf(lines[0]) == Record(es[0].time, es[0].desc)
    requires Matches(lines[0], day, kind) <==> Wanted(es[0], day, kind)
    requires var next := if Wanted(es[0], day, kind) then found + 1 else found;
      ReadOn(lines[1..], day, kind, next) == FirstOf(Filtered(es[1..], day, kind), MAX_LOG_NUMBER - next)
    ensures ReadOn(lines, day, kind, found) == FirstOf(Filtered(es, day, kind), MAX_LOG_NUMBER - found)
  {
    hide *;
    ReadStep(lines, day, kind, found);
    FilterStep(es, day, kind);
    if Wanted(es[0], day, kind) {
      FirstMore(Record(es[0].time, es[0].desc), Filtered(es[1..], day, kind), MAX_LOG_NUMBER - found);
    }
  }

  lemma ReadNoMore(lines: seq<string>, es: seq<Entry>, day: Time, kind: Kind, found: nat)
    requires AllReadable(lines, kind) && ((lines == [] && es == []) || found >= MAX_LOG_NUMBER)
    ensures ReadOn(lines, day, kind, found) == FirstOf(Filtered(es, day, kind), MAX_LOG_NUMBER - found)
  {
    hide Readable, Matches, RecordOf;
  }

  lemma {:induction false} ReadFilters(es: seq<Entry>, day: Time, kind: Kind, found: nat)
    requires AllValid(es)
    ensures AllReadable(LinesOf(es), kind)
    ensures ReadOn(LinesOf(es), day, kind, found)
         == FirstOf(Filtered(es, day, kind), MAX_LOG_NUMBER - found)
    decreases |es|
  {
    hide ReadOn, Filtered, FirstOf, Valid, Line, Readable, RecordOf, Matches, Wanted;
    AllBack(es, kind);
    if es == [] || found >= MAX_LOG_NUMBER {
      ReadNoMore(LinesOf(es), es, day, kind, found);
    } else {
      LinesOfLater(es, 1);
      RecordBack(es[0]);
      WantedIsMatched(es[0], day, kind);
      ReadFilters(es[1..], day, kind, if Wanted(es[0], day, kind) then found + 1 else found);
      ReadMore(LinesOf(es), es, day, kind, found);
    }
  }

  lemma ReadStep(lines: seq<string>, day: Time, kind: Kind, found: nat)
    requires AllReadable(lines, kind) && lines != [] && found < MAX_LOG_NUMBER
    ensures var matches := Matches(lines[0], day, kind);
      ReadOn(lines, day, kind, found)
      == if matches then [RecordOf(lines[0])] + ReadOn(lines[1..], day, kind, found + 1)
         else ReadOn(lines[1..], day, kind, found)
  {
    hide Readable, RecordOf, Matches;
  }

  lemma FirstMore(r: Record, rs: seq<Record>, n: int)
    requires n > 0
    ensures FirstOf([r] + rs, n) == [r] + FirstOf(rs, n - 1)
  {}

  /** After any number of writes the search for a day and kind gives, in order, the first ten
      thousand matching entries of those the file still holds, with the time and description
      they were written with. */
  lemma SearchFinds(run: seq<Attempt>, day: Time, kind: Kind)
    requires AllValidAttempts(run)
    ensures var s, h := WriteAll(run), Written(run);
      && 0 <= s.count <= |h| && AllReadable(Lines(s.text), kind)
      && ReadOn(Lines(s.text), day, kind, 0)
         == FirstOf(Filtered(h[|h| - s.count..], day, kind), MAX_LOG_NUMBER)
  {
    hide WriteAll, Written, Lines, LinesOf, ReadOn, Filtered, FirstOf, Valid, Readable;
    FileIsSuffix(run);
    var s, h := WriteAll(run), Written(run);
    ReadFilters(h[|h| - s.count..], day, kind, 0);
  }

  // ----- The code -----

  /** Reads lines off until a thousand are gone. */
  method SkipOldest(text: string) returns (rest: string)
    ensures Lines(rest) == Later(Lines(text))
  {
    hide Cut;
    ghost var lines := Lines(text);
    rest := text;
    var n := 0;
    while rest != ""
      invariant 0 <= n <= |lines| && n < DROP && Lines(rest) == lines[n..]
      decreases |rest|
    {
      rest := rest[Cut(rest)..];
      assert lines[n..][1..] == lines[n + 1..];
      n := n + 1;
      if n == DROP {
        break;
      }
    }
  }

  /** Copies line by line. */
  method CopyLines(text: string) returns (copy: string)
    ensures copy == Concat(Lines(text))
  {
    hide Cut, Concat;
    ghost var lines, i := Lines(text), 0;
    var rest := text;
    copy := "";
    ConcatNone();
    while rest != ""
      invariant 0 <= i <= |lines| && Lines(rest) == lines[i..] && copy == Concat(lines[..i])
      decreases |rest|
    {
      ConcatMore(lines, i);
      assert lines[i..][1..] == lines[i + 1..];
      copy := copy + rest[..Cut(rest)];
      rest := rest[Cut(rest)..];
      i := i + 1;
    }
    assert lines[..i] == lines;
  }

  class LogFile {
    var text: string
    var count: int

    function State(): Log
      reads this
    {
      Log(text, count)
    }

    /** LOG_Init: opens the file, or makes an empty one, and counts its lines. */
    constructor (found: string)
      ensures text == found && count == |Lines(found)|
    {
      text, count := found, 0;
      new;
      var rest := found;
      ghost var lines := Lines(found);
      hide Cut;
      while rest != ""
        invariant text == found && 0 <= count <= |lines| && Lines(rest) == lines[count..]
        decreases |rest|
      {
        rest := rest[Cut(rest)..];
        assert lines[count..][1..] == lines[count + 1..];
        count := count + 1;
      }
    }

    /** LOG_WriteLog, the clock read before. */
    method WriteLog(e: Entry, ok: bool) returns (result: int)
      requires Storable(e)
      modifies this
      ensures result == (if ok then 0 else -1) && State() == Write(old(State()), e, ok)
    {
      if !ok {
        return -1;
      }
      if count < FULL {
        text := text + Line(e);
        count := count + 1;
        return 0;
      }
      var rest := SkipOldest(text);
      count := count - DROP;
      var newText := CopyLines(rest);
      text := newText + Line(e);
      count := count + 1;
      return 0;
    }

    /** LOG_ReadLog on a file of written lines. */
    method ReadLog(day: Time, kind: Kind) returns (records: seq<Record>)
      requires AllReadable(Lines(text), kind)
      ensures records == ReadOn(Lines(text), day, kind, 0)
    {
      hide Cut, Readable, RecordOf, TypeMatches, SameDay;
      ghost var lines, i := Lines(text), 0;
      var rest := text;
      records := [];
      while rest != "" && |records| < MAX_LOG_NUMBER
        invariant 0 <= i <= |lines| && Lines(rest) == lines[i..]
        invariant records + ReadOn(lines[i..], day, kind, |records|) == ReadOn(lines, day, kind, 0)
        decreases |rest|
      {
        var buf := rest[..Cut(rest)];
        rest := rest[Cut(rest)..];
        assert buf == lines[i] && lines[i..][0] == buf && lines[i..][1..] == lines[i + 1..];
        if TypeMatches(kind, buf[0]) {
          var r := RecordOf(buf);
          if SameDay(r.time, day) {
            records := records + [r];
          }
        }
        i := i + 1;
      }
    }
  }
}
