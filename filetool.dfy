/** lib/file.js: the archive name of a daily rotation, the delay to the next
    local midnight, and the copy-then-truncate of the live log file. */
module FileTool {
  import opened Common
  import opened Files

  // ---------------------------------------------------------------------
  // Decimal text of numbers (`Number.prototype.toString`)

  predicate IsDigit(c: char)
  {
    '0' <= c <= '9'
  }

  predicate AllDigits(s: string)
  {
    forall i | 0 <= i < |s| :: IsDigit(s[i])
  }

  function DigitChar(d: nat): (c: char)
    requires d < 10
    ensures IsDigit(c) && c as int - '0' as int == d
  {
    ('0' as int + d) as char
  }

  /** The number a string of decimal digits denotes. */
  function DigitsValue(s: string): nat
    requires AllDigits(s)
  {
    if s == [] then 0 else DigitsValue(s[..|s| - 1]) * 10 + (s[|s| - 1] as int - '0' as int)
  }

  /** The decimal text of n: digits only, no leading zero, denoting n. */
  function NatStr(n: nat): (r: string)
    ensures |r| >= 1 && AllDigits(r) && DigitsValue(r) == n
    ensures |r| > 1 ==> r[0] != '0'
    ensures n < 10 <==> |r| == 1
  {
    if n < 10 then [DigitChar(n)]
    else
      var p := NatStr(n / 10);
      var r := p + [DigitChar(n % 10)];
      assert r[..|r| - 1] == p;
      r
  }

  /** A leading zero does not change the value of a digit string. */
  lemma {:induction false} LeadingZero(s: string)
    requires AllDigits(s)
    ensures AllDigits("0" + s) && DigitsValue("0" + s) == DigitsValue(s)
  {
    var z := "0" + s;
    if s != [] {
      LeadingZero(s[..|s| - 1]);
      assert z[..|z| - 1] == "0" + s[..|s| - 1];
    }
  }

  // ---------------------------------------------------------------------
  // getDateString (lib/file.js:6-13)

  /** A calendar date as JavaScript's Date reports it: `getMonth()` counts
      from 0, `getDate()` from 1. */
  datatype CivilDate = CivilDate(year: nat, month: nat, day: nat)

  /** Reading the misspelt property `lenght` of a string yields undefined. */
  function Lenght(s: string): Option<nat>
  {
    None
  }

  /** getDateString as written: the padding tests read `lenght`, which is
      never 1, so day and month are never padded. */
  function DateString(d: CivilDate): (r: string)
    ensures Fields(r) == [NatStr(d.day), NatStr(d.month + 1), NatStr(d.year)]
  {
    ThreeFields(NatStr(d.day), NatStr(d.month + 1), NatStr(d.year));
    var day := NatStr(d.day);
    var day' := if Lenght(day) == Some(1) then "0" + day else day;
    var month := NatStr(d.month + 1);
    var month' := if Lenght(month) == Some(1) then "0" + month else month;
    day' + "-" + month' + "-" + NatStr(d.year)
  }

  /** The evidently intended getDateString: one-digit day and month get a
      leading zero. */
  function DateStringPadded(d: CivilDate): string
  {
    var day := NatStr(d.day);
    var day' := if |day| == 1 then "0" + day else day;
    var month := NatStr(d.month + 1);
    var month' := if |month| == 1 then "0" + month else month;
    day' + "-" + month' + "-" + NatStr(d.year)
  }

  /** The pieces of s between '-' characters (String.prototype.split('-')). */
  function Fields(s: string): (r: seq<string>)
    ensures |r| >= 1
  {
    if s == [] then [""]
    else
      var rest := Fields(s[1..]);
      if s[0] == '-' then [""] + rest else [[s[0]] + rest[0]] + rest[1..]
  }

  lemma {:induction false} FieldsNoDash(a: string)
    requires forall i | 0 <= i < |a| :: a[i] != '-'
    ensures Fields(a) == [a]
  {
    if a != [] {
      FieldsNoDash(a[1..]);
      assert [a[0]] + a[1..] == a;
    }
  }

  lemma {:induction false} FieldsSplit(a: string, b: string)
    requires forall i | 0 <= i < |a| :: a[i] != '-'
    ensures Fields(a + "-" + b) == [a] + Fields(b)
  {
    var s := a + "-" + b;
    if a == [] {
      assert s[1..] == b;
    } else {
      FieldsSplit(a[1..], b);
      assert s[1..] == a[1..] + "-" + b;
      assert [a[0]] + a[1..] == a;
    }
  }

  lemma DigitsHaveNoDash(s: string)
    requires AllDigits(s)
    ensures forall i | 0 <= i < |s| :: s[i] != '-'
  {
  }

  /** The date string splits at its '-' into three digit strings. */
  lemma ThreeFields(day: string, month: string, year: string)
    requires AllDigits(day) && AllDigits(month) && AllDigits(year)
    ensures Fields(day + "-" + month + "-" + year) == [day, month, year]
  {
    DigitsHaveNoDash(day);
    DigitsHaveNoDash(month);
    DigitsHaveNoDash(year);
    FieldsNoDash(year);
    FieldsSplit(month, year);
    assert day + "-" + month + "-" + year == day + "-" + (month + "-" + year);
    FieldsSplit(day, month + "-" + year);
  }

  /** D-M-YYYY as written: three decimal fields giving back the day of the
      month, the 1-based month and the year, with no padding (a day or month
      below 10 is a single digit). */
  lemma DateStringRoundTrip(d: CivilDate)
    ensures var f := Fields(DateString(d));
      |f| == 3 && AllDigits(f[0]) && AllDigits(f[1]) && AllDigits(f[2]) &&
      DigitsValue(f[0]) == d.day && DigitsValue(f[1]) == d.month + 1 && DigitsValue(f[2]) == d.year &&
      (d.day < 10 <==> |f[0]| == 1) && (d.month + 1 < 10 <==> |f[1]| == 1)
  {
    ThreeFields(NatStr(d.day), NatStr(d.month + 1), NatStr(d.year));
  }

  /** Pad to at least two digits without changing the value. */
  function Pad2(s: string): (r: string)
    requires AllDigits(s) && |s| >= 1
    ensures AllDigits(r) && DigitsValue(r) == DigitsValue(s) && |r| >= 2
    ensures |s| >= 2 ==> r == s
  {
    if |s| == 1 then LeadingZero(s); "0" + s else s
  }

  lemma NatStrBelowHundred(n: nat)
    requires n < 100
    ensures |NatStr(n)| <= 2
  {
    if n >= 10 {
      assert NatStr(n) == NatStr(n / 10) + [DigitChar(n % 10)];
    }
  }

  /** DD-MM-YYYY as intended: the same three values, the day and month
      always written with two digits. */
  lemma DateStringPaddedRoundTrip(d: CivilDate)
    requires d.day < 100 && d.month + 1 < 100
    ensures var f := Fields(DateStringPadded(d));
      |f| == 3 && AllDigits(f[0]) && AllDigits(f[1]) && AllDigits(f[2]) &&
      DigitsValue(f[0]) == d.day && DigitsValue(f[1]) == d.month + 1 && DigitsValue(f[2]) == d.year &&
      |f[0]| == 2 && |f[1]| == 2
  {
    var day, month := NatStr(d.day), NatStr(d.month + 1);
    NatStrBelowHundred(d.day);
    NatStrBelowHundred(d.month + 1);
    assert DateStringPadded(d) == Pad2(day) + "-" + Pad2(month) + "-" + NatStr(d.year);
    ThreeFields(Pad2(day), Pad2(month), NatStr(d.year));
  }

  lemma NatStrExamples()
    ensures NatStr(2) == "2" && NatStr(3) == "3" && NatStr(2024) == "2024"
  {
    assert NatStr(20) == NatStr(2) + "0";
    assert NatStr(202) == NatStr(20) + "2";
    assert NatStr(2024) == NatStr(202) + "4";
  }

  /** 3 March 2024: the code writes 3-3-2024 where 03-03-2024 is meant.
      The date is a parameter fixed by the precondition rather than a literal
      in the body, which keeps the proof from unfolding the functions on
      constants and so keeps it cheap. */
  lemma DateStringThirdOfMarch(d: CivilDate)
    requires d == CivilDate(2024, 2, 3)
    ensures DateString(d) == "3-3-2024"
    ensures DateStringPadded(d) == "03-03-2024"
  {
    NatStrExamples();
  }

  // ---------------------------------------------------------------------
  // The rotated name (lib/file.js:43-45)

  /** String.prototype.lastIndexOf for one character; -1 when absent. */
  function LastIndexOf(s: string, c: char): (r: int)
    ensures -1 <= r < |s|
    ensures r >= 0 ==> s[r] == c && forall i | r < i < |s| :: s[i] != c
    ensures r == -1 ==> forall i | 0 <= i < |s| :: s[i] != c
  {
    if s == [] then -1
    else if s[|s| - 1] == c then |s| - 1
    else LastIndexOf(s[..|s| - 1], c)
  }

  function Clamp(i: int, len: nat): nat
  {
    if i < 0 then 0 else if i > len then len else i
  }

  /** String.prototype.substring: indices are clamped to the string, then
      swapped if out of order. */
  function Substring(s: string, start: int, end: int): string
  {
    var a, b := Clamp(start, |s|), Clamp(end, |s|);
    if a <= b then s[a..b] else s[b..a]
  }

  /** The archive path: the part before the last '.', then '_' and the date
      stamp, then the rest from that '.' on. */
  /** With a '.', the stamp goes in front of the last one; without, the
      prefix is empty and the whole name follows the stamp. */
  function RotatedPath(filename: string, stamp: string): (r: string)
    ensures var k := LastIndexOf(filename, '.');
      var j := if k < 0 then 0 else k;
      r == filename[..j] + ("_" + stamp) + filename[j..]
  {
    var extIndex := LastIndexOf(filename, '.');
    var j := if extIndex < 0 then 0 else extIndex;
    assert Substring(filename, 0, extIndex) == filename[..j];
    assert Substring(filename, extIndex, |filename|) == filename[j..];
    Substring(filename, 0, extIndex) + ("_" + stamp) + Substring(filename, extIndex, |filename|)
  }

  /** Cutting "_" + stamp back out of a name it was inserted into at `k`. */
  lemma CutStamp(filename: string, stamp: string, k: nat, r: string)
    requires k <= |filename| && r == filename[..k] + ("_" + stamp) + filename[k..]
    requires forall i | k < i < |filename| :: filename[i] != '.'
    ensures |r| == |filename| + 1 + |stamp|
    ensures r[k..k + 1 + |stamp|] == "_" + stamp
    ensures r[..k] + r[k + 1 + |stamp|..] == filename
    ensures forall i | k + 2 + |stamp| <= i < |r| :: r[i] != '.'
  {
    assert r[..k] == filename[..k];
    assert r[k..k + 1 + |stamp|] == "_" + stamp;
    assert r[k + 1 + |stamp|..] == filename[k..];
    assert filename[..k] + filename[k..] == filename;
    forall i | k + 2 + |stamp| <= i < |r|
      ensures r[i] != '.'
    {
      assert r[i] == filename[i - 1 - |stamp|];
    }
  }

  /** Removing the inserted "_" + stamp gives back the original name, and
      the part after it is '.'-free except for its first character. */
  lemma RotatedPathRoundTrip(filename: string, stamp: string)
    ensures var k := if LastIndexOf(filename, '.') < 0 then 0 else LastIndexOf(filename, '.');
      var r := RotatedPath(filename, stamp);
      |r| == |filename| + 1 + |stamp| &&
      r[k..k + 1 + |stamp|] == "_" + stamp &&
      r[..k] + r[k + 1 + |stamp|..] == filename &&
      forall i | k + 2 + |stamp| <= i < |r| :: r[i] != '.'
  {
    var last := LastIndexOf(filename, '.');
    var k := if last < 0 then 0 else last;
    CutStamp(filename, stamp, k, RotatedPath(filename, stamp));
  }

  /** /var/log/app.log rotated on 3 March 2024, as written and as intended.
      (Name and date are parameters fixed by the precondition, for a cheaper
      proof.) */
  lemma RotatedPathExample(f: string, d: CivilDate)
    requires f == "/var/log/app.log" && d == CivilDate(2024, 2, 3)
    ensures RotatedPath(f, DateString(d)) == "/var/log/app" + "_" + "3-3-2024" + ".log"
    ensures RotatedPath(f, DateStringPadded(d)) == "/var/log/app" + "_" + "03-03-2024" + ".log"
  {
    DateStringThirdOfMarch(d);
    AppLogRotated(f, "3-3-2024");
    AppLogRotated(f, "03-03-2024");
  }

  /** The name /var/log/app.log has its last '.' at index 12. (The name is a
      parameter fixed by the precondition, for a cheaper proof.) */
  lemma AppLogRotated(f: string, stamp: string)
    requires f == "/var/log/app.log"
    ensures RotatedPath(f, stamp) == "/var/log/app" + "_" + stamp + ".log"
  {
    assert LastIndexOf(f, '.') == 12 by {
      assert f[12] == '.';
      assert forall i | 12 < i < |f| :: f[i] != '.';
    }
    assert f[..12] == "/var/log/app" && f[12..] == ".log";
    assert "/var/log/app" + ("_" + stamp) + ".log" == "/var/log/app" + "_" + stamp + ".log";
  }

  // ---------------------------------------------------------------------
  // The delay to the next local midnight (lib/file.js:38-41)

  const DayMs: nat := 24 * 60 * 60 * 1000

  predicate IsMidnight(localMs: int)
  {
    localMs % DayMs == 0
  }

  /** No multiple of a day lies strictly between two consecutive ones. */
  lemma NoMidnightBetween(q: int, t: int)
    requires q * DayMs < t < (q + 1) * DayMs
    ensures !IsMidnight(t)
  {
    var p, rem := t / DayMs, t % DayMs;
    assert (p - q) * DayMs == t - q * DayMs - rem;
    assert p == q;
    assert rem == t - q * DayMs;
  }

  /** `tomorrow` minus `current`, with local time counted in milliseconds
      from a local midnight (daylight-saving changes are not modelled): the
      delay is positive, at most a day, lands on a midnight and skips none. */
  function Delay(localMs: int): (r: int)
    ensures 0 < r <= DayMs
    ensures IsMidnight(localMs + r)
    ensures forall t | localMs < t < localMs + r :: !IsMidnight(t)
  {
    var q := localMs / DayMs;
    var tomorrow := (q + 1) * DayMs;
    assert localMs == q * DayMs + localMs % DayMs;
    assert tomorrow % DayMs == 0 by {
      assert tomorrow == (q + 1) * DayMs + 0;
    }
    forall t | localMs < t < tomorrow
      ensures !IsMidnight(t)
    {
      NoMidnightBetween(q, t);
    }
    tomorrow - localMs
  }

  /** A timer that fires on time at midnight schedules the next one exactly
      a day later. */
  lemma DelayAtMidnight(localMs: int)
    requires IsMidnight(localMs)
    ensures Delay(localMs) == DayMs
  {
    var q := localMs / DayMs;
    assert localMs == q * DayMs;
  }

  // ---------------------------------------------------------------------
  // copyAndClearFile (lib/file.js:15-35)

  const BufLength: nat := 64 * 1024

  /** One readSync call: the offset asked for and the count returned. */
  datatype ReadCall = ReadCall(offset: nat, count: nat)

  /** The reads the copy loop makes on a file of `len` bytes from `pos`:
      chunks of at most BufLength, the last one returning 0. */
  function ReadPlan(len: nat, pos: nat): (p: seq<ReadCall>)
    requires pos <= len
    ensures |p| >= 1 && p[0] == ReadCall(pos, Min(BufLength, len - pos))
    decreases len - pos
  {
    var n := Min(BufLength, len - pos);
    [ReadCall(pos, n)] + (if n == 0 then [] else ReadPlan(len, pos + n))
  }

  /** One read of the plan: a read returning n > 0 bytes is followed by the
      plan from pos + n; a read returning 0 is the last, at the end of file. */
  lemma ReadPlanStep(len: nat, pos: nat, done: seq<ReadCall>, n: nat)
    requires pos <= len && n == Min(BufLength, len - pos)
    ensures n > 0 ==> done + ReadPlan(len, pos) == (done + [ReadCall(pos, n)]) + ReadPlan(len, pos + n)
    ensures n == 0 ==> pos == len && done + ReadPlan(len, pos) == done + [ReadCall(pos, n)]
  {
    var first := [ReadCall(pos, n)];
    if n > 0 {
      assert ReadPlan(len, pos) == first + ReadPlan(len, pos + n);
      AppendAssoc(done, first, ReadPlan(len, pos + n));
    } else {
      assert ReadPlan(len, pos) == first + [];
      assert first + [] == first;
    }
  }

  /** The plan starts at pos and ends with the empty read at the end of
      the file. */
  lemma {:induction false} ReadPlanEnds(len: nat, pos: nat)
    requires pos <= len
    ensures var p := ReadPlan(len, pos);
      |p| >= 1 && p[0].offset == pos && p[|p| - 1] == ReadCall(len, 0)
    decreases len - pos
  {
    var n := Min(BufLength, len - pos);
    var p := ReadPlan(len, pos);
    if n == 0 {
      assert p == [ReadCall(pos, 0)] + [];
      assert pos == len;
    } else {
      var rest := ReadPlan(len, pos + n);
      ReadPlanEnds(len, pos + n);
      assert p == [ReadCall(pos, n)] + rest;
      assert p[|p| - 1] == rest[|rest| - 1];
    }
  }

  /** Reads after the first one are the reads of the plan that starts where
      the first one stopped. */
  lemma ReadPlanTail(len: nat, pos: nat, i: nat)
    requires pos <= len && 0 < i < |ReadPlan(len, pos)|
    ensures var n := Min(BufLength, len - pos);
      0 < n && ReadPlan(len, pos)[0] == ReadCall(pos, n) &&
      ReadPlan(len, pos)[i] == ReadPlan(len, pos + n)[i - 1]
  {
    var n := Min(BufLength, len - pos);
    if n > 0 {
      assert ReadPlan(len, pos) == [ReadCall(pos, n)] + ReadPlan(len, pos + n);
    }
  }

  /** No read asks for more than the buffer holds. */
  lemma {:induction false} ReadPlanBounded(len: nat, pos: nat)
    requires pos <= len
    ensures var p := ReadPlan(len, pos);
      forall i | 0 <= i < |p| :: p[i].count <= BufLength
    decreases len - pos
  {
    var n := Min(BufLength, len - pos);
    var p := ReadPlan(len, pos);
    forall i | 0 <= i < |p|
      ensures p[i].count <= BufLength
    {
      if i == 0 {
        assert p == [ReadCall(pos, n)] + (if n == 0 then [] else ReadPlan(len, pos + n));
      } else {
        ReadPlanTail(len, pos, i);
        ReadPlanBounded(len, pos + n);
      }
    }
  }

  /** Every read but the last returns bytes, and the next read starts where
      it stopped. */
  lemma {:induction false} ReadPlanContiguous(len: nat, pos: nat)
    requires pos <= len
    ensures var p := ReadPlan(len, pos);
      forall i | 0 <= i < |p| - 1 :: 0 < p[i].count && p[i + 1].offset == p[i].offset + p[i].count
    decreases len - pos
  {
    var n := Min(BufLength, len - pos);
    var p := ReadPlan(len, pos);
    forall i | 0 <= i < |p| - 1
      ensures 0 < p[i].count && p[i + 1].offset == p[i].offset + p[i].count
    {
      ReadPlanTail(len, pos, i + 1);
      var rest := ReadPlan(len, pos + n);
      if i > 0 {
        ReadPlanTail(len, pos, i);
        ReadPlanContiguous(len, pos + n);
        assert rest[i - 1 + 1].offset == rest[i - 1].offset + rest[i - 1].count;
      }
    }
  }

  /** A file of len bytes takes ceil(len / BufLength) reads plus the final
      empty one. */
  lemma {:induction false} ReadPlanLength(len: nat, pos: nat)
    requires pos <= len
    ensures |ReadPlan(len, pos)| == (len - pos + BufLength - 1) / BufLength + 1
    decreases len - pos
  {
    var n := Min(BufLength, len - pos);
    if n > 0 {
      ReadPlanLength(len, pos + n);
      if len - pos >= BufLength {
        assert (len - pos + BufLength - 1) / BufLength == (len - (pos + n) + BufLength - 1) / BufLength + 1;
      }
    }
  }

  /** Failures of the file operations whose results the code looks at. */
  datatype Faults = Faults(
    openRead: Option<Error>, openWrite: Option<Error>,
    truncate: Option<Error>, closeRead: Option<Error>, closeWrite: Option<Error>)

  /** What copyAndClearFile returns: null, the list of errors, or the error
      of a failed open. */
  datatype CopyResult = Null | Errs(errs: seq<Error>) | Failed(err: Error)

  /** The error of one step, as a list of zero or one entry. */
  function Present(o: Option<Error>): seq<Error>
  {
    if o.Some? then [o.value] else []
  }

  /** The errors pushed into `errs`, in the order truncate, close of the
      source, close of the destination. */
  function ErrorList(f: Faults): seq<Error>
  {
    Present(f.truncate) + Present(f.closeRead) + Present(f.closeWrite)
  }

  /** The result once both files were opened (lib/file.js:30-34). */
  function Outcome(f: Faults): CopyResult
  {
    var errs := ErrorList(f);
    if |errs| > 0 then Errs(errs) else Null
  }

  /** Both opens succeed. */
  predicate Opened(files: map<string, seq<byte>>, src: string, f: Faults)
  {
    src in files && f.openRead.None? && f.openWrite.None?
  }

  /** What the destination holds after the copy: the source's bytes, or
      nothing when source and destination are the same file (opening it for
      writing has emptied it). */
  function CopiedContent(files: map<string, seq<byte>>, src: string, dest: string): seq<byte>
    requires src in files
  {
    if src == dest then [] else files[src]
  }

  /** Reference definition of copyAndClearFile: the result and the new
      contents of the file system. */
  function CopySpec(files: map<string, seq<byte>>, src: string, dest: string, f: Faults)
    : (r: (CopyResult, map<string, seq<byte>>))
    ensures !Opened(files, src, f) ==> r.0.Failed? && r.1 == files
    ensures Opened(files, src, f) ==> r.0 == Outcome(f) && r.1.Keys == files.Keys + {dest}
  {
    if src !in files then (Failed(ENOENT), files)
    else if f.openRead.Some? then (Failed(f.openRead.value), files)
    else if f.openWrite.Some? then (Failed(f.openWrite.value), files)
    else
      var copied := files[dest := CopiedContent(files, src, dest)];
      (Outcome(f), if f.truncate.None? then copied[src := []] else copied)
  }

  /** After a copy between two different files the destination holds the
      source's bytes, the source is empty exactly when truncate succeeded,
      and no other file changes. */
  lemma CopyKeepsBytes(files: map<string, seq<byte>>, src: string, dest: string, f: Faults)
    requires Opened(files, src, f) && src != dest
    ensures var after := CopySpec(files, src, dest, f).1;
      after.Keys == files.Keys + {dest} &&
      after[dest] == files[src] &&
      after[src] == (if f.truncate.None? then [] else files[src]) &&
      forall p | p in files && p != src && p != dest :: after[p] == files[p]
  {
  }

  /** A failed open returns that error and leaves every file as it was. */
  lemma OpenFailureChangesNothing(files: map<string, seq<byte>>, src: string, dest: string, f: Faults)
    requires !Opened(files, src, f)
    ensures CopySpec(files, src, dest, f).1 == files
    ensures CopySpec(files, src, dest, f).0 ==
      Failed(if src !in files then ENOENT else if f.openRead.Some? then f.openRead.value else f.openWrite.value)
  {
  }

  /** The result is null exactly when both opens, truncate and both closes
      succeed; otherwise the errors come in the order truncate, close of the
      source, close of the destination. */
  lemma NullIffAllSucceed(files: map<string, seq<byte>>, src: string, dest: string, f: Faults)
    ensures var r := CopySpec(files, src, dest, f).0;
      (r == Null <==> Opened(files, src, f) && f.truncate.None? && f.closeRead.None? && f.closeWrite.None?) &&
      (r.Errs? ==> Opened(files, src, f) && r.errs == ErrorList(f) && 1 <= |r.errs| <= 3) &&
      (r.Errs? && f.truncate.Some? ==> r.errs[0] == f.truncate.value) &&
      (r.Errs? && f.closeWrite.Some? ==> r.errs[|r.errs| - 1] == f.closeWrite.value)
  {
  }

  /** Rotating a file onto itself loses its contents. */
  lemma SameFileLosesContent(files: map<string, seq<byte>>, src: string, f: Faults)
    requires Opened(files, src, f)
    ensures CopySpec(files, src, src, f).1 == files[src := []]
  {
  }

  /** The copy loop of copyAndClearFile (lib/file.js:24-29): read a chunk at
      `pos`, write it to the destination, advance, until a read returns 0.
      The destination has just been opened for writing, so it is empty (and
      so is the source, if it is the same file). */
  method CopyChunks(fs: FileSystem, src: string, dest: string, buff: array<byte>)
    returns (ghost readCalls: seq<ReadCall>)
    requires src in fs.files && dest in fs.files && fs.files[dest] == [] && buff.Length == BufLength
    modifies fs`files, buff
    ensures fs.files == old(fs.files)[dest := old(fs.files[src])]
    ensures readCalls == ReadPlan(|old(fs.files[src])|, 0)
  {
    ghost var start := fs.files;
    ghost var content := fs.files[src];
    readCalls := [];
    var bytesRead: nat, pos: nat := 1, 0;
    while bytesRead > 0
      invariant pos <= |content| && (src == dest ==> content == [])
      invariant fs.files == start[dest := content[..pos]]
      invariant bytesRead > 0 ==> readCalls + ReadPlan(|content|, pos) == ReadPlan(|content|, 0)
      invariant bytesRead == 0 ==> pos == |content| && readCalls == ReadPlan(|content|, 0)
      decreases |content| - pos + bytesRead
    {
      assert fs.files[src] == content;
      bytesRead := CopyStep(fs, src, dest, buff, pos);
      SliceJoin(content, pos, pos + bytesRead);
      UpdateTwice(start, dest, content[..pos], content[..pos + bytesRead]);
      ReadPlanStep(|content|, pos, readCalls, bytesRead);
      readCalls := readCalls + [ReadCall(pos, bytesRead)];
      pos := pos + bytesRead;
    }
    assert content[..pos] == content;
  }

  /** One turn of the copy loop (lib/file.js:26-27): read up to BufLength
      bytes of the source at `pos` and append them to the destination. */
  method CopyStep(fs: FileSystem, src: string, dest: string, buff: array<byte>, pos: nat)
    returns (n: nat)
    requires src in fs.files && dest in fs.files && buff.Length == BufLength
    requires pos <= |fs.files[src]|
    modifies fs`files, buff
    ensures n == Min(BufLength, |old(fs.files[src])| - pos)
    ensures fs.files == old(fs.files)[dest := old(fs.files[dest]) + old(fs.files[src])[pos..pos + n]]
  {
    n := fs.ReadAt(src, buff, BufLength, pos);
    assert buff[..n] == fs.files[src][pos..pos + n];
    fs.WriteNext(dest, buff, n);
  }

  /** copyAndClearFile(srcFile, destFile): copies in BufLength chunks at
      explicit offsets, truncates the source, closes both descriptors and
      collects the errors; `readCalls` lists the readSync calls it makes. */
  method CopyAndClearFile(fs: FileSystem, src: string, dest: string, faults: Faults)
    returns (r: CopyResult, ghost readCalls: seq<ReadCall>)
    modifies fs`files, fs`handles
    ensures (r, fs.files) == CopySpec(old(fs.files), src, dest, faults)
    ensures fs.handles == old(fs.handles)
    ensures readCalls == if Opened(old(fs.files), src, faults)
      then ReadPlan(|CopiedContent(old(fs.files), src, dest)|, 0) else []
  {
    var err := fs.OpenRead(src, faults.openRead);
    if err.Some? {
      return Failed(err.value), [];
    }
    r, readCalls := CopyToDest(fs, src, dest, faults);
    AddThenRemove(old(fs.handles), src, dest);
  }

  /** copyAndClearFile once the source is open (lib/file.js:19-34): open the
      destination, closing the source if that fails; otherwise copy, then
      truncate and close. Both descriptors end up released. */
  method CopyToDest(fs: FileSystem, src: string, dest: string, faults: Faults)
    returns (r: CopyResult, ghost readCalls: seq<ReadCall>)
    requires src in fs.files && faults.openRead.None?
    modifies fs`files, fs`handles
    ensures (r, fs.files) == CopySpec(old(fs.files), src, dest, faults)
    ensures fs.handles == old(fs.handles) - multiset{src}
    ensures readCalls == if faults.openWrite.None?
      then ReadPlan(|CopiedContent(old(fs.files), src, dest)|, 0) else []
  {
    ghost var files0, handles0 := fs.files, fs.handles;
    AddThenRemove(handles0, src, dest);
    var err := fs.OpenWrite(dest, faults.openWrite);
    if err.Some? {
      var _ := fs.Close(src, faults.closeRead);
      return Failed(err.value), [];
    }
    ghost var content := CopiedContent(files0, src, dest);
    ghost var copied := files0[dest := content];
    assert fs.files[src] == content;
    UpdateTwice(files0, dest, [], content);
    r, readCalls := CopyThenClear(fs, src, dest, faults);
    assert CopySpec(files0, src, dest, faults) ==
      (Outcome(faults), if faults.truncate.None? then copied[src := []] else copied);
  }

  /** copyAndClearFile once both files are open (lib/file.js:24-34): the
      destination, just emptied, receives the source's bytes; then the
      source is truncated and both descriptors are closed. */
  method CopyThenClear(fs: FileSystem, src: string, dest: string, faults: Faults)
    returns (r: CopyResult, ghost readCalls: seq<ReadCall>)
    requires src in fs.files && dest in fs.files && fs.files[dest] == []
    modifies fs`files, fs`handles
    ensures r == Outcome(faults)
    ensures var copied := old(fs.files)[dest := old(fs.files[src])];
      fs.files == if faults.truncate.None? then copied[src := []] else copied
    ensures fs.handles == old(fs.handles) - multiset{src} - multiset{dest}
    ensures readCalls == ReadPlan(|old(fs.files[src])|, 0)
  {
    var buff := new byte[BufLength];
    readCalls := CopyChunks(fs, src, dest, buff);
    r := ClearAndClose(fs, src, dest, faults);
  }

  /** The end of copyAndClearFile (lib/file.js:30-34): truncate the source,
      close both descriptors, and collect each error in that order. */
  method ClearAndClose(fs: FileSystem, src: string, dest: string, faults: Faults) returns (r: CopyResult)
    requires src in fs.files
    modifies fs`files, fs`handles
    ensures r == Outcome(faults)
    ensures fs.files == if faults.truncate.None? then old(fs.files)[src := []] else old(fs.files)
    ensures fs.handles == old(fs.handles) - multiset{src} - multiset{dest}
  {
    var errs: seq<Error> := [];
    var err := fs.Truncate(src, faults.truncate);
    if err.Some? {
      errs := errs + [err.value];
    }
    assert errs == Present(faults.truncate);
    err := fs.Close(src, faults.closeRead);
    if err.Some? {
      errs := errs + [err.value];
    }
    assert errs == Present(faults.truncate) + Present(faults.closeRead);
    err := fs.Close(dest, faults.closeWrite);
    if err.Some? {
      errs := errs + [err.value];
    }
    assert errs == ErrorList(faults);
    r := if |errs| > 0 then Errs(errs) else Null;
  }

  // ---------------------------------------------------------------------
  // dailyRotate (lib/file.js:37-49), one firing at a time

  /** The clock reading `new Date()` gives: local time in milliseconds and
      the calendar date it falls on (the calendar arithmetic is an input). */
  datatype Clock = Clock(localMs: int, date: CivilDate)

  /** A pending rotation: the file, when the timer fires (local time) and
      the date captured when it was scheduled. */
  datatype Timer = Timer(filename: string, fireAt: int, date: CivilDate)

  /** dailyRotate(filename): schedule the next rotation for the coming local
      midnight, remembering the current date for the archive name. */
  function DailyRotate(filename: string, now: Clock): (t: Timer)
    ensures t.filename == filename && t.date == now.date
    ensures now.localMs < t.fireAt <= now.localMs + DayMs && IsMidnight(t.fireAt)
    ensures forall m | now.localMs < m < t.fireAt :: !IsMidnight(m)
  {
    Timer(filename, now.localMs + Delay(now.localMs), now.date)
  }

  /** The archive a timer writes to, named after its scheduling date (with
      the corrected, zero-padded date string). */
  function ArchivePath(t: Timer): (r: string)
    ensures var stamp := DateStringPadded(t.date);
      var k := if LastIndexOf(t.filename, '.') < 0 then 0 else LastIndexOf(t.filename, '.');
      |r| == |t.filename| + 1 + |stamp| &&
      r[k..k + 1 + |stamp|] == "_" + stamp && r[..k] + r[k + 1 + |stamp|..] == t.filename
  {
    RotatedPathRoundTrip(t.filename, DateStringPadded(t.date));
    RotatedPath(t.filename, DateStringPadded(t.date))
  }

  /** The timer callback: copy and clear the file into its archive, report
      any error, and schedule the next rotation whatever happened. */
  method Fire(fs: FileSystem, t: Timer, now: Clock, faults: Faults)
    returns (next: Timer, reported: Option<CopyResult>)
    modifies fs`files, fs`handles
    ensures next == DailyRotate(t.filename, now)
    ensures var (r, after) := CopySpec(old(fs.files), t.filename, ArchivePath(t), faults);
      fs.files == after && reported == (if r.Null? then None else Some(r))
    ensures fs.handles == old(fs.handles)
  {
    var err, _ := CopyAndClearFile(fs, t.filename, ArchivePath(t), faults);
    reported := if err.Null? then None else Some(err);
    next := DailyRotate(t.filename, now);
  }

  /** A rotation that fires on time schedules the next rotation for the
      following midnight, named after the date of the firing. */
  lemma OnTimeRotationIsDaily(t: Timer, d: CivilDate)
    requires IsMidnight(t.fireAt)
    ensures DailyRotate(t.filename, Clock(t.fireAt, d)) == Timer(t.filename, t.fireAt + DayMs, d)
  {
    DelayAtMidnight(t.fireAt);
  }
}
