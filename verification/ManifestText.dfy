/** The manifest's text form and the names of run files. */
module ManifestText {
  import opened Bytes

  const HEADER := "LSMDB-MANIFEST v1"
  const NEXT_SEQ := "next_seq="

  // ------------------------------------------------------------------ decimals

  predicate IsDigit(c: char) { '0' <= c <= '9' }

  predicate AllDigits(s: string) { forall i :: 0 <= i < |s| ==> IsDigit(s[i]) }

  function Digit(d: nat): (c: char)
    requires d < 10
    ensures IsDigit(c) && c as int - '0' as int == d
  {
    ('0' as int + d) as char
  }

  /** Base-10 text without leading zeros. */
  function Decimal(n: nat): (s: string)
    ensures s != "" && AllDigits(s)
  {
    if n < 10 then [Digit(n)] else Decimal(n / 10) + [Digit(n % 10)]
  }

  function NumberOf(s: string): nat
    requires AllDigits(s)
  {
    if s == "" then 0 else 10 * NumberOf(s[..|s| - 1]) + (s[|s| - 1] as int - '0' as int)
  }

  /** `str::parse::<u64>`: an optional plus sign, at least one digit, no overflow. */
  function ParseU64(s: string): Option<nat> {
    var body := if s != "" && s[0] == '+' then s[1..] else s;
    if body != "" && AllDigits(body) && NumberOf(body) < U64 then Some(NumberOf(body)) else None
  }

  function Pow10(n: nat): (p: nat)
    ensures p > 0
  {
    if n == 0 then 1 else 10 * Pow10(n - 1)
  }

  /** Place value: the character `i` places from the right is digit `i` of the number. */
  lemma {:induction false} DigitOfNumber(s: string, i: nat)
    requires AllDigits(s) && i < |s|
    ensures s[|s| - 1 - i] as int - '0' as int == (NumberOf(s) / Pow10(i)) % 10
  {
    var n := |s| - 1;
    var rest, last := NumberOf(s[..n]), s[n] as int - '0' as int;
    assert (10 * rest + last) / 10 == rest && (10 * rest + last) % 10 == last;
    if i > 0 {
      DigitOfNumber(s[..n], i - 1);
      DivideTwice(NumberOf(s), 10, Pow10(i - 1));
    }
  }

  /** What the number parser takes for `n`: an optional plus sign and digits, at least
      one, of a number below 2^64. */
  ghost predicate IsNumber(s: string, n: nat) {
    n < 0x1_0000_0000_0000_0000 &&
    exists digits: string ::
      (s == digits || s == "+" + digits) && digits != "" && AllDigits(digits) && NumberOf(digits) == n
  }

  lemma ParsesExactly(s: string, n: nat)
    ensures ParseU64(s) == Some(n) <==> IsNumber(s, n)
  {
    hide NumberOf;
    var body := if s != "" && s[0] == '+' then s[1..] else s;
    if ParseU64(s) == Some(n) {
      if s[0] == '+' { assert s == "+" + body; }
      assert IsNumber(s, n);
    }
    if IsNumber(s, n) {
      var digits: string :| (s == digits || s == "+" + digits) && digits != "" && AllDigits(digits) && NumberOf(digits) == n;
      assert IsDigit(digits[0]);
      assert body == digits;
    }
  }

  function Zeros(n: nat): (s: string)
    ensures |s| == n && AllDigits(s) && forall i :: 0 <= i < n ==> s[i] == '0'
  {
    seq(n, _ => '0')
  }

  /** Left-pad with zeros to at least `width` characters. */
  function Padded(s: string, width: nat): string {
    if |s| >= width then s else Zeros(width - |s|) + s
  }

  lemma {:induction false} NumberOfDecimal(n: nat)
    ensures NumberOf(Decimal(n)) == n
  {
    if n >= 10 {
      NumberOfDecimal(n / 10);
      assert Decimal(n)[..|Decimal(n)| - 1] == Decimal(n / 10);
    }
  }

  lemma {:induction false} NumberOfPadded(z: nat, s: string)
    requires AllDigits(s)
    ensures AllDigits(Zeros(z) + s) && NumberOf(Zeros(z) + s) == NumberOf(s)
  {
    var t := Zeros(z) + s;
    if s == "" {
      assert t == Zeros(z);
      NumberOfZeros(z);
    } else {
      NumberOfPadded(z, s[..|s| - 1]);
      assert t[..|t| - 1] == Zeros(z) + s[..|s| - 1];
    }
  }

  lemma {:induction false} NumberOfZeros(z: nat)
    ensures NumberOf(Zeros(z)) == 0
  {
    if z > 0 {
      NumberOfZeros(z - 1);
      assert Zeros(z)[..z - 1] == Zeros(z - 1);
    }
  }

  /** Parsing inverts printing, padded or not, for every 64-bit number and no other. */
  lemma ParsePrinted(n: nat, width: nat)
    ensures ParseU64(Padded(Decimal(n), width)) == if n < U64 then Some(n) else None
  {
    NumberOfDecimal(n);
    var d := Decimal(n);
    var s := Padded(d, width);
    if |d| < width { NumberOfPadded(width - |d|, d); }
    assert AllDigits(s) && NumberOf(s) == n;
    assert IsDigit(s[0]);
  }

  // ---------------------------------------------------------------- file names

  function RunFilename(n: nat): string {
    "run-" + Padded(Decimal(n), 10) + ".sst"
  }

  function StripPrefix(s: string, prefix: string): Option<string> {
    if prefix <= s then Some(s[|prefix|..]) else None
  }

  function StripSuffix(s: string, suffix: string): Option<string> {
    if |s| >= |suffix| && s[|s| - |suffix|..] == suffix then Some(s[..|s| - |suffix|]) else None
  }

  function SeqOf(name: string): Option<nat> {
    var rest := StripPrefix(name, "run-");
    if rest.None? then None
    else
      var digits := StripSuffix(rest.value, ".sst");
      if digits.None? then None else ParseU64(digits.value)
  }

  /** The name is that of run `n`: a prefix, a number and a suffix. */
  ghost predicate NamesRun(name: string, n: nat) {
    |name| >= 8 && name[..4] == "run-" && name[|name| - 4..] == ".sst" && IsNumber(name[4..|name| - 4], n)
  }

  lemma SeqOfExactly(name: string, n: nat)
    ensures SeqOf(name) == Some(n) <==> NamesRun(name, n)
  {
    hide ParseU64, IsNumber;
    if "run-" <= name {
      var rest := name[4..];
      assert name[..4] == "run-";
      if |rest| >= 4 {
        assert rest[|rest| - 4..] == name[|name| - 4..] && rest[..|rest| - 4] == name[4..|name| - 4];
        ParsesExactly(name[4..|name| - 4], n);
      }
    }
  }

  /** A run's name gives its number back, for every 64-bit number. */
  lemma SeqOfFilename(n: nat)
    requires n < U64
    ensures SeqOf(RunFilename(n)) == Some(n)
  {
    var digits := Padded(Decimal(n), 10);
    var rest := digits + ".sst";
    assert RunFilename(n) == "run-" + rest;
    assert RunFilename(n)[4..] == rest;
    assert rest[|rest| - 4..] == ".sst" && rest[..|rest| - 4] == digits;
    ParsePrinted(n, 10);
  }

  /** So different runs have different names, and no run is named like the
      manifest, the log, a sidecar or a temporary. */
  lemma FilenamesDistinct(n: nat, m: nat)
    requires n < U64 && m < U64
    ensures RunFilename(n) == RunFilename(m) ==> n == m
    ensures RunFilename(n) != "MANIFEST" && RunFilename(n) != "wal.log"
    ensures StripSuffix(RunFilename(n), ".tmp").None? && StripSuffix(RunFilename(n), ".bloom").None?
  {
    SeqOfFilename(n); SeqOfFilename(m);
    var s := RunFilename(n);
    assert s[|s| - 1] == 't' && s[0] == 'r';
    SuffixLast(s, ".tmp"); SuffixLast(s, ".bloom");
  }

  lemma SuffixLast(s: string, suffix: string)
    requires suffix != "" && s != ""
    ensures StripSuffix(s, suffix).Some? ==> s[|s| - 1] == suffix[|suffix| - 1]
  {
    if StripSuffix(s, suffix).Some? { assert s[|s| - |suffix|..][|suffix| - 1] == s[|s| - 1]; }
  }

  // --------------------------------------------------------------------- lines

  function IndexOf(s: string, c: char): (i: nat)
    ensures i <= |s| && (i < |s| ==> s[i] == c) && forall j :: 0 <= j < i ==> s[j] != c
  {
    if s == "" then 0 else if s[0] == c then 0 else 1 + IndexOf(s[1..], c)
  }

  function StripCr(s: string): string {
    if s != "" && s[|s| - 1] == '\r' then s[..|s| - 1] else s
  }

  /** `str::lines`: split at newlines, a carriage return before one dropped, and
      no empty line after a final newline. */
  function Lines(s: string): seq<string>
    decreases |s|
  {
    if s == "" then []
    else
      var i := IndexOf(s, '\n');
      if i == |s| then [s] else [StripCr(s[..i])] + Lines(s[i + 1..])
  }

  function Joined(names: seq<string>): string {
    if names == [] then "" else Joined(names[..|names| - 1]) + names[|names| - 1] + "\n"
  }

  predicate OneLine(s: string) { forall i :: 0 <= i < |s| ==> s[i] != '\n' }

  /** A name survives a line-oriented file. */
  predicate Plain(s: string) { s != "" && OneLine(s) && s[|s| - 1] != '\r' }

  lemma {:induction false} JoinedHead(name: string, rest: seq<string>)
    ensures Joined([name] + rest) == name + "\n" + Joined(rest)
  {
    var all := [name] + rest;
    if rest == [] {
      assert all[..0] == [];
    } else {
      var n := |rest| - 1;
      assert all[..|all| - 1] == [name] + rest[..n];
      JoinedHead(name, rest[..n]);
    }
  }

  lemma LinesHead(line: string, tail: string)
    requires OneLine(line)
    ensures Lines(line + "\n" + tail) == [StripCr(line)] + Lines(tail)
  {
    var s := line + "\n" + tail;
    assert s[|line|] == '\n';
    assert forall j :: 0 <= j < |line| ==> s[j] == line[j];
    assert IndexOf(s, '\n') == |line|;
    assert s[..|line|] == line && s[|line| + 1..] == tail;
  }

  function StripAll(names: seq<string>): seq<string> {
    seq(|names|, i requires 0 <= i < |names| => StripCr(names[i]))
  }

  lemma LinesOfNone()
    ensures Lines(Joined([])) == []
  {
  }

  lemma {:induction false} LinesOfJoined(names: seq<string>)
    requires forall i :: 0 <= i < |names| ==> OneLine(names[i])
    ensures Lines(Joined(names)) == StripAll(names)
  {
    hide Lines, Joined, StripCr, OneLine;
    LinesOfNone();
    if names != [] {
      var rest := names[1..];
      assert names == [names[0]] + rest;
      JoinedHead(names[0], rest);
      LinesHead(names[0], Joined(rest));
      LinesOfJoined(rest);
      assert StripAll(names) == [StripCr(names[0])] + StripAll(rest);
    }
  }

  lemma {:induction false} LinesAreOneLine(s: string)
    ensures forall i :: 0 <= i < |Lines(s)| ==> OneLine(Lines(s)[i])
    decreases |s|
  {
    if s != "" {
      var i := IndexOf(s, '\n');
      if i < |s| { LinesAreOneLine(s[i + 1..]); }
    }
  }

  /** Every text is a list of ended lines and a possibly empty last line. */
  lemma {:induction false} EndedLines(text: string) returns (ended: seq<string>, last: string)
    ensures text == Joined(ended) + last && OneLine(last) && forall i :: 0 <= i < |ended| ==> OneLine(ended[i])
    decreases |text|
  {
    var i := IndexOf(text, '\n');
    if i == |text| {
      ended, last := [], text;
      assert Joined([]) + text == text;
    } else {
      ended, last := EndedLines(text[i + 1..]);
      JoinedHead(text[..i], ended);
      assert text == text[..i] + "\n" + text[i + 1..];
      assert Joined([text[..i]] + ended) + last == text[..i] + "\n" + (Joined(ended) + last);
      ended := [text[..i]] + ended;
    }
  }

  /** Of those, the ended ones lose a final carriage return, and an empty last one
      is no line. */
  lemma {:induction false} LinesExactly(ended: seq<string>, last: string)
    requires OneLine(last) && forall i :: 0 <= i < |ended| ==> OneLine(ended[i])
    ensures var lines := Lines(Joined(ended) + last);
            && |lines| == |ended| + (if last == "" then 0 else 1) && (last != "" ==> lines[|ended|] == last)
            && forall i :: 0 <= i < |ended| ==>
                 lines[i] == if ended[i] != "" && ended[i][|ended[i]| - 1] == '\r' then ended[i][..|ended[i]| - 1] else ended[i]
  {
    hide Lines, Joined, OneLine;
    if ended == [] {
      assert Joined([]) + last == last by { NoneJoined(); }
      OnlyLine(last);
    } else {
      var rest := ended[1..];
      assert ended == [ended[0]] + rest;
      JoinedHead(ended[0], rest);
      assert Joined(ended) + last == ended[0] + "\n" + (Joined(rest) + last);
      LinesHead(ended[0], Joined(rest) + last);
      LinesExactly(rest, last);
    }
  }

  lemma NoneJoined()
    ensures Joined([]) == ""
  {
  }

  lemma OnlyLine(s: string)
    requires OneLine(s)
    ensures Lines(s) == if s == "" then [] else [s]
  {
  }

  // ------------------------------------------------------------------ manifest

  /** The manifest as its text has it: run names, newest first. */
  datatype ManifestFile = ManifestFile(nextSeq: nat, runs: seq<string>)

  function Text(m: ManifestFile): string {
    HEADER + "\n" + NEXT_SEQ + Decimal(m.nextSeq) + "\n" + Joined(m.runs)
  }

  function NonEmpty(lines: seq<string>): (r: seq<string>)
    ensures forall i :: 0 <= i < |r| ==> r[i] != "" && r[i] in lines
  {
    if lines == [] then []
    else if lines[0] == "" then NonEmpty(lines[1..])
    else [lines[0]] + NonEmpty(lines[1..])
  }

  /** Parse a manifest; any other header or counter line is corruption. */
  function Load(text: string): Result<ManifestFile> {
    var lines := Lines(text);
    if |lines| < 1 || lines[0] != HEADER then Err(Corruption)
    else if |lines| < 2 then Err(Corruption)
    else
      var num := StripPrefix(lines[1], NEXT_SEQ);
      if num.None? || ParseU64(num.value).None? then Err(Corruption)
      else Ok(ManifestFile(ParseU64(num.value).value, NonEmpty(lines[2..])))
  }

  /** Dropping empty lines keeps the others, in order. */
  lemma {:induction false} NonEmptyOf(a: seq<string>, line: string, b: seq<string>)
    ensures NonEmpty(a + [line] + b) == NonEmpty(a) + (if line == "" then [] else [line]) + NonEmpty(b)
  {
    if a == [] {
      assert [] + [line] + b == [line] + b && ([line] + b)[1..] == b;
    } else {
      assert (a + [line] + b)[1..] == a[1..] + [line] + b;
      NonEmptyOf(a[1..], line, b);
    }
  }

  /** What a manifest text says: the fixed first line, the counter, and the names. */
  ghost predicate Says(text: string, m: ManifestFile) {
    var lines := Lines(text);
    && |lines| >= 2 && lines[0] == "LSMDB-MANIFEST v1"
    && |lines[1]| >= 9 && lines[1][..9] == "next_seq=" && IsNumber(lines[1][9..], m.nextSeq)
    && m.runs == NonEmpty(lines[2..])
  }

  /** Exactly the texts that say something load, and as what they say. */
  lemma LoadsExactly(text: string, m: ManifestFile)
    ensures Load(text) == Ok(m) <==> Says(text, m)
  {
    hide Lines, NonEmpty, ParseU64, IsNumber;
    var lines := Lines(text);
    if |lines| >= 2 && |lines[1]| >= 9 { ParsesExactly(lines[1][9..], m.nextSeq); }
    assert NEXT_SEQ == "next_seq=" && |NEXT_SEQ| == 9;
  }

  method Store(nextSeq: nat, runs: seq<string>) returns (body: string)
    ensures body == Text(ManifestFile(nextSeq, runs))
  {
    var head := HEADER + "\n" + NEXT_SEQ + Decimal(nextSeq) + "\n";
    body := head;
    for i := 0 to |runs|
      invariant body == head + Joined(runs[..i])
    {
      assert runs[..i + 1][..i] == runs[..i];
      body := body + runs[i] + "\n";
    }
    assert runs[..|runs|] == runs;
  }

  /** The first two lines, whatever the names are. */
  lemma TextLinesUpTo(m: ManifestFile)
    ensures Lines(Text(m)) == [HEADER, NEXT_SEQ + Decimal(m.nextSeq)] + Lines(Joined(m.runs))
  {
    hide Lines;
    var counter := NEXT_SEQ + Decimal(m.nextSeq);
    assert OneLine(HEADER);
    assert AllDigits(Decimal(m.nextSeq));
    assert OneLine(counter);
    assert Text(m) == HEADER + "\n" + (counter + "\n" + Joined(m.runs));
    LinesHead(HEADER, counter + "\n" + Joined(m.runs));
    LinesHead(counter, Joined(m.runs));
    assert StripCr(HEADER) == HEADER;
    assert IsDigit(counter[|counter| - 1]);
    assert StripCr(counter) == counter;
  }

  lemma {:induction false} NonEmptyAll(lines: seq<string>)
    requires forall i :: 0 <= i < |lines| ==> lines[i] != ""
    ensures NonEmpty(lines) == lines
  {
    if lines != [] {
      NonEmptyAll(lines[1..]);
      assert lines == [lines[0]] + lines[1..];
    }
  }

  /** A stored manifest loads back exactly when its counter is a 64-bit number and
      every name is a non-empty single line not ending in a carriage return. */
  lemma LoadInvertsStore(m: ManifestFile)
    ensures Load(Text(m)) == Ok(m) <==> m.nextSeq < U64 && forall i :: 0 <= i < |m.runs| ==> Plain(m.runs[i])
  {
    hide Lines, Text;
    TextLinesUpTo(m);
    var lines := Lines(Text(m));
    var counter := NEXT_SEQ + Decimal(m.nextSeq);
    assert counter[|NEXT_SEQ|..] == Decimal(m.nextSeq);
    ParsePrinted(m.nextSeq, 0);
    assert lines[2..] == Lines(Joined(m.runs));
    assert Load(Text(m)) == if m.nextSeq < U64 then Ok(ManifestFile(m.nextSeq, NonEmpty(Lines(Joined(m.runs))))) else Err(Corruption);
    NamesReadBack(m.runs);
  }

  lemma NamesReadBack(names: seq<string>)
    ensures NonEmpty(Lines(Joined(names))) == names <==> forall i :: 0 <= i < |names| ==> Plain(names[i])
  {
    hide Lines, Joined;
    var lines := Lines(Joined(names));
    if forall i :: 0 <= i < |names| ==> OneLine(names[i]) && names[i] != "" {
      LinesOfJoined(names);
      if forall i :: 0 <= i < |names| ==> Plain(names[i]) {
        assert lines == names;
        NonEmptyAll(lines);
      } else if NonEmpty(lines) == names {
        NoShorter(lines, names);
      }
    } else {
      LoadedNames(Joined(names));
    }
  }

  lemma LoadedNames(s: string)
    ensures forall i :: 0 <= i < |NonEmpty(Lines(s))| ==> OneLine(NonEmpty(Lines(s))[i]) && NonEmpty(Lines(s))[i] != ""
  {
    hide Lines;
    LinesAreOneLine(s);
  }

  /** Dropping empty lines from a list of the same length drops none. */
  lemma NoShorter(lines: seq<string>, names: seq<string>)
    requires NonEmpty(lines) == names && lines == StripAll(names)
    requires forall i :: 0 <= i < |names| ==> OneLine(names[i]) && names[i] != ""
    ensures forall i :: 0 <= i < |names| ==> Plain(names[i])
  {
    NonEmptyLength(lines);
    assert lines == names;
  }

  lemma {:induction false} NonEmptyLength(lines: seq<string>)
    ensures |NonEmpty(lines)| <= |lines| && (|NonEmpty(lines)| == |lines| ==> NonEmpty(lines) == lines)
  {
    if lines != [] {
      NonEmptyLength(lines[1..]);
      assert lines == [lines[0]] + lines[1..];
    }
  }

  /** Run names are always plain, so the engine's own manifests always load. */
  lemma RunNamesPlain(n: nat)
    ensures Plain(RunFilename(n))
  {
    var s := RunFilename(n);
    var digits := Padded(Decimal(n), 10);
    assert AllDigits(digits) by { if |Decimal(n)| < 10 { NumberOfPadded(10 - |Decimal(n)|, Decimal(n)); } }
    forall i | 0 <= i < |s| ensures s[i] != '\n' {
      if 4 <= i < 4 + |digits| { assert s[i] == digits[i - 4]; }
    }
  }

  // ------------------------------------------------------- names and numbers

  function Names(nums: seq<nat>): (names: seq<string>)
    ensures |names| == |nums| && forall i :: 0 <= i < |nums| ==> names[i] == RunFilename(nums[i])
  {
    seq(|nums|, i requires 0 <= i < |nums| => RunFilename(nums[i]))
  }

  /** A stored list of run numbers is read back as the same list, and a file name
      is in the loaded list exactly if its number is in the stored one. */
  lemma NumbersReadBack(nextSeq: nat, nums: seq<nat>, x: nat)
    requires x < U64 && forall i :: 0 <= i < |nums| ==> nums[i] < U64
    ensures Load(Text(ManifestFile(nextSeq, Names(nums)))) == Ok(ManifestFile(nextSeq, Names(nums))) <==> nextSeq < U64
    ensures forall i :: 0 <= i < |nums| ==> SeqOf(Names(nums)[i]) == Some(nums[i])
    ensures RunFilename(x) in Names(nums) <==> x in nums
  {
    hide RunFilename, SeqOf, Load, Text, Plain;
    LoadInvertsStore(ManifestFile(nextSeq, Names(nums)));
    forall i | 0 <= i < |nums|
      ensures Plain(Names(nums)[i]) && SeqOf(Names(nums)[i]) == Some(nums[i]) && (RunFilename(x) == Names(nums)[i] ==> x == nums[i])
    {
      RunNamesPlain(nums[i]);
      SeqOfFilename(nums[i]);
      FilenamesDistinct(x, nums[i]);
    }
    if x in nums {
      var i :| 0 <= i < |nums| && nums[i] == x;
      assert Names(nums)[i] == RunFilename(x);
    }
  }
}
