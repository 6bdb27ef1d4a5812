/**
 One line of `/proc/<pid>/stat`. The command name may hold spaces and parentheses, so the
 fields after it are counted from the last closing parenthesis.
 */
module ProcStat {
  import opened Wrappers

  const CLOCK_TICKS_PER_SECOND := 100
  const BYTES_PER_PAGE := 4096
  const TWO_TO_64: nat := 0x1_0000_0000_0000_0000
  const TWO_TO_63: nat := 0x8000_0000_0000_0000

  const UTIME_OFFSET := 11
  const STIME_OFFSET := 12
  const RSS_OFFSET := 21

  datatype ProcSample = ProcSample(pid: int, name: string, cpuTicks: nat, rssBytes: nat)

  datatype ParseError = NoComm | BadPid | TooFewFields(count: nat) | BadUtime | BadStime | BadRss

  // ---------------------------------------------------------------------------------------
  // The string functions it uses
  // ---------------------------------------------------------------------------------------

  /** The first position of `c`, or the length. */
  function IndexOf(s: string, c: char): (k: nat)
    ensures k <= |s|
    ensures forall i :: 0 <= i < k ==> s[i] != c
    ensures k < |s| ==> s[k] == c
  {
    if s == [] || s[0] == c then 0 else 1 + IndexOf(s[1..], c)
  }

  /** The last position of `c`, or -1. */
  function LastIndexOf(s: string, c: char): (k: int)
    ensures -1 <= k < |s|
    ensures k >= 0 ==> s[k] == c
    ensures forall i :: k < i < |s| ==> s[i] != c
  {
    if s == [] then -1
    else if s[|s| - 1] == c then |s| - 1
    else LastIndexOf(s[..|s| - 1], c)
  }

  /** Unicode white space, as Go's `strings` functions see it. */
  predicate IsSpace(c: char)
  {
    var code := c as int;
    || c == ' ' || ('\t' <= c && c <= '\r')
    || code == 0x85 || code == 0xA0 || code == 0x1680 || 0x2000 <= code <= 0x200A
    || code == 0x2028 || code == 0x2029 || code == 0x202F || code == 0x205F || code == 0x3000
  }

  function TrimLeft(s: string): string
  {
    if s != [] && IsSpace(s[0]) then TrimLeft(s[1..]) else s
  }

  function TrimRight(s: string): string
  {
    if s != [] && IsSpace(s[|s| - 1]) then TrimRight(s[..|s| - 1]) else s
  }

  function TrimSpace(s: string): string
  {
    TrimRight(TrimLeft(s))
  }

  /** The length of the leading run of non-space characters. */
  function WordLength(s: string): (k: nat)
    ensures k <= |s|
    ensures forall i :: 0 <= i < k ==> !IsSpace(s[i])
    ensures k < |s| ==> IsSpace(s[k])
  {
    if s == [] || IsSpace(s[0]) then 0 else 1 + WordLength(s[1..])
  }

  /** The words of `s`, split around runs of white space. */
  function Fields(s: string): seq<string>
    decreases |s|
  {
    if s == [] then []
    else if IsSpace(s[0]) then Fields(s[1..])
    else
      var k := WordLength(s);
      [s[..k]] + Fields(s[k..])
  }

  predicate IsDigit(c: char)
  {
    '0' <= c && c <= '9'
  }

  function DigitsValue(s: string): nat
    requires forall c :: c in s ==> IsDigit(c)
  {
    if s == [] then 0
    else
      assert s[|s| - 1] in s && IsDigit(s[|s| - 1]);
      10 * DigitsValue(s[..|s| - 1]) + (s[|s| - 1] as int - '0' as int)
  }

  /** `strconv.ParseUint(s, 10, 64)`. */
  function ParseUint(s: string): Option<nat>
  {
    if s == [] || exists c :: c in s && !IsDigit(c) then None
    else if DigitsValue(s) >= TWO_TO_64 then None
    else Some(DigitsValue(s))
  }

  /** `strconv.Atoi` on a 64-bit platform: an optional sign, then decimal digits in range. */
  function Atoi(s: string): Option<int>
  {
    var negative := s != [] && s[0] == '-';
    var digits := if s != [] && (s[0] == '-' || s[0] == '+') then s[1..] else s;
    match ParseUint(digits)
    case None => None
    case Some(n) =>
      var value: int := n;
      if negative then (if n <= TWO_TO_63 then Some(-value) else None)
      else (if n < TWO_TO_63 then Some(n) else None)
  }

  // ---------------------------------------------------------------------------------------
  // The parser
  // ---------------------------------------------------------------------------------------

  /** The figures among the words after the name: 64-bit sums and products, wrapping. */
  function ParseFigures(pid: int, name: string, rest: seq<string>): Result<ProcSample, ParseError>
  {
    if |rest| <= RSS_OFFSET then Err(TooFewFields(|rest|))
    else
      match (ParseUint(rest[UTIME_OFFSET]), ParseUint(rest[STIME_OFFSET]), ParseUint(rest[RSS_OFFSET]))
      case (None, _, _) => Err(BadUtime)
      case (_, None, _) => Err(BadStime)
      case (_, _, None) => Err(BadRss)
      case (Some(utime), Some(stime), Some(rss)) =>
        Ok(ProcSample(pid, name, (utime + stime) % TWO_TO_64, (rss * BYTES_PER_PAGE) % TWO_TO_64))
  }

  function ParseProcStat(data: string): Result<ProcSample, ParseError>
  {
    var open, close := IndexOf(data, '('), LastIndexOf(data, ')');
    if open == |data| || close < 0 || close < open then Err(NoComm)
    else
      match Atoi(TrimSpace(data[..open]))
      case None => Err(BadPid)
      case Some(pid) => ParseFigures(pid, data[open + 1..close], Fields(data[close + 1..]))
  }

  /** CPU use over a window, as a percentage of one core. */
  function CpuPercentBetween(previousTicks: nat, currentTicks: nat, elapsedSeconds: real): real
  {
    if elapsedSeconds <= 0.0 || currentTicks < previousTicks then 0.0
    else (currentTicks - previousTicks) as real / (CLOCK_TICKS_PER_SECOND as real * elapsedSeconds) * 100.0
  }

  // ---------------------------------------------------------------------------------------
  // The printer and the round trip
  // ---------------------------------------------------------------------------------------

  function Decimal(n: nat): string
  {
    var digit := ['0', '1', '2', '3', '4', '5', '6', '7', '8', '9'][n % 10];
    if n < 10 then [digit] else Decimal(n / 10) + [digit]
  }

  function PrintFields(fields: seq<string>): string
  {
    if fields == [] then "" else " " + fields[0] + PrintFields(fields[1..])
  }

  /** The kernel's rendering of a line. */
  function Print(pid: nat, comm: string, fields: seq<string>): string
  {
    Decimal(pid) + " (" + comm + ")" + PrintFields(fields)
  }

  ghost predicate Printable(field: string)
  {
    field != [] && forall c :: c in field ==> !IsSpace(c) && c != ')'
  }

  lemma {:induction false} DecimalParses(n: nat)
    ensures Decimal(n) != [] && forall c :: c in Decimal(n) ==> IsDigit(c)
    ensures DigitsValue(Decimal(n)) == n
  {
    if n >= 10 {
      DecimalParses(n / 10);
      assert Decimal(n)[..|Decimal(n)| - 1] == Decimal(n / 10);
    } else {
      assert Decimal(n)[..0] == [];
    }
  }

  function Zeros(k: nat): (s: string)
    ensures |s| == k && forall c :: c in s ==> c == '0'
  {
    if k == 0 then "" else Zeros(k - 1) + "0"
  }

  lemma {:induction false} ZerosAreNothing(k: nat)
    ensures DigitsValue(Zeros(k)) == 0
  {
    if k > 0 {
      assert Zeros(k)[..k - 1] == Zeros(k - 1);
      ZerosAreNothing(k - 1);
    }
  }

  lemma {:induction false} PaddedParses(k: nat, n: nat)
    ensures forall c :: c in Zeros(k) + Decimal(n) ==> IsDigit(c)
    ensures Zeros(k) + Decimal(n) != [] && DigitsValue(Zeros(k) + Decimal(n)) == n
  {
    DecimalParses(n);
    var s := Zeros(k) + Decimal(n);
    if n >= 10 {
      PaddedParses(k, n / 10);
      assert s[..|s| - 1] == Zeros(k) + Decimal(n / 10);
    } else {
      assert s[..|s| - 1] == Zeros(k);
      ZerosAreNothing(k);
    }
  }

  function DigitValue(c: char): nat
    requires IsDigit(c)
  {
    c as int - '0' as int
  }

  lemma DecimalOfDigit(c: char)
    requires IsDigit(c)
    ensures Zeros(0) + Decimal(DigitValue(c)) == [c]
  {
    assert Zeros(0) == "";
  }

  lemma DecimalGrows(v: nat, d: nat)
    requires v > 0 && d < 10
    ensures Decimal(10 * v + d) == Decimal(v) + Decimal(d)
  {
    assert (10 * v + d) / 10 == v && (10 * v + d) % 10 == d;
  }

  lemma PadOneMore(init: string, c: char, k: nat, v: nat) returns (l: nat)
    requires init == Zeros(k) + Decimal(v) && IsDigit(c)
    ensures init + [c] == Zeros(l) + Decimal(10 * v + DigitValue(c))
  {
    var d := DigitValue(c);
    DecimalOfDigit(c);
    assert Decimal(d) == [c];
    if v == 0 {
      assert Decimal(0) == "0" && Zeros(k + 1) == Zeros(k) + "0";
      l := k + 1;
    } else {
      DecimalGrows(v, d);
      l := k;
      assert init + [c] == Zeros(k) + (Decimal(v) + Decimal(d));
    }
  }

  lemma {:induction false} DigitsArePadded(s: string) returns (k: nat, n: nat)
    requires s != [] && forall c :: c in s ==> IsDigit(c)
    ensures s == Zeros(k) + Decimal(n)
  {
    var init, last := s[..|s| - 1], s[|s| - 1];
    assert s == init + [last] && last in s && forall c :: c in init ==> c in s;
    if init == [] {
      DecimalOfDigit(last);
      k, n := 0, DigitValue(last);
    } else {
      k, n := DigitsArePadded(init);
      k := PadOneMore(init, last, k, n);
      n := 10 * n + DigitValue(last);
    }
  }

  /** The unsigned parser accepts exactly the decimals below 2^64, padded with zeros or not. */
  lemma ParseUintIff(s: string, n: nat)
    ensures ParseUint(s) == Some(n) <==>
            n < 0x1_0000_0000_0000_0000 && exists k: nat :: s == Zeros(k) + Decimal(n)
  {
    if ParseUint(s) == Some(n) {
      var k, m := DigitsArePadded(s);
      PaddedParses(k, m);
    }
    forall k: nat | s == Zeros(k) + Decimal(n)
      ensures n < 0x1_0000_0000_0000_0000 ==> ParseUint(s) == Some(n)
    {
      PaddedParses(k, n);
    }
  }

  /** An optional sign before a decimal, padded or not. */
  ghost predicate Signed(s: string, sign: string, k: nat, n: nat)
  {
    (sign == "" || sign == "+" || sign == "-") && s == sign + (Zeros(k) + Decimal(n))
  }

  lemma AtoiOfPlain(digits: string, n: nat)
    requires digits != [] && digits[0] != '-' && digits[0] != '+'
    requires ParseUint(digits) == Some(n) && n < TWO_TO_63
    ensures Atoi(digits) == Some(n)
  {
  }

  lemma AtoiOfSigned(sign: char, digits: string, n: nat, v: int)
    requires sign == '-' || sign == '+'
    requires ParseUint(digits) == Some(n) && -0x8000_0000_0000_0000 <= v < TWO_TO_63
    requires if sign == '-' then v + n == 0 else v == n
    ensures Atoi([sign] + digits) == Some(v)
  {
    assert ([sign] + digits)[1..] == digits;
  }

  lemma SignedParses(s: string, sign: string, k: nat, n: nat, v: int)
    requires Signed(s, sign, k, n) && (sign == "-" ==> v + n == 0) && (sign != "-" ==> v == n)
    requires -0x8000_0000_0000_0000 <= v < 0x8000_0000_0000_0000
    ensures Atoi(s) == Some(v)
  {
    var digits := Zeros(k) + Decimal(n);
    ParseUintIff(digits, n);
    if sign == "" {
      PaddedParses(k, n);
      assert digits[0] in digits && IsDigit(digits[0]);
      assert s == digits;
      AtoiOfPlain(digits, n);
    } else {
      assert s == [sign[0]] + digits;
      AtoiOfSigned(sign[0], digits, n, v);
    }
  }

  lemma AtoiParts(s: string, v: int) returns (sign: string, digits: string, n: nat)
    requires Atoi(s) == Some(v)
    ensures s == sign + digits && (sign == "" || sign == "+" || sign == "-") && ParseUint(digits) == Some(n)
    ensures (sign == "-" ==> v + n == 0) && (sign != "-" ==> v == n)
    ensures -0x8000_0000_0000_0000 <= v < 0x8000_0000_0000_0000
  {
    sign := if s != [] && (s[0] == '-' || s[0] == '+') then [s[0]] else "";
    digits := if sign == "" then s else s[1..];
    n := ParseUint(digits).value;
  }

  lemma AtoiIsSigned(s: string, v: int) returns (sign: string, k: nat, n: nat)
    requires Atoi(s) == Some(v)
    ensures Signed(s, sign, k, n) && (sign == "-" ==> v + n == 0) && (sign != "-" ==> v == n)
    ensures -0x8000_0000_0000_0000 <= v < 0x8000_0000_0000_0000
  {
    var digits;
    sign, digits, n := AtoiParts(s, v);
    ParseUintIff(digits, n);
    k :| digits == Zeros(k) + Decimal(n);
  }

  /** The signed parser accepts exactly the decimals of 64 bits with an optional sign. */
  lemma AtoiIff(s: string, v: int)
    ensures Atoi(s) == Some(v) <==>
            && -0x8000_0000_0000_0000 <= v < 0x8000_0000_0000_0000
            && exists sign: string, k: nat, n: nat ::
                 Signed(s, sign, k, n) && (sign == "-" ==> v + n == 0) && (sign != "-" ==> v == n)
  {
    if Atoi(s) == Some(v) {
      var sign, k, n := AtoiIsSigned(s, v);
    } else if -0x8000_0000_0000_0000 <= v < 0x8000_0000_0000_0000 {
      forall sign: string, k: nat, n: nat
        | Signed(s, sign, k, n) && (sign == "-" ==> v + n == 0) && (sign != "-" ==> v == n)
        ensures Atoi(s) == Some(v)
      {
        SignedParses(s, sign, k, n, v);
      }
    }
  }

  lemma FirstWord(word: string, rest: string)
    requires word != [] && forall c :: c in word ==> !IsSpace(c)
    requires rest != [] ==> IsSpace(rest[0])
    ensures Fields(word + rest) == [word] + Fields(rest)
  {
    var s := word + rest;
    assert forall i :: 0 <= i < |word| ==> s[i] in word;
    assert rest != [] ==> s[|word|] == rest[0];
    assert WordLength(s) == |word|;
    assert s[..|word|] == word && s[|word|..] == rest;
  }

  lemma {:induction false} TrimsLeft(gap: string, s: string)
    requires (forall c :: c in gap ==> IsSpace(c)) && (s != [] ==> !IsSpace(s[0]))
    ensures TrimLeft(gap + s) == s
  {
    if gap == [] {
      assert gap + s == s;
    } else {
      assert gap[0] in gap && (gap + s)[1..] == gap[1..] + s;
      TrimsLeft(gap[1..], s);
    }
  }

  lemma {:induction false} TrimsRight(s: string, gap: string)
    requires (forall c :: c in gap ==> IsSpace(c)) && (s != [] ==> !IsSpace(s[|s| - 1]))
    ensures TrimRight(s + gap) == s
  {
    if gap == [] {
      assert s + gap == s;
    } else {
      assert gap[|gap| - 1] in gap && (s + gap)[..|s + gap| - 1] == s + gap[..|gap| - 1];
      TrimsRight(s, gap[..|gap| - 1]);
    }
  }

  /** Trimming takes off the white space around a text, all of it and nothing else. */
  lemma TrimsAround(before: string, s: string, after: string)
    requires forall c :: c in before + after ==> IsSpace(c)
    requires s != [] ==> !IsSpace(s[0]) && !IsSpace(s[|s| - 1])
    ensures TrimSpace(before + s + after) == s
  {
    assert forall c :: c in before || c in after ==> c in before + after;
    if s == [] {
      assert before + s + after == (before + after) + [];
      TrimsLeft(before + after, []);
    } else {
      assert before + s + after == before + (s + after);
      TrimsLeft(before, s + after);
      TrimsRight(s, after);
    }
  }

  /** White space in front of the words is skipped; with `FirstWord` this fixes the words of any text. */
  lemma {:induction false} FieldsSkip(gap: string, s: string)
    requires forall c :: c in gap ==> IsSpace(c)
    ensures Fields(gap + s) == Fields(s)
  {
    if gap == [] {
      assert gap + s == s;
    } else {
      assert gap[0] in gap && (gap + s)[1..] == gap[1..] + s;
      FieldsSkip(gap[1..], s);
    }
  }

  lemma {:induction false} PrintedHasNoParenthesis(fields: seq<string>)
    requires forall f :: f in fields ==> Printable(f)
    ensures ')' !in PrintFields(fields)
  {
    if fields != [] {
      assert fields[0] in fields && Printable(fields[0]);
      PrintedHasNoParenthesis(fields[1..]);
    }
  }

  lemma {:induction false} FieldsOfPrinted(fields: seq<string>)
    requires forall f :: f in fields ==> Printable(f)
    ensures Fields(PrintFields(fields)) == fields
  {
    if fields != [] {
      var word, rest := fields[0], PrintFields(fields[1..]);
      assert word in fields && Printable(word);
      FieldsOfPrinted(fields[1..]);
      assert PrintFields(fields) == " " + (word + rest);
      assert PrintFields(fields)[1..] == word + rest;
      FirstWord(word, rest);
    }
  }

  lemma TrimDigits(s: string)
    requires s != [] && forall c :: c in s ==> !IsSpace(c)
    ensures TrimSpace(s + " ") == s
  {
    var padded := s + " ";
    assert padded[0] in s && !IsSpace(padded[0]);
    assert TrimLeft(padded) == padded;
    assert padded[..|padded| - 1] == s && IsSpace(padded[|padded| - 1]);
    assert s[|s| - 1] in s && TrimRight(s) == s;
  }

  lemma FirstAt(s: string, c: char, k: nat)
    requires k < |s| && s[k] == c && forall i :: 0 <= i < k ==> s[i] != c
    ensures IndexOf(s, c) == k
  {
  }

  lemma LastAt(s: string, c: char, k: nat)
    requires k < |s| && s[k] == c && forall i :: k < i < |s| ==> s[i] != c
    ensures LastIndexOf(s, c) == k
  {
  }

  lemma PartsOfLine(head: string, comm: string, tail: string, open: nat, close: nat)
    requires open == |head| && close == |head| + 1 + |comm|
    ensures var line := head + "(" + comm + ")" + tail;
            line[..open] == head && line[open + 1..close] == comm && line[close + 1..] == tail
  {
  }

  lemma CommIsLocated(head: string, comm: string, tail: string)
    requires '(' !in head && ')' !in tail
    ensures var line := head + "(" + comm + ")" + tail;
            var open, close := IndexOf(line, '('), LastIndexOf(line, ')');
            && 0 <= open < close < |line|
            && line[..open] == head && line[open + 1..close] == comm && line[close + 1..] == tail
  {
    var line := head + "(" + comm + ")" + tail;
    var close := |head| + 1 + |comm|;
    assert line[|head|] == '(' && line[close] == ')';
    forall i | 0 <= i < |head| ensures line[i] != '(' {
      assert line[i] == head[i] && head[i] in head;
    }
    forall i | close < i < |line| ensures line[i] != ')' {
      assert line[i] == tail[i - close - 1] && tail[i - close - 1] in tail;
    }
    FirstAt(line, '(', |head|);
    LastAt(line, ')', close);
    PartsOfLine(head, comm, tail, |head|, close);
  }

  lemma AtoiOfDecimal(n: nat)
    requires n < TWO_TO_63
    ensures Atoi(TrimSpace(Decimal(n) + " ")) == Some(n) && '(' !in Decimal(n) + " "
  {
    DecimalParses(n);
    TrimDigits(Decimal(n));
    assert Decimal(n)[0] in Decimal(n);
  }

  lemma ParseUintOfDecimal(n: nat)
    requires n < TWO_TO_64
    ensures ParseUint(Decimal(n)) == Some(n)
  {
    DecimalParses(n);
  }

  /** The figures of `s`, wrapping at 64 bits, are the 12th, 13th and 22nd of the words. */
  ghost predicate HasFigures(words: seq<string>, s: ProcSample)
  {
    && |words| >= 22
    && ParseUint(words[11]).Some? && ParseUint(words[12]).Some? && ParseUint(words[21]).Some?
    && s.cpuTicks == (ParseUint(words[11]).value + ParseUint(words[12]).value) % 0x1_0000_0000_0000_0000
    && s.rssBytes == (ParseUint(words[21]).value * 4096) % 0x1_0000_0000_0000_0000
  }

  lemma FiguresIff(words: seq<string>, s: ProcSample)
    ensures ParseFigures(s.pid, s.name, words) == Ok(s) <==> HasFigures(words, s)
  {
  }

  /** A line cut at its first opening and last closing parenthesis, with the figures of `s` after
      the name. */
  ghost predicate Shaped(data: string, head: string, tail: string, s: ProcSample)
  {
    && data == head + "(" + s.name + ")" + tail
    && '(' !in head && ')' !in tail
    && Atoi(TrimSpace(head)) == Some(s.pid)
    && HasFigures(Fields(tail), s)
  }

  lemma CutAtParentheses(data: string, open: nat, close: nat)
    requires open < close < |data| && data[open] == '(' && data[close] == ')'
    ensures data == data[..open] + "(" + data[open + 1..close] + ")" + data[close + 1..]
  {
  }

  lemma AcceptedIsShaped(data: string, s: ProcSample) returns (head: string, tail: string)
    requires ParseProcStat(data) == Ok(s)
    ensures Shaped(data, head, tail, s)
  {
    var open, close := IndexOf(data, '('), LastIndexOf(data, ')');
    assert data[open] != ')';
    CutAtParentheses(data, open, close);
    head, tail := data[..open], data[close + 1..];
    FiguresIff(Fields(tail), s);
  }

  lemma ShapedIsAccepted(data: string, head: string, tail: string, s: ProcSample)
    requires Shaped(data, head, tail, s)
    ensures ParseProcStat(data) == Ok(s)
  {
    CommIsLocated(head, s.name, tail);
    FiguresIff(Fields(tail), s);
  }

  /** The parser accepts exactly the lines of that shape, and reads off exactly those figures. */
  lemma AcceptedIffShaped(data: string, s: ProcSample)
    ensures ParseProcStat(data) == Ok(s) <==> exists head: string, tail: string :: Shaped(data, head, tail, s)
  {
    if ParseProcStat(data) == Ok(s) {
      var head, tail := AcceptedIsShaped(data, s);
    }
    forall head: string, tail: string | Shaped(data, head, tail, s) ensures ParseProcStat(data) == Ok(s) {
      ShapedIsAccepted(data, head, tail, s);
    }
  }

  lemma FiguresFit(pid: int, name: string, words: seq<string>, utime: nat, stime: nat, rss: nat)
    requires |words| >= 22
    requires ParseUint(words[11]) == Some(utime) && ParseUint(words[12]) == Some(stime)
    requires ParseUint(words[21]) == Some(rss)
    requires utime + stime < TWO_TO_64 && rss * 4096 < TWO_TO_64
    ensures HasFigures(words, ProcSample(pid, name, utime + stime, rss * 4096))
  {
  }

  lemma FiguresOfDecimals(pid: int, name: string, words: seq<string>, utime: nat, stime: nat, rss: nat)
    requires |words| >= 22
    requires words[11] == Decimal(utime) && words[12] == Decimal(stime) && words[21] == Decimal(rss)
    requires utime + stime < TWO_TO_64 && rss * 4096 < TWO_TO_64
    ensures HasFigures(words, ProcSample(pid, name, utime + stime, rss * 4096))
  {
    ParseUintOfDecimal(utime);
    ParseUintOfDecimal(stime);
    ParseUintOfDecimal(rss);
    FiguresFit(pid, name, words, utime, stime, rss);
  }

  lemma SpaceMoves(number: string, comm: string, tail: string)
    ensures number + " (" + comm + ")" + tail == number + " " + "(" + comm + ")" + tail
  {
  }

  /** For every command name, spaces and unbalanced parentheses included, parsing what was
      printed gives back the pid, the name, the tick sum and the resident bytes. */
  lemma ParseOfPrinted(pid: nat, comm: string, fields: seq<string>, utime: nat, stime: nat, rss: nat)
    requires pid < 0x8000_0000_0000_0000 && |fields| >= 22
    requires forall f :: f in fields ==> Printable(f)
    requires fields[11] == Decimal(utime) && fields[12] == Decimal(stime) && fields[21] == Decimal(rss)
    requires utime + stime < 0x1_0000_0000_0000_0000 && rss * 4096 < 0x1_0000_0000_0000_0000
    ensures ParseProcStat(Print(pid, comm, fields)) == Ok(ProcSample(pid, comm, utime + stime, rss * 4096))
  {
    SpaceMoves(Decimal(pid), comm, PrintFields(fields));
    AtoiOfDecimal(pid);
    PrintedHasNoParenthesis(fields);
    FieldsOfPrinted(fields);
    FiguresOfDecimals(pid, comm, fields, utime, stime, rss);
    ShapedIsAccepted(Print(pid, comm, fields), Decimal(pid) + " ", PrintFields(fields),
                     ProcSample(pid, comm, utime + stime, rss * 4096));
  }

  /** A line is refused for want of a name exactly when no closing parenthesis follows an opening one. */
  lemma NoCommIff(data: string)
    ensures ParseProcStat(data) == Err(NoComm) <==>
            forall i, j :: 0 <= i < j < |data| && data[i] == '(' ==> data[j] != ')'
  {
    var open, close := IndexOf(data, '('), LastIndexOf(data, ')');
    if open < |data| && close > open {
      assert data[open] == '(' && data[close] == ')';
    } else {
      forall i, j | 0 <= i < j < |data| && data[i] == '(' ensures data[j] != ')' {
        assert open <= i;
      }
      assert open < |data| && close >= 0 ==> data[open] != data[close];
    }
  }
}
