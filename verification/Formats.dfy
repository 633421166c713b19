/** Printers and parsers shared by the protocol translators: durations, port lists and bandwidths. */
module Formats {
  import opened Basics
  import opened Text

  // ---- numerals ----

  predicate AllDigits(s: string) { forall c :: c in s ==> IsDigit(c) }

  /** strconv.Atoi: an optional sign and digits, within int64. */
  function Atoi(s: string): Option<int> {
    var body := if s != "" && s[0] in {'+', '-'} then s[1..] else s;
    if body == "" || !AllDigits(body) then None
    else
      var v: int := Value(body);
      var n := if s[0] == '-' then -v else v;
      if -MAX_INT64 - 1 <= n <= MAX_INT64 then Some(n) else None
  }

  /** How many of the first characters are digits. */
  function DigitRun(s: string): (k: nat)
    ensures k <= |s| && AllDigits(s[..k]) && (k < |s| ==> !IsDigit(s[k]))
  {
    if s == "" || !IsDigit(s[0]) then 0
    else
      var k := 1 + DigitRun(s[1..]);
      assert s[..k] == [s[0]] + s[1..][..k - 1];
      k
  }

  lemma {:induction false} RunOf(digits: string, rest: string)
    requires AllDigits(digits) && (rest != "" ==> !IsDigit(rest[0]))
    ensures DigitRun(digits + rest) == |digits|
  {
    var s := digits + rest;
    if digits == "" {
      assert s == rest;
    } else {
      assert digits[0] in digits && s[0] == digits[0];
      assert s[1..] == digits[1..] + rest;
      RunOf(digits[1..], rest);
    }
  }

  // ---- durations ----

  function UnitSeconds(unit: char): nat {
    if unit == 'h' then 3600 else if unit == 'm' then 60 else 1
  }

  datatype Part = Part(count: nat, unit: char)

  /** Reading a duration of whole hours, minutes and seconds, as time.ParseDuration does; None if it is not one. */
  function Parts(s: string): Option<seq<Part>>
    decreases |s|
  {
    if s == "" then Some([])
    else
      var k := DigitRun(s);
      if k == 0 || k == |s| || s[k] !in {'h', 'm', 's'} then None
      else
        var rest := Parts(s[k + 1..]);
        if rest.None? then None else Some([Part(Value(s[..k]), s[k])] + rest.value)
  }

  function Seconds(parts: seq<Part>): nat {
    if parts == [] then 0 else parts[0].count * UnitSeconds(parts[0].unit) + Seconds(parts[1..])
  }

  lemma {:induction false} PartReads(n: nat, unit: char, rest: string)
    requires unit in {'h', 'm', 's'} && Parts(rest).Some?
    ensures Parts(Itoa(n) + [unit] + rest) == Some([Part(n, unit)] + Parts(rest).value)
  {
    var s := Itoa(n) + [unit] + rest;
    assert s == Itoa(n) + ([unit] + rest);
    RunOf(Itoa(n), [unit] + rest);
    ValueOfItoa(n);
    assert s[..|Itoa(n)|] == Itoa(n) && s[|Itoa(n)|] == unit && s[|Itoa(n)| + 1..] == rest;
  }

  /** No component is zero, and minutes and seconds do not reach the next unit. */
  predicate Tidy(parts: seq<Part>) {
    forall i :: 0 <= i < |parts| ==> parts[i].count > 0 && (parts[i].unit != 'h' ==> parts[i].count < 60)
  }

  function Component(n: nat, unit: char): string { if n > 0 then Itoa(n) + [unit] else "" }

  lemma ComponentReads(n: nat, unit: char, rest: string)
    requires unit in {'h', 'm', 's'} && Parts(rest).Some? && Tidy(Parts(rest).value) && (unit != 'h' ==> n < 60)
    ensures var p := Parts(Component(n, unit) + rest);
            p.Some? && Tidy(p.value) && Seconds(p.value) == n * UnitSeconds(unit) + Seconds(Parts(rest).value)
  {
    if n > 0 {
      PartReads(n, unit, rest);
      assert Component(n, unit) + rest == Itoa(n) + [unit] + rest;
      assert ([Part(n, unit)] + Parts(rest).value)[1..] == Parts(rest).value;
    } else {
      assert "" + rest == rest;
    }
  }

  /** SecondsToDuration: reading the result gives the seconds back, and it is written without zero components. */
  method SecondsToDuration(seconds: int) returns (b: string)
    ensures Parts(b).Some?
    ensures Seconds(Parts(b).value) == if seconds > 0 then seconds else 0
    ensures seconds > 0 ==> Tidy(Parts(b).value)
    ensures seconds <= 0 ==> b == "0s"
    ensures seconds > 0 ==> b == Component(seconds / 3600, 'h') + Component(seconds % 3600 / 60, 'm')
                                 + Component(seconds % 60, 's')
  {
    if seconds <= 0 {
      ZeroReads();
      return "0s";
    }
    var h := seconds / 3600;
    var m := (seconds % 3600) / 60;
    var s := seconds % 60;
    assert h * 3600 + m * 60 + s == seconds;
    ComponentsRead(h, m, s);
    hide *;
    b := WriteComponents(h, m, s);
  }

  method WriteComponents(h: nat, m: nat, s: nat) returns (b: string)
    ensures b == Component(h, 'h') + Component(m, 'm') + Component(s, 's')
  {
    hide Itoa;
    b := "";
    if h > 0 { b := b + Itoa(h) + "h"; }
    assert b == Component(h, 'h');
    ghost var one := b;
    if m > 0 { b := b + Itoa(m) + "m"; }
    assert b == one + Component(m, 'm');
    ghost var two := b;
    if s > 0 { b := b + Itoa(s) + "s"; }
    assert b == two + Component(s, 's');
  }

  lemma ComponentsRead(h: nat, m: nat, s: nat)
    requires m < 60 && s < 60
    ensures var p := Parts(Component(h, 'h') + Component(m, 'm') + Component(s, 's'));
            p.Some? && Tidy(p.value) && Seconds(p.value) == h * 3600 + m * 60 + s
  {
    assert Component(h, 'h') + Component(m, 'm') + Component(s, 's') ==
           Component(h, 'h') + (Component(m, 'm') + (Component(s, 's') + ""));
    assert Parts("") == Some([]);
    ComponentReads(s, 's', "");
    ComponentReads(m, 'm', Component(s, 's') + "");
    ComponentReads(h, 'h', Component(m, 'm') + (Component(s, 's') + ""));
  }

  lemma ZeroReads()
    ensures Parts("0s") == Some([Part(0, 's')]) && Seconds([Part(0, 's')]) == 0
  {
    assert Digit(0) == '0' && Itoa(0) == [Digit(0)];
    assert Parts("") == Some([]);
    assert "0s" == Itoa(0) + ['s'] + "";
    PartReads(0, 's', "");
    assert [Part(0, 's')] + [] == [Part(0, 's')] && [Part(0, 's')][1..] == [];
  }

  // ---- port lists ----

  /** The position of the first c, or the length. */
  function IndexOf(s: string, c: char): (i: nat)
    ensures i <= |s| && c !in s[..i] && (i < |s| ==> s[i] == c)
  {
    if s == "" || s[0] == c then 0
    else
      var i := 1 + IndexOf(s[1..], c);
      assert s[..i] == [s[0]] + s[1..][..i - 1];
      i
  }

  lemma {:induction false} IndexOfFirst(one: string, c: char, rest: string)
    requires c !in one
    ensures IndexOf(one + [c] + rest, c) == |one|
  {
    var s := one + [c] + rest;
    if one != "" {
      assert one[0] in one && s[0] == one[0];
      assert s[1..] == one[1..] + [c] + rest;
      IndexOfFirst(one[1..], c, rest);
    }
  }

  /** strings.Split at commas. */
  function Split(s: string): (segs: seq<string>)
    ensures |segs| > 0
    decreases |s|
  {
    var i := IndexOf(s, ',');
    if i == |s| then [s] else [s[..i]] + Split(s[i + 1..])
  }

  predicate IsPortNumber(s: string) { s != "" && Atoi(s).Some? && 0 < Atoi(s).value <= 65535 }

  /** What one segment contributes. */
  function Entry(segment: string): seq<string> {
    var seg := TrimSpace(segment);
    var i := IndexOf(seg, '-');
    var start := TrimSpace(seg[..i]);
    var end := if i == |seg| then start else TrimSpace(seg[i + 1..]);
    if seg == "" || !IsPortNumber(start) || !IsPortNumber(end) then [] else [start + ":" + end]
  }

  function Entries(segs: seq<string>): seq<string> {
    if segs == [] then [] else Entry(segs[0]) + Entries(segs[1..])
  }

  /** One segment: a port or a range of ports; nothing if it is neither. */
  method ParseSegment(segment: string) returns (entries: seq<string>)
    ensures entries == Entry(segment)
  {
    var seg := TrimSpace(segment);
    if seg == "" { return []; }
    var i := IndexOf(seg, '-');
    var start := TrimSpace(seg[..i]);
    var end := start;
    if i < |seg| { end := TrimSpace(seg[i + 1..]); }
    if !IsPortNumber(start) || !IsPortNumber(end) { return []; }
    return [start + ":" + end];
  }

  /** ParseServerPorts. */
  method ParseServerPorts(ports: string) returns (result: seq<string>)
    ensures result == Entries(Split(ports))
  {
    hide Entry, Split;
    result := [];
    var segs := Split(ports);
    for k := 0 to |segs|
      invariant result + Entries(segs[k..]) == Entries(segs)
    {
      assert segs[k..][1..] == segs[k + 1..];
      var entries := ParseSegment(segs[k]);
      result := result + entries;
    }
  }

  lemma {:induction false} EntriesJoin(one: seq<string>, two: seq<string>)
    ensures Entries(one + two) == Entries(one) + Entries(two)
  {
    hide Entry;
    if one == [] {
      assert one + two == two;
    } else {
      EntriesJoin(one[1..], two);
      assert (one + two)[1..] == one[1..] + two && (one + two)[0] == one[0];
      assert Entry(one[0]) + (Entries(one[1..]) + Entries(two)) == (Entry(one[0]) + Entries(one[1..])) + Entries(two);
    }
  }

  lemma SplitAt(one: string, rest: string)
    requires ',' !in one
    ensures Split(one + "," + rest) == [one] + Split(rest)
  {
    var s := one + "," + rest;
    IndexOfFirst(one, ',', rest);
    assert s == one + [','] + rest;
    assert s[..|one|] == one && s[|one| + 1..] == rest;
  }

  lemma SplitNone(one: string)
    requires ',' !in one
    ensures Split(one) == [one]
  {
    assert forall j :: 0 <= j < |one| ==> one[j] in one;
  }

  lemma {:induction false} SplitJoin(one: string, two: string)
    ensures Split(one + "," + two) == Split(one) + Split(two)
    decreases |one|
  {
    hide Split, IndexOf;
    if ',' !in one {
      SplitNone(one);
      SplitAt(one, two);
    } else {
      var i :| 0 <= i < |one| && one[i] == ',' && ',' !in one[..i] by { FirstComma(one); }
      var first, more := one[..i], one[i + 1..];
      assert one == first + "," + more;
      assert one + "," + two == first + "," + (more + "," + two);
      SplitAt(first, more);
      SplitAt(first, more + "," + two);
      SplitJoin(more, two);
      assert [first] + (Split(more) + Split(two)) == ([first] + Split(more)) + Split(two);
    }
  }

  lemma FirstComma(one: string)
    requires ',' in one
    ensures exists i :: 0 <= i < |one| && one[i] == ',' && ',' !in one[..i]
  {
    var i := IndexOf(one, ',');
    assert one[..|one|] == one;
    assert i < |one| && one[i] == ',' && ',' !in one[..i];
  }

  /** Joining two texts with a comma joins what they parse to: a segment that is not valid disturbs nothing else. */
  lemma PortsJoin(one: string, two: string)
    ensures Entries(Split(one + "," + two)) == Entries(Split(one)) + Entries(Split(two))
  {
    SplitJoin(one, two);
    EntriesJoin(Split(one), Split(two));
  }

  /** A range of ports, or a single one. */
  datatype Ports = Range(first: nat, last: nat) | Single(port: nat)

  predicate IsPort(n: nat) { 0 < n <= 65535 }

  predicate ValidPorts(p: Ports) { if p.Range? then IsPort(p.first) && IsPort(p.last) else IsPort(p.port) }

  /** As mihomo writes it, and as sing-box wants it. */
  function Written(p: Ports): string { if p.Range? then Itoa(p.first) + "-" + Itoa(p.last) else Itoa(p.port) }

  function Wanted(p: Ports): string {
    if p.Range? then Itoa(p.first) + ":" + Itoa(p.last) else Itoa(p.port) + ":" + Itoa(p.port)
  }

  function Joined(list: seq<Ports>): string
    requires list != []
  {
    if |list| == 1 then Written(list[0]) else Written(list[0]) + "," + Joined(list[1..])
  }

  /** What is wanted for the valid ones of the list. */
  function AllWanted(list: seq<Ports>): seq<string> {
    if list == [] then [] else (if ValidPorts(list[0]) then [Wanted(list[0])] else []) + AllWanted(list[1..])
  }

  lemma {:induction false} TrimKeeps(s: string)
    requires s != "" ==> !IsSpace(s[0]) && !IsSpace(s[|s| - 1])
    ensures TrimSpace(s) == s
  {}

  /** A text that has no blanks around it, no comma and no dash. */
  predicate Bare(s: string) {
    s != "" && !IsSpace(s[0]) && !IsSpace(s[|s| - 1]) && ',' !in s && '-' !in s
  }

  lemma NumeralIsBare(n: nat)
    ensures Bare(Itoa(n)) && (IsPortNumber(Itoa(n)) <==> 0 < n <= 65535)
  {
    var s := Itoa(n);
    ValueOfItoa(n);
    assert s[0] in s && s[|s| - 1] in s;
    assert IsDigit(s[0]) && IsDigit(s[|s| - 1]);
  }

  lemma EntryOfRange(a: string, b: string)
    requires Bare(a) && Bare(b)
    ensures Entry(a + "-" + b) == if IsPortNumber(a) && IsPortNumber(b) then [a + ":" + b] else []
  {
    hide Atoi;
    var s := a + "-" + b;
    assert s[0] == a[0] && s[|s| - 1] == b[|b| - 1];
    TrimKeeps(s);
    TrimKeeps(a);
    TrimKeeps(b);
    IndexOfFirst(a, '-', b);
    assert s[..|a|] == a && s[|a| + 1..] == b;
  }

  lemma EntryOfSingle(a: string)
    requires Bare(a)
    ensures Entry(a) == if IsPortNumber(a) then [a + ":" + a] else []
  {
    hide Atoi;
    TrimKeeps(a);
    assert IndexOf(a, '-') == |a| && a[..|a|] == a;
  }

  lemma EntryOfWritten(p: Ports)
    ensures Entry(Written(p)) == (if ValidPorts(p) then [Wanted(p)] else []) && ',' !in Written(p)
  {
    hide Entry, Itoa, IsPortNumber;
    if p.Range? {
      NumeralIsBare(p.first);
      NumeralIsBare(p.last);
      EntryOfRange(Itoa(p.first), Itoa(p.last));
    } else {
      NumeralIsBare(p.port);
      EntryOfSingle(Itoa(p.port));
    }
  }

  /** Any list of ranges and ports, joined with commas, parses to exactly the entries of those whose numbers are ports,
      in order. */
  lemma {:induction false} PortsRoundTrip(list: seq<Ports>)
    requires list != []
    ensures Entries(Split(Joined(list))) == AllWanted(list)
  {
    var first := Written(list[0]);
    EntryOfWritten(list[0]);
    hide Entry, Written, Wanted, ValidPorts;
    assert IndexOf(first, ',') == |first|;
    assert Split(first) == [first] && [first][1..] == [];
    assert Entries([first]) == Entry(first);
    if |list| == 1 {
      assert AllWanted(list[1..]) == [];
    } else {
      PortsJoin(first, Joined(list[1..]));
      PortsRoundTrip(list[1..]);
    }
  }

  // ---- bandwidths ----

  /** The white space of a regular expression. */
  predicate IsBlank(c: char) { c in {' ', '\t', '\n', '\U{000C}', '\r'} }

  function BlankRun(s: string): (k: nat)
    ensures k <= |s|
  {
    if s == "" || !IsBlank(s[0]) then 0 else 1 + BlankRun(s[1..])
  }

  datatype Bandwidth = Bandwidth(digits: string, prefix: Option<char>, bytes: bool)

  /** bandwidthPattern: digits, blanks, an optional prefix, b or B, and "ps". */
  function Pattern(s: string): (r: Option<Bandwidth>)
    ensures r.Some? ==> AllDigits(r.value.digits) && r.value.digits != ""
  {
    var k := DigitRun(s);
    var unit := s[k + BlankRun(s[k..])..];
    if k == 0 then None
    else if unit == "bps" || unit == "Bps" then Some(Bandwidth(s[..k], None, unit[0] == 'B'))
    else if |unit| == 4 && unit[0] in {'K', 'M', 'G', 'T', 'k', 'm', 'g', 't'}
      && (unit[1..] == "bps" || unit[1..] == "Bps")
      then Some(Bandwidth(s[..k], Some(unit[0]), unit[1] == 'B'))
    else None
  }

  function Factor(prefix: Option<char>): nat {
    match prefix
    case None => 1
    case Some(c) =>
      if c in {'T', 't'} then 1_000_000_000_000
      else if c in {'G', 'g'} then 1_000_000_000
      else if c in {'M', 'm'} then 1_000_000
      else if c in {'K', 'k'} then 1_000
      else 1
  }

  /** The limit a bandwidth states, in bits per second. */
  function TrueBits(value: nat, prefix: Option<char>, bytes: bool): nat {
    value * Factor(prefix) * (if bytes then 8 else 1)
  }

  /** Whole megabits, a fraction of the first one rounded up, capped at the largest int32. */
  function Megabits(bits: nat): (r: nat)
    ensures r <= MAX_INT32 && (r == 0 <==> bits == 0)
  {
    var whole := bits / 1_000_000;
    if whole == 0 then (if bits > 0 then 1 else 0)
    else if whole > MAX_INT32 then MAX_INT32 else whole
  }

  lemma WrapTwice(a: nat, k: nat)
    ensures (a % TWO_64 * k) % TWO_64 == (a * k) % TWO_64
  {
    var q, r := a / TWO_64, a % TWO_64;
    assert a * k == (q * TWO_64 + r) * k == (q * k) * TWO_64 + r * k;
    Multiples(r * k, q * k);
  }

  lemma Multiples(x: nat, n: nat)
    ensures (x + n * TWO_64) % TWO_64 == x % TWO_64
  {}

  /** The multiplications of ParseBandwidth, each in 64-bit arithmetic. */
  method WrappedBits(value: nat, prefix: Option<char>, bytes: bool) returns (bits: nat)
    requires value < TWO_64
    ensures bits == TrueBits(value, prefix, bytes) % TWO_64
  {
    bits := value;
    if prefix.Some? {
      match prefix.value {
        case 'T' => bits := (bits * 1_000_000_000_000) % TWO_64;
        case 't' => bits := (bits * 1_000_000_000_000) % TWO_64;
        case 'G' => bits := (bits * 1_000_000_000) % TWO_64;
        case 'g' => bits := (bits * 1_000_000_000) % TWO_64;
        case 'M' => bits := (bits * 1_000_000) % TWO_64;
        case 'm' => bits := (bits * 1_000_000) % TWO_64;
        case 'K' => bits := (bits * 1_000) % TWO_64;
        case 'k' => bits := (bits * 1_000) % TWO_64;
        case _ =>
      }
    }
    assert bits == (value * Factor(prefix)) % TWO_64;
    if bytes {
      WrapTwice(value * Factor(prefix), 8);
      bits := (bits * 8) % TWO_64;
    }
  }

  /** What a text states, in megabits per second: a bare number is taken as it is; the unit form comes to the stated
      bits modulo 2^64. */
  function Mbps(text: string): int {
    var s := TrimSpace(text);
    var p := Pattern(s);
    if s == "" then 0
    else if Atoi(s).Some? then Atoi(s).value
    else if p.None? || Value(p.value.digits) >= TWO_64 then 0
    else Megabits(TrueBits(Value(p.value.digits), p.value.prefix, p.value.bytes) % TWO_64)
  }

  /** ParseBandwidth. */
  method ParseBandwidth(text: string) returns (mbps: int)
    ensures mbps == Mbps(text)
  {
    var s := TrimSpace(text);
    if s == "" { return 0; }
    if Atoi(s).Some? { return Atoi(s).value; }
    var p := Pattern(s);
    if p.None? { return 0; }
    var m := p.value;
    var value := Value(m.digits);
    if value >= TWO_64 { return 0; }
    var bits := WrappedBits(value, m.prefix, m.bytes);
    mbps := bits / 1_000_000;
    if mbps == 0 && bits > 0 { return 1; }
    if mbps > MAX_INT32 { return MAX_INT32; }
  }

  lemma {:induction false} BlankRunOf(blanks: string, unit: string)
    requires (forall c :: c in blanks ==> IsBlank(c)) && unit != "" && !IsBlank(unit[0])
    ensures BlankRun(blanks + unit) == |blanks|
  {
    if blanks == "" {
      assert "" + unit == unit;
    } else {
      assert blanks[0] in blanks && (blanks + unit)[1..] == blanks[1..] + unit;
      BlankRunOf(blanks[1..], unit);
    }
  }

  /** A number, blanks and a unit, taken apart. */
  lemma PatternReads(n: nat, blanks: string, unit: string)
    requires (forall c :: c in blanks ==> IsBlank(c)) && unit != "" && !IsBlank(unit[0]) && !IsDigit(unit[0])
    ensures var s := Itoa(n) + blanks + unit;
            DigitRun(s) == |Itoa(n)| && s[..DigitRun(s)] == Itoa(n)
            && s[DigitRun(s) + BlankRun(s[DigitRun(s)..])..] == unit
  {
    var digits, rest := Itoa(n), blanks + unit;
    hide Itoa;
    var s := digits + blanks + unit;
    assert s == digits + rest;
    assert blanks != "" ==> rest[0] == blanks[0] && blanks[0] in blanks;
    RunOf(digits, rest);
    assert s[|digits|..] == rest && s[..|digits|] == digits;
    BlankRunOf(blanks, unit);
    assert s[|digits| + |blanks|..] == unit;
  }

  /** A text that begins with a digit and ends in a letter is not blank, has nothing to trim, and is no number. */
  lemma NoNumber(s: string)
    requires s != "" && IsDigit(s[0]) && s[|s| - 1] == 's'
    ensures TrimSpace(s) == s && Atoi(s).None?
  {
    TrimKeeps(s);
    assert s[|s| - 1] in s;
  }

  predicate IsUnit(unit: string, prefix: string, bytes: bool) {
    && unit == prefix + (if bytes then "Bps" else "bps")
    && (prefix == "" || (|prefix| == 1 && prefix[0] in {'K', 'M', 'G', 'T', 'k', 'm', 'g', 't'}))
  }

  lemma UnitReads(n: nat, blanks: string, unit: string, prefix: string, bytes: bool)
    requires (forall c :: c in blanks ==> IsBlank(c)) && IsUnit(unit, prefix, bytes)
    ensures var s := Itoa(n) + blanks + unit;
            && TrimSpace(s) == s && Atoi(s).None?
            && Pattern(s) == Some(Bandwidth(Itoa(n), if prefix == "" then None else Some(prefix[0]), bytes))
  {
    var s := Itoa(n) + blanks + unit;
    assert s[0] == Itoa(n)[0] && Itoa(n)[0] in Itoa(n) && s[|s| - 1] == unit[|unit| - 1];
    NoNumber(s);
    PatternReads(n, blanks, unit);
    UnitSplits(unit, prefix, bytes);
    hide Itoa, Atoi, TrimSpace, DigitRun, BlankRun, IsUnit;
  }

  lemma UnitSplits(unit: string, prefix: string, bytes: bool)
    requires IsUnit(unit, prefix, bytes)
    ensures unit != "" && !IsBlank(unit[0]) && !IsDigit(unit[0]) && unit[|unit| - 1] == 's'
    ensures prefix == "" ==> (if bytes then unit == "Bps" else unit == "bps") && unit[0] == if bytes then 'B' else 'b'
    ensures prefix != "" ==> |unit| == 4 && unit[0] == prefix[0] && unit[1] == (if bytes then 'B' else 'b')
                             && unit[0] in {'K', 'M', 'G', 'T', 'k', 'm', 'g', 't'}
                             && (if bytes then unit[1..] == "Bps" else unit[1..] == "bps")
  {}

  lemma MegabitsAre(bits: nat)
    ensures Megabits(bits) ==
            if bits == 0 then 0
            else if bits < 2_000_000 then 1
            else if bits >= 0x8000_0000 * 1_000_000 then 0x7fff_ffff
            else bits / 1_000_000
  {}

  /** A text of a number, blanks and a unit states that number of bits or bytes, thousands, millions, billions or
      trillions of them, modulo 2^64: in whole megabits, at least one and at most the largest int32; none for none. */
  lemma BandwidthReads(n: nat, blanks: string, unit: string, prefix: string, bytes: bool)
    requires (forall c :: c in blanks ==> IsBlank(c)) && IsUnit(unit, prefix, bytes)
    ensures var each := if prefix == "" then 1
                        else if prefix[0] in {'K', 'k'} then 1_000
                        else if prefix[0] in {'M', 'm'} then 1_000_000
                        else if prefix[0] in {'G', 'g'} then 1_000_000_000
                        else 1_000_000_000_000;
            var bits := n * each * (if bytes then 8 else 1) % 0x1_0000_0000_0000_0000;
            Mbps(Itoa(n) + blanks + unit) ==
            if n >= 0x1_0000_0000_0000_0000 || bits == 0 then 0
            else if bits < 2_000_000 then 1
            else if bits >= 0x8000_0000 * 1_000_000 then 0x7fff_ffff
            else bits / 1_000_000
  {
    var p := if prefix == "" then None else Some(prefix[0]);
    StatedReads(n, blanks, unit, prefix, bytes);
    MegabitsAre(TrueBits(n, p, bytes) % TWO_64);
    hide Mbps, Megabits, Itoa;
  }

  lemma StatedReads(n: nat, blanks: string, unit: string, prefix: string, bytes: bool)
    requires (forall c :: c in blanks ==> IsBlank(c)) && IsUnit(unit, prefix, bytes)
    ensures var p := if prefix == "" then None else Some(prefix[0]);
            Mbps(Itoa(n) + blanks + unit) == if n >= TWO_64 then 0 else Megabits(TrueBits(n, p, bytes) % TWO_64)
  {
    UnitReads(n, blanks, unit, prefix, bytes);
    ValueOfItoa(n);
    assert Itoa(n) + blanks + unit != "";
    hide Pattern, Atoi, TrimSpace, Itoa, Value, Megabits, TrueBits, IsUnit;
  }

  /** A bare number states itself. */
  lemma NumberReads(n: nat)
    requires n <= MAX_INT64
    ensures Mbps(Itoa(n)) == n
  {
    var s := Itoa(n);
    ValueOfItoa(n);
    assert s[0] in s && s[|s| - 1] in s;
    TrimKeeps(s);
    hide Itoa, Pattern, TrimSpace;
  }

  /** The result is the stated limit in megabits if and only if the stated bits fit in 64, or what is left of them
      after wrapping still reaches the cap. */
  lemma WrappedIsExact(value: nat, prefix: Option<char>, bytes: bool)
    ensures var bits := TrueBits(value, prefix, bytes);
            Megabits(bits % TWO_64) == Megabits(bits) <==> bits < TWO_64 || (bits % TWO_64) / 1_000_000 >= MAX_INT32
  {
    var bits := TrueBits(value, prefix, bytes);
    if bits >= TWO_64 { assert bits / 1_000_000 > MAX_INT32; }
  }

  /** A huge limit can wrap to none at all: 2^52 terabits per second. */
  lemma HugeLimitBecomesNone()
    ensures TrueBits(0x10_0000_0000_0000, Some('T'), false) % TWO_64 == 0
    ensures Megabits(TrueBits(0x10_0000_0000_0000, Some('T'), false) % TWO_64) == 0
  {}

  /** 2^64 without the twos of the factor. */
  function Left(factor: nat): nat {
    if factor == 1_000_000_000_000 then 0x10_0000_0000_0000
    else if factor == 1_000_000_000 then 0x80_0000_0000_0000
    else if factor == 1_000_000 then 0x400_0000_0000_0000
    else if factor == 1_000 then 0x2000_0000_0000_0000
    else TWO_64
  }

  /** The values that come to no limit at all are the multiples of this: 2^64, without the twos of the unit. */
  function Period(prefix: Option<char>, bytes: bool): nat {
    if bytes then Left(Factor(prefix)) / 8 else Left(Factor(prefix))
  }

  /** Quotient and remainder are the only ones. */
  lemma Remainder(x: nat, m: nat, q: int, r: nat)
    requires x == q * m + r && r < m
    ensures x % m == r
  {
    var p := x / m;
    assert x == p * m + x % m;
    var d := p - q;
    assert x % m == r - d * m by { assert d * m == p * m - q * m; }
    Multiple(d, m);
  }

  lemma Multiple(d: int, m: int)
    requires m >= 0
    ensures (d >= 1 ==> d * m >= m) && (d <= -1 ==> d * m <= -m)
  {
    if d >= 1 {
      assert (d - 1) * m >= 0;
    } else if d <= -1 {
      assert (-d - 1) * m >= 0;
    }
  }

  /** Multiplying by a number with an inverse modulo m changes nothing about divisibility by m. */
  lemma InverseDivides(value: nat, odd: nat, inverse: nat, m: nat)
    requires m > 1 && odd * inverse % m == 1
    ensures value * odd % m == 0 <==> value % m == 0
  {
    if value % m == 0 {
      var q := value / m;
      assert value == q * m;
      Regroup(q, m, odd);
      Remainder(value * odd, m, q * odd, 0);
    }
    if value * odd % m == 0 {
      var q, c := value * odd / m, odd * inverse / m;
      assert value * odd == q * m && odd * inverse == c * m + 1;
      Solved(value, odd, inverse, m, q, c);
      Remainder(value, m, q * inverse - value * c, 0);
    }
  }

  lemma Regroup(q: int, m: int, k: int)
    ensures q * m * k == q * k * m
  {}

  lemma Solved(value: int, odd: int, inverse: int, m: int, q: int, c: int)
    requires value * odd == q * m && odd * inverse == c * m + 1
    ensures value == (q * inverse - value * c) * m
  {
    calc {
      value * c * m + value;
      value * (c * m + 1);
      value * (odd * inverse);
      value * odd * inverse;
      q * m * inverse;
      q * inverse * m;
    }
    assert (q * inverse - value * c) * m == q * inverse * m - value * c * m;
  }

  /** Dividing both sides by k. */
  lemma Halved(x: nat, m: nat, k: nat)
    requires m > 0 && k > 0
    ensures m * k > 0 && (x * k % (m * k) == 0 <==> x % m == 0)
  {
    var q, r := x / m, x % m;
    assert x == q * m + r;
    assert x * k == q * (m * k) + r * k by { assert (q * m + r) * k == q * m * k + r * k; }
    Products(r, m, k);
    Remainder(x * k, m * k, q, r * k);
  }

  lemma Products(r: nat, m: nat, k: nat)
    requires r < m && k > 0
    ensures 0 <= r * k < m * k && (r * k == 0 <==> r == 0)
  {
    assert r * k <= (m - 1) * k == m * k - k;
  }

  /** A factor that is odd but for k, a power of two. */
  lemma WrapsToNothing(value: nat, odd: nat, inverse: nat, m: nat, k: nat)
    requires m > 1 && k > 0 && m * k == TWO_64 && odd * inverse % m == 1
    ensures value * (odd * k) % TWO_64 == 0 <==> value % m == 0
  {
    assert value * (odd * k) == value * odd * k;
    Halved(value * odd, m, k);
    InverseDivides(value, odd, inverse, m);
  }

  /** The bits wrap to none. */
  predicate Vanishes(value: nat, factor: nat, bytes: bool) {
    value * (factor * (if bytes then 8 else 1)) % TWO_64 == 0
  }

  predicate MultipleOf(value: nat, m: nat) { m > 0 && value % m == 0 }

  /** A unit whose factor is odd but for k, which leaves `whole` of 2^64. */
  lemma UnitWraps(value: nat, factor: nat, odd: nat, inverse: nat, whole: nat, k: nat, bytes: bool)
    requires whole > 8 && whole % 8 == 0 && k > 0 && whole * k == TWO_64 && factor == odd * k
    requires odd * inverse % whole == 1 && odd * inverse % (whole / 8) == 1
    ensures Vanishes(value, factor, bytes) <==> MultipleOf(value, if bytes then whole / 8 else whole)
  {
    if bytes {
      var m := whole / 8;
      assert m * 8 == whole && m * (8 * k) == m * 8 * k;
      WrapsToNothing(value, odd, inverse, m, 8 * k);
      assert odd * (8 * k) == odd * k * 8;
    } else {
      WrapsToNothing(value, odd, inverse, whole, k);
    }
  }

  lemma VanishesToNone(value: nat, prefix: Option<char>, bytes: bool)
    ensures Megabits(TrueBits(value, prefix, bytes) % TWO_64) == 0 <==> Vanishes(value, Factor(prefix), bytes)
  {
    assert TrueBits(value, prefix, bytes) == value * (Factor(prefix) * (if bytes then 8 else 1));
    hide TrueBits, Factor;
  }

  lemma FactorIs(prefix: Option<char>)
    ensures Factor(prefix) in {1, 1_000, 1_000_000, 1_000_000_000, 1_000_000_000_000}
  {}

  lemma TrillionWraps(value: nat, bytes: bool)
    ensures Vanishes(value, 1_000_000_000_000, bytes) <==>
            MultipleOf(value, if bytes then Left(1_000_000_000_000) / 8 else Left(1_000_000_000_000))
  {
    UnitWraps(value, 1_000_000_000_000, 244140625, 810210403827377, 0x10_0000_0000_0000, 0x1000, bytes);
  }

  lemma BillionWraps(value: nat, bytes: bool)
    ensures Vanishes(value, 1_000_000_000, bytes) <==>
            MultipleOf(value, if bytes then Left(1_000_000_000) / 8 else Left(1_000_000_000))
  {
    UnitWraps(value, 1_000_000_000, 1953125, 20211507185753197, 0x80_0000_0000_0000, 0x200, bytes);
  }

  lemma MillionWraps(value: nat, bytes: bool)
    ensures Vanishes(value, 1_000_000, bytes) <==>
            MultipleOf(value, if bytes then Left(1_000_000) / 8 else Left(1_000_000))
  {
    UnitWraps(value, 1_000_000, 15625, 76480200929599801, 0x400_0000_0000_0000, 0x40, bytes);
  }

  lemma ThousandWraps(value: nat, bytes: bool)
    ensures Vanishes(value, 1_000, bytes) <==> MultipleOf(value, if bytes then Left(1_000) / 8 else Left(1_000))
  {
    UnitWraps(value, 1_000, 125, 2066035336255469781, 0x2000_0000_0000_0000, 8, bytes);
  }

  lemma OneWraps(value: nat, bytes: bool)
    ensures Vanishes(value, 1, bytes) <==> MultipleOf(value, if bytes then Left(1) / 8 else Left(1))
  {
    UnitWraps(value, 1, 1, 1, TWO_64, 1, bytes);
  }

  lemma VanishesExactly(value: nat, prefix: Option<char>, bytes: bool)
    ensures Vanishes(value, Factor(prefix), bytes) <==> MultipleOf(value, Period(prefix, bytes))
  {
    FactorIs(prefix);
    TrillionWraps(value, bytes);
    BillionWraps(value, bytes);
    MillionWraps(value, bytes);
    ThousandWraps(value, bytes);
    OneWraps(value, bytes);
    hide Factor, Vanishes, MultipleOf, Left;
  }

  /** A stated bandwidth becomes unlimited if and only if its number is a multiple of the period of its unit. */
  lemma UnlimitedExactly(value: nat, prefix: Option<char>, bytes: bool)
    ensures Megabits(TrueBits(value, prefix, bytes) % TWO_64) == 0 <==> value % Period(prefix, bytes) == 0
  {
    VanishesToNone(value, prefix, bytes);
    VanishesExactly(value, prefix, bytes);
    hide TrueBits, Factor, Megabits, Vanishes;
  }

  lemma MegabitsMonotone(a: nat, b: nat)
    requires a <= b
    ensures Megabits(a) <= Megabits(b)
  {
    assert a / 1_000_000 <= b / 1_000_000;
  }

  lemma ProductGrows(a: nat, b: nat, k: nat)
    requires a <= b && k >= 1
    ensures a * k <= b * k && a <= a * k
  {}

  /** Where nothing wraps a larger value never gives a smaller limit, and a positive one never gives none. */
  lemma LimitsAreMonotone(value: nat, more: nat, prefix: Option<char>, bytes: bool)
    requires value <= more && TrueBits(more, prefix, bytes) < TWO_64
    ensures Megabits(TrueBits(value, prefix, bytes) % TWO_64) <= Megabits(TrueBits(more, prefix, bytes) % TWO_64)
    ensures value > 0 ==> Megabits(TrueBits(value, prefix, bytes) % TWO_64) > 0
  {
    ProductGrows(value, more, Factor(prefix));
    ProductGrows(value * Factor(prefix), more * Factor(prefix), if bytes then 8 else 1);
    NoWrap(TrueBits(value, prefix, bytes));
    NoWrap(TrueBits(more, prefix, bytes));
    MegabitsMonotone(TrueBits(value, prefix, bytes), TrueBits(more, prefix, bytes));
  }

  lemma NoWrap(bits: nat)
    requires bits < TWO_64
    ensures bits % TWO_64 == bits
  {}
}
