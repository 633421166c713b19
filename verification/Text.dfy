/** Decimal numerals, and the byte order Go sorts strings by. */
module Text {
  import opened Basics

  // ---- strconv.Itoa on naturals ----

  predicate IsDigit(c: char) { '0' <= c <= '9' }

  function Digit(d: nat): (c: char)
    requires d < 10
    ensures IsDigit(c)
  {
    '0' + d as char
  }

  function Itoa(n: nat): (s: string)
    ensures s != [] && forall c :: c in s ==> IsDigit(c)
  {
    if n < 10 then [Digit(n)] else Itoa(n / 10) + [Digit(n % 10)]
  }

  /** The number a string of digits denotes. */
  function Value(s: string): nat
    requires forall c :: c in s ==> IsDigit(c)
  {
    if s == [] then 0
    else
      assert IsDigit(s[|s| - 1]);
      Value(s[..|s| - 1]) * 10 + (s[|s| - 1] as int - '0' as int)
  }

  lemma {:induction false} ValueOfItoa(n: nat)
    ensures Value(Itoa(n)) == n
  {
    if n >= 10 {
      ValueOfItoa(n / 10);
      var s := Itoa(n);
      assert s[..|s| - 1] == Itoa(n / 10);
      assert s[|s| - 1] == Digit(n % 10);
    } else {
      assert Itoa(n)[..0] == [];
    }
  }

  /** Two numbers with the same numeral are the same. */
  lemma ItoaInjective(m: nat, n: nat)
    requires Itoa(m) == Itoa(n)
    ensures m == n
  {
    ValueOfItoa(m);
    ValueOfItoa(n);
  }

  // ---- string order ----

  /** Lexicographic order by code unit. */
  predicate LexLe(a: string, b: string) {
    a == [] || (b != [] && (a[0] < b[0] || (a[0] == b[0] && LexLe(a[1..], b[1..]))))
  }

  lemma {:induction false} LexTotal(a: string, b: string)
    ensures LexLe(a, b) || LexLe(b, a)
    ensures LexLe(a, b) && LexLe(b, a) ==> a == b
  {
    if a != [] && b != [] && a[0] == b[0] {
      LexTotal(a[1..], b[1..]);
      assert a == [a[0]] + a[1..] && b == [b[0]] + b[1..];
    }
  }

  lemma {:induction false} LexTransitive(a: string, b: string, c: string)
    requires LexLe(a, b) && LexLe(b, c)
    ensures LexLe(a, c)
  {
    if a != [] && a[0] == b[0] && b[0] == c[0] {
      LexTransitive(a[1..], b[1..], c[1..]);
    }
  }

  ghost predicate Sorted(s: seq<string>) { forall i, j :: 0 <= i < j < |s| ==> LexLe(s[i], s[j]) }

  /** The keys in order, each once. */
  ghost predicate Lists(s: seq<string>, keys: set<string>) {
    Sorted(s) && NoDup(s) && forall x :: x in s <==> x in keys
  }

  /** The least of a non-empty set. */
  method Least(s: set<string>) returns (m: string)
    requires s != {}
    ensures m in s && forall x :: x in s ==> LexLe(m, x)
  {
    m :| m in s;
    var rest := s - {m};
    ghost var seen := {m};
    LexTotal(m, m);
    while rest != {}
      invariant s == seen + rest && m in seen && forall x :: x in seen ==> LexLe(m, x)
      decreases rest
    {
      var x :| x in rest;
      LexTotal(m, x);
      LexTotal(x, x);
      if !LexLe(m, x) {
        forall y | y in seen ensures LexLe(x, y) { LexTransitive(x, m, y); }
        m := x;
      }
      rest := rest - {x};
      seen := seen + {x};
    }
  }

  /** slices.Sort of the keys of a map. */
  method SortKeys(keys: set<string>) returns (r: seq<string>)
    ensures Lists(r, keys)
  {
    r := [];
    var rest := keys;
    while rest != {}
      invariant rest <= keys && Sorted(r) && NoDup(r)
      invariant forall x :: x in r <==> x in keys - rest
      invariant forall i, x :: 0 <= i < |r| && x in rest ==> LexLe(r[i], x)
      decreases rest
    {
      var m := Least(rest);
      assert forall i :: 0 <= i < |r| ==> r[i] in r;
      r := r + [m];
      rest := rest - {m};
    }
  }

  // ---- strings.TrimSpace ----

  /** unicode.IsSpace. */
  predicate IsSpace(c: char) {
    c in {' ', '\t', '\n', '\U{000B}', '\U{000C}', '\r', '\U{0085}', '\U{00A0}', '\U{1680}', '\U{2028}', '\U{2029}',
          '\U{202F}', '\U{205F}', '\U{3000}'}
    || '\U{2000}' <= c <= '\U{200A}'
  }

  function TrimLeft(s: string): string {
    if s != [] && IsSpace(s[0]) then TrimLeft(s[1..]) else s
  }

  function TrimRight(s: string): string {
    if s != [] && IsSpace(s[|s| - 1]) then TrimRight(s[..|s| - 1]) else s
  }

  function TrimSpace(s: string): string { TrimRight(TrimLeft(s)) }

  // ---- strings.ToLower on ASCII ----

  function LowerChar(c: char): char {
    if 'A' <= c <= 'Z' then 'a' + (c - 'A') else c
  }

  function ToLower(s: string): (r: string)
    ensures |r| == |s| && forall i :: 0 <= i < |s| ==> !('A' <= r[i] <= 'Z') && r[i] == LowerChar(s[i])
  {
    seq(|s|, i requires 0 <= i < |s| => LowerChar(s[i]))
  }

  predicate HasPrefix(s: string, prefix: string) { |prefix| <= |s| && s[..|prefix|] == prefix }
}
