/** Strings as the source builds them: numerals in a base, lines and fields, and the order of `sorted`. */
module Text {

  datatype Option<+T> = None | Some(value: T)

  // ------------------------------------------------------------ numerals

  predicate IsDigit(c: char) {
    '0' <= c <= '9'
  }

  function DigitValue(c: char): nat
    requires IsDigit(c)
  {
    (c as int) - ('0' as int)
  }

  function Digit(value: nat): (c: char)
    requires value < 10
    ensures IsDigit(c) && DigitValue(c) == value
  {
    (('0' as int) + value) as char
  }

  /** `str(n)` for base ten, `format(n, "o")` for base eight. */
  function Numeral(n: nat, base: nat): (s: string)
    requires 2 <= base <= 10
    ensures |s| > 0 && forall c :: c in s ==> IsDigit(c)
  {
    if n < base then [Digit(n)]
    else
      QuotientShrinks(n, base);
      Numeral(n / base, base) + [Digit(n % base)]
  }

  lemma QuotientShrinks(n: nat, base: nat)
    requires 2 <= base <= n
    ensures n / base < n && n % base < base
  {
  }

  /** Reads a numeral; anything that is not a non-empty run of digits below the base is rejected. */
  function ParseNumeral(s: string, base: nat): Option<nat>
    requires 2 <= base <= 10
  {
    if s == "" || !IsDigit(s[|s| - 1]) || DigitValue(s[|s| - 1]) >= base then None
    else
      var low := DigitValue(s[|s| - 1]);
      if |s| == 1 then Some(low)
      else match ParseNumeral(s[..|s| - 1], base)
        case None => None
        case Some(high) => Some(high * base + low)
  }

  lemma AppendDigit(high: nat, s: string, low: nat, base: nat)
    requires 2 <= base <= 10 && low < base
    requires s != "" && ParseNumeral(s, base) == Some(high)
    ensures ParseNumeral(s + [Digit(low)], base) == Some(high * base + low)
  {
    var t := s + [Digit(low)];
    assert t[..|t| - 1] == s;
  }

  lemma QuotientRemainder(n: nat, base: nat) returns (high: nat, low: nat)
    requires 2 <= base <= n
    ensures high == n / base && low == n % base && low < base && high < n
    ensures n == high * base + low
  {
    high, low := n / base, n % base;
  }

  lemma {:induction false} NumeralParses(n: nat, base: nat)
    requires 2 <= base <= 10
    ensures ParseNumeral(Numeral(n, base), base) == Some(n)
  {
    if n >= base {
      var high, low := QuotientRemainder(n, base);
      NumeralParses(high, base);
      AppendDigit(high, Numeral(high, base), low, base);
    }
  }

  lemma NumeralInjective(m: nat, n: nat, base: nat)
    requires 2 <= base <= 10
    requires Numeral(m, base) == Numeral(n, base)
    ensures m == n
  {
    NumeralParses(m, base);
    NumeralParses(n, base);
  }

  /** Zero padding on the left, as in the format `04o`. */
  function Padded(s: string, width: nat): (r: string)
    ensures (forall c :: c in s ==> IsDigit(c)) ==> forall c :: c in r ==> IsDigit(c)
    decreases if |s| < width then width - |s| else 0
  {
    if |s| < width then Padded("0" + s, width) else s
  }

  lemma {:induction false} LeadingZero(s: string, base: nat)
    requires 2 <= base <= 10 && s != ""
    ensures ParseNumeral("0" + s, base) == ParseNumeral(s, base)
  {
    var z := "0" + s;
    assert z[|z| - 1] == s[|s| - 1];
    assert z[..|z| - 1] == "0" + s[..|s| - 1];
    if |s| > 1 {
      LeadingZero(s[..|s| - 1], base);
    } else {
      assert z[..|z| - 1] == "0";
    }
  }

  lemma {:induction false} PaddingParses(s: string, width: nat, base: nat)
    requires 2 <= base <= 10 && s != ""
    ensures ParseNumeral(Padded(s, width), base) == ParseNumeral(s, base)
    decreases if |s| < width then width - |s| else 0
  {
    if |s| < width {
      LeadingZero(s, base);
      PaddingParses("0" + s, width, base);
    }
  }

  // ---------------------------------------------------- lines and fields

  function Join(parts: seq<string>, sep: char): string
    requires parts != []
  {
    if |parts| == 1 then parts[0] else parts[0] + [sep] + Join(parts[1..], sep)
  }

  function Split(s: string, sep: char): (parts: seq<string>)
    ensures parts != []
  {
    if s == "" then [""]
    else
      var rest := Split(s[1..], sep);
      if s[0] == sep then [""] + rest else [[s[0]] + rest[0]] + rest[1..]
  }

  lemma {:induction false} SplitWhole(s: string, sep: char)
    requires sep !in s
    ensures Split(s, sep) == [s]
  {
    if s != "" {
      SplitWhole(s[1..], sep);
      assert [s[0]] + s[1..] == s;
    }
  }

  lemma {:induction false} SplitFirst(s: string, rest: string, sep: char)
    requires sep !in s
    ensures Split(s + [sep] + rest, sep) == [s] + Split(rest, sep)
  {
    var whole := s + [sep] + rest;
    if s == "" {
      assert whole[1..] == rest;
    } else {
      SplitFirst(s[1..], rest, sep);
      assert whole[1..] == s[1..] + [sep] + rest;
      assert [s[0]] + s[1..] == s;
    }
  }

  lemma {:induction false} SplitOfJoin(parts: seq<string>, sep: char)
    requires parts != [] && forall p :: p in parts ==> sep !in p
    ensures Split(Join(parts, sep), sep) == parts
  {
    if |parts| == 1 {
      SplitWhole(parts[0], sep);
    } else {
      SplitOfJoin(parts[1..], sep);
      SplitFirst(parts[0], Join(parts[1..], sep), sep);
      assert parts == [parts[0]] + parts[1..];
    }
  }

  // ------------------------------------------------------------- sorted()

  /** Code-point order on strings. */
  predicate LexLe(a: string, b: string) {
    a == "" || (b != "" && (a[0] < b[0] || (a[0] == b[0] && LexLe(a[1..], b[1..]))))
  }

  lemma {:induction false} LexTotal(a: string, b: string)
    ensures LexLe(a, b) || LexLe(b, a)
  {
    if a != "" && b != "" && a[0] == b[0] {
      LexTotal(a[1..], b[1..]);
    }
  }

  lemma {:induction false} LexTransitive(a: string, b: string, c: string)
    requires LexLe(a, b) && LexLe(b, c)
    ensures LexLe(a, c)
  {
    if a != "" && a[0] == b[0] && b[0] == c[0] {
      LexTransitive(a[1..], b[1..], c[1..]);
    }
  }

  lemma {:induction false} LeastExists(s: set<string>)
    requires s != {}
    ensures exists k :: IsLeast(s, k)
  {
    var x :| x in s;
    LexTotal(x, x);
    if s == {x} {
      assert IsLeast(s, x);
    } else {
      LeastExists(s - {x});
      var k :| IsLeast(s - {x}, k);
      LexTotal(x, k);
      if LexLe(x, k) {
        forall j | j in s ensures LexLe(x, j) {
          if j != x { LexTransitive(x, k, j); }
        }
        assert IsLeast(s, x);
      } else {
        assert IsLeast(s, k);
      }
    }
  }

  predicate IsLeast(s: set<string>, k: string) {
    k in s && forall j :: j in s ==> LexLe(k, j)
  }

  lemma {:induction false} LexAntisymmetric(a: string, b: string)
    requires LexLe(a, b) && LexLe(b, a)
    ensures a == b
  {
    if a != "" {
      LexAntisymmetric(a[1..], b[1..]);
      assert a == [a[0]] + a[1..];
      assert b == [b[0]] + b[1..];
    }
  }

  lemma LeastIsUnique(s: set<string>)
    ensures forall k, j :: IsLeast(s, k) && IsLeast(s, j) ==> k == j
  {
    forall k, j | IsLeast(s, k) && IsLeast(s, j)
      ensures k == j
    {
      LexAntisymmetric(k, j);
    }
  }

  predicate NoDuplicates<T(==)>(s: seq<T>) {
    forall i, j :: 0 <= i < j < |s| ==> s[i] != s[j]
  }

  /** `r` is read off `s` at the ascending positions `at`: some of its elements, in their order. */
  ghost predicate ReadOff(s: seq<string>, at: seq<int>, r: seq<string>) {
    && |at| == |r| && (forall i :: 0 <= i < |at| ==> 0 <= at[i] < |s| && s[at[i]] == r[i])
    && forall i, j :: 0 <= i < j < |at| ==> at[i] < at[j]
  }

  lemma ReadOffSnoc(s: seq<string>, at: seq<int>, r: seq<string>, x: string)
    requires ReadOff(s, at, r)
    ensures ReadOff(s + [x], at, r) && ReadOff(s + [x], at + [|s|], r + [x])
  {
  }

  ghost predicate Ascending(s: seq<string>) {
    forall i, j :: 0 <= i < j < |s| ==> LexLe(s[i], s[j])
  }

  /** `sorted` of a set: every element once, in order. */
  function Sorted(s: set<string>): (r: seq<string>)
    ensures forall k :: k in r <==> k in s
  {
    if s == {} then []
    else
      LeastExists(s);
      LeastIsUnique(s);
      var k :| IsLeast(s, k);
      [k] + Sorted(s - {k})
  }

  lemma {:induction false} SortedIsSorted(s: set<string>)
    ensures NoDuplicates(Sorted(s)) && Ascending(Sorted(s))
  {
    if s != {} {
      LeastExists(s);
      LeastIsUnique(s);
      var k :| IsLeast(s, k);
      SortedIsSorted(s - {k});
      var rest := Sorted(s - {k});
      assert Sorted(s) == [k] + rest;
      forall i, j | 0 <= i < j < |Sorted(s)|
        ensures Sorted(s)[i] != Sorted(s)[j] && LexLe(Sorted(s)[i], Sorted(s)[j])
      {
        assert Sorted(s)[j] == rest[j - 1] && rest[j - 1] in rest;
        if i > 0 { assert Sorted(s)[i] == rest[i - 1]; }
      }
    }
  }
}
