/** The string operations the programs share: Unicode white space, trimming, and byte order. */
module Text {

  predicate IsSpace(c: char) {
    var n := c as int;
    || 9 <= n <= 13 || n == 32 || n == 0x85 || n == 0xA0 || n == 0x1680
    || 0x2000 <= n <= 0x200A || n == 0x2028 || n == 0x2029 || n == 0x202F || n == 0x205F || n == 0x3000
  }

  function TrimLeft(s: string): string {
    if s != "" && IsSpace(s[0]) then TrimLeft(s[1..]) else s
  }

  function TrimRight(s: string): string {
    if s != "" && IsSpace(s[|s| - 1]) then TrimRight(s[..|s| - 1]) else s
  }

  function TrimSpace(s: string): string {
    TrimRight(TrimLeft(s))
  }

  /** No white space at either end. */
  predicate Trimmed(s: string) {
    s == "" || (!IsSpace(s[0]) && !IsSpace(s[|s| - 1]))
  }

  lemma {:induction false} TrimLeftSuffix(s: string)
    ensures |TrimLeft(s)| <= |s| && TrimLeft(s) == s[|s| - |TrimLeft(s)|..]
    ensures TrimLeft(s) != "" ==> !IsSpace(TrimLeft(s)[0])
  {
    if s != "" && IsSpace(s[0]) {
      TrimLeftSuffix(s[1..]);
    }
  }

  lemma {:induction false} TrimRightPrefix(s: string)
    ensures |TrimRight(s)| <= |s| && TrimRight(s) == s[..|TrimRight(s)|]
    ensures TrimRight(s) != "" ==> !IsSpace(TrimRight(s)[|TrimRight(s)| - 1])
  {
    if s != "" && IsSpace(s[|s| - 1]) {
      TrimRightPrefix(s[..|s| - 1]);
    }
  }

  /** Trimming yields a trimmed piece of the text. */
  lemma TrimSpaceTrims(s: string)
    ensures |TrimSpace(s)| <= |s| && Trimmed(TrimSpace(s))
  {
    TrimLeftSuffix(s);
    TrimRightPrefix(TrimLeft(s));
  }

  lemma TrimSpaceOfTrimmed(s: string)
    requires Trimmed(s)
    ensures TrimSpace(s) == s
  {
  }

  /** White space only. */
  ghost predicate Blank(s: string) {
    forall c :: c in s ==> IsSpace(c)
  }

  /** Trimming takes away exactly the white space at the ends. */
  lemma TrimsPadding(before: string, core: string, after: string)
    requires Blank(before) && Blank(after) && Trimmed(core)
    ensures TrimSpace(before + core + after) == core
  {
    if core == "" {
      assert before + core + after == before + after;
      DropsAfter("", before + after);
      DropsBefore(before + after, "");
      assert before + after + "" == before + after && "" + (before + after) == before + after;
    } else {
      assert before + core + after == before + (core + after);
      DropsBefore(before, core + after);
      assert (core + after)[0] == core[0];
      DropsAfter(core, after);
    }
  }

  /** What trimming takes away. */
  lemma {:induction false} Trimming(s: string) returns (before: string, after: string)
    ensures Blank(before) && Blank(after) && s == before + TrimSpace(s) + after
    decreases |s|
  {
    if s != "" && IsSpace(s[0]) {
      before, after := Trimming(s[1..]);
      before := [s[0]] + before;
      assert s == [s[0]] + s[1..];
    } else if s != "" && IsSpace(s[|s| - 1]) {
      var n := |s| - 1;
      before, after := Trimming(s[..n]);
      assert TrimLeft(s[..n]) == s[..n] && TrimLeft(s) == s;
      after := after + [s[n]];
      assert s == s[..n] + [s[n]];
    } else {
      before, after := "", "";
    }
  }

  lemma {:induction false} DropsBefore(pad: string, s: string)
    requires Blank(pad)
    ensures TrimLeft(pad + s) == TrimLeft(s)
  {
    if pad == "" {
      assert pad + s == s;
    } else {
      assert pad[0] in pad && forall c :: c in pad[1..] ==> c in pad;
      assert (pad + s)[1..] == pad[1..] + s;
      DropsBefore(pad[1..], s);
    }
  }

  lemma {:induction false} DropsAfter(s: string, pad: string)
    requires Blank(pad)
    ensures TrimRight(s + pad) == TrimRight(s)
  {
    if pad == "" {
      assert s + pad == s;
    } else {
      var n := |pad| - 1;
      assert pad[n] in pad && forall c :: c in pad[..n] ==> c in pad;
      assert (s + pad)[..|s + pad| - 1] == s + pad[..n];
      DropsAfter(s, pad[..n]);
    }
  }

  /* ---- order ---- */

  /** Strict lexicographic order; by code point, which is the byte order of UTF-8. */
  predicate Before(a: string, b: string) {
    b != "" && (a == "" || a[0] < b[0] || (a[0] == b[0] && Before(a[1..], b[1..])))
  }

  predicate Sorted(s: seq<string>) {
    forall i, j :: 0 <= i < j < |s| ==> !Before(s[j], s[i])
  }

  lemma {:induction false} BeforeIsStrict(a: string, b: string)
    ensures !(Before(a, b) && Before(b, a))
    ensures Before(a, b) || Before(b, a) || a == b
  {
    if a != "" && b != "" && a[0] == b[0] {
      BeforeIsStrict(a[1..], b[1..]);
      assert a == [a[0]] + a[1..] && b == [b[0]] + b[1..];
    }
  }

  lemma {:induction false} BeforeIsTransitive(a: string, b: string, c: string)
    requires !Before(b, a) && !Before(c, b)
    ensures !Before(c, a)
  {
    if a != "" && b != "" && c != "" && a[0] == b[0] == c[0] {
      BeforeIsTransitive(a[1..], b[1..], c[1..]);
    }
  }

  /* ---- numbers as text ---- */

  function Digits(n: nat): string {
    if n < 10 then [('0' as int + n) as char] else Digits(n / 10) + [('0' as int + n % 10) as char]
  }

  /** A number as the database writes it into a text column. */
  function Decimal(n: int): string {
    if n < 0 then "-" + Digits(-n) else Digits(n)
  }

  predicate IsPowerOfTen(n: nat) {
    n == 1 || (n >= 10 && n % 10 == 0 && IsPowerOfTen(n / 10))
  }

  function PowerOfTen(k: nat): nat {
    if k == 0 then 1 else 10 * PowerOfTen(k - 1)
  }

  lemma {:induction false} DigitsLength(n: nat, k: nat)
    requires k > 0
    ensures |Digits(n)| <= k <==> n < PowerOfTen(k)
    ensures forall i :: 0 <= i < |Digits(n)| ==> '0' <= Digits(n)[i] <= '9'
    ensures n > 0 ==> Digits(n)[0] != '0'
    ensures Digits(n) != ""
    decreases n, k
  {
    if n >= 10 {
      if k > 1 {
        DigitsLength(n / 10, k - 1);
      } else {
        DigitsLength(n / 10, 1);
        assert PowerOfTen(1) == 10 by { assert PowerOfTen(0) == 1; }
      }
      assert n / 10 < PowerOfTen(k - 1) <==> n < 10 * PowerOfTen(k - 1);
    } else {
      PowersArePositive(k - 1);
    }
  }

  lemma {:induction false} PowersArePositive(k: nat)
    ensures PowerOfTen(k) > 0
  {
    if k > 0 {
      PowersArePositive(k - 1);
    }
  }

  lemma {:induction false} BeforeSnoc(a: string, b: string, c: char, d: char)
    requires |a| == |b|
    ensures Before(a + [c], b + [d]) <==> Before(a, b) || (a == b && c < d)
  {
    if a != "" {
      assert (a + [c])[1..] == a[1..] + [c] && (b + [d])[1..] == b[1..] + [d];
      assert a == [a[0]] + a[1..] && b == [b[0]] + b[1..];
      BeforeSnoc(a[1..], b[1..], c, d);
    }
  }

  /** Of two numbers with equally many digits the text order is the number order. */
  lemma {:induction false} DigitsOrder(a: nat, b: nat)
    requires |Digits(a)| == |Digits(b)|
    ensures Before(Digits(a), Digits(b)) <==> a < b
    ensures Digits(a) == Digits(b) <==> a == b
  {
    DigitsLength(a, 1);
    DigitsLength(b, 1);
    assert PowerOfTen(1) == 10 by { assert PowerOfTen(0) == 1; }
    if a < 10 {
      assert Before([Digits(a)[0]], [Digits(b)[0]]) <==> Digits(a)[0] < Digits(b)[0];
    } else {
      DigitsOrder(a / 10, b / 10);
      var x, y := ('0' as int + a % 10) as char, ('0' as int + b % 10) as char;
      BeforeSnoc(Digits(a / 10), Digits(b / 10), x, y);
      assert Digits(a) == Digits(b) <==> Digits(a / 10) == Digits(b / 10) && x == y by {
        assert Digits(a)[|Digits(a)| - 1] == x && Digits(b)[|Digits(b)| - 1] == y;
        assert Digits(a)[..|Digits(a)| - 1] == Digits(a / 10) && Digits(b)[..|Digits(b)| - 1] == Digits(b / 10);
      }
    }
  }

  lemma {:induction false} BeforeShorter(s: string, c: char, t: string)
    requires |s| >= |t|
    ensures Before(s + [c], t) <==> Before(s, t)
  {
    if t != "" && s[0] == t[0] {
      assert (s + [c])[1..] == s[1..] + [c];
      BeforeShorter(s[1..], c, t[1..]);
    }
  }

  /** The first digits of a number, as many as the other has. */
  function Leading(n: nat, m: nat): nat {
    if n >= 10 && |Digits(n)| > |Digits(m)| then Leading(n / 10, m) else n
  }

  /** Text order looks only at the leading digits of the longer number. */
  lemma {:induction false} LongerOrder(n: nat, m: nat)
    requires |Digits(n)| >= |Digits(m)|
    ensures |Digits(Leading(n, m))| == |Digits(m)|
    ensures Before(Digits(n), Digits(m)) <==> Leading(n, m) < m
  {
    DigitsLength(m, 1);
    if |Digits(n)| > |Digits(m)| {
      LongerOrder(n / 10, m);
      BeforeShorter(Digits(n / 10), ('0' as int + n % 10) as char, Digits(m));
    } else {
      DigitsOrder(n, m);
    }
  }

  lemma {:induction false} PowerDigits(k: nat)
    ensures |Digits(PowerOfTen(k))| == k + 1
  {
    PowersArePositive(k);
    if k > 0 {
      PowersArePositive(k - 1);
      PowerDigits(k - 1);
      assert PowerOfTen(k) / 10 == PowerOfTen(k - 1);
    }
  }

  lemma {:induction false} LeadingOfPower(k: nat, m: nat)
    requires k + 1 >= |Digits(m)|
    ensures |Digits(m)| > 0 && Leading(PowerOfTen(k), m) == PowerOfTen(|Digits(m)| - 1)
  {
    DigitsLength(m, 1);
    PowerDigits(k);
    if k + 1 > |Digits(m)| {
      PowersArePositive(k - 1);
      assert PowerOfTen(k) / 10 == PowerOfTen(k - 1);
      LeadingOfPower(k - 1, m);
    }
  }

  lemma {:induction false} PowerIsLeast(m: nat)
    requires m > 0
    ensures |Digits(m)| > 0 && PowerOfTen(|Digits(m)| - 1) <= m
    ensures IsPowerOfTen(m) <==> m == PowerOfTen(|Digits(m)| - 1)
  {
    if m >= 10 {
      PowerIsLeast(m / 10);
      assert PowerOfTen(|Digits(m)| - 1) == 10 * PowerOfTen(|Digits(m / 10)| - 1);
    } else {
      assert PowerOfTen(0) == 1;
    }
  }

  /* Stands for the library's sort. */
  function Insert(x: string, s: seq<string>): seq<string> {
    if s == [] || Before(x, s[0]) then [x] + s else [s[0]] + Insert(x, s[1..])
  }

  function SortStrings(s: seq<string>): seq<string> {
    if s == [] then [] else Insert(s[0], SortStrings(s[1..]))
  }

  lemma {:induction false} InsertSorts(x: string, s: seq<string>)
    requires Sorted(s)
    ensures Sorted(Insert(x, s)) && multiset(Insert(x, s)) == multiset(s) + multiset{x}
  {
    if s == [] {
    } else {
      var rest := s[1..];
      assert s == [s[0]] + rest;
      BeforeIsStrict(x, s[0]);
      if Before(x, s[0]) {
        forall j | 0 <= j < |s| ensures !Before(s[j], x) {
          if j > 0 {
            BeforeIsTransitive(x, s[0], s[j]);
          }
        }
      } else {
        InsertSorts(x, rest);
        var tail := Insert(x, rest);
        forall j | 0 <= j < |tail| ensures !Before(tail[j], s[0]) {
          assert tail[j] in multiset(tail);
          assert tail[j] == x || tail[j] in rest;
        }
        assert Insert(x, s) == [s[0]] + tail;
      }
    }
  }

  lemma {:induction false} SortStringsSorts(s: seq<string>)
    ensures Sorted(SortStrings(s)) && multiset(SortStrings(s)) == multiset(s)
  {
    if s != [] {
      SortStringsSorts(s[1..]);
      InsertSorts(s[0], SortStrings(s[1..]));
      assert s == [s[0]] + s[1..];
    }
  }

  /* ---- lists in one text ---- */

  function Join(parts: seq<string>, sep: string): string {
    if parts == [] then ""
    else if |parts| == 1 then parts[0]
    else parts[0] + sep + Join(parts[1..], sep)
  }

  /** The first position of a character, or the length of the text. */
  function IndexOf(s: string, c: char): (i: nat)
    ensures i <= |s| && (i < |s| ==> s[i] == c) && forall j :: 0 <= j < i ==> s[j] != c
  {
    if s == "" || s[0] == c then 0 else 1 + IndexOf(s[1..], c)
  }

  lemma {:induction false} IndexOfPrefix(a: string, b: string, c: char)
    requires c !in a
    ensures IndexOf(a + [c] + b, c) == |a| && IndexOf(a, c) == |a|
  {
    if a != "" {
      assert a[0] in a;
      assert forall x :: x in a[1..] ==> x in a;
      assert (a + [c] + b)[1..] == a[1..] + [c] + b;
      IndexOfPrefix(a[1..], b, c);
    }
  }

  /** The pieces between the separators; one empty piece for the empty text. */
  function Split(s: string, sep: char): seq<string>
    decreases |s|
  {
    var i := IndexOf(s, sep);
    if i == |s| then [s] else [s[..i]] + Split(s[i + 1..], sep)
  }

  lemma {:induction false} SplitBefore(pad: string, s: string, sep: char)
    requires sep !in pad
    ensures Split(s, sep) != [] && Split(pad + s, sep) == [pad + Split(s, sep)[0]] + Split(s, sep)[1..]
  {
    var i := IndexOf(s, sep);
    if i == |s| {
      IndexOfPrefix(pad + s, "", sep);
    } else {
      assert pad + s == (pad + s[..i]) + [sep] + s[i + 1..];
      SplitHead(pad + s[..i], s[i + 1..], sep);
    }
  }

  lemma {:induction false} SplitAfter(s: string, pad: string, sep: char)
    requires sep !in pad
    ensures var parts := Split(s, sep);
      parts != [] && Split(s + pad, sep) == parts[..|parts| - 1] + [parts[|parts| - 1] + pad]
    decreases |s|
  {
    var i := IndexOf(s, sep);
    if i == |s| {
      IndexOfPrefix(s + pad, "", sep);
    } else {
      assert s + pad == s[..i] + [sep] + (s[i + 1..] + pad);
      SplitHead(s[..i], s[i + 1..] + pad, sep);
      SplitAfter(s[i + 1..], pad, sep);
    }
  }

  lemma {:induction false} SplitOfJoin(parts: seq<string>, sep: char)
    requires parts != [] && forall p :: p in parts ==> sep !in p
    ensures Split(Join(parts, [sep]), sep) == parts
  {
    assert parts[0] in parts;
    if |parts| == 1 {
      IndexOfPrefix(parts[0], "", sep);
    } else {
      var rest := parts[1..];
      assert forall p :: p in rest ==> p in parts;
      SplitOfJoin(rest, sep);
      SplitHead(parts[0], Join(rest, [sep]), sep);
    }
  }

  lemma {:induction false} SplitHead(head: string, tail: string, sep: char)
    requires sep !in head
    ensures Split(head + [sep] + tail, sep) == [head] + Split(tail, sep)
  {
    var whole := head + [sep] + tail;
    IndexOfPrefix(head, tail, sep);
    assert whole[..|head|] == head && whole[|head| + 1..] == tail;
  }
}
