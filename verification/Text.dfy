/** Strings as Python orders and prints them: lexicographic order, `sorted(set(...))`, decimal
    numerals, ASCII case mapping and joining. */
module Text {
  predicate Less(a: string, b: string) {
    b != [] && (a == [] || a[0] < b[0] || (a[0] == b[0] && Less(a[1..], b[1..])))
  }

  lemma {:induction false} LessTotal(a: string, b: string)
    ensures a == b || Less(a, b) || Less(b, a)
  {
    if a != [] && b != [] && a[0] == b[0] {
      LessTotal(a[1..], b[1..]);
      assert a == [a[0]] + a[1..] && b == [b[0]] + b[1..];
    }
  }

  lemma {:induction false} LessAsymmetric(a: string, b: string)
    requires Less(a, b)
    ensures !Less(b, a) && a != b
  {
    if a != [] && a[0] == b[0] {
      LessAsymmetric(a[1..], b[1..]);
    }
  }

  lemma {:induction false} LessTransitive(a: string, b: string, c: string)
    requires Less(a, b) && Less(b, c)
    ensures Less(a, c)
  {
    if a != [] && a[0] == b[0] == c[0] {
      LessTransitive(a[1..], b[1..], c[1..]);
    }
  }

  // ---- sorted(set(...)) ----

  ghost predicate Ascending(s: seq<string>) {
    forall i, j | 0 <= i < j < |s| :: Less(s[i], s[j])
  }

  function InsertUnique(x: string, s: seq<string>): seq<string> {
    if s == [] then [x]
    else if x == s[0] then s
    else if Less(x, s[0]) then [x] + s
    else [s[0]] + InsertUnique(x, s[1..])
  }

  function SortedUnique(s: seq<string>): seq<string> {
    if s == [] then [] else InsertUnique(s[0], SortedUnique(s[1..]))
  }

  lemma {:induction false} InsertUniqueSorts(x: string, s: seq<string>)
    requires Ascending(s)
    ensures Ascending(InsertUnique(x, s))
    ensures forall y :: y in InsertUnique(x, s) <==> y == x || y in s
  {
    if s != [] && x != s[0] {
      if Less(x, s[0]) {
        forall i | 0 < i < |s|
          ensures Less(x, s[i])
        {
          LessTransitive(x, s[0], s[i]);
        }
      } else {
        LessTotal(x, s[0]);
        InsertUniqueSorts(x, s[1..]);
        assert forall y | y in InsertUnique(x, s[1..]) :: Less(s[0], y);
      }
    }
  }

  lemma {:induction false} SortedUniqueSorts(s: seq<string>)
    ensures Ascending(SortedUnique(s))
    ensures forall y :: y in SortedUnique(s) <==> y in s
  {
    if s != [] {
      SortedUniqueSorts(s[1..]);
      InsertUniqueSorts(s[0], SortedUnique(s[1..]));
    }
  }

  /** A set has one ascending listing. */
  lemma {:induction false} AscendingIsCanonical(a: seq<string>, b: seq<string>)
    requires Ascending(a) && Ascending(b) && forall y :: y in a <==> y in b
    ensures a == b
  {
    assert b == [] || b[0] in b;
    if a != [] {
      assert a[0] in b;
      assert b[0] in a;
      HeadsAgree(a, b);
      forall y
        ensures y in a[1..] <==> y in b[1..]
      {
        TailMember(a, y);
        TailMember(b, y);
      }
      AscendingIsCanonical(a[1..], b[1..]);
    }
  }

  lemma HeadsAgree(a: seq<string>, b: seq<string>)
    requires Ascending(a) && Ascending(b) && a != [] && b != [] && a[0] in b && b[0] in a
    ensures a[0] == b[0]
  {
    var i :| 0 <= i < |b| && b[i] == a[0];
    var j :| 0 <= j < |a| && a[j] == b[0];
    if i > 0 && j > 0 {
      LessAsymmetric(a[0], a[j]);
    }
  }

  lemma TailMember(a: seq<string>, y: string)
    requires Ascending(a) && a != []
    ensures y in a[1..] <==> y in a && y != a[0]
  {
    if y in a[1..] {
      var k :| 0 < k < |a| && a[k] == y;
      LessAsymmetric(a[0], a[k]);
    }
  }

  lemma SameSetSameListing(a: seq<string>, b: seq<string>)
    requires forall y :: y in a <==> y in b
    ensures SortedUnique(a) == SortedUnique(b)
  {
    SortedUniqueSorts(a);
    SortedUniqueSorts(b);
    AscendingIsCanonical(SortedUnique(a), SortedUnique(b));
  }

  lemma SortedListingIsFixed(a: seq<string>)
    requires Ascending(a)
    ensures SortedUnique(a) == a
  {
    SortedUniqueSorts(a);
    AscendingIsCanonical(SortedUnique(a), a);
  }

  // ---- str(int) ----

  function Digit(d: nat): char
    requires d < 10
  {
    ('0' as int + d) as char
  }

  function Digits(n: nat): string {
    if n < 10 then [Digit(n)] else Digits(n / 10) + [Digit(n % 10)]
  }

  function Str(n: int): string {
    if n < 0 then "-" + Digits(-n) else Digits(n)
  }

  lemma {:induction false} DigitsAreDigits(n: nat)
    ensures Digits(n) != [] && forall c | c in Digits(n) :: '0' <= c <= '9'
  {
    if n >= 10 {
      DigitsAreDigits(n / 10);
    }
  }

  lemma {:induction false} DigitsInjective(m: nat, n: nat)
    requires Digits(m) == Digits(n)
    ensures m == n
  {
    DigitsAreDigits(m / 10);
    DigitsAreDigits(n / 10);
    assert Digits(m)[|Digits(m)| - 1] == Digit(m % 10);
    assert Digits(n)[|Digits(n)| - 1] == Digit(n % 10);
    if m >= 10 && n >= 10 {
      assert Digits(m)[..|Digits(m)| - 1] == Digits(m / 10);
      assert Digits(n)[..|Digits(n)| - 1] == Digits(n / 10);
      DigitsInjective(m / 10, n / 10);
    }
  }

  lemma StrHead(n: int)
    ensures Str(n) != [] && (Str(n)[0] == '-' <==> n < 0)
  {
    if n >= 0 {
      DigitsAreDigits(n);
      assert Digits(n)[0] in Digits(n);
    }
  }

  lemma StrInjective(m: int, n: int)
    ensures Str(m) == Str(n) <==> m == n
  {
    StrHead(m);
    StrHead(n);
    if Str(m) == Str(n) {
      if m < 0 && n < 0 {
        assert Str(m)[1..] == Digits(-m) && Str(n)[1..] == Digits(-n);
        DigitsInjective(-m, -n);
      } else if m >= 0 && n >= 0 {
        DigitsInjective(m, n);
      }
    }
  }

  lemma StrChars(n: int)
    ensures Str(n) != [] && forall c | c in Str(n) :: c == '-' || '0' <= c <= '9'
  {
    DigitsAreDigits(if n < 0 then -n else n);
  }

  // ---- case ----

  function Upper(s: string): string {
    seq(|s|, i requires 0 <= i < |s| => if 'a' <= s[i] <= 'z' then (s[i] as int - 32) as char else s[i])
  }

  function Lower(s: string): string {
    seq(|s|, i requires 0 <= i < |s| => if 'A' <= s[i] <= 'Z' then (s[i] as int + 32) as char else s[i])
  }

  /** Python's `needle in haystack`. */
  predicate Contains(haystack: string, needle: string) {
    needle <= haystack || (haystack != [] && Contains(haystack[1..], needle))
  }

  /** A part of a text is what stands between two other parts. */
  lemma {:induction false} ContainsMeans(haystack: string, needle: string)
    ensures Contains(haystack, needle) <==> exists before, after :: haystack == before + needle + after
  {
    if needle <= haystack {
      assert haystack == "" + needle + haystack[|needle|..];
    } else if haystack != [] {
      ContainsMeans(haystack[1..], needle);
      if before, after :| haystack[1..] == before + needle + after {
        assert haystack == ([haystack[0]] + before) + needle + after;
      }
      if before, after :| haystack == before + needle + after {
        assert before != [];
        assert haystack[1..] == before[1..] + needle + after;
      }
    }
  }

  // ---- Splitting at a separator ----

  lemma FirstSeparator(a: string, x: string, separator: char)
    requires separator !in a
    ensures (a + [separator] + x)[|a|] == separator
    ensures forall k | 0 <= k < |a| :: (a + [separator] + x)[k] != separator
  {
  }

  lemma LastSeparator(x: string, a: string, separator: char)
    requires separator !in a
    ensures (x + [separator] + a)[|x|] == separator
    ensures forall k | |x| < k < |x| + 1 + |a| :: (x + [separator] + a)[k] != separator
  {
    forall k | |x| < k < |x| + 1 + |a|
      ensures (x + [separator] + a)[k] != separator
    {
      assert (x + [separator] + a)[k] == a[k - |x| - 1];
    }
  }

  lemma SplitFirst(a: string, x: string, b: string, y: string, separator: char)
    requires separator !in a && separator !in b
    requires a + [separator] + x == b + [separator] + y
    ensures a == b && x == y
  {
    var s := a + [separator] + x;
    FirstSeparator(a, x, separator);
    FirstSeparator(b, y, separator);
    assert |a| == |b|;
    assert a == s[..|a|] && b == s[..|b|];
    assert x == s[|a| + 1..] && y == s[|b| + 1..];
  }

  lemma SplitLast(x: string, a: string, y: string, b: string, separator: char)
    requires separator !in a && separator !in b
    requires x + [separator] + a == y + [separator] + b
    ensures a == b && x == y
  {
    var s := x + [separator] + a;
    LastSeparator(x, a, separator);
    LastSeparator(y, b, separator);
    assert |x| == |y|;
    assert x == s[..|x|] && y == s[..|y|];
    assert a == s[|x| + 1..] && b == s[|y| + 1..];
  }
}
