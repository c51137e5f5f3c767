/** The Python built-ins the firmware leans on, written out over Dafny's
    unbounded integers and strings: `str(int)`, `int(str)`, slicing,
    `int(a / b)` and `list.index`. */
module PyBuiltins {
  import opened Wrappers

  /** `int(a / b)` for a positive divisor: the float quotient truncated
      toward zero (Dafny's own `/` rounds toward negative infinity). */
  function TruncDiv(a: int, b: int): (q: int)
    requires b > 0
    ensures a >= 0 ==> 0 <= a - q * b < b
    ensures a < 0 ==> -b < a - q * b <= 0
  {
    if a >= 0 then a / b else -((-a) / b)
  }

  predicate IsDigit(c: char) { '0' <= c <= '9' }

  function DigitChar(d: int): (c: char)
    requires 0 <= d <= 9
    ensures IsDigit(c) && c as int - '0' as int == d
  {
    ('0' as int + d) as char
  }

  function DigitValue(c: char): int
    requires IsDigit(c)
  {
    c as int - '0' as int
  }

  predicate AllDigits(s: string) { forall i :: 0 <= i < |s| ==> IsDigit(s[i]) }

  /** The value of a string of decimal digits, most significant first. */
  function DigitsValue(s: string): (n: nat)
    requires AllDigits(s)
  {
    if s == [] then 0 else DigitsValue(s[..|s| - 1]) * 10 + DigitValue(s[|s| - 1])
  }

  /** The decimal digits of a natural number, without leading zeros. */
  function NatToString(n: nat): (s: string)
    ensures |s| >= 1 && AllDigits(s)
    ensures DigitsValue(s) == n
    ensures n < 10 <==> |s| == 1
    ensures s[0] == '0' <==> n == 0
  {
    if n < 10 then [DigitChar(n)]
    else
      var s := NatToString(n / 10) + [DigitChar(n % 10)];
      assert s[..|s| - 1] == NatToString(n / 10);
      s
  }

  /** `str(n)` for an integer. */
  function IntToString(n: int): string
  {
    if n < 0 then "-" + NatToString(-n) else NatToString(n)
  }

  /** The characters `str.strip()` removes that can occur in an ASCII or
      Latin-1 string, plus the other Unicode white-space code points. */
  predicate IsSpace(c: char)
  {
    var k := c as int;
    (9 <= k <= 13) || (28 <= k <= 32) || k == 0x85 || k == 0xA0 || k == 0x1680
    || (0x2000 <= k <= 0x200A) || k == 0x2028 || k == 0x2029 || k == 0x202F
    || k == 0x205F || k == 0x3000
  }

  function StripLeft(s: string): (r: string)
    ensures |r| <= |s|
    ensures r != [] ==> !IsSpace(r[0])
  {
    if s != [] && IsSpace(s[0]) then StripLeft(s[1..]) else s
  }

  function StripRight(s: string): (r: string)
    ensures |r| <= |s|
    ensures r != [] ==> !IsSpace(r[|r| - 1])
  {
    if s != [] && IsSpace(s[|s| - 1]) then StripRight(s[..|s| - 1]) else s
  }

  /** `int(s)` in base 10: surrounding white space, an optional sign and at
      least one ASCII digit; `None` stands for the `ValueError` Python raises. */
  function ParseInt(s: string): (r: Option<int>)
  {
    var t := StripRight(StripLeft(s));
    if t == [] then None
    else
      var negative := t[0] == '-';
      var body := if t[0] == '-' || t[0] == '+' then t[1..] else t;
      if body == [] || !AllDigits(body) then None
      else
        var magnitude: int := DigitsValue(body);
        Some(if negative then -magnitude else magnitude)
  }

  /** `s[i:j]` for non-negative bounds: out-of-range bounds are clamped. */
  function Slice(s: string, i: nat, j: nat): (r: string)
    requires i <= j
    ensures |r| == (if j <= |s| then j - i else if i <= |s| then |s| - i else 0)
    ensures forall k :: 0 <= k < |r| ==> r[k] == s[i + k]
  {
    var hi := if j <= |s| then j else |s|;
    var lo := if i <= hi then i else hi;
    s[lo..hi]
  }

  /** `lst.index(x)`: the first position of `x`; `None` stands for the
      `ValueError` raised when `x` is absent. */
  function IndexOf<T(==)>(lst: seq<T>, x: T): (r: Option<nat>)
    ensures r.Some? ==> r.value < |lst| && lst[r.value] == x
  {
    IndexFrom(lst, x, 0)
  }

  /** The search behind `index`, from position `i` on. */
  function IndexFrom<T(==)>(lst: seq<T>, x: T, i: nat): (r: Option<nat>)
    requires i <= |lst|
    ensures r.Some? ==> i <= r.value < |lst| && lst[r.value] == x
    decreases |lst| - i
  {
    if i == |lst| then None
    else if lst[i] == x then Some(i)
    else IndexFrom(lst, x, i + 1)
  }

  /** The search finds the first occurrence at or after `i`. */
  lemma {:induction false} IndexFromFirst<T>(lst: seq<T>, x: T, i: nat, k: nat)
    requires i <= k < |lst| && lst[k] == x
    requires forall j :: i <= j < k ==> lst[j] != x
    ensures IndexFrom(lst, x, i) == Some(k)
    decreases k - i
  {
    if i < k {
      IndexFromFirst(lst, x, i + 1, k);
    }
  }

  /** The search from `i` fails exactly when `x` is not at or after `i`. */
  lemma {:induction false} IndexFromMissing<T>(lst: seq<T>, x: T, i: nat)
    requires i <= |lst|
    ensures IndexFrom(lst, x, i).None? <==> forall j :: i <= j < |lst| ==> lst[j] != x
    decreases |lst| - i
  {
    if i < |lst| {
      IndexFromMissing(lst, x, i + 1);
    }
  }

  /** `index` raises exactly when the element is absent. */
  lemma IndexOfFound<T>(lst: seq<T>, x: T)
    ensures IndexOf(lst, x).Some? <==> x in lst
  {
    IndexFromMissing(lst, x, 0);
  }

  /** The position of the first element on which `fails` holds, or the
      length when there is none: where a `for` loop over `s` stops on an
      exception. */
  function FirstFailing<T>(s: seq<T>, fails: T -> bool): (i: nat)
    ensures i <= |s|
    ensures forall k :: 0 <= k < i ==> !fails(s[k])
    ensures i < |s| ==> fails(s[i])
  {
    if s == [] then 0
    else if fails(s[0]) then 0
    else 1 + FirstFailing(s[1..], fails)
  }

  /** The first failing element is found wherever it is. */
  lemma {:induction false} FirstFailingAt<T>(s: seq<T>, fails: T -> bool, i: nat)
    requires i < |s| && fails(s[i])
    requires forall k :: 0 <= k < i ==> !fails(s[k])
    ensures FirstFailing(s, fails) == i
  {
    if i > 0 {
      FirstFailingAt(s[1..], fails, i - 1);
    }
  }

  /** List concatenation, regrouped: stated once so that proofs about
      growing lists can name the step. */
  lemma ConcatAssoc<T>(a: seq<T>, b: seq<T>, c: seq<T>)
    ensures (a + b) + c == a + (b + c)
  {
  }

  lemma ConcatNil<T>(a: seq<T>)
    ensures a + [] == a
  {
  }

  /** `lst.remove(x)`: drop the first occurrence of `x` (callers check
      that there is one). */
  function RemoveFirst<T(==)>(lst: seq<T>, x: T): (r: seq<T>)
    ensures x in lst ==> |r| == |lst| - 1
    ensures x !in lst ==> r == lst
    ensures forall y :: y in r ==> y in lst
  {
    if lst == [] then []
    else if lst[0] == x then lst[1..]
    else [lst[0]] + RemoveFirst(lst[1..], x)
  }

  /** `remove` of a present element takes away one copy of it and nothing
      else. */
  lemma {:induction false} RemoveFirstMultiset<T>(lst: seq<T>, x: T)
    requires x in lst
    ensures multiset(RemoveFirst(lst, x)) == multiset(lst) - multiset{x}
  {
    assert lst == [lst[0]] + lst[1..];
    if lst[0] != x {
      RemoveFirstMultiset(lst[1..], x);
    }
  }

  /** `remove` drops the entry `index` finds, keeping the others in order. */
  lemma {:induction false} RemoveFirstAt<T>(lst: seq<T>, x: T, i: nat)
    requires i < |lst| && lst[i] == x
    requires forall j :: 0 <= j < i ==> lst[j] != x
    ensures RemoveFirst(lst, x) == lst[..i] + lst[i + 1..]
  {
    if i > 0 {
      var rest := lst[1..];
      RemoveFirstAt(rest, x, i - 1);
      assert lst[0] != x;
      assert RemoveFirst(lst, x) == [lst[0]] + RemoveFirst(rest, x);
      assert lst[..i] == [lst[0]] + rest[..i - 1];
      assert lst[i + 1..] == rest[i..];
      ConcatAssoc([lst[0]], rest[..i - 1], rest[i..]);
    } else {
      assert lst[..i] + lst[i + 1..] == lst[1..];
    }
  }

  predicate NoDuplicates<T(==)>(s: seq<T>)
  {
    forall i, j :: 0 <= i < j < |s| ==> s[i] != s[j]
  }

  /** In a list without duplicates, `index` finds each element where it is. */
  lemma IndexOfDistinct<T>(lst: seq<T>, k: nat)
    requires NoDuplicates(lst) && k < |lst|
    ensures IndexOf(lst, lst[k]) == Some(k)
  {
    IndexFromFirst(lst, lst[k], 0, k);
  }

  /** `int(str(n)) == n`: the string form of an integer parses back to it. */
  lemma {:induction false} IntToStringRoundTrip(n: int)
    ensures ParseInt(IntToString(n)) == Some(n)
  {
    var s := IntToString(n);
    NoSpaceInDigits(NatToString(if n < 0 then -n else n));
    assert StripLeft(s) == s;
    assert StripRight(s) == s;
    if n < 0 {
      assert s[1..] == NatToString(-n);
    }
  }

  lemma NoSpaceInDigits(d: string)
    requires AllDigits(d) && d != []
    ensures !IsSpace(d[0]) && !IsSpace(d[|d| - 1])
  {
  }

  /** A two-character run of digits parses to its value. */
  lemma ParseTwoDigits(a: char, b: char)
    requires IsDigit(a) && IsDigit(b)
    ensures ParseInt([a, b]) == Some(DigitValue(a) * 10 + DigitValue(b))
  {
    var s := [a, b];
    assert StripLeft(s) == s;
    assert StripRight(s) == s;
    assert s[..1] == [a];
    assert DigitsValue([a]) == DigitValue(a) by { assert [a][..0] == []; }
  }
}
