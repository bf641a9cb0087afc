/** Strings as the service uses them: trimming, ASCII case folding, byte order, sorting, and decimal
    printing.  A Go string is modelled by its sequence of Unicode scalar values; the order of the
    UTF-8 bytes of two strings is the order of these sequences. */
module Text {

  datatype Option<+T> = None | Some(value: T)

  // ----- concatenation -----

  lemma Assoc(a: string, b: string, c: string)
    ensures a + b + c == a + (b + c)
  {
  }

  lemma DropFirst(a: string, b: string)
    ensures (a + b)[|a|..] == b
  {
  }

  // ----- trimming (strings.TrimSpace) -----

  /** The characters that unicode.IsSpace accepts. */
  predicate IsSpace(c: char) {
    || '\U{0009}' <= c <= '\U{000D}' || c == ' ' || c == '\U{0085}' || c == '\U{00A0}'
    || c == '\U{1680}' || '\U{2000}' <= c <= '\U{200A}' || c == '\U{2028}' || c == '\U{2029}'
    || c == '\U{202F}' || c == '\U{205F}' || c == '\U{3000}'
  }

  function TrimLeft(s: string): string {
    if s != "" && IsSpace(s[0]) then TrimLeft(s[1..]) else s
  }

  function TrimRight(s: string): string {
    if s != "" && IsSpace(s[|s| - 1]) then TrimRight(s[..|s| - 1]) else s
  }

  function TrimSpace(s: string): string {
    TrimRight(TrimLeft(s))
  }

  /** The Unicode white space of Go's unicode package, one by one. */
  lemma SpacesAre(c: char)
    ensures IsSpace(c) <==>
      c in "\t\n\U{000B}\U{000C}\r \U{0085}\U{00A0}\U{1680}\U{2000}\U{2001}\U{2002}\U{2003}\U{2004}"
        + "\U{2005}\U{2006}\U{2007}\U{2008}\U{2009}\U{200A}\U{2028}\U{2029}\U{202F}\U{205F}\U{3000}"
  {
  }

  lemma {:induction false} TrimLeftMeaning(s: string) returns (left: string)
    ensures s == left + TrimLeft(s) && forall c :: c in left ==> IsSpace(c)
    ensures TrimLeft(s) == "" || !IsSpace(TrimLeft(s)[0])
  {
    if s != "" && IsSpace(s[0]) {
      left := TrimLeftMeaning(s[1..]);
      assert s == [s[0]] + (left + TrimLeft(s[1..]));
      left := [s[0]] + left;
    } else {
      left := "";
    }
  }

  lemma {:induction false} TrimRightMeaning(s: string) returns (right: string)
    ensures s == TrimRight(s) + right && forall c :: c in right ==> IsSpace(c)
    ensures TrimRight(s) == "" || !IsSpace(TrimRight(s)[|TrimRight(s)| - 1])
    ensures TrimRight(s) <= s
  {
    if s != "" && IsSpace(s[|s| - 1]) {
      right := TrimRightMeaning(s[..|s| - 1]);
      assert s == (TrimRight(s[..|s| - 1]) + right) + [s[|s| - 1]];
      right := right + [s[|s| - 1]];
    } else {
      right := "";
    }
  }

  /** White space goes at both ends, and nothing else does. */
  lemma TrimSpaceMeaning(s: string) returns (left: string, right: string)
    ensures s == left + TrimSpace(s) + right && forall c :: c in left + right ==> IsSpace(c)
    ensures var t := TrimSpace(s); t == "" || (!IsSpace(t[0]) && !IsSpace(t[|t| - 1]))
  {
    left := TrimLeftMeaning(s);
    right := TrimRightMeaning(TrimLeft(s));
    Assoc(left, TrimSpace(s), right);
    assert TrimSpace(s) != "" ==> TrimSpace(s)[0] == TrimLeft(s)[0];
  }

  // ----- ASCII case folding (strings.ToLower and strings.EqualFold on ASCII) -----

  function LowerChar(c: char): char {
    if 'A' <= c <= 'Z' then (c as int + 32) as char else c
  }

  function ToLower(s: string): string {
    seq(|s|, i requires 0 <= i < |s| => LowerChar(s[i]))
  }

  predicate EqualFold(a: string, b: string) {
    ToLower(a) == ToLower(b)
  }

  const CAPITALS := "ABCDEFGHIJKLMNOPQRSTUVWXYZ"
  const SMALL := "abcdefghijklmnopqrstuvwxyz"

  /** The ASCII capitals become the small letters; every other character stays. */
  lemma LowerCharMeaning(c: char)
    ensures forall i :: 0 <= i < 26 ==> LowerChar(CAPITALS[i]) == SMALL[i]
    ensures c !in CAPITALS ==> LowerChar(c) == c
  {
    assert forall i :: 0 <= i < 26 ==> CAPITALS[i] as int == 65 + i && SMALL[i] as int == 97 + i;
    if 'A' <= c <= 'Z' {
      assert CAPITALS[c as int - 65] == c;
    }
  }

  lemma ToLowerMeaning(s: string)
    ensures |ToLower(s)| == |s|
    ensures forall k :: 0 <= k < |s| && s[k] !in CAPITALS ==> ToLower(s)[k] == s[k]
    ensures forall k, i :: 0 <= k < |s| && 0 <= i < 26 && s[k] == CAPITALS[i] ==> ToLower(s)[k] == SMALL[i]
  {
    forall k | 0 <= k < |s|
      ensures s[k] !in CAPITALS ==> ToLower(s)[k] == s[k]
      ensures forall i :: 0 <= i < 26 && s[k] == CAPITALS[i] ==> ToLower(s)[k] == SMALL[i]
    {
      LowerCharMeaning(s[k]);
    }
  }

  /** The same letter, one of them a capital. */
  ghost predicate SameLetter(c: char, d: char) {
    exists i :: 0 <= i < 26 && ((c == CAPITALS[i] && d == SMALL[i]) || (d == CAPITALS[i] && c == SMALL[i]))
  }

  lemma SameLower(c: char, d: char)
    ensures LowerChar(c) == LowerChar(d) <==> c == d || SameLetter(c, d)
  {
    if c != d && LowerChar(c) == LowerChar(d) {
      if 'A' <= c <= 'Z' { CapitalOf(c, d); } else { CapitalOf(d, c); }
    }
    if SameLetter(c, d) {
      var i :| 0 <= i < 26 && ((c == CAPITALS[i] && d == SMALL[i]) || (d == CAPITALS[i] && c == SMALL[i]));
      LetterAt(i);
    }
  }

  lemma CapitalOf(c: char, d: char)
    requires 'A' <= c <= 'Z' && d as int == c as int + 32
    ensures SameLetter(c, d) && SameLetter(d, c)
  {
    var i := c as int - 65;
    LetterAt(i);
    assert c == CAPITALS[i] && d == SMALL[i];
  }

  lemma LetterAt(i: int)
    requires 0 <= i < 26
    ensures CAPITALS[i] as int == 65 + i && SMALL[i] as int == 97 + i
  {
  }

  /** Equal up to case: the same characters, or the same letters. */
  lemma EqualFoldMeaning(a: string, b: string)
    ensures EqualFold(a, b) <==>
      |a| == |b| && forall k :: 0 <= k < |a| ==> a[k] == b[k] || SameLetter(a[k], b[k])
  {
    if |a| == |b| {
      forall k | 0 <= k < |a|
        ensures ToLower(a)[k] == ToLower(b)[k] <==> a[k] == b[k] || SameLetter(a[k], b[k])
      {
        SameLower(a[k], b[k]);
      }
    }
    assert |ToLower(a)| == |a| && |ToLower(b)| == |b|;
  }

  // ----- order and sorting (sort.Strings) -----

  /** Lexicographic order, strict. */
  predicate Less(a: string, b: string) {
    b != "" && (a == "" || a[0] < b[0] || (a[0] == b[0] && Less(a[1..], b[1..])))
  }

  /** At the first difference the smaller character decides, and a proper prefix comes first. */
  lemma {:induction false} LessMeaning(a: string, b: string)
    ensures Less(a, b) <==>
      exists k :: 0 <= k <= |a| && k < |b| && a[..k] == b[..k] && (k < |a| ==> a[k] < b[k])
  {
    if a != "" && b != "" && a[0] == b[0] {
      LessMeaning(a[1..], b[1..]);
      if Less(a[1..], b[1..]) {
        var k :| 0 <= k <= |a| - 1 && k < |b| - 1 && a[1..][..k] == b[1..][..k]
          && (k < |a| - 1 ==> a[1..][k] < b[1..][k]);
        assert a[..k + 1] == [a[0]] + a[1..][..k] && b[..k + 1] == [b[0]] + b[1..][..k];
        assert k + 1 < |a| ==> a[k + 1] < b[k + 1];
      }
      if k :| 0 <= k <= |a| && k < |b| && a[..k] == b[..k] && (k < |a| ==> a[k] < b[k]) {
        assert k > 0;
        assert a[1..][..k - 1] == a[..k][1..] && b[1..][..k - 1] == b[..k][1..];
        assert k < |a| ==> a[1..][k - 1] < b[1..][k - 1];
      }
    } else if a == "" && b != "" {
      assert a[..0] == b[..0];
    } else if a != "" && b != "" {
      assert a[..0] == b[..0];
      forall k | 0 < k <= |a| && k < |b| ensures a[..k] != b[..k] {
        assert a[..k][0] == a[0] && b[..k][0] == b[0];
      }
    }
  }

  lemma {:induction false} LessTotal(a: string, b: string)
    ensures a == b || Less(a, b) || Less(b, a)
  {
    if a != "" && b != "" && a[0] == b[0] {
      LessTotal(a[1..], b[1..]);
      assert a == [a[0]] + a[1..] && b == [b[0]] + b[1..];
    }
  }

  lemma {:induction false} LessAsymmetric(a: string, b: string)
    ensures !(Less(a, b) && Less(b, a))
  {
    if a != "" && b != "" {
      LessAsymmetric(a[1..], b[1..]);
    }
  }

  lemma {:induction false} LessTransitive(a: string, b: string, c: string)
    requires Less(a, b) && Less(b, c)
    ensures Less(a, c)
  {
    if a != "" && a[0] == b[0] == c[0] {
      LessTransitive(a[1..], b[1..], c[1..]);
    }
  }

  ghost predicate StrictlySorted(s: seq<string>) {
    forall i, j :: 0 <= i < j < |s| ==> Less(s[i], s[j])
  }

  ghost predicate Distinct<T(!new)>(s: seq<T>) {
    forall i, j :: 0 <= i < j < |s| ==> s[i] != s[j]
  }

  /** One step of insertion: x goes in front of the first element that is not below it. */
  function Insert(x: string, s: seq<string>): seq<string> {
    if s != [] && Less(s[0], x) then [s[0]] + Insert(x, s[1..]) else [x] + s
  }

  /** sort.Strings: the elements of s, in ascending order. */
  function Sort(s: seq<string>): seq<string> {
    if s == [] then [] else Insert(s[0], Sort(s[1..]))
  }

  lemma {:induction false} InsertKeepsElements(x: string, s: seq<string>)
    ensures multiset(Insert(x, s)) == multiset{x} + multiset(s)
  {
    if s != [] && Less(s[0], x) {
      InsertKeepsElements(x, s[1..]);
      assert s == [s[0]] + s[1..];
    }
  }

  /** Sorting neither adds, drops nor repeats an element. */
  lemma {:induction false} SortKeepsElements(s: seq<string>)
    ensures multiset(Sort(s)) == multiset(s)
    ensures |Sort(s)| == |s| && forall x :: x in Sort(s) <==> x in s
  {
    if s != [] {
      SortKeepsElements(s[1..]);
      InsertKeepsElements(s[0], Sort(s[1..]));
      assert s == [s[0]] + s[1..];
    }
    SameMultisetSameElements(Sort(s), s);
  }

  lemma SameMultisetSameElements<T>(a: seq<T>, b: seq<T>)
    requires multiset(a) == multiset(b)
    ensures |a| == |b| && forall x :: x in a <==> x in b
  {
    assert |a| == |multiset(a)| && |b| == |multiset(b)|;
    forall x ensures x in a <==> x in b {
      assert x in a <==> x in multiset(a);
      assert x in b <==> x in multiset(b);
    }
  }

  lemma {:induction false} InsertKeepsOrder(x: string, s: seq<string>)
    requires StrictlySorted(s) && x !in s
    ensures StrictlySorted(Insert(x, s))
  {
    var r := Insert(x, s);
    if s == [] {
    } else if Less(s[0], x) {
      InsertKeepsOrder(x, s[1..]);
      InsertKeepsElements(x, s[1..]);
      var t := Insert(x, s[1..]);
      assert r == [s[0]] + t;
      forall k | 0 <= k < |t| ensures Less(s[0], t[k]) {
        assert t[k] in multiset(t);
        assert t[k] == x || t[k] in s[1..];
      }
    } else {
      LessTotal(s[0], x);
      assert r == [x] + s;
      forall k | 0 <= k < |s| ensures Less(x, s[k]) {
        if k > 0 { LessTransitive(x, s[0], s[k]); }
      }
    }
  }

  /** Sorting a list without repetitions gives a strictly ascending list of the same elements. */
  lemma {:induction false} SortIsStrict(s: seq<string>)
    requires Distinct(s)
    ensures StrictlySorted(Sort(s)) && |Sort(s)| == |s| && forall x :: x in Sort(s) <==> x in s
  {
    SortKeepsElements(s);
    if s != [] {
      SortIsStrict(s[1..]);
      SortKeepsElements(s[1..]);
      InsertKeepsOrder(s[0], Sort(s[1..]));
    }
  }

  /** A strictly ascending list is determined by the set of its elements. */
  lemma {:induction false} StrictlySortedUnique(a: seq<string>, b: seq<string>)
    requires StrictlySorted(a) && StrictlySorted(b)
    requires forall x :: x in a <==> x in b
    ensures a == b
  {
    assert |b| > 0 ==> b[0] in b;
    if a != [] {
      assert a[0] in b && b != [];
      assert b[0] in a;
      LessAsymmetric(a[0], b[0]);
      assert a[0] == b[0];
      forall x ensures x in a[1..] <==> x in b[1..] {
        TailMembers(a, x);
        TailMembers(b, x);
      }
      StrictlySortedUnique(a[1..], b[1..]);
      assert a == [a[0]] + a[1..] && b == [b[0]] + b[1..];
    }
  }

  lemma TailMembers(s: seq<string>, x: string)
    requires s != [] && StrictlySorted(s)
    ensures x in s[1..] <==> x in s && x != s[0]
  {
    if x in s[1..] {
      LessAsymmetric(s[0], x);
    } else if x in s {
      assert s == [s[0]] + s[1..];
    }
  }

  // ----- decimal printing (%d) and its inverse -----

  predicate IsDigit(c: char) { '0' <= c <= '9' }

  function DigitChar(d: nat): (c: char)
    requires d < 10
    ensures IsDigit(c)
  {
    (48 + d) as char
  }

  function Digits(n: nat): (s: string)
    ensures s != "" && forall i :: 0 <= i < |s| ==> IsDigit(s[i])
  {
    if n < 10 then [DigitChar(n)] else Digits(n / 10) + [DigitChar(n % 10)]
  }

  function Decimal(n: int): string {
    if n < 0 then "-" + Digits(-n) else Digits(n)
  }

  /** The number a string of digits denotes. */
  function DigitsValue(s: string): nat
    requires forall i :: 0 <= i < |s| ==> IsDigit(s[i])
  {
    if s == "" then 0
    else assert IsDigit(s[|s| - 1]); 10 * DigitsValue(s[..|s| - 1]) + (s[|s| - 1] as int - 48)
  }

  lemma {:induction false} DigitsRoundTrip(n: nat)
    ensures DigitsValue(Digits(n)) == n
  {
    if n >= 10 {
      DigitsRoundTrip(n / 10);
      assert Digits(n)[..|Digits(n)| - 1] == Digits(n / 10);
    }
  }

  lemma {:induction false} DigitsNoLeadingZero(n: nat)
    ensures Digits(n)[0] == '0' ==> n == 0 && Digits(n) == "0"
  {
    if n >= 10 {
      DigitsNoLeadingZero(n / 10);
    }
  }

  /** The decimal digits, the most significant first. */
  lemma DecimalExamples()
    ensures Decimal(0) == "0" && Decimal(10) == "10" && Decimal(-7) == "-7"
    ensures Decimal(1234567890) == "1234567890"
  {
    assert Digits(1) == "1" && Digits(12) == "12" && Digits(123) == "123" && Digits(1234) == "1234";
    assert Digits(12345) == "12345" && Digits(123456) == "123456" && Digits(1234567) == "1234567";
    assert Digits(12345678) == "12345678" && Digits(123456789) == "123456789";
  }

  lemma DecimalInjective(m: int, n: int)
    requires Decimal(m) == Decimal(n)
    ensures m == n
  {
    DigitsRoundTrip(if m < 0 then -m else m);
    DigitsRoundTrip(if n < 0 then -n else n);
    assert m < 0 <==> !IsDigit(Decimal(m)[0]);
    assert n < 0 <==> !IsDigit(Decimal(n)[0]);
    if m < 0 && n < 0 {
      assert Decimal(m)[1..] == Digits(-m) && Decimal(n)[1..] == Digits(-n);
    }
  }

  /** The last separator of name, separator, decimal number is the one put there. */
  lemma LastSeparator(a: string, n: int, sep: char)
    requires !IsDigit(sep) && sep != '-'
    ensures var s := a + [sep] + Decimal(n);
            |a| < |s| && s[|a|] == sep && forall k :: |a| < k < |s| ==> s[k] != sep
  {
  }

  /** A key built as name, separator, decimal number determines the name and the number, whatever the
      name contains, as long as the separator is neither a digit nor '-'. */
  lemma SeparatedKeyInjective(a: string, m: int, b: string, n: int, sep: char)
    requires !IsDigit(sep) && sep != '-'
    requires a + [sep] + Decimal(m) == b + [sep] + Decimal(n)
    ensures a == b && m == n
  {
    var s := a + [sep] + Decimal(m);
    LastSeparator(a, m, sep);
    LastSeparator(b, n, sep);
    assert |a| == |b|;
    assert a == s[..|a|] == b;
    assert Decimal(m) == s[|a| + 1..] == Decimal(n);
    DecimalInjective(m, n);
  }
}
