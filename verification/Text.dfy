/** The string operations of the Go standard library that the program relies on,
    with the laws the other modules need. */
module Text {

  datatype Option<+T> = None | Some(value: T)

  datatype Result<+T> = Ok(value: T) | Err(error: string)

  /** Go compares strings byte by byte; on UTF-8 text that is the order of the code points. */
  predicate StringLeq(a: string, b: string) {
    a == "" || (b != "" && (a[0] < b[0] || (a[0] == b[0] && StringLeq(a[1..], b[1..]))))
  }

  lemma {:induction false} StringLeqTotal(a: string, b: string)
    ensures StringLeq(a, b) || StringLeq(b, a)
    ensures StringLeq(a, b) && StringLeq(b, a) ==> a == b
  {
    if a != "" && b != "" && a[0] == b[0] {
      StringLeqTotal(a[1..], b[1..]);
      assert a == [a[0]] + a[1..] && b == [b[0]] + b[1..];
    }
  }

  lemma {:induction false} StringLeqTransitive(a: string, b: string, c: string)
    requires StringLeq(a, b) && StringLeq(b, c)
    ensures StringLeq(a, c)
  {
    if a != "" && a[0] == b[0] && b[0] == c[0] {
      StringLeqTransitive(a[1..], b[1..], c[1..]);
    }
  }

  predicate HasPrefix(s: string, prefix: string) {
    prefix <= s
  }

  function TrimPrefix(s: string, prefix: string): string {
    if HasPrefix(s, prefix) then s[|prefix|..] else s
  }

  /** strings.Index: the position of the first occurrence of sub, or -1. */
  function Index(s: string, sub: string): (i: int)
    ensures i == -1 || 0 <= i <= |s| - |sub|
  {
    if sub <= s then 0
    else if s == "" then -1
    else var i := Index(s[1..], sub); if i < 0 then -1 else i + 1
  }

  predicate Contains(s: string, sub: string) {
    Index(s, sub) >= 0
  }

  /** unicode.IsSpace. */
  predicate IsSpace(c: char) {
    || '\t' <= c <= '\r' || c == ' '
    || c == '\U{85}' || c == '\U{A0}' || c == '\U{1680}'
    || '\U{2000}' <= c <= '\U{200A}'
    || c == '\U{2028}' || c == '\U{2029}' || c == '\U{202F}' || c == '\U{205F}' || c == '\U{3000}'
  }

  function TrimLeft(s: string): (r: string)
    ensures r == "" || !IsSpace(r[0])
  {
    if s != "" && IsSpace(s[0]) then TrimLeft(s[1..]) else s
  }

  function TrimRight(s: string): (r: string)
    ensures r == "" || !IsSpace(r[|r| - 1])
    ensures r <= s
  {
    if s != "" && IsSpace(s[|s| - 1]) then TrimRight(s[..|s| - 1]) else s
  }

  /** strings.TrimSpace. */
  function TrimSpace(s: string): string {
    TrimRight(TrimLeft(s))
  }

  predicate AllSpace(s: string) {
    forall c <- s :: IsSpace(c)
  }

  lemma {:induction false} TrimLeftIs(s: string)
    ensures |TrimLeft(s)| <= |s|
    ensures TrimLeft(s) == s[|s| - |TrimLeft(s)|..] && AllSpace(s[..|s| - |TrimLeft(s)|])
  {
    if s != "" && IsSpace(s[0]) {
      TrimLeftIs(s[1..]);
      var k := |s| - |TrimLeft(s)|;
      assert s[1..][k - 1..] == s[k..];
      assert s[..k] == [s[0]] + s[1..][..k - 1];
    }
  }

  lemma {:induction false} TrimRightIs(s: string)
    ensures TrimRight(s) == s[..|TrimRight(s)|] && AllSpace(s[|TrimRight(s)|..])
  {
    if s != "" && IsSpace(s[|s| - 1]) {
      TrimRightIs(s[..|s| - 1]);
      var k := |TrimRight(s)|;
      assert s[k..] == s[..|s| - 1][k..] + [s[|s| - 1]];
    }
  }

  /** Trimming takes white space off both ends and nothing else. */
  lemma TrimSpaceIs(s: string)
    ensures exists i, j ::
              && 0 <= i <= j <= |s| && TrimSpace(s) == s[i..j] && AllSpace(s[..i]) && AllSpace(s[j..])
              && (i < j ==> !IsSpace(s[i]) && !IsSpace(s[j - 1]))
  {
    var left := TrimLeft(s);
    TrimLeftIs(s);
    TrimRightIs(left);
    var i := |s| - |left|;
    var j := i + |TrimRight(left)|;
    assert left == s[i..] && TrimRight(left) == left[..j - i];
    assert TrimSpace(s) == s[i..j] && s[j..] == left[|TrimRight(left)|..];
  }

  /** strings.Split on a one-character separator; never empty. */
  function Split(s: string, sep: char): (parts: seq<string>)
    ensures |parts| >= 1
  {
    if s == "" then [""]
    else
      var rest := Split(s[1..], sep);
      if s[0] == sep then [""] + rest else [[s[0]] + rest[0]] + rest[1..]
  }

  /** strings.Join on a one-character separator. */
  function Join(parts: seq<string>, sep: char): string {
    if parts == [] then ""
    else if |parts| == 1 then parts[0]
    else parts[0] + [sep] + Join(parts[1..], sep)
  }

  lemma {:induction false} JoinSplit(s: string, sep: char)
    ensures Join(Split(s, sep), sep) == s
  {
    if s != "" {
      JoinSplit(s[1..], sep);
      var rest := Split(s[1..], sep);
      if s[0] == sep {
        assert ([""] + rest)[1..] == rest;
      } else {
        var parts := [[s[0]] + rest[0]] + rest[1..];
        assert parts[1..] == rest[1..];
        assert Join(parts, sep) == [s[0]] + Join(rest, sep);
      }
    }
  }

  lemma {:induction false} SplitWithoutSeparator(s: string, sep: char)
    requires sep !in s
    ensures Split(s, sep) == [s]
  {
    if s != "" {
      SplitWithoutSeparator(s[1..], sep);
      assert s == [s[0]] + s[1..];
    }
  }

  lemma SplitUnfolds(s: string, sep: char)
    requires s != ""
    ensures var rest := Split(s[1..], sep);
            Split(s, sep) == if s[0] == sep then [""] + rest else [[s[0]] + rest[0]] + rest[1..]
  {
  }

  /** A separator in the middle splits the two sides independently. */
  lemma {:induction false} SplitAtSeparator(a: string, b: string, sep: char)
    ensures Split(a + [sep] + b, sep) == Split(a, sep) + Split(b, sep)
  {
    var s := a + [sep] + b;
    SplitUnfolds(s, sep);
    if a == "" {
      assert s[1..] == b;
    } else {
      hide Split;
      SplitAtSeparator(a[1..], b, sep);
      SplitUnfolds(a, sep);
      assert s[1..] == a[1..] + [sep] + b;
      var left, right := Split(a[1..], sep), Split(b, sep);
      assert [""] + (left + right) == [""] + left + right;
      assert (left + right)[0] == left[0] && (left + right)[1..] == left[1..] + right;
    }
  }

  const MIN_INT64 := -0x8000_0000_0000_0000
  const MAX_INT64 := 0x7FFF_FFFF_FFFF_FFFF

  /** Go's int on the platforms the program runs on. */
  type Int64 = n: int | MIN_INT64 <= n <= MAX_INT64

  predicate IsInt64(n: int) {
    MIN_INT64 <= n <= MAX_INT64
  }

  /** Two's complement truncation to 64 bits. */
  function WrapInt64(n: int): (r: int)
    ensures IsInt64(r)
    ensures r == n <==> IsInt64(n)
  {
    (n - MIN_INT64) % 0x1_0000_0000_0000_0000 + MIN_INT64
  }

  function Digit(d: nat): char
    requires d < 10
  {
    "0123456789"[d]
  }

  function DigitValue(c: char): Option<nat> {
    if '0' <= c <= '9' then Some(c as int - '0' as int) else None
  }

  lemma DigitRoundTrip(d: nat)
    requires d < 10
    ensures DigitValue(Digit(d)) == Some(d)
  {
  }

  function PrintNat(n: nat): string {
    if n < 10 then [Digit(n)] else PrintNat(n / 10) + [Digit(n % 10)]
  }

  /** fmt's %d. */
  function PrintInt(n: int): string {
    if n < 0 then "-" + PrintNat(-n) else PrintNat(n)
  }

  function ParseDigits(s: string): Option<nat> {
    if s == "" then None
    else
      match DigitValue(s[|s| - 1])
      case None => None
      case Some(d) =>
        if |s| == 1 then Some(d)
        else
          match ParseDigits(s[..|s| - 1])
          case None => None
          case Some(v) => Some(10 * v + d)
  }

  /** strconv.ParseInt(s, 10, 64); None stands for any of its errors. */
  function ParseInt64(s: string): Option<int> {
    var signed := s != "" && (s[0] == '-' || s[0] == '+');
    match ParseDigits(if signed then s[1..] else s)
    case None => None
    case Some(v) =>
      var n := (if signed && s[0] == '-' then -1 else 1) * v;
      if IsInt64(n) then Some(n) else None
  }

  lemma {:induction false} PrintNatShape(n: nat)
    ensures ParseDigits(PrintNat(n)) == Some(n)
    ensures PrintNat(n) != ""
    ensures forall c <- PrintNat(n) :: '0' <= c <= '9'
  {
    if n < 10 {
      DigitRoundTrip(n);
    } else {
      PrintNatShape(n / 10);
      DigitRoundTrip(n % 10);
      var s := PrintNat(n);
      assert s[..|s| - 1] == PrintNat(n / 10);
    }
  }

  /** The notation itself: decimal, with a sign. */
  lemma DecimalNotation()
    ensures PrintInt(-1205) == "-1205" && PrintInt(0) == "0"
    ensures ParseInt64("+7") == Some(7) && ParseInt64("12x") == None && ParseInt64("") == None
  {
    assert PrintNat(1205) == PrintNat(120) + "5" && PrintNat(120) == PrintNat(12) + "0" && PrintNat(12) ==
           PrintNat(1) + "2";
    assert "+7"[1..] == "7";
    assert DigitValue("12x"[2]) == None;
  }

  lemma PrintIntRoundTrip(n: int)
    requires IsInt64(n)
    ensures ParseInt64(PrintInt(n)) == Some(n)
    ensures '|' !in PrintInt(n)
  {
    var digits := PrintNat(if n < 0 then -n else n);
    PrintNatShape(if n < 0 then -n else n);
    var s := PrintInt(n);
    if n < 0 {
      assert s == "-" + digits && s[0] == '-' && s[1..] == digits;
      assert ParseInt64(s) == Some(-1 * -n);
    } else {
      assert s == digits && s[0] in digits;
      assert ParseInt64(s) == Some(n);
    }
  }
}
