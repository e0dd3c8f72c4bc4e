/** The string and number helpers of Go's standard library that the provider's
    annotation formats rely on: `strings.IndexByte`, `strings.SplitN`,
    `strconv.FormatInt` and `strconv.ParseInt`. */
module Text {

  datatype Option<+T> = None | Some(value: T)

  const INT64_LIMIT: int := 0x8000_0000_0000_0000

  predicate IsInt64(i: int) {
    -INT64_LIMIT <= i < INT64_LIMIT
  }

  const UINT32_LIMIT: int := 0x1_0000_0000

  /** The conversion `uint32(n)`: keeps the low 32 bits. */
  function Uint32(n: int): (r: nat)
    ensures r < UINT32_LIMIT
    ensures 0 <= n < UINT32_LIMIT ==> r == n
  {
    n % 0x1_0000_0000
  }

  lemma Uint32Add(n: int, d: int)
    ensures Uint32(Uint32(n) + d) == Uint32(n + d)
  {
  }

  /** The product k * width, by repeated addition. */
  function Blocks(k: nat, width: nat): nat {
    if k == 0 then 0 else width + Blocks(k - 1, width)
  }

  lemma {:induction false} BlocksIsProduct(k: nat, width: nat)
    ensures Blocks(k, width) == k * width
  {
    if k == 0 {
    } else {
      BlocksIsProduct(k - 1, width);
      assert k * width == (k - 1) * width + width;
    }
  }

  lemma {:induction false} BlocksGrow(a: nat, b: nat, width: nat)
    requires a < b
    ensures Blocks(a, width) + width <= Blocks(b, width)
  {
    if a + 1 < b {
      BlocksGrow(a, b - 1, width);
    }
  }

  /** The first position of `c` in `s`, or -1. */
  function IndexOf(s: string, c: char): (i: int)
    ensures -1 <= i < |s|
  {
    if s == "" then -1
    else if s[0] == c then 0
    else if IndexOf(s[1..], c) == -1 then -1
    else 1 + IndexOf(s[1..], c)
  }

  lemma {:induction false} IndexOfIsFirst(s: string, c: char)
    ensures var i := IndexOf(s, c);
            if i == -1 then c !in s else s[i] == c && c !in s[..i]
  {
    if s != "" && s[0] != c {
      IndexOfIsFirst(s[1..], c);
      var k := IndexOf(s[1..], c);
      if k != -1 {
        assert s[..k + 1] == [s[0]] + s[1..][..k];
      }
    }
  }

  /** The part before the first `sep` contains no `sep`, so it is found whatever follows. */
  lemma IndexOfPrefixed(a: string, sep: char, b: string)
    requires sep !in a
    ensures IndexOf(a + [sep] + b, sep) == |a|
  {
    var s := a + [sep] + b;
    IndexOfIsFirst(s, sep);
    assert s[|a|] == sep && sep in s;
    assert forall k :: 0 <= k < |a| ==> s[k] == a[k] && a[k] in a;
  }

  /** `strings.SplitN(s, sep, n)` for n >= 1: at most n parts, the last one unsplit. */
  function SplitN(s: string, sep: char, n: nat): (parts: seq<string>)
    requires n >= 1
    ensures 1 <= |parts| <= n
    decreases n
  {
    var i := IndexOf(s, sep);
    if n == 1 || i == -1 then [s] else [s[..i]] + SplitN(s[i + 1..], sep, n - 1)
  }

  lemma SplitNStep(a: string, sep: char, b: string, n: nat)
    requires sep !in a && n >= 2
    ensures SplitN(a + [sep] + b, sep, n) == [a] + SplitN(b, sep, n - 1)
  {
    var s := a + [sep] + b;
    IndexOfPrefixed(a, sep, b);
    assert s[..|a|] == a;
    assert s[|a| + 1..] == b;
  }

  predicate IsDigit(c: char) {
    '0' <= c <= '9'
  }

  function DigitChar(d: nat): (c: char)
    requires d < 10
    ensures IsDigit(c) && DigitValue(c) == d
  {
    (d + '0' as int) as char
  }

  function DigitValue(c: char): (d: nat)
    requires IsDigit(c)
    ensures d < 10
  {
    c as int - '0' as int
  }

  /** Decimal digits of `n`, most significant first. */
  function FormatNat(n: nat): (s: string)
    ensures |s| >= 1
  {
    if n < 10 then [DigitChar(n)] else FormatNat(n / 10) + [DigitChar(n % 10)]
  }

  lemma {:induction false} FormatNatDigits(n: nat)
    ensures forall c :: c in FormatNat(n) ==> IsDigit(c)
  {
    if n >= 10 {
      FormatNatDigits(n / 10);
    }
  }

  /** `strconv.FormatInt(i, 10)`. */
  function FormatInt(i: int): (s: string) {
    if i < 0 then "-" + FormatNat(-i) else FormatNat(i)
  }

  function ParseNat(s: string): (r: Option<nat>) {
    if s == "" || !IsDigit(s[|s| - 1]) then None
    else if |s| == 1 then Some(DigitValue(s[0]))
    else
      var front := ParseNat(s[..|s| - 1]);
      if front.None? then None else Some(10 * front.value + DigitValue(s[|s| - 1]))
  }

  lemma {:induction false} ParseNatDigits(s: string, c: char)
    requires c in s && !IsDigit(c)
    ensures ParseNat(s) == None
  {
    var last := |s| - 1;
    if IsDigit(s[last]) {
      assert s == s[..last] + [s[last]];
      ParseNatDigits(s[..last], c);
    }
  }

  /** `strconv.ParseInt(s, 10, 64)`: an optional sign, then digits only, in the 64-bit range. */
  function ParseInt(s: string): (r: Option<int>)
    ensures r.Some? ==> IsInt64(r.value)
  {
    if s == "" then None
    else
      var negative := s[0] == '-';
      var magnitude := ParseNat(if s[0] == '-' || s[0] == '+' then s[1..] else s);
      if magnitude.None? then None
      else
        var v: int := if negative then 0 - magnitude.value else magnitude.value;
        if IsInt64(v) then Some(v) else None
  }

  lemma {:induction false} ParseFormatNat(n: nat)
    ensures ParseNat(FormatNat(n)) == Some(n)
  {
    if n >= 10 {
      ParseFormatNat(n / 10);
      var s := FormatNat(n);
      assert s[..|s| - 1] == FormatNat(n / 10);
      assert s[|s| - 1] == DigitChar(n % 10);
    }
  }

  lemma ParseFormatNegative(n: nat)
    requires 0 < n <= INT64_LIMIT
    ensures var negated: int := 0 - n; ParseInt("-" + FormatNat(n)) == Some(negated)
  {
    var s := "-" + FormatNat(n);
    ParseFormatNat(n);
    assert s[0] == '-' && s[1..] == FormatNat(n);
  }

  lemma ParseFormatNonNegative(n: nat)
    requires n < INT64_LIMIT
    ensures ParseInt(FormatNat(n)) == Some(n)
  {
    var s := FormatNat(n);
    ParseFormatNat(n);
    FormatNatDigits(n);
    assert s[0] in s;
  }

  /** Formatting and parsing a 64-bit integer is the identity. */
  lemma ParseFormatInt(i: int)
    requires IsInt64(i)
    ensures ParseInt(FormatInt(i)) == Some(i)
  {
    if i < 0 {
      ParseFormatNegative(-i);
    } else {
      ParseFormatNonNegative(i);
    }
  }

  /** A formatted integer never contains a character that is neither a digit nor '-'. */
  lemma FormatIntAvoids(i: int, c: char)
    requires !IsDigit(c) && c != '-'
    ensures c !in FormatInt(i)
  {
    FormatNatDigits(if i < 0 then -i else i);
  }

  /** No string that contains a non-digit past its first character parses. */
  lemma ParseIntRejects(s: string, c: char)
    requires c in s && !IsDigit(c) && c != '-' && c != '+'
    ensures ParseInt(s) == None
  {
    var body := if s[0] == '-' || s[0] == '+' then s[1..] else s;
    assert c in body;
    ParseNatDigits(body, c);
  }
}
