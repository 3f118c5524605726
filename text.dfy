/**
 * String helpers with the semantics of the Go standard library functions the
 * source calls (strings.HasPrefix, TrimPrefix, Split, Join, Cut, LastIndex,
 * strconv.ParseInt, ParseUint, FormatInt, Itoa), over `seq<char>`.
 */
module Text {
  import opened Wrappers

  predicate HasPrefix(s: string, p: string) {
    |p| <= |s| && s[..|p|] == p
  }

  predicate HasSuffix(s: string, p: string) {
    |p| <= |s| && s[|s| - |p|..] == p
  }

  /** strings.TrimPrefix: removes one leading `p` if present. */
  function TrimPrefix(s: string, p: string): (r: string)
    ensures HasPrefix(s, p) ==> p + r == s
    ensures !HasPrefix(s, p) ==> r == s
  {
    if HasPrefix(s, p) then s[|p|..] else s
  }

  /** strings.TrimSuffix: removes one trailing `p` if present. */
  function TrimSuffix(s: string, p: string): (r: string)
    ensures HasSuffix(s, p) ==> r + p == s
    ensures !HasSuffix(s, p) ==> r == s
  {
    if HasSuffix(s, p) then s[..|s| - |p|] else s
  }

  /** strings.Join. */
  function Join(parts: seq<string>, sep: string): string
  {
    if |parts| == 0 then ""
    else if |parts| == 1 then parts[0]
    else parts[0] + sep + Join(parts[1..], sep)
  }

  /** Joining one more part adds the separator and the part. */
  lemma {:induction false} JoinSnoc(parts: seq<string>, last: string, sep: string)
    requires |parts| > 0
    ensures Join(parts + [last], sep) == Join(parts, sep) + sep + last
  {
    if |parts| > 1 {
      assert (parts + [last])[1..] == parts[1..] + [last];
      JoinSnoc(parts[1..], last, sep);
    }
  }

  /** strings.IndexByte: first index of `c`, or -1. */
  function IndexOf(s: string, c: char): (i: int)
    ensures -1 <= i < |s|
    ensures 0 <= i ==> s[i] == c && c !in s[..i]
    ensures 0 <= i ==> forall j :: 0 <= j < i ==> s[j] != c
    ensures i == -1 <==> c !in s
  {
    if |s| == 0 then -1
    else if s[0] == c then 0
    else var j := IndexOf(s[1..], c); if j < 0 then -1 else j + 1
  }

  /** strings.LastIndex with a one-character needle: last index of `c`, or -1. */
  function LastIndex(s: string, c: char): (i: int)
    ensures -1 <= i < |s|
    ensures 0 <= i ==> s[i] == c && c !in s[i + 1..]
    ensures forall j :: i < j < |s| ==> s[j] != c
    ensures i == -1 <==> c !in s
  {
    if |s| == 0 then -1
    else if s[|s| - 1] == c then |s| - 1
    else LastIndex(s[..|s| - 1], c)
  }

  /** strings.Split with a one-character separator: every occurrence splits. */
  function Split(s: string, c: char): (r: seq<string>)
    ensures |r| > 0
    ensures forall k :: 0 <= k < |r| ==> c !in r[k]
    decreases |s|
  {
    var i := IndexOf(s, c);
    if i < 0 then [s]
    else
      SplitCons(s[..i], Split(s[i + 1..], c), c)
  }

  /** One more separator-free part in front of separator-free parts. */
  function SplitCons(head: string, rest: seq<string>, c: char): (r: seq<string>)
    requires c !in head
    requires forall k :: 0 <= k < |rest| ==> c !in rest[k]
    ensures |r| == |rest| + 1 && r[0] == head && r[1..] == rest
    ensures forall k :: 0 <= k < |r| ==> c !in r[k]
  {
    [head] + rest
  }

  /** strings.Cut / SplitN(s, sep, 2) with a one-character separator: splits at the first `c`. */
  function Cut(s: string, c: char): (r: (string, string, bool))
    ensures r.2 <==> c in s
    ensures r.2 ==> s == r.0 + [c] + r.1 && c !in r.0
    ensures !r.2 ==> r.0 == s && r.1 == ""
  {
    var i := IndexOf(s, c);
    if i < 0 then (s, "", false) else (s[..i], s[i + 1..], true)
  }

  /** Splitting a join of separator-free parts gives the parts back. */
  lemma {:induction false} SplitJoin(parts: seq<string>, c: char)
    requires |parts| > 0
    requires forall k :: 0 <= k < |parts| ==> c !in parts[k]
    ensures Split(Join(parts, [c]), c) == parts
  {
    if |parts| == 1 {
      assert IndexOf(parts[0], c) == -1;
    } else {
      var rest := Join(parts[1..], [c]);
      var s := parts[0] + [c] + rest;
      assert s[|parts[0]|] == c;
      assert s[..|parts[0]|] == parts[0];
      assert forall j :: 0 <= j < |parts[0]| ==> s[j] == parts[0][j];
      IndexOfAt(s, c, |parts[0]|);
      assert s[|parts[0]| + 1..] == rest;
      SplitJoin(parts[1..], c);
    }
  }

  /** The first occurrence of `c` is where it occurs with no earlier occurrence. */
  lemma IndexOfAt(s: string, c: char, k: nat)
    requires k < |s| && s[k] == c
    requires forall j :: 0 <= j < k ==> s[j] != c
    ensures IndexOf(s, c) == k
  {
  }

  /** Cutting a + [c] + b at c gives a and b when a has no c. */
  lemma CutAtFirst(a: string, b: string, c: char)
    requires c !in a
    ensures Cut(a + [c] + b, c) == (a, b, true)
  {
    var t := a + [c] + b;
    assert t[|a|] == c;
    forall j | 0 <= j < |a| ensures t[j] != c {
      assert t[j] == a[j];
    }
    IndexOfAt(t, c, |a|);
    assert t[..|a|] == a;
    assert t[|a| + 1..] == b;
  }

  /** The last occurrence of `c` is where it occurs with no later occurrence. */
  lemma LastIndexAt(s: string, c: char, k: nat)
    requires k < |s| && s[k] == c
    requires forall j :: k < j < |s| ==> s[j] != c
    ensures LastIndex(s, c) == k
  {
  }

  // ---------------------------------------------------------------- ASCII

  function LowerChar(c: char): char {
    if 'A' <= c <= 'Z' then ((c as int) + 32) as char else c
  }

  /** A string without upper-case ASCII letters is its own lower-case form. */
  lemma LowerOfLower(s: string)
    requires forall i :: 0 <= i < |s| ==> !('A' <= s[i] <= 'Z')
    ensures ToLower(s) == s
  {
  }

  /** strings.ToLower restricted to ASCII letters. */
  function ToLower(s: string): (r: string)
    ensures |r| == |s|
    ensures forall i :: 0 <= i < |s| ==> r[i] == LowerChar(s[i])
  {
    seq(|s|, i requires 0 <= i < |s| => LowerChar(s[i]))
  }

  /** strings.EqualFold, for ASCII text. */
  predicate EqualFold(s: string, t: string) {
    ToLower(s) == ToLower(t)
  }

  // ---------------------------------------------------------------- numbers

  const INT64_MIN: int := -0x8000_0000_0000_0000
  const INT64_MAX: int := 0x7FFF_FFFF_FFFF_FFFF
  const UINT32_LIMIT: int := 0x1_0000_0000
  const UINT64_LIMIT: int := 0x1_0000_0000_0000_0000

  predicate IsDigit(c: char) { '0' <= c <= '9' }

  predicate AllDigits(s: string) { forall i :: 0 <= i < |s| ==> IsDigit(s[i]) }

  function DigitValue(c: char): nat
    requires IsDigit(c)
  {
    (c as int) - ('0' as int)
  }

  function DigitChar(d: nat): (c: char)
    requires d < 10
    ensures IsDigit(c) && DigitValue(c) == d
  {
    (('0' as int) + d) as char
  }

  /** The value of a string of decimal digits. */
  function DecimalValue(s: string): nat
    requires AllDigits(s)
  {
    if |s| == 0 then 0 else DecimalValue(s[..|s| - 1]) * 10 + DigitValue(s[|s| - 1])
  }

  /** The shortest decimal digit string of `n` (no leading zeros). */
  function NatToDecimal(n: nat): (r: string)
    ensures |r| > 0 && AllDigits(r)
  {
    if n < 10 then [DigitChar(n)] else NatToDecimal(n / 10) + [DigitChar(n % 10)]
  }

  lemma {:induction false} DecimalOfNat(n: nat)
    ensures DecimalValue(NatToDecimal(n)) == n
  {
    if n >= 10 {
      var r := NatToDecimal(n);
      assert r[..|r| - 1] == NatToDecimal(n / 10);
      DecimalOfNat(n / 10);
    }
  }

  predicate IsHexDigit(c: char) { IsDigit(c) || 'a' <= c <= 'f' || 'A' <= c <= 'F' }

  function HexDigitValue(c: char): nat
    requires IsHexDigit(c)
  {
    if IsDigit(c) then DigitValue(c)
    else if 'a' <= c <= 'f' then (c as int) - ('a' as int) + 10
    else (c as int) - ('A' as int) + 10
  }

  function HexValue(s: string): nat
    requires forall i :: 0 <= i < |s| ==> IsHexDigit(s[i])
  {
    if |s| == 0 then 0 else HexValue(s[..|s| - 1]) * 16 + HexDigitValue(s[|s| - 1])
  }

  /** strconv.ParseUint(s, 10, bits): digits only, no sign, value below 2^bits. */
  function ParseUintDecimal(s: string, limit: nat): (r: Option<nat>)
    ensures r.Some? <==> |s| > 0 && AllDigits(s) && DecimalValue(s) < limit
    ensures r.Some? ==> r.value == DecimalValue(s) && r.value < limit
  {
    if |s| > 0 && AllDigits(s) && DecimalValue(s) < limit then Some(DecimalValue(s)) else None
  }

  /** strconv.ParseUint(s, 16, 32): hex digits of either case, value below 2^32. */
  function ParseHexUint32(s: string): (r: Option<nat>)
    ensures r.Some? <==> |s| > 0 && (forall i :: 0 <= i < |s| ==> IsHexDigit(s[i])) && HexValue(s) < UINT32_LIMIT
    ensures r.Some? ==> r.value == HexValue(s)
  {
    if |s| > 0 && (forall i :: 0 <= i < |s| ==> IsHexDigit(s[i])) && HexValue(s) < UINT32_LIMIT
    then Some(HexValue(s)) else None
  }

  /** strconv.ParseInt(s, 10, 64) (also strconv.Atoi on a 64-bit platform): optional sign, then digits. */
  function ParseInt64(s: string): (r: Option<int>)
    ensures r.Some? ==> INT64_MIN <= r.value <= INT64_MAX
    ensures |s| == 0 ==> r.None?
    ensures |s| > 0 && IsDigit(s[0]) ==>
      (r.Some? <==> ParseUintDecimal(s, INT64_MAX + 1).Some?) &&
      (r.Some? ==> r.value == ParseUintDecimal(s, INT64_MAX + 1).value)
    ensures |s| > 0 && s[0] == '+' ==>
      (r.Some? <==> ParseUintDecimal(s[1..], INT64_MAX + 1).Some?) &&
      (r.Some? ==> r.value == ParseUintDecimal(s[1..], INT64_MAX + 1).value)
    ensures |s| > 0 && s[0] == '-' ==>
      (r.Some? <==> ParseUintDecimal(s[1..], -INT64_MIN + 1).Some?) &&
      (r.Some? ==> r.value == -(ParseUintDecimal(s[1..], -INT64_MIN + 1).value as int))
    ensures |s| > 0 && !IsDigit(s[0]) && s[0] != '+' && s[0] != '-' ==> r.None?
  {
    if |s| == 0 then None
    else
      var neg := s[0] == '-';
      var body := if s[0] == '-' || s[0] == '+' then s[1..] else s;
      if |body| == 0 || !AllDigits(body) then None
      else
        var v: int := if neg then -(DecimalValue(body) as int) else DecimalValue(body);
        if INT64_MIN <= v <= INT64_MAX then Some(v) else None
  }

  /**
   * A sign is optional, leading zeros and a negative zero are accepted, and
   * anything else than one sign and digits, or a value outside int64, fails.
   */
  lemma ParseInt64Examples()
    ensures ParseInt64("+5") == Some(5)
    ensures ParseInt64("007") == Some(7)
    ensures ParseInt64("-0") == Some(0)
    ensures ParseInt64("") == None && ParseInt64("-") == None && ParseInt64("+-1") == None && ParseInt64("1a") == None
  {
    assert DecimalValue("007") == 7 by {
      assert "007"[..2] == "00" && "00"[..1] == "0" && "0"[..0] == "";
    }
    assert "+5"[1..] == "5" && "5"[..0] == "";
    assert "-0"[1..] == "0" && "0"[..0] == "";
    assert "+-1"[1..] == "-1" && !IsDigit("-1"[0]);
    assert !IsDigit("1a"[1]);
  }

  /** A decimal beyond int64, with or without a minus sign, does not parse. */
  lemma ParseInt64Overflow(n: nat)
    ensures n > INT64_MAX ==> ParseInt64(NatToDecimal(n)) == None
    ensures n > -INT64_MIN ==> ParseInt64("-" + NatToDecimal(n)) == None
  {
    DecimalOfNat(n);
    assert ("-" + NatToDecimal(n))[1..] == NatToDecimal(n);
  }

  /** strconv.FormatInt(i, 10) / strconv.Itoa. */
  function FormatInt(i: int): (r: string)
    ensures |r| > 0
  {
    if i < 0 then "-" + NatToDecimal(-i) else NatToDecimal(i)
  }

  /** Formatting an int64 in decimal and parsing it back gives the same number. */
  lemma ParseFormatInt(i: int)
    requires INT64_MIN <= i <= INT64_MAX
    ensures ParseInt64(FormatInt(i)) == Some(i)
  {
    var s := FormatInt(i);
    if i < 0 {
      assert s[1..] == NatToDecimal(-i);
      DecimalOfNat(-i);
    } else {
      DecimalOfNat(i);
    }
  }

  /** Formatting a natural number in decimal and parsing it as unsigned gives it back. */
  lemma ParseFormatUint(n: nat, limit: nat)
    requires n < limit
    ensures ParseUintDecimal(FormatInt(n), limit) == Some(n)
  {
    DecimalOfNat(n);
  }
}
