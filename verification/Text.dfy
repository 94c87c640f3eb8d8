/** The string searching and the number formats that the Rust and Go adapters take from their
    standard libraries. */
module Text {
  import opened Prelude

  /** `pat` occurs in `s` at index `k`. */
  predicate At(s: string, pat: string, k: int) {
    0 <= k && k + |pat| <= |s| && s[k..k + |pat|] == pat
  }

  lemma AtHead(s: string, pat: string, k: int)
    requires At(s, pat, k) && pat != []
    ensures s[k] == pat[0]
  {
    assert s[k..k + |pat|][0] == s[k];
  }

  ghost predicate Contains(s: string, pat: string) {
    exists k :: At(s, pat, k)
  }

  /** The first index at or after `from` at which `pat` occurs. */
  function FindFrom(s: string, pat: string, from: nat): (r: Option<nat>)
    ensures r.Some? ==> from <= r.value && At(s, pat, r.value)
    ensures r.Some? ==> forall k :: from <= k < r.value ==> !At(s, pat, k)
    ensures r.None? ==> forall k :: from <= k ==> !At(s, pat, k)
    decreases |s| - from
  {
    if from + |pat| > |s| then None
    else if At(s, pat, from) then Some(from)
    else FindFrom(s, pat, from + 1)
  }

  /** `str::find` of Rust. */
  function Find(s: string, pat: string): (r: Option<nat>)
    ensures r.Some? ==> At(s, pat, r.value) && forall k :: 0 <= k < r.value ==> !At(s, pat, k)
    ensures r.None? <==> !Contains(s, pat)
  {
    FindFrom(s, pat, 0)
  }

  lemma FindIs(s: string, pat: string, k: nat)
    requires At(s, pat, k)
    requires forall j :: 0 <= j < k ==> !At(s, pat, j)
    ensures Find(s, pat) == Some(k)
  {
    assert Contains(s, pat);
  }

  /** `str::split_once` at a character, and `strings.Cut` of Go: before and after its first occurrence. */
  function SplitOnce(s: string, c: char): (r: Option<(string, string)>)
    ensures r.Some? ==> s == r.value.0 + [c] + r.value.1 && c !in r.value.0
    ensures r.None? <==> c !in s
  {
    if s == [] then None
    else if s[0] == c then Some(([], s[1..]))
    else match SplitOnce(s[1..], c) {
      case None => None
      case Some(p) =>
        assert s == [s[0]] + s[1..];
        Some(([s[0]] + p.0, p.1))
    }
  }

  lemma {:induction false} SplitOnceIs(a: string, c: char, b: string)
    requires c !in a
    ensures SplitOnce(a + [c] + b, c) == Some((a, b))
  {
    var s := a + [c] + b;
    if a == [] {
      assert s[0] == c && s[1..] == b;
    } else {
      var t := a[1..];
      SplitOnceIs(t, c, b);
      assert s[0] == a[0] && s[1..] == t + [c] + b;
      assert [a[0]] + t == a;
    }
  }

  // ---- decimal numbers

  predicate IsDigit(c: char) { '0' <= c <= '9' }

  predicate AllDigits(s: string) { forall i :: 0 <= i < |s| ==> IsDigit(s[i]) }

  function DigitChar(d: nat): (c: char)
    requires d < 10
    ensures IsDigit(c) && c as int - '0' as int == d
  {
    ('0' as int + d) as char
  }

  /** The decimal form without leading zeros, as `{}` of Rust and `strconv.FormatUint` of Go write it. */
  function Decimal(n: nat): (s: string)
    ensures s != [] && AllDigits(s)
    ensures '+' !in s && ';' !in s
  {
    if n < 10 then [DigitChar(n)] else Decimal(n / 10) + [DigitChar(n % 10)]
  }

  function DigitsValue(s: string): nat
    requires AllDigits(s)
  {
    if s == [] then 0 else DigitsValue(s[..|s| - 1]) * 10 + (s[|s| - 1] as int - '0' as int)
  }

  /** `strconv.ParseUint(s, 10, …)`: digits only, at most `max`. */
  function ParseDigits(s: string, max: nat): Option<nat> {
    if s != [] && AllDigits(s) && DigitsValue(s) <= max then Some(DigitsValue(s)) else None
  }

  /** `str::parse` of an unsigned Rust integer, which also takes one leading `+`. */
  function ParseUnsigned(s: string, max: nat): Option<nat> {
    if s != [] && s[0] == '+' then ParseDigits(s[1..], max) else ParseDigits(s, max)
  }

  lemma {:induction false} DecimalValue(n: nat)
    ensures DigitsValue(Decimal(n)) == n
  {
    if n < 10 {
      assert Decimal(n)[..0] == [];
    } else {
      DecimalValue(n / 10);
      assert Decimal(n)[..|Decimal(n)| - 1] == Decimal(n / 10);
    }
  }

  /** Both number readers invert the printer. */
  lemma ParseDecimal(n: nat, max: nat)
    requires n <= max
    ensures ParseDigits(Decimal(n), max) == Some(n)
    ensures ParseUnsigned(Decimal(n), max) == Some(n)
  {
    DecimalValue(n);
  }

  // ---- white space

  /** `char::is_whitespace`: the White_Space property of Unicode. */
  predicate IsWhitespace(c: char) {
    var n := c as int;
    9 <= n <= 13 || n == 32 || n == 0x85 || n == 0xA0 || n == 0x1680 || 0x2000 <= n <= 0x200A
    || n == 0x2028 || n == 0x2029 || n == 0x202F || n == 0x205F || n == 0x3000
  }

  /** The characters of `s` that are not white space. */
  function DropWhitespace(s: string): (r: string)
    ensures forall c :: c in r ==> !IsWhitespace(c)
  {
    if s == [] then []
    else (if IsWhitespace(s[0]) then [] else [s[0]]) + DropWhitespace(s[1..])
  }

  lemma {:induction false} DropWhitespaceAppend(s: string, t: string)
    ensures DropWhitespace(s + t) == DropWhitespace(s) + DropWhitespace(t)
  {
    if s == [] {
      assert s + t == t;
    } else {
      assert (s + t)[1..] == s[1..] + t;
      DropWhitespaceAppend(s[1..], t);
    }
  }

  lemma {:induction false} DropWhitespaceNone(s: string)
    requires forall i :: 0 <= i < |s| ==> !IsWhitespace(s[i])
    ensures DropWhitespace(s) == s
  {
    if s != [] {
      DropWhitespaceNone(s[1..]);
      assert s == [s[0]] + s[1..];
    }
  }

  /** `str::trim`. */
  function Trim(s: string): string
    decreases |s|
  {
    if s == [] then []
    else if IsWhitespace(s[0]) then Trim(s[1..])
    else if IsWhitespace(s[|s| - 1]) then Trim(s[..|s| - 1])
    else s
  }

  lemma TrimNone(s: string)
    requires forall i :: 0 <= i < |s| ==> !IsWhitespace(s[i])
    ensures Trim(s) == s
  {
  }
}
