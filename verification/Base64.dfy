/** The standard Base64 alphabet with padding (section 4 of RFC 4648) in the strict form of the Rust
    `STANDARD` engine: whole groups of four, canonical padding, zero trailing bits. */
module Base64 {
  import opened Prelude
  import opened Text

  type sextet = x: int | 0 <= x < 64

  /** The sextet of a character, -1 for a character outside the alphabet. */
  function FromChar(c: char): (r: int)
    ensures -1 <= r < 64
    ensures r >= 0 ==> !IsWhitespace(c) && c != '-' && c != '=' && c != ';'
  {
    if 'A' <= c <= 'Z' then c as int - 'A' as int
    else if 'a' <= c <= 'z' then c as int - 'a' as int + 26
    else if '0' <= c <= '9' then c as int - '0' as int + 52
    else if c == '+' then 62
    else if c == '/' then 63
    else -1
  }

  function ToChar(i: sextet): (c: char)
    ensures FromChar(c) == i
  {
    if i < 26 then ('A' as int + i) as char
    else if i < 52 then ('a' as int + (i - 26)) as char
    else if i < 62 then ('0' as int + (i - 52)) as char
    else if i == 62 then '+' else '/'
  }

  lemma ToFromChar(c: char)
    requires FromChar(c) >= 0
    ensures ToChar(FromChar(c)) == c
  {
  }

  // ---- numbers as bits

  /** The `n` low bits of `x`, most significant first. */
  function Bits(x: nat, n: nat): (bs: seq<bool>)
    ensures |bs| == n
  {
    if n == 0 then [] else Bits(x / 2, n - 1) + [x % 2 == 1]
  }

  function Number(bs: seq<bool>): nat {
    if bs == [] then 0 else 2 * Number(bs[..|bs| - 1]) + (if bs[|bs| - 1] then 1 else 0)
  }

  lemma {:induction false} NumberBits(x: nat, n: nat)
    requires x < Pow2(n)
    ensures Number(Bits(x, n)) == x
  {
    if n > 0 {
      NumberBits(x / 2, n - 1);
      assert Bits(x, n)[..n - 1] == Bits(x / 2, n - 1);
    }
  }

  lemma {:induction false} BitsNumber(bs: seq<bool>)
    ensures Number(bs) < Pow2(|bs|) && Bits(Number(bs), |bs|) == bs
  {
    if bs != [] {
      BitsNumber(bs[..|bs| - 1]);
      assert bs == bs[..|bs| - 1] + [bs[|bs| - 1]];
    }
  }

  lemma {:induction false} TimesConst(k: nat)
    ensures Times(k, 6) == 6 * k && Times(k, 8) == 8 * k
  {
    if k > 0 { TimesConst(k - 1); }
  }

  /** The bits of a sequence of `n`-bit numbers. */
  function Join(xs: seq<nat>, n: nat): (bs: seq<bool>)
    ensures |bs| == Times(|xs|, n)
  {
    if xs == [] then [] else Bits(xs[0], n) + Join(xs[1..], n)
  }

  /** `k` numbers of `n` bits each. */
  function Split(bs: seq<bool>, n: nat, k: nat): (xs: seq<nat>)
    requires |bs| == Times(k, n)
    ensures |xs| == k
    ensures forall i :: 0 <= i < k ==> xs[i] < Pow2(n)
  {
    if k == 0 then []
    else
      BitsNumber(bs[..n]);
      [Number(bs[..n])] + Split(bs[n..], n, k - 1)
  }

  lemma {:induction false} SplitJoin(xs: seq<nat>, n: nat)
    requires forall i :: 0 <= i < |xs| ==> xs[i] < Pow2(n)
    ensures Split(Join(xs, n), n, |xs|) == xs
  {
    if xs != [] {
      var bs := Join(xs, n);
      assert bs[..n] == Bits(xs[0], n) && bs[n..] == Join(xs[1..], n);
      NumberBits(xs[0], n);
      SplitJoin(xs[1..], n);
    }
  }

  lemma {:induction false} JoinSplit(bs: seq<bool>, n: nat, k: nat)
    requires |bs| == Times(k, n)
    ensures Join(Split(bs, n, k), n) == bs
  {
    if k > 0 {
      var a, b := bs[..n], bs[n..];
      assert a + b == bs;
      JoinSplit(b, n, k - 1);
      SplitNumber(a, b, k - 1);
      JoinNumber(a, Split(b, n, k - 1));
    }
  }

  lemma SplitNumber(a: seq<bool>, b: seq<bool>, k: nat)
    requires |b| == Times(k, |a|)
    ensures Split(a + b, |a|, k + 1) == [Number(a)] + Split(b, |a|, k)
  {
    assert (a + b)[..|a|] == a && (a + b)[|a|..] == b;
  }

  lemma JoinNumber(bs: seq<bool>, rest: seq<nat>)
    ensures Join([Number(bs)] + rest, |bs|) == bs + Join(rest, |bs|)
  {
    BitsNumber(bs);
    assert ([Number(bs)] + rest)[1..] == rest;
  }

  // ---- bytes as sextets

  function Zeros(n: nat): seq<bool> { seq(n, _ => false) }

  /** The number of sextets that hold `n` bytes. */
  function SextetCount(n: nat): nat { (8 * n + 5) / 6 }

  /** The bits of `b`, filled with zeros to whole sextets. */
  function FilledBits(b: seq<byte>): (bs: seq<bool>)
    ensures |bs| == Times(SextetCount(|b|), 6)
  {
    TimesConst(|b|);
    TimesConst(SextetCount(|b|));
    Join(b, 8) + Zeros(6 * SextetCount(|b|) - 8 * |b|)
  }

  lemma SextetCountRest(n: nat)
    ensures SextetCount(n) % 4 != 1
  {
  }

  function Sextets(b: seq<byte>): (ss: seq<sextet>)
    ensures |ss| % 4 != 1
  {
    assert Pow2(6) == 64;
    SextetCountRest(|b|);
    Split(FilledBits(b), 6, SextetCount(|b|))
  }

  /** The number of whole bytes in `n` sextets. */
  function ByteCount(n: nat): nat { 6 * n / 8 }

  /** The whole bytes in the bits of the sextets: none if a sextet or a one bit is left over. */
  function Bytes(ss: seq<sextet>): Option<seq<byte>> {
    var bits := Join(ss, 6);
    var k := ByteCount(|ss|);
    TimesConst(|ss|);
    TimesConst(k);
    assert Pow2(8) == 256;
    if |bits| - 8 * k < 6 && bits[8 * k..] == Zeros(|bits| - 8 * k) then Some(Split(bits[..8 * k], 8, k)) else None
  }

  lemma BytesSextets(b: seq<byte>)
    ensures Bytes(Sextets(b)) == Some(b)
  {
    var bits, n := FilledBits(b), SextetCount(|b|);
    TimesConst(n);
    TimesConst(|b|);
    JoinSplit(bits, 6, n);
    assert bits[..8 * |b|] == Join(b, 8) && bits[8 * |b|..] == Zeros(|bits| - 8 * |b|);
    assert ByteCount(n) == |b|;
    assert Pow2(8) == 256;
    SplitJoin(b, 8);
  }

  lemma Counts(n: nat)
    requires 6 * n - 8 * ByteCount(n) < 6
    ensures SextetCount(ByteCount(n)) == n
  {
  }

  lemma FilledBitsBytes(ss: seq<sextet>)
    requires Bytes(ss).Some?
    ensures FilledBits(Bytes(ss).value) == Join(ss, 6) && SextetCount(|Bytes(ss).value|) == |ss|
  {
    var bits, k := Join(ss, 6), ByteCount(|ss|);
    TimesConst(|ss|);
    TimesConst(k);
    Counts(|ss|);
    JoinSplit(bits[..8 * k], 8, k);
    assert bits == bits[..8 * k] + bits[8 * k..];
  }

  lemma SextetsBytes(ss: seq<sextet>)
    requires Bytes(ss).Some?
    ensures Sextets(Bytes(ss).value) == ss
  {
    FilledBitsBytes(ss);
    assert Pow2(6) == 64;
    SplitJoin(ss, 6);
  }

  // ---- group by group

  /** The bits of a number are those of its upper part and those of its lower part. */
  lemma {:induction false} BitsOfParts(hi: nat, lo: nat, n: nat, m: nat)
    requires lo < Pow2(m)
    ensures Bits(hi * Pow2(m) + lo, n + m) == Bits(hi, n) + Bits(lo, m)
  {
    if m > 0 {
      BitsOfParts(hi, lo / 2, n, m - 1);
      Halves(hi, Pow2(m - 1), lo);
    }
  }

  lemma Halves(hi: nat, p: nat, lo: nat)
    ensures (hi * (2 * p) + lo) / 2 == hi * p + lo / 2 && (hi * (2 * p) + lo) % 2 == lo % 2
  {
    assert hi * (2 * p) == 2 * (hi * p);
  }

  /** Three bytes are four sextets. */
  function Group(a: byte, b: byte, c: byte): seq<sextet> {
    [a / 4, a % 4 * 16 + b / 16, b % 16 * 4 + c / 64, c % 64]
  }

  lemma Parts(x: nat, hi: nat, lo: nat, p: nat, n: nat, m: nat)
    requires p == Pow2(m) && x == hi * p + lo && lo < p
    ensures Bits(x, n + m) == Bits(hi, n) + Bits(lo, m)
  {
    BitsOfParts(hi, lo, n, m);
  }

  lemma JoinCons(x: nat, xs: seq<nat>, n: nat)
    ensures Join([x] + xs, n) == Bits(x, n) + Join(xs, n)
  {
    assert ([x] + xs)[1..] == xs;
  }

  lemma JoinThree(x: nat, y: nat, z: nat, rest: seq<nat>, n: nat)
    ensures Join([x, y, z] + rest, n) == Bits(x, n) + (Bits(y, n) + (Bits(z, n) + Join(rest, n)))
  {
    JoinCons(z, rest, n);
    JoinCons(y, [z] + rest, n);
    JoinCons(x, [y] + ([z] + rest), n);
    assert [x] + ([y] + ([z] + rest)) == [x, y, z] + rest;
  }

  lemma Powers()
    ensures Pow2(2) == 4 && Pow2(4) == 16 && Pow2(6) == 64
  {
  }

  lemma GroupBits(a: byte, b: byte, c: byte, two: nat, four: nat, six: nat, eight: nat)
    requires two == 2 && four == 4 && six == 6 && eight == 8
    ensures Join(Group(a, b, c), six) == Bits(a, eight) + Bits(b, eight) + Bits(c, eight)
  {
    var g := Group(a, b, c);
    Powers();
    Parts(a, a / 4, a % 4, 4, six, two);
    Parts(b, b / 16, b % 16, 16, four, four);
    Parts(c, c / 64, c % 64, 64, two, six);
    Parts(g[1], a % 4, b / 16, 16, two, four);
    Parts(g[2], b % 16, c / 64, 4, four, two);
    JoinFour(g, six);
    Regroup(Bits(a / 4, six), Bits(a % 4, two), Bits(b / 16, four), Bits(b % 16, four), Bits(c / 64, two),
            Bits(c % 64, six));
  }

  lemma JoinFour(g: seq<nat>, n: nat)
    requires |g| == 4
    ensures Join(g, n) == Bits(g[0], n) + (Bits(g[1], n) + (Bits(g[2], n) + Bits(g[3], n)))
  {
    JoinThree(g[0], g[1], g[2], [g[3]], n);
    JoinCons(g[3], [], n);
    assert [g[3]] + [] == [g[3]] && [g[0], g[1], g[2]] + [g[3]] == g && Bits(g[3], n) + [] == Bits(g[3], n);
  }

  lemma Regroup(p: seq<bool>, q: seq<bool>, r: seq<bool>, s: seq<bool>, t: seq<bool>, u: seq<bool>)
    ensures p + ((q + r) + ((s + t) + u)) == (p + q) + (r + s) + (t + u)
  {
  }

  lemma {:induction false} JoinAppend(xs: seq<nat>, ys: seq<nat>, n: nat)
    ensures Join(xs + ys, n) == Join(xs, n) + Join(ys, n)
  {
    if xs == [] {
      assert xs + ys == ys;
    } else {
      JoinAppend(xs[1..], ys, n);
      assert xs + ys == [xs[0]] + (xs[1..] + ys);
      JoinCons(xs[0], xs[1..] + ys, n);
      Associate(Bits(xs[0], n), Join(xs[1..], n), Join(ys, n));
    }
  }

  lemma FilledThree(a: byte, b: byte, c: byte, rest: seq<byte>, six: nat, eight: nat)
    requires six == 6 && eight == 8
    ensures FilledBits([a, b, c] + rest) == Join(Group(a, b, c), six) + FilledBits(rest)
  {
    GroupBits(a, b, c, 2, 4, six, eight);
    JoinThree(a, b, c, rest, eight);
    var n := |rest|;
    assert SextetCount(n + 3) == SextetCount(n) + 4;
    FourJoined(Bits(a, eight), Bits(b, eight), Bits(c, eight), Join(rest, eight), Zeros(6 * SextetCount(n) - 8 * n));
  }

  lemma FourJoined(p: seq<bool>, q: seq<bool>, r: seq<bool>, s: seq<bool>, t: seq<bool>)
    ensures (p + (q + (r + s))) + t == (p + q + r) + (s + t)
  {
  }

  /** The sextets of a byte string, three bytes after three. */
  lemma SextetsByGroup(a: byte, b: byte, c: byte, rest: seq<byte>)
    ensures Sextets([a, b, c] + rest) == Group(a, b, c) + Sextets(rest)
  {
    var six, eight := 6, 8;
    FilledThree(a, b, c, rest, six, eight);
    Powers();
    var n := SextetCount(|rest|);
    assert SextetCount(|rest| + 3) == 4 + n;
    JoinSplit(FilledBits(rest), six, n);
    JoinAppend(Group(a, b, c), Sextets(rest), six);
    SplitJoin(Group(a, b, c) + Sextets(rest), six);
  }

  lemma {:induction false} NoBits(n: nat)
    ensures Bits(0, n) == Zeros(n)
  {
    if n > 0 { NoBits(n - 1); }
  }

  /** One byte that is left over is two sextets, two bytes are three, with zeros behind them. */
  lemma SextetsOfRest(a: byte, b: byte)
    ensures Sextets([a]) == [a / 4, a % 4 * 16]
    ensures Sextets([a, b]) == [a / 4, a % 4 * 16 + b / 16, b % 16 * 4]
  {
    var two, four, six, eight := 2, 4, 6, 8;
    Powers();
    OneFilled(a, two, four, six, eight);
    SplitJoin([a / 4, a % 4 * 16], six);
    TwoFilled(a, b, two, four, six, eight);
    SplitJoin([a / 4, a % 4 * 16 + b / 16, b % 16 * 4], six);
  }

  lemma OneFilled(a: byte, two: nat, four: nat, six: nat, eight: nat)
    requires two == 2 && four == 4 && six == 6 && eight == 8
    ensures FilledBits([a]) == Join([a / 4, a % 4 * 16], six)
  {
    Powers();
    NoBits(four);
    Parts(a, a / 4, a % 4, 4, six, two);
    Parts(a % 4 * 16, a % 4, 0, 16, two, four);
    JoinCons(a, [], eight);
    JoinCons(a / 4, [a % 4 * 16], six);
    JoinCons(a % 4 * 16, [], six);
    assert [a] + [] == [a] && [a / 4] + [a % 4 * 16] == [a / 4, a % 4 * 16] && [a % 4 * 16] + [] == [a % 4 * 16];
    OneRegrouped(Bits(a / 4, six), Bits(a % 4, two), Zeros(four));
  }

  lemma OneRegrouped(p: seq<bool>, q: seq<bool>, z: seq<bool>)
    ensures ((p + q) + []) + z == p + ((q + z) + [])
  {
  }

  lemma TwoFilled(a: byte, b: byte, two: nat, four: nat, six: nat, eight: nat)
    requires two == 2 && four == 4 && six == 6 && eight == 8
    ensures FilledBits([a, b]) == Join([a / 4, a % 4 * 16 + b / 16, b % 16 * 4], six)
  {
    FilledIs(a, b, eight);
    JoinOnly(a / 4, a % 4 * 16 + b / 16, b % 16 * 4, six);
    TwoBits(a, b, two, four, six, eight);
  }

  lemma TwoBits(a: byte, b: byte, two: nat, four: nat, six: nat, eight: nat)
    requires two == 2 && four == 4 && six == 6 && eight == 8
    ensures (Bits(a, eight) + Bits(b, eight)) + Zeros(two) ==
            Bits(a / 4, six) + (Bits(a % 4 * 16 + b / 16, six) + Bits(b % 16 * 4, six))
  {
    Powers();
    NoBits(two);
    Parts(a, a / 4, a % 4, 4, six, two);
    Parts(b, b / 16, b % 16, 16, four, four);
    Parts(a % 4 * 16 + b / 16, a % 4, b / 16, 16, two, four);
    Parts(b % 16 * 4, b % 16, 0, 4, four, two);
    TwoRegrouped(Bits(a / 4, six), Bits(a % 4, two), Bits(b / 16, four), Bits(b % 16, four), Zeros(two));
  }

  lemma FilledIs(a: byte, b: byte, eight: nat)
    requires eight == 8
    ensures FilledBits([a, b]) == (Bits(a, eight) + Bits(b, eight)) + Zeros(2)
  {
    JoinCons(a, [b], eight);
    JoinCons(b, [], eight);
    assert [a] + [b] == [a, b] && [b] + [] == [b] && Bits(b, eight) + [] == Bits(b, eight);
  }

  lemma JoinOnly(x: nat, y: nat, z: nat, n: nat)
    ensures Join([x, y, z], n) == Bits(x, n) + (Bits(y, n) + Bits(z, n))
  {
    JoinThree(x, y, z, [], n);
    assert [x, y, z] + [] == [x, y, z] && Bits(z, n) + [] == Bits(z, n);
  }

  lemma TwoRegrouped(p: seq<bool>, q: seq<bool>, r: seq<bool>, s: seq<bool>, z: seq<bool>)
    ensures ((p + q) + (r + s)) + z == p + ((q + r) + (s + z))
  {
  }

  // ---- sextets as text

  function Chars(ss: seq<sextet>): (u: string)
    ensures |u| == |ss| && forall i :: 0 <= i < |ss| ==> FromChar(u[i]) == ss[i]
  {
    seq(|ss|, i requires 0 <= i < |ss| => ToChar(ss[i]))
  }

  function Padding(n: nat): string { if n % 4 == 2 then "==" else if n % 4 == 3 then "=" else "" }

  /** The characters of the sextets, padded to whole groups of four. */
  function Print(ss: seq<sextet>): string {
    Chars(ss) + Padding(|ss|)
  }

  function Unpad(s: string): string {
    if |s| >= 2 && s[|s| - 2..] == "==" then s[..|s| - 2]
    else if |s| >= 1 && s[|s| - 1] == '=' then s[..|s| - 1]
    else s
  }

  predicate InAlphabet(u: string) { forall i :: 0 <= i < |u| ==> FromChar(u[i]) >= 0 }

  function Values(u: string): (ss: seq<sextet>)
    requires InAlphabet(u)
    ensures |ss| == |u| && forall i :: 0 <= i < |u| ==> ss[i] == FromChar(u[i])
  {
    seq(|u|, i requires 0 <= i < |u| => FromChar(u[i]))
  }

  /** The sextets of a text of whole groups. */
  function Read(s: string): Option<seq<sextet>> {
    if |s| % 4 == 0 && InAlphabet(Unpad(s)) then Some(Values(Unpad(s))) else None
  }

  lemma ValuesChars(ss: seq<sextet>)
    ensures InAlphabet(Chars(ss)) && Values(Chars(ss)) == ss
  {
  }

  lemma CharsValues(u: string)
    requires InAlphabet(u)
    ensures Chars(Values(u)) == u
  {
    forall i | 0 <= i < |u| ensures Chars(Values(u))[i] == u[i] { ToFromChar(u[i]); }
  }

  lemma UnpadPrint(u: string)
    requires InAlphabet(u) && |u| % 4 != 1
    ensures Unpad(u + Padding(|u|)) == u && |u + Padding(|u|)| % 4 == 0
  {
    var s := u + Padding(|u|);
    if |u| % 4 == 2 {
      assert s[|s| - 2..] == "==";
    } else if |u| > 0 {
      assert FromChar(u[|u| - 1]) >= 0;
      assert s[|s| - 2..][if |u| % 4 == 3 then 0 else 1] != '=';
    }
  }

  lemma ReadPrint(ss: seq<sextet>)
    requires |ss| % 4 != 1
    ensures Read(Print(ss)) == Some(ss)
  {
    ValuesChars(ss);
    UnpadPrint(Chars(ss));
  }

  lemma PrintRead(s: string)
    requires Read(s).Some? && |Read(s).value| % 4 != 1
    ensures Print(Read(s).value) == s
  {
    CharsValues(Unpad(s));
  }

  function Encode(b: seq<byte>): string {
    Print(Sextets(b))
  }

  function Decode(s: string): Option<seq<byte>> {
    match Read(s)
    case None => None
    case Some(ss) => Bytes(ss)
  }

  /** The alphabet: A to Z, a to z, 0 to 9, plus and slash. */
  lemma AlphabetIs(i: sextet)
    ensures ToChar(0) == 'A' && ToChar(26) == 'a' && ToChar(52) == '0' && ToChar(62) == '+' && ToChar(63) == '/'
    ensures ToChar(25) == 'Z' && ToChar(51) == 'z' && ToChar(61) == '9'
    ensures i < 61 && i != 25 && i != 51 ==> ToChar(i + 1) as int == ToChar(i) as int + 1
  {
  }

  /** Section 4 of RFC 4648: three bytes are four characters. */
  lemma EncodeByGroup(a: byte, b: byte, c: byte, rest: seq<byte>)
    ensures Encode([a, b, c] + rest) ==
            [ToChar(a / 4), ToChar(a % 4 * 16 + b / 16), ToChar(b % 16 * 4 + c / 64), ToChar(c % 64)] + Encode(rest)
  {
    SextetsByGroup(a, b, c, rest);
    GroupPrints(Group(a, b, c), Sextets(rest));
  }

  /** What is left over is padded. */
  lemma EncodeRest(a: byte, b: byte)
    ensures Encode([]) == ""
    ensures Encode([a]) == [ToChar(a / 4), ToChar(a % 4 * 16), '=', '=']
    ensures Encode([a, b]) == [ToChar(a / 4), ToChar(a % 4 * 16 + b / 16), ToChar(b % 16 * 4), '=']
  {
    SextetsOfRest(a, b);
    TwoPrint(a / 4, a % 4 * 16, a % 4 * 16 + b / 16, b % 16 * 4);
  }

  lemma TwoPrint(x: sextet, y: sextet, z: sextet, w: sextet)
    ensures Print([x, y]) == [ToChar(x), ToChar(y), '=', '=']
            && Print([x, z, w]) == [ToChar(x), ToChar(z), ToChar(w), '=']
  {
  }

  lemma GroupPrints(g: seq<sextet>, ss: seq<sextet>)
    requires |g| == 4
    ensures Print(g + ss) == [ToChar(g[0]), ToChar(g[1]), ToChar(g[2]), ToChar(g[3])] + Print(ss)
  {
    assert Chars(g + ss) == [ToChar(g[0]), ToChar(g[1]), ToChar(g[2]), ToChar(g[3])] + Chars(ss);
  }

  /** Decoding inverts encoding on every byte string. */
  lemma DecodeEncode(b: seq<byte>)
    ensures Decode(Encode(b)) == Some(b)
  {
    ReadPrint(Sextets(b));
    BytesSextets(b);
  }

  /** Decoding is strict: a text that decodes is the encoding of what it decodes to. */
  lemma EncodeDecode(s: string)
    requires Decode(s).Some?
    ensures Encode(Decode(s).value) == s
  {
    SextetsBytes(Read(s).value);
    PrintRead(s);
  }

  /** No character of an encoding is white space, a dash or a semicolon. */
  lemma EncodeChars(b: seq<byte>)
    ensures forall i :: 0 <= i < |Encode(b)| ==>
              !IsWhitespace(Encode(b)[i]) && Encode(b)[i] != '-' && Encode(b)[i] != ';'
  {
    var ss := Sextets(b);
    assert forall i :: 0 <= i < |ss| ==> FromChar(Encode(b)[i]) >= 0;
  }
}
