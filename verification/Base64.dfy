/** curl's base64 codec: RFC 4648 section 4, and the encoder's alphabet of section 5. */
module Base64 {
  import opened Buffers
  import opened Wrappers

  // ---------- The alphabets ----------

  function Alphabet(last: string): (t: string)
    ensures |t| == 62 + |last|
  {
    seq(26, i requires 0 <= i < 26 => 'A' + i as char)
    + seq(26, i requires 0 <= i < 26 => 'a' + i as char)
    + seq(10, i requires 0 <= i < 10 => '0' + i as char)
    + last
  }

  const BASE64 := Alphabet("+/")
  const BASE64URL := Alphabet("-_")

  /** The value of a character of the standard alphabet, 64 for any other character. */
  function ValueOf(c: char): (v: nat)
    ensures v <= 64
  {
    if 'A' <= c <= 'Z' then c as int - 'A' as int
    else if 'a' <= c <= 'z' then c as int - 'a' as int + 26
    else if '0' <= c <= '9' then c as int - '0' as int + 52
    else if c == '+' then 62
    else if c == '/' then 63
    else 64
  }

  lemma AlphabetValues(v: nat)
    requires v < 64
    ensures ValueOf(BASE64[v]) == v && BASE64[v] != '='
    ensures v < 62 ==> BASE64URL[v] == BASE64[v]
    ensures v >= 62 ==> ValueOf(BASE64URL[v]) == 64 && BASE64URL[v] != '='
  {
  }

  lemma Letters(last: string, v: nat)
    requires v < 26
    ensures Alphabet(last)[v] == "ABCDEFGHIJKLMNOPQRSTUVWXYZ"[v]
    ensures Alphabet(last)[26 + v] == "abcdefghijklmnopqrstuvwxyz"[v]
  {
  }

  lemma DigitsAndLast(last: string, v: nat)
    requires |last| == 2 && v < 12
    ensures Alphabet(last)[52 + v] == ("0123456789" + last)[v]
  {
  }

  /** The tables of RFC 4648, character by character; the two alphabets differ in the last two. */
  lemma AlphabetTables(v: nat)
    requires v < 26
    ensures BASE64[v] == BASE64URL[v] == "ABCDEFGHIJKLMNOPQRSTUVWXYZ"[v]
    ensures BASE64[26 + v] == BASE64URL[26 + v] == "abcdefghijklmnopqrstuvwxyz"[v]
    ensures v < 12 ==> BASE64[52 + v] == ("0123456789" + "+/")[v] && BASE64URL[52 + v] == ("0123456789" + "-_")[v]
  {
    hide Alphabet;
    Letters("+/", v);
    Letters("-_", v);
    if v < 12 {
      DigitsAndLast("+/", v);
      DigitsAndLast("-_", v);
    }
  }

  lemma ValuesAlphabet(c: char)
    ensures ValueOf(c) < 64 ==> BASE64[ValueOf(c)] == c
  {
  }

  // ---------- What the codec means ----------

  /** The four sextets of a 24-bit group, most significant first. */
  function Sextets(a: Byte, b: Byte, c: Byte): (s: seq<nat>)
    ensures |s| == 4 && forall i :: 0 <= i < 4 ==> s[i] < 64
  {
    var group: nat := a * 65536 + b * 256 + c;
    [group / 262144, group / 4096 % 64, group / 64 % 64, group % 64]
  }

  function Encoded(t: string, data: seq<Byte>): string
    requires |t| == 64
  {
    hide Sextets;
    if data == [] then ""
    else if |data| == 1 then
      var s := Sextets(data[0], 0, 0);
      [t[s[0]], t[s[1]], '=', '=']
    else if |data| == 2 then
      var s := Sextets(data[0], data[1], 0);
      [t[s[0]], t[s[1]], t[s[2]], '=']
    else
      var s := Sextets(data[0], data[1], data[2]);
      [t[s[0]], t[s[1]], t[s[2]], t[s[3]]] + Encoded(t, data[3..])
  }

  lemma {:induction false} EncodedLength(t: string, data: seq<Byte>)
    requires |t| == 64
    ensures |Encoded(t, data)| == (|data| + 2) / 3 * 4
  {
    hide Sextets;
    if |data| >= 3 {
      EncodedLength(t, data[3..]);
      assert (|data| + 2) / 3 == (|data[3..]| + 2) / 3 + 1;
    }
  }

  /** The trailing padding: at most two equals signs. */
  function Padding(s: string): (p: nat)
    ensures p <= 2 && p <= |s|
  {
    if |s| >= 2 && s[|s| - 1] == '=' && s[|s| - 2] == '=' then 2
    else if |s| >= 1 && s[|s| - 1] == '=' then 1
    else 0
  }

  /** Non-empty, a multiple of four characters, all from the alphabet but the padding. */
  predicate Decodable(s: string) {
    s != "" && |s| % 4 == 0 && forall i :: 0 <= i < |s| - Padding(s) ==> ValueOf(s[i]) < 64
  }

  function Sextet(c: char): (v: nat)
    ensures v < 64
  {
    if ValueOf(c) < 64 then ValueOf(c) else 0
  }

  /** The bytes of one group of four characters, as if there were no padding. */
  function Group(s: string): (r: seq<Byte>)
    requires |s| == 4
    ensures |r| == 3
  {
    var x := Sextet(s[0]) * 262144 + Sextet(s[1]) * 4096 + Sextet(s[2]) * 64 + Sextet(s[3]);
    [x / 65536, x / 256 % 256, x % 256]
  }

  function Decoded(s: string): (r: seq<Byte>)
    requires |s| % 4 == 0
    ensures |r| == |s| / 4 * 3 - Padding(s)
  {
    if s == "" then []
    else if |s| == 4 then Group(s)[..3 - Padding(s)]
    else
      assert Padding(s[4..]) == Padding(s);
      Group(s[..4]) + Decoded(s[4..])
  }

  // ---------- Laws ----------

  /** A 24-bit group is its four sextets. */
  lemma SextetsAdd(x: nat)
    ensures x / 262144 * 262144 + x / 4096 % 64 * 4096 + x / 64 % 64 * 64 + x % 64 == x
  {
    assert x == x / 64 * 64 + x % 64;
    assert x / 64 == x / 64 / 64 * 64 + x / 64 % 64;
    assert x / 64 / 64 == x / 4096;
    assert x / 4096 == x / 4096 / 64 * 64 + x / 4096 % 64;
    assert x / 4096 / 64 == x / 262144;
  }

  /** A 24-bit group is its three bytes. */
  lemma BytesSplit(a: Byte, b: Byte, c: Byte)
    ensures var x := a * 65536 + b * 256 + c; x / 65536 == a && x / 256 % 256 == b && x % 256 == c
  {
    var x := a * 65536 + b * 256 + c;
    assert x / 256 == a * 256 + b;
  }

  lemma GroupOfSextets(a: Byte, b: Byte, c: Byte)
    ensures var s := Sextets(a, b, c);
      var x := s[0] * 262144 + s[1] * 4096 + s[2] * 64 + s[3];
      [x / 65536, x / 256 % 256, x % 256] == [a, b, c]
  {
    SextetsAdd(a * 65536 + b * 256 + c);
    BytesSplit(a, b, c);
  }

  lemma Quotient(x: nat, q: nat, r: nat)
    requires x == q * 64 + r && r < 64
    ensures x / 64 == q && x % 64 == r
  {
  }

  lemma Nested(x: nat)
    ensures x / 4096 == x / 64 / 64 && x / 262144 == x / 64 / 64 / 64
  {
  }

  lemma SextetsAre(x: nat, v0: nat, v1: nat, v2: nat, v3: nat)
    requires x == v0 * 262144 + v1 * 4096 + v2 * 64 + v3 && v1 < 64 && v2 < 64 && v3 < 64
    ensures x / 262144 == v0 && x / 4096 % 64 == v1 && x / 64 % 64 == v2 && x % 64 == v3
  {
    Nested(x);
    Quotient(x, v0 * 4096 + v1 * 64 + v2, v3);
    Quotient(x / 64, v0 * 64 + v1, v2);
    Quotient(x / 64 / 64, v0, v1);
  }

  /** What the encoder's masks and shifts compute. */
  lemma MasksAreSextets(a: Byte, b: Byte, c: Byte)
    ensures Sextets(a, b, c) == [a / 4, a % 4 * 16 + b / 16, b % 16 * 4 + c / 64, c % 64]
  {
    assert a == a / 4 * 4 + a % 4 && b == b / 16 * 16 + b % 16 && c == c / 64 * 64 + c % 64;
    SextetsAre(a * 65536 + b * 256 + c, a / 4, a % 4 * 16 + b / 16, b % 16 * 4 + c / 64, c % 64);
  }

  /** The sextets of the bytes of a group. */
  lemma SextetsOfGroup(v0: nat, v1: nat, v2: nat, v3: nat)
    requires v0 < 64 && v1 < 64 && v2 < 64 && v3 < 64
    ensures var x := v0 * 262144 + v1 * 4096 + v2 * 64 + v3;
      Sextets(x / 65536, x / 256 % 256, x % 256) == [v0, v1, v2, v3]
  {
    var x := v0 * 262144 + v1 * 4096 + v2 * 64 + v3;
    BytesAdd(x);
    SextetsAre(x, v0, v1, v2, v3);
  }

  lemma BytesAdd(x: nat)
    ensures x / 65536 * 65536 + x / 256 % 256 * 256 + x % 256 == x
  {
    assert x == x / 256 * 256 + x % 256;
    assert x / 256 == x / 256 / 256 * 256 + x / 256 % 256;
    assert x / 256 / 256 == x / 65536;
  }

  lemma SymbolSextet(v: nat)
    requires v < 64
    ensures Sextet(BASE64[v]) == v && ValueOf(BASE64[v]) == v && BASE64[v] != '='
  {
    AlphabetValues(v);
  }

  /** A whole group in front of more text. */
  lemma GroupInFront(q: string, rest: string)
    requires |q| == 4 && rest != "" && |rest| % 4 == 0
    ensures Decodable(q + rest) <==> (forall i :: 0 <= i < 4 ==> ValueOf(q[i]) < 64) && Decodable(rest)
    ensures Decoded(q + rest) == Group(q) + Decoded(rest)
  {
    PaddingBehind(q, rest);
    DecodableBehind(q, rest);
    var s := q + rest;
    assert |rest| >= 4 && s[..4] == q && s[4..] == rest;
    hide Group, Padding, Decodable, ValueOf;
  }

  lemma PaddingBehind(q: string, rest: string)
    requires |rest| >= 2
    ensures Padding(q + rest) == Padding(rest)
  {
  }

  lemma DecodableBehind(q: string, rest: string)
    requires |q| == 4 && rest != "" && |rest| % 4 == 0 && Padding(q + rest) == Padding(rest)
    ensures Decodable(q + rest) <==> (forall i :: 0 <= i < 4 ==> ValueOf(q[i]) < 64) && Decodable(rest)
  {
    hide ValueOf, Padding;
    var s := q + rest;
    assert forall i :: 0 <= i < 4 ==> s[i] == q[i];
    assert forall i :: 4 <= i < |s| ==> s[i] == rest[i - 4];
    if Decodable(s) {
      assert forall i :: 0 <= i < |rest| - Padding(rest) ==> s[i + 4] == rest[i];
    }
  }

  /** A last group with n bytes: n + 1 characters and padding. */
  predicate IsLast(s: string, n: nat) {
    && |s| == 4 && 1 <= n <= 3
    && (forall i :: 0 <= i <= n ==> ValueOf(s[i]) < 64)
    && (forall i :: n < i < 4 ==> s[i] == '=')
  }

  lemma LastDecodes(s: string, n: nat)
    requires IsLast(s, n)
    ensures Padding(s) == 3 - n && Decodable(s) && Decoded(s) == Group(s)[..n]
  {
    assert ValueOf('=') == 64;
    assert s[n] != '=';
  }

  lemma ZeroSextets(a: Byte, b: Byte, c: Byte)
    ensures c == 0 ==> Sextets(a, b, c)[3] == 0
    ensures b == 0 && c == 0 ==> Sextets(a, b, c)[2] == 0
  {
    MasksAreSextets(a, b, c);
    hide Sextets;
  }

  lemma GroupIs(s: string, a: Byte, b: Byte, c: Byte)
    requires |s| == 4 && forall i :: 0 <= i < 4 ==> Sextet(s[i]) == Sextets(a, b, c)[i]
    ensures Group(s) == [a, b, c]
  {
    GroupOfSextets(a, b, c);
    hide Sextet, Sextets;
  }

  lemma EncodedLast(t: string, data: seq<Byte>, b: Byte, c: Byte)
    requires |t| == 64 && 1 <= |data| <= 3
    requires b == (if |data| > 1 then data[1] else 0) && c == (if |data| > 2 then data[2] else 0)
    ensures var v := Sextets(data[0], b, c);
      Encoded(t, data) == [t[v[0]], t[v[1]], if |data| > 1 then t[v[2]] else '=', if |data| > 2 then t[v[3]] else '=']
  {
    hide Sextets, Alphabet;
    assert |data| == 3 ==> data[3..] == [];
  }

  /** A last group from its bytes; c and b are zero where there are fewer than three. */
  lemma LastEncodes(data: seq<Byte>, b: Byte, c: Byte)
    requires 1 <= |data| <= 3
    requires b == (if |data| > 1 then data[1] else 0) && c == (if |data| > 2 then data[2] else 0)
    ensures var s, v := Encoded(BASE64, data), Sextets(data[0], b, c);
      IsLast(s, |data|) && forall i :: 0 <= i < 4 ==> Sextet(s[i]) == v[i]
  {
    hide Encoded, Sextets, Alphabet, ValueOf, Sextet;
    ZeroSextets(data[0], b, c);
    EncodedLast(BASE64, data, b, c);
    LastFits(Encoded(BASE64, data), |data|, Sextets(data[0], b, c));
  }

  lemma LastFits(s: string, n: nat, v: seq<nat>)
    requires 1 <= n <= 3 && |v| == 4 && forall i :: 0 <= i < 4 ==> v[i] < 64
    requires s == [BASE64[v[0]], BASE64[v[1]], if n > 1 then BASE64[v[2]] else '=', if n > 2 then BASE64[v[3]] else '=']
    requires forall i :: n < i < 4 ==> v[i] == 0
    ensures IsLast(s, n) && forall i :: 0 <= i < 4 ==> Sextet(s[i]) == v[i]
  {
    assert Sextet('=') == 0;
    hide Alphabet, ValueOf, Sextet;
    forall i | 0 <= i < 4
      ensures Sextet(s[i]) == v[i] && if i <= n then ValueOf(s[i]) < 64 else s[i] == '='
    {
      assert s[i] == if i <= n then BASE64[v[i]] else '=';
      SymbolSextet(v[i]);
    }
  }

  lemma LastGroup(data: seq<Byte>)
    requires 1 <= |data| <= 3
    ensures var s := Encoded(BASE64, data);
      Padding(s) == 3 - |data| && Decodable(s) && Decoded(s) == data
  {
    hide Encoded, Sextets, Alphabet, ValueOf, Sextet, Decoded, Padding, Decodable, Group;
    var b, c := if |data| > 1 then data[1] else 0, if |data| > 2 then data[2] else 0;
    LastEncodes(data, b, c);
    GroupIs(Encoded(BASE64, data), data[0], b, c);
    LastDecodes(Encoded(BASE64, data), |data|);
    assert data == [data[0], b, c][..|data|];
  }

  lemma EncodedSplit(t: string, g: seq<Byte>, rest: seq<Byte>)
    requires |t| == 64 && |g| == 3
    ensures Encoded(t, g + rest) == Encoded(t, g) + Encoded(t, rest)
  {
    hide Sextets, Alphabet;
    assert (g + rest)[3..] == rest && g[3..] == [];
  }

  lemma VectorSextets()
    ensures Sextets(0x66, 0, 0) == [25, 32, 0, 0] && Sextets(0x66, 0x6F, 0) == [25, 38, 60, 0]
    ensures Sextets(0x66, 0x6F, 0x6F) == [25, 38, 61, 47] && Sextets(0x62, 0x61, 0x72) == [24, 38, 5, 50]
  {
  }

  lemma VectorSymbols()
    ensures |BASE64| == 64
    ensures BASE64[25] == 'Z' && BASE64[32] == 'g' && BASE64[38] == 'm' && BASE64[60] == '8' && BASE64[61] == '9'
    ensures BASE64[47] == 'v' && BASE64[24] == 'Y' && BASE64[5] == 'F' && BASE64[50] == 'y'
  {
  }

  /** The test vectors of RFC 4648, section 10: "f", "fo", "foo" and "foobar". */
  lemma TestVectors()
    ensures Encoded(BASE64, [0x66]) == "Zg==" && Encoded(BASE64, [0x66, 0x6F]) == "Zm8="
    ensures Encoded(BASE64, [0x66, 0x6F, 0x6F]) == "Zm9v"
    ensures Encoded(BASE64, [0x66, 0x6F, 0x6F, 0x62, 0x61, 0x72]) == "Zm9vYmFy"
  {
    hide Encoded, Sextets, Alphabet, BASE64;
    VectorSextets();
    VectorSymbols();
    var foo, bar := [0x66, 0x6F, 0x6F], [0x62, 0x61, 0x72];
    EncodedLast(BASE64, [0x66], 0, 0);
    EncodedLast(BASE64, [0x66, 0x6F], 0x6F, 0);
    EncodedLast(BASE64, foo, 0x6F, 0x6F);
    EncodedLast(BASE64, bar, 0x61, 0x72);
    EncodedSplit(BASE64, foo, bar);
    assert foo + bar == [0x66, 0x6F, 0x6F, 0x62, 0x61, 0x72];
  }

  /** Decoding what was encoded gives the bytes back, for every non-empty byte string. */
  lemma {:induction false} RoundTrip(data: seq<Byte>)
    requires data != []
    ensures Decodable(Encoded(BASE64, data)) && Decoded(Encoded(BASE64, data)) == data
    decreases |data|
  {
    if |data| <= 3 {
      LastGroup(data);
    } else {
      var q, rest := Encoded(BASE64, data[..3]), Encoded(BASE64, data[3..]);
      hide Encoded, Decoded, Group, Decodable, Padding, Alphabet, ValueOf;
      LastGroup(data[..3]);
      GroupValues(q);
      RoundTrip(data[3..]);
      assert data == data[..3] + data[3..];
      EncodedSplit(BASE64, data[..3], data[3..]);
      GroupInFront(q, rest);
    }
  }

  lemma GroupValues(q: string)
    requires |q| == 4 && Decodable(q) && Padding(q) == 0
    ensures Decoded(q) == Group(q) && forall i :: 0 <= i < 4 ==> ValueOf(q[i]) < 64
  {
  }

  // ---------- Which texts are encodings ----------

  /** The bits that the padding makes superfluous are zero. */
  predicate Canonical(s: string)
    requires s != "" && |s| % 4 == 0
  {
    && (Padding(s) == 1 ==> Sextet(s[|s| - 2]) % 4 == 0)
    && (Padding(s) == 2 ==> Sextet(s[|s| - 3]) % 16 == 0)
  }

  lemma SameSymbol(c: char, v: nat)
    requires ValueOf(c) < 64 && v < 64
    ensures Sextet(c) == ValueOf(c) && (BASE64[v] == c <==> v == ValueOf(c))
  {
    ValuesAlphabet(c);
    SymbolSextet(v);
  }

  /** The first n bytes of a group re-encode to the sextets up to the last, whose low bits are lost. */
  lemma LostBits(v0: nat, v1: nat, v2: nat, v3: nat)
    requires v0 < 64 && v1 < 64 && v2 < 64 && v3 < 64
    ensures var x := v0 * 262144 + v1 * 4096 + v2 * 64 + v3;
      var a, b := x / 65536, x / 256 % 256;
      && Sextets(a, b, 0)[..3] == [v0, v1, v2 - v2 % 4]
      && Sextets(a, 0, 0)[..2] == [v0, v1 - v1 % 16]
  {
    var x := v0 * 262144 + v1 * 4096 + v2 * 64 + v3;
    var a, b, c := x / 65536, x / 256 % 256, x % 256;
    SextetsOfGroup(v0, v1, v2, v3);
    MasksAreSextets(a, b, c);
    MasksAreSextets(a, b, 0);
    MasksAreSextets(a, 0, 0);
    hide Sextets;
    assert [v0, v1, v2, v3] == [a / 4, a % 4 * 16 + b / 16, b % 16 * 4 + c / 64, c % 64];
    LowBits(b, c);
    LowBits16(a, b);
  }

  lemma LowBits(b: nat, c: Byte)
    ensures (b % 16 * 4 + c / 64) % 4 == c / 64
  {
  }

  lemma LowBits16(a: nat, b: Byte)
    ensures (a % 4 * 16 + b / 16) % 16 == b / 16
  {
  }

  lemma IsLastGroup(s: string)
    requires |s| == 4 && Decodable(s)
    ensures IsLast(s, 3 - Padding(s)) && Decoded(s) == Group(s)[..3 - Padding(s)]
  {
  }

  /** The sextets of the bytes that a last group stands for. */
  lemma LastSextets(s: string, n: nat)
    requires |s| == 4 && 1 <= n <= 3
    ensures var g := Group(s);
      var w := Sextets(g[0], if n > 1 then g[1] else 0, if n > 2 then g[2] else 0);
      var v1, v2 := Sextet(s[1]), Sextet(s[2]);
      && w[0] == Sextet(s[0])
      && w[1] == (if n == 1 then v1 - v1 % 16 else v1)
      && (n > 1 ==> w[2] == if n == 2 then v2 - v2 % 4 else v2)
      && (n > 2 ==> w[3] == Sextet(s[3]))
  {
    hide Sextet, Sextets;
    var v0, v1, v2, v3 := Sextet(s[0]), Sextet(s[1]), Sextet(s[2]), Sextet(s[3]);
    LostBits(v0, v1, v2, v3);
    SextetsOfGroup(v0, v1, v2, v3);
    var g := Group(s);
    assert n == 1 ==> Sextets(g[0], 0, 0)[..2] == [v0, v1 - v1 % 16];
    assert n == 2 ==> Sextets(g[0], g[1], 0)[..3] == [v0, v1, v2 - v2 % 4];
  }

  lemma LastCanonical(s: string)
    requires |s| == 4 && Decodable(s)
    ensures Encoded(BASE64, Decoded(s)) == s <==> Canonical(s)
  {
    IsLastGroup(s);
    hide Group, Encoded, Decoded, Sextets, Sextet, ValueOf, Alphabet, Padding, Decodable;
    var n, g := 3 - Padding(s), Group(s);
    var b, c := if n > 1 then g[1] else 0, if n > 2 then g[2] else 0;
    var w := Sextets(g[0], b, c);
    LastSextets(s, n);
    SameSymbols(s, n, w);
    EncodedLast(BASE64, Decoded(s), b, c);
    LowBitsDecide(s, n, w);
  }

  lemma LowBitsDecide(s: string, n: nat, w: seq<nat>)
    requires |s| == 4 && n == 3 - Padding(s) && 1 <= n && |w| == 4
    requires w[0] == Sextet(s[0])
    requires w[1] == if n == 1 then Sextet(s[1]) - Sextet(s[1]) % 16 else Sextet(s[1])
    requires n > 1 ==> w[2] == if n == 2 then Sextet(s[2]) - Sextet(s[2]) % 4 else Sextet(s[2])
    requires n > 2 ==> w[3] == Sextet(s[3])
    ensures (forall i :: 0 <= i <= n ==> w[i] == Sextet(s[i])) <==> Canonical(s)
  {
    hide Sextet, Padding;
    assert (forall i :: 0 <= i <= n ==> w[i] == Sextet(s[i])) <==>
      w[1] == Sextet(s[1]) && (n > 1 ==> w[2] == Sextet(s[2]));
  }

  /** When the symbols of w followed by padding are s. */
  lemma SameSymbols(s: string, n: nat, w: seq<nat>)
    requires IsLast(s, n) && |w| == 4 && forall i :: 0 <= i < 4 ==> w[i] < 64
    ensures [BASE64[w[0]], BASE64[w[1]], if n > 1 then BASE64[w[2]] else '=', if n > 2 then BASE64[w[3]] else '='] == s
        <==> forall i :: 0 <= i <= n ==> w[i] == Sextet(s[i])
  {
    hide Alphabet, ValueOf, Sextet;
    SameSymbol(s[0], w[0]);
    SameSymbol(s[1], w[1]);
    if n > 1 {
      SameSymbol(s[2], w[2]);
    }
    if n > 2 {
      SameSymbol(s[3], w[3]);
    }
    var t := [BASE64[w[0]], BASE64[w[1]], if n > 1 then BASE64[w[2]] else '=', if n > 2 then BASE64[w[3]] else '='];
    assert t == s <==> t[0] == s[0] && t[1] == s[1] && t[2] == s[2] && t[3] == s[3];
  }

  /** Encoding what was decoded gives the text back exactly when the superfluous bits are zero. */
  lemma {:induction false} ReencodeIff(s: string)
    requires Decodable(s)
    ensures Encoded(BASE64, Decoded(s)) == s <==> Canonical(s)
    decreases |s|
  {
    if |s| == 4 {
      LastCanonical(s);
    } else {
      var q, rest := s[..4], s[4..];
      assert s == q + rest && Padding(s) == Padding(rest);
      assert Canonical(s) <==> Canonical(rest);
      hide Encoded, Decoded, Group, Decodable, Padding, Alphabet, ValueOf, Canonical;
      GroupInFront(q, rest);
      WholeGroup(q);
      EncodedSplit(BASE64, Group(q), Decoded(rest));
      ReencodeIff(rest);
    }
  }

  lemma WholeGroup(q: string)
    requires |q| == 4 && forall i :: 0 <= i < 4 ==> ValueOf(q[i]) < 64
    ensures Encoded(BASE64, Group(q)) == q
  {
    assert Padding(q) == 0 && Decodable(q);
    assert Decoded(q) == Group(q);
    hide Encoded, Group, ValueOf, Alphabet;
    LastCanonical(q);
  }

  // ---------- The alphabet of section 5 ----------

  /** The decoder reads text in the URL alphabet exactly when it is also text in the standard one, that is,
      when it has neither of the two characters that differ. */
  lemma UrlDecodableIff(data: seq<Byte>)
    requires data != []
    ensures Decodable(Encoded(BASE64URL, data)) <==> Encoded(BASE64URL, data) == Encoded(BASE64, data)
    ensures Decodable(Encoded(BASE64URL, data)) <==>
              '-' !in Encoded(BASE64URL, data) && '_' !in Encoded(BASE64URL, data)
  {
    hide Encoded, Alphabet, Decodable;
    UrlSame(data);
    if '-' !in Encoded(BASE64URL, data) && '_' !in Encoded(BASE64URL, data) {
      UrlPlain(data);
    }
    if Decodable(Encoded(BASE64URL, data)) {
      DecodableChars(Encoded(BASE64URL, data));
    }
  }

  lemma DecodableChars(u: string)
    requires Decodable(u)
    ensures '-' !in u && '_' !in u
  {
    assert ValueOf('-') == 64 && ValueOf('_') == 64;
    assert forall i :: |u| - Padding(u) <= i < |u| ==> u[i] == '=';
  }

  lemma PlainSymbol(v: nat)
    requires v < 64 && BASE64URL[v] != '-' && BASE64URL[v] != '_'
    ensures BASE64URL[v] == BASE64[v]
  {
  }

  lemma PlainLast(data: seq<Byte>)
    requires 1 <= |data| <= 3 && '-' !in Encoded(BASE64URL, data) && '_' !in Encoded(BASE64URL, data)
    ensures Encoded(BASE64URL, data) == Encoded(BASE64, data)
  {
    var b, c := if |data| > 1 then data[1] else 0, if |data| > 2 then data[2] else 0;
    var u, s, v := Encoded(BASE64URL, data), Encoded(BASE64, data), Sextets(data[0], b, c);
    hide Encoded, Sextets, Alphabet;
    EncodedLast(BASE64URL, data, b, c);
    EncodedLast(BASE64, data, b, c);
    PlainAll(u, s, |data|, v);
  }

  lemma PlainAll(u: string, s: string, n: nat, v: seq<nat>)
    requires 1 <= n <= 3 && |v| == 4 && forall i :: 0 <= i < 4 ==> v[i] < 64
    requires u == [BASE64URL[v[0]], BASE64URL[v[1]], if n > 1 then BASE64URL[v[2]] else '=',
                   if n > 2 then BASE64URL[v[3]] else '=']
    requires s == [BASE64[v[0]], BASE64[v[1]], if n > 1 then BASE64[v[2]] else '=', if n > 2 then BASE64[v[3]] else '=']
    requires '-' !in u && '_' !in u
    ensures u == s
  {
    hide Alphabet;
    assert u[0] in u && u[1] in u && u[2] in u && u[3] in u;
    PlainSymbol(v[0]);
    PlainSymbol(v[1]);
    if n > 1 {
      PlainSymbol(v[2]);
    }
    if n > 2 {
      PlainSymbol(v[3]);
    }
  }

  /** Encoder output without the two characters is the same in both alphabets. */
  lemma {:induction false} UrlPlain(data: seq<Byte>)
    requires data != [] && '-' !in Encoded(BASE64URL, data) && '_' !in Encoded(BASE64URL, data)
    ensures Encoded(BASE64URL, data) == Encoded(BASE64, data)
    decreases |data|
  {
    hide Encoded, Alphabet;
    if |data| <= 3 {
      PlainLast(data);
    } else {
      var g, rest := data[..3], data[3..];
      assert data == g + rest;
      EncodedSplit(BASE64URL, g, rest);
      EncodedSplit(BASE64, g, rest);
      PlainLast(g);
      UrlPlain(rest);
    }
  }

  lemma {:induction false} UrlSame(data: seq<Byte>)
    requires data != []
    ensures Decodable(Encoded(BASE64URL, data)) <==> Encoded(BASE64URL, data) == Encoded(BASE64, data)
    decreases |data|
  {
    hide Encoded, Alphabet, Decodable, Decoded, ValueOf;
    if |data| <= 3 {
      UrlLast(data);
    } else {
      var g, rest := data[..3], data[3..];
      UrlLast(g);
      UrlSame(rest);
      assert data == g + rest;
      EncodedLength(BASE64URL, g);
      EncodedLength(BASE64URL, rest);
      EncodedLength(BASE64, g);
      EncodedSplit(BASE64URL, g, rest);
      EncodedSplit(BASE64, g, rest);
      GroupInFront(Encoded(BASE64URL, g), Encoded(BASE64URL, rest));
      SameParts(Encoded(BASE64URL, g), Encoded(BASE64URL, rest), Encoded(BASE64, g), Encoded(BASE64, rest));
    }
  }

  lemma SameParts(a: string, b: string, c: string, d: string)
    requires |a| == |c|
    ensures a + b == c + d <==> a == c && b == d
  {
    assert (a + b)[..|a|] == a && (a + b)[|a|..] == b;
    assert (c + d)[..|c|] == c && (c + d)[|c|..] == d;
  }

  lemma UrlSymbol(v: nat)
    requires v < 64
    ensures UrlFits(BASE64URL[v], BASE64[v])
  {
    AlphabetValues(v);
  }

  lemma UrlLast(data: seq<Byte>)
    requires 1 <= |data| <= 3
    ensures var u, s := Encoded(BASE64URL, data), Encoded(BASE64, data);
      && (Decodable(u) <==> u == s)
      && (|data| == 3 ==> ((forall i :: 0 <= i < 4 ==> ValueOf(u[i]) < 64) <==> u == s))
  {
    var b, c := if |data| > 1 then data[1] else 0, if |data| > 2 then data[2] else 0;
    var u, s := Encoded(BASE64URL, data), Encoded(BASE64, data);
    var v := Sextets(data[0], b, c);
    hide Encoded, Sextets, Alphabet, ValueOf, Decodable, UrlFits;
    EncodedLast(BASE64URL, data, b, c);
    EncodedLast(BASE64, data, b, c);
    UrlFitsAll(u, s, |data|, v);
    UrlDecides(u, s, |data|);
  }

  lemma UrlFitsAll(u: string, s: string, n: nat, v: seq<nat>)
    requires 1 <= n <= 3 && |v| == 4 && forall i :: 0 <= i < 4 ==> v[i] < 64
    requires u == [BASE64URL[v[0]], BASE64URL[v[1]], if n > 1 then BASE64URL[v[2]] else '=',
                   if n > 2 then BASE64URL[v[3]] else '=']
    requires s == [BASE64[v[0]], BASE64[v[1]], if n > 1 then BASE64[v[2]] else '=', if n > 2 then BASE64[v[3]] else '=']
    ensures forall i :: 0 <= i <= n ==> UrlFits(u[i], s[i])
    ensures forall i :: n < i < 4 ==> u[i] == '=' && s[i] == '='
  {
    hide Alphabet, UrlFits;
    forall i | 0 <= i <= n
      ensures UrlFits(u[i], s[i])
    {
      assert u[i] == BASE64URL[v[i]] && s[i] == BASE64[v[i]];
      UrlSymbol(v[i]);
    }
  }

  predicate UrlFits(u: char, s: char) {
    u != '=' && (ValueOf(u) < 64 <==> u == s)
  }

  lemma UrlDecides(u: string, s: string, n: nat)
    requires |u| == |s| == 4 && 1 <= n <= 3
    requires forall i :: 0 <= i <= n ==> UrlFits(u[i], s[i])
    requires forall i :: n < i < 4 ==> u[i] == '=' && s[i] == '='
    ensures Decodable(u) <==> u == s
    ensures n == 3 ==> ((forall i :: 0 <= i < 4 ==> ValueOf(u[i]) < 64) <==> u == s)
  {
    hide ValueOf, Decodable;
    assert u == s <==> forall i :: 0 <= i <= n ==> u[i] == s[i];
    DecodableLast(u, n);
  }

  lemma DecodableLast(u: string, n: nat)
    requires |u| == 4 && 1 <= n <= 3 && forall i :: 0 <= i < 4 ==> (u[i] == '=' <==> i > n)
    ensures Decodable(u) <==> forall i :: 0 <= i <= n ==> ValueOf(u[i]) < 64
  {
    assert Padding(u) == 3 - n;
  }

  // ---------- The decoder ----------

  /** The linear search through the table. */
  method Lookup(c: char) returns (v: nat)
    ensures v == ValueOf(c)
  {
    v := 0;
    while v < 64 && BASE64[v] != c
      invariant v <= 64 && forall k :: 0 <= k < v ==> BASE64[k] != c
    {
      v := v + 1;
    }
    hide Alphabet, ValueOf;
    ValuesAlphabet(c);
    if v < 64 {
      AlphabetValues(v);
    }
  }

  /** The sextets of the first i characters as one number. */
  function Gathered(q: string, i: nat): nat
    requires i <= |q|
  {
    if i == 0 then 0 else Gathered(q, i - 1) * 64 + Sextet(q[i - 1])
  }

  lemma GatheredGroup(q: string)
    requires |q| == 4
    ensures Group(q) == [Gathered(q, 4) / 65536, Gathered(q, 4) / 256 % 256, Gathered(q, 4) % 256]
    ensures Gathered(q, 4) / 65536 == Gathered(q, 4) / 256 / 256 && Gathered(q, 4) / 65536 < 256
  {
    hide Sextet;
    assert Gathered(q, 1) == Sextet(q[0]);
    assert Gathered(q, 2) == Sextet(q[0]) * 64 + Sextet(q[1]);
    assert Gathered(q, 3) == Sextet(q[0]) * 4096 + Sextet(q[1]) * 64 + Sextet(q[2]);
  }

  /** Equals signs only as trailing padding. */
  predicate PaddedAtEnd(s: string) {
    forall i :: 0 <= i < |s| && s[i] == '=' ==> i >= |s| - Padding(s)
  }

  function Equals(q: string): (n: nat)
    ensures n <= |q|
  {
    if q == "" then 0 else Equals(q[..|q| - 1]) + if q[|q| - 1] == '=' then 1 else 0
  }

  predicate ValidGroup(q: string) {
    forall i :: 0 <= i < |q| ==> q[i] == '=' || ValueOf(q[i]) < 64
  }

  lemma EqualsOfGroup(q: string)
    requires |q| == 4
    ensures Equals(q) == (if q[0] == '=' then 1 else 0) + (if q[1] == '=' then 1 else 0)
                         + (if q[2] == '=' then 1 else 0) + (if q[3] == '=' then 1 else 0)
  {
    assert q[..3][..2] == q[..2] && q[..2][..1] == q[..1] && q[..1][..0] == "";
    assert Equals(q[..3]) == Equals(q[..2]) + if q[2] == '=' then 1 else 0;
  }

  /** In the groups that the decoder passes on. */
  lemma PaddedGroup(q: string)
    requires |q| == 4 && PaddedAtEnd(q)
    ensures Equals(q) == Padding(q) && (ValidGroup(q) <==> Decodable(q))
  {
    EqualsOfGroup(q);
    hide Equals, ValueOf;
    assert forall k :: 0 <= k < 4 ==> (q[k] == '=' <==> k >= 4 - Padding(q));
  }

  /** The loop over the four characters. */
  method GatherSextets(q: string) returns (valid: bool, x: nat, padding: nat)
    requires |q| == 4
    ensures valid <==> ValidGroup(q)
    ensures valid ==> x == Gathered(q, 4) && padding == Equals(q)
  {
    x, padding, valid := 0, 0, true;
    assert Equals(q[..0]) == 0;
    hide Sextet, ValueOf;
    var i := 0;
    while i < 4
      invariant 0 <= i <= 4 && x == Gathered(q, i) && padding == Equals(q[..i])
      invariant forall k :: 0 <= k < i ==> q[k] == '=' || ValueOf(q[k]) < 64
    {
      SextetOf(q[i]);
      assert q[..i + 1][..i] == q[..i];
      if q[i] == '=' {
        x := x * 64;
        padding := padding + 1;
      } else {
        var v := Lookup(q[i]);
        if v < 64 {
          x := x * 64 + v;
        } else {
          return false, x, padding;
        }
      }
      i := i + 1;
    }
    assert q[..4] == q;
  }

  const SIZE_T := 0x1_0000_0000_0000_0000

  /** How many places one group fills: the first one even when all is padding. */
  function Filled(q: string): nat {
    if Equals(q) < 1 then 3 else if Equals(q) < 2 then 2 else 1
  }

  lemma FilledGroup(q: string)
    requires |q| == 4 && PaddedAtEnd(q)
    ensures Filled(q) == 3 - Padding(q) == (3 - Equals(q)) % SIZE_T
  {
    PaddedGroup(q);
    hide Equals, Padding;
  }

  /** Any four characters. With four equals signs the result wraps around. */
  method DecodeQuantum(dest: array<Byte>, pos: nat, q: string) returns (n: nat)
    requires |q| == 4 && pos + Filled(q) <= dest.Length
    modifies dest
    ensures n == if ValidGroup(q) then (3 - Equals(q)) % SIZE_T else 0
    ensures dest[..pos] == old(dest[..pos])
    ensures if ValidGroup(q) then dest[pos..pos + Filled(q)] == Group(q)[..Filled(q)] else dest[..] == old(dest[..])
    ensures dest[pos + Filled(q)..] == old(dest[pos + Filled(q)..])
  {
    var valid, x, padding := GatherSextets(q);
    GatheredGroup(q);
    assert valid ==> Filled(q) == if padding < 1 then 3 else if padding < 2 then 2 else 1;
    hide *;
    if !valid {
      return 0;
    }
    StoreGroup(dest, pos, x, padding);
    n := (3 - padding) % SIZE_T;
  }

  method StoreGroup(dest: array<Byte>, pos: nat, x0: nat, padding: nat)
    requires x0 / 256 / 256 < 256
    requires pos + (if padding < 1 then 3 else if padding < 2 then 2 else 1) <= dest.Length
    modifies dest
    ensures var k := if padding < 1 then 3 else if padding < 2 then 2 else 1;
      && dest[..pos] == old(dest[..pos]) && dest[pos + k..] == old(dest[pos + k..])
      && dest[pos..pos + k] == [x0 / 256 / 256, x0 / 256 % 256, x0 % 256][..k]
  {
    var x := x0;
    if padding < 1 {
      dest[pos + 2] := x % 256;
    }
    x := x / 256;
    if padding < 2 {
      dest[pos + 1] := x % 256;
    }
    x := x / 256;
    dest[pos] := x % 256;
  }

  lemma SextetOf(c: char)
    ensures Sextet(c) == if ValueOf(c) < 64 then ValueOf(c) else 0
    ensures c == '=' ==> ValueOf(c) == 64
  {
  }

  lemma DecodableIsPadded(s: string)
    requires Decodable(s)
    ensures PaddedAtEnd(s)
  {
    assert ValueOf('=') == 64;
  }

  /** The first equals sign, if any, and up to two of them. */
  method FindPadding(src: string) returns (length: nat, padding: nat)
    ensures length + padding == |src| <==> PaddedAtEnd(src)
    ensures length + padding == |src| ==> padding == Padding(src)
  {
    length, padding := 0, 0;
    while length < |src| && src[length] != '='
      invariant length <= |src| && forall i :: 0 <= i < length ==> src[i] != '='
    {
      length := length + 1;
    }
    if length < |src| {
      padding := 1;
      if length + 1 < |src| && src[length + 1] == '=' {
        padding := 2;
      }
    }
  }

  /** What is left after some groups: r is the rest of the text and done the bytes so far. */
  ghost predicate Decoding(src: string, r: string, done: seq<Byte>) {
    && |r| % 4 == 0 && PaddedAtEnd(r) && src != "" && |src| % 4 == 0
    && (r != "" ==> (Decodable(src) <==> Decodable(r)))
    && (r == "" ==> Decodable(src))
    && Decoded(src) == done + Decoded(r)
    && |done| == |src| / 4 * 3 - Padding(src) - (|r| / 4 * 3 - Padding(r))
  }

  lemma LastStep(src: string, r: string, done: seq<Byte>)
    requires Decoding(src, r, done) && |r| == 4
    ensures |done| + 3 - Padding(r) == |Decoded(src)|
    ensures if Decodable(r) then Decoding(src, "", done + Group(r)[..3 - Padding(r)]) else !Decodable(src)
  {
    assert Decoded(r) == Group(r)[..3 - Padding(r)];
    assert Decoded("") == [] && Padding("") == 0;
    hide Group, ValueOf, Decodable, Decoded, Padding;
  }

  lemma InnerStep(src: string, r: string, done: seq<Byte>)
    requires Decoding(src, r, done) && |r| > 4
    ensures PaddedAtEnd(r[..4]) && Padding(r[..4]) == 0 && |done| + 3 <= |Decoded(src)|
    ensures if Decodable(r[..4]) then Decoding(src, r[4..], done + Group(r[..4])) else !Decodable(src)
  {
    var q, rest := r[..4], r[4..];
    assert r == q + rest;
    hide ValueOf, Group, Decodable, Decoded;
    InnerPadding(r);
    GroupInFront(q, rest);
    assert Decodable(q) <==> forall i :: 0 <= i < 4 ==> ValueOf(q[i]) < 64 by {
      WholeDecodable(q);
    }
    hide Padding, PaddedAtEnd;
    assert done + (Group(q) + Decoded(rest)) == done + Group(q) + Decoded(rest);
  }

  lemma WholeDecodable(q: string)
    requires |q| == 4 && Padding(q) == 0
    ensures Decodable(q) <==> forall i :: 0 <= i < 4 ==> ValueOf(q[i]) < 64
  {
  }

  lemma InnerPadding(r: string)
    requires |r| > 4 && |r| % 4 == 0 && PaddedAtEnd(r)
    ensures PaddedAtEnd(r[..4]) && Padding(r[..4]) == 0
    ensures PaddedAtEnd(r[4..]) && Padding(r[4..]) == Padding(r)
  {
    var q, rest := r[..4], r[4..];
    assert forall i :: 0 <= i < 4 ==> r[i] != '=' && q[i] == r[i];
    assert forall i :: 0 <= i < |rest| ==> rest[i] == r[i + 4];
  }

  lemma DecodingStep(src: string, r: string, done: seq<Byte>)
    requires Decoding(src, r, done) && |r| >= 4
    ensures PaddedAtEnd(r[..4]) && |done| + 3 - Padding(r[..4]) <= |Decoded(src)|
    ensures if Decodable(r[..4]) then Decoding(src, r[4..], done + Group(r[..4])[..3 - Padding(r[..4])])
            else !Decodable(src)
  {
    hide Decodable, Decoded, Group, Padding, PaddedAtEnd, ValueOf;
    assert |r| % 4 == 0;
    hide *;
    if |r| == 4 {
      assert r[..4] == r && r[4..] == "";
      LastStep(src, r, done);
    } else {
      assert |r| >= 8;
      InnerStep(src, r, done);
      assert Group(r[..4])[..3] == Group(r[..4]);
    }
  }

  lemma DecodingStarts(src: string)
    requires src != "" && |src| % 4 == 0 && PaddedAtEnd(src)
    ensures Decoding(src, src, [])
  {
  }

  lemma DecodingEnds(src: string, done: seq<Byte>)
    requires Decoding(src, "", done)
    ensures Decodable(src) && done == Decoded(src)
  {
  }

  lemma Joined(a: seq<Byte>, pos: nat, n: nat)
    requires pos + n <= |a|
    ensures a[..pos + n] == a[..pos] + a[pos..pos + n]
  {
  }

  /** Decodes group after group, up to the first one that is not valid. */
  method DecodeQuantums(src: string, newstr: array<Byte>) returns (valid: bool, pos: nat)
    requires src != "" && |src| % 4 == 0 && PaddedAtEnd(src) && newstr.Length == |Decoded(src)| + 1
    modifies newstr
    ensures valid <==> Decodable(src)
    ensures valid ==> pos == |Decoded(src)| && newstr[..pos] == Decoded(src)
  {
    hide *;
    DecodingStarts(src);
    var i := 0;
    pos := 0;
    assert src[0..] == src && newstr[..0] == [];
    while i < |src| / 4
      invariant 0 <= i <= |src| / 4 && 0 <= pos < newstr.Length
      invariant Decoding(src, src[4 * i..], newstr[..pos])
    {
      ghost var r := src[4 * i..];
      assert src[4 * i..4 * i + 4] == r[..4] && src[4 * (i + 1)..] == r[4..];
      DecodingStep(src, r, newstr[..pos]);
      PaddedGroup(r[..4]);
      FilledGroup(r[..4]);
      var result := DecodeQuantum(newstr, pos, src[4 * i..4 * i + 4]);
      if result == 0 {
        return false, pos;
      }
      Joined(newstr[..], pos, result);
      pos := pos + result;
      i := i + 1;
    }
    assert src[4 * i..] == "";
    DecodingEnds(src, newstr[..pos]);
    valid := true;
  }

  /** Fails exactly on what is not decodable; otherwise gives the bytes, terminated, in a buffer of
      their length and one. */
  method Decode(src: string) returns (out: Option<array<Byte>>, outlen: nat)
    ensures out.Some? <==> Decodable(src)
    ensures out.Some? ==>
      && fresh(out.value) && out.value.Length == outlen + 1
      && out.value[..outlen] == Decoded(src) && out.value[outlen] == 0
  {
    out, outlen := None, 0;
    if src == "" || |src| % 4 != 0 {
      return;
    }
    hide Decoded, ValueOf, Padding, PaddedAtEnd;
    var length, padding := FindPadding(src);
    if length + padding != |src| {
      assert !Decodable(src) by {
        if Decodable(src) {
          DecodableIsPadded(src);
        }
      }
      return;
    }
    var rawlen := |src| / 4 * 3 - padding;
    var newstr := new Byte[rawlen + 1];
    var valid, pos := DecodeQuantums(src, newstr);
    if valid {
      newstr[pos] := 0;
      out, outlen := Some(newstr), rawlen;
    }
  }

  // ---------- The encoder ----------

  const NUL := '\0'

  /** The inner loop: up to three bytes, zero where the input has ended. */
  method Gather(data: seq<Byte>, at: nat, ibuf: array<Byte>) returns (inputparts: nat)
    requires at < |data| && ibuf.Length == 3
    modifies ibuf
    ensures inputparts == if |data| - at < 3 then |data| - at else 3
    ensures forall k :: 0 <= k < 3 ==> ibuf[k] == if k < inputparts then data[at + k] else 0
  {
    var i := 0;
    inputparts := 0;
    while i < 3
      invariant 0 <= i <= 3
      invariant inputparts == if |data| - at < i then |data| - at else i
      invariant forall k :: 0 <= k < i ==> ibuf[k] == if k < inputparts then data[at + k] else 0
    {
      if at + inputparts < |data| {
        ibuf[i] := data[at + inputparts];
        inputparts := inputparts + 1;
      } else {
        ibuf[i] := 0;
      }
      i := i + 1;
    }
  }

  /** snprintf with four characters: five places are written. */
  method Print(output: array<char>, at: nat, text: string)
    requires |text| == 4 && at + 5 <= output.Length
    modifies output
    ensures output[..at + 4] == old(output[..at]) + text && output[at + 4] == NUL
  {
    output[at], output[at + 1], output[at + 2], output[at + 3] := text[0], text[1], text[2], text[3];
    output[at + 4] := NUL;
  }

  /** The four characters for the bytes read. */
  method EncodeGroup(table: string, ibuf: array<Byte>, inputparts: nat) returns (text: string)
    requires |table| == 64 && ibuf.Length == 3 && 1 <= inputparts <= 3
    requires forall k :: inputparts <= k < 3 ==> ibuf[k] == 0
    ensures text == Encoded(table, ibuf[..inputparts]) && |text| == 4
  {
    var a, b, c := ibuf[0], ibuf[1], ibuf[2];
    MasksAreSextets(a, b, c);
    EncodedLast(table, ibuf[..inputparts], b, c);
    hide Encoded, Sextets;
    var obuf := [a / 4, a % 4 * 16 + b / 16, b % 16 * 4 + c / 64, c % 64];
    assert obuf == Sextets(a, b, c);
    match inputparts
    case 1 => text := [table[obuf[0]], table[obuf[1]], '=', '='];
    case 2 => text := [table[obuf[0]], table[obuf[1]], table[obuf[2]], '='];
    case _ => text := [table[obuf[0]], table[obuf[1]], table[obuf[2]], table[obuf[3]]];
  }

  lemma EncodedStep(table: string, rest: seq<Byte>)
    requires |table| == 64 && rest != []
    ensures var n := if |rest| < 3 then |rest| else 3;
      Encoded(table, rest) == Encoded(table, rest[..n]) + Encoded(table, rest[n..])
  {
    hide Sextets;
    if |rest| < 3 {
      assert rest[..|rest|] == rest && rest[|rest|..] == [];
      assert Encoded(table, []) == "";
    } else {
      assert rest == rest[..3] + rest[3..];
      EncodedSplit(table, rest[..3], rest[3..]);
    }
  }

  /** The buffer has room for one more group and its terminator while there is input left. */
  lemma Room(size: nat)
    ensures forall groups :: 3 * groups < size ==> 4 * groups + 5 <= size * 4 / 3 + 4
  {
  }

  /** A 64-bit size_t holds the allocation exactly for inputs of less than 2^62 bytes; beyond that the
      wrapped allocation is too small for the text and its terminator. */
  lemma AllocationFitsIff(size: nat)
    requires size < SIZE_T
    ensures size < SIZE_T / 4 ==> size * 4 % SIZE_T == size * 4
    ensures (size + 2) / 3 * 4 + 1 <= size * 4 % SIZE_T / 3 + 4 <==> size < SIZE_T / 4
  {
  }

  lemma Regroup(a: string, b: string, c: string)
    ensures a + (b + c) == a + b + c
  {
  }

  /** The loop over the groups. */
  method EncodeGroups(table: string, data: seq<Byte>, base64data: array<char>) returns (output: nat)
    requires |table| == 64 && base64data.Length > 0
    requires forall groups :: 3 * groups < |data| ==> 4 * groups + 5 <= base64data.Length
    modifies base64data
    ensures output < base64data.Length && base64data[..output] == Encoded(table, data)
  {
    hide *;
    var ibuf := new Byte[3];
    var indata: nat := 0;
    ghost var groups: nat := 0;
    output := 0;
    assert data[0..] == data && base64data[..0] == "";
    while indata < |data|
      invariant indata <= |data| && output == 4 * groups < base64data.Length
      invariant indata < |data| ==> indata == 3 * groups
      invariant base64data[..output] + Encoded(table, data[indata..]) == Encoded(table, data)
    {
      assert 3 * groups < |data|;
      var inputparts := Gather(data, indata, ibuf);
      ghost var rest := data[indata..];
      assert rest[..inputparts] == ibuf[..inputparts];
      assert rest[inputparts..] == data[indata + inputparts..];
      EncodedStep(table, rest);
      var text := EncodeGroup(table, ibuf, inputparts);
      Regroup(base64data[..output], text, Encoded(table, rest[inputparts..]));
      Print(base64data, output, text);
      output, groups := output + 4, groups + 1;
      indata := indata + inputparts;
    }
    assert data[indata..] == [];
    EncodedLength(table, []);
  }

  /** The text is written, terminated, into a buffer of four thirds of the input's length and four. */
  method Encode(table: string, buf: seq<Byte>, insize: nat) returns (base64data: array<char>, outlen: nat)
    requires |table| == 64 && insize <= |buf| && (insize == 0 ==> 0 in buf)
    ensures var data := Input(buf, insize);
      && fresh(base64data) && base64data.Length == |data| * 4 / 3 + 4
      && outlen == |Encoded(table, data)| < base64data.Length
      && base64data[..outlen] == Encoded(table, data) && base64data[outlen] == NUL
  {
    var size := insize;
    if size == 0 {
      size := Strlen(buf);
    }
    assert buf[..size] == Input(buf, insize);
    hide *;
    base64data := new char[size * 4 / 3 + 4];
    Room(size);
    outlen := EncodeGroups(table, buf[..size], base64data);
    base64data[outlen] := NUL;
  }

  // ---------- Texts that show the conditions ----------

  lemma OneByteText(s: string, v0: nat, v1: nat)
    requires |s| == 4 && s[2] == s[3] == '=' && ValueOf(s[0]) == v0 < 64 && ValueOf(s[1]) == v1 < 64
    ensures Decodable(s) && Padding(s) == 2 && Decoded(s) == [(v0 * 262144 + v1 * 4096) / 65536]
    ensures Canonical(s) <==> v1 % 16 == 0
  {
    SextetOf(s[0]);
    SextetOf(s[1]);
    SextetOf('=');
    assert s[1] != '=';
    hide Sextet, ValueOf;
    IsLastGroup(s);
  }

  /** Two texts for the same byte; only the first is its encoding. */
  lemma NonCanonicalExample()
    ensures Decodable("QQ==") && Decodable("QR==") && Decoded("QQ==") == Decoded("QR==") == [65]
    ensures Encoded(BASE64, [65]) == "QQ==" && !Canonical("QR==")
  {
    assert ValueOf('Q') == 16 && ValueOf('R') == 17;
    hide *;
    OneByteText("QQ==", 16, 16);
    OneByteText("QR==", 16, 17);
    ReencodeIff("QQ==");
  }

  /** What the URL encoder makes of this byte cannot be decoded. */
  lemma UrlExample()
    ensures Encoded(BASE64URL, [251]) == "-w==" && !Decodable("-w==")
  {
    MasksAreSextets(251, 0, 0);
    assert BASE64URL[62] == '-' && BASE64URL[48] == 'w';
    EncodedLast(BASE64URL, [251], 0, 0);
    assert Padding("-w==") == 2 && ValueOf("-w=="[0]) == 64;
  }
}
