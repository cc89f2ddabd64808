/** curl's percent-encoding: RFC 3986 sections 2.1 and 2.3. */
module Escape {
  import opened Buffers
  import opened Wrappers

  const PERCENT: Byte := '%' as int

  predicate IsUnreserved(b: Byte) {
    var c := b as char;
    'A' <= c <= 'Z' || 'a' <= c <= 'z' || '0' <= c <= '9' || c == '-' || c == '.' || c == '_' || c == '~'
  }

  predicate IsXDigit(b: Byte) {
    var c := b as char;
    '0' <= c <= '9' || 'A' <= c <= 'F' || 'a' <= c <= 'f'
  }

  function HexValue(b: Byte): (v: nat)
    ensures v < 16
  {
    var c := b as char;
    if '0' <= c <= '9' then b - '0' as int
    else if 'A' <= c <= 'F' then b - 'A' as int + 10
    else if 'a' <= c <= 'f' then b - 'a' as int + 10
    else 0
  }

  function HexDigit(v: nat): (b: Byte)
    requires v < 16
    ensures IsXDigit(b) && HexValue(b) == v
  {
    if v < 10 then '0' as int + v else 'A' as int + v - 10
  }

  /** A percent sign and the two upper-case digits of a byte. */
  function Triplet(b: Byte): (s: seq<Byte>)
    ensures |s| == 3 && IsTriplet(s) && TripletValue(s) == b
  {
    [PERCENT, HexDigit(b / 16), HexDigit(b % 16)]
  }

  predicate IsTriplet(s: seq<Byte>) {
    |s| >= 3 && s[0] == PERCENT && IsXDigit(s[1]) && IsXDigit(s[2])
  }

  function TripletValue(s: seq<Byte>): (b: Byte)
    requires IsTriplet(s)
  {
    HexValue(s[1]) * 16 + HexValue(s[2])
  }

  // ---------- What the two functions mean ----------

  function EscapedByte(b: Byte): seq<Byte> {
    if IsUnreserved(b) then [b] else Triplet(b)
  }

  function Escaped(data: seq<Byte>): seq<Byte> {
    if data == [] then [] else EscapedByte(data[0]) + Escaped(data[1..])
  }

  function Unescaped(s: seq<Byte>): (r: seq<Byte>)
    ensures |r| <= |s|
  {
    if s == [] then []
    else if IsTriplet(s) then [TripletValue(s)] + Unescaped(s[3..])
    else [s[0]] + Unescaped(s[1..])
  }

  /** Text in the encoder's form: unreserved characters, and triplets of what is not unreserved. */
  predicate Normal(s: seq<Byte>) {
    if s == [] then true
    else if IsTriplet(s) then
      !IsUnreserved(TripletValue(s)) && s[..3] == Triplet(TripletValue(s)) && Normal(s[3..])
    else IsUnreserved(s[0]) && Normal(s[1..])
  }

  lemma {:induction false} RoundTrip(data: seq<Byte>)
    ensures Unescaped(Escaped(data)) == data && Normal(Escaped(data))
  {
    if data != [] {
      RoundTrip(data[1..]);
      var e, rest := EscapedByte(data[0]), Escaped(data[1..]);
      if IsUnreserved(data[0]) {
        assert (e + rest)[1..] == rest;
      } else {
        assert (e + rest)[..3] == e && (e + rest)[3..] == rest;
      }
    }
  }

  /** Escaping what was unescaped gives the text back exactly when it is in the encoder's form. */
  lemma {:induction false} ReescapeIff(s: seq<Byte>)
    ensures Escaped(Unescaped(s)) == s <==> Normal(s)
  {
    if Escaped(Unescaped(s)) == s {
      RoundTrip(Unescaped(s));
    }
    if Normal(s) {
      NormalReescapes(s);
    }
  }

  lemma {:induction false} NormalReescapes(s: seq<Byte>)
    requires Normal(s)
    ensures Escaped(Unescaped(s)) == s
  {
    if s != [] {
      if IsTriplet(s) {
        NormalReescapes(s[3..]);
        var b, rest := TripletValue(s), Unescaped(s[3..]);
        assert ([b] + rest)[1..] == rest;
        assert s == s[..3] + s[3..];
      } else {
        NormalReescapes(s[1..]);
        assert ([s[0]] + Unescaped(s[1..]))[1..] == Unescaped(s[1..]);
      }
    }
  }

  /** What the output consists of. */
  lemma {:induction false} OnlySafeBytes(data: seq<Byte>)
    ensures forall b :: b in Escaped(data) ==> IsUnreserved(b) || b == PERCENT
    ensures |data| <= |Escaped(data)| <= 3 * |data|
  {
    if data != [] {
      OnlySafeBytes(data[1..]);
    }
  }

  /** RFC 3986, section 2.3, by character code: exactly the letters, the digits and "-", ".", "_", "~" stand
      for themselves. */
  lemma UnreservedCodes(b: Byte)
    ensures Escaped([b]) == [b] <==>
      || 0x41 <= b <= 0x5A || 0x61 <= b <= 0x7A || 0x30 <= b <= 0x39
      || b == 0x2D || b == 0x2E || b == 0x5F || b == 0x7E
    ensures Escaped([b]) != [b] ==> |Escaped([b])| == 3
  {
    assert [b][1..] == [];
    assert EscapedByte(b) + [] == EscapedByte(b);
  }

  /** The code of a digit or of one of the letters A to F. */
  predicate UpperHex(b: Byte) {
    0x30 <= b <= 0x39 || 0x41 <= b <= 0x46
  }

  /** Every percent sign of the output stands before two digits in upper case. */
  lemma {:induction false} UpperCaseTriplets(data: seq<Byte>, i: nat)
    requires i < |Escaped(data)| && Escaped(data)[i] == 0x25
    ensures i + 2 < |Escaped(data)| && UpperHex(Escaped(data)[i + 1]) && UpperHex(Escaped(data)[i + 2])
  {
    var first := EscapedByte(data[0]);
    if i >= |first| {
      UpperCaseTriplets(data[1..], i - |first|);
    }
  }

  /** The digits by value, in both cases. */
  lemma DigitValues(v: nat)
    requires v < 16
    ensures HexDigit(v) == "0123456789ABCDEF"[v] as int
    ensures HexValue("0123456789ABCDEF"[v] as int) == HexValue("0123456789abcdef"[v] as int) == v
    ensures IsXDigit("0123456789ABCDEF"[v] as int) && IsXDigit("0123456789abcdef"[v] as int)
  {
  }

  /** "/" and "%2F", "%ab", a percent sign too near the end, and the first byte that is no control byte. */
  lemma EscapeExamples()
    ensures Escaped([0x2F]) == [0x25, 0x32, 0x46] && Unescaped([0x25, 0x32, 0x46]) == [0x2F]
    ensures Unescaped([0x25, 0x61, 0x62]) == [0xAB] && Unescaped([0x25, 0x61]) == [0x25, 0x61]
    ensures Unescaped([0x25, 0x67, 0x30]) == [0x25, 0x67, 0x30]
    ensures ControlFree([0x20, 0xFF]) && !ControlFree([0x41, 0x1F])
  {
    assert [0x2F][1..] == [];
    assert [0x25, 0x32, 0x46][3..] == [] && [0x25, 0x61, 0x62][3..] == [];
    assert [0x25, 0x61][1..] == [0x61] && [0x61][1..] == [];
    assert [0x25, 0x67, 0x30][1..] == [0x67, 0x30] && [0x67, 0x30][1..] == [0x30] && [0x30][1..] == [];
    assert Unescaped([0x67, 0x30]) == [0x67] + Unescaped([0x30]);
    assert 0x1F in [0x41, 0x1F];
  }

  lemma {:induction false} EscapedAppend(data: seq<Byte>, b: Byte)
    ensures Escaped(data + [b]) == Escaped(data) + EscapedByte(b)
  {
    if data == [] {
      assert data + [b] == [b] && Escaped([b][1..]) == [];
    } else {
      assert (data + [b])[1..] == data[1..] + [b];
      EscapedAppend(data[1..], b);
    }
  }

  predicate ControlFree(s: seq<Byte>) {
    forall b :: b in s ==> b >= 0x20
  }

  // ---------- The encoder ----------

  method Realloc(ns: array<Byte>, alloc: nat) returns (r: array<Byte>)
    requires ns.Length <= alloc
    ensures fresh(r) && r.Length == alloc && r[..ns.Length] == ns[..]
  {
    r := new Byte[alloc];
    forall i | 0 <= i < ns.Length {
      r[i] := ns[i];
    }
  }

  /** snprintf of a percent sign and two digits: four places are written. */
  method PrintTriplet(ns: array<Byte>, at: nat, b: Byte)
    requires at + 4 <= ns.Length
    modifies ns
    ensures ns[..at + 3] == old(ns[..at]) + Triplet(b) && ns[at + 3] == 0
  {
    ns[at], ns[at + 1], ns[at + 2] := PERCENT, HexDigit(b / 16), HexDigit(b % 16);
    ns[at + 3] := 0;
  }

  lemma EscapeStep(data: seq<Byte>, i: nat)
    requires i < |data|
    ensures Escaped(data[..i + 1]) == Escaped(data[..i]) + if IsUnreserved(data[i]) then [data[i]] else Triplet(data[i])
  {
    hide Escaped, IsUnreserved, Triplet;
    assert data[..i + 1] == data[..i] + [data[i]];
    EscapedAppend(data[..i], data[i]);
  }

  /** The loop: there is always room for what is written next. */
  method EscapeAll(data: seq<Byte>) returns (ns: array<Byte>, strindex: nat)
    ensures fresh(ns) && strindex < ns.Length && ns[..strindex] == Escaped(data)
  {
    hide *;
    var alloc := |data| + 1;
    var newlen := alloc;
    ns := new Byte[alloc];
    strindex := 0;
    EscapedNothing();
    assert data[..0] == [];
    for i := 0 to |data|
      invariant fresh(ns) && ns.Length == alloc > |data|
      invariant strindex + (|data| - i) + 1 == newlen <= alloc
      invariant ns[..strindex] == Escaped(data[..i])
    {
      EscapeStep(data, i);
      if IsUnreserved(data[i]) {
        ns[strindex] := data[i];
        strindex := strindex + 1;
      } else {
        newlen := newlen + 2;
        if newlen > alloc {
          alloc := alloc * 2;
          ghost var before := ns[..];
          ns := Realloc(ns, alloc);
          assert ns[..strindex] == before[..strindex];
        }
        PrintTriplet(ns, strindex, data[i]);
        strindex := strindex + 3;
      }
    }
    assert data[..|data|] == data;
  }

  lemma EscapedNothing()
    ensures Escaped([]) == [] && Unescaped([]) == [] && ControlFree([])
  {
  }

  /** No result for a negative length; otherwise the escaped text, terminated. The buffer doubles when it
      would become too small and there is always room for what is written next. */
  method EasyEscape(buf: seq<Byte>, inlength: int) returns (out: Option<array<Byte>>, ghost written: nat)
    requires inlength <= |buf| && (inlength == 0 ==> 0 in buf)
    ensures out.Some? <==> inlength >= 0
    ensures out.Some? ==>
      && fresh(out.value) && written == |Escaped(Input(buf, inlength))| < out.value.Length
      && out.value[..written] == Escaped(Input(buf, inlength)) && out.value[written] == 0
  {
    written := 0;
    if inlength < 0 {
      return None, 0;
    }
    var length := inlength;
    if length == 0 {
      length := Strlen(buf);
    }
    assert buf[..length] == Input(buf, inlength);
    hide *;
    var ns, strindex := EscapeAll(buf[..length]);
    ns[strindex] := 0;
    out, written := Some(ns), strindex;
  }

  // ---------- The decoder ----------

  /** The next decoded byte and how much text it took. */
  method NextByte(data: seq<Byte>, i: nat) returns (b: Byte, step: nat)
    requires i < |data|
    ensures 1 <= step <= |data| - i && Unescaped(data[i..]) == [b] + Unescaped(data[i + step..])
  {
    b, step := data[i], 1;
    if b == PERCENT && |data| - i > 2 && IsXDigit(data[i + 1]) && IsXDigit(data[i + 2]) {
      b := HexValue(data[i + 1]) * 16 + HexValue(data[i + 2]);
      step := 3;
    }
    ghost var rest := data[i..];
    assert rest[step..] == data[i + step..];
    hide IsXDigit, HexValue;
  }

  lemma DecodeStep(done: seq<Byte>, b: Byte, left: seq<Byte>, decoded: seq<Byte>)
    requires done + ([b] + left) == decoded
    ensures done + [b] + left == decoded && b in decoded
    ensures ControlFree(done) && b >= 0x20 ==> ControlFree(done + [b])
  {
    assert decoded[|done|] == b;
  }

  /** The loop: stops at the first control byte that is to be rejected. */
  method DecodeAll(data: seq<Byte>, ns: array<Byte>, rejectCtrl: bool) returns (ok: bool, strindex: nat)
    requires ns.Length == |data| + 1
    modifies ns
    ensures ok <==> !rejectCtrl || ControlFree(Unescaped(data))
    ensures ok ==> strindex < ns.Length && ns[..strindex] == Unescaped(data)
  {
    hide Unescaped;
    EscapedNothing();
    var i := 0;
    strindex := 0;
    assert data[0..] == data && ns[..0] == [];
    while i < |data|
      invariant 0 <= strindex <= i <= |data|
      invariant ns[..strindex] + Unescaped(data[i..]) == Unescaped(data)
      invariant rejectCtrl ==> ControlFree(ns[..strindex])
    {
      var b, step := NextByte(data, i);
      ghost var done := ns[..strindex];
      DecodeStep(done, b, Unescaped(data[i + step..]), Unescaped(data));
      if rejectCtrl && b < 0x20 {
        return false, strindex;
      }
      ns[strindex] := b;
      assert ns[..strindex + 1] == done + [b];
      strindex := strindex + 1;
      i := i + step;
    }
    assert data[i..] == [];
    ok := true;
  }

  /** Fails exactly when control bytes are to be rejected and the decoded bytes contain one; otherwise
      gives the decoded bytes, terminated, and their number. */
  method UrlDecode(buf: seq<Byte>, inlength: nat, rejectCtrl: bool) returns (out: Option<array<Byte>>, olen: nat)
    requires inlength <= |buf| && (inlength == 0 ==> 0 in buf)
    ensures out.Some? <==> !rejectCtrl || ControlFree(Unescaped(Input(buf, inlength)))
    ensures out.Some? ==>
      && fresh(out.value) && olen == |Unescaped(Input(buf, inlength))| < out.value.Length
      && out.value[..olen] == Unescaped(Input(buf, inlength)) && out.value[olen] == 0
  {
    var length := inlength;
    if length == 0 {
      length := Strlen(buf);
    }
    assert buf[..length] == Input(buf, inlength);
    hide *;
    var ns := new Byte[length + 1];
    var ok;
    ok, olen := DecodeAll(buf[..length], ns, rejectCtrl);
    out := None;
    if ok {
      ns[olen] := 0;
      out := Some(ns);
    }
  }

  /** What was escaped can be handed on as a C string and decodes again to the same bytes. */
  lemma EscapedComesBack(data: seq<Byte>, text: seq<Byte>)
    requires |Escaped(data)| < |text| && text[..|Escaped(data)|] == Escaped(data) && text[|Escaped(data)|] == 0
    ensures 0 in text && Unescaped(Input(text, 0)) == data
  {
    RoundTrip(data);
    OnlySafeBytes(data);
    assert !IsUnreserved(0) && PERCENT != 0;
    hide *;
    CString(text, Escaped(data));
  }

  lemma CString(text: seq<Byte>, s: seq<Byte>)
    requires |s| < |text| && text[..|s|] == s && text[|s|] == 0 && 0 !in s
    ensures 0 in text && Input(text, 0) == s
  {
    var d := Input(text, 0);
    assert forall i :: 0 <= i < |s| ==> text[i] == s[i] && s[i] in s;
    assert forall i :: 0 <= i < |d| ==> text[i] == d[i] && d[i] in d;
    assert |d| == |s|;
  }
}
