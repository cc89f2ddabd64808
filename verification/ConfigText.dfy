/** Strings and input streams as the configuration reader uses them. */
module ConfigText {

  // ---------- find, substr, Trim ----------

  const NPOS := -1

  function Find(s: string, sub: string): (r: int)
    ensures r == NPOS || 0 <= r <= |s| - |sub|
    ensures r >= 0 ==> s[r..r + |sub|] == sub
  {
    if |sub| <= |s| && s[..|sub|] == sub then 0
    else if s == "" then NPOS
    else
      var r := Find(s[1..], sub);
      if r < 0 then NPOS else r + 1
  }

  predicate Has(s: string, sub: string) {
    Find(s, sub) != NPOS
  }

  /** substr(0, find(comm)) */
  function Strip(s: string, comm: string): string {
    var k := Find(s, comm);
    if k < 0 then s else s[..k]
  }

  predicate White(c: char) {
    c == ' ' || c == '\n' || c == '\t' || c == '\r' || c == '\U{000B}' || c == '\U{000C}'
  }

  predicate Blank(s: string) {
    forall i :: 0 <= i < |s| ==> White(s[i])
  }

  function TrimLeft(s: string): string {
    if s == "" || !White(s[0]) then s else TrimLeft(s[1..])
  }

  function TrimRight(s: string): string {
    if s == "" || !White(s[|s| - 1]) then s else TrimRight(s[..|s| - 1])
  }

  function Trimmed(s: string): string {
    TrimRight(TrimLeft(s))
  }

  method Trim(s: string) returns (r: string)
    ensures r == Trimmed(s)
  {
    var i := 0;
    while i < |s| && White(s[i])
      invariant i <= |s| && TrimLeft(s[i..]) == TrimLeft(s)
    {
      assert s[i..][1..] == s[i + 1..];
      i := i + 1;
    }
    r := s[i..];
    ghost var left := r;
    assert left == TrimLeft(s);
    var j := |r|;
    assert left[..j] == left;
    while 0 < j && White(r[j - 1])
      invariant j <= |r| && TrimRight(left[..j]) == TrimRight(left)
    {
      assert left[..j][..j - 1] == left[..j - 1];
      j := j - 1;
    }
    r := r[..j];
  }

  // ---------- Lines and getline ----------

  /** A stream: what is left, and the two state bits. */
  datatype In = In(rest: string, eof: bool, fail: bool) {
    predicate Good() {
      !eof && !fail
    }

    /** operator bool */
    predicate Ok() {
      !fail
    }
  }

  /** std::getline.  A stream that is not good only gets its fail bit set: the string argument
      keeps the value it had. */
  function GetLine(i: In, line: string): (r: (In, string))
  {
    if !i.Good() then (i.(fail := true), line)
    else
      var k := Find(i.rest, "\n");
      if k >= 0 then (In(i.rest[k + 1..], false, false), i.rest[..k])
      else (In("", true, i.rest == ""), i.rest)
  }

  lemma FindLeast(s: string, sub: string, j: nat)
    requires j + |sub| <= |s| && s[j..j + |sub|] == sub
    ensures 0 <= Find(s, sub) <= j
  {
    if j > 0 {
      assert s[1..][j - 1..j - 1 + |sub|] == s[j..j + |sub|];
      FindLeast(s[1..], sub, j - 1);
    } else {
      assert s[..|sub|] == s[0..0 + |sub|];
    }
  }

  lemma FindChar(s: string, c: char)
    ensures Find(s, [c]) == NPOS <==> c !in s
    ensures Find(s, [c]) >= 0 ==> s[Find(s, [c])] == c && c !in s[..Find(s, [c])]
  {
    if s != "" {
      FindChar(s[1..], c);
      assert s[..1] == [s[0]];
      var k := Find(s, [c]);
      assert k > 0 ==> s[..k] == [s[0]] + s[1..][..k - 1];
      assert s == [s[0]] + s[1..];
    }
  }

  /** Nothing before the first occurrence contains another. */
  lemma StripTwice(s: string, comm: string)
    ensures Strip(Strip(s, comm), comm) == Strip(s, comm)
  {
    if comm != "" {
      StripStrips(s, comm);
    }
  }

  lemma StripStrips(s: string, comm: string)
    requires comm != ""
    ensures !Has(Strip(s, comm), comm)
    ensures Strip(Strip(s, comm), comm) == Strip(s, comm)
  {
    var t := Strip(s, comm);
    var k := Find(t, comm);
    if k >= 0 {
      assert t[k..k + |comm|] == s[k..k + |comm|];
      FindLeast(s, comm, k);
    }
  }

  lemma TrimLeftSplit(s: string) returns (k: nat)
    ensures k <= |s| && TrimLeft(s) == s[k..] && Blank(s[..k])
    ensures k < |s| ==> !White(s[k])
  {
    if s == "" || !White(s[0]) {
      k := 0;
    } else {
      var j := TrimLeftSplit(s[1..]);
      k := j + 1;
      assert s[..k] == [s[0]] + s[1..][..j];
    }
  }

  lemma TrimRightSplit(s: string) returns (k: nat)
    ensures k <= |s| && TrimRight(s) == s[..k] && Blank(s[k..])
    ensures 0 < k ==> !White(s[k - 1])
  {
    if s == "" || !White(s[|s| - 1]) {
      k := |s|;
    } else {
      k := TrimRightSplit(s[..|s| - 1]);
      assert s[k..] == s[..|s| - 1][k..] + [s[|s| - 1]];
    }
  }

  lemma {:induction false} TrimRightAway(s: string, w: string)
    requires Blank(w) && (s == "" || !White(s[|s| - 1]))
    ensures TrimRight(s + w) == s
  {
    if w == "" {
      assert s + w == s;
    } else {
      assert (s + w)[..|s + w| - 1] == s + w[..|w| - 1];
      TrimRightAway(s, w[..|w| - 1]);
    }
  }

  lemma {:induction false} TrimLeftAway(w: string, s: string)
    requires Blank(w) && (s == "" || !White(s[0]))
    ensures TrimLeft(w + s) == s
  {
    if w == "" {
      assert w + s == s;
    } else {
      assert (w + s)[1..] == w[1..] + s;
      TrimLeftAway(w[1..], s);
    }
  }

  /** Trimming is exactly removing blank ends around a core without them. */
  lemma TrimmedAway(w: string, s: string, w': string)
    requires Blank(w) && Blank(w')
    requires s == "" || (!White(s[0]) && !White(s[|s| - 1]))
    ensures Trimmed(w + s + w') == s
  {
    if s == "" {
      assert Blank(w + s + w');
      TrimBlank(w + s + w');
    } else {
      assert w + s + w' == w + (s + w');
      TrimLeftAway(w, s + w');
      TrimRightAway(s, w');
    }
  }

  /** In terms of character codes: padding with any mix of tab, newline, vertical tab, form feed, carriage
      return (9 to 13) and space (32) is undone, and no other character is touched. */
  lemma TrimmedCodes(w: string, s: string, w': string)
    requires forall c :: c in w + w' ==> 9 <= c as int <= 13 || c == 32 as char
    requires s == "" || (!(9 <= s[0] as int <= 13) && s[0] != 32 as char)
    requires s == "" || (!(9 <= s[|s| - 1] as int <= 13) && s[|s| - 1] != 32 as char)
    ensures Trimmed(w + s + w') == s
  {
    forall i | 0 <= i < |w|
      ensures White(w[i])
    {
      assert w[i] in w + w';
    }
    forall i | 0 <= i < |w'|
      ensures White(w'[i])
    {
      assert w'[i] in w + w';
    }
    TrimmedAway(w, s, w');
  }

  lemma TrimBlank(s: string)
    ensures Trimmed(s) == "" <==> Blank(s)
  {
    var k := TrimLeftSplit(s);
    var j := TrimRightSplit(s[k..]);
    if Blank(s) {
      assert k == |s|;
    }
  }

  /** s splits into blank, trimmed core, blank. */
  lemma TrimSplit(s: string) returns (w: string, w': string)
    ensures s == w + Trimmed(s) + w' && Blank(w) && Blank(w')
    ensures Trimmed(s) == "" || (!White(Trimmed(s)[0]) && !White(Trimmed(s)[|Trimmed(s)| - 1]))
  {
    var k := TrimLeftSplit(s);
    var j := TrimRightSplit(s[k..]);
    w, w' := s[..k], s[k..][j..];
    assert s == s[..k] + (s[k..][..j] + s[k..][j..]);
    if j > 0 {
      assert s[k..][0] == s[k];
    }
  }
}
