/** Removing dot segments: the algorithm of RFC 3986 section 5.2.4, what it means for the segments
    of an absolute path, and curl's in-place version over NUL-terminated buffers. */
module DotSegments {

  // ---------- RFC 3986, section 5.2.4 ----------

  /** The length of the first path segment with its initial "/", if any. */
  function SegmentLength(s: string): (k: nat)
    requires s != ""
    ensures 1 <= k <= |s|
    ensures forall j :: 1 <= j < k ==> s[j] != '/'
    ensures k < |s| ==> s[k] == '/'
    decreases |s|
  {
    if |s| == 1 || s[1] == '/' then 1 else SegmentLength(s[1..]) + 1
  }

  /** Without the last segment and its preceding "/", if any. */
  function RemoveLast(o: string): (r: string)
    ensures r <= o
  {
    if o == "" then "" else if o[|o| - 1] == '/' then o[..|o| - 1] else RemoveLast(o[..|o| - 1])
  }

  /** One of the steps 2A to 2E with input buffer s and output buffer o. */
  function Step(s: string, o: string): (r: (string, string))
    requires s != ""
    ensures |r.0| < |s| && |r.0| + |r.1| <= |s| + |o|
  {
    if "../" <= s then (s[3..], o)
    else if "./" <= s then (s[2..], o)
    else if "/./" <= s then (s[2..], o)
    else if s == "/." then ("/", o)
    else if "/../" <= s then (s[3..], RemoveLast(o))
    else if s == "/.." then ("/", RemoveLast(o))
    else if s == "." || s == ".." then ("", o)
    else (s[SegmentLength(s)..], o + s[..SegmentLength(s)])
  }

  function RemoveDots(s: string, o: string): string
    decreases |s|
  {
    if s == "" then o else RemoveDots(Step(s, o).0, Step(s, o).1)
  }

  // ---------- Absolute paths as stacks of segments ----------

  /** The segments of "/a/b/c": what follows each slash. */
  function Segments(s: string): (segs: seq<string>)
    requires s != "" ==> s[0] == '/'
    ensures s != "" <==> segs != []
    ensures forall g :: g in segs ==> '/' !in g
    decreases |s|
  {
    if s == "" then []
    else
      var k := SegmentLength(s);
      [s[1..k]] + Segments(s[k..])
  }

  function Render(segs: seq<string>): (s: string)
    ensures s != "" ==> s[0] == '/'
  {
    if segs == [] then "" else "/" + segs[0] + Render(segs[1..])
  }

  function PopLast(st: seq<string>): seq<string> {
    if st == [] then [] else st[..|st| - 1]
  }

  /** The meaning: "." stays, ".." goes up, and a final dot segment leaves a trailing slash. */
  function Resolve(segs: seq<string>, st: seq<string>): seq<string>
    decreases |segs|
  {
    if segs == [] then st
    else if segs[0] == "." then Resolve(segs[1..], if |segs| == 1 then st + [""] else st)
    else if segs[0] == ".." then Resolve(segs[1..], if |segs| == 1 then PopLast(st) + [""] else PopLast(st))
    else Resolve(segs[1..], st + [segs[0]])
  }

  predicate Dotless(segs: seq<string>) {
    forall g :: g in segs ==> g != "." && g != ".."
  }

  predicate Slashless(segs: seq<string>) {
    forall g :: g in segs ==> '/' !in g
  }

  lemma {:induction false} RenderConcat(a: seq<string>, b: seq<string>)
    ensures Render(a + b) == Render(a) + Render(b)
  {
    if a == [] {
      assert a + b == b;
    } else {
      assert (a + b)[1..] == a[1..] + b;
      RenderConcat(a[1..], b);
    }
  }

  lemma {:induction false} RemoveLastSegment(o: string, g: string)
    requires '/' !in g
    ensures RemoveLast(o + "/" + g) == o
  {
    var s := o + "/" + g;
    if g == "" {
      assert s[..|s| - 1] == o;
    } else {
      assert s[..|s| - 1] == o + "/" + g[..|g| - 1];
      assert s[|s| - 1] == g[|g| - 1];
      RemoveLastSegment(o, g[..|g| - 1]);
    }
  }

  lemma RemoveLastIsPop(st: seq<string>)
    requires Slashless(st)
    ensures RemoveLast(Render(st)) == Render(PopLast(st))
  {
    if st != [] {
      var last := |st| - 1;
      assert st == st[..last] + [st[last]];
      RenderConcat(st[..last], [st[last]]);
      assert Render([st[last]]) == "/" + st[last] + Render([]);
      assert Render(st) == Render(st[..last]) + "/" + st[last];
      RemoveLastSegment(Render(st[..last]), st[last]);
    }
  }

  lemma FirstSegment(s: string, g: string, rest: string)
    requires s == "/" + g + rest && '/' !in g && (rest != "" ==> rest[0] == '/')
    ensures SegmentLength(s) == |g| + 1 && Segments(s) == [g] + Segments(rest)
  {
    assert forall i :: 1 <= i <= |g| ==> s[i] == g[i - 1];
    assert rest != "" ==> s[|g| + 1] == rest[0];
    assert s[1..|g| + 1] == g && s[|g| + 1..] == rest;
  }

  lemma DotStep(s: string, rest: string, o: string)
    requires s == "/." + rest && (rest != "" ==> rest[0] == '/')
    ensures Step(s, o) == (if rest == "" then "/" else rest, o)
  {
    assert s[0] == '/';
    if rest == "" {
      assert s == "/.";
    } else {
      assert s[..3] == "/./" && s[2..] == rest;
    }
  }

  lemma UpStep(s: string, rest: string, o: string)
    requires s == "/.." + rest && (rest != "" ==> rest[0] == '/')
    ensures Step(s, o) == (if rest == "" then "/" else rest, RemoveLast(o))
  {
    assert s[0] == '/' && s[2] == '.';
    if rest == "" {
      assert s == "/..";
    } else {
      assert s[..4] == "/../" && s[3..] == rest;
    }
  }

  lemma NameStep(s: string, g: string, rest: string, o: string)
    requires s == "/" + g + rest && '/' !in g && (rest != "" ==> rest[0] == '/')
    requires g != "." && g != ".."
    ensures Step(s, o) == (rest, o + ("/" + g))
  {
    assert s[0] == '/';
    FirstSegment(s, g, rest);
    NotDot(s, g, rest);
    assert s[..|g| + 1] == "/" + g;
    assert s[|g| + 1..] == rest;
  }

  /** What the RFC's algorithm does with the first segment of an absolute path. */
  lemma FirstStep(s: string, g: string, rest: string, o: string)
    requires s == "/" + g + rest && '/' !in g && (rest != "" ==> rest[0] == '/')
    ensures g == "." ==> RemoveDots(s, o) == RemoveDots(if rest == "" then "/" else rest, o)
    ensures g == ".." ==> RemoveDots(s, o) == RemoveDots(if rest == "" then "/" else rest, RemoveLast(o))
    ensures g != "." && g != ".." ==> RemoveDots(s, o) == RemoveDots(rest, o + ("/" + g))
  {
    hide Step, RemoveLast;
    if g == "." {
      assert s == "/." + rest;
      DotStep(s, rest, o);
    } else if g == ".." {
      assert s == "/.." + rest;
      UpStep(s, rest, o);
    } else {
      NameStep(s, g, rest, o);
    }
  }

  lemma NotDot(s: string, g: string, rest: string)
    requires s == "/" + g + rest && '/' !in g && (rest != "" ==> rest[0] == '/')
    requires g != "." && g != ".."
    ensures !("/./" <= s) && s != "/." && !("/../" <= s) && s != "/.."
  {
    assert forall i :: 1 <= i <= |g| ==> s[i] == g[i - 1];
    assert rest != "" ==> s[|g| + 1] == rest[0];
    assert forall t: string, i :: t <= s && 0 <= i < |t| ==> t[i] == s[i];
    if |g| == 0 {
      assert rest == "" ==> |s| == 1;
    } else if |g| == 1 {
      assert g == [g[0]] && g[0] != '.';
      assert s[1] != '.';
      assert "/./"[1] == '.' && "/."[1] == '.' && "/../"[1] == '.' && "/.."[1] == '.';
    } else if |g| == 2 {
      assert g == [g[0], g[1]] && s[1] == g[0] && s[2] == g[1];
      assert "/./"[2] == '/' && "/../"[1] == '.' && "/../"[2] == '.' && "/.."[1] == '.' && "/.."[2] == '.';
      assert |s| >= 3;
    } else {
      assert s[3] == g[2] && s[2] == g[1] && s[1] == g[0] && |s| >= 4;
      assert "/./"[2] == '/' && "/../"[3] == '/';
    }
  }

  lemma OneMore(st: seq<string>, g: string)
    ensures Render(st + [g]) == Render(st) + ("/" + g)
  {
    RenderConcat(st, [g]);
    assert Render([g]) == "/" + g + Render([]);
  }

  lemma JustSlash(o: string)
    ensures RemoveDots("/", o) == o + "/"
  {
    FirstStep("/", "", "", o);
  }

  /** On every absolute path the RFC's algorithm resolves the segments. */
  lemma {:induction false} RemoveDotsResolves(s: string, st: seq<string>)
    requires (s != "" ==> s[0] == '/') && Slashless(st)
    ensures RemoveDots(s, Render(st)) == Render(Resolve(Segments(s), st))
    decreases |s|
  {
    if s != "" {
      var k := SegmentLength(s);
      var g, rest := s[1..k], s[k..];
      assert s == "/" + g + rest;
      hide RemoveDots, Render, SegmentLength;
      FirstSegment(s, g, rest);
      FirstStep(s, g, rest, Render(st));
      if g == "." {
        if rest == "" {
          JustSlash(Render(st));
          OneMore(st, "");
        } else {
          RemoveDotsResolves(rest, st);
        }
      } else if g == ".." {
        RemoveLastIsPop(st);
        if rest == "" {
          JustSlash(Render(PopLast(st)));
          OneMore(PopLast(st), "");
        } else {
          RemoveDotsResolves(rest, PopLast(st));
        }
      } else {
        OneMore(st, g);
        RemoveDotsResolves(rest, st + [g]);
      }
    }
  }

  lemma {:induction false} ResolveIsDotless(segs: seq<string>, st: seq<string>)
    requires Dotless(st) && Slashless(st) && Slashless(segs)
    ensures Dotless(Resolve(segs, st)) && Slashless(Resolve(segs, st))
    decreases |segs|
  {
    if segs != [] {
      var st' := if segs[0] == "." then (if |segs| == 1 then st + [""] else st)
                 else if segs[0] == ".." then (if |segs| == 1 then PopLast(st) + [""] else PopLast(st))
                 else st + [segs[0]];
      assert segs[0] in segs && forall g :: g in segs[1..] ==> g in segs;
      assert forall g :: g in PopLast(st) ==> g in st;
      assert forall g :: g in st' ==> g in st || g == "" || g == segs[0];
      ResolveIsDotless(segs[1..], st');
    }
  }

  lemma {:induction false} SegmentsOfRender(segs: seq<string>)
    requires Slashless(segs)
    ensures Segments(Render(segs)) == segs
  {
    if segs != [] {
      FirstSegment(Render(segs), segs[0], Render(segs[1..]));
      SegmentsOfRender(segs[1..]);
    }
  }

  lemma {:induction false} ResolveDotless(segs: seq<string>, st: seq<string>)
    requires Dotless(segs)
    ensures Resolve(segs, st) == st + segs
    decreases |segs|
  {
    if segs == [] {
      assert st + segs == st;
    } else {
      assert segs[0] in segs && forall g :: g in segs[1..] ==> g in segs;
      ResolveDotless(segs[1..], st + [segs[0]]);
      assert st + [segs[0]] + segs[1..] == st + segs;
    }
  }

  /** For every absolute path: the result is an absolute path without dot segments that is left
      alone when the dots are removed again. */
  lemma AbsolutePathLaws(s: string)
    requires s != "" && s[0] == '/'
    ensures !OnlyDots(s)
    ensures var r := RemoveDots(s, "");
            && r != "" && r[0] == '/'
            && r == Render(Resolve(Segments(s), []))
            && Dotless(Segments(r))
            && RemoveDots(r, "") == r
  {
    var st := Resolve(Segments(s), []);
    assert Render([]) == "";
    RemoveDotsResolves(s, []);
    ResolveIsDotless(Segments(s), []);
    ResolveNotEmpty(Segments(s), []);
    SegmentsOfRender(st);
    RemoveDotsResolves(Render(st), []);
    ResolveDotless(st, []);
    assert [] + st == st;
  }

  lemma {:induction false} ResolveNotEmpty(segs: seq<string>, st: seq<string>)
    requires segs != []
    ensures Resolve(segs, st) != []
    decreases |segs|
  {
    if |segs| > 1 {
      var st' := if segs[0] == "." then st else if segs[0] == ".." then PopLast(st) else st + [segs[0]];
      ResolveNotEmpty(segs[1..], st');
    } else {
      assert segs[1..] == [];
    }
  }

  // ---------- What the algorithm does to a path ----------

  /** What is left of a path when its first segment goes away. */
  function Tail(rest: string): string {
    if rest == "" then "/" else rest
  }

  predicate Name(g: string) {
    '/' !in g && g != "." && g != ".."
  }

  /** Whatever was put out before: a name moves on, "." leaves nothing but a final slash, ".." takes the name
      before it along, and above the root there is nothing. */
  lemma SegmentLaws(o: string, g: string, rest: string)
    requires Name(g) && (rest != "" ==> rest[0] == '/')
    ensures RemoveDots("/" + g + rest, o) == RemoveDots(rest, o + "/" + g)
    ensures RemoveDots("/." + rest, o) == RemoveDots(Tail(rest), o)
    ensures RemoveDots("/.." + rest, o + "/" + g) == RemoveDots(Tail(rest), o)
    ensures RemoveDots("/.." + rest, "") == RemoveDots(Tail(rest), "")
  {
    hide RemoveDots;
    FirstStep("/" + g + rest, g, rest, o);
    assert o + ("/" + g) == o + "/" + g;
    assert "/" + "." + rest == "/." + rest && "/" + ".." + rest == "/.." + rest;
    FirstStep("/." + rest, ".", rest, o);
    FirstStep("/.." + rest, "..", rest, o + "/" + g);
    RemoveLastSegment(o, g);
    FirstStep("/.." + rest, "..", rest, "");
  }

  /** Dot segments in front of a relative path are dropped. */
  lemma PrefixLaws(s: string, o: string)
    ensures RemoveDots("../" + s, o) == RemoveDots("./" + s, o) == RemoveDots(s, o)
    ensures RemoveDots(".", o) == RemoveDots("..", o) == o
  {
    assert ("../" + s)[..3] == "../" && ("../" + s)[3..] == s;
    assert ("./" + s)[..2] == "./" && ("./" + s)[2..] == s && ("./" + s)[1] == '/';
    assert Step(".", o) == ("", o) && Step("..", o) == ("", o);
    hide Step;
  }

  lemma RelativeSegment(g: string, rest: string)
    requires '/' !in g && g != "" && g[0] != '.' && (rest != "" ==> rest[0] == '/')
    ensures RemoveDots(g + rest, "") == RemoveDots(rest, g)
  {
    var s := g + rest;
    assert forall j :: 0 <= j < |g| ==> s[j] == g[j];
    assert rest != "" ==> s[|g|] == rest[0];
    SegmentEnds(s, |g|);
    StepOfOther(s, "");
    assert s[..|g|] == g && s[|g|..] == rest && "" + g == g;
    hide Step;
  }

  lemma LastName(o: string, g: string)
    requires Name(g)
    ensures RemoveDots("/" + g, o) == o + "/" + g
  {
    SegmentLaws(o, g, "");
    assert "/" + g + "" == "/" + g && RemoveDots("", o + "/" + g) == o + "/" + g;
    hide RemoveDots;
  }

  lemma ThreeNames(a: string, b: string, c: string, rest: string)
    requires Name(a) && Name(b) && Name(c) && (rest != "" ==> rest[0] == '/')
    ensures RemoveDots("/" + a + ("/" + b + ("/" + c + rest)), "") == RemoveDots(rest, "/" + a + "/" + b + "/" + c)
  {
    hide RemoveDots, Name;
    SegmentLaws("", a, "/" + b + ("/" + c + rest));
    assert "" + "/" + a == "/" + a;
    SegmentLaws("/" + a, b, "/" + c + rest);
    SegmentLaws("/" + a + "/" + b, c, rest);
  }

  lemma DotAndTwoUps(o: string, b: string, c: string, rest: string)
    requires Name(b) && Name(c) && rest != "" && rest[0] == '/'
    ensures RemoveDots("/." + ("/.." + ("/.." + rest)), o + "/" + b + "/" + c) == RemoveDots(rest, o)
  {
    hide RemoveDots, Name;
    var up := "/.." + rest;
    var ups := "/.." + up;
    var o' := o + "/" + b;
    assert Tail(ups) == ups && Tail(up) == up && Tail(rest) == rest;
    hide Tail;
    SegmentLaws(o' + "/" + c, c, ups);
    SegmentLaws(o', c, up);
    SegmentLaws(o, b, rest);
    assert RemoveDots("/." + ups, o' + "/" + c) == RemoveDots(ups, o' + "/" + c);
  }

  lemma RfcSpelling()
    ensures "/" + "a" + ("/" + "b" + ("/" + "c" + ("/." + ("/.." + ("/.." + "/g"))))) == "/a/b/c/./../../g"
    ensures "mid" + ("/" + "content=5" + ("/.." + "/6")) == "mid/content=5/../6"
    ensures "/" + "a" + "/" + "g" == "/a/g" && "mid" + "/" + "6" == "mid/6" && "/" + "g" == "/g" && "/" + "6" == "/6"
  {
  }

  /** The two examples of RFC 3986, section 5.2.4. */
  lemma RfcExamples()
    ensures RemoveDots("/a/b/c/./../../g", "") == "/a/g"
    ensures RemoveDots("mid/content=5/../6", "") == "mid/6"
  {
    hide RemoveDots;
    RfcSpelling();
    ThreeNames("a", "b", "c", "/." + ("/.." + ("/.." + "/g")));
    DotAndTwoUps("/" + "a", "b", "c", "/g");
    LastName("/" + "a", "g");
    var up := "/.." + "/6";
    RelativeSegment("mid", "/" + "content=5" + up);
    SegmentLaws("mid", "content=5", up);
    SegmentLaws("mid", "content=5", "/6");
    LastName("mid", "6");
  }

  // ---------- NUL-terminated buffers ----------

  const NUL := '\0'

  /** The C string at the start of a buffer. */
  function CString(a: seq<char>): (s: string)
    requires NUL in a
    ensures |s| < |a| && s == a[..|s|] && a[|s|] == NUL && NUL !in s
  {
    if a[0] == NUL then "" else [a[0]] + CString(a[1..])
  }

  lemma {:induction false} CStringIs(a: seq<char>, s: string)
    requires |s| < |a| && a[..|s|] == s && a[|s|] == NUL && NUL !in s
    ensures NUL in a && CString(a) == s
  {
    var c := CString(a);
    assert forall k :: 0 <= k < |s| ==> a[k] == s[k];
    assert forall k :: 0 <= k < |c| ==> a[k] == c[k];
    assert |c| == |s|;
  }

  /** The path is what precedes the first question mark. */
  function PathLength(input: string): (k: nat)
    ensures k <= |input| && '?' !in input[..k] && (k < |input| ==> input[k] == '?')
  {
    if input == "" || input[0] == '?' then 0
    else
      var k := PathLength(input[1..]);
      assert input[..k + 1] == [input[0]] + input[1..][..k];
      k + 1
  }

  /** Nothing but "./" and "../" prefixes. */
  predicate OnlyDots(s: string)
    decreases |s|
  {
    || s == ""
    || ("./" <= s && OnlyDots(s[2..]))
    || ("../" <= s && OnlyDots(s[3..]))
  }

  /** r is the C string at position i of m. */
  predicate StringAt(m: seq<char>, i: nat, r: string) {
    i + |r| < |m| && m[i..i + |r|] == r && m[i + |r|] == NUL && NUL !in r
  }

  /** r stands at position i of m up to the first NUL after its first character, which may be NUL. */
  predicate TextAt(m: seq<char>, i: nat, r: string) {
    r != "" && i + |r| < |m| && m[i..i + |r|] == r && m[i + |r|] == NUL && NUL !in r[1..]
  }

  lemma StringIsText(m: seq<char>, i: nat, r: string)
    requires StringAt(m, i, r) && r != ""
    ensures TextAt(m, i, r)
  {
  }

  /** The characters t stand at position i of m. */
  predicate Starts(m: seq<char>, i: nat, t: string) {
    i + |t| <= |m| && m[i..i + |t|] == t
  }

  lemma Comparisons(m: seq<char>, i: nat, r: string, t: string)
    requires TextAt(m, i, r) && t != "" && NUL !in t
    ensures Starts(m, i, t) <==> t <= r
    ensures Starts(m, i, t + [NUL]) <==> r == t
  {
    assert forall k :: 0 <= k < |r| ==> r[k] == m[i + k];
    assert forall j :: i + 1 <= j < i + |r| ==> m[j] == r[1..][j - i - 1] && m[j] != NUL;
    assert m[i..i + |r| + 1] == m[i..i + |r|] + [m[i + |r|]];
    assert Starts(m, i, t) ==> forall k :: 0 <= k < |t| ==> t[k] == m[i + k];
    if Starts(m, i, t + [NUL]) {
      assert m[i..i + |t|] == m[i..i + |t| + 1][..|t|] == t;
      assert m[i + |t|] == m[i..i + |t| + 1][|t|] == NUL;
      assert t <= r;
      assert |t| == |r|;
    }
  }

  lemma StringAfter(m: seq<char>, i: nat, r: string, k: nat)
    requires TextAt(m, i, r) && 1 <= k <= |r|
    ensures StringAt(m, i + k, r[k..])
  {
    assert m[i + k..i + |r|] == m[i..i + |r|][k..];
    assert r[k..] == r[1..][k - 1..];
  }

  method Strncmp(clone: array<char>, i: nat, t: string, ghost r: string) returns (equal: bool)
    requires TextAt(clone[..], i, r) && t != "" && NUL !in t
    ensures equal <==> t <= r
  {
    Comparisons(clone[..], i, r, t);
    equal := Starts(clone[..], i, t);
  }

  method Strcmp(clone: array<char>, i: nat, t: string, ghost r: string) returns (equal: bool)
    requires TextAt(clone[..], i, r) && t != "" && NUL !in t
    ensures equal <==> r == t
  {
    Comparisons(clone[..], i, r, t);
    equal := Starts(clone[..], i, t + [NUL]);
  }

  lemma SegmentEnds(s: string, k: nat)
    requires 1 <= k <= |s| && (k < |s| ==> s[k] == '/')
    requires forall j :: 1 <= j < k ==> s[j] != '/'
    ensures SegmentLength(s) == k
  {
    hide SegmentLength;
    var n := SegmentLength(s);
    assert n < |s| ==> s[n] == '/';
  }

  // ---------- The pieces of one turn ----------

  /** Backs up over the last segment and terminates the output there. */
  method DropSegment(out: array<char>, at: nat) returns (oi: nat)
    requires at < out.Length
    modifies out
    ensures oi <= at && out[..oi] == RemoveLast(old(out[..at])) && out[oi] == NUL
  {
    oi := at;
    while oi > 0
      invariant 0 <= oi <= at && out[..] == old(out[..])
      invariant RemoveLast(out[..oi]) == RemoveLast(old(out[..at]))
    {
      assert out[..oi][..oi - 1] == out[..oi - 1];
      oi := oi - 1;
      if out[oi] == '/' {
        break;
      }
    }
    out[oi] := NUL;
  }

  /** Moves the first segment of the string r at clone[from] to the output. */
  method MoveSegment(clone: array<char>, from: nat, out: array<char>, at: nat, ghost r: string)
      returns (ci: nat, oi: nat)
    requires clone != out && TextAt(clone[..], from, r)
    requires at + |r| < out.Length
    modifies out
    ensures ci == from + SegmentLength(r) && oi == at + SegmentLength(r)
    ensures out[..oi] == old(out[..at]) + r[..SegmentLength(r)] && out[oi] == NUL
  {
    hide SegmentLength;
    assert forall k :: 0 <= k < |r| ==> r[k] == clone[from + k];
    assert forall k :: 1 <= k < |r| ==> r[k] == r[1..][k - 1] && r[k] != NUL;
    out[at] := clone[from];
    oi, ci := at + 1, from + 1;
    while clone[ci] != NUL && clone[ci] != '/'
      invariant 1 <= ci - from <= |r| && oi - at == ci - from
      invariant forall j :: 1 <= j < ci - from ==> r[j] != '/'
      invariant out[..oi] == old(out[..at]) + r[..ci - from]
      decreases from + |r| - ci
    {
      assert ci - from < |r|;
      out[oi] := clone[ci];
      oi, ci := oi + 1, ci + 1;
    }
    SegmentEnds(r, ci - from);
    out[oi] := NUL;
  }

  /** The steps that neither add to the output nor take from it. */
  predicate Unmoved(s: string) {
    "../" <= s || "./" <= s || "/./" <= s || s == "/."
  }

  /** Turns the last "." of the input into "/". */
  method JustASlash(clone: array<char>, i: nat)
    requires i + 1 < clone.Length && clone[i + 1] == NUL
    modifies clone
    ensures StringAt(clone[..], i, "/")
  {
    clone[i] := '/';
  }

  method EndBoth(clone: array<char>, i: nat, out: array<char>)
    requires clone != out && i < clone.Length && 0 < out.Length
    modifies clone, out
    ensures StringAt(clone[..], i, "") && out[0] == NUL
  {
    clone[i], out[0] := NUL, NUL;
  }

  lemma UnmovedStep(r: string, o: string)
    requires Unmoved(r)
    ensures Step(r, o) == (if "./" <= r || "/./" <= r then r[2..] else if "../" <= r then r[3..] else "/", o)
  {
    assert "./" <= r ==> r[0] == '.' && r[1] == '/';
    assert "../" <= r ==> r[0] == '.' && r[1] == '.';
    assert "/./" <= r ==> r[0] == '/';
  }

  /** One turn of the loop is one step of the RFC: r is the input that is left. The output is
      terminated again unless nothing was added to it or taken from it. */
  method Turn(clone: array<char>, from: nat, out: array<char>, at: nat, ghost r: string)
      returns (ci: nat, oi: nat)
    requires clone != out && TextAt(clone[..], from, r)
    requires at + |r| < out.Length && (at > 0 ==> r[0] == '/')
    modifies clone, out
    ensures StringAt(clone[..], ci, Step(r, old(out[..at])).0)
    ensures oi < out.Length && out[..oi] == Step(r, old(out[..at])).1
    ensures if Unmoved(r) then oi == at && out[..] == old(out[..]) else out[oi] == NUL
  {
    var here := Strncmp(clone, from, "./", r);
    var up := Strncmp(clone, from, "../", r);
    var slashHere := Strncmp(clone, from, "/./", r);
    var endHere := Strcmp(clone, from, "/.", r);
    TextIn(clone[..], from, r);
    if here || up || slashHere || endHere {
      UnmovedStep(r, out[..at]);
    }
    assert here || up || slashHere || endHere <==> Unmoved(r);
    hide *;
    if here {
      StringAfter(clone[..], from, r, 2);
      ci, oi := from + 2, at;
    } else if up {
      StringAfter(clone[..], from, r, 3);
      ci, oi := from + 3, at;
    } else if slashHere {
      StringAfter(clone[..], from, r, 2);
      ci, oi := from + 2, at;
    } else if endHere {
      ci, oi := from + 1, at;
      JustASlash(clone, ci);
    } else {
      ci, oi := UpSteps(clone, from, out, at, r);
    }
  }

  lemma TextIn(m: seq<char>, i: nat, r: string)
    requires TextAt(m, i, r)
    ensures r != "" && i + |r| < |m| && m[i + |r|] == NUL
  {
  }

  lemma StringIn(m: seq<char>, i: nat, r: string)
    requires StringAt(m, i, r)
    ensures i + |r| < |m| && (m[i] == NUL <==> r == "") && NUL !in r
  {
    assert r != "" ==> r[0] == m[i];
  }

  method UpSteps(clone: array<char>, from: nat, out: array<char>, at: nat, ghost r: string)
      returns (ci: nat, oi: nat)
    requires clone != out && TextAt(clone[..], from, r) && !Unmoved(r)
    requires at + |r| < out.Length && (at > 0 ==> r[0] == '/')
    modifies clone, out
    ensures StringAt(clone[..], ci, Step(r, old(out[..at])).0)
    ensures oi < out.Length && out[..oi] == Step(r, old(out[..at])).1 && out[oi] == NUL
  {
    var up := Strncmp(clone, from, "/../", r);
    var endUp := Strcmp(clone, from, "/..", r);
    hide StringAt, TextAt, RemoveLast, SegmentLength;
    if up {
      StringAfter(clone[..], from, r, 3);
      ci := from + 3;
      oi := DropSegment(out, at);
    } else if endUp {
      TextIn(clone[..], from, r);
      ci := from + 2;
      oi := DropSegment(out, at);
      JustASlash(clone, ci);
    } else {
      ci, oi := LastSteps(clone, from, out, at, r);
    }
  }

  lemma LastStep(r: string, o: string)
    requires r != "" && !Unmoved(r) && !("/../" <= r) && r != "/.." && (o != "" ==> r[0] == '/')
    ensures Step(r, o) == if r == "." || r == ".." then ("", o) else (r[SegmentLength(r)..], o + r[..SegmentLength(r)])
    ensures r == "." || r == ".." ==> o == ""
  {
  }

  method LastSteps(clone: array<char>, from: nat, out: array<char>, at: nat, ghost r: string)
      returns (ci: nat, oi: nat)
    requires clone != out && TextAt(clone[..], from, r) && !Unmoved(r)
    requires !("/../" <= r) && r != "/.."
    requires at + |r| < out.Length && (at > 0 ==> r[0] == '/')
    modifies clone, out
    ensures StringAt(clone[..], ci, Step(r, old(out[..at])).0)
    ensures oi < out.Length && out[..oi] == Step(r, old(out[..at])).1 && out[oi] == NUL
  {
    var dot := Strcmp(clone, from, ".", r);
    var dotdot := Strcmp(clone, from, "..", r);
    hide *;
    LastStep(r, out[..at]);
    TextIn(clone[..], from, r);
    StringAfter(clone[..], from, r, SegmentLength(r));
    if dot || dotdot {
      EndBoth(clone, from, out);
      ci, oi := from, at;
    } else {
      ci, oi := MoveSegment(clone, from, out, at, r);
    }
  }

  // ---------- The whole function ----------

  /** While only prefixes went away the output buffer is as allocated. */
  ghost predicate Progress(path: string, left: string, o: string, untouched: bool) {
    && RemoveDots(left, o) == RemoveDots(path, "")
    && |left| + |o| <= |path|
    && (o != "" && left != "" ==> left[0] == '/')
    && (if untouched then o == "" && (OnlyDots(path) <==> OnlyDots(left)) else !OnlyDots(path))
  }

  lemma OneTurn(path: string, left: string, o: string, untouched: bool)
    requires left != "" && Progress(path, left, o, untouched)
    ensures Progress(path, Step(left, o).0, Step(left, o).1, untouched && Unmoved(left))
    ensures |left| + |o| <= |path| && (o != "" ==> left[0] == '/')
    ensures |Step(left, o).0| < |left| && |Step(left, o).1| <= |path|
    ensures NUL !in left && NUL !in o ==> NUL !in Step(left, o).1
  {
    StepSlash(left, o);
    StepOnlyDots(left, o);
    assert RemoveDots(left, o) == RemoveDots(Step(left, o).0, Step(left, o).1);
  }

  lemma StepSlash(s: string, o: string)
    requires s != "" && (o != "" ==> s[0] == '/')
    ensures var (left, o') := Step(s, o); o' != "" && left != "" ==> left[0] == '/'
  {
    assert RemoveLast(o) <= o;
  }

  lemma StepOnlyDots(s: string, o: string)
    requires s != ""
    ensures if Unmoved(s) then Step(s, o).1 == o && (OnlyDots(Step(s, o).0) <==> OnlyDots(s)) else !OnlyDots(s)
  {
    assert !OnlyDots("/");
    assert "/./" <= s ==> s[2..][0] == '/' && s[0] == '/';
  }

  // ---------- The result and where it ends ----------

  /** What the loop works on: the path. When that is empty the first turn moves its terminator and goes
      on with what follows the question mark. */
  function Subject(input: string): string {
    if input != "" && input[0] == '?' then [NUL] + input[1..] else input[..PathLength(input)]
  }

  /** What is written: the loop's result and the query. */
  function Answer(input: string): string {
    RemoveDots(Subject(input), "") + input[PathLength(input)..]
  }

  lemma {:induction false} NeverLonger(s: string, o: string)
    ensures |RemoveDots(s, o)| <= |s| + |o|
    decreases |s|
  {
    if s != "" {
      NeverLonger(Step(s, o).0, Step(s, o).1);
    }
  }

  lemma StepGoesOn(s: string, o: string)
    requires s != "" && s[0] != '.'
    ensures var (left, o') := Step(s, o); if left == "" then o' != "" else left[0] == '/'
  {
  }

  lemma {:induction false} NeverEmptied(s: string, o: string)
    requires s != "" && s[0] != '.'
    ensures RemoveDots(s, o) != ""
    decreases |s|
  {
    StepGoesOn(s, o);
    var (left, o') := Step(s, o);
    hide Step;
    if left != "" {
      NeverEmptied(left, o');
    }
  }

  /** The text and its terminator need more than the allocated length and one exactly when the input
      starts with a question mark; then the overrun is the length of the loop's result. */
  lemma OverrunIff(input: string)
    ensures |Answer(input)| > |input| <==> input != "" && input[0] == '?'
    ensures |Answer(input)| <= 2 * |input|
    ensures input != "" && input[0] == '?' ==> |Answer(input)| == |input| + |RemoveDots(Subject(input), "")|
  {
    NeverLonger(Subject(input), "");
    if input != "" && input[0] == '?' {
      NeverEmptied(Subject(input), "");
    }
  }

  /** The path loses its dot segments and the query, with its question mark, stays as it is. */
  lemma QueryStays(path: string, query: string)
    requires '?' !in path && path != ""
    ensures Answer(path) == RemoveDots(path, "")
    ensures Answer(path + "?" + query) == RemoveDots(path, "") + "?" + query
  {
    PathEnds(path, "");
    PathEnds(path, "?" + query);
    assert path + "" == path && path + ("?" + query) == path + "?" + query;
    var s := path + "?" + query;
    assert s[..|path|] == path && s[|path|..] == "?" + query && s[0] == path[0];
    assert RemoveDots(path, "") + "" == RemoveDots(path, "");
    hide RemoveDots;
  }

  lemma {:induction false} PathEnds(path: string, query: string)
    requires '?' !in path && (query != "" ==> query[0] == '?')
    ensures PathLength(path + query) == |path|
  {
    if path == "" {
      assert path + query == query;
    } else {
      var s := path + query;
      assert s[0] == path[0] && path[0] in path;
      assert s[1..] == path[1..] + query;
      PathEnds(path[1..], query);
    }
  }

  lemma OverrunExample()
    ensures Answer("?abc") == [NUL] + "abc" + "?abc"
  {
    var s := [NUL] + "abc";
    assert Subject("?abc") == s;
    SegmentEnds(s, 4);
    assert s[0] == NUL && s[4..] == "" && s[..4] == s && "" + s == s;
    StepOfOther(s, "");
    assert Step(s, "") == ("", s) && RemoveDots("", s) == s;
  }

  lemma StepOfOther(s: string, o: string)
    requires s != "" && s[0] != '.' && s[0] != '/'
    ensures Step(s, o) == (s[SegmentLength(s)..], o + s[..SegmentLength(s)])
  {
  }

  /** The RFC's result is empty, but nothing is written. */
  lemma UnwrittenExample()
    ensures OnlyDots("./") && PathLength("./") == 2 && RemoveDots("./", "") == ""
  {
    assert "./"[2..] == "";
    assert "./"[1..] == "/" && "/"[1..] == "";
    assert PathLength("") == 0 && PathLength("/") == 1;
    assert Step("./", "") == ("", "");
  }

  // ---------- The whole function ----------

  /** The block and what lies behind it. */
  function Memory(out: array<char>, beyond: array<char>): seq<char>
    reads out, beyond
  {
    out[..] + beyond[..]
  }

  /** memcpy of the query and its terminator, whatever the size of the block. */
  method AppendQuery(out: array<char>, beyond: array<char>, at: nat, query: string)
    requires out != beyond && at + |query| < out.Length + beyond.Length
    modifies out, beyond
    ensures Memory(out, beyond)
         == old(Memory(out, beyond)[..at]) + query + [NUL] + old(Memory(out, beyond)[at + |query| + 1..])
  {
    forall k | 0 <= k < out.Length && at <= k <= at + |query| {
      out[k] := if k - at < |query| then query[k - at] else NUL;
    }
    forall k | 0 <= k < beyond.Length && at <= out.Length + k <= at + |query| {
      beyond[k] := if out.Length + k - at < |query| then query[out.Length + k - at] else NUL;
    }
  }

  /** The answer stands at the start of the block, terminated, and reaches into `beyond`, the memory
      behind the block, as far as it is longer than the input. The one exception is a path of nothing
      but dot prefixes without a query: it leaves the block as it came from the allocator. */
  method Dedotdotify(input: string, heap: seq<char>, beyond: array<char>) returns (out: array<char>)
    requires NUL !in input && |heap| == |input| + 1 && |input| <= beyond.Length
    modifies beyond
    ensures fresh(out) && out.Length == |input| + 1 && |Answer(input)| <= 2 * |input|
    ensures if input != "" && PathLength(input) == |input| && OnlyDots(input) then out[..] == heap
            else Memory(out, beyond)[..|Answer(input)| + 1] == Answer(input) + [NUL]
    ensures forall k :: 0 <= k < beyond.Length && |Answer(input)| <= |input| + k ==> beyond[k] == old(beyond[k])
  {
    OverrunIff(input);
    EmptyAnswer();
    hide Answer, Subject, RemoveDots, OnlyDots, PathLength, TextAt;
    var n := |input|;
    var clone := new char[n + 1](i requires 0 <= i <= n => if i < n then input[i] else NUL);
    if clone[0] == NUL {
      out := clone;
      return;
    }
    out := new char[n + 1](i requires 0 <= i <= n => heap[i]);
    assert out[..] == heap;
    var p := PathLength(input);
    clone[p] := NUL;
    SubjectAt(input, clone[..]);
    var oi, untouched := Steps(clone, out, Subject(input));
    ghost var block, behind := out[..], beyond[..];
    Finish(out, beyond, oi, input, p, untouched);
    Behind(block, behind, out[..], beyond[..], |Answer(input)|);
  }

  lemma Behind(o: seq<char>, b: seq<char>, o': seq<char>, b': seq<char>, last: nat)
    requires |o| == |o'| && |b| == |b'|
    requires forall k :: last < k < |o| + |b| ==> (o' + b')[k] == (o + b)[k]
    ensures forall k :: 0 <= k < |b| && last < |o| + k ==> b'[k] == b[k]
    ensures o + b == o' + b' ==> o == o'
  {
    assert forall k :: 0 <= k < |b| ==> (o + b)[|o| + k] == b[k] && (o' + b')[|o| + k] == b'[k];
    assert (o + b)[..|o|] == o && (o' + b')[..|o|] == o';
  }

  /** Appends the query, if there is one. */
  method Finish(out: array<char>, beyond: array<char>, at: nat, input: string, p: nat, ghost untouched: bool)
    requires out != beyond && out.Length == |input| + 1 && |input| <= beyond.Length && input != ""
    requires p == PathLength(input) && at <= |Subject(input)| <= |input|
    requires out[..at] == RemoveDots(Subject(input), "") && (untouched <==> OnlyDots(Subject(input)))
    requires !untouched ==> out[at] == NUL
    modifies out, beyond
    ensures if PathLength(input) == |input| && OnlyDots(input) then Memory(out, beyond) == old(Memory(out, beyond))
            else Memory(out, beyond)[..|Answer(input)| + 1] == Answer(input) + [NUL]
    ensures forall k :: |Answer(input)| < k < out.Length + beyond.Length ==>
              Memory(out, beyond)[k] == old(Memory(out, beyond))[k]
  {
    ghost var memory := Memory(out, beyond);
    assert memory[..at] == out[..at] && memory[at] == out[at];
    AnswerIs(input, p, at, memory);
    hide Answer, Subject, RemoveDots, OnlyDots, PathLength;
    if p < |input| {
      AppendQuery(out, beyond, at, input[p..]);
      MemorySplit(memory, at, input[p..], Memory(out, beyond));
    } else {
      assert memory[..at + 1] == memory[..at] + [memory[at]];
    }
  }

  lemma AnswerIs(input: string, p: nat, at: nat, memory: seq<char>)
    requires input != "" && p == PathLength(input) && at < |memory| && memory[..at] == RemoveDots(Subject(input), "")
    ensures |Answer(input)| == at + |input| - p && Answer(input) == memory[..at] + input[p..]
    ensures p == |input| ==> Subject(input) == input && Answer(input) == memory[..at]
  {
    if p == |input| {
      WholePath(input);
      assert memory[..at] + input[p..] == memory[..at];
    }
  }

  lemma WholePath(input: string)
    requires input != "" && PathLength(input) == |input|
    ensures Subject(input) == input
  {
    assert input[..|input|] == input;
  }

  lemma MemorySplit(before: seq<char>, at: nat, query: string, after: seq<char>)
    requires at + |query| < |before| && |after| == |before|
    requires after == before[..at] + query + [NUL] + before[at + |query| + 1..]
    ensures after[..at + |query| + 1] == before[..at] + query + [NUL]
    ensures forall k :: at + |query| < k < |before| ==> after[k] == before[k]
  {
  }

  lemma EmptyAnswer()
    ensures Answer("") == ""
  {
  }

  /** With the first question mark overwritten. */
  lemma SubjectAt(input: string, clone: seq<char>)
    requires input != "" && NUL !in input && |clone| == |input| + 1
    requires clone == (input + [NUL])[PathLength(input) := NUL]
    ensures TextAt(clone, 0, Subject(input)) && |Subject(input)| <= |input|
    ensures input[0] != '?' ==> NUL !in Subject(input)
  {
  }

  /** The loop: afterwards the output is the RFC's result on the text, terminated unless only prefixes
      went away. */
  method Steps(clone: array<char>, out: array<char>, ghost text: string)
      returns (oi: nat, ghost untouched: bool)
    requires clone != out && |text| < out.Length && TextAt(clone[..], 0, text)
    modifies clone, out
    ensures oi <= |text| && out[..oi] == RemoveDots(text, "") && (NUL !in text ==> NUL !in out[..oi])
    ensures untouched <==> OnlyDots(text)
    ensures if untouched then out[..] == old(out[..]) else out[oi] == NUL
  {
    hide *;
    var ci: nat := 0;
    oi := 0;
    ghost var left := text;
    untouched := true;
    Start(text);
    assert out[..0] == "";
    while true
      invariant TextAt(clone[..], ci, left)
      invariant oi <= |text| && Progress(text, left, out[..oi], untouched)
      invariant NUL !in text ==> NUL !in left && NUL !in out[..oi]
      invariant if untouched then out[..] == old(out[..]) else out[oi] == NUL
      decreases |left|
    {
      TextIn(clone[..], ci, left);
      OneTurn(text, left, out[..oi], untouched);
      ghost var next := Step(left, out[..oi]);
      untouched := untouched && Unmoved(left);
      ci, oi := Turn(clone, ci, out, oi, left);
      left := next.0;
      StringIn(clone[..], ci, left);
      if clone[ci] == NUL {
        break;
      }
      StringIsText(clone[..], ci, left);
    }
    Finished(text, out[..oi], untouched);
  }

  lemma Start(path: string)
    ensures Progress(path, path, "", true)
  {
  }

  lemma Finished(path: string, o: string, untouched: bool)
    requires Progress(path, "", o, untouched)
    ensures o == RemoveDots(path, "") && |o| <= |path| && (untouched <==> OnlyDots(path))
  {
  }

  lemma StepWithoutNul(s: string, o: string)
    requires s != "" && NUL !in s && NUL !in o
    ensures NUL !in Step(s, o).0 && NUL !in Step(s, o).1
  {
    assert RemoveLast(o) <= o;
  }

  lemma {:induction false} NoNulAppears(s: string, o: string)
    requires NUL !in s && NUL !in o
    ensures NUL !in RemoveDots(s, o)
    decreases |s|
  {
    if s != "" {
      StepWithoutNul(s, o);
      NoNulAppears(Step(s, o).0, Step(s, o).1);
    }
  }

  lemma AnswerHasNoNul(input: string)
    requires NUL !in input && (input == "" || input[0] != '?')
    ensures NUL !in Answer(input)
  {
    NoNulAppears(Subject(input), "");
    hide RemoveDots;
    assert forall c :: c in Subject(input) || c in input[PathLength(input)..] ==> c in input;
  }

  lemma Terminated(out: seq<char>, r: string)
    requires |r| < |out| && out[..|r| + 1] == r + [NUL] && NUL !in r
    ensures NUL in out && CString(out) == r
  {
    hide CString;
    var t := out[..|r| + 1];
    assert t[|r|] == out[|r|];
    assert t[..|r|] == out[..|r|] == r;
    CStringIs(out, r);
  }

  /** Without a leading question mark the C string in the block is the answer. */
  lemma AnswerIsString(input: string, out: seq<char>)
    requires NUL !in input && (input == "" || input[0] != '?') && |Answer(input)| < |out|
    requires out[..|Answer(input)| + 1] == Answer(input) + [NUL]
    ensures NUL in out && CString(out) == Answer(input)
  {
    AnswerHasNoNul(input);
    hide Answer, CString;
    Terminated(out, Answer(input));
  }
}
