/** Laws of the configuration format: comments do not matter, when a final newline does, and
    exactly which maps survive being written and read again. */
module ConfigLaws {
  import opened ConfigText
  import opened Config
  import opened Wrappers

  // ---------- Texts made of whole lines ----------

  predicate Whole(p: string) {
    p == "" || p[|p| - 1] == '\n'
  }

  function FeedText(x: Syntax, r: Reading, p: string): Reading
    requires Whole(p)
    decreases |p|
  {
    if p == "" then r
    else
      FindChar(p, '\n');
      var k := Find(p, "\n");
      FeedText(x, Feed(x, r, p[..k]), p[k + 1..])
  }

  lemma FindNewline(l: string, q: string)
    requires '\n' !in l
    ensures Find(l + "\n" + q, "\n") == |l|
    ensures (l + "\n" + q)[..|l|] == l && (l + "\n" + q)[|l| + 1..] == q
  {
    var s := l + "\n" + q;
    FindChar(s, '\n');
    assert s[|l|..|l| + 1] == "\n";
    FindLeast(s, "\n", |l|);
    hide Find;
    assert forall i :: 0 <= i < |l| ==> s[i] == l[i];
  }

  /** A non-empty whole text starts with a line. */
  lemma FirstLine(p: string) returns (l: string, q: string)
    requires Whole(p) && p != ""
    ensures p == l + "\n" + q && '\n' !in l && Whole(q)
    ensures Find(p, "\n") == |l| && p[..|l|] == l && p[|l| + 1..] == q
  {
    FindChar(p, '\n');
    var k := Find(p, "\n");
    l, q := p[..k], p[k + 1..];
  }

  lemma {:induction false} LoadAfter(x: Syntax, r: Reading, p: string, q: string)
    requires Whole(p)
    ensures LoadFrom(x, r, In(p + q, false, false)) == LoadFrom(x, FeedText(x, r, p), In(q, false, false))
    decreases |p|
  {
    hide Feed, Find;
    if p == "" {
      assert p + q == q;
    } else {
      var l, p' := FirstLine(p);
      assert p + q == l + "\n" + (p' + q);
      FindNewline(l, p' + q);
      LoadAfter(x, Feed(x, r, l), p', q);
    }
  }

  lemma {:induction false} FeedTextConcat(x: Syntax, r: Reading, p: string, q: string)
    requires Whole(p) && Whole(q)
    ensures Whole(p + q) && FeedText(x, r, p + q) == FeedText(x, FeedText(x, r, p), q)
    decreases |p|
  {
    hide Feed, Find;
    if p == "" {
      assert p + q == q;
    } else {
      var l, p' := FirstLine(p);
      assert p + q == l + "\n" + (p' + q);
      FindNewline(l, p' + q);
      FeedTextConcat(x, Feed(x, r, l), p', q);
    }
  }

  lemma OneLine(x: Syntax, r: Reading, l: string)
    requires '\n' !in l
    ensures Whole(l + "\n") && FeedText(x, r, l + "\n") == Feed(x, r, l)
  {
    hide Feed;
    assert l + "\n" == l + "\n" + "";
    FindNewline(l, "");
    assert FeedText(x, Feed(x, r, l), "") == Feed(x, r, l);
  }

  // ---------- Comments ----------

  lemma CommentLine(x: Syntax, r: Reading, c: string)
    requires x.delim != "" && !Blank(x.comm) && x.comm <= c
    ensures Strip(c, x.comm) == "" && Feed(x, r, c) == r
  {
    var i :| 0 <= i < |x.comm| && !White(x.comm[i]);
    assert !White(c[i]);
    TrimBlank(c);
    TrimBlank("");
    FindInEmpty(x.delim);
    if r.open.Some? {
      assert Append(x, r.open.value.1, c) == r.open.value.1;
    }
  }

  /** A line that starts with the comment mark can be put in or taken out anywhere, also inside a
      value, whatever else it contains. */
  lemma CommentsDoNotMatter(x: Syntax, m: Contents, p: string, c: string, q: string)
    requires x.delim != "" && !Blank(x.comm)
    requires Whole(p) && x.comm <= c && '\n' !in c
    ensures Load(x, m, p + c + "\n" + q) == Load(x, m, p + q)
    ensures Load(x, m, p + c) == Load(x, m, p)
  {
    hide *;
    var r := FeedText(x, Reading(m, None), p);
    CommentLine(x, r, c);
    LineBetween(p, c, q);
    LoadWith(x, m, p, (c + "\n") + q);
    OneLine(x, r, c);
    LoadAfter(x, r, c + "\n", q);
    LoadWith(x, m, p, q);
    CommentAtEnd(x, m, p, c);
  }

  lemma CommentAtEnd(x: Syntax, m: Contents, p: string, c: string)
    requires x.delim != "" && !Blank(x.comm)
    requires Whole(p) && x.comm <= c && '\n' !in c
    ensures Load(x, m, p + c) == Load(x, m, p)
  {
    var r := FeedText(x, Reading(m, None), p);
    assert c != "";
    hide *;
    CommentLine(x, r, c);
    LoadWith(x, m, p, c);
    LoadWith(x, m, p, "");
    NothingAfter(p);
    LastLine(x, r, c);
    LastComment(x, r, c);
  }

  lemma LineBetween(p: string, c: string, q: string)
    ensures p + c + "\n" + q == p + ((c + "\n") + q)
  {
  }

  lemma NothingAfter(p: string)
    ensures p + "" == p
  {
  }

  lemma LoadWith(x: Syntax, m: Contents, p: string, q: string)
    requires Whole(p)
    ensures Load(x, m, p + q) == LoadFrom(x, FeedText(x, Reading(m, None), p), In(q, false, false))
  {
    hide LoadFrom, FeedText, Whole;
    LoadAfter(x, Reading(m, None), p, q);
  }

  /** The text ends in a line without a newline. */
  lemma LastLine(x: Syntax, r: Reading, l: string)
    requires l != "" && '\n' !in l
    ensures LoadFrom(x, r, In(l, false, false))
         == if r.open.Some? && Continues(x, l) then Close(Feed(x, Feed(x, r, l), Strip(l, x.comm))).m
            else Finish(x, Feed(x, r, l), END)
    ensures LoadFrom(x, r, In("", false, false)) == Finish(x, r, END)
    ensures x.delim != "" ==> Finish(x, Feed(x, r, l), END) == Close(Feed(x, r, l)).m && Finish(x, r, END) == Close(r).m
  {
    hide Feed, Strip, StartLine;
    FindChar(l, '\n');
  }

  const END := In("", false, false)

  lemma LastComment(x: Syntax, r: Reading, c: string)
    requires x.delim != "" && !Blank(x.comm) && x.comm <= c && '\n' !in c
    ensures Close(Feed(x, Feed(x, r, c), Strip(c, x.comm))).m == Close(r).m
  {
    CommentLine(x, r, c);
    FindInEmpty(x.comm);
    FindInEmpty(x.delim);
    TrimBlank("");
  }

  // ---------- Entries ----------

  /** In the default syntax: the key is what precedes the first "=", the value what follows it up to a "#". */
  lemma EntryLine(m: Contents, key: string, value: string, c: string)
    requires '=' !in key && '#' !in key && '#' !in value
    ensures StartLine(DEFAULT, m, key + "=" + value) == Reading(m, Some((key, value)))
    ensures StartLine(DEFAULT, m, key + "=" + value + "#" + c) == Reading(m, Some((key, value)))
  {
    var l := key + "=" + value;
    UpTo(key, '=', value);
    Without(l, '#');
    UpTo(l, '#', c);
    assert (l + "#" + c)[..|l|] == l;
    assert l[..|key|] == key && l[|key| + 1..] == value;
    hide Find;
  }

  lemma UpTo(s: string, c: char, t: string)
    requires c !in s
    ensures Find(s + [c] + t, [c]) == |s|
  {
    var u := s + [c] + t;
    FindChar(u, c);
    assert u[|s|..|s| + 1] == [c];
    FindLeast(u, [c], |s|);
    hide Find;
    assert forall i :: 0 <= i < |s| ==> u[i] == s[i];
  }

  lemma Without(s: string, c: char)
    requires c !in s
    ensures Find(s, [c]) == NPOS
  {
    FindChar(s, c);
  }

  lemma PlainLine(l: string)
    requires '=' !in l && '#' !in l
    ensures Strip(l, "#") == l && !Has(l, "=")
  {
    Without(l, '=');
    Without(l, '#');
    hide Find;
  }

  /** What reading a text of one or two lines gives: one entry, also with a comment behind it; a line without
      "=" goes on with the value above it, but not after an empty line and not without a value. */
  lemma EntryLaws(m: Contents, key: string, value: string, c: string, more: string)
    requires forall l :: l in [key, value, c, more] ==> '\n' !in l
    requires '=' !in key && '#' !in key && '#' !in value
    requires '=' !in more && '#' !in more && !Blank(more)
    ensures Load(DEFAULT, m, key + "=" + value + "\n") == m[Trimmed(key) := Trimmed(value)]
    ensures Load(DEFAULT, m, key + "=" + value + "#" + c + "\n") == m[Trimmed(key) := Trimmed(value)]
    ensures Load(DEFAULT, m, key + "=" + value + "\n" + (more + "\n"))
         == m[Trimmed(key) := Trimmed(value + "\n" + more)]
    ensures Load(DEFAULT, m, key + "=" + value + "\n" + ("\n" + (more + "\n"))) == m[Trimmed(key) := Trimmed(value)]
    ensures Load(DEFAULT, m, more + "\n") == m
  {
    var none, open := Reading(m, None), Reading(m, Some((key, value)));
    var stored := Reading(m[Trimmed(key) := Trimmed(value)], None);
    var l := key + "=" + value;
    assert '\n' !in l && '\n' !in l + "#" + c && '\n' !in more by {
      assert key in [key, value, c, more] && value in [key, value, c, more];
      assert c in [key, value, c, more] && more in [key, value, c, more];
    }
    EntryLine(m, key, value, c);
    assert Feed(DEFAULT, none, l) == open && Feed(DEFAULT, none, l + "#" + c) == open;
    assert Close(open) == stored && Close(none) == none;
    EntryLinesAfter(m, key, value, more);
    OneLineText(m, none, l);
    OneLineText(m, none, l + "#" + c);
    OneLineText(m, none, more);
    TwoLineTexts(m, none, l, more);
    hide *;
  }

  /** Lines after an entry, and a line after none. */
  lemma EntryLinesAfter(m: Contents, key: string, value: string, more: string)
    requires '=' !in more && '#' !in more && !Blank(more)
    ensures var none, open := Reading(m, None), Reading(m, Some((key, value)));
      var stored := Reading(m[Trimmed(key) := Trimmed(value)], None);
      && Feed(DEFAULT, open, more) == Reading(m, Some((key, value + "\n" + more)))
      && Feed(DEFAULT, open, "") == stored
      && Feed(DEFAULT, stored, more) == stored && Feed(DEFAULT, none, more) == none
  {
    PlainLine(more);
    PlainLine("");
    TrimBlank(more);
    TrimBlank("");
    hide Trimmed, Strip;
  }

  lemma OneLineText(m: Contents, r: Reading, l: string)
    requires '\n' !in l && r == Reading(m, None)
    ensures Load(DEFAULT, m, l + "\n") == Close(Feed(DEFAULT, r, l)).m
  {
    OneLine(DEFAULT, r, l);
    LastLine(DEFAULT, Feed(DEFAULT, r, l), "x");
    LoadWith(DEFAULT, m, l + "\n", "");
    NothingAfter(l + "\n");
    assert DEFAULT.delim != "";
    hide *;
    FinishIs(Feed(DEFAULT, r, l));
  }

  lemma FinishIs(r: Reading)
    ensures Finish(DEFAULT, r, END) == Close(r).m
  {
  }

  lemma TwoLineTexts(m: Contents, r: Reading, l: string, more: string)
    requires '\n' !in l && '\n' !in more && r == Reading(m, None)
    ensures var r1 := Feed(DEFAULT, r, l);
      && Load(DEFAULT, m, l + "\n" + (more + "\n")) == Close(Feed(DEFAULT, r1, more)).m
      && Load(DEFAULT, m, l + "\n" + ("\n" + (more + "\n"))) == Close(Feed(DEFAULT, Feed(DEFAULT, r1, ""), more)).m
  {
    hide *;
    var r1 := Feed(DEFAULT, r, l);
    OneLine(DEFAULT, r, l);
    TextAfter(m, l + "\n", more, r1);
    OneLine(DEFAULT, r1, "");
    assert "" + "\n" == "\n";
    FeedTextConcat(DEFAULT, r, l + "\n", "\n");
    TextAfter(m, l + "\n" + "\n", more, Feed(DEFAULT, r1, ""));
    assert l + "\n" + "\n" + (more + "\n") == l + "\n" + ("\n" + (more + "\n"));
  }

  lemma TextAfter(m: Contents, p: string, more: string, r: Reading)
    requires Whole(p) && '\n' !in more && FeedText(DEFAULT, Reading(m, None), p) == r
    ensures Load(DEFAULT, m, p + (more + "\n")) == Close(Feed(DEFAULT, r, more)).m
  {
    hide *;
    OneLine(DEFAULT, r, more);
    LoadWith(DEFAULT, m, p, more + "\n");
    LoadAfter(DEFAULT, r, more + "\n", "");
    NothingAfter(more + "\n");
    LastLine(DEFAULT, Feed(DEFAULT, r, more), "x");
    FinishIs(Feed(DEFAULT, r, more));
  }

  /** What is written, and the entry that an empty delimiter finds in an empty text. */
  lemma ConfigExamples()
    ensures Print(":", ["a", "b"], map["a" := "1", "b" := "2"]) == "a : 1\nb : 2\n"
    ensures Load(Syntax("", "#"), map[], "") == map["" := ""]
    ensures DEFAULT == Syntax("=", "#")
  {
    var m := map["a" := "1", "b" := "2"];
    assert ["a", "b"][1..] == ["b"] && ["b"][1..] == [];
    assert Print(":", ["b"], m) == "b" + " " + ":" + " " + "2" + "\n" + Print(":", [], m);
    var x := Syntax("", "#");
    FindInEmpty("#");
    assert Strip("", "#") == "" && Find("", "") == 0;
    assert StartLine(x, map[], "") == Reading(map[], Some(("", "")));
    TrimBlank("");
  }

  // ---------- The final newline ----------

  lemma {:induction false} TrimLeftFront(a: string, b: string)
    requires !Blank(a)
    ensures TrimLeft(a + b) == TrimLeft(a) + b
  {
    if White(a[0]) {
      assert (a + b)[1..] == a[1..] + b;
      assert a == [a[0]] + a[1..];
      TrimLeftFront(a[1..], b);
    }
  }

  lemma {:induction false} TrimRightBack(a: string, b: string)
    requires !Blank(b)
    ensures TrimRight(a + b) == a + TrimRight(b)
  {
    if White(b[|b| - 1]) {
      assert (a + b)[..|a + b| - 1] == a + b[..|b| - 1];
      assert b == b[..|b| - 1] + [b[|b| - 1]];
      TrimRightBack(a, b[..|b| - 1]);
    }
  }

  /** A value that ends in a non-blank line differs from the same value with that line twice. */
  lemma DoublingShows(v: string, s: string)
    requires !Blank(s)
    ensures Trimmed(v + "\n" + s) != Trimmed(v + "\n" + s + "\n" + s)
  {
    var v1 := v + "\n" + s;
    var i :| 0 <= i < |s| && !White(s[i]);
    assert !White(v1[|v| + 1 + i]);
    TrimLeftFront(v1, "\n" + s);
    assert v1 + ("\n" + s) == v1 + "\n" + s;
    var t := TrimLeft(v1);
    TrimRightBack(t + "\n", s);
    assert t + ("\n" + s) == t + "\n" + s;
    var k := TrimRightSplit(t);
  }

  /** Adding a newline at the end of a text changes what is read exactly when the last line goes on
      with a value and is not just a comment: then the reader takes that line twice. */
  lemma FinalNewlineMattersIff(x: Syntax, m: Contents, p: string, l: string)
    requires Whole(p) && l != "" && '\n' !in l
    ensures Load(x, m, p + l) == Load(x, m, p + l + "\n")
       <==> !(FeedText(x, Reading(m, None), p).open.Some? && Continues(x, l) && !Blank(Strip(l, x.comm)))
  {
    hide *;
    var r := FeedText(x, Reading(m, None), p);
    LoadWith(x, m, p, l);
    LineBetween(p, l, "");
    NothingAfter(p + l + "\n");
    LoadWith(x, m, p, (l + "\n") + "");
    OneLine(x, r, l);
    LoadAfter(x, r, l + "\n", "");
    LastLine(x, r, l);
    LastLine(x, Feed(x, r, l), l);
    if r.open.Some? && Continues(x, l) {
      DoubledIff(x, r, l);
      ContinuesOpen(x, r, l);
    }
  }

  lemma ContinuesOpen(x: Syntax, r: Reading, l: string)
    requires r.open.Some? && Continues(x, l)
    ensures Finish(x, Feed(x, r, l), END) == Close(Feed(x, r, l)).m
  {
    hide Continues, Append, StartLine;
  }

  lemma DoubledIff(x: Syntax, r: Reading, l: string)
    requires r.open.Some? && Continues(x, l)
    ensures var r' := Feed(x, r, l);
            Close(Feed(x, r', Strip(l, x.comm))).m == Close(r').m <==> Blank(Strip(l, x.comm))
  {
    var s := Strip(l, x.comm);
    var r' := Feed(x, r, l);
    var (key, value) := r.open.value;
    StripTwice(l, x.comm);
    TrimBlank(s);
    if Blank(s) {
      NoDelim(x, Close(r').m, s);
    } else {
      DoublingShows(value, s);
      assert r'.open.value == (key, value + "\n" + s);
      var r'' := Feed(x, r', s);
      assert r''.open.value == (key, value + "\n" + s + "\n" + s);
      assert Close(r').m[Trimmed(key)] != Close(r'').m[Trimmed(key)];
    }
  }
}
