/** Writing a configuration and reading it back, with the default delimiter and comment mark:
    exactly the printable maps come back, and every map that was ever read is printable. */
module ConfigRoundTrip {
  import opened ConfigText
  import opened Config
  import opened Wrappers
  import opened ConfigLaws

  // ---------- Printable entries ----------

  predicate GoodKey(k: string) {
    Trimmed(k) == k && '\n' !in k && '=' !in k && '#' !in k
  }

  predicate GoodLine(l: string) {
    !Blank(l) && '=' !in l
  }

  /** Every line of s, also the last one. */
  predicate GoodLines(s: string)
    decreases |s|
  {
    var k := Find(s, "\n");
    if k < 0 then GoodLine(s) else GoodLine(s[..k]) && GoodLines(s[k + 1..])
  }

  /** The lines after the first one. */
  predicate GoodTail(v: string) {
    var k := Find(v, "\n");
    k < 0 || GoodLines(v[k + 1..])
  }

  predicate GoodValue(v: string) {
    Trimmed(v) == v && '#' !in v && GoodTail(v)
  }

  predicate Printable(m: Contents) {
    forall k :: k in m ==> GoodKey(k) && GoodValue(m[k])
  }

  /** A string at its first newline. */
  lemma AtNewline(v: string) returns (l: string, w: string)
    requires Find(v, "\n") >= 0
    ensures v == l + "\n" + w && '\n' !in l && Find(v, "\n") == |l|
    ensures v[..|l|] == l && v[|l| + 1..] == w
  {
    FindChar(v, '\n');
    var k := Find(v, "\n");
    l, w := v[..k], v[k + 1..];
  }

  // ---------- Printable maps come back ----------

  lemma StripClean(s: string)
    requires '#' !in s
    ensures Strip(s, "#") == s
  {
    FindChar(s, '#');
  }

  lemma FindEquals(k: string, rest: string)
    requires '=' !in k
    ensures Find(k + "=" + rest, "=") == |k|
    ensures (k + "=" + rest)[..|k|] == k && (k + "=" + rest)[|k| + 1..] == rest
  {
    var line := k + "=" + rest;
    assert line[|k|..|k| + 1] == "=";
    FindLeast(line, "=", |k|);
    FindChar(line, '=');
    hide Find;
    assert forall i :: 0 <= i < |k| ==> line[i] == k[i];
  }

  /** A key line starts its entry whatever comes before it. */
  lemma KeyLine(r: Reading, k: string, rest: string)
    requires '=' !in k && '#' !in k && '#' !in rest
    ensures Feed(DEFAULT, r, k + "=" + rest) == Reading(Close(r).m, Some((k, rest)))
  {
    hide Find, Strip, Trimmed;
    var line := k + "=" + rest;
    FindEquals(k, rest);
    assert '#' !in line;
    StripClean(line);
  }

  lemma TailLine(m: Contents, key: string, v: string, l: string)
    requires GoodLine(l) && '#' !in l
    ensures Feed(DEFAULT, Reading(m, Some((key, v))), l) == Reading(m, Some((key, v + "\n" + l)))
  {
    StripClean(l);
    FindChar(l, '=');
    TrimBlank(l);
  }

  lemma Regroup(v: string, l: string, w: string)
    ensures l + "\n" + (w + "\n") == (l + "\n" + w) + "\n"
    ensures v + "\n" + l + "\n" + w == v + "\n" + (l + "\n" + w)
  {
  }

  lemma {:induction false} TailLines(m: Contents, key: string, v: string, w: string)
    requires GoodLines(w) && '#' !in w
    ensures Whole(w + "\n")
    ensures FeedText(DEFAULT, Reading(m, Some((key, v))), w + "\n") == Reading(m, Some((key, v + "\n" + w)))
    decreases |w|
  {
    hide Feed, FeedText, Whole, Find, GoodLine;
    var r := Reading(m, Some((key, v)));
    if Find(w, "\n") < 0 {
      FindChar(w, '\n');
      OneLine(DEFAULT, r, w);
      TailLine(m, key, v, w);
    } else {
      var l, w' := AtNewline(w);
      assert forall c :: c in l || c in w' ==> c in w;
      OneLine(DEFAULT, r, l);
      TailLine(m, key, v, l);
      TailLines(m, key, v + "\n" + l, w');
      FeedTextConcat(DEFAULT, r, l + "\n", w' + "\n");
      Regroup(v, l, w');
    }
  }

  function Entry(k: string, v: string): string {
    k + " " + "=" + " " + v + "\n"
  }

  lemma EntryRegroup(k: string, v: string, l: string, w: string)
    ensures Entry(k, v) == ((k + " ") + "=" + (" " + v)) + "\n"
    ensures v == l + "\n" + w ==> Entry(k, v) == (((k + " ") + "=" + (" " + l)) + "\n") + (w + "\n")
    ensures v == l + "\n" + w ==> " " + l + "\n" + w == " " + v
  {
  }

  lemma EntryText(r: Reading, k: string, v: string)
    requires GoodKey(k) && GoodValue(v)
    ensures Whole(Entry(k, v))
    ensures FeedText(DEFAULT, r, Entry(k, v)) == Reading(Close(r).m, Some((k + " ", " " + v)))
  {
    var first := k + " ";
    assert '\n' !in first && '=' !in first && '#' !in first;
    if Find(v, "\n") < 0 {
      FindChar(v, '\n');
      hide *;
      EntryRegroup(k, v, "", "");
      OneLine(DEFAULT, r, first + "=" + (" " + v));
      KeyLine(r, first, " " + v);
    } else {
      var l, w := AtNewline(v);
      assert GoodLines(w);
      hide *;
      assert forall c :: c in l || c in w ==> c in v;
      EntryRegroup(k, v, l, w);
      var line := first + "=" + (" " + l);
      KeyLine(r, first, " " + l);
      OneLine(DEFAULT, r, line);
      TailLines(Close(r).m, first, " " + l, w);
      FeedTextConcat(DEFAULT, r, line + "\n", w + "\n");
    }
  }

  lemma TrimPadded(s: string)
    requires Trimmed(s) == s
    ensures Trimmed(s + " ") == s && Trimmed(" " + s) == s
  {
    var w, w' := TrimSplit(s);
    assert " " + s + "" == " " + s && "" + s + " " == s + " ";
    TrimmedAway(" ", s, "");
    TrimmedAway("", s, " ");
  }

  lemma EntryStored(r: Reading, k: string, v: string)
    requires GoodKey(k) && GoodValue(v)
    ensures Whole(Entry(k, v))
    ensures Close(FeedText(DEFAULT, r, Entry(k, v))).m == Close(r).m[k := v]
  {
    EntryText(r, k, v);
    TrimPadded(k);
    TrimPadded(v);
  }

  lemma {:induction false} PrintText(r: Reading, order: seq<string>, m: Contents)
    requires forall k :: k in order ==> k in m && GoodKey(k) && GoodValue(m[k])
    ensures Whole(Print("=", order, m))
    ensures Close(FeedText(DEFAULT, r, Print("=", order, m))).m == Close(r).m + (map k | k in order :: m[k])
    decreases |order|
  {
    hide *;
    if order == [] {
      FeedNothing(r);
      PrintNothing(m);
    } else {
      var k, later := order[0], order[1..];
      EntryStored(r, k, m[k]);
      var r1 := FeedText(DEFAULT, r, Entry(k, m[k]));
      PrintText(r1, later, m);
      FeedTextConcat(DEFAULT, r, Entry(k, m[k]), Print("=", later, m));
      PrintStep(order, m);
      MapStep(Close(r).m, order, m);
    }
  }

  lemma MapStep(base: Contents, order: seq<string>, m: Contents)
    requires order != [] && forall k :: k in order ==> k in m
    ensures base[order[0] := m[order[0]]] + (map k | k in order[1..] :: m[k]) == base + (map k | k in order :: m[k])
  {
    assert forall j :: j in order <==> j == order[0] || j in order[1..];
  }

  lemma PrintNothing(m: Contents)
    ensures Print("=", [], m) == ""
  {
  }

  lemma PrintStep(order: seq<string>, m: Contents)
    requires order != [] && forall k :: k in order ==> k in m
    ensures Print("=", order, m) == Entry(order[0], m[order[0]]) + Print("=", order[1..], m)
  {
  }

  lemma FeedNothing(r: Reading)
    ensures Whole("") && FeedText(DEFAULT, r, "") == r
  {
  }

  lemma LoadWhole(p: string)
    requires Whole(p)
    ensures Load(DEFAULT, map[], p) == Close(FeedText(DEFAULT, Reading(map[], None), p)).m
  {
    hide FeedText, LoadFrom, Whole;
    assert p + "" == p;
    LoadAfter(DEFAULT, Reading(map[], None), p, "");
    LastLine(DEFAULT, FeedText(DEFAULT, Reading(map[], None), p), "x");
  }

  lemma PrintableComesBack(order: seq<string>, m: Contents)
    requires Printable(m) && forall k :: k in order <==> k in m
    ensures Load(DEFAULT, map[], Print("=", order, m)) == m
  {
    hide Print, FeedText, Load, GoodKey, GoodValue, Whole;
    PrintText(Reading(map[], None), order, m);
    LoadWhole(Print("=", order, m));
  }

  // ---------- Whatever is read is printable ----------

  /** What the reader has in hand: the open entry is printable but for blanks at its ends. */
  predicate GoodReading(r: Reading) {
    && Printable(r.m)
    && (r.open.Some? ==>
          var (key, v) := r.open.value;
          && '\n' !in key && '=' !in key && '#' !in key
          && '#' !in v && GoodTail(v))
  }

  lemma TrimmedChars(s: string)
    ensures forall c :: c in Trimmed(s) ==> c in s
    ensures Trimmed(Trimmed(s)) == Trimmed(s)
  {
    var w, w' := TrimSplit(s);
    TrimmedAway("", Trimmed(s), "");
    assert "" + Trimmed(s) + "" == Trimmed(s);
  }

  /** One line, or a first line and the rest. */
  lemma SplitLines(s: string) returns (one: bool, a: string, b: string)
    ensures one ==> '\n' !in s
    ensures !one ==> s == a + "\n" + b && '\n' !in a
  {
    FindChar(s, '\n');
    one, a, b := Find(s, "\n") < 0, "", "";
    if !one {
      a, b := AtNewline(s);
    }
  }

  /** A whole line more. */
  lemma {:induction false} MoreLines(s: string, l: string)
    requires GoodLines(s) && GoodLine(l) && '\n' !in l
    ensures GoodLines(s + "\n" + l)
    decreases |s|
  {
    hide *;
    var one, a, b := SplitLines(s);
    LinesOf(l, "");
    if one {
      LinesOf(s, l);
    } else {
      LinesOf(a, b);
      MoreLines(b, l);
      Regroup3(a, b, l);
      LinesOf(a, b + "\n" + l);
    }
  }

  /** Something more on the last line. */
  lemma {:induction false} LongerLine(s: string, t: string)
    requires GoodLines(s) && '\n' !in t && '=' !in t
    ensures GoodLines(s + t)
    decreases |s|
  {
    hide *;
    var one, a, b := SplitLines(s);
    if one {
      LinesOf(s, "");
      LongerGood(s, t);
      LinesOf(s + t, "");
    } else {
      LinesOf(a, b);
      LongerLine(b, t);
      Regroup3(a, b, t);
      LinesOf(a, b + t);
    }
  }

  lemma LongerGood(s: string, t: string)
    requires GoodLine(s) && '=' !in t
    ensures GoodLine(s + t)
  {
    var i :| 0 <= i < |s| && !White(s[i]);
    assert (s + t)[i] == s[i];
  }

  lemma TailOf(a: string, b: string)
    requires '\n' !in a
    ensures GoodTail(a) && (GoodTail(a + "\n" + b) <==> GoodLines(b))
  {
    hide GoodLines, Find;
    FindChar(a, '\n');
    FindNewline(a, b);
  }

  lemma GoodTailMore(v: string, l: string)
    requires GoodTail(v) && '\n' !in l && '=' !in l
    ensures GoodTail(v + l)
    ensures !Blank(l) ==> GoodTail(v + "\n" + l)
  {
    hide *;
    var one, a, b := SplitLines(v);
    if one {
      assert '\n' !in v + l;
      TailOf(v + l, "");
      if !Blank(l) {
        TailOf(v, l);
        OneGoodLine(l);
      }
    } else {
      TailOf(a, b);
      LongerLine(b, l);
      Regroup3(a, b, l);
      TailOf(a, b + l);
      if !Blank(l) {
        NoEquals(l);
        MoreLines(b, l);
        TailOf(a, b + "\n" + l);
      }
    }
  }

  lemma Regroup3(a: string, b: string, l: string)
    ensures a + "\n" + b + l == a + "\n" + (b + l)
    ensures a + "\n" + b + "\n" + l == a + "\n" + (b + "\n" + l)
  {
  }

  lemma OneGoodLine(l: string)
    requires '\n' !in l && '=' !in l && !Blank(l)
    ensures GoodLines(l)
  {
    FindChar(l, '\n');
  }

  lemma NoEquals(l: string)
    requires '=' !in l && !Blank(l)
    ensures GoodLine(l)
  {
  }

  lemma GoodTailDropFirst(v: string)
    requires GoodTail(v) && v != ""
    ensures GoodTail(v[1..])
  {
    hide GoodLine;
    var k := Find(v, "\n");
    FindChar(v, '\n');
    FindChar(v[1..], '\n');
    if k == 0 {
      assert v[0 + 1..] == v[1..];
    } else if k > 0 {
      assert v[1..][k..] == v[k + 1..];
    }
  }

  lemma LinesOf(a: string, b: string)
    requires '\n' !in a
    ensures GoodLines(a) <==> GoodLine(a)
    ensures GoodLines(a + "\n" + b) <==> GoodLine(a) && GoodLines(b)
  {
    hide GoodLine, Find;
    FindChar(a, '\n');
    FindNewline(a, b);
  }

  lemma DropLastOf(a: string, b: string)
    requires b != ""
    ensures var s := a + "\n" + b;
            s[|s| - 1] == b[|b| - 1] && s[..|s| - 1] == a + "\n" + b[..|b| - 1]
  {
  }

  lemma {:induction false} GoodLinesDropLast(s: string)
    requires GoodLines(s) && s != "" && White(s[|s| - 1])
    ensures GoodLines(s[..|s| - 1])
    decreases |s|
  {
    hide *;
    var one, a, b := SplitLines(s);
    if one {
      LinesOf(s, "");
      GoodLineDropLast(s);
      LinesOf(s[..|s| - 1], "");
    } else {
      LinesOf(a, b);
      EmptyNotGood(b);
      DropLastOf(a, b);
      GoodLinesDropLast(b);
      LinesOf(a, b[..|b| - 1]);
    }
  }

  lemma GoodLineDropLast(s: string)
    requires GoodLine(s) && s != "" && White(s[|s| - 1])
    ensures GoodLine(s[..|s| - 1])
  {
    var i :| 0 <= i < |s| && !White(s[i]);
    assert s[..|s| - 1][i] == s[i];
  }

  lemma EmptyNotGood(b: string)
    requires GoodLines(b)
    ensures b != ""
  {
  }

  lemma GoodTailDropLast(v: string)
    requires GoodTail(v) && v != "" && White(v[|v| - 1])
    ensures GoodTail(v[..|v| - 1])
  {
    hide *;
    var one, a, b := SplitLines(v);
    if one {
      TailOf(v[..|v| - 1], "");
    } else {
      TailOf(a, b);
      EmptyNotGood(b);
      DropLastOf(a, b);
      GoodLinesDropLast(b);
      TailOf(a, b[..|b| - 1]);
    }
  }

  lemma {:induction false} GoodTailTrimLeft(v: string)
    requires GoodTail(v)
    ensures GoodTail(TrimLeft(v))
  {
    hide GoodTail;
    if v != "" && White(v[0]) {
      GoodTailDropFirst(v);
      GoodTailTrimLeft(v[1..]);
    }
  }

  lemma {:induction false} GoodTailTrimRight(v: string)
    requires GoodTail(v)
    ensures GoodTail(TrimRight(v))
  {
    hide GoodTail;
    if v != "" && White(v[|v| - 1]) {
      GoodTailDropLast(v);
      GoodTailTrimRight(v[..|v| - 1]);
    }
  }

  lemma CloseKeepsGood(r: Reading)
    requires GoodReading(r)
    ensures Printable(Close(r).m) && GoodReading(Close(r))
  {
    hide GoodTail, White;
    if r.open.Some? {
      var (key, v) := r.open.value;
      TrimmedChars(key);
      TrimmedChars(v);
      GoodTailTrimLeft(v);
      GoodTailTrimRight(TrimLeft(v));
      assert GoodKey(Trimmed(key)) && GoodValue(Trimmed(v));
    }
  }

  lemma StripChars(l: string)
    ensures '#' !in Strip(l, "#")
    ensures forall c :: c in Strip(l, "#") ==> c in l
  {
    FindChar(l, '#');
  }

  lemma FeedKeepsGood(r: Reading, l: string)
    requires GoodReading(r) && '\n' !in l
    ensures GoodReading(Feed(DEFAULT, r, l))
  {
    hide GoodTail, Trimmed, Strip, Find, Printable;
    var s := Strip(l, "#");
    StripChars(l);
    FindChar(s, '=');
    if r.open.Some? && Continues(DEFAULT, l) {
      var (key, v) := r.open.value;
      GoodTailMore(v, s);
      TrimBlank(s);
      assert v + "" == v;
      assert Append(DEFAULT, v, l) == if Blank(s) then v + s else v + "\n" + s;
    } else {
      CloseKeepsGood(r);
      var k := Find(s, "=");
      if k >= 0 {
        assert '\n' !in s[k + 1..];
        NoNewlineGood(s[k + 1..]);
      }
    }
  }

  lemma NoNewlineGood(v: string)
    requires '\n' !in v
    ensures GoodTail(v)
  {
    FindChar(v, '\n');
  }

  lemma {:induction false} LoadKeepsGood(r: Reading, i: In)
    requires GoodReading(r)
    ensures Printable(LoadFrom(DEFAULT, r, i))
    decreases |i.rest|
  {
    hide GoodReading, Printable, Feed, Continues, Strip;
    CloseKeepsGood(r);
    if i.rest != "" && i.Good() {
      FindChar(i.rest, '\n');
      var (i', l) := GetLine(i, "");
      FeedKeepsGood(r, l);
      var r' := Feed(DEFAULT, r, l);
      if !i'.eof {
        LoadKeepsGood(r', i');
      } else {
        StripChars(l);
        FeedKeepsGood(r', Strip(l, "#"));
        CloseKeepsGood(r');
        CloseKeepsGood(Feed(DEFAULT, r', Strip(l, "#")));
      }
    }
  }

  /** Writing a map and reading it back gives the same map exactly when its keys and values are
      printable: trimmed, free of the comment mark, and with no line in them that the reader would
      take for the end of a value or for another entry. */
  lemma RoundTripIff(order: seq<string>, m: Contents)
    requires forall k :: k in order <==> k in m
    ensures Load(DEFAULT, map[], Print("=", order, m)) == m <==> Printable(m)
  {
    LoadKeepsGood(Reading(map[], None), In(Print("=", order, m), false, false));
    if Printable(m) {
      PrintableComesBack(order, m);
    }
  }

  /** Whatever text was read, saving the result and reading it again changes nothing. */
  lemma SavedConfigIsStable(text: string, order: seq<string>)
    requires forall k :: k in order <==> k in Load(DEFAULT, map[], text)
    ensures var m := Load(DEFAULT, map[], text);
            Load(DEFAULT, map[], Print("=", order, m)) == m
  {
    LoadKeepsGood(Reading(map[], None), In(text, false, false));
    PrintableComesBack(order, Load(DEFAULT, map[], text));
  }

  // ---------- A text without a final newline ----------

  lemma SmallTrims()
    ensures Trimmed("a") == "a" && Trimmed("1\nb") == "1\nb" && Trimmed("1\nb\nb") == "1\nb\nb"
  {
    TrimmedAway("", "a", "");
    TrimmedAway("", "1\nb", "");
    TrimmedAway("", "1\nb\nb", "");
    assert "" + "a" + "" == "a" && "" + "1\nb" + "" == "1\nb" && "" + "1\nb\nb" + "" == "1\nb\nb";
  }

  lemma SmallValues()
    ensures Close(Reading(map[], Some(("a", "1\nb")))).m == map["a" := "1\nb"]
    ensures Close(Reading(map[], Some(("a", "1\nb\nb")))).m == map["a" := "1\nb\nb"]
  {
    hide Trimmed;
    SmallTrims();
  }

  lemma SmallLines()
    ensures Feed(DEFAULT, Reading(map[], None), "a=1") == Reading(map[], Some(("a", "1")))
    ensures GoodLine("b") && Strip("b", DEFAULT.comm) == "b" && '#' !in "b" && Continues(DEFAULT, "b")
  {
    KeyLine(Reading(map[], None), "a", "1");
    assert "a" + "=" + "1" == "a=1" && !White("b"[0]);
    FindChar("b", '=');
    StripClean("b");
    TrimBlank("b");
  }

  lemma SmallTexts()
    ensures "a=1" + "\n" == "a=1\n" && "a=1\n" + "b" == "a=1\nb" && "a=1\n" + (("b" + "\n") + "") == "a=1\nb\n"
    ensures "1" + "\n" + "b" == "1\nb" && "1\nb" + "\n" + "b" == "1\nb\nb"
  {
  }

  /** The line "b" is stored once with a newline after it, and twice without. */
  lemma DoublingExample()
    ensures Load(DEFAULT, map[], "a=1\nb\n") == map["a" := "1\nb"]
    ensures Load(DEFAULT, map[], "a=1\nb") == map["a" := "1\nb\nb"]
  {
    hide *;
    var read := Reading(map[], Some(("a", "1")));
    SmallLines();
    SmallTexts();
    SmallValues();
    OneLine(DEFAULT, Reading(map[], None), "a=1");
    TailLine(map[], "a", "1", "b");
    TailLine(map[], "a", "1\nb", "b");
    LoadWith(DEFAULT, map[], "a=1\n", "b");
    LoadWith(DEFAULT, map[], "a=1\n", ("b" + "\n") + "");
    LastLine(DEFAULT, read, "b");
    OneLine(DEFAULT, read, "b");
    LoadAfter(DEFAULT, read, "b" + "\n", "");
    LastLine(DEFAULT, Feed(DEFAULT, read, "b"), "b");
    ContinuesOpen(DEFAULT, read, "b");
  }
}
