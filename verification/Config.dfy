/** The configuration reader and writer of simple_uv: `key = value` lines with comments, and
    values that continue over following lines. */
module Config {
  import opened ConfigText
  import opened Wrappers

  type Contents = map<string, string>

  datatype Syntax = Syntax(delim: string, comm: string)

  const DEFAULT := Syntax("=", "#")

  // ---------- What a text means, line by line ----------

  /** The entries stored so far, and the entry being read, not yet trimmed. */
  datatype Reading = Reading(m: Contents, open: Option<(string, string)>)

  function Close(r: Reading): Reading {
    match r.open
    case None => r
    case Some((key, value)) => Reading(r.m[Trimmed(key) := Trimmed(value)], None)
  }

  /** A line that does not continue a value: with a delimiter it starts an entry. */
  function StartLine(x: Syntax, m: Contents, line: string): Reading {
    var s := Strip(line, x.comm);
    var k := Find(s, x.delim);
    if k < 0 then Reading(m, None) else Reading(m, Some((s[..k], s[k + |x.delim|..])))
  }

  /** A non-blank line without a delimiter goes on with the value above it. */
  predicate Continues(x: Syntax, line: string) {
    Trimmed(line) != "" && !Has(Strip(line, x.comm), x.delim)
  }

  function Append(x: Syntax, value: string, line: string): string {
    var s := Strip(line, x.comm);
    value + (if Trimmed(s) != "" then "\n" else "") + s
  }

  /** What is left in the read-ahead string of a line that ends a value. */
  function Ahead(x: Syntax, line: string): string {
    if Trimmed(line) == "" then line else Strip(line, x.comm)
  }

  /** An empty delimiter is found in every line, also in an empty one; but a read-ahead string that is
      empty is not looked at again. */
  function Feed(x: Syntax, r: Reading, line: string): Reading {
    if r.open.Some? && Continues(x, line) then
      r.(open := Some((r.open.value.0, Append(x, r.open.value.1, line))))
    else if x.delim == "" && r.open.Some? && Ahead(x, line) == "" then Reading(Close(r).m, None)
    else StartLine(x, Close(r).m, line)
  }

  /** The end of the stream.  The outer loop looks at one more, empty line. */
  function Finish(x: Syntax, r: Reading, i: In): Contents {
    if x.delim == "" && r.open.None? && i.Ok() then Close(StartLine(x, r.m, "")).m else Close(r).m
  }

  /** Reading the rest of a stream.  A last line without a newline that continues a value is
      appended twice: getline leaves it in the read-ahead string when the stream has ended. */
  function LoadFrom(x: Syntax, r: Reading, i: In): Contents
    decreases |i.rest|
  {
    if i.rest == "" || !i.Good() then Finish(x, r, i)
    else
      var (i', line) := GetLine(i, "");
      var r' := Feed(x, r, line);
      if !i'.eof then LoadFrom(x, r', i')
      else if r.open.Some? && Continues(x, line) then Close(Feed(x, r', Strip(line, x.comm))).m
      else Finish(x, r', i')
  }

  function Load(x: Syntax, m: Contents, text: string): Contents {
    LoadFrom(x, Reading(m, None), In(text, false, false))
  }

  // ---------- The reader itself ----------

  predicate Stable(i: In) {
    (i.Ok() || i.eof) && (i.eof ==> i.rest == "")
  }

  /** Each getline makes this smaller. */
  function Left(i: In): nat {
    |i.rest| + (if i.fail then 0 else if i.eof then 1 else 2)
  }

  /** Outer loop: a read-ahead line, if any, is still to be looked at. */
  ghost predicate AtOuter(x: Syntax, m: Contents, nextline: string, i: In, target: Contents) {
    Stable(i) &&
    target == if nextline == "" then LoadFrom(x, Reading(m, None), i) else LoadFrom(x, StartLine(x, m, nextline), i)
  }

  /** Inner loop: once the stream has ended, the read-ahead string still holds the last line. */
  ghost predicate AtInner(x: Syntax, m: Contents, key: string, value: string, nextline: string,
                          terminate: bool, i: In, target: Contents)
  {
    var open, stored := Reading(m, Some((key, value))), m[Trimmed(key) := Trimmed(value)];
    && Stable(i)
    && (terminate ==> AtOuter(x, stored, nextline, i, target))
    && (!terminate && i.eof && nextline != "" ==> Strip(nextline, x.comm) == nextline && !Has(nextline, x.delim))
    && (!terminate ==>
          target == if i.fail then stored
                    else if i.eof then Close(Feed(x, open, nextline)).m
                    else LoadFrom(x, open, i))
  }

  lemma NoDelim(x: Syntax, m: Contents, s: string)
    requires Strip(s, x.comm) == s && !Has(s, x.delim)
    ensures StartLine(x, m, s) == Reading(m, None)
  {
  }

  /** In the empty line there is a delimiter only when that is empty. */
  lemma EmptyLine(x: Syntax, m: Contents)
    ensures Strip("", x.comm) == "" && (x.delim != "" ==> StartLine(x, m, "") == Reading(m, None))
  {
  }

  lemma FindInEmpty(sub: string)
    requires sub != ""
    ensures Find("", sub) == NPOS
  {
  }

  /** The line that ends a value, as the next turn of the outer loop sees it. */
  lemma FeedAhead(x: Syntax, m: Contents, key: string, value: string, l: string)
    requires !Continues(x, l)
    ensures Feed(x, Reading(m, Some((key, value))), l)
         == var stored := m[Trimmed(key) := Trimmed(value)];
            if Ahead(x, l) == "" then Reading(stored, None) else StartLine(x, stored, Ahead(x, l))
  {
    var stored := m[Trimmed(key) := Trimmed(value)];
    EmptyLine(x, stored);
    SameStart(x, stored, l);
    hide StartLine, Strip, Trimmed;
  }

  /** What one turn of the inner loop has to establish, in each of the three ways it can go. */
  ghost predicate TurnKeeps(x: Syntax, m: Contents, key: string, value: string, i: In, l: string, target: Contents) {
    var s := Strip(l, x.comm);
    && (Trimmed(l) == "" ==> AtInner(x, m, key, value, l, true, i, target))
    && (Trimmed(l) != "" && Has(s, x.delim) ==> AtInner(x, m, key, value, s, true, i, target))
    && (Trimmed(l) != "" && !Has(s, x.delim) ==> AtInner(x, m, key, Append(x, value, l), s, false, i, target))
  }

  /** The stream has ended with a line still in the read-ahead string. */
  lemma InnerTurnAtEof(x: Syntax, m: Contents, key: string, value: string, l: string, i: In, target: Contents)
    requires i.eof && i.Ok() && AtInner(x, m, key, value, l, false, i, target)
    ensures TurnKeeps(x, m, key, value, i.(fail := true), l, target)
  {
    var stored := m[Trimmed(key) := Trimmed(value)];
    TrimBlank("");
    hide Trimmed;
    if !Continues(x, l) {
      FeedAhead(x, m, key, value, l);
    }
    if l != "" {
      NoDelim(x, stored, l);
    }
  }

  lemma InnerTurnOnLine(x: Syntax, m: Contents, key: string, value: string, i: In, target: Contents)
    requires i.Good() && i.rest != ""
    requires target == LoadFrom(x, Reading(m, Some((key, value))), i)
    ensures var (i', l) := GetLine(i, "");
            TurnKeeps(x, m, key, value, i', l, target)
  {
    hide Trimmed, Strip, StartLine;
    var (i', l) := GetLine(i, "");
    StripTwice(l, x.comm);
    var open := Reading(m, Some((key, value)));
    if Continues(x, l) {
      assert Feed(x, open, l) == Reading(m, Some((key, Append(x, value, l))));
    } else {
      FeedAhead(x, m, key, value, l);
    }
  }

  lemma SameStart(x: Syntax, m: Contents, l: string)
    ensures StartLine(x, m, Strip(l, x.comm)) == StartLine(x, m, l)
  {
    StripTwice(l, x.comm);
  }

  /** The stream had ended with a newline. */
  lemma InnerTurnAtEnd(x: Syntax, m: Contents, key: string, value: string, i: In, target: Contents)
    requires i.Good() && i.rest == "" && target == LoadFrom(x, Reading(m, Some((key, value))), i)
    ensures GetLine(i, "") == (In("", true, true), "")
    ensures TurnKeeps(x, m, key, value, In("", true, true), "", target)
  {
    FindInEmpty("\n");
    TrimBlank("");
    hide Trimmed, Strip, StartLine, Find;
  }

  /** Every getline on a stream that has not failed comes nearer to the end. */
  lemma GetLineMoves(i: In, line: string)
    requires i.Ok()
    ensures Left(GetLine(i, line).0) < Left(i)
    ensures i.eof ==> GetLine(i, line) == (i.(fail := true), line)
    ensures !i.eof ==> GetLine(i, line) == GetLine(i, "")
  {
  }

  lemma InnerTurn(x: Syntax, m: Contents, key: string, value: string, nextline: string, i: In, target: Contents)
    requires AtInner(x, m, key, value, nextline, false, i, target) && i.Ok()
    ensures var (i', l) := GetLine(i, nextline);
            Left(i') < Left(i) && TurnKeeps(x, m, key, value, i', l, target)
  {
    assert !i.eof ==> i.Good() && target == LoadFrom(x, Reading(m, Some((key, value))), i);
    hide *;
    GetLineMoves(i, nextline);
    if i.eof {
      InnerTurnAtEof(x, m, key, value, nextline, i, target);
    } else if i.rest == "" {
      InnerTurnAtEnd(x, m, key, value, i, target);
    } else {
      InnerTurnOnLine(x, m, key, value, i, target);
    }
  }

  /** One turn of the outer loop, up to the test for a delimiter. */
  lemma OuterTurn(x: Syntax, m: Contents, i: In, target: Contents)
    requires AtOuter(x, m, "", i, target) && i.Ok()
    ensures var (i', l) := GetLine(i, "");
            Stable(i') && Left(i') < Left(i) && target == LoadFrom(x, StartLine(x, m, l), i')
  {
    hide Trimmed;
    FindInEmpty("\n");
    EmptyLine(x, m);
  }

  /** operator>>: nested read-ahead loops. */
  method Read(x: Syntax, m: Contents, text: string) returns (contents: Contents)
    ensures contents == Load(x, m, text)
  {
    hide Find, Strip, LoadFrom, GetLine, Trimmed, Stable, Left;
    var stream := In(text, false, false);
    contents := m;
    ghost var target := Load(x, m, text);
    AtStart(x, m, text);
    var nextline := "";
    while stream.Ok() || |nextline| > 0
      invariant AtOuter(x, contents, nextline, stream, target)
      decreases Left(stream), |nextline|
    {
      var line: string;
      if |nextline| > 0 {
        line := nextline;
        nextline := "";
      } else {
        OuterTurn(x, contents, stream, target);
        var (stream', l) := GetLine(stream, "");
        stream := stream';
        line := l;
      }
      line := Strip(line, x.comm);
      var delimPos := Find(line, x.delim);
      if delimPos >= 0 {
        var key := line[..delimPos];
        line := line[delimPos + |x.delim|..];
        stream, line, nextline := ReadValue(x, contents, key, line, stream, target);
        var k := Trim(key);
        var v := Trim(line);
        contents := contents[k := v];
      }
    }
    Ended(x, contents, stream);
  }

  lemma AtStart(x: Syntax, m: Contents, text: string)
    ensures AtOuter(x, m, "", In(text, false, false), Load(x, m, text))
  {
  }

  lemma Ended(x: Syntax, m: Contents, i: In)
    requires Stable(i)
    ensures !i.Ok() ==> LoadFrom(x, Reading(m, None), i) == m
  {
  }

  /** The inner loop: read on until a blank line, a line with a delimiter, or the end. */
  method ReadValue(x: Syntax, ghost m: Contents, ghost key: string, first: string, start: In, ghost target: Contents)
    returns (stream: In, line: string, nextline: string)
    requires Stable(start) && target == LoadFrom(x, Reading(m, Some((key, first))), start)
    ensures Stable(stream) && Left(stream) <= Left(start)
    ensures Left(stream) == Left(start) ==> nextline == ""
    ensures AtOuter(x, m[Trimmed(key) := Trimmed(line)], nextline, stream, target)
  {
    hide Find, Strip, LoadFrom, GetLine, Trimmed, Left, StartLine;
    stream, line, nextline := start, first, "";
    InnerStart(x, m, key, first, start, target);
    var terminate := false;
    while !terminate && stream.Ok()
      invariant AtInner(x, m, key, line, nextline, terminate, stream, target)
      invariant Left(stream) <= Left(start) && (Left(stream) == Left(start) ==> nextline == "")
      decreases Left(stream)
    {
      InnerTurn(x, m, key, line, nextline, stream, target);
      var (stream', l) := GetLine(stream, nextline);
      stream, nextline := stream', l;
      terminate := true;
      var nlcopy := Trim(nextline);
      if nlcopy == "" {
        continue;
      }
      nextline := Strip(nextline, x.comm);
      if Has(nextline, x.delim) {
        continue;
      }
      nlcopy := Trim(nextline);
      ghost var value := line;
      if nlcopy != "" {
        line := line + "\n";
      }
      line := line + nextline;
      assert line == Append(x, value, l);
      terminate := false;
    }
    InnerEnd(x, m, key, line, nextline, terminate, stream, target);
  }

  lemma InnerStart(x: Syntax, m: Contents, key: string, first: string, i: In, target: Contents)
    requires Stable(i) && target == LoadFrom(x, Reading(m, Some((key, first))), i)
    ensures AtInner(x, m, key, first, "", false, i, target)
  {
    TrimBlank("");
    hide Trimmed;
    FeedAhead(x, m, key, first, "");
  }

  lemma InnerEnd(x: Syntax, m: Contents, key: string, value: string, nextline: string, terminate: bool, i: In,
                 target: Contents)
    requires AtInner(x, m, key, value, nextline, terminate, i, target) && (terminate || !i.Ok())
    ensures AtOuter(x, m[Trimmed(key) := Trimmed(value)], nextline, i, target)
  {
    hide Trimmed;
    if !terminate && nextline != "" {
      NoDelim(x, m[Trimmed(key) := Trimmed(value)], nextline);
    }
  }

  // ---------- The writer ----------

  /** operator<< over the keys in the order the map yields them. */
  function Print(delim: string, order: seq<string>, m: Contents): string
    requires forall k :: k in order ==> k in m
  {
    if order == [] then ""
    else order[0] + " " + delim + " " + m[order[0]] + "\n" + Print(delim, order[1..], m)
  }

  class Config {
    var m_Delimiter: string
    var m_Comment: string
    var m_Contents: Contents

    constructor ()
      ensures m_Delimiter == DEFAULT.delim && m_Comment == DEFAULT.comm && m_Contents == map[]
    {
      m_Delimiter, m_Comment, m_Contents := "=", "#", map[];
    }

    method ReadFrom(text: string)
      modifies `m_Contents
      ensures m_Contents == Load(Syntax(m_Delimiter, m_Comment), old(m_Contents), text)
    {
      m_Contents := Read(Syntax(m_Delimiter, m_Comment), m_Contents, text);
    }

    method WriteTo(order: seq<string>) returns (text: string)
      requires forall k :: k in order ==> k in m_Contents
      ensures text == Print(m_Delimiter, order, m_Contents)
    {
      text := "";
      for i := 0 to |order|
        invariant text + Print(m_Delimiter, order[i..], m_Contents) == Print(m_Delimiter, order, m_Contents)
      {
        var entry := order[i] + " " + m_Delimiter + " " + m_Contents[order[i]] + "\n";
        assert order[i..][0] == order[i] && order[i..][1..] == order[i + 1..];
        assert text + (entry + Print(m_Delimiter, order[i + 1..], m_Contents))
            == text + entry + Print(m_Delimiter, order[i + 1..], m_Contents);
        text := text + entry;
      }
      assert text + "" == text;
    }
  }
}
