/** Length-prefixed message framing: the sender's frames, the incremental parser over one
    reallocated buffer, and the proof that any chunking of the stream delivers the messages sent. */
module Framing {

  newtype Byte = x: int | 0 <= x < 0x100

  const DEFAULT_SIZE: nat := 64 * 1024

  /** The largest length for which msg_size + 4 is still an int. */
  const MAX_SIZE: nat := 0x7fff_ffff - 4

  // ---------- The wire format ----------

  /** htonl, as bytes on the wire. */
  function Be32(n: nat): (s: seq<Byte>)
    requires n < 0x1_0000_0000
    ensures |s| == 4
  {
    [(n / 0x100_0000) as Byte, (n / 0x1_0000 % 0x100) as Byte, (n / 0x100 % 0x100) as Byte, (n % 0x100) as Byte]
  }

  /** ntohl of the first four bytes; a value of 2^31 or more would be a negative int. */
  function Size(s: seq<Byte>): (n: nat)
    requires 4 <= |s|
    ensures n < 0x1_0000_0000
  {
    s[0] as int * 0x100_0000 + s[1] as int * 0x1_0000 + s[2] as int * 0x100 + s[3] as int
  }

  lemma Nested(n: nat)
    ensures n / 0x1_0000 == n / 0x100 / 0x100 && n / 0x100_0000 == n / 0x100 / 0x100 / 0x100
  {
  }

  lemma LowDigit(n: nat)
    ensures n == n / 0x100 * 0x100 + n % 0x100
  {
  }

  lemma Digits(n: nat)
    ensures n / 0x100_0000 * 0x100_0000 + n / 0x1_0000 % 0x100 * 0x1_0000 + n / 0x100 % 0x100 * 0x100 + n % 0x100 == n
  {
    Nested(n);
    LowDigit(n);
    LowDigit(n / 0x100);
    LowDigit(n / 0x100 / 0x100);
  }

  lemma SizeOfBe32(n: nat, rest: seq<Byte>)
    requires n < 0x1_0000_0000
    ensures Size(Be32(n) + rest) == n
  {
    var s := Be32(n) + rest;
    assert s[0] == Be32(n)[0] && s[1] == Be32(n)[1] && s[2] == Be32(n)[2] && s[3] == Be32(n)[3];
    Digits(n);
  }

  /** The order of texts: the first byte that differs decides. */
  predicate LexLess(a: seq<Byte>, b: seq<Byte>)
    requires |a| == |b|
  {
    a != [] && (a[0] < b[0] || (a[0] == b[0] && LexLess(a[1..], b[1..])))
  }

  lemma LexFour(a: seq<Byte>, b: seq<Byte>)
    requires |a| == |b| == 4
    ensures LexLess(a, b) <==>
      || a[0] < b[0]
      || (a[0] == b[0] && a[1] < b[1])
      || (a[0] == b[0] && a[1] == b[1] && a[2] < b[2])
      || (a[0] == b[0] && a[1] == b[1] && a[2] == b[2] && a[3] < b[3])
  {
    assert a[1..][1..] == a[2..] && b[1..][1..] == b[2..];
    assert a[2..][1..] == a[3..] && b[2..][1..] == b[3..];
    assert a[3..][1..] == [] && b[3..][1..] == [];
    assert LexLess(a[3..], b[3..]) <==> a[3] < b[3];
    assert LexLess(a[2..], b[2..]) <==> a[2] < b[2] || (a[2] == b[2] && LexLess(a[3..], b[3..]));
    assert LexLess(a[1..], b[1..]) <==> a[1] < b[1] || (a[1] == b[1] && LexLess(a[2..], b[2..]));
  }

  /** Network order: two headers compare as numbers as their bytes compare from the first on. */
  lemma SizeOrder(s: seq<Byte>, t: seq<Byte>)
    requires 4 <= |s| && 4 <= |t|
    ensures Size(s) < Size(t) <==> LexLess(s[..4], t[..4])
  {
    LexFour(s[..4], t[..4]);
  }

  /** The only way to write the numbers below 2^32 on four bytes in that order is the high byte first. */
  lemma NetworkOrder(a: nat, b: nat)
    requires a < b < 0x1_0000_0000
    ensures LexLess(Be32(a), Be32(b))
  {
    SizeOfBe32(a, []);
    SizeOfBe32(b, []);
    assert Be32(a) + [] == Be32(a) && Be32(b) + [] == Be32(b);
    SizeOrder(Be32(a), Be32(b));
    assert Be32(a)[..4] == Be32(a) && Be32(b)[..4] == Be32(b);
  }

  /** The bytes on the wire for two bytes, and the header of 256 bytes. */
  lemma FrameExamples(m: seq<Byte>)
    requires |m| == 256
    ensures Frame([7, 8]) == [0, 0, 0, 2, 7, 8]
    ensures Frame(m) == [0, 0, 1, 0] + m
    ensures MAX_SIZE == 0x7fff_fffb && DEFAULT_SIZE == 65536
  {
  }

  function Frame(m: seq<Byte>): seq<Byte>
    requires |m| <= MAX_SIZE
  {
    Be32(|m|) + m
  }

  /** uv_msg_send: what goes to the stream, or nothing for a size the sender refuses. */
  datatype Sent = Refused | Written(bytes: seq<Byte>)

  function Send(m: seq<Byte>): (r: Sent)
    requires |m| <= MAX_SIZE
  {
    if m == [] then Refused else Written(Frame(m))
  }

  /** Everything that sending the messages one after the other puts on the stream. */
  function Stream(ms: seq<seq<Byte>>): seq<Byte>
    requires forall m :: m in ms ==> |m| <= MAX_SIZE
  {
    if ms == [] then []
    else
      match Send(ms[0])
      case Refused => Stream(ms[1..])
      case Written(bytes) => bytes + Stream(ms[1..])
  }

  /** The messages that the sender does not refuse. */
  function Accepted(ms: seq<seq<Byte>>): seq<seq<Byte>> {
    if ms == [] then [] else (if ms[0] == [] then [] else [ms[0]]) + Accepted(ms[1..])
  }

  /** Exactly the empty messages are refused, and the order stays. */
  lemma {:induction false} AcceptedLaws(a: seq<seq<Byte>>, b: seq<seq<Byte>>, m: seq<Byte>)
    ensures Accepted(a + b) == Accepted(a) + Accepted(b)
    ensures Accepted([]) == Accepted([[]]) == []
    ensures m != [] ==> Accepted([m]) == [m]
  {
    if a == [] {
      assert a + b == b;
    } else {
      assert (a + b)[1..] == a[1..] + b;
      AcceptedLaws(a[1..], b, m);
    }
  }

  // ---------- What a byte stream means ----------

  /** No complete frame at the front. */
  predicate Incomplete(s: seq<Byte>) {
    |s| < 4 || |s| < 4 + Size(s)
  }

  datatype Parsed = Parsed(msgs: seq<seq<Byte>>, rest: seq<Byte>)

  function Parse(s: seq<Byte>): (p: Parsed)
    decreases |s|
  {
    if Incomplete(s) then Parsed([], s)
    else
      var n := 4 + Size(s);
      var p := Parse(s[n..]);
      Parsed([s[4..n]] + p.msgs, p.rest)
  }

  /** Every length prefix met while parsing is one that `int entire = msg_size + 4` can hold. */
  predicate PrefixesFit(s: seq<Byte>)
    decreases |s|
  {
    |s| < 4 || (Size(s) <= MAX_SIZE && (Incomplete(s) || PrefixesFit(s[4 + Size(s)..])))
  }

  lemma {:induction false} ParseMore(a: seq<Byte>, b: seq<Byte>)
    ensures Parse(a + b).msgs == Parse(a).msgs + Parse(Parse(a).rest + b).msgs
    ensures Parse(a + b).rest == Parse(Parse(a).rest + b).rest
    decreases |a|
  {
    if !Incomplete(a) {
      var n := 4 + Size(a);
      assert (a + b)[n..] == a[n..] + b;
      assert (a + b)[4..n] == a[4..n];
      ParseMore(a[n..], b);
    }
  }

  lemma ParseFrame(m: seq<Byte>, later: seq<Byte>)
    requires |m| <= MAX_SIZE
    ensures Parse(Frame(m) + later) == Parsed([m] + Parse(later).msgs, Parse(later).rest)
  {
    var s := Frame(m) + later;
    assert s == Be32(|m|) + (m + later);
    SizeOfBe32(|m|, m + later);
    assert |s| >= 4 + |m|;
    hide Be32, Size;
    assert s[4..4 + |m|] == m;
    assert s[4 + |m|..] == later;
  }

  lemma StreamStep(ms: seq<seq<Byte>>)
    requires ms != [] && forall m :: m in ms ==> |m| <= MAX_SIZE
    ensures ms[0] == [] ==> Stream(ms) == Stream(ms[1..]) && Accepted(ms) == Accepted(ms[1..])
    ensures ms[0] != [] ==> Stream(ms) == Frame(ms[0]) + Stream(ms[1..]) && Accepted(ms) == [ms[0]] + Accepted(ms[1..])
  {
    hide Frame;
  }

  lemma Regroup(a: seq<Byte>, b: seq<Byte>, c: seq<Byte>)
    ensures a + b + c == a + (b + c)
  {
  }

  /** Parsing undoes framing: the messages come back, and a partial frame stays pending. */
  lemma {:induction false} ParseStream(ms: seq<seq<Byte>>, tail: seq<Byte>)
    requires forall m :: m in ms ==> |m| <= MAX_SIZE
    requires Incomplete(tail)
    ensures Parse(Stream(ms) + tail) == Parsed(Accepted(ms), tail)
  {
    if ms == [] {
      assert [] + tail == tail;
    } else {
      hide *;
      assert forall m :: m in ms[1..] ==> m in ms;
      StreamStep(ms);
      ParseStream(ms[1..], tail);
      if ms[0] != [] {
        Regroup(Frame(ms[0]), Stream(ms[1..]), tail);
        ParseFrame(ms[0], Stream(ms[1..]) + tail);
      }
    }
  }

  lemma {:induction false} StreamFits(ms: seq<seq<Byte>>, k: nat)
    requires forall m :: m in ms ==> |m| <= MAX_SIZE
    requires k <= |Stream(ms)|
    ensures PrefixesFit(Stream(ms)[..k])
  {
    var s := Stream(ms)[..k];
    if ms != [] && ms[0] == [] {
      StreamFits(ms[1..], k);
    } else if ms != [] && k >= 4 {
      var m, later := ms[0], Stream(ms[1..]);
      assert Stream(ms) == Be32(|m|) + (m + later);
      SizeOfBe32(|m|, m + later);
      assert Size(s) == Size(Stream(ms));
      if k >= 4 + |m| {
        assert s[4 + |m|..] == later[..k - 4 - |m|];
        StreamFits(ms[1..], k - 4 - |m|);
      }
    }
  }

  lemma {:induction false} FitsMore(a: seq<Byte>, b: seq<Byte>)
    requires PrefixesFit(a + b)
    ensures PrefixesFit(a) && PrefixesFit(Parse(a).rest + b)
    decreases |a|
  {
    if !Incomplete(a) {
      var n := 4 + Size(a);
      assert (a + b)[n..] == a[n..] + b;
      FitsMore(a[n..], b);
    }
  }

  // ---------- Chunks ----------

  /** One read: what is delivered so far and what is pending, after chunk c arrives. */
  function Feed(p: Parsed, c: seq<Byte>): Parsed {
    var q := Parse(p.rest + c);
    Parsed(p.msgs + q.msgs, q.rest)
  }

  function FeedAll(p: Parsed, chunks: seq<seq<Byte>>): Parsed
    decreases |chunks|
  {
    if chunks == [] then p else FeedAll(Feed(p, chunks[0]), chunks[1..])
  }

  function Concat(chunks: seq<seq<Byte>>): seq<Byte> {
    if chunks == [] then [] else chunks[0] + Concat(chunks[1..])
  }

  lemma FeedIsParse(a: seq<Byte>, c: seq<Byte>)
    ensures Feed(Parse(a), c) == Parse(a + c)
  {
    ParseMore(a, c);
  }

  lemma {:induction false} FeedAllIsParse(a: seq<Byte>, chunks: seq<seq<Byte>>)
    ensures FeedAll(Parse(a), chunks) == Parse(a + Concat(chunks))
    decreases |chunks|
  {
    hide Parse, Feed;
    if chunks == [] {
      assert a + [] == a;
    } else {
      FeedIsParse(a, chunks[0]);
      FeedAllIsParse(a + chunks[0], chunks[1..]);
      assert a + chunks[0] + Concat(chunks[1..]) == a + Concat(chunks);
    }
  }

  /** However the stream of what was sent is cut: exactly the accepted messages, in order, and the
      unfinished frame stays in the buffer. */
  lemma AnyChunking(ms: seq<seq<Byte>>, tail: seq<Byte>, chunks: seq<seq<Byte>>)
    requires forall m :: m in ms ==> |m| <= MAX_SIZE
    requires Incomplete(tail) && Concat(chunks) == Stream(ms) + tail
    ensures FeedAll(Parsed([], []), chunks) == Parsed(Accepted(ms), tail)
  {
    FeedAllIsParse([], chunks);
    assert [] + Concat(chunks) == Concat(chunks);
    ParseStream(ms, tail);
  }

  /** At every moment the messages delivered are a prefix of those accepted. */
  lemma DeliveredIsPrefix(ms: seq<seq<Byte>>, received: seq<Byte>)
    requires forall m :: m in ms ==> |m| <= MAX_SIZE
    requires received <= Stream(ms)
    ensures Parse(received).msgs <= Accepted(ms)
    ensures PrefixesFit(received)
  {
    var later := Stream(ms)[|received|..];
    assert received + later == Stream(ms) + [];
    ParseStream(ms, []);
    ParseMore(received, later);
    StreamFits(ms, |received|);
    assert Stream(ms)[..|received|] == received;
  }

  /** From `before`, delivering `now` and parsing cur is delivering what is in all. */
  predicate Delivers(before: seq<seq<Byte>>, all: seq<Byte>, now: seq<seq<Byte>>, cur: seq<Byte>) {
    now + Parse(cur).msgs == before + Parse(all).msgs && Parse(cur).rest == Parse(all).rest
  }

  lemma DeliversOne(before: seq<seq<Byte>>, all: seq<Byte>, now: seq<seq<Byte>>, cur: seq<Byte>, n: nat)
    requires Delivers(before, all, now, cur) && !Incomplete(cur) && n == 4 + Size(cur)
    ensures Delivers(before, all, now + [cur[4..n]], cur[n..])
  {
    ParseOne(cur);
    hide Parse, Size;
    var m, later := cur[4..n], Parse(cur[n..]).msgs;
    assert now + [m] + later == now + ([m] + later);
  }

  lemma DeliversAll(before: seq<seq<Byte>>, all: seq<Byte>)
    ensures Delivers(before, all, before, all)
  {
  }

  lemma DeliversNoMore(before: seq<seq<Byte>>, all: seq<Byte>, now: seq<seq<Byte>>, cur: seq<Byte>)
    requires Delivers(before, all, now, cur) && Incomplete(cur)
    ensures now == before + Parse(all).msgs && cur == Parse(all).rest
  {
    ParseOne(cur);
    hide Parse;
    assert now + [] == now;
  }

  lemma FrameOff(cur: seq<Byte>, n: nat)
    requires PrefixesFit(cur) && !Incomplete(cur) && n == 4 + Size(cur)
    ensures n <= |cur| && PrefixesFit(cur[n..])
  {
    hide Parse;
  }

  /** One frame handed over; the cursor moves unless it was the last. */
  lemma DispatchTurn(before: seq<seq<Byte>>, all: seq<Byte>, now: seq<seq<Byte>>, a: seq<Byte>, ptr: nat, filled: nat,
                     entire: nat)
    requires 4 <= entire <= filled && ptr + filled <= |a| && entire == 4 + Size(a[ptr..ptr + filled])
    requires Delivers(before, all, now, a[ptr..ptr + filled]) && PrefixesFit(a[ptr..ptr + filled])
    ensures var ptr' := if filled > entire then ptr + entire else ptr;
      var rest := a[ptr'..ptr' + (filled - entire)];
      Delivers(before, all, now + [a[ptr + 4..ptr + entire]], rest) && PrefixesFit(rest)
  {
    var cur := a[ptr..ptr + filled];
    assert !Incomplete(cur);
    hide *;
    FrameOff(cur, entire);
    DeliversOne(before, all, now, cur, entire);
    SubSlice(a, ptr, filled, entire);
    var ptr' := if filled > entire then ptr + entire else ptr;
    assert cur[entire..] == a[ptr'..ptr' + (filled - entire)];
    assert cur[4..entire] == a[ptr + 4..ptr + entire];
  }

  // ---------- The parser ----------

  datatype Window = NoBuffer | Window(base: nat, len: nat)

  class uv_msg_t {
    var buf: array?<Byte>
    var alloc_size: nat
    var filled: nat
    /** The messages handed to msg_read_cb. */
    var delivered: seq<seq<Byte>>
    /** All bytes read from the stream. */
    ghost var received: seq<Byte>

    function Pending(): seq<Byte>
      reads this, buf
      requires buf != null ==> filled <= buf.Length
    {
      if buf == null then [] else buf[..filled]
    }

    ghost predicate Valid()
      reads this, buf
    {
      && (buf == null ==> filled == 0 && alloc_size == 0)
      && (buf != null ==> alloc_size == buf.Length)
      && filled <= alloc_size
      && PrefixesFit(received)
      && Parse(received) == Parsed(delivered, Pending())
    }

    constructor ()
      ensures Valid() && delivered == [] && received == [] && buf == null
    {
      buf := null;
      alloc_size, filled := 0, 0;
      delivered, received := [], [];
    }

    method FreeBuffer()
      modifies `buf, `alloc_size
      ensures buf == null && alloc_size == 0
    {
      buf := null;
      alloc_size := 0;
    }

    /** `granted` is the size alloc_cb comes back with; a negative one means no memory. */
    method Realloc(suggested: nat, granted: int) returns (ok: bool)
      requires Valid() && buf != null && filled <= suggested
      modifies this
      ensures Valid() && ok == (granted >= suggested)
      ensures ok ==> fresh(buf) && alloc_size == granted
      ensures !ok ==> buf == old(buf) && alloc_size == old(alloc_size)
      ensures Pending() == old(Pending()) && filled == old(filled)
      ensures delivered == old(delivered) && received == old(received)
    {
      if granted < 0 || granted < suggested {
        return false;
      }
      var base := new Byte[granted];
      forall i | 0 <= i < filled {
        base[i] := buf[i];
      }
      assert base[..filled] == buf[..filled];
      buf := base;
      alloc_size := granted;
      return true;
    }

    /** uv_stream_msg_alloc: where the stream may write next.  `first` and `second` are the sizes
        of the allocations it may ask for. */
    method Alloc(first: int, second: int) returns (w: Window)
      requires Valid()
      modifies this
      ensures Valid() && Pending() == old(Pending()) && filled == old(filled)
      ensures delivered == old(delivered) && received == old(received)
      ensures buf == old(buf) || (buf != null && fresh(buf))
      ensures w.Window? ==> w.base == filled && 0 < w.len && w.base + w.len <= alloc_size && buf != null
      ensures w.Window? && filled >= 4 ==> w.base + w.len == 4 + Size(Pending())
      ensures w.Window? && filled < 4 ==> w.base + w.len == alloc_size
      ensures w.Window? && filled >= 4 ==>
                alloc_size == if 4 + Size(Pending()) <= old(alloc_size) then old(alloc_size) else second
      ensures w.Window? && filled < 4 ==>
                var size := if old(buf) == null then first else old(alloc_size);
                alloc_size == if size >= 4 then size else second
      ensures filled >= 4 ==>
                (w.Window? <==> 4 + Size(old(Pending())) <= old(alloc_size) || 4 + Size(old(Pending())) <= second)
      ensures filled < 4 ==>
                var size := if old(buf) == null then first else old(alloc_size);
                (w.Window? <==> size >= 4 || (size >= 0 && second >= DEFAULT_SIZE))
    {
      StillIncomplete(received);
      if buf == null {
        if first < 0 {
          return NoBuffer;
        }
        buf := new Byte[first];
        alloc_size := first;
        assert buf[..0] == [];
      }
      var len: nat;
      if filled >= 4 {
        var msg_size := Size(buf[..filled]);
        var entire := msg_size + 4;
        if alloc_size < entire {
          var ok := Realloc(entire, second);
          if !ok {
            return NoBuffer;
          }
        }
        len := entire - filled;
      } else {
        if alloc_size < 4 {
          var ok := Realloc(DEFAULT_SIZE, second);
          if !ok {
            return NoBuffer;
          }
        }
        len := alloc_size - filled;
      }
      return Window(filled, len);
    }

    /** The cursor loop: hand over every complete frame at the front of buf[..filled]. */
    method Dispatch() returns (ptr: nat)
      requires buf != null && filled <= buf.Length
      requires PrefixesFit(buf[..filled])
      modifies `filled, `delivered
      ensures ptr + filled <= buf.Length
      ensures var p := Parse(old(buf[..filled]));
              delivered == old(delivered) + p.msgs && buf[ptr..ptr + filled] == p.rest
    {
      hide Parse, PrefixesFit, Size, Delivers;
      DeliversAll(delivered, buf[..filled]);
      ptr := 0;
      ghost var a := buf[..];
      ghost var all := a[..filled];
      ghost var before := delivered;
      assert a[0..0 + filled] == all;
      while filled >= 4
        invariant ptr + filled <= buf.Length && PrefixesFit(a[ptr..ptr + filled])
        invariant Delivers(before, all, delivered, a[ptr..ptr + filled])
        decreases filled
      {
        assert buf[ptr..ptr + filled] == a[ptr..ptr + filled];
        var msg_size := Size(buf[ptr..ptr + filled]);
        var entire := msg_size + 4;
        if filled < entire {
          break;
        }
        assert buf[ptr + 4..ptr + entire] == a[ptr + 4..ptr + entire];
        DispatchTurn(before, all, delivered, a, ptr, filled, entire);
        delivered := delivered + [buf[ptr + 4..ptr + entire]];
        if filled > entire {
          ptr := ptr + entire;
        }
        filled := filled - entire;
      }
      DeliversNoMore(before, all, delivered, a[ptr..ptr + filled]);
      assert buf[ptr..ptr + filled] == a[ptr..ptr + filled];
    }

    /** The stream puts what it read behind the bytes already there. */
    method Fill(bytes: seq<Byte>)
      requires buf != null && filled + |bytes| <= buf.Length
      modifies buf
      ensures buf[..filled + |bytes|] == old(buf[..filled]) + bytes
    {
      forall i | 0 <= i < |bytes| {
        buf[filled + i] := bytes[i];
      }
    }

    /** uv_stream_msg_read with nread >= 0, after the stream has put `bytes` into the window. */
    method Read(bytes: seq<Byte>)
      requires Valid() && buf != null && filled + |bytes| <= alloc_size
      requires PrefixesFit(received + bytes)
      modifies this, buf
      ensures Valid() && received == old(received) + bytes
      ensures Parsed(delivered, Pending()) == Feed(Parsed(old(delivered), old(Pending())), bytes)
      ensures bytes != [] ==> (buf == null <==> filled == 0)
      ensures buf != null ==> buf == old(buf)
    {
      if |bytes| == 0 {
        NothingRead(received, Pending(), bytes);
        ReadMeans(received, delivered, Pending(), bytes);
        return;
      }
      hide *;
      ReadSome(bytes);
    }

    method ReadSome(bytes: seq<Byte>)
      requires Valid() && buf != null && filled + |bytes| <= alloc_size
      requires PrefixesFit(received + bytes) && bytes != []
      modifies this, buf
      ensures Valid() && received == old(received) + bytes
      ensures Parsed(delivered, Pending()) == Feed(Parsed(old(delivered), old(Pending())), bytes)
      ensures buf == null <==> filled == 0
      ensures buf != null ==> buf == old(buf)
    {
      ghost var want := Pending() + bytes;
      ReadMeans(received, delivered, Pending(), bytes);
      hide Parse, PrefixesFit, Feed;
      Fill(bytes);
      received := received + bytes;
      filled := filled + |bytes|;
      assert buf[..filled] == want;
      var ptr := Dispatch();
      Settle(ptr);
      assert Pending() == Parse(want).rest;
    }

    /** One round of the loop thread: a window, and as many of the next bytes as arrived and fit in. */
    method OneRead(ghost ms: seq<seq<Byte>>, stream: seq<Byte>, taken: nat, grant: (int, int), arrived: nat)
        returns (more: bool, n: nat)
      requires Valid() && taken <= |stream| && received == stream[..taken]
      requires (forall m :: m in ms ==> |m| <= MAX_SIZE) && stream == Stream(ms)
      modifies this, if buf == null then {} else {buf}
      ensures Valid() && taken + n <= |stream| && received == stream[..taken + n]
      ensures buf == null || buf == old(buf) || fresh(buf)
    {
      hide *;
      n := 0;
      var w := Alloc(grant.0, grant.1);
      more := w.Window?;
      if more {
        n := if arrived < w.len then arrived else w.len;
        n := if n < |stream| - taken then n else |stream| - taken;
        NextPiece(ms, stream, taken, n);
        Read(stream[taken..taken + n]);
      }
    }

    /** uv_stream_msg_read with nread < 0.  `filled` is not reset, so the parser can go on exactly
        when no partial frame was pending. */
    method ReadError()
      requires Valid()
      modifies `buf, `alloc_size
      ensures buf == null && alloc_size == 0
      ensures Valid() <==> filled == 0
    {
      FreeBuffer();
      assert filled == 0 ==> old(Pending()) == [];
    }

    /** What Alloc and Read then do, with a new buffer large enough for the frame that its old contents
        seem to begin: whatever stood at its start counts as read. */
    method ReadAfterError(heap: seq<Byte>, bytes: seq<Byte>)
      requires buf == null && filled > 0 && bytes != [] && filled + |bytes| <= |heap|
      requires filled >= 4 ==> filled + |bytes| <= 4 + Size(heap) <= |heap|
      requires PrefixesFit(heap[..filled] + bytes)
      modifies this
      ensures delivered == old(delivered) + Parse(heap[..old(filled)] + bytes).msgs
      ensures received == old(received) + bytes
    {
      hide Parse, PrefixesFit, Size;
      buf := new Byte[|heap|](i requires 0 <= i < |heap| => heap[i]);
      alloc_size := |heap|;
      assert buf[..filled] == heap[..filled];
      Fill(bytes);
      received := received + bytes;
      ghost var stale := heap[..filled] + bytes;
      filled := filled + |bytes|;
      assert buf[..filled] == stale;
      var ptr := Dispatch();
      Settle(ptr);
    }

    /** After the loop: move what is left to the front, or release an empty buffer. */
    method Settle(ptr: nat)
      requires buf != null && ptr + filled <= buf.Length
      modifies `buf, `alloc_size, buf
      ensures filled != 0 ==> buf == old(buf) && buf[..filled] == old(buf[ptr..ptr + filled])
      ensures filled != 0 ==> alloc_size == old(alloc_size)
      ensures filled == 0 ==> buf == null && alloc_size == 0
    {
      if ptr > 0 && filled > 0 {
        MemMove(buf, ptr, filled);
      } else if filled == 0 {
        FreeBuffer();
      }
    }
  }

  lemma SubSlice(a: seq<Byte>, ptr: nat, n: nat, k: nat)
    requires ptr + n <= |a| && 4 <= k <= n
    ensures a[ptr..ptr + n][4..k] == a[ptr + 4..ptr + k]
    ensures a[ptr..ptr + n][k..] == a[ptr + k..ptr + n]
    ensures k == n ==> a[ptr..ptr + n][k..] == a[ptr..ptr]
  {
    var x := a[ptr..ptr + n];
    forall i | 0 <= i < k - 4
      ensures x[4..k][i] == a[ptr + 4..ptr + k][i]
    {
      assert x[4 + i] == a[ptr + (4 + i)];
    }
  }

  /** What one read has to deliver and to keep. */
  lemma ReadMeans(received: seq<Byte>, delivered: seq<seq<Byte>>, pending: seq<Byte>, bytes: seq<Byte>)
    requires PrefixesFit(received + bytes) && Parse(received) == Parsed(delivered, pending)
    ensures PrefixesFit(pending + bytes)
    ensures var p := Parse(pending + bytes);
      && Parse(received + bytes) == Parsed(delivered + p.msgs, p.rest)
      && Feed(Parsed(delivered, pending), bytes) == Parsed(delivered + p.msgs, p.rest)
  {
    FeedIsParse(received, bytes);
    FitsMore(received, bytes);
    hide Parse, PrefixesFit;
  }

  lemma NothingRead(received: seq<Byte>, pending: seq<Byte>, bytes: seq<Byte>)
    requires bytes == [] && pending == Parse(received).rest
    ensures received + bytes == received && pending + bytes == pending
    ensures Parse(pending) == Parsed([], pending)
  {
    StillIncomplete(received);
    ParseOne(pending);
  }

  lemma ParseOne(s: seq<Byte>)
    ensures Incomplete(s) ==> Parse(s) == Parsed([], s)
    ensures !Incomplete(s) ==>
              var n := 4 + Size(s);
              && Parse(s) == Parsed([s[4..n]] + Parse(s[n..]).msgs, Parse(s[n..]).rest)
              && (PrefixesFit(s) ==> PrefixesFit(s[n..]))
  {
  }

  method MemMove(a: array<Byte>, src: nat, n: nat)
    requires src + n <= a.Length
    modifies a
    ensures a[..n] == old(a[src..src + n])
  {
    forall i | 0 <= i < n {
      a[i] := a[src + i];
    }
  }

  lemma {:induction false} StillIncomplete(s: seq<Byte>)
    ensures Incomplete(Parse(s).rest)
    ensures PrefixesFit(s) ==> PrefixesFit(Parse(s).rest)
    decreases |s|
  {
    if !Incomplete(s) {
      StillIncomplete(s[4 + Size(s)..]);
    }
  }

  // ---------- Clients ----------

  /** A stream of messages in any number of turns: each time a window is asked for, with whatever the
      allocator grants, and filled with as many bytes as arrive. Without a window reading stops. */
  method Receive(ghost ms: seq<seq<Byte>>, stream: seq<Byte>, grants: seq<(int, int)>, arrivals: seq<nat>)
      returns (c: uv_msg_t, taken: nat)
    requires (forall m :: m in ms ==> |m| <= MAX_SIZE) && stream == Stream(ms) && |grants| == |arrivals|
    ensures c.Valid() && taken <= |stream| && c.received == stream[..taken]
    ensures c.delivered == Parse(stream[..taken]).msgs <= Accepted(ms)
    ensures taken == |stream| ==> c.delivered == Accepted(ms) && c.filled == 0
  {
    c := new uv_msg_t();
    taken := 0;
    var i := 0;
    hide *;
    while i < |grants|
      invariant 0 <= i <= |grants| && fresh(c) && (c.buf != null ==> fresh(c.buf))
      invariant c.Valid() && taken <= |stream| && c.received == stream[..taken]
    {
      var more, n := c.OneRead(ms, stream, taken, grants[i], arrivals[i]);
      taken := taken + n;
      if !more {
        break;
      }
      i := i + 1;
    }
    Received(c, c.received);
    WholeStream(ms, stream, taken);
  }

  lemma Received(c: uv_msg_t, received: seq<Byte>)
    requires c.Valid() && c.received == received
    ensures c.delivered == Parse(received).msgs && |Parse(received).rest| == c.filled
  {
  }

  lemma NextPiece(ms: seq<seq<Byte>>, stream: seq<Byte>, taken: nat, n: nat)
    requires (forall m :: m in ms ==> |m| <= MAX_SIZE) && stream == Stream(ms) && taken + n <= |stream|
    ensures stream[..taken + n] == stream[..taken] + stream[taken..taken + n]
    ensures PrefixesFit(stream[..taken] + stream[taken..taken + n])
  {
    hide *;
    assert stream[..taken + n] == stream[..taken] + stream[taken..taken + n];
    DeliveredIsPrefix(ms, stream[..taken + n]);
  }

  lemma WholeStream(ms: seq<seq<Byte>>, stream: seq<Byte>, taken: nat)
    requires (forall m :: m in ms ==> |m| <= MAX_SIZE) && stream == Stream(ms) && taken <= |stream|
    ensures Parse(stream[..taken]).msgs <= Accepted(ms)
    ensures taken == |stream| ==> Parse(stream[..taken]) == Parsed(Accepted(ms), [])
  {
    assert Incomplete([]);
    hide *;
    DeliveredIsPrefix(ms, stream[..taken]);
    ParseStream(ms, []);
    assert stream[..|stream|] == stream && stream + [] == stream;
  }

  /** The stream carried 0 0 0 2 1, an error, and 5. Delivered is a message whose first byte was never
      on the stream. */
  method StaleExample() returns (c: uv_msg_t)
    ensures c.received == [0, 0, 0, 2, 1, 5] && c.delivered == [[99, 5]]
  {
    c := new uv_msg_t();
    var w := c.Alloc(64, 0);
    var first: seq<Byte> := [0, 0, 0, 2, 1];
    Partial(first);
    assert [] + first == first;
    c.Read(first);
    c.ReadError();
    var heap: seq<Byte> := [0, 0, 0, 2, 99, 0];
    OneFrame(heap[..5] + [5]);
    c.ReadAfterError(heap, [5]);
  }

  lemma Partial(s: seq<Byte>)
    requires s == [0, 0, 0, 2, 1]
    ensures PrefixesFit(s) && Parse(s) == Parsed([], s)
  {
  }

  lemma OneFrame(s: seq<Byte>)
    requires s == [0, 0, 0, 2, 99, 5]
    ensures PrefixesFit(s) && Parse(s) == Parsed([[99, 5]], [])
  {
    assert s[4..6] == [99, 5] && s[6..] == [];
    assert Parse([]) == Parsed([], []);
  }
}
