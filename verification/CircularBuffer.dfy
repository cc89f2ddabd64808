/** The circular buffer of simple_uv: one array, two positions and separate empty and full flags,
    proved to be a bounded first-in-first-out sequence. */
module CircularBuffer {

  function Min(a: int, b: int): (m: int)
    ensures m <= a && m <= b && (m == a || m == b)
  {
    if a <= b then a else b
  }

  /** How many of `count` items can be moved when there is room for `room`: all, or as many as fit. */
  function Moved(count: int, room: nat): (n: nat)
    ensures n <= room && (count <= 0 ==> n == 0)
    ensures 0 < count ==> n <= count && (n == count || n == room)
  {
    if count <= 0 then 0 else Min(count, room)
  }

  // ---------- Arcs of a circular array ----------

  /** The items from position r up to position w, going round; r == w is the whole circle unless
      `empty` says otherwise. */
  ghost function Arc<T>(a: seq<T>, r: int, w: int, empty: bool): seq<T>
    requires 0 <= r < |a| && 0 <= w < |a|
  {
    if empty then [] else if r < w then a[r..w] else a[r..] + a[..w]
  }

  ghost function Overwrite<T>(a: seq<T>, at: int, s: seq<T>): (a': seq<T>)
    requires 0 <= at && at + |s| <= |a|
    ensures |a'| == |a|
  {
    a[..at] + s + a[at + |s|..]
  }

  lemma PutStraight<T>(a: seq<T>, r: int, w: int, empty: bool, s: seq<T>)
    requires 0 <= r < |a| && 0 <= w < |a| && (r == w <==> empty)
    requires 0 < |s| && w + |s| < |a| && (w < r ==> w + |s| <= r)
    ensures Arc(Overwrite(a, w, s), r, w + |s|, false) == Arc(a, r, w, empty) + s
  {
    var a' := Overwrite(a, w, s);
    if r <= w {
      assert a'[r..w + |s|] == a[r..w] + s;
    } else {
      assert a'[r..] == a[r..];
      assert a'[..w + |s|] == a[..w] + s;
    }
  }

  lemma PutWrapped<T>(a: seq<T>, r: int, w: int, empty: bool, s: seq<T>, t: seq<T>)
    requires 0 <= r < |a| && 0 <= w < |a| && (r == w <==> empty) && r <= w
    requires w + |s| == |a| && |t| <= r
    ensures Arc(Overwrite(Overwrite(a, w, s), 0, t), r, |t|, false) == Arc(a, r, w, empty) + (s + t)
  {
    var a' := Overwrite(Overwrite(a, w, s), 0, t);
    assert a'[..|t|] == t;
    assert a'[r..] == a[r..w] + s;
  }

  lemma TakeStraight<T>(a: seq<T>, r: int, w: int, c: int)
    requires 0 <= r < |a| && 0 <= w < |a|
    requires 0 < c && r + c < |a| && (r < w ==> c <= w - r)
    ensures Arc(a, r, w, false) == a[r..r + c] + Arc(a, r + c, w, r + c == w)
  {
  }

  lemma TakeWrapped<T>(a: seq<T>, r: int, left: int, w: int, k: int)
    requires 0 <= w <= r < |a| && 0 <= k <= w && r + left == |a|
    ensures Arc(a, r, w, false) == a[r..r + left] + a[0..0 + k] + Arc(a, k, w, k == w)
  {
    assert a[r..r + left] == a[r..] && a[0..0 + k] == a[..k];
    assert a[..w] == a[..k] + a[k..w];
  }

  class CPodCircularBuffer<T(0)> {
    var m_bEmpty: bool
    var m_bFull: bool
    const m_pBuf: array<T>
    var m_nReadPos: int
    var m_nWritePos: int

    ghost predicate Valid()
      reads this
    {
      && 0 <= m_nReadPos < m_pBuf.Length
      && 0 <= m_nWritePos < m_pBuf.Length
      && (m_nReadPos == m_nWritePos <==> m_bEmpty || m_bFull)
      && !(m_bEmpty && m_bFull)
    }

    /** What is stored, oldest first. */
    ghost function Contents(): seq<T>
      requires Valid()
      reads this, m_pBuf
    {
      Arc(m_pBuf[..], m_nReadPos, m_nWritePos, m_bEmpty)
    }

    constructor (capacity: int)
      requires 0 < capacity
      ensures Valid() && Contents() == [] && m_pBuf.Length == capacity && fresh(m_pBuf)
    {
      m_pBuf := new T[capacity];
      m_nReadPos, m_nWritePos := 0, 0;
      m_bEmpty, m_bFull := true, false;
    }

    method Full() returns (full: bool)
      requires Valid()
      ensures full <==> |Contents()| == m_pBuf.Length
    {
      full := m_bFull;
    }

    method Empty() returns (empty: bool)
      requires Valid()
      ensures empty <==> Contents() == []
    {
      empty := m_bEmpty;
      assert !empty ==> |Contents()| > 0;
    }

    method Clear()
      requires Valid()
      modifies this
      ensures Valid() && Contents() == []
    {
      m_nReadPos, m_nWritePos := 0, 0;
      m_bEmpty, m_bFull := true, false;
    }

    method Size() returns (n: nat)
      requires Valid()
      ensures n == |Contents()|
    {
      if m_bEmpty {
        n := 0;
      } else if m_bFull {
        n := m_pBuf.Length;
      } else if m_nReadPos < m_nWritePos {
        n := m_nWritePos - m_nReadPos;
      } else {
        n := m_pBuf.Length - m_nReadPos + m_nWritePos;
      }
    }

    /** memcpy(&m_pBuf[at], &buf[from], n) */
    method CopyIn(at: int, buf: seq<T>, from: int, n: int)
      requires 0 <= n && 0 <= at && at + n <= m_pBuf.Length
      requires 0 <= from && from + n <= |buf|
      modifies m_pBuf
      ensures m_pBuf[..] == Overwrite(old(m_pBuf[..]), at, buf[from..from + n])
    {
      forall i | 0 <= i < n {
        m_pBuf[at + i] := buf[from + i];
      }
    }

    /** memcpy(buf, &m_pBuf[at], n) */
    method CopyOut(at: int, n: int) returns (buf: seq<T>)
      requires 0 <= at && 0 <= n && at + n <= m_pBuf.Length
      ensures buf == m_pBuf[..][at..at + n]
    {
      buf := m_pBuf[at..at + n];
    }

    ghost predicate Wrote(was: seq<T>, buf: seq<T>, count: int, n: int)
      reads this, m_pBuf
      requires |was| <= m_pBuf.Length
    {
      && Valid() && 0 <= n <= |buf|
      && n == Moved(count, m_pBuf.Length - |was|)
      && Contents() == was + buf[..n]
    }

    /** Appends as many of the first `count` items as there is room for. */
    method Write(buf: seq<T>, count: int) returns (n: int)
      requires Valid() && count <= |buf|
      modifies this, m_pBuf
      ensures |old(Contents())| <= m_pBuf.Length && Wrote(old(Contents()), buf, count, n)
    {
      ArcLength(m_pBuf[..], m_nReadPos, m_nWritePos, m_bEmpty);
      if count <= 0 {
        return 0;
      }
      if m_bFull {
        return 0;
      }
      if m_nReadPos == m_nWritePos {
        n := WriteEmpty(buf, count);
      } else if m_nReadPos < m_nWritePos {
        n := WriteAhead(buf, count);
      } else {
        n := WriteBehind(buf, count);
      }
    }

    /** The buffer is empty. */
    method WriteEmpty(buf: seq<T>, count: int) returns (n: int)
      requires Valid() && 0 < count <= |buf| && m_bEmpty
      modifies this, m_pBuf
      ensures Wrote([], buf, count, n)
    {
      hide Arc, Overwrite;
      ghost var a, r := m_pBuf[..], m_nReadPos;
      ArcLength(a, r, r, true);
      m_bEmpty := false;
      var leftcount := m_pBuf.Length - m_nWritePos;
      if leftcount > count {
        PutStraight(a, r, r, true, buf[0..count]);
        CopyIn(m_nWritePos, buf, 0, count);
        m_nWritePos := m_nWritePos + count;
        n := count;
      } else {
        CopyIn(m_nWritePos, buf, 0, leftcount);
        m_nWritePos := if m_nReadPos > count - leftcount then count - leftcount else m_nWritePos;
        CopyIn(0, buf, leftcount, m_nWritePos);
        PutWrapped(a, r, r, true, buf[0..leftcount], buf[leftcount..leftcount + m_nWritePos]);
        SplitPrefix(buf, leftcount, m_nWritePos);
        m_bFull := m_nWritePos == m_nReadPos;
        n := leftcount + m_nWritePos;
      }
      assert [] + buf[..n] == buf[..n] == Arc(a, r, r, true) + buf[..n];
    }

    /** The data lie between the read and the write position. */
    method WriteAhead(buf: seq<T>, count: int) returns (n: int)
      requires Valid() && 0 < count <= |buf| && m_nReadPos < m_nWritePos
      modifies this, m_pBuf
      ensures |old(Contents())| <= m_pBuf.Length && Wrote(old(Contents()), buf, count, n)
    {
      hide Arc, Overwrite;
      ghost var a, r, w := m_pBuf[..], m_nReadPos, m_nWritePos;
      ArcLength(a, r, w, false);
      var leftcount := m_pBuf.Length - m_nWritePos;
      if leftcount > count {
        PutStraight(a, r, w, false, buf[0..count]);
        CopyIn(m_nWritePos, buf, 0, count);
        m_nWritePos := m_nWritePos + count;
        m_bFull := m_nReadPos == m_nWritePos;
        return count;
      } else {
        CopyIn(m_nWritePos, buf, 0, leftcount);
        m_nWritePos := if m_nReadPos >= count - leftcount then count - leftcount else m_nReadPos;
        CopyIn(0, buf, leftcount, m_nWritePos);
        PutWrapped(a, r, w, false, buf[0..leftcount], buf[leftcount..leftcount + m_nWritePos]);
        SplitPrefix(buf, leftcount, m_nWritePos);
        m_bFull := m_nReadPos == m_nWritePos;
        return leftcount + m_nWritePos;
      }
    }

    /** The free room lies between the write and the read position. */
    method WriteBehind(buf: seq<T>, count: int) returns (n: int)
      requires Valid() && 0 < count <= |buf| && m_nWritePos < m_nReadPos
      modifies this, m_pBuf
      ensures |old(Contents())| <= m_pBuf.Length && Wrote(old(Contents()), buf, count, n)
    {
      hide Arc, Overwrite;
      ghost var a, r, w := m_pBuf[..], m_nReadPos, m_nWritePos;
      ArcLength(a, r, w, false);
      var leftcount := m_nReadPos - m_nWritePos;
      if leftcount > count {
        PutStraight(a, r, w, false, buf[0..count]);
        CopyIn(m_nWritePos, buf, 0, count);
        m_nWritePos := m_nWritePos + count;
        m_bFull := m_nReadPos == m_nWritePos;
        return count;
      } else {
        PutStraight(a, r, w, false, buf[0..leftcount]);
        CopyIn(m_nWritePos, buf, 0, leftcount);
        m_nWritePos := m_nWritePos + leftcount;
        m_bFull := m_nReadPos == m_nWritePos;
        assert m_bFull;
        return leftcount;
      }
    }

    ghost predicate TookFrom(was: seq<T>, count: int, buf: seq<T>)
      reads this, m_pBuf
    {
      Valid() && |buf| == Moved(count, |was|) && was == buf + Contents()
    }

    /** Removes and returns the oldest items, as many of `count` as there are. */
    method Read(count: int) returns (buf: seq<T>)
      requires Valid()
      modifies this
      ensures TookFrom(old(Contents()), count, buf)
    {
      if count <= 0 {
        return [];
      }
      if m_bEmpty {
        return [];
      }
      if m_nReadPos == m_nWritePos {
        buf := ReadFull(count);
      } else if m_nReadPos < m_nWritePos {
        buf := ReadStraight(count);
      } else {
        buf := ReadBehind(count);
      }
    }

    /** The data lie between the read and the write position. */
    method ReadStraight(count: int) returns (buf: seq<T>)
      requires Valid() && 0 < count && m_nReadPos < m_nWritePos
      modifies this
      ensures TookFrom(old(Contents()), count, buf)
    {
      hide Arc, Overwrite;
      ghost var a, r, w := m_pBuf[..], m_nReadPos, m_nWritePos;
      ArcLength(a, r, w, false);
      var leftcount := m_nWritePos - m_nReadPos;
      var c := if leftcount > count then count else leftcount;
      TakeStraight(a, r, w, c);
      buf := CopyOut(m_nReadPos, c);
      m_nReadPos := m_nReadPos + c;
      m_bEmpty := m_nReadPos == m_nWritePos;
    }

    /** The buffer is full. */
    method ReadFull(count: int) returns (buf: seq<T>)
      requires Valid() && 0 < count && m_bFull
      modifies this
      ensures TookFrom(old(Contents()), count, buf)
    {
      hide Arc, Overwrite;
      ghost var a, r := m_pBuf[..], m_nReadPos;
      ArcLength(a, r, r, false);
      m_bFull := false;
      var leftcount := m_pBuf.Length - m_nReadPos;
      if leftcount > count {
        TakeStraight(a, r, r, count);
        buf := CopyOut(m_nReadPos, count);
        m_nReadPos := m_nReadPos + count;
        m_bEmpty := m_nReadPos == m_nWritePos;
      } else {
        buf := CopyOut(m_nReadPos, leftcount);
        m_nReadPos := if m_nWritePos > count - leftcount then count - leftcount else m_nWritePos;
        TakeWrapped(a, r, leftcount, r, m_nReadPos);
        var start := CopyOut(0, m_nReadPos);
        buf := buf + start;
        m_bEmpty := m_nReadPos == m_nWritePos;
      }
    }

    /** The read position is ahead of the write position. */
    method ReadBehind(count: int) returns (buf: seq<T>)
      requires Valid() && 0 < count && m_nWritePos < m_nReadPos
      modifies this
      ensures TookFrom(old(Contents()), count, buf)
    {
      hide Arc, Overwrite;
      ghost var a, r, w := m_pBuf[..], m_nReadPos, m_nWritePos;
      ArcLength(a, r, w, false);
      var leftcount := m_pBuf.Length - m_nReadPos;
      if leftcount > count {
        TakeStraight(a, r, w, count);
        buf := CopyOut(m_nReadPos, count);
        m_nReadPos := m_nReadPos + count;
        m_bEmpty := m_nReadPos == m_nWritePos;
      } else {
        buf := CopyOut(m_nReadPos, leftcount);
        m_nReadPos := if m_nWritePos >= count - leftcount then count - leftcount else m_nWritePos;
        TakeWrapped(a, r, leftcount, w, m_nReadPos);
        var start := CopyOut(0, m_nReadPos);
        buf := buf + start;
        m_bEmpty := m_nReadPos == m_nWritePos;
      }
    }
  }

  lemma ArcLength<T>(a: seq<T>, r: int, w: int, empty: bool)
    requires 0 <= r < |a| && 0 <= w < |a|
    ensures |Arc(a, r, w, empty)| == if empty then 0 else if r < w then w - r else |a| - r + w
  {
  }

  lemma SplitPrefix<T>(s: seq<T>, n: int, k: int)
    requires 0 <= n && 0 <= k && n + k <= |s|
    ensures s[0..n] + s[n..n + k] == s[..n + k]
  {
  }
}
