/**
 * The frame splitter of the manager connection: the text received so far is
 * cut on a blank line (two ends of line in a row), exactly as Python's
 * `str.split` cuts it (leftmost, non-overlapping occurrences); every piece but
 * the last is a frame, the last piece is kept for the next read. Frames are
 * whitespace-stripped as Python's `str.strip()` does before they are parsed.
 */
module Framing {
  import opened Wrappers

  /** One end of line on the wire. */
  const EOL: string := "\r\n"

  /** Frames are separated by a blank line. */
  const Delimiter: string := EOL + EOL

  /** The delimiter occurs in `s` starting at index `i`. */
  predicate OccursAt(s: string, i: nat)
  {
    i + 4 <= |s| && s[i] == '\r' && s[i + 1] == '\n' && s[i + 2] == '\r' && s[i + 3] == '\n'
  }

  ghost predicate HasDelimiter(s: string)
  {
    exists i: nat :: OccursAt(s, i)
  }

  /** Occurrences that lie wholly inside `s` are the same in `s + b`. */
  lemma OccursAtPrefix(s: string, b: string, j: nat)
    requires j + |Delimiter| <= |s|
    ensures OccursAt(s + b, j) <==> OccursAt(s, j)
  {
  }

  /** The index of the leftmost delimiter, as `str.find` gives it. */
  function Find(s: string): (r: Option<nat>)
    ensures r.Some? ==> OccursAt(s, r.value)
    ensures r.Some? ==> forall j: nat :: j < r.value ==> !OccursAt(s, j)
    ensures r.None? <==> !HasDelimiter(s)
    decreases |s|
  {
    if |s| < |Delimiter| then None
    else if OccursAt(s, 0) then Some(0)
    else
      match Find(s[1..])
      case None =>
        assert forall j: nat :: !OccursAt(s, j) by {
          forall j: nat ensures !OccursAt(s, j) {
            if j > 0 { assert OccursAt(s, j) == OccursAt(s[1..], j - 1); }
          }
        }
        None
      case Some(k) =>
        assert forall j: nat :: j < k + 1 ==> !OccursAt(s, j) by {
          forall j: nat | j < k + 1 ensures !OccursAt(s, j) {
            if j > 0 { assert OccursAt(s, j) == OccursAt(s[1..], j - 1); }
          }
        }
        Some(k + 1)
  }

  /** `s.split(EOL + EOL)`: never empty, no piece holds a delimiter. */
  function Split(s: string): (parts: seq<string>)
    ensures |parts| >= 1
    decreases |s|
  {
    match Find(s)
    case None => [s]
    case Some(i) => [s[..i]] + Split(s[i + |Delimiter|..])
  }

  /** The complete frames: every piece of the split but the last. */
  function Frames(s: string): seq<string>
  {
    var parts := Split(s);
    parts[..|parts| - 1]
  }

  /** The piece kept for the next read: the last piece of the split. */
  function Remainder(s: string): string
  {
    var parts := Split(s);
    parts[|parts| - 1]
  }

  /** The frames written back out, each followed by the delimiter. */
  function Terminated(frames: seq<string>): string
  {
    if frames == [] then [] else frames[0] + Delimiter + Terminated(frames[1..])
  }

  /**
   * `f` is a piece the split can emit: no delimiter of `f + Delimiter`
   * starts inside `f`, so the first delimiter after `f` begins is the one
   * right behind it.
   */
  predicate ClosedBy(f: string)
  {
    forall j: nat :: j < |f| ==> !OccursAt(f + Delimiter, j)
  }

  predicate EndsWithEol(s: string)
  {
    |s| >= |EOL| && s[|s| - |EOL|..] == EOL
  }

  /** Unfolding Frames and Remainder once when a delimiter is found at `i`. */
  lemma SplitCons(s: string, i: nat)
    requires Find(s) == Some(i)
    ensures Frames(s) == [s[..i]] + Frames(s[i + |Delimiter|..])
    ensures Remainder(s) == Remainder(s[i + |Delimiter|..])
  {
    var rest := Split(s[i + |Delimiter|..]);
    assert Split(s) == [s[..i]] + rest;
    assert Split(s)[..|Split(s)| - 1] == [s[..i]] + rest[..|rest| - 1];
  }

  /** A delimiter found at `i` in `s` is still the first one in `s + b`. */
  lemma FindExtend(s: string, b: string, i: nat)
    requires Find(s) == Some(i)
    ensures Find(s + b) == Some(i)
  {
    OccursAtPrefix(s, b, i);
    match Find(s + b)
    case None =>
    case Some(j) =>
      if j < i {
        OccursAtPrefix(s, b, j);
      }
  }

  /** No delimiter at all: no frame, and the whole text is kept. */
  lemma NoDelimiter(s: string)
    ensures Frames(s) == [] <==> !HasDelimiter(s)
    ensures !HasDelimiter(s) ==> Remainder(s) == s
  {
    match Find(s)
    case None =>
    case Some(i) => SplitCons(s, i);
  }

  /**
   * What the split promises: the frames, each followed by the delimiter,
   * and then the remainder give back the text; every frame is a piece the
   * split can emit; the remainder holds no delimiter; and when there is a
   * frame, the remainder is what follows a delimiter at the end of the
   * consumed text.
   */
  lemma SplitSound(s: string)
    ensures Terminated(Frames(s)) + Remainder(s) == s
    ensures forall k :: 0 <= k < |Frames(s)| ==> ClosedBy(Frames(s)[k])
    ensures !HasDelimiter(Remainder(s))
  {
    SplitJoins(s);
    SplitPiecesClosed(s);
    RemainderClean(s);
  }

  lemma {:induction false} SplitJoins(s: string)
    ensures Terminated(Frames(s)) + Remainder(s) == s
    decreases |s|
  {
    match Find(s)
    case None =>
    case Some(i) =>
      SplitJoins(s[i + |Delimiter|..]);
      SplitJoinsStep(s, i);
  }

  lemma SplitJoinsStep(s: string, i: nat)
    requires Find(s) == Some(i)
    requires Terminated(Frames(s[i + |Delimiter|..])) + Remainder(s[i + |Delimiter|..]) == s[i + |Delimiter|..]
    ensures Terminated(Frames(s)) + Remainder(s) == s
  {
    var head, tail := s[..i], s[i + |Delimiter|..];
    SplitCons(s, i);
    TerminatedCons(head, Frames(tail));
    CutAt(s, i);
    JoinStep(Terminated(Frames(s)), head, Terminated(Frames(tail)), Remainder(tail), tail, s);
  }

  /** A text with a delimiter at `i` is what comes before it, the delimiter, and what comes after. */
  lemma CutAt(s: string, i: nat)
    requires OccursAt(s, i)
    ensures s == s[..i] + Delimiter + s[i + |Delimiter|..]
  {
  }

  lemma JoinStep(x: string, head: string, t: string, r: string, tail: string, s: string)
    requires x == head + Delimiter + t && t + r == tail && s == head + Delimiter + tail
    ensures x + r == s
  {
  }

  lemma {:induction false} SplitPiecesClosed(s: string)
    ensures forall k :: 0 <= k < |Frames(s)| ==> ClosedBy(Frames(s)[k])
    decreases |s|
  {
    match Find(s)
    case None =>
    case Some(i) =>
      var tail := s[i + |Delimiter|..];
      SplitCons(s, i);
      SplitPiecesClosed(tail);
      FirstPieceClosed(s, i);
      forall k | 0 <= k < |Frames(s)| ensures ClosedBy(Frames(s)[k]) {
        if k > 0 { assert Frames(s)[k] == Frames(tail)[k - 1]; }
      }
  }

  lemma {:induction false} RemainderClean(s: string)
    ensures !HasDelimiter(Remainder(s))
    decreases |s|
  {
    match Find(s)
    case None =>
    case Some(i) =>
      SplitCons(s, i);
      RemainderClean(s[i + |Delimiter|..]);
  }

  lemma TerminatedCons(f: string, fs: seq<string>)
    ensures Terminated([f] + fs) == f + Delimiter + Terminated(fs)
  {
    assert ([f] + fs)[1..] == fs;
  }

  /** The text before the leftmost delimiter is a piece the split can emit. */
  lemma FirstPieceClosed(s: string, i: nat)
    requires Find(s) == Some(i)
    ensures ClosedBy(s[..i])
  {
    var t := s[..i] + Delimiter;
    forall j: nat | j < i ensures !OccursAt(t, j) {
      assert t == s[..i + |Delimiter|];
      OccursAtPrefix(t, s[i + |Delimiter|..], j);
      assert t + s[i + |Delimiter|..] == s;
    }
  }

  /**
   * The split is the only decomposition with those properties: text built
   * from emit-able frames and a delimiter-free tail splits back into exactly
   * those frames and that tail.
   */
  lemma {:induction false} SplitUnique(fs: seq<string>, r: string)
    requires forall k :: 0 <= k < |fs| ==> ClosedBy(fs[k])
    requires !HasDelimiter(r)
    ensures Frames(Terminated(fs) + r) == fs
    ensures Remainder(Terminated(fs) + r) == r
  {
    var s := Terminated(fs) + r;
    if fs == [] {
      assert s == r;
      NoDelimiter(r);
    } else {
      var f := fs[0];
      var rest := Terminated(fs[1..]) + r;
      assert s == (f + Delimiter) + rest;
      assert Find(f + Delimiter) == Some(|f|) by {
        assert OccursAt(f + Delimiter, |f|) by {
          assert (f + Delimiter)[|f|..|f| + |Delimiter|] == Delimiter;
        }
        assert ClosedBy(fs[0]);
      }
      FindExtend(f + Delimiter, rest, |f|);
      assert s[..|f|] == f;
      assert s[|f| + |Delimiter|..] == rest;
      SplitCons(s, |f|);
      SplitUnique(fs[1..], r);
    }
  }

  /** Which pieces the split can emit: those without a delimiter that do not end in an end of line. */
  lemma ClosedByIff(f: string)
    ensures ClosedBy(f) <==> !HasDelimiter(f) && !EndsWithEol(f)
  {
    var t := f + Delimiter;
    if HasDelimiter(f) {
      var j: nat :| OccursAt(f, j);
      OccursAtPrefix(f, Delimiter, j);
      assert !ClosedBy(f);
    } else if EndsWithEol(f) {
      var j := |f| - |EOL|;
      assert t[j..j + |Delimiter|] == f[j..] + EOL;
      assert OccursAt(t, j);
      assert !ClosedBy(f);
    } else {
      forall j: nat | j < |f| ensures !OccursAt(t, j) {
        if j + |Delimiter| <= |f| {
          OccursAtPrefix(f, Delimiter, j);
        } else if j == |f| - 1 {
          assert t[j + 1] == '\r';
        } else if j == |f| - 2 {
          assert t[j..j + |EOL|] == f[j..];
        } else {
          assert j == |f| - 3;
          assert t[j + 3] == '\r';
        }
      }
    }
  }

  /** No frame ends with an end of line: a trailing one always belongs to the delimiter. */
  lemma FrameNeverEndsWithEol(s: string, k: nat)
    requires k < |Frames(s)|
    ensures !EndsWithEol(Frames(s)[k]) && !HasDelimiter(Frames(s)[k])
  {
    SplitSound(s);
    ClosedByIff(Frames(s)[k]);
  }

  /**
   * Splitting is insensitive to where the text was cut: the frames of
   * `s + b` are the frames of `s` followed by those found once the remainder
   * of `s` is joined with `b`.
   */
  lemma {:induction false} SplitAppend(s: string, b: string)
    ensures Split(s + b) == Frames(s) + Split(Remainder(s) + b)
    decreases |s|
  {
    match Find(s)
    case None =>
    case Some(i) =>
      var tail := s[i + |Delimiter|..];
      SplitCons(s, i);
      SplitAppendStep(s, b, i);
      SplitAppend(tail, b);
      ConsAppend(s[..i], Frames(tail), Split(Remainder(tail) + b));
  }

  lemma ConsAppend<T>(h: T, f: seq<T>, r: seq<T>)
    ensures [h] + (f + r) == ([h] + f) + r
  {
  }

  /** A delimiter found in `s` is one the split of `s + b` cuts at too. */
  lemma SplitAppendStep(s: string, b: string, i: nat)
    requires Find(s) == Some(i)
    ensures Split(s + b) == [s[..i]] + Split(s[i + |Delimiter|..] + b)
  {
    FindExtend(s, b, i);
    assert (s + b)[..i] == s[..i];
    assert (s + b)[i + |Delimiter|..] == s[i + |Delimiter|..] + b;
  }

  /** Frames and remainder of a text that arrives as `s` and then `b`. */
  lemma ChunkBoundary(s: string, b: string)
    ensures Frames(s + b) == Frames(s) + Frames(Remainder(s) + b)
    ensures Remainder(s + b) == Remainder(Remainder(s) + b)
  {
    SplitAppend(s, b);
    var whole, p := Split(s + b), Split(Remainder(s) + b);
    LastOfAppend(Frames(s), p);
  }

  lemma LastOfAppend<T>(f: seq<T>, p: seq<T>)
    requires |p| >= 1
    ensures (f + p)[..|f + p| - 1] == f + p[..|p| - 1]
    ensures (f + p)[|f + p| - 1] == p[|p| - 1]
  {
  }

  /** A text with no carriage return holds no delimiter. */
  lemma NoCarriageReturn(s: string)
    requires forall k :: 0 <= k < |s| ==> s[k] != '\r'
    ensures !HasDelimiter(s)
  {
  }

  /** Two carriage-return-free lines joined by one end of line hold no delimiter. */
  lemma OneEolNoDelimiter(a: string, b: string)
    requires forall k :: 0 <= k < |a| ==> a[k] != '\r'
    requires forall k :: 0 <= k < |b| ==> b[k] != '\r'
    ensures !HasDelimiter(a + EOL + b)
  {
    var s := a + EOL + b;
    forall j: nat | j + 4 <= |s| ensures !OccursAt(s, j) {
      if j < |a| {
        assert s[j] == a[j];
      } else if j == |a| {
        assert s[j + 2] == b[0];
      } else if j > |a| + 1 {
        assert s[j] == b[j - |a| - 2];
      }
    }
  }

  /**
   * The remainder is the last piece of a left-to-right split, which is not
   * always the text behind the last delimiter: in "a\r\n\r\n\r\n" the first
   * delimiter ends the frame "a" and the "\r\n" after it is kept, although a
   * delimiter also ends the text.
   */
  lemma RemainderIsLastPiece(s: string, frame: string, rest: string)
    requires s == "a\r\n\r\n\r\n" && frame == "a" && rest == "\r\n"
    ensures Frames(s) == [frame] && Remainder(s) == rest
    ensures OccursAt(s, |s| - |Delimiter|)
  {
    NoCarriageReturn(frame);
    ClosedByIff(frame);
    assert !HasDelimiter(rest);
    assert Terminated([frame]) == frame + Delimiter + Terminated([]);
    assert s == Terminated([frame]) + rest;
    SplitUnique([frame], rest);
  }

  // ---------------------------------------------------------------------
  // str.strip()

  /** The characters Python's `str.isspace` accepts, which `str.strip()` removes. */
  predicate IsSpace(c: char)
  {
    ('\t' <= c <= '\r') || ('\U{1C}' <= c <= ' ') || c == '\U{85}' || c == '\U{A0}'
    || c == '\U{1680}' || ('\U{2000}' <= c <= '\U{200A}') || c == '\U{2028}' || c == '\U{2029}'
    || c == '\U{202F}' || c == '\U{205F}' || c == '\U{3000}'
  }

  predicate AllSpace(s: string)
  {
    forall k :: 0 <= k < |s| ==> IsSpace(s[k])
  }

  /** `s.lstrip()`: the suffix of `s` after its leading whitespace. */
  function TrimStart(s: string): (r: string)
    ensures |r| <= |s| && r == s[|s| - |r|..]
    ensures AllSpace(s[..|s| - |r|])
    ensures r == [] || !IsSpace(r[0])
    decreases |s|
  {
    if |s| > 0 && IsSpace(s[0]) then
      var r := TrimStart(s[1..]);
      assert s[..|s| - |r|] == [s[0]] + s[1..][..|s| - 1 - |r|];
      r
    else s
  }

  /** `s.rstrip()`: the prefix of `s` before its trailing whitespace. */
  function TrimEnd(s: string): (r: string)
    ensures |r| <= |s| && r == s[..|r|]
    ensures AllSpace(s[|r|..])
    ensures r == [] || !IsSpace(r[|r| - 1])
    decreases |s|
  {
    if |s| > 0 && IsSpace(s[|s| - 1]) then
      var r := TrimEnd(s[..|s| - 1]);
      assert s[|r|..] == s[..|s| - 1][|r|..] + [s[|s| - 1]];
      r
    else s
  }

  /**
   * `s.strip()`: `s` with its whitespace removed at both ends, and nothing
   * else removed.
   */
  function Strip(s: string): string
  {
    TrimEnd(TrimStart(s))
  }

  /**
   * `s.strip()` is `s` with its whitespace removed at both ends and nothing
   * else removed: a slice of `s` with only whitespace around it, which
   * neither starts nor ends with whitespace.
   */
  lemma StripTrims(s: string)
    ensures Strip(s) == [] || (!IsSpace(Strip(s)[0]) && !IsSpace(Strip(s)[|Strip(s)| - 1]))
    ensures exists i, j :: 0 <= i <= j <= |s| && Strip(s) == s[i..j] && AllSpace(s[..i]) && AllSpace(s[j..])
  {
    var t := TrimStart(s);
    var r := TrimEnd(t);
    var i := |s| - |t|;
    SliceOfSuffix(s, t, r, i);
    var j := i + |r|;
    assert r == Strip(s) && r == s[i..j] && AllSpace(s[..i]) && AllSpace(s[j..]);
    assert r != [] ==> r[0] == t[0];
  }

  lemma SliceOfSuffix(s: string, t: string, r: string, i: nat)
    requires i <= |s| && t == s[i..] && |r| <= |t| && r == t[..|r|]
    ensures i + |r| <= |s| && r == s[i..i + |r|] && s[i + |r|..] == t[|r|..]
  {
  }

  lemma {:induction false} TrimStartPadded(a: string, s: string)
    requires AllSpace(a)
    ensures TrimStart(a + s) == TrimStart(s)
    decreases |a|
  {
    if a != [] {
      assert (a + s)[1..] == a[1..] + s;
      TrimStartPadded(a[1..], s);
    } else {
      assert a + s == s;
    }
  }

  lemma {:induction false} TrimEndPadded(s: string, b: string)
    requires AllSpace(b)
    ensures TrimEnd(s + b) == TrimEnd(s)
    decreases |b|
  {
    if b != [] {
      assert (s + b)[..|s + b| - 1] == s + b[..|b| - 1];
      TrimEndPadded(s, b[..|b| - 1]);
    } else {
      assert s + b == s;
    }
  }

  lemma {:induction false} TrimStartAppend(s: string, b: string)
    ensures TrimStart(s) != [] ==> TrimStart(s + b) == TrimStart(s) + b
    ensures TrimStart(s) == [] && AllSpace(b) ==> TrimStart(s + b) == []
    decreases |s|
  {
    if |s| > 0 && IsSpace(s[0]) {
      assert (s + b)[1..] == s[1..] + b;
      TrimStartAppend(s[1..], b);
    } else if s == [] {
      assert s + b == b;
      if AllSpace(b) { TrimStartPadded(b, []); assert b + [] == b; }
    }
  }

  /**
   * Whitespace around a frame does not change what is parsed: a frame that
   * arrives with a stray end of line on either side strips to the same text.
   */
  lemma StripPadded(a: string, s: string, b: string)
    requires AllSpace(a) && AllSpace(b)
    ensures Strip(a + s + b) == Strip(s)
  {
    assert a + s + b == a + (s + b);
    TrimStartPadded(a, s + b);
    TrimStartAppend(s, b);
    if TrimStart(s) != [] {
      TrimEndPadded(TrimStart(s), b);
    }
  }
}
