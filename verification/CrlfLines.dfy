/** JavaScript's `s.split('\r\n')`, its inverse, and how it behaves when text arrives in pieces. */
module CrlfLines {

  const CRLF := "\r\n"

  predicate CrlfAt(s: string, i: int) {
    0 <= i < |s| - 1 && s[i] == '\r' && s[i + 1] == '\n'
  }

  ghost predicate HasCrlf(s: string) {
    exists i :: CrlfAt(s, i)
  }

  /** `s.split('\r\n')`: always at least one piece; the last one is what follows the last CRLF. */
  function Split(s: string): (r: seq<string>)
    ensures |r| >= 1
  {
    if s == [] then [""]
    else if CrlfAt(s, 0) then [""] + Split(s[2..])
    else Cons(s[0], Split(s[1..]))
  }

  function Cons(c: char, pieces: seq<string>): (r: seq<string>)
    requires |pieces| >= 1
    ensures |r| == |pieces| && r[0] == [c] + pieces[0] && r[1..] == pieces[1..]
  {
    [[c] + pieces[0]] + pieces[1..]
  }

  /** The pieces that a CRLF has closed. */
  function Lines(s: string): seq<string> {
    Split(s)[..|Split(s)| - 1]
  }

  /** The piece still open: what `lines.pop()` leaves in the buffer. */
  function Tail(s: string): string {
    Split(s)[|Split(s)| - 1]
  }

  /** The text whose pieces are `parts`. */
  function Join(parts: seq<string>): string
    requires |parts| >= 1
  {
    if |parts| == 1 then parts[0] else parts[0] + CRLF + Join(parts[1..])
  }

  lemma {:induction false} FirstPieceIsPrefix(s: string)
    ensures Split(s)[0] <= s
    ensures |Split(s)| == 1 ==> Split(s)[0] == s
    ensures |Split(s)| >= 2 ==> var n := |Split(s)[0]|; CrlfAt(s, n) && s[n + 2..] == Join(Split(s)[1..])
    ensures !HasCrlf(Split(s)[0])
    ensures Join(Split(s)) == s
    ensures forall p :: p in Split(s) ==> !HasCrlf(p)
  {
    if s == [] {
    } else if CrlfAt(s, 0) {
      FirstPieceIsPrefix(s[2..]);
      assert Split(s)[1..] == Split(s[2..]);
      assert s == CRLF + s[2..];
    } else {
      FirstPieceIsPrefix(s[1..]);
      var r := Split(s[1..]);
      ConsNoCrlf(s, r[0]);
      JoinCons(s[0], r);
      assert s == [s[0]] + s[1..];
      if |r| >= 2 { assert CrlfAt(s[1..], |r[0]|); }
    }
  }

  lemma CrlfAtShift(s: string)
    ensures s != [] ==> forall i :: 0 <= i ==> CrlfAt(s[1..], i) == CrlfAt(s, i + 1)
  {
  }

  lemma ConsNoCrlf(s: string, q: string)
    requires |s| > 0 && !CrlfAt(s, 0) && q <= s[1..] && !HasCrlf(q)
    ensures !HasCrlf([s[0]] + q)
  {
    var w := [s[0]] + q;
    assert w[1..] == q;
    forall i ensures !CrlfAt(w, i) {
      CrlfAtShift(w);
      assert i > 0 ==> CrlfAt(w, i) == CrlfAt(q, i - 1);
      assert |q| > 0 ==> q[0] == s[1];
    }
  }

  lemma JoinCons(c: char, pieces: seq<string>)
    requires |pieces| >= 1
    ensures Join(Cons(c, pieces)) == [c] + Join(pieces)
  {
    var r := Cons(c, pieces);
    if |pieces| > 1 {
      var t := Join(pieces[1..]);
      assert Join(r) == r[0] + CRLF + t;
      assert Join(pieces) == pieces[0] + CRLF + t;
      Assoc(c, pieces[0], CRLF, t);
    }
  }

  lemma Assoc(c: char, p: string, q: string, t: string)
    ensures ([c] + p) + q + t == [c] + (p + q + t)
  {
  }

  /** Splitting loses nothing, and no piece hides a separator. */
  lemma JoinSplit(s: string)
    ensures Join(Split(s)) == s
    ensures forall p :: p in Split(s) ==> !HasCrlf(p)
  {
    FirstPieceIsPrefix(s);
  }

  /** Together with JoinSplit: the split is the only way to read a text as CRLF-free pieces. */
  lemma {:induction false} SplitJoin(parts: seq<string>)
    requires |parts| >= 1
    requires forall p :: p in parts ==> !HasCrlf(p)
    ensures Split(Join(parts)) == parts
    decreases |parts|, |parts[0]|
  {
    var p, j := parts[0], Join(parts);
    if p == [] {
      if |parts| > 1 {
        SplitJoin(parts[1..]);
        assert j == CRLF + Join(parts[1..]);
        assert j[2..] == Join(parts[1..]);
      }
    } else {
      var rest := [p[1..]] + parts[1..];
      assert p in parts;
      CrlfAtShift(p);
      assert forall q :: q in rest ==> q == p[1..] || q in parts;
      SplitJoin(rest);
      assert [p[0]] + p[1..] == p;
      assert Cons(p[0], rest) == [p] + parts[1..] == parts;
      JoinCons(p[0], rest);
      assert j[1..] == Join(rest);
      assert !CrlfAt(p, 0);
      assert !CrlfAt(j, 0) by {
        assert p <= j;
        assert |p| == 1 && |parts| > 1 ==> j[1] == CRLF[0];
      }
    }
  }

  /** A complete line is split off whatever follows it. */
  lemma SplitLine(p: string, rest: string)
    requires !HasCrlf(p)
    ensures Split(p + CRLF + rest) == [p] + Split(rest)
  {
    JoinSplit(rest);
    var parts := [p] + Split(rest);
    assert parts[1..] == Split(rest);
    SplitJoin(parts);
  }

  lemma LinesAfterCrlf(a: string)
    requires CrlfAt(a, 0)
    ensures Lines(a) == [""] + Lines(a[2..]) && Tail(a) == Tail(a[2..])
  {
  }

  lemma LinesAfterChar(a: string)
    requires a != [] && !CrlfAt(a, 0) && |Split(a)| > 1
    ensures |Lines(a[1..])| >= 1 && Lines(a) == Cons(a[0], Lines(a[1..])) && Tail(a) == Tail(a[1..])
  {
  }

  /** Splitting resumes: only the open piece of what came before is split again. */
  lemma {:induction false} SplitResumes(a: string, b: string)
    ensures Split(a + b) == Lines(a) + Split(Tail(a) + b)
  {
    if |Split(a)| == 1 {
      FirstPieceIsPrefix(a);
      assert Tail(a) == a;
    } else if CrlfAt(a, 0) {
      SplitResumes(a[2..], b);
      LinesAfterCrlf(a);
      SplitStep(a, b);
    } else {
      SplitResumes(a[1..], b);
      LinesAfterChar(a);
      SplitStep(a, b);
      ConsAppend(a[0], Lines(a[1..]), Split(Tail(a) + b));
    }
  }

  lemma SplitStep(a: string, b: string)
    requires |Split(a)| > 1
    ensures CrlfAt(a, 0) ==> Split(a + b) == [""] + Split(a[2..] + b)
    ensures !CrlfAt(a, 0) ==> Split(a + b) == Cons(a[0], Split(a[1..] + b))
  {
    assert |a| >= 2;
    assert CrlfAt(a + b, 0) == CrlfAt(a, 0);
    if CrlfAt(a, 0) {
      assert (a + b)[2..] == a[2..] + b;
    } else {
      assert (a + b)[1..] == a[1..] + b;
    }
  }

  lemma ConsAppend(c: char, x: seq<string>, y: seq<string>)
    requires |x| >= 1
    ensures Cons(c, x + y) == Cons(c, x) + y
  {
  }

  /** Line reassembly does not depend on where the text was cut, not even between CR and LF. */
  lemma FeedResumes(a: string, b: string)
    ensures Lines(a + b) == Lines(a) + Lines(Tail(a) + b)
    ensures Tail(a + b) == Tail(Tail(a) + b)
  {
    SplitResumes(a, b);
  }

  /** The offset in the stream just after the CRLF that closes line `k - 1`. */
  function Offset(lines: seq<string>, k: nat): nat
    requires k <= |lines|
  {
    if k == 0 then 0 else Offset(lines, k - 1) + |lines[k - 1]| + 2
  }

  lemma {:induction false} OffsetOfPrefix(a: seq<string>, b: seq<string>, k: nat)
    requires k <= |a| && a <= b
    ensures Offset(a, k) == Offset(b, k)
  {
    if k > 0 { OffsetOfPrefix(a, b, k - 1); }
  }

  lemma {:induction false} OffsetMonotone(lines: seq<string>, j: nat, k: nat)
    requires j <= k <= |lines|
    ensures Offset(lines, j) <= Offset(lines, k)
  {
    if j < k { OffsetMonotone(lines, j, k - 1); }
  }

  lemma {:induction false} OffsetShift(lines: seq<string>, k: nat)
    requires 1 <= k <= |lines|
    ensures Offset(lines, k) == |lines[0]| + 2 + Offset(lines[1..], k - 1)
  {
    if k > 1 { OffsetShift(lines, k - 1); }
  }

  lemma {:induction false} JoinLength(parts: seq<string>)
    requires |parts| >= 1
    ensures |Join(parts)| == Offset(parts, |parts| - 1) + |parts[|parts| - 1]|
  {
    if |parts| > 1 {
      JoinLength(parts[1..]);
      OffsetShift(parts, |parts| - 1);
    }
  }

  /** The number of lines completed within the first `p` characters, read off the offsets alone. */
  lemma CompletedAt(s: string, p: nat)
    requires p <= |s|
    ensures Lines(s[..p]) <= Lines(s)
    ensures var k := |Lines(s[..p])|;
            Offset(Lines(s), k) <= p && (k < |Lines(s)| ==> p < Offset(Lines(s), k + 1))
  {
    var a, b := s[..p], s[p..];
    assert s == a + b;
    FeedResumes(a, b);
    JoinSplit(a);
    JoinLength(Split(a));
    var k := |Lines(a)|;
    OffsetOfPrefix(Lines(a), Split(a), k);
    OffsetOfPrefix(Lines(a), Lines(s), k);
    if k < |Lines(s)| {
      assert Tail(a) in Split(a);
      NextLineIsLonger(Tail(a), b);
    }
  }

  /** The next line to be completed ends behind everything that has come in. */
  lemma NextLineIsLonger(t: string, b: string)
    requires !HasCrlf(t) && |Lines(t + b)| > 0
    ensures |t| < |Lines(t + b)[0]| + 2
  {
    var x := Split(t + b)[0];
    FirstPieceIsPrefix(t + b);
    assert CrlfAt(t + b, |x|);
    assert |x| + 2 <= |t| ==> CrlfAt(t, |x|);
  }
}
