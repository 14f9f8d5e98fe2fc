/** The text conversions that the README append goes through. */
module PythonText {

  /** `str.isspace` for one character. */
  predicate IsSpace(c: char) {
    var u := c as int;
    || 0x09 <= u <= 0x0D || 0x1C <= u <= 0x20 || u == 0x85 || u == 0xA0 || u == 0x1680
    || 0x2000 <= u <= 0x200A || u == 0x2028 || u == 0x2029 || u == 0x202F || u == 0x205F || u == 0x3000
  }

  /** `s.rstrip()` */
  function RStrip(s: string): (r: string)
    ensures r <= s
  {
    if s != [] && IsSpace(s[|s| - 1]) then RStrip(s[..|s| - 1]) else s
  }

  /** What `Path.read_text` makes of the line ends in a file (universal newlines). */
  function ReadText(s: string): string {
    if s == [] then []
    else if s[0] == '\r' then
      ['\n'] + (if |s| > 1 && s[1] == '\n' then ReadText(s[2..]) else ReadText(s[1..]))
    else [s[0]] + ReadText(s[1..])
  }

  ghost predicate AllSpace(s: string) {
    forall i :: 0 <= i < |s| ==> IsSpace(s[i])
  }

  lemma {:induction false} ReadTextHasNoReturn(s: string)
    ensures '\r' !in ReadText(s)
    ensures AllSpace(s) ==> AllSpace(ReadText(s))
    decreases |s|
  {
    if s != [] {
      var rest := if s[0] == '\r' && |s| > 1 && s[1] == '\n' then s[2..] else s[1..];
      ReadTextHasNoReturn(rest);
      assert AllSpace(s) ==> AllSpace(rest);
      assert ReadText(s) == [if s[0] == '\r' then '\n' else s[0]] + ReadText(rest);
    }
  }

  lemma {:induction false} ReadTextKeepsPlainPrefix(a: string, b: string)
    requires '\r' !in a
    ensures ReadText(a + b) == a + ReadText(b)
  {
    if a == [] {
      assert a + b == b;
    } else {
      assert a[0] in a;
      ReadTextKeepsPlainPrefix(a[1..], b);
      assert (a + b)[1..] == a[1..] + b;
      ReadPlain(a + b);
      Reassemble(a, ReadText(b));
    }
  }

  lemma ReadPlain(s: string)
    requires s != [] && s[0] != '\r'
    ensures ReadText(s) == [s[0]] + ReadText(s[1..])
  {
  }

  lemma Reassemble(a: string, b: string)
    requires a != []
    ensures [a[0]] + (a[1..] + b) == a + b
  {
  }

  /** The three line ends read alike: behind a text without any, each of them is one newline. */
  lemma LineEndsReadAlike(a: string, b: string)
    requires '\r' !in a
    ensures ReadText(a + "\n" + b) == a + "\n" + ReadText(b)
    ensures ReadText(a + "\r\n" + b) == a + "\n" + ReadText(b)
    ensures (b == "" || b[0] != '\n') ==> ReadText(a + "\r" + b) == a + "\n" + ReadText(b)
  {
    ReadTextKeepsPlainPrefix(a, "\n" + b);
    ReadTextKeepsPlainPrefix(a, "\r\n" + b);
    ReadTextKeepsPlainPrefix(a, "\r" + b);
    OneLineEnd(b);
    Regroup(a, "\n", b);
    Regroup(a, "\r\n", b);
    Regroup(a, "\r", b);
    Regroup(a, "\n", ReadText(b));
  }

  lemma Regroup(a: string, e: string, b: string)
    ensures a + e + b == a + (e + b)
  {
  }

  lemma OneLineEnd(b: string)
    ensures ReadText("\n" + b) == "\n" + ReadText(b)
    ensures ReadText("\r\n" + b) == "\n" + ReadText(b)
    ensures (b == "" || b[0] != '\n') ==> ReadText("\r" + b) == "\n" + ReadText(b)
  {
    assert ("\n" + b)[1..] == b;
    assert ("\r\n" + b)[2..] == b;
    assert ("\r" + b)[1..] == b;
  }

  lemma {:induction false} RStripSplits(s: string)
    ensures AllSpace(s[|RStrip(s)|..])
    ensures RStrip(s) == [] || !IsSpace(RStrip(s)[|RStrip(s)| - 1])
  {
    if s != [] && IsSpace(s[|s| - 1]) {
      RStripSplits(s[..|s| - 1]);
      var n := |RStrip(s)|;
      assert s[n..] == s[..|s| - 1][n..] + [s[|s| - 1]];
    }
  }

  lemma {:induction false} RStripDropsSpace(a: string, w: string)
    requires AllSpace(w)
    requires a == [] || !IsSpace(a[|a| - 1])
    ensures RStrip(a + w) == a
  {
    if w == [] {
      assert a + w == a;
    } else {
      assert (a + w)[..|a + w| - 1] == a + w[..|w| - 1];
      RStripDropsSpace(a, w[..|w| - 1]);
    }
  }

  /** Reading and then stripping equals stripping the raw text when that has no carriage return. */
  lemma StripAfterReading(raw: string)
    requires '\r' !in RStrip(raw)
    ensures RStrip(ReadText(raw)) == RStrip(raw)
  {
    var a := RStrip(raw);
    var w := raw[|a|..];
    assert raw == a + w;
    RStripSplits(raw);
    ReadTextKeepsPlainPrefix(a, w);
    ReadTextHasNoReturn(w);
    RStripDropsSpace(a, ReadText(w));
  }
}
