/** The text `JSON.stringify` prints for values whose members are already chosen and ordered, a reader
    of JSON text, and the proof that reading undoes printing. Text is a sequence of UTF-16 code
    units. */
module JsonText {

  type CodeUnit = u: int | 0 <= u < 0x1_0000
  type Text = seq<CodeUnit>

  /** Integers that a JavaScript number holds exactly; they print in plain decimal. */
  type SafeInt = n: int | -0x1F_FFFF_FFFF_FFFF <= n <= 0x1F_FFFF_FFFF_FFFF

  datatype Tree =
    | TNull
    | TBool(b: bool)
    | TNum(n: SafeInt)
    | TStr(s: Text)
    | TArr(items: seq<Tree>)
    | TObj(members: seq<Member>)

  datatype Member = Member(key: Text, value: Tree)

  const QUOTE: CodeUnit := 34
  const COMMA: CodeUnit := 44
  const MINUS: CodeUnit := 45
  const COLON: CodeUnit := 58
  const OPEN_BRACKET: CodeUnit := 91
  const BACKSLASH: CodeUnit := 92
  const CLOSE_BRACKET: CodeUnit := 93
  const OPEN_BRACE: CodeUnit := 123
  const CLOSE_BRACE: CodeUnit := 125

  // ---- printing -------------------------------------------------------------------------

  function Digits(n: nat): (r: Text)
    ensures |r| >= 1 && forall i :: 0 <= i < |r| ==> IsDigit(r[i])
  {
    if n < 10 then [48 + n] else Digits(n / 10) + [48 + n % 10]
  }

  predicate IsDigit(u: CodeUnit) { 48 <= u <= 57 }

  function PrintInt(n: int): (r: Text) {
    if n < 0 then [MINUS] + Digits(-n) else Digits(n)
  }

  function HexUnit(d: int): CodeUnit
    requires 0 <= d < 16
  {
    if d < 10 then 48 + d else 87 + d
  }

  predicate IsLead(u: CodeUnit) { 0xD800 <= u <= 0xDBFF }

  predicate IsTrail(u: CodeUnit) { 0xDC00 <= u <= 0xDFFF }

  /** The spelling inside a string literal of a unit that is not half of a surrogate pair. */
  function Escape(u: CodeUnit): Text {
    if u == 8 then [BACKSLASH, 98]
    else if u == 9 then [BACKSLASH, 116]
    else if u == 10 then [BACKSLASH, 110]
    else if u == 12 then [BACKSLASH, 102]
    else if u == 13 then [BACKSLASH, 114]
    else if u == QUOTE || u == BACKSLASH then [BACKSLASH, u]
    else if u < 32 || IsLead(u) || IsTrail(u) then
      [BACKSLASH, 117, HexUnit(u / 4096), HexUnit(u / 256 % 16), HexUnit(u / 16 % 16), HexUnit(u % 16)]
    else [u]
  }

  /** A string literal without its opening quote. */
  function QuoteRest(s: Text): Text {
    if s == [] then [QUOTE]
    else if IsLead(s[0]) && |s| > 1 && IsTrail(s[1]) then [s[0], s[1]] + QuoteRest(s[2..])
    else Escape(s[0]) + QuoteRest(s[1..])
  }

  function Print(v: Tree): Text
    decreases v, 1
  {
    match v
    case TNull => [110, 117, 108, 108]
    case TBool(b) => if b then [116, 114, 117, 101] else [102, 97, 108, 115, 101]
    case TNum(n) => PrintInt(n)
    case TStr(s) => [QUOTE] + QuoteRest(s)
    case TArr(items) =>
      [OPEN_BRACKET] + if items == [] then [CLOSE_BRACKET] else Print(items[0]) + PrintItems(items[1..])
    case TObj(members) =>
      [OPEN_BRACE] + if members == [] then [CLOSE_BRACE] else PrintMember(members[0]) + PrintMembers(members[1..])
  }

  function PrintItems(items: seq<Tree>): Text
    decreases items, 0
  {
    if items == [] then [CLOSE_BRACKET] else [COMMA] + Print(items[0]) + PrintItems(items[1..])
  }

  function PrintMember(m: Member): Text
    decreases m, 2
  {
    [QUOTE] + QuoteRest(m.key) + [COLON] + Print(m.value)
  }

  function PrintMembers(members: seq<Member>): Text
    decreases members, 0
  {
    if members == [] then [CLOSE_BRACE] else [COMMA] + PrintMember(members[0]) + PrintMembers(members[1..])
  }

  // ---- reading --------------------------------------------------------------------------

  /** What reading a prefix of a text gives, and the text behind it. */
  datatype Parsed<+T> = Fails | Reads(value: T, rest: Text)

  predicate Starts(t: Text, s: string) {
    |s| <= |t| && forall i :: 0 <= i < |s| ==> t[i] == s[i] as int
  }

  /** JSON text in the form that `JSON.stringify` writes: no white space, no fractions or exponents,
      lower-case hex digits, and no lone half of a surrogate pair. */
  function Read(t: Text): (r: Parsed<Tree>)
    ensures r.Reads? ==> |r.rest| < |t|
    decreases |t|, 1
  {
    if Starts(t, "null") then Reads(TNull, t[4..])
    else if Starts(t, "true") then Reads(TBool(true), t[4..])
    else if Starts(t, "false") then Reads(TBool(false), t[5..])
    else if Starts(t, "\"") then
      var r := ReadString(t[1..]);
      if r.Reads? then Reads(TStr(r.value), r.rest) else Fails
    else if Starts(t, "[") then ReadArray(t[1..])
    else if Starts(t, "{") then ReadObject(t[1..])
    else
      var r := ReadInt(t);
      if r.Reads? && -0x1F_FFFF_FFFF_FFFF <= r.value <= 0x1F_FFFF_FFFF_FFFF then Reads(TNum(r.value), r.rest)
      else Fails
  }

  /** An array behind its opening bracket. */
  function ReadArray(t: Text): (r: Parsed<Tree>)
    ensures r.Reads? ==> |r.rest| < |t|
    decreases |t|, 3
  {
    if Starts(t, "]") then Reads(TArr([]), t[1..])
    else
      var first := Read(t);
      if first.Fails? then Fails
      else
        var others := ReadItems(first.rest);
        if others.Reads? then Reads(TArr([first.value] + others.value), others.rest) else Fails
  }

  /** An object behind its opening brace. */
  function ReadObject(t: Text): (r: Parsed<Tree>)
    ensures r.Reads? ==> |r.rest| < |t|
    decreases |t|, 3
  {
    if Starts(t, "}") then Reads(TObj([]), t[1..])
    else
      var first := ReadMember(t);
      if first.Fails? then Fails
      else
        var others := ReadMembers(first.rest);
        if others.Reads? then Reads(TObj([first.value] + others.value), others.rest) else Fails
  }

  function ReadItems(t: Text): (r: Parsed<seq<Tree>>)
    ensures r.Reads? ==> |r.rest| < |t|
    decreases |t|, 0
  {
    if Starts(t, "]") then Reads([], t[1..])
    else if Starts(t, ",") then
      var first := Read(t[1..]);
      if first.Fails? then Fails
      else
        var others := ReadItems(first.rest);
        if others.Reads? then Reads([first.value] + others.value, others.rest) else Fails
    else Fails
  }

  function ReadMember(t: Text): (r: Parsed<Member>)
    ensures r.Reads? ==> |r.rest| < |t|
    decreases |t|, 2
  {
    if !Starts(t, "\"") then Fails
    else
      var key := ReadString(t[1..]);
      if key.Fails? || !Starts(key.rest, ":") then Fails
      else
        var value := Read(key.rest[1..]);
        if value.Reads? then Reads(Member(key.value, value.value), value.rest) else Fails
  }

  function ReadMembers(t: Text): (r: Parsed<seq<Member>>)
    ensures r.Reads? ==> |r.rest| < |t|
    decreases |t|, 0
  {
    if Starts(t, "}") then Reads([], t[1..])
    else if Starts(t, ",") then
      var first := ReadMember(t[1..]);
      if first.Fails? then Fails
      else
        var others := ReadMembers(first.rest);
        if others.Reads? then Reads([first.value] + others.value, others.rest) else Fails
    else Fails
  }

  predicate IsDecimal(u: CodeUnit) { '0' as int <= u <= '9' as int }

  function DigitRun(t: Text): (n: nat)
    ensures n <= |t|
  {
    if t == [] || !IsDecimal(t[0]) then 0 else 1 + DigitRun(t[1..])
  }

  function Decimal(s: Text): int {
    if s == [] then 0 else Decimal(s[..|s| - 1]) * 10 + (s[|s| - 1] - '0' as int)
  }

  /** Digits without a leading zero. */
  function ReadDigits(t: Text): (r: Parsed<int>)
    ensures r.Reads? ==> |r.rest| < |t|
  {
    var n := DigitRun(t);
    if n == 0 || (n > 1 && Starts(t, "0")) then Fails else Reads(Decimal(t[..n]), t[n..])
  }

  function ReadInt(t: Text): (r: Parsed<int>)
    ensures r.Reads? ==> |r.rest| < |t|
  {
    if Starts(t, "-") then
      var r := ReadDigits(t[1..]);
      if r.Reads? then Reads(-r.value, r.rest) else Fails
    else ReadDigits(t)
  }

  function HexValue(u: CodeUnit): int {
    if '0' as int <= u <= '9' as int then u - '0' as int
    else if 'a' as int <= u <= 'f' as int then u - 'a' as int + 10
    else -1
  }

  /** An escape: the backslash and what belongs to it. */
  function ReadEscape(t: Text): (r: Parsed<CodeUnit>)
    ensures r.Reads? ==> |r.rest| < |t|
  {
    if |t| < 2 || !Starts(t, "\\") then Fails
    else if t[1] == 'u' as int then
      if |t| < 6 || HexValue(t[2]) < 0 || HexValue(t[3]) < 0 || HexValue(t[4]) < 0 || HexValue(t[5]) < 0 then Fails
      else
        Reads(((HexValue(t[2]) * 16 + HexValue(t[3])) * 16 + HexValue(t[4])) * 16 + HexValue(t[5]), t[6..])
    else if t[1] == 'b' as int then Reads(8, t[2..])
    else if t[1] == 't' as int then Reads(9, t[2..])
    else if t[1] == 'n' as int then Reads(10, t[2..])
    else if t[1] == 'f' as int then Reads(12, t[2..])
    else if t[1] == 'r' as int then Reads(13, t[2..])
    else if t[1] == '"' as int || t[1] == '\\' as int || t[1] == '/' as int then Reads(t[1], t[2..])
    else Fails
  }

  /** A string behind its opening quote. */
  function ReadString(t: Text): (r: Parsed<Text>)
    ensures r.Reads? ==> |r.rest| < |t|
    decreases |t|
  {
    if t == [] then Fails
    else if Starts(t, "\"") then Reads([], t[1..])
    else if Starts(t, "\\") then
      var e := ReadEscape(t);
      if e.Reads? then Prepend([e.value], ReadString(e.rest)) else Fails
    else if t[0] < 0x20 || IsTrail(t[0]) then Fails
    else if IsLead(t[0]) then
      if |t| > 1 && IsTrail(t[1]) then Prepend(t[..2], ReadString(t[2..])) else Fails
    else Prepend(t[..1], ReadString(t[1..]))
  }

  function Prepend(p: Text, r: Parsed<Text>): Parsed<Text> {
    if r.Reads? then Reads(p + r.value, r.rest) else Fails
  }

  // ---- reading undoes printing ----------------------------------------------------------

  /** What can follow a printed value. */
  predicate Delimited(r: Text) {
    r == [] || r[0] == COMMA || r[0] == CLOSE_BRACKET || r[0] == CLOSE_BRACE
  }

  lemma Regroup(c: CodeUnit, p: Text, q: Text, x: Text)
    ensures [c] + p + q + x == [c] + (p + (q + x))
  {
  }

  lemma Assoc(p: Text, q: Text, x: Text)
    ensures p + q + x == p + (q + x)
  {
  }

  lemma {:induction false} DigitsRead(n: nat, x: Text)
    requires Delimited(x)
    ensures var t := Digits(n) + x; DigitRun(t) == |Digits(n)| && t[|Digits(n)|..] == x
    ensures Decimal(Digits(n)) == n
    ensures |Digits(n)| > 1 ==> Digits(n)[0] != 48
  {
    DigitsDecimal(n);
    RunOf(Digits(n), x);
  }

  lemma {:induction false} DigitsDecimal(n: nat)
    ensures Decimal(Digits(n)) == n
    ensures n > 0 ==> Digits(n)[0] != 48
  {
    if n >= 10 {
      DigitsDecimal(n / 10);
      assert Digits(n)[..|Digits(n)| - 1] == Digits(n / 10);
    } else {
      assert Digits(n)[..0] == [];
    }
  }

  lemma {:induction false} RunOf(s: Text, x: Text)
    requires forall i :: 0 <= i < |s| ==> IsDigit(s[i])
    requires Delimited(x)
    ensures DigitRun(s + x) == |s|
  {
    if s == [] {
      assert s + x == x;
    } else {
      RunOf(s[1..], x);
      assert (s + x)[1..] == s[1..] + x && (s + x)[0] == s[0];
    }
  }

  lemma IntReads(n: int, x: Text)
    requires Delimited(x)
    ensures ReadInt(PrintInt(n) + x) == Reads(n, x)
  {
    var m: nat := if n < 0 then -n else n;
    DigitsRead(m, x);
    var t := Digits(m) + x;
    assert t[..|Digits(m)|] == Digits(m) && t[0] == Digits(m)[0];
    if n < 0 {
      Assoc([MINUS], Digits(m), x);
      assert ([MINUS] + t)[1..] == t;
    }
  }

  lemma FourNibbles(u: CodeUnit)
    ensures u == ((u / 4096 * 16 + u / 256 % 16) * 16 + u / 16 % 16) * 16 + u % 16
  {
    var a, b, c := u / 16, u / 256, u / 4096;
    assert a / 16 == b && b / 16 == c;
    assert u == 16 * a + u % 16 && a == 16 * b + a % 16 && b == 16 * c + b % 16;
  }

  lemma HexReads(d: int)
    requires 0 <= d < 16
    ensures HexValue(HexUnit(d)) == d
  {
  }

  lemma EscapeReads(u: CodeUnit, x: Text)
    requires |Escape(u)| > 1
    ensures ReadEscape(Escape(u) + x) == Reads(u, x)
  {
    var t := Escape(u) + x;
    assert t[|Escape(u)|..] == x;
    assert t[0] == Escape(u)[0] && t[1] == Escape(u)[1];
    if |Escape(u)| == 6 {
      assert t[2] == Escape(u)[2] && t[3] == Escape(u)[3] && t[4] == Escape(u)[4] && t[5] == Escape(u)[5];
      HexReads(u / 4096);
      HexReads(u / 256 % 16);
      HexReads(u / 16 % 16);
      HexReads(u % 16);
      FourNibbles(u);
    }
  }

  predicate Paired(s: Text) {
    |s| > 1 && IsLead(s[0]) && IsTrail(s[1])
  }

  lemma QuoteStep(s: Text, x: Text)
    ensures s == [] ==> QuoteRest(s) + x == [QUOTE] + x
    ensures s != [] && Paired(s) ==> QuoteRest(s) + x == [s[0], s[1]] + (QuoteRest(s[2..]) + x)
    ensures s != [] && !Paired(s) ==> QuoteRest(s) + x == Escape(s[0]) + (QuoteRest(s[1..]) + x)
  {
    if s != [] {
      if Paired(s) {
        Assoc([s[0], s[1]], QuoteRest(s[2..]), x);
      } else {
        Assoc(Escape(s[0]), QuoteRest(s[1..]), x);
      }
    }
  }

  lemma UnitReads(u: CodeUnit, x: Text)
    ensures ReadString(Escape(u) + x) == Prepend([u], ReadString(x))
  {
    var t := Escape(u) + x;
    if |Escape(u)| > 1 {
      EscapeReads(u, x);
      assert t[0] == BACKSLASH;
    } else {
      assert t[0] == u && t[..1] == [u] && t[1..] == x;
    }
  }

  lemma PairReads(a: CodeUnit, b: CodeUnit, x: Text)
    requires IsLead(a) && IsTrail(b)
    ensures ReadString([a, b] + x) == Prepend([a, b], ReadString(x))
  {
    var t := [a, b] + x;
    assert t[..2] == [a, b] && t[2..] == x;
  }

  lemma EndReads(x: Text)
    ensures ReadString([QUOTE] + x) == Reads([], x)
  {
    assert ([QUOTE] + x)[1..] == x;
  }

  lemma {:induction false} StringReads(s: Text, x: Text)
    ensures ReadString(QuoteRest(s) + x) == Reads(s, x)
    decreases |s|
  {
    QuoteStep(s, x);
    if s == [] {
      EndReads(x);
    } else if Paired(s) {
      StringReads(s[2..], x);
      PairReads(s[0], s[1], QuoteRest(s[2..]) + x);
      assert [s[0], s[1]] + s[2..] == s;
    } else {
      StringReads(s[1..], x);
      UnitReads(s[0], QuoteRest(s[1..]) + x);
      assert [s[0]] + s[1..] == s;
    }
  }

  /** The printed form of a string is a shortest one that reads as this string: nothing is escaped
      without need, and every escape is the shortest there is. */
  lemma {:induction false} ShortestString(t: Text)
    requires ReadString(t).Reads?
    ensures var r := ReadString(t); |QuoteRest(r.value)| + |r.rest| <= |t|
    decreases |t|
  {
    if !Starts(t, "\"") {
      if Starts(t, "\\") {
        var e := ReadEscape(t);
        ShortestString(e.rest);
        QuoteGrows(e.value, ReadString(e.rest).value);
        EscapeIsShort(t);
      } else if IsLead(t[0]) {
        ShortestString(t[2..]);
        var s := ReadString(t[2..]).value;
        assert (t[..2] + s)[2..] == s;
      } else {
        ShortestString(t[1..]);
        var s := ReadString(t[1..]).value;
        assert t[..1] == [t[0]];
        QuoteGrows(t[0], s);
      }
    }
  }

  lemma EscapeIsShort(t: Text)
    requires ReadEscape(t).Reads?
    ensures |Escape(ReadEscape(t).value)| + |ReadEscape(t).rest| <= |t|
  {
  }

  lemma QuoteGrows(u: CodeUnit, s: Text)
    ensures |QuoteRest([u] + s)| <= |Escape(u)| + |QuoteRest(s)|
  {
    assert ([u] + s)[1..] == s;
    if IsLead(u) && s != [] && IsTrail(s[0]) {
      assert ([u] + s)[2..] == s[1..];
    }
  }

  lemma PrintHead(v: Tree, x: Text)
    ensures var t := Print(v) + x;
      && t != []
      && (v.TNum? ==> t[0] == MINUS || IsDigit(t[0]))
      && (v.TArr? ==> t[0] == OPEN_BRACKET)
      && (v.TObj? ==> t[0] == OPEN_BRACE)
      && t[0] != CLOSE_BRACKET && t[0] != CLOSE_BRACE
  {
    if v.TNum? {
      assert v.n >= 0 ==> IsDigit(Digits(v.n)[0]);
    }
  }

  lemma NullReads(x: Text)
    ensures Read(Print(TNull) + x) == Reads(TNull, x)
  {
    var t := Print(TNull) + x;
    assert t[0] == 110 && t[1] == 117 && t[2] == 108 && t[3] == 108 && t[4..] == x;
  }

  lemma BoolReads(b: bool, x: Text)
    ensures Read(Print(TBool(b)) + x) == Reads(TBool(b), x)
  {
    var t := Print(TBool(b)) + x;
    if b {
      assert t[0] == 116 && t[1] == 114 && t[2] == 117 && t[3] == 101 && t[4..] == x;
    } else {
      assert t[0] == 102 && t[1] == 97 && t[2] == 108 && t[3] == 115 && t[4] == 101 && t[5..] == x;
    }
  }

  /** The first unit decides what is read. */
  lemma ReadDispatch(t: Text)
    requires t != []
    ensures t[0] == MINUS || IsDigit(t[0]) ==>
              var r := ReadInt(t);
              Read(t) == if r.Reads? && -0x1F_FFFF_FFFF_FFFF <= r.value <= 0x1F_FFFF_FFFF_FFFF
                         then Reads(TNum(r.value), r.rest) else Fails
    ensures t[0] == QUOTE ==>
              var r := ReadString(t[1..]); Read(t) == if r.Reads? then Reads(TStr(r.value), r.rest) else Fails
    ensures t[0] == OPEN_BRACKET ==> Read(t) == ReadArray(t[1..])
    ensures t[0] == OPEN_BRACE ==> Read(t) == ReadObject(t[1..])
  {
  }

  lemma NumReads(n: SafeInt, x: Text)
    requires Delimited(x)
    ensures Read(Print(TNum(n)) + x) == Reads(TNum(n), x)
  {
    PrintHead(TNum(n), x);
    IntReads(n, x);
    ReadDispatch(Print(TNum(n)) + x);
  }

  lemma StrReads(s: Text, x: Text)
    ensures Read(Print(TStr(s)) + x) == Reads(TStr(s), x)
  {
    var t := [QUOTE] + (QuoteRest(s) + x);
    Assoc([QUOTE], QuoteRest(s), x);
    assert t[1..] == QuoteRest(s) + x;
    StringReads(s, x);
    ReadDispatch(t);
  }

  /** Reading a printed value, whatever delimited text follows, gives this value and leaves that text. */
  lemma {:induction false} ReadPrint(v: Tree, x: Text)
    requires Delimited(x)
    ensures Read(Print(v) + x) == Reads(v, x)
    decreases v, 1
  {
    match v {
      case TNull => NullReads(x);
      case TBool(b) => BoolReads(b, x);
      case TNum(n) => NumReads(n, x);
      case TStr(s) => StrReads(s, x);
      case TArr(items) => ArrayReads(items, x);
      case TObj(members) => ObjectReads(members, x);
    }
  }

  lemma ArrayText(s: seq<Tree>, x: Text)
    ensures s == [] ==> Print(TArr(s)) + x == [OPEN_BRACKET] + ([CLOSE_BRACKET] + x)
    ensures s != [] ==> Print(TArr(s)) + x == [OPEN_BRACKET] + (Print(s[0]) + (PrintItems(s[1..]) + x))
  {
    if s != [] { Regroup(OPEN_BRACKET, Print(s[0]), PrintItems(s[1..]), x); }
  }

  lemma ArrayBehind(t: Text, v: Tree, rest: Text, others: seq<Tree>, x: Text)
    requires t != [] && t[0] != CLOSE_BRACKET
    requires Read(t) == Reads(v, rest) && ReadItems(rest) == Reads(others, x)
    ensures Read([OPEN_BRACKET] + t) == Reads(TArr([v] + others), x)
  {
    ReadDispatch([OPEN_BRACKET] + t);
    assert ([OPEN_BRACKET] + t)[1..] == t;
  }

  lemma EmptyReads(x: Text)
    ensures Read([OPEN_BRACKET] + ([CLOSE_BRACKET] + x)) == Reads(TArr([]), x)
    ensures Read([OPEN_BRACE] + ([CLOSE_BRACE] + x)) == Reads(TObj([]), x)
  {
    var t, u := [CLOSE_BRACKET] + x, [CLOSE_BRACE] + x;
    assert t[1..] == x && u[1..] == x;
    ReadDispatch([OPEN_BRACKET] + t);
    ReadDispatch([OPEN_BRACE] + u);
    assert ([OPEN_BRACKET] + t)[1..] == t && ([OPEN_BRACE] + u)[1..] == u;
  }

  lemma {:induction false} ArrayReads(s: seq<Tree>, x: Text)
    ensures Read(Print(TArr(s)) + x) == Reads(TArr(s), x)
    decreases s, 1
  {
    ArrayText(s, x);
    if s == [] {
      EmptyReads(x);
    } else {
      var rest := PrintItems(s[1..]) + x;
      PrintHead(s[0], rest);
      ItemsDelimited(s[1..], x);
      ReadPrint(s[0], rest);
      ItemsRead(s[1..], x);
      ArrayBehind(Print(s[0]) + rest, s[0], rest, s[1..], x);
      assert [s[0]] + s[1..] == s;
    }
  }

  lemma ItemsDelimited(s: seq<Tree>, x: Text)
    ensures Delimited(PrintItems(s) + x)
    ensures s == [] ==> PrintItems(s) + x == [CLOSE_BRACKET] + x
    ensures s != [] ==> PrintItems(s) + x == [COMMA] + (Print(s[0]) + (PrintItems(s[1..]) + x))
  {
    if s != [] { Regroup(COMMA, Print(s[0]), PrintItems(s[1..]), x); }
  }

  lemma {:induction false} ItemsRead(s: seq<Tree>, x: Text)
    ensures ReadItems(PrintItems(s) + x) == Reads(s, x)
    decreases s, 0
  {
    ItemsDelimited(s, x);
    if s == [] {
      assert ([CLOSE_BRACKET] + x)[1..] == x;
    } else {
      var rest := PrintItems(s[1..]) + x;
      assert ([COMMA] + (Print(s[0]) + rest))[1..] == Print(s[0]) + rest;
      ItemsDelimited(s[1..], x);
      ReadPrint(s[0], rest);
      ItemsRead(s[1..], x);
      assert [s[0]] + s[1..] == s;
    }
  }

  lemma MemberStep(m: Member, x: Text)
    ensures PrintMember(m) + x == [QUOTE] + (QuoteRest(m.key) + ([COLON] + (Print(m.value) + x)))
  {
    var k, v := QuoteRest(m.key), Print(m.value);
    Regroup(QUOTE, k, [COLON] + v, x);
    assert [QUOTE] + k + [COLON] + v == [QUOTE] + k + ([COLON] + v);
    assert [COLON] + v + x == [COLON] + (v + x);
  }

  lemma {:induction false} MemberReads(m: Member, x: Text)
    requires Delimited(x)
    ensures ReadMember(PrintMember(m) + x) == Reads(m, x)
    decreases m, 2
  {
    MemberStep(m, x);
    var value := Print(m.value) + x;
    var rest := [COLON] + value;
    assert ([QUOTE] + (QuoteRest(m.key) + rest))[1..] == QuoteRest(m.key) + rest;
    StringReads(m.key, rest);
    assert rest[1..] == value;
    ReadPrint(m.value, x);
  }

  lemma ObjectText(s: seq<Member>, x: Text)
    ensures s == [] ==> Print(TObj(s)) + x == [OPEN_BRACE] + ([CLOSE_BRACE] + x)
    ensures s != [] ==> Print(TObj(s)) + x == [OPEN_BRACE] + (PrintMember(s[0]) + (PrintMembers(s[1..]) + x))
  {
    if s != [] { Regroup(OPEN_BRACE, PrintMember(s[0]), PrintMembers(s[1..]), x); }
  }

  lemma ObjectBehind(t: Text, m: Member, rest: Text, others: seq<Member>, x: Text)
    requires t != [] && t[0] != CLOSE_BRACE
    requires ReadMember(t) == Reads(m, rest) && ReadMembers(rest) == Reads(others, x)
    ensures Read([OPEN_BRACE] + t) == Reads(TObj([m] + others), x)
  {
    ReadDispatch([OPEN_BRACE] + t);
    assert ([OPEN_BRACE] + t)[1..] == t;
  }

  lemma {:induction false} ObjectReads(s: seq<Member>, x: Text)
    ensures Read(Print(TObj(s)) + x) == Reads(TObj(s), x)
    decreases s, 1
  {
    ObjectText(s, x);
    if s == [] {
      EmptyReads(x);
    } else {
      var rest := PrintMembers(s[1..]) + x;
      MembersDelimited(s[1..], x);
      MemberReads(s[0], rest);
      MembersRead(s[1..], x);
      assert (PrintMember(s[0]) + rest)[0] == QUOTE;
      ObjectBehind(PrintMember(s[0]) + rest, s[0], rest, s[1..], x);
      assert [s[0]] + s[1..] == s;
    }
  }

  lemma MembersDelimited(s: seq<Member>, x: Text)
    ensures Delimited(PrintMembers(s) + x)
    ensures s == [] ==> PrintMembers(s) + x == [CLOSE_BRACE] + x
    ensures s != [] ==> PrintMembers(s) + x == [COMMA] + (PrintMember(s[0]) + (PrintMembers(s[1..]) + x))
  {
    if s != [] { Regroup(COMMA, PrintMember(s[0]), PrintMembers(s[1..]), x); }
  }

  lemma {:induction false} MembersRead(s: seq<Member>, x: Text)
    ensures ReadMembers(PrintMembers(s) + x) == Reads(s, x)
    decreases s, 0
  {
    MembersDelimited(s, x);
    if s == [] {
      assert ([CLOSE_BRACE] + x)[1..] == x;
    } else {
      var rest := PrintMembers(s[1..]) + x;
      assert ([COMMA] + (PrintMember(s[0]) + rest))[1..] == PrintMember(s[0]) + rest;
      MembersDelimited(s[1..], x);
      MemberReads(s[0], rest);
      MembersRead(s[1..], x);
      assert [s[0]] + s[1..] == s;
    }
  }

  /** So no two values print alike, whatever delimited text follows. */
  lemma PrintUnambiguous(v: Tree, w: Tree, x: Text, y: Text)
    requires Print(v) + x == Print(w) + y
    requires Delimited(x) && Delimited(y)
    ensures v == w && x == y
  {
    ReadPrint(v, x);
    ReadPrint(w, y);
  }
}
