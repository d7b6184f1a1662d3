/**
 Reading an ID map back from /proc: the kernel prints one row per line with every number
 padded to ten columns, the parent reads at most 256 bytes, splits on white space and
 compares three fields (crates/shbox-sandbox/src/linux/mod.rs).
 */
module ProcMaps {
  import opened KernelTurns
  import opened Options

  const BUFFER: nat := 256

  datatype Row = Row(inside: nat, outside: nat, length: nat) {
    predicate Fits() {
      inside < 0x1_0000_0000 && outside < 0x1_0000_0000 && length < 0x1_0000_0000
    }
  }

  // ---- decimal numbers ---------------------------------------------------------------

  function Digits(n: nat): string {
    if n < 10 then ["0123456789"[n]] else Digits(n / 10) + ["0123456789"[n % 10]]
  }

  function Value(s: string): int {
    if s == [] then 0 else Value(s[..|s| - 1]) * 10 + (s[|s| - 1] as int - '0' as int)
  }

  lemma DigitValue(d: nat)
    requires d < 10
    ensures "0123456789"[d] as int - '0' as int == d
    ensures !Space("0123456789"[d])
  {
  }

  lemma {:induction false} DigitsRead(n: nat)
    ensures Value(Digits(n)) == n
    ensures forall i :: 0 <= i < |Digits(n)| ==> !Space(Digits(n)[i])
  {
    DigitValue(n % 10);
    if n < 10 {
      assert Digits(n)[..0] == [];
    } else {
      DigitsRead(n / 10);
      assert Digits(n)[..|Digits(n)| - 1] == Digits(n / 10);
    }
  }

  lemma {:induction false} DigitsLength(n: nat, width: nat, bound: nat)
    requires width >= 1 && n < bound && bound == Power10(width)
    ensures 1 <= |Digits(n)| <= width
  {
    if n >= 10 {
      DigitsLength(n / 10, width - 1, Power10(width - 1));
    }
  }

  function Power10(k: nat): nat {
    if k == 0 then 1 else 10 * Power10(k - 1)
  }

  // ---- the text ----------------------------------------------------------------------

  predicate Space(c: char) {
    c == ' ' || c == '\n' || c == '\t' || c == '\r'
  }

  /** White-space splitting; `word` is the field being read. */
  function Words(s: string, word: string): seq<string> {
    if s == [] then (if word == [] then [] else [word])
    else if Space(s[0]) then (if word == [] then [] else [word]) + Words(s[1..], [])
    else Words(s[1..], word + [s[0]])
  }

  function Fields(text: string): seq<string> {
    Words(text, [])
  }

  function Blanks(k: nat): string {
    if k == 0 then "" else " " + Blanks(k - 1)
  }

  function Column(n: nat): string {
    Blanks(if |Digits(n)| < 10 then 10 - |Digits(n)| else 0) + Digits(n)
  }

  function Line(row: Row): string {
    Column(row.inside) + " " + Column(row.outside) + " " + Column(row.length) + "\n"
  }

  /** The map file as the kernel prints it. */
  function Render(rows: seq<Row>): string {
    if rows == [] then "" else Line(rows[0]) + Render(rows[1..])
  }

  /** The comparison the parent makes. */
  predicate Expected(text: string, inside: nat, outside: nat) {
    Fields(text) == [Digits(inside), Digits(outside), "1"]
  }

  function Truncated(text: string): string {
    if |text| <= BUFFER then text else text[..BUFFER]
  }

  /** The read loop: partial reads accumulate, interrupted ones are repeated, a failing one
      ends the whole entry. */
  method ReadEntry(content: string, turns: seq<Turn>) returns (text: Option<string>)
    ensures text.Some? ==> text.value == Truncated(content)
    ensures Unbroken(turns) ==> text.Some?
  {
    var buffer := "";
    var turn := 0;
    while true
      invariant |buffer| < BUFFER && |buffer| <= |content| && buffer == content[..|buffer|] && turn <= |turns|
      decreases |content| - |buffer|, |turns| - turn
    {
      var answer := if turn < |turns| then turns[turn] else Move(BUFFER);
      turn := if turn < |turns| then turn + 1 else turn;
      match answer
      case Interrupted =>
      case Broken => return None;
      case Move(count) =>
        var left, room := |content| - |buffer|, BUFFER - |buffer|;
        var most := if left < room then left else room;
        if most == 0 {
          break;
        }
        buffer := buffer + content[|buffer|..|buffer| + Moved(count, most)];
        if |buffer| == BUFFER {
          break;
        }
    }
    assert |buffer| == |content| ==> content[..|buffer|] == content;
    text := Some(buffer);
  }

  lemma {:induction false} BlanksSkipped(k: nat, rest: string)
    ensures |Blanks(k)| == k && Words(Blanks(k) + rest, []) == Words(rest, [])
  {
    if k == 0 {
      assert Blanks(k) + rest == rest;
    } else {
      BlanksSkipped(k - 1, rest);
      assert (Blanks(k) + rest)[1..] == Blanks(k - 1) + rest;
    }
  }

  lemma {:induction false} WordRead(w: string, rest: string, word: string)
    requires forall i :: 0 <= i < |w| ==> !Space(w[i])
    ensures Words(w + rest, word) == Words(rest, word + w)
  {
    if w == [] {
      assert w + rest == rest && word + w == word;
    } else {
      WordRead(w[1..], rest, word + [w[0]]);
      assert (w + rest)[1..] == w[1..] + rest;
      assert word + [w[0]] + w[1..] == word + w;
    }
  }

  lemma WordEnds(w: string, sep: char, rest: string)
    requires w != [] && Space(sep)
    ensures Words([sep] + rest, w) == [w] + Words(rest, [])
  {
    assert ([sep] + rest)[1..] == rest;
  }

  lemma PaddedRead(k: nat, w: string, sep: char, rest: string)
    requires w != [] && Space(sep) && forall i :: 0 <= i < |w| ==> !Space(w[i])
    ensures Words(Blanks(k) + (w + ([sep] + rest)), []) == [w] + Words(rest, [])
  {
    BlanksSkipped(k, w + ([sep] + rest));
    WordRead(w, [sep] + rest, []);
    assert [] + w == w;
    WordEnds(w, sep, rest);
  }

  lemma ColumnRead(n: nat, sep: char, rest: string)
    requires Space(sep)
    ensures Words(Column(n) + ([sep] + rest), []) == [Digits(n)] + Words(rest, [])
  {
    var d := Digits(n);
    var k := if |d| < 10 then 10 - |d| else 0;
    DigitsRead(n);
    Regroup(Blanks(k), d, [sep] + rest);
    PaddedRead(k, d, sep, rest);
  }

  lemma Regroup(a: string, b: string, c: string)
    ensures (a + b) + c == a + (b + c)
  {
  }

  lemma LineRead(row: Row, rest: string)
    ensures Fields(Line(row) + rest) == [Digits(row.inside), Digits(row.outside), Digits(row.length)] + Fields(rest)
  {
    var last := Column(row.length) + (['\n'] + rest);
    var middle := Column(row.outside) + ([' '] + last);
    assert Line(row) + rest == Column(row.inside) + ([' '] + middle);
    ColumnRead(row.inside, ' ', middle);
    ColumnRead(row.outside, ' ', last);
    ColumnRead(row.length, '\n', rest);
  }

  lemma LineLength(row: Row)
    requires row.Fits()
    ensures |Line(row)| == 33
  {
    ColumnLength(row.inside);
    ColumnLength(row.outside);
    ColumnLength(row.length);
  }

  lemma ColumnLength(n: nat)
    requires n < 0x1_0000_0000
    ensures |Column(n)| == 10
  {
    PowerTen();
    DigitsLength(n, 10, Power10(10));
    BlanksSkipped(10 - |Digits(n)|, []);
  }

  lemma PowerTen()
    ensures Power10(10) == 10_000_000_000
  {
    assert Power10(4) == 10_000;
    assert Power10(7) == 10_000_000;
  }

  /** The comparison on the text the parent read succeeds exactly when the map is the one
      expected row; cutting the text at 256 bytes never hides further rows. */
  lemma ReadBackIsExact(rows: seq<Row>, inside: nat, outside: nat)
    requires forall row :: row in rows ==> row.Fits()
    ensures Expected(Truncated(Render(rows)), inside, outside) <==> rows == [Row(inside, outside, 1)]
  {
    if |rows| == 1 {
      OneRow(rows[0], inside, outside);
      assert rows == [rows[0]];
    } else if |rows| > 1 {
      TwoRows(rows);
    }
  }

  lemma OneRow(row: Row, inside: nat, outside: nat)
    requires row.Fits()
    ensures Expected(Truncated(Render([row])), inside, outside) <==> row == Row(inside, outside, 1)
  {
    LineLength(row);
    LineRead(row, "");
    assert Render([row]) == Line(row) + "";
    assert Digits(1) == "1";
    DigitsRead(row.inside);
    DigitsRead(row.outside);
    DigitsRead(row.length);
    DigitsRead(inside);
    DigitsRead(outside);
    DigitsRead(1);
    var f := Fields(Line(row) + "");
    assert f == [Digits(row.inside), Digits(row.outside), Digits(row.length)];
    assert f == [Digits(inside), Digits(outside), "1"] <==>
           f[0] == Digits(inside) && f[1] == Digits(outside) && f[2] == "1";
  }

  lemma TwoRows(rows: seq<Row>)
    requires |rows| > 1 && forall row :: row in rows ==> row.Fits()
    ensures |Fields(Truncated(Render(rows)))| > 3
  {
    var a, b, tail := Line(rows[0]), Line(rows[1]), Render(rows[2..]);
    LineLength(rows[0]);
    LineLength(rows[1]);
    assert rows[1..][0] == rows[1] && rows[1..][1..] == rows[2..];
    assert Render(rows) == a + (b + tail);
    var text := Truncated(Render(rows));
    assert text[..33] == a && text[33..66] == b;
    assert text == a + (b + text[66..]);
    LineRead(rows[0], b + text[66..]);
    LineRead(rows[1], text[66..]);
  }
}
