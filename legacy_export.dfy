/**
 * The one-line text form of a legacy element (`BranchElement.__str__` in
 * branch_element.py): `- [name,idx0,idx1,v1,...,vk]`, with the property values
 * in insertion order. Property values are kept as their text.
 *
 * The partner of the printer is a reader: the comma fields of the line between
 * "- [" and "]" give back the name, the two node indices and the values.
 */
module LegacyExport {
  import opened Lists

  /** The character of a decimal digit. */
  function DigitChar(d: nat): (c: char)
    requires d < 10
    ensures '0' <= c <= '9'
  {
    (48 + d) as char
  }

  /** The value of a decimal digit character. */
  function DigitValue(c: char): int
  {
    c as int - 48
  }

  /** Python's `str(n)` for a natural number: its decimal digits, most significant first. */
  function NatStr(n: nat): (s: string)
    ensures |s| >= 1
    ensures forall i :: 0 <= i < |s| ==> '0' <= s[i] <= '9'
    decreases n
  {
    if n < 10 then [DigitChar(n)] else NatStr(n / 10) + [DigitChar(n % 10)]
  }

  /** Python's `str(i)` for an integer: a minus sign in front of the digits when negative. */
  function IntStr(i: int): (s: string)
    ensures |s| >= 1
    ensures ',' !in s
  {
    if i < 0 then "-" + NatStr(-i) else NatStr(i)
  }

  /** The value of a string of decimal digits. */
  function ParseNat(s: string): int
  {
    if s == [] then 0 else ParseNat(s[..|s| - 1]) * 10 + DigitValue(s[|s| - 1])
  }

  /** The value of an optionally signed decimal string. */
  function ParseInt(s: string): int
  {
    if |s| > 0 && s[0] == '-' then -ParseNat(s[1..]) else ParseNat(s)
  }

  /** Reading back the digits of n gives n. */
  lemma {:induction false} NatStrRoundTrip(n: nat)
    ensures ParseNat(NatStr(n)) == n
  {
    var s := NatStr(n);
    if n < 10 {
      assert s[..|s| - 1] == [];
    } else {
      NatStrRoundTrip(n / 10);
      assert s[..|s| - 1] == NatStr(n / 10);
    }
  }

  /** Reading back `str(i)` gives i. */
  lemma IntStrRoundTrip(i: int)
    ensures ParseInt(IntStr(i)) == i
  {
    if i < 0 {
      NatStrRoundTrip(-i);
      assert IntStr(i)[1..] == NatStr(-i);
    } else {
      NatStrRoundTrip(i);
    }
  }

  /** `",".join(xs)` for a non-empty list of strings. */
  function Join(xs: seq<string>): string
    requires |xs| >= 1
    decreases |xs|
  {
    if |xs| == 1 then xs[0] else xs[0] + "," + Join(xs[1..])
  }

  /** `s.split(",")`: the pieces between the commas, in order; a string without a comma is one piece. */
  function Split(s: string): (r: seq<string>)
    ensures |r| >= 1
    decreases |s|
  {
    if ',' in s then
      var k := IndexOf(s, ',');
      [s[..k]] + Split(s[k + 1..])
    else [s]
  }

  /** No piece contains the separator. */
  predicate CommaFree(xs: seq<string>)
  {
    forall i :: 0 <= i < |xs| ==> ',' !in xs[i]
  }

  /** Splitting a join of comma-free pieces gives the pieces back. */
  lemma {:induction false} SplitJoin(xs: seq<string>)
    requires |xs| >= 1 && CommaFree(xs)
    ensures Split(Join(xs)) == xs
  {
    if |xs| == 1 {
      assert ',' !in xs[0];
    } else {
      var rest := xs[1..];
      assert CommaFree(rest) by {
        forall i | 0 <= i < |rest|
          ensures ',' !in rest[i]
        {
          assert rest[i] == xs[i + 1];
        }
      }
      SplitJoin(rest);
      assert ',' !in xs[0];
      SplitCons(xs[0], Join(rest));
    }
  }

  /** Splitting a comma-free piece, a comma and the rest gives that piece, then the pieces of the rest. */
  lemma SplitCons(h: string, t: string)
    requires ',' !in h
    ensures Split(h + "," + t) == [h] + Split(t)
  {
    var s := h + "," + t;
    assert s[|h|] == ',';
    assert forall j :: 0 <= j < |h| ==> s[j] == h[j];
    var k := IndexOf(s, ',');
    assert k == |h|;
    assert s[..|h|] == h;
    assert s[|h| + 1..] == t;
  }

  /** `"".join(f"{v}," for v in vals)`: every value followed by a comma. */
  function Terminated(vals: seq<string>): string
    decreases |vals|
  {
    if vals == [] then "" else vals[0] + "," + Terminated(vals[1..])
  }

  /** `props_string[:-1]`: the terminated values without the final character (empty stays empty). */
  function PropsString(vals: seq<string>): string
  {
    var t := Terminated(vals);
    if t == "" then "" else t[..|t| - 1]
  }

  /** Each value followed by a comma is the comma join plus one trailing comma. */
  lemma {:induction false} TerminatedIsJoin(vals: seq<string>)
    requires |vals| >= 1
    ensures Terminated(vals) == Join(vals) + ","
  {
    if |vals| > 1 {
      TerminatedIsJoin(vals[1..]);
      assert Terminated(vals) == vals[0] + "," + (Join(vals[1..]) + ",");
      assert vals[0] + "," + (Join(vals[1..]) + ",") == (vals[0] + "," + Join(vals[1..])) + ",";
    }
  }

  /** The values part is the comma join of the values, and empty when there are none. */
  lemma PropsStringJoins(vals: seq<string>)
    ensures vals == [] ==> PropsString(vals) == ""
    ensures vals != [] ==> PropsString(vals) == Join(vals)
  {
    if vals != [] {
      TerminatedIsJoin(vals);
      var t := Terminated(vals);
      assert t[..|t| - 1] == Join(vals);
    }
  }

  /** `__str__`: `- [name,idx0,idx1,props]` with the node indices printed by `str`. */
  function ExportLine(name: string, i0: int, i1: int, vals: seq<string>): string
  {
    "- [" + name + "," + IntStr(i0) + "," + IntStr(i1) + "," + PropsString(vals) + "]"
  }

  /** The fields of an exported line: the comma pieces between the leading "- [" and the closing "]". */
  function Fields(line: string): seq<string>
    requires |line| >= 4
  {
    Split(line[3..|line| - 1])
  }

  /** A piece in front of a join. */
  lemma JoinCons(h: string, tail: seq<string>)
    requires |tail| >= 1
    ensures Join([h] + tail) == h + "," + Join(tail)
  {
    assert ([h] + tail)[1..] == tail;
  }

  /** Three leading pieces joined in front of the join of the rest. */
  lemma JoinThree(a: string, b: string, c: string, tail: seq<string>)
    requires |tail| >= 1
    ensures Join([a, b, c] + tail) == a + "," + (b + "," + (c + "," + Join(tail)))
  {
    JoinCons(c, tail);
    JoinCons(b, [c] + tail);
    JoinCons(a, [b] + ([c] + tail));
    assert [a] + ([b] + ([c] + tail)) == [a, b, c] + tail;
  }

  /** The pieces of an exported line, before splitting. */
  function Pieces(name: string, i0: int, i1: int, vals: seq<string>): (xs: seq<string>)
    ensures |xs| >= 4
  {
    [name, IntStr(i0), IntStr(i1)] + (if vals == [] then [""] else vals)
  }

  /** The text between "- [" and "]" of a bracketed four-piece line is those pieces, right-grouped. */
  lemma Bracketed(a: string, b: string, c: string, j: string)
    ensures ("- [" + a + "," + b + "," + c + "," + j + "]")[3..|"- [" + a + "," + b + "," + c + "," + j + "]"| - 1]
            == a + "," + (b + "," + (c + "," + j))
  {
    var line := "- [" + a + "," + b + "," + c + "," + j + "]";
    var flat := a + "," + b + "," + c + "," + j;
    assert line == "- [" + flat + "]";
    assert line[3..|line| - 1] == flat;
  }

  /** Between its brackets, an exported line is the comma join of its pieces. */
  lemma ExportLineShape(name: string, i0: int, i1: int, vals: seq<string>)
    ensures |ExportLine(name, i0, i1, vals)| >= 4
    ensures ExportLine(name, i0, i1, vals)[..3] == "- ["
    ensures ExportLine(name, i0, i1, vals)[|ExportLine(name, i0, i1, vals)| - 1] == ']'
    ensures Fields(ExportLine(name, i0, i1, vals)) == Split(Join(Pieces(name, i0, i1, vals)))
  {
    var tail := if vals == [] then [""] else vals;
    PropsStringJoins(vals);
    JoinThree(name, IntStr(i0), IntStr(i1), tail);
    Bracketed(name, IntStr(i0), IntStr(i1), PropsString(vals));
  }

  /**
   * An exported line reads back: it starts with "- [" and ends with "]", its
   * fields are the name, the two indices and the values (a single empty field
   * when there are no values), and the index fields parse to the indices.
   */
  lemma ExportRoundTrip(name: string, i0: int, i1: int, vals: seq<string>)
    requires ',' !in name && CommaFree(vals)
    ensures |ExportLine(name, i0, i1, vals)| >= 4
    ensures ExportLine(name, i0, i1, vals)[..3] == "- ["
    ensures ExportLine(name, i0, i1, vals)[|ExportLine(name, i0, i1, vals)| - 1] == ']'
    ensures Fields(ExportLine(name, i0, i1, vals)) ==
              [name, IntStr(i0), IntStr(i1)] + (if vals == [] then [""] else vals)
    ensures ParseInt(Fields(ExportLine(name, i0, i1, vals))[1]) == i0
    ensures ParseInt(Fields(ExportLine(name, i0, i1, vals))[2]) == i1
  {
    var xs := Pieces(name, i0, i1, vals);
    ExportLineShape(name, i0, i1, vals);
    PiecesCommaFree(name, i0, i1, vals);
    SplitJoin(xs);
    assert Fields(ExportLine(name, i0, i1, vals)) == xs;
    IntStrRoundTrip(i0);
    IntStrRoundTrip(i1);
  }

  /** No piece of an exported line holds a comma when the name and the values hold none. */
  lemma PiecesCommaFree(name: string, i0: int, i1: int, vals: seq<string>)
    requires ',' !in name && CommaFree(vals)
    ensures CommaFree(Pieces(name, i0, i1, vals))
  {
    var xs := Pieces(name, i0, i1, vals);
    forall i | 0 <= i < |xs|
      ensures ',' !in xs[i]
    {
      if i >= 3 && vals != [] {
        assert xs[i] == vals[i - 3];
      }
    }
  }
}
