/** `renderTable`: one line per entry, the name left-aligned and the value
    right-aligned, each in a field of at least 20 characters, between pipes.
    Padding follows `String.prototype.padEnd` and `padStart`: it fills with
    spaces and never cuts a longer string. How a number becomes text
    (`Number.prototype.toString`) is left open as the parameter `fmt`. */
module Layout {

  /** Width of the name field and of the value field. */
  const Width: nat := 20

  /** Length of a line whose name and value both fit their fields: three pipes,
      two fields and the newline. */
  const LineLength: nat := 2 * Width + 4

  function Max(a: nat, b: nat): nat {
    if a < b then b else a
  }

  function Spaces(n: nat): (s: string)
    ensures |s| == n
    ensures forall i :: 0 <= i < n ==> s[i] == ' '
  {
    seq(n, _ => ' ')
  }

  /** `s.padEnd(width)`: `s` followed by as many spaces as it lacks. */
  function PadEnd(s: string, width: nat): (r: string)
    ensures |r| == Max(|s|, width)
    ensures r[..|s|] == s
    ensures forall i :: |s| <= i < |r| ==> r[i] == ' '
  {
    if |s| >= width then s else s + Spaces(width - |s|)
  }

  /** `s.padStart(width)`: as many spaces as `s` lacks, followed by `s`. */
  function PadStart(s: string, width: nat): (r: string)
    ensures |r| == Max(|s|, width)
    ensures r[|r| - |s|..] == s
    ensures forall i :: 0 <= i < |r| - |s| ==> r[i] == ' '
  {
    if |s| >= width then s else Spaces(width - |s|) + s
  }

  /** One line of the table: `|name|value|` and a newline. */
  function Row(name: string, value: string): (r: string)
    ensures |r| == 4 + Max(|name|, Width) + Max(|value|, Width)
  {
    "|" + PadEnd(name, Width) + "|" + PadStart(value, Width) + "|\n"
  }

  /** A row opens with a pipe, has a pipe right after the name field, and
      ends in a pipe and a newline. */
  lemma RowPipes(name: string, value: string)
    ensures var r := Row(name, value);
            r[0] == '|' && r[1 + Max(|name|, Width)] == '|' && r[|r| - 2..] == "|\n"
  {
    var left := PadEnd(name, Width);
    var r := "|" + left + "|" + PadStart(value, Width) + "|\n";
    assert r[1 + |left|] == '|';
  }

  /** The name starts right after the first pipe, complete and never cut,
      and the rest of its field is spaces. */
  lemma RowName(name: string, value: string)
    ensures var r := Row(name, value);
            && r[1..1 + |name|] == name
            && forall i :: 1 + |name| <= i < 1 + Max(|name|, Width) ==> r[i] == ' '
  {
    var left := PadEnd(name, Width);
    var r := "|" + left + "|" + PadStart(value, Width) + "|\n";
    assert r[1..1 + |left|] == left;
    forall i | 1 + |name| <= i < 1 + |left| ensures r[i] == ' ' {
      assert r[i] == left[i - 1];
    }
  }

  /** The value ends right before the last pipe, complete and never cut, and
      the rest of its field is spaces. */
  lemma RowValue(name: string, value: string)
    ensures var r := Row(name, value);
            && r[|r| - 2 - |value|..|r| - 2] == value
            && forall i :: 2 + Max(|name|, Width) <= i < |r| - 2 - |value| ==> r[i] == ' '
  {
    var left := PadEnd(name, Width);
    var right := PadStart(value, Width);
    var r := "|" + left + "|" + right + "|\n";
    assert r[2 + |left|..|r| - 2] == right;
    forall i | 2 + |left| <= i < |r| - 2 - |value| ensures r[i] == ' ' {
      assert r[i] == right[i - 2 - |left|];
    }
  }

  /** The text of the table for the first `|names|` entries. */
  function Table(names: seq<string>, values: seq<real>, fmt: real -> string): string
    requires |names| <= |values|
  {
    if names == [] then ""
    else
      var n := |names| - 1;
      Table(names[..n], values, fmt) + Row(names[n], fmt(values[n]))
  }

  /** `renderTable(row1, row2)`: appends one line per name, in order, reading
      the value at the same index. */
  method RenderTable(names: seq<string>, values: seq<real>, fmt: real -> string) returns (table: string)
    requires |names| <= |values|
    ensures table == Table(names, values, fmt)
    ensures names == [] ==> table == ""
    ensures |table| >= LineLength * |names|
  {
    table := "";
    var i := 0;
    while i < |names|
      invariant 0 <= i <= |names|
      invariant table == Table(names[..i], values, fmt)
      invariant |table| >= LineLength * i
    {
      assert names[..i + 1][..i] == names[..i];
      table := table + Row(names[i], fmt(values[i]));
      i := i + 1;
    }
    assert names[..|names|] == names;
  }

  /** Every name and every formatted value fits its field. */
  predicate Fits(names: seq<string>, values: seq<real>, fmt: real -> string)
    requires |names| <= |values|
  {
    forall i :: 0 <= i < |names| ==> |names[i]| <= Width && |fmt(values[i])| <= Width
  }

  lemma FitsPrefix(names: seq<string>, values: seq<real>, fmt: real -> string, n: nat)
    requires n <= |names| <= |values|
    requires Fits(names, values, fmt)
    ensures Fits(names[..n], values, fmt)
  {
    forall i | 0 <= i < n ensures |names[..n][i]| <= Width && |fmt(values[i])| <= Width {
      assert names[..n][i] == names[i];
    }
  }

  /** A row whose name and value fit their fields is `LineLength` long. */
  lemma RowLength(name: string, value: string)
    requires |name| <= Width && |value| <= Width
    ensures |Row(name, value)| == LineLength
  {
  }

  /** When everything fits, the table is `LineLength` characters per entry. */
  lemma {:induction false} TableLength(names: seq<string>, values: seq<real>, fmt: real -> string)
    requires |names| <= |values|
    requires Fits(names, values, fmt)
    ensures |Table(names, values, fmt)| == LineLength * |names|
    decreases |names|
  {
    if names != [] {
      var n := |names| - 1;
      var prefix := names[..n];
      FitsPrefix(names, values, fmt, n);
      TableLength(prefix, values, fmt);
      RowLength(names[n], fmt(values[n]));
      assert Table(names, values, fmt) == Table(prefix, values, fmt) + Row(names[n], fmt(values[n]));
    }
  }

  /** Line `i` of a table of `n` fitting lines lies inside it. */
  lemma LineBounds(i: nat, n: nat)
    requires i < n
    ensures 0 <= LineLength * i && LineLength * (i + 1) == LineLength * i + LineLength
    ensures LineLength * (i + 1) <= LineLength * n
  {
  }

  lemma SliceOfPrefix(a: string, b: string, lo: nat, hi: nat)
    requires lo <= hi <= |a|
    ensures (a + b)[lo..hi] == a[lo..hi]
  {
  }

  /** Line `i` of `t`, counting from zero in lines of `LineLength`
      characters, is `row`. */
  predicate HasLine(t: string, i: nat, row: string) {
    LineLength * (i + 1) <= |t| && t[LineLength * i..LineLength * (i + 1)] == row
  }

  /** When everything fits, line `i` of the table is exactly the row of entry
      `i`: one line per entry, in input order. */
  lemma {:induction false} TableLines(names: seq<string>, values: seq<real>, fmt: real -> string)
    requires |names| <= |values|
    requires Fits(names, values, fmt)
    ensures forall i :: 0 <= i < |names| ==> HasLine(Table(names, values, fmt), i, Row(names[i], fmt(values[i])))
    decreases |names|
  {
    if names != [] {
      var n := |names| - 1;
      var prefix := names[..n];
      FitsPrefix(names, values, fmt, n);
      TableLines(prefix, values, fmt);
      TableLength(prefix, values, fmt);
      var t := Table(prefix, values, fmt);
      var last := Row(names[n], fmt(values[n]));
      assert Table(names, values, fmt) == t + last;
      RowLength(names[n], fmt(values[n]));
      forall i | 0 <= i < |names|
        ensures HasLine(t + last, i, Row(names[i], fmt(values[i])))
      {
        LineBounds(i, |names|);
        if i < n {
          assert prefix[i] == names[i];
          LineBounds(i, n);
          SliceOfPrefix(t, last, LineLength * i, LineLength * (i + 1));
        } else {
          assert (t + last)[|t|..] == last;
        }
      }
    }
  }

  /** Padding adds only spaces, so it adds no newline. */
  lemma PadNoNewline(s: string, width: nat)
    requires '\n' !in s
    ensures '\n' !in PadEnd(s, width) && '\n' !in PadStart(s, width)
  {
    if |s| < width {
      assert PadEnd(s, width) == s + Spaces(width - |s|);
      assert PadStart(s, width) == Spaces(width - |s|) + s;
    }
  }

  /** A row holds one newline when neither its name nor its value holds one. */
  lemma RowNewline(name: string, value: string)
    requires '\n' !in name && '\n' !in value
    ensures multiset(Row(name, value))['\n'] == 1
  {
    var left := PadEnd(name, Width);
    var right := PadStart(value, Width);
    PadNoNewline(name, Width);
    PadNoNewline(value, Width);
    assert multiset(left)['\n'] == 0 && multiset(right)['\n'] == 0;
    calc {
      multiset(Row(name, value));
      multiset("|" + left + "|" + right + "|\n");
      multiset("|") + multiset(left) + multiset("|") + multiset(right) + multiset("|\n");
    }
  }

  /** When no name and no formatted value contains a newline, the table has
      exactly one newline per entry. */
  lemma {:induction false} TableNewlines(names: seq<string>, values: seq<real>, fmt: real -> string)
    requires |names| <= |values|
    requires forall i :: 0 <= i < |names| ==> '\n' !in names[i] && '\n' !in fmt(values[i])
    ensures multiset(Table(names, values, fmt))['\n'] == |names|
    decreases |names|
  {
    if names != [] {
      var n := |names| - 1;
      var prefix := names[..n];
      forall i | 0 <= i < |prefix| ensures '\n' !in prefix[i] && '\n' !in fmt(values[i]) {
        assert prefix[i] == names[i];
      }
      TableNewlines(prefix, values, fmt);
      RowNewline(names[n], fmt(values[n]));
      assert Table(names, values, fmt) == Table(prefix, values, fmt) + Row(names[n], fmt(values[n]));
    }
  }
}
