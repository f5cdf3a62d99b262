/**
 * The report line the performance counters print:
 * `Performance counter <name>: [v0,v1,...] us`, a comma between consecutive
 * values and none after the last.  Output is returned as a string.
 */
module PerfReport {

  predicate IsDigit(c: char) {
    '0' <= c <= '9'
  }

  function DigitChar(d: nat): (c: char)
    requires d < 10
    ensures IsDigit(c) && c as int - '0' as int == d
  {
    ('0' as int + d) as char
  }

  /** `%u` / `{}` of an unsigned integer: its decimal digits, no leading zeros. */
  function Decimal(n: nat): (s: string)
    ensures |s| >= 1 && forall i :: 0 <= i < |s| ==> IsDigit(s[i])
    ensures |s| > 1 ==> s[0] != '0'
  {
    if n < 10 then [DigitChar(n)] else Decimal(n / 10) + [DigitChar(n % 10)]
  }

  function ParseDecimal(s: string): nat
    requires forall i :: 0 <= i < |s| ==> IsDigit(s[i])
  {
    if s == [] then 0
    else
      assert IsDigit(s[|s| - 1]);
      ParseDecimal(s[..|s| - 1]) * 10 + (s[|s| - 1] as int - '0' as int)
  }

  /** The printed digits read back as the number printed. */
  lemma {:induction false} ParseDecimalOfDecimal(n: nat)
    ensures ParseDecimal(Decimal(n)) == n
  {
    if n >= 10 {
      var s := Decimal(n);
      assert s[..|s| - 1] == Decimal(n / 10);
      ParseDecimalOfDecimal(n / 10);
    }
  }

  /** The values with `sep` between consecutive ones. */
  function Join(items: seq<string>, sep: char): (s: string)
    ensures |items| == 1 ==> s == items[0]
  {
    if |items| == 0 then ""
    else if |items| == 1 then items[0]
    else items[0] + [sep] + Join(items[1..], sep)
  }

  lemma {:induction false} JoinSnoc(items: seq<string>, x: string, sep: char)
    requires |items| >= 1
    ensures Join(items + [x], sep) == Join(items, sep) + [sep] + x
  {
    if |items| > 1 {
      assert (items + [x])[1..] == items[1..] + [x];
      JoinSnoc(items[1..], x, sep);
    } else {
      assert (items + [x])[1..] == [x];
    }
  }

  /** The first position of `c` in `s`. */
  function FirstIndex(s: string, c: char): (k: nat)
    requires c in s
    ensures k < |s| && s[k] == c && c !in s[..k]
  {
    if s[0] == c then 0 else 1 + FirstIndex(s[1..], c)
  }

  lemma {:induction false} FirstIndexAfter(head: string, rest: string, sep: char)
    requires sep !in head
    ensures FirstIndex(head + [sep] + rest, sep) == |head|
  {
    if head != [] {
      assert (head + [sep] + rest)[1..] == head[1..] + [sep] + rest;
      FirstIndexAfter(head[1..], rest, sep);
    }
  }

  /** The pieces between occurrences of `sep`. */
  function Split(s: string, sep: char): (parts: seq<string>)
    ensures |parts| >= 1
    decreases |s|
  {
    if sep in s then
      var k := FirstIndex(s, sep);
      [s[..k]] + Split(s[k + 1..], sep)
    else
      [s]
  }

  /** Values without the separator are recovered by splitting the joined line. */
  lemma {:induction false} SplitJoin(items: seq<string>, sep: char)
    requires |items| >= 1
    requires forall i :: 0 <= i < |items| ==> sep !in items[i]
    ensures Split(Join(items, sep), sep) == items
  {
    if |items| > 1 {
      var s := Join(items, sep);
      var head := items[0];
      assert s == head + [sep] + Join(items[1..], sep);
      assert s[|head|] == sep;
      assert s[..|head|] == head;
      FirstIndexAfter(head, Join(items[1..], sep), sep);
      assert s[|head| + 1..] == Join(items[1..], sep);
      SplitJoin(items[1..], sep);
    }
  }

  /** The text before the values. */
  function Head(name: string): string {
    "Performance counter " + name + ": ["
  }

  /** The whole report line. */
  function Line(name: string, items: seq<string>): string {
    Head(name) + Join(items, ',') + "] us\n"
  }

  /**
   * The printing loop: each value, then a comma unless it is the last, all
   * between the head and `] us`.
   */
  method Print(name: string, items: seq<string>) returns (out: string)
    ensures out == Line(name, items)
  {
    out := Head(name);
    for i := 0 to |items|
      invariant out == Head(name) + Join(items[..i], ',') + (if 0 < i < |items| then "," else "")
    {
      if i > 0 {
        JoinSnoc(items[..i], items[i], ',');
        assert items[..i + 1] == items[..i] + [items[i]];
      } else {
        assert items[..1] == [items[0]];
      }
      out := out + items[i];
      if i < |items| - 1 {
        out := out + ",";
      }
    }
    assert items[..|items|] == items;
    out := out + "] us\n";
  }

  /** Decimal values contain no comma. */
  lemma DecimalHasNoComma(n: nat)
    ensures ',' !in Decimal(n)
  {
    var s := Decimal(n);
    assert forall i :: 0 <= i < |s| ==> s[i] != ',' by {
      forall i | 0 <= i < |s| ensures s[i] != ',' {
        assert IsDigit(s[i]);
      }
    }
  }

  /** The decimal values of a report line. */
  function Decimals(values: seq<nat>): (items: seq<string>)
    ensures |items| == |values| && forall i :: 0 <= i < |values| ==> items[i] == Decimal(values[i])
  {
    seq(|values|, i requires 0 <= i < |values| => Decimal(values[i]))
  }

  /** A non-empty report of decimal values reads back, value by value, as the values printed. */
  lemma DecimalsReadBack(values: seq<nat>, i: nat)
    requires 0 < |values| && i < |values|
    ensures |Split(Join(Decimals(values), ','), ',')| == |values|
    ensures ParseDecimal(Decimal(values[i])) == values[i]
    ensures Split(Join(Decimals(values), ','), ',')[i] == Decimal(values[i])
  {
    forall k | 0 <= k < |values| ensures ',' !in Decimals(values)[k] {
      DecimalHasNoComma(values[k]);
    }
    SplitJoin(Decimals(values), ',');
    ParseDecimalOfDecimal(values[i]);
  }

  /** An empty report is the head directly followed by `] us`. */
  lemma EmptyLine(name: string)
    ensures Line(name, []) == "Performance counter " + name + ": [] us\n"
  {
  }
}
