/** String helpers with the semantics of the JavaScript the bridge relies on:
    `Array.prototype.join` and number-to-string conversion, and the readers that
    invert them (`Split`, which behaves as `split(", ")`, and `ParseDecimal`), used
    only to state what the bridge's texts let a reader recover. */
module Text {

  /** `parts.join(sep)`: the parts with `sep` between neighbours; the empty array joins to "". */
  function Join(parts: seq<string>, sep: string): string
  {
    if |parts| == 0 then ""
    else if |parts| == 1 then parts[0]
    else parts[0] + sep + Join(parts[1..], sep)
  }

  /** `s.split(", ")`: cuts `s` at every non-overlapping ", ", scanning left to right.
      Like JavaScript, the result is never empty ("" splits to [""]). */
  function Split(s: string): (r: seq<string>)
    ensures |r| > 0
  {
    if |s| == 0 then [""]
    else if |s| >= 2 && s[0] == ',' && s[1] == ' ' then [""] + Split(s[2..])
    else
      var rest := Split(s[1..]);
      [[s[0]] + rest[0]] + rest[1..]
  }

  /** A part that carries no comma cannot hide a separator. */
  predicate CommaFree(s: string)
  {
    forall i :: 0 <= i < |s| ==> s[i] != ','
  }

  /** The first part of a joined list is its first element. */
  lemma {:induction false} JoinPrefix(parts: seq<string>, sep: string)
    requires |parts| > 0
    ensures |Join(parts, sep)| >= |parts[0]|
    ensures Join(parts, sep)[..|parts[0]|] == parts[0]
  {
    if |parts| > 1 {
      assert Join(parts, sep) == parts[0] + (sep + Join(parts[1..], sep));
    }
  }

  /** Splitting a comma-free prefix glued to a rest extends the rest's first part. */
  lemma {:induction false} SplitCommaFree(p: string, rest: string)
    requires CommaFree(p)
    ensures Split(p + rest) == [p + Split(rest)[0]] + Split(rest)[1..]
  {
    if p == [] {
      assert p + rest == rest;
      var r := Split(rest);
      assert p + r[0] == r[0];
      assert r == [r[0]] + r[1..];
    } else {
      assert (p + rest)[0] == p[0];
      assert (p + rest)[1..] == p[1..] + rest;
      SplitCommaFree(p[1..], rest);
      assert [p[0]] + (p[1..] + Split(rest)[0]) == p + Split(rest)[0];
    }
  }

  /** Splitting undoes joining with ", " when no element contains a comma. */
  lemma {:induction false} SplitJoin(parts: seq<string>)
    requires |parts| > 0
    requires forall k :: 0 <= k < |parts| ==> CommaFree(parts[k])
    ensures Split(Join(parts, ", ")) == parts
  {
    if |parts| == 1 {
      SplitCommaFree(parts[0], "");
      assert parts[0] + "" == parts[0];
    } else {
      var tail := Join(parts[1..], ", ");
      assert Join(parts, ", ") == parts[0] + (", " + tail);
      SplitCommaFree(parts[0], ", " + tail);
      var sepTail := ", " + tail;
      assert sepTail[0] == ',' && sepTail[1] == ' ' && sepTail[2..] == tail;
      SplitJoin(parts[1..]);
      assert Split(sepTail) == [""] + parts[1..];
      assert parts[0] + "" == parts[0];
      assert parts == [parts[0]] + parts[1..];
    }
  }

  predicate IsDigit(c: char)
  {
    '0' <= c <= '9'
  }

  predicate AllDigits(s: string)
  {
    forall i :: 0 <= i < |s| ==> IsDigit(s[i])
  }

  /** The decimal rendering of a non-negative integer, as a template literal prints it:
      digits only, never empty, and no leading zero. */
  function Decimal(n: nat): (r: string)
    ensures |r| > 0 && AllDigits(r)
    ensures r[0] == '0' ==> n == 0
  {
    if n < 10 then [('0' as int + n) as char]
    else Decimal(n / 10) + [('0' as int + n % 10) as char]
  }

  /** Reads a string of decimal digits back as a number. */
  function ParseDecimal(s: string): nat
    requires AllDigits(s)
  {
    if s == [] then 0
    else ParseDecimal(s[..|s| - 1]) * 10 + (s[|s| - 1] as int - '0' as int)
  }

  lemma {:induction false} ParseDecimalInverse(n: nat)
    ensures ParseDecimal(Decimal(n)) == n
  {
    if n >= 10 {
      var d := Decimal(n);
      assert d[..|d| - 1] == Decimal(n / 10);
      ParseDecimalInverse(n / 10);
    }
  }
}
