/**
 * `doStuff(a, b, flag, items)` from js-complex-function.js: one branchy
 * arithmetic function over a list of mixed values.
 */
module ComplexFunction {
  import opened Wrappers
  import opened Decimal

  /** An element of `items`: a JavaScript number, or a string that `parseInt` may read. */
  datatype Item = Number(n: int) | Text(s: string)

  /**
   * The white space and line terminators `parseInt` skips: tab, vertical tab,
   * form feed, the space separators, the byte order mark, line feed, carriage
   * return and the line and paragraph separators.
   */
  predicate IsSpace(c: char) {
    || c == '\t' || c == '\U{000B}' || c == '\U{000C}' || c == ' ' || c == '\U{00A0}' || c == '\U{FEFF}'
    || c == '\U{1680}' || '\U{2000}' <= c <= '\U{200A}' || c == '\U{202F}' || c == '\U{205F}' || c == '\U{3000}'
    || c == '\n' || c == '\r' || c == '\U{2028}' || c == '\U{2029}'
  }

  function TrimStart(s: string): (t: string)
    ensures |t| <= |s| && t == s[|s| - |t|..]
    ensures t != [] ==> !IsSpace(t[0])
  {
    if s != [] && IsSpace(s[0]) then TrimStart(s[1..]) else s
  }

  /**
   * `parseInt(s)` reduced to base 10: skip leading white space, read an
   * optional sign and then as many digits as there are; no digit at all is NaN.
   */
  function LeadingInt(s: string): (r: Option<int>)
    ensures s != [] && IsDigit(s[0]) ==> r.Some? && r.value >= 0
    ensures (forall k :: 0 <= k < |s| ==> !IsDigit(s[k])) ==> r.None?
  {
    var t := TrimStart(s);
    var body := if t != [] && (t[0] == '-' || t[0] == '+') then t[1..] else t;
    var d := DigitPrefix(body);
    var magnitude: int := DigitsValue(d);
    if d == [] then None
    else if t[0] == '-' then Some(-magnitude)
    else Some(magnitude)
  }

  /** `String(n)` for any integer. */
  function IntToString(n: int): string {
    if n < 0 then "-" + NatToString(-n) else NatToString(n)
  }

  /** `parseInt` reads back every integer written in decimal. */
  lemma LeadingIntOfIntToString(n: int)
    ensures LeadingInt(IntToString(n)) == Some(n)
  {
    var m: nat := if n < 0 then -n else n;
    NatToStringValue(m);
    if n < 0 {
      LeadingIntSigned(NatToString(m));
    } else {
      LeadingIntDigits(NatToString(m));
    }
  }

  /** A digit string reads as its value. */
  lemma LeadingIntDigits(d: string)
    requires d != [] && AllDigits(d)
    ensures LeadingInt(d) == Some(DigitsValue(d))
  {
    assert IsDigit(d[0]) && !IsSpace(d[0]);
    assert TrimStart(d) == d;
    DigitPrefixOfDigits(d);
  }

  /** A minus sign followed by a digit string reads as the negated value. */
  lemma LeadingIntSigned(d: string)
    requires d != [] && AllDigits(d)
    ensures LeadingInt("-" + d) == Some(-(DigitsValue(d) as int))
  {
    var s := "-" + d;
    assert s[0] == '-' && !IsSpace(s[0]);
    assert TrimStart(s) == s;
    assert s[1..] == d;
    DigitPrefixOfDigits(d);
  }

  /** What one item adds in the `flag` branch: its number, its parsed prefix, or nothing. */
  function ItemValue(x: Item): int {
    match x
    case Number(n) => n
    case Text(s) => if LeadingInt(s).Some? then LeadingInt(s).value else 0
  }

  function ParsedSum(xs: seq<Item>): int {
    if xs == [] then 0 else ParsedSum(xs[..|xs| - 1]) + ItemValue(xs[|xs| - 1])
  }

  predicate IsPositive(x: Item) {
    x.Number? && x.n > 0
  }

  predicate IsNegative(x: Item) {
    x.Number? && x.n < 0
  }

  /** The sum of the positive numbers among the items. */
  function PositiveSum(xs: seq<Item>): (r: nat)
    ensures r > 0 <==> exists k :: 0 <= k < |xs| && IsPositive(xs[k])
  {
    if xs == [] then 0
    else
      var init, last := xs[..|xs| - 1], xs[|xs| - 1];
      assert forall k :: 0 <= k < |init| ==> init[k] == xs[k];
      PositiveSum(init) + (if IsPositive(last) then last.n else 0)
  }

  /** The sum of the magnitudes of the negative numbers among the items. */
  function NegativeMagnitudeSum(xs: seq<Item>): (r: nat)
    ensures r > 0 <==> exists k :: 0 <= k < |xs| && IsNegative(xs[k])
  {
    if xs == [] then 0
    else
      var init, last := xs[..|xs| - 1], xs[|xs| - 1];
      assert forall k :: 0 <= k < |init| ==> init[k] == xs[k];
      NegativeMagnitudeSum(init) + (if IsNegative(last) then -last.n else 0)
  }

  /** A missing or null `items` is the empty list. */
  function ItemsOrEmpty(items: Option<seq<Item>>): seq<Item> {
    if items.None? then [] else items.value
  }

  /**
   * The result of `doStuff` in closed form, branch by branch: with `flag` the
   * parsed sum plus `a + b`; otherwise the distance between `a` and `b`,
   * multiplied by the positive (when a > b) or negative (when a <= b) mass of
   * the numeric items when there is any.
   */
  function DoStuffResult(a: int, b: int, flag: bool, items: Option<seq<Item>>): int {
    var xs := ItemsOrEmpty(items);
    if flag then ParsedSum(xs) + a + b
    else if a > b then
      (if PositiveSum(xs) > 0 then (a - b) * PositiveSum(xs) else a - b)
    else
      (if NegativeMagnitudeSum(xs) > 0 then (b - a) * NegativeMagnitudeSum(xs) else b - a)
  }

  function Sum(s: seq<int>): int {
    if s == [] then 0 else Sum(s[..|s| - 1]) + s[|s| - 1]
  }

  /** The values `doStuff` collects in `tmp` when `a > b`. */
  function Positives(xs: seq<Item>): seq<int> {
    if xs == [] then []
    else Positives(xs[..|xs| - 1]) + (if IsPositive(xs[|xs| - 1]) then [xs[|xs| - 1].n] else [])
  }

  /** The values `doStuff` collects in `tmp` when `a <= b`. */
  function NegativeMagnitudes(xs: seq<Item>): seq<int> {
    if xs == [] then []
    else NegativeMagnitudes(xs[..|xs| - 1]) + (if IsNegative(xs[|xs| - 1]) then [-xs[|xs| - 1].n] else [])
  }

  lemma {:induction false} PositivesSum(xs: seq<Item>)
    ensures Sum(Positives(xs)) == PositiveSum(xs)
    ensures |Positives(xs)| > 0 <==> PositiveSum(xs) > 0
  {
    if xs != [] {
      var init := xs[..|xs| - 1];
      PositivesSum(init);
      var tail := if IsPositive(xs[|xs| - 1]) then [xs[|xs| - 1].n] else [];
      SumAppend(Positives(init), tail);
    }
  }

  lemma {:induction false} NegativeMagnitudesSum(xs: seq<Item>)
    ensures Sum(NegativeMagnitudes(xs)) == NegativeMagnitudeSum(xs)
    ensures |NegativeMagnitudes(xs)| > 0 <==> NegativeMagnitudeSum(xs) > 0
  {
    if xs != [] {
      var init := xs[..|xs| - 1];
      NegativeMagnitudesSum(init);
      var tail := if IsNegative(xs[|xs| - 1]) then [-xs[|xs| - 1].n] else [];
      SumAppend(NegativeMagnitudes(init), tail);
    }
  }

  lemma SumAppend(s: seq<int>, t: seq<int>)
    requires |t| <= 1
    ensures Sum(s + t) == Sum(s) + Sum(t)
  {
    if t != [] {
      assert (s + t)[..|s + t| - 1] == s;
    } else {
      assert s + t == s;
    }
  }

  /** The function itself: loops over `items`, collecting into `tmp`, then totalling `tmp`. */
  method DoStuff(a: int, b: int, flag: bool, items: Option<seq<Item>>) returns (result: int)
    ensures result == DoStuffResult(a, b, flag, items)
  {
    result := 0;
    var tmp: seq<int> := [];
    var xs := ItemsOrEmpty(items);
    if flag {
      for i := 0 to |xs|
        invariant result == ParsedSum(xs[..i])
      {
        assert xs[..i + 1][..i] == xs[..i];
        assert ParsedSum(xs[..i + 1]) == ParsedSum(xs[..i]) + ItemValue(xs[i]);
        match xs[i]
        case Number(n) =>
          result := result + n;
        case Text(s) =>
          var n := LeadingInt(s);
          if n.Some? {
            result := result + n.value;
          }
      }
      assert xs[..|xs|] == xs;
      result := result + a + b;
    } else if a > b {
      for i := 0 to |xs|
        invariant tmp == Positives(xs[..i])
      {
        assert xs[..i + 1][..i] == xs[..i];
        if xs[i].Number? && xs[i].n > 0 {
          tmp := tmp + [xs[i].n];
        }
      }
      assert xs[..|xs|] == xs;
      PositivesSum(xs);
      result := a - b;
    } else {
      for i := 0 to |xs|
        invariant tmp == NegativeMagnitudes(xs[..i])
      {
        assert xs[..i + 1][..i] == xs[..i];
        if xs[i].Number? && xs[i].n < 0 {
          tmp := tmp + [-xs[i].n];
        }
      }
      assert xs[..|xs|] == xs;
      NegativeMagnitudesSum(xs);
      result := b - a;
    }
    if |tmp| > 0 {
      var total := Total(tmp);
      result := result * total;
    }
  }

  /** The final loop of `doStuff`: adds up `tmp`. */
  method Total(tmp: seq<int>) returns (total: int)
    ensures total == Sum(tmp)
  {
    total := 0;
    for i := 0 to |tmp|
      invariant total == Sum(tmp[..i])
    {
      assert tmp[..i + 1][..i] == tmp[..i];
      total := total + tmp[i];
    }
    assert tmp[..|tmp|] == tmp;
  }

  /** Without `flag` the result is never negative. */
  lemma NonNegativeWithoutFlag(a: int, b: int, items: Option<seq<Item>>)
    ensures DoStuffResult(a, b, false, items) >= 0
  {
    var xs := ItemsOrEmpty(items);
    if a > b {
      ProductNonNegative(a - b, PositiveSum(xs));
    } else {
      ProductNonNegative(b - a, NegativeMagnitudeSum(xs));
    }
  }

  lemma ProductNonNegative(x: int, y: int)
    requires x >= 0 && y >= 0
    ensures x * y >= 0
  {
  }

  /** With `flag`, no multiplication happens: the result is the parsed sum plus `a + b`. */
  lemma {:induction false} FlagAddsParsedItems(a: int, b: int, xs: seq<Item>, ys: seq<Item>)
    ensures DoStuffResult(a, b, true, Some(xs + ys))
         == DoStuffResult(a, b, true, Some(xs)) + DoStuffResult(0, 0, true, Some(ys))
  {
    ParsedSumAppend(xs, ys);
  }

  lemma {:induction false} ParsedSumAppend(xs: seq<Item>, ys: seq<Item>)
    ensures ParsedSum(xs + ys) == ParsedSum(xs) + ParsedSum(ys)
  {
    if ys == [] {
      assert xs + ys == xs;
    } else {
      var init := ys[..|ys| - 1];
      assert (xs + ys)[..|xs + ys| - 1] == xs + init;
      ParsedSumAppend(xs, init);
    }
  }

  /** `doStuff(5, 10, true, [1, 2, '3', 4])` is 25. */
  lemma ExampleWithFlag()
    ensures DoStuffResult(5, 10, true, Some([Number(1), Number(2), Text("3"), Number(4)])) == 25
  {
    assert ItemsOrEmpty(Some([Number(1), Number(2), Text("3"), Number(4)])) == [Number(1), Number(2), Text("3"), Number(4)];
    assert DigitPrefix("3") == "3";
    assert LeadingInt("3") == Some(3);
    var s1, s2, s3 := [Number(1)], [Number(1), Number(2)], [Number(1), Number(2), Text("3")];
    var s4 := s3 + [Number(4)];
    assert s2[..1] == s1 && s3[..2] == s2 && s4[..3] == s3;
    assert ParsedSum(s1) == 1;
    assert ParsedSum(s2) == 3;
    assert ParsedSum(s3) == 6;
    assert ParsedSum(s4) == 10;
    assert s4 == [Number(1), Number(2), Text("3"), Number(4)];
  }

  /** `doStuff(10, 5, false, [1, -2, 3, -4])` is 20. */
  lemma ExampleWithoutFlag()
    ensures DoStuffResult(10, 5, false, Some([Number(1), Number(-2), Number(3), Number(-4)])) == 20
  {
    var s1, s2, s3 := [Number(1)], [Number(1), Number(-2)], [Number(1), Number(-2), Number(3)];
    var s4 := s3 + [Number(-4)];
    assert s2[..1] == s1 && s3[..2] == s2 && s4[..3] == s3;
    assert PositiveSum(s1) == 1;
    assert PositiveSum(s2) == 1;
    assert PositiveSum(s3) == 4;
    assert PositiveSum(s4) == 4;
    assert s4 == [Number(1), Number(-2), Number(3), Number(-4)];
  }
}
