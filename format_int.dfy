/**
 * `format_int` of `src/utils.rs`: an `i64` rendered in decimal with a ','
 * between groups of three digits counted from the right, and a leading '-'
 * for a negative number. The function builds the text backwards: it pushes
 * the digits of the absolute value from the last one, a ',' after every
 * third, drops a trailing ',', pushes the sign and reverses the result.
 */
module Formatting {
  import opened Strings

  const I64Min := -0x8000_0000_0000_0000
  const I64Max := 0x7fff_ffff_ffff_ffff

  function Abs(n: int): nat
  {
    if n < 0 then -n else n
  }

  /** The digit string with a ',' before every complete group of three digits counted from the right. */
  function GroupDigits(d: string): (r: string)
    decreases |d|
  {
    if |d| <= 3 then d else GroupDigits(d[..|d| - 3]) + "," + d[|d| - 3..]
  }

  /** The rendering `format_int` promises. */
  function Formatted(num: int): string
  {
    (if num < 0 then "-" else "") + GroupDigits(Decimal(Abs(num)))
  }

  /**
   * What the backwards loop has pushed after the reversed digits `r`: each
   * digit, followed by a ',' when it is the third, sixth, ... one pushed.
   */
  function Pushed(r: string): string
    decreases |r|
  {
    if r == [] then [] else Pushed(r[..|r| - 1]) + [r[|r| - 1]] + Sep(|r|)
  }

  /** The ',' pushed after the `k`-th digit: one after every third. */
  function Sep(k: nat): string
  {
    if k < 3 then (if k == 0 then "," else "") else Sep(k - 3)
  }

  lemma {:induction false} SepMod(k: nat)
    ensures Sep(k) == if k % 3 == 0 then "," else ""
  {
    if k >= 3 {
      SepMod(k - 3);
    }
  }

  lemma {:induction false} PushedShort(r: string)
    requires |r| <= 3
    ensures Pushed(r) == r + (if |r| == 3 then "," else "")
    decreases |r|
  {
    if r != [] {
      PushedShort(r[..|r| - 1]);
      assert r == r[..|r| - 1] + [r[|r| - 1]];
    }
  }

  lemma {:induction false} GroupDigitsFirst(d: string)
    requires |d| >= 1
    ensures |GroupDigits(d)| >= 1 && GroupDigits(d)[0] == d[0]
    decreases |d|
  {
    if |d| > 3 {
      GroupDigitsFirst(d[..|d| - 3]);
    }
  }

  /** The grouping read on the reversed digits: a ',' after every complete group of three from the front. */
  function GroupRev(r: string): string
    decreases |r|
  {
    if |r| <= 3 then r else r[..3] + "," + GroupRev(r[3..])
  }

  lemma {:induction false} PushedChunk(x: string, y: string)
    requires |x| == 3
    ensures Pushed(x + y) == x + "," + Pushed(y)
    decreases |y|
  {
    if y == [] {
      assert x + y == x;
      PushedShort(x);
    } else {
      var init, last := y[..|y| - 1], y[|y| - 1];
      PushedChunk(x, init);
      assert (x + y)[..|x + y| - 1] == x + init;
      assert (x + y)[|x + y| - 1] == last;
      assert Sep(|x + y|) == Sep(|y|);
    }
  }

  /** The loop pushes the reversed grouping, followed by a ',' when the digit count is a multiple of three. */
  lemma {:induction false} PushedGroupRev(r: string)
    requires |r| >= 1
    ensures Pushed(r) == GroupRev(r) + Sep(|r|)
    decreases |r|
  {
    if |r| <= 3 {
      PushedShort(r);
    } else {
      assert r == r[..3] + r[3..];
      PushedChunk(r[..3], r[3..]);
      PushedGroupRev(r[3..]);
    }
  }

  lemma {:induction false} GroupRevLast(r: string)
    requires |r| >= 1
    ensures |GroupRev(r)| >= 1 && GroupRev(r)[|GroupRev(r)| - 1] == r[|r| - 1]
    decreases |r|
  {
    if |r| > 3 {
      GroupRevLast(r[3..]);
    }
  }

  lemma ReverseSingle(c: char)
    ensures Reverse([c]) == [c]
  {
    assert [c][1..] == [];
  }

  lemma ReverseGrouped(g: string, t: string)
    ensures Reverse(g + "," + t) == Reverse(t) + "," + Reverse(g)
  {
    ReverseAppend(g + ",", t);
    ReverseAppend(g, ",");
    ReverseSingle(',');
  }

  /** Grouping the reversed digits from the front and reversing back is grouping from the right. */
  lemma {:induction false} ReverseGroupRev(d: string)
    requires |d| >= 1
    ensures Reverse(GroupRev(Reverse(d))) == GroupDigits(d)
    decreases |d|
  {
    if |d| <= 3 {
      ReverseReverse(d);
    } else {
      var h, t := d[..|d| - 3], d[|d| - 3..];
      assert d == h + t;
      ReverseAppend(h, t);
      var x, y := Reverse(t), Reverse(h);
      assert (x + y)[..3] == x && (x + y)[3..] == y;
      ReverseGroupRev(h);
      ReverseGrouped(x, GroupRev(y));
      ReverseReverse(t);
    }
  }

  lemma ReverseLast(s: string)
    requires |s| >= 1
    ensures Reverse(s)[|s| - 1] == s[0]
  {
  }

  /** `format_int`: the loop over the reversed digits, the `unwrap` on the last character, then the sign. */
  method FormatInt(num: int) returns (s: string)
    requires I64Min < num <= I64Max
    ensures s == Formatted(num)
  {
    var isNegative := num < 0;
    var d := Decimal(Abs(num));
    var digits := Reverse(d);
    var pushed := "";
    var i := 0;
    while i < |digits|
      invariant 0 <= i <= |digits|
      invariant pushed == Pushed(digits[..i])
    {
      assert digits[..i + 1][..i] == digits[..i];
      SepMod(i + 1);
      pushed := pushed + [digits[i]];
      if (i + 1) % 3 == 0 {
        pushed := pushed + ",";
      }
      i := i + 1;
    }
    assert digits[..i] == digits;
    PushedGroupRev(digits);
    SepMod(|digits|);
    GroupRevLast(digits);
    ReverseLast(d);
    if pushed[|pushed| - 1] == ',' {
      pushed := pushed[..|pushed| - 1];
    }
    assert pushed == GroupRev(digits);
    ReverseGroupRev(d);
    if isNegative {
      pushed := pushed + "-";
      ReverseAppend(GroupRev(digits), "-");
      ReverseSingle('-');
    }
    s := Reverse(pushed);
  }

  lemma RemoveComma(g: string, t: string)
    ensures Remove(g + "," + t, ',') == Remove(g, ',') + Remove(t, ',')
  {
    calc {
      Remove(g + "," + t, ',');
      { RemoveAppend(g + ",", t, ','); }
      Remove(g + ",", ',') + Remove(t, ',');
      { RemoveAppend(g, ",", ','); RemoveSingle(','); }
      Remove(g, ',') + [] + Remove(t, ',');
      { assert Remove(g, ',') + [] == Remove(g, ','); }
      Remove(g, ',') + Remove(t, ',');
    }
  }

  lemma RemoveSingle(c: char)
    ensures Remove([c], c) == []
  {
    assert [c][1..] == [];
  }

  /** Deleting the commas from a grouping gives the digits back. */
  lemma {:induction false} GroupDigitsRemove(d: string)
    requires ',' !in d
    ensures Remove(GroupDigits(d), ',') == d
    decreases |d|
  {
    if |d| <= 3 {
      RemoveAbsent(d, ',');
    } else {
      var h, t := d[..|d| - 3], d[|d| - 3..];
      assert d == h + t;
      assert ',' !in h && ',' !in t;
      GroupDigitsRemove(h);
      RemoveComma(GroupDigits(h), t);
      RemoveAbsent(t, ',');
    }
  }

  lemma IndexOfUnique(s: string, c: char, i: nat)
    requires i < |s| && s[i] == c && c !in s[..i]
    ensures IndexOf(s, c) == i
  {
  }

  lemma SplitFirst(a: string, b: string, sep: char)
    requires sep !in a
    ensures Split(a + [sep] + b, sep) == [a] + Split(b, sep)
  {
    var s := a + [sep] + b;
    assert s[|a|] == sep && s[..|a|] == a;
    IndexOfUnique(s, sep, |a|);
    assert s[|a| + 1..] == b;
  }

  /** Splitting `a` + separator + a last piece free of separators adds that piece after `a`'s pieces. */
  lemma {:induction false} SplitLast(a: string, b: string, sep: char)
    requires sep !in b
    ensures Split(a + [sep] + b, sep) == Split(a, sep) + [b]
    decreases |a|
  {
    if sep !in a {
      SplitFirst(a, b, sep);
    } else {
      var i := IndexOf(a, sep);
      var a1, a2 := a[..i], a[i + 1..];
      calc {
        Split(a + [sep] + b, sep);
        { assert a + [sep] + b == a1 + [sep] + (a2 + [sep] + b); }
        Split(a1 + [sep] + (a2 + [sep] + b), sep);
        { SplitFirst(a1, a2 + [sep] + b, sep); }
        [a1] + Split(a2 + [sep] + b, sep);
        { SplitLast(a2, b, sep); }
        [a1] + (Split(a2, sep) + [b]);
        ([a1] + Split(a2, sep)) + [b];
        { assert a == a1 + [sep] + a2; SplitFirst(a1, a2, sep); }
        Split(a, sep) + [b];
      }
    }
  }

  /** The comma-separated groups: the first holds one to three digits, every later one exactly three. */
  lemma {:induction false} GroupDigitsShape(d: string)
    requires |d| >= 1 && ',' !in d
    ensures var parts := Split(GroupDigits(d), ',');
      1 <= |parts[0]| <= 3 && (forall k :: 1 <= k < |parts| ==> |parts[k]| == 3)
    decreases |d|
  {
    if |d| <= 3 {
      assert Split(d, ',') == [d];
    } else {
      var h, t := d[..|d| - 3], d[|d| - 3..];
      assert d == h + t;
      assert ',' !in h && ',' !in t;
      GroupDigitsShape(h);
      SplitLast(GroupDigits(h), t, ',');
    }
  }

  /** Without its commas and sign, the rendering reads back as the absolute value. */
  lemma FormattedDigits(num: int)
    ensures var f := Formatted(num);
      Remove(f, ',') == (if num < 0 then "-" else "") + Decimal(Abs(num))
      && AllDigits(Decimal(Abs(num))) && Value(Decimal(Abs(num))) == Abs(num)
  {
    var d := Decimal(Abs(num));
    assert ',' !in d;
    GroupDigitsRemove(d);
    RemoveAppend(if num < 0 then "-" else "", GroupDigits(d), ',');
    DecimalValue(Abs(num));
  }

  /** The rendering never starts or ends with a comma, and a negative number is its absolute value's rendering after '-'. */
  lemma {:induction false} FormattedEnds(num: int)
    ensures var f := Formatted(num); |f| >= 1 && f[0] != ',' && f[|f| - 1] != ','
    ensures num < 0 ==> Formatted(num) == "-" + Formatted(-num)
  {
    var d := Decimal(Abs(num));
    GroupDigitsFirst(d);
    var g := GroupDigits(d);
    if |d| > 3 {
      assert g[|g| - 1] == d[|d| - 1];
    } else {
      assert g == d;
    }
    assert IsDigit(d[|d| - 1]) && IsDigit(d[0]);
  }

  lemma DecimalTimesTen(n: nat)
    requires n >= 1
    ensures Decimal(n * 10) == Decimal(n) + "0"
  {
    assert (n * 10) / 10 == n && (n * 10) % 10 == 0;
  }

  lemma GroupDigitsAppend(h: string, t: string)
    requires |h| >= 1 && |t| == 3
    ensures GroupDigits(h + t) == GroupDigits(h) + "," + t
  {
    assert (h + t)[..|h + t| - 3] == h && (h + t)[|h + t| - 3..] == t;
  }

  lemma DecimalTimesThousand(n: nat)
    requires n >= 1
    ensures Decimal(n * 1000) == Decimal(n) + "000"
  {
    var d := Decimal(n);
    DecimalTimesTen(n);
    DecimalTimesTen(n * 10);
    DecimalTimesTen(n * 100);
    assert n * 10 * 10 == n * 100 && n * 100 * 10 == n * 1000;
    assert d + "0" + "0" + "0" == d + "000";
  }

  /** Multiplying a positive number by a thousand appends ",000" to its rendering. */
  lemma FormattedThousand(n: nat)
    requires n >= 1
    ensures Formatted(n * 1000) == Formatted(n) + ",000"
  {
    var d := Decimal(n);
    calc {
      Formatted(n * 1000);
      GroupDigits(Decimal(n * 1000));
      { DecimalTimesThousand(n); }
      GroupDigits(d + "000");
      { GroupDigitsAppend(d, "000"); }
      GroupDigits(d) + "," + "000";
      GroupDigits(d) + ",000";
      Formatted(n) + ",000";
    }
  }

  /**
   * One step from an example to the next, with the numbers passed as
   * parameters so that the verifier does not unfold `Formatted` on a large
   * literal.
   */
  lemma AppendThousand(n: nat, m: int, t: string)
    requires n >= 1 && m == n * 1000 && Formatted(n) == t
    ensures Formatted(m) == t + ",000"
  {
    FormattedThousand(n);
  }

  lemma ExampleZero()
    ensures Formatted(0) == "0"
  {
  }

  lemma ExampleOne()
    ensures Formatted(1) == "1"
  {
  }

  lemma ExampleTen()
    ensures Formatted(10) == "10"
  {
    DecimalTimesTen(1);
  }

  lemma ExampleHundred()
    ensures Formatted(100) == "100"
  {
    DecimalTimesTen(1);
    DecimalTimesTen(10);
  }

  lemma ExampleThousand()
    ensures Formatted(1000) == "1,000"
  {
    ThousandStep(1000);
  }

  lemma ExampleTenThousand()
    ensures Formatted(10000) == "10,000"
  {
    TenThousandStep(10000);
  }

  lemma ExampleHundredThousand()
    ensures Formatted(100000) == "100,000"
  {
    HundredThousandStep(100000);
  }

  lemma ExampleMillion()
    ensures Formatted(1000000) == "1,000,000"
  {
    MillionStep(1000000);
  }

  lemma ExampleTenMillion()
    ensures Formatted(10000000) == "10,000,000"
  {
    TenMillionStep(10000000);
  }

  lemma ExampleHundredMillion()
    ensures Formatted(100000000) == "100,000,000"
  {
    HundredMillionStep(100000000);
  }

  lemma ExampleBillion()
    ensures Formatted(1000000000) == "1,000,000,000"
  {
    BillionStep(1000000000);
  }

  lemma ExampleTenBillion()
    ensures Formatted(10000000000) == "10,000,000,000"
  {
    TenBillionStep(10000000000);
  }

  /** `ExampleThousand` with the number as a parameter, for the same reason as `AppendThousand`. */
  lemma ThousandStep(m: int)
    requires m == 1000
    ensures Formatted(m) == "1,000"
  {
    ExampleOne();
    AppendThousand(1, m, "1");
  }

  /** `ExampleTenThousand` with the number as a parameter, for the same reason as `AppendThousand`. */
  lemma TenThousandStep(m: int)
    requires m == 10000
    ensures Formatted(m) == "10,000"
  {
    ExampleTen();
    AppendThousand(10, m, "10");
  }

  /** `ExampleHundredThousand` with the number as a parameter, for the same reason as `AppendThousand`. */
  lemma HundredThousandStep(m: int)
    requires m == 100000
    ensures Formatted(m) == "100,000"
  {
    ExampleHundred();
    AppendThousand(100, m, "100");
  }

  /** `ExampleMillion` with the number as a parameter, for the same reason as `AppendThousand`. */
  lemma MillionStep(m: int)
    requires m == 1000000
    ensures Formatted(m) == "1,000,000"
  {
    ThousandStep(m / 1000);
    AppendThousand(m / 1000, m, "1,000");
  }

  /** `ExampleTenMillion` with the number as a parameter, for the same reason as `AppendThousand`. */
  lemma TenMillionStep(m: int)
    requires m == 10000000
    ensures Formatted(m) == "10,000,000"
  {
    TenThousandStep(m / 1000);
    AppendThousand(m / 1000, m, "10,000");
  }

  /** `ExampleHundredMillion` with the number as a parameter, for the same reason as `AppendThousand`. */
  lemma HundredMillionStep(m: int)
    requires m == 100000000
    ensures Formatted(m) == "100,000,000"
  {
    HundredThousandStep(m / 1000);
    AppendThousand(m / 1000, m, "100,000");
  }

  /** `ExampleBillion` with the number as a parameter, for the same reason as `AppendThousand`. */
  lemma BillionStep(m: int)
    requires m == 1000000000
    ensures Formatted(m) == "1,000,000,000"
  {
    MillionStep(m / 1000);
    AppendThousand(m / 1000, m, "1,000,000");
  }

  /** `ExampleTenBillion` with the number as a parameter, for the same reason as `AppendThousand`. */
  lemma TenBillionStep(m: int)
    requires m == 10000000000
    ensures Formatted(m) == "10,000,000,000"
  {
    TenMillionStep(m / 1000);
    AppendThousand(m / 1000, m, "10,000,000");
  }

  lemma ExampleNegative()
    ensures Formatted(-10) == "-10" && Formatted(-100) == "-100"
    ensures Formatted(-1000) == "-1,000" && Formatted(-10000) == "-10,000"
  {
    ExampleTen();
    ExampleHundred();
    ExampleThousand();
    ExampleTenThousand();
    FormattedEnds(-10);
    FormattedEnds(-100);
    FormattedEnds(-1000);
    FormattedEnds(-10000);
  }
}

/**
 * `format_int` of `src/gui/utils.rs`: the same rendering for the graphical
 * front end, which tests for the trailing ',' with `ends_with`.
 */
module GuiFormatting {
  import opened Strings
  import opened Formatting

  method FormatInt(num: int) returns (s: string)
    requires I64Min < num <= I64Max
    ensures s == Formatted(num)
  {
    var isNegative := num < 0;
    var d := Decimal(Abs(num));
    var digits := Reverse(d);
    var pushed := "";
    for i := 0 to |digits|
      invariant pushed == Pushed(digits[..i])
    {
      assert digits[..i + 1][..i] == digits[..i];
      SepMod(i + 1);
      pushed := pushed + [digits[i]];
      if (i + 1) % 3 == 0 {
        pushed := pushed + ",";
      }
    }
    assert digits[..|digits|] == digits;
    PushedGroupRev(digits);
    SepMod(|digits|);
    GroupRevLast(digits);
    ReverseLast(d);
    assert |pushed| >= 1 ==> pushed[|pushed| - 1..] == [pushed[|pushed| - 1]];
    if |pushed| >= 1 && pushed[|pushed| - 1..] == "," {
      pushed := pushed[..|pushed| - 1];
    }
    assert pushed == GroupRev(digits);
    ReverseGroupRev(d);
    if isNegative {
      pushed := pushed + "-";
      ReverseAppend(GroupRev(digits), "-");
      ReverseSingle('-');
    }
    s := Reverse(pushed);
  }
}
