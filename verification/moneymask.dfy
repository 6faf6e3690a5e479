/**
 * The pt-BR money field codec: `aplicarMascaraMoeda` turns whatever was
 * typed into `1.234,56` form, and the submit-time cleaner turns that back
 * into the `1234.56` the server parses. Amounts are exact integer cents.
 */
module MoneyMask {

  predicate IsDigit(c: char) {
    '0' <= c <= '9'
  }

  predicate AllDigits(s: string) {
    forall i :: 0 <= i < |s| ==> IsDigit(s[i])
  }

  /** `replace(/\D/g, "")`: the digits of `s`, in order. */
  function Digits(s: string): (r: string)
    ensures AllDigits(r) && |r| <= |s|
  {
    if |s| == 0 then ""
    else (if IsDigit(s[0]) then [s[0]] else "") + Digits(s[1..])
  }

  lemma {:induction false} DigitsAppend(a: string, b: string)
    ensures Digits(a + b) == Digits(a) + Digits(b)
  {
    if |a| == 0 {
      assert a + b == b;
    } else {
      assert (a + b)[0] == a[0] && (a + b)[1..] == a[1..] + b;
      DigitsAppend(a[1..], b);
    }
  }

  lemma {:induction false} DigitsOfDigits(s: string)
    requires AllDigits(s)
    ensures Digits(s) == s
  {
    if |s| > 0 {
      DigitsOfDigits(s[1..]);
    }
  }

  function DigitValue(c: char): nat
    requires IsDigit(c)
  {
    (c as int) - ('0' as int)
  }

  function DigitChar(n: nat): (c: char)
    requires n < 10
    ensures IsDigit(c) && DigitValue(c) == n
  {
    ('0' as int + n) as char
  }

  /** `parseInt` of a digit string, taken exactly. */
  function ValueOf(s: string): nat
    requires AllDigits(s)
  {
    if |s| == 0 then 0 else ValueOf(s[..|s| - 1]) * 10 + DigitValue(s[|s| - 1])
  }

  /** The decimal numeral of `n`: digits only, no leading zero except "0" itself. */
  function NatToString(n: nat): (r: string)
    ensures AllDigits(r) && |r| >= 1
    ensures ValueOf(r) == n
    ensures r[0] == '0' ==> r == "0"
    decreases n
  {
    if n < 10 then [DigitChar(n)]
    else
      var p := NatToString(n / 10);
      var r := p + [DigitChar(n % 10)];
      assert r[..|r| - 1] == p;
      r
  }

  /** The two decimal places of an amount of cents below 100. */
  function TwoDigits(n: nat): (r: string)
    requires n < 100
    ensures |r| == 2 && AllDigits(r) && ValueOf(r) == n
  {
    var r := [DigitChar(n / 10), DigitChar(n % 10)];
    ValueOfPair(r);
    r
  }

  lemma ValueOfPair(r: string)
    requires |r| == 2 && AllDigits(r)
    ensures ValueOf(r) == DigitValue(r[0]) * 10 + DigitValue(r[1])
  {
    assert r[..1] == [r[0]];
    assert [r[0]][..0] == [];
    assert ValueOf([r[0]]) == DigitValue(r[0]);
  }

  /** Appending two digits scales by a hundred. */
  lemma ValueOfAppendTwo(a: string, b: string)
    requires AllDigits(a) && AllDigits(b) && |b| == 2
    ensures AllDigits(a + b) && ValueOf(a + b) == ValueOf(a) * 100 + ValueOf(b)
  {
    var s := a + b;
    var a1 := a + [b[0]];
    assert s[..|s| - 1] == a1 && s[|s| - 1] == b[1];
    assert a1[..|a1| - 1] == a && a1[|a1| - 1] == b[0];
    assert ValueOf(a1) == ValueOf(a) * 10 + DigitValue(b[0]);
    assert ValueOf(s) == ValueOf(a1) * 10 + DigitValue(b[1]);
    ValueOfPair(b);
  }

  /** `(cents / 100).toFixed(2)` computed exactly: `I.CC`, an integer part
      without leading zeros, a point and two decimals denoting `cents`. */
  function ToFixed2(cents: nat): (r: string)
    ensures |r| >= 4 && r[|r| - 3] == '.'
    ensures AllDigits(r[..|r| - 3]) && AllDigits(r[|r| - 2..])
    ensures r[0] == '0' ==> |r| == 4
    ensures ValueOf(r[..|r| - 3]) * 100 + ValueOf(r[|r| - 2..]) == cents
  {
    var i := NatToString(cents / 100);
    var c := TwoDigits(cents % 100);
    var r := i + "." + c;
    assert r[..|r| - 3] == i && r[|r| - 2..] == c;
    r
  }

  /** `String.prototype.replace` with a one-character pattern: only the first occurrence. */
  function ReplaceFirst(s: string, from: char, to: string): string {
    if |s| == 0 then ""
    else if s[0] == from then to + s[1..]
    else [s[0]] + ReplaceFirst(s[1..], from, to)
  }

  lemma {:induction false} ReplaceFirstAt(a: string, b: string, from: char, to: string)
    requires from !in a
    ensures ReplaceFirst(a + [from] + b, from, to) == a + to + b
  {
    if |a| > 0 {
      assert (a + [from] + b)[1..] == a[1..] + [from] + b;
      ReplaceFirstAt(a[1..], b, from, to);
    }
  }

  /** Replacing the first occurrence of a non-digit by digit-free text keeps the digits. */
  lemma {:induction false} ReplaceFirstKeepsDigits(s: string, from: char, to: string)
    requires !IsDigit(from) && Digits(to) == ""
    ensures Digits(ReplaceFirst(s, from, to)) == Digits(s)
  {
    if |s| > 0 {
      if s[0] == from {
        DigitsAppend(to, s[1..]);
        DigitsAppend([s[0]], s[1..]);
        assert s == [s[0]] + s[1..];
      } else {
        ReplaceFirstKeepsDigits(s[1..], from, to);
        assert ([s[0]] + ReplaceFirst(s[1..], from, to))[1..] == ReplaceFirst(s[1..], from, to);
      }
    }
  }

  /** When `d` does not occur in `s`, replacing the first `from` by `[d]`
      makes `d` occur exactly when `from` did. */
  lemma {:induction false} ReplaceFirstIntroduces(s: string, from: char, d: char)
    requires d !in s
    ensures d in ReplaceFirst(s, from, [d]) <==> from in s
  {
    if |s| > 0 && s[0] != from {
      ReplaceFirstIntroduces(s[1..], from, d);
      assert s == [s[0]] + s[1..];
    }
  }

  /** `replace(/\./g, "")` (and its analogue for any character). */
  function RemoveAll(s: string, c: char): (r: string)
    ensures c !in r
  {
    if |s| == 0 then ""
    else (if s[0] == c then "" else [s[0]]) + RemoveAll(s[1..], c)
  }

  lemma {:induction false} RemoveAllAppend(a: string, b: string, c: char)
    ensures RemoveAll(a + b, c) == RemoveAll(a, c) + RemoveAll(b, c)
  {
    if |a| == 0 {
      assert a + b == b;
    } else {
      assert (a + b)[0] == a[0] && (a + b)[1..] == a[1..] + b;
      RemoveAllAppend(a[1..], b, c);
    }
  }

  /** Removing a non-digit keeps the digits. */
  lemma {:induction false} RemoveAllKeepsDigits(s: string, c: char)
    requires !IsDigit(c)
    ensures Digits(RemoveAll(s, c)) == Digits(s)
  {
    if |s| > 0 {
      RemoveAllKeepsDigits(s[1..], c);
      assert s == [s[0]] + s[1..];
      DigitsAppend([s[0]], s[1..]);
      DigitsAppend(if s[0] == c then "" else [s[0]], RemoveAll(s[1..], c));
    }
  }

  /** Removing one character leaves every other one where it occurred. */
  lemma {:induction false} RemoveAllKeepsOthers(s: string, c: char, d: char)
    requires c != d
    ensures d in RemoveAll(s, c) <==> d in s
  {
    if |s| > 0 {
      RemoveAllKeepsOthers(s[1..], c, d);
      assert s == [s[0]] + s[1..];
    }
  }

  lemma {:induction false} RemoveAllAbsent(s: string, c: char)
    requires c !in s
    ensures RemoveAll(s, c) == s
  {
    if |s| > 0 {
      RemoveAllAbsent(s[1..], c);
    }
  }

  /** Length of the run of digits at the start of `s`. */
  function DigitRun(s: string): nat {
    if |s| > 0 && IsDigit(s[0]) then 1 + DigitRun(s[1..]) else 0
  }

  /**
   * `replace(/(\d)(?=(\d{3})+(?!\d))/g, "$1.")`: each match consumes one
   * digit, so every position is examined; the lookahead holds exactly when
   * the digits that follow form a run whose length is a positive
   * multiple of three.
   */
  function RegexGroup(s: string): string {
    if |s| == 0 then ""
    else
      var run := DigitRun(s[1..]);
      [s[0]] + (if IsDigit(s[0]) && run > 0 && run % 3 == 0 then "." else "") + RegexGroup(s[1..])
  }

  /** On any text, the grouping regex only inserts dots: the digits are
      unchanged, and so is everything once dots are removed. */
  lemma {:induction false} RegexGroupOnlyAddsDots(s: string)
    ensures Digits(RegexGroup(s)) == Digits(s)
    ensures RemoveAll(RegexGroup(s), '.') == RemoveAll(s, '.')
  {
    if |s| > 0 {
      var run := DigitRun(s[1..]);
      var dot := if IsDigit(s[0]) && run > 0 && run % 3 == 0 then "." else "";
      var rest := RegexGroup(s[1..]);
      assert RegexGroup(s) == [s[0]] + dot + rest;
      RegexGroupOnlyAddsDots(s[1..]);
      assert s == [s[0]] + s[1..];
      assert Digits(dot) == "" && RemoveAll(dot, '.') == "";
      DigitsAppend([s[0]], s[1..]);
      DigitsAppend([s[0]] + dot, rest);
      DigitsAppend([s[0]], dot);
      RemoveAllAppend([s[0]], s[1..], '.');
      RemoveAllAppend([s[0]] + dot, rest, '.');
      RemoveAllAppend([s[0]], dot, '.');
    }
  }

  /** Reference grouping: `.` between groups of three digits counted from the right. */
  function Agrupar(i: string): string
    decreases |i|
  {
    if |i| <= 3 then i else Agrupar(i[..|i| - 3]) + "." + i[|i| - 3..]
  }

  /** Digit groups: one to three digits, then groups of exactly three after each `.`. */
  predicate Agrupado(g: string)
    decreases |g|
  {
    if |g| <= 3 then 1 <= |g| && AllDigits(g)
    else |g| >= 5 && g[|g| - 4] == '.' && AllDigits(g[|g| - 3..]) && Agrupado(g[..|g| - 4])
  }

  /** The masked form of an amount of cents: grouped integer part, comma, two decimals. */
  function PtBr(cents: nat): string {
    Agrupar(NatToString(cents / 100)) + "," + TwoDigits(cents % 100)
  }

  /** Left-to-right statement of the grouping the regex performs on a digit string. */
  function GroupLeft(i: string): string {
    if |i| == 0 then ""
    else [i[0]] + (if |i| - 1 > 0 && (|i| - 1) % 3 == 0 then "." else "") + GroupLeft(i[1..])
  }

  lemma {:induction false} DigitRunOfDigitsThenStop(i: string, t: string)
    requires AllDigits(i) && (|t| == 0 || !IsDigit(t[0]))
    ensures DigitRun(i + t) == |i|
  {
    if |i| > 0 {
      assert (i + t)[1..] == i[1..] + t;
      DigitRunOfDigitsThenStop(i[1..], t);
    } else {
      assert i + t == t;
    }
  }

  lemma {:induction false} RegexGroupDigits(i: string, t: string)
    requires AllDigits(i) && (|t| == 0 || !IsDigit(t[0]))
    ensures RegexGroup(i + t) == GroupLeft(i) + RegexGroup(t)
  {
    if |i| == 0 {
      assert i + t == t;
    } else {
      assert (i + t)[1..] == i[1..] + t;
      DigitRunOfDigitsThenStop(i[1..], t);
      RegexGroupDigits(i[1..], t);
    }
  }

  lemma GroupLeftShort(i: string)
    requires |i| <= 3
    ensures GroupLeft(i) == i
  {
    if |i| > 0 {
      assert GroupLeft(i) == [i[0]] + GroupLeft(i[1..]);
      if |i| > 1 {
        assert GroupLeft(i[1..]) == [i[1]] + GroupLeft(i[2..]);
        if |i| > 2 {
          assert GroupLeft(i[2..]) == [i[2]] + GroupLeft(i[3..]);
        }
      }
    }
  }

  /** `GroupLeft` on a digit put in front: the dot after it depends only on how many digits follow. */
  lemma {:induction false} GroupLeftCons(c: char, s: string)
    ensures GroupLeft([c] + s) == [c] + (if |s| > 0 && |s| % 3 == 0 then "." else "") + GroupLeft(s)
  {
    assert ([c] + s)[0] == c && ([c] + s)[1..] == s;
  }

  /** One step of `GroupLeftSplit`: the three trailing digits keep the dot positions of the prefix. */
  lemma {:induction false} GroupLeftStep(a: string, b: string)
    requires |a| >= 2 && |b| == 3
    requires GroupLeft(a[1..] + b) == GroupLeft(a[1..]) + "." + b
    ensures GroupLeft(a + b) == GroupLeft(a) + "." + b
  {
    var t := a[1..];
    var d := if |t| % 3 == 0 then "." else "";
    var g := GroupLeft(t);
    assert GroupLeft(a + b) == [a[0]] + d + (g + "." + b) by {
      assert a + b == [a[0]] + (t + b);
      assert (|t| + 3) % 3 == |t| % 3;
      GroupLeftCons(a[0], t + b);
    }
    assert GroupLeft(a) == [a[0]] + d + g by {
      assert a == [a[0]] + t;
      GroupLeftCons(a[0], t);
    }
    assert [a[0]] + d + (g + "." + b) == ([a[0]] + d + g) + "." + b;
  }

  lemma {:induction false} GroupLeftSplit(a: string, b: string)
    requires |a| >= 1 && |b| == 3
    ensures GroupLeft(a + b) == GroupLeft(a) + "." + b
  {
    if |a| == 1 {
      assert (a + b)[0] == a[0] && (a + b)[1..] == b;
      GroupLeftShort(b);
    } else {
      GroupLeftSplit(a[1..], b);
      GroupLeftStep(a, b);
    }
  }

  /** The left-to-right grouping is the reference grouping from the right. */
  lemma {:induction false} GroupLeftIsAgrupar(i: string)
    ensures GroupLeft(i) == Agrupar(i)
    decreases |i|
  {
    if |i| <= 3 {
      GroupLeftShort(i);
    } else {
      var a := i[..|i| - 3];
      var b := i[|i| - 3..];
      assert i == a + b;
      GroupLeftSplit(a, b);
      GroupLeftIsAgrupar(a);
    }
  }

  lemma {:induction false} AgruparShape(i: string)
    requires AllDigits(i) && |i| >= 1
    ensures Agrupado(Agrupar(i))
    decreases |i|
  {
    if |i| > 3 {
      var a := i[..|i| - 3];
      var b := i[|i| - 3..];
      AgruparShape(a);
      var g := Agrupar(a) + "." + b;
      assert g[..|g| - 4] == Agrupar(a) && g[|g| - 3..] == b && g[|g| - 4] == '.';
    }
  }

  /** The grouping only adds dots: removing them gives back the integer string. */
  lemma {:induction false} AgruparRemoveDots(i: string)
    requires AllDigits(i)
    ensures RemoveAll(Agrupar(i), '.') == i
    decreases |i|
  {
    if |i| <= 3 {
      NoDotInDigits(i);
      RemoveAllAbsent(i, '.');
    } else {
      var a := i[..|i| - 3];
      var b := i[|i| - 3..];
      var g := Agrupar(a);
      assert Agrupar(i) == g + "." + b;
      AgruparRemoveDots(a);
      NoDotInDigits(b);
      RemoveAllAbsent(b, '.');
      RemoveAllAppend(g + ".", b, '.');
      RemoveAllAppend(g, ".", '.');
      assert RemoveAll(".", '.') == "";
      calc {
        RemoveAll(g + "." + b, '.');
        RemoveAll(g, '.') + RemoveAll(".", '.') + RemoveAll(b, '.');
        a + b;
      }
      assert i == a + b;
    }
  }

  lemma NoDotInDigits(s: string)
    requires AllDigits(s)
    ensures '.' !in s && ',' !in s
  {
  }

  /** Keeping only the digits of the grouping gives back the integer string. */
  lemma {:induction false} AgruparDigits(i: string)
    requires AllDigits(i)
    ensures Digits(Agrupar(i)) == i
    decreases |i|
  {
    if |i| <= 3 {
      DigitsOfDigits(i);
    } else {
      var a := i[..|i| - 3];
      var b := i[|i| - 3..];
      AgruparDigits(a);
      DigitsAppend(Agrupar(a) + ".", b);
      DigitsAppend(Agrupar(a), ".");
      assert Digits(".") == "";
      DigitsOfDigits(b);
      assert i == a + b;
    }
  }

  lemma AgruparOnlyAddsDots(i: string)
    requires AllDigits(i)
    ensures RemoveAll(Agrupar(i), '.') == i
    ensures Digits(Agrupar(i)) == i
  {
    AgruparRemoveDots(i);
    AgruparDigits(i);
  }

  /** The masked form has the shape `G,CC`: one comma followed by exactly two
      digits, digit groups before it, and once the dots are removed the
      integer part is the numeral of the amount, with no leading zeros. */
  lemma PtBrShape(cents: nat)
    ensures var r := PtBr(cents);
      && |r| >= 4 && r[|r| - 3] == ',' && AllDigits(r[|r| - 2..])
      && Agrupado(r[..|r| - 3]) && ',' !in r[..|r| - 3]
      && RemoveAll(r[..|r| - 3], '.') == NatToString(cents / 100)
      && ValueOf(RemoveAll(r[..|r| - 3], '.')) * 100 + ValueOf(r[|r| - 2..]) == cents
  {
    var i := NatToString(cents / 100);
    var c := TwoDigits(cents % 100);
    AgruparShape(i);
    AgruparOnlyAddsDots(i);
    var r := PtBr(cents);
    var g := Agrupar(i);
    assert r[..|r| - 3] == g && r[|r| - 2..] == c;
    AgruparNoComma(i);
    ValueOfAppendTwo(i, c);
  }

  lemma {:induction false} AgruparNoComma(i: string)
    requires AllDigits(i)
    ensures ',' !in Agrupar(i)
    decreases |i|
  {
    if |i| > 3 {
      AgruparNoComma(i[..|i| - 3]);
    }
  }

  /** `aplicarMascaraMoeda`: strip non-digits; with no digit left the value is
      untouched, otherwise the digits, read as cents, are formatted. */
  function Mask(s: string): (r: string)
    ensures Digits(s) == "" ==> r == s
    ensures Digits(s) != "" ==> r == PtBr(ValueOf(Digits(s)))
  {
    var ds := Digits(s);
    if ds == "" then s
    else
      var v := ValueOf(ds);
      MaskFormats(v);
      RegexGroup(ReplaceFirst(ToFixed2(v), '.', ","))
  }

  /** The three string steps after `toFixed(2)` produce the reference form. */
  lemma MaskFormats(v: nat)
    ensures RegexGroup(ReplaceFirst(ToFixed2(v), '.', ",")) == PtBr(v)
  {
    var i := NatToString(v / 100);
    var c := TwoDigits(v % 100);
    assert ToFixed2(v) == i + ['.'] + c;
    assert '.' !in i;
    ReplaceFirstAt(i, c, '.', ",");
    var t := "," + c;
    assert i + "," + c == i + t;
    RegexGroupDigits(i, t);
    RegexGroupDecimals(c);
    GroupLeftIsAgrupar(i);
  }

  /** The regex leaves the `,CC` tail alone. */
  lemma RegexGroupDecimals(c: string)
    requires |c| == 2 && AllDigits(c)
    ensures RegexGroup("," + c) == "," + c
  {
    var t := "," + c;
    assert t[1..] == c;
    assert RegexGroup(t) == [','] + RegexGroup(c);
    assert c[1..] == [c[1]];
    assert DigitRun([c[1]]) == 1 by {
      assert [c[1]][1..] == [];
    }
    assert RegexGroup(c) == [c[0]] + RegexGroup([c[1]]);
    assert [c[1]][1..] == [];
    assert RegexGroup([c[1]]) == [c[1]];
    assert [c[0]] + [c[1]] == c;
  }

  /** The digits of the masked form read back as the same number of cents. */
  lemma DigitsOfPtBr(cents: nat)
    ensures Digits(PtBr(cents)) == NatToString(cents / 100) + TwoDigits(cents % 100)
    ensures ValueOf(Digits(PtBr(cents))) == cents
  {
    var i := NatToString(cents / 100);
    var c := TwoDigits(cents % 100);
    AgruparOnlyAddsDots(i);
    DigitsAppend(Agrupar(i) + ",", c);
    assert Digits(",") == "";
    DigitsAppend(Agrupar(i), ",");
    DigitsOfDigits(c);
    ValueOfAppendTwo(i, c);
  }

  /** Masking is idempotent, so re-applying it on every input event is harmless. */
  lemma MaskIdempotent(s: string)
    ensures Mask(Mask(s)) == Mask(s)
  {
    var ds := Digits(s);
    if ds != "" {
      DigitsOfPtBr(ValueOf(ds));
    }
  }

  /** The submit-time cleaner: `replace(/\./g, "").replace(",", ".")`. It
      keeps the digits, and the result has a decimal point exactly when the
      input had a comma. */
  function Unmask(s: string): (r: string)
    ensures Digits(r) == Digits(s)
    ensures '.' in r <==> ',' in s
  {
    var semPontos := RemoveAll(s, '.');
    RemoveAllKeepsDigits(s, '.');
    ReplaceFirstKeepsDigits(semPontos, ',', ".");
    RemoveAllKeepsOthers(s, '.', ',');
    ReplaceFirstIntroduces(semPontos, ',', '.');
    ReplaceFirst(semPontos, ',', ".")
  }

  /** Cleaning a masked amount gives its `I.CC` decimal string. */
  lemma UnmaskPtBr(cents: nat)
    ensures Unmask(PtBr(cents)) == ToFixed2(cents)
  {
    var i := NatToString(cents / 100);
    var c := TwoDigits(cents % 100);
    AgruparOnlyAddsDots(i);
    RemoveAllAppend(Agrupar(i) + ",", c, '.');
    RemoveAllAppend(Agrupar(i), ",", '.');
    assert '.' !in c;
    RemoveAllAbsent(c, '.');
    assert RemoveAll(",", '.') == ",";
    assert ',' !in i;
    ReplaceFirstAt(i, c, ',', ".");
    assert i + "," + c == i + [','] + c;
  }

  /** Round trip: what the user typed, masked and then cleaned, is the
      decimal string of the amount its digits denote in cents. */
  lemma UnmaskMask(s: string)
    requires Digits(s) != ""
    ensures Unmask(Mask(s)) == ToFixed2(ValueOf(Digits(s)))
    ensures ValueOf(Digits(Unmask(Mask(s)))) == ValueOf(Digits(s))
  {
    var v := ValueOf(Digits(s));
    UnmaskPtBr(v);
    ToFixed2Digits(v);
  }

  lemma ToFixed2Digits(cents: nat)
    ensures Digits(ToFixed2(cents)) == NatToString(cents / 100) + TwoDigits(cents % 100)
    ensures ValueOf(Digits(ToFixed2(cents))) == cents
  {
    var i := NatToString(cents / 100);
    var c := TwoDigits(cents % 100);
    DigitsAppend(i + ".", c);
    DigitsAppend(i, ".");
    DigitsOfDigits(i);
    DigitsOfDigits(c);
    ValueOfAppendTwo(i, c);
  }

  /** Page load: a field with a value has its first `.` and first `,`
      removed and is then masked. Those removals are subsumed by the mask
      whenever the value has a digit; a value without digits stays without. */
  function CarregarValor(s: string): (r: string)
    ensures s == "" ==> r == ""
    ensures Digits(s) != "" ==> r == Mask(s)
    ensures Digits(s) == "" ==> Digits(r) == ""
  {
    if s == "" then s
    else
      var limpo := ReplaceFirst(ReplaceFirst(s, '.', ""), ',', "");
      ReplaceFirstKeepsDigits(s, '.', "");
      ReplaceFirstKeepsDigits(ReplaceFirst(s, '.', ""), ',', "");
      Mask(limpo)
  }

  /** A stored amount rendered as `I.CC`, loaded into the page and submitted
      again, reaches the server unchanged. */
  lemma CicloCompleto(cents: nat)
    ensures Unmask(CarregarValor(ToFixed2(cents))) == ToFixed2(cents)
  {
    ToFixed2Digits(cents);
    var v := ValueOf(Digits(ToFixed2(cents)));
    assert Digits(ToFixed2(cents)) != "";
    UnmaskMask(ToFixed2(cents));
  }

  /** The mask keeps only digits, so a negative amount loses its sign. */
  lemma MaskDropsSign(cents: nat)
    ensures Mask("-" + ToFixed2(cents)) == Mask(ToFixed2(cents))
  {
    var x := ToFixed2(cents);
    DigitsAppend("-", x);
    assert Digits("-") == "";
    assert Digits("-" + x) == Digits(x);
    ToFixed2Digits(cents);
    assert Digits(x) != "";
  }
}
