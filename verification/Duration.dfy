/** Overflow-checked parsing of durations. A character stands for one byte of the input, so
    the two micro signs are their UTF-8 encodings. */
module Duration {
  import opened Wrappers
  import opened Numerals

  /** 2^63, the magnitude of the most negative 64-bit integer. */
  const LIMIT: int := 0x8000_0000_0000_0000

  type UInt64 = n: int | 0 <= n < 0x1_0000_0000_0000_0000

  function Wrap(n: nat): UInt64 { n % 0x1_0000_0000_0000_0000 }

  const DAY: nat := 24 * 3600 * 1000_000_000

  /** The names a unit can have. */
  predicate IsUnit(name: string) {
    name in {"ns", "us", "\U{C2}\U{B5}s", "\U{CE}\U{BC}s", "ms", "s", "m", "h", "d"}
  }

  /** A unit in nanoseconds. */
  function UnitOf(name: string): (r: Option<nat>)
    ensures r.Some? <==> IsUnit(name)
    ensures r.Some? ==> 1 <= r.value <= DAY
  {
    if name == "ns" then Some(1)
    else if name in {"us", "\U{C2}\U{B5}s", "\U{CE}\U{BC}s"} then Some(1000)
    else if name == "ms" then Some(1000_000)
    else if name == "s" then Some(1000_000_000)
    else if name == "m" then Some(60 * 1000_000_000)
    else if name == "h" then Some(3600 * 1000_000_000)
    else if name == "d" then Some(DAY)
    else None
  }

  // ---- numerals ----

  predicate IsDigit(c: char) { '0' <= c <= '9' }

  function DigitOf(c: char): (d: nat)
    requires IsDigit(c)
    ensures d <= 9
  {
    c as int - '0' as int
  }

  predicate AllDigits(s: string) { forall i | 0 <= i < |s| :: IsDigit(s[i]) }

  /** The number of leading digits. */
  function DigitCount(s: string): (n: nat)
    ensures n <= |s| && AllDigits(s[..n]) && (n < |s| ==> !IsDigit(s[n]))
  {
    if s == "" || !IsDigit(s[0]) then 0 else 1 + DigitCount(s[1..])
  }

  /** The number a digit string denotes. */
  function Value(s: string): nat
    requires AllDigits(s)
  {
    if s == "" then 0 else 10 * Value(s[..|s| - 1]) + DigitOf(s[|s| - 1])
  }

  lemma {:induction false} ValueGrows(s: string, k: nat)
    requires AllDigits(s) && k <= |s|
    ensures Value(s[..k]) <= Value(s)
  {
    if k < |s| {
      ValueGrows(s[..|s| - 1], k);
      assert s[..|s| - 1][..k] == s[..k];
    } else {
      assert s[..k] == s;
    }
  }

  /** Fails exactly when the leading number exceeds 2^63; the 64-bit sum never wraps. */
  method LeadingInt(s: string) returns (x: Option<UInt64>, rem: string)
    ensures var n := DigitCount(s);
            (x.None? <==> Value(s[..n]) > LIMIT) && (x.Some? ==> x.value == Value(s[..n]) && rem == s[n..])
  {
    var v: UInt64 := 0;
    var i := 0;
    rem := "";
    ghost var n := DigitCount(s);
    hide DigitCount, Value, Wrap, DigitOf;
    ValueOfNothing();
    while i < |s| && IsDigit(s[i])
      invariant i <= n && v == Value(s[..i]) <= LIMIT
      decreases |s| - i
    {
      NextDigit(s, n, i);
      DigitFits(v, DigitOf(s[i]));
      if v > LIMIT / 10 { return None, rem; }
      v := Wrap(v * 10 + DigitOf(s[i]));
      if v > LIMIT { return None, rem; }
      i := i + 1;
    }
    return Some(v), s[i..];
  }

  /** The test before a digit is appended is exact and keeps the sum below 2^64. */
  lemma {:induction false} DigitFits(v: nat, d: nat)
    requires d <= 9
    ensures v > LIMIT / 10 ==> 10 * v + d > LIMIT
    ensures v <= LIMIT / 10 ==> Wrap(v * 10 + d) == 10 * v + d
  {
  }

  lemma {:induction false} ValueOfNothing()
    ensures Value("") == 0
  {
  }

  /** One more digit: the value so far, and the whole value is no smaller. */
  lemma {:induction false} NextDigit(s: string, n: nat, i: nat)
    requires n <= |s| && AllDigits(s[..n]) && (n < |s| ==> !IsDigit(s[n])) && i <= n && i < |s| && IsDigit(s[i])
    ensures i < n && AllDigits(s[..i]) && AllDigits(s[..i + 1])
    ensures Value(s[..i + 1]) == 10 * Value(s[..i]) + DigitOf(s[i]) && Value(s[..i + 1]) <= Value(s[..n])
  {
    ValueGrows(s[..n], i + 1);
    assert s[..n][..i + 1] == s[..i + 1] && s[..i + 1][..i] == s[..i];
  }

  // ---- terms ----

  /** A number with its unit; extra is what the decimal fraction adds, in nanoseconds. */
  datatype Term = Term(number: nat, extra: nat, unit: nat)

  function Amount(t: Term): nat { t.number * t.unit + t.extra }

  /** The floating-point value of a fraction, from its digits and the unit. */
  type Fraction = (string, nat) -> nat

  /** A fraction of a unit is at most the unit. */
  ghost predicate Bounded(fraction: Fraction) { forall digits, unit :: fraction(digits, unit) <= unit }

  predicate InUnit(c: char) { c != '.' && !IsDigit(c) }

  /** The number of leading characters that can belong to a unit. */
  function UnitCount(s: string): (n: nat)
    ensures n <= |s| && (forall i | 0 <= i < n :: InUnit(s[i])) && (n < |s| ==> !InUnit(s[n]))
  {
    if s == "" || !InUnit(s[0]) then 0 else 1 + UnitCount(s[1..])
  }

  /** The part after the integer digits: an optional fraction, then a unit. fraction is None
      without a point. */
  function Tail(s: string): (r: (Option<string>, string))
    ensures |r.1| <= |s| && (r.0.Some? ==> |r.1| < |s|)
  {
    if s != "" && s[0] == '.' then
      var m := DigitCount(s[1..]);
      (Some(s[1..][..m]), s[1..][m..])
    else (None, s)
  }

  /** The first term of a text and what follows it. */
  function NextTerm(fraction: Fraction, s: string): (r: Option<(Term, string)>)
    requires s != ""
    ensures r.Some? ==> |r.value.1| < |s| && 1 <= r.value.0.unit <= DAY
  {
    var n := DigitCount(s);
    var (f, rest) := Tail(s[n..]);
    var u := UnitCount(rest);
    if n == 0 && (f.None? || f.value == "") then None
    else if UnitOf(rest[..u]).None? then None
    else
      var unit := UnitOf(rest[..u]).value;
      Some((Term(Value(s[..n]), if f.None? || f.value == "" then 0 else fraction(f.value, unit), unit), rest[u..]))
  }

  /** All terms of a text. */
  function Scan(fraction: Fraction, s: string): Option<seq<Term>>
    decreases |s|
  {
    if s == "" then Some([])
    else
      var first := NextTerm(fraction, s);
      if first.None? then None
      else
        var rest := Scan(fraction, first.value.1);
        if rest.None? then None else Some([first.value.0] + rest.value)
  }

  // ---- the running total ----

  function Step(d: UInt64, t: Term): Option<UInt64> {
    if Amount(t) > LIMIT || Wrap(d + Amount(t)) > LIMIT then None else Some(Wrap(d + Amount(t)))
  }

  function Accumulate(terms: seq<Term>, d: UInt64): Option<UInt64>
    decreases terms
  {
    if terms == [] then Some(d)
    else
      var next := Step(d, terms[0]);
      if next.None? then None else Accumulate(terms[1..], next.value)
  }

  function Signed(s: string): (bool, string) {
    if s != "" && (s[0] == '-' || s[0] == '+') then (s[0] == '-', s[1..]) else (false, s)
  }

  /** The duration in nanoseconds from the total. */
  function Finish(neg: bool, total: Option<UInt64>): Option<int> {
    if total.None? then None
    else if neg then Some(0 - total.value as int)
    else if total.value > LIMIT - 1 then None
    else Some(total.value)
  }

  function Continue(fraction: Fraction, s: string, d: UInt64): Option<UInt64> {
    var terms := Scan(fraction, s);
    if terms.None? then None else Accumulate(terms.value, d)
  }

  /** What the parser returns; None is an error. */
  function Parsed(fraction: Fraction, s: string): Option<int> {
    var (neg, body) := Signed(s);
    if body == "0" then Some(0) else if body == "" then None else Finish(neg, Continue(fraction, body, 0))
  }

  method UnitEnd(s: string) returns (i: nat)
    ensures i == UnitCount(s)
  {
    i := 0;
    while i < |s| && InUnit(s[i])
      invariant i <= |s| && UnitCount(s) == i + UnitCount(s[i..])
    {
      assert s[i..][1..] == s[i + 1..];
      i := i + 1;
    }
  }

  method TakeTerm(fraction: Fraction, s: string) returns (v: Option<UInt64>, rem: string)
    requires s != "" && Bounded(fraction)
    ensures var t := NextTerm(fraction, s);
            if t.None? || Amount(t.value.0) > LIMIT then v.None? else v == Some(Amount(t.value.0)) && rem == t.value.1
  {
    hide UnitOf, UnitCount, DigitCount, Value, Tail;
    rem := s;
    if !(s[0] == '.' || IsDigit(s[0])) {
      BadStart(fraction, s);
      return None, rem;
    }
    var whole, rest := LeadingInt(s);
    if whole.None? {
      ghost var t := NextTerm(fraction, s);
      if t.Some? { TermIsAtLeastNumber(t.value.0); }
      return None, rem;
    }
    var (f, tail) := Tail(rest);
    if |rest| == |s| && (f.None? || f.value == "") { return None, rem; }
    var i := UnitEnd(tail);
    if i == 0 { return None, rem; }
    var found := UnitOf(tail[..i]);
    if found.None? { return None, rem; }
    var unit := found.value;
    OverflowTest(whole.value, unit);
    if whole.value > LIMIT / unit { return None, rem; }
    var amount: int := whole.value * unit;
    if f.Some? && f.value != "" {
      amount := Wrap(amount + fraction(f.value, unit));
      if amount > LIMIT { return None, rem; }
    }
    return Some(amount), tail[i..];
  }

  lemma {:induction false} BadStart(fraction: Fraction, s: string)
    requires s != "" && s[0] != '.' && !IsDigit(s[0])
    ensures NextTerm(fraction, s).None?
  {
    assert s[0..] == s;
  }

  lemma {:induction false} TermIsAtLeastNumber(t: Term)
    requires t.unit >= 1
    ensures Amount(t) >= t.number
  {
    assert t.number * t.unit >= t.number * 1;
  }

  /** The division test detects exactly the products above 2^63. */
  lemma {:induction false} OverflowTest(v: nat, unit: nat)
    requires unit >= 1
    ensures v > LIMIT / unit <==> v * unit > LIMIT
  {
    var q := LIMIT / unit;
    assert q * unit <= LIMIT < (q + 1) * unit;
    if v > q { assert v * unit >= (q + 1) * unit; } else { assert v * unit <= q * unit; }
  }

  lemma {:induction false} ContinueEnds(fraction: Fraction, d: UInt64)
    ensures Continue(fraction, "", d) == Some(d)
  {
  }

  /** Consuming one term. */
  lemma {:induction false} ContinueStep(fraction: Fraction, s: string, d: UInt64)
    requires s != ""
    ensures var t := NextTerm(fraction, s);
            Continue(fraction, s, d) ==
            if t.None? then None
            else
              var next := Step(d, t.value.0);
              if next.None? then None else Continue(fraction, t.value.1, next.value)
  {
    var t := NextTerm(fraction, s);
    if t.Some? && Scan(fraction, t.value.1).Some? {
      var rest := Scan(fraction, t.value.1).value;
      assert ([t.value.0] + rest)[1..] == rest;
    }
  }

  /** The loop over the terms, with the running total in d. */
  method Total(fraction: Fraction, body: string) returns (total: Option<UInt64>)
    requires Bounded(fraction)
    ensures total == Continue(fraction, body, 0)
  {
    hide Continue, NextTerm, Amount, Wrap, Bounded;
    var s := body;
    var d: UInt64 := 0;
    while s != ""
      invariant Continue(fraction, s, d) == Continue(fraction, body, 0)
      decreases |s|
    {
      ContinueStep(fraction, s, d);
      var v, rem := TakeTerm(fraction, s);
      if v.None? { return None; }
      d, s := Wrap(d + v.value), rem;
      if d > LIMIT { return None; }
    }
    ContinueEnds(fraction, d);
    return Some(d);
  }

  method ParseDuration(fraction: Fraction, text: string) returns (r: Option<int>)
    requires Bounded(fraction)
    ensures r == Parsed(fraction, text)
  {
    hide Continue, Bounded;
    var neg, s := false, text;
    if s != "" {
      var c := s[0];
      if c == '-' || c == '+' {
        neg, s := c == '-', s[1..];
      }
    }
    if s == "0" { return Some(0); }
    if s == "" { return None; }
    var d := Total(fraction, s);
    if d.None? { return None; }
    if neg { return Some(0 - d.value as int); }
    if d.value > LIMIT - 1 { return None; }
    return Some(d.value);
  }

  // ---- exactness ----

  function Sum(terms: seq<Term>): nat
    decreases terms
  {
    if terms == [] then 0 else Amount(terms[0]) + Sum(terms[1..])
  }

  /** The exact total, or an error when it exceeds 2^63. */
  function Exact(terms: seq<Term>): Option<UInt64> { if Sum(terms) <= LIMIT then Some(Sum(terms)) else None }

  /** Term k and everything before it, counted from d, are both exactly 2^63. */
  ghost predicate Corner(terms: seq<Term>, d: nat, k: nat) {
    k < |terms| && d + Sum(terms[..k]) == LIMIT && Amount(terms[k]) == LIMIT
  }

  ghost predicate NoCorner(terms: seq<Term>, d: nat) { forall k: nat :: !Corner(terms, d, k) }

  lemma {:induction false} SumOfPrefix(terms: seq<Term>, k: nat)
    requires 0 < k <= |terms|
    ensures Sum(terms[..k]) == Amount(terms[0]) + Sum(terms[1..][..k - 1])
  {
    assert terms[..k][1..] == terms[1..][..k - 1];
  }

  lemma {:induction false} SumSplits(terms: seq<Term>, k: nat)
    requires k <= |terms|
    ensures Sum(terms) == Sum(terms[..k]) + Sum(terms[k..])
    decreases k
  {
    if k > 0 {
      SumOfPrefix(terms, k);
      SumSplits(terms[1..], k - 1);
      assert terms[1..][k - 1..] == terms[k..];
    } else {
      assert terms[k..] == terms;
    }
  }

  /** Without a corner the 64-bit total is the exact one, or an error when that is too large. */
  lemma {:induction false} TotalIsExact(terms: seq<Term>, d: UInt64)
    requires d <= LIMIT && NoCorner(terms, d)
    ensures Accumulate(terms, d) == if d + Sum(terms) <= LIMIT then Some(d + Sum(terms)) else None
    decreases terms
  {
    if terms != [] {
      hide Amount;
      var a := Amount(terms[0]);
      assert terms[..0] == [];
      assert !Corner(terms, d, 0);
      if d + a <= LIMIT {
        CornersShift(terms, d);
        TotalIsExact(terms[1..], d + a);
      }
    }
  }

  lemma {:induction false} CornersShift(terms: seq<Term>, d: nat)
    requires NoCorner(terms, d) && terms != []
    ensures NoCorner(terms[1..], d + Amount(terms[0]))
  {
    hide Amount;
    var rest, e := terms[1..], d + Amount(terms[0]);
    forall k: nat ensures !Corner(rest, e, k) {
      if k < |terms| - 1 {
        SumOfPrefix(terms, k + 1);
        assert !Corner(terms, d, k + 1);
      }
    }
  }

  /** At a corner the total wraps to zero: everything up to it is forgotten. */
  lemma {:induction false} CornerForgets(terms: seq<Term>, d: UInt64, k: nat)
    requires d <= LIMIT && Corner(terms, d, k)
    ensures Accumulate(terms, d) == Accumulate(terms[k + 1..], 0)
    decreases k
  {
    hide Amount;
    if k == 0 {
      assert terms[..0] == [];
      assert Step(d, terms[0]) == Some(0);
    } else {
      SumOfPrefix(terms, k);
      assert Corner(terms[1..], d + Amount(terms[0]), k - 1);
      CornerForgets(terms[1..], d + Amount(terms[0]), k - 1);
      assert terms[1..][k..] == terms[k + 1..];
    }
  }

  lemma {:induction false} CornerIsTooLarge(terms: seq<Term>, k: nat)
    requires Corner(terms, 0, k)
    ensures Sum(terms) > LIMIT
  {
    SumSplits(terms, k);
    assert terms[k..][0] == terms[k];
  }

  /** The total is right exactly when there is no corner, or what follows it is an error in
      its own right. */
  lemma {:induction false} ExactIffNothingForgotten(terms: seq<Term>)
    ensures Accumulate(terms, 0) == Exact(terms) <==> forall k | Corner(terms, 0, k) :: Accumulate(terms[k + 1..], 0).None?
  {
    if k: nat :| Corner(terms, 0, k) {
      CornerIsTooLarge(terms, k);
      CornerForgets(terms, 0, k);
      forall j | Corner(terms, 0, j) ensures Accumulate(terms[j + 1..], 0) == Accumulate(terms, 0) { CornerForgets(terms, 0, j); }
    } else {
      TotalIsExact(terms, 0);
    }
  }

  /** The signed sum when it fits in 64 bits, else an error. */
  function ExactDuration(neg: bool, terms: seq<Term>): Option<int> {
    if neg then if Sum(terms) <= LIMIT then Some(0 - Sum(terms)) else None
    else if Sum(terms) < LIMIT then Some(Sum(terms) as int) else None
  }

  lemma {:induction false} FinishIsExact(neg: bool, terms: seq<Term>)
    requires NoCorner(terms, 0)
    ensures Finish(neg, Accumulate(terms, 0)) == ExactDuration(neg, terms)
  {
    TotalIsExact(terms, 0);
  }

  /** Every text: an error unless it is a sequence of terms, and then the exact signed sum or
      an error when it does not fit, unless a corner occurs. */
  lemma {:induction false} ParsedIsExact(fraction: Fraction, s: string)
    ensures var (neg, body) := Signed(s);
            var terms := Scan(fraction, body);
            (body == "0" ==> Parsed(fraction, s) == Some(0)) &&
            (body == "" || (body != "0" && terms.None?) ==> Parsed(fraction, s) == None) &&
            (body != "" && body != "0" && terms.Some? && NoCorner(terms.value, 0) ==>
               Parsed(fraction, s) == ExactDuration(neg, terms.value))
  {
    hide Scan, Accumulate, ExactDuration, NoCorner, Finish;
    var (neg, body) := Signed(s);
    var terms := Scan(fraction, body);
    if terms.None? { NothingFinished(neg); } else if NoCorner(terms.value, 0) { FinishIsExact(neg, terms.value); }
  }

  lemma {:induction false} NothingFinished(neg: bool)
    ensures Finish(neg, None) == None
  {
  }

  // ---- the inverse: writing a duration ----

  /** A number and a unit's name. */
  datatype Item = Item(number: nat, unit: string)

  ghost predicate Named(items: seq<Item>) { forall k | 0 <= k < |items| :: IsUnit(items[k].unit) }

  function Render(items: seq<Item>): string {
    if items == [] then "" else Decimal(items[0].number) + items[0].unit + Render(items[1..])
  }

  function TermsOf(items: seq<Item>): seq<Term>
    requires Named(items)
  {
    if items == [] then [] else [Term(items[0].number, 0, UnitOf(items[0].unit).value)] + TermsOf(items[1..])
  }

  lemma {:induction false} DecimalIsRead(n: nat)
    ensures var s := Decimal(n); s != "" && AllDigits(s) && Value(s) == n
  {
    var s := Decimal(n);
    if n >= 10 {
      DecimalIsRead(n / 10);
      assert s[..|s| - 1] == Decimal(n / 10);
    } else {
      assert s[..|s| - 1] == "";
    }
  }

  lemma {:induction false} UnitIsRead(name: string)
    requires IsUnit(name)
    ensures name != "" && forall i | 0 <= i < |name| :: InUnit(name[i])
  {
  }

  lemma {:induction false} DigitsEnd(a: string, b: string)
    requires AllDigits(a) && (b == "" || !IsDigit(b[0]))
    ensures DigitCount(a + b) == |a|
  {
    if a != "" {
      DigitsEnd(a[1..], b);
      assert (a + b)[1..] == a[1..] + b;
    } else {
      assert a + b == b;
    }
  }

  lemma {:induction false} UnitEnds(a: string, b: string)
    requires (forall i | 0 <= i < |a| :: InUnit(a[i])) && (b == "" || !InUnit(b[0]))
    ensures UnitCount(a + b) == |a|
  {
    if a != "" {
      UnitEnds(a[1..], b);
      assert (a + b)[1..] == a[1..] + b;
    } else {
      assert a + b == b;
    }
  }

  lemma {:induction false} RenderStartsWithDigit(items: seq<Item>)
    ensures Render(items) == "" || IsDigit(Render(items)[0])
  {
    if items != [] { DecimalIsRead(items[0].number); }
  }

  lemma {:induction false} RenderIsLong(items: seq<Item>)
    requires Named(items) && items != []
    ensures |Render(items)| >= 2 && IsDigit(Render(items)[0])
  {
    DecimalIsRead(items[0].number);
    UnitIsRead(items[0].unit);
  }

  lemma {:induction false} FirstIsRead(fraction: Fraction, item: Item, rest: string)
    requires IsUnit(item.unit) && (rest == "" || IsDigit(rest[0]))
    ensures var s := Decimal(item.number) + item.unit + rest;
            s != "" && NextTerm(fraction, s) == Some((Term(item.number, 0, UnitOf(item.unit).value), rest))
  {
    var a, u := Decimal(item.number), item.unit;
    var s := a + u + rest;
    DecimalIsRead(item.number);
    UnitIsRead(u);
    hide IsUnit, UnitOf, Value, DigitCount, UnitCount;
    assert s == a + (u + rest) && (u + rest)[0] == u[0];
    DigitsEnd(a, u + rest);
    UnitEnds(u, rest);
    assert s[..|a|] == a && s[|a|..] == u + rest;
    assert (u + rest)[..|u|] == u && (u + rest)[|u|..] == rest;
  }

  /** Written terms are read back. */
  lemma {:induction false} RenderedIsScanned(fraction: Fraction, items: seq<Item>)
    requires Named(items)
    ensures Scan(fraction, Render(items)) == Some(TermsOf(items))
  {
    if items != [] {
      RenderStartsWithDigit(items[1..]);
      FirstIsRead(fraction, items[0], Render(items[1..]));
      RenderedIsScanned(fraction, items[1..]);
    }
  }

  lemma {:induction false} RenderedFinishes(fraction: Fraction, neg: bool, items: seq<Item>)
    requires Named(items) && items != []
    ensures Parsed(fraction, (if neg then "-" else "") + Render(items)) == Finish(neg, Accumulate(TermsOf(items), 0))
  {
    hide Render, Scan, Accumulate, Finish, UnitOf, TermsOf;
    var body := Render(items);
    var s := (if neg then "-" else "") + body;
    RenderedIsScanned(fraction, items);
    RenderIsLong(items);
    assert Signed(s) == (neg, body) by { if neg { assert s[1..] == body; } else { assert s == body; } }
  }

  /** A written duration parses to its exact signed sum, or to an error when that does not fit
      in 64 bits. */
  lemma {:induction false} RenderedParses(fraction: Fraction, neg: bool, items: seq<Item>)
    requires Named(items) && items != [] && NoCorner(TermsOf(items), 0)
    ensures Parsed(fraction, (if neg then "-" else "") + Render(items)) == ExactDuration(neg, TermsOf(items))
  {
    hide Parsed, Render, TermsOf, ExactDuration, Accumulate, Finish;
    RenderedFinishes(fraction, neg, items);
    FinishIsExact(neg, TermsOf(items));
  }

  /** Two terms of 2^63 nanoseconds parse to zero. */
  lemma {:induction false} TwiceTheLimitIsZero(fraction: Fraction)
    ensures Parsed(fraction, "" + Render([Item(LIMIT, "ns"), Item(LIMIT, "ns")])) == Some(0)
  {
    hide Parsed, Render;
    var item, term := Item(LIMIT, "ns"), Term(LIMIT, 0, 1);
    var items, terms := [item, item], [term, term];
    assert TermsOf(items) == terms by {
      assert items[1..] == [item] && [item][1..] == [];
      assert TermsOf([item]) == [term] + TermsOf([]);
    }
    RenderedFinishes(fraction, false, items);
    assert Corner(terms, 0, 1) by {
      assert terms[..1] == [term] && [term][1..] == [];
      assert Sum([term]) == Amount(term) + Sum([]) && Amount(term) == LIMIT;
    }
    CornerForgets(terms, 0, 1);
    assert terms[2..] == [];
  }

  // ---- laws of the units, told on written durations ----

  datatype Sign = NoSign | Plus | Minus

  /** A text with its sign written in front. */
  function Write(sign: Sign, body: string): string {
    match sign case NoSign => body case Plus => "+" + body case Minus => "-" + body
  }

  lemma {:induction false} SignIsRead(sign: Sign, body: string)
    requires body == "" || (body[0] != '+' && body[0] != '-')
    ensures Signed(Write(sign, body)) == (sign.Minus?, body)
  {
    var s := Write(sign, body);
    if !sign.NoSign? { assert s[1..] == body; }
  }

  /** What a text without a sign is worth once its terms are read. */
  lemma {:induction false} BodyIsFinished(fraction: Fraction, sign: Sign, body: string)
    requires |body| >= 2 && body[0] != '+' && body[0] != '-'
    ensures Parsed(fraction, Write(sign, body)) == Finish(sign.Minus?, Continue(fraction, body, 0))
  {
    SignIsRead(sign, body);
    hide Continue, Finish, Write, Signed;
  }

  /** A leading plus changes nothing, and a minus negates. */
  lemma {:induction false} SignedFinishes(fraction: Fraction, sign: Sign, items: seq<Item>)
    requires Named(items) && items != []
    ensures Parsed(fraction, Write(sign, Render(items))) == Finish(sign.Minus?, Accumulate(TermsOf(items), 0))
  {
    RenderIsLong(items);
    RenderedIsScanned(fraction, items);
    hide Render, Scan, Accumulate, Finish, UnitOf, TermsOf, Parsed, Write;
    BodyIsFinished(fraction, sign, Render(items));
  }

  /** A list of terms is summed by amounts alone. */
  lemma {:induction false} SameAmounts(xs: seq<Term>, ys: seq<Term>, d: UInt64)
    requires |xs| == |ys| && forall k | 0 <= k < |xs| :: Amount(xs[k]) == Amount(ys[k])
    ensures Accumulate(xs, d) == Accumulate(ys, d)
    decreases xs
  {
    hide Amount;
    if xs != [] {
      assert Step(d, xs[0]) == Step(d, ys[0]);
      if Step(d, xs[0]).Some? { SameAmounts(xs[1..], ys[1..], Step(d, xs[0]).value); }
    }
  }

  lemma {:induction false} TermsAt(items: seq<Item>)
    requires Named(items)
    ensures |TermsOf(items)| == |items|
    ensures forall k | 0 <= k < |items| :: UnitOf(items[k].unit).Some? && TermsOf(items)[k] == Term(items[k].number, 0, UnitOf(items[k].unit).value)
  {
    hide UnitOf;
    if items != [] { TermsAt(items[1..]); }
  }

  /** Anywhere in a written duration, n of the one unit and m of the other are worth the same. */
  ghost predicate SameWorth(fraction: Fraction, a: Item, b: Item) {
    forall sign, before, after | Named(before) && Named(after) ::
      Parsed(fraction, Write(sign, Render(before + [a] + after))) == Parsed(fraction, Write(sign, Render(before + [b] + after)))
  }

  lemma {:induction false} EqualAmountsAreWorthTheSame(fraction: Fraction, a: Item, b: Item)
    requires IsUnit(a.unit) && IsUnit(b.unit) && a.number * UnitOf(a.unit).value == b.number * UnitOf(b.unit).value
    ensures SameWorth(fraction, a, b)
  {
    hide UnitOf, Parsed, Render, Accumulate, Finish, Write, IsUnit;
    forall sign, before, after | Named(before) && Named(after)
      ensures Parsed(fraction, Write(sign, Render(before + [a] + after))) == Parsed(fraction, Write(sign, Render(before + [b] + after)))
    {
      var xs, ys := before + [a] + after, before + [b] + after;
      SignedFinishes(fraction, sign, xs);
      SignedFinishes(fraction, sign, ys);
      TermsAt(xs);
      TermsAt(ys);
      hide TermsOf;
      forall k | 0 <= k < |xs| ensures Amount(TermsOf(xs)[k]) == Amount(TermsOf(ys)[k]) {
        if k != |before| { assert xs[k] == ys[k]; }
      }
      SameAmounts(TermsOf(xs), TermsOf(ys), 0);
    }
  }

  /** The ladder of the units: each is worth so many of the one below, and both micro signs
      are "us". */
  lemma {:induction false} UnitLadder(fraction: Fraction, n: nat)
    ensures SameWorth(fraction, Item(n, "us"), Item(1000 * n, "ns"))
    ensures SameWorth(fraction, Item(n, "\U{C2}\U{B5}s"), Item(n, "us")) && SameWorth(fraction, Item(n, "\U{CE}\U{BC}s"), Item(n, "us"))
    ensures SameWorth(fraction, Item(n, "ms"), Item(1000 * n, "us"))
    ensures SameWorth(fraction, Item(n, "s"), Item(1000 * n, "ms"))
    ensures SameWorth(fraction, Item(n, "m"), Item(60 * n, "s"))
    ensures SameWorth(fraction, Item(n, "h"), Item(60 * n, "m"))
    ensures SameWorth(fraction, Item(n, "d"), Item(24 * n, "h"))
  {
    hide SameWorth;
    EqualAmountsAreWorthTheSame(fraction, Item(n, "us"), Item(1000 * n, "ns"));
    EqualAmountsAreWorthTheSame(fraction, Item(n, "\U{C2}\U{B5}s"), Item(n, "us"));
    EqualAmountsAreWorthTheSame(fraction, Item(n, "\U{CE}\U{BC}s"), Item(n, "us"));
    EqualAmountsAreWorthTheSame(fraction, Item(n, "ms"), Item(1000 * n, "us"));
    EqualAmountsAreWorthTheSame(fraction, Item(n, "s"), Item(1000 * n, "ms"));
    EqualAmountsAreWorthTheSame(fraction, Item(n, "m"), Item(60 * n, "s"));
    EqualAmountsAreWorthTheSame(fraction, Item(n, "h"), Item(60 * n, "m"));
    EqualAmountsAreWorthTheSame(fraction, Item(n, "d"), Item(24 * n, "h"));
  }

  /** A single term. */
  lemma {:induction false} OneTerm(fraction: Fraction, sign: Sign, n: nat, unit: string)
    requires IsUnit(unit)
    ensures Parsed(fraction, Write(sign, Decimal(n) + unit)) == Finish(sign.Minus?, Accumulate([Term(n, 0, UnitOf(unit).value)], 0))
  {
    hide IsUnit, UnitOf, Parsed, Accumulate, Finish, Write;
    var items := [Item(n, unit)];
    assert items[1..] == [];
    SignedFinishes(fraction, sign, items);
    assert Render([]) == "" && Render(items) == Decimal(n) + unit + "" == Decimal(n) + unit;
    assert TermsOf([]) == [] && TermsOf(items) == [Term(n, 0, UnitOf(unit).value)];
  }

  /** The total of a single term, with its sign, is the term or an error when it does not fit. */
  function Fitted(sign: Sign, n: nat): Option<int> {
    if sign.Minus? then (if n <= LIMIT then Some(0 - n) else None) else if n < LIMIT then Some(n as int) else None
  }

  lemma {:induction false} OneTermIsFitted(sign: Sign, t: Term)
    ensures Finish(sign.Minus?, Accumulate([t], 0)) == Fitted(sign, Amount(t))
  {
    hide Amount;
    assert [t][1..] == [];
    if Step(0, t).Some? { assert Accumulate([], Step(0, t).value) == Step(0, t); }
  }

  /** The foot of the ladder: n nanoseconds are n, or an error when n does not fit. */
  lemma {:induction false} NanosecondsAreCounted(fraction: Fraction, sign: Sign, n: nat)
    ensures Parsed(fraction, Write(sign, Decimal(n) + "ns")) ==
            if sign.Minus? then (if n <= LIMIT then Some(0 - n) else None) else if n < LIMIT then Some(n as int) else None
  {
    assert UnitOf("ns") == Some(1);
    OneTerm(fraction, sign, n, "ns");
    OneTermIsFitted(sign, Term(n, 0, 1));
    hide Parsed, Accumulate, Finish, Write, UnitOf;
  }

  /** A number without a unit is an error, unless it is zero; so is an unknown unit. */
  lemma {:induction false} NumberNeedsUnit(fraction: Fraction, sign: Sign, n: nat, name: string)
    requires !IsUnit(name) && forall i | 0 <= i < |name| :: InUnit(name[i])
    ensures Parsed(fraction, Write(sign, Decimal(n) + name)) == if n == 0 && name == "" then Some(0) else None
  {
    var a, body := Decimal(n), Decimal(n) + name;
    DecimalIsRead(n);
    NumberHasNoTerm(fraction, a, name);
    SignIsRead(sign, body);
    assert body == "0" <==> n == 0 && name == "" by {
      if body == "0" { assert name == "" && a == "0"; ValueOfZero(); }
      if n == 0 { assert a == "0"; }
    }
    hide NextTerm, Write, Signed, IsUnit, Value;
    assert Scan(fraction, body).None?;
  }

  lemma {:induction false} ValueOfZero()
    ensures AllDigits("0") && Value("0") == 0
  {
    assert "0"[..0] == "";
  }

  lemma {:induction false} NumberHasNoTerm(fraction: Fraction, a: string, name: string)
    requires AllDigits(a) && a != "" && !IsUnit(name) && forall i | 0 <= i < |name| :: InUnit(name[i])
    ensures NextTerm(fraction, a + name).None?
  {
    DigitsEnd(a, name);
    UnitEnds(name, "");
    assert name + "" == name && (a + name)[|a|..] == name && name[..|name|] == name;
    hide DigitCount, UnitCount, Value, IsUnit, UnitOf;
  }

  /** Nothing after the sign is an error. */
  lemma {:induction false} NothingIsAnError(fraction: Fraction, sign: Sign)
    ensures Parsed(fraction, Write(sign, "")) == None
  {
    SignIsRead(sign, "");
    hide Write, Signed;
  }

  /** A decimal fraction adds its value, in nanoseconds, to the whole units; u is the unit as
      the parser itself reads one of it. Digits before or after the point may be missing, but
      not both. */
  lemma {:induction false} FractionAdds(fraction: Fraction, sign: Sign, whole: string, digits: string, unit: string, u: nat)
    requires IsUnit(unit) && AllDigits(whole) && AllDigits(digits)
    requires Parsed(fraction, "1" + unit) == Some(u as int)
    ensures Parsed(fraction, Write(sign, whole + "." + digits + unit)) ==
            if whole == "" && digits == "" then None
            else Parsed(fraction, Write(sign, Decimal(Value(whole) * u + if digits == "" then 0 else fraction(digits, u)) + "ns"))
  {
    hide *;
    var body := whole + "." + digits + unit;
    OneUnit(fraction, unit);
    PointIsRead(fraction, whole, digits, unit);
    PointedBody(whole, digits, unit);
    BodyIsFinished(fraction, sign, body);
    if whole != "" || digits != "" {
      var extra := if digits == "" then 0 else fraction(digits, u);
      TermIsNanoseconds(fraction, sign, body, Term(Value(whole), extra, u));
    } else {
      NoTermIsAnError(fraction, sign, body);
    }
  }

  lemma {:induction false} PointedBody(whole: string, digits: string, unit: string)
    requires IsUnit(unit) && AllDigits(whole)
    ensures var body := whole + "." + digits + unit; |body| >= 2 && body[0] != '+' && body[0] != '-'
  {
    UnitIsRead(unit);
    hide IsUnit;
    var body := whole + "." + digits + unit;
    assert body[0] == if whole == "" then '.' else whole[0];
  }

  lemma {:induction false} TermIsNanoseconds(fraction: Fraction, sign: Sign, body: string, term: Term)
    requires body != "" && NextTerm(fraction, body) == Some((term, ""))
    ensures Finish(sign.Minus?, Continue(fraction, body, 0)) == Parsed(fraction, Write(sign, Decimal(term.number * term.unit + term.extra) + "ns"))
  {
    hide NextTerm, Continue, Accumulate, Finish, Parsed, Write;
    ScansOne(fraction, body, term);
    OneTermIsFitted(sign, term);
    NanosecondsAreCounted(fraction, sign, Amount(term));
  }

  lemma {:induction false} NoTermIsAnError(fraction: Fraction, sign: Sign, body: string)
    requires body != "" && NextTerm(fraction, body).None?
    ensures Finish(sign.Minus?, Continue(fraction, body, 0)) == None
  {
    hide NextTerm;
    assert Scan(fraction, body).None?;
  }

  lemma {:induction false} ScansOne(fraction: Fraction, body: string, term: Term)
    requires body != "" && NextTerm(fraction, body) == Some((term, ""))
    ensures Continue(fraction, body, 0) == Accumulate([term], 0)
  {
    hide NextTerm, Accumulate;
    assert Scan(fraction, "") == Some([]);
    assert [term] + [] == [term];
    assert Scan(fraction, body) == Some([term]);
  }

  lemma {:induction false} OneUnit(fraction: Fraction, unit: string)
    requires IsUnit(unit)
    ensures Parsed(fraction, "1" + unit) == Some(UnitOf(unit).value as int)
  {
    assert Decimal(1) == "1";
    OneTerm(fraction, NoSign, 1, unit);
    OneTermIsFitted(NoSign, Term(1, 0, UnitOf(unit).value));
    hide IsUnit, UnitOf, Parsed, Accumulate, Finish;
  }

  lemma {:induction false} PointIsRead(fraction: Fraction, whole: string, digits: string, unit: string)
    requires IsUnit(unit) && AllDigits(whole) && AllDigits(digits)
    ensures var body := whole + "." + digits + unit; var u := UnitOf(unit).value;
            body != "" &&
            NextTerm(fraction, body) ==
            if whole == "" && digits == "" then None
            else Some((Term(Value(whole), if digits == "" then 0 else fraction(digits, u), u), ""))
  {
    var body, tail := whole + "." + digits + unit, "." + digits + unit;
    hide IsUnit, UnitOf, Value, DigitCount, UnitCount, Tail;
    assert body == whole + tail && body[..|whole|] == whole && body[|whole|..] == tail;
    DigitsEnd(whole, tail);
    UnitIsRead(unit);
    PointedTail(digits, unit);
    UnitEnds(unit, "");
    assert unit + "" == unit && unit[..|unit|] == unit && unit[|unit|..] == "";
  }

  lemma {:induction false} PointedTail(digits: string, unit: string)
    requires AllDigits(digits) && unit != "" && InUnit(unit[0])
    ensures Tail("." + digits + unit) == (Some(digits), unit)
  {
    hide DigitCount;
    var tail, rest := "." + digits + unit, digits + unit;
    assert tail[1..] == rest;
    DigitsEnd(digits, unit);
    assert rest[..|digits|] == digits && rest[|digits|..] == unit;
  }
}
