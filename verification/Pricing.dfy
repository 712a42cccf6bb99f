/** The price estimate of the public site (public/site/pricing.js: parseRevenue, priceRow and the sums of
    updateEstimate).

    Amounts are integers: every number that the page accepts or adds up to is far inside the range in
    which the language's numbers are exact, and rounding never brings a larger one back to the limit. */
module Pricing {

  import opened Text
  import opened Wrappers

  const MAX_CENTS: nat := 2147483647

  // ----- Reading an amount -----

  /** The position of the first `c`, or the length. */
  function Find(s: string, c: char): (i: nat)
    ensures i <= |s| && (forall j :: 0 <= j < i ==> s[j] != c) && (i < |s| ==> s[i] == c)
  {
    if s == "" || s[0] == c then 0 else 1 + Find(s[1..], c)
  }

  /** `String(value).trim().replace(',', '.')`. */
  function Clean(s: string): string {
    var v := Text.Trim(s);
    var i := Find(v, ',');
    if i < |v| then v[i := '.'] else v
  }

  function ParseClean(v: string): Option<nat> {
    var dot := Find(v, '.');
    var whole := v[..dot];
    var fraction := if dot < |v| then v[dot + 1..] else "";
    if !Digits(whole) || whole == "" || !Digits(fraction) || |fraction| > 2 then None
    else
      var padded := (fraction + "00")[..2];
      var cents := Number(whole) * 100 + Number(padded);
      if cents <= MAX_CENTS then Some(cents) else None
  }

  /** `parseRevenue`. */
  function ParseRevenue(s: string): Option<nat> {
    ParseClean(Clean(s))
  }

  /** The text is digits `w`, or `w` and a dot and at most two digits `f`. */
  predicate Reads(v: string, w: string, f: string) {
    && w != "" && Digits(w) && Digits(f) && |f| <= 2
    && (v == w + "." + f || (f == "" && v == w))
  }

  /** The cents of `w.f`, as exact arithmetic: the fraction's digits are tenths and hundredths. */
  predicate IsCents(w: string, f: string, cents: nat)
    requires Digits(w) && Digits(f)
  {
    Digits(w + f) && cents * Power(|f|) == 100 * Number(w + f)
  }

  lemma PaddedCents(w: string, f: string)
    requires Digits(w) && Digits(f) && |f| <= 2
    ensures Digits((f + "00")[..2])
    ensures IsCents(w, f, Number(w) * 100 + Number((f + "00")[..2]))
  {
    PaddedFraction(f);
    NumberConcat(w, f);
    hide *;
    CentsOf(w, f, Number((f + "00")[..2]), Number(w) * 100 + Number((f + "00")[..2]));
  }

  lemma CentsOf(w: string, f: string, padded: nat, cents: nat)
    requires Digits(w) && Digits(f) && Digits(w + f) && Number(w + f) == Number(w) * Power(|f|) + Number(f)
    requires padded * Power(|f|) == 100 * Number(f) && cents == Number(w) * 100 + padded
    ensures IsCents(w, f, cents)
  {
    hide Number, Digits, Power;
    Scale(Number(w), Power(|f|), Number(f), padded, Number(w + f), cents);
  }

  /** The two digits of a fraction. */
  lemma PaddedFraction(f: string)
    requires Digits(f) && |f| <= 2
    ensures Digits((f + "00")[..2])
    ensures Number((f + "00")[..2]) * Power(|f|) == 100 * Number(f) && 0 < Power(|f|)
  {
    assert Power(0) == 1 && Power(1) == 10 && Power(2) == 100;
    var padded := (f + "00")[..2];
    if |f| == 0 {
      assert padded == "00" && Number("00"[..1]) == 0;
    } else if |f| == 1 {
      assert padded == f + "0";
      NumberConcat(f, "0");
      assert Number("0") == 0;
    } else {
      assert padded == f;
    }
  }

  lemma Scale(w: nat, p: nat, f: nat, padded: nat, all: nat, cents: nat)
    requires padded * p == 100 * f && all == w * p + f && cents == w * 100 + padded
    ensures cents * p == 100 * all
  {
    assert cents * p == w * 100 * p + padded * p;
    assert w * 100 * p == 100 * (w * p);
  }

  lemma CentsAreUnique(w: string, f: string, a: nat, b: nat)
    requires Digits(w) && Digits(f) && IsCents(w, f, a) && IsCents(w, f, b)
    ensures a == b
  {
    PowerPositive(|f|);
    assert a * Power(|f|) == b * Power(|f|);
    hide *;
    Cancel(a, b, Power(|f|));
  }

  lemma Cancel(a: nat, b: nat, p: nat)
    requires a * p == b * p && p >= 1
    ensures a == b
  {
    assert (a - b) * p == 0;
  }

  lemma {:induction false} PowerPositive(n: nat)
    ensures Power(n) >= 1
  {
    if n > 0 {
      PowerPositive(n - 1);
    }
  }

  lemma {:induction false} FindAt(v: string, i: nat, c: char)
    requires i <= |v| && (i < |v| ==> v[i] == c) && forall j :: 0 <= j < i ==> v[j] != c
    ensures Find(v, c) == i
  {
    if i > 0 {
      FindAt(v[1..], i - 1, c);
    }
  }

  lemma ReadsSplits(v: string, w: string, f: string)
    requires Reads(v, w, f)
    ensures v[..Find(v, '.')] == w && (if Find(v, '.') < |v| then v[Find(v, '.') + 1..] else "") == f
  {
    assert forall j :: 0 <= j < |w| ==> v[j] == w[j] && IsDigit(w[j]);
    FindAt(v, |w|, '.');
  }

  lemma SplitReads(v: string)
    requires var dot := Find(v, '.');
             var f := if dot < |v| then v[dot + 1..] else "";
             v[..dot] != "" && Digits(v[..dot]) && Digits(f) && |f| <= 2
    ensures var dot := Find(v, '.'); Reads(v, v[..dot], if dot < |v| then v[dot + 1..] else "")
  {
    var dot := Find(v, '.');
    if dot < |v| {
      assert v == v[..dot] + "." + v[dot + 1..];
    }
  }

  lemma ParsedReads(v: string, cents: nat)
    requires ParseClean(v) == Some(cents)
    ensures cents <= MAX_CENTS && exists w, f :: Reads(v, w, f) && IsCents(w, f, cents)
  {
    var dot := Find(v, '.');
    var w, f := v[..dot], if dot < |v| then v[dot + 1..] else "";
    SplitReads(v);
    PaddedCents(w, f);
    hide Reads, IsCents, Number, Digits, Find;
  }

  lemma ReadsParsed(v: string, w: string, f: string, cents: nat)
    requires Reads(v, w, f) && IsCents(w, f, cents) && cents <= MAX_CENTS
    ensures ParseClean(v) == Some(cents)
  {
    ReadsSplits(v, w, f);
    PaddedCents(w, f);
    CentsAreUnique(w, f, cents, Number(w) * 100 + Number((f + "00")[..2]));
    hide IsCents, Number, Find;
  }

  /** A text is accepted as `cents` exactly when it reads, after clean-up, as a decimal with at most two
      places whose exact value that is, and the value is within the limit. */
  lemma AcceptedExactlyWhen(s: string, cents: nat)
    ensures ParseRevenue(s) == Some(cents) <==>
            cents <= MAX_CENTS && exists w, f :: Reads(Clean(s), w, f) && IsCents(w, f, cents)
  {
    var v := Clean(s);
    if ParseClean(v) == Some(cents) {
      ParsedReads(v, cents);
    }
    forall w, f | cents <= MAX_CENTS && Reads(v, w, f) && IsCents(w, f, cents)
      ensures ParseClean(v) == Some(cents)
    {
      ReadsParsed(v, w, f, cents);
    }
    hide ParseClean, Clean, Reads, IsCents;
  }

  /** The text is an amount between white space: digits, and possibly a dot or a comma and up to two more. */
  ghost predicate Spells(s: string, w: string, separator: string, f: string) {
    && w != "" && Digits(w) && Digits(f) && |f| <= 2
    && (separator == "." || separator == "," || (separator == "" && f == ""))
    && Trim(s) == w + separator + f
  }

  lemma SpelledIsClean(s: string, w: string, separator: string, f: string)
    requires Spells(s, w, separator, f)
    ensures Reads(Clean(s), w, f)
  {
    var v := Trim(s);
    assert forall j :: 0 <= j < |w| ==> v[j] == w[j] && IsDigit(w[j]);
    if separator == "," {
      FindAt(v, |w|, ',');
      assert v[|w| := '.'] == w + "." + f;
    } else {
      assert forall j :: 0 <= j < |f| ==> v[|w| + |separator| + j] == f[j] && IsDigit(f[j]);
      FindAt(v, |v|, ',');
    }
  }

  /** Only behind the digits can there be a comma where a dot is read. */
  lemma CommaBehind(v: string, i: nat, w: string, f: string)
    requires i < |v| && v[i] == ',' && Reads(v[i := '.'], w, f)
    ensures v == w + "," + f
  {
    var clean := v[i := '.'];
    assert clean[i] == '.' && forall j :: 0 <= j < |w| ==> clean[j] == w[j] && IsDigit(w[j]);
    assert clean == w + "." + f && forall j :: 0 <= j < |f| ==> clean[|w| + 1 + j] == f[j] && IsDigit(f[j]);
    assert i == |w|;
  }

  lemma CleanIsSpelled(s: string, w: string, f: string)
    requires Reads(Clean(s), w, f)
    ensures exists separator :: Spells(s, w, separator, f)
  {
    var v, i := Trim(s), Find(Trim(s), ',');
    assert Clean(s) == if i < |v| then v[i := '.'] else v;
    hide Trim, Clean, Find, Digits;
    if i < |v| {
      CommaBehind(v, i, w, f);
      assert Spells(s, w, ",", f);
    } else if v == w {
      assert v == w + "" + "";
      assert Spells(s, w, "", f);
    } else {
      assert Spells(s, w, ".", f);
    }
  }

  /** Said of the text as it is typed: between white space it is accepted as the cents of its digits, up to
      21 474 836.47, with a dot, a comma or neither. */
  lemma AcceptedTexts(s: string, cents: nat)
    ensures ParseRevenue(s) == Some(cents) <==>
            cents <= 2147483647 && exists w, separator, f :: Spells(s, w, separator, f) && IsCents(w, f, cents)
  {
    AcceptedExactlyWhen(s, cents);
    forall w, f | Reads(Clean(s), w, f) && IsCents(w, f, cents)
      ensures exists w, separator, f :: Spells(s, w, separator, f) && IsCents(w, f, cents)
    {
      CleanIsSpelled(s, w, f);
      var separator :| Spells(s, w, separator, f);
      assert Spells(s, w, separator, f) && IsCents(w, f, cents);
    }
    forall w, separator, f | Spells(s, w, separator, f) && IsCents(w, f, cents)
      ensures exists w, f :: Reads(Clean(s), w, f) && IsCents(w, f, cents)
    {
      SpelledIsClean(s, w, separator, f);
    }
    hide Spells, Reads, IsCents, ParseRevenue, Clean;
  }

  // ----- Printing an amount -----

  function Digit(n: nat): char
    requires n < 10
  {
    '0' + n as char
  }

  function Decimal(n: nat): (s: string)
    ensures s != "" && Digits(s)
  {
    if n < 10 then [Digit(n)] else Decimal(n / 10) + [Digit(n % 10)]
  }

  lemma {:induction false} DecimalReads(n: nat)
    ensures Number(Decimal(n)) == n
  {
    if n < 10 {
      var s := [Digit(n)];
      assert s[..0] == "";
    } else {
      DecimalReads(n / 10);
      var s := Decimal(n / 10) + [Digit(n % 10)];
      assert s[..|s| - 1] == Decimal(n / 10);
    }
  }

  /** Dollars, a separator and two digits for the cents. */
  function Print(cents: nat, separator: char): string {
    Decimal(cents / 100) + [separator] + [Digit(cents % 100 / 10), Digit(cents % 10)]
  }

  lemma PrintIsTight(cents: nat, separator: char)
    ensures Text.Tight(Print(cents, separator))
  {
    var v := Print(cents, separator);
    assert v[0] == Decimal(cents / 100)[0] && IsDigit(v[0]);
    assert v[|v| - 1] == Digit(cents % 10) && IsDigit(v[|v| - 1]);
  }

  lemma PrintIsClean(cents: nat, separator: char)
    requires separator == '.' || separator == ','
    ensures Clean(Print(cents, separator)) == Print(cents, '.')
  {
    var v := Print(cents, separator);
    var w := Decimal(cents / 100);
    PrintIsTight(cents, separator);
    Text.TrimTightens(v);
    assert forall j :: 0 <= j < |w| ==> v[j] == w[j] && IsDigit(v[j]);
    assert v[|w|] == separator && IsDigit(v[|w| + 1]) && IsDigit(v[|w| + 2]) && |v| == |w| + 3;
    if separator == ',' {
      FindAt(v, |w|, ',');
      assert v[|w| := '.'] == Print(cents, '.');
    } else {
      assert forall j :: 0 <= j < |v| ==> v[j] != ',';
    }
  }

  lemma PrintedCents(cents: nat)
    ensures var w, f := Decimal(cents / 100), [Digit(cents % 100 / 10), Digit(cents % 10)];
            Digits(f) && Reads(Print(cents, '.'), w, f) && IsCents(w, f, cents)
  {
    var w, f := Decimal(cents / 100), [Digit(cents % 100 / 10), Digit(cents % 10)];
    assert Print(cents, '.') == w + "." + f && Digits(f);
    DecimalReads(cents / 100);
    NumberConcat(w, f);
    assert f[..1] == [Digit(cents % 100 / 10)] && f[..1][..0] == "";
    assert Number(f[..1]) == cents % 100 / 10;
    assert Number(f) == 10 * (cents % 100 / 10) + cents % 10;
    Hundreds(cents);
    assert Power(2) == 100 by {
      assert Power(1) == 10;
    }
  }

  lemma Hundreds(cents: nat)
    ensures 10 * (cents % 100 / 10) + cents % 10 == cents % 100
    ensures cents / 100 * 100 + cents % 100 == cents
  {
    var r := cents % 100;
    LastDigit(cents, 10 * (cents / 100) + r / 10, r % 10);
  }

  lemma LastDigit(n: nat, tens: nat, digit: nat)
    requires n == 10 * tens + digit && digit < 10
    ensures n % 10 == digit
  {
  }

  /** Reading what was printed gives the amount back, whichever separator was used. */
  lemma RoundTrip(cents: nat, separator: char)
    requires cents <= MAX_CENTS && (separator == '.' || separator == ',')
    ensures ParseRevenue(Print(cents, separator)) == Some(cents)
  {
    PrintIsClean(cents, separator);
    PrintedCents(cents);
    ReadsParsed(Print(cents, '.'), Decimal(cents / 100), [Digit(cents % 100 / 10), Digit(cents % 10)], cents);
    hide Clean, ParseClean, Print;
  }

  // ----- The tier -----

  datatype Tier = Tier(key: string, max: Option<nat>, cents: nat)

  predicate Below(t: Tier, cents: nat) {
    t.max.None? || cents < t.max.value
  }

  /** `DATA.tiers.find(...)`: its position, or none. */
  function FindTier(tiers: seq<Tier>, cents: nat): Option<nat> {
    if tiers == [] then None
    else if Below(tiers[0], cents) then Some(0)
    else
      var rest := FindTier(tiers[1..], cents);
      if rest.Some? then Some(rest.value + 1) else None
  }

  /** Bounds that rise strictly, and a last tier without one. */
  ghost predicate Ladder(tiers: seq<Tier>) {
    && tiers != [] && tiers[|tiers| - 1].max.None?
    && (forall i :: 0 <= i < |tiers| - 1 ==> tiers[i].max.Some?)
    && (forall i, j :: 0 <= i < j < |tiers| - 1 ==> tiers[i].max.value < tiers[j].max.value)
  }

  /** The amount lies in the tier's bracket. */
  predicate InBracket(tiers: seq<Tier>, k: nat, cents: nat)
    requires k < |tiers|
  {
    && (k > 0 ==> tiers[k - 1].max.Some? && tiers[k - 1].max.value <= cents)
    && Below(tiers[k], cents)
  }

  lemma {:induction false} FindTierIsFirst(tiers: seq<Tier>, cents: nat)
    ensures match FindTier(tiers, cents)
            case Some(k) => k < |tiers| && Below(tiers[k], cents) && forall i :: 0 <= i < k ==> !Below(tiers[i], cents)
            case None => forall i :: 0 <= i < |tiers| ==> !Below(tiers[i], cents)
  {
    if tiers != [] {
      FindTierIsFirst(tiers[1..], cents);
      assert forall i :: 0 <= i < |tiers| - 1 ==> tiers[1..][i] == tiers[i + 1];
      hide Below;
      if !Below(tiers[0], cents) {
        assert forall i :: 1 <= i < |tiers| ==> tiers[i] == tiers[1..][i - 1];
      }
    }
  }

  /** On a ladder there is always a tier, and it is the one whose bracket holds the amount. */
  lemma OneBracket(tiers: seq<Tier>, cents: nat, k: nat)
    requires Ladder(tiers) && k < |tiers|
    ensures FindTier(tiers, cents).Some?
    ensures FindTier(tiers, cents) == Some(k) <==> InBracket(tiers, k, cents)
  {
    FindTierIsFirst(tiers, cents);
    assert Below(tiers[|tiers| - 1], cents);
    var found := FindTier(tiers, cents).value;
    if found < k {
      assert tiers[found].max.value <= tiers[k - 1].max.value;
    }
  }

  /** More revenue never means a lower tier. */
  lemma TiersRise(tiers: seq<Tier>, a: nat, b: nat)
    requires Ladder(tiers) && a <= b
    ensures FindTier(tiers, a).Some? && FindTier(tiers, b).Some?
    ensures FindTier(tiers, a).value <= FindTier(tiers, b).value
  {
    FindTierIsFirst(tiers, a);
    FindTierIsFirst(tiers, b);
    assert Below(tiers[|tiers| - 1], b) && Below(tiers[|tiers| - 1], a);
    var k := FindTier(tiers, b).value;
    assert Below(tiers[k], a);
  }

  // ----- The estimate -----

  datatype Row = Row(revenue: string, outreach: bool)

  datatype Price = Price(core: nat, addon: nat)

  /** `priceRow`; without a tier the page fails, which a ladder rules out. */
  function PriceRow(tiers: seq<Tier>, outreach: nat, row: Row): (price: Option<Price>)
    requires Ladder(tiers)
    ensures price.Some? <==> ParseRevenue(row.revenue).Some?
  {
    var cents := ParseRevenue(row.revenue);
    if cents.None? then None
    else
      FindTierIsFirst(tiers, cents.value);
      assert Below(tiers[|tiers| - 1], cents.value);
      Some(Price(tiers[FindTier(tiers, cents.value).value].cents, if row.outreach then outreach else 0))
  }

  /** The core prices of the rows from position `i` on; a row without a price adds nothing. */
  function CoreFrom(tiers: seq<Tier>, outreach: nat, rows: seq<Row>, i: nat): nat
    requires Ladder(tiers) && i <= |rows|
    decreases |rows| - i
  {
    if i == |rows| then 0
    else
      var price := PriceRow(tiers, outreach, rows[i]);
      (if price.Some? then price.value.core else 0) + CoreFrom(tiers, outreach, rows, i + 1)
  }

  function AddonsFrom(tiers: seq<Tier>, outreach: nat, rows: seq<Row>, i: nat): nat
    requires Ladder(tiers) && i <= |rows|
    decreases |rows| - i
  {
    if i == |rows| then 0
    else
      var price := PriceRow(tiers, outreach, rows[i]);
      (if price.Some? then price.value.addon else 0) + AddonsFrom(tiers, outreach, rows, i + 1)
  }

  /** The price of a row is that of the bracket that holds its revenue, and the add-on where it is chosen. */
  lemma PriceOfBracket(tiers: seq<Tier>, outreach: nat, row: Row, cents: nat, k: nat)
    requires Ladder(tiers) && ParseRevenue(row.revenue) == Some(cents) && k < |tiers|
    requires InBracket(tiers, k, cents)
    ensures PriceRow(tiers, outreach, row) == Some(Price(tiers[k].cents, if row.outreach then outreach else 0))
  {
    OneBracket(tiers, cents, k);
  }

  /** The brackets of the rows from position `i` on. */
  ghost predicate InBrackets(tiers: seq<Tier>, rows: seq<Row>, ks: seq<nat>) {
    |ks| == |rows|
    && forall i :: 0 <= i < |rows| ==>
         && ks[i] < |tiers| && ParseRevenue(rows[i].revenue).Some?
         && InBracket(tiers, ks[i], ParseRevenue(rows[i].revenue).value)
  }

  function Sum(xs: seq<nat>, i: nat): nat
    requires i <= |xs|
    decreases |xs| - i
  {
    if i == |xs| then 0 else xs[i] + Sum(xs, i + 1)
  }

  function PricesOf(tiers: seq<Tier>, ks: seq<nat>): (prices: seq<nat>)
    ensures |prices| == |ks| && forall i :: 0 <= i < |ks| && ks[i] < |tiers| ==> prices[i] == tiers[ks[i]].cents
  {
    if ks == [] then [] else [if ks[0] < |tiers| then tiers[ks[0]].cents else 0] + PricesOf(tiers, ks[1..])
  }

  function Totalled(core: nat, addons: nat): Shown {
    Amounts(core + addons, core, addons)
  }

  function Chosen(rows: seq<Row>, i: nat): nat
    requires i <= |rows|
    decreases |rows| - i
  {
    if i == |rows| then 0 else (if rows[i].outreach then 1 else 0) + Chosen(rows, i + 1)
  }

  lemma {:induction false} SumsFrom(tiers: seq<Tier>, outreach: nat, rows: seq<Row>, ks: seq<nat>, i: nat)
    requires Ladder(tiers) && InBrackets(tiers, rows, ks) && i <= |rows|
    ensures CoreFrom(tiers, outreach, rows, i) == Sum(PricesOf(tiers, ks), i)
    ensures AddonsFrom(tiers, outreach, rows, i) == outreach * Chosen(rows, i)
    decreases |rows| - i
  {
    hide PriceRow, ParseRevenue, Ladder, InBracket;
    if i < |rows| {
      SumsFrom(tiers, outreach, rows, ks, i + 1);
      RowInBracket(tiers, outreach, rows, ks, i);
      Times(outreach, if rows[i].outreach then 1 else 0, Chosen(rows, i + 1));
    }
  }

  lemma RowInBracket(tiers: seq<Tier>, outreach: nat, rows: seq<Row>, ks: seq<nat>, i: nat)
    requires Ladder(tiers) && InBrackets(tiers, rows, ks) && i < |rows|
    ensures ks[i] < |tiers|
    ensures PriceRow(tiers, outreach, rows[i]) == Some(Price(tiers[ks[i]].cents, if rows[i].outreach then outreach else 0))
  {
    PriceOfBracket(tiers, outreach, rows[i], ParseRevenue(rows[i].revenue).value, ks[i]);
  }

  lemma Times(a: nat, b: nat, c: nat)
    ensures a * (b + c) == a * b + a * c
  {
  }

  /** What the page shows: the total, the core part and the add-ons; or dashes. */
  datatype Shown = Dashes | Amounts(total: nat, core: nat, addons: nat)

  predicate ReadUpTo(rows: seq<Row>, n: nat) {
    forall i :: 0 <= i < |rows| && i < n ==> ParseRevenue(rows[i].revenue).Some?
  }

  function Estimate(tiers: seq<Tier>, outreach: nat, rows: seq<Row>): Shown
    requires Ladder(tiers)
  {
    var core, addons := CoreFrom(tiers, outreach, rows, 0), AddonsFrom(tiers, outreach, rows, 0);
    if ReadUpTo(rows, |rows|) then Totalled(core, addons) else Dashes
  }

  /** The page shows dashes exactly when some row does not read. */
  lemma DashesExactlyWhen(tiers: seq<Tier>, outreach: nat, rows: seq<Row>)
    requires Ladder(tiers)
    ensures Estimate(tiers, outreach, rows).Dashes? <==> exists i :: 0 <= i < |rows| && ParseRevenue(rows[i].revenue).None?
  {
    hide CoreFrom, AddonsFrom, ParseRevenue, Ladder;
  }

  lemma AllRead(tiers: seq<Tier>, rows: seq<Row>, ks: seq<nat>)
    requires InBrackets(tiers, rows, ks)
    ensures ReadUpTo(rows, |rows|)
  {
    hide ParseRevenue, InBracket;
  }

  /** Otherwise it shows the sum of the prices of the brackets that hold the rows' revenues, and as many add-ons
      as rows have chosen one. */
  lemma EstimateTells(tiers: seq<Tier>, outreach: nat, rows: seq<Row>, ks: seq<nat>)
    requires Ladder(tiers) && InBrackets(tiers, rows, ks)
    ensures Estimate(tiers, outreach, rows) == Totalled(Sum(PricesOf(tiers, ks), 0), outreach * Chosen(rows, 0))
  {
    hide CoreFrom, AddonsFrom, ParseRevenue, Ladder, InBrackets, ReadUpTo, Sum, Chosen, PricesOf;
    SumsFrom(tiers, outreach, rows, ks, 0);
    AllRead(tiers, rows, ks);
  }

  /** `updateEstimate`. */
  method UpdateEstimate(tiers: seq<Tier>, outreach: nat, rows: seq<Row>) returns (shown: Shown)
    requires Ladder(tiers)
    ensures shown == Estimate(tiers, outreach, rows)
  {
    hide *;
    var core: nat, addons: nat, valid := 0, 0, true;
    var i := 0;
    NothingSummed(tiers, outreach, rows);
    while i < |rows|
      invariant 0 <= i <= |rows| && Summed(tiers, outreach, rows, i, core, addons, valid)
    {
      var result := PriceRow(tiers, outreach, rows[i]);
      RowSummed(tiers, outreach, rows, i, core, addons, valid);
      if result.None? {
        valid := false;
      } else {
        core := core + result.value.core;
        addons := addons + result.value.addon;
      }
      i := i + 1;
    }
    shown := if valid then Amounts(core + addons, core, addons) else Dashes;
    EstimateIs(tiers, outreach, rows, core, addons, valid);
  }

  /** The state of the loop before row `i`. */
  ghost predicate Summed(tiers: seq<Tier>, outreach: nat, rows: seq<Row>, i: nat, core: nat, addons: nat, valid: bool)
    requires Ladder(tiers)
  {
    && i <= |rows| && (valid <==> ReadUpTo(rows, i))
    && core + CoreFrom(tiers, outreach, rows, i) == CoreFrom(tiers, outreach, rows, 0)
    && addons + AddonsFrom(tiers, outreach, rows, i) == AddonsFrom(tiers, outreach, rows, 0)
  }

  lemma NothingSummed(tiers: seq<Tier>, outreach: nat, rows: seq<Row>)
    requires Ladder(tiers)
    ensures Summed(tiers, outreach, rows, 0, 0, 0, true)
  {
  }

  lemma RowSummed(tiers: seq<Tier>, outreach: nat, rows: seq<Row>, i: nat, core: nat, addons: nat, valid: bool)
    requires Ladder(tiers) && i < |rows| && Summed(tiers, outreach, rows, i, core, addons, valid)
    ensures var price := PriceRow(tiers, outreach, rows[i]);
            if price.None? then Summed(tiers, outreach, rows, i + 1, core, addons, false)
            else Summed(tiers, outreach, rows, i + 1, core + price.value.core, addons + price.value.addon, valid)
  {
    hide PriceRow, ParseRevenue, Ladder;
    assert ReadUpTo(rows, i + 1) <==> ReadUpTo(rows, i) && ParseRevenue(rows[i].revenue).Some?;
  }

  lemma EstimateIs(tiers: seq<Tier>, outreach: nat, rows: seq<Row>, core: nat, addons: nat, valid: bool)
    requires Ladder(tiers) && Summed(tiers, outreach, rows, |rows|, core, addons, valid)
    ensures Estimate(tiers, outreach, rows) == if valid then Amounts(core + addons, core, addons) else Dashes
  {
  }
}
