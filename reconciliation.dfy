/**
 * The cash-up arithmetic: what the form holds (one amount per denomination,
 * three card machines with a total and a gratuity each, petty cash, the till's
 * Z report, cash gratuity and discounts) and the totals derived from it.
 * Amounts are exact reals; every stored amount came out of a form field.
 */
module Reconciliation {
  import opened Wrappers

  /** The nine denominations the form has a field for. */
  datatype Denomination =
    | Pounds50 | Pounds20 | Pounds10 | Pounds5 | Pound1
    | Pence50 | Pence20 | Pence10 | Pence5

  /** The key under which the form stores a denomination's amount. */
  function Key(d: Denomination): string {
    match d
    case Pounds50 => "50"
    case Pounds20 => "20"
    case Pounds10 => "10"
    case Pounds5 => "5"
    case Pound1 => "1"
    case Pence50 => "0.5"
    case Pence20 => "0.2"
    case Pence10 => "0.1"
    case Pence5 => "0.05"
  }

  /** The face value of a denomination, in pounds (the number its key spells). */
  function Value(d: Denomination): real {
    match d
    case Pounds50 => 50.0
    case Pounds20 => 20.0
    case Pounds10 => 10.0
    case Pounds5 => 5.0
    case Pound1 => 1.0
    case Pence50 => 0.5
    case Pence20 => 0.2
    case Pence10 => 0.1
    case Pence5 => 0.05
  }

  /** The order in which the form lists the denominations. */
  const ListedOrder: seq<Denomination> :=
    [Pounds50, Pounds20, Pounds10, Pounds5, Pound1, Pence50, Pence20, Pence10, Pence5]

  /**
   * The order in which the stored amounts are enumerated when they are summed:
   * keys that are array indices ("1", "5", "10", "20", "50") ascending, then
   * the other keys in the order they were created.
   */
  const EnumerationOrder: seq<Denomination> :=
    [Pound1, Pounds5, Pounds10, Pounds20, Pounds50, Pence50, Pence20, Pence10, Pence5]

  const AllDenominations: set<Denomination> :=
    {Pounds50, Pounds20, Pounds10, Pounds5, Pound1, Pence50, Pence20, Pence10, Pence5}

  /** The six card-machine fields: a card total and a gratuity for each of three machines. */
  datatype CardField = Card1 | Gratuity1 | Card2 | Gratuity2 | Card3 | Gratuity3

  const AllCardFields: set<CardField> := {Card1, Gratuity1, Card2, Gratuity2, Card3, Gratuity3}

  /** The four free-standing amounts of the form. */
  datatype NumberField = PettyCash | ZReport | CashGratuity | Discounts

  /** Everything the user has entered. */
  datatype Session = Session(
    cashTotals: map<Denomination, real>,
    cardReadings: map<CardField, real>,
    pettyCash: real,
    zReport: real,
    cashGratuity: real,
    discounts: real)

  /** Both records have exactly their fixed keys. */
  predicate Complete(s: Session) {
    s.cashTotals.Keys == AllDenominations && s.cardReadings.Keys == AllCardFields
  }

  /** The state the form starts in and returns to on reset: every amount 0. */
  const Defaults: Session := Session(
    map d | d in AllDenominations :: 0.0,
    map c | c in AllCardFields :: 0.0,
    0.0, 0.0, 0.0, 0.0)

  /** The fixed till float, in pounds. */
  const TillFloat: real := 200.0

  /** A field's text that does not parse as a number is taken as 0. */
  function ParsedOrZero(parsed: Option<real>): (v: real)
    ensures parsed.Some? ==> v == parsed.value
    ensures parsed.None? ==> v == 0.0
  {
    match parsed
    case Some(v) => v
    case None => 0.0
  }

  function NumberValue(s: Session, field: NumberField): real {
    match field
    case PettyCash => s.pettyCash
    case ZReport => s.zReport
    case CashGratuity => s.cashGratuity
    case Discounts => s.discounts
  }

  /** The session with one of the four free-standing amounts replaced. */
  function WithNumber(s: Session, field: NumberField, v: real): Session {
    match field
    case PettyCash => s.(pettyCash := v)
    case ZReport => s.(zReport := v)
    case CashGratuity => s.(cashGratuity := v)
    case Discounts => s.(discounts := v)
  }

  /** Every denomination of ds has an amount in m. */
  predicate Covers(m: map<Denomination, real>, ds: seq<Denomination>) {
    forall i :: 0 <= i < |ds| ==> ds[i] in m
  }

  /** The sum of the amounts of ds, accumulated from the left. */
  function SumOver(m: map<Denomination, real>, ds: seq<Denomination>): real
    requires Covers(m, ds)
  {
    if ds == [] then 0.0 else SumOver(m, ds[..|ds| - 1]) + m[ds[|ds| - 1]]
  }

  /** Total cash counted: the stored amounts summed in enumeration order. */
  function CashTotal(cash: map<Denomination, real>): real
    requires cash.Keys == AllDenominations
  {
    SumOver(cash, EnumerationOrder)
  }

  function CashTakingsAfterFloat(s: Session): real
    requires Complete(s)
  {
    CashTotal(s.cashTotals) - TillFloat
  }

  function TotalCardPayments(s: Session): real
    requires Complete(s)
  {
    s.cardReadings[Card1] + s.cardReadings[Card2] + s.cardReadings[Card3]
  }

  function TotalCardGratuity(s: Session): real
    requires Complete(s)
  {
    s.cardReadings[Gratuity1] + s.cardReadings[Gratuity2] + s.cardReadings[Gratuity3]
  }

  function TotalCombinedGratuity(s: Session): real
    requires Complete(s)
  {
    TotalCardGratuity(s) + s.cashGratuity
  }

  /**
   * The signed reconciliation difference: the cash that should be in the till
   * less the cash takings. Positive means the till is short.
   */
  function OverallDifference(s: Session): real
    requires Complete(s)
  {
    var plannedCash := s.zReport - TotalCardPayments(s) - s.pettyCash + TotalCardGratuity(s);
    plannedCash - CashTakingsAfterFloat(s)
  }

  // ---------------------------------------------------------------------------
  // Sums over denominations

  lemma SumOverDrop(m: map<Denomination, real>, s: seq<Denomination>, i: nat)
    requires i < |s| && Covers(m, s)
    ensures Covers(m, s[..i] + s[i + 1..])
    ensures SumOver(m, s) == SumOver(m, s[..i] + s[i + 1..]) + m[s[i]]
    decreases |s|
  {
    var rest := s[..i] + s[i + 1..];
    assert Covers(m, rest) by {
      forall j | 0 <= j < |rest| ensures rest[j] in m {
        if j < i { assert rest[j] == s[j]; } else { assert rest[j] == s[j + 1]; }
      }
    }
    if i == |s| - 1 {
      assert rest == s[..|s| - 1];
    } else {
      var init := s[..|s| - 1];
      SumOverDrop(m, init, i);
      assert init[..i] + init[i + 1..] == rest[..|rest| - 1];
      assert rest[|rest| - 1] == s[|s| - 1];
    }
  }

  /** The sum does not depend on the order in which the amounts are taken. */
  lemma {:induction false} SumOverPermutation(m: map<Denomination, real>, a: seq<Denomination>, b: seq<Denomination>)
    requires multiset(a) == multiset(b)
    requires Covers(m, a)
    ensures Covers(m, b)
    ensures SumOver(m, a) == SumOver(m, b)
    decreases |a|
  {
    CoversPermutation(m, a, b);
    if a != [] {
      var x, a' := a[|a| - 1], a[..|a| - 1];
      assert a == a' + [x];
      assert x in b by {
        assert x in multiset(a);
      }
      var i :| 0 <= i < |b| && b[i] == x;
      RemoveMatching(a', x, b, i);
      SumOverDrop(m, b, i);
      SumOverPermutation(m, a', b[..i] + b[i + 1..]);
    }
  }

  lemma CoversPermutation(m: map<Denomination, real>, a: seq<Denomination>, b: seq<Denomination>)
    requires multiset(a) == multiset(b) && Covers(m, a)
    ensures Covers(m, b)
  {
    forall i | 0 <= i < |b| ensures b[i] in m {
      assert b[i] in multiset(a);
    }
  }

  /** Taking the same element off both sides keeps two sequences permutations of each other. */
  lemma RemoveMatching(a: seq<Denomination>, x: Denomination, b: seq<Denomination>, i: nat)
    requires i < |b| && b[i] == x && multiset(a + [x]) == multiset(b)
    ensures multiset(a) == multiset(b[..i] + b[i + 1..])
  {
    assert b == b[..i] + [x] + b[i + 1..];
    assert multiset(b) == multiset(b[..i]) + multiset{x} + multiset(b[i + 1..]);
    assert multiset(a + [x]) == multiset(a) + multiset{x};
    var rest := multiset(b[..i] + b[i + 1..]);
    assert rest == multiset(b[..i]) + multiset(b[i + 1..]);
    assert multiset(a) + multiset{x} == rest + multiset{x};
    forall y ensures multiset(a)[y] == rest[y] {
      assert (multiset(a) + multiset{x})[y] == (rest + multiset{x})[y];
    }
  }

  /** An amount that is not summed does not affect the sum. */
  lemma {:induction false} SumOverUnaffected(m: map<Denomination, real>, ds: seq<Denomination>, d: Denomination, v: real)
    requires Covers(m, ds) && d !in ds
    ensures Covers(m[d := v], ds)
    ensures SumOver(m[d := v], ds) == SumOver(m, ds)
    decreases |ds|
  {
    if ds != [] {
      var init := ds[..|ds| - 1];
      assert d !in init;
      SumOverUnaffected(m, init, d, v);
    }
  }

  /** Each denomination is enumerated exactly once. */
  lemma EnumerationOrderDistinct()
    ensures forall j, k :: 0 <= j < k < |EnumerationOrder| ==> EnumerationOrder[j] != EnumerationOrder[k]
  {
  }

  // ---------------------------------------------------------------------------
  // Properties of the derived totals

  /** Summing the stored amounts in any order, the listed order for one, gives the cash total. */
  lemma CashTotalAnyOrder(cash: map<Denomination, real>, order: seq<Denomination>)
    requires cash.Keys == AllDenominations
    requires multiset(order) == multiset(EnumerationOrder)
    ensures Covers(cash, order)
    ensures SumOver(cash, order) == CashTotal(cash)
  {
    SumOverPermutation(cash, EnumerationOrder, order);
  }

  /** The listed order and the enumeration order hold the same nine denominations. */
  lemma ListedOrderIsPermutation()
    ensures multiset(ListedOrder) == multiset(EnumerationOrder)
  {
    var l, e := ListedOrder, EnumerationOrder;
    assert l == [Pounds50, Pounds20, Pounds10, Pounds5, Pound1] + l[5..];
    assert e == [Pound1, Pounds5, Pounds10, Pounds20, Pounds50] + l[5..];
    assert multiset([Pounds50, Pounds20, Pounds10, Pounds5, Pound1])
        == multiset([Pound1, Pounds5, Pounds10, Pounds20, Pounds50]);
  }

  /** Summing in the order the form lists the denominations gives the cash total. */
  lemma CashTotalInListedOrder(cash: map<Denomination, real>)
    requires cash.Keys == AllDenominations
    ensures Covers(cash, ListedOrder)
    ensures SumOver(cash, ListedOrder) == CashTotal(cash)
  {
    ListedOrderIsPermutation();
    CashTotalAnyOrder(cash, ListedOrder);
  }

  /** The cash total is the sum of the nine stored amounts. */
  lemma CashTotalIsSumOfAmounts(cash: map<Denomination, real>)
    requires cash.Keys == AllDenominations
    ensures CashTotal(cash)
            == cash[Pounds50] + cash[Pounds20] + cash[Pounds10] + cash[Pounds5] + cash[Pound1]
             + cash[Pence50] + cash[Pence20] + cash[Pence10] + cash[Pence5]
  {
    var e := EnumerationOrder;
    assert e[..1] == [Pound1];
    assert e[..2] == e[..1] + [Pounds5];
    assert e[..3] == e[..2] + [Pounds10];
    assert e[..4] == e[..3] + [Pounds20];
    assert e[..5] == e[..4] + [Pounds50];
    assert e[..6] == e[..5] + [Pence50];
    assert e[..7] == e[..6] + [Pence20];
    assert e[..8] == e[..7] + [Pence10];
    assert e == e[..8] + [Pence5];
    assert SumOver(cash, e[..1]) == cash[Pound1];
    assert SumOver(cash, e[..2]) == SumOver(cash, e[..1]) + cash[Pounds5];
    assert SumOver(cash, e[..3]) == SumOver(cash, e[..2]) + cash[Pounds10];
    assert SumOver(cash, e[..4]) == SumOver(cash, e[..3]) + cash[Pounds20];
    assert SumOver(cash, e[..5]) == SumOver(cash, e[..4]) + cash[Pounds50];
    assert SumOver(cash, e[..6]) == SumOver(cash, e[..5]) + cash[Pence50];
    assert SumOver(cash, e[..7]) == SumOver(cash, e[..6]) + cash[Pence20];
    assert SumOver(cash, e[..8]) == SumOver(cash, e[..7]) + cash[Pence10];
    assert SumOver(cash, e) == SumOver(cash, e[..8]) + cash[Pence5];
  }

  /** Changing one denomination's amount changes the cash total by exactly that change. */
  lemma CashTotalAfterUpdate(cash: map<Denomination, real>, d: Denomination, v: real)
    requires cash.Keys == AllDenominations
    ensures cash[d := v].Keys == AllDenominations
    ensures CashTotal(cash[d := v]) == CashTotal(cash) + (v - cash[d])
  {
    var e := EnumerationOrder;
    assert d in e;
    var i :| 0 <= i < |e| && e[i] == d;
    var rest := e[..i] + e[i + 1..];
    SumOverDrop(cash, e, i);
    EnumerationOrderDistinct();
    forall j | 0 <= j < |rest| ensures rest[j] != d {
      if j < i { assert rest[j] == e[j]; } else { assert rest[j] == e[j + 1]; }
    }
    SumOverUnaffected(cash, rest, d, v);
    SumOverDrop(cash[d := v], e, i);
  }

  /**
   * The derived totals in terms of the entered amounts: the cash total is the
   * sum of the nine amounts, the takings are that less the 200 float, and the
   * difference is (Z - card totals - petty cash + card gratuities) - takings.
   */
  lemma TotalsInTermsOfEntries(s: Session)
    requires Complete(s)
    ensures var cash := s.cashTotals[Pounds50] + s.cashTotals[Pounds20] + s.cashTotals[Pounds10]
                      + s.cashTotals[Pounds5] + s.cashTotals[Pound1] + s.cashTotals[Pence50]
                      + s.cashTotals[Pence20] + s.cashTotals[Pence10] + s.cashTotals[Pence5];
            var cards := s.cardReadings[Card1] + s.cardReadings[Card2] + s.cardReadings[Card3];
            var tips := s.cardReadings[Gratuity1] + s.cardReadings[Gratuity2] + s.cardReadings[Gratuity3];
            && CashTakingsAfterFloat(s) == cash - 200.0
            && TotalCombinedGratuity(s) == tips + s.cashGratuity
            && OverallDifference(s) == (s.zReport - cards - s.pettyCash + tips) - (cash - 200.0)
  {
    CashTotalIsSumOfAmounts(s.cashTotals);
  }

  /** How much the difference moves when one denomination's amount changes: down by the change. */
  lemma DifferenceAfterDenominationChange(s: Session, d: Denomination, v: real)
    requires Complete(s)
    ensures Complete(s.(cashTotals := s.cashTotals[d := v]))
    ensures OverallDifference(s.(cashTotals := s.cashTotals[d := v]))
            == OverallDifference(s) - (v - s.cashTotals[d])
  {
    CashTotalAfterUpdate(s.cashTotals, d, v);
  }

  /** How much each card-machine field counts in the difference: card totals -1, gratuities +1. */
  function CardWeight(c: CardField): real {
    match c
    case Card1 | Card2 | Card3 => -1.0
    case Gratuity1 | Gratuity2 | Gratuity3 => 1.0
  }

  /** How much the difference moves when one card-machine field changes. */
  lemma DifferenceAfterCardChange(s: Session, c: CardField, v: real)
    requires Complete(s)
    ensures Complete(s.(cardReadings := s.cardReadings[c := v]))
    ensures OverallDifference(s.(cardReadings := s.cardReadings[c := v]))
            == OverallDifference(s) + CardWeight(c) * (v - s.cardReadings[c])
  {
  }

  /** How much each free-standing amount counts in the difference; cash gratuity and discounts do not. */
  function NumberWeight(field: NumberField): real {
    match field
    case ZReport => 1.0
    case PettyCash => -1.0
    case CashGratuity | Discounts => 0.0
  }

  /** How much the difference moves when one free-standing amount changes. */
  lemma DifferenceAfterNumberChange(s: Session, field: NumberField, v: real)
    requires Complete(s)
    ensures Complete(WithNumber(s, field, v))
    ensures OverallDifference(WithNumber(s, field, v))
            == OverallDifference(s) + NumberWeight(field) * (v - NumberValue(s, field))
  {
  }

  /** With every amount at 0 the difference is the float itself: the till looks 200 short. */
  lemma DefaultDifference()
    ensures Complete(Defaults)
    ensures CashTotal(Defaults.cashTotals) == 0.0
    ensures OverallDifference(Defaults) == 200.0
  {
    CashTotalIsSumOfAmounts(Defaults.cashTotals);
  }

  /**
   * A worked day: £100 in £50 notes and £40 in £20 notes, nothing else in the
   * till; Z report 500, card payments 300, card gratuity 20, petty cash 10.
   * Takings after the float are -60 and the till is 270 short.
   */
  lemma WorkedExample(s: Session)
    requires Complete(s)
    requires s.cashTotals == Defaults.cashTotals[Pounds50 := 100.0][Pounds20 := 40.0]
    requires s.zReport == 500.0 && s.pettyCash == 10.0
    requires TotalCardPayments(s) == 300.0 && TotalCardGratuity(s) == 20.0
    ensures CashTotal(s.cashTotals) == 140.0
    ensures CashTakingsAfterFloat(s) == -60.0
    ensures OverallDifference(s) == 270.0
  {
    CashTotalIsSumOfAmounts(s.cashTotals);
  }
}
