/**
 * The form's state cells and the handlers that update them. Each handler
 * replaces exactly one entry (or, for reset, every entry) and leaves the rest
 * of the form as it was.
 */
module CashUpForm {
  import opened Wrappers
  import opened Reconciliation

  class CashUp {
    var cashTotals: map<Denomination, real>
    var cardReadings: map<CardField, real>
    var pettyCash: real
    var zReport: real
    var cashGratuity: real
    var discounts: real
    /** The message shown after copying the summary; '' when none. */
    var copyFeedback: string

    /** Both records keep exactly their fixed keys. */
    ghost predicate Valid()
      reads this
    {
      Complete(State())
    }

    /** The amounts entered so far, as a value. */
    function State(): Session
      reads this
    {
      Session(cashTotals, cardReadings, pettyCash, zReport, cashGratuity, discounts)
    }

    /** The form as first shown: every amount 0 and no feedback message. */
    constructor()
      ensures Valid()
      ensures State() == Defaults
      ensures copyFeedback == ""
    {
      cashTotals := map d | d in AllDenominations :: 0.0;
      cardReadings := map c | c in AllCardFields :: 0.0;
      pettyCash, zReport, cashGratuity, discounts := 0.0, 0.0, 0.0, 0.0;
      copyFeedback := "";
    }

    /**
     * A change to petty cash, Z report, cash gratuity or discounts: the parsed
     * number, or 0 when the text does not parse, replaces that one amount.
     */
    method HandleNumberChange(field: NumberField, parsed: Option<real>)
      requires Valid()
      modifies this
      ensures Valid()
      ensures State() == WithNumber(old(State()), field, ParsedOrZero(parsed))
      ensures NumberValue(State(), field) == ParsedOrZero(parsed)
      ensures copyFeedback == old(copyFeedback)
      ensures OverallDifference(State())
              == OverallDifference(old(State())) + NumberWeight(field) * (ParsedOrZero(parsed) - NumberValue(old(State()), field))
    {
      DifferenceAfterNumberChange(State(), field, ParsedOrZero(parsed));
      var value := ParsedOrZero(parsed);
      match field
      case PettyCash => pettyCash := value;
      case ZReport => zReport := value;
      case CashGratuity => cashGratuity := value;
      case Discounts => discounts := value;
    }

    /**
     * A change to one denomination's amount: that key takes the parsed number,
     * or 0, and every other denomination keeps its amount.
     */
    method HandleDenominationTotalChange(d: Denomination, parsed: Option<real>)
      requires Valid()
      modifies this
      ensures Valid()
      ensures cashTotals == old(cashTotals)[d := ParsedOrZero(parsed)]
      ensures cashTotals[d] == ParsedOrZero(parsed)
      ensures forall e :: e in cashTotals && e != d ==> cashTotals[e] == old(cashTotals)[e]
      ensures cardReadings == old(cardReadings) && pettyCash == old(pettyCash) && zReport == old(zReport)
      ensures cashGratuity == old(cashGratuity) && discounts == old(discounts) && copyFeedback == old(copyFeedback)
      ensures CashTotal(cashTotals) == CashTotal(old(cashTotals)) + (ParsedOrZero(parsed) - old(cashTotals)[d])
      ensures OverallDifference(State())
              == OverallDifference(old(State())) - (ParsedOrZero(parsed) - old(cashTotals)[d])
    {
      DifferenceAfterDenominationChange(State(), d, ParsedOrZero(parsed));
      CashTotalAfterUpdate(cashTotals, d, ParsedOrZero(parsed));
      cashTotals := cashTotals[d := ParsedOrZero(parsed)];
    }

    /**
     * A change to one card-machine total or gratuity: that field takes the
     * parsed number, or 0, and the other five keep theirs.
     */
    method HandleCardReadingChange(c: CardField, parsed: Option<real>)
      requires Valid()
      modifies this
      ensures Valid()
      ensures cardReadings == old(cardReadings)[c := ParsedOrZero(parsed)]
      ensures cardReadings[c] == ParsedOrZero(parsed)
      ensures forall e :: e in cardReadings && e != c ==> cardReadings[e] == old(cardReadings)[e]
      ensures cashTotals == old(cashTotals) && pettyCash == old(pettyCash) && zReport == old(zReport)
      ensures cashGratuity == old(cashGratuity) && discounts == old(discounts) && copyFeedback == old(copyFeedback)
      ensures OverallDifference(State())
              == OverallDifference(old(State())) + CardWeight(c) * (ParsedOrZero(parsed) - old(cardReadings)[c])
    {
      DifferenceAfterCardChange(State(), c, ParsedOrZero(parsed));
      cardReadings := cardReadings[c := ParsedOrZero(parsed)];
    }

    /**
     * Reset: all nine denominations, all six card fields and the four
     * free-standing amounts go back to 0 and the feedback message is cleared.
     * The new state does not depend on the old one, so resetting twice leaves
     * the same form as resetting once.
     */
    method ResetAll()
      modifies this
      ensures Valid()
      ensures State() == Defaults
      ensures copyFeedback == ""
      ensures OverallDifference(State()) == TillFloat
    {
      DefaultDifference();
      cashTotals := map d | d in AllDenominations :: 0.0;
      cardReadings := map c | c in AllCardFields :: 0.0;
      pettyCash := 0.0;
      zReport := 0.0;
      cashGratuity := 0.0;
      discounts := 0.0;
      copyFeedback := "";
    }
  }

  /** Resetting a form that was just reset leaves it as it was. */
  method ResetIsIdempotent(form: CashUp)
    modifies form
    ensures form.State() == Defaults && form.copyFeedback == ""
  {
    form.ResetAll();
    var once, onceFeedback := form.State(), form.copyFeedback;
    form.ResetAll();
    assert form.State() == once && form.copyFeedback == onceFeedback;
  }
}
