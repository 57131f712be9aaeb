/** The contract table's cell formatting: the value column, the status badge variant,
    the AI score and its colour, and the display id. */
module ContractTable {
  import opened Options
  import opened Text
  import opened Schema
  import opened StatusBadge

  // ---------------------------------------------------------------------------
  // Value column
  // ---------------------------------------------------------------------------

  /** No value shows `N/A`; from one million dollars up, millions with one decimal;
      from one thousand up, whole thousands; below that, the en-US amount. */
  function FormatValue(value: Option<Cents>): (r: string)
    ensures |r| >= 2
    ensures r == "N/A" <==> value.None?
    ensures value.Some? ==> r[0] == '$'
    ensures value.Some? ==> (r[|r| - 1] == 'M' <==> value.value >= 100_000_000)
    ensures value.Some? ==> (r[|r| - 1] == 'K' <==> 100_000 <= value.value < 100_000_000)
    ensures value.Some? ==> (IsDigit(r[|r| - 1]) <==> value.value < 100_000)
    ensures value.Some? && value.value >= 100_000_000 ==>
      FixedShape(r[1..|r| - 1], false, 1, RoundedUnits(value.value, 100_000_000, 1))
    ensures value.Some? && 100_000 <= value.value < 100_000_000 ==>
      FixedShape(r[1..|r| - 1], false, 0, RoundedUnits(value.value, 100_000, 0))
    ensures value.Some? && value.value < 100_000 ==>
      && (r[1] == '-' <==> value.value < 0)
      && ReadsBackAs(if value.value < 0 then r[2..] else r[1..],
                     Abs(value.value) / 100, Abs(value.value) % 100)
  {
    match value
    case None => "N/A"
    case Some(c) =>
      if c >= 100_000_000 then Money(c, 100_000_000, 1, "M")
      else if c >= 100_000 then Money(c, 100_000, 0, "K")
      else
        var r := "$" + LocaleCents(c);
        assert r[0] != "N/A"[0];
        LocaleCentsReadsBack(c);
        assert r[1..] == LocaleCents(c);
        r
  }

  /** Below one thousand dollars a whole-dollar amount is written as its plain digits,
      and they read back to the amount. */
  lemma SmallWholeAmountReadsBack(c: Cents)
    requires 0 <= c < 100_000 && c % 100 == 0
    ensures FormatValue(Some(c)) == "$" + NatToString(c / 100)
    ensures DigitsValue(FormatValue(Some(c))[1..]) == c / 100
  {
    var r := FormatValue(Some(c));
    assert r == "$" + Grouped(c / 100) + CentsFraction(0);
    NatToStringRoundTrip(c / 100);
    assert r[1..] == NatToString(c / 100);
  }

  // ---------------------------------------------------------------------------
  // Status variant
  // ---------------------------------------------------------------------------

  function GetStatusVariant(status: string): (v: Variant)
    ensures v == Success <==> status == "approved"
    ensures v == Warning <==> status == "pending" || status == "ai_review"
    ensures v == Error <==> status == "rejected" || status == "needs_review"
    ensures v == Secondary <==>
      status !in {"approved", "pending", "ai_review", "rejected", "needs_review"}
  {
    match status
    case "approved" => Success
    case "rejected" => Error
    case "pending" => Warning
    case "ai_review" => Warning
    case "needs_review" => Error
    case _ => Secondary
  }

  /** Of the contract statuses the schema names, only `archived` falls through to the
      neutral variant. */
  lemma VocabularyVariants(st: ContractStatus)
    ensures GetStatusVariant(st.Name()) == Secondary <==> st == Archived
  {
  }

  // ---------------------------------------------------------------------------
  // AI score
  // ---------------------------------------------------------------------------

  /** The confidence score of the contract's first analysis, when it has one. */
  function FirstScore(cw: ContractWithVendor): Option<int> {
    match cw.aiAnalyses
    case Some(analyses) =>
      if |analyses| > 0 && analyses[0].confidenceScore.Some?
      then analyses[0].confidenceScore
      else None
    case None => None
  }

  /** The score shown, in hundredths of a percent: the first analysis's score, or
      60 plus a whole `roll` in [0, 40) standing for the random draw. */
  function AIScore(cw: ContractWithVendor, roll: nat): (score: int)
    requires roll < 40
    ensures FirstScore(cw).Some? ==> score == FirstScore(cw).value
    ensures FirstScore(cw).None? ==> 6000 <= score < 10000 && score % 100 == 0
  {
    match FirstScore(cw)
    case Some(s) => s
    case None => (60 + roll) * 100
  }

  datatype ScoreColour = Green | Yellow | Red

  function ScoreColourOf(score: int): (c: ScoreColour)
    ensures c == Green <==> score >= 8000
    ensures c == Yellow <==> 6000 <= score < 8000
    ensures c == Red <==> score < 6000
  {
    if score >= 8000 then Green else if score >= 6000 then Yellow else Red
  }

  /** A score made up for a contract without one is never shown red. */
  lemma FallbackScoreNeverRed(cw: ContractWithVendor, roll: nat)
    requires roll < 40 && FirstScore(cw).None?
    ensures ScoreColourOf(AIScore(cw, roll)) != Red
  {
  }

  // ---------------------------------------------------------------------------
  // Display id
  // ---------------------------------------------------------------------------

  /** `CT-` and the id's decimal digits, zero-padded in front to six characters and
      never cut. */
  function DisplayId(id: int): (r: string)
    ensures |r| >= 9 && r[..3] == "CT-"
    ensures |r| == 3 + (if |IntToString(id)| >= 6 then |IntToString(id)| else 6)
    ensures r[|r| - |IntToString(id)|..] == IntToString(id)
    ensures forall i :: 3 <= i < |r| - |IntToString(id)| ==> r[i] == '0'
  {
    var r := "CT-" + PadStart(IntToString(id), 6, '0');
    assert r[3..] == PadStart(IntToString(id), 6, '0');
    r
  }

  /** The digits after `CT-` read back to the id; ids below a million take exactly six
      digits and longer ids are shown in full. */
  lemma DisplayIdReadsBack(id: nat)
    ensures AllDigits(DisplayId(id)[3..])
    ensures DigitsValue(DisplayId(id)[3..]) == id
    ensures id < 1_000_000 <==> |DisplayId(id)| == 9
  {
    var digits := NatToString(id);
    var r := DisplayId(id);
    assert r[3..] == PadStart(digits, 6, '0');
    NatToStringRoundTrip(id);
    ZeroPadReadsBack(digits, 6);
    DigitCount(id);
  }

  /** Zero padding in front keeps a digit string's value. */
  lemma ZeroPadReadsBack(digits: string, width: nat)
    requires AllDigits(digits)
    ensures AllDigits(PadStart(digits, width, '0'))
    ensures DigitsValue(PadStart(digits, width, '0')) == DigitsValue(digits)
  {
    if |digits| < width {
      LeadingZeros(width - |digits|, digits);
    }
  }

  /** A number below a million has at most six digits, and only such a number does. */
  lemma DigitCount(n: nat)
    ensures n < 1_000_000 <==> |NatToString(n)| <= 6
  {
    var k := |NatToString(n)|;
    assert Pow10(6) == 1_000_000;
    if k <= 6 {
      Pow10Grows(k, 6);
    } else {
      Pow10Grows(6, k - 1);
    }
  }
}
