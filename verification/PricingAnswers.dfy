/** What the evaluation of a receipt line answers, in the line's own terms: its basis, its price, and every reason
    that keeps it out. */
module PricingAnswers {
  import opened Basics
  import opened Pricing

  // ---- Rounding ----

  /** `n` is the nearest whole number to `x`; halves go away from zero. */
  ghost predicate RoundsAway(n: int, x: real) {
    && -0.5 <= n as real - x <= 0.5
    && (n as real - x == -0.5 ==> x < 0.0) && (n as real - x == 0.5 ==> x >= 0.0)
  }

  /** `n` is the nearest whole number to `x`; halves go to the even one. */
  ghost predicate RoundsToEven(n: int, x: real) {
    -0.5 <= n as real - x <= 0.5 && (n as real - x == -0.5 || n as real - x == 0.5 ==> n % 2 == 0)
  }

  lemma {:induction false} HalfUpRounds(x: real, n: int)
    ensures n == HalfUp(x) <==> RoundsAway(n, x)
  {
    assert RoundsAway(HalfUp(x), x);
  }

  lemma {:induction false} HalfEvenRounds(x: real, n: int)
    ensures n == HalfEven(x) <==> RoundsToEven(n, x)
  {
    assert RoundsToEven(HalfEven(x), x);
  }

  /** A shown price is the stored one rounded to whole hundredths. */
  lemma {:induction false} DisplayedRounds(price: int)
    ensures RoundsAway(Displayed(price), price as real / 10000.0)
  {
    HalfUpRounds(price as real / 10000.0, Displayed(price));
  }

  // ---- Reasons ----

  /** How much was bought, as the line states it: packages or pieces, or the weight or volume. */
  function Stated(line: PricingLine): Option<real> {
    if line.unit == Each && line.packages.Some? then line.packages else line.quantity
  }

  /** Nothing is left of the stated amount; less than half a gram or millilitre is rounded to nothing. */
  predicate IsNothing(line: PricingLine)
    requires Stated(line).Some?
  {
    if line.unit == G || line.unit == Ml then Stated(line).value < 0.5 else Stated(line).value <= 0.0
  }

  ghost predicate Applies(line: PricingLine, reason: Reason) {
    match reason
    case NonProductLine => line.lineType != Product
    case NonNok => !line.nok
    case NoIdentity => line.product == None || line.identity != Some(ConfirmedIdentity)
    case Conditional => line.condition == Member || line.condition == MultiBuy || line.condition == Coupon
    case ConditionUnknown => line.condition == UnknownCondition
    case UnitUnknown => line.unit == UnknownUnit
    case QuantityUnknown => line.unit != UnknownUnit && Stated(line) == None
    case NonPositiveQuantity => line.unit != UnknownUnit && Stated(line) != None && IsNothing(line)
    case DiscountUnknown => line.net == None
    case DateUnknown => line.precision == UnknownPrecision
    case StoreUnknown => false
    case StoreNotBranch => false
    case BasisMismatch => false
  }

  /** The place of a reason in an answer. */
  function Place(reason: Reason): nat {
    match reason
    case NonProductLine => 0
    case NonNok => 1
    case NoIdentity => 2
    case Conditional => 3
    case ConditionUnknown => 3
    case UnitUnknown => 4
    case QuantityUnknown => 4
    case NonPositiveQuantity => 4
    case DiscountUnknown => 5
    case DateUnknown => 6
    case StoreUnknown => 7
    case StoreNotBranch => 8
    case BasisMismatch => 9
  }

  ghost predicate InPlace(reasons: seq<Reason>) {
    forall i, j :: 0 <= i < j < |reasons| ==> Place(reasons[i]) < Place(reasons[j])
  }

  ghost predicate Before(reasons: seq<Reason>, place: nat) {
    InPlace(reasons) && forall r :: r in reasons ==> Place(r) < place
  }

  ghost predicate AtPlace(reasons: seq<Reason>, place: nat) {
    |reasons| <= 1 && forall r :: r in reasons ==> Place(r) == place
  }

  lemma {:induction false} OneMore(reasons: seq<Reason>, more: seq<Reason>, place: nat)
    requires Before(reasons, place) && AtPlace(more, place)
    ensures Before(reasons + more, place + 1)
    ensures forall r :: r in reasons + more <==> r in reasons || r in more
  {
  }

  lemma {:induction false} FourPlaces(a: seq<Reason>, b: seq<Reason>, c: seq<Reason>, d: seq<Reason>)
    requires AtPlace(a, 0) && AtPlace(b, 1) && AtPlace(c, 2) && AtPlace(d, 3)
    ensures Before(a + b + c + d, 4)
    ensures forall r :: r in a + b + c + d <==> r in a || r in b || r in c || r in d
  {
    OneMore(a, b, 1);
    OneMore(a + b, c, 2);
    OneMore(a + b + c, d, 3);
  }

  function ConditionReasons(condition: Condition): seq<Reason> {
    match condition
    case UnknownCondition => [ConditionUnknown]
    case NoCondition => []
    case _ => [Conditional]
  }

  lemma {:induction false} QualificationParts(line: PricingLine, r: Reason)
    ensures r in When(!line.lineType.Product?, NonProductLine) || r in When(!line.nok, NonNok)
            || r in When(line.product.None? || line.identity != Some(ConfirmedIdentity), NoIdentity)
            || r in ConditionReasons(line.condition)
            <==> Applies(line, r) && Place(r) < 4
  {
  }

  lemma {:induction false} QualificationAnswer(line: PricingLine)
    ensures Before(QualificationReasons(line), 4)
    ensures forall r :: r in QualificationReasons(line) <==> Applies(line, r) && Place(r) < 4
  {
    FourPlaces(When(!line.lineType.Product?, NonProductLine), When(!line.nok, NonNok),
               When(line.product.None? || line.identity != Some(ConfirmedIdentity), NoIdentity), ConditionReasons(line.condition));
    forall r ensures r in QualificationReasons(line) <==> Applies(line, r) && Place(r) < 4 { QualificationParts(line, r); }
  }

  function QuantityReasons(line: PricingLine): seq<Reason> {
    var reason := BasisAndDivisor(line).2;
    if reason.Some? then [reason.value] else []
  }

  lemma {:induction false} OwnParts(line: PricingLine, r: Reason)
    ensures r in QualificationReasons(line) || r in QuantityReasons(line) || r in When(line.net.None?, DiscountUnknown)
            <==> Applies(line, r) && r != DateUnknown
    ensures AtPlace(QuantityReasons(line), 4)
  {
    QualificationAnswer(line);
    QuantityReason(line);
  }

  lemma {:induction false} OwnReasonsAnswer(line: PricingLine)
    ensures Before(OwnReasons(line), 6)
    ensures forall r :: r in OwnReasons(line) <==> Applies(line, r) && r != DateUnknown
  {
    QualificationAnswer(line);
    OwnParts(line, DateUnknown);
    OneMore(QualificationReasons(line), QuantityReasons(line), 4);
    OneMore(QualificationReasons(line) + QuantityReasons(line), When(line.net.None?, DiscountUnknown), 5);
    forall r ensures r in OwnReasons(line) <==> Applies(line, r) && r != DateUnknown { OwnParts(line, r); }
  }

  lemma {:induction false} QuantityReason(line: PricingLine)
    ensures var reason := BasisAndDivisor(line).2;
            forall r :: reason == Some(r) <==> Applies(line, r) && (r == UnitUnknown || r == QuantityUnknown || r == NonPositiveQuantity)
  {
    if line.quantity.Some? { HalfUpRounds(line.quantity.value, HalfUp(line.quantity.value)); }
  }

  // ---- The answer ----

  function BasisOf(unit: QuantityUnit): Basis {
    match unit
    case Each => PerPackage
    case Kg => PerKg
    case G => PerKg
    case L => PerLitre
    case Ml => PerLitre
    case UnknownUnit => UnknownBasis
  }

  /** `price` is the total per package, kilogram or litre, in millionths. */
  ghost predicate IsPrice(line: PricingLine, price: int) {
    line.net.Some? && exists d :: Divides(line, d) && RoundsAway(price, line.net.value / d * 1000000.0)
  }

  /** The basis follows the unit. The reasons are those that apply, each once and in the order of the checks. A line is
      eligible when none but an unknown date applies, for dated rankings when none applies. It has a price exactly if it
      is in kroner, of a known total and a positive known quantity, and then the right one. */
  lemma {:induction false} LineAnswers(line: PricingLine)
    ensures EvaluateLine(line).basis == BasisOf(line.unit)
    ensures InPlace(EvaluateLine(line).reasons) && forall r :: r in EvaluateLine(line).reasons <==> Applies(line, r)
    ensures EvaluateLine(line).eligible <==> forall r :: Applies(line, r) ==> r == DateUnknown
    ensures EvaluateLine(line).eligibleDated <==> forall r :: !Applies(line, r)
    ensures EvaluateLine(line).price.Some? <==> line.nok && line.net.Some? && exists d :: Divides(line, d)
    ensures EvaluateLine(line).price.Some? ==> IsPrice(line, EvaluateLine(line).price.value)
  {
    ReasonsMean(line);
    EligibleMeans(line);
    PriceMeans(line);
  }

  lemma {:induction false} ReasonsMean(line: PricingLine)
    ensures var reasons := EvaluateLine(line).reasons; InPlace(reasons) && forall r :: r in reasons <==> Applies(line, r)
  {
    OwnReasonsAnswer(line);
    OneMore(OwnReasons(line), When(line.precision.UnknownPrecision?, DateUnknown), 6);
  }

  lemma {:induction false} EligibleMeans(line: PricingLine)
    ensures EvaluateLine(line).eligible <==> forall r :: Applies(line, r) ==> r == DateUnknown
    ensures EvaluateLine(line).eligibleDated <==> forall r :: !Applies(line, r)
  {
    OwnReasonsAnswer(line);
    assert Applies(line, DateUnknown) <==> line.precision.UnknownPrecision?;
    if OwnReasons(line) != [] { assert OwnReasons(line)[0] in OwnReasons(line); }
  }

  lemma {:induction false} PriceMeans(line: PricingLine)
    ensures var price := EvaluateLine(line).price;
            && (price.Some? <==> line.nok && line.net.Some? && exists d :: Divides(line, d))
            && (price.Some? ==> IsPrice(line, price.value))
  {
    OwnReasonsAnswer(line);
    assert NonNok in OwnReasons(line) <==> !line.nok by { assert Applies(line, NonNok) <==> !line.nok; }
    var divisor := BasisAndDivisor(line).1;
    if divisor.Some? {
      assert Divides(line, divisor.value);
      if line.net.Some? {
        HalfUpRounds(line.net.value / divisor.value * 1000000.0, UnitPrice(line.net.value, divisor.value));
      }
    }
    if d :| Divides(line, d) { assert divisor == Some(d); }
  }
}
