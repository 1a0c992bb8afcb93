/**
 The composite deal score, over exact reals: six factors, a weighted sum, rounding
 and a clamp; and the way a listing becomes its input.
 */
module Scorer {
  import opened Wrappers

  const MIN_BASELINE_SAMPLES := 10

  datatype Weights = Weights(price: real, seller: real, condition: real, quantity: real, quality: real, time: real)

  const DEFAULT_WEIGHTS := Weights(0.40, 0.20, 0.15, 0.10, 0.10, 0.05)

  datatype Baseline = Baseline(p10: real, p25: real, p50: real, p75: real, p90: real, samples: int)

  datatype ListingData = ListingData(
    unitPrice: real, feedback: int, feedbackPct: real, topRated: bool, condition: string, quantity: int,
    hasImages: bool, hasSpecifics: bool, descriptionLen: int,
    isAuction: bool, endingSoon: bool, isNew: bool)

  datatype Breakdown = Breakdown(
    price: real, seller: real, condition: real, quantity: real, quality: real, time: real, total: int)

  function MinReal(a: real, b: real): real {
    if a < b then a else b
  }

  function Lerp(val: real, minVal: real, maxVal: real, minScore: real, maxScore: real): real {
    if maxVal == minVal then minScore
    else minScore + ((val - minVal) / (maxVal - minVal)) * (maxScore - minScore)
  }

  function PriceScore(price: real, b: Baseline): real {
    if price <= b.p10 then 100.0
    else if price <= b.p25 then Lerp(price, b.p10, b.p25, 100.0, 70.0)
    else if price <= b.p50 then Lerp(price, b.p25, b.p50, 70.0, 30.0)
    else if price <= b.p75 then Lerp(price, b.p50, b.p75, 30.0, 10.0)
    else if price <= b.p90 then Lerp(price, b.p75, b.p90, 10.0, 0.0)
    else 0.0
  }

  function SellerScore(d: ListingData): real {
    var fb := if d.feedback >= 5000 then 100.0 else if d.feedback >= 500 then 70.0
              else if d.feedback >= 100 then 40.0 else 10.0;
    var pct := if d.feedbackPct >= 99.5 then 100.0 else if d.feedbackPct >= 98.0 then 80.0
               else if d.feedbackPct >= 95.0 then 50.0 else 0.0;
    var score := (fb + pct) / 2.0;
    if d.topRated then MinReal(score + 20.0, 100.0) else score
  }

  function ConditionScore(condition: string): real {
    match condition
    case "new" => 100.0
    case "like_new" => 90.0
    case "used_working" => 70.0
    case "for_parts" => 10.0
    case _ => 40.0
  }

  function QuantityScore(quantity: int): real {
    if quantity <= 1 then 50.0
    else if quantity >= 16 then 90.0
    else if quantity >= 8 then 80.0
    else if quantity >= 4 then 70.0
    else 60.0
  }

  function QualityScore(d: ListingData): real {
    var described := if d.descriptionLen > 500 then 30.0 else if d.descriptionLen > 200 then 20.0
                     else if d.descriptionLen > 50 then 10.0 else 0.0;
    MinReal((if d.hasImages then 40.0 else 0.0) + (if d.hasSpecifics then 30.0 else 0.0) + described, 100.0)
  }

  function TimeScore(d: ListingData): real {
    if d.isAuction && d.endingSoon then 100.0 else if d.isNew then 80.0 else 30.0
  }

  /** Halves round away from zero. */
  function Round(x: real): int {
    if x >= 0.0 then (x + 0.5).Floor else -((-x + 0.5).Floor)
  }

  predicate Warm(b: Option<Baseline>) {
    b.Some? && b.value.samples >= MIN_BASELINE_SAMPLES
  }

  function PriceFactor(d: ListingData, b: Option<Baseline>): real {
    if Warm(b) then PriceScore(d.unitPrice, b.value) else 50.0
  }

  function Sum(price: real, seller: real, condition: real, quantity: real, quality: real, time: real,
               w: Weights): real
  {
    price * w.price + seller * w.seller + condition * w.condition + quantity * w.quantity + quality * w.quality
    + time * w.time
  }

  function Weighted(d: ListingData, b: Option<Baseline>, w: Weights): real {
    Sum(PriceFactor(d, b), SellerScore(d), ConditionScore(d.condition), QuantityScore(d.quantity), QualityScore(d),
        TimeScore(d), w)
  }

  function Clamp(total: int): int {
    if total > 100 then 100 else if total < 0 then 0 else total
  }

  function Score(d: ListingData, b: Option<Baseline>, w: Weights): Breakdown {
    Breakdown(PriceFactor(d, b), SellerScore(d), ConditionScore(d.condition), QuantityScore(d.quantity),
              QualityScore(d), TimeScore(d), Clamp(Round(Weighted(d, b, w))))
  }

  // ---------------------------------------------------------------- listings

  const HOUR := 3600

  /** A listing as far as scoring reads it; times are seconds. */
  datatype Listing = Listing(
    price: real, shipping: Option<real>, quantity: int, feedback: int, feedbackPct: real, topRated: bool,
    condition: string, imageUrl: string, attributes: nat, isAuction: bool, auctionEnd: Option<int>, firstSeen: int)

  function TotalPrice(l: Listing): real {
    if l.shipping.Some? then l.price + l.shipping.value else l.price
  }

  function UnitPrice(l: Listing): real {
    if l.quantity > 1 then TotalPrice(l) / (l.quantity as real) else TotalPrice(l)
  }

  function BuildListingData(l: Listing, now: int): ListingData {
    ListingData(UnitPrice(l), l.feedback, l.feedbackPct, l.topRated, l.condition, l.quantity,
                l.imageUrl != "", l.attributes > 0, 0,
                l.isAuction, l.isAuction && l.auctionEnd.Some? && l.auctionEnd.value - now < 4 * HOUR,
                now - l.firstSeen < 24 * HOUR)
  }

  function ListingScore(l: Listing, b: Option<Baseline>, now: int): int {
    Score(BuildListingData(l, now), b, DEFAULT_WEIGHTS).total
  }

  // ------------------------------------------------------------ monotonicity

  predicate SortedPercentiles(b: Baseline) {
    b.p10 <= b.p25 <= b.p50 <= b.p75 <= b.p90
  }

  lemma DivideMonotone(x: real, y: real, d: real)
    requires x <= y && d > 0.0
    ensures x / d <= y / d
  {
    assert y / d - x / d == (y - x) / d;
    assert (y - x) / d >= 0.0;
  }

  lemma ScaleMonotone(x: real, y: real, c: real)
    requires x <= y && c >= 0.0
    ensures x * c <= y * c
  {
    assert (y - x) * c >= 0.0;
  }

  /** On its segment a falling interpolation stays between its ends. */
  lemma LerpBetween(v: real, a: real, b: real, hi: real, lo: real)
    requires a <= v <= b && lo <= hi
    ensures lo <= Lerp(v, a, b, hi, lo) <= hi
  {
    if a != b {
      DivideMonotone(0.0, v - a, b - a);
      DivideMonotone(v - a, b - a, b - a);
      var t := (v - a) / (b - a);
      assert 0.0 <= t <= 1.0;
      ScaleMonotone(0.0, t, hi - lo);
      ScaleMonotone(t, 1.0, hi - lo);
      assert t * (lo - hi) == -(t * (hi - lo));
    }
  }

  lemma LerpFalls(v: real, w: real, a: real, b: real, hi: real, lo: real)
    requires a < b && v <= w && lo <= hi
    ensures Lerp(w, a, b, hi, lo) <= Lerp(v, a, b, hi, lo)
  {
    DivideMonotone(v - a, w - a, b - a);
    var t, u := (v - a) / (b - a), (w - a) / (b - a);
    ScaleMonotone(t, u, hi - lo);
    assert t * (lo - hi) == -(t * (hi - lo)) && u * (lo - hi) == -(u * (hi - lo));
  }

  /** Which segment of the curve a price falls on, and the scores at its ends. */
  function Segment(price: real, b: Baseline): nat {
    if price <= b.p10 then 0 else if price <= b.p25 then 1 else if price <= b.p50 then 2
    else if price <= b.p75 then 3 else if price <= b.p90 then 4 else 5
  }

  function Top(segment: nat): real {
    if segment <= 1 then 100.0 else if segment == 2 then 70.0 else if segment == 3 then 30.0
    else if segment == 4 then 10.0 else 0.0
  }

  function Bottom(segment: nat): real {
    if segment == 0 then 100.0 else Top(segment + 1)
  }

  lemma PriceInSegment(price: real, b: Baseline)
    requires SortedPercentiles(b)
    ensures Bottom(Segment(price, b)) <= PriceScore(price, b) <= Top(Segment(price, b))
  {
    if b.p10 < price <= b.p25 {
      LerpBetween(price, b.p10, b.p25, 100.0, 70.0);
    } else if b.p25 < price <= b.p50 {
      LerpBetween(price, b.p25, b.p50, 70.0, 30.0);
    } else if b.p50 < price <= b.p75 {
      LerpBetween(price, b.p50, b.p75, 30.0, 10.0);
    } else if b.p75 < price <= b.p90 {
      LerpBetween(price, b.p75, b.p90, 10.0, 0.0);
    }
  }

  lemma PriceScoreFalls(low: real, high: real, b: Baseline)
    requires SortedPercentiles(b) && low <= high
    ensures 0.0 <= PriceScore(high, b) <= PriceScore(low, b) <= 100.0
  {
    PriceInSegment(low, b);
    PriceInSegment(high, b);
    if Segment(low, b) == Segment(high, b) {
      match Segment(low, b)
      case 1 => LerpFalls(low, high, b.p10, b.p25, 100.0, 70.0);
      case 2 => LerpFalls(low, high, b.p25, b.p50, 70.0, 30.0);
      case 3 => LerpFalls(low, high, b.p50, b.p75, 30.0, 10.0);
      case 4 => LerpFalls(low, high, b.p75, b.p90, 10.0, 0.0);
      case _ =>
    }
  }

  /** Interpolation is the line through its two ends. */
  lemma LerpIsLine(v: real, a: real, b: real, hi: real, lo: real)
    requires a < b
    ensures (hi - Lerp(v, a, b, hi, lo)) * (b - a) == (hi - lo) * (v - a)
    ensures Lerp(a, a, b, hi, lo) == hi && Lerp(b, a, b, hi, lo) == lo
  {
    var t := (v - a) / (b - a);
    assert t * (b - a) == v - a;
    assert (hi - Lerp(v, a, b, hi, lo)) == t * (hi - lo);
    assert t * (hi - lo) * (b - a) == (hi - lo) * (t * (b - a));
    assert (b - a) / (b - a) == 1.0;
  }

  /** Neighbouring segments meet: a segment gives the score at its left end too. */
  lemma OnSegment(v: real, b: Baseline)
    requires b.p10 < b.p25 < b.p50 < b.p75 < b.p90
    ensures b.p10 <= v <= b.p25 ==> PriceScore(v, b) == Lerp(v, b.p10, b.p25, 100.0, 70.0)
    ensures b.p25 <= v <= b.p50 ==> PriceScore(v, b) == Lerp(v, b.p25, b.p50, 70.0, 30.0)
    ensures b.p50 <= v <= b.p75 ==> PriceScore(v, b) == Lerp(v, b.p50, b.p75, 30.0, 10.0)
    ensures b.p75 <= v <= b.p90 ==> PriceScore(v, b) == Lerp(v, b.p75, b.p90, 10.0, 0.0)
  {
    LerpIsLine(v, b.p10, b.p25, 100.0, 70.0);
    LerpIsLine(v, b.p25, b.p50, 70.0, 30.0);
    LerpIsLine(v, b.p50, b.p75, 30.0, 10.0);
    LerpIsLine(v, b.p75, b.p90, 10.0, 0.0);
  }

  /** The curve runs straight from 100 at P10 through 70 at P25, 30 at P50 and 10 at P75 to 0 at P90. */
  lemma PriceCurve(v: real, b: Baseline)
    requires b.p10 < b.p25 < b.p50 < b.p75 < b.p90
    ensures b.p10 <= v <= b.p25 ==> (100.0 - PriceScore(v, b)) * (b.p25 - b.p10) == 30.0 * (v - b.p10)
    ensures b.p25 <= v <= b.p50 ==> (70.0 - PriceScore(v, b)) * (b.p50 - b.p25) == 40.0 * (v - b.p25)
    ensures b.p50 <= v <= b.p75 ==> (30.0 - PriceScore(v, b)) * (b.p75 - b.p50) == 20.0 * (v - b.p50)
    ensures b.p75 <= v <= b.p90 ==> (10.0 - PriceScore(v, b)) * (b.p90 - b.p75) == 10.0 * (v - b.p75)
  {
    OnSegment(v, b);
    if b.p10 <= v <= b.p25 {
      LerpIsLine(v, b.p10, b.p25, 100.0, 70.0);
    }
    if b.p25 <= v <= b.p50 {
      LerpIsLine(v, b.p25, b.p50, 70.0, 30.0);
    }
    if b.p50 <= v <= b.p75 {
      LerpIsLine(v, b.p50, b.p75, 30.0, 10.0);
    }
    if b.p75 <= v <= b.p90 {
      LerpIsLine(v, b.p75, b.p90, 10.0, 0.0);
    }
  }

  lemma RoundMonotone(x: real, y: real)
    requires x <= y
    ensures Clamp(Round(x)) <= Clamp(Round(y))
    ensures Round(x) <= Round(y)
  {
  }

  predicate NonNegative(w: Weights) {
    w.price >= 0.0 && w.seller >= 0.0 && w.condition >= 0.0
    && w.quantity >= 0.0 && w.quality >= 0.0 && w.time >= 0.0
  }

  /** better is at least as good a deal as d in price, seller and quantity, and the same otherwise. */
  predicate AtLeastAsGood(d: ListingData, better: ListingData) {
    && better.unitPrice <= d.unitPrice
    && better.feedback >= d.feedback && better.feedbackPct >= d.feedbackPct
    && better.quantity >= d.quantity
    && better == d.(unitPrice := better.unitPrice, feedback := better.feedback,
                    feedbackPct := better.feedbackPct, quantity := better.quantity)
  }

  lemma SellerScoreRises(d: ListingData, better: ListingData)
    requires AtLeastAsGood(d, better)
    ensures SellerScore(d) <= SellerScore(better)
  {
  }

  lemma FactorsRise(d: ListingData, better: ListingData, b: Option<Baseline>)
    requires AtLeastAsGood(d, better) && (b.Some? ==> SortedPercentiles(b.value))
    ensures PriceFactor(d, b) <= PriceFactor(better, b)
    ensures SellerScore(d) <= SellerScore(better)
    ensures QuantityScore(d.quantity) <= QuantityScore(better.quantity)
  {
    if Warm(b) {
      PriceScoreFalls(better.unitPrice, d.unitPrice, b.value);
    }
    SellerScoreRises(d, better);
  }

  lemma OtherFactorsKept(d: ListingData, better: ListingData)
    requires AtLeastAsGood(d, better)
    ensures ConditionScore(d.condition) == ConditionScore(better.condition)
    ensures QualityScore(d) == QualityScore(better) && TimeScore(d) == TimeScore(better)
  {
  }

  lemma SumRises(p: real, p': real, s: real, s': real, c: real, n: real, n': real, q: real, t: real, w: Weights)
    requires p <= p' && s <= s' && n <= n' && NonNegative(w)
    ensures Sum(p, s, c, n, q, t, w) <= Sum(p', s', c, n', q, t, w)
  {
    assert Sum(p', s', c, n', q, t, w) - Sum(p, s, c, n, q, t, w)
        == (p' - p) * w.price + (s' - s) * w.seller + (n' - n) * w.quantity;
    ScaleMonotone(0.0, p' - p, w.price);
    ScaleMonotone(0.0, s' - s, w.seller);
    ScaleMonotone(0.0, n' - n, w.quantity);
  }

  /** For any weights that are not negative: the total never rises as the unit price rises, and never
      falls as feedback, feedback percentage or quantity rise. */
  lemma BetterNeverScoresLess(d: ListingData, better: ListingData, b: Option<Baseline>, w: Weights)
    requires AtLeastAsGood(d, better) && NonNegative(w) && (b.Some? ==> SortedPercentiles(b.value))
    ensures Score(d, b, w).total <= Score(better, b, w).total
  {
    FactorsRise(d, better, b);
    OtherFactorsKept(d, better);
    SumRises(PriceFactor(d, b), PriceFactor(better, b), SellerScore(d), SellerScore(better),
             ConditionScore(d.condition), QuantityScore(d.quantity), QuantityScore(better.quantity),
             QualityScore(d), TimeScore(d), w);
    RoundMonotone(Weighted(d, b, w), Weighted(better, b, w));
  }

  /** The unit price times the lot's size is the total price. */
  lemma UnitPriceTimesLot(l: Listing)
    ensures UnitPrice(l) * (if l.quantity > 1 then l.quantity as real else 1.0) == TotalPrice(l)
  {
  }

  lemma UnitPriceFalls(l: Listing, more: int)
    requires TotalPrice(l) >= 0.0 && l.quantity <= more
    ensures UnitPrice(l.(quantity := more)) <= UnitPrice(l)
  {
    var total := TotalPrice(l);
    assert TotalPrice(l.(quantity := more)) == total;
    if more > 1 {
      LargerDivisor(total, if l.quantity > 1 then l.quantity as real else 1.0, more as real);
    }
  }

  lemma LargerDivisor(x: real, q: real, r: real)
    requires x >= 0.0 && 0.0 < q <= r
    ensures x / r <= x / q
  {
    var y := x / q;
    assert y * q == x;
    DivideMonotone(0.0, x, q);
    ScaleMonotone(q, r, y);
    DivideMonotone(x, y * r, r);
    assert y * r / r == y;
  }

  /** At a fixed total price that is not negative, a larger lot never scores less: its unit price falls. */
  lemma LargerLotNeverScoresLess(l: Listing, more: int, b: Option<Baseline>, now: int)
    requires TotalPrice(l) >= 0.0 && l.quantity <= more && (b.Some? ==> SortedPercentiles(b.value))
    ensures ListingScore(l, b, now) <= ListingScore(l.(quantity := more), b, now)
  {
    UnitPriceFalls(l, more);
    BetterNeverScoresLess(BuildListingData(l, now), BuildListingData(l.(quantity := more), now), b, DEFAULT_WEIGHTS);
  }

  // ------------------------------------------------------------------- bands

  /** How many of the thresholds are met. */
  function Met(thresholds: seq<int>, n: int): nat {
    if thresholds == [] then 0 else (if n >= thresholds[0] then 1 else 0) + Met(thresholds[1..], n)
  }

  lemma MetThree(a: int, b: int, c: int, n: int)
    ensures Met([a, b, c], n) == (if n >= a then 1 else 0) + (if n >= b then 1 else 0) + (if n >= c then 1 else 0)
  {
    assert [a, b, c][1..] == [b, c] && [b, c][1..] == [c] && [c][1..] == [];
    assert Met([b, c], n) == (if n >= b then 1 else 0) + Met([c], n);
  }

  /** A lot earns ten points for each doubling it reaches, from two to sixteen. */
  lemma QuantityBands(quantity: int)
    ensures QuantityScore(quantity) == 50.0 + 10.0 * Met([2, 4, 8, 16], quantity) as real
  {
    MetThree(4, 8, 16, quantity);
    assert [2, 4, 8, 16][1..] == [4, 8, 16];
  }

  /** Thirty points for each feedback threshold reached and the steps of the percentage count half; a top-rated
      seller has twenty more, up to the full score. */
  lemma SellerBands(d: ListingData)
    ensures var half := (10.0 + 30.0 * Met([100, 500, 5000], d.feedback) as real) / 2.0
                        + (if d.feedbackPct >= 95.0 then 25.0 else 0.0) + (if d.feedbackPct >= 98.0 then 15.0 else 0.0)
                        + (if d.feedbackPct >= 99.5 then 10.0 else 0.0);
            SellerScore(d) == if !d.topRated then half else if half <= 80.0 then half + 20.0 else 100.0
  {
    MetThree(100, 500, 5000, d.feedback);
  }

  /** Images, item specifics and each description threshold add up; their most is the full score, so it is never
      cut off. */
  lemma QualityBands(d: ListingData)
    ensures QualityScore(d) == (if d.hasImages then 40.0 else 0.0) + (if d.hasSpecifics then 30.0 else 0.0)
                               + 10.0 * Met([51, 201, 501], d.descriptionLen) as real
    ensures QualityScore(d) <= 100.0
  {
    MetThree(51, 201, 501, d.descriptionLen);
  }

  /** From best to worst: new, like new, used and working, anything unknown, for parts. */
  lemma ConditionOrder(other: string)
    requires other != "new" && other != "like_new" && other != "used_working" && other != "for_parts"
    ensures ConditionScore("new") == 100.0 && ConditionScore("new") - ConditionScore("like_new") == 10.0
    ensures ConditionScore("like_new") - ConditionScore("used_working") == 20.0
    ensures ConditionScore("used_working") - ConditionScore(other) == 30.0
    ensures ConditionScore(other) - ConditionScore("for_parts") == 30.0
  {
  }

  /** A listing is urgent as an auction with less than four hours to go, and otherwise fresh for a day. */
  lemma Urgency(l: Listing, now: int)
    ensures TimeScore(BuildListingData(l, now)) ==
            if l.isAuction && l.auctionEnd.Some? && l.auctionEnd.value < now + 14400 then 100.0
            else if now < l.firstSeen + 86400 then 80.0 else 30.0
  {
  }

  /** What each factor's hundred points are worth of a listing's total hundred. */
  lemma Shares(x: real)
    ensures Sum(x, 0.0, 0.0, 0.0, 0.0, 0.0, DEFAULT_WEIGHTS) * 5.0 == 2.0 * x
    ensures Sum(0.0, x, 0.0, 0.0, 0.0, 0.0, DEFAULT_WEIGHTS) * 5.0 == x
    ensures Sum(0.0, 0.0, x, 0.0, 0.0, 0.0, DEFAULT_WEIGHTS) * 20.0 == 3.0 * x
    ensures Sum(0.0, 0.0, 0.0, x, 0.0, 0.0, DEFAULT_WEIGHTS) * 10.0 == x
    ensures Sum(0.0, 0.0, 0.0, 0.0, x, 0.0, DEFAULT_WEIGHTS) * 10.0 == x
    ensures Sum(0.0, 0.0, 0.0, 0.0, 0.0, x, DEFAULT_WEIGHTS) * 20.0 == x
    ensures Sum(x, x, x, x, x, x, DEFAULT_WEIGHTS) == x
  {
  }

  // ------------------------------------------------------------------ ranges

  lemma FactorRanges(d: ListingData)
    requires d.descriptionLen == 0
    ensures 5.0 <= SellerScore(d) <= 100.0 && 10.0 <= ConditionScore(d.condition) <= 100.0
    ensures 50.0 <= QuantityScore(d.quantity) <= 90.0 && 0.0 <= QualityScore(d) <= 70.0
    ensures 30.0 <= TimeScore(d) <= 100.0
  {
  }

  lemma SumRange(p: real, s: real, c: real, n: real, q: real, t: real)
    requires 0.0 <= p <= 100.0 && 5.0 <= s <= 100.0 && 10.0 <= c <= 100.0
    requires 50.0 <= n <= 90.0 && 0.0 <= q <= 70.0 && 30.0 <= t <= 100.0
    ensures var sum := Sum(p, s, c, n, q, t, DEFAULT_WEIGHTS);
            9.0 + 0.40 * p <= sum <= 56.0 + 0.40 * p
  {
  }

  /** A scored listing lies in 9..96 against a warm baseline and in 29..76 without one; so its total
      is the rounded sum itself, the clamp never having fired. */
  lemma ScoreRange(l: Listing, b: Option<Baseline>, now: int)
    requires b.Some? ==> SortedPercentiles(b.value)
    ensures if b.Some? && b.value.samples >= 10 then 9 <= ListingScore(l, b, now) <= 96
            else 29 <= ListingScore(l, b, now) <= 76
    ensures ListingScore(l, b, now) == Round(Weighted(BuildListingData(l, now), b, DEFAULT_WEIGHTS))
  {
    var d := BuildListingData(l, now);
    if Warm(b) {
      PriceScoreFalls(d.unitPrice, d.unitPrice, b.value);
    }
    FactorRanges(d);
    SumRange(PriceFactor(d, b), SellerScore(d), ConditionScore(d.condition), QuantityScore(d.quantity),
             QualityScore(d), TimeScore(d));
  }

  const WORST := Listing(1000.0, None, 1, 0, 0.0, false, "for_parts", "", 0, false, None, 0)
  const BEST := Listing(1.0, None, 16, 5000, 100.0, true, "new", "u", 1, true, Some(0), 0)
  const TYPICAL := Baseline(10.0, 20.0, 30.0, 40.0, 50.0, 10)

  /** Both ends of both ranges are reached. */
  lemma RangeIsTight()
    ensures ListingScore(WORST, Some(TYPICAL), 48 * HOUR) == 9
    ensures ListingScore(BEST, Some(TYPICAL), 0) == 96
    ensures ListingScore(WORST, None, 48 * HOUR) == 29
    ensures ListingScore(BEST, None, 0) == 76
  {
    assert ConditionScore("for_parts") == 10.0 && ConditionScore("new") == 100.0;
    assert BEST.imageUrl != "";
    assert UnitPrice(BEST) == 1.0 / 16.0 <= 10.0;
  }
}
