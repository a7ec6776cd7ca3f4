/** The 24-hour price change of a token, computed from the token's hourly
    price buckets: the mean price over the 24 hourly slots that end at the
    current hour is compared with the mean over the 24 slots before them. */
module PriceChange {
  import opened Wrappers

  /** Length of one bucket, in seconds. */
  const HourSeconds: int := 3600
  /** Number of hourly slots in one averaging window. */
  const WindowHours: nat := 24

  /** One hourly bucket of the indexer: when the hour starts and the price. */
  datatype HourBucket = HourBucket(periodStartUnix: int, priceUSD: real)

  /** The fields of a token the calculation reads; `tokenHourData` is
      `None` when the indexer sent no hourly data at all. */
  datatype Token = Token(tokenHourData: Option<seq<HourBucket>>, initialUSD: real)

  datatype PriceChange = PriceChange(priceChange: real, priceChangePercentage: real)

  /** The calculation reads `tokenHourData[0]` when no recent slot matched;
      on an empty list that read throws. */
  datatype Error = MissingFirstBucket

  /** The start of the hour containing `now`. */
  function HourAnchor(now: int): (anchor: int)
    ensures anchor % HourSeconds == 0
    ensures anchor <= now < anchor + HourSeconds
  {
    (now / HourSeconds) * HourSeconds
  }

  /** The start of the hour `i` hours before `anchor`. */
  function SlotTime(anchor: int, i: int): int {
    anchor - i * HourSeconds
  }

  /** Index of the first bucket that starts exactly at `t`, or `|data|`
      when there is none (the search `Array.prototype.find` performs). */
  function FirstMatch(data: seq<HourBucket>, t: int): (k: nat)
    ensures k <= |data|
    ensures forall j :: 0 <= j < k ==> data[j].periodStartUnix != t
    ensures k < |data| ==> data[k].periodStartUnix == t
    decreases |data|
  {
    if |data| == 0 then 0
    else if data[0].periodStartUnix == t then 0
    else 1 + FirstMatch(data[1..], t)
  }

  /** The first bucket that starts exactly at `t`, if any. */
  function FindBucket(data: seq<HourBucket>, t: int): (r: Option<HourBucket>)
    ensures r.None? <==> forall j :: 0 <= j < |data| ==> data[j].periodStartUnix != t
    ensures r.Some? ==> r.value == data[FirstMatch(data, t)] && r.value.periodStartUnix == t
  {
    var k := FirstMatch(data, t);
    if k < |data| then Some(data[k]) else None
  }

  /** True when some bucket starts exactly at `t`. */
  predicate HasBucketAt(data: seq<HourBucket>, t: int) {
    exists j :: 0 <= j < |data| && data[j].periodStartUnix == t
  }

  /** The prices that slots `lo`, ..., `hi - 1` before `anchor` contribute,
      in slot order: one price per slot that has a bucket, none otherwise. */
  function MatchedPrices(data: seq<HourBucket>, anchor: int, lo: nat, hi: nat): seq<real>
    requires lo <= hi
    decreases hi - lo
  {
    if lo == hi then []
    else
      MatchedPrices(data, anchor, lo, hi - 1) +
      match FindBucket(data, SlotTime(anchor, hi - 1))
      case Some(b) => [b.priceUSD]
      case None => []
  }

  function Sum(xs: seq<real>): real {
    if |xs| == 0 then 0.0 else Sum(xs[..|xs| - 1]) + xs[|xs| - 1]
  }

  function Mean(xs: seq<real>): real
    requires |xs| > 0
  {
    Sum(xs) / (|xs| as real)
  }

  /** Mean price of the 24 slots ending at the current hour; the first
      bucket's price when none of them has a bucket. */
  function RecentAverage(data: seq<HourBucket>, anchor: int): real
    requires |data| > 0
  {
    var xs := MatchedPrices(data, anchor, 0, WindowHours);
    if |xs| == 0 then data[0].priceUSD else Mean(xs)
  }

  /** Mean price of the 24 slots before those; the token's initial price
      when none of them has a bucket. */
  function OlderAverage(data: seq<HourBucket>, anchor: int, initialUSD: real): real {
    var xs := MatchedPrices(data, anchor, WindowHours, 2 * WindowHours);
    if |xs| == 0 then initialUSD else Mean(xs)
  }

  /** The three-way result: a zero older average wins over everything, then
      a zero recent average, then the relative change in percent. */
  function ChangeBetween(recent: real, older: real): (r: PriceChange)
    ensures older == 0.0 ==> r == PriceChange(recent, 100.0)
    ensures older != 0.0 && recent == 0.0 ==> r == PriceChange(-older, 0.0)
    ensures older != 0.0 && recent != 0.0 ==>
              r.priceChange == recent - older &&
              r.priceChangePercentage * older == r.priceChange * 100.0
  {
    if older == 0.0 then PriceChange(recent, 100.0)
    else if recent == 0.0 then PriceChange(-older, 0.0)
    else PriceChange(recent - older, (recent - older) / older * 100.0)
  }

  /** A window never matches more prices than it has slots; it matches
      one per slot exactly when every slot has a bucket starting at its
      time, and none exactly when no slot has. */
  lemma {:induction false} MatchedPricesPerSlot(data: seq<HourBucket>, anchor: int, lo: nat, hi: nat)
    requires lo <= hi
    ensures |MatchedPrices(data, anchor, lo, hi)| <= hi - lo
    ensures |MatchedPrices(data, anchor, lo, hi)| == hi - lo <==>
              forall i :: lo <= i < hi ==> HasBucketAt(data, SlotTime(anchor, i))
    ensures |MatchedPrices(data, anchor, lo, hi)| == 0 <==>
              forall i :: lo <= i < hi ==> !HasBucketAt(data, SlotTime(anchor, i))
    decreases hi - lo
  {
    if lo < hi {
      MatchedPricesPerSlot(data, anchor, lo, hi - 1);
      var t := SlotTime(anchor, hi - 1);
      if FindBucket(data, t).None? {
        assert !HasBucketAt(data, t);
      } else {
        assert HasBucketAt(data, t) by {
          var k := FirstMatch(data, t);
          assert data[k].periodStartUnix == t;
        }
      }
    }
  }

  /** Every price in a window is the price of a bucket starting exactly at
      one of the window's slot times. */
  lemma {:induction false} MatchedPricesComeFromSlots(data: seq<HourBucket>, anchor: int, lo: nat, hi: nat, k: nat)
    requires lo <= hi
    requires k < |MatchedPrices(data, anchor, lo, hi)|
    ensures exists i, j :: lo <= i < hi && 0 <= j < |data| &&
              data[j].periodStartUnix == SlotTime(anchor, i) &&
              data[j].priceUSD == MatchedPrices(data, anchor, lo, hi)[k]
    decreases hi - lo
  {
    var prefix := MatchedPrices(data, anchor, lo, hi - 1);
    var t := SlotTime(anchor, hi - 1);
    if k < |prefix| {
      MatchedPricesComeFromSlots(data, anchor, lo, hi - 1, k);
      var i, j :| lo <= i < hi - 1 && 0 <= j < |data| &&
                  data[j].periodStartUnix == SlotTime(anchor, i) && data[j].priceUSD == prefix[k];
      assert MatchedPrices(data, anchor, lo, hi)[k] == prefix[k];
    } else {
      var j := FirstMatch(data, t);
      assert FindBucket(data, t).Some?;
      assert MatchedPrices(data, anchor, lo, hi)[k] == data[j].priceUSD;
    }
  }

  /** Matching a run of slots is matching its first part, then the rest. */
  lemma {:induction false} MatchedPricesSplit(data: seq<HourBucket>, anchor: int, lo: nat, mid: nat, hi: nat)
    requires lo <= mid <= hi
    ensures MatchedPrices(data, anchor, lo, hi) ==
              MatchedPrices(data, anchor, lo, mid) + MatchedPrices(data, anchor, mid, hi)
    decreases hi - mid
  {
    if mid < hi {
      MatchedPricesSplit(data, anchor, lo, mid, hi - 1);
      var last := match FindBucket(data, SlotTime(anchor, hi - 1))
                  case Some(b) => [b.priceUSD]
                  case None => [];
      assert MatchedPrices(data, anchor, mid, hi) == MatchedPrices(data, anchor, mid, hi - 1) + last;
      assert MatchedPrices(data, anchor, lo, hi) == MatchedPrices(data, anchor, lo, hi - 1) + last;
    }
  }

  /** Every slot of an hour-aligned anchor is hour-aligned. */
  lemma SlotAligned(anchor: int, i: int)
    requires anchor % HourSeconds == 0
    ensures SlotTime(anchor, i) % HourSeconds == 0
  {
    assert SlotTime(anchor, i) == (anchor / HourSeconds - i) * HourSeconds;
  }

  /** For an hour-aligned anchor the recent and older windows never share
      a slot time, every slot is itself hour-aligned, and together the two
      windows match exactly the prices of the 48 slots before the anchor,
      each once. */
  lemma WindowsDisjoint(data: seq<HourBucket>, anchor: int, i: int, j: int)
    requires anchor % HourSeconds == 0
    requires 0 <= i < WindowHours <= j < 2 * WindowHours
    ensures SlotTime(anchor, i) != SlotTime(anchor, j)
    ensures SlotTime(anchor, i) % HourSeconds == 0 && SlotTime(anchor, j) % HourSeconds == 0
    ensures MatchedPrices(data, anchor, 0, 2 * WindowHours) ==
              MatchedPrices(data, anchor, 0, WindowHours) + MatchedPrices(data, anchor, WindowHours, 2 * WindowHours)
  {
    SlotAligned(anchor, i);
    SlotAligned(anchor, j);
    MatchedPricesSplit(data, anchor, 0, WindowHours, 2 * WindowHours);
  }

  /** One averaging loop: the running total and the number of slots of
      `lo`, ..., `hi - 1` that have a bucket. */
  method WindowTotal(data: seq<HourBucket>, anchor: int, lo: nat, hi: nat) returns (total: real, count: nat)
    requires lo <= hi
    ensures count == |MatchedPrices(data, anchor, lo, hi)|
    ensures total == Sum(MatchedPrices(data, anchor, lo, hi))
  {
    total, count := 0.0, 0;
    var i := lo;
    while i < hi
      invariant lo <= i <= hi
      invariant count == |MatchedPrices(data, anchor, lo, i)|
      invariant total == Sum(MatchedPrices(data, anchor, lo, i))
    {
      var hourData := FindBucket(data, SlotTime(anchor, i));
      ghost var before := MatchedPrices(data, anchor, lo, i);
      if hourData.Some? {
        assert MatchedPrices(data, anchor, lo, i + 1) == before + [hourData.value.priceUSD];
        total := total + hourData.value.priceUSD;
        count := count + 1;
      } else {
        assert MatchedPrices(data, anchor, lo, i + 1) == before;
      }
      i := i + 1;
    }
  }

  /** The whole calculation for one token at time `now` (in seconds). */
  method CalculateToken24hPriceChange(token: Token, now: int) returns (r: Outcome<PriceChange, Error>)
    ensures token.tokenHourData.None? ==> r == Ok(PriceChange(0.0, 0.0))
    ensures token.tokenHourData == Some([]) ==> r == Err(MissingFirstBucket)
    ensures token.tokenHourData.Some? && |token.tokenHourData.value| > 0 ==>
              var data := token.tokenHourData.value;
              var anchor := HourAnchor(now);
              r == Ok(ChangeBetween(RecentAverage(data, anchor),
                                         OlderAverage(data, anchor, token.initialUSD)))
  {
    if token.tokenHourData.None? {
      return Ok(PriceChange(0.0, 0.0));
    }
    var data := token.tokenHourData.value;
    var tokenHourNowUnix := HourAnchor(now);

    var total24, count24 := WindowTotal(data, tokenHourNowUnix, 0, WindowHours);
    var average24: real;
    if count24 == 0 {
      if |data| == 0 {
        return Err(MissingFirstBucket);
      }
      average24 := data[0].priceUSD;
    } else {
      MatchedPricesPerSlot(data, tokenHourNowUnix, 0, WindowHours);
      average24 := total24 / (count24 as real);
    }

    var total48, count48 := WindowTotal(data, tokenHourNowUnix, WindowHours, 2 * WindowHours);
    var average48: real;
    if count48 == 0 {
      average48 := token.initialUSD;
    } else {
      average48 := total48 / (count48 as real);
    }

    assert average24 == RecentAverage(data, tokenHourNowUnix);
    assert average48 == OlderAverage(data, tokenHourNowUnix, token.initialUSD);
    r := Ok(ChangeBetween(average24, average48));
  }

  lemma {:induction false} SumNonNegative(xs: seq<real>)
    requires forall k :: 0 <= k < |xs| ==> xs[k] >= 0.0
    ensures Sum(xs) >= 0.0
  {
    if |xs| > 0 {
      SumNonNegative(xs[..|xs| - 1]);
    }
  }

  /** With non-negative prices every window holds only non-negative prices. */
  lemma WindowPricesNonNegative(data: seq<HourBucket>, anchor: int, lo: nat, hi: nat)
    requires lo <= hi
    requires forall j :: 0 <= j < |data| ==> data[j].priceUSD >= 0.0
    ensures Sum(MatchedPrices(data, anchor, lo, hi)) >= 0.0
  {
    var xs := MatchedPrices(data, anchor, lo, hi);
    forall k | 0 <= k < |xs|
      ensures xs[k] >= 0.0
    {
      MatchedPricesComeFromSlots(data, anchor, lo, hi, k);
    }
    SumNonNegative(xs);
  }

  lemma MeanNonNegative(xs: seq<real>)
    requires |xs| > 0
    requires Sum(xs) >= 0.0
    ensures Mean(xs) >= 0.0
  {
  }

  /** With non-negative prices both averages are non-negative. */
  lemma AveragesNonNegative(data: seq<HourBucket>, anchor: int, initialUSD: real)
    requires |data| > 0
    requires forall j :: 0 <= j < |data| ==> data[j].priceUSD >= 0.0
    requires initialUSD >= 0.0
    ensures RecentAverage(data, anchor) >= 0.0
    ensures OlderAverage(data, anchor, initialUSD) >= 0.0
  {
    var recentPrices := MatchedPrices(data, anchor, 0, WindowHours);
    var olderPrices := MatchedPrices(data, anchor, WindowHours, 2 * WindowHours);
    WindowPricesNonNegative(data, anchor, 0, WindowHours);
    WindowPricesNonNegative(data, anchor, WindowHours, 2 * WindowHours);
    if |recentPrices| > 0 {
      MeanNonNegative(recentPrices);
    }
    if |olderPrices| > 0 {
      MeanNonNegative(olderPrices);
    }
  }

  /** The relative change of a non-negative price against a positive one. */
  lemma PercentageSign(recent: real, older: real)
    requires recent >= 0.0 && older > 0.0
    ensures var p := (recent - older) / older * 100.0;
            (p > 0.0 <==> recent > older) && (p < 0.0 <==> recent < older) && p >= -100.0
  {
    var q := recent / older;
    assert q >= 0.0;
    assert older / older == 1.0;
    assert (recent - older) / older == q - older / older;
    assert q > 1.0 <==> recent > older;
    assert q < 1.0 <==> recent < older;
  }

  /** With non-negative prices, in the third branch the change and the
      percentage have the same sign, both are positive exactly when the
      recent average is above the older one, and the percentage never falls
      below -100. */
  lemma NonNegativePricesGiveConsistentChange(data: seq<HourBucket>, anchor: int, initialUSD: real)
    requires |data| > 0
    requires forall j :: 0 <= j < |data| ==> data[j].priceUSD >= 0.0
    requires initialUSD >= 0.0
    ensures var recent := RecentAverage(data, anchor);
            var older := OlderAverage(data, anchor, initialUSD);
            var r := ChangeBetween(recent, older);
            older != 0.0 && recent != 0.0 ==>
              (r.priceChange > 0.0 <==> recent > older) &&
              (r.priceChangePercentage > 0.0 <==> recent > older) &&
              (r.priceChangePercentage < 0.0 <==> recent < older) &&
              r.priceChangePercentage >= -100.0
  {
    var recent := RecentAverage(data, anchor);
    var older := OlderAverage(data, anchor, initialUSD);
    AveragesNonNegative(data, anchor, initialUSD);
    if older != 0.0 && recent != 0.0 {
      PercentageSign(recent, older);
    }
  }
}
