/**
 * The price window's display state: the label's text and colour, the
 * previous price, the chart's bounded price history and the time of the
 * last delivery, which the watchdog compares against the clock.
 *
 * The clock is a parameter (`now`, seconds as returned by `time.time()`),
 * and `float()` is an oracle `parseFloat` from text to an optional number.
 */
module Window {
  import opened Wrappers
  import Fetcher

  /** Number of prices the chart keeps. */
  const HISTORY_CAPACITY: nat := 50
  /** Seconds without a delivery after which the watchdog restarts the fetcher. */
  const STALE_AFTER_SEC: real := 30.0

  const INITIAL_LABEL: string := "Fetching value..."
  const UNKNOWN_LABEL: string := "Tracking Value: ?"
  const LABEL_PREFIX: string := "Tracking Value: "

  /** The label's colour: "green" for a rise, "red" for a fall, "#333" for neither. */
  datatype Colour = Green | Red | Neutral

  /**
   * Green for a rise over the previous price, red for a fall, and the neutral
   * grey when the price is unchanged or there is no previous price.
   */
  function ChooseColour(previous: Option<real>, current: real): (c: Colour)
    ensures c == Green <==> previous.Some? && current > previous.value
    ensures c == Red <==> previous.Some? && current < previous.value
    ensures c == Neutral <==> previous.None? || current == previous.value
  {
    if previous.Some? then
      if current > previous.value then Green
      else if current < previous.value then Red
      else Neutral
    else Neutral
  }

  /** A rise seen from one side is a fall seen from the other. */
  lemma ColourIsAntisymmetric(a: real, b: real)
    ensures ChooseColour(Some(a), b) == Green <==> ChooseColour(Some(b), a) == Red
    ensures ChooseColour(Some(a), b) == Neutral <==> ChooseColour(Some(b), a) == Neutral
  {
  }

  /** `s.replace(",", "")`: the thousands separators removed, nothing else changed. */
  function RemoveCommas(s: string): (r: string)
    ensures |r| <= |s|
    ensures forall i :: 0 <= i < |r| ==> r[i] != ','
    ensures (forall i :: 0 <= i < |s| ==> s[i] != ',') ==> r == s
  {
    if s == [] then []
    else (if s[0] == ',' then [] else [s[0]]) + RemoveCommas(s[1..])
  }

  lemma {:induction false} RemoveCommasAppend(a: string, b: string)
    ensures RemoveCommas(a + b) == RemoveCommas(a) + RemoveCommas(b)
  {
    if a == [] {
      assert a + b == b;
    } else {
      assert (a + b)[1..] == a[1..] + b;
      RemoveCommasAppend(a[1..], b);
    }
  }

  /** A single character is dropped if it is a comma and kept otherwise. */
  lemma RemoveCommasOfChar(c: char)
    ensures RemoveCommas([c]) == if c == ',' then [] else [c]
  {
  }

  /** Exactly the commas are removed: every other character keeps its count. */
  lemma {:induction false} RemoveCommasKeepsOthers(s: string)
    ensures multiset(RemoveCommas(s)) == multiset(s)[',' := 0]
    decreases |s|
  {
    if s != [] {
      RemoveCommasKeepsOthers(s[1..]);
      assert s == [s[0]] + s[1..];
      RemoveCommasAppend([s[0]], s[1..]);
      RemoveCommasOfChar(s[0]);
    }
  }

  /** "1,234.50" becomes "1234.50". */
  lemma RemoveCommasExample()
    ensures RemoveCommas("1,234.50") == "1234.50"
  {
    RemoveCommasAppend("1", ",234.50");
  }

  /**
   * An ASCII letter that `float()` never accepts: any but the exponent mark
   * "e" and the letters of "inf", "infinity" and "nan", in either case.
   */
  predicate StrayLetter(c: char)
  {
    && (('a' <= c <= 'z') || ('A' <= c <= 'Z'))
    && c !in "aefintyAEFINTY"
  }

  /** What the model assumes of `float()`: text holding a stray letter raises. */
  ghost predicate RejectsStrayLetters(parseFloat: string -> Option<real>)
  {
    forall s, i :: 0 <= i < |s| && StrayLetter(s[i]) ==> parseFloat(s) == None
  }

  /** `float(price_str.replace(",", ""))`, with `None` where `float()` raises. */
  function ParsePrice(priceStr: string, parseFloat: string -> Option<real>): Option<real>
  {
    parseFloat(RemoveCommas(priceStr))
  }

  /** Text holding a stray letter is never a price: removing commas keeps the letter. */
  lemma StrayLetterNeverParses(parseFloat: string -> Option<real>, s: string, i: nat)
    requires RejectsStrayLetters(parseFloat)
    requires i < |s| && StrayLetter(s[i])
    ensures ParsePrice(s, parseFloat) == None
  {
    var r := RemoveCommas(s);
    var c := s[i];
    RemoveCommasKeepsOthers(s);
    assert c in multiset(s);
    assert c in multiset(r);
    var j :| 0 <= j < |r| && r[j] == c;
  }

  /** The fetcher's placeholder never parses, so it never reaches the history. */
  lemma LoadingIsNeverAPrice(parseFloat: string -> Option<real>)
    requires RejectsStrayLetters(parseFloat)
    ensures ParsePrice(Fetcher.LOADING, parseFloat) == None
  {
    StrayLetterNeverParses(parseFloat, Fetcher.LOADING, 0);
  }

  /** The last (at most) `HISTORY_CAPACITY` prices, oldest first. */
  function Recent(prices: seq<real>): (r: seq<real>)
    ensures |r| <= HISTORY_CAPACITY
    ensures |r| == |prices| || |r| == HISTORY_CAPACITY
  {
    if |prices| <= HISTORY_CAPACITY then prices else prices[|prices| - HISTORY_CAPACITY..]
  }

  /** `Recent` is a suffix of the prices: all of them, or the last 50. */
  lemma RecentIsLastPrices(prices: seq<real>)
    ensures |Recent(prices)| == if |prices| <= HISTORY_CAPACITY then |prices| else HISTORY_CAPACITY
    ensures Recent(prices) == prices[|prices| - |Recent(prices)|..]
  {
  }

  /**
   * `price_history.append(x)`, then `pop(0)` when the list has grown past
   * the capacity.
   */
  function PushBounded(history: seq<real>, x: real): (r: seq<real>)
    ensures |history| <= HISTORY_CAPACITY ==> |r| <= HISTORY_CAPACITY
    ensures r != [] && r[|r| - 1] == x
    ensures |history| < HISTORY_CAPACITY ==> r == history + [x]
  {
    var appended := history + [x];
    if |appended| > HISTORY_CAPACITY then appended[1..] else appended
  }

  /**
   * The bounded history is a FIFO window: pushing a price onto the recent
   * prices gives the recent prices of the longer sequence.
   */
  lemma HistoryKeepsLastPrices(prices: seq<real>, x: real)
    ensures PushBounded(Recent(prices), x) == Recent(prices + [x])
  {
    var all := prices + [x];
    if |prices| >= HISTORY_CAPACITY {
      var h := Recent(prices);
      assert |h| == HISTORY_CAPACITY;
      assert (h + [x])[1..] == all[|all| - HISTORY_CAPACITY..];
    }
  }

  /** The watchdog's test: strictly more than 30 seconds since the last delivery. */
  predicate Stale(now: real, lastUpdate: real)
  {
    now - lastUpdate > STALE_AFTER_SEC
  }

  /**
   * The test is strict, and since a restart leaves the delivery time alone,
   * once it holds it holds at every later check until a value is delivered.
   */
  lemma StaleUntilNextDelivery(lastUpdate: real, now: real, later: real)
    requires Stale(now, lastUpdate) && now <= later
    ensures Stale(later, lastUpdate)
    ensures !Stale(lastUpdate + STALE_AFTER_SEC, lastUpdate)
  {
  }

  class PriceWindow {
    const url: string
    var previousPrice: Option<real>
    var lastUpdateTime: real
    var priceHistory: seq<real>
    var labelText: string
    var labelColour: Colour
    var fetcher: Fetcher.PriceFetcher
    /** Every price parsed since the window opened, oldest first. */
    ghost var parsedPrices: seq<real>

    /**
     * The chart shows the last 50 parsed prices, the previous price is the
     * last one parsed, and the fetcher polls this window's URL.
     */
    ghost predicate Valid()
      reads this
    {
      && priceHistory == Recent(parsedPrices)
      && previousPrice == (if parsedPrices == [] then None else Some(parsedPrices[|parsedPrices| - 1]))
      && fetcher.url == url
    }

    /** Opening the window: nothing parsed yet, the clock started, a fetcher launched. */
    constructor (url: string, now: real)
      ensures Valid()
      ensures this.url == url && lastUpdateTime == now
      ensures previousPrice == None && priceHistory == [] && parsedPrices == []
      ensures labelText == INITIAL_LABEL && labelColour == Neutral
      ensures fresh(fetcher)
    {
      this.url := url;
      previousPrice := None;
      lastUpdateTime := now;
      priceHistory := [];
      labelText := INITIAL_LABEL;
      labelColour := Neutral;
      parsedPrices := [];
      fetcher := new Fetcher.PriceFetcher(url);
    }

    /**
     * A delivered text: the delivery time is recorded; a text that parses
     * (after removing commas) sets the colour against the previous price,
     * shows the text, becomes the previous price and is pushed onto the
     * history; one that does not parse only shows the unknown-value label.
     */
    method UpdateLabel(priceStr: string, now: real, parseFloat: string -> Option<real>)
      requires Valid()
      modifies this
      ensures Valid()
      ensures lastUpdateTime == now && fetcher == old(fetcher)
      ensures |priceHistory| <= HISTORY_CAPACITY
      ensures ParsePrice(priceStr, parseFloat).None? ==>
        && labelText == UNKNOWN_LABEL && labelColour == old(labelColour)
        && previousPrice == old(previousPrice) && priceHistory == old(priceHistory)
        && parsedPrices == old(parsedPrices)
      ensures ParsePrice(priceStr, parseFloat).Some? ==>
        var v := ParsePrice(priceStr, parseFloat).value;
        && labelColour == ChooseColour(old(previousPrice), v)
        && labelText == LABEL_PREFIX + priceStr
        && previousPrice == Some(v)
        && priceHistory == PushBounded(old(priceHistory), v)
        && parsedPrices == old(parsedPrices) + [v]
    {
      lastUpdateTime := now;
      var parsed := ParsePrice(priceStr, parseFloat);
      if parsed.Some? {
        ShowPrice(priceStr, parsed.value);
      } else {
        labelText := UNKNOWN_LABEL;
      }
    }

    /** The parsed branch: colour, text, previous price and history updated. */
    method ShowPrice(priceStr: string, currentPrice: real)
      requires Valid()
      modifies this
      ensures Valid()
      ensures lastUpdateTime == old(lastUpdateTime) && fetcher == old(fetcher)
      ensures labelColour == ChooseColour(old(previousPrice), currentPrice)
      ensures labelText == LABEL_PREFIX + priceStr
      ensures previousPrice == Some(currentPrice)
      ensures priceHistory == PushBounded(old(priceHistory), currentPrice)
      ensures parsedPrices == old(parsedPrices) + [currentPrice]
    {
      labelColour := ChooseColour(previousPrice, currentPrice);
      labelText := LABEL_PREFIX + priceStr;
      previousPrice := Some(currentPrice);
      HistoryKeepsLastPrices(parsedPrices, currentPrice);
      priceHistory := PushBounded(priceHistory, currentPrice);
      parsedPrices := parsedPrices + [currentPrice];
    }

    /** Stops the running fetcher and launches a new one on the same URL; nothing else changes. */
    method RestartFetcher()
      requires Valid()
      modifies this
      ensures Valid()
      ensures fresh(fetcher) && fetcher.url == url
      ensures lastUpdateTime == old(lastUpdateTime) && previousPrice == old(previousPrice)
      ensures priceHistory == old(priceHistory) && parsedPrices == old(parsedPrices)
      ensures labelText == old(labelText) && labelColour == old(labelColour)
    {
      fetcher := new Fetcher.PriceFetcher(url);
    }

    /**
     * The watchdog tick: a restart exactly when the last delivery is strictly
     * more than 30 seconds old. The delivery time itself is left alone.
     */
    method CheckTimeout(now: real) returns (restarted: bool)
      requires Valid()
      modifies this
      ensures Valid()
      ensures restarted <==> Stale(now, old(lastUpdateTime))
      ensures restarted ==> fresh(fetcher)
      ensures !restarted ==> fetcher == old(fetcher)
      ensures lastUpdateTime == old(lastUpdateTime) && previousPrice == old(previousPrice)
      ensures priceHistory == old(priceHistory) && parsedPrices == old(parsedPrices)
      ensures labelText == old(labelText) && labelColour == old(labelColour)
    {
      restarted := now - lastUpdateTime > STALE_AFTER_SEC;
      if restarted {
        RestartFetcher();
      }
    }
  }
}
