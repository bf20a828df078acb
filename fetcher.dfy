/**
 * The stuck-price detector of the background price fetcher: one poll of the
 * page per tick, the text emitted to the window, and an in-page refresh once
 * the same price has been read too many times in a row.
 *
 * The browser is not modelled: each tick's outcome is given as a `Poll`,
 * which says what `get_text` returned (or that it raised) and whether the
 * `refresh()` call would raise if the tick issued one.
 */
module Fetcher {
  import opened Wrappers
  import opened TextLines

  const CHECK_INTERVAL_SEC: nat := 2
  const REFRESH_THRESHOLD_SEC: nat := 30
  /** Consecutive repeats of one price that trigger a refresh. */
  const REFRESH_THRESHOLD_COUNT: nat := REFRESH_THRESHOLD_SEC / CHECK_INTERVAL_SEC

  /** The placeholder emitted when a tick fails. */
  const LOADING: string := "Loading..."

  lemma RefreshThresholdIsFifteenTicks()
    ensures REFRESH_THRESHOLD_COUNT == 15
  {
  }

  /** What the browser calls of one tick do: the text `get_text` returned (`None` when it raised) and whether `refresh()` would raise. */
  datatype Poll = Poll(text: Option<string>, refreshRaises: bool)

  /**
   * What one tick sees: the price it extracted (`None` when reading or
   * extracting raised) and whether `refresh()` would raise.
   */
  datatype Reading = Reading(price: Option<string>, refreshRaises: bool)

  /** The loop's two local variables, `UNCHANGED_COUNT` and `PREVIOUS_PRICE`. */
  datatype FetchState = FetchState(unchangedCount: nat, previousPrice: Option<string>)

  /** The state the loop starts in, after the page has been opened. */
  const Initial: FetchState := FetchState(0, None)

  datatype TickOutcome = TickOutcome(state: FetchState, emitted: seq<string>, refreshed: bool)

  /** The price a poll yields, or `None` when reading or extracting it raises. */
  function Price(p: Poll): (r: Option<string>)
    ensures r.Some? <==> p.text.Some? && !AllWhitespace(p.text.value)
    ensures r.Some? ==> r.value != [] && HasNoLineBreak(r.value)
  {
    if p.text.None? then None else FirstLine(p.text.value)
  }

  /** What the fetcher sees of a poll. */
  function ReadingOf(p: Poll): Reading
  {
    Reading(Price(p), p.refreshRaises)
  }

  /** The readings of a run of polls, in order. */
  function ReadingsOf(polls: seq<Poll>): seq<Reading>
  {
    if polls == [] then [] else [ReadingOf(polls[0])] + ReadingsOf(polls[1..])
  }

  /**
   * One iteration of the polling loop. A tick whose read or extraction fails
   * emits the placeholder and is invisible to stuck detection. A successful
   * tick emits the price, makes it the previous price, counts a repeat or
   * resets the count on a change, and refreshes the page when the count
   * reaches the threshold; a refresh that does not raise resets the count,
   * one that raises leaves it and emits the placeholder after the price.
   */
  function Tick(s: FetchState, r: Reading): (o: TickOutcome)
    ensures r.price.None? ==> o == TickOutcome(s, [LOADING], false)
    ensures r.price.Some? ==>
      && |o.emitted| == (if o.refreshed && r.refreshRaises then 2 else 1)
      && o.emitted[0] == r.price.value
      && o.state.previousPrice == r.price
    ensures r.price.Some? && r.price != s.previousPrice ==>
      o.state.unchangedCount == 0 && !o.refreshed
    ensures r.price.Some? && r.price == s.previousPrice && s.unchangedCount + 1 < REFRESH_THRESHOLD_COUNT ==>
      o.state.unchangedCount == s.unchangedCount + 1 && !o.refreshed
    ensures o.refreshed <==>
      r.price.Some? && r.price == s.previousPrice && s.unchangedCount + 1 >= REFRESH_THRESHOLD_COUNT
    ensures o.refreshed && !r.refreshRaises ==> o.state.unchangedCount == 0
    ensures o.refreshed && r.refreshRaises ==>
      o.state.unchangedCount == s.unchangedCount + 1 && o.emitted[1] == LOADING
    ensures s.unchangedCount < REFRESH_THRESHOLD_COUNT && !r.refreshRaises ==>
      o.state.unchangedCount < REFRESH_THRESHOLD_COUNT
  {
    match r.price
    case None => TickOutcome(s, [LOADING], false)
    case Some(price) =>
      var count := if Some(price) == s.previousPrice then s.unchangedCount + 1 else 0;
      if count >= REFRESH_THRESHOLD_COUNT then
        if r.refreshRaises then TickOutcome(FetchState(count, Some(price)), [price, LOADING], true)
        else TickOutcome(FetchState(0, Some(price)), [price], true)
      else TickOutcome(FetchState(count, Some(price)), [price], false)
  }

  datatype RunOutcome = RunOutcome(state: FetchState, emitted: seq<string>, refreshes: nat)

  /** Ticks run in order from state `s`, readings in order: the final state, all emissions and the refresh count. */
  function Ticks(s: FetchState, readings: seq<Reading>): RunOutcome
    decreases |readings|
  {
    if readings == [] then RunOutcome(s, [], 0)
    else
      var o := Tick(s, readings[0]);
      var r := Ticks(o.state, readings[1..]);
      RunOutcome(r.state, o.emitted + r.emitted, (if o.refreshed then 1 else 0) + r.refreshes)
  }

  /** Every poll emits one or two texts and refreshes the page at most once. */
  lemma {:induction false} TicksEmitPerPoll(s: FetchState, readings: seq<Reading>)
    ensures |readings| <= |Ticks(s, readings).emitted| <= 2 * |readings|
    ensures Ticks(s, readings).refreshes <= |readings|
    decreases |readings|
  {
    if readings != [] {
      TicksEmitPerPoll(Tick(s, readings[0]).state, readings[1..]);
    }
  }

  predicate NoRefreshRaises(readings: seq<Reading>)
  {
    forall i :: 0 <= i < |readings| ==> !readings[i].refreshRaises
  }

  /** While no refresh raises, the count stays strictly below the threshold. */
  lemma {:induction false} RunStaysBelowThreshold(s: FetchState, readings: seq<Reading>)
    requires s.unchangedCount < REFRESH_THRESHOLD_COUNT
    requires NoRefreshRaises(readings)
    ensures Ticks(s, readings).state.unchangedCount < REFRESH_THRESHOLD_COUNT
    decreases |readings|
  {
    if readings != [] {
      assert !readings[0].refreshRaises;
      RunStaysBelowThreshold(Tick(s, readings[0]).state, readings[1..]);
    }
  }

  /** The readings of ticks whose read succeeded. */
  function Successful(readings: seq<Reading>): (r: seq<Reading>)
    ensures |r| <= |readings|
    ensures forall i :: 0 <= i < |r| ==> r[i].price.Some?
  {
    if readings == [] then []
    else (if readings[0].price.Some? then [readings[0]] else []) + Successful(readings[1..])
  }

  /**
   * Failed ticks are invisible to stuck detection: dropping them changes
   * neither the final state nor the number of refreshes.
   */
  lemma {:induction false} FailedTicksAreInvisible(s: FetchState, readings: seq<Reading>)
    ensures Ticks(s, Successful(readings)).state == Ticks(s, readings).state
    ensures Ticks(s, Successful(readings)).refreshes == Ticks(s, readings).refreshes
    decreases |readings|
  {
    if readings != [] {
      FailedTicksAreInvisible(Tick(s, readings[0]).state, readings[1..]);
      if readings[0].price.Some? {
        assert Successful(readings) == [readings[0]] + Successful(readings[1..]);
        assert ([readings[0]] + Successful(readings[1..]))[1..] == Successful(readings[1..]);
      } else {
        assert Successful(readings) == Successful(readings[1..]);
      }
    }
  }

  /** Every tick reads the same price `price` and no refresh raises. */
  predicate SamePrice(readings: seq<Reading>, price: string)
  {
    forall i :: 0 <= i < |readings| ==> readings[i].price == Some(price) && !readings[i].refreshRaises
  }

  /** Fifteen more reads of a stuck price: the same count, one more refresh. */
  lemma FifteenMore(m: nat)
    ensures (m + 15) % 15 == m % 15
    ensures (m + 15) / 15 == m / 15 + 1
  {
  }

  lemma SamePriceTail(readings: seq<Reading>, price: string)
    requires readings != [] && SamePrice(readings, price)
    ensures SamePrice(readings[1..], price)
  {
    forall i | 0 <= i < |readings[1..]| ensures readings[1..][i].price == Some(price) && !readings[1..][i].refreshRaises {
      assert readings[1..][i] == readings[i + 1];
    }
  }

  /** One more read of a price already read `k` times in a row. */
  lemma TickOnRepeat(k: nat, price: string, r: Reading)
    requires k < REFRESH_THRESHOLD_COUNT
    requires r.price == Some(price) && !r.refreshRaises
    ensures Tick(FetchState(k, Some(price)), r) ==
      if k + 1 < REFRESH_THRESHOLD_COUNT then TickOutcome(FetchState(k + 1, Some(price)), [price], false)
      else TickOutcome(FetchState(0, Some(price)), [price], true)
  {
  }

  /**
   * After `k` repeats of `price`, `n` further reads of it bring the count to
   * `(k + n) % 15` and refresh `(k + n) / 15` times.
   */
  lemma {:induction false} RepeatedPrice(k: nat, price: string, readings: seq<Reading>)
    requires k < REFRESH_THRESHOLD_COUNT
    requires SamePrice(readings, price)
    ensures Ticks(FetchState(k, Some(price)), readings).state ==
      FetchState((k + |readings|) % 15, Some(price))
    ensures Ticks(FetchState(k, Some(price)), readings).refreshes == (k + |readings|) / 15
    decreases |readings|
  {
    RefreshThresholdIsFifteenTicks();
    if readings != [] {
      var n := |readings|;
      var rest := readings[1..];
      SamePriceTail(readings, price);
      TickOnRepeat(k, price, readings[0]);
      if k + 1 < REFRESH_THRESHOLD_COUNT {
        RepeatedPrice(k + 1, price, rest);
        assert k + 1 + |rest| == k + n;
      } else {
        RepeatedPrice(0, price, rest);
        FifteenMore(n - 1);
        assert k + n == n - 1 + 15;
      }
    }
  }

  /**
   * From the state the loop starts in, `n >= 1` reads of one price refresh the
   * page `(n - 1) / 15` times: the 16th read triggers the first refresh and
   * every 15 further reads the next one.
   */
  lemma FreshStartRefreshes(price: string, readings: seq<Reading>)
    requires |readings| >= 1
    requires SamePrice(readings, price)
    ensures Ticks(Initial, readings).refreshes == (|readings| - 1) / 15
    ensures Ticks(Initial, readings).state == FetchState((|readings| - 1) % 15, Some(price))
  {
    RefreshThresholdIsFifteenTicks();
    assert Tick(Initial, readings[0]).state == FetchState(0, Some(price));
    SamePriceTail(readings, price);
    RepeatedPrice(0, price, readings[1..]);
  }

  /** The run so far followed by one more tick. */
  function Extend(o: RunOutcome, r: Reading): RunOutcome
  {
    var t := Tick(o.state, r);
    RunOutcome(t.state, o.emitted + t.emitted, o.refreshes + (if t.refreshed then 1 else 0))
  }

  /** Ticking through `rs` and then `r` is extending the run over `rs` by `r`. */
  lemma {:induction false} TicksSnoc(s: FetchState, rs: seq<Reading>, r: Reading)
    ensures Ticks(s, rs + [r]) == Extend(Ticks(s, rs), r)
    decreases |rs|
  {
    if rs == [] {
      assert [] + [r] == [r];
      assert [r][1..] == [];
    } else {
      assert (rs + [r])[0] == rs[0];
      assert (rs + [r])[1..] == rs[1..] + [r];
      TicksSnoc(Tick(s, rs[0]).state, rs[1..], r);
    }
  }

  lemma {:induction false} ReadingsOfSnoc(polls: seq<Poll>, p: Poll)
    ensures ReadingsOf(polls + [p]) == ReadingsOf(polls) + [ReadingOf(p)]
    decreases |polls|
  {
    if polls == [] {
      assert [] + [p] == [p];
      assert [p][1..] == [];
    } else {
      assert (polls + [p])[0] == polls[0];
      assert (polls + [p])[1..] == polls[1..] + [p];
      ReadingsOfSnoc(polls[1..], p);
    }
  }

  /** Reading one more poll extends the run over the polls read so far. */
  lemma RunPrefixStep(polls: seq<Poll>, i: nat)
    requires i < |polls|
    ensures Ticks(Initial, ReadingsOf(polls[..i + 1])) == Extend(Ticks(Initial, ReadingsOf(polls[..i])), ReadingOf(polls[i]))
  {
    assert polls[..i + 1] == polls[..i] + [polls[i]];
    ReadingsOfSnoc(polls[..i], polls[i]);
    TicksSnoc(Initial, ReadingsOf(polls[..i]), ReadingOf(polls[i]));
  }

  /**
   * The price fetcher thread. Opening the browser, the anti-detection
   * script and the sleeps are not modelled; `Run` is the polling loop.
   */
  class PriceFetcher {
    const url: string

    constructor (url: string)
      ensures this.url == url
    {
      this.url := url;
    }

    /**
     * One pass through the body of the polling loop: read and extract the
     * price, emit it, update the repeat count and previous price, and refresh
     * the page when the count reaches the threshold; any exception on the way
     * emits the placeholder instead.
     */
    method PollOnce(unchangedCount: nat, previousPrice: Option<string>, poll: Poll)
      returns (count': nat, previous': Option<string>, emitted: seq<string>, refreshed: bool)
      ensures Tick(FetchState(unchangedCount, previousPrice), ReadingOf(poll))
        == TickOutcome(FetchState(count', previous'), emitted, refreshed)
    {
      count', previous', emitted, refreshed := unchangedCount, previousPrice, [], false;
      var price := Price(poll);
      if price.None? {
        emitted := [LOADING];
      } else {
        emitted := [price.value];
        if price == previous' {
          count' := count' + 1;
        } else {
          count' := 0;
        }
        previous' := price;
        if count' >= REFRESH_THRESHOLD_COUNT {
          refreshed := true;
          if poll.refreshRaises {
            emitted := emitted + [LOADING];
          } else {
            count' := 0;
          }
        }
      }
    }

    /**
     * The `while self.running` loop over the ticks before the stop flag is
     * seen: the texts emitted to the window, in order, and how many times
     * the page was refreshed.
     */
    method Run(polls: seq<Poll>) returns (emitted: seq<string>, refreshes: nat)
      ensures emitted == Ticks(Initial, ReadingsOf(polls)).emitted
      ensures refreshes == Ticks(Initial, ReadingsOf(polls)).refreshes
    {
      var unchangedCount: nat := 0;
      var previousPrice: Option<string> := None;
      emitted, refreshes := [], 0;
      var i := 0;
      assert polls[..i] == [];
      while i < |polls|
        invariant 0 <= i <= |polls|
        invariant Ticks(Initial, ReadingsOf(polls[..i])) == RunOutcome(FetchState(unchangedCount, previousPrice), emitted, refreshes)
      {
        RunPrefixStep(polls, i);
        var out, refreshed;
        unchangedCount, previousPrice, out, refreshed := PollOnce(unchangedCount, previousPrice, polls[i]);
        emitted := emitted + out;
        if refreshed {
          refreshes := refreshes + 1;
        }
        i := i + 1;
      }
      assert polls[..i] == polls;
    }
  }
}
