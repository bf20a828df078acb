# DeskCoin price tracker: stuck-price detector, price window and watchdog

This project models the core of `dev_real_time_coin_chart.py`, a desktop
price tracker. A background fetcher polls a web page every two seconds.
Each poll reads the text of the price element, keeps the first line of the
stripped text, and emits it to the window. The fetcher counts how many polls
in a row read the same price. After 15 repeats (30 s / 2 s) it refreshes the
page in place.

The window does three things:

- It parses each delivered text as a number, after removing the commas.
- It colours the label green, red or grey against the previous price.
- It keeps the last 50 prices for the chart.

A watchdog restarts the fetcher when nothing has been delivered for more
than 30 seconds.

Four modules, one per file:

- `wrappers.dfy` (`Wrappers`): the `Option` type.
- `text.dfy` (`TextLines`): Python's `str.strip()` and `str.splitlines()`
  on their exact character sets, and the first-line extraction
  `raw.strip().splitlines()[0]`. Text that strips to nothing raises
  `IndexError`; the model returns `None` for it.
- `fetcher.dfy` (`Fetcher`):
  - `Tick` is the pure specification of one loop iteration.
  - `Ticks` is a run of iterations.
  - `PriceFetcher.PollOnce` and `PriceFetcher.Run` are the imperative loop,
    proved against `Tick` and `Ticks`.
  - Lemmas prove what the stuck detector guarantees over whole runs.
- `window.dfy` (`Window`): the `PriceWindow` class. Its fields are the
  label, the previous price, the bounded history, the last delivery time and
  the current fetcher. Its methods are `update_label`, `check_timeout` and
  `restart_fetcher`. A ghost list of every parsed price ties the history to
  the last 50 of them.

Inputs the program takes from the outside world are parameters:

- A `Poll` says what `get_text` returned, or that it raised, and whether a
  `refresh()` issued on that tick would raise.
- `now` is `time.time()`.
- `parseFloat` stands for `float()`. It returns `None` where `float()`
  raises.

Behaviours that follow from the code and are captured by the contracts:

- A failed poll emits `"Loading..."`. The window receives that text like a
  price: it records the delivery time but cannot parse it. So a fetcher that
  keeps failing keeps the watchdog quiet
  (`Window.PriceWindow.UpdateLabel`, `Window.LoadingIsNeverAPrice`).
- When `refresh()` raises, the exception path emits `"Loading..."` right
  after the price. The repeat count is not reset, so the next repeat of the
  price refreshes again (`Fetcher.Tick`).
- `check_timeout` (lines 146-149) leaves `last_update_time` alone when it
  restarts the fetcher. So once the gap exceeds 30 s, every later watchdog
  tick restarts again until a value is delivered (`StaleUntilNextDelivery`).
  `restart_fetcher` blocks in `stop()` until the old thread has ended (line
  86), so restarts run one after another.
- A text that fails to parse sets the label to `"Tracking Value: ?"` (line
  171) and changes nothing else but the delivery time.

## Model

| member | source | states |
|---|---|---|
| Fetcher.RefreshThresholdIsFifteenTicks | dev_real_time_coin_chart.py:19-21 | The refresh threshold `REFRESH_THRESHOLD_SEC // CHECK_INTERVAL_SEC` is 15 polls |
| Fetcher.Price | dev_real_time_coin_chart.py:51-53 | A poll yields a price exactly when `get_text` returned text that is not all whitespace; the price is non-empty and holds no line break |
| Fetcher.Tick | dev_real_time_coin_chart.py:53-73 | Failed read: emits only `"Loading..."` and leaves count and previous price alone. Success: emits the price first and makes it the previous price. A change resets the count to 0; a repeat adds one. A refresh happens exactly when a repeat brings the count to 15 or more. A refresh that succeeds resets the count; one that raises keeps the count and emits `"Loading..."` second. A count below 15 stays below 15 when the refresh does not raise |
| Fetcher.PriceFetcher.PollOnce | dev_real_time_coin_chart.py:50-73 | One pass of the loop body gives exactly the new count, previous price, emissions and refresh flag that `Tick` specifies |
| Fetcher.Ticks | dev_real_time_coin_chart.py:46-75 | The loop as a fold: ticks taken in order from a state, collecting every emission and counting refreshes |
| Fetcher.TicksEmitPerPoll | dev_real_time_coin_chart.py:49-75 | A run of n polls emits between n and 2n texts and refreshes the page at most n times (the texts emitted by each single poll are stated by `Tick`) |
| Fetcher.PriceFetcher.Run | dev_real_time_coin_chart.py:46-75 | The polling loop, started from count 0 and no previous price, emits exactly the texts of `Ticks` over the polls, in order, and refreshes exactly as often |
| Fetcher.PriceFetcher.constructor | dev_real_time_coin_chart.py:26-29 | A fetcher is bound to the URL it is given |
| Fetcher.RunStaysBelowThreshold | dev_real_time_coin_chart.py:58-69 | While no refresh raises, the repeat count never reaches 15 after any number of polls |
| Fetcher.FailedTicksAreInvisible | dev_real_time_coin_chart.py:71-73 | Dropping the failed polls from a run changes neither the final count, the previous price, nor the number of refreshes |
| Fetcher.TickOnRepeat | dev_real_time_coin_chart.py:58-69 | While the refresh does not raise: re-reading a price already seen k times in a row (k < 15) makes the count k+1 with no refresh, or, when that reaches 15, the page is refreshed and the count reset to 0 |
| Fetcher.RepeatedPrice | dev_real_time_coin_chart.py:58-69 | While no refresh raises: after k repeats, n more reads of the same price leave count `(k+n) % 15` and refresh `(k+n) / 15` times |
| Fetcher.FreshStartRefreshes | dev_real_time_coin_chart.py:46-69 | While no refresh raises: from the loop's start, n ≥ 1 reads of one price refresh `(n-1) / 15` times: the first refresh comes on the 16th read, then one every 15 reads |
| TextLines.IsWhitespace | dev_real_time_coin_chart.py:53 | Exactly the characters for which Python 3's `str.isspace()` holds, which `strip()` removes |
| TextLines.IsLineBreak | dev_real_time_coin_chart.py:53 | Exactly the boundaries `str.splitlines()` splits on; each of them is whitespace |
| TextLines.LeadingWhitespace | dev_real_time_coin_chart.py:53 | The longest prefix made only of `isspace()` characters; the next character, if any, is not whitespace |
| TextLines.TrailingWhitespace | dev_real_time_coin_chart.py:53 | The longest suffix made only of `isspace()` characters; the character before it, if any, is not whitespace |
| TextLines.Strip | dev_real_time_coin_chart.py:53 | `strip()` is the stretch of the text that starts at the first non-whitespace character, with only whitespace after it. It starts and ends with non-whitespace, and it is empty exactly when the text is all whitespace |
| TextLines.StripIsIdempotent | dev_real_time_coin_chart.py:53 | Stripping twice is stripping once |
| TextLines.LineEnd | dev_real_time_coin_chart.py:53 | Position of the first `splitlines()` boundary, with no boundary before it |
| TextLines.AfterBreak | dev_real_time_coin_chart.py:53 | The text after the first boundary, with "\r\n" taken as one boundary; it is strictly shorter than the text |
| TextLines.SplitLines | dev_real_time_coin_chart.py:53 | `splitlines()` has no lines exactly for the empty text. Its first line runs up to the first boundary, and no line holds a boundary |
| TextLines.SplitLinesKeepsEveryOtherCharacter | dev_real_time_coin_chart.py:53 | Joining the lines back gives the text with exactly its line boundaries removed |
| TextLines.FirstLine | dev_real_time_coin_chart.py:53 | `raw.strip().splitlines()[0]` raises exactly when the text is all whitespace. Otherwise it is a non-empty prefix of the stripped text that starts with non-whitespace, holds no boundary, and ends at the stripped text's end or at a boundary |
| TextLines.FirstLineOfPaddedText | dev_real_time_coin_chart.py:53 | Padding, then a price text, then a newline and anything else: the first line is exactly the price text |
| Window.ChooseColour | dev_real_time_coin_chart.py:156-159 | Green exactly for a rise over a previous price, red exactly for a fall, grey exactly when unchanged or with no previous price |
| Window.ColourIsAntisymmetric | dev_real_time_coin_chart.py:157 | Moving from a to b is green exactly when moving from b to a is red; grey is symmetric |
| Window.RemoveCommas | dev_real_time_coin_chart.py:155 | `replace(",", "")` leaves no comma, never lengthens the text, and leaves comma-free text unchanged |
| Window.RemoveCommasOfChar | dev_real_time_coin_chart.py:155 | A single character is removed exactly when it is a comma; with `RemoveCommasAppend` this pins `replace(",", "")` on every text |
| Window.RemoveCommasKeepsOthers | dev_real_time_coin_chart.py:155 | Exactly the commas are removed: every other character occurs as often as before |
| Window.RemoveCommasAppend | dev_real_time_coin_chart.py:155 | Removing commas distributes over concatenation |
| Window.RemoveCommasExample | dev_real_time_coin_chart.py:155 | "1,234.50" becomes "1234.50" |
| Window.StrayLetterNeverParses | dev_real_time_coin_chart.py:155 | Text holding an ASCII letter that no float literal uses never parses, with or without commas: removing commas keeps the letter |
| Window.LoadingIsNeverAPrice | dev_real_time_coin_chart.py:155 | The fetcher's `"Loading..."` placeholder never parses, so it never reaches the colour or the history |
| Window.ParsePrice | dev_real_time_coin_chart.py:155 | `float(price_str.replace(",", ""))`: the parser applied to the text with its commas removed, `None` where it raises |
| Window.Recent | dev_real_time_coin_chart.py:165-167 | The last at most 50 prices: all of them when there are at most 50, otherwise exactly 50 |
| Window.RecentIsLastPrices | dev_real_time_coin_chart.py:165-167 | The kept history is a suffix of the prices: all of them when there are at most 50, otherwise exactly the last 50 |
| Window.PushBounded | dev_real_time_coin_chart.py:165-167 | Appending and then popping the oldest past 50 keeps at most 50 entries and ends with the new price; below capacity it is a plain append |
| Window.HistoryKeepsLastPrices | dev_real_time_coin_chart.py:165-167 | The bounded history is a sliding window: pushing onto the last 50 prices gives the last 50 of the longer list |
| Window.Stale | dev_real_time_coin_chart.py:147 | The watchdog's test: strictly more than 30 s since the last delivery |
| Window.StaleUntilNextDelivery | dev_real_time_coin_chart.py:146-149 | The staleness test is strict (exactly 30 s is not stale). Since a restart leaves the delivery time alone, once stale the window stays stale at every later check until a delivery |
| Window.PriceWindow.constructor | dev_real_time_coin_chart.py:95-140 | A new window has no previous price, an empty history, the label "Fetching value..." in grey, the clock started now, and a fresh fetcher on its URL |
| Window.PriceWindow.UpdateLabel | dev_real_time_coin_chart.py:151-171 | Every delivery records the time. A text that parses sets the colour against the previous price, shows the text, becomes the previous price and is pushed onto the history. One that does not parse shows "Tracking Value: ?" and changes nothing else. The history stays the last 50 parsed prices |
| Window.PriceWindow.ShowPrice | dev_real_time_coin_chart.py:156-168 | The parsed branch: colour, label text, previous price and bounded history updated; the history stays the last 50 parsed prices |
| Window.PriceWindow.RestartFetcher | dev_real_time_coin_chart.py:142-144 | A fresh fetcher on the same URL replaces the old one; the delivery time, label, previous price and history are unchanged |
| Window.PriceWindow.CheckTimeout | dev_real_time_coin_chart.py:146-149 | The fetcher is restarted exactly when more than 30 s have passed since the last delivery; nothing else changes, in particular not the delivery time |

## Left out

- The browser session: starting the browser, the anti-detection script, `open`, the 5 s settle sleeps, and the internals of `get_text` and `refresh`. Each poll's observable outcome is a `Poll` input.
- Threads, signals and stopping: `QThread`, `pyqtSignal`, `stop`/`quit`/`wait` and the `running` flag. `Run` runs over a finite list of polls, and a stop ends the list.
- Time: `time.sleep` is left out and `time.time()` is the parameter `now`. The 10 s watchdog timer is not a constant of the model: each timer tick is a call to `CheckTimeout`.
- The exception handler around the whole thread (lines 77-80): when startup fails, the thread exits with no emission, which is the same as `Run` over no polls.
- Memory reporting (`print_memory`, `update_memory`, psutil) and logging. An exception raised by `print_memory` after a price was emitted would also emit `"Loading..."`; the model does not include that path.
- Window.PriceWindow.UpdateLabel: `float()` is the oracle `parseFloat`, so the model does not capture float rounding, NaN or infinities. With NaN, `float("nan")` compares neither greater nor less, and the label would be grey.
- Window.LoadingIsNeverAPrice: holds for every `parseFloat` that raises on text holding an ASCII letter other than "e" and the letters of "inf", "infinity" and "nan" in either case (`RejectsStrayLetters`). Python 3's `float()` is such a parser; the model does not derive this from a definition of `float()`.
- The Qt widgets, the chart's `setData` and y-range, the URL prompt dialog, `closeEvent` and the `__main__` block: presentation only. The label's style sheet is modelled by its colour (`Colour`: "green", "red" or "#333").
- Fetcher.PriceFetcher.Run: emissions are returned as a list. Their asynchronous delivery, and any emission in flight across a restart, are not modelled.
