# JSE SENS insider-dealing monitor, modelled in Dafny

`monitor.py` checks Moneyweb's SENS listing for "dealings in securities"
notices that it has not seen before. It pulls fields out of each notice's text
by regular expression and keyword tests. It derives the share code from the
notice's link, looks up the 3-, 6- and 12-month price change of that share,
prints a report block, and saves the links it handled. This project models
that logic and proves what it promises:

- `text.dfy` (`Text`): character classes (Python's `str.isspace` list for `\s`), `lower()`, `strip()`, substring search.
- `patterns.dfy` (`Patterns`): the four regular expressions of the script, as matchers anchored at one position, and `re.search` over them. The leftmost start position where the whole pattern matches wins. `[s]?` and `\s*` are greedy, and `.*?` is lazy.
- `notices.dfy` (`Notices`): `parse_sens` after the page has been fetched. This covers the "dealing in securities" gate, the name, price and value searches, and the three keyword flags.
- `feed.dfy` (`Feed`): the link filter of `get_sens_links`.
- `performance.dfy` (`Performance`): `get_price_change` and its nested `get_return`. The base bar is chosen per lookback window, and the change is exact.
- `monitor.dfy` (`Monitor`):
  - ticker derivation and the "Unknown" short-circuit;
  - the seen-set filter;
  - `main`'s loop over the new links, as methods with loop invariants (`Visit` is one turn, `Process` the loop, `Run` the whole of `main`);
  - properties across runs.

The outside world is passed in as values:

- the state file's `seen` list, or `None` when there is no file;
- the listing anchors, or `None` when the listing cannot be fetched;
- a function from link to page text (`get_text()` of the page), `None` meaning the request raises;
- a function from Yahoo symbol to daily bars, `None` meaning the data source raises.

The model follows the code as written, including where a more forgiving
behaviour might be expected:

- A notice that cannot be fetched aborts the whole run before anything is saved, because `requests.get` at monitor.py:28 is not caught. The model has `Outcome.Aborted` for this.
- An unreadable state file is not treated as "no prior state", because the code does not catch that error. The model takes only "no file" (`None`) or a list. An unreadable file is left out, as a crash.
- A zero base close is not excluded by a precondition. It produces float `inf`/`nan` in the code. The model returns the `NonFinite` constructor for that window.

## Model

| member | source | states |
|---|---|---|
| Text.Strip | monitor.py:43 | the result has no leading or trailing whitespace, and it is a contiguous piece of the input with only whitespace cut from both ends |
| Text.StripWithin | monitor.py:43 | every character of the stripped text occurs in the original |
| Text.Lower | monitor.py:30 | `.lower()`: same length, no upper-case letter left; every other character is kept and 'A'–'Z' become 'a'–'z' |
| Text.RunEnd | monitor.py:35-37 | a greedy character-class run: every character up to the end is in the class, and the next one is not (or the text ends) |
| Patterns.KeyEnd | monitor.py:35-37 | `key[s]?:` matches at `i` exactly when `key:` or `keys:` starts there, and it ends just past that keyword and its colon |
| Patterns.DashWordAt | monitor.py:87 | a match of `-(\w+)-` at `k` captures a non-empty word with '-' just before it and just after it |
| Patterns.DashWordIs | monitor.py:87 | `-(\w+)-` matches at `k` with group `t` exactly when `t` is a non-empty word with '-' on both sides there |
| Patterns.LazyTail | monitor.py:87 | the lazy `.*?-(\w+)-` picks the first position where `-(\w+)-` matches, and none before it matches |
| Patterns.LazyTailNone | monitor.py:87 | the lazy scan fails exactly when no position in the range has `-(\w+)-` |
| Patterns.At | monitor.py:35-37 | the three patterns anchored at one position: the name pattern matches exactly where `name[s]?:` starts and its group has no newline; a price/value match starts with `key[s]?:` and captures a non-empty run of digits, '.' and ','; the ticker pattern needs "/sens/" there |
| Patterns.SensAt | monitor.py:87 | a match of `/sens/.*?-(\w+)-` at `i` captures a non-empty word with '-' on both sides that follows the "/sens/" at `i` with no newline between (the other two clauses spell out the lazy scan over the rest of the line) |
| Patterns.SensAtParts | monitor.py:87 | conversely, the anchored match succeeds at every "/sens/" that is followed, on its line, by a word between dashes |
| Patterns.SensAtFirst | monitor.py:87 | the lazy `.*?` makes the anchored match capture the word at the first dash pair after "/sens/" |
| Patterns.Search | monitor.py:35-37 | search over a range of start positions: it fails iff no position matches, and otherwise returns the leftmost match with its group |
| Patterns.Find | monitor.py:35-37 | `re.search`: no match iff the pattern matches at no position of the text (the end included); otherwise the leftmost match |
| Notices.Extract | monitor.py:32-50 | no data exactly when "dealing in securities" is absent; otherwise the record keeps the url. `trade_type` is "buy" iff "purchase" or "acquire" occurs, else "sell". `on_market` is "on-market" iff "on market" occurs, else "off-market". `scheme` is "yes" iff "incentive" or "scheme" occurs, else "no" |
| Notices.ParseSens | monitor.py:30-33 | on the lower-cased page text: no data iff the lower-cased text lacks the gate phrase; a record keeps the url |
| Notices.NameField | monitor.py:35-43 | the name field is stripped and holds no newline |
| Notices.NumberField | monitor.py:36-45 | the price (value) field is "Unknown" or a non-empty run of digits, '.' and ',' |
| Notices.NameFieldFound | monitor.py:35-43 | when "name:" or "names:" occurs, the name is the stripped rest of the line at the leftmost keyword, after the whitespace run (newlines included); it has no newline and no outer whitespace |
| Notices.NameFieldUnknown | monitor.py:35-43 | on lower-case text the name is "Unknown" iff neither "name:" nor "names:" occurs |
| Notices.NameFieldAbsent | monitor.py:35 | without either keyword the name search finds nothing |
| Notices.NumberAtStarts | monitor.py:36-37 | the price/value pattern matches at `q` iff `key[s]?:` starts there and a digit, '.' or ',' follows the whitespace run |
| Notices.NumberFieldUnknown | monitor.py:36-45 | price (value) is "Unknown" iff there is no place where `price[s]?:` plus whitespace is followed by a digit, '.' or ','; a keyword not so followed is skipped |
| Notices.NumberFieldFound | monitor.py:36-45 | a found price (value) is non-empty, made of digits, '.' and ',', and is the maximal such run at the leftmost place where the pattern can match |
| Notices.ParsedFields | monitor.py:42-45 | in a parsed notice: name "Unknown" iff no name keyword, otherwise the stripped rest of the line at the leftmost keyword (as NameFieldFound places it); price and value are "Unknown" or the maximal run of digits, '.' and ',' at the leftmost place the pattern can match (as NumberFieldFound places it) |
| Feed.FeedLinks | monitor.py:24 | no more links than anchors, and each starts with "https://www.moneyweb.co.za" |
| Feed.FeedLinksMember | monitor.py:24 | a link is produced iff some anchor's lower-cased text contains "dealings in securities" and the link is the origin plus that anchor's href |
| Feed.FeedLinksAppend | monitor.py:24 | filtering splits over concatenation, so page order is kept |
| Performance.LastOnOrBefore | monitor.py:62-66 | `hist[hist.index <= past][-1]`: none iff every bar is dated after the target; otherwise a bar on or before it with every later bar after it |
| Performance.GetReturn | monitor.py:61-67 | a window is "N/A" iff no bar is dated on or before the latest date minus the window |
| Performance.BaseBar | monitor.py:61-67 | when not "N/A", a base bar exists: the last bar on or before the target date (the latest such date in an ordered history); the figure times its close is (latest close − base close) × 100, and a zero base gives the non-finite result |
| Performance.ReturnFigure | monitor.py:61-67 | `get_return(days)` shows the window's figure: "N/A" iff no bar is on or before the target date, otherwise the change from the base bar |
| Performance.WindowFigureUnique | monitor.py:61-67 | a window has one figure only: its base bar and the change from it are fixed by the history |
| Performance.WindowsNest | monitor.py:69-72 | a longer window is "N/A" whenever a shorter one is |
| Performance.PriceChange | monitor.py:52-75 | no history (data-source failure) or an empty one gives all "N/A"; otherwise "3m", "6m" and "12m" are the figures of the 90-, 180- and 365-day windows of that history; 12m available ⇒ 6m available ⇒ 3m available |
| Performance.ShortHistory | monitor.py:56-73 | an ordered history spanning less than 90 days gives all "N/A" |
| Monitor.Ticker | monitor.py:87-88 | the ticker is "Unknown" or a non-empty word found after a "/sens/" in the link, between two dashes, with no newline between |
| Monitor.TickerFound | monitor.py:87-88 | a link with a word between dashes after a "/sens/", with no newline between, has a match, no later than that "/sens/", and its ticker is such a word |
| Monitor.TickerLeftmost | monitor.py:87-88 | the ticker is the word at the first dash pair after the leftmost "/sens/" that has a word between dashes on its line |
| Monitor.TickerNeedsSens | monitor.py:87-88 | a link without "/sens/" has ticker "Unknown" |
| Monitor.PerfFor | monitor.py:90 | a known ticker's figures are `PriceChange` of the history for the ticker with ".JO" appended; an "Unknown" ticker gives all "N/A" without a data-source lookup; the windows nest |
| Monitor.LoadSeen | monitor.py:10-14 | `load_state()["seen"]`, taken as a set as on line 79: empty without a state file, otherwise exactly the stored links |
| Monitor.NewLinks | monitor.py:80 | a link is new iff it is in the feed list and not in the seen set; no longer than the feed list |
| Monitor.NewLinksCount | monitor.py:80 | every occurrence of an unseen link survives (duplicates kept), and a seen link loses them all |
| Monitor.NewLinksAppend | monitor.py:80 | the filter keeps feed order |
| Monitor.ParseOf | monitor.py:27-33 | a page that cannot be fetched gives nothing here (Visit turns it into an abort); a fetched page parses iff its lower-cased text has the gate phrase, and the notice keeps the link |
| Monitor.Collected | monitor.py:82-103 | the links the loop adds to `seen` all come from the list; which ones is stated by CollectedMember |
| Monitor.CollectedMember | monitor.py:82-103 | the loop adds a link to `seen` iff it is in the list and its page yields data |
| Monitor.CollectedNone | monitor.py:83-85 | links whose pages yield no data add nothing |
| Monitor.ReportOf | monitor.py:87-101 | a block carries its link and notice; its ticker is "Unknown" or a word after "/sens/" between dashes, and an "Unknown" ticker has all "N/A" |
| Monitor.ReportsFor | monitor.py:82-101 | each printed block is for a listed link whose page parsed to that notice (url kept), with the ticker from the link and its performance; no more blocks than links |
| Monitor.ReportsForSingle | monitor.py:84-99 | one link prints one block when its page parses and none otherwise |
| Monitor.ReportsForAppend | monitor.py:82-101 | the blocks for two stretches of links are those of the first followed by those of the second, so blocks come in list order, once per occurrence |
| Monitor.ReportsForMember | monitor.py:82-101 | every listed link whose page parses gets its block |
| Monitor.ReportsForNone | monitor.py:83-85 | links whose pages yield no data print nothing |
| Monitor.FetchedStep | monitor.py:83 | the links handled so far were all fetched iff the earlier ones were and this one was |
| Monitor.SeenStep | monitor.py:84-103 | one turn adds the link to `seen` exactly when its page yields data |
| Monitor.ReportsStep | monitor.py:84-101 | one turn prints one block exactly when its page yields data |
| Monitor.Visit | monitor.py:83-103 | one loop turn: the fetch fails iff the page is missing; otherwise `seen` and the printed blocks advance to the state after this link |
| Monitor.Process | monitor.py:82-105 | aborted iff some new link's page cannot be fetched; otherwise the saved set is the initial set plus the new links whose pages parse, the blocks are `ReportsFor` of the new links (one per parsing occurrence, in order, by ReportsForSingle and ReportsForAppend), and the "no new" line is printed iff there were no new links |
| Monitor.Run | monitor.py:77-108 | a listing fetch failure aborts. Otherwise the outcome is `Process` on the feed links not seen before, and no block is printed for a link already in the loaded set. With no new links the state is still saved, unchanged |
| Monitor.SavedSet | monitor.py:79-105 | a link is saved iff it was seen before, or it is in the feed and its page parses; the set never shrinks |
| Monitor.SecondRunQuiet | monitor.py:78-105 | a second run on the same feed and pages prints nothing and saves the same set; its new links are exactly those that did not parse the first time |
| Monitor.TwoLinkRun | monitor.py:78-105 | feed [a, b] with a seen and b parsing: only b is new, both are saved, and one block for b is printed |

## Left out

- HTTP (`requests.get`), BeautifulSoup parsing, `.select(".article-summary a")` and `get_text()`. The listing arrives as (href, text) pairs and each page as its plain text. A missing `href` attribute, which raises in the code, is not modelled.
- yfinance: the history is an input, with `None` standing for any exception the data source raises (`except Exception` gives all "N/A"). Dates are whole day numbers, so time zones and `timedelta` arithmetic on timestamps are not modelled.
- The JSON state file: the model takes no file (an empty seen list) or the `seen` list. An unreadable file or a file without a `seen` key crashes the code, and the model leaves both out. The saved list is modelled as a set, since `list(seen)` has no defined order. A failure to write the file in `save_state`, which raises after the blocks are printed, is left out too: `Completed` always means the set was saved.
- Performance.GetReturn: the float division, `round(..., 2)` and the "%" string are left out. The change is the exact real `(latest − base) / base × 100`, and `NonFinite` stands for any `inf`/`nan`.
- Console output: the printed blocks are modelled as `Report` values in print order. The text, the emoji and the separator lines are left out. Blocks printed before an abort are not kept in `Outcome.Aborted`.
- Text.Lower: only 'A'–'Z' are lower-cased. Python's Unicode case mapping is not modelled.
- Text.IsWordChar: `\w` is ASCII letters, digits and '_'. Python's Unicode word characters are not modelled.
- Text.IsSpace: the character list is exact for `str.isspace`. A Dafny `char` is a Unicode scalar value, so Python strings that hold lone surrogates are not modelled.
- The page and history oracles are functions of their argument. In the code a link listed twice is fetched twice, and the second fetch may give a different page or raise. In the model both fetches agree.
