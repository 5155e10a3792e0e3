# tap-loyaltylion, modelled in Dafny

tap-loyaltylion is a Singer connector for the LoyaltyLion REST API. It has two incremental streams.

- **customers** walks from its bookmark (or the configured `start_date`) up to "now" in time
  windows of at most `max_fetch_interval` hours. For each window it sets the stream's
  `start_date`/`end_date` fields, lets the SDK page through the window, and then checkpoints
  the bookmark to the window's end.
- **transactions** asks for everything since its bookmark (or the configured `since_id`),
  minus a fixed back-off of 500 ids.

A "next" link with a non-empty body continues pagination. The link's own query string then
replaces the computed request parameters.

This project models that decision logic and proves its properties:

- `Values`: decoded JSON, Python truthiness, `dict.get` and `int(...)`.
- `QueryString`: `str.split`, the query part of `urlsplit`, `parse_qsl` and `dict(pairs)`.
- `Client`: `tap_loyaltylion/client.py`. It covers the API root, the credential fallback,
  the headers, and `get_next_page_token` with its `last_id` side effect.
- `Streams`: `tap_loyaltylion/streams.py`. It covers both `get_url_params`, the customers
  window loop as a class method checked against the specification function `Windows`, and
  the transactions cursor back-off.

Timestamps are integers counting microseconds, so an hour is 3 600 000 000. "Now" is a
parameter. A response is its link map plus its decoded body; the body is `None` when it is
not JSON. The SDK's page loop inside one customers window is one opaque step. The model
records that step as the parameters of the window's first request.

Two facts about the code shape the model:

- The first request of each customers window, the one without a page token, sends both
  ends of the window, as `updated_at_min` and `updated_at_max`. Later pages send the query
  of the next link instead. `Window` and `WindowsCover` read a window as `start <= t < end`.
- `url_base` returns `config.get("api_url")` with no default of its own. The default URL
  belongs to the configuration schema in `tap_loyaltylion/tap.py`.

## Model

| member | source | states |
|---|---|---|
| `Client.UrlBase` | tap_loyaltylion/client.py:18-21 | the API root is exactly the configured `api_url`, or None when it is not configured |
| `Client.Setting` | tap_loyaltylion/client.py:36-37 | a setting is read under its own key when that key is present, even with a null value; otherwise under its `ll_` alias; otherwise it is None |
| `Client.Authenticator` | tap_loyaltylion/client.py:27-38 | the username is `username` when that key is present, else `ll_username`, else None; the password follows the same rule with `password` and `ll_password` |
| `Client.HttpHeaders` | tap_loyaltylion/client.py:40-50 | the headers hold `User-Agent` if and only if `user_agent` is configured, with that value, and hold nothing else |
| `Client.NextPageToken` | tap_loyaltylion/client.py:52-62 | there is no token exactly when there is no "next" link or the decoded body is falsy; otherwise the token is the link's URL unchanged; a body that is not JSON raises only when a next link exists |
| `Client.EmptyRecordArrayStillPages` | tap_loyaltylion/client.py:57 | the emptiness test is on the whole body, so an object whose record array is empty still yields the next link |
| `Client.LoyaltyLionStream.GetNextPageToken` | tap_loyaltylion/client.py:52-62 | returns `NextPageToken(response)` whatever the previous token was; sets `last_id` to None exactly when it returns no token; changes nothing else |
| `Values.Get` | tap_loyaltylion/client.py:21 | `d.get(key, default)`: the stored value when the key is present, even a null one, else the default |
| `Values.FalsyValues` | tap_loyaltylion/client.py:57 | a value is falsy exactly when it is null, false, 0, "", [] or {} |
| `QueryString.SplitFirst` | tap_loyaltylion/streams.py:49 | `s.split(c, 1)`: the head holds no `c`; without a tail the head is the whole text; with a tail the text is head, `c`, tail |
| `QueryString.JoinSplit` | tap_loyaltylion/streams.py:49 | joining the pieces of a split on `c` gives back the original text |
| `QueryString.SplitJoin` | tap_loyaltylion/streams.py:49 | splitting a join of pieces that hold no `c` gives back the pieces |
| `QueryString.Split` | tap_loyaltylion/streams.py:49 | `s.split(c)` gives at least one piece, and no piece holds `c` |
| `QueryString.UrlQuery` | tap_loyaltylion/streams.py:49 | `urlsplit(url).query` holds no `#`, and is empty when no `?` comes before the first `#` |
| `QueryString.UrlQueryOf` | tap_loyaltylion/streams.py:49 | the query of `base?query#fragment` is exactly `query`, when `base` holds no `?` or `#` |
| `QueryString.Field` | tap_loyaltylion/streams.py:49 | a piece is dropped exactly when it has no `=` or nothing after its first `=` (the default `keep_blank_values=False`); a kept piece is `name=value` with an `=`-free name |
| `QueryString.Fields` | tap_loyaltylion/streams.py:49 | at most one field per piece; each field has a name without `=` and a non-empty value, and `name=value` is one of the pieces |
| `QueryString.ParseQsl` | tap_loyaltylion/streams.py:49 | every parsed field has a name without `=` or `&` and a non-empty value without `&` |
| `QueryString.FieldsAppend` | tap_loyaltylion/streams.py:49 | the fields of consecutive pieces are the fields of each, in order, so no piece's field is lost or moved |
| `QueryString.ParseQslJoin` | tap_loyaltylion/streams.py:49 | `parse_qsl` of any query, written as its `&`-free pieces, is exactly the fields `Field` keeps from those pieces, in order |
| `QueryString.ParseQslEncode` | tap_loyaltylion/streams.py:49 | `parse_qsl` reads back any list of encodable fields from its `name=value&...` text, in order |
| `QueryString.ToDict` | tap_loyaltylion/streams.py:49 | the keys of `dict(pairs)` are exactly the names that occur in the pairs |
| `QueryString.ToDictLastWins` | tap_loyaltylion/streams.py:49 | for a duplicated name, `dict(pairs)` keeps the value of the last pair with that name |
| `Streams.TokenParams` | tap_loyaltylion/streams.py:49 | every parameter a token carries is text |
| `Streams.TokenParamsOf` | tap_loyaltylion/streams.py:48-49 | for a token `base?query#fragment` whose fields all have a non-empty value, no `&` or `#`, and no `=` in the name, the parameters are exactly the field names, each with the value of its last occurrence |
| `Streams.NoQueryNoParams` | tap_loyaltylion/streams.py:48-49 | a token with no `?` before its fragment carries no parameters at all |
| `Streams.TokenQueryPieces` | tap_loyaltylion/streams.py:49 | the parsed query of any token `base?piece&...#fragment` is exactly the fields kept from its pieces |
| `Streams.TokenParamsOfPieces` | tap_loyaltylion/streams.py:48-49 | for any token `base?piece&...#fragment`, the parameters are exactly the names of the kept fields (blank and valueless pieces dropped), each with the value of its last kept occurrence |
| `Streams.BlankRepeatDropped` | tap_loyaltylion/streams.py:49 | the token `base?name=value&name=` carries only `name`, with the earlier `value`, because the blank repeat is dropped |
| `Streams.SingleFieldParams` | tap_loyaltylion/streams.py:49 | a token whose query parses to one field carries exactly that parameter, as text |
| `Streams.CustomersUrlParams` | tap_loyaltylion/streams.py:33-56 | with a non-empty token the parameters are the token's; without one they are exactly `updated_at_min`/`updated_at_max` from the window fields, `limit` 500 and `sort_field` `updated_at` |
| `Streams.TokenOverridesWindow` | tap_loyaltylion/streams.py:48-49 | with a token the window fields play no part in the customers request |
| `Streams.Windows` | tap_loyaltylion/streams.py:76-87 | the windows are empty exactly when the cursor is at or after now |
| `Streams.WindowsBounded` | tap_loyaltylion/streams.py:76-79 | every window satisfies cursor <= start < end <= now and end - start <= size; the end is clamped to now |
| `Streams.WindowsContiguous` | tap_loyaltylion/streams.py:75-87 | the first window starts at the cursor; each later window starts at the previous window's end; every window but the last is exactly the size; the last ends at now |
| `Streams.WindowsOrdered` | tap_loyaltylion/streams.py:76-87 | every earlier window ends no later than any later one starts, so windows never overlap |
| `Streams.WindowsResume` | tap_loyaltylion/streams.py:83-87 | window `k` starts at window `k - 1`'s end, the last checkpoint before it, and the windows from its start are exactly `ws[k..]`, so a run resumed from that checkpoint walks the remaining windows |
| `Streams.WindowsCover` | tap_loyaltylion/streams.py:76-87 | every instant from the cursor up to now lies in exactly one window, reading a window as `start <= t < end`; the requests send both ends, so if the API treats both as inclusive, a boundary instant is asked for by two windows |
| `Streams.ThreeHourBacklog` | tap_loyaltylion/streams.py:69-87 | a three-hour backlog with one-hour windows gives exactly the three one-hour windows |
| `Streams.TraceShape` | tap_loyaltylion/streams.py:81-86 | per window, the run makes one page fetch, whose first request asks for exactly that window, and then exactly one state message carrying the window's end |
| `Streams.CheckpointsAreEnds` | tap_loyaltylion/streams.py:85-86 | the checkpoints written are the window ends, one per window, in order |
| `Streams.CheckpointsIncrease` | tap_loyaltylion/streams.py:85-87 | the checkpoints strictly increase and lie after the cursor and no later than now; there are none exactly when the cursor is at or after now; the last one is now |
| `Streams.StartingCursor` | tap_loyaltylion/streams.py:70-75 | the cursor is the bookmark when present, else the configured `start_date`; with neither, the date parser fails on "" |
| `Streams.WindowStep` | tap_loyaltylion/streams.py:69 | the window size is `max_fetch_interval` hours, 1 hour by default, and always positive; with zero or fewer hours it is refused |
| `Streams.Plan` | tap_loyaltylion/streams.py:69-76 | a refused interval fails first, then a missing cursor; otherwise the run walks `Windows` from the resolved cursor to now with the resolved size |
| `Streams.NothingToDoAtNow` | tap_loyaltylion/streams.py:76 | a run whose cursor is at or after now has no window and writes no checkpoint |
| `Streams.RerunIsNoOp` | tap_loyaltylion/streams.py:76-87 | re-running from a finished run's checkpoint with the same now does nothing |
| `Streams.AsWrittenNonPositiveIntervalNeverFinishes` | tap_loyaltylion/streams.py:69-87 | as written, an interval of zero or fewer hours never advances the cursor, so the loop guard holds after any number of passes |
| `Streams.CustomersStream.GetRecords` | tap_loyaltylion/streams.py:58-87 | an error stops the run before any window and changes nothing; otherwise the run appends the trace of the planned windows, leaves the last window in the fields, and sets the bookmark to now, or changes nothing when there was no window |
| `Streams.CustomersStream.WalkWindow` | tap_loyaltylion/streams.py:81-86 | one pass sets `start_date` and `end_date` to the window, records one page fetch asking for exactly that window, sets the bookmark to the window's end and then writes one state message carrying it |
| `Streams.CustomersStream.WalkWindows` | tap_loyaltylion/streams.py:76-87 | the loop leaves the state `Walked` describes for `Windows(cursor, now, size)`: its trace appended to the output, with the fields and the bookmark at the last window |
| `Streams.ResolvedSinceId` | tap_loyaltylion/streams.py:123-127 | the transactions cursor is the bookmark when it is truthy, else the configured `since_id` (None when absent) |
| `Streams.TransactionsUrlParams` | tap_loyaltylion/streams.py:104-133 | with a token the parameters are the token's; without one they are exactly `since_id` = int(cursor) - 500 and `limit` 500; the request fails exactly when `int` refuses the cursor, with the same error |
| `Streams.TransactionsFromBookmark` | tap_loyaltylion/streams.py:124-131 | a non-zero numeric bookmark overrides the configuration and is backed off by 500 |
| `Streams.TransactionsFromConfig` | tap_loyaltylion/streams.py:126-131 | a missing, null, zero or empty bookmark falls back to the configured `since_id`, also backed off by 500 |
| `Streams.TransactionsWithoutCursor` | tap_loyaltylion/streams.py:126-130 | with no truthy bookmark and no `since_id`, `int(None)` raises a TypeError |
| `Streams.TransactionsExamples` | tap_loyaltylion/streams.py:119-131 | a bookmark of 1000 asks from 500; no bookmark with a `since_id` of 200 asks from -300 |
| `Values.ParseDecimal` | tap_loyaltylion/streams.py:130 | `ParseDecimal` accepts only an optional sign followed by digits, and gives the digits' value |
| `Values.ToInt` | tap_loyaltylion/streams.py:130 | `int(value)` keeps integers; null, lists and objects raise TypeError; text that is not a number raises ValueError |
| `Values.DecimalRoundTrip` | tap_loyaltylion/streams.py:130 | `int(str(n)) == n`, so a cursor stored as text converts back to its number |

## Findings

| source | as written | input that shows it | evidently intended | confidence | as-written member | corrected member |
|---|---|---|---|---|---|---|
| tap_loyaltylion/streams.py:69-87 | the window end is the cursor plus `max_fetch_interval` hours, and nothing checks that the interval is positive | `max_fetch_interval` = 0 with a cursor before now: the cursor never moves, and the loop goes round forever, calling `_increment_stream_state` and `_write_state_message()` on every pass. A negative interval moves the cursor backwards on each pass and writes ever smaller bookmarks, until the date falls below year 1 and raises OverflowError | windows must move forward, so a non-positive interval should be refused | medium; not executed | `Streams.AsWrittenNonPositiveIntervalNeverFinishes` | `Streams.WindowStep` |

The corrected `WindowStep` is what `Plan` and `CustomersStream.GetRecords` use. A refused
interval stops the run with `NonPositiveInterval` before any window.

## Left out

- HTTP requests, Basic-auth mechanics and the `requests` library: a response is its link
  map and its decoded body. `BasicAuthenticator` itself is not modelled; `Authenticator`
  gives only the credentials it is created with.
- The SDK's page loop inside a customers window is one opaque step. The model records it
  with the parameters of its first request. The pages it fetches, the records it yields,
  the per-record state increments, and the `last_id` updates made while paging are not
  modelled.
- `_increment_stream_state` and `_write_state_message`: setting the bookmark to `end_date`
  models the increment, and a state message carrying the bookmark models the write. The
  SDK's message format is not modelled.
- `STATE_MSG_FREQUENCY`, and the SDK's own state-message cadence that it suppresses, are SDK
  code and are not part of this model.
- `Streams.CustomersStream.WalkWindows`: the page step cannot fail in the model. In the source,
  `super().get_records(context)` can raise (an HTTP error, for one), which ends the run
  after that window's fetch; that window gets no checkpoint, so the last checkpoint is the
  previous window's end. `WindowsResume` states which windows a run resumed from there walks.
- Date parsing, ISO-8601 formatting, time zones and `datetime.now()`: timestamps are
  integers and now is a parameter. The configured `start_date` arrives already parsed, and
  parser failures other than the missing cursor are not modelled. In particular, a
  `start_date` or bookmark written without a UTC offset parses as a naive datetime, and
  comparing it with the aware `datetime.now(timezone.utc)` in the loop guard
  (`min_date < current_date`) raises TypeError before any window; the model has no such
  failure.
- `float(max_fetch_interval)`: the setting is an integer number of hours, as the
  configuration schema declares. Fractional hours are not modelled.
- A `max_fetch_interval` of zero or less: as a Finding, the as-written cursor is shown never
  to pass its start. With zero the source loops forever. With a negative value it walks
  backwards until the date range underflows (see the next line). The model refuses such a
  value instead.
- Python datetimes only run from year 1 to year 9999. Past those bounds,
  `min_date + timedelta(...)` raises OverflowError. The model's integer timestamps are
  unbounded. So the model does not capture two source behaviours. A huge
  `max_fetch_interval` (such as 100 000 000 hours) stops the source on its first pass,
  before any window field is set; the model instead gives one window ending at now. A
  negative interval ends in that OverflowError; the model refuses the interval.
- A `max_fetch_interval` that is present with a null value makes `float(None)` raise
  TypeError. The model's `Option<int>` can only mean "absent", and then the model uses
  1 hour.
- `urlsplit`'s validation of the network location raises ValueError, which the model does
  not: for example "Invalid IPv6 URL" for an unmatched `[` or `]`, and, depending on the
  Python version, a bracketed host that is not an IP address or a non-ASCII host that
  NFKC-normalises to one of `/?#@:`. `UrlQuery` and `TokenParams` return parameters for
  such a token instead.
- `parse_qsl` percent-decoding and `+`-as-space: fields are kept as written. Python's
  removal of tab, CR and LF from URLs in `urlsplit` is not modelled either.
- Python dict ordering: parameters are maps, so the order of the query fields is not
  modelled.
- `Values.ParseDecimal`, `Values.ToInt`: Python's `int(text)` accepts surrounding whitespace, underscores between digits and non-ASCII
  digits; `ParseDecimal` accepts only ASCII digits with an optional sign. JSON floating-point
  numbers are not modelled.
- `parse_response` and its JSON-path extraction are library code. The JSON schema files
  are not modelled.
- `tap_loyaltylion/tap.py` holds only the configuration schema, the stream list and the
  command-line entry point, so it is not modelled.
- Logging calls are not modelled.
