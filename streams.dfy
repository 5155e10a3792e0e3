/**
 * The two streams of tap_loyaltylion/streams.py: the customers stream, which walks from its
 * cursor to "now" in bounded time windows and checkpoints after each one, and the
 * transactions stream, which asks for everything since its cursor minus a fixed back-off.
 *
 * Timestamps are integers counting microseconds; "now" is a parameter. The SDK's page loop
 * inside one window is a single opaque step, recorded with the parameters of its first request.
 */
module Streams {
  import opened Wrappers
  import opened Values
  import opened QueryString

  /** A request parameter value. */
  datatype Param = Text(s: string) | Number(n: int) | Timestamp(t: int) | NoValue

  /** The page size both streams ask for. */
  const PageLimit := 500
  /** How far below its cursor the transactions stream starts. */
  const SinceIdBackOff := 500
  /** The customers window size when `max_fetch_interval` is not configured, in hours. */
  const DefaultIntervalHours := 1
  const MicrosPerHour := 3_600_000_000

  /** `if next_page_token:` -- a token is used only when it is a non-empty text. */
  predicate TokenPresent(token: Option<string>) {
    token.Some? && token.value != ""
  }

  /** The parameters a token carries: `dict(parse_qsl(urlsplit(token).query))`. */
  function TokenParams(url: string): (r: map<string, Param>)
    ensures forall k :: k in r ==> r[k].Text?
  {
    var d := ToDict(ParseQsl(UrlQuery(url)));
    map k | k in d :: Text(d[k])
  }

  /** A token with no `?` before its fragment has an empty query, so it carries no parameters. */
  lemma NoQueryNoParams(url: string)
    requires '?' !in SplitFirst(url, '#').0
    ensures TokenParams(url) == map[]
  {
  }

  /**
   * A token `base?name=value&...#fragment` yields exactly the names of its fields, each with
   * the value of its last field of that name.
   */
  lemma TokenParamsOf(base: string, ps: seq<Pair>, fragment: Option<string>, url: string)
    requires '?' !in base && '#' !in base
    requires forall i :: 0 <= i < |ps| ==> Encodable(ps[i])
    requires url == base + "?" + Encode(ps) + (if fragment.Some? then "#" + fragment.value else "")
    ensures forall k :: k in TokenParams(url) <==> Named(ps, k)
    ensures forall i :: 0 <= i < |ps| && (forall j :: i < j < |ps| ==> ps[j].0 != ps[i].0) ==>
      ps[i].0 in TokenParams(url) && TokenParams(url)[ps[i].0] == Text(ps[i].1)
  {
    TokenQueryFields(base, ps, fragment, url);
    forall i | 0 <= i < |ps| && (forall j :: i < j < |ps| ==> ps[j].0 != ps[i].0)
      ensures ToDict(ps)[ps[i].0] == ps[i].1
    {
      ToDictLastWins(ps, i);
    }
  }

  /** The query of such a token reads back as its fields. */
  lemma TokenQueryFields(base: string, ps: seq<Pair>, fragment: Option<string>, url: string)
    requires '?' !in base && '#' !in base
    requires forall i :: 0 <= i < |ps| ==> Encodable(ps[i])
    requires url == base + "?" + Encode(ps) + (if fragment.Some? then "#" + fragment.value else "")
    ensures ParseQsl(UrlQuery(url)) == ps
  {
    EncodeHasNo(ps, '#');
    UrlQueryOf(base, Encode(ps), fragment);
    ParseQslEncode(ps);
  }

  /**
   * Any token `base?piece&piece...#fragment`: its parameters are the names of the fields
   * `Field` keeps from the pieces (blank and valueless pieces are dropped), each with the value
   * of the last kept field of that name.
   */
  lemma TokenParamsOfPieces(base: string, pieces: seq<string>, fragment: Option<string>, url: string, fs: seq<Pair>)
    requires '?' !in base && '#' !in base
    requires forall i :: 0 <= i < |pieces| ==> '&' !in pieces[i] && '#' !in pieces[i]
    requires url == base + "?" + Join(pieces, '&') + (if fragment.Some? then "#" + fragment.value else "")
    requires fs == Fields(pieces)
    ensures forall k :: k in TokenParams(url) <==> Named(fs, k)
    ensures forall i :: 0 <= i < |fs| && (forall j :: i < j < |fs| ==> fs[j].0 != fs[i].0) ==>
      fs[i].0 in TokenParams(url) && TokenParams(url)[fs[i].0] == Text(fs[i].1)
  {
    TokenQueryPieces(base, pieces, fragment, url);
    forall i | 0 <= i < |fs| && (forall j :: i < j < |fs| ==> fs[j].0 != fs[i].0)
      ensures ToDict(fs)[fs[i].0] == fs[i].1
    {
      ToDictLastWins(fs, i);
    }
  }

  /** The query of any such token reads back as the fields kept from its pieces. */
  lemma TokenQueryPieces(base: string, pieces: seq<string>, fragment: Option<string>, url: string)
    requires '?' !in base && '#' !in base
    requires forall i :: 0 <= i < |pieces| ==> '&' !in pieces[i] && '#' !in pieces[i]
    requires url == base + "?" + Join(pieces, '&') + (if fragment.Some? then "#" + fragment.value else "")
    ensures ParseQsl(UrlQuery(url)) == Fields(pieces)
  {
    JoinHasNo(pieces, '&', '#');
    UrlQueryOf(base, Join(pieces, '&'), fragment);
    ParseQslJoin(pieces);
  }

  /**
   * A blank repeat of a field is dropped, so the earlier value stays: the token
   * `base?name=value&name=` carries `name` with `value`, and nothing else.
   */
  lemma BlankRepeatDropped(base: string, name: string, value: string, url: string)
    requires '?' !in base && '#' !in base
    requires Encodable((name, value))
    requires url == base + "?" + name + "=" + value + "&" + name + "="
    ensures TokenParams(url) == map[name := Text(value)]
  {
    var pieces := [name + "=" + value, name + "="];
    BlankRepeatPieces(name, value, pieces);
    BlankRepeatJoin(base, name, value, url, pieces);
    BlankRepeatFields(name, value, pieces);
    assert url == base + "?" + Join(pieces, '&') + "";
    TokenQueryPieces(base, pieces, None, url);
    SingleFieldParams(url, name, value);
  }

  lemma BlankRepeatPieces(name: string, value: string, pieces: seq<string>)
    requires Encodable((name, value))
    requires pieces == [name + "=" + value, name + "="]
    ensures forall i :: 0 <= i < |pieces| ==> '&' !in pieces[i] && '#' !in pieces[i]
  {
  }

  lemma BlankRepeatJoin(base: string, name: string, value: string, url: string, pieces: seq<string>)
    requires url == base + "?" + name + "=" + value + "&" + name + "="
    requires pieces == [name + "=" + value, name + "="]
    ensures url == base + "?" + Join(pieces, '&')
  {
    assert pieces[1..] == [pieces[1]];
    assert Join(pieces, '&') == pieces[0] + ['&'] + pieces[1];
  }

  lemma BlankRepeatFields(name: string, value: string, pieces: seq<string>)
    requires Encodable((name, value))
    requires pieces == [name + "=" + value, name + "="]
    ensures Fields(pieces) == [(name, value)]
  {
    SplitFirstAt(name, '=', value);
    SplitFirstAt(name, '=', "");
    assert pieces[1] == name + ['='] + "";
    assert Field(pieces[1]) == [];
    assert Field(pieces[0]) == [(name, value)];
    assert Fields(pieces[1..]) == Field(pieces[1]) + Fields([]);
  }

  /** A token whose query holds a single field carries exactly that parameter. */
  lemma SingleFieldParams(url: string, name: string, value: string)
    requires ParseQsl(UrlQuery(url)) == [(name, value)]
    ensures TokenParams(url) == map[name := Text(value)]
  {
    var fs := [(name, value)];
    assert fs[..0] == [];
    assert ToDict(fs) == map[name := value];
  }

  /** A character no field holds is not in the encoded query. */
  lemma {:induction false} EncodeHasNo(ps: seq<Pair>, c: char)
    requires c != '&' && c != '='
    requires forall i :: 0 <= i < |ps| ==> c !in ps[i].0 && c !in ps[i].1
    ensures c !in Encode(ps)
  {
    if |ps| > 1 {
      EncodeHasNo(ps[1..], c);
      assert Assignments(ps)[1..] == Assignments(ps[1..]);
    }
  }

  function TimeParam(t: Option<int>): Param {
    if t.Some? then Timestamp(t.value) else NoValue
  }

  /**
   * `CustomersStream.get_url_params`: the token's own parameters when there is a token,
   * otherwise the window bounds with the fixed page size and sort field.
   */
  function CustomersUrlParams(token: Option<string>, startDate: Option<int>, endDate: Option<int>): (r: map<string, Param>)
    ensures TokenPresent(token) ==> r == TokenParams(token.value)
    ensures !TokenPresent(token) ==>
      && r.Keys == {"updated_at_min", "updated_at_max", "limit", "sort_field"}
      && r["updated_at_min"] == TimeParam(startDate) && r["updated_at_max"] == TimeParam(endDate)
      && r["limit"] == Number(PageLimit) && r["sort_field"] == Text("updated_at")
  {
    if TokenPresent(token) then TokenParams(token.value)
    else
      map["updated_at_min" := TimeParam(startDate), "updated_at_max" := TimeParam(endDate),
          "limit" := Number(PageLimit), "sort_field" := Text("updated_at")]
  }

  /** With a token the window fields play no part in the request. */
  lemma TokenOverridesWindow(token: Option<string>, s1: Option<int>, e1: Option<int>, s2: Option<int>, e2: Option<int>)
    requires TokenPresent(token)
    ensures CustomersUrlParams(token, s1, e1) == CustomersUrlParams(token, s2, e2)
  {
  }

  // ---------------------------------------------------------------- customers windows

  /** One customers query window, from `start` to `end`. */
  datatype Window = Window(start: int, end: int)

  /**
   * The windows the customers loop walks through from `cursor`: each ends `step` after its
   * start, or at `now` if that comes first, and the next begins where it ends.
   */
  function Windows(cursor: int, now: int, step: int): (ws: seq<Window>)
    requires step > 0
    ensures ws == [] <==> cursor >= now
    decreases now - cursor
  {
    if cursor >= now then []
    else
      var stop := if cursor + step > now then now else cursor + step;
      [Window(cursor, stop)] + Windows(stop, now, step)
  }

  /** Every window is non-empty, no wider than `step`, and lies between the cursor and now. */
  lemma {:induction false} WindowsBounded(cursor: int, now: int, step: int, ws: seq<Window>)
    requires step > 0 && ws == Windows(cursor, now, step)
    ensures forall i :: 0 <= i < |ws| ==>
      cursor <= ws[i].start < ws[i].end <= now && ws[i].end - ws[i].start <= step
    decreases now - cursor
  {
    if cursor < now {
      var stop := if cursor + step > now then now else cursor + step;
      var rest := Windows(stop, now, step);
      WindowsBounded(stop, now, step, rest);
      assert ws == [Window(cursor, stop)] + rest;
      assert forall i :: 1 <= i < |ws| ==> ws[i] == rest[i - 1];
    }
  }

  /**
   * The windows are contiguous: the first starts at the cursor, each later one starts where
   * the previous ended, every window but the last is exactly `step` wide, and the last ends at now.
   */
  lemma {:induction false} WindowsContiguous(cursor: int, now: int, step: int, ws: seq<Window>)
    requires step > 0 && ws == Windows(cursor, now, step)
    ensures ws != [] ==> ws[0].start == cursor && ws[|ws| - 1].end == now
    ensures forall i :: 0 <= i < |ws| - 1 ==> ws[i + 1].start == ws[i].end && ws[i].end - ws[i].start == step
    decreases now - cursor
  {
    if cursor < now {
      var stop := if cursor + step > now then now else cursor + step;
      var rest := Windows(stop, now, step);
      WindowsContiguous(stop, now, step, rest);
      assert ws == [Window(cursor, stop)] + rest;
      if rest != [] {
        assert stop < now;
        assert forall i :: 1 <= i < |ws| ==> ws[i] == rest[i - 1];
      }
    }
  }

  /** Windows never overlap: an earlier window ends no later than a later one starts. */
  lemma {:induction false} WindowsOrdered(cursor: int, now: int, step: int, ws: seq<Window>)
    requires step > 0 && ws == Windows(cursor, now, step)
    ensures forall i, j :: 0 <= i < j < |ws| ==> ws[i].end <= ws[j].start
    decreases now - cursor
  {
    if cursor < now {
      var stop := if cursor + step > now then now else cursor + step;
      var rest := Windows(stop, now, step);
      WindowsOrdered(stop, now, step, rest);
      WindowsBounded(stop, now, step, rest);
      assert ws == [Window(cursor, stop)] + rest;
      assert forall i :: 1 <= i < |ws| ==> ws[i] == rest[i - 1];
    }
  }

  /**
   * The windows from the start of any window are exactly the remaining ones: a run that stops
   * after its last checkpoint, the end of window `k - 1`, and resumes from there walks `ws[k..]`.
   */
  lemma {:induction false} WindowsResume(cursor: int, now: int, step: int, ws: seq<Window>, k: nat)
    requires step > 0 && ws == Windows(cursor, now, step)
    requires k < |ws|
    ensures k > 0 ==> ws[k].start == ws[k - 1].end
    ensures Windows(ws[k].start, now, step) == ws[k..]
    decreases k
  {
    var stop := if cursor + step > now then now else cursor + step;
    var rest := Windows(stop, now, step);
    assert ws == [Window(cursor, stop)] + rest;
    if k > 0 {
      WindowsResume(stop, now, step, rest, k - 1);
      assert ws[k] == rest[k - 1];
      assert ws[k..] == rest[k - 1..];
      if k > 1 {
        assert ws[k - 1] == rest[k - 2];
      }
    }
  }

  /**
   * Every instant from the cursor up to now falls in exactly one window, reading a window as
   * `start <= t < end`. The requests carry both ends as `updated_at_min` and `updated_at_max`,
   * so if the API treats both bounds as inclusive, a boundary instant is asked for by two windows.
   */
  lemma {:induction false} WindowsCover(cursor: int, now: int, step: int, ws: seq<Window>, t: int)
    requires step > 0 && ws == Windows(cursor, now, step)
    requires cursor <= t < now
    ensures exists i :: 0 <= i < |ws| && ws[i].start <= t < ws[i].end
    ensures forall i, j :: 0 <= i < |ws| && 0 <= j < |ws| && ws[i].start <= t < ws[i].end && ws[j].start <= t < ws[j].end ==> i == j
    decreases now - cursor
  {
    var stop := if cursor + step > now then now else cursor + step;
    var rest := Windows(stop, now, step);
    assert ws == [Window(cursor, stop)] + rest;
    if t >= stop {
      WindowsCover(stop, now, step, rest, t);
      var k :| 0 <= k < |rest| && rest[k].start <= t < rest[k].end;
      assert ws[k + 1] == rest[k];
    } else {
      assert ws[0].start <= t < ws[0].end;
    }
    WindowsOrdered(cursor, now, step, ws);
    WindowsBounded(cursor, now, step, ws);
  }

  /** A backlog of three hours with one-hour windows gives exactly three one-hour windows. */
  lemma ThreeHourBacklog(now: int)
    ensures Windows(now - 3 * MicrosPerHour, now, MicrosPerHour) ==
      [Window(now - 3 * MicrosPerHour, now - 2 * MicrosPerHour),
       Window(now - 2 * MicrosPerHour, now - MicrosPerHour),
       Window(now - MicrosPerHour, now)]
  {
    var h := MicrosPerHour;
    assert Windows(now, now, h) == [];
    assert Windows(now - h, now, h) == [Window(now - h, now)] + Windows(now, now, h);
    assert Windows(now - 2 * h, now, h) == [Window(now - 2 * h, now - h)] + Windows(now - h, now, h);
    assert Windows(now - 3 * h, now, h) == [Window(now - 3 * h, now - 2 * h)] + Windows(now - 2 * h, now, h);
  }

  // ---------------------------------------------------------------- what a run emits

  /**
   * What the customers stream sends out: the SDK's page loop for a window, shown by the
   * parameters of its first request, and a state message carrying the bookmark.
   */
  datatype Message = Fetch(params: map<string, Param>) | StateMessage(bookmark: int)

  /** One window's output: its pages, then the checkpoint at the window's end. */
  function WindowTrace(w: Window): seq<Message> {
    [Fetch(CustomersUrlParams(None, Some(w.start), Some(w.end))), StateMessage(w.end)]
  }

  /** The output of a run over the windows `ws`, in order. */
  function Trace(ws: seq<Window>): seq<Message> {
    if ws == [] then [] else Trace(ws[..|ws| - 1]) + WindowTrace(ws[|ws| - 1])
  }

  /**
   * Each window contributes one page fetch, whose first request asks for exactly that window,
   * followed by exactly one state message carrying the window's end.
   */
  lemma {:induction false} TraceShape(ws: seq<Window>)
    ensures |Trace(ws)| == 2 * |ws|
    ensures forall i :: 0 <= i < |ws| ==>
      && Trace(ws)[2 * i] == Fetch(CustomersUrlParams(None, Some(ws[i].start), Some(ws[i].end)))
      && Trace(ws)[2 * i + 1] == StateMessage(ws[i].end)
  {
    if ws != [] {
      var init := ws[..|ws| - 1];
      TraceShape(init);
      assert forall i :: 0 <= i < |init| ==> init[i] == ws[i];
    }
  }

  /** One more pass of the loop moves one window from the rest of the plan to the done part. */
  lemma WindowsAdvance(plan: seq<Window>, done: seq<Window>, cursor: int, now: int, step: int)
    requires step > 0 && cursor < now
    requires plan == done + Windows(cursor, now, step)
    ensures var stop := if cursor + step > now then now else cursor + step;
      plan == (done + [Window(cursor, stop)]) + Windows(stop, now, step)
  {
  }

  lemma TraceSnoc(ws: seq<Window>, w: Window)
    ensures Trace(ws + [w]) == Trace(ws) + WindowTrace(w)
  {
    assert (ws + [w])[..|ws|] == ws;
  }

  /** The bookmarks of the state messages, in the order they are written. */
  function Checkpoints(msgs: seq<Message>): seq<int> {
    if msgs == [] then []
    else (if msgs[0].StateMessage? then [msgs[0].bookmark] else []) + Checkpoints(msgs[1..])
  }

  lemma {:induction false} CheckpointsAppend(a: seq<Message>, b: seq<Message>)
    ensures Checkpoints(a + b) == Checkpoints(a) + Checkpoints(b)
  {
    if a != [] {
      assert (a + b)[0] == a[0];
      assert (a + b)[1..] == a[1..] + b;
      CheckpointsAppend(a[1..], b);
    } else {
      assert a + b == b;
    }
  }

  /** The checkpoints of a run are the windows' ends, one per window. */
  lemma {:induction false} CheckpointsAreEnds(ws: seq<Window>)
    ensures |Checkpoints(Trace(ws))| == |ws|
    ensures forall i :: 0 <= i < |ws| ==> Checkpoints(Trace(ws))[i] == ws[i].end
  {
    if ws != [] {
      var init := ws[..|ws| - 1];
      var w := ws[|ws| - 1];
      CheckpointsAreEnds(init);
      CheckpointsAppend(Trace(init), WindowTrace(w));
      var tail := [StateMessage(w.end)];
      assert Checkpoints(tail) == [w.end] by {
        assert tail[1..] == [];
      }
      assert WindowTrace(w)[1..] == tail;
      assert Checkpoints(WindowTrace(w)) == [w.end];
      assert forall i :: 0 <= i < |init| ==> init[i] == ws[i];
    }
  }

  /**
   * The checkpoints of a run are strictly increasing, all past the starting cursor, and the
   * last one is now.
   */
  lemma CheckpointsIncrease(cursor: int, now: int, step: int, cps: seq<int>)
    requires step > 0 && cps == Checkpoints(Trace(Windows(cursor, now, step)))
    ensures forall i, j :: 0 <= i < j < |cps| ==> cps[i] < cps[j]
    ensures forall i :: 0 <= i < |cps| ==> cursor < cps[i] <= now
    ensures cps == [] <==> cursor >= now
    ensures cps != [] ==> cps[|cps| - 1] == now
  {
    var ws := Windows(cursor, now, step);
    CheckpointsAreEnds(ws);
    WindowsBounded(cursor, now, step, ws);
    WindowsOrdered(cursor, now, step, ws);
    WindowsContiguous(cursor, now, step, ws);
  }

  // ---------------------------------------------------------------- customers run

  /** The starting cursor: the bookmark when there is one, else the configured start date. */
  function StartingCursor(bookmark: Option<int>, startDateSetting: Option<int>): (r: Result<int, Error>)
    ensures bookmark.Some? ==> r == Success(bookmark.value)
    ensures bookmark.None? && startDateSetting.Some? ==> r == Success(startDateSetting.value)
    ensures bookmark.None? && startDateSetting.None? ==> r == Failure(ParserError)
  {
    if bookmark.Some? then Success(bookmark.value)
    else if startDateSetting.Some? then Success(startDateSetting.value)
    else Failure(ParserError)
  }

  /**
   * The window size in microseconds: `max_fetch_interval` hours, one hour by default.
   * Zero or fewer hours is refused (see `AsWrittenNonPositiveIntervalNeverFinishes`).
   */
  function WindowStep(maxFetchInterval: Option<int>): (r: Result<int, Error>)
    ensures r.Success? ==> r.value > 0
    ensures maxFetchInterval.None? ==> r == Success(DefaultIntervalHours * MicrosPerHour)
    ensures maxFetchInterval.Some? && maxFetchInterval.value > 0 ==> r == Success(maxFetchInterval.value * MicrosPerHour)
    ensures maxFetchInterval.Some? && maxFetchInterval.value <= 0 ==> r == Failure(NonPositiveInterval)
  {
    var hours := maxFetchInterval.GetOr(DefaultIntervalHours);
    if hours <= 0 then Failure(NonPositiveInterval) else Success(hours * MicrosPerHour)
  }

  /** The windows a customers run walks through, or the error it stops with before any window. */
  function Plan(bookmark: Option<int>, startDateSetting: Option<int>, maxFetchInterval: Option<int>, now: int): (r: Result<seq<Window>, Error>)
    ensures WindowStep(maxFetchInterval).Failure? ==> r == Failure(WindowStep(maxFetchInterval).error)
    ensures WindowStep(maxFetchInterval).Success? && StartingCursor(bookmark, startDateSetting).Failure? ==>
      r == Failure(StartingCursor(bookmark, startDateSetting).error)
    ensures WindowStep(maxFetchInterval).Success? && StartingCursor(bookmark, startDateSetting).Success? ==>
      r == Success(Windows(StartingCursor(bookmark, startDateSetting).value, now, WindowStep(maxFetchInterval).value))
  {
    var step :- WindowStep(maxFetchInterval);
    var cursor :- StartingCursor(bookmark, startDateSetting);
    Success(Windows(cursor, now, step))
  }

  /** A run that starts at or after now has no windows and writes no checkpoint. */
  lemma NothingToDoAtNow(bookmark: Option<int>, startDateSetting: Option<int>, maxFetchInterval: Option<int>, now: int)
    requires WindowStep(maxFetchInterval).Success?
    requires StartingCursor(bookmark, startDateSetting).Success?
    requires StartingCursor(bookmark, startDateSetting).value >= now
    ensures Plan(bookmark, startDateSetting, maxFetchInterval, now) == Success([])
  {
  }

  /** Re-running from the checkpoint of a finished run, with the same now, does nothing. */
  lemma RerunIsNoOp(startDateSetting: Option<int>, maxFetchInterval: Option<int>, now: int)
    requires WindowStep(maxFetchInterval).Success?
    ensures Plan(Some(now), startDateSetting, maxFetchInterval, now) == Success([])
  {
  }

  // ---------------------------------------------------------------- the loop as written

  /** The cursor update of the loop as written, for any hour count: `min(cursor + hours, now)`. */
  function AsWrittenNextCursor(cursor: int, hours: int, now: int): int {
    var updatedAtMax := cursor + hours * MicrosPerHour;
    if updatedAtMax > now then now else updatedAtMax
  }

  /** The cursor of the loop as written after `n` more passes (or when its guard fails). */
  function AsWrittenCursorAfter(cursor: int, hours: int, now: int, n: nat): int
    decreases n
  {
    if n == 0 || cursor >= now then cursor
    else AsWrittenCursorAfter(AsWrittenNextCursor(cursor, hours, now), hours, now, n - 1)
  }

  /**
   * With a `max_fetch_interval` of zero or fewer hours the loop as written never reaches now:
   * after any number of passes the cursor has not moved forward, so the guard still holds.
   */
  lemma {:induction false} AsWrittenNonPositiveIntervalNeverFinishes(cursor: int, hours: int, now: int, n: nat)
    requires hours <= 0 && cursor < now
    ensures AsWrittenCursorAfter(cursor, hours, now, n) <= cursor < now
    decreases n
  {
    if n > 0 {
      var next := AsWrittenNextCursor(cursor, hours, now);
      assert next <= cursor;
      AsWrittenNonPositiveIntervalNeverFinishes(next, hours, now, n - 1);
    }
  }

  /** The customers stream: its window fields, its bookmark, and what it has sent out. */
  class CustomersStream {
    /** The configured `start_date`, parsed. */
    const startDateSetting: Option<int>
    /** The configured `max_fetch_interval`, in hours. */
    const maxFetchInterval: Option<int>
    /** The bounds of the current window, read by the request parameters. */
    var startDate: Option<int>
    var endDate: Option<int>
    /** The stream state's `replication_key_value`. */
    var bookmark: Option<int>
    /** Page fetches and state messages, in the order they happened. */
    var output: seq<Message>

    constructor (startDateSetting: Option<int>, maxFetchInterval: Option<int>, bookmark: Option<int>)
      ensures this.startDateSetting == startDateSetting && this.maxFetchInterval == maxFetchInterval
      ensures this.bookmark == bookmark
      ensures startDate == None && endDate == None && output == []
    {
      this.startDateSetting := startDateSetting;
      this.maxFetchInterval := maxFetchInterval;
      this.bookmark := bookmark;
      startDate, endDate, output := None, None, [];
    }

    /**
     * `get_records`: resolves the window size and the starting cursor, then walks the windows
     * of `Plan` to `now`; a refused interval or a missing cursor stops it before any window.
     */
    method GetRecords(now: int) returns (failure: Option<Error>)
      modifies this
      ensures Plan(old(bookmark), startDateSetting, maxFetchInterval, now).Failure? ==>
        && failure == Some(Plan(old(bookmark), startDateSetting, maxFetchInterval, now).error)
        && output == old(output) && bookmark == old(bookmark)
        && startDate == old(startDate) && endDate == old(endDate)
      ensures Plan(old(bookmark), startDateSetting, maxFetchInterval, now).Success? ==>
        && failure == None
        && Walked(Plan(old(bookmark), startDateSetting, maxFetchInterval, now).value,
                  old(output), old(bookmark), old(startDate), old(endDate), now)
    {
      var stepResult := WindowStep(maxFetchInterval);
      if stepResult.Failure? {
        return Some(stepResult.error);
      }
      var cursorResult := StartingCursor(bookmark, startDateSetting);
      if cursorResult.Failure? {
        return Some(cursorResult.error);
      }
      assert Plan(bookmark, startDateSetting, maxFetchInterval, now)
        == Success(Windows(cursorResult.value, now, stepResult.value));
      WalkWindows(cursorResult.value, stepResult.value, now);
      return None;
    }

    /**
     * The state after walking the windows `ws` from the given earlier state: their trace
     * appended to the output and, unless there were none, the last window in the fields and
     * the bookmark at now.
     */
    ghost predicate Walked(ws: seq<Window>, output0: seq<Message>, bookmark0: Option<int>,
                           startDate0: Option<int>, endDate0: Option<int>, now: int)
      reads this
    {
      && output == output0 + Trace(ws)
      && (ws == [] ==> bookmark == bookmark0 && startDate == startDate0 && endDate == endDate0)
      && (ws != [] ==> bookmark == Some(now) && endDate == Some(now) && startDate == Some(ws[|ws| - 1].start))
    }

    /**
     * One pass of the loop: set the window fields, run the window's pages (recorded as one fetch
     * with the first request's parameters), set the bookmark to the window's end, write a state
     * message.
     */
    method WalkWindow(w: Window)
      modifies this
      ensures startDate == Some(w.start) && endDate == Some(w.end) && bookmark == Some(w.end)
      ensures output == old(output) + WindowTrace(w)
    {
      startDate := Some(w.start);
      endDate := Some(w.end);
      output := output + [Fetch(CustomersUrlParams(None, startDate, endDate))];
      bookmark := endDate;
      output := output + [StateMessage(w.end)];
    }

    /**
     * The `while min_date < current_date` loop: for each window, set the window fields, run
     * the window's pages, set the bookmark to the window's end and write a state message.
     */
    method WalkWindows(cursor: int, step: int, now: int)
      requires step > 0
      modifies this
      ensures Walked(Windows(cursor, now, step), old(output), old(bookmark), old(startDate), old(endDate), now)
    {
      var minDate := cursor;
      ghost var done: seq<Window> := [];
      while minDate < now
        invariant Windows(cursor, now, step) == done + Windows(minDate, now, step)
        invariant Walked(done, old(output), old(bookmark), old(startDate), old(endDate), minDate)
        invariant done == [] ==> minDate == cursor
        invariant done != [] ==> minDate <= now
        decreases now - minDate
      {
        var updatedAtMax := minDate + step;
        if updatedAtMax > now {
          updatedAtMax := now;
        }
        var w := Window(minDate, updatedAtMax);
        WindowsAdvance(Windows(cursor, now, step), done, minDate, now, step);
        WalkWindow(w);
        TraceSnoc(done, w);
        done := done + [w];
        minDate := updatedAtMax;
      }
      assert done == Windows(cursor, now, step);
    }
  }

  // ---------------------------------------------------------------- transactions

  /** The transactions cursor: the bookmark when it is truthy, else the configured `since_id`. */
  function ResolvedSinceId(state: map<string, Json>, config: map<string, Json>): (r: Json)
    ensures Truthy(Get(state, "replication_key_value", Null)) ==> r == state["replication_key_value"]
    ensures !Truthy(Get(state, "replication_key_value", Null)) ==> r == Get(config, "since_id", Null)
  {
    var lastUpdated := Get(state, "replication_key_value", Null);
    if Truthy(lastUpdated) then lastUpdated else Get(config, "since_id", Null)
  }

  /**
   * `TransactionsStream.get_url_params`: the token's own parameters when there is a token,
   * otherwise `since_id` 500 below the resolved cursor and the fixed page size; a cursor
   * that `int()` refuses raises.
   */
  function TransactionsUrlParams(token: Option<string>, state: map<string, Json>, config: map<string, Json>): (r: Result<map<string, Param>, Error>)
    ensures TokenPresent(token) ==> r == Success(TokenParams(token.value))
    ensures !TokenPresent(token) ==> (r.Failure? <==> ToInt(ResolvedSinceId(state, config)).Failure?)
    ensures !TokenPresent(token) && r.Failure? ==> r.error == ToInt(ResolvedSinceId(state, config)).error
    ensures !TokenPresent(token) && r.Success? ==>
      && r.value.Keys == {"since_id", "limit"}
      && r.value["since_id"] == Number(ToInt(ResolvedSinceId(state, config)).value - SinceIdBackOff)
      && r.value["limit"] == Number(PageLimit)
  {
    if TokenPresent(token) then Success(TokenParams(token.value))
    else
      var sinceId :- ToInt(ResolvedSinceId(state, config));
      Success(map["since_id" := Number(sinceId - SinceIdBackOff), "limit" := Number(PageLimit)])
  }

  /** A non-zero numeric bookmark wins over the configuration and is backed off by 500. */
  lemma TransactionsFromBookmark(state: map<string, Json>, config: map<string, Json>, b: int)
    requires "replication_key_value" in state && state["replication_key_value"] == Int(b) && b != 0
    ensures TransactionsUrlParams(None, state, config) ==
      Success(map["since_id" := Number(b - SinceIdBackOff), "limit" := Number(PageLimit)])
  {
  }

  /** A missing, null, zero or empty bookmark falls back to the configured `since_id`, also backed off. */
  lemma TransactionsFromConfig(state: map<string, Json>, config: map<string, Json>, c: int)
    requires !Truthy(Get(state, "replication_key_value", Null))
    requires "since_id" in config && config["since_id"] == Int(c)
    ensures TransactionsUrlParams(None, state, config) ==
      Success(map["since_id" := Number(c - SinceIdBackOff), "limit" := Number(PageLimit)])
  {
  }

  /** With neither a truthy bookmark nor a `since_id`, `int(None)` raises. */
  lemma TransactionsWithoutCursor(state: map<string, Json>, config: map<string, Json>)
    requires !Truthy(Get(state, "replication_key_value", Null))
    requires "since_id" !in config
    ensures TransactionsUrlParams(None, state, config) == Failure(TypeError)
  {
  }

  /** A bookmark of 1000 asks from 500; no bookmark and a `since_id` of 200 asks from -300. */
  lemma TransactionsExamples()
    ensures TransactionsUrlParams(None, map["replication_key_value" := Int(1000)], map[]).value["since_id"] == Number(500)
    ensures TransactionsUrlParams(None, map[], map["since_id" := Int(200)]).value["since_id"] == Number(-300)
  {
  }
}
