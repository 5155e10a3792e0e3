/**
 * How a pagination token (a full "next" URL) becomes request parameters:
 * `dict(parse_qsl(urlsplit(token).query))`. Percent-decoding and the `+`-to-space
 * rewrite of `parse_qsl` are not modelled; names and values are kept as written.
 */
module QueryString {
  import opened Wrappers

  /** A query field: its name and its value. */
  type Pair = (string, string)

  /** Python's `s.split(c, 1)`: the text before the first `c`, and the text after it if there is a `c`. */
  function SplitFirst(s: string, c: char): (r: (string, Option<string>))
    ensures c !in r.0
    ensures r.1.None? ==> r.0 == s
    ensures r.1.Some? ==> s == r.0 + [c] + r.1.value
  {
    if s == [] then ([], None)
    else if s[0] == c then ([], Some(s[1..]))
    else
      var rest := SplitFirst(s[1..], c);
      ([s[0]] + rest.0, rest.1)
  }

  /** Splitting a text with no `c` in its first part finds that part. */
  lemma {:induction false} SplitFirstAt(head: string, c: char, tail: string)
    requires c !in head
    ensures SplitFirst(head + [c] + tail, c) == (head, Some(tail))
  {
    if head != [] {
      assert (head + [c] + tail)[1..] == head[1..] + [c] + tail;
      SplitFirstAt(head[1..], c, tail);
      assert head[0] != c && (head + [c] + tail)[0] == head[0];
      assert head == [head[0]] + head[1..];
    } else {
      assert (head + [c] + tail)[1..] == tail;
    }
  }

  /** A text without `c` is not split. */
  lemma {:induction false} SplitFirstAbsent(s: string, c: char)
    requires c !in s
    ensures SplitFirst(s, c) == (s, None)
  {
    if s != [] {
      SplitFirstAbsent(s[1..], c);
    }
  }

  /** Python's `s.split(c)`: always at least one part, and no part holds `c`. */
  function Split(s: string, c: char): (parts: seq<string>)
    ensures |parts| >= 1
    ensures forall i :: 0 <= i < |parts| ==> c !in parts[i]
    decreases |s|
  {
    var first := SplitFirst(s, c);
    match first.1
    case None => [first.0]
    case Some(rest) => [first.0] + Split(rest, c)
  }

  /** Python's `c.join(parts)`. */
  function Join(parts: seq<string>, c: char): string {
    if parts == [] then ""
    else if |parts| == 1 then parts[0]
    else parts[0] + [c] + Join(parts[1..], c)
  }

  /** Joining the parts of a split gives back the text. */
  lemma {:induction false} JoinSplit(s: string, c: char)
    ensures Join(Split(s, c), c) == s
    decreases |s|
  {
    var first := SplitFirst(s, c);
    match first.1
    case None =>
    case Some(rest) =>
      JoinSplit(rest, c);
      assert Split(s, c) == [first.0] + Split(rest, c);
  }

  /** Splitting a join of parts free of `c` gives back the parts. */
  lemma {:induction false} SplitJoin(parts: seq<string>, c: char)
    requires |parts| >= 1
    requires forall i :: 0 <= i < |parts| ==> c !in parts[i]
    ensures Split(Join(parts, c), c) == parts
  {
    if |parts| == 1 {
      SplitFirstAbsent(parts[0], c);
    } else {
      var rest := Join(parts[1..], c);
      SplitFirstAt(parts[0], c, rest);
      SplitJoin(parts[1..], c);
      assert parts == [parts[0]] + parts[1..];
    }
  }

  /** The query component `urlsplit(url).query`: after the first `?` of the part before the first `#`. */
  function UrlQuery(url: string): (q: string)
    ensures '#' !in q
    ensures '?' !in SplitFirst(url, '#').0 ==> q == ""
  {
    var beforeFragment := SplitFirst(url, '#').0;
    match SplitFirst(beforeFragment, '?').1
    case None => ""
    case Some(query) => query
  }

  /** A URL `base?query` with an optional `#fragment` has exactly `query` as its query. */
  lemma UrlQueryOf(base: string, query: string, fragment: Option<string>)
    requires '?' !in base && '#' !in base && '#' !in query
    ensures UrlQuery(base + "?" + query + (if fragment.Some? then "#" + fragment.value else "")) == query
  {
    var left := base + "?" + query;
    var url := left + (if fragment.Some? then "#" + fragment.value else "");
    assert '#' !in left;
    match fragment
    case Some(f) =>
      assert url == left + ['#'] + f;
      SplitFirstAt(left, '#', f);
      SplitFirstAt(base, '?', query);
    case None =>
      assert url == left;
      SplitFirstAbsent(left, '#');
      assert left == base + ['?'] + query;
      SplitFirstAt(base, '?', query);
  }

  /** One `&`-separated piece of a query: kept only when it has an `=` and a non-empty value. */
  function Field(piece: string): (r: seq<Pair>)
    ensures |r| <= 1
    ensures r == [] <==> '=' !in piece || SplitFirst(piece, '=').1 == Some("")
    ensures r != [] ==> '=' !in r[0].0 && r[0].1 != "" && piece == r[0].0 + "=" + r[0].1
  {
    if piece == "" then []
    else
      var nv := SplitFirst(piece, '=');
      match nv.1
      case None => []
      case Some(value) => if value == "" then [] else [(nv.0, value)]
  }

  /** The fields kept from a list of pieces. */
  function Fields(pieces: seq<string>): (r: seq<Pair>)
    ensures |r| <= |pieces|
    ensures forall i :: 0 <= i < |r| ==> '=' !in r[i].0 && r[i].1 != "" && r[i].0 + "=" + r[i].1 in pieces
  {
    if pieces == [] then [] else Field(pieces[0]) + Fields(pieces[1..])
  }

  /** The fields of consecutive pieces are the fields of each, in order and none lost. */
  lemma {:induction false} FieldsAppend(a: seq<string>, b: seq<string>)
    ensures Fields(a + b) == Fields(a) + Fields(b)
  {
    if a != [] {
      assert (a + b)[1..] == a[1..] + b;
      FieldsAppend(a[1..], b);
    } else {
      assert a + b == b;
    }
  }

  /**
   * `parse_qsl(qs)` with its defaults: the `&`-separated pieces in order, each split at its
   * first `=`; pieces without `=` or with an empty value are dropped.
   */
  function ParseQsl(qs: string): (r: seq<Pair>)
    ensures forall i :: 0 <= i < |r| ==>
      '=' !in r[i].0 && r[i].1 != "" && '&' !in r[i].0 && '&' !in r[i].1
  {
    if qs == "" then []
    else
      var pieces := Split(qs, '&');
      var r := Fields(pieces);
      assert forall i :: 0 <= i < |r| ==> '&' !in r[i].0 + "=" + r[i].1;
      r
  }

  /** A join holds a character other than the separator only where one of its parts does. */
  lemma {:induction false} JoinHasNo(parts: seq<string>, c: char, d: char)
    requires d != c
    requires forall i :: 0 <= i < |parts| ==> d !in parts[i]
    ensures d !in Join(parts, c)
  {
    if |parts| > 1 {
      JoinHasNo(parts[1..], c, d);
    }
  }

  /**
   * `parse_qsl` of any query, written as its `&`-free pieces: exactly the fields `Field` keeps,
   * in order, so pieces without `=` or with an empty value are dropped and nothing else is.
   */
  lemma ParseQslJoin(pieces: seq<string>)
    requires forall i :: 0 <= i < |pieces| ==> '&' !in pieces[i]
    ensures ParseQsl(Join(pieces, '&')) == Fields(pieces)
  {
    if pieces == [] {
    } else if |pieces| == 1 {
      if pieces[0] != "" {
        SplitJoin(pieces, '&');
      }
    } else {
      assert Join(pieces, '&') != "" by {
        assert Join(pieces, '&')[|pieces[0]|] == '&';
      }
      SplitJoin(pieces, '&');
    }
  }

  /** A field that a query string can carry and `parse_qsl` reads back unchanged. */
  predicate Encodable(p: Pair) {
    '&' !in p.0 && '=' !in p.0 && '#' !in p.0 && '&' !in p.1 && '#' !in p.1 && p.1 != ""
  }

  function Assignments(ps: seq<Pair>): (r: seq<string>)
    ensures |r| == |ps|
    ensures forall i :: 0 <= i < |r| ==> r[i] == ps[i].0 + "=" + ps[i].1
  {
    if ps == [] then [] else [ps[0].0 + "=" + ps[0].1] + Assignments(ps[1..])
  }

  /** The query string `name=value&name=value...` for a list of fields. */
  function Encode(ps: seq<Pair>): string {
    Join(Assignments(ps), '&')
  }

  lemma {:induction false} FieldsOfAssignments(ps: seq<Pair>)
    requires forall i :: 0 <= i < |ps| ==> Encodable(ps[i])
    ensures Fields(Assignments(ps)) == ps
  {
    if ps != [] {
      var a := Assignments(ps);
      assert a[1..] == Assignments(ps[1..]);
      SplitFirstAt(ps[0].0, '=', ps[0].1);
      assert a[0] == ps[0].0 + ['='] + ps[0].1;
      assert Field(a[0]) == [ps[0]];
      assert Fields(a) == Field(a[0]) + Fields(a[1..]);
      FieldsOfAssignments(ps[1..]);
      assert ps == [ps[0]] + ps[1..];
    }
  }

  /** `parse_qsl` reads back every list of encodable fields from its query string, order included. */
  lemma ParseQslEncode(ps: seq<Pair>)
    requires forall i :: 0 <= i < |ps| ==> Encodable(ps[i])
    ensures ParseQsl(Encode(ps)) == ps
  {
    if ps != [] {
      var a := Assignments(ps);
      assert forall i :: 0 <= i < |a| ==> '&' !in a[i];
      SplitJoin(a, '&');
      assert Encode(ps) != "" by {
        JoinSplit(Encode(ps), '&');
        assert a[0] != "";
      }
      FieldsOfAssignments(ps);
    }
  }

  /** Names that occur in a list of fields. */
  ghost predicate Named(ps: seq<Pair>, k: string) {
    exists i :: 0 <= i < |ps| && ps[i].0 == k
  }

  /** Python's `dict(pairs)`: a later field with the same name replaces an earlier one. */
  function ToDict(ps: seq<Pair>): (d: map<string, string>)
    ensures forall k :: k in d <==> Named(ps, k)
  {
    if ps == [] then map[]
    else
      var init := ToDict(ps[..|ps| - 1]);
      var last := ps[|ps| - 1];
      assert forall k :: Named(ps[..|ps| - 1], k) ==> Named(ps, k);
      assert forall k :: Named(ps, k) ==> Named(ps[..|ps| - 1], k) || k == last.0;
      init[last.0 := last.1]
  }

  /** The value `dict` keeps for a name is that of the name's last field. */
  lemma {:induction false} ToDictLastWins(ps: seq<Pair>, i: nat)
    requires i < |ps|
    requires forall j :: i < j < |ps| ==> ps[j].0 != ps[i].0
    ensures ps[i].0 in ToDict(ps) && ToDict(ps)[ps[i].0] == ps[i].1
  {
    if i < |ps| - 1 {
      var init := ps[..|ps| - 1];
      ToDictLastWins(init, i);
    }
  }
}
