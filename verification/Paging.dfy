/** Keyset pages that a server trims to its frame, and the client that follows them.
 *
 *  Both local APIs share this shape. An `Api` says how a row is keyed, what cursor
 *  its page carries, which cursors a request may carry, and whether a response with
 *  these rows and this cursor fits the frame.
 */
module Paging {
  import opened Options
  import opened TextOrder

  datatype Api<!Row(!new)> = Api(
    key: Row -> string,
    cursor: Row -> string,
    accepts: string -> bool,
    fits: (seq<Row>, Option<string>) -> bool,
    pageMax: nat)

  datatype Reply<Row> = Page(rows: seq<Row>, next: Option<string>) | InvalidRequest | Unavailable

  /** Rows are stored under a unique key and read in key order. */
  ghost predicate Ordered<Row(!new)>(rows: seq<Row>, key: Row -> string) {
    forall i, j :: 0 <= i < j < |rows| ==> Less(key(rows[i]), key(rows[j]))
  }

  /** WHERE (after IS NULL OR key > after) ORDER BY key. */
  function After<Row>(rows: seq<Row>, key: Row -> string, after: Option<string>): seq<Row> {
    if rows == [] then []
    else (if after.None? || Less(after.value, key(rows[0])) then [rows[0]] else []) + After(rows[1..], key, after)
  }

  /** ... LIMIT. */
  function Select<Row>(rows: seq<Row>, key: Row -> string, after: Option<string>, limit: nat): (r: seq<Row>)
    ensures |r| <= limit && r <= After(rows, key, after)
    ensures |r| < limit ==> r == After(rows, key, after)
  {
    var all := After(rows, key, after);
    if |all| <= limit then all else all[..limit]
  }

  function Cursor<Row(!new)>(api: Api<Row>, rows: seq<Row>, loaded: nat, limit: nat): Option<string> {
    if rows != [] && (|rows| < loaded || loaded == limit) then Some(api.cursor(rows[|rows| - 1])) else None
  }

  /** Drops rows from the end until the response fits. */
  function Trim<Row(!new)>(api: Api<Row>, rows: seq<Row>, loaded: nat, limit: nat): Reply<Row> {
    var next := Cursor(api, rows, loaded, limit);
    if api.fits(rows, next) then Page(rows, next)
    else if rows == [] then Unavailable
    else Trim(api, rows[..|rows| - 1], loaded, limit)
  }

  /** `list` and `devices_list`. */
  method List<Row(!new)>(api: Api<Row>, page: seq<Row>, limit: nat) returns (reply: Reply<Row>)
    ensures reply == Trim(api, page, |page|, limit)
  {
    var loaded := |page|;
    var rows := page;
    while true
      invariant Trim(api, rows, loaded, limit) == Trim(api, page, loaded, limit)
      decreases |rows|
    {
      var next := None;
      if rows != [] && (|rows| < loaded || loaded == limit) { next := Some(api.cursor(rows[|rows| - 1])); }
      if api.fits(rows, next) { return Page(rows, next); }
      if rows == [] { return Unavailable; }
      rows := rows[..|rows| - 1];
    }
  }

  predicate Admissible<Row(!new)>(api: Api<Row>, after: Option<string>, limit: nat) {
    1 <= limit <= api.pageMax && (after.Some? ==> api.accepts(after.value))
  }

  /** One request over fixed rows. */
  function Respond<Row(!new)>(api: Api<Row>, rows: seq<Row>, after: Option<string>, limit: nat): Reply<Row> {
    if !Admissible(api, after, limit) then InvalidRequest
    else
      var page := Select(rows, api.key, after, limit);
      Trim(api, page, |page|, limit)
  }

  // ------------------------------------------------------------- completeness

  /** Cursors are the keys themselves, and one row always fits. */
  ghost predicate Servable<Row(!new)>(api: Api<Row>, rows: seq<Row>) {
    && Ordered(rows, api.key)
    && api.fits([], None)
    && (forall i :: 0 <= i < |rows| ==>
          && api.cursor(rows[i]) == api.key(rows[i]) && api.accepts(api.key(rows[i]))
          && api.fits([rows[i]], None) && api.fits([rows[i]], Some(api.key(rows[i]))))
  }

  lemma {:induction false} AfterAll<Row>(rows: seq<Row>, key: Row -> string)
    ensures After(rows, key, None) == rows
  {
    if rows != [] {
      AfterAll(rows[1..], key);
      assert [rows[0]] + rows[1..] == rows;
    }
  }

  lemma {:induction false} AfterNothing<Row(!new)>(rows: seq<Row>, key: Row -> string, k: string)
    requires forall i :: 0 <= i < |rows| ==> !Less(k, key(rows[i]))
    ensures After(rows, key, Some(k)) == []
  {
    if rows != [] { AfterNothing(rows[1..], key, k); }
  }

  lemma {:induction false} AfterEverything<Row(!new)>(rows: seq<Row>, key: Row -> string, k: string)
    requires forall i :: 0 <= i < |rows| ==> Less(k, key(rows[i]))
    ensures After(rows, key, Some(k)) == rows
  {
    if rows != [] {
      AfterEverything(rows[1..], key, k);
      assert [rows[0]] + rows[1..] == rows;
    }
  }

  lemma AfterCons<Row>(x: Row, rest: seq<Row>, key: Row -> string, after: Option<string>)
    ensures After([x] + rest, key, after) ==
            (if after.None? || Less(after.value, key(x)) then [x] else []) + After(rest, key, after)
  {
    assert ([x] + rest)[1..] == rest;
  }

  lemma {:induction false} AfterConcat<Row>(a: seq<Row>, b: seq<Row>, key: Row -> string, after: Option<string>)
    ensures After(a + b, key, after) == After(a, key, after) + After(b, key, after)
  {
    if a == [] {
      assert a + b == b;
    } else {
      hide After;
      assert a == [a[0]] + a[1..] && a + b == [a[0]] + (a[1..] + b);
      AfterCons(a[0], a[1..], key, after);
      AfterCons(a[0], a[1..] + b, key, after);
      AfterConcat(a[1..], b, key, after);
    }
  }

  /** The rows after the key of row `i` are those behind it. */
  lemma AfterRow<Row(!new)>(rows: seq<Row>, key: Row -> string, i: nat)
    requires Ordered(rows, key) && i < |rows|
    ensures After(rows, key, Some(key(rows[i]))) == rows[i + 1..]
  {
    var k := key(rows[i]);
    forall j | 0 <= j < |rows| ensures Less(k, key(rows[j])) <==> j > i {
      LessOrder(k, key(rows[j]), k);
    }
    assert rows == rows[..i + 1] + rows[i + 1..];
    AfterConcat(rows[..i + 1], rows[i + 1..], key, Some(k));
    AfterNothing(rows[..i + 1], key, k);
    AfterEverything(rows[i + 1..], key, k);
  }

  /** Trimming keeps at least one row, and says with a cursor when it dropped any. */
  lemma {:induction false} TrimKeepsOne<Row(!new)>(api: Api<Row>, page: seq<Row>, loaded: nat, limit: nat)
    requires |page| <= loaded && api.fits([], None)
    requires page != [] ==> api.fits([page[0]], None) && api.fits([page[0]], Some(api.cursor(page[0])))
    ensures var r := Trim(api, page, loaded, limit);
            && r.Page? && r.rows <= page && (page != [] ==> r.rows != [])
            && r.next == Cursor(api, r.rows, loaded, limit)
            && api.fits(r.rows, r.next)
  {
    var next := Cursor(api, page, loaded, limit);
    if |page| == 1 { assert page == [page[0]]; }
    if !api.fits(page, next) {
      TrimKeepsOne(api, page[..|page| - 1], loaded, limit);
      assert page[..|page| - 1] <= page;
    }
  }

  /** Trimming drops no row that could have stayed. */
  lemma {:induction false} TrimLongest<Row(!new)>(api: Api<Row>, page: seq<Row>, loaded: nat, limit: nat, m: nat)
    requires m <= |page| && api.fits(page[..m], Cursor(api, page[..m], loaded, limit))
    ensures var r := Trim(api, page, loaded, limit); r.Page? && m <= |r.rows|
  {
    if m == |page| {
      assert page[..m] == page;
    } else if !api.fits(page, Cursor(api, page, loaded, limit)) {
      assert page[..|page| - 1][..m] == page[..m];
      TrimLongest(api, page[..|page| - 1], loaded, limit, m);
    }
  }

  /** Whatever is answered as a page fits. */
  lemma {:induction false} TrimFits<Row(!new)>(api: Api<Row>, page: seq<Row>, loaded: nat, limit: nat)
    ensures var r := Trim(api, page, loaded, limit);
            r.Page? ==> r.rows <= page && api.fits(r.rows, r.next)
  {
    if !api.fits(page, Cursor(api, page, loaded, limit)) && page != [] {
      TrimFits(api, page[..|page| - 1], loaded, limit);
      assert page[..|page| - 1] <= page;
    }
  }

  /** A request is refused as invalid for its limit and its cursor alone. */
  lemma InvalidExactly<Row(!new)>(api: Api<Row>, rows: seq<Row>, after: Option<string>, limit: nat)
    ensures Respond(api, rows, after, limit).InvalidRequest? <==>
              limit == 0 || limit > api.pageMax || (after.Some? && !api.accepts(after.value))
  {
    TrimAnswers(api, Select(rows, api.key, after, limit), |Select(rows, api.key, after, limit)|, limit);
    hide Select, Trim;
  }

  lemma {:induction false} TrimAnswers<Row(!new)>(api: Api<Row>, page: seq<Row>, loaded: nat, limit: nat)
    ensures !Trim(api, page, loaded, limit).InvalidRequest?
  {
    if page != [] { TrimAnswers(api, page[..|page| - 1], loaded, limit); }
  }

  /** What the cursor of a trimmed page says. */
  lemma CursorAt<Row(!new)>(
    api: Api<Row>, rows: seq<Row>, limit: nat, n: nat, page: seq<Row>, shown: seq<Row>)
    requires Servable(api, rows) && 1 <= limit <= api.pageMax && n <= |rows|
    requires page <= rows[n..] && |page| <= limit && (|page| < limit ==> page == rows[n..])
    requires shown <= page && (page != [] ==> shown != [])
    ensures var next := Cursor(api, shown, |page|, limit);
            && n + |shown| <= |rows| && shown <= rows[n..]
            && (next.None? ==> shown == rows[n..])
            && (next.Some? <==> shown != [] && (|shown| == limit || n + |shown| < |rows|))
            && (next.Some? ==>
                  && shown != [] && next == Some(api.key(rows[n + |shown| - 1])) && Admissible(api, next, limit))
  {
    hide Ordered;
    if shown != [] {
      var last := n + |shown| - 1;
      assert shown[|shown| - 1] == page[|shown| - 1] == rows[n..][|shown| - 1] == rows[last];
    }
  }

  /** One page at position `n`: some of the rows from there on, and a cursor unless
   *  it reached the end, exactly to the position behind its last row. */
  lemma PageAt<Row(!new)>(api: Api<Row>, rows: seq<Row>, after: Option<string>, limit: nat, n: nat)
    requires Servable(api, rows) && Admissible(api, after, limit)
    requires n <= |rows| && After(rows, api.key, after) == rows[n..]
    ensures var r := Respond(api, rows, after, limit);
            && r.Page? && |r.rows| <= limit && r.rows <= rows[n..]
            && (r.next.Some? <==> r.rows != [] && (|r.rows| == limit || n + |r.rows| < |rows|))
            && (r.next.None? ==> r.rows == rows[n..])
            && (r.next.Some? ==>
                  && r.rows != [] && Admissible(api, r.next, limit)
                  && After(rows, api.key, r.next) == rows[n + |r.rows|..])
  {
    var page := Select(rows, api.key, after, limit);
    if page != [] { assert page[0] == rows[n]; }
    TrimKeepsOne(api, page, |page|, limit);
    var r := Respond(api, rows, after, limit);
    hide Select, Trim, After, Ordered, Cursor;
    CursorAt(api, rows, limit, n, page, r.rows);
    if r.next.Some? { AfterRow(rows, api.key, n + |r.rows| - 1); }
  }

  lemma Glue<T>(rows: seq<T>, n: nat, part: seq<T>)
    requires n <= |rows| && part <= rows[n..]
    ensures n + |part| <= |rows| && part + rows[n + |part|..] == rows[n..]
    ensures rows[..n] + part == rows[..n + |part|]
  {
  }

  /** The rows a client collects by following `next_cursor` until there is none: all
   *  of them from its position on, each once and in order. */
  ghost function Walk<Row(!new)>(api: Api<Row>, rows: seq<Row>, after: Option<string>, limit: nat, n: nat): (seen: seq<Row>)
    requires Servable(api, rows) && Admissible(api, after, limit)
    requires n <= |rows| && After(rows, api.key, after) == rows[n..]
    ensures seen == rows[n..]
    decreases |rows| - n
  {
    PageAt(api, rows, after, limit, n);
    var r := Respond(api, rows, after, limit);
    Glue(rows, n, r.rows);
    if r.next.None? then r.rows else r.rows + Walk(api, rows, r.next, limit, n + |r.rows|)
  }

  /** A client starting without a cursor sees every row exactly once and in order,
   *  and stops. */
  lemma WalkSeesAll<Row(!new)>(api: Api<Row>, rows: seq<Row>, limit: nat)
    requires Servable(api, rows) && 1 <= limit <= api.pageMax
    ensures After(rows, api.key, None) == rows[0..]
    ensures Walk(api, rows, None, limit, 0) == rows
  {
    AfterAll(rows, api.key);
  }

  // ------------------------------------------------------------------- sweep

  function Chosen<Row>(rows: seq<Row>, trusted: Row -> bool): seq<Row> {
    if rows == [] then []
    else Chosen(rows[..|rows| - 1], trusted) + (if trusted(rows[|rows| - 1]) then [rows[|rows| - 1]] else [])
  }

  lemma {:induction false} ChosenConcat<Row>(a: seq<Row>, b: seq<Row>, trusted: Row -> bool)
    ensures Chosen(a + b, trusted) == Chosen(a, trusted) + Chosen(b, trusted)
  {
    if b == [] {
      assert a + b == a;
    } else {
      ChosenConcat(a, b[..|b| - 1], trusted);
      assert (a + b)[..|a + b| - 1] == a + b[..|b| - 1];
    }
  }

  /** What a sweep meets at each row: whether it is trusted, whether looking that up
   *  fails, and whether reconciling it fails. */
  datatype Handling<!Row(!new)> = Handling(trusted: Row -> bool, lookupFails: Row -> bool, reconcileFails: Row -> bool) {
    predicate Fails(row: Row) { lookupFails(row) || (trusted(row) && reconcileFails(row)) }
  }

  /** The first row at which a sweep fails, or the end. */
  function FirstFailure<Row(!new)>(rows: seq<Row>, h: Handling<Row>): (n: nat)
    ensures n <= |rows| && (n < |rows| ==> h.Fails(rows[n]))
    ensures forall i :: 0 <= i < n ==> !h.Fails(rows[i])
  {
    if rows == [] || h.Fails(rows[0]) then 0 else 1 + FirstFailure(rows[1..], h)
  }

  /** The trusted devices of one page in order, up to the first failure. */
  method SweepPage<Row(!new)>(page: seq<Row>, h: Handling<Row>, before: seq<Row>)
    returns (reconciled: seq<Row>, ok: bool)
    ensures reconciled == before + Chosen(page[..FirstFailure(page, h)], h.trusted)
    ensures ok <==> FirstFailure(page, h) == |page|
  {
    reconciled := before;
    for i := 0 to |page|
      invariant reconciled == before + Chosen(page[..i], h.trusted)
      invariant i <= FirstFailure(page, h)
    {
      assert page[..i + 1][..i] == page[..i];
      if h.lookupFails(page[i]) { return reconciled, false; }
      if h.trusted(page[i]) {
        if h.reconcileFails(page[i]) { return reconciled, false; }
        reconciled := reconciled + [page[i]];
      }
    }
    assert page[..|page|] == page;
    return reconciled, true;
  }

  /** How far a sweep has come: `n` rows are behind its cursor and handled. */
  ghost predicate Swept<Row(!new)>(
    rows: seq<Row>, key: Row -> string, h: Handling<Row>, after: Option<string>, reconciled: seq<Row>, n: nat)
  {
    n <= FirstFailure(rows, h) && After(rows, key, after) == rows[n..] && reconciled == Chosen(rows[..n], h.trusted)
  }

  lemma LastOf<T>(rows: seq<T>, n: nat, page: seq<T>)
    requires n <= |rows| && page != [] && page <= rows[n..]
    ensures n + |page| <= |rows| && page[|page| - 1] == rows[n + |page| - 1]
  {
    assert page[|page| - 1] == rows[n..][|page| - 1];
  }

  lemma ChosenPage<Row(!new)>(rows: seq<Row>, trusted: Row -> bool, n: nat, page: seq<Row>)
    requires n <= |rows| && page <= rows[n..]
    ensures n + |page| <= |rows|
    ensures Chosen(rows[..n], trusted) + Chosen(page, trusted) == Chosen(rows[..n + |page|], trusted)
    ensures page == rows[n..] ==> rows[..n + |page|] == rows
  {
    Glue(rows, n, page);
    ChosenConcat(rows[..n], page, trusted);
    hide Chosen;
  }

  /** The first failure of a page is the first of all rows, if the page has one. */
  lemma FirstOfPage<Row(!new)>(rows: seq<Row>, h: Handling<Row>, n: nat, page: seq<Row>)
    requires n <= FirstFailure(rows, h) && page <= rows[n..]
    ensures var f := FirstFailure(page, h);
            if f < |page| then FirstFailure(rows, h) == n + f else n + |page| <= FirstFailure(rows, h)
  {
    forall i | 0 <= i < |page| ensures page[i] == rows[n + i] { assert page[i] == rows[n..][i]; }
    var f, first := FirstFailure(page, h), FirstFailure(rows, h);
    if first < n + |page| { assert page[first - n] == rows[first]; }
    if f < |page| { assert page[f] == rows[n + f]; }
  }

  /** What a sweep has reconciled once it is through with a page, or failed in it. */
  lemma PageSwept<Row(!new)>(
    rows: seq<Row>, key: Row -> string, h: Handling<Row>, after: Option<string>, reconciled: seq<Row>, n: nat,
    page: seq<Row>)
    requires Swept(rows, key, h, after, reconciled, n) && page <= rows[n..]
    ensures var f := FirstFailure(page, h);
            && n + f <= |rows|
            && reconciled + Chosen(page[..f], h.trusted) == Chosen(rows[..n + f], h.trusted)
  {
    var f := FirstFailure(page, h);
    hide After, Chosen, FirstFailure;
    ChosenPage(rows, h.trusted, n, page[..f]);
  }

  lemma SweepAdvances<Row(!new)>(
    rows: seq<Row>, key: Row -> string, h: Handling<Row>, after: Option<string>, reconciled: seq<Row>, n: nat,
    page: seq<Row>)
    requires Ordered(rows, key) && Swept(rows, key, h, after, reconciled, n)
    requires page != [] && page <= rows[n..] && FirstFailure(page, h) == |page|
    ensures Swept(rows, key, h, Some(key(page[|page| - 1])), reconciled + Chosen(page, h.trusted), n + |page|)
  {
    var m := n + |page|;
    assert m <= FirstFailure(rows, h) by { FirstOfPage(rows, h, n, page); }
    hide FirstFailure;
    assert After(rows, key, Some(key(page[|page| - 1]))) == rows[m..] by {
      LastOf(rows, n, page);
      AfterRow(rows, key, m - 1);
    }
    hide After, Ordered;
    ChosenPage(rows, h.trusted, n, page);
    hide Chosen;
  }

  /** How many rows the sweep gets through: it ends at the first row that fails, or
   *  in front of the page whose read fails. */
  function Reached<Row(!new)>(rows: seq<Row>, h: Handling<Row>, readable: Option<nat>, pageMax: nat): (n: nat)
    ensures n <= |rows|
  {
    var first := FirstFailure(rows, h);
    if readable.Some? && readable.value * pageMax < first then readable.value * pageMax else first
  }

  /** In full: no row before the end of the sweep fails to be looked up, nor to be
   *  reconciled if it is trusted; and the sweep ends there because the next one does, or
   *  the next page cannot be read, or nothing is left. */
  lemma ReachedExactly<Row(!new)>(rows: seq<Row>, h: Handling<Row>, readable: Option<nat>, pageMax: nat)
    ensures var n := Reached(rows, h, readable, pageMax);
            && (forall i :: 0 <= i < n ==> !h.lookupFails(rows[i]) && !(h.trusted(rows[i]) && h.reconcileFails(rows[i])))
            && (readable.Some? ==> n <= readable.value * pageMax)
            && (n < |rows| ==>
                  || h.lookupFails(rows[n]) || (h.trusted(rows[n]) && h.reconcileFails(rows[n]))
                  || (readable.Some? && n == readable.value * pageMax))
  {
    var first := FirstFailure(rows, h);
    forall i | 0 <= i < first ensures !h.lookupFails(rows[i]) && !(h.trusted(rows[i]) && h.reconcileFails(rows[i])) {
      assert !h.Fails(rows[i]);
    }
    if first < |rows| { assert h.Fails(rows[first]); }
    hide FirstFailure;
  }

  lemma OneMorePage(pages: nat, readable: nat, pageMax: nat)
    requires pages < readable
    ensures (pages + 1) * pageMax == pages * pageMax + pageMax <= readable * pageMax
  {
    assert readable * pageMax == (pages + 1) * pageMax + (readable - pages - 1) * pageMax;
  }

  /** The runtime's sweep over the devices of a network: full pages until a short
   *  one, of which the read after `readable` others fails, if any does. It reconciles the
   *  trusted devices in front of the first failure, each once and in order, and
   *  succeeds exactly when nothing fails. */
  method Sweep<Row(!new)>(rows: seq<Row>, key: Row -> string, h: Handling<Row>, readable: Option<nat>, pageMax: nat)
    returns (reconciled: seq<Row>, ok: bool)
    requires Ordered(rows, key) && pageMax >= 1
    ensures reconciled == Chosen(rows[..Reached(rows, h, readable, pageMax)], h.trusted)
    ensures ok <==> FirstFailure(rows, h) == |rows| && (readable.Some? ==> |rows| < readable.value * pageMax)
  {
    reconciled, ok := [], true;
    var after := None;
    var pages := 0;
    ghost var n := 0;
    SweepStarts(rows, key, h);
    hide After, Chosen, Ordered, FirstFailure;
    while true
      invariant Swept(rows, key, h, after, reconciled, n)
      invariant n == pages * pageMax && (readable.Some? ==> pages <= readable.value)
      decreases |rows| - n
    {
      if readable == Some(pages) { return reconciled, false; }
      if readable.Some? { OneMorePage(pages, readable.value, pageMax); }
      OneMorePage(pages, pages + 1, pageMax);
      var page := Select(rows, key, after, pageMax);
      PageSwept(rows, key, h, after, reconciled, n, page);
      FirstOfPage(rows, h, n, page);
      if page == [] { return reconciled, true; }
      ghost var before := reconciled;
      reconciled, ok := SweepPage(page, h, reconciled);
      if !ok { return reconciled, false; }
      assert page[..|page|] == page;
      SweepAdvances(rows, key, h, after, before, n, page);
      if |page| < pageMax { return reconciled, true; }
      after := Some(key(page[|page| - 1]));
      pages, n := pages + 1, n + |page|;
    }
  }

  lemma SweepStarts<Row(!new)>(rows: seq<Row>, key: Row -> string, h: Handling<Row>)
    ensures Swept(rows, key, h, None, [], 0)
  {
    AfterAll(rows, key);
  }
}
