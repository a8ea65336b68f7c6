/** Pages of the local observation API. */
module ObservationApi {
  import opened Options
  import opened Encoding
  import opened WireText
  import opened Paging

  const PAGE_MAX := 100
  const MAX_ITEMS := 32
  const VERSION: Name := "nodescale.observations.v1"
  const KIND: Name := "list"

  datatype Observation = Observation(
    networkId: Uuid,
    instanceId: Uuid,
    nodeId: string,
    fingerprint: string,
    hostname: string,
    givenName: string,
    addresses: seq<string>,
    tags: seq<string>,
    registeredAt: Option<Name>,
    lastSeenAt: Option<Name>,
    expiresAt: Option<Name>,
    online: Option<bool>,
    expired: bool,
    classification: Name,
    firstObservedAt: Name,
    lastObservedAt: Name,
    snapshotAt: Name)

  datatype Summary = Summary(state: Name, lastAttemptedAt: Option<Name>, lastSuccessfulAt: Option<Name>, observed: Counter)

  type Hex64 = s: string | |s| == 64 witness seq(64, i => '0')

  /** The SHA-256 of the framed identity, left uninterpreted. */
  const Sha256OfParts: (string, string, string, string) -> Hex64

  /** At most `MAX_ITEMS` bounded texts. */
  function BoundedItems(items: seq<string>): seq<Tree> {
    var kept := if |items| <= MAX_ITEMS then items else items[..MAX_ITEMS];
    seq(|kept|, i requires 0 <= i < |kept| => Text(BoundedText(kept[i])))
  }

  /** `ObservationDto::project`, in two halves around the lists. */
  function IdentityMembers(o: Observation, kind: Name): seq<(string, Tree)> {
    [("observed_id", Text("sha256:" + Sha256OfParts(kind, UuidText(o.instanceId), o.nodeId, o.fingerprint))),
     ("network_id", Text(UuidText(o.networkId))),
     ("provider_kind", Text(kind)),
     ("provider_instance_id", Text(UuidText(o.instanceId))),
     ("provider_node_id", Text(BoundedText(o.nodeId))),
     ("hostname", Text(BoundedText(o.hostname))),
     ("given_name", Text(BoundedText(o.givenName)))]
  }

  function ListMembers(o: Observation): seq<(string, Tree)> {
    [("addresses", List(BoundedItems(o.addresses))), ("tags", List(BoundedItems(o.tags)))]
  }

  function StateMembers(o: Observation): seq<(string, Tree)> {
    [("registered_at", Optional(o.registeredAt)),
     ("last_seen_at", Optional(o.lastSeenAt)),
     ("expires_at", Optional(o.expiresAt)),
     ("online", if o.online.None? then Null else Flag(o.online.value)),
     ("expired", Flag(o.expired)),
     ("classification", Text(o.classification)),
     ("first_observed_at", Text(o.firstObservedAt)),
     ("last_observed_at", Text(o.lastObservedAt)),
     ("snapshot_at", Text(o.snapshotAt))]
  }

  function Row(o: Observation, kind: Name): Tree {
    Record(IdentityMembers(o, kind) + (ListMembers(o) + StateMembers(o)))
  }

  function SummaryTree(s: Summary): Tree {
    Record([("state", Text(s.state)), ("last_attempted_at", Optional(s.lastAttemptedAt)),
            ("last_successful_at", Optional(s.lastSuccessfulAt)), ("observed_count", Number(s.observed))])
  }

  function RowsTree(kind: Name, rows: seq<Observation>): Tree {
    List(seq(|rows|, i requires 0 <= i < |rows| => Row(rows[i], kind)))
  }

  function MiddleMembers(s: Summary, kind: Name, rows: seq<Observation>): seq<(string, Tree)> {
    [("reconciliation", SummaryTree(s)), ("observations", RowsTree(kind, rows))]
  }

  function Response(networkId: Uuid, s: Summary, kind: Name, rows: seq<Observation>, next: Option<string>): Tree {
    Record(HeaderMembers(VERSION, KIND, networkId) + (MiddleMembers(s, kind, rows) + CursorMembers(next)))
  }

  function Observations(networkId: Uuid, s: Summary, kind: Name): Api<Observation> {
    Api((o: Observation) => o.nodeId,
        (o: Observation) => BoundedText(o.nodeId),
        (cursor: string) => cursor != "" && |Utf8(cursor)| <= MAX_TEXT_BYTES && IdentifierOk(cursor),
        (rows: seq<Observation>, next: Option<string>) =>
          WireBytes(Response(networkId, s, kind, rows, next)) <= MAX_RESPONSE_BYTES,
        PAGE_MAX)
  }

  // ------------------------------------------------------------- row size

  lemma ItemsFit(items: seq<string>)
    ensures Size(List(BoundedItems(items))) <= 2 + MAX_ITEMS * 515
  {
    var texts := BoundedItems(items);
    forall i | 0 <= i < |texts| ensures Size(texts[i]) <= 514 {
      BoundedTextSize(if |items| <= MAX_ITEMS then items[i] else items[..MAX_ITEMS][i]);
    }
    ItemsAtMost(texts, 514);
  }

  lemma IdentityFits(o: Observation, kind: Name)
    ensures MembersSize(IdentityMembers(o, kind)) <= 7 * (SHORT + 1)
  {
    hide TextSize, BoundedText, UuidText;
    var m := IdentityMembers(o, kind);
    NameShort(m[0].1.text);
    NameShort(m[1].1.text);
    NameShort(kind);
    NameShort(m[3].1.text);
    BoundedTextSize(o.nodeId);
    BoundedTextSize(o.hostname);
    BoundedTextSize(o.givenName);
    ShortMembers(m);
  }

  lemma StateFits(o: Observation)
    ensures MembersSize(StateMembers(o)) <= 9 * (SHORT + 1)
  {
    OptionalShort(o.registeredAt);
    OptionalShort(o.lastSeenAt);
    OptionalShort(o.expiresAt);
    NameShort(o.classification);
    NameShort(o.firstObservedAt);
    NameShort(o.lastObservedAt);
    NameShort(o.snapshotAt);
    hide TextSize;
    ShortMembers(StateMembers(o));
  }

  lemma ListsFit(o: Observation)
    ensures MembersSize(ListMembers(o)) <= 2 * (200 + 2 + MAX_ITEMS * 515 + 1)
  {
    ItemsFit(o.addresses);
    ItemsFit(o.tags);
    AnyTextSize("addresses");
    AnyTextSize("tags");
    hide TextSize, BoundedItems;
    MembersAtMost(ListMembers(o), 200 + 2 + MAX_ITEMS * 515);
  }

  /** One row of any texts at all. */
  lemma RowFits(o: Observation, kind: Name)
    ensures WireBytes(Row(o, kind)) == Size(Row(o, kind)) <= 46_000
  {
    SizeExactly(Row(o, kind));
    hide WireBytes;
    IdentityFits(o, kind);
    ListsFit(o);
    StateFits(o);
    MembersConcat(ListMembers(o), StateMembers(o));
    MembersConcat(IdentityMembers(o, kind), ListMembers(o) + StateMembers(o));
    hide MembersSize, IdentityMembers, ListMembers, StateMembers;
  }

  lemma SummaryFits(s: Summary)
    ensures Size(SummaryTree(s)) <= 2 + 4 * (SHORT + 1)
  {
    NameShort(s.state);
    OptionalShort(s.lastAttemptedAt);
    OptionalShort(s.lastSuccessfulAt);
    hide TextSize;
    ShortMembers(SummaryTree(s).members);
  }

  lemma RowsFit(kind: Name, rows: seq<Observation>)
    requires |rows| <= 1
    ensures Size(RowsTree(kind, rows)) <= 46_003
  {
    var items := RowsTree(kind, rows).items;
    forall i | 0 <= i < |items| ensures Size(items[i]) <= 46_000 { RowFits(rows[i], kind); }
    ItemsAtMost(items, 46_000);
    ListSize(items);
    hide Row, Size, ItemsSize;
  }

  lemma ResponseSize(networkId: Uuid, s: Summary, kind: Name, rows: seq<Observation>, next: Option<string>)
    ensures Size(Response(networkId, s, kind, rows, next)) ==
            2 + MembersSize(HeaderMembers(VERSION, KIND, networkId) + (MiddleMembers(s, kind, rows) + CursorMembers(next)))
  {
    hide MembersSize, HeaderMembers, CursorMembers, SummaryTree, RowsTree;
  }

  /** A page of no row or of any one row fits the frame, with any bounded cursor. */
  lemma OneRowFits(networkId: Uuid, s: Summary, kind: Name, rows: seq<Observation>, next: Option<string>)
    requires |rows| <= 1 && (next.Some? ==> TextSize(next.value) <= 512)
    ensures WireBytes(Response(networkId, s, kind, rows, next)) <= MAX_RESPONSE_BYTES
  {
    SizeExactly(Response(networkId, s, kind, rows, next));
    hide WireBytes;
    HeaderFits(VERSION, KIND, networkId);
    CursorFits(next);
    RowsFit(kind, rows);
    SummaryFits(s);
    assert MembersSize(MiddleMembers(s, kind, rows)) <= 50_000 by {
      MiddleFits(SummaryTree(s), RowsTree(kind, rows));
      hide MembersSize, SummaryTree, RowsTree;
    }
    ResponseSize(networkId, s, kind, rows, next);
    hide *;
    MembersConcat(MiddleMembers(s, kind, rows), CursorMembers(next));
    MembersConcat(HeaderMembers(VERSION, KIND, networkId), MiddleMembers(s, kind, rows) + CursorMembers(next));
    assert 2 + 3 * (SHORT + 1) + 1 + 50_000 + 1 + SHORT + 1 <= MAX_RESPONSE_BYTES;
  }

  lemma MiddleFits(summary: Tree, list: Tree)
    requires Size(summary) <= 2 + 4 * (SHORT + 1) && Size(list) <= 46_003
    ensures MembersSize([("reconciliation", summary), ("observations", list)]) <= 50_000
  {
    AnyTextSize("reconciliation");
    AnyTextSize("observations");
    hide TextSize, Size;
    var m := [("reconciliation", summary), ("observations", list)];
    assert m[1..] == [("observations", list)] && m[1..][1..] == [];
    assert MembersSize(m) == MemberSize(m[0]) + 1 + MembersSize(m[1..]);
    assert MembersSize(m[1..]) == MemberSize(m[1]) + MembersSize([]);
  }

  // ------------------------------------------------------------ completeness

  lemma ObservationsServable(networkId: Uuid, s: Summary, kind: Name, rows: seq<Observation>)
    requires Ordered(rows, (o: Observation) => o.nodeId)
    requires forall i :: 0 <= i < |rows| ==> IdentifierOk(rows[i].nodeId)
    ensures Servable(Observations(networkId, s, kind), rows)
  {
    var api := Observations(networkId, s, kind);
    assert Ordered(rows, api.key);
    OneRowFits(networkId, s, kind, [], None);
    forall i | 0 <= i < |rows|
      ensures api.cursor(rows[i]) == api.key(rows[i]) && api.accepts(api.key(rows[i]))
      ensures api.fits([rows[i]], None) && api.fits([rows[i]], Some(api.key(rows[i])))
    {
      BoundedIdentifier(rows[i].nodeId);
      BoundedTextSize(rows[i].nodeId);
      OneRowFits(networkId, s, kind, [rows[i]], None);
      OneRowFits(networkId, s, kind, [rows[i]], Some(rows[i].nodeId));
    }
  }

  /** Over fixed observations under valid node IDs, whatever their other texts, a
   *  client following `next_cursor` sees each exactly once and in order. */
  lemma ObservationPagesComplete(networkId: Uuid, s: Summary, kind: Name, rows: seq<Observation>, limit: nat)
    requires Ordered(rows, (o: Observation) => o.nodeId)
    requires forall i :: 0 <= i < |rows| ==> IdentifierOk(rows[i].nodeId)
    requires 1 <= limit <= PAGE_MAX
    ensures var api := Observations(networkId, s, kind);
            Servable(api, rows) && After(rows, api.key, None) == rows[0..]
            && Walk(api, rows, None, limit, 0) == rows
  {
    ObservationsServable(networkId, s, kind, rows);
    WalkSeesAll(Observations(networkId, s, kind), rows, limit);
  }

  /** The page a server answers with: its text fits the frame, and with any more of the
   *  rows it read, under the cursor they would carry, it would not. */
  lemma ObservationPageLongest(
    networkId: Uuid, s: Summary, kind: Name, page: seq<Observation>, limit: nat, m: nat)
    requires m <= |page|
    ensures var api := Observations(networkId, s, kind);
            var r := Trim(api, page, |page|, limit);
            && (r.Page? ==> r.rows <= page && WireBytes(Response(networkId, s, kind, r.rows, r.next)) <= 65536)
            && ((r.Page? ==> |r.rows| < m) ==>
                  WireBytes(Response(networkId, s, kind, page[..m], Cursor(api, page[..m], |page|, limit))) > 65536)
  {
    hide WireBytes;
    var api := Observations(networkId, s, kind);
    TrimFits(api, page, |page|, limit);
    if api.fits(page[..m], Cursor(api, page[..m], |page|, limit)) { TrimLongest(api, page, |page|, limit, m); }
    hide Trim, Cursor;
  }

  /** At most 255 letters, digits, dashes, underscores, colons and dots. */
  predicate NodeCursor(s: string) {
    && 1 <= |s| <= 255
    && forall i :: 0 <= i < |s| ==>
         || 'a' <= s[i] <= 'z' || 'A' <= s[i] <= 'Z' || '0' <= s[i] <= '9'
         || s[i] == '-' || s[i] == '_' || s[i] == ':' || s[i] == '.'
  }

  lemma CursorExactly(s: string)
    ensures s != "" && |Utf8(s)| <= 256 && IdentifierOk(s) <==> NodeCursor(s)
  {
    hide Utf8;
    if NodeCursor(s) { AsciiLength(s); }
  }

  /** A request is refused as invalid exactly for a limit outside 1 to 100, or a cursor
   *  that could be no node's. */
  lemma RequestExactly(
    networkId: Uuid, s: Summary, kind: Name, rows: seq<Observation>, after: Option<string>, limit: nat)
    ensures Respond(Observations(networkId, s, kind), rows, after, limit).InvalidRequest? <==>
              limit == 0 || limit > 100 || (after.Some? && !NodeCursor(after.value))
  {
    hide Respond, Utf8, WireBytes, NodeCursor, IdentifierOk;
    InvalidExactly(Observations(networkId, s, kind), rows, after, limit);
    if after.Some? { CursorExactly(after.value); }
  }
}
