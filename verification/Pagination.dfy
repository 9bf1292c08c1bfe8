/** Cursor pagination against an arbitrary downstream server
    (internal/downstream/session.go, `fetchPages`).

    The reply to a request is an arbitrary function of the number of requests
    made before it and of the cursor sent; the size of a tool's JSON encoding
    is an arbitrary function of the tool, None when it cannot be encoded. */
module Pagination {
  const MAX_PAGES: nat := 64
  const MAX_DISCOVERED: nat := 4096
  const MAX_CATALOG_BYTES: nat := 8 * 1024 * 1024

  import opened Options

  datatype Tool = Tool(name: string, definition: string)

  datatype Response = Failed | Nil | Page(tools: seq<Option<Tool>>, next: string)

  type Server = (nat, string) -> Response
  type Encoder = Tool -> Option<nat>

  datatype Outcome =
    | Tools(tools: seq<Tool>)
    | TooManyPages
    | SessionClosed
    | TransportError
    | DuplicateTool(name: string)
    | InvalidEncoding
    | TooLarge
    | CursorLoop(cursor: string)

  // ---- what a discovery should do, stated on the cursor chain

  /** The cursor of request k. */
  function Cursor(serve: Server, k: nat): string {
    if k == 0 then "" else
      var r := serve(k - 1, Cursor(serve, k - 1));
      if r.Page? then r.next else ""
  }

  /** The cursors of the first n requests. */
  function Cursors(serve: Server, n: nat): seq<string> {
    if n == 0 then [] else Cursors(serve, n - 1) + [Cursor(serve, n - 1)]
  }

  function Reply(serve: Server, k: nat): Response {
    serve(k, Cursor(serve, k))
  }

  predicate Continues(serve: Server, k: nat) {
    Reply(serve, k).Page? && Reply(serve, k).next != ""
  }

  predicate Ends(serve: Server, k: nat) {
    Reply(serve, k).Nil? || (Reply(serve, k).Page? && Reply(serve, k).next == "")
  }

  /** The tools that are not nil, in order. */
  function Present(items: seq<Option<Tool>>): seq<Tool> {
    if items == [] then []
    else Present(items[..|items| - 1]) + if items[|items| - 1].Some? then [items[|items| - 1].value] else []
  }

  /** The tools of the first n replies, in order. */
  function Listed(serve: Server, n: nat): seq<Tool> {
    if n == 0 then []
    else Listed(serve, n - 1) + if Reply(serve, n - 1).Page? then Present(Reply(serve, n - 1).tools) else []
  }

  function Size(encode: Encoder, t: Tool): nat {
    if encode(t).Some? then encode(t).value else 0
  }

  function TotalBytes(encode: Encoder, ts: seq<Tool>): nat {
    if ts == [] then 0 else TotalBytes(encode, ts[..|ts| - 1]) + Size(encode, ts[|ts| - 1])
  }

  predicate Acceptable(encode: Encoder, ts: seq<Tool>) {
    && DistinctNames(ts)
    && AllEncode(encode, ts)
    && |ts| <= 4096
    && TotalBytes(encode, ts) <= 8388608
  }

  predicate SameCursor(serve: Server, i: nat, j: nat) {
    Cursor(serve, i) == Cursor(serve, j)
  }

  predicate DistinctCursors(serve: Server, n: nat) {
    forall i: nat, j: nat {:trigger SameCursor(serve, i, j)} :: i < j < n ==> !SameCursor(serve, i, j)
  }

  /** The chain of replies ends with reply n - 1 and everything in it is within the limits. */
  predicate EndsWithinLimits(serve: Server, closed: nat -> bool, encode: Encoder, n: nat) {
    && 1 <= n <= 64
    && (forall k: nat :: k < n - 1 ==> Continues(serve, k))
    && Ends(serve, n - 1)
    && (forall k: nat :: k < n ==> !closed(k))
    && Acceptable(encode, Listed(serve, n))
  }

  // ---- prefixes

  lemma {:induction false} BytesGrow(encode: Encoder, a: seq<Tool>, b: seq<Tool>)
    requires a <= b
    ensures TotalBytes(encode, a) <= TotalBytes(encode, b)
    decreases |b|
  {
    if |a| < |b| {
      BytesGrow(encode, a, b[..|b| - 1]);
    } else {
      assert a == b;
    }
  }

  lemma AcceptablePrefix(encode: Encoder, a: seq<Tool>, b: seq<Tool>)
    requires a <= b && Acceptable(encode, b)
    ensures Acceptable(encode, a)
  {
    BytesGrow(encode, a, b);
    forall i, j | 0 <= i < j < |a| ensures !SameName(a, i, j) {
      assert !SameName(b, i, j);
    }
    forall i | 0 <= i < |a| ensures Encodes(encode, a, i) {
      assert Encodes(encode, b, i);
    }
  }

  lemma {:induction false} ListedGrows(serve: Server, m: nat, n: nat)
    requires m <= n
    ensures Listed(serve, m) <= Listed(serve, n)
    decreases n
  {
    if m < n {
      ListedGrows(serve, m, n - 1);
    }
  }

  // ---- the loops

  function Names(ts: seq<Tool>): set<string> {
    if ts == [] then {} else Names(ts[..|ts| - 1]) + {ts[|ts| - 1].name}
  }

  predicate SameName(ts: seq<Tool>, i: int, j: int)
    requires 0 <= i < |ts| && 0 <= j < |ts|
  {
    ts[i].name == ts[j].name
  }

  predicate DistinctNames(ts: seq<Tool>) {
    forall i, j {:trigger SameName(ts, i, j)} :: 0 <= i < j < |ts| ==> !SameName(ts, i, j)
  }

  predicate Encodes(encode: Encoder, ts: seq<Tool>, i: int)
    requires 0 <= i < |ts|
  {
    encode(ts[i]).Some?
  }

  predicate AllEncode(encode: Encoder, ts: seq<Tool>) {
    forall i {:trigger Encodes(encode, ts, i)} :: 0 <= i < |ts| ==> Encodes(encode, ts, i)
  }

  lemma {:induction false} NamesMembers(ts: seq<Tool>, n: string)
    ensures n in Names(ts) <==> exists i :: 0 <= i < |ts| && ts[i].name == n
  {
    if ts != [] {
      NamesMembers(ts[..|ts| - 1], n);
      if n == ts[|ts| - 1].name {
        assert ts[|ts| - 1].name == n;
      }
    }
  }

  lemma NamesExtension(ts: seq<Tool>, t: Tool)
    ensures Names(ts + [t]) == Names(ts) + {t.name}
    ensures DistinctNames(ts) ==> (DistinctNames(ts + [t]) <==> t.name !in Names(ts))
  {
    var next := ts + [t];
    assert forall i :: 0 <= i < |ts| ==> next[i] == ts[i];
    assert next[..|ts|] == ts;
    NamesMembers(ts, t.name);
    if t.name in Names(ts) {
      var k :| 0 <= k < |ts| && ts[k].name == t.name;
      assert SameName(next, k, |ts|);
    } else if DistinctNames(ts) {
      forall i, j | 0 <= i < j < |next| ensures !SameName(next, i, j) {
        if j < |ts| {
          assert !SameName(ts, i, j);
        } else {
          assert next[i] == ts[i] && next[j] == t;
        }
      }
    }
  }

  /** When one more tool is acceptable. */
  lemma AcceptableExtension(encode: Encoder, ts: seq<Tool>, t: Tool)
    requires Acceptable(encode, ts)
    ensures Acceptable(encode, ts + [t]) <==>
      && t.name !in Names(ts) && encode(t).Some? && |ts| < MAX_DISCOVERED
      && TotalBytes(encode, ts) + Size(encode, t) <= MAX_CATALOG_BYTES
    ensures TotalBytes(encode, ts + [t]) == TotalBytes(encode, ts) + Size(encode, t)
  {
    var next := ts + [t];
    assert next[..|ts|] == ts && next[|ts|] == t;
    NamesExtension(ts, t);
    assert Encodes(encode, next, |ts|) <==> encode(t).Some?;
    if encode(t).Some? {
      forall i | 0 <= i < |next| ensures Encodes(encode, next, i) {
        assert i < |ts| ==> Encodes(encode, ts, i);
      }
    }
  }

  datatype PageResult = Kept | Rejected(error: Outcome)

  /** One tool against the limits. */
  method AddTool(encode: Encoder, all: seq<Tool>, names: set<string>, bytes: nat, t: Tool)
    returns (r: PageResult, total: nat)
    requires Acceptable(encode, all) && bytes == TotalBytes(encode, all) && names == Names(all)
    ensures r.Kept? <==> Acceptable(encode, all + [t])
    ensures r.Kept? ==> total == TotalBytes(encode, all + [t]) && names + {t.name} == Names(all + [t])
    ensures r.Rejected? ==> !r.error.Tools?
  {
    AcceptableExtension(encode, all, t);
    NamesExtension(all, t);
    total := bytes;
    if t.name in names {
      return Rejected(DuplicateTool(t.name)), total;
    }
    if encode(t).None? {
      return Rejected(InvalidEncoding), total;
    }
    total := total + encode(t).value;
    if |all| >= MAX_DISCOVERED || total > MAX_CATALOG_BYTES {
      return Rejected(TooLarge), total;
    }
    r := Kept;
  }

  /** The tools collected so far, with their total size and their names. */
  datatype Tally = Tally(all: seq<Tool>, bytes: nat, names: set<string>)

  ghost predicate Correct(encode: Encoder, y: Tally) {
    Acceptable(encode, y.all) && y.bytes == TotalBytes(encode, y.all) && y.names == Names(y.all)
  }

  /** The inner loop: one page into the accumulated list. */
  method CollectPage(encode: Encoder, items: seq<Option<Tool>>, before: Tally) returns (r: PageResult, after: Tally)
    requires Correct(encode, before)
    ensures r.Kept? <==> Acceptable(encode, before.all + Present(items))
    ensures r.Kept? ==> after.all == before.all + Present(items) && Correct(encode, after)
    ensures r.Rejected? ==> !r.error.Tools?
  {
    var all, names, bytes := before.all, before.names, before.bytes;
    r, after := Kept, before;
    for i := 0 to |items|
      invariant r.Kept? && all == before.all + Present(items[..i])
      invariant Acceptable(encode, all) && bytes == TotalBytes(encode, all) && names == Names(all)
    {
      PresentStep(items, i);
      if items[i].None? {
        continue;
      }
      var t := items[i].value;
      PrefixDecides(encode, all + [t], before.all + Present(items));
      r, bytes := AddTool(encode, all, names, bytes, t);
      if r.Rejected? {
        return;
      }
      names := names + {t.name};
      all := all + [t];
    }
    assert items[..|items|] == items;
    after := Tally(all, bytes, names);
  }

  lemma PrefixDecides(encode: Encoder, a: seq<Tool>, b: seq<Tool>)
    requires a <= b
    ensures !Acceptable(encode, a) ==> !Acceptable(encode, b)
  {
    if Acceptable(encode, b) {
      AcceptablePrefix(encode, a, b);
    }
  }

  lemma PresentStep(items: seq<Option<Tool>>, i: nat)
    requires i < |items|
    ensures Present(items[..i + 1]) == Present(items[..i]) + if items[i].Some? then [items[i].value] else []
    ensures Present(items[..i + 1]) <= Present(items)
  {
    assert items[..i + 1][..i] == items[..i];
    PresentGrows(items, i + 1);
  }

  /** Concatenation, the nil pointer and the single tool determine Present: nothing else is dropped, added or moved. */
  lemma {:induction false} PresentIsTheList(a: seq<Option<Tool>>, b: seq<Option<Tool>>, t: Tool)
    ensures Present(a + b) == Present(a) + Present(b)
    ensures Present([]) == [] && Present([None]) == [] && Present([Some(t)]) == [t]
    decreases |b|
  {
    var nil: seq<Option<Tool>>, one: seq<Option<Tool>> := [None], [Some(t)];
    assert nil[..0] == [] && one[..0] == [];
    if b == [] {
      assert a + b == a;
    } else {
      PresentIsTheList(a, b[..|b| - 1], t);
      assert (a + b)[..|a + b| - 1] == a + b[..|b| - 1];
    }
  }

  lemma {:induction false} PresentGrows(items: seq<Option<Tool>>, n: nat)
    requires n <= |items|
    ensures Present(items[..n]) <= Present(items)
    decreases |items|
  {
    if n < |items| {
      var shorter := items[..|items| - 1];
      PresentGrows(shorter, n);
      assert shorter[..n] == items[..n];
    } else {
      assert items[..n] == items;
    }
  }

  /** Every reply before reply k names a next page. */
  predicate ContinuesBelow(serve: Server, k: nat) {
    forall j: nat :: j < k ==> Continues(serve, j)
  }

  /** The next cursors named by the first k replies. */
  function CursorsAfter(serve: Server, k: nat): set<string> {
    if k == 0 then {} else CursorsAfter(serve, k - 1) + {Cursor(serve, k)}
  }

  lemma {:induction false} CursorsAfterMembers(serve: Server, k: nat, c: string)
    ensures c in CursorsAfter(serve, k) <==> exists j: nat :: 1 <= j <= k && Cursor(serve, j) == c
  {
    if k > 0 {
      CursorsAfterMembers(serve, k - 1, c);
      if c == Cursor(serve, k) {
        assert 1 <= k <= k && Cursor(serve, k) == c;
      }
    }
  }

  /** A next cursor that was not seen keeps the requests different, and only such a one does. */
  lemma NewCursor(serve: Server, k: nat)
    requires DistinctCursors(serve, k + 1) && Continues(serve, k)
    ensures Cursor(serve, k + 1) in CursorsAfter(serve, k) <==> !DistinctCursors(serve, k + 2)
  {
    var c := Cursor(serve, k + 1);
    assert c != Cursor(serve, 0);
    CursorsAfterMembers(serve, k, c);
    if c in CursorsAfter(serve, k) {
      var j: nat :| 1 <= j <= k && Cursor(serve, j) == c;
      assert SameCursor(serve, j, k + 1);
    } else {
      forall i: nat, j: nat | i < j < k + 2 ensures !SameCursor(serve, i, j) {
        if j == k + 1 {
          assert i == 0 || Cursor(serve, i) != c;
        } else {
          assert j < k + 1;
        }
      }
    }
  }

  /** Nothing was wrong with the first k replies. */
  ghost predicate Sound(serve: Server, closed: nat -> bool, encode: Encoder, k: nat) {
    && ContinuesBelow(serve, k)
    && DistinctCursors(serve, k + 1)
    && (forall j: nat :: j < k ==> !closed(j))
    && Acceptable(encode, Listed(serve, k))
  }

  /** What makes request k the last one, without success. */
  predicate Stops(serve: Server, closed: nat -> bool, encode: Encoder, k: nat) {
    || k >= MAX_PAGES
    || closed(k)
    || Reply(serve, k).Failed?
    || !Acceptable(encode, Listed(serve, k + 1))
    || (Continues(serve, k) && Cursor(serve, k + 1) in CursorsAfter(serve, k))
  }

  ghost predicate CanSucceed(serve: Server, closed: nat -> bool, encode: Encoder, n: nat) {
    EndsWithinLimits(serve, closed, encode, n) && DistinctCursors(serve, n)
  }

  lemma EndsLater(serve: Server, k: nat, n: nat)
    requires ContinuesBelow(serve, k) && 1 <= n && Ends(serve, n - 1)
    ensures k < n
  {
    assert !Continues(serve, n - 1);
  }

  lemma FewerAreDistinct(serve: Server, m: nat, n: nat)
    requires m <= n && DistinctCursors(serve, n)
    ensures DistinctCursors(serve, m)
  {
  }

  /** A chain that ends with reply n - 1 does not pass a reply that stops discovery. */
  lemma StopsForGood(serve: Server, closed: nat -> bool, encode: Encoder, k: nat, n: nat)
    requires Sound(serve, closed, encode, k) && CanSucceed(serve, closed, encode, n)
    ensures !Stops(serve, closed, encode, k)
  {
    EndsLater(serve, k, n);
    AcceptableBelow(serve, encode, k + 1, n);
    if Continues(serve, k) {
      EndsLater(serve, k + 1, n);
      FewerAreDistinct(serve, k + 2, n);
      NewCursor(serve, k);
    } else {
      assert k == n - 1;
    }
  }

  lemma AcceptableBelow(serve: Server, encode: Encoder, m: nat, n: nat)
    requires m <= n && Acceptable(encode, Listed(serve, n))
    ensures Acceptable(encode, Listed(serve, m))
  {
    ListedGrows(serve, m, n);
    AcceptablePrefix(encode, Listed(serve, m), Listed(serve, n));
  }

  ghost predicate Hopeless(serve: Server, closed: nat -> bool, encode: Encoder) {
    forall n: nat :: !CanSucceed(serve, closed, encode, n)
  }

  lemma StopIsHopeless(serve: Server, closed: nat -> bool, encode: Encoder, k: nat)
    requires Sound(serve, closed, encode, k)
    ensures Stops(serve, closed, encode, k) ==> Hopeless(serve, closed, encode)
  {
    forall n: nat ensures Stops(serve, closed, encode, k) ==> !CanSucceed(serve, closed, encode, n) {
      if Stops(serve, closed, encode, k) && CanSucceed(serve, closed, encode, n) {
        StopsForGood(serve, closed, encode, k, n);
      }
    }
  }

  lemma StaysSound(serve: Server, closed: nat -> bool, encode: Encoder, k: nat)
    requires Sound(serve, closed, encode, k) && !Stops(serve, closed, encode, k) && Continues(serve, k)
    ensures Sound(serve, closed, encode, k + 1)
  {
    NewCursor(serve, k);
  }

  lemma Finishes(serve: Server, closed: nat -> bool, encode: Encoder, k: nat)
    requires Sound(serve, closed, encode, k) && !Stops(serve, closed, encode, k) && Ends(serve, k)
    ensures CanSucceed(serve, closed, encode, k + 1)
  {
  }

  /** The loop did not stop at one of the first k requests. */
  predicate Passed(serve: Server, closed: nat -> bool, encode: Encoder, k: nat) {
    k == 0 || (Passed(serve, closed, encode, k - 1) && !Stops(serve, closed, encode, k - 1) && Continues(serve, k - 1))
  }

  lemma {:induction false} PassedIsSound(serve: Server, closed: nat -> bool, encode: Encoder, k: nat)
    requires Passed(serve, closed, encode, k)
    ensures Sound(serve, closed, encode, k)
  {
    if k > 0 {
      PassedIsSound(serve, closed, encode, k - 1);
      StaysSound(serve, closed, encode, k - 1);
    }
  }

  /** The cursors met so far: those named by replies, the next one to send, and those sent. */
  datatype Trail = Trail(seen: set<string>, cursor: string, requests: seq<string>)

  ghost predicate Follows(serve: Server, k: nat, t: Trail) {
    t.seen == CursorsAfter(serve, k) && t.cursor == Cursor(serve, k) && t.requests == Cursors(serve, k) && |t.requests| == k
  }

  /** What the variables of the loop hold when k requests were answered. */
  ghost predicate Reached(serve: Server, closed: nat -> bool, encode: Encoder, k: nat, y: Tally, t: Trail) {
    && Passed(serve, closed, encode, k)
    && y.all == Listed(serve, k) && Correct(encode, y)
    && Follows(serve, k, t)
  }

  /** How the loop leaves at request k. */
  ghost predicate Left(serve: Server, closed: nat -> bool, encode: Encoder, k: nat, r: Outcome, requests: seq<string>) {
    && Passed(serve, closed, encode, k)
    && k <= |requests| <= k + 1 && requests == Cursors(serve, |requests|) && |requests| <= MAX_PAGES
    && (r.Tools? ==> Ends(serve, k) && |requests| == k + 1 && r.tools == Listed(serve, k + 1))
    && (!r.Tools? <==> Stops(serve, closed, encode, k))
  }

  datatype Round = Next(tally: Tally, trail: Trail) | Leave(outcome: Outcome, requests: seq<string>)

  lemma LeaveUnasked(serve: Server, closed: nat -> bool, encode: Encoder, k: nat, t: Trail, r: Outcome)
    requires k <= MAX_PAGES && Passed(serve, closed, encode, k) && Follows(serve, k, t)
    requires !r.Tools? && (k == MAX_PAGES || closed(k))
    ensures Left(serve, closed, encode, k, r, t.requests)
  {
  }

  lemma LeaveAsked(serve: Server, closed: nat -> bool, encode: Encoder, k: nat, t: Trail, r: Outcome)
    requires k < MAX_PAGES && Passed(serve, closed, encode, k) && Follows(serve, k, t)
    requires !r.Tools? <==> Stops(serve, closed, encode, k)
    requires r.Tools? ==> Ends(serve, k) && r.tools == Listed(serve, k + 1)
    ensures Left(serve, closed, encode, k, r, t.requests + [t.cursor])
  {
  }

  lemma FollowsOn(serve: Server, k: nat, t: Trail)
    requires Follows(serve, k, t) && Reply(serve, k).Page?
    ensures var next := Reply(serve, k).next;
      Follows(serve, k + 1, Trail(t.seen + {next}, next, t.requests + [t.cursor]))
    ensures t.cursor in t.seen || t.cursor == ""
  {
    assert k > 0 ==> t.cursor in CursorsAfter(serve, k);
  }

  lemma ListedOn(serve: Server, k: nat)
    requires !Reply(serve, k).Failed?
    ensures Listed(serve, k + 1) == Listed(serve, k) + if Reply(serve, k).Page? then Present(Reply(serve, k).tools) else []
  {
  }

  /** A reply that holds a page. */
  method TakeReply(serve: Server, closed: nat -> bool, encode: Encoder, k: nat, y: Tally, t: Trail) returns (r: Round)
    requires k < MAX_PAGES && Reached(serve, closed, encode, k, y, t)
    requires !closed(k) && Reply(serve, k).Page?
    ensures r.Next? ==> Reached(serve, closed, encode, k + 1, r.tally, r.trail)
    ensures r.Leave? ==> Left(serve, closed, encode, k, r.outcome, r.requests)
  {
    var requests := t.requests + [t.cursor];
    var res := serve(k, t.cursor);
    ListedOn(serve, k);
    FollowsOn(serve, k, t);
    var kept, y' := CollectPage(encode, res.tools, y);
    if kept.Rejected? {
      LeaveAsked(serve, closed, encode, k, t, kept.error);
      return Leave(kept.error, requests);
    }
    if res.next == "" {
      LeaveAsked(serve, closed, encode, k, t, Tools(y'.all));
      return Leave(Tools(y'.all), requests);
    }
    if res.next in t.seen || res.next == t.cursor {
      LeaveAsked(serve, closed, encode, k, t, CursorLoop(res.next));
      return Leave(CursorLoop(res.next), requests);
    }
    r := Next(y', Trail(t.seen + {res.next}, res.next, requests));
  }

  /** One round of the loop: request k and its reply. */
  method TakePage(serve: Server, closed: nat -> bool, encode: Encoder, k: nat, y: Tally, t: Trail) returns (r: Round)
    requires k <= MAX_PAGES && Reached(serve, closed, encode, k, y, t)
    ensures r.Next? ==> k < MAX_PAGES && Reached(serve, closed, encode, k + 1, r.tally, r.trail)
    ensures r.Leave? ==> Left(serve, closed, encode, k, r.outcome, r.requests)
  {
    if k >= MAX_PAGES {
      LeaveUnasked(serve, closed, encode, k, t, TooManyPages);
      return Leave(TooManyPages, t.requests);
    }
    if closed(k) {
      LeaveUnasked(serve, closed, encode, k, t, SessionClosed);
      return Leave(SessionClosed, t.requests);
    }
    var res := serve(k, t.cursor);
    if res.Failed? {
      LeaveAsked(serve, closed, encode, k, t, TransportError);
      return Leave(TransportError, t.requests + [t.cursor]);
    }
    if res.Nil? {
      ListedOn(serve, k);
      assert Listed(serve, k + 1) == y.all;
      LeaveAsked(serve, closed, encode, k, t, Tools(y.all));
      return Leave(Tools(y.all), t.requests + [t.cursor]);
    }
    r := TakeReply(serve, closed, encode, k, y, t);
  }

  method Start(serve: Server, closed: nat -> bool, encode: Encoder) returns (y: Tally, t: Trail)
    ensures Reached(serve, closed, encode, 0, y, t)
  {
    y, t := Tally([], 0, {}), Trail({}, "", []);
  }

  /** The loop: it leaves at the first request that stops it or ends the chain. */
  method Walk(serve: Server, closed: nat -> bool, encode: Encoder)
    returns (r: Outcome, requests: seq<string>, ghost last: nat)
    ensures Left(serve, closed, encode, last, r, requests)
  {
    var page: nat := 0;
    var y, t := Start(serve, closed, encode);
    while true
      invariant page <= MAX_PAGES && Reached(serve, closed, encode, page, y, t)
      decreases MAX_PAGES - page
    {
      var round := TakePage(serve, closed, encode, page, y, t);
      match round {
        case Leave(outcome, asked) => return outcome, asked, page;
        case Next(y', t') => y, t, page := y', t', page + 1;
      }
    }
  }

  /** Discovery.  At most 64 requests are made, with pairwise different cursors,
      the first one empty.  It succeeds exactly when the chain of replies ends
      within the limits without repeating a cursor, and then returns the
      in-order concatenation of the pages. */
  method FetchPages(serve: Server, closed: nat -> bool, encode: Encoder) returns (r: Outcome, requests: seq<string>)
    ensures |requests| <= 64
    ensures requests == Cursors(serve, |requests|)
    ensures DistinctCursors(serve, |requests|)
    ensures r.Tools? ==> CanSucceed(serve, closed, encode, |requests|) && r.tools == Listed(serve, |requests|)
    ensures !r.Tools? ==> Hopeless(serve, closed, encode)
  {
    ghost var last;
    r, requests, last := Walk(serve, closed, encode);
    PassedIsSound(serve, closed, encode, last);
    if r.Tools? {
      Finishes(serve, closed, encode, last);
    } else {
      StopIsHopeless(serve, closed, encode, last);
    }
  }

  // ---- a server that is a function of the cursor

  /** The server answers every request by the cursor alone. */
  ghost predicate Stateless(serve: Server, answer: string -> Response) {
    forall k: nat, c: string :: serve(k, c) == answer(c)
  }

  /** From equal cursors on, the chains are equal. */
  lemma {:induction false} SameCursorSameChain(serve: Server, answer: string -> Response, i: nat, j: nat, d: nat)
    requires Stateless(serve, answer) && Cursor(serve, i) == Cursor(serve, j)
    ensures Cursor(serve, i + d) == Cursor(serve, j + d) && Reply(serve, i + d) == Reply(serve, j + d)
  {
    if d > 0 {
      SameCursorSameChain(serve, answer, i, j, d - 1);
    }
  }

  lemma ContinuesAt(serve: Server, n: nat, k: nat)
    requires ContinuesBelow(serve, n) && k < n
    ensures Continues(serve, k)
  {
  }

  /** A chain of such a server that ends has repeated no cursor. */
  lemma EndingChainHasNoLoop(serve: Server, answer: string -> Response, n: nat)
    requires Stateless(serve, answer) && 1 <= n && ContinuesBelow(serve, n - 1) && Ends(serve, n - 1)
    ensures DistinctCursors(serve, n)
  {
    forall i: nat, j: nat | i < j < n ensures !SameCursor(serve, i, j) {
      if SameCursor(serve, i, j) {
        SameCursorSameChain(serve, answer, i, j, n - 1 - j);
        ContinuesAt(serve, n - 1, i + (n - 1 - j));
        assert false;
      }
    }
  }

  /** For such a server discovery succeeds exactly when its cursor chain ends
      within the limits: the test for repeated cursors rejects no such chain. */
  lemma StatelessChainDecides(serve: Server, answer: string -> Response, closed: nat -> bool, encode: Encoder, n: nat)
    requires Stateless(serve, answer)
    ensures CanSucceed(serve, closed, encode, n) <==> EndsWithinLimits(serve, closed, encode, n)
  {
    if EndsWithinLimits(serve, closed, encode, n) {
      EndingChainHasNoLoop(serve, answer, n);
    }
  }
}
