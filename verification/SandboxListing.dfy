/** Listing sandboxes page by page, with the creation time of the last one seen as the cursor. */
module SandboxListing {
  import opened Common

  /** Creation times are real-valued seconds. */
  datatype Entry = Entry(id: string, createdAt: real)

  /** The server lists newest first and every creation time is positive. */
  ghost predicate Listing(entries: seq<Entry>) {
    && (forall i :: 0 <= i < |entries| ==> entries[i].createdAt > 0.0)
    && (forall i, j :: 0 <= i < j < |entries| ==> entries[i].createdAt >= entries[j].createdAt)
  }

  ghost predicate DistinctTimes(entries: seq<Entry>) {
    forall i, j :: 0 <= i < j < |entries| ==> entries[i].createdAt != entries[j].createdAt
  }

  /** The entries the server still has for a cursor, where 0 means no bound. */
  function Remaining(entries: seq<Entry>, before: real): (rest: seq<Entry>)
    ensures |rest| <= |entries|
  {
    if entries == [] then []
    else (if before == 0.0 || entries[0].createdAt < before then [entries[0]] else []) + Remaining(entries[1..], before)
  }

  /** The server's choice for the `k`-th request: how many entries to put on the page (at least one
      when any remain), or an error. */
  datatype PageReply = Page(size: nat) | Fault(code: Code)

  type Server = nat -> PageReply

  function PageOf(entries: seq<Entry>, before: real, size: nat): (page: seq<Entry>)
    ensures page == [] <==> Remaining(entries, before) == []
  {
    var rest := Remaining(entries, before);
    rest[..Min(Max(1, size), |rest|)]
  }

  /** What the client gathers from request `k` on with this cursor. */
  function Gather(entries: seq<Entry>, before: real, server: Server, k: nat): Result<seq<Entry>>
    requires Listing(entries)
    decreases |Remaining(entries, before)|
  {
    match server(k)
    case Fault(code) => Err(Grpc(code))
    case Page(size) =>
      var page := PageOf(entries, before, size);
      if page == [] then Ok([])
      else
        PageShrinks(entries, before, page);
        Prepend(page, Gather(entries, page[|page| - 1].createdAt, server, k + 1))
  }

  function Prepend(page: seq<Entry>, more: Result<seq<Entry>>): Result<seq<Entry>> {
    match more case Err(e) => Err(e) case Ok(rest) => Ok(page + rest)
  }

  lemma {:induction false} PrependTwice(a: seq<Entry>, b: seq<Entry>, more: Result<seq<Entry>>)
    ensures Prepend(a, Prepend(b, more)) == Prepend(a + b, more)
    ensures Prepend([], more) == more
  {
    if more.Ok? {
      assert a + (b + more.value) == (a + b) + more.value;
      assert [] + more.value == more.value;
    }
  }

  lemma {:induction false} PageShrinks(entries: seq<Entry>, before: real, page: seq<Entry>)
    requires Listing(entries) && page != [] && page <= Remaining(entries, before)
    ensures |Remaining(entries, page[|page| - 1].createdAt)| < |Remaining(entries, before)|
  {
    var last := page[|page| - 1];
    assert last in Remaining(entries, before);
    RemainingMember(entries, before, last);
    CursorShrinks(entries, before, last);
  }

  lemma {:induction false} RemainingMember(entries: seq<Entry>, before: real, e: Entry)
    ensures e in Remaining(entries, before) <==> e in entries && (before == 0.0 || e.createdAt < before)
    decreases |entries|
  {
    if entries == [] {
    } else {
      RemainingMember(entries[1..], before, e);
      assert e in entries <==> e == entries[0] || e in entries[1..];
    }
  }

  lemma {:induction false} CursorShrinks(entries: seq<Entry>, before: real, last: Entry)
    requires Listing(entries) && last.createdAt > 0.0
    requires before == 0.0 || last.createdAt < before
    ensures |Remaining(entries, last.createdAt)| <= |Remaining(entries, before)|
    ensures last in entries ==> |Remaining(entries, last.createdAt)| < |Remaining(entries, before)|
    decreases |entries|
  {
    if entries == [] {
    } else {
      CursorShrinks(entries[1..], before, last);
      assert last in entries <==> last == entries[0] || last in entries[1..];
    }
  }

  /** The cursor after these pages. */
  function Cursor(pages: seq<seq<Entry>>): real {
    if pages == [] || pages[|pages| - 1] == [] then 0.0
    else var last := pages[|pages| - 1]; last[|last| - 1].createdAt
  }

  function Concat(pages: seq<seq<Entry>>): seq<Entry> {
    if pages == [] then [] else Concat(pages[..|pages| - 1]) + pages[|pages| - 1]
  }

  /** The server answered each request with a page, none of them empty, of what lies strictly before
      the last entry of the page before. */
  ghost predicate GoodPages(entries: seq<Entry>, server: Server, pages: seq<seq<Entry>>) {
    forall j :: 0 <= j < |pages| ==> GoodPage(entries, server, Cursor(pages[..j]), j, pages[j])
  }

  ghost predicate GoodPage(entries: seq<Entry>, server: Server, before: real, j: nat, page: seq<Entry>) {
    server(j).Page? && page != [] && page == PageOf(entries, before, server(j).size)
  }

  /** The requests go on as long as pages come. The one after them decides: an error is returned as it
      is, whatever has been gathered, and an empty page, which means that nothing is left before the
      cursor, ends the listing with all pages in order. */
  method List(entries: seq<Entry>, server: Server) returns (r: Result<seq<Entry>>, ghost pages: seq<seq<Entry>>)
    requires Listing(entries)
    ensures r == Gather(entries, 0.0, server, 0)
    ensures GoodPages(entries, server, pages)
    ensures match server(|pages|)
            case Fault(code) => r == Err(Grpc(code))
            case Page(_) => Remaining(entries, Cursor(pages)) == [] && r == Ok(Concat(pages))
    ensures DistinctTimes(entries) ==> r == Ok(entries) || r.Err?
  {
    hide Prepend, Listing, Remaining, DistinctTimes, Gather, GoodPages;
    var all: seq<Entry> := [];
    var before, k := 0.0, 0;
    pages := [];
    NoPages(entries, server);
    PrependTwice([], [], Gather(entries, 0.0, server, 0));
    if DistinctTimes(entries) {
      AllOrFault(entries, server);
    }
    while true
      invariant Gather(entries, 0.0, server, 0) == Prepend(all, Gather(entries, before, server, k))
      invariant GoodPages(entries, server, pages) && k == |pages|
      invariant before == Cursor(pages) && all == Concat(pages)
      decreases |Remaining(entries, before)|
    {
      var reply := server(k);
      GatherStep(entries, before, server, k);
      if reply.Fault? {
        PrependEnd(all, Err(Grpc(reply.code)));
        return Err(Grpc(reply.code)), pages;
      }
      var page := PageOf(entries, before, reply.size);
      if page == [] {
        break;
      }
      PageShrinks(entries, before, page);
      var next := page[|page| - 1].createdAt;
      PrependTwice(all, page, Gather(entries, next, server, k + 1));
      OneMorePage(entries, server, pages, page);
      before := next;
      all := all + page;
      pages := pages + [page];
      k := k + 1;
    }
    PrependEnd(all, Ok([]));
    r := Ok(all);
  }

  lemma {:induction false} NoPages(entries: seq<Entry>, server: Server)
    ensures GoodPages(entries, server, []) && Concat([]) == [] && Cursor([]) == 0.0
  {
  }

  lemma {:induction false} OneMorePage(entries: seq<Entry>, server: Server, pages: seq<seq<Entry>>, page: seq<Entry>)
    requires GoodPages(entries, server, pages) && page != []
    requires server(|pages|).Page? && page == PageOf(entries, Cursor(pages), server(|pages|).size)
    ensures var all := pages + [page];
            && GoodPages(entries, server, all)
            && Concat(all) == Concat(pages) + page && Cursor(all) == page[|page| - 1].createdAt
  {
    var all := pages + [page];
    assert all[..|pages|] == pages;
    assert GoodPage(entries, server, Cursor(pages), |pages|, page);
    hide GoodPage, Cursor, Concat;
    forall j | 0 <= j < |all|
      ensures GoodPage(entries, server, Cursor(all[..j]), j, all[j])
    {
      assert all[..j] == pages[..j];
      if j < |pages| {
        assert GoodPage(entries, server, Cursor(pages[..j]), j, pages[j]);
      }
    }
  }

  lemma {:induction false} GatherStep(entries: seq<Entry>, before: real, server: Server, k: nat)
    requires Listing(entries)
    ensures match server(k)
            case Fault(code) => Gather(entries, before, server, k) == Err(Grpc(code))
            case Page(size) =>
              var page := PageOf(entries, before, size);
              if page == [] then Gather(entries, before, server, k) == Ok([])
              else
                Gather(entries, before, server, k)
                == Prepend(page, Gather(entries, page[|page| - 1].createdAt, server, k + 1))
  {
    hide Prepend;
  }

  lemma {:induction false} PrependEnd(all: seq<Entry>, end: Result<seq<Entry>>)
    requires end.Ok? ==> end.value == []
    ensures Prepend(all, end) == match end case Err(e) => Err(e) case Ok(_) => Ok(all)
  {
    assert all + [] == all;
  }

  // ---- Completeness ----

  ghost predicate Healthy(server: Server) {
    forall k :: server(k).Page?
  }

  lemma {:induction false} NothingBelow(entries: seq<Entry>, before: real)
    requires Listing(entries) && before > 0.0 && (entries != [] ==> entries[0].createdAt < before)
    ensures Remaining(entries, before) == entries
    decreases |entries|
  {
    if entries == [] {
    } else {
      NothingBelow(entries[1..], before);
    }
  }

  lemma {:induction false} NoBound(entries: seq<Entry>)
    ensures Remaining(entries, 0.0) == entries
    decreases |entries|
  {
    if entries == [] {
    } else {
      NoBound(entries[1..]);
    }
  }

  /** With distinct times the cursor cuts the listing right after the last entry seen. */
  lemma {:induction false} RemainingAfter(entries: seq<Entry>, n: nat)
    requires Listing(entries) && DistinctTimes(entries) && 0 < n <= |entries|
    ensures Remaining(entries, entries[n - 1].createdAt) == entries[n..]
    decreases |entries|
  {
    var before := entries[n - 1].createdAt;
    if n == 1 {
      NothingBelow(entries[1..], before);
    } else {
      RemainingAfter(entries[1..], n - 1);
      assert entries[0].createdAt > before;
      assert entries[1..][n - 1..] == entries[n..];
    }
  }

  /** The result of the first fault met from request `k` on. */
  ghost predicate FromFault(server: Server, k: nat, r: Result<seq<Entry>>) {
    exists m: nat :: k <= m && server(m).Fault? && r == Err(Grpc(server(m).code))
                     && forall j: nat :: k <= j < m ==> server(j).Page?
  }

  lemma {:induction false} GatherRest(entries: seq<Entry>, n: nat, before: real, server: Server, k: nat)
    requires Listing(entries) && DistinctTimes(entries) && n <= |entries|
    requires Remaining(entries, before) == entries[n..]
    ensures var r := Gather(entries, before, server, k); r == Ok(entries[n..]) || FromFault(server, k, r)
    decreases |entries| - n
  {
    hide Listing, DistinctTimes, Remaining, FromFault;
    if server(k).Page? {
      var page := PageOf(entries, before, server(k).size);
      if page == [] {
      } else {
        PageShrinks(entries, before, page);
        var m := n + |page|;
        assert page == entries[n..m] && page[|page| - 1] == entries[m - 1];
        RemainingAfter(entries, m);
        GatherRest(entries, m, entries[m - 1].createdAt, server, k + 1);
        assert entries[n..m] + entries[m..] == entries[n..];
        LaterFault(server, k, Gather(entries, entries[m - 1].createdAt, server, k + 1));
      }
    } else {
      FaultNow(server, k);
    }
  }

  lemma {:induction false} FaultNow(server: Server, k: nat)
    requires server(k).Fault?
    ensures FromFault(server, k, Err(Grpc(server(k).code)))
  {
  }

  lemma {:induction false} LaterFault(server: Server, k: nat, r: Result<seq<Entry>>)
    requires server(k).Page?
    ensures FromFault(server, k + 1, r) ==> FromFault(server, k, r) && r.Err?
  {
  }

  /** With distinct creation times, any server makes the listing either complete, newest first, or the
      error of the first fault met; never a part. */
  lemma {:induction false} AllOrFault(entries: seq<Entry>, server: Server)
    requires Listing(entries) && DistinctTimes(entries)
    ensures var r := Gather(entries, 0.0, server, 0); r == Ok(entries) || FromFault(server, 0, r)
  {
    hide Gather, Remaining, FromFault;
    NoBound(entries);
    assert entries[0..] == entries;
    GatherRest(entries, 0, 0.0, server, 0);
  }

  /** A first page that ends inside a run of equal times makes the rest of that run unreachable. */
  lemma {:induction false} TieLoses(entries: seq<Entry>, i: nat, server: Server)
    requires Listing(entries) && i + 1 < |entries| && entries[i].createdAt == entries[i + 1].createdAt
    requires Healthy(server) && server(0) == Page(i + 1)
    ensures Gather(entries, 0.0, server, 0) != Ok(entries)
  {
    NoBound(entries);
    var page := PageOf(entries, 0.0, i + 1);
    assert page == entries[..i + 1] && page[|page| - 1] == entries[i];
    var before := entries[i].createdAt;
    var more := Gather(entries, before, server, 1);
    if more.Ok? {
      GatherBelow(entries, before, server, 1, entries[i + 1].createdAt);
      if more.value != [] {
        assert (page + more.value)[i + 1] == more.value[0];
      }
    }
  }

  /** Nothing at or above the cursor is ever gathered again. */
  lemma {:induction false} GatherBelow(entries: seq<Entry>, before: real, server: Server, k: nat, bound: real)
    requires Listing(entries) && 0.0 < before <= bound
    ensures var r := Gather(entries, before, server, k);
            r.Ok? ==> forall i :: 0 <= i < |r.value| ==> r.value[i].createdAt < bound
    decreases |Remaining(entries, before)|
  {
    if server(k).Page? {
      var page := PageOf(entries, before, server(k).size);
      if page != [] {
        forall i | 0 <= i < |page| ensures page[i].createdAt < before && page[i] in entries {
          assert page[i] in Remaining(entries, before);
          RemainingMember(entries, before, page[i]);
        }
        PageShrinks(entries, before, page);
        GatherBelow(entries, page[|page| - 1].createdAt, server, k + 1, bound);
      }
    }
  }

  /** The listing terminates, fails only when the server does, and returns every sandbox exactly once,
      newest first, whatever the page sizes, exactly when no two creation times are equal. */
  lemma {:induction false} CompleteIffTimesDistinct(entries: seq<Entry>)
    requires Listing(entries)
    ensures DistinctTimes(entries) <==>
            forall server: Server | Healthy(server) :: Gather(entries, 0.0, server, 0) == Ok(entries)
  {
    hide Gather, Remaining;
    if DistinctTimes(entries) {
      forall server: Server | Healthy(server)
        ensures Gather(entries, 0.0, server, 0) == Ok(entries)
      {
        AllOrFault(entries, server);
      }
    } else {
      var i, j :| 0 <= i < j < |entries| && entries[i].createdAt == entries[j].createdAt;
      assert entries[i].createdAt == entries[i + 1].createdAt;
      var server: Server := k => Page(i + 1);
      TieLoses(entries, i, server);
      assert Healthy(server);
    }
  }
}
