// Listing the fleet: a walk over the backend's pages that emits filtered pages of the client's
// size, each with a cursor (backend token, offset in that page) to resume from.
module Listing {
  import opened Wrappers
  import opened Domain
  import WorkflowIds

  datatype Execution = Execution(workflowType: string, workflowID: string, startTime: Option<int>)

  datatype ListOptions = ListOptions(environment: string, namespace: string, limit: int, pageToken: PageToken)

  /** `startedAt` stays at Go's zero time, here None, when the execution carries no start time. */
  datatype Summary = Summary(identity: DeploymentIdentity, workflowID: string, startedAt: Option<int>)

  datatype DeploymentList = DeploymentList(deployments: seq<Summary>, next: PageToken)

  datatype ListError = InvalidPageToken | BackendError

  // ----- The visibility backend -----

  /** The backend's opaque page token; an empty one asks for the first page, or ends the list. */
  datatype Token = NoToken | At(pos: nat)

  /** A fixed list of executions, cut into pages: `cut(p, size)` is where the page that starts at
      p ends. The last page may or may not carry a token for a further, empty page. */
  datatype Backend = Backend(executions: seq<Execution>, cut: (nat, nat) -> nat, trailing: bool) {

    ghost predicate Valid() {
      forall p: nat, size: nat {:trigger cut(p, size)} :: p < |executions| && size > 0 ==>
          p < cut(p, size) <= |executions|
    }

    function Start(token: Token): nat {
      if token.NoToken? then 0 else token.pos
    }

    function End(p: nat, size: nat): nat {
      if p < |executions| then cut(p, size) else |executions|
    }

    /** The token that comes with the page starting at p. */
    function NextToken(p: nat, size: nat): Token {
      if End(p, size) < |executions| || (trailing && p < |executions|) then At(End(p, size)) else NoToken
    }

    method ListWorkflow(size: nat, token: Token) returns (r: Result<(seq<Execution>, Token), ()>)
      requires Valid() && size > 0
      ensures r.Ok? <==> Start(token) <= |executions|
      ensures r.Ok? ==> Start(token) <= End(Start(token), size) <= |executions|
      ensures r.Ok? ==> r.value == (executions[Start(token)..End(Start(token), size)], NextToken(Start(token), size))
    {
      var p := Start(token);
      if p > |executions| {
        return Err(());
      }
      assert p < |executions| ==> p < cut(p, size) <= |executions|;
      r := Ok((executions[p..End(p, size)], NextToken(p, size)));
    }
  }

  // ----- Cursors -----

  datatype Cursor = Cursor(token: Token, offset: int)

  /** What a client may send: nothing, an encoded cursor, or a string that does not decode. */
  datatype PageToken = Empty | Encoded(cursor: Cursor) | Garbage

  function Decode(token: PageToken): Result<Cursor, ListError> {
    match token
    case Empty => Ok(Cursor(NoToken, 0))
    case Encoded(cursor) => Ok(cursor)
    case Garbage => Err(InvalidPageToken)
  }

  function Encode(cursor: Cursor): PageToken {
    if cursor.token.NoToken? && cursor.offset == 0 then Empty else Encoded(cursor)
  }

  function EffectiveLimit(limit: int): (r: nat)
    ensures 1 <= r <= 500
  {
    if limit <= 0 then 100 else if limit > 500 then 500 else limit
  }

  function PageSize(limit: nat): (r: nat)
    ensures 100 <= r <= 1000
  {
    if limit * 2 < 100 then 100 else if limit * 2 > 1000 then 1000 else limit * 2
  }

  // ----- What is listed -----

  predicate Matches(e: Execution, options: ListOptions) {
    && e.workflowType == "DeploymentActorWorkflow"
    && var identity := WorkflowIds.Parse(e.workflowID);
       && identity.Some?
       && (options.environment == "" || identity.value.environment == options.environment)
       && (options.namespace == "" || identity.value.namespace == options.namespace)
  }

  function Summarize(e: Execution): Summary
    requires WorkflowIds.Parse(e.workflowID).Some?
  {
    Summary(WorkflowIds.Parse(e.workflowID).value, e.workflowID, e.startTime)
  }

  /** The whole answer: the matching executions, in the backend's order. */
  function Matching(es: seq<Execution>, options: ListOptions): seq<Summary> {
    if es == [] then []
    else if Matches(es[0], options) then [Summarize(es[0])] + Matching(es[1..], options)
    else Matching(es[1..], options)
  }

  /** One client page on the flat list: the first `limit` matches from p on, and where it stops. */
  function Scan(es: seq<Execution>, options: ListOptions, p: nat, limit: nat): (r: (seq<Summary>, nat))
    requires p <= |es|
    ensures p <= r.1 <= |es| && |r.0| <= limit
    ensures |r.0| < limit ==> r.1 == |es|
    ensures limit > 0 && |r.0| == limit ==> p < r.1
    decreases |es| - p
  {
    if p == |es| || limit == 0 then ([], p)
    else if Matches(es[p], options) then
      var (rest, end) := Scan(es, options, p + 1, limit - 1);
      ([Summarize(es[p])] + rest, end)
    else Scan(es, options, p + 1, limit)
  }

  /** The cursor that resumes at `end`, walking the backend's pages from the one at p. */
  function CursorAt(b: Backend, size: nat, token: Token, end: nat): Cursor
    requires b.Valid() && size > 0 && b.Start(token) < end <= |b.executions|
    decreases |b.executions| - b.Start(token)
  {
    var p := b.Start(token);
    assert p < b.cut(p, size) <= |b.executions|;
    if end < b.End(p, size) then Cursor(token, end - p)
    else if end == b.End(p, size) then Cursor(b.NextToken(p, size), 0)
    else CursorAt(b, size, b.NextToken(p, size), end)
  }

  /** The cursor lies within a page of the backend. */
  predicate Resumes(b: Backend, size: nat, cursor: Cursor) {
    && b.Start(cursor.token) <= |b.executions|
    && 0 <= cursor.offset <= b.End(b.Start(cursor.token), size) - b.Start(cursor.token)
  }

  function Position(b: Backend, cursor: Cursor): int {
    b.Start(cursor.token) + cursor.offset
  }

  function ListPage(b: Backend, options: ListOptions): Result<DeploymentList, ListError>
    requires b.Valid()
  {
    var limit := EffectiveLimit(options.limit);
    var size := PageSize(limit);
    match Decode(options.pageToken)
    case Err(e) => Err(e)
    case Ok(cursor) =>
      if b.Start(cursor.token) > |b.executions| then Err(BackendError)
      else if !Resumes(b, size, cursor) then Err(InvalidPageToken)
      else
        ResumeInRange(b, size, cursor);
        var (found, end) := Scan(b.executions, options, Position(b, cursor), limit);
        if |found| < limit then Ok(DeploymentList(found, Empty))
        else Ok(DeploymentList(found, Encode(CursorAt(b, size, cursor.token, end))))
  }

  lemma ResumeInRange(b: Backend, size: nat, cursor: Cursor)
    requires b.Valid() && size > 0 && Resumes(b, size, cursor)
    ensures 0 <= Position(b, cursor) <= |b.executions|
  {
    var p := b.Start(cursor.token);
    assert p < |b.executions| ==> p < b.cut(p, size) <= |b.executions|;
  }

  /** What has been found up to p, and what a scan from p on adds to it. */
  ghost predicate Accumulated(b: Backend, options: ListOptions, limit: nat, total: (seq<Summary>, nat),
                              found: seq<Summary>, p: int) {
    && |found| <= limit && 0 <= p <= |b.executions|
    && total.0 == found + Scan(b.executions, options, p, limit - |found|).0
    && total.1 == Scan(b.executions, options, p, limit - |found|).1
  }

  lemma AccumulateMatch(b: Backend, options: ListOptions, limit: nat, total: (seq<Summary>, nat), found: seq<Summary>,
                        p: nat)
    requires Accumulated(b, options, limit, total, found, p) && |found| < limit && p < |b.executions|
    requires Matches(b.executions[p], options)
    ensures Accumulated(b, options, limit, total, found + [Summarize(b.executions[p])], p + 1)
  {
    var rest := Scan(b.executions, options, p + 1, limit - |found| - 1).0;
    assert found + ([Summarize(b.executions[p])] + rest) == found + [Summarize(b.executions[p])] + rest;
  }

  lemma AccumulateSkip(b: Backend, options: ListOptions, limit: nat, total: (seq<Summary>, nat),
                       found: seq<Summary>, p: nat)
    requires Accumulated(b, options, limit, total, found, p) && |found| < limit && p < |b.executions|
    requires !Matches(b.executions[p], options)
    ensures Accumulated(b, options, limit, total, found, p + 1)
  {
  }

  lemma AccumulatedAll(b: Backend, options: ListOptions, limit: nat, total: (seq<Summary>, nat),
                       found: seq<Summary>, p: nat)
    requires Accumulated(b, options, limit, total, found, p) && |found| == limit
    ensures total == (found, p)
  {
    assert total.0 == found + [] == found;
  }

  /** The inner loop: one backend page, from `offset` on. It stops early, after index stop - 1,
      when the client's page is full. */
  method WalkPage(b: Backend, options: ListOptions, limit: nat, ghost p: nat, page: seq<Execution>, offset: nat,
                  sofar: seq<Summary>, ghost total: (seq<Summary>, nat))
    returns (found: seq<Summary>, stop: Option<nat>)
    requires p + |page| <= |b.executions| && page == b.executions[p..p + |page|] && offset <= |page|
    requires |sofar| < limit && Accumulated(b, options, limit, total, sofar, p + offset)
    ensures stop.Some? ==> offset < stop.value <= |page| && |found| == limit && total == (found, p + stop.value)
    ensures stop.None? ==> |found| < limit && Accumulated(b, options, limit, total, found, p + |page|)
  {
    hide Scan, Accumulated, WorkflowIds.Parse;
    found := sofar;
    var index := offset;
    while index < |page|
      invariant offset <= index <= |page|
      invariant |found| < limit && Accumulated(b, options, limit, total, found, p + index)
    {
      var execution := page[index];
      assert execution == b.executions[p + index];
      index := index + 1;
      var identity := WorkflowIds.Parse(execution.workflowID);
      if execution.workflowType != "DeploymentActorWorkflow"
         || identity.None?
         || !(options.environment == "" || identity.value.environment == options.environment)
         || !(options.namespace == "" || identity.value.namespace == options.namespace)
      {
        AccumulateSkip(b, options, limit, total, found, p + index - 1);
        continue;
      }
      AccumulateMatch(b, options, limit, total, found, p + index - 1);
      found := found + [Summary(identity.value, execution.workflowID, execution.startTime)];
      if |found| == limit {
        AccumulatedAll(b, options, limit, total, found, p + index);
        return found, Some(index);
      }
    }
    stop := None;
  }

  /** What a listing that starts at a good cursor is looking for. */
  ghost predicate Sought(b: Backend, options: ListOptions, first: Cursor, total: (seq<Summary>, nat))
    requires b.Valid()
  {
    var limit := EffectiveLimit(options.limit);
    && Decode(options.pageToken) == Ok(first)
    && Resumes(b, PageSize(limit), first)
    && 0 <= Position(b, first) <= |b.executions|
    && total == Scan(b.executions, options, Position(b, first), limit)
  }

  /** The outer loop's invariant: resuming at `cursor` completes what was begun at `first`. */
  ghost predicate Walking(b: Backend, options: ListOptions, first: Cursor, cursor: Cursor, found: seq<Summary>,
                          total: (seq<Summary>, nat))
    requires b.Valid()
  {
    var limit := EffectiveLimit(options.limit);
    var size := PageSize(limit);
    && Sought(b, options, first, total)
    && Resumes(b, size, cursor)
    && Accumulated(b, options, limit, total, found, Position(b, cursor))
    && (|total.0| == limit ==>
          && b.Start(first.token) < total.1 <= |b.executions| && b.Start(cursor.token) < total.1
          && CursorAt(b, size, first.token, total.1) == CursorAt(b, size, cursor.token, total.1))
  }

  lemma BeginWalk(b: Backend, options: ListOptions, first: Cursor)
    requires b.Valid() && Decode(options.pageToken) == Ok(first)
    requires Resumes(b, PageSize(EffectiveLimit(options.limit)), first)
    ensures 0 <= Position(b, first) <= |b.executions|
    ensures var total := Scan(b.executions, options, Position(b, first), EffectiveLimit(options.limit));
            Walking(b, options, first, first, [], total)
  {
    ResumeInRange(b, PageSize(EffectiveLimit(options.limit)), first);
    var total := Scan(b.executions, options, Position(b, first), EffectiveLimit(options.limit));
    assert [] + total.0 == total.0;
  }

  /** Moving on to the backend's next page. */
  lemma NextPage(b: Backend, options: ListOptions, first: Cursor, cursor: Cursor, before: seq<Summary>,
                 found: seq<Summary>, total: (seq<Summary>, nat))
    requires b.Valid() && Walking(b, options, first, cursor, before, total)
    requires var limit := EffectiveLimit(options.limit); var p := b.Start(cursor.token);
             && b.NextToken(p, PageSize(limit)).At? && |found| < limit
             && Accumulated(b, options, limit, total, found, b.End(p, PageSize(limit)))
    ensures var next := b.NextToken(b.Start(cursor.token), PageSize(EffectiveLimit(options.limit)));
            && b.Start(cursor.token) < b.Start(next) <= |b.executions|
            && Walking(b, options, first, Cursor(next, 0), found, total)
  {
    var p := b.Start(cursor.token);
    assert p < b.cut(p, PageSize(EffectiveLimit(options.limit))) <= |b.executions|;
  }

  /** A full client page ends inside this backend page or with it. */
  lemma StopsHere(b: Backend, options: ListOptions, first: Cursor, cursor: Cursor, before: seq<Summary>,
                  total: (seq<Summary>, nat), stop: nat)
    requires b.Valid() && Walking(b, options, first, cursor, before, total)
    requires |total.0| == EffectiveLimit(options.limit) && total.1 == b.Start(cursor.token) + stop
    requires total.1 <= b.End(b.Start(cursor.token), PageSize(EffectiveLimit(options.limit)))
    ensures var p, size := b.Start(cursor.token), PageSize(EffectiveLimit(options.limit));
            var next := if total.1 < b.End(p, size) then Cursor(cursor.token, stop)
                else Cursor(b.NextToken(p, size), 0);
            ListPage(b, options) == Ok(DeploymentList(total.0, Encode(next)))
  {
  }

  /** The backend has no further page. */
  lemma LastPage(b: Backend, options: ListOptions, first: Cursor, cursor: Cursor, before: seq<Summary>,
                 found: seq<Summary>, total: (seq<Summary>, nat))
    requires b.Valid() && Walking(b, options, first, cursor, before, total)
    requires |found| < EffectiveLimit(options.limit)
    requires b.NextToken(b.Start(cursor.token), PageSize(EffectiveLimit(options.limit))).NoToken?
    requires Accumulated(b, options, EffectiveLimit(options.limit), total, found,
                         b.End(b.Start(cursor.token), PageSize(EffectiveLimit(options.limit))))
    ensures ListPage(b, options) == Ok(DeploymentList(found, Empty))
  {
    var p, size := b.Start(cursor.token), PageSize(EffectiveLimit(options.limit));
    assert p < |b.executions| ==> p < b.cut(p, size) <= |b.executions|;
    assert b.End(p, size) == |b.executions|;
    assert total.0 == found + [] == found;
  }

  /** The code: an outer loop over the backend's pages, an inner loop over one page. */
  method ListDeployments(b: Backend, options: ListOptions) returns (r: Result<DeploymentList, ListError>)
    requires b.Valid()
    ensures r == ListPage(b, options)
  {
    hide Scan, CursorAt, Accumulated;
    var limit := EffectiveLimit(options.limit);
    var decoded := Decode(options.pageToken);
    if decoded.Err? {
      return Err(decoded.error);
    }
    var cursor := decoded.value;
    var found: seq<Summary> := [];
    ghost var first := cursor;
    ghost var total: (seq<Summary>, nat) := ([], 0);
    ghost var good := Resumes(b, PageSize(limit), first);
    if good {
      BeginWalk(b, options, first);
      total := Scan(b.executions, options, Position(b, first), limit);
    }
    while |found| < limit
      invariant |found| < limit
      invariant if good then Walking(b, options, first, cursor, found, total) else cursor == first
      decreases |b.executions| - b.Start(cursor.token)
    {
      var requestToken := cursor.token;
      var pageSize := PageSize(limit);
      ghost var p := b.Start(requestToken);
      var response := b.ListWorkflow(pageSize, requestToken);
      if response.Err? {
        return Err(BackendError);
      }
      var (page, nextToken) := response.value;
      assert p + |page| == b.End(p, pageSize);
      if cursor.offset < 0 || cursor.offset > |page| {
        return Err(InvalidPageToken);
      }
      ghost var before := found;
      var stop: Option<nat>;
      found, stop := WalkPage(b, options, limit, p, page, cursor.offset, found, total);
      if stop.Some? {
        StopsHere(b, options, first, cursor, before, total, stop.value);
        var next := if stop.value < |page| then Cursor(requestToken, stop.value) else Cursor(nextToken, 0);
        return Ok(DeploymentList(found, Encode(next)));
      }
      if nextToken.NoToken? {
        LastPage(b, options, first, cursor, before, found, total);
        break;
      }
      NextPage(b, options, first, cursor, before, found, total);
      cursor := Cursor(nextToken, 0);
    }
    r := Ok(DeploymentList(found, Empty));
  }

  // ----- Following the tokens -----

  lemma {:induction false} MatchingFrom(es: seq<Execution>, options: ListOptions, p: nat, limit: nat)
    requires p <= |es|
    ensures Scan(es, options, p, limit).0 + Matching(es[Scan(es, options, p, limit).1..], options)
        == Matching(es[p..], options)
    decreases |es| - p
  {
    if p < |es| && limit > 0 {
      assert es[p..][0] == es[p] && es[p..][1..] == es[p + 1..];
      if Matches(es[p], options) {
        MatchingFrom(es, options, p + 1, limit - 1);
        var (rest, end) := Scan(es, options, p + 1, limit - 1);
        assert ([Summarize(es[p])] + rest) + Matching(es[end..], options)
            == [Summarize(es[p])] + (rest + Matching(es[end..], options));
      } else {
        MatchingFrom(es, options, p + 1, limit);
      }
    }
  }

  /** A cursor made for `end` resumes at `end`, and is one the backend's pages accept. */
  lemma {:induction false} CursorResumes(b: Backend, size: nat, token: Token, end: nat)
    requires b.Valid() && size > 0 && b.Start(token) < end <= |b.executions|
    ensures var c := CursorAt(b, size, token, end);
            Encode(c) == Empty || (Resumes(b, size, c) && Position(b, c) == end)
    ensures Encode(CursorAt(b, size, token, end)) == Empty ==> end == |b.executions|
    decreases |b.executions| - b.Start(token)
  {
    var p := b.Start(token);
    assert p < b.cut(p, size) <= |b.executions|;
    if end > b.End(p, size) {
      CursorResumes(b, size, b.NextToken(p, size), end);
    } else if end == b.End(p, size) && end < |b.executions| {
      assert end < b.cut(end, size) <= |b.executions|;
    }
  }

  /** The token is the empty one, or one that some earlier page could have carried. */
  predicate Good(b: Backend, options: ListOptions) {
    match Decode(options.pageToken)
    case Ok(cursor) => Resumes(b, PageSize(EffectiveLimit(options.limit)), cursor)
    case Err(_) => false
  }

  function From(b: Backend, options: ListOptions): int
    requires Good(b, options)
  {
    Position(b, Decode(options.pageToken).value)
  }

  /** One page: never an error, at most `limit` items, all of them next in line; a page that names
      a successor is full and names one that is accepted and resumes where this page stopped. */
  lemma PageIsNext(b: Backend, options: ListOptions)
    requires b.Valid() && Good(b, options)
    ensures 0 <= From(b, options) <= |b.executions|
    ensures var r, limit := ListPage(b, options), EffectiveLimit(options.limit);
            && r.Ok? && |r.value.deployments| <= limit
            && var options' := options.(pageToken := r.value.next);
            if r.value.next == Empty then r.value.deployments == Matching(b.executions[From(b, options)..], options)
            else
              && |r.value.deployments| == limit
              && Good(b, options') && From(b, options) < From(b, options') <= |b.executions|
              && r.value.deployments + Matching(b.executions[From(b, options')..], options)
                 == Matching(b.executions[From(b, options)..], options)
  {
    var limit := EffectiveLimit(options.limit);
    var size := PageSize(limit);
    var cursor := Decode(options.pageToken).value;
    ResumeInRange(b, size, cursor);
    var p := Position(b, cursor);
    MatchingFrom(b.executions, options, p, limit);
    var (found, end) := Scan(b.executions, options, p, limit);
    assert b.executions[|b.executions|..] == [];
    if |found| == limit {
      CursorResumes(b, size, cursor.token, end);
    }
    if ListPage(b, options).value.next == Empty {
      assert end == |b.executions|;
      assert found + [] == found;
    } else {
      ResumeInRange(b, size, CursorAt(b, size, cursor.token, end));
    }
  }

  /** The pages a client gets by sending back each page's token until it is empty. */
  ghost function Follow(b: Backend, options: ListOptions): (pages: seq<DeploymentList>)
    requires b.Valid() && Good(b, options)
    decreases |b.executions| - From(b, options)
  {
    PageIsNext(b, options);
    var page := ListPage(b, options).value;
    if page.next == Empty then [page]
    else
      PageIsNext(b, options.(pageToken := page.next));
      [page] + Follow(b, options.(pageToken := page.next))
  }

  function Concat(pages: seq<DeploymentList>): seq<Summary> {
    if pages == [] then [] else pages[0].deployments + Concat(pages[1..])
  }

  lemma MatchingIgnoresToken(es: seq<Execution>, options: ListOptions, token: PageToken)
    ensures Matching(es, options.(pageToken := token)) == Matching(es, options)
  {
  }

  lemma {:induction false} FollowCollects(b: Backend, options: ListOptions)
    requires b.Valid() && Good(b, options)
    ensures 0 <= From(b, options) <= |b.executions|
    ensures Concat(Follow(b, options)) == Matching(b.executions[From(b, options)..], options)
    ensures forall i | 0 <= i < |Follow(b, options)| ::
              |Follow(b, options)[i].deployments| <= EffectiveLimit(options.limit)
    decreases |b.executions| - From(b, options)
  {
    PageIsNext(b, options);
    var page := ListPage(b, options).value;
    var options' := options.(pageToken := page.next);
    if page.next == Empty {
      assert Follow(b, options)[1..] == [];
      assert page.deployments + [] == page.deployments;
    } else {
      FollowCollects(b, options');
      assert Follow(b, options)[1..] == Follow(b, options');
      MatchingIgnoresToken(b.executions[From(b, options')..], options, page.next);
    }
  }

  /** Following the tokens from the empty one ends, and the pages put together are exactly the
      matching executions in order, without repeats or gaps, however the backend cuts its pages. */
  lemma PaginationRefinesFiltering(b: Backend, options: ListOptions)
    requires b.Valid() && options.pageToken == Empty
    ensures Good(b, options)
    ensures Concat(Follow(b, options)) == Matching(b.executions, options)
    ensures forall i | 0 <= i < |Follow(b, options)| ::
              |Follow(b, options)[i].deployments| <= EffectiveLimit(options.limit)
  {
    var size := PageSize(EffectiveLimit(options.limit));
    assert 0 < |b.executions| ==> 0 < b.cut(0, size) <= |b.executions|;
    FollowCollects(b, options);
    assert b.executions[0..] == b.executions;
  }

  /** A page is answered exactly when its token decodes and points inside a page of the backend. */
  lemma RefusedExactly(b: Backend, options: ListOptions)
    requires b.Valid()
    ensures ListPage(b, options).Ok? <==> Good(b, options)
    ensures options.pageToken == Garbage ==> ListPage(b, options) == Err(InvalidPageToken)
  {
    if Good(b, options) {
      PageIsNext(b, options);
    }
  }

  // ----- Which deployments are listed -----

  /** An execution is listed exactly when it is an actor of a deployment that the filters let through:
      the environment filter is for the environment, the namespace filter for the namespace, and an
      empty filter is none. */
  lemma ListedExactly(d: DeploymentIdentity, startTime: Option<int>, options: ListOptions)
    requires WorkflowIds.Printable(d)
    ensures Matches(Execution("DeploymentActorWorkflow", WorkflowIds.WorkflowID(d), startTime), options) <==>
              && (options.environment == "" || d.environment == options.environment)
              && (options.namespace == "" || d.namespace == options.namespace)
  {
    WorkflowIds.PrintThenParse(d);
  }

  /** No other execution is listed. */
  lemma NothingElseListed(e: Execution, options: ListOptions) returns (d: DeploymentIdentity)
    requires Matches(e, options)
    ensures WorkflowIds.Printable(d) && d.nodePool == ""
    ensures e == Execution("DeploymentActorWorkflow", WorkflowIds.WorkflowID(d), e.startTime)
    ensures Summarize(e) == Summary(d, e.workflowID, e.startTime)
  {
    WorkflowIds.ParseThenPrint(e.workflowID);
    d := WorkflowIds.Parse(e.workflowID).value;
    IdentityHasNoPool(e.workflowID);
  }

  lemma IdentityHasNoPool(workflowID: string)
    requires WorkflowIds.Parse(workflowID).Some?
    ensures WorkflowIds.Parse(workflowID).value.nodePool == ""
  {
    hide WorkflowIds.SplitN;
  }

  lemma {:induction false} MatchingContains(es: seq<Execution>, options: ListOptions, s: Summary)
    ensures s in Matching(es, options) <==>
              exists k :: 0 <= k < |es| && Matches(es[k], options) && Summarize(es[k]) == s
  {
    if es != [] {
      MatchingContains(es[1..], options, s);
      assert es == [es[0]] + es[1..];
      hide Matches, Summarize;
      if k :| 0 <= k < |es| && Matches(es[k], options) && Summarize(es[k]) == s {
        assert k > 0 ==> es[k] == es[1..][k - 1];
      }
      if k :| 0 <= k < |es[1..]| && Matches(es[1..][k], options) && Summarize(es[1..][k]) == s {
        assert es[1..][k] == es[k + 1];
      }
    }
  }

  /** Somewhere among these executions is the actor of the deployment, started then. */
  ghost predicate Runs(es: seq<Execution>, d: DeploymentIdentity, startedAt: Option<int>) {
    exists k :: 0 <= k < |es| && es[k] == Execution("DeploymentActorWorkflow", WorkflowIds.WorkflowID(d), startedAt)
  }

  /** A summary is among the followed pages exactly when it is that of a running deployment that the
      filters let through: its identity, its workflow ID and its start time. */
  lemma PagesListExactly(b: Backend, options: ListOptions, s: Summary)
    requires b.Valid() && options.pageToken == Empty
    ensures Good(b, options)
    ensures s in Concat(Follow(b, options)) <==>
              && WorkflowIds.Printable(s.identity) && s.identity.nodePool == ""
              && s.workflowID == WorkflowIds.WorkflowID(s.identity)
              && Runs(b.executions, s.identity, s.startedAt)
              && (options.environment == "" || s.identity.environment == options.environment)
              && (options.namespace == "" || s.identity.namespace == options.namespace)
  {
    PaginationRefinesFiltering(b, options);
    MatchingContains(b.executions, options, s);
    var es := b.executions;
    hide Follow, Good, Matching, Concat, Matches, Summarize, WorkflowIds.WorkflowID, WorkflowIds.Printable;
    if s in Matching(es, options) {
      var k :| 0 <= k < |es| && Matches(es[k], options) && Summarize(es[k]) == s;
      var d := NothingElseListed(es[k], options);
      ListedExactly(d, es[k].startTime, options);
    }
    if WorkflowIds.Printable(s.identity) && Runs(es, s.identity, s.startedAt) {
      var k :| 0 <= k < |es| && es[k] == Execution("DeploymentActorWorkflow", WorkflowIds.WorkflowID(s.identity),
          s.startedAt);
      ListedExactly(s.identity, s.startedAt, options);
      if Matches(es[k], options) {
        var d := NothingElseListed(es[k], options);
        WorkflowIds.WorkflowIDInjective(d, s.identity);
      }
    }
  }

  /** The limits of a page: a hundred by default, five hundred at most, otherwise as asked; and the
      backend is asked for twice as many, but for no fewer than a hundred and no more than a thousand. */
  lemma LimitsMean(limit: int)
    ensures 1 <= limit <= 500 ==> EffectiveLimit(limit) == limit
    ensures limit <= 0 ==> EffectiveLimit(limit) == 100
    ensures limit > 500 ==> EffectiveLimit(limit) == 500
    ensures 50 <= limit <= 500 ==> PageSize(EffectiveLimit(limit)) == limit + limit
    ensures 1 <= limit <= 50 ==> PageSize(EffectiveLimit(limit)) == 100
  {
  }

  /** How a bad token is refused: by the backend if it is past the end of the list, as invalid if it does
      not decode or if its offset is outside its page. */
  lemma RefusedAs(b: Backend, options: ListOptions)
    requires b.Valid() && ListPage(b, options).Err?
    ensures options.pageToken == Garbage ==> ListPage(b, options) == Err(InvalidPageToken)
    ensures options.pageToken.Encoded? ==>
              ListPage(b, options).error ==
                (if b.Start(options.pageToken.cursor.token) > |b.executions| then BackendError else InvalidPageToken)
  {
    hide Scan, CursorAt;
  }
}
