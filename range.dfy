/** The class `Range` of seco/range/__init__.py (lines 27-129): a client of the range server that
    holds its host, size limit and headers, and sends its queries through an HTTP transport. Each
    method is proved to return what the functions of `Expansion` say and to send exactly the
    requests of the queries those functions list, in order. */
module RangeClient {
  import opened Optional
  import opened Strings
  import opened SplitList
  import opened Protocol
  import opened Expansion
  import opened UserAgent

  /** The `max_char` a client gets when none is given (line 28). */
  const DefaultMaxChar := 7500

  /** The HTTP transport (`requests.get`): it answers each request as the server `respond` does,
      and keeps the log of the requests sent so far. */
  class Transport {
    const respond: Request -> Reply
    var sent: seq<Request>

    constructor (respond: Request -> Reply)
      ensures this.respond == respond
      ensures sent == []
    {
      this.respond := respond;
      sent := [];
    }

    /** Sends one GET request. */
    method Get(request: Request) returns (reply: Reply)
      modifies this
      ensures sent == old(sent) + [request]
      ensures reply == respond(request)
    {
      sent := sent + [request];
      reply := respond(request);
    }
  }

  /** The requests a client with configuration `c` sends for `queries`, in order. */
  function RequestsOf(c: ClientConfig, queries: seq<Query>): (requests: seq<Request>)
    ensures |requests| == |queries|
    ensures forall i | 0 <= i < |queries| :: requests[i] == RequestOf(c, queries[i])
  {
    seq(|queries|, i requires 0 <= i < |queries| => RequestOf(c, queries[i]))
  }

  lemma RequestsOfAppend(c: ClientConfig, a: seq<Query>, b: seq<Query>)
    ensures RequestsOf(c, a + b) == RequestsOf(c, a) + RequestsOf(c, b)
  {
    assert forall i | 0 <= i < |a + b| :: RequestsOf(c, a + b)[i] == (RequestsOf(c, a) + RequestsOf(c, b))[i];
  }

  /** A log that held the requests of `log` after `before`, and then received those of `more`. */
  lemma SentGrows(c: ClientConfig, before: seq<Request>, log: seq<Query>, more: seq<Query>, sent: seq<Request>)
    requires sent == (before + RequestsOf(c, log)) + RequestsOf(c, more)
    ensures sent == before + RequestsOf(c, log + more)
  {
    RequestsOfAppend(c, log, more);
    assert (before + RequestsOf(c, log)) + RequestsOf(c, more) == before + (RequestsOf(c, log) + RequestsOf(c, more));
  }

  /** `run` after the values `vs` already obtained and the queries `log` already sent. */
  function Prefixed(vs: seq<Value>, log: seq<Query>, run: Run<seq<Value>>): Run<seq<Value>>
  {
    match run.outcome
    case Done(ws) => Run(Done(vs + ws), log + run.queries)
    case Raised(e) => Run(Raised(e), log + run.queries)
    case OutOfFuel => Run(OutOfFuel, log + run.queries)
  }

  lemma PrefixedNothing(run: Run<seq<Value>>)
    ensures Prefixed([], [], run) == run
  {
    assert [] + run.queries == run.queries;
    if run.outcome.Done? {
      assert [] + run.outcome.value == run.outcome.value;
    }
  }

  /** `run` after the queries `log` already sent. */
  function After(log: seq<Query>, run: Run<string>): Run<string>
  {
    Run(run.outcome, log + run.queries)
  }

  /** One turn of the loop of `split_query`: the chunk at `i` answered `v` after sending `sent`. */
  lemma QueryChunksStep(c: ClientConfig, respond: Request -> Reply, fuel: nat, chunks: seq<seq<string>>, retList: bool,
                        i: nat, vs: seq<Value>, log: seq<Query>)
    requires i < |chunks|
    ensures var first := Expanded(c, respond, fuel, JoinWith(',', chunks[i]), retList);
      var now := Prefixed(vs, log, QueryChunks(c, respond, fuel, chunks[i..], retList));
      && (first.outcome.Done? ==>
            now == Prefixed(vs + [first.outcome.value], log + first.queries, QueryChunks(c, respond, fuel, chunks[i + 1..], retList)))
      && (first.outcome.Raised? ==> now == Run(Raised(first.outcome.error), log + first.queries))
      && (first.outcome.OutOfFuel? ==> now == Run(OutOfFuel, log + first.queries))
  {
    assert chunks[i..][0] == chunks[i] && chunks[i..][1..] == chunks[i + 1..];
    var first := Expanded(c, respond, fuel, JoinWith(',', chunks[i]), retList);
    if first.outcome.Done? {
      var rest := QueryChunks(c, respond, fuel, chunks[i + 1..], retList);
      assert log + (first.queries + rest.queries) == (log + first.queries) + rest.queries;
      if rest.outcome.Done? {
        assert vs + ([first.outcome.value] + rest.outcome.value) == (vs + [first.outcome.value]) + rest.outcome.value;
      }
    }
  }

  /** A pass whose split query answered the texts `vs` yields their collapse. */
  lemma PassDone(c: ClientConfig, respond: Request -> Reply, fuel: nat, coll: string, vs: seq<Value>)
    requires SplitQueried(c, respond, fuel, Literal(coll), false).outcome == Done(vs)
    ensures forall i | 0 <= i < |vs| :: vs[i].Text?
    ensures Pass(c, respond, fuel, coll).outcome == Done(Collapsed(vs))
  {
  }

  /** One turn of the loop of `split_collapse` whose pass succeeds: from `prev`, `coll` with
      `next + 1` units of fuel left, the pass over `coll` (given `next` units) yields `collapsed`,
      and the loop goes on from `coll` and `collapsed`. */
  lemma CollapsingStepDone(c: ClientConfig, respond: Request -> Reply, next: nat, prev: string, coll: string,
                           log: seq<Query>, collapsed: string)
    requires prev != coll
    requires Pass(c, respond, next, coll).outcome == Done(collapsed)
    ensures After(log, Collapsing(c, respond, next + 1, prev, coll))
      == After(log + Pass(c, respond, next, coll).queries, Collapsing(c, respond, next, coll, collapsed))
  {
    var pass := Pass(c, respond, next, coll);
    var rest := Collapsing(c, respond, next, coll, collapsed);
    assert Collapsing(c, respond, next + 1, prev, coll) == Run(rest.outcome, pass.queries + rest.queries);
    assert log + (pass.queries + rest.queries) == (log + pass.queries) + rest.queries;
  }

  /** One turn of the loop of `split_collapse` whose split query fails: the loop ends with that
      failure, after the queries of the pass. */
  lemma CollapsingStepFails(c: ClientConfig, respond: Request -> Reply, next: nat, prev: string, coll: string,
                            log: seq<Query>)
    requires prev != coll
    requires !SplitQueried(c, respond, next, Literal(coll), false).outcome.Done?
    ensures var split := SplitQueried(c, respond, next, Literal(coll), false);
      var now := After(log, Collapsing(c, respond, next + 1, prev, coll));
      && (split.outcome.Raised? ==> now == Run(Raised(split.outcome.error), log + split.queries))
      && (split.outcome.OutOfFuel? ==> now == Run(OutOfFuel, log + split.queries))
  {
    var split := SplitQueried(c, respond, next, Literal(coll), false);
    var pass := Pass(c, respond, next, coll);
    assert pass.queries == split.queries;
    assert pass.outcome == if split.outcome.Raised? then Raised(split.outcome.error) else OutOfFuel;
  }

  class Range {
    const host: string
    const maxChar: int
    const headers: map<string, string>
    const quote: string -> string

    /** `Range(host, user_agent=None, max_char=7500)` (lines 28-32). The environment and the
        percent-encoder are parameters of the model. */
    constructor (host: string, userAgent: Option<string>, maxChar: int, env: Environment, quote: string -> string)
      ensures this.host == host && this.maxChar == maxChar && this.quote == quote
      ensures headers == map["User-Agent" := GetUserAgent(userAgent, env)]
    {
      this.host := host;
      this.maxChar := maxChar;
      this.quote := quote;
      var headers: map<string, string> := map[];
      headers := headers["User-Agent" := GetUserAgent(userAgent, env)];
      this.headers := headers;
    }

    /** The settings the functions of `Expansion` are stated over. */
    function Config(): ClientConfig
    {
      ClientConfig(host, maxChar, headers, quote)
    }

    /** `expand(expr, ret_list)` (lines 34-69). */
    method Expand(expr: Expr, retList: bool, transport: Transport, fuel: nat) returns (r: Outcome<Value>)
      modifies transport
      decreases fuel, 0
      ensures var run := Expanded(Config(), transport.respond, fuel, Joined(expr), retList);
        && r == run.outcome
        && transport.sent == old(transport.sent) + RequestsOf(Config(), run.queries)
    {
      var text := Joined(expr);
      if |text| > maxChar {
        if fuel == 0 {
          return OutOfFuel;
        }
        if retList {
          var parts := SplitQuery(Literal(text), retList, transport, fuel - 1);
          return AsParts(parts);
        } else {
          var collapsed := SplitCollapse(text, transport, fuel - 1);
          return AsText(collapsed);
        }
      }
      var url := if retList then "http://" + host + "/range/list?" + quote(text)
                 else "http://" + host + "/range/expand?" + quote(text);
      ghost var q := Query(text, retList);
      assert url == Url(Config(), q);
      ghost var answer := Answer(Config(), q, transport.respond(Request(url, headers)));
      assert Expanded(Config(), transport.respond, fuel, text, retList) == Run(answer, [q]);
      assert RequestsOf(Config(), [q]) == [Request(url, headers)];
      var reply := transport.Get(Request(url, headers));
      assert transport.sent == old(transport.sent) + RequestsOf(Config(), [q]);
      if reply.ConnectionFailed? {
        return Raised(ConnectionFailure(reply.error));
      }
      var response := reply.response;
      if response.statusCode != 200 {
        return Raised(Message(StatusMessage(response.statusCode, url)));
      }
      if response.rangeException.Some? {
        return Raised(Message(response.rangeException.value));
      }
      if retList {
        var lines := SplitLines(response.text);
        var expansion: seq<string> := [];
        for i := 0 to |lines|
          invariant expansion == RStripAll(lines[..i])
          modifies {}
        {
          RStripAllSnoc(lines, i);
          expansion := expansion + [TrimEnd(lines[i], Whitespace)];
        }
        assert lines[..|lines|] == lines;
        assert expansion == RStripAll(lines);
        expansion := SortStrings(expansion);
        return Done(Lines(expansion));
      }
      return Done(Text(response.text));
    }

    /** `collapse(expr)` (lines 71-76): `expand` asking for the collapsed text. */
    method Collapse(expr: Expr, transport: Transport, fuel: nat) returns (r: Outcome<Value>)
      modifies transport
      ensures var run := Expanded(Config(), transport.respond, fuel, Joined(expr), false);
        && r == run.outcome
        && transport.sent == old(transport.sent) + RequestsOf(Config(), run.queries)
      ensures r.Done? ==> r.value.Text?
    {
      r := Expand(expr, false, transport, fuel);
    }

    /** `split_query(expr, ret_list)` (lines 78-92): each chunk of `build_split_list` expanded in
        turn, the results collected in order. */
    method SplitQuery(expr: Expr, retList: bool, transport: Transport, fuel: nat) returns (r: Outcome<seq<Value>>)
      modifies transport
      decreases fuel, 2
      ensures var run := SplitQueried(Config(), transport.respond, fuel, expr, retList);
        && r == run.outcome
        && transport.sent == old(transport.sent) + RequestsOf(Config(), run.queries)
    {
      var newList := BuildSplitList(expr);
      ghost var c := Config();
      ghost var respond := transport.respond;
      var finalList: seq<Value> := [];
      ghost var log: seq<Query> := [];
      ghost var goal := QueryChunks(c, respond, fuel, newList, retList);
      assert newList[0..] == newList;
      PrefixedNothing(goal);
      for i := 0 to |newList|
        invariant transport.respond == respond
        invariant transport.sent == old(transport.sent) + RequestsOf(c, log)
        invariant goal == Prefixed(finalList, log, QueryChunks(c, respond, fuel, newList[i..], retList))
      {
        ghost var first := Expanded(c, respond, fuel, JoinWith(',', newList[i]), retList);
        QueryChunksStep(c, respond, fuel, newList, retList, i, finalList, log);
        var v := Expand(Atoms(newList[i]), retList, transport, fuel);
        SentGrows(c, old(transport.sent), log, first.queries, transport.sent);
        log := log + first.queries;
        if !v.Done? {
          assert goal.queries == log;
          return match v case Raised(e) => Raised(e) case _ => OutOfFuel;
        }
        finalList := finalList + [v.value];
      }
      assert newList[|newList|..] == [];
      assert finalList + [] == finalList && log + [] == log;
      return Done(finalList);
    }

    /** `split_collapse(expr)` (lines 94-106): split queries for the collapsed text until a pass
        leaves the expression unchanged. */
    method SplitCollapse(expr: string, transport: Transport, fuel: nat) returns (r: Outcome<string>)
      modifies transport
      decreases fuel, 5
      ensures var run := SplitCollapsed(Config(), transport.respond, fuel, expr);
        && r == run.outcome
        && transport.sent == old(transport.sent) + RequestsOf(Config(), run.queries)
    {
      ghost var c := Config();
      ghost var respond := transport.respond;
      var prevExpr := "";
      var collExpr := expr;
      var f: nat := fuel;
      ghost var log: seq<Query> := [];
      ghost var target := SplitCollapsed(c, respond, fuel, expr);
      assert After([], Collapsing(c, respond, f, prevExpr, collExpr)) == target;
      while prevExpr != collExpr
        invariant f <= fuel
        invariant transport.respond == respond
        invariant transport.sent == old(transport.sent) + RequestsOf(c, log)
        invariant target == After(log, Collapsing(c, respond, f, prevExpr, collExpr))
        decreases f
      {
        if f == 0 {
          return OutOfFuel;
        }
        ghost var before := f;
        f := f - 1;
        assert before == f + 1;
        ghost var pass := Pass(c, respond, f, collExpr);
        ghost var split := SplitQueried(c, respond, f, Literal(collExpr), false);
        assert pass.queries == split.queries;
        var collList := SplitQuery(Literal(collExpr), false, transport, f);
        SentGrows(c, old(transport.sent), log, pass.queries, transport.sent);
        if !collList.Done? {
          CollapsingStepFails(c, respond, f, prevExpr, collExpr, log);
          log := log + pass.queries;
          return match collList case Raised(e) => Raised(e) case _ => OutOfFuel;
        }
        PassDone(c, respond, f, collExpr, collList.value);
        CollapsingStepDone(c, respond, f, prevExpr, collExpr, log, Collapsed(collList.value));
        log := log + pass.queries;
        prevExpr := collExpr;
        collExpr := Collapsed(collList.value);
      }
      assert target == Run(Done(collExpr), log + []);
      assert log + [] == log;
      return Done(collExpr);
    }

    /** `build_split_list(expr)` (lines 108-129): the running total and position loop over the
        atoms. The chunks it returns are the greedy packing of `FromFresh`; laid end to end they
        give back the atoms, and none is empty. */
    method BuildSplitList(expr: Expr) returns (newList: seq<seq<string>>)
      ensures newList == SplitChunks(maxChar, expr)
      ensures newList == FromFresh(maxChar, AtomsOf(expr))
      ensures Flatten(newList) == AtomsOf(expr)
      ensures forall chunk <- newList :: chunk != []
    {
      var atoms: seq<string>;
      if expr.Literal? {
        atoms := SortStrings(SplitOn(',', expr.text));
      } else {
        atoms := expr.atoms;
      }
      newList := [];
      var runningTotal: nat := 0;
      var position: nat := 0;
      assert atoms[0..] == atoms;
      for i := 0 to |atoms|
        invariant PackFrom(maxChar, Packing(newList, runningTotal, position), atoms[i..]) == PackFrom(maxChar, Start, atoms)
      {
        assert atoms[i..][1..] == atoms[i + 1..];
        ghost var before := Packing(newList, runningTotal, position);
        runningTotal := runningTotal + |atoms[i]| + 1;
        if runningTotal > maxChar {
          runningTotal := 0;
          position := position + 1;
        }
        if position < |newList| {
          newList := newList[position := newList[position] + [atoms[i]]];
        } else {
          newList := newList + [[atoms[i]]];
        }
        assert Packing(newList, runningTotal, position) == PackStep(maxChar, before, atoms[i]);
      }
      assert atoms[|atoms|..] == [];
      PackedIsGreedy(maxChar, atoms);
      FlattenFromFresh(maxChar, atoms);
    }
  }
}
