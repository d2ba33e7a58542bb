/** The recursion of `Range.expand`, `split_query` and `split_collapse` (seco/range/__init__.py,
    lines 34-106) as functions of the client's configuration and of the server: what a call returns
    and which queries it sends, in the order it sends them. The code does not bound the depth of
    this recursion; the model bounds it with fuel, and a call that uses up its fuel ends in
    `OutOfFuel`. */
module Expansion {
  import opened Strings
  import opened SplitList
  import opened Protocol

  /** What a call yields, with the queries it sent to the server, in order. */
  datatype Run<T> = Run(outcome: Outcome<T>, queries: seq<Query>)

  /** Every query fits the size limit and asks for the same kind of answer. */
  predicate SentShort(c: ClientConfig, queries: seq<Query>, retList: bool)
  {
    forall q <- queries :: |q.expr| <= c.maxChar && q.retList == retList
  }

  /** A value a list query returns: a sorted list, or one such value per chunk of a split query. */
  predicate ListShaped(v: Value)
  {
    match v
    case Lines(lines) => Sorted(lines)
    case Text(_) => false
    case Parts(parts) => forall i | 0 <= i < |parts| :: ListShaped(parts[i])
  }

  /** A string with no comma at either end, as `strip(',')` leaves it. */
  predicate NoEdgeComma(s: string)
  {
    s == [] || (s[0] != ',' && s[|s| - 1] != ',')
  }

  function AsParts(o: Outcome<seq<Value>>): Outcome<Value>
  {
    match o
    case Done(parts) => Done(Parts(parts))
    case Raised(e) => Raised(e)
    case OutOfFuel => OutOfFuel
  }

  function AsText(o: Outcome<string>): Outcome<Value>
  {
    match o
    case Done(text) => Done(Text(text))
    case Raised(e) => Raised(e)
    case OutOfFuel => OutOfFuel
  }

  function Prepended(v: Value, rest: Outcome<seq<Value>>): Outcome<seq<Value>>
  {
    match rest
    case Done(vs) => Done([v] + vs)
    case Raised(e) => Raised(e)
    case OutOfFuel => OutOfFuel
  }

  /** The texts of values that are all texts. */
  function Texts(vs: seq<Value>): seq<string>
    requires forall i | 0 <= i < |vs| :: vs[i].Text?
  {
    seq(|vs|, i requires 0 <= i < |vs| => vs[i].text)
  }

  /** `(','.join(coll_list)).strip(',')` (line 105): the texts of a pass's answers, joined with
      commas and stripped of commas at both ends. */
  function Collapsed(vs: seq<Value>): string
    requires forall i | 0 <= i < |vs| :: vs[i].Text?
  {
    Strip(JoinWith(',', Texts(vs)), {','})
  }

  /** `expand(expr, ret_list)` for an expression already joined into a string (lines 40-69): a
      short expression goes to the server in one query; a long one is split (a list query) or
      collapsed in passes (a text query). Every query sent fits the limit, and the answer has the
      shape asked for. */
  function Expanded(c: ClientConfig, respond: Request -> Reply, fuel: nat, expr: string, retList: bool): (r: Run<Value>)
    decreases fuel, 0
    ensures SentShort(c, r.queries, retList)
    ensures r.outcome.Done? ==> if retList then ListShaped(r.outcome.value) else r.outcome.value.Text?
  {
    if |expr| > c.maxChar then
      if fuel == 0 then Run(OutOfFuel, [])
      else if retList then
        var run := SplitQueried(c, respond, fuel - 1, Literal(expr), true);
        Run(AsParts(run.outcome), run.queries)
      else
        var run := SplitCollapsed(c, respond, fuel - 1, expr);
        Run(AsText(run.outcome), run.queries)
    else
      var q := Query(expr, retList);
      var reply := respond(RequestOf(c, q));
      var answer := Answer(c, q, reply);
      assert answer.Done? && retList ==> answer.value.Lines? && Sorted(answer.value.lines) by {
        if answer.Done? && retList {
          ListBodyShape(reply.response.text);
        }
      }
      Run(answer, [q])
  }

  /** The loop of `split_query` (lines 89-90) over the chunks still to send: each chunk is joined
      and expanded in turn, and the first `RangeException` ends the loop. On success there is one
      value per chunk, of the shape asked for. */
  function QueryChunks(c: ClientConfig, respond: Request -> Reply, fuel: nat, chunks: seq<seq<string>>, retList: bool): (r: Run<seq<Value>>)
    decreases fuel, 1, |chunks|
    ensures SentShort(c, r.queries, retList)
    ensures r.outcome.Done? ==> |r.outcome.value| == |chunks|
    ensures r.outcome.Done? ==> forall i | 0 <= i < |chunks| ::
      if retList then ListShaped(r.outcome.value[i]) else r.outcome.value[i].Text?
  {
    if chunks == [] then Run(Done([]), [])
    else
      var first := Expanded(c, respond, fuel, JoinWith(',', chunks[0]), retList);
      match first.outcome
      case Done(v) =>
        var rest := QueryChunks(c, respond, fuel, chunks[1..], retList);
        Run(Prepended(v, rest.outcome), first.queries + rest.queries)
      case Raised(e) => Run(Raised(e), first.queries)
      case OutOfFuel => Run(OutOfFuel, first.queries)
  }

  /** On success the loop of `split_query` holds, for each chunk, the value that expanding that
      chunk on its own gives. */
  lemma {:induction false} QueryChunksAnswers(c: ClientConfig, respond: Request -> Reply, fuel: nat, chunks: seq<seq<string>>, retList: bool)
    requires QueryChunks(c, respond, fuel, chunks, retList).outcome.Done?
    ensures var vs := QueryChunks(c, respond, fuel, chunks, retList).outcome.value;
      forall i | 0 <= i < |chunks| :: Expanded(c, respond, fuel, JoinWith(',', chunks[i]), retList).outcome == Done(vs[i])
    decreases |chunks|
  {
    if chunks != [] {
      var vs := QueryChunks(c, respond, fuel, chunks, retList).outcome.value;
      var rest := QueryChunks(c, respond, fuel, chunks[1..], retList);
      QueryChunksAnswers(c, respond, fuel, chunks[1..], retList);
      assert vs == [vs[0]] + rest.outcome.value;
      forall i | 1 <= i < |chunks|
        ensures Expanded(c, respond, fuel, JoinWith(',', chunks[i]), retList).outcome == Done(vs[i])
      {
        assert chunks[i] == chunks[1..][i - 1];
      }
    }
  }

  /** `split_query(expr, ret_list)` (lines 78-92): the chunks of `build_split_list`, each sent on
      its own. */
  function SplitQueried(c: ClientConfig, respond: Request -> Reply, fuel: nat, expr: Expr, retList: bool): (r: Run<seq<Value>>)
    decreases fuel, 2
    ensures SentShort(c, r.queries, retList)
    ensures r.outcome.Done? ==> |r.outcome.value| == |SplitChunks(c.maxChar, expr)|
    ensures r.outcome.Done? ==> forall i | 0 <= i < |r.outcome.value| ::
      if retList then ListShaped(r.outcome.value[i]) else r.outcome.value[i].Text?
  {
    QueryChunks(c, respond, fuel, SplitChunks(c.maxChar, expr), retList)
  }

  /** One pass of the `split_collapse` loop (lines 104-105): the collapsed text of every chunk,
      joined with commas and with commas stripped from both ends. */
  function Pass(c: ClientConfig, respond: Request -> Reply, fuel: nat, expr: string): (r: Run<string>)
    decreases fuel, 3
    ensures SentShort(c, r.queries, false)
    ensures r.outcome.Done? ==> NoEdgeComma(r.outcome.value)
  {
    var run := SplitQueried(c, respond, fuel, Literal(expr), false);
    match run.outcome
    case Done(vs) => Run(Done(Collapsed(vs)), run.queries)
    case Raised(e) => Run(Raised(e), run.queries)
    case OutOfFuel => Run(OutOfFuel, run.queries)
  }

  /** The `split_collapse` loop (lines 102-105) from the state `prev_expr`, `coll_expr`: it stops
      when a pass leaves the expression as it was. Each iteration costs one unit of fuel. */
  function Collapsing(c: ClientConfig, respond: Request -> Reply, fuel: nat, prev: string, coll: string): (r: Run<string>)
    decreases fuel, 4
    ensures SentShort(c, r.queries, false)
  {
    if prev == coll then Run(Done(coll), [])
    else if fuel == 0 then Run(OutOfFuel, [])
    else
      var pass := Pass(c, respond, fuel - 1, coll);
      match pass.outcome
      case Done(next) =>
        var rest := Collapsing(c, respond, fuel - 1, coll, next);
        Run(rest.outcome, pass.queries + rest.queries)
      case Raised(e) => Run(Raised(e), pass.queries)
      case OutOfFuel => Run(OutOfFuel, pass.queries)
  }

  /** `split_collapse(expr)` (lines 94-106): the loop started from `prev_expr = ''`. */
  function SplitCollapsed(c: ClientConfig, respond: Request -> Reply, fuel: nat, expr: string): (r: Run<string>)
    decreases fuel, 5
    ensures SentShort(c, r.queries, false)
  {
    Collapsing(c, respond, fuel, "", expr)
  }

  /** The expression itself goes to the server exactly when it fits the limit: a long one is only
      ever sent in pieces. */
  lemma SentItself(c: ClientConfig, respond: Request -> Reply, fuel: nat, expr: string, retList: bool)
    ensures Query(expr, retList) in Expanded(c, respond, fuel, expr, retList).queries <==> |expr| <= c.maxChar
    ensures |expr| <= c.maxChar ==> Expanded(c, respond, fuel, expr, retList).queries == [Query(expr, retList)]
  {
  }

  /** A query that fits the limit raises exactly the `RangeException` the reply calls for, and
      otherwise returns the sorted lines of the body or the body itself. */
  lemma ShortQueryAnswer(c: ClientConfig, respond: Request -> Reply, fuel: nat, expr: string, retList: bool)
    requires |expr| <= c.maxChar
    ensures var q := Query(expr, retList);
      var reply := respond(RequestOf(c, q));
      var r := Expanded(c, respond, fuel, expr, retList).outcome;
      && (r.Raised? <==> ReplyError(reply, Url(c, q)).Some?)
      && (r.Raised? ==> r.error == ReplyError(reply, Url(c, q)).value)
      && (r.Done? ==> r.value == if retList then Lines(ListBody(reply.response.text)) else Text(reply.response.text))
      && !r.OutOfFuel?
  {
  }

  /** A long list query returns one value per chunk of `build_split_list`, each the answer to that
      chunk's own query. */
  lemma LongListParts(c: ClientConfig, respond: Request -> Reply, fuel: nat, expr: string)
    requires |expr| > c.maxChar
    requires Expanded(c, respond, fuel, expr, true).outcome.Done?
    ensures var chunks := SplitChunks(c.maxChar, Literal(expr));
      var v := Expanded(c, respond, fuel, expr, true).outcome.value;
      && fuel > 0
      && v.Parts? && |v.parts| == |chunks|
      && forall i | 0 <= i < |chunks| ::
           Expanded(c, respond, fuel - 1, JoinWith(',', chunks[i]), true).outcome == Done(v.parts[i])
  {
    QueryChunksAnswers(c, respond, fuel - 1, SplitChunks(c.maxChar, Literal(expr)), true);
  }

  /** When the collapsing loop ends after at least one pass, its result is a fixed point of a pass
      and has no comma at either end. */
  lemma {:induction false} CollapsingFixedPoint(c: ClientConfig, respond: Request -> Reply, fuel: nat, prev: string, coll: string)
    requires prev != coll
    requires Collapsing(c, respond, fuel, prev, coll).outcome.Done?
    ensures var r := Collapsing(c, respond, fuel, prev, coll).outcome.value;
      NoEdgeComma(r) && exists f: nat :: f < fuel && Pass(c, respond, f, r).outcome == Done(r)
    decreases fuel
  {
    var r := Collapsing(c, respond, fuel, prev, coll);
    var pass := Pass(c, respond, fuel - 1, coll);
    assert fuel > 0 && pass.outcome.Done?;
    var next := pass.outcome.value;
    var rest := Collapsing(c, respond, fuel - 1, coll, next);
    assert r.outcome == rest.outcome;
    if coll == next {
      assert rest.outcome.value == next;
      assert Pass(c, respond, fuel - 1, next).outcome == Done(next);
    } else {
      CollapsingFixedPoint(c, respond, fuel - 1, coll, next);
    }
  }

  /** `split_collapse` returns the empty expression at once, and otherwise a fixed point of a pass
      with no comma at either end. */
  lemma SplitCollapsedResult(c: ClientConfig, respond: Request -> Reply, fuel: nat, expr: string)
    ensures expr == "" ==> SplitCollapsed(c, respond, fuel, expr) == Run(Done(""), [])
    ensures expr != "" && SplitCollapsed(c, respond, fuel, expr).outcome.Done? ==>
      var r := SplitCollapsed(c, respond, fuel, expr).outcome.value;
      NoEdgeComma(r) && exists f: nat :: f < fuel && Pass(c, respond, f, r).outcome == Done(r)
  {
    if expr != "" && SplitCollapsed(c, respond, fuel, expr).outcome.Done? {
      CollapsingFixedPoint(c, respond, fuel, "", expr);
    }
  }

  /** A long text query (`collapse`, lines 43-44) returns the text `split_collapse` settles on: a
      fixed point of a pass, with no comma at either end. */
  lemma LongTextCollapses(c: ClientConfig, respond: Request -> Reply, fuel: nat, expr: string)
    requires |expr| > c.maxChar && expr != ""
    requires Expanded(c, respond, fuel, expr, false).outcome.Done?
    ensures var v := Expanded(c, respond, fuel, expr, false).outcome.value;
      && v.Text? && NoEdgeComma(v.text)
      && exists f: nat :: f < fuel && Pass(c, respond, f, v.text).outcome == Done(v.text)
  {
    SplitCollapsedResult(c, respond, fuel - 1, expr);
  }

  /** A single atom longer than the limit is never answered. `build_split_list` gives it back as
      the one chunk `[[atom]]`, and expanding that chunk asks for the same atom again (lines 40-44,
      88-90 and 102-104), so the code recurses until Python gives up; the model runs out of fuel. */
  lemma {:induction false} OversizedAtomNeverAnswers(c: ClientConfig, respond: Request -> Reply, fuel: nat, atom: string, retList: bool)
    requires |atom| > c.maxChar && ',' !in atom
    requires retList || atom != ""
    ensures !Expanded(c, respond, fuel, atom, retList).outcome.Done?
    decreases fuel
  {
    if fuel > 0 {
      LongStringChunks(c.maxChar, atom);
      assert SplitChunks(c.maxChar, Literal(atom)) == [[atom]];
      assert JoinWith(',', [atom]) == atom;
      var chunks := [[atom]];
      assert chunks[0] == [atom] && chunks[1..] == [];
      if retList {
        OversizedAtomNeverAnswers(c, respond, fuel - 1, atom, true);
        assert !QueryChunks(c, respond, fuel - 1, chunks, true).outcome.Done?;
        assert !SplitQueried(c, respond, fuel - 1, Literal(atom), true).outcome.Done?;
      } else if fuel > 1 {
        OversizedAtomNeverAnswers(c, respond, fuel - 2, atom, false);
        assert !QueryChunks(c, respond, fuel - 2, chunks, false).outcome.Done?;
        assert !SplitQueried(c, respond, fuel - 2, Literal(atom), false).outcome.Done?;
        assert !Pass(c, respond, fuel - 2, atom).outcome.Done?;
        assert !Collapsing(c, respond, fuel - 1, "", atom).outcome.Done?;
      }
    }
  }
}
