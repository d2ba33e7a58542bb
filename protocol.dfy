/** What `Range.expand` exchanges with the range server (seco/range/__init__.py, lines 46-69): the
    request it builds, the reply the HTTP transport gives back, the `RangeException` it raises and the
    value it returns on success. */
module Protocol {
  import opened Optional
  import opened Strings

  /** The parts of an HTTP response `expand` looks at: the status code, the value of a
      `RangeException` header when there is one, and the body text. */
  datatype Response = Response(statusCode: int, rangeException: Option<string>, text: string)

  /** The `requests.exceptions.ConnectionError` the transport raises when no response arrives. */
  datatype ConnectionError = ConnectionError(reason: string)

  /** What `requests.get` yields: a response, or a connection error. */
  datatype Reply = Received(response: Response) | ConnectionFailed(error: ConnectionError)

  /** An HTTP GET: the URL and the headers sent with it. */
  datatype Request = Request(url: string, headers: map<string, string>)

  /** The value a `RangeException` carries (lines 21-25): the connection error it wraps, or a
      message. */
  datatype RangeException = ConnectionFailure(cause: ConnectionError) | Message(text: string)

  /** One question put to the server: an expression, and whether the newline-separated list
      (`/range/list`) or the collapsed text (`/range/expand`) is wanted. */
  datatype Query = Query(expr: string, retList: bool)

  /** The client's fixed settings (lines 28-32): `host`, `max_char`, the headers sent with every
      request, and the URL percent-encoder `quote`, left abstract. */
  datatype ClientConfig = ClientConfig(
    host: string,
    maxChar: int,
    headers: map<string, string>,
    quote: string -> string)

  /** What `expand` returns: a sorted list of names, the collapsed text, or one result per chunk
      when a list query had to be split. */
  datatype Value = Lines(lines: seq<string>) | Text(text: string) | Parts(parts: seq<Value>)

  /** How a call ends: with a value, with a `RangeException`, or, in the model only, because the
      fuel bounding its recursion ran out. */
  datatype Outcome<T> = Done(value: T) | Raised(error: RangeException) | OutOfFuel

  /** The URL of lines 46-49. */
  function Url(c: ClientConfig, q: Query): string
  {
    "http://" + c.host + (if q.retList then "/range/list?" else "/range/expand?") + c.quote(q.expr)
  }

  /** The request line 52 sends for a query. */
  function RequestOf(c: ClientConfig, q: Query): Request
  {
    Request(Url(c, q), c.headers)
  }

  /** The message of line 57. */
  function StatusMessage(status: int, url: string): string
  {
    "Got " + IntToDecimal(status) + " response code from " + url
  }

  /** The `RangeException` lines 51-60 raise for a reply, or None when the reply is a success.
      The checks run in the code's order: connection error, then status, then header, so a
      non-200 response reports its status even when it also carries a `RangeException` header. */
  function ReplyError(reply: Reply, url: string): (e: Option<RangeException>)
    ensures e.None? <==>
      reply.Received? && reply.response.statusCode == 200 && reply.response.rangeException.None?
    ensures reply.ConnectionFailed? ==> e == Some(ConnectionFailure(reply.error))
    ensures reply.Received? && reply.response.statusCode != 200 ==>
      e == Some(Message(StatusMessage(reply.response.statusCode, url)))
    ensures reply.Received? && reply.response.statusCode == 200 && reply.response.rangeException.Some? ==>
      e == Some(Message(reply.response.rangeException.value))
  {
    match reply
    case ConnectionFailed(error) => Some(ConnectionFailure(error))
    case Received(response) =>
      if response.statusCode != 200 then Some(Message(StatusMessage(response.statusCode, url)))
      else if response.rangeException.Some? then Some(Message(response.rangeException.value))
      else None
  }

  /** A status message names the status code: the digits after "Got " read back as the code. */
  lemma StatusMessageNamesStatus(status: int, url: string)
    ensures var m := StatusMessage(status, url);
      var digits := IntToDecimal(status);
      && m[..4] == "Got "
      && m[4..4 + |digits|] == digits
      && IntValue(digits) == status
  {
    IntToDecimalRoundTrip(status);
  }

  /** The list `expand` returns for a body (lines 62-67): its lines, each right-stripped, sorted. */
  function ListBody(text: string): seq<string>
  {
    SortStrings(RStripAll(SplitLines(text)))
  }

  /** The list holds every line of the body once, right-stripped, in ascending order; no entry
      holds a line break or ends in whitespace. */
  lemma ListBodyShape(text: string)
    ensures var lines := ListBody(text);
      && Sorted(lines)
      && multiset(lines) == multiset(RStripAll(SplitLines(text)))
      && |lines| == |SplitLines(text)|
      && forall line <- lines :: NoBreak(line) && (line == [] || line[|line| - 1] !in Whitespace)
  {
    var stripped := RStripAll(SplitLines(text));
    var lines := ListBody(text);
    SortStringsSorts(stripped);
    assert |lines| == |stripped| by {
      assert |multiset(lines)| == |multiset(stripped)|;
    }
    assert forall line <- lines :: line in stripped by {
      forall line <- lines ensures line in stripped {
        assert line in multiset(lines);
      }
    }
    assert forall line <- stripped :: NoBreak(line) by {
      forall k | 0 <= k < |stripped| ensures NoBreak(stripped[k]) {
        var raw := SplitLines(text)[k];
        assert raw in SplitLines(text);
        TrimEndIsPrefix(raw, Whitespace);
        assert stripped[k] <= raw;
      }
    }
  }

  /** A body that lists names one per line, each without trailing blanks, comes back as those
      names in ascending order. */
  lemma ListBodyOfLines(names: seq<string>)
    requires forall name <- names :: NoBreak(name) && (name == [] || name[|name| - 1] !in Whitespace)
    ensures ListBody(TerminateLines(names)) == SortStrings(names)
  {
    SplitTerminatedLines(names);
    var stripped := RStripAll(names);
    assert stripped == names by {
      forall k | 0 <= k < |names| ensures stripped[k] == names[k] {
        assert names[k] in names;
      }
    }
  }

  /** The body "b\na\nc\n" gives the list ["a", "b", "c"]. */
  lemma ListBodyExample()
    ensures ListBody("b\na\nc\n") == ["a", "b", "c"]
  {
    var names := ["b", "a", "c"];
    ExampleBody();
    ExampleSorted();
    ExampleClean();
    ListBodyOfLines(names);
  }

  lemma ExampleClean()
    ensures forall name <- ["b", "a", "c"] :: NoBreak(name) && (name == [] || name[|name| - 1] !in Whitespace)
  {
  }

  lemma ExampleBody()
    ensures TerminateLines(["b", "a", "c"]) == "b\na\nc\n"
  {
    var names := ["b", "a", "c"];
    assert names[1..] == ["a", "c"] && names[1..][1..] == ["c"] && names[1..][1..][1..] == [];
    assert TerminateLines(["c"]) == "c\n";
    assert TerminateLines(["a", "c"]) == "a\nc\n";
  }

  lemma ExampleSorted()
    ensures SortStrings(["b", "a", "c"]) == ["a", "b", "c"]
  {
    var sorted := ["a", "b", "c"];
    assert LexLeq("a", "b") && LexLeq("a", "c") && LexLeq("b", "c");
    assert Sorted(sorted);
    assert multiset(sorted) == multiset(["b", "a", "c"]);
    SortStringsSorts(["b", "a", "c"]);
    SortedUnique(SortStrings(["b", "a", "c"]), sorted);
  }

  /** What line 52 onwards makes of a reply to query `q`: the error of `ReplyError`, or on success
      the sorted list (`ret_list`) or the body verbatim. */
  function Answer(c: ClientConfig, q: Query, reply: Reply): Outcome<Value>
  {
    match ReplyError(reply, Url(c, q))
    case Some(e) => Raised(e)
    case None =>
      if q.retList then Done(Lines(ListBody(reply.response.text)))
      else Done(Text(reply.response.text))
  }
}
