# seco.range client, modelled in Dafny

`seco.range` is the Python client of the *range* web service, a server that expands
cluster expressions such as `%cluster-a,host1` into host names. Its one class, `Range`
(`seco/range/__init__.py`), does the following:

- It sends GET requests to `http://{host}/range/list?{expr}` and to
  `http://{host}/range/expand?{expr}`.
- It turns connection errors, non-200 responses and `RangeException` response headers
  into a `RangeException`.
- It returns either the sorted, right-stripped lines of the body or the body verbatim.
- An expression longer than `max_char` never goes to the server whole:
  - `build_split_list` packs its comma-separated atoms greedily into chunks.
  - `split_query` expands each chunk on its own.
  - `split_collapse` repeats split-and-collapse passes until a pass leaves the text
    unchanged.

The model keeps that structure, one Dafny module per concern:

| module | file | contents |
|---|---|---|
| `Optional` | `optional.dfy` | `Option` |
| `Strings` | `strings.dfy` | the Python built-ins the client uses, over `seq<char>`: `join`, `split`, `strip`/`rstrip`, `splitlines`, `str(int)`, the code-point order of `str` and `list.sort` |
| `SplitList` | `split_list.dfy` | `build_split_list` as a step function of the loop's state (`PackStep`, `PackFrom`); an independent chunk-by-chunk definition of the same greedy packing (`FromFresh`/`FromOpener`); the proofs that the two agree and what the packing promises |
| `Protocol` | `protocol.dfy` | requests, replies, `RangeException`, the URL, the ordered error selection and the list body |
| `Expansion` | `expansion.dfy` | `expand`, `split_query` and `split_collapse` as mutually recursive functions of the client settings and the server. Each gives the outcome and the exact list of queries sent, in order |
| `UserAgent` | `user_agent.dfy` | `get_user_agent` |
| `RangeClient` | `range.dfy` | the class `Range`, whose methods loop and send requests through a `Transport` object that logs every request. Each method is proved to return what the `Expansion` function says and to append exactly that function's requests to the log |

Two runs of the code never produce an answer:
- **An atom longer than `max_char`.** `build_split_list` returns it as the one chunk
  `[[atom]]`, and expanding that chunk asks for the same atom again (lines 40-44, 88-90).
  The recursion goes on until Python raises `RecursionError`, which is not a
  `RangeException`.
- **A collapse that never settles.** The `while` loop of `split_collapse` (line 102) can
  run forever.

So `expand`, `split_query` and `split_collapse` take a `fuel` argument. One unit is spent per
nested call and per pass of the collapse loop, and a call that runs out ends in `OutOfFuel`.
`OutOfFuel` stands for both runs above, and `OversizedAtomNeverAnswers` proves that the
oversized atom is never answered. For Python 3 `str` input, every other outcome is exactly
the code's; Python 2 is not modelled (see "## Left out").

The model keeps three quirks of the code:

- **Total reset to 0.** When an atom pushes the running total over `max_char`, the total
  resets to 0 (line 122), not to that atom's cost. The atom that opens a chunk is
  therefore free, and a chunk's text can be longer than `max_char`. `PackingExample` shows
  this: with `max_char = 10`, the chunk `cccccccccc,d` has 12 characters. `ChunkLengthBound`
  bounds the excess by the first atom's length.
- **Status before header.** The status check comes before the header check (lines
  56-60), so a non-200 response that also carries a `RangeException` header reports its
  status.
- **Oversized first atom.** When the first atom alone exceeds the budget, `position`
  jumps to 1 while the list is empty. The `IndexError` fallback then appends the atom at
  index 0, and the next atom starts from a fresh total (`FromFresh`, `StepFresh`).

## Model

| member | source | states |
|---|---|---|
| `Strings.IndexOf` | python_seco_range/source/seco/range/__init__.py:114 | the position found holds the first separator, and none occurs before it |
| `Strings.SplitOn` | python_seco_range/source/seco/range/__init__.py:114 | `s.split(',')` is never empty, and no piece contains the separator |
| `Strings.JoinSplit` | python_seco_range/source/seco/range/__init__.py:114 | re-joining the pieces of `split` gives the string back |
| `Strings.SplitJoin` | python_seco_range/source/seco/range/__init__.py:36 | splitting a join of separator-free pieces gives the pieces back |
| `Strings.TrimEnd` | python_seco_range/source/seco/range/__init__.py:65 | `rstrip` leaves a text no longer than the input that does not end in a stripped character |
| `Strings.TrimEndIsPrefix` | python_seco_range/source/seco/range/__init__.py:65 | `rstrip` keeps a prefix of the input and removes only stripped characters |
| `Strings.TrimStart` | python_seco_range/source/seco/range/__init__.py:105 | the leading half of `strip` leaves a text no longer than the input that does not start with a stripped character |
| `Strings.TrimStartIsSuffix` | python_seco_range/source/seco/range/__init__.py:105 | the leading half of `strip` keeps a suffix of the input and removes only stripped characters |
| `Strings.Strip` | python_seco_range/source/seco/range/__init__.py:105 | `strip(',')` leaves no comma at either end |
| `Strings.RStripAllSnoc` | python_seco_range/source/seco/range/__init__.py:64-65 | right-stripping one more line appends its stripped form to the list built so far |
| `Strings.SplitLines` | python_seco_range/source/seco/range/__init__.py:64 | no line returned by `splitlines` holds a line break |
| `Strings.SplitTerminatedLines` | python_seco_range/source/seco/range/__init__.py:64 | `splitlines` recovers every line of a newline-terminated body |
| `Strings.NatToDecimal` | python_seco_range/source/seco/range/__init__.py:57 | `str(n)` is a non-empty string of digits |
| `Strings.NatToDecimalRoundTrip` | python_seco_range/source/seco/range/__init__.py:57 | the digits of `str(n)` denote `n` |
| `Strings.IntToDecimalRoundTrip` | python_seco_range/source/seco/range/__init__.py:57 | `str(status)` reads back as `status`, sign included |
| `Strings.LexLeqReflexive` | python_seco_range/source/seco/range/__init__.py:66 | the string order is reflexive |
| `Strings.LexLeqTotal` | python_seco_range/source/seco/range/__init__.py:66 | any two strings are comparable |
| `Strings.LexLeqAntisymmetric` | python_seco_range/source/seco/range/__init__.py:66 | strings ordered both ways are equal |
| `Strings.LexLeqTransitive` | python_seco_range/source/seco/range/__init__.py:66 | the string order is transitive |
| `Strings.InsertPermutes` | python_seco_range/source/seco/range/__init__.py:66 | one insertion step adds the element and loses nothing |
| `Strings.InsertSorted` | python_seco_range/source/seco/range/__init__.py:66 | one insertion step keeps a list ascending |
| `Strings.SortStringsSorts` | python_seco_range/source/seco/range/__init__.py:66 | `sort()` leaves the list ascending and a permutation of the input |
| `Strings.SortedHeadIsLeast` | python_seco_range/source/seco/range/__init__.py:66 | the head of an ascending list is its least element |
| `Strings.SortedUnique` | python_seco_range/source/seco/range/__init__.py:115 | a list has one ascending arrangement, so the model's sort is `list.sort()` |
| `SplitList.AtomsOfLiteral` | python_seco_range/source/seco/range/__init__.py:113-115 | a string's atoms are its comma-split pieces, sorted ascending, none lost or added |
| `SplitList.FittingIsLongest` | python_seco_range/source/seco/range/__init__.py:119-123 | the number of atoms taken is the longest prefix whose running total stays within the budget |
| `SplitList.StepFresh` | python_seco_range/source/seco/range/__init__.py:120-127 | from a fresh state an atom always opens a chunk; an oversized one leaves the state fresh |
| `SplitList.PackFromFilling` | python_seco_range/source/seco/range/__init__.py:119-127 | while a chunk is open the loop fills it as far as the budget allows, then packs the rest chunk by chunk |
| `SplitList.FillingOver` | python_seco_range/source/seco/range/__init__.py:121-127 | the loop when the next atom overflows the open chunk |
| `SplitList.FillingWithin` | python_seco_range/source/seco/range/__init__.py:120-125 | the loop when the next atom fits the open chunk |
| `SplitList.PackFromFresh` | python_seco_range/source/seco/range/__init__.py:116-127 | from a fresh state the loop produces the greedy packing |
| `SplitList.PackedIsGreedy` | python_seco_range/source/seco/range/__init__.py:116-129 | the loop's result equals the independent chunk-by-chunk packing |
| `SplitList.PackFromShaped` | python_seco_range/source/seco/range/__init__.py:116-127 | `position` always names the last chunk or the index just past it |
| `SplitList.PackFromSnoc` | python_seco_range/source/seco/range/__init__.py:119-127 | the loop over `atoms + [a]` is the loop over `atoms` followed by one step |
| `SplitList.AtomGoesLast` | python_seco_range/source/seco/range/__init__.py:124-127 | each atom joins the last chunk or starts a new last chunk; earlier chunks are never changed |
| `SplitList.FlattenFromFresh` | python_seco_range/source/seco/range/__init__.py:113-129 | the chunks read in order give the atoms back exactly, and no chunk is empty |
| `SplitList.FlattenFromOpener` | python_seco_range/source/seco/range/__init__.py:119-127 | the same after an overflow |
| `SplitList.OpenedChunkFits` | python_seco_range/source/seco/range/__init__.py:120-123 | the atoms that join an opened chunk have a total within `max_char` |
| `SplitList.ChunksWithinBudget` | python_seco_range/source/seco/range/__init__.py:117-127 | in every chunk, the atoms after the first fit within `max_char` |
| `SplitList.OpenerChunksWithinBudget` | python_seco_range/source/seco/range/__init__.py:117-127 | the same after an overflow |
| `SplitList.JoinLength` | python_seco_range/source/seco/range/__init__.py:120 | a chunk joined with commas is one shorter than its running total |
| `SplitList.ChunkLengthBound` | python_seco_range/source/seco/range/__init__.py:120-123 | a chunk's text is at most its first atom's length plus `max_char` |
| `SplitList.SplitsWhenOverBudget` | python_seco_range/source/seco/range/__init__.py:119-127 | two or more atoms whose total exceeds the budget give two or more chunks |
| `SplitList.InsertCost` | python_seco_range/source/seco/range/__init__.py:115 | one insertion step adds exactly the inserted atom's cost |
| `SplitList.SortCost` | python_seco_range/source/seco/range/__init__.py:115 | sorting the atoms does not change their total cost |
| `SplitList.SplitWithoutComma` | python_seco_range/source/seco/range/__init__.py:114 | a string without a comma splits into itself alone |
| `SplitList.SplitAtComma` | python_seco_range/source/seco/range/__init__.py:114 | a string with a comma splits into two or more pieces |
| `SplitList.LongListChunks` | python_seco_range/source/seco/range/__init__.py:113-127 | an over-long string with a comma packs into two or more chunks |
| `SplitList.LongStringChunks` | python_seco_range/source/seco/range/__init__.py:108-129 | for an over-long string, the chunks flatten to the sorted atoms; a lone atom comes back as `[[atom]]`, and two or more atoms as two or more chunks |
| `SplitList.LiteralHasChunk` | python_seco_range/source/seco/range/__init__.py:113-127 | a string input always yields at least one chunk |
| `SplitList.PackingExample` | python_seco_range/source/seco/range/__init__.py:117-127 | `max_char = 10` packs `aaa,bb,cccccccccc,d` as `[[aaa,bb],[cccccccccc,d]]` |
| `Protocol.ReplyError` | python_seco_range/source/seco/range/__init__.py:51-60 | no error exactly for a 200 without the header; connection error first, then status, then header |
| `Protocol.StatusMessageNamesStatus` | python_seco_range/source/seco/range/__init__.py:57 | the status message starts `Got ` followed by digits that read back as the status |
| `Protocol.ListBodyShape` | python_seco_range/source/seco/range/__init__.py:62-67 | the list is ascending, a permutation of the right-stripped lines, one entry per line; no entry holds a break or ends in whitespace |
| `Protocol.ListBodyOfLines` | python_seco_range/source/seco/range/__init__.py:62-67 | a body of clean names, one per line, comes back as those names sorted |
| `Protocol.ListBodyExample` | python_seco_range/source/seco/range/__init__.py:62-67 | the body `b\na\nc\n` gives `[a, b, c]` |
| `Expansion.Expanded` | python_seco_range/source/seco/range/__init__.py:34-69 | every query sent fits `max_char` and asks for the kind of answer requested; a list query returns sorted lists, a text query returns text; `LongTextCollapses` adds what a long text query returns |
| `Expansion.QueryChunks` | python_seco_range/source/seco/range/__init__.py:89-90 | every query sent is short; on success there is one value per chunk, of the requested shape |
| `Expansion.QueryChunksAnswers` | python_seco_range/source/seco/range/__init__.py:87-92 | the i-th value is what expanding the i-th chunk on its own returns |
| `Expansion.SplitQueried` | python_seco_range/source/seco/range/__init__.py:78-92 | one value per chunk of `build_split_list`, not flattened; every query sent is short |
| `Expansion.Pass` | python_seco_range/source/seco/range/__init__.py:104-105 | a successful pass leaves no comma at either end; only short text queries are sent |
| `Expansion.Collapsing` | python_seco_range/source/seco/range/__init__.py:102-105 | the collapse loop sends only short text queries |
| `Expansion.SplitCollapsed` | python_seco_range/source/seco/range/__init__.py:94-106 | `split_collapse` sends only short text queries |
| `Expansion.SentItself` | python_seco_range/source/seco/range/__init__.py:40-49 | the expression itself is requested iff it fits `max_char`, and then it is the only request |
| `Expansion.ShortQueryAnswer` | python_seco_range/source/seco/range/__init__.py:46-69 | a short query raises exactly the error the reply calls for, otherwise returns the sorted lines or the body |
| `Expansion.LongListParts` | python_seco_range/source/seco/range/__init__.py:40-42 | a long list query returns one part per chunk, each that chunk's own answer |
| `Expansion.CollapsingFixedPoint` | python_seco_range/source/seco/range/__init__.py:102-106 | when the loop stops after a pass, its result is a fixed point of a pass with no edge comma |
| `Expansion.LongTextCollapses` | python_seco_range/source/seco/range/__init__.py:40-44 | a long text query (`collapse`) that succeeds returns text with no edge comma that a further pass leaves unchanged |
| `Expansion.OversizedAtomNeverAnswers` | python_seco_range/source/seco/range/__init__.py:40-44 | a comma-free expression longer than `max_char` is never answered as a list, and never as text unless it is empty (a negative `max_char` lets `''` through, and the collapse loop returns it at once); the code recurses on it without end |
| `Expansion.SplitCollapsedResult` | python_seco_range/source/seco/range/__init__.py:94-106 | the empty input returns `''` with no request; otherwise a result is a fixed point of a pass with no edge comma |
| `UserAgent.AgentName` | python_seco_range/source/seco/range/__init__.py:138 | the provided agent if non-empty, else the script name if non-empty, else `seco.range` |
| `UserAgent.UserAgentFields` | python_seco_range/source/seco/range/__init__.py:131-139 | the header is `name/2.0 (user; host)`, field by field; a name without `/` reads back from it |
| `RangeClient.Transport.Get` | python_seco_range/source/seco/range/__init__.py:52 | one request is appended to the log, and the server's reply to it is returned |
| `RangeClient.QueryChunksStep` | python_seco_range/source/seco/range/__init__.py:89-90 | one turn of the `split_query` loop: a success appends the value and continues, and an error ends the loop with it |
| `RangeClient.PassDone` | python_seco_range/source/seco/range/__init__.py:104-105 | a pass whose split query answered values gets only texts back and yields their joined, comma-stripped collapse |
| `RangeClient.CollapsingStepDone` | python_seco_range/source/seco/range/__init__.py:102-105 | one turn of the collapse loop whose pass succeeds: the loop continues from the collapsed text after the pass's queries |
| `RangeClient.CollapsingStepFails` | python_seco_range/source/seco/range/__init__.py:102-105 | one turn of the collapse loop whose pass fails: the loop ends with that error after the pass's queries |
| `RangeClient.Range.constructor` | python_seco_range/source/seco/range/__init__.py:28-32 | host and `max_char` are stored, and the headers hold exactly the `User-Agent` of `get_user_agent` |
| `RangeClient.Range.Expand` | python_seco_range/source/seco/range/__init__.py:34-69 | returns what `Expanded` gives for the comma-joined expression, and logs exactly its requests |
| `RangeClient.Range.Collapse` | python_seco_range/source/seco/range/__init__.py:71-76 | is `Expand` asking for text, and succeeds only with text |
| `RangeClient.Range.SplitQuery` | python_seco_range/source/seco/range/__init__.py:78-92 | returns what `SplitQueried` gives, and logs exactly its requests |
| `RangeClient.Range.SplitCollapse` | python_seco_range/source/seco/range/__init__.py:94-106 | returns what `SplitCollapsed` gives, and logs exactly its requests |
| `RangeClient.Range.BuildSplitList` | python_seco_range/source/seco/range/__init__.py:108-129 | returns the loop's packing, equal to the greedy packing; the chunks flatten to the atoms, and none is empty |

## Left out

- The HTTP transport (`requests.get`, line 52) is a function from request to reply held by
  `Transport`. Sockets, timeouts and response headers other than `RangeException` are not
  modelled.
- Exceptions of `requests.get` other than `ConnectionError` are not modelled. Examples are a read
  timeout, `InvalidURL` and `TooManyRedirects`. They escape line 53 unwrapped, and `Reply` has
  no case for them.
- `quote` (lines 9-11, 47, 49) is an uninterpreted `string -> string` given to the
  constructor. URLs are stated as a prefix followed by `quote(expr)`.
- `socket.gethostname`, `getpass.getuser` and `sys.argv[0]` (lines 136-138) are fields of an
  `Environment` value passed to the constructor. A `getpass` failure is not modelled.
- The default arguments `user_agent=None` and `max_char=7500` (line 28) become explicit
  constructor arguments. The constant `DefaultMaxChar` only records the default of line 28, and no
  member uses it.
- `RangeException.__str__` (lines 24-25) renders with `repr`. The model keeps the wrapped value
  (`ConnectionFailure` or `Message`) and does not model that string form.
- The model follows Python 3 `str`. Under Python 2, two kinds of input fail the
  `isinstance(expr, str)` test at line 113 and are split into unsorted characters:
  `unicode` input, and every `split_collapse` pass after the first, whose text comes from
  `response.text`. `len` at line 40 also counts bytes for a Python 2 byte `str`.
- The `__main__` block (lines 141-147) and the Python 2 import fallback (lines 8-11) are command-line
  and import plumbing.
- `Strings.SplitLines` recognises only `\n`, `\r` and `\r\n`. Python's `splitlines` also breaks
  at `\v`, `\f`, `\x1c`-`\x1e`, `\x85`, `\u2028` and `\u2029`.
- `Strings.Whitespace` holds space, `\t`, `\n`, `\r`, `\v` and `\f`. Python's `rstrip()` also
  removes `\x1c`-`\x1f`, `\x85`, `\xa0` and the other Unicode spaces.
- `Expansion.Expanded`, `Expansion.SplitQueried`, `Expansion.SplitCollapsed` and the methods `Range.Expand`,
  `Range.SplitQuery` and `Range.SplitCollapse` take a fuel bound. Where the code never answers, the
  model ends in `OutOfFuel`: the `RecursionError` of an atom longer than `max_char` alone, and a
  collapse loop that never settles.
- `split_query` can also be called with a list from outside `expand`. `Range.SplitQuery` accepts an `Expr`
  for that. `split_collapse` is called only with a string, and `Range.SplitCollapse` takes a string.
- Response header names are matched case-insensitively by `requests`. The model holds the
  `RangeException` header value directly.
