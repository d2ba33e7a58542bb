/** `Range.build_split_list` (seco/range/__init__.py, lines 108-129): the greedy packing of the
    comma-separated atoms of an oversized expression into chunks under the `max_char` budget. */
module SplitList {
  import opened Strings

  /** The two forms `expand` and `build_split_list` accept: one string, or a list of strings. */
  datatype Expr = Literal(text: string) | Atoms(atoms: seq<string>)

  /** `expand` joins a list with commas before looking at it (lines 35-36). */
  function Joined(expr: Expr): string
  {
    match expr
    case Literal(text) => text
    case Atoms(atoms) => JoinWith(',', atoms)
  }

  /** The atoms `build_split_list` packs: a string is split on commas and sorted (lines 113-115),
      a list is taken in the order given. */
  function AtomsOf(expr: Expr): seq<string>
  {
    match expr
    case Literal(text) => SortStrings(SplitOn(',', text))
    case Atoms(atoms) => atoms
  }

  /** The atoms of a string are its comma-separated pieces, each once, in ascending order. */
  lemma AtomsOfLiteral(text: string)
    ensures Sorted(AtomsOf(Literal(text)))
    ensures multiset(AtomsOf(Literal(text))) == multiset(SplitOn(',', text))
  {
    SortStringsSorts(SplitOn(',', text));
  }

  /** What one atom adds to the running total: its length plus one for the comma (line 120). */
  function Cost(atom: string): nat
  {
    |atom| + 1
  }

  function TotalCost(atoms: seq<string>): nat
  {
    if atoms == [] then 0 else Cost(atoms[0]) + TotalCost(atoms[1..])
  }

  /** The chunks laid end to end. */
  function Flatten(chunks: seq<seq<string>>): seq<string>
  {
    if chunks == [] then [] else chunks[0] + Flatten(chunks[1..])
  }

  // ---------------------------------------------------------------------------------------------
  // The loop of lines 116-127, one atom at a time
  // ---------------------------------------------------------------------------------------------

  /** The loop's variables: `new_list`, `running_total`, `position`. */
  datatype Packing = Packing(chunks: seq<seq<string>>, runningTotal: nat, position: nat)

  /** The values the loop starts from (lines 116-118). */
  const Start := Packing([], 0, 0)

  /** One turn of the loop: charge the atom; past the budget, reset the total to 0 and move to the
      next position; then append to the chunk at `position`, or, when that index does not exist
      yet (`IndexError`), append a new chunk holding the atom. */
  function PackStep(maxChar: int, p: Packing, atom: string): Packing
  {
    var total := p.runningTotal + Cost(atom);
    var over := total > maxChar;
    var runningTotal := if over then 0 else total;
    var position := if over then p.position + 1 else p.position;
    if position < |p.chunks| then
      Packing(p.chunks[position := p.chunks[position] + [atom]], runningTotal, position)
    else
      Packing(p.chunks + [[atom]], runningTotal, position)
  }

  /** The loop run over `atoms` from state `p`. */
  function PackFrom(maxChar: int, p: Packing, atoms: seq<string>): Packing
    decreases |atoms|
  {
    if atoms == [] then p else PackFrom(maxChar, PackStep(maxChar, p, atoms[0]), atoms[1..])
  }

  /** The list `build_split_list(expr)` returns. */
  function SplitChunks(maxChar: int, expr: Expr): seq<seq<string>>
  {
    PackFrom(maxChar, Start, AtomsOf(expr)).chunks
  }

  // ---------------------------------------------------------------------------------------------
  // The same packing stated chunk by chunk
  // ---------------------------------------------------------------------------------------------

  /** How many leading atoms fit, one after the other, within `budget`. */
  function Fitting(atoms: seq<string>, budget: int): (k: nat)
    ensures k <= |atoms|
    decreases |atoms|
  {
    if atoms == [] || Cost(atoms[0]) > budget then 0
    else Fitting(atoms[1..], budget - Cost(atoms[0])) + 1
  }

  /** `Fitting` is the longest prefix whose total cost stays within the budget. */
  lemma {:induction false} FittingIsLongest(atoms: seq<string>, budget: int)
    ensures var k := Fitting(atoms, budget);
      && (k == 0 || TotalCost(atoms[..k]) <= budget)
      && (k < |atoms| ==> TotalCost(atoms[..k + 1]) > budget)
    decreases |atoms|
  {
    if atoms == [] || Cost(atoms[0]) > budget {
      assert atoms != [] ==> atoms[..1][1..] == [];
    } else {
      var k := Fitting(atoms[1..], budget - Cost(atoms[0]));
      FittingIsLongest(atoms[1..], budget - Cost(atoms[0]));
      assert atoms[..k + 1][1..] == atoms[1..][..k];
      assert k < |atoms| - 1 ==> atoms[..k + 2][1..] == atoms[1..][..k + 1];
    }
  }

  /** Packing from a fresh start: no chunk is open and the next atom is charged. An atom over budget
      on its own is put alone in a chunk and the start stays fresh; otherwise it opens a chunk that
      takes as many following atoms as fit in the rest of the budget. */
  function FromFresh(maxChar: int, atoms: seq<string>): seq<seq<string>>
    decreases |atoms|, 1
  {
    if atoms == [] then []
    else if Cost(atoms[0]) > maxChar then [[atoms[0]]] + FromFresh(maxChar, atoms[1..])
    else
      var k := Fitting(atoms[1..], maxChar - Cost(atoms[0]));
      [atoms[..k + 1]] + FromOpener(maxChar, atoms[k + 1..])
  }

  /** Packing after the budget was exceeded inside the list: the atom that exceeded it opens the
      next chunk free of charge, and that chunk takes as many following atoms as fit in a whole
      budget. */
  function FromOpener(maxChar: int, atoms: seq<string>): seq<seq<string>>
    decreases |atoms|, 0
  {
    if atoms == [] then []
    else
      var k := Fitting(atoms[1..], maxChar);
      [atoms[..k + 1]] + FromOpener(maxChar, atoms[k + 1..])
  }

  /** A turn of the loop while the last chunk is open and the atom exceeds the budget. */
  lemma StepOver(maxChar: int, p: Packing, a: string)
    requires |p.chunks| >= 1 && p.position == |p.chunks| - 1
    requires p.runningTotal + Cost(a) > maxChar
    ensures PackStep(maxChar, p, a) == Packing(p.chunks + [[a]], 0, |p.chunks|)
  {
  }

  /** A turn of the loop while the last chunk is open and the atom fits. */
  lemma StepWithin(maxChar: int, p: Packing, a: string)
    requires |p.chunks| >= 1 && p.position == |p.chunks| - 1
    requires p.runningTotal + Cost(a) <= maxChar
    ensures var last := |p.chunks| - 1;
      PackStep(maxChar, p, a)
        == Packing(p.chunks[..last] + [p.chunks[last] + [a]], p.runningTotal + Cost(a), last)
  {
    var last := |p.chunks| - 1;
    assert p.chunks[last := p.chunks[last] + [a]] == p.chunks[..last] + [p.chunks[last] + [a]];
  }

  /** A turn of the loop from a fresh start: the atom always opens a new chunk. */
  lemma StepFresh(maxChar: int, p: Packing, a: string)
    requires p.position == |p.chunks| && p.runningTotal == 0
    ensures PackStep(maxChar, p, a) == if Cost(a) > maxChar
      then Packing(p.chunks + [[a]], 0, |p.chunks| + 1)
      else Packing(p.chunks + [[a]], Cost(a), |p.chunks|)
  {
  }

  /** While a chunk is open (`position` names the last chunk), the loop fills that chunk as far as
      the remaining budget allows and then packs the rest chunk by chunk. */
  lemma {:induction false} PackFromFilling(maxChar: int, p: Packing, atoms: seq<string>)
    requires |p.chunks| >= 1 && p.position == |p.chunks| - 1
    ensures var k := Fitting(atoms, maxChar - p.runningTotal);
      var last := |p.chunks| - 1;
      PackFrom(maxChar, p, atoms).chunks
        == p.chunks[..last] + [p.chunks[last] + atoms[..k]] + FromOpener(maxChar, atoms[k..])
    decreases |atoms|, 1
  {
    var last := |p.chunks| - 1;
    if atoms == [] {
      NothingAdded(p.chunks, atoms);
    } else if p.runningTotal + Cost(atoms[0]) > maxChar {
      FillingOver(maxChar, p, atoms);
      assert Fitting(atoms, maxChar - p.runningTotal) == 0;
      NothingAdded(p.chunks, atoms);
    } else {
      FillingWithin(maxChar, p, atoms);
    }
  }

  /** Filling the last chunk with no atoms leaves the chunks and the atoms as they were. */
  lemma NothingAdded(chunks: seq<seq<string>>, atoms: seq<string>)
    requires |chunks| >= 1
    ensures var last := |chunks| - 1;
      chunks[..last] + [chunks[last] + atoms[..0]] == chunks && atoms[0..] == atoms
  {
    var last := |chunks| - 1;
    assert chunks[last] + atoms[..0] == chunks[last];
  }

  /** The chunks after `[atoms[0]]` was appended to `chunks` and then filled with the next `j`
      atoms, followed by `tail`: `chunks`, then the chunk `atoms[..j + 1]`, then `tail`. */
  lemma OpenChunk(chunks: seq<seq<string>>, atoms: seq<string>, j: nat, tail: seq<seq<string>>)
    requires j < |atoms|
    ensures var q := chunks + [[atoms[0]]];
      var last := |q| - 1;
      && q[..last] + [q[last] + atoms[1..][..j]] + tail == chunks + ([atoms[..j + 1]] + tail)
      && atoms[1..][j..] == atoms[j + 1..]
  {
    var q := chunks + [[atoms[0]]];
    var last := |q| - 1;
    assert q[..last] == chunks && q[last] == [atoms[0]];
    assert [atoms[0]] + atoms[1..][..j] == atoms[..j + 1];
  }

  /** `PackFromFilling` when the next atom exceeds the budget and opens a chunk. */
  lemma {:induction false} FillingOver(maxChar: int, p: Packing, atoms: seq<string>)
    requires |p.chunks| >= 1 && p.position == |p.chunks| - 1
    requires atoms != [] && p.runningTotal + Cost(atoms[0]) > maxChar
    ensures PackFrom(maxChar, p, atoms).chunks == p.chunks + FromOpener(maxChar, atoms)
    decreases |atoms|, 0
  {
    var a, rest := atoms[0], atoms[1..];
    assert PackFrom(maxChar, p, atoms) == PackFrom(maxChar, PackStep(maxChar, p, a), rest);
    StepOver(maxChar, p, a);
    var q := Packing(p.chunks + [[a]], 0, |p.chunks|);
    PackFromFilling(maxChar, q, rest);
    var j := Fitting(rest, maxChar);
    var tail := FromOpener(maxChar, atoms[j + 1..]);
    OpenChunk(p.chunks, atoms, j, tail);
    assert FromOpener(maxChar, atoms) == [atoms[..j + 1]] + tail;
  }

  /** `PackFromFilling` when the next atom fits and joins the open chunk. */
  lemma {:induction false} FillingWithin(maxChar: int, p: Packing, atoms: seq<string>)
    requires |p.chunks| >= 1 && p.position == |p.chunks| - 1
    requires atoms != [] && p.runningTotal + Cost(atoms[0]) <= maxChar
    ensures var k := Fitting(atoms, maxChar - p.runningTotal);
      var last := |p.chunks| - 1;
      PackFrom(maxChar, p, atoms).chunks
        == p.chunks[..last] + [p.chunks[last] + atoms[..k]] + FromOpener(maxChar, atoms[k..])
    decreases |atoms|, 0
  {
    var last := |p.chunks| - 1;
    var a, rest := atoms[0], atoms[1..];
    assert PackFrom(maxChar, p, atoms) == PackFrom(maxChar, PackStep(maxChar, p, a), rest);
    StepWithin(maxChar, p, a);
    var q := Packing(p.chunks[..last] + [p.chunks[last] + [a]], p.runningTotal + Cost(a), last);
    PackFromFilling(maxChar, q, rest);
    var j := Fitting(rest, maxChar - q.runningTotal);
    var k := Fitting(atoms, maxChar - p.runningTotal);
    assert k == j + 1;
    assert q.chunks[..last] == p.chunks[..last];
    assert q.chunks[last] + rest[..j] == p.chunks[last] + atoms[..k];
    assert rest[j..] == atoms[k..];
  }

  /** From a fresh start (`position` one past the last chunk, total 0) the loop packs the rest as
      `FromFresh` says. */
  lemma {:induction false} PackFromFresh(maxChar: int, p: Packing, atoms: seq<string>)
    requires p.position == |p.chunks| && p.runningTotal == 0
    ensures PackFrom(maxChar, p, atoms).chunks == p.chunks + FromFresh(maxChar, atoms)
    decreases |atoms|, 1
  {
    if atoms == [] {
      assert p.chunks + [] == p.chunks;
    } else if Cost(atoms[0]) > maxChar {
      FreshOver(maxChar, p, atoms);
    } else {
      FreshWithin(maxChar, p, atoms);
    }
  }

  /** `PackFromFresh` when the first atom exceeds the budget on its own. */
  lemma {:induction false} FreshOver(maxChar: int, p: Packing, atoms: seq<string>)
    requires p.position == |p.chunks| && p.runningTotal == 0
    requires atoms != [] && Cost(atoms[0]) > maxChar
    ensures PackFrom(maxChar, p, atoms).chunks == p.chunks + FromFresh(maxChar, atoms)
    decreases |atoms|, 0
  {
    var a, rest := atoms[0], atoms[1..];
    assert PackFrom(maxChar, p, atoms) == PackFrom(maxChar, PackStep(maxChar, p, a), rest);
    StepFresh(maxChar, p, a);
    var q := Packing(p.chunks + [[a]], 0, |p.chunks| + 1);
    PackFromFresh(maxChar, q, rest);
    assert FromFresh(maxChar, atoms) == [[a]] + FromFresh(maxChar, rest);
    assert (p.chunks + [[a]]) + FromFresh(maxChar, rest) == p.chunks + ([[a]] + FromFresh(maxChar, rest));
  }

  /** `PackFromFresh` when the first atom fits and opens a chunk. */
  lemma FreshWithin(maxChar: int, p: Packing, atoms: seq<string>)
    requires p.position == |p.chunks| && p.runningTotal == 0
    requires atoms != [] && Cost(atoms[0]) <= maxChar
    ensures PackFrom(maxChar, p, atoms).chunks == p.chunks + FromFresh(maxChar, atoms)
  {
    var a, rest := atoms[0], atoms[1..];
    assert PackFrom(maxChar, p, atoms) == PackFrom(maxChar, PackStep(maxChar, p, a), rest);
    StepFresh(maxChar, p, a);
    var q := Packing(p.chunks + [[a]], Cost(a), |p.chunks|);
    PackFromFilling(maxChar, q, rest);
    var j := Fitting(rest, maxChar - Cost(a));
    var tail := FromOpener(maxChar, atoms[j + 1..]);
    OpenChunk(p.chunks, atoms, j, tail);
    assert FromFresh(maxChar, atoms) == [atoms[..j + 1]] + tail;
  }

  /** The loop of lines 116-127 is the greedy packing stated chunk by chunk. */
  lemma PackedIsGreedy(maxChar: int, atoms: seq<string>)
    ensures PackFrom(maxChar, Start, atoms).chunks == FromFresh(maxChar, atoms)
  {
    PackFromFresh(maxChar, Start, atoms);
  }

  /** `position` is the index of the last chunk, or one past it after an atom over budget. */
  predicate Shaped(p: Packing)
  {
    p.position <= |p.chunks| <= p.position + 1
  }

  lemma {:induction false} PackFromShaped(maxChar: int, p: Packing, atoms: seq<string>)
    requires Shaped(p)
    ensures Shaped(PackFrom(maxChar, p, atoms))
    decreases |atoms|
  {
    if atoms != [] {
      PackFromShaped(maxChar, PackStep(maxChar, p, atoms[0]), atoms[1..]);
    }
  }

  lemma {:induction false} PackFromSnoc(maxChar: int, p: Packing, atoms: seq<string>, a: string)
    ensures PackFrom(maxChar, p, atoms + [a]) == PackStep(maxChar, PackFrom(maxChar, p, atoms), a)
    decreases |atoms|
  {
    if atoms == [] {
      assert [a][1..] == [];
    } else {
      assert (atoms + [a])[1..] == atoms[1..] + [a];
      PackFromSnoc(maxChar, PackStep(maxChar, p, atoms[0]), atoms[1..], a);
    }
  }

  /** Each atom either joins the last chunk or starts a new last chunk; earlier chunks are never
      touched again. */
  lemma AtomGoesLast(maxChar: int, atoms: seq<string>, a: string)
    ensures var before := PackFrom(maxChar, Start, atoms).chunks;
      var after := PackFrom(maxChar, Start, atoms + [a]).chunks;
      after == before + [[a]]
        || (before != [] && after == before[..|before| - 1] + [before[|before| - 1] + [a]])
  {
    PackFromSnoc(maxChar, Start, atoms, a);
    PackFromShaped(maxChar, Start, atoms);
    var p := PackFrom(maxChar, Start, atoms);
    var last := |p.chunks| - 1;
    if p.chunks != [] {
      assert p.chunks[last := p.chunks[last] + [a]] == p.chunks[..last] + [p.chunks[last] + [a]];
    }
  }

  // ---------------------------------------------------------------------------------------------
  // What the packing promises
  // ---------------------------------------------------------------------------------------------

  /** Flattening a chunk followed by more chunks. */
  lemma FlattenCons(head: seq<string>, rest: seq<seq<string>>)
    ensures Flatten([head] + rest) == head + Flatten(rest)
  {
    assert ([head] + rest)[1..] == rest;
  }

  /** A sequence is its first `n` elements followed by the rest. */
  lemma CutAt(atoms: seq<string>, n: nat)
    requires n <= |atoms|
    ensures atoms[..n] + atoms[n..] == atoms
  {
  }

  /** `FromFresh` on an atom over budget puts it alone in a chunk. */
  lemma FreshUnfoldOver(maxChar: int, atoms: seq<string>)
    requires atoms != [] && Cost(atoms[0]) > maxChar
    ensures FromFresh(maxChar, atoms) == [atoms[..1]] + FromFresh(maxChar, atoms[1..])
  {
    assert atoms[..1] == [atoms[0]];
  }

  /** `FromFresh` on an atom within budget opens a chunk with the atoms that fit after it. */
  lemma FreshUnfoldWithin(maxChar: int, atoms: seq<string>)
    requires atoms != [] && Cost(atoms[0]) <= maxChar
    ensures var k := Fitting(atoms[1..], maxChar - Cost(atoms[0]));
      FromFresh(maxChar, atoms) == [atoms[..k + 1]] + FromOpener(maxChar, atoms[k + 1..])
  {
    var k := Fitting(atoms[1..], maxChar - Cost(atoms[0]));
    var tail := FromOpener(maxChar, atoms[k + 1..]);
    assert FromFresh(maxChar, atoms) == [atoms[..k + 1]] + tail;
  }

  /** `FromOpener` opens a chunk with the atoms that fit after the first. */
  lemma OpenerUnfold(maxChar: int, atoms: seq<string>)
    requires atoms != []
    ensures var k := Fitting(atoms[1..], maxChar);
      FromOpener(maxChar, atoms) == [atoms[..k + 1]] + FromOpener(maxChar, atoms[k + 1..])
  {
    var k := Fitting(atoms[1..], maxChar);
    var tail := FromOpener(maxChar, atoms[k + 1..]);
    assert FromOpener(maxChar, atoms) == [atoms[..k + 1]] + tail;
  }

  /** No chunk is empty. */
  predicate NoEmptyChunk(chunks: seq<seq<string>>)
  {
    forall chunk <- chunks :: chunk != []
  }

  lemma NoEmptyChunkCons(head: seq<string>, rest: seq<seq<string>>)
    requires head != [] && NoEmptyChunk(rest)
    ensures NoEmptyChunk([head] + rest)
  {
  }

  /** Reading the chunks in order gives the atoms back, none dropped, repeated or moved, and no
      chunk is empty. */
  lemma {:induction false} FlattenFromFresh(maxChar: int, atoms: seq<string>)
    ensures Flatten(FromFresh(maxChar, atoms)) == atoms
    ensures NoEmptyChunk(FromFresh(maxChar, atoms))
    decreases |atoms|, 1
  {
    if atoms != [] {
      var k := if Cost(atoms[0]) > maxChar then 0 else Fitting(atoms[1..], maxChar - Cost(atoms[0]));
      var rest := if Cost(atoms[0]) > maxChar then FromFresh(maxChar, atoms[1..]) else FromOpener(maxChar, atoms[k + 1..]);
      if Cost(atoms[0]) > maxChar {
        FreshUnfoldOver(maxChar, atoms);
        FlattenFromFresh(maxChar, atoms[1..]);
      } else {
        FreshUnfoldWithin(maxChar, atoms);
        FlattenFromOpener(maxChar, atoms[k + 1..]);
      }
      FlattenCons(atoms[..k + 1], rest);
      NoEmptyChunkCons(atoms[..k + 1], rest);
      CutAt(atoms, k + 1);
    }
  }

  lemma {:induction false} FlattenFromOpener(maxChar: int, atoms: seq<string>)
    ensures Flatten(FromOpener(maxChar, atoms)) == atoms
    ensures NoEmptyChunk(FromOpener(maxChar, atoms))
    decreases |atoms|, 0
  {
    if atoms != [] {
      var k := Fitting(atoms[1..], maxChar);
      var rest := FromOpener(maxChar, atoms[k + 1..]);
      OpenerUnfold(maxChar, atoms);
      FlattenFromOpener(maxChar, atoms[k + 1..]);
      FlattenCons(atoms[..k + 1], rest);
      NoEmptyChunkCons(atoms[..k + 1], rest);
      CutAt(atoms, k + 1);
    }
  }

  /** A chunk is non-empty, and its atoms after the first fit within `maxChar`. */
  predicate ChunkFits(chunk: seq<string>, maxChar: int)
  {
    chunk != [] && (|chunk| == 1 || TotalCost(chunk[1..]) <= maxChar)
  }

  predicate AllChunksFit(chunks: seq<seq<string>>, maxChar: int)
  {
    forall chunk <- chunks :: ChunkFits(chunk, maxChar)
  }

  lemma AllChunksFitCons(head: seq<string>, rest: seq<seq<string>>, maxChar: int)
    requires ChunkFits(head, maxChar) && AllChunksFit(rest, maxChar)
    ensures AllChunksFit([head] + rest, maxChar)
  {
  }

  /** The chunk opened by `atoms[0]` with the atoms that fit after it within `budget <= maxChar`. */
  lemma OpenedChunkFits(atoms: seq<string>, budget: int, maxChar: int)
    requires atoms != [] && budget <= maxChar
    ensures ChunkFits(atoms[..Fitting(atoms[1..], budget) + 1], maxChar)
  {
    var k := Fitting(atoms[1..], budget);
    FittingIsLongest(atoms[1..], budget);
    assert atoms[..k + 1][1..] == atoms[1..][..k];
  }

  /** Every chunk `build_split_list` returns holds at least one atom, and its atoms after the first
      fit within `max_char`. */
  lemma {:induction false} ChunksWithinBudget(maxChar: int, atoms: seq<string>)
    ensures AllChunksFit(FromFresh(maxChar, atoms), maxChar)
    decreases |atoms|, 1
  {
    if atoms != [] {
      if Cost(atoms[0]) > maxChar {
        FreshUnfoldOver(maxChar, atoms);
        ChunksWithinBudget(maxChar, atoms[1..]);
        AllChunksFitCons(atoms[..1], FromFresh(maxChar, atoms[1..]), maxChar);
      } else {
        var k := Fitting(atoms[1..], maxChar - Cost(atoms[0]));
        FreshUnfoldWithin(maxChar, atoms);
        OpenedChunkFits(atoms, maxChar - Cost(atoms[0]), maxChar);
        OpenerChunksWithinBudget(maxChar, atoms[k + 1..]);
        AllChunksFitCons(atoms[..k + 1], FromOpener(maxChar, atoms[k + 1..]), maxChar);
      }
    }
  }

  lemma {:induction false} OpenerChunksWithinBudget(maxChar: int, atoms: seq<string>)
    ensures AllChunksFit(FromOpener(maxChar, atoms), maxChar)
    decreases |atoms|
  {
    if atoms != [] {
      var k := Fitting(atoms[1..], maxChar);
      OpenerUnfold(maxChar, atoms);
      OpenedChunkFits(atoms, maxChar, maxChar);
      OpenerChunksWithinBudget(maxChar, atoms[k + 1..]);
      AllChunksFitCons(atoms[..k + 1], FromOpener(maxChar, atoms[k + 1..]), maxChar);
    }
  }

  /** Joined with commas, a chunk is as long as its atoms' total cost less one. */
  lemma {:induction false} JoinLength(atoms: seq<string>)
    requires atoms != []
    ensures |JoinWith(',', atoms)| + 1 == TotalCost(atoms)
  {
    if |atoms| > 1 {
      JoinLength(atoms[1..]);
    }
  }

  /** Because the total is reset to 0 rather than to the cost of the atom that exceeded the budget,
      a chunk's serialised length is bounded by its first atom's length plus `max_char`, not by
      `max_char` alone. */
  lemma ChunkLengthBound(maxChar: int, atoms: seq<string>)
    ensures forall chunk <- FromFresh(maxChar, atoms) ::
      chunk != [] && (|chunk| == 1 || |JoinWith(',', chunk)| <= |chunk[0]| + maxChar)
  {
    ChunksWithinBudget(maxChar, atoms);
    forall chunk <- FromFresh(maxChar, atoms) | |chunk| > 1
      ensures |JoinWith(',', chunk)| <= |chunk[0]| + maxChar
    {
      JoinLength(chunk[1..]);
    }
  }

  /** An input over budget with two or more atoms is cut into two or more chunks; this is what lets
      `split_query` hand `expand` shorter pieces. */
  lemma SplitsWhenOverBudget(maxChar: int, atoms: seq<string>)
    requires |atoms| >= 2 && TotalCost(atoms) > maxChar
    ensures |FromFresh(maxChar, atoms)| >= 2
  {
    if Cost(atoms[0]) <= maxChar {
      var rest := atoms[1..];
      var k := Fitting(rest, maxChar - Cost(atoms[0]));
      FittingIsLongest(rest, maxChar - Cost(atoms[0]));
      assert rest[..|rest|] == rest;
      assert k < |rest|;
    }
  }

  /** Sorting the atoms does not change their total cost. */
  lemma {:induction false} InsertCost(x: string, s: seq<string>)
    ensures TotalCost(Insert(x, s)) == Cost(x) + TotalCost(s)
  {
    if s != [] && !LexLeq(x, s[0]) {
      InsertCost(x, s[1..]);
    }
  }

  lemma {:induction false} SortCost(s: seq<string>)
    ensures TotalCost(SortStrings(s)) == TotalCost(s)
  {
    if s != [] {
      SortCost(s[1..]);
      InsertCost(s[0], SortStrings(s[1..]));
    }
  }

  /** A string without commas is a single piece. */
  lemma SplitWithoutComma(s: string)
    requires ',' !in s
    ensures SplitOn(',', s) == [s]
  {
    assert IndexOf(',', s) == |s| by {
      assert forall k | 0 <= k < |s| :: s[k] != ',';
    }
  }

  /** A string with a comma is two pieces or more. */
  lemma SplitAtComma(s: string)
    requires ',' in s
    ensures |SplitOn(',', s)| >= 2
  {
    var i :| 0 <= i < |s| && s[i] == ',';
    assert IndexOf(',', s) < |s|;
  }

  /** `build_split_list` on a string longer than `max_char`: one atom comes back as the single chunk
      `[[atom]]`, two or more atoms as two or more chunks. Either way the chunks hold the sorted
      atoms, in order. */
  lemma LongStringChunks(maxChar: int, s: string)
    requires |s| > maxChar
    ensures var chunks := SplitChunks(maxChar, Literal(s));
      && Flatten(chunks) == SortStrings(SplitOn(',', s))
      && (',' !in s ==> chunks == [[s]])
      && (',' in s ==> |chunks| >= 2)
  {
    var atoms := AtomsOf(Literal(s));
    PackedIsGreedy(maxChar, atoms);
    FlattenFromFresh(maxChar, atoms);
    if ',' !in s {
      SplitWithoutComma(s);
      assert SortStrings([s]) == [s];
    } else {
      LongListChunks(maxChar, s);
    }
  }

  lemma LongListChunks(maxChar: int, s: string)
    requires |s| > maxChar && ',' in s
    ensures |FromFresh(maxChar, AtomsOf(Literal(s)))| >= 2
  {
    var atoms := AtomsOf(Literal(s));
    var pieces := SplitOn(',', s);
    SplitAtComma(s);
    assert |atoms| == |pieces| by {
      SortStringsSorts(pieces);
      assert |multiset(atoms)| == |multiset(pieces)|;
    }
    JoinSplit(',', s);
    JoinLength(pieces);
    SortCost(pieces);
    SplitsWhenOverBudget(maxChar, atoms);
  }

  /** A string always yields at least one chunk: even `''` splits into the one atom `''`. */
  lemma LiteralHasChunk(maxChar: int, s: string)
    ensures SplitChunks(maxChar, Literal(s)) != []
  {
    var atoms := AtomsOf(Literal(s));
    AtomsOfLiteral(s);
    assert |atoms| == |SplitOn(',', s)| by {
      assert |multiset(atoms)| == |multiset(SplitOn(',', s))|;
    }
    PackedIsGreedy(maxChar, atoms);
    FlattenFromFresh(maxChar, atoms);
  }

  /** The packing worked through on four atoms with `max_char` 10: `cccccccccc` exceeds the budget
      and opens the second chunk free of charge, so `d` joins it. */
  lemma PackingExample()
    ensures SplitChunks(10, Atoms(["aaa", "bb", "cccccccccc", "d"]))
      == [["aaa", "bb"], ["cccccccccc", "d"]]
  {
    var atoms := ["aaa", "bb", "cccccccccc", "d"];
    assert |"aaa"| == 3 && |"bb"| == 2 && |"cccccccccc"| == 10 && |"d"| == 1;
    assert [] + [["aaa"]] == [["aaa"]];
    assert PackStep(10, Start, "aaa") == Packing([["aaa"]], 4, 0);
    assert ["aaa"] + ["bb"] == ["aaa", "bb"];
    assert [["aaa"]][0 := ["aaa", "bb"]] == [["aaa", "bb"]];
    assert PackStep(10, Packing([["aaa"]], 4, 0), "bb") == Packing([["aaa", "bb"]], 7, 0);
    assert [["aaa", "bb"]] + [["cccccccccc"]] == [["aaa", "bb"], ["cccccccccc"]];
    assert PackStep(10, Packing([["aaa", "bb"]], 7, 0), "cccccccccc")
      == Packing([["aaa", "bb"], ["cccccccccc"]], 0, 1);
    assert ["cccccccccc"] + ["d"] == ["cccccccccc", "d"];
    assert [["aaa", "bb"], ["cccccccccc"]][1 := ["cccccccccc", "d"]]
      == [["aaa", "bb"], ["cccccccccc", "d"]];
    assert PackStep(10, Packing([["aaa", "bb"], ["cccccccccc"]], 0, 1), "d")
      == Packing([["aaa", "bb"], ["cccccccccc", "d"]], 2, 1);
    assert atoms[1..] == ["bb", "cccccccccc", "d"];
    assert atoms[1..][1..] == ["cccccccccc", "d"];
    assert atoms[1..][1..][1..] == ["d"];
  }
}
