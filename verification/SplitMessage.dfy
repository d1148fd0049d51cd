/** Splitting a long message for delivery (src/format.ts). */
module SplitMessage {
  import JsText

  // Text as UTF-16 code units, the units the program measures and cuts by.
  type Unit = u: int | 0 <= u < 0x1_0000
  type Text = seq<Unit>

  const NEWLINE: Unit := 10
  const SPACE: Unit := 32

  predicate Blank(t: Text) {
    forall i :: 0 <= i < |t| ==> JsText.IsSpace(t[i])
  }

  // The number of leading white-space units.
  function Leading(t: Text): (n: nat)
    ensures n <= |t| && Blank(t[..n]) && (n < |t| ==> !JsText.IsSpace(t[n]))
  {
    if t == [] || !JsText.IsSpace(t[0]) then 0
    else
      assert forall i :: 1 <= i < |t| ==> t[i] == t[1..][i - 1];
      1 + Leading(t[1..])
  }

  // The last position at or before `from` that holds u, or -1.
  function LastIndexOf(t: Text, u: Unit, from: int): (r: int)
    requires from < |t|
    ensures -1 <= r <= from || (from < 0 && r == -1)
    ensures r >= 0 ==> t[r] == u
    ensures forall i :: r < i <= from && i >= 0 ==> t[i] != u
    decreases from + 1
  {
    if from < 0 then -1 else if t[from] == u then from else LastIndexOf(t, u, from - 1)
  }

  // A break before three tenths of the limit is not taken.
  predicate TooEarly(at: int, limit: nat) { 10 * at < 3 * limit }

  function CutPoint(t: Text, limit: nat): (at: int)
    requires |t| > limit
  {
    var line := LastIndexOf(t, NEWLINE, limit);
    if line != -1 && !TooEarly(line, limit) then line
    else
      var word := LastIndexOf(t, SPACE, limit);
      if word != -1 && !TooEarly(word, limit) then word else limit
  }

  // Within reach of the limit and not before three tenths of it.
  predicate BreakableAt(t: Text, limit: nat, i: nat, u: Unit) {
    3 * limit <= 10 * i <= 10 * limit && i < |t| && t[i] == u
  }

  /** Where a chunk ends: at the last newline in reach; failing that, at the last
      space in reach; and inside a word only when the reach holds neither. */
  lemma CutPointMeaning(t: Text, limit: nat)
    requires |t| > limit
    ensures var at := CutPoint(t, limit);
            && 3 * limit <= 10 * at <= 10 * limit
            && (if exists i: nat :: BreakableAt(t, limit, i, 10) then
                  t[at] == 10 && forall i: nat :: BreakableAt(t, limit, i, 10) ==> i <= at
                else if exists i: nat :: BreakableAt(t, limit, i, 32) then
                  t[at] == 32 && forall i: nat :: BreakableAt(t, limit, i, 32) ==> i <= at
                else at == limit)
  {
    var line, word := LastIndexOf(t, NEWLINE, limit), LastIndexOf(t, SPACE, limit);
    assert line >= 0 && !TooEarly(line, limit) ==> BreakableAt(t, limit, line, NEWLINE);
    assert word >= 0 && !TooEarly(word, limit) ==> BreakableAt(t, limit, word, SPACE);
    assert forall i: nat :: BreakableAt(t, limit, i, NEWLINE) ==> i <= line;
    assert forall i: nat :: BreakableAt(t, limit, i, SPACE) ==> i <= word;
  }

  lemma CutRange(t: Text, limit: nat)
    requires |t| > limit
    ensures 0 <= CutPoint(t, limit) <= limit && !TooEarly(CutPoint(t, limit), limit)
  {
  }

  // One round: the chunk cut off, the white space dropped after it, the rest.
  function Chunk(t: Text, limit: nat): Text
    requires |t| > limit
  {
    CutRange(t, limit);
    t[..CutPoint(t, limit)]
  }

  function Tail(t: Text, limit: nat): Text
    requires |t| > limit
  {
    CutRange(t, limit);
    t[CutPoint(t, limit)..]
  }

  function Rest(t: Text, limit: nat): Text
    requires |t| > limit
  {
    Tail(t, limit)[Leading(Tail(t, limit))..]
  }

  /** The texts the loop gets to the end of: any under a positive limit, and under
      limit zero the blank ones. */
  predicate Ends(t: Text, limit: nat) {
    limit >= 1 || Blank(t)
  }

  lemma Progress(t: Text, limit: nat)
    requires |t| > limit && Ends(t, limit)
    ensures |Rest(t, limit)| < |t| && Ends(Rest(t, limit), limit)
  {
    CutRange(t, limit);
    if limit == 0 {
      assert Tail(t, limit) == t && Leading(t) == |t|;
    }
  }

  /** On every other text it never ends: one round leaves a text that starts with
      a word, and every later round leaves that text as it is. */
  lemma StallsOtherwise(t: Text, limit: nat)
    requires !Ends(t, limit)
    ensures |t| > limit && Rest(t, limit) != [] && !Ends(Rest(t, limit), limit)
    ensures Rest(Rest(t, limit), limit) == Rest(t, limit)
  {
    ZeroRound(t);
    WordStays(t[Leading(t)..]);
  }

  lemma ZeroRound(t: Text)
    requires !Blank(t)
    ensures t != [] && Rest(t, 0) == t[Leading(t)..] && Leading(t) < |t|
  {
    hide CutPoint;
    CutRange(t, 0);
    assert Tail(t, 0) == t;
    assert t[..|t|] == t;
  }

  lemma WordStays(t: Text)
    requires t != [] && !JsText.IsSpace(t[0])
    ensures !Blank(t) && Rest(t, 0) == t
  {
    hide CutPoint;
    CutRange(t, 0);
    assert Tail(t, 0) == t;
    assert Leading(t) == 0;
  }

  function Loop(t: Text, limit: nat): seq<Text>
    requires Ends(t, limit)
    decreases |t|
  {
    if t == [] then []
    else if |t| <= limit then [t]
    else
      Progress(t, limit);
      [Chunk(t, limit)] + Loop(Rest(t, limit), limit)
  }

  function Pieces(text: Text, limit: nat): seq<Text>
    requires Ends(text, limit)
  {
    if |text| <= limit then [text] else Loop(text, limit)
  }

  // ---- What is conserved ---------------------------------------------------------------

  // The white space dropped after each chunk.
  function Gaps(t: Text, limit: nat): seq<Text>
    requires Ends(t, limit)
    decreases |t|
  {
    if t == [] then []
    else if |t| <= limit then [[]]
    else
      Progress(t, limit);
      [Tail(t, limit)[..Leading(Tail(t, limit))]] + Gaps(Rest(t, limit), limit)
  }

  function Interleave(chunks: seq<Text>, gaps: seq<Text>): Text
    requires |chunks| == |gaps|
  {
    if chunks == [] then [] else chunks[0] + gaps[0] + Interleave(chunks[1..], gaps[1..])
  }

  // The text is the chunks with white space after each.
  ghost predicate Conserves(text: Text, chunks: seq<Text>) {
    exists gaps: seq<Text> :: |gaps| == |chunks| && (forall i :: 0 <= i < |gaps| ==> Blank(gaps[i])) &&
                              text == Interleave(chunks, gaps)
  }

  lemma {:induction false} LoopConserves(t: Text, limit: nat)
    requires Ends(t, limit)
    ensures |Gaps(t, limit)| == |Loop(t, limit)| && forall i :: 0 <= i < |Gaps(t, limit)| ==> Blank(Gaps(t, limit)[i])
    ensures Interleave(Loop(t, limit), Gaps(t, limit)) == t
    decreases |t|
  {
    if |t| > limit {
      Progress(t, limit);
      LoopConserves(Rest(t, limit), limit);
      OneRound(t, limit);
    } else if t != [] {
      assert Interleave([t][1..], [[]][1..]) == [];
    }
  }

  lemma OneRound(t: Text, limit: nat)
    requires |t| > limit
    ensures t == Chunk(t, limit) + Tail(t, limit)[..Leading(Tail(t, limit))] + Rest(t, limit)
  {
    hide CutPoint, Leading;
    CutRange(t, limit);
    var tail := Tail(t, limit);
    assert tail == tail[..Leading(tail)] + Rest(t, limit);
    assert t == Chunk(t, limit) + tail;
  }

  lemma RoundSizes(t: Text, limit: nat)
    requires |t| > limit
    ensures |Chunk(t, limit)| <= limit && 10 * |Chunk(t, limit)| >= 3 * limit
    ensures |Rest(t, limit)| <= |t| - |Chunk(t, limit)|
  {
    CutRange(t, limit);
  }

  /** Splitting conserves the message: whenever the loop ends, so for every limit
      of at least one, the text is the chunks with only white space between and
      after them. */
  lemma SplitConserves(text: Text, limit: nat)
    requires Ends(text, limit)
    ensures Conserves(text, Pieces(text, limit))
  {
    if |text| <= limit {
      var gaps: seq<Text> := [[]];
      assert Interleave([text][1..], gaps[1..]) == [];
      assert text == Interleave([text], gaps);
    } else {
      LoopConserves(text, limit);
      assert |Gaps(text, limit)| == |Pieces(text, limit)|;
    }
  }

  // The text does not begin with white space.
  predicate StartsWithWord(t: Text) {
    t != [] && !JsText.IsSpace(t[0])
  }

  lemma RestStarts(t: Text, limit: nat)
    requires |t| > limit && Rest(t, limit) != []
    ensures StartsWithWord(Rest(t, limit))
  {
    hide CutPoint;
  }

  lemma ChunkStarts(t: Text, limit: nat)
    requires |t| > limit >= 1 && StartsWithWord(t)
    ensures StartsWithWord(Chunk(t, limit))
  {
    CutRange(t, limit);
  }

  lemma {:induction false} LoopStarts(t: Text, limit: nat)
    requires limit >= 1
    ensures forall i :: 0 < i < |Loop(t, limit)| ==> StartsWithWord(Loop(t, limit)[i])
    ensures StartsWithWord(t) ==> Loop(t, limit) != [] && StartsWithWord(Loop(t, limit)[0])
    decreases |t|
  {
    if |t| > limit {
      hide Chunk, Rest, Loop, StartsWithWord;
      LoopUnfolds(t, limit);
      var rest := Rest(t, limit);
      LoopStarts(rest, limit);
      if rest != [] { RestStarts(t, limit); }
      if StartsWithWord(t) { ChunkStarts(t, limit); }
      LoopEmpty(limit);
      forall i | 0 < i < |Loop(t, limit)| ensures StartsWithWord(Loop(t, limit)[i]) {
        assert Loop(t, limit)[i] == Loop(rest, limit)[i - 1];
      }
    }
  }

  lemma LoopEmpty(limit: nat)
    requires limit >= 1
    ensures Loop([], limit) == []
  {
  }

  /** Every chunk after the first begins with a word: the white space at a cut is
      dropped from the text that follows, not only the character cut at. */
  lemma LaterChunksStartWithWords(text: Text, limit: nat)
    requires limit >= 1
    ensures var chunks := Pieces(text, limit);
            forall i :: 0 < i < |chunks| ==> chunks[i] != [] && !JsText.IsSpace(chunks[i][0])
  {
    LoopStarts(text, limit);
    hide Loop;
  }

  predicate Sized(chunks: seq<Text>, limit: nat) {
    && (forall i :: 0 <= i < |chunks| ==> |chunks[i]| <= limit)
    && (forall i :: 0 <= i < |chunks| - 1 ==> 10 * |chunks[i]| >= 3 * limit)
  }

  lemma LoopUnfolds(t: Text, limit: nat)
    requires Ends(t, limit) && |t| > limit
    ensures Ends(Rest(t, limit), limit) && |Rest(t, limit)| < |t|
    ensures Loop(t, limit) == [Chunk(t, limit)] + Loop(Rest(t, limit), limit)
  {
    Progress(t, limit);
  }

  lemma {:induction false} LoopSizes(t: Text, limit: nat)
    requires Ends(t, limit)
    ensures Sized(Loop(t, limit), limit)
    decreases |t|
  {
    if |t| > limit {
      hide Chunk, Rest, Loop;
      LoopUnfolds(t, limit);
      RoundSizes(t, limit);
      LoopSizes(Rest(t, limit), limit);
    }
  }

  /** Every chunk fits the limit, and every one but the last has at least three
      tenths of it, so a message is cut into at most 10|text|/(3 limit) + 1 chunks. */
  lemma SplitSizes(text: Text, limit: nat)
    requires Ends(text, limit)
    ensures var chunks := Pieces(text, limit);
            && chunks != []
            && (forall i :: 0 <= i < |chunks| ==> |chunks[i]| <= limit)
            && (forall i :: 0 <= i < |chunks| - 1 ==> 10 * |chunks[i]| >= 3 * limit)
            && (|chunks| - 1) * (3 * limit) <= 10 * |text|
  {
    LoopSizes(text, limit);
    if |text| > limit {
      CountBound(text, limit);
    }
  }

  lemma {:induction false} CountBound(t: Text, limit: nat)
    requires Ends(t, limit)
    ensures (|Loop(t, limit)| - 1) * (3 * limit) <= 10 * |t|
    decreases |t|
  {
    if |t| > limit {
      hide Chunk, Rest;
      Progress(t, limit);
      RoundSizes(t, limit);
      CountBound(Rest(t, limit), limit);
      OneMore(|Loop(Rest(t, limit), limit)|, 3 * limit, |Rest(t, limit)|, |Chunk(t, limit)|);
    }
  }

  lemma OneMore(n: int, m: int, rest: int, chunk: int)
    requires (n - 1) * m <= 10 * rest && m <= 10 * chunk
    ensures n * m <= 10 * (rest + chunk)
  {
    assert n * m == (n - 1) * m + m;
  }

  // ---- The program ---------------------------------------------------------------------------

  method SplitMessage(text: Text, limit: nat) returns (chunks: seq<Text>)
    requires Ends(text, limit)
    ensures chunks == Pieces(text, limit)
  {
    if |text| <= limit {
      return [text];
    }
    assert Pieces(text, limit) == Loop(text, limit);
    hide Leading, LastIndexOf, CutPoint, Loop, Chunk, Rest, Tail, Pieces, Blank, Ends;
    chunks := [];
    var remaining := text;
    while |remaining| > 0
      invariant Ends(remaining, limit) && chunks + Loop(remaining, limit) == Loop(text, limit)
      decreases |remaining|
    {
      if |remaining| <= limit {
        LoopEnds(remaining, limit);
        chunks := chunks + [remaining];
        BlankEnds(limit);
        remaining := [];
        break;
      }
      LoopUnfolds(remaining, limit);
      var chunk;
      chunk, remaining := CutOff(remaining, limit);
      chunks := chunks + [chunk];
    }
    BlankEnds(limit);
    LoopEnds([], limit);
  }

  lemma BlankEnds(limit: nat)
    ensures Ends([], limit)
  {
  }

  lemma LoopEnds(t: Text, limit: nat)
    requires Ends(t, limit) && |t| <= limit
    ensures Ends([], limit) && Loop(t, limit) == (if t == [] then [] else [t]) && Loop([], limit) == []
  {
  }

  lemma RoundIs(t: Text, limit: nat)
    requires |t| > limit
    ensures var at := CutPoint(t, limit);
            0 <= at <= limit && Chunk(t, limit) == t[..at] && Leading(t[at..]) <= |t| - at &&
            Rest(t, limit) == t[at..][Leading(t[at..])..]
  {
    CutRange(t, limit);
  }

  // One round: the chunk, and the text left after the white space that follows it.
  method CutOff(remaining: Text, limit: nat) returns (chunk: Text, rest: Text)
    requires |remaining| > limit
    ensures chunk == Chunk(remaining, limit) && rest == Rest(remaining, limit)
  {
    RoundIs(remaining, limit);
    hide Leading, CutPoint, Chunk, Rest;
    var splitAt := SplitPoint(remaining, limit);
    chunk, rest := remaining[..splitAt], remaining[splitAt..];
    rest := rest[Leading(rest)..];
  }

  method SplitPoint(remaining: Text, limit: nat) returns (splitAt: nat)
    requires |remaining| > limit
    ensures splitAt == CutPoint(remaining, limit) && splitAt <= limit
  {
    var at := LastIndexOf(remaining, NEWLINE, limit);
    if at == -1 || TooEarly(at, limit) {
      at := LastIndexOf(remaining, SPACE, limit);
    }
    if at == -1 || TooEarly(at, limit) {
      at := limit;
    }
    splitAt := at;
  }
}
