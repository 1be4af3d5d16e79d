/** The newline splitter of the streaming transport. */
module LineSplitter {
  import opened Text

  type byte = x: int | 0 <= x < 256

  const NEWLINE: byte := 10

  /** The bytes that bytes.strip() removes: space, \t, \n, \v, \f, \r. */
  predicate IsSpace(b: byte) {
    b == 32 || 9 <= b <= 13
  }

  function StripLeft(s: seq<byte>): seq<byte> {
    if s != [] && IsSpace(s[0]) then StripLeft(s[1..]) else s
  }

  function StripRight(s: seq<byte>): seq<byte> {
    if s != [] && IsSpace(s[|s| - 1]) then StripRight(s[..|s| - 1]) else s
  }

  function Strip(s: seq<byte>): seq<byte> {
    StripRight(StripLeft(s))
  }

  function Flatten(chunks: seq<seq<byte>>): seq<byte> {
    if chunks == [] then [] else Flatten(chunks[..|chunks| - 1]) + chunks[|chunks| - 1]
  }

  /** What one piece contributes: nothing when blank. */
  function Line(decode: seq<byte> -> string, piece: seq<byte>): seq<string> {
    if Strip(piece) == [] then [] else [decode(Strip(piece))]
  }

  function Lines(decode: seq<byte> -> string, pieces: seq<seq<byte>>): seq<string> {
    if pieces == [] then [] else Line(decode, pieces[0]) + Lines(decode, pieces[1..])
  }

  /** The lines of a byte string: its non-blank pieces, stripped, decoded one by one. */
  function LinesOf(decode: seq<byte> -> string, data: seq<byte>): seq<string> {
    Lines(decode, SplitOn(data, NEWLINE))
  }

  lemma {:induction false} LinesAppend(decode: seq<byte> -> string, a: seq<seq<byte>>, b: seq<seq<byte>>)
    ensures Lines(decode, a + b) == Lines(decode, a) + Lines(decode, b)
  {
    if a == [] {
      assert a + b == b;
    } else {
      assert (a + b)[1..] == a[1..] + b;
      LinesAppend(decode, a[1..], b);
    }
  }

  /** The lines of data known to be complete: all but the last piece. */
  function CompleteLines(decode: seq<byte> -> string, data: seq<byte>): seq<string> {
    var pieces := SplitOn(data, NEWLINE);
    Lines(decode, pieces[..|pieces| - 1])
  }

  /** The pieces taken so far and the buffer are the pieces received so far. */
  ghost predicate Holds(received: seq<byte>, taken: seq<seq<byte>>, buffer: seq<byte>) {
    SplitOn(received, NEWLINE) == taken + SplitOn(buffer, NEWLINE)
  }

  lemma ChunkArrives(received: seq<byte>, taken: seq<seq<byte>>, buffer: seq<byte>, chunk: seq<byte>)
    requires Holds(received, taken, buffer)
    ensures Holds(received + chunk, taken, buffer + chunk)
  {
    SplitAppend(received, chunk, NEWLINE);
    SplitAppend(buffer, chunk, NEWLINE);
    hide SplitOn;
    var all, held := SplitOn(received, NEWLINE), SplitOn(buffer, NEWLINE);
    assert all[..|all| - 1] == taken + held[..|held| - 1];
  }

  lemma LineTaken(received: seq<byte>, taken: seq<seq<byte>>, line: seq<byte>, rest: seq<byte>)
    requires NEWLINE !in line && Holds(received, taken, line + [NEWLINE] + rest)
    ensures Holds(received, taken + [line], rest)
  {
    SplitAtFirst(line, rest, NEWLINE);
  }

  lemma Drained(decode: seq<byte> -> string, received: seq<byte>, taken: seq<seq<byte>>, buffer: seq<byte>)
    requires Holds(received, taken, buffer) && NEWLINE !in buffer
    ensures CompleteLines(decode, received) == Lines(decode, taken)
    ensures LinesOf(decode, received) == Lines(decode, taken) + Line(decode, buffer)
  {
    SplitWithout(buffer, NEWLINE);
    var all := SplitOn(received, NEWLINE);
    assert all == taken + [buffer] && all[..|all| - 1] == taken;
    LinesAppend(decode, taken, [buffer]);
    assert Lines(decode, [buffer]) == Line(decode, buffer) + Lines(decode, []);
  }

  lemma LinesGrow(decode: seq<byte> -> string, taken: seq<seq<byte>>, line: seq<byte>)
    ensures Lines(decode, taken + [line]) == Lines(decode, taken) + Line(decode, line)
  {
    LinesAppend(decode, taken, [line]);
    assert Lines(decode, [line]) == Line(decode, line) + Lines(decode, []);
  }

  /** The inner loop: yields every complete line in the buffer. */
  method TakeLines(decode: seq<byte> -> string, data: seq<byte>, ghost received: seq<byte>,
                   ghost before: seq<seq<byte>>)
    returns (lines: seq<string>, buffer: seq<byte>, ghost taken: seq<seq<byte>>)
    requires Holds(received, before, data)
    ensures Holds(received, taken, buffer) && NEWLINE !in buffer
    ensures Lines(decode, taken) == Lines(decode, before) + lines
  {
    hide Holds, Lines, StripLeft, StripRight;
    lines, buffer, taken := [], data, before;
    while NEWLINE in buffer
      invariant Holds(received, taken, buffer)
      invariant Lines(decode, taken) == Lines(decode, before) + lines
      decreases |buffer|
    {
      var cut := IndexOf(buffer, NEWLINE);
      var line, rest := buffer[..cut], buffer[cut + 1..];
      assert buffer == line + [NEWLINE] + rest;
      LineTaken(received, taken, line, rest);
      LinesGrow(decode, taken, line);
      buffer, taken := rest, taken + [line];
      line := Strip(line);
      if line != [] {
        lines := lines + [decode(line)];
      }
    }
  }

  /** iter_lines. However the bytes were cut into chunks, empty chunks
      included, the lines are those of the whole byte string; and after each
      chunk exactly the lines complete by then have been yielded. */
  method IterLines(decode: seq<byte> -> string, chunks: seq<seq<byte>>)
    returns (lines: seq<string>, yieldedAt: seq<nat>)
    ensures lines == LinesOf(decode, Flatten(chunks))
    ensures |yieldedAt| == |chunks|
    ensures forall k :: 0 <= k < |chunks| ==>
              yieldedAt[k] <= |lines| && lines[..yieldedAt[k]] == CompleteLines(decode, Flatten(chunks[..k + 1]))
  {
    hide Holds, LinesOf, CompleteLines;
    lines, yieldedAt := [], [];
    var buffer: seq<byte> := [];
    ghost var taken: seq<seq<byte>> := [];
    NothingHeld();
    for i := 0 to |chunks|
      invariant |yieldedAt| == i && NEWLINE !in buffer
      invariant Holds(Flatten(chunks[..i]), taken, buffer) && lines == Lines(decode, taken)
      invariant forall k :: 0 <= k < i ==>
                  yieldedAt[k] <= |lines| && lines[..yieldedAt[k]] == CompleteLines(decode, Flatten(chunks[..k + 1]))
    {
      assert chunks[..i + 1][..i] == chunks[..i];
      ChunkArrives(Flatten(chunks[..i]), taken, buffer, chunks[i]);
      var more: seq<string>;
      more, buffer, taken := TakeLines(decode, buffer + chunks[i], Flatten(chunks[..i + 1]), taken);
      lines := lines + more;
      Drained(decode, Flatten(chunks[..i + 1]), taken, buffer);
      yieldedAt := yieldedAt + [|lines|];
    }
    assert chunks[..|chunks|] == chunks;
    Drained(decode, Flatten(chunks), taken, buffer);
    if Strip(buffer) != [] {
      lines := lines + [decode(Strip(buffer))];
    }
  }

  lemma NothingHeld()
    ensures Holds([], [], [])
  {
  }

  /** The lines of newline-free pieces joined by newlines are the pieces that
      are not blank, in order; every byte string is such a join in one way. */
  lemma LinesOfJoined(decode: seq<byte> -> string, pieces: seq<seq<byte>>)
    requires pieces != [] && forall p :: p in pieces ==> NEWLINE !in p
    ensures LinesOf(decode, Join(pieces, NEWLINE)) == Lines(decode, pieces)
  {
    SplitJoin(pieces, NEWLINE);
  }

  ghost predicate Blank(piece: seq<byte>) {
    forall b :: b in piece ==> IsSpace(b)
  }

  ghost predicate IsTrimmed(s: seq<byte>) {
    s != [] && !IsSpace(s[0]) && !IsSpace(s[|s| - 1])
  }

  lemma {:induction false} StripIsText(left: seq<byte>, text: seq<byte>, right: seq<byte>)
    requires Blank(left) && Blank(right) && (text == [] || IsTrimmed(text))
    ensures Strip(left + text + right) == text
  {
    var s := left + text + right;
    if left != [] {
      assert s[0] == left[0] && s[1..] == left[1..] + text + right;
      StripIsText(left[1..], text, right);
    } else if text == [] {
      assert s == right;
      BlankStripsAway(right);
    } else {
      assert s[0] == text[0] && StripLeft(s) == s == text + right;
      TrimRight(text, right);
    }
  }

  lemma {:induction false} BlankStripsAway(s: seq<byte>)
    requires Blank(s)
    ensures StripLeft(s) == []
  {
    if s != [] {
      BlankStripsAway(s[1..]);
    }
  }

  lemma {:induction false} TrimRight(text: seq<byte>, right: seq<byte>)
    requires IsTrimmed(text) && Blank(right)
    ensures StripRight(text + right) == text
  {
    var s := text + right;
    if right == [] {
      assert s == text;
    } else {
      assert s[|s| - 1] == right[|right| - 1] && s[..|s| - 1] == text + right[..|right| - 1];
      TrimRight(text, right[..|right| - 1]);
    }
  }

  /** The text of a piece that neither begins nor ends with white space is one
      line of the stream, and blank pieces leave none, in the order of pieces. */
  lemma {:induction false} LinesOfTexts(decode: seq<byte> -> string, pieces: seq<seq<byte>>, texts: seq<seq<byte>>)
    requires |texts| == |pieces|
    requires forall i :: 0 <= i < |pieces| ==> Surrounds(pieces[i], texts[i])
    ensures Lines(decode, pieces) == Decoded(decode, texts)
  {
    if pieces != [] {
      var left, right :| Blank(left) && Blank(right) && pieces[0] == left + texts[0] + right;
      StripIsText(left, texts[0], right);
      LinesOfTexts(decode, pieces[1..], texts[1..]);
    }
  }

  /** The piece is the text with white space around it. */
  ghost predicate Surrounds(piece: seq<byte>, text: seq<byte>) {
    && (text == [] || IsTrimmed(text))
    && exists left, right :: Blank(left) && Blank(right) && piece == left + text + right
  }

  /** The texts that are not empty, decoded. */
  ghost function Decoded(decode: seq<byte> -> string, texts: seq<seq<byte>>): seq<string> {
    if texts == [] then []
    else (if texts[0] == [] then [] else [decode(texts[0])]) + Decoded(decode, texts[1..])
  }

  /** Stripping removes all and only the outer white space. */
  lemma {:induction false} StripRemovesMargins(s: seq<byte>) returns (left: seq<byte>, right: seq<byte>)
    ensures s == left + Strip(s) + right
    ensures forall b :: b in left || b in right ==> IsSpace(b)
    ensures Strip(s) != [] ==> !IsSpace(Strip(s)[0]) && !IsSpace(Strip(s)[|Strip(s)| - 1])
  {
    left := StripLeftRemoves(s);
    right := StripRightRemoves(StripLeft(s));
    assert StripLeft(s) == Strip(s) + right;
  }

  lemma {:induction false} StripLeftRemoves(s: seq<byte>) returns (left: seq<byte>)
    ensures s == left + StripLeft(s) && forall b :: b in left ==> IsSpace(b)
    ensures StripLeft(s) != [] ==> !IsSpace(StripLeft(s)[0])
  {
    left := [];
    if s != [] && IsSpace(s[0]) {
      left := StripLeftRemoves(s[1..]);
      left := [s[0]] + left;
    }
  }

  lemma {:induction false} StripRightRemoves(s: seq<byte>) returns (right: seq<byte>)
    ensures s == StripRight(s) + right && forall b :: b in right ==> IsSpace(b)
    ensures StripRight(s) != [] ==> !IsSpace(StripRight(s)[|StripRight(s)| - 1])
  {
    right := [];
    if s != [] && IsSpace(s[|s| - 1]) {
      right := StripRightRemoves(s[..|s| - 1]);
      right := right + [s[|s| - 1]];
    }
  }
}
