/** Replaying a finished answer as a stream: sentence-sized text deltas, then cards. */
module TextStream {
  import opened Strings

  const MAX_CHUNK := 60

  predicate HardStop(c: char) {
    c in "\U{3002}\U{FF01}\U{FF1F}!?\n"
  }

  predicate SoftStop(c: char) {
    c in "\U{FF0C},\U{FF1B};"
  }

  /** A buffer is cut after a hard stop, or after a soft stop once it is long enough. */
  predicate Cut(buffer: string, maxChunk: int) {
    buffer != "" &&
    (var c := buffer[|buffer| - 1]; HardStop(c) || (SoftStop(c) && |buffer| >= maxChunk))
  }

  /** The segments that a buffer and the text after it fall into. */
  function Segments(buffer: string, rest: string, maxChunk: int): seq<string>
    decreases |rest|
  {
    if rest == "" then (if buffer == "" then [] else [buffer])
    else
      var longer := buffer + [rest[0]];
      if Cut(longer, maxChunk) then [longer] + Segments("", rest[1..], maxChunk)
      else Segments(longer, rest[1..], maxChunk)
  }

  /** The segments with something other than whitespace in them. */
  function WithInk(pieces: seq<string>): seq<string> {
    if pieces == [] then []
    else (if Ink(pieces[0]) == "" then [] else [pieces[0]]) + WithInk(pieces[1..])
  }

  function Flatten(pieces: seq<string>): string {
    if pieces == [] then "" else pieces[0] + Flatten(pieces[1..])
  }

  function Chunks(text: string, maxChunk: int): seq<string> {
    if text == "" then []
    else
      var parts := WithInk(Segments("", text, maxChunk));
      if parts == [] then [text] else parts
  }

  lemma WithInkCons(piece: string, rest: seq<string>)
    ensures WithInk([piece] + rest) == (if Ink(piece) == "" then [] else [piece]) + WithInk(rest)
  {
    assert ([piece] + rest)[1..] == rest;
  }

  lemma FlattenCons(piece: string, rest: seq<string>)
    ensures Flatten([piece] + rest) == piece + Flatten(rest)
  {
    assert ([piece] + rest)[1..] == rest;
  }

  function IfInky(piece: string): seq<string> {
    if Ink(piece) == "" then [] else [piece]
  }

  /** The chunks when `parts` are done, `buffer` is open and `rest` is unread. */
  function Pending(parts: seq<string>, buffer: string, rest: string, maxChunk: int): seq<string> {
    parts + WithInk(Segments(buffer, rest, maxChunk))
  }

  /** What reading one more character does to the chunks still to come. */
  lemma OneMore(parts: seq<string>, buffer: string, text: string, i: nat, maxChunk: int)
    requires i < |text|
    ensures var longer := buffer + [text[i]];
            Pending(parts, buffer, text[i..], maxChunk) ==
            if Cut(longer, maxChunk) then Pending(parts + IfInky(longer), "", text[i + 1..], maxChunk)
            else Pending(parts, longer, text[i + 1..], maxChunk)
  {
    assert text[i..][0] == text[i] && text[i..][1..] == text[i + 1..];
    WithInkCons(buffer + [text[i]], Segments("", text[i + 1..], maxChunk));
  }

  lemma NoMore(parts: seq<string>, buffer: string, maxChunk: int)
    ensures Pending(parts, buffer, "", maxChunk) == parts + IfInky(buffer)
  {
    WithInkCons(buffer, []);
    assert [buffer] + [] == [buffer];
  }

  method ChunkText(text: string, maxChunk: int) returns (parts: seq<string>)
    ensures parts == Chunks(text, maxChunk)
  {
    parts := [];
    if text == "" {
      return;
    }
    var buffer := "";
    assert text[0..] == text && [] + WithInk(Segments("", text, maxChunk)) == WithInk(Segments("", text, maxChunk));
    for i := 0 to |text|
      invariant Pending([], "", text, maxChunk) == Pending(parts, buffer, text[i..], maxChunk)
    {
      OneMore(parts, buffer, text, i, maxChunk);
      buffer := buffer + [text[i]];
      if Cut(buffer, maxChunk) {
        parts := KeepInky(parts, buffer);
        buffer := "";
      }
    }
    assert text[|text|..] == "";
    NoMore(parts, buffer, maxChunk);
    parts := KeepInky(parts, buffer);
    if parts == [] {
      parts := [text];
    }
  }

  /** Appends a buffer unless stripping leaves nothing of it. */
  method KeepInky(parts: seq<string>, buffer: string) returns (longer: seq<string>)
    ensures longer == parts + IfInky(buffer)
  {
    StripKeepsInk(buffer);
    longer := if Strip(buffer) != "" then parts + [buffer] else parts;
  }

  // ---- What the chunks are ----

  lemma {:induction false} SegmentsAreTheText(buffer: string, rest: string, maxChunk: int)
    ensures Flatten(Segments(buffer, rest, maxChunk)) == buffer + rest
    decreases |rest|
  {
    if rest != "" {
      var longer := buffer + [rest[0]];
      assert buffer + rest == longer + rest[1..];
      if Cut(longer, maxChunk) {
        SegmentsAreTheText("", rest[1..], maxChunk);
        var tail := Segments("", rest[1..], maxChunk);
        assert ([longer] + tail)[1..] == tail;
      } else {
        SegmentsAreTheText(longer, rest[1..], maxChunk);
      }
    } else if buffer != "" {
      assert [buffer][1..] == [];
    }
  }

  lemma {:induction false} WithInkKeepsInk(pieces: seq<string>)
    ensures Ink(Flatten(WithInk(pieces))) == Ink(Flatten(pieces))
  {
    if pieces != [] {
      var first, rest := pieces[0], pieces[1..];
      WithInkKeepsInk(rest);
      assert pieces == [first] + rest;
      WithInkCons(first, rest);
      FlattenCons(first, rest);
      InkOfConcat(first, Flatten(rest));
      if Ink(first) != "" {
        FlattenCons(first, WithInk(rest));
        InkOfConcat(first, Flatten(WithInk(rest)));
      } else {
        assert [] + WithInk(rest) == WithInk(rest);
      }
    }
  }

  lemma InkyPartsShow(parts: seq<string>)
    requires parts != [] && Ink(parts[0]) != ""
    ensures Ink(Flatten(parts)) != ""
  {
    assert parts == [parts[0]] + parts[1..];
    FlattenCons(parts[0], parts[1..]);
    InkOfConcat(parts[0], Flatten(parts[1..]));
  }

  /** Every character that is not whitespace appears in the chunks exactly once and in order. */
  lemma ChunksConserveInk(text: string, maxChunk: int)
    ensures Ink(Flatten(Chunks(text, maxChunk))) == Ink(text)
  {
    var pieces := Segments("", text, maxChunk);
    assert Flatten(pieces) == text by { SegmentsAreTheText("", text, maxChunk); }
    WithInkKeepsInk(pieces);
    if text != "" && WithInk(pieces) == [] {
      FlattenCons(text, []);
      assert [text] + [] == [text] && text + "" == text;
    }
  }

  /** A segment is cut at the first place where it can be: at its end, and nowhere before. */
  ghost predicate CutOnlyAtEnd(piece: string, maxChunk: int) {
    forall k :: 0 < k < |piece| ==> !Cut(piece[..k], maxChunk)
  }

  ghost predicate AllButLastCut(pieces: seq<string>, maxChunk: int) {
    && (forall i :: 0 <= i < |pieces| ==> CutOnlyAtEnd(pieces[i], maxChunk))
    && (forall i :: 0 <= i < |pieces| - 1 ==> Cut(pieces[i], maxChunk))
  }

  lemma LongerUncut(buffer: string, c: char, maxChunk: int)
    requires CutOnlyAtEnd(buffer, maxChunk) && !Cut(buffer, maxChunk)
    ensures CutOnlyAtEnd(buffer + [c], maxChunk)
  {
    forall k | 0 < k < |buffer + [c]| ensures !Cut((buffer + [c])[..k], maxChunk) {
      assert (buffer + [c])[..k] == buffer[..k];
      assert buffer[..|buffer|] == buffer;
    }
  }

  lemma {:induction false} SegmentsAreCut(buffer: string, rest: string, maxChunk: int)
    requires CutOnlyAtEnd(buffer, maxChunk) && !Cut(buffer, maxChunk)
    ensures AllButLastCut(Segments(buffer, rest, maxChunk), maxChunk)
    decreases |rest|
  {
    if rest != "" {
      LongerUncut(buffer, rest[0], maxChunk);
      var longer := buffer + [rest[0]];
      SegmentsAreCut(if Cut(longer, maxChunk) then "" else longer, rest[1..], maxChunk);
    }
  }

  lemma {:induction false} WithInkStaysCut(pieces: seq<string>, maxChunk: int)
    requires AllButLastCut(pieces, maxChunk)
    ensures AllButLastCut(WithInk(pieces), maxChunk)
    ensures forall i :: 0 <= i < |WithInk(pieces)| ==> Ink(WithInk(pieces)[i]) != ""
    ensures pieces == [] ==> WithInk(pieces) == []
    decreases |pieces|
  {
    if pieces != [] {
      forall i | 0 <= i < |pieces[1..]| ensures CutOnlyAtEnd(pieces[1..][i], maxChunk) {
        assert pieces[1..][i] == pieces[i + 1];
      }
      WithInkStaysCut(pieces[1..], maxChunk);
      assert |WithInk(pieces[1..])| > 0 ==> |pieces| > 1;
    }
  }

  lemma InkySegmentsAreCut(text: string, maxChunk: int)
    ensures var parts := WithInk(Segments("", text, maxChunk));
            && AllButLastCut(parts, maxChunk)
            && (forall i :: 0 <= i < |parts| ==> Ink(parts[i]) != "")
            && Ink(Flatten(parts)) == Ink(text)
  {
    SegmentsAreCut("", text, maxChunk);
    WithInkStaysCut(Segments("", text, maxChunk), maxChunk);
    SegmentsAreTheText("", text, maxChunk);
    WithInkKeepsInk(Segments("", text, maxChunk));
    assert "" + text == text;
  }

  /** Every chunk but the last ends where a sentence may end, and no chunk could have been cut
      earlier; if the text has any ink, every chunk has. */
  lemma ChunksEndAtStops(text: string, maxChunk: int)
    requires Ink(text) != ""
    ensures var chunks := Chunks(text, maxChunk);
            AllButLastCut(chunks, maxChunk) && forall i :: 0 <= i < |chunks| ==> Ink(chunks[i]) != ""
  {
    InkySegmentsAreCut(text, maxChunk);
  }

  /** A text of whitespace only is passed on as one chunk. */
  lemma BlankTextIsOneChunk(text: string, maxChunk: int)
    requires text != "" && Ink(text) == ""
    ensures Chunks(text, maxChunk) == [text]
  {
    InkySegmentsAreCut(text, maxChunk);
    var parts := WithInk(Segments("", text, maxChunk));
    if parts != [] {
      InkyPartsShow(parts);
    }
  }

  // ---- The event stream ----

  datatype Contract = Contract(requestId: string, text: string, cards: seq<string>, meta: string, errors: seq<string>)

  datatype Event =
    | MessageStart(requestId: string, sessionId: string, meta: string)
    | TextDelta(requestId: string, sessionId: string, text: string)
    | Card(requestId: string, sessionId: string, card: string)
    | MessageEnd(requestId: string, sessionId: string, text: string, cards: seq<string>, meta: string,
                 errors: seq<string>)

  function Deltas(pieces: seq<string>, requestId: string, sessionId: string): seq<Event> {
    seq(|pieces|, i requires 0 <= i < |pieces| => TextDelta(requestId, sessionId, pieces[i]))
  }

  function Cards(cards: seq<string>, requestId: string, sessionId: string): seq<Event> {
    seq(|cards|, i requires 0 <= i < |cards| => Card(requestId, sessionId, cards[i]))
  }

  /** Start, text deltas, cards, end. */
  function StreamOf(contract: Contract, sessionId: string): seq<Event> {
    [MessageStart(contract.requestId, sessionId, contract.meta)]
    + Deltas(Chunks(contract.text, MAX_CHUNK), contract.requestId, sessionId)
    + Cards(contract.cards, contract.requestId, sessionId)
    + [MessageEnd(contract.requestId, sessionId, contract.text, contract.cards, contract.meta, contract.errors)]
  }

  method EmitContract(contract: Contract, sessionId: string) returns (events: seq<Event>)
    ensures events == StreamOf(contract, sessionId)
  {
    events := [MessageStart(contract.requestId, sessionId, contract.meta)];
    ghost var head := events;
    if contract.text != "" {
      var pieces := ChunkText(contract.text, MAX_CHUNK);
      for i := 0 to |pieces|
        invariant events == head + Deltas(pieces, contract.requestId, sessionId)[..i]
      {
        events := events + [TextDelta(contract.requestId, sessionId, pieces[i])];
      }
    }
    ghost var body := events;
    assert body == head + Deltas(Chunks(contract.text, MAX_CHUNK), contract.requestId, sessionId);
    for i := 0 to |contract.cards|
      invariant events == body + Cards(contract.cards, contract.requestId, sessionId)[..i]
    {
      events := events + [Card(contract.requestId, sessionId, contract.cards[i])];
    }
    events := events
      + [MessageEnd(contract.requestId, sessionId, contract.text, contract.cards, contract.meta, contract.errors)];
  }

  /** What a client that appends the deltas has read. */
  function DeltaText(events: seq<Event>): string {
    if events == [] then ""
    else (if events[0].TextDelta? then events[0].text else "") + DeltaText(events[1..])
  }

  lemma {:induction false} DeltaTextOfConcat(a: seq<Event>, b: seq<Event>)
    ensures DeltaText(a + b) == DeltaText(a) + DeltaText(b)
  {
    if a == [] {
      assert a + b == b;
    } else {
      DeltaTextOfConcat(a[1..], b);
      assert (a + b)[1..] == a[1..] + b;
    }
  }

  lemma {:induction false} DeltasCarryPieces(pieces: seq<string>, requestId: string, sessionId: string)
    ensures DeltaText(Deltas(pieces, requestId, sessionId)) == Flatten(pieces)
  {
    if pieces != [] {
      DeltasCarryPieces(pieces[1..], requestId, sessionId);
      assert Deltas(pieces, requestId, sessionId)[1..] == Deltas(pieces[1..], requestId, sessionId);
    }
  }

  lemma {:induction false} CardsCarryNoText(cards: seq<string>, requestId: string, sessionId: string)
    ensures DeltaText(Cards(cards, requestId, sessionId)) == ""
  {
    if cards != [] {
      CardsCarryNoText(cards[1..], requestId, sessionId);
      assert Cards(cards, requestId, sessionId)[1..] == Cards(cards[1..], requestId, sessionId);
    }
  }

  /** A client that appends the deltas has read the text, up to dropped whitespace. */
  lemma ReplayConservesText(contract: Contract, sessionId: string)
    ensures Ink(DeltaText(StreamOf(contract, sessionId))) == Ink(contract.text)
  {
    var chunks := Chunks(contract.text, MAX_CHUNK);
    var start := [MessageStart(contract.requestId, sessionId, contract.meta)];
    var deltas := Deltas(chunks, contract.requestId, sessionId);
    var cards := Cards(contract.cards, contract.requestId, sessionId);
    var end := [MessageEnd(contract.requestId, sessionId, contract.text, contract.cards, contract.meta,
                           contract.errors)];
    DeltaTextOfConcat(start + deltas + cards, end);
    DeltaTextOfConcat(start + deltas, cards);
    DeltaTextOfConcat(start, deltas);
    DeltasCarryPieces(chunks, contract.requestId, sessionId);
    CardsCarryNoText(contract.cards, contract.requestId, sessionId);
    assert start[1..] == [] && end[1..] == [];
    ChunksConserveInk(contract.text, MAX_CHUNK);
    assert DeltaText(start) == "" && DeltaText(end) == "";
    assert DeltaText(StreamOf(contract, sessionId)) == ("" + Flatten(chunks) + "") + "" == Flatten(chunks);
  }

  // ---- In the characters and the events themselves ----

  /** Full stop, exclamation and question mark, of either width where there are two, and newline. */
  const FULL_STOPS := {'\U{3002}', '\U{FF01}', '\U{FF1F}', '!', '?', '\n'}

  /** Comma and semicolon, of either width. */
  const HALF_STOPS := {'\U{FF0C}', ',', '\U{FF1B}', ';'}

  /** No chunk goes on past a full stop, nor past a half stop once it is long enough. */
  ghost predicate HoldsTogether(chunk: string, maxChunk: int) {
    forall k :: 0 <= k < |chunk| - 1 ==> chunk[k] !in FULL_STOPS && (chunk[k] in HALF_STOPS ==> k + 1 < maxChunk)
  }

  ghost predicate EndsAtStop(chunk: string, maxChunk: int) {
    && chunk != ""
    && (chunk[|chunk| - 1] in FULL_STOPS || (chunk[|chunk| - 1] in HALF_STOPS && |chunk| >= maxChunk))
  }

  lemma UncutHoldsTogether(chunk: string, maxChunk: int)
    requires CutOnlyAtEnd(chunk, maxChunk)
    ensures HoldsTogether(chunk, maxChunk)
  {
    forall k | 0 <= k < |chunk| - 1
      ensures chunk[k] !in FULL_STOPS && (chunk[k] in HALF_STOPS ==> k + 1 < maxChunk)
    {
      var start := chunk[..k + 1];
      assert !Cut(start, maxChunk) && |start| == k + 1 && start[k] == chunk[k];
      CutIs(start, maxChunk);
    }
  }

  lemma CutIs(buffer: string, maxChunk: int)
    ensures Cut(buffer, maxChunk) <==> EndsAtStop(buffer, maxChunk)
  {
    if buffer != "" {
      StopsAre(buffer[|buffer| - 1]);
    }
  }

  /** Every chunk holds together, and every one but the last ends at a stop. */
  lemma ChunksHoldTogether(text: string, maxChunk: int, i: nat)
    requires Ink(text) != "" && i < |Chunks(text, maxChunk)|
    ensures HoldsTogether(Chunks(text, maxChunk)[i], maxChunk)
    ensures i + 1 < |Chunks(text, maxChunk)| ==> EndsAtStop(Chunks(text, maxChunk)[i], maxChunk)
  {
    hide Chunks;
    ChunksEndAtStops(text, maxChunk);
    UncutHoldsTogether(Chunks(text, maxChunk)[i], maxChunk);
    CutIs(Chunks(text, maxChunk)[i], maxChunk);
  }

  lemma StopsAre(c: char)
    ensures HardStop(c) <==> c in {'\U{3002}', '\U{FF01}', '\U{FF1F}', '!', '?', '\n'}
    ensures SoftStop(c) <==> c in {'\U{FF0C}', ',', '\U{FF1B}', ';'}
  {
  }

  /** The events one by one: the start with the meta data, a delta for each chunk, then the cards in their
      order, and the end with text, cards, meta data and errors; all under one request and session. */
  lemma ReplayInOrder(contract: Contract, sessionId: string, i: nat)
    ensures var events, chunks := StreamOf(contract, sessionId), Chunks(contract.text, 60);
            && |events| == |chunks| + |contract.cards| + 2
            && events[0] == MessageStart(contract.requestId, sessionId, contract.meta)
            && (i < |chunks| ==> events[1 + i] == TextDelta(contract.requestId, sessionId, chunks[i]))
            && (i < |contract.cards| ==>
                  events[1 + |chunks| + i] == Card(contract.requestId, sessionId, contract.cards[i]))
            && events[|events| - 1]
               == MessageEnd(contract.requestId, sessionId, contract.text, contract.cards, contract.meta,
                             contract.errors)
  {
  }
}
