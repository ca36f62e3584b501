/** Line framing over a stream that arrives in chunks, and picking a reply out of the lines. */
module Qmp {
  import opened Basics
  import opened ByteStrings

  const MAX_LINE_BYTES: nat := 1024 * 1024
  const RECEIVE_BYTES: nat := 65536

  function Concat(chunks: seq<Bytes>): Bytes {
    if chunks == [] then [] else chunks[0] + Concat(chunks[1..])
  }

  /** What a socket hands over: nonempty pieces no longer than one receive asks for. */
  ghost predicate Pieced(chunks: seq<Bytes>) {
    forall c :: c in chunks ==> 0 < |c| <= 65536
  }

  /** A way the stream may be delivered. */
  ghost predicate Delivers(chunks: seq<Bytes>, text: Bytes) {
    Concat(chunks) == text && Pieced(chunks)
  }

  lemma {:induction false} ConcatJoins(a: seq<Bytes>, b: seq<Bytes>)
    ensures Concat(a + b) == Concat(a) + Concat(b)
  {
    if a == [] {
      assert a + b == b;
    } else {
      ConcatJoins(a[1..], b);
      assert (a + b)[1..] == a[1..] + b;
      assert Concat(a + b) == a[0] + Concat(a[1..] + b);
    }
  }

  /** Where a byte first stands. */
  function IndexOf(text: Bytes, byte: nat): (i: nat)
    requires byte in text
    ensures i < |text| && text[i] == byte && byte !in text[..i]
  {
    if text[0] == byte then 0
    else
      var i := IndexOf(text[1..], byte);
      assert text[..i + 1] == [text[0]] + text[1..][..i];
      i + 1
  }

  // ------------------------------------------------------------ what one receive finds

  datatype Receipt = Line(raw: Bytes) | PeerClosed | TooLong

  /** What a receive finds, and the buffer and the undelivered chunks it leaves. */
  datatype Reading = Reading(receipt: Receipt, buffer: Bytes, chunks: seq<Bytes>)

  /** A newline in the buffer ends a line, whatever follows it.  The bound is applied to the whole buffer, after each
      chunk and before the newline is looked for. */
  ghost function Read(buffer: Bytes, chunks: seq<Bytes>): Reading
    decreases |chunks|
  {
    if LF in buffer then Reading(Line(buffer[..IndexOf(buffer, LF)]), buffer[IndexOf(buffer, LF) + 1..], chunks)
    else if chunks == [] then Reading(PeerClosed, buffer, [])
    else if |buffer + chunks[0]| > MAX_LINE_BYTES then Reading(TooLong, buffer + chunks[0], chunks[1..])
    else Read(buffer + chunks[0], chunks[1..])
  }

  /** The fullest the buffer can get before the first newline of a text is looked for: the newline arrives at the
      start of a full receive. */
  ghost function WorstFill(text: Bytes): nat
    requires LF in text
  {
    var reach := IndexOf(text, LF) + 65536;
    if reach <= |text| then reach else |text|
  }

  /** A line is taken off the front of the stream; nothing is lost or made up. */
  lemma {:induction false} ReadSplits(buffer: Bytes, chunks: seq<Bytes>)
    ensures var reading := Read(buffer, chunks);
            var text, rest := buffer + Concat(chunks), reading.buffer + Concat(reading.chunks);
            && (reading.receipt.Line? ==> LF !in reading.receipt.raw && text == reading.receipt.raw + [LF] + rest)
            && (reading.receipt.PeerClosed? ==> LF !in text)
            && (!reading.receipt.Line? ==> rest == text)
            && (reading.receipt.TooLong? ==> |reading.buffer| > MAX_LINE_BYTES)
    decreases |chunks|
  {
    hide IndexOf;
    if LF in buffer {
      var i := IndexOf(buffer, LF);
      assert buffer == buffer[..i] + [LF] + buffer[i + 1..];
    } else if chunks != [] {
      assert buffer + Concat(chunks) == (buffer + chunks[0]) + Concat(chunks[1..]);
      if |buffer + chunks[0]| <= MAX_LINE_BYTES {
        ReadSplits(buffer + chunks[0], chunks[1..]);
      }
    }
  }

  lemma {:induction false} ReadStaysPieced(buffer: Bytes, chunks: seq<Bytes>)
    requires Pieced(chunks)
    ensures Pieced(Read(buffer, chunks).chunks)
    decreases |chunks|
  {
    if LF !in buffer && chunks != [] && |buffer + chunks[0]| <= MAX_LINE_BYTES {
      ReadStaysPieced(buffer + chunks[0], chunks[1..]);
    }
  }

  /** A stretch without newline is no longer than what precedes the first one. */
  lemma BeforeNewline(text: Bytes, part: Bytes)
    requires LF in text && part <= text && LF !in part
    ensures |part| <= IndexOf(text, LF)
  {
    var i := IndexOf(text, LF);
    assert forall j :: 0 <= j < |part| ==> text[j] == part[j] && part[j] in part;
  }

  /** No delivery is refused unless the fullest buffer, or a text without newline, is over the bound. */
  lemma {:induction false} RefusedIsOver(buffer: Bytes, chunks: seq<Bytes>)
    requires Pieced(chunks) && Read(buffer, chunks).receipt.TooLong?
    ensures var text := buffer + Concat(chunks);
            if LF in text then WorstFill(text) > MAX_LINE_BYTES else |text| > MAX_LINE_BYTES
    decreases |chunks|
  {
    var text := buffer + Concat(chunks);
    assert text == (buffer + chunks[0]) + Concat(chunks[1..]);
    if |buffer + chunks[0]| <= MAX_LINE_BYTES {
      RefusedIsOver(buffer + chunks[0], chunks[1..]);
    } else if LF in text {
      BeforeNewline(text, buffer);
    }
  }

  class QmpConnection {
    var buffer: Bytes

    // What the socket has yet to deliver.
    var chunks: seq<Bytes>

    ghost function Unread(): Bytes
      reads this
    {
      buffer + Concat(chunks)
    }

    /** Takes one line off the stream; nothing is lost or made up, whatever the chunk boundaries were. */
    method Receive() returns (r: Receipt)
      modifies this
      ensures Reading(r, buffer, chunks) == Read(old(buffer), old(chunks))
      ensures r.Line? ==> LF !in r.raw && old(Unread()) == r.raw + [LF] + Unread()
      ensures r.PeerClosed? ==> LF !in old(Unread())
      ensures !r.Line? ==> Unread() == old(Unread())
      ensures r.TooLong? ==> |buffer| > 1048576
    {
      ReadSplits(buffer, chunks);
      while LF !in buffer
        invariant Read(buffer, chunks) == Read(old(buffer), old(chunks))
        decreases |chunks|
      {
        if chunks == [] {
          return PeerClosed;
        }
        buffer := buffer + chunks[0];
        chunks := chunks[1..];
        if |buffer| > MAX_LINE_BYTES {
          return TooLong;
        }
      }
      var i := IndexOf(buffer, LF);
      r := Line(buffer[..i]);
      buffer := buffer[i + 1..];
    }
  }

  // ------------------------------------------------------------ when chunk boundaries show

  /** Cuts a text into full pieces and a last one. */
  ghost function Pieces(text: Bytes): (pieces: seq<Bytes>)
    ensures Pieced(pieces)
    decreases |text|
  {
    if text == [] then []
    else if |text| <= RECEIVE_BYTES then [text]
    else [text[..RECEIVE_BYTES]] + Pieces(text[RECEIVE_BYTES..])
  }

  lemma {:induction false} PiecesDeliver(text: Bytes)
    ensures Delivers(Pieces(text), text)
    decreases |text|
  {
    if |text| > RECEIVE_BYTES {
      PiecesDeliver(text[RECEIVE_BYTES..]);
      assert text == text[..RECEIVE_BYTES] + text[RECEIVE_BYTES..];
      assert Pieces(text)[1..] == Pieces(text[RECEIVE_BYTES..]);
    } else if text != [] {
      assert Pieces(text)[1..] == [];
    }
  }

  lemma FirstChunk(buffer: Bytes, chunks: seq<Bytes>)
    requires chunks != []
    ensures buffer + Concat(chunks) == (buffer + chunks[0]) + Concat(chunks[1..])
    ensures LF !in buffer + Concat(chunks) ==> LF !in buffer
    ensures chunks[1..] == [] ==> buffer + Concat(chunks) == buffer + chunks[0]
  {
  }

  lemma ReadMore(buffer: Bytes, chunk: Bytes, rest: seq<Bytes>)
    requires LF !in buffer
    ensures Read(buffer, [chunk] + rest)
         == if |buffer + chunk| > MAX_LINE_BYTES then Reading(TooLong, buffer + chunk, rest) else Read(buffer + chunk, rest)
  {
    assert ([chunk] + rest)[1..] == rest;
  }

  /** Chunks that bring no newline and stay within the bound only fill the buffer. */
  lemma {:induction false} ReadFills(buffer: Bytes, chunks: seq<Bytes>, more: seq<Bytes>)
    requires LF !in buffer + Concat(chunks) && (chunks == [] || |buffer + Concat(chunks)| <= MAX_LINE_BYTES)
    ensures Read(buffer, chunks + more) == Read(buffer + Concat(chunks), more)
    decreases |chunks|
  {
    hide Read;
    if chunks == [] {
      assert chunks + more == more && buffer + Concat(chunks) == buffer;
    } else {
      assert chunks + more == [chunks[0]] + (chunks[1..] + more);
      FirstChunk(buffer, chunks);
      ReadMore(buffer, chunks[0], chunks[1..] + more);
      ReadFills(buffer + chunks[0], chunks[1..], more);
    }
  }

  /** A text with no newline that is over the bound is refused in any delivery. */
  lemma {:induction false} ReadOverflows(buffer: Bytes, chunks: seq<Bytes>, more: seq<Bytes>)
    requires LF !in buffer + Concat(chunks) && chunks != [] && |buffer + Concat(chunks)| > MAX_LINE_BYTES
    ensures Read(buffer, chunks + more).receipt.TooLong?
    decreases |chunks|
  {
    hide Read, Concat;
    assert chunks + more == [chunks[0]] + (chunks[1..] + more);
    FirstChunk(buffer, chunks);
    ReadMore(buffer, chunks[0], chunks[1..] + more);
    if |buffer + chunks[0]| <= MAX_LINE_BYTES {
      ReadOverflows(buffer + chunks[0], chunks[1..], more);
    }
  }

  /** Brought up to just before its newline, then the newline alone, a line within the bound is read, and nothing else. */
  lemma LineAlone(buffer: Bytes, line: Bytes, more: seq<Bytes>)
    requires LF !in buffer + line && |buffer + line| < MAX_LINE_BYTES
    ensures Read(buffer, Pieces(line) + ([[LF]] + more)) == Reading(Line(buffer + line), [], more)
  {
    var full := buffer + line;
    PiecesDeliver(line);
    ReadFills(buffer, Pieces(line), [[LF]] + more);
    assert ([[LF]] + more)[0] == [LF] && ([[LF]] + more)[1..] == more;
    LineIsFirst(full + [LF], full, []);
    assert Read(full, [[LF]] + more) == Read(full + [LF], more);
  }

  lemma NewlineIsAhead(buffer: Bytes, text: Bytes) returns (cut: nat)
    requires LF !in buffer && LF in buffer + text
    ensures cut < |text| && text[cut] == LF && IndexOf(buffer + text, LF) == |buffer| + cut
    ensures buffer + text[..cut] == (buffer + text)[..|buffer| + cut]
  {
    BeforeNewline(buffer + text, buffer);
    cut := IndexOf(buffer + text, LF) - |buffer|;
  }

  /** The first line can be made to arrive alone, before any delivery of the rest. */
  lemma LineThenMore(buffer: Bytes, text: Bytes, more: seq<Bytes>) returns (chunks: seq<Bytes>)
    requires LF !in buffer && LF in buffer + text && IndexOf(buffer + text, LF) + 1 <= MAX_LINE_BYTES
    requires Delivers(more, (buffer + text)[IndexOf(buffer + text, LF) + 1..])
    ensures Delivers(chunks, text)
    ensures Read(buffer, chunks) == Reading(Line((buffer + text)[..IndexOf(buffer + text, LF)]), [], more)
  {
    hide Pieces, Concat, IndexOf, Read;
    var cut := NewlineIsAhead(buffer, text);
    var line, rest := text[..cut], text[cut + 1..];
    chunks := Pieces(line) + ([[LF]] + more);
    LineAlone(buffer, line, more);
    PiecesDeliver(line);
    JoinThree(Pieces(line), [LF], more);
    assert text == line + [LF] + rest && (buffer + text)[|buffer| + cut + 1..] == rest;
  }

  lemma BestDelivery(buffer: Bytes, text: Bytes) returns (chunks: seq<Bytes>)
    requires LF !in buffer && LF in buffer + text && IndexOf(buffer + text, LF) + 1 <= MAX_LINE_BYTES
    ensures Delivers(chunks, text) && Read(buffer, chunks).receipt.Line?
  {
    var rest := (buffer + text)[IndexOf(buffer + text, LF) + 1..];
    PiecesDeliver(rest);
    chunks := LineThenMore(buffer, text, Pieces(rest));
  }

  lemma JoinThree(head: seq<Bytes>, middle: Bytes, tail: seq<Bytes>)
    ensures Concat(head + ([middle] + tail)) == Concat(head) + middle + Concat(tail)
    ensures Pieced(head) && Pieced(tail) && 0 < |middle| <= RECEIVE_BYTES ==> Pieced(head + ([middle] + tail))
  {
    ConcatJoins(head, [middle] + tail);
    assert ([middle] + tail)[1..] == tail;
  }

  /** The delivery that stops just before the newline and then brings as much as one receive can. */
  lemma WorstDelivery(buffer: Bytes, text: Bytes) returns (chunks: seq<Bytes>)
    requires LF !in buffer && LF in buffer + text && WorstFill(buffer + text) > MAX_LINE_BYTES
    ensures Delivers(chunks, text) && Read(buffer, chunks).receipt.TooLong?
  {
    hide Pieces, Concat, IndexOf;
    var cut := NewlineIsAhead(buffer, text);
    var end := WorstFill(buffer + text) - |buffer|;
    var head, middle, tail := Pieces(text[..cut]), text[cut..end], Pieces(text[end..]);
    chunks := head + ([middle] + tail);
    PiecesDeliver(text[..cut]);
    PiecesDeliver(text[end..]);
    JoinThree(head, middle, tail);
    assert text == text[..cut] + middle + text[end..];
    if head != [] && |buffer + Concat(head)| > MAX_LINE_BYTES {
      ReadOverflows(buffer, head, [middle] + tail);
    } else {
      ReadFills(buffer, head, [middle] + tail);
      assert ([middle] + tail)[0] == middle;
      assert |buffer + text[..cut] + middle| == WorstFill(buffer + text);
    }
  }

  lemma {:induction false} AcceptedFits(buffer: Bytes, chunks: seq<Bytes>)
    requires LF !in buffer && Read(buffer, chunks).receipt.Line?
    ensures LF in buffer + Concat(chunks) && IndexOf(buffer + Concat(chunks), LF) + 1 <= MAX_LINE_BYTES
    decreases |chunks|
  {
    var text, filled := buffer + Concat(chunks), buffer + chunks[0];
    assert text == filled + Concat(chunks[1..]);
    if LF in filled {
      var i, j := IndexOf(filled, LF), IndexOf(text, LF);
      assert text[i] == LF;
    } else {
      AcceptedFits(filled, chunks[1..]);
    }
  }

  /** Whatever is in the buffer: every delivery of what is left gets the next line through exactly when it is already
      there or even the fullest buffer fits. */
  lemma EveryDeliveryAcceptedIff(buffer: Bytes, text: Bytes)
    ensures (forall chunks :: Delivers(chunks, text) ==> Read(buffer, chunks).receipt.Line?) <==>
            LF in buffer || (LF in buffer + text && WorstFill(buffer + text) <= 1048576)
  {
    if LF in buffer || (LF in buffer + text && WorstFill(buffer + text) <= MAX_LINE_BYTES) {
      forall chunks | Delivers(chunks, text) ensures Read(buffer, chunks).receipt.Line? {
        ReadSplits(buffer, chunks);
        if Read(buffer, chunks).receipt.TooLong? {
          RefusedIsOver(buffer, chunks);
        }
      }
    } else {
      var chunks;
      if LF in buffer + text {
        chunks := WorstDelivery(buffer, text);
      } else {
        chunks := Pieces(text);
        PiecesDeliver(text);
        ReadSplits(buffer, chunks);
      }
      assert Delivers(chunks, text) && !Read(buffer, chunks).receipt.Line?;
    }
  }

  /** And some delivery does exactly when it is already there or ends within the bound. */
  lemma SomeDeliveryAcceptedIff(buffer: Bytes, text: Bytes)
    ensures (exists chunks :: Delivers(chunks, text) && Read(buffer, chunks).receipt.Line?) <==>
            LF in buffer || (LF in buffer + text && IndexOf(buffer + text, LF) + 1 <= 1048576)
  {
    if LF in buffer {
      PiecesDeliver(text);
      assert Read(buffer, Pieces(text)).receipt.Line?;
    } else if LF in buffer + text && IndexOf(buffer + text, LF) + 1 <= MAX_LINE_BYTES {
      var chunks := BestDelivery(buffer, text);
    } else {
      forall chunks | Delivers(chunks, text) ensures !Read(buffer, chunks).receipt.Line? {
        if Read(buffer, chunks).receipt.Line? {
          AcceptedFits(buffer, chunks);
        }
      }
    }
  }

  /** So chunk boundaries show, two deliveries of one text disagreeing on its line, exactly when the line ends within
      the bound but the fullest buffer does not fit. */
  lemma DeliveriesDisagreeIff(buffer: Bytes, text: Bytes)
    ensures (exists a, b :: && Delivers(a, text) && Read(buffer, a).receipt.Line?
                            && Delivers(b, text) && !Read(buffer, b).receipt.Line?) <==>
            && LF !in buffer && LF in buffer + text
            && IndexOf(buffer + text, LF) + 1 <= 1048576 < WorstFill(buffer + text)
  {
    EveryDeliveryAcceptedIff(buffer, text);
    SomeDeliveryAcceptedIff(buffer, text);
    if && LF !in buffer && LF in buffer + text
       && IndexOf(buffer + text, LF) + 1 <= MAX_LINE_BYTES < WorstFill(buffer + text)
    {
      var a := BestDelivery(buffer, text);
      var b := WorstDelivery(buffer, text);
    }
  }

  // ------------------------------------------------------------ picking the reply

  datatype Message = Message(isEvent: bool, id: Option<Bytes>, hasReturn: bool, hasError: bool)

  datatype Outcome = Chosen(raw: Bytes) | Rejected | Ended | Oversized

  ghost predicate IsEvent(message: Option<Message>) {
    message.Some? && message.value.isEvent
  }

  ghost function Verdict(message: Option<Message>, id: Bytes, raw: Bytes): Outcome {
    if message.None? || message.value.id != Some(id) || message.value.hasReturn == message.value.hasError then Rejected else Chosen(raw)
  }

  /** The reply in a text, by its lines alone: events are passed over, the first other message decides. */
  ghost function ReplyIn(parse: Bytes -> Option<Message>, id: Bytes, text: Bytes): Outcome
    decreases |text|
  {
    if LF !in text then Ended
    else
      var i := IndexOf(text, LF);
      if IsEvent(parse(text[..i])) then ReplyIn(parse, id, text[i + 1..]) else Verdict(parse(text[..i]), id, text[..i])
  }

  /** Whatever is in the buffer and however the rest arrives, each line up to the deciding one gets through: it is
      already there, or even the fullest buffer fits; and a stretch that never ends a line fits as well, unless nothing
      more of it is to come. */
  ghost predicate Roomy(parse: Bytes -> Option<Message>, buffer: Bytes, text: Bytes)
    decreases |buffer| + |text|
  {
    var whole := buffer + text;
    if LF in buffer then
      var i := IndexOf(buffer, LF);
      IsEvent(parse(buffer[..i])) ==> Roomy(parse, buffer[i + 1..], text)
    else if LF in whole then
      var i := IndexOf(whole, LF);
      WorstFill(whole) <= 1048576 && (IsEvent(parse(whole[..i])) ==> Roomy(parse, [], whole[i + 1..]))
    else
      text == [] || |whole| <= 1048576
  }

  /** The same with each line only having to end within the bound. */
  ghost predicate Fits(parse: Bytes -> Option<Message>, buffer: Bytes, text: Bytes)
    decreases |buffer| + |text|
  {
    var whole := buffer + text;
    if LF in buffer then
      var i := IndexOf(buffer, LF);
      IsEvent(parse(buffer[..i])) ==> Fits(parse, buffer[i + 1..], text)
    else if LF in whole then
      var i := IndexOf(whole, LF);
      i + 1 <= 1048576 && (IsEvent(parse(whole[..i])) ==> Fits(parse, [], whole[i + 1..]))
    else
      text == [] || |whole| <= 1048576
  }

  /** The reply as the chunks bring it, receive by receive. */
  ghost function Conversation(parse: Bytes -> Option<Message>, id: Bytes, buffer: Bytes, chunks: seq<Bytes>): Outcome
    decreases |buffer + Concat(chunks)|
  {
    ReadSplits(buffer, chunks);
    var reading := Read(buffer, chunks);
    match reading.receipt
    case PeerClosed => Ended
    case TooLong => Oversized
    case Line(raw) =>
      if IsEvent(parse(raw)) then Conversation(parse, id, reading.buffer, reading.chunks) else Verdict(parse(raw), id, raw)
  }

  lemma ConversationStep(parse: Bytes -> Option<Message>, id: Bytes, buffer: Bytes, chunks: seq<Bytes>)
    ensures var reading := Read(buffer, chunks);
            Conversation(parse, id, buffer, chunks) ==
            match reading.receipt
            case PeerClosed => Ended
            case TooLong => Oversized
            case Line(raw) =>
              if parse(raw).Some? && parse(raw).value.isEvent then Conversation(parse, id, reading.buffer, reading.chunks)
              else if parse(raw).None? || parse(raw).value.id != Some(id)
                      || parse(raw).value.hasReturn == parse(raw).value.hasError then Rejected
              else Chosen(raw)
  {
  }

  lemma LineIsFirst(text: Bytes, raw: Bytes, rest: Bytes)
    requires LF !in raw && text == raw + [LF] + rest
    ensures LF in text && IndexOf(text, LF) == |raw| && text[..IndexOf(text, LF)] == raw && text[IndexOf(text, LF) + 1..] == rest
  {
    assert text[|raw|] == LF;
    var i := IndexOf(text, LF);
    CutIsUnique(raw, text[..i], rest, text[i + 1..], LF);
  }

  /** A newline in the buffer is the first of the whole. */
  lemma BufferedFirst(buffer: Bytes, text: Bytes)
    requires LF in buffer
    ensures LF in buffer + text && IndexOf(buffer + text, LF) == IndexOf(buffer, LF)
    ensures (buffer + text)[..IndexOf(buffer, LF)] == buffer[..IndexOf(buffer, LF)]
    ensures (buffer + text)[IndexOf(buffer, LF) + 1..] == buffer[IndexOf(buffer, LF) + 1..] + text
  {
    var i := IndexOf(buffer, LF);
    LineIsFirst(buffer + text, buffer[..i], buffer[i + 1..] + text);
  }

  /** Room does not depend on how much of a stream with room was received already. */
  lemma {:induction false} RoomMoves(parse: Bytes -> Option<Message>, buffer: Bytes, text: Bytes)
    requires Roomy(parse, [], buffer + text)
    ensures Roomy(parse, buffer, text)
    decreases |buffer| + |text|
  {
    var whole := buffer + text;
    assert [] + whole == whole;
    if LF in buffer {
      BufferedFirst(buffer, text);
      var i := IndexOf(buffer, LF);
      if IsEvent(parse(buffer[..i])) {
        RoomMoves(parse, buffer[i + 1..], text);
      }
    }
  }

  /** Nor does fitting, while the buffer is within the bound. */
  lemma {:induction false} FitMoves(parse: Bytes -> Option<Message>, buffer: Bytes, text: Bytes)
    requires Fits(parse, buffer, text) && |buffer| <= MAX_LINE_BYTES
    ensures Fits(parse, [], buffer + text)
    decreases |buffer| + |text|
  {
    var whole := buffer + text;
    assert [] + whole == whole;
    if LF in buffer {
      BufferedFirst(buffer, text);
      var i := IndexOf(buffer, LF);
      if IsEvent(parse(buffer[..i])) {
        FitMoves(parse, buffer[i + 1..], text);
      }
    }
  }

  /** A receive that brings a line leaves the buffer within the bound. */
  lemma {:induction false} LeftWithinBound(buffer: Bytes, chunks: seq<Bytes>)
    requires LF !in buffer && Read(buffer, chunks).receipt.Line?
    ensures |Read(buffer, chunks).buffer| <= MAX_LINE_BYTES
    decreases |chunks|
  {
    if LF !in buffer + chunks[0] {
      LeftWithinBound(buffer + chunks[0], chunks[1..]);
    }
  }

  /** What a receive finds, seen from the stream. */
  lemma ReadFromStream(buffer: Bytes, chunks: seq<Bytes>)
    requires Pieced(chunks)
    ensures var text, reading := Concat(chunks), Read(buffer, chunks);
            var whole, rest := buffer + text, Concat(reading.chunks);
            && Pieced(reading.chunks)
            && (reading.receipt.PeerClosed? ==> LF !in whole && (text == [] || |whole| <= MAX_LINE_BYTES))
            && (reading.receipt.TooLong? ==>
                  LF !in buffer && text != []
                  && if LF in whole then WorstFill(whole) > MAX_LINE_BYTES else |whole| > MAX_LINE_BYTES)
            && (reading.receipt.Line? ==>
                  && LF in whole && reading.receipt.raw == whole[..IndexOf(whole, LF)]
                  && reading.buffer + rest == whole[IndexOf(whole, LF) + 1..]
                  && if LF in buffer then
                       reading.receipt.raw == buffer[..IndexOf(buffer, LF)]
                       && reading.buffer == buffer[IndexOf(buffer, LF) + 1..] && rest == text
                     else IndexOf(whole, LF) + 1 <= MAX_LINE_BYTES && |reading.buffer| <= MAX_LINE_BYTES)
  {
    var reading := Read(buffer, chunks);
    ReadSplits(buffer, chunks);
    ReadStaysPieced(buffer, chunks);
    match reading.receipt
    case PeerClosed =>
      ClosedIsWithin(buffer, chunks);
    case TooLong =>
      RefusedIsOver(buffer, chunks);
      assert chunks[0] in chunks;
    case Line(raw) =>
      LineIsFirst(buffer + Concat(chunks), raw, reading.buffer + Concat(reading.chunks));
      if LF !in buffer {
        AcceptedFits(buffer, chunks);
        LeftWithinBound(buffer, chunks);
      }
  }

  lemma {:induction false} ClosedIsWithin(buffer: Bytes, chunks: seq<Bytes>)
    requires Read(buffer, chunks).receipt.PeerClosed?
    ensures Concat(chunks) == [] || |buffer + Concat(chunks)| <= MAX_LINE_BYTES
    decreases |chunks|
  {
    if chunks != [] {
      assert buffer + Concat(chunks) == (buffer + chunks[0]) + Concat(chunks[1..]);
      ClosedIsWithin(buffer + chunks[0], chunks[1..]);
    }
  }

  /** A conversation not cut off gives the reply of its bytes and each of its lines fitted; one that is cut off had no
      room. */
  ghost predicate Answered(parse: Bytes -> Option<Message>, id: Bytes, buffer: Bytes, chunks: seq<Bytes>) {
    var outcome, text := Conversation(parse, id, buffer, chunks), Concat(chunks);
    if outcome.Oversized? then !Roomy(parse, buffer, text)
    else outcome == ReplyIn(parse, id, buffer + text) && Fits(parse, buffer, text)
  }

  lemma AnsweredAtOnce(parse: Bytes -> Option<Message>, id: Bytes, buffer: Bytes, chunks: seq<Bytes>)
    requires Pieced(chunks)
    requires var receipt := Read(buffer, chunks).receipt;
             !(receipt.Line? && IsEvent(parse(receipt.raw)))
    ensures Answered(parse, id, buffer, chunks)
  {
    hide Read, Concat, IndexOf;
    ReadFromStream(buffer, chunks);
    ConversationStep(parse, id, buffer, chunks);
  }

  lemma AnsweredAfterEvent(parse: Bytes -> Option<Message>, id: Bytes, buffer: Bytes, chunks: seq<Bytes>)
    requires Pieced(chunks)
    requires var reading := Read(buffer, chunks);
             && reading.receipt.Line? && IsEvent(parse(reading.receipt.raw))
             && Answered(parse, id, reading.buffer, reading.chunks)
    ensures Answered(parse, id, buffer, chunks)
  {
    hide Read, Concat, IndexOf;
    ReadFromStream(buffer, chunks);
    ConversationStep(parse, id, buffer, chunks);
    var reading := Read(buffer, chunks);
    var rest := Concat(reading.chunks);
    if LF !in buffer {
      if Conversation(parse, id, buffer, chunks).Oversized? {
        if Roomy(parse, [], reading.buffer + rest) {
          RoomMoves(parse, reading.buffer, rest);
        }
      } else {
        FitMoves(parse, reading.buffer, rest);
      }
    }
  }

  /** So it is under any delivery, from any buffer. */
  lemma {:induction false} AnsweredByBytes(parse: Bytes -> Option<Message>, id: Bytes, buffer: Bytes, chunks: seq<Bytes>)
    requires Pieced(chunks)
    ensures Answered(parse, id, buffer, chunks)
    decreases |buffer + Concat(chunks)|
  {
    hide Read, Concat, IndexOf, Answered;
    ReadSplits(buffer, chunks);
    ReadStaysPieced(buffer, chunks);
    var reading := Read(buffer, chunks);
    if reading.receipt.Line? && IsEvent(parse(reading.receipt.raw)) {
      AnsweredByBytes(parse, id, reading.buffer, reading.chunks);
      AnsweredAfterEvent(parse, id, buffer, chunks);
    } else {
      AnsweredAtOnce(parse, id, buffer, chunks);
    }
  }

  lemma BufferedLineReads(buffer: Bytes, chunks: seq<Bytes>)
    requires LF in buffer
    ensures Read(buffer, chunks) == Reading(Line(buffer[..IndexOf(buffer, LF)]), buffer[IndexOf(buffer, LF) + 1..], chunks)
  {
  }

  lemma NothingDelivers()
    ensures Delivers([], []) && Concat([]) == []
    ensures forall buffer :: LF !in buffer ==> Read(buffer, []).receipt.PeerClosed?
  {
  }

  /** A stream without room has a delivery that is refused: each earlier line arrives alone, the crowded one at its worst. */
  lemma {:induction false} CrowdedDelivery(parse: Bytes -> Option<Message>, id: Bytes, buffer: Bytes, text: Bytes)
    returns (chunks: seq<Bytes>)
    requires !Roomy(parse, buffer, text)
    ensures Delivers(chunks, text) && Conversation(parse, id, buffer, chunks).Oversized?
    decreases |buffer| + |text|
  {
    hide Pieces, Concat, IndexOf, Read;
    var whole := buffer + text;
    if LF in buffer {
      chunks := CrowdedDelivery(parse, id, buffer[IndexOf(buffer, LF) + 1..], text);
      BufferedLineReads(buffer, chunks);
    } else if LF !in whole {
      chunks := Pieces(text);
      PiecesDeliver(text);
      NothingDelivers();
      assert chunks != [] && chunks + [] == chunks;
      ReadOverflows(buffer, chunks, []);
    } else if WorstFill(whole) > MAX_LINE_BYTES {
      chunks := WorstDelivery(buffer, text);
    } else {
      var more := CrowdedDelivery(parse, id, [], whole[IndexOf(whole, LF) + 1..]);
      chunks := LineThenMore(buffer, text, more);
    }
    ConversationStep(parse, id, buffer, chunks);
  }

  /** A stream that fits has a delivery that is answered: every line arrives alone. */
  lemma {:induction false} FittingDelivery(parse: Bytes -> Option<Message>, id: Bytes, buffer: Bytes, text: Bytes)
    returns (chunks: seq<Bytes>)
    requires Fits(parse, buffer, text)
    ensures Delivers(chunks, text) && !Conversation(parse, id, buffer, chunks).Oversized?
    decreases |buffer| + |text|
  {
    hide Pieces, Concat, IndexOf, Read;
    var whole := buffer + text;
    NothingDelivers();
    if LF in buffer {
      var i := IndexOf(buffer, LF);
      if IsEvent(parse(buffer[..i])) {
        chunks := FittingDelivery(parse, id, buffer[i + 1..], text);
      } else {
        chunks := Pieces(text);
        PiecesDeliver(text);
      }
      BufferedLineReads(buffer, chunks);
    } else if text == [] {
      chunks := [];
    } else if LF !in whole {
      chunks := Pieces(text);
      PiecesDeliver(text);
      ReadFills(buffer, chunks, []);
      assert chunks + [] == chunks;
    } else {
      var i := IndexOf(whole, LF);
      var more := Pieces(whole[i + 1..]);
      PiecesDeliver(whole[i + 1..]);
      if IsEvent(parse(whole[..i])) {
        more := FittingDelivery(parse, id, [], whole[i + 1..]);
      }
      chunks := LineThenMore(buffer, text, more);
    }
    ConversationStep(parse, id, buffer, chunks);
  }

  /** Whatever is in the buffer: every delivery of what is left gives the reply of the bytes exactly when there is room. */
  lemma EveryDeliveryAnsweredIff(parse: Bytes -> Option<Message>, id: Bytes, buffer: Bytes, text: Bytes)
    ensures (forall chunks :: Delivers(chunks, text) ==>
                                Conversation(parse, id, buffer, chunks) == ReplyIn(parse, id, buffer + text)) <==>
            Roomy(parse, buffer, text)
  {
    NeverOversized(parse, id, buffer + text);
    if Roomy(parse, buffer, text) {
      forall chunks | Delivers(chunks, text)
        ensures Conversation(parse, id, buffer, chunks) == ReplyIn(parse, id, buffer + text)
      {
        AnsweredByBytes(parse, id, buffer, chunks);
      }
    } else {
      var chunks := CrowdedDelivery(parse, id, buffer, text);
    }
  }

  /** And some delivery does exactly when its lines fit. */
  lemma SomeDeliveryAnsweredIff(parse: Bytes -> Option<Message>, id: Bytes, buffer: Bytes, text: Bytes)
    ensures (exists chunks :: Delivers(chunks, text)
                              && Conversation(parse, id, buffer, chunks) == ReplyIn(parse, id, buffer + text)) <==>
            Fits(parse, buffer, text)
  {
    NeverOversized(parse, id, buffer + text);
    if Fits(parse, buffer, text) {
      var chunks := FittingDelivery(parse, id, buffer, text);
      AnsweredByBytes(parse, id, buffer, chunks);
    } else {
      forall chunks | Delivers(chunks, text)
        ensures Conversation(parse, id, buffer, chunks) != ReplyIn(parse, id, buffer + text)
      {
        AnsweredByBytes(parse, id, buffer, chunks);
      }
    }
  }

  /** So the conversation depends on its chunks, two deliveries of one stream ending differently, exactly when its lines
      fit but have no room. */
  lemma ConversationsDifferIff(parse: Bytes -> Option<Message>, id: Bytes, buffer: Bytes, text: Bytes)
    ensures (exists a, b :: && Delivers(a, text) && Delivers(b, text)
                            && Conversation(parse, id, buffer, a) != Conversation(parse, id, buffer, b)) <==>
            Fits(parse, buffer, text) && !Roomy(parse, buffer, text)
  {
    if Fits(parse, buffer, text) && !Roomy(parse, buffer, text) {
      var a := FittingDelivery(parse, id, buffer, text);
      var b := CrowdedDelivery(parse, id, buffer, text);
    }
    forall a, b | Delivers(a, text) && Delivers(b, text)
                  && Conversation(parse, id, buffer, a) != Conversation(parse, id, buffer, b)
      ensures Fits(parse, buffer, text) && !Roomy(parse, buffer, text)
    {
      AnsweredByBytes(parse, id, buffer, a);
      AnsweredByBytes(parse, id, buffer, b);
    }
  }

  lemma {:induction false} NeverOversized(parse: Bytes -> Option<Message>, id: Bytes, text: Bytes)
    ensures !ReplyIn(parse, id, text).Oversized?
    decreases |text|
  {
    if LF in text && IsEvent(parse(text[..IndexOf(text, LF)])) {
      NeverOversized(parse, id, text[IndexOf(text, LF) + 1..]);
    }
  }

  ghost function Framed(lines: seq<Bytes>): Bytes {
    if lines == [] then [] else Framed(lines[..|lines| - 1]) + lines[|lines| - 1] + [LF]
  }

  lemma FramedAppend(lines: seq<Bytes>, raw: Bytes, text: Bytes, rest: Bytes)
    requires text == raw + [LF] + rest
    ensures Framed(lines) + text == Framed(lines + [raw]) + rest
  {
    assert (lines + [raw])[..|lines|] == lines;
  }

  /** Where the stream has room the reply is a function of the bytes alone, however they arrive.  The bound is reported
      only when the stream has none and the buffer is over it.  Transcript and what is left unread are what was there,
      but for a malformed line, which is consumed and not recorded. */
  method ReceiveReply(connection: QmpConnection, parse: Bytes -> Option<Message>, id: Bytes)
    returns (outcome: Outcome, transcript: seq<Bytes>)
    requires Pieced(connection.chunks)
    modifies connection
    ensures outcome == Conversation(parse, id, old(connection.buffer), old(connection.chunks))
    ensures outcome.Oversized? ==>
              !Roomy(parse, old(connection.buffer), old(Concat(connection.chunks))) && |connection.buffer| > 1048576
    ensures !outcome.Oversized? ==>
              && outcome == ReplyIn(parse, id, old(connection.Unread()))
              && Fits(parse, old(connection.buffer), old(Concat(connection.chunks)))
    ensures outcome.Chosen? ==> transcript != [] && transcript[|transcript| - 1] == outcome.raw
    ensures !outcome.Rejected? ==> old(connection.Unread()) == Framed(transcript) + connection.Unread()
  {
    transcript := [];
    AnsweredByBytes(parse, id, connection.buffer, connection.chunks);
    ghost var all := connection.Unread();
    assert Framed([]) == [];
    hide *;
    while true
      invariant all == Framed(transcript) + connection.Unread()
      invariant Conversation(parse, id, connection.buffer, connection.chunks)
             == Conversation(parse, id, old(connection.buffer), old(connection.chunks))
      decreases |connection.Unread()|
    {
      ghost var before, buffer, chunks := connection.Unread(), connection.buffer, connection.chunks;
      var received := connection.Receive();
      ConversationStep(parse, id, buffer, chunks);
      if received.TooLong? {
        return Oversized, transcript;
      }
      if received.PeerClosed? {
        return Ended, transcript;
      }
      FramedAppend(transcript, received.raw, before, connection.Unread());
      var message := parse(received.raw);
      if message.None? {
        return Rejected, transcript;
      }
      transcript := transcript + [received.raw];
      if !message.value.isEvent {
        if message.value.id != Some(id) || message.value.hasReturn == message.value.hasError {
          return Rejected, transcript;
        }
        return Chosen(received.raw), transcript;
      }
    }
  }
}
