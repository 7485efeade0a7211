/**
 The bounded JSON Lines decoder of one supervisor/worker stream
 (src/devloop/portable_protocol.py).

 Feeding is specified by `Decoded`, which looks at the whole byte string at once: split at
 newlines, strip one trailing carriage return, decode each line with the next sequence number.
 JSON text itself is a pair of functions; the checks of the frame fields are spelled out.
 */
module StreamDecoder {
  import opened Wrappers

  type byte = b: int | 0 <= b < 256

  const LF: byte := 10
  const CR: byte := 13
  const CLOSE_BRACE: byte := 125
  const PROTOCOL_VERSION := 1
  const MAX_FRAME_BYTES := 65_536

  datatype Frame<+P> = Frame(version: int, sessionId: string, sequence: int, kind: string, payload: P)

  /** JSON in both directions, and the payload tables; all that the framing needs to know of them. */
  datatype Codec<!P> = Codec(
    loads: seq<byte> -> Option<Frame<P>>,
    dumps: Frame<P> -> seq<byte>,
    validPayload: (string, P) -> bool)

  /** What a decoder is constructed with and never changes. */
  datatype Peer<!P> = Peer(codec: Codec<P>, sessionId: string, kinds: set<string>)

  // ---------------------------------------------------------------------------------------------
  // Lines

  predicate NewlineFree(b: seq<byte>) {
    forall k | 0 <= k < |b| :: b[k] != LF
  }

  function FindFrom(b: seq<byte>, start: nat): (i: int)
    requires start <= |b|
    ensures i == -1 || start <= i < |b|
    ensures i == -1 ==> forall k | start <= k < |b| :: b[k] != LF
    ensures i != -1 ==> b[i] == LF && forall k | start <= k < i :: b[k] != LF
    decreases |b| - start
  {
    if start == |b| then -1
    else if b[start] == LF then start
    else FindFrom(b, start + 1)
  }

  function FindNewline(b: seq<byte>): (i: int)
    ensures -1 <= i < |b|
    ensures i == -1 <==> NewlineFree(b)
    ensures 0 <= i ==> b[i] == LF && NewlineFree(b[..i])
  {
    FindFrom(b, 0)
  }

  function StripCr(b: seq<byte>): seq<byte> {
    if b != [] && b[|b| - 1] == CR then b[..|b| - 1] else b
  }

  /** The newline-terminated lines of a byte string, without their newlines. */
  function Lines(b: seq<byte>): seq<seq<byte>>
    decreases |b|
  {
    var i := FindNewline(b);
    if i == -1 then [] else [b[..i]] + Lines(b[i + 1..])
  }

  /** What follows the last newline. */
  function Residue(b: seq<byte>): (r: seq<byte>)
    ensures NewlineFree(r)
    decreases |b|
  {
    var i := FindNewline(b);
    if i == -1 then b else Residue(b[i + 1..])
  }

  predicate Oversized(buffer: seq<byte>) {
    && |buffer| > MAX_FRAME_BYTES
    && !(|buffer| == MAX_FRAME_BYTES + 1 && buffer[|buffer| - 1] == CR)
  }

  // ---------------------------------------------------------------------------------------------
  // Frames

  /** One line, without newline and carriage return, read as the frame number `expected`. */
  function DecodeLine<P>(peer: Peer<P>, line: seq<byte>, expected: nat): Option<Frame<P>> {
    match peer.codec.loads(line)
    case None => None
    case Some(frame) =>
      if frame.version == PROTOCOL_VERSION && frame.sessionId == peer.sessionId
         && frame.sequence >= 1 && frame.sequence == expected
         && frame.kind in peer.kinds && peer.codec.validPayload(frame.kind, frame.payload)
      then Some(frame)
      else None
  }

  function DecodeLines<P>(peer: Peer<P>, lines: seq<seq<byte>>, expected: nat): (r: Option<seq<Frame<P>>>)
    ensures r.Some? ==> |r.value| == |lines|
  {
    if lines == [] then Some([])
    else
      var line := StripCr(lines[0]);
      if |line| > MAX_FRAME_BYTES then None
      else
        match DecodeLine(peer, line, expected)
        case None => None
        case Some(frame) =>
          match DecodeLines(peer, lines[1..], expected + 1)
          case None => None
          case Some(frames) => Some([frame] + frames)
  }

  datatype Delivery<+P> = Rejected | Delivered(frames: seq<Frame<P>>, buffer: seq<byte>, expected: nat)

  /** What a stream holding `b` amounts to when its next frame is number `expected`. */
  function Decoded<P>(peer: Peer<P>, b: seq<byte>, expected: nat): Delivery<P> {
    match DecodeLines(peer, Lines(b), expected)
    case None => Rejected
    case Some(frames) =>
      if Oversized(Residue(b)) then Rejected
      else Delivered(frames, Residue(b), expected + |frames|)
  }

  // ---------------------------------------------------------------------------------------------
  // What is delivered, and what is rejected, byte by byte and field by field

  /** `s..e` is a line of the stream, ended by the newline at `e`. */
  predicate IsLine(b: seq<byte>, s: nat, e: nat) {
    s <= e < |b| && (s == 0 || b[s - 1] == 10) && b[e] == 10 && forall k | s <= k < e :: b[k] != 10
  }

  /** How many lines have ended before position `s`. */
  function LinesBefore(b: seq<byte>, s: nat): nat
    requires s <= |b|
  {
    if s == 0 then 0 else LinesBefore(b, s - 1) + if b[s - 1] == 10 then 1 else 0
  }

  /** The text of a line: one carriage return at its end does not belong to it. */
  function LineText(b: seq<byte>, s: nat, e: nat): seq<byte>
    requires s <= e <= |b|
  {
    if s < e && b[e - 1] == 13 then b[s..e - 1] else b[s..e]
  }

  /** A frame that this peer may send as its number `sequence`. */
  predicate Admissible<P>(peer: Peer<P>, frame: Frame<P>, sequence: nat) {
    && frame.sequence == sequence && 1 <= frame.sequence && frame.version == 1
    && frame.sessionId == peer.sessionId
    && frame.kind in peer.kinds && peer.codec.validPayload(frame.kind, frame.payload)
  }

  /** The line is short enough and reads as an admissible frame of this number. */
  predicate LineReads<P>(peer: Peer<P>, b: seq<byte>, s: nat, e: nat, sequence: nat)
    requires s <= e <= |b|
  {
    var frame := peer.codec.loads(LineText(b, s, e));
    |LineText(b, s, e)| <= 65536 && frame.Some? && Admissible(peer, frame.value, sequence)
  }

  /** The bytes after the last newline. */
  predicate IsRest(b: seq<byte>, rest: seq<byte>) {
    && |rest| <= |b| && b[|b| - |rest|..] == rest && (forall k | 0 <= k < |rest| :: rest[k] != 10)
    && (|rest| < |b| ==> b[|b| - |rest| - 1] == 10)
  }

  /** Too long to become a line, whatever follows: a carriage return at the end may still go. */
  predicate TooLong(rest: seq<byte>) {
    |rest| > 65537 || (|rest| == 65537 && rest[65536] != 13)
  }

  /** Every line of the stream is delivered as the frame of its number, and the rest may become a line. */
  ghost predicate Delivers<P>(
    peer: Peer<P>, b: seq<byte>, expected: nat, frames: seq<Frame<P>>, rest: seq<byte>)
  {
    && (forall s: nat, e: nat | IsLine(b, s, e) ::
          LinesBefore(b, s) < |frames|
          && LineReads(peer, b, s, e, expected + LinesBefore(b, s))
          && peer.codec.loads(LineText(b, s, e)) == Some(frames[LinesBefore(b, s)]))
    && |frames| == LinesBefore(b, |b|)
    && IsRest(b, rest) && !TooLong(rest)
  }

  /** Some line of the stream is too long or not admissible at its place, or what follows the last one is too long. */
  ghost predicate MustReject<P>(peer: Peer<P>, b: seq<byte>, expected: nat) {
    || (exists s: nat, e: nat :: IsLine(b, s, e) && !LineReads(peer, b, s, e, expected + LinesBefore(b, s)))
    || (exists rest: seq<byte> :: IsRest(b, rest) && TooLong(rest))
  }

  function Then<P>(first: Delivery<P>, second: Delivery<P>): Delivery<P> {
    if first.Rejected? || second.Rejected? then Rejected
    else second.(frames := first.frames + second.frames)
  }

  function Concat(chunks: seq<seq<byte>>): seq<byte> {
    if chunks == [] then [] else chunks[0] + Concat(chunks[1..])
  }

  // ---------------------------------------------------------------------------------------------
  // The decoder

  class PortableProtocolStreamDecoder<P> {
    const peer: Peer<P>
    var buffer: seq<byte>
    var expectedSequence: nat

    /** What every successful call leaves behind. */
    ghost predicate Valid()
      reads this
    {
      NewlineFree(buffer) && !Oversized(buffer) && 1 <= expectedSequence
    }

    constructor (peer: Peer<P>, expectedSequence: nat)
      requires 1 <= expectedSequence
      ensures Valid() && this.peer == peer && buffer == [] && this.expectedSequence == expectedSequence
    {
      this.peer := peer;
      this.buffer := [];
      this.expectedSequence := expectedSequence;
    }

    method Feed(content: seq<byte>) returns (r: Option<seq<Frame<P>>>)
      requires Valid()
      modifies this
      // line by line and field by field
      ensures r.None? <==> MustReject(peer, old(buffer) + content, old(expectedSequence))
      ensures r.Some? ==> Delivers(peer, old(buffer) + content, old(expectedSequence), r.value, buffer)
      ensures r.Some? ==> expectedSequence == old(expectedSequence) + |r.value|
      ensures r.Some? ==> forall i | 0 <= i < |r.value| :: Admissible(peer, r.value[i], old(expectedSequence) + i)
      // as the whole buffer decodes
      ensures r.None? <==> Decoded(peer, old(buffer) + content, old(expectedSequence)).Rejected?
      ensures r.Some? ==> Valid() && |buffer| <= MAX_FRAME_BYTES + 1
      ensures r.Some? ==>
        Decoded(peer, old(buffer) + content, old(expectedSequence)) == Delivered(r.value, buffer, expectedSequence)
    {
      hide Decoded, DecodeLines, DecodeLine, Lines, Residue, FindFrom, ToGo, Oversized, NewlineFree;
      hide MustReject, Delivers, Admissible;
      WhatDecodingMeans(peer, buffer + content, expectedSequence);
      buffer := buffer + content;
      ghost var total := Decoded(peer, buffer, expectedSequence);
      ToGoStarts(peer, buffer, expectedSequence);
      if FindNewline(buffer) == -1 && Oversized(buffer) {
        ToGoEnds(peer, total, [], buffer, expectedSequence);
        return None;
      }
      var frames: seq<Frame<P>> := [];
      while true
        invariant 1 <= expectedSequence
        invariant ToGo(peer, total, frames, buffer, expectedSequence)
        decreases |buffer|
      {
        var newline := FindNewline(buffer);
        if newline < 0 {
          break;
        }
        var encoded := buffer[..newline];
        ToGoStep(peer, total, frames, buffer, expectedSequence);
        buffer := buffer[newline + 1..];
        if encoded != [] && encoded[|encoded| - 1] == CR {
          encoded := encoded[..|encoded| - 1];
        }
        if |encoded| > MAX_FRAME_BYTES {
          return None;
        }
        var decoded := DecodeLine(peer, encoded, expectedSequence);
        if decoded.None? {
          return None;
        }
        expectedSequence := expectedSequence + 1;
        frames := frames + [decoded.value];
      }
      ToGoEnds(peer, total, frames, buffer, expectedSequence);
      if Oversized(buffer) {
        return None;
      }
      return Some(frames);
    }

    /** The end of the stream is accepted exactly between two frames. */
    method Finish() returns (ok: bool)
      ensures ok <==> buffer == []
    {
      ok := |buffer| == 0;
    }

    /** The reader's loop: chunks as the pipe happens to deliver them. */
    method FeedAll(chunks: seq<seq<byte>>) returns (r: Option<seq<Frame<P>>>)
      requires Valid()
      modifies this
      // line by line and field by field, however the stream was cut
      ensures r.None? <==> MustReject(peer, old(buffer) + Concat(chunks), old(expectedSequence))
      ensures r.Some? ==> Delivers(peer, old(buffer) + Concat(chunks), old(expectedSequence), r.value, buffer)
      ensures r.Some? ==> expectedSequence == old(expectedSequence) + |r.value|
      ensures r.Some? ==> forall i | 0 <= i < |r.value| :: Admissible(peer, r.value[i], old(expectedSequence) + i)
      // as their concatenation decodes
      ensures r.None? <==> Decoded(peer, old(buffer) + Concat(chunks), old(expectedSequence)).Rejected?
      ensures r.Some? ==> Valid()
      ensures r.Some? ==>
        Decoded(peer, old(buffer) + Concat(chunks), old(expectedSequence))
        == Delivered(r.value, buffer, expectedSequence)
    {
      hide Decoded, MustReject, Delivers, Admissible;
      WhatDecodingMeans(peer, buffer + Concat(chunks), expectedSequence);
      ghost var start, first := buffer, expectedSequence;
      var frames: seq<Frame<P>> := [];
      DecodedQuiet(peer, buffer, expectedSequence);
      assert Concat(chunks[..0]) == [];
      assert start + [] == start;
      for i := 0 to |chunks|
        invariant Valid()
        invariant Decoded(peer, start + Concat(chunks[..i]), first) == Delivered(frames, buffer, expectedSequence)
      {
        ghost var fed := start + Concat(chunks[..i]);
        DecodedSplit(peer, fed, chunks[i], first);
        ConcatSnoc(chunks, i);
        assert fed + chunks[i] == start + Concat(chunks[..i + 1]);
        var next := Feed(chunks[i]);
        if next.None? {
          ConcatSplit(chunks, i + 1);
          assert fed + chunks[i] + Concat(chunks[i + 1..]) == start + Concat(chunks);
          DecodedSplit(peer, fed + chunks[i], Concat(chunks[i + 1..]), first);
          return None;
        }
        frames := frames + next.value;
      }
      assert chunks[..|chunks|] == chunks;
      return Some(frames);
    }
  }

  // ---------------------------------------------------------------------------------------------
  // Chunking

  lemma DecodedQuiet<P>(peer: Peer<P>, b: seq<byte>, expected: nat)
    requires NewlineFree(b)
    ensures Lines(b) == [] && Residue(b) == b
    ensures !Oversized(b) ==> Decoded(peer, b, expected) == Delivered([], b, expected)
    ensures Oversized(b) ==> Decoded(peer, b, expected).Rejected?
  {
  }

  lemma ThenUnit<P>(d: Delivery<P>, expected: nat)
    ensures Then(Delivered([], [], expected), d) == d
  {
    if d.Delivered? {
      assert [] + d.frames == d.frames;
    }
  }

  lemma FirstLine(b: seq<byte>)
    requires !NewlineFree(b)
    ensures var i := FindNewline(b);
      0 <= i < |b| && Lines(b) == [b[..i]] + Lines(b[i + 1..]) && Residue(b) == Residue(b[i + 1..])
  {
  }

  lemma FirstFrame<P>(peer: Peer<P>, line: seq<byte>, rest: seq<seq<byte>>, expected: nat)
    ensures var frame := DecodeLine(peer, StripCr(line), expected);
      var frames := DecodeLines(peer, rest, expected + 1);
      DecodeLines(peer, [line] + rest, expected)
      == if |StripCr(line)| > MAX_FRAME_BYTES || frame.None? || frames.None? then None
         else Some([frame.value] + frames.value)
  {
    hide DecodeLine, StripCr;
    assert ([line] + rest)[0] == line && ([line] + rest)[1..] == rest;
  }

  lemma ThenSnoc<P>(before: seq<Frame<P>>, frame: Frame<P>, after: Delivery<P>, expected: nat)
    ensures after.Delivered? ==>
      Then(Delivered(before, [], expected), after.(frames := [frame] + after.frames))
      == Then(Delivered(before + [frame], [], expected + 1), after)
  {
    if after.Delivered? {
      assert before + ([frame] + after.frames) == before + [frame] + after.frames;
    }
  }

  /** The first line of a stream is decoded before, and independently of, the rest. */
  lemma DecodedStep<P>(peer: Peer<P>, b: seq<byte>, expected: nat, before: seq<Frame<P>>)
    requires !NewlineFree(b)
    ensures var i := FindNewline(b);
      var line := StripCr(b[..i]);
      var frame := DecodeLine(peer, line, expected);
      Then(Delivered(before, [], expected), Decoded(peer, b, expected))
      == if |line| > MAX_FRAME_BYTES || frame.None? then Rejected
         else Then(Delivered(before + [frame.value], [], expected + 1), Decoded(peer, b[i + 1..], expected + 1))
  {
    hide Lines, Residue, DecodeLines, DecodeLine, StripCr, NewlineFree, FindNewline, Oversized;
    var i := FindNewline(b);
    FirstLine(b);
    FirstFrame(peer, b[..i], Lines(b[i + 1..]), expected);
    var frame := DecodeLine(peer, StripCr(b[..i]), expected);
    if frame.Some? {
      ThenSnoc(before, frame.value, Decoded(peer, b[i + 1..], expected + 1), expected);
    }
  }

  /** The frames decoded so far, and what decoding the buffer gives, together make up the whole. */
  ghost predicate ToGo<P>(
    peer: Peer<P>, total: Delivery<P>, frames: seq<Frame<P>>, buffer: seq<byte>, expected: nat)
  {
    total == Then(Delivered(frames, [], expected), Decoded(peer, buffer, expected))
  }

  lemma ToGoStarts<P>(peer: Peer<P>, buffer: seq<byte>, expected: nat)
    ensures ToGo(peer, Decoded(peer, buffer, expected), [], buffer, expected)
  {
    hide Decoded;
    ThenUnit(Decoded(peer, buffer, expected), expected);
  }

  lemma ToGoStep<P>(peer: Peer<P>, total: Delivery<P>, frames: seq<Frame<P>>, buffer: seq<byte>, expected: nat)
    requires ToGo(peer, total, frames, buffer, expected) && FindNewline(buffer) != -1
    ensures var i := FindNewline(buffer);
      var line := StripCr(buffer[..i]);
      var frame := DecodeLine(peer, line, expected);
      if |line| > MAX_FRAME_BYTES || frame.None? then total.Rejected?
      else ToGo(peer, total, frames + [frame.value], buffer[i + 1..], expected + 1)
  {
    hide Decoded, Then, DecodeLine, StripCr;
    DecodedStep(peer, buffer, expected, frames);
  }

  lemma ToGoEnds<P>(peer: Peer<P>, total: Delivery<P>, frames: seq<Frame<P>>, buffer: seq<byte>, expected: nat)
    requires ToGo(peer, total, frames, buffer, expected) && FindNewline(buffer) == -1
    ensures NewlineFree(buffer) && (Oversized(buffer) ==> total.Rejected?)
    ensures !Oversized(buffer) ==> total == Delivered(frames, buffer, expected) && |buffer| <= MAX_FRAME_BYTES + 1
  {
    hide Decoded;
    DecodedQuiet(peer, buffer, expected);
    assert frames + [] == frames;
  }

  // ---------------------------------------------------------------------------------------------
  // Decoding is what it should be

  lemma {:induction false} NoLinesBefore(b: seq<byte>, s: nat)
    requires s <= |b| && forall k | 0 <= k < s :: b[k] != 10
    ensures LinesBefore(b, s) == 0
  {
    if s > 0 {
      NoLinesBefore(b, s - 1);
    }
  }

  lemma RestHasNoNewline(b: seq<byte>, rest: seq<byte>)
    requires IsRest(b, rest)
    ensures forall k | |b| - |rest| <= k < |b| :: b[k] != 10
  {
    var slice := b[|b| - |rest|..];
    assert forall k | |b| - |rest| <= k < |b| :: b[k] == slice[k - (|b| - |rest|)];
  }

  lemma RestIsUnique(b: seq<byte>, rest: seq<byte>, other: seq<byte>)
    requires IsRest(b, rest) && IsRest(b, other)
    ensures rest == other
  {
    RestHasNoNewline(b, rest);
    RestHasNoNewline(b, other);
  }

  lemma QuietMeans<P>(peer: Peer<P>, b: seq<byte>, expected: nat)
    requires NewlineFree(b)
    ensures if TooLong(b) then MustReject(peer, b, expected) && Decoded(peer, b, expected).Rejected?
            else Decoded(peer, b, expected) == Delivered([], b, expected) && Delivers(peer, b, expected, [], b)
  {
    DecodedQuiet(peer, b, expected);
    NoLinesBefore(b, |b|);
    assert b[|b| - |b|..] == b;
    assert IsRest(b, b);
    hide Decoded;
  }

  /** The stream behind its first line. */
  predicate Behind(b: seq<byte>, i: nat, u: seq<byte>) {
    i < |b| && b[i] == 10 && (forall k | 0 <= k < i :: b[k] != 10) && u == b[i + 1..]
  }

  lemma {:induction false} LinesBeforeShift(b: seq<byte>, i: nat, u: seq<byte>, s: nat)
    requires Behind(b, i, u) && s <= |u|
    ensures LinesBefore(b, i + 1 + s) == 1 + LinesBefore(u, s)
  {
    if s == 0 {
      NoLinesBefore(b, i);
    } else {
      LinesBeforeShift(b, i, u, s - 1);
      assert u[s - 1] == b[i + 1 + s - 1];
    }
  }

  /** The lines of a stream are its first one and those behind it. */
  lemma LinesShift(b: seq<byte>, i: nat, u: seq<byte>, s: nat, e: nat)
    requires Behind(b, i, u)
    ensures IsLine(b, s, e) <==> (s == 0 && e == i) || (s > i && e > i && IsLine(u, s - i - 1, e - i - 1))
    ensures s > i && IsLine(b, s, e) ==> LineText(b, s, e) == LineText(u, s - i - 1, e - i - 1)
  {
    if s > i && e > i {
      LineShifts(b, i, u, s - i - 1, e - i - 1);
    }
  }

  lemma LineShifts(b: seq<byte>, i: nat, u: seq<byte>, s: nat, e: nat)
    requires Behind(b, i, u)
    ensures IsLine(b, i + 1 + s, i + 1 + e) <==> IsLine(u, s, e)
    ensures IsLine(u, s, e) ==> LineText(b, i + 1 + s, i + 1 + e) == LineText(u, s, e)
  {
    forall k | 0 <= k < |u| ensures u[k] == b[i + 1 + k] {
    }
    if s <= e < |u| {
      forall k | i + 1 + s <= k < i + 1 + e ensures b[k] == u[k - i - 1] {
      }
      assert b[i + 1 + s..i + 1 + e] == u[s..e];
      assert s < e ==> b[i + 1 + s..i + 1 + e - 1] == u[s..e - 1];
    }
  }

  lemma RestShifts(b: seq<byte>, i: nat, u: seq<byte>, rest: seq<byte>)
    requires Behind(b, i, u)
    ensures IsRest(b, rest) <==> IsRest(u, rest)
  {
    if |rest| <= |u| {
      assert b[|b| - |rest|..] == u[|u| - |rest|..];
      assert |rest| < |u| ==> b[|b| - |rest| - 1] == u[|u| - |rest| - 1];
      assert |rest| == |u| ==> b[|b| - |rest| - 1] == 10;
    } else {
      if IsRest(b, rest) {
        RestHasNoNewline(b, rest);
      }
    }
  }

  lemma StrippedIs(b: seq<byte>, e: nat)
    requires e <= |b|
    ensures LineText(b, 0, e) == StripCr(b[..e])
  {
    var line := b[..e];
    if 0 < e && b[e - 1] == 13 {
      assert line[e - 1] == b[e - 1] && line[..e - 1] == b[0..e - 1];
    }
  }

  lemma DecodesIff<P>(peer: Peer<P>, b: seq<byte>, e: nat, expected: nat)
    requires e <= |b|
    ensures var line := StripCr(b[..e]);
      var frame := DecodeLine(peer, line, expected);
      && (|line| <= MAX_FRAME_BYTES && frame.Some? <==> LineReads(peer, b, 0, e, expected))
      && (frame.Some? ==> peer.codec.loads(LineText(b, 0, e)) == frame)
  {
    hide StripCr, LineText;
    StrippedIs(b, e);
  }

  lemma FirstLineDecides<P>(peer: Peer<P>, b: seq<byte>, expected: nat)
    requires !NewlineFree(b)
    ensures var i := FindNewline(b);
      var frame := DecodeLine(peer, StripCr(b[..i]), expected);
      Behind(b, i, b[i + 1..]) && IsLine(b, 0, i) && LinesBefore(b, 0) == 0
      && Decoded(peer, b, expected) ==
         if !LineReads(peer, b, 0, i, expected) then Rejected
         else
           match Decoded(peer, b[i + 1..], expected + 1)
           case Rejected => Rejected
           case Delivered(frames, rest, next) =>
             Delivered([peer.codec.loads(LineText(b, 0, i)).value] + frames, rest, next)
  {
    hide Decoded, DecodeLine, StripCr, LineReads, LineText;
    var i := FindNewline(b);
    DecodedStep(peer, b, expected, []);
    ThenUnit(Decoded(peer, b, expected), expected);
    DecodesIff(peer, b, i, expected);
    FirstLine(b);
    assert forall k | 0 <= k < i :: b[k] == b[..i][k];
    var frame := DecodeLine(peer, StripCr(b[..i]), expected);
    if frame.Some? {
      assert [] + [frame.value] == [frame.value];
    }
  }

  /** A stream is rejected if and only if it must be, and otherwise delivered line by line. */
  lemma {:induction false} DecodedMeans<P>(peer: Peer<P>, b: seq<byte>, expected: nat)
    ensures Decoded(peer, b, expected).Rejected? ==> MustReject(peer, b, expected)
    ensures Decoded(peer, b, expected).Delivered? ==>
      var d := Decoded(peer, b, expected);
      Delivers(peer, b, expected, d.frames, d.buffer) && d.expected == expected + |d.frames|
    decreases |b|
  {
    hide Decoded, LineReads, LineText, IsLine, IsRest, TooLong, NewlineFree, MustReject, Delivers, DecodeLine;
    if NewlineFree(b) {
      QuietMeans(peer, b, expected);
    } else {
      var i := FindNewline(b);
      var u := b[i + 1..];
      FirstLineDecides(peer, b, expected);
      DecodedMeans(peer, u, expected + 1);
      if !LineReads(peer, b, 0, i, expected) {
        FirstLineRejects(peer, b, expected, i);
      } else if Decoded(peer, u, expected + 1).Rejected? {
        LaterLineRejects(peer, b, expected, i, u);
      } else {
        var d := Decoded(peer, u, expected + 1);
        FirstLineDelivers(peer, b, expected, i, u, d.frames, d.buffer);
      }
    }
  }

  lemma FirstLineRejects<P>(peer: Peer<P>, b: seq<byte>, expected: nat, i: nat)
    requires IsLine(b, 0, i) && LinesBefore(b, 0) == 0 && !LineReads(peer, b, 0, i, expected)
    ensures MustReject(peer, b, expected)
  {
    hide LineReads, IsLine;
    assert expected + LinesBefore(b, 0) == expected;
  }

  lemma LaterLineRejects<P>(peer: Peer<P>, b: seq<byte>, expected: nat, i: nat, u: seq<byte>)
    requires Behind(b, i, u) && MustReject(peer, u, expected + 1)
    ensures MustReject(peer, b, expected)
  {
    hide IsRest, TooLong, Admissible;
    if rest: seq<byte> :| IsRest(u, rest) && TooLong(rest) {
      RestShifts(b, i, u, rest);
    } else {
      var s: nat, e: nat :| IsLine(u, s, e) && !LineReads(peer, u, s, e, expected + 1 + LinesBefore(u, s));
      LineShifts(b, i, u, s, e);
      LinesBeforeShift(b, i, u, s);
      assert IsLine(b, i + 1 + s, i + 1 + e);
      assert !LineReads(peer, b, i + 1 + s, i + 1 + e, expected + LinesBefore(b, i + 1 + s));
    }
  }

  lemma FirstLineDelivers<P>(
    peer: Peer<P>, b: seq<byte>, expected: nat, i: nat, u: seq<byte>, frames: seq<Frame<P>>, rest: seq<byte>)
    requires Behind(b, i, u) && LineReads(peer, b, 0, i, expected)
    requires Delivers(peer, u, expected + 1, frames, rest)
    ensures Delivers(peer, b, expected, [peer.codec.loads(LineText(b, 0, i)).value] + frames, rest)
  {
    hide IsRest, TooLong, Admissible;
    var all := [peer.codec.loads(LineText(b, 0, i)).value] + frames;
    RestShifts(b, i, u, rest);
    LinesBeforeShift(b, i, u, |u|);
    forall s: nat, e: nat | IsLine(b, s, e)
      ensures LinesBefore(b, s) < |all| && LineReads(peer, b, s, e, expected + LinesBefore(b, s))
      ensures peer.codec.loads(LineText(b, s, e)) == Some(all[LinesBefore(b, s)])
    {
      LinesShift(b, i, u, s, e);
      if s > i {
        LinesBeforeShift(b, i, u, s - i - 1);
        assert IsLine(u, s - i - 1, e - i - 1);
        assert LineReads(peer, u, s - i - 1, e - i - 1, expected + 1 + LinesBefore(u, s - i - 1));
      }
    }
  }

  /** The frames delivered are admissible at their places. */
  lemma {:induction false} DecodedAreAdmissible<P>(peer: Peer<P>, lines: seq<seq<byte>>, expected: nat)
    ensures var frames := DecodeLines(peer, lines, expected);
      frames.Some? ==> forall i | 0 <= i < |frames.value| :: Admissible(peer, frames.value[i], expected + i)
  {
    hide DecodeLine, Admissible;
    if lines != [] {
      DecodedAreAdmissible(peer, lines[1..], expected + 1);
      DecodedIsAdmissible(peer, StripCr(lines[0]), expected);
      assert [lines[0]] + lines[1..] == lines;
      FirstFrame(peer, lines[0], lines[1..], expected);
      var frames, rest := DecodeLines(peer, lines, expected), DecodeLines(peer, lines[1..], expected + 1);
      hide DecodeLines;
      if frames.Some? {
        forall i | 0 <= i < |frames.value| ensures Admissible(peer, frames.value[i], expected + i) {
          assert i > 0 ==> frames.value[i] == rest.value[i - 1] && expected + i == expected + 1 + (i - 1);
        }
      }
    }
  }

  lemma DecodedIsAdmissible<P>(peer: Peer<P>, line: seq<byte>, expected: nat)
    ensures var frame := DecodeLine(peer, line, expected); frame.Some? ==> Admissible(peer, frame.value, expected)
  {
  }

  /** Both halves together. */
  lemma WhatDecodingMeans<P>(peer: Peer<P>, b: seq<byte>, expected: nat)
    ensures var d := Decoded(peer, b, expected);
      && (d.Rejected? <==> MustReject(peer, b, expected))
      && (d.Delivered? ==>
            && Delivers(peer, b, expected, d.frames, d.buffer) && d.expected == expected + |d.frames|
            && forall i | 0 <= i < |d.frames| :: Admissible(peer, d.frames[i], expected + i))
  {
    hide DecodeLines, Lines, Residue, MustReject, Delivers, Admissible;
    DecodedMeans(peer, b, expected);
    DecodedAreAdmissible(peer, Lines(b), expected);
    var d := Decoded(peer, b, expected);
    if d.Delivered? {
      NotBoth(peer, b, expected, d.frames, d.buffer);
    }
  }

  /** What must be rejected cannot be delivered. */
  lemma NotBoth<P>(peer: Peer<P>, b: seq<byte>, expected: nat, frames: seq<Frame<P>>, rest: seq<byte>)
    requires Delivers(peer, b, expected, frames, rest)
    ensures !MustReject(peer, b, expected)
  {
    hide LineReads, LineText, IsLine, IsRest, TooLong;
    forall other: seq<byte> | IsRest(b, other) ensures !TooLong(other) {
      RestIsUnique(b, rest, other);
    }
  }

  lemma FindNewlineAppend(a: seq<byte>, b: seq<byte>)
    ensures !NewlineFree(a) ==> FindNewline(a + b) == FindNewline(a)
    ensures NewlineFree(a) && NewlineFree(b) ==> FindNewline(a + b) == -1
    ensures NewlineFree(a) && !NewlineFree(b) ==> FindNewline(a + b) == |a| + FindNewline(b)
  {
    var i, j := FindNewline(a), FindNewline(b);
    if i != -1 {
      assert (a + b)[i] == LF;
    } else if j != -1 {
      assert (a + b)[|a| + j] == LF;
    }
  }

  /** Splitting is compositional: only the unterminated tail of `a` matters to what follows. */
  lemma {:induction false} LinesAppend(a: seq<byte>, b: seq<byte>)
    ensures Lines(a + b) == Lines(a) + Lines(Residue(a) + b)
    ensures Residue(a + b) == Residue(Residue(a) + b)
    decreases |a|
  {
    hide Lines, Residue, FindNewline;
    if NewlineFree(a) {
      NoLines(a);
      assert [] + Lines(a + b) == Lines(a + b);
    } else {
      FirstLine(a);
      FirstLineOfMore(a, b);
      LinesAppend(a[FindNewline(a) + 1..], b);
    }
  }

  lemma NoLines(b: seq<byte>)
    requires NewlineFree(b)
    ensures Lines(b) == [] && Residue(b) == b
  {
  }

  lemma FirstLineOfMore(a: seq<byte>, b: seq<byte>)
    requires !NewlineFree(a)
    ensures var i := FindNewline(a);
      && 0 <= i < |a| && Lines(a + b) == [a[..i]] + Lines(a[i + 1..] + b)
      && Residue(a + b) == Residue(a[i + 1..] + b)
  {
    hide Lines, Residue, FindFrom;
    FindNewlineAppend(a, b);
    var i := FindNewline(a);
    assert (a + b)[i] == LF;
    FirstLine(a + b);
    assert (a + b)[..i] == a[..i] && (a + b)[i + 1..] == a[i + 1..] + b;
  }

  lemma {:induction false} DecodeLinesAppend<P>(peer: Peer<P>, a: seq<seq<byte>>, b: seq<seq<byte>>, expected: nat)
    ensures DecodeLines(peer, a, expected).None? ==> DecodeLines(peer, a + b, expected).None?
    ensures DecodeLines(peer, a, expected).Some? ==>
      var rest := DecodeLines(peer, b, expected + |a|);
      DecodeLines(peer, a + b, expected)
      == if rest.None? then None else Some(DecodeLines(peer, a, expected).value + rest.value)
  {
    if a == [] {
      assert a + b == b;
      var rest := DecodeLines(peer, b, expected);
      assert rest.Some? ==> [] + rest.value == rest.value;
    } else {
      DecodeLinesAppend(peer, a[1..], b, expected + 1);
      FirstFrame(peer, a[0], a[1..], expected);
      FirstFrame(peer, a[0], a[1..] + b, expected);
      hide *;
      assert [a[0]] + a[1..] == a && [a[0]] + (a[1..] + b) == a + b && expected + 1 + |a[1..]| == expected + |a|;
      var tail, rest := DecodeLines(peer, a[1..], expected + 1), DecodeLines(peer, b, expected + |a|);
      if |StripCr(a[0])| <= MAX_FRAME_BYTES && tail.Some? && rest.Some? {
        PrefixedAppend(DecodeLine(peer, StripCr(a[0]), expected), tail.value, rest.value);
      }
    }
  }

  lemma PrefixedAppend<P>(frame: Option<Frame<P>>, tail: seq<Frame<P>>, rest: seq<Frame<P>>)
    ensures frame.Some? ==> [frame.value] + (tail + rest) == [frame.value] + tail + rest
  {
  }

  /** Early rejection is exact: a partial line is refused if and only if no continuation could fit. */
  lemma EarlyRejectionIsExact(buffer: seq<byte>)
    requires NewlineFree(buffer)
    ensures Oversized(buffer)
       <==> forall more: seq<byte> | NewlineFree(more) :: |StripCr(buffer + more)| > MAX_FRAME_BYTES
  {
    if Oversized(buffer) {
      forall more: seq<byte> | NewlineFree(more) ensures |StripCr(buffer + more)| > MAX_FRAME_BYTES {
        if more == [] {
          assert buffer + more == buffer;
        }
      }
    } else {
      assert buffer + [] == buffer;
      assert |StripCr(buffer + [])| <= MAX_FRAME_BYTES;
    }
  }

  lemma RejectionIsFinal<P>(peer: Peer<P>, buffer: seq<byte>, more: seq<byte>, expected: nat)
    requires NewlineFree(buffer) && Oversized(buffer)
    ensures Decoded(peer, buffer + more, expected).Rejected?
  {
    hide Lines, Residue, DecodeLines, FindFrom, Oversized, StripCr;
    FindNewlineAppend(buffer, more);
    EarlyRejectionIsExact(buffer);
    var i := FindNewline(more);
    if i == -1 {
      OversizedGrows(buffer, more);
      DecodedQuiet(peer, buffer + more, expected);
    } else {
      FirstLine(buffer + more);
      assert (buffer + more)[..|buffer| + i] == buffer + more[..i];
      TooLongAtOnce(peer, Lines(buffer + more), expected);
    }
  }

  lemma OversizedGrows(buffer: seq<byte>, more: seq<byte>)
    requires Oversized(buffer)
    ensures Oversized(buffer + more)
  {
    assert more == [] ==> buffer + more == buffer;
  }

  lemma TooLongAtOnce<P>(peer: Peer<P>, lines: seq<seq<byte>>, expected: nat)
    requires lines != [] && |StripCr(lines[0])| > MAX_FRAME_BYTES
    ensures DecodeLines(peer, lines, expected).None?
  {
  }

  lemma DecodeLinesSplit<P>(peer: Peer<P>, a: seq<byte>, b: seq<byte>, expected: nat)
    ensures var first := DecodeLines(peer, Lines(a), expected);
      var second := DecodeLines(peer, Lines(Residue(a) + b), expected + |Lines(a)|);
      && Residue(a + b) == Residue(Residue(a) + b)
      && DecodeLines(peer, Lines(a + b), expected)
         == if first.None? || second.None? then None else Some(first.value + second.value)
  {
    hide DecodeLines, Lines, Residue;
    LinesAppend(a, b);
    DecodeLinesAppend(peer, Lines(a), Lines(Residue(a) + b), expected);
  }

  /** Chunking does not matter: cutting a stream anywhere changes neither success nor delivery. */
  lemma DecodedSplit<P>(peer: Peer<P>, a: seq<byte>, b: seq<byte>, expected: nat)
    ensures var first := Decoded(peer, a, expected);
      Decoded(peer, a + b, expected)
      == if first.Rejected? then Rejected else Then(first, Decoded(peer, first.buffer + b, first.expected))
  {
    hide DecodeLines, Lines, Residue;
    DecodeLinesSplit(peer, a, b, expected);
    var lines := DecodeLines(peer, Lines(a), expected);
    if lines.None? {
      assert Decoded(peer, a, expected).Rejected?;
    } else if Oversized(Residue(a)) {
      assert Decoded(peer, a, expected).Rejected?;
      RejectionIsFinal(peer, Residue(a), b, expected + |Lines(a)|);
    } else {
      var next := expected + |Lines(a)|;
      assert Decoded(peer, a, expected) == Delivered(lines.value, Residue(a), next);
      assert Then(Delivered(lines.value, Residue(a), next), Decoded(peer, Residue(a) + b, next))
          == Decoded(peer, a + b, expected);
    }
  }

  lemma {:induction false} ConcatSplit(chunks: seq<seq<byte>>, n: nat)
    requires n <= |chunks|
    ensures Concat(chunks) == Concat(chunks[..n]) + Concat(chunks[n..])
  {
    if n > 0 {
      ConcatSplit(chunks[1..], n - 1);
      assert chunks[..n][1..] == chunks[1..][..n - 1];
      assert chunks[n..] == chunks[1..][n - 1..];
    } else {
      assert chunks[..0] == [] && chunks[0..] == chunks;
    }
  }

  lemma ConcatSnoc(chunks: seq<seq<byte>>, n: nat)
    requires n < |chunks|
    ensures Concat(chunks[..n + 1]) == Concat(chunks[..n]) + chunks[n]
  {
    ConcatSplit(chunks[..n + 1], n);
    assert chunks[..n + 1][..n] == chunks[..n];
    assert chunks[..n + 1][n..] == [chunks[n]];
    assert Concat([chunks[n]]) == chunks[n] + [];
  }

  // ---------------------------------------------------------------------------------------------
  // The writer

  /** What the writer refuses to send, it cannot have framed. */
  function ToJsonLine<P>(codec: Codec<P>, frame: Frame<P>): Option<seq<byte>> {
    if codec.validPayload(frame.kind, frame.payload) && |codec.dumps(frame)| <= MAX_FRAME_BYTES
    then Some(codec.dumps(frame))
    else None
  }

  /** JSON as section 7 of RFC 8259 has it: no raw control character in the text, an object at the top. */
  ghost predicate JsonText<P>(codec: Codec<P>, frame: Frame<P>) {
    var text := codec.dumps(frame);
    && codec.loads(text) == Some(frame)
    && NewlineFree(text)
    && text != [] && text[|text| - 1] == CLOSE_BRACE
  }

  /** Frames as a peer sends them: writable, for this session, numbered from `first`. */
  ghost predicate Sendable<P>(peer: Peer<P>, frames: seq<Frame<P>>, first: nat) {
    forall i | 0 <= i < |frames| ::
      && ToJsonLine(peer.codec, frames[i]).Some?
      && JsonText(peer.codec, frames[i])
      && frames[i].version == PROTOCOL_VERSION
      && frames[i].sessionId == peer.sessionId
      && frames[i].kind in peer.kinds
      && frames[i].sequence == first + i
  }

  function Written<P>(codec: Codec<P>, frames: seq<Frame<P>>): seq<byte> {
    if frames == [] then [] else codec.dumps(frames[0]) + [LF] + Written(codec, frames[1..])
  }

  lemma DecodedCons<P>(peer: Peer<P>, line: seq<byte>, rest: seq<byte>, expected: nat)
    requires NewlineFree(line) && |StripCr(line)| <= MAX_FRAME_BYTES
    requires DecodeLine(peer, StripCr(line), expected).Some?
    ensures var frame := DecodeLine(peer, StripCr(line), expected).value;
      Decoded(peer, line + [LF] + rest, expected)
      == Then(Delivered([frame], [], expected + 1), Decoded(peer, rest, expected + 1))
  {
    var whole := line + [LF] + rest;
    assert whole == line + ([LF] + rest) && ([LF] + rest)[0] == LF;
    FindNewlineAppend(line, [LF] + rest);
    assert whole[..|line|] == line && whole[|line| + 1..] == rest;
    var frame := DecodeLine(peer, StripCr(line), expected).value;
    assert [] + [frame] == [frame];
    DecodedStep(peer, whole, expected, []);
    ThenUnit(Decoded(peer, whole, expected), expected);
  }

  /** Writing then decoding is the identity, and the stream may end there. */
  lemma {:induction false} WriteThenDecode<P>(peer: Peer<P>, frames: seq<Frame<P>>, first: nat)
    requires 1 <= first && Sendable(peer, frames, first)
    ensures Decoded(peer, Written(peer.codec, frames), first) == Delivered(frames, [], first + |frames|)
  {
    hide Decoded, DecodeLines, Lines, Residue;
    if frames == [] {
      DecodedQuiet(peer, [], first);
    } else {
      DecodedCons(peer, peer.codec.dumps(frames[0]), Written(peer.codec, frames[1..]), first);
      WriteThenDecode(peer, frames[1..], first + 1);
      assert [frames[0]] + frames[1..] == frames;
    }
  }

  /** The writer refuses a frame of its peer exactly when the decoder would reject its line. */
  lemma WriterRefusesIff<P>(peer: Peer<P>, frame: Frame<P>)
    requires JsonText(peer.codec, frame) && frame.version == 1 && frame.sequence >= 1
    requires frame.sessionId == peer.sessionId && frame.kind in peer.kinds
    ensures ToJsonLine(peer.codec, frame).None? <==> MustReject(peer, peer.codec.dumps(frame) + [10], frame.sequence)
    ensures ToJsonLine(peer.codec, frame).Some? ==> ToJsonLine(peer.codec, frame).value == peer.codec.dumps(frame)
  {
    hide Decoded, DecodeLines, Lines, Residue, MustReject, Delivers;
    var line := peer.codec.dumps(frame);
    WhatDecodingMeans(peer, line + [LF], frame.sequence);
    if ToJsonLine(peer.codec, frame).Some? {
      DecodedCons(peer, line, [], frame.sequence);
      assert line + [LF] + [] == line + [LF];
      DecodedQuiet(peer, [], frame.sequence + 1);
    } else {
      OnlyLine(line);
      BadLineIsRejected(peer, line, frame.sequence);
    }
  }

  lemma OnlyLine(line: seq<byte>)
    requires NewlineFree(line)
    ensures Lines(line + [LF]) == [line]
  {
    hide Lines, FindFrom;
    assert [LF][0] == LF;
    FindNewlineAppend(line, [LF]);
    FirstLine(line + [LF]);
    assert (line + [LF])[..|line|] == line && (line + [LF])[|line| + 1..] == [];
    NoLines([]);
  }

  lemma BadLineIsRejected<P>(peer: Peer<P>, line: seq<byte>, expected: nat)
    requires Lines(line + [LF]) == [line]
    requires |StripCr(line)| > MAX_FRAME_BYTES || DecodeLine(peer, StripCr(line), expected).None?
    ensures Decoded(peer, line + [LF], expected).Rejected?
  {
    hide Lines, Residue;
  }

  /** However the pipe cuts the written bytes, feeding the chunks yields the frames that were sent. */
  method Transfer<P>(peer: Peer<P>, frames: seq<Frame<P>>, first: nat, chunks: seq<seq<byte>>)
    returns (received: Option<seq<Frame<P>>>, finished: bool)
    requires 1 <= first && Sendable(peer, frames, first)
    requires Concat(chunks) == Written(peer.codec, frames)
    ensures received == Some(frames) && finished
  {
    var decoder := new PortableProtocolStreamDecoder(peer, first);
    WriteThenDecode(peer, frames, first);
    assert decoder.buffer + Concat(chunks) == Concat(chunks);
    received := decoder.FeedAll(chunks);
    finished := decoder.Finish();
  }

  /** A stream cut short delivers a prefix of what was sent: never a frame that was not written. */
  lemma TruncationDeliversAPrefix<P>(peer: Peer<P>, frames: seq<Frame<P>>, first: nat, cut: nat)
    requires 1 <= first && Sendable(peer, frames, first)
    requires cut <= |Written(peer.codec, frames)|
    ensures var got := Decoded(peer, Written(peer.codec, frames)[..cut], first);
      && got.Delivered?
      && got.frames <= frames
      && got.expected == first + |got.frames|
  {
    var whole := Written(peer.codec, frames);
    assert whole[..cut] + whole[cut..] == whole;
    WriteThenDecode(peer, frames, first);
    DecodedSplit(peer, whole[..cut], whole[cut..], first);
  }
}
