/**
 Length-prefixed frames over a byte stream that splits, interrupts and fails as it likes.

 The JSON layer is an abstract pair of functions. A schedule says what each call of `read` or
 `write` does; once it is used up every call does all that was asked, so every finite pattern of
 short and interrupted calls is covered.
 */
module Framing {
  import opened Prelude
  import opened Bytes
  import opened Blocks

  const PREFIX_BYTES: nat := 4

  /** The strict JSON of one message type and the validation beside it. */
  datatype Format<!M> = Format(encode: M -> Option<seq<Byte>>, decode: seq<Byte> -> Option<M>, valid: M -> bool)

  ghost predicate Faithful<M(!new)>(f: Format<M>) {
    forall m :: f.encode(m).Some? ==> f.decode(f.encode(m).value) == Some(m)
  }

  datatype Outcome<M> =
    | Message(message: M) | CleanEof | TruncatedPrefix | TruncatedPayload
    | Empty | TooLarge(length: nat, limit: nat) | Json | Invalid | Io

  // ----- the meaning of a stream -----

  /** One frame off the front of the bytes, and what is left. */
  function Parse<M>(f: Format<M>, data: seq<Byte>, limit: nat): (r: (Outcome<M>, seq<Byte>))
    ensures r.0.Message? ==> |r.1| < |data|
    ensures !r.0.Io?
  {
    if data == [] then (CleanEof, [])
    else if |data| < PREFIX_BYTES then (TruncatedPrefix, [])
    else
      var length, rest := FromBigEndian(data[..PREFIX_BYTES]), data[PREFIX_BYTES..];
      if length == 0 then (Empty, rest)
      else if length > limit then (TooLarge(length, limit), rest)
      else if |rest| < length then (TruncatedPayload, [])
      else (Decoded(f, rest[..length]), rest[length..])
  }

  function Decoded<M>(f: Format<M>, payload: seq<Byte>): (r: Outcome<M>)
    ensures !r.Io? && !r.CleanEof? && !r.TruncatedPrefix? && !r.TruncatedPayload?
  {
    match f.decode(payload)
    case None => Json
    case Some(m) => if f.valid(m) then Message(m) else Invalid
  }

  type Parser<M> = seq<Byte> -> (Outcome<M>, seq<Byte>)

  function ParserOf<M>(f: Format<M>, limit: nat): Parser<M> {
    data => Parse(f, data, limit)
  }

  /** The messages read until something other than a message comes up, and what that was. */
  function ReadAll<M>(parse: Parser<M>, data: seq<Byte>): (seq<M>, Outcome<M>)
    decreases |data|
  {
    var (o, rest) := parse(data);
    if !o.Message? || |rest| >= |data| then ([], o)
    else
      var (ms, last) := ReadAll(parse, rest);
      ([o.message] + ms, last)
  }

  predicate Writable<M>(f: Format<M>, m: M, limit: nat) {
    f.valid(m) && f.encode(m).Some? && 0 < |f.encode(m).value| <= limit && |f.encode(m).value| <= U32_MAX
  }

  predicate AllWritable<M>(f: Format<M>, ms: seq<M>, limit: nat) {
    forall i :: 0 <= i < |ms| ==> Writable(f, ms[i], limit)
  }

  function Frame<M>(f: Format<M>, m: M): seq<Byte>
    requires f.encode(m).Some? && |f.encode(m).value| <= U32_MAX
  {
    BigEndian(|f.encode(m).value|, PREFIX_BYTES) + f.encode(m).value
  }

  function Frames<M>(f: Format<M>, ms: seq<M>, limit: nat): seq<seq<Byte>>
    requires AllWritable(f, ms, limit)
  {
    seq(|ms|, i requires 0 <= i < |ms| => Frame(f, ms[i]))
  }

  // ----- frames, for any parser that takes a frame off the front -----

  ghost predicate Takes<M(!new)>(parse: Parser<M>, frame: seq<Byte>, m: M) {
    && frame != []
    && (forall tail :: parse(frame + tail) == (Message(m), tail))
    && (forall cut :: 0 <= cut < |frame| ==> parse(frame[..cut]).0 == CutOutcome(cut))
  }

  ghost predicate TakesAll<M(!new)>(parse: Parser<M>, frames: seq<seq<Byte>>, ms: seq<M>) {
    |frames| == |ms| && forall i :: 0 <= i < |ms| ==> Takes(parse, frames[i], ms[i])
  }

  /** How a stream ends that stops `extra` bytes into a frame. */
  function CutOutcome<M>(extra: nat): (o: Outcome<M>)
    ensures !o.Message?
  {
    if extra == 0 then CleanEof else if extra < PREFIX_BYTES then TruncatedPrefix else TruncatedPayload
  }

  /** How many whole frames lie within the first `cut` bytes. */
  function WholeFrames(frames: seq<seq<Byte>>, cut: nat): (k: nat)
    ensures k <= |frames|
  {
    if frames == [] || cut < |frames[0]| then 0 else 1 + WholeFrames(frames[1..], cut - |frames[0]|)
  }

  lemma {:induction false} WholeFramesFit(frames: seq<seq<Byte>>, cut: nat)
    ensures var k := WholeFrames(frames, cut);
            |Joined(frames[..k])| <= cut && (k < |frames| ==> cut < |Joined(frames[..k + 1])|)
  {
    var k := WholeFrames(frames, cut);
    if k > 0 {
      WholeFramesFit(frames[1..], cut - |frames[0]|);
      assert frames[..k][1..] == frames[1..][..k - 1];
    }
    if k < |frames| {
      assert frames[..k + 1][1..] == frames[1..][..k];
    }
  }

  /**
   Cutting the stream anywhere: the whole frames before the cut are read, nothing else is, and the
   end is reported as exactly what the cut split.
   */
  lemma {:induction false} CutJoined<M(!new)>(parse: Parser<M>, frames: seq<seq<Byte>>, ms: seq<M>, cut: nat)
    requires TakesAll(parse, frames, ms) && parse([]).0 == CleanEof && cut <= |Joined(frames)|
    ensures var k := WholeFrames(frames, cut);
            && |Joined(frames[..k])| <= cut
            && ReadAll(parse, Joined(frames)[..cut]) == (ms[..k], CutOutcome(cut - |Joined(frames[..k])|))
  {
    if ms == [] {
    } else if cut < |frames[0]| {
      assert Takes(parse, frames[0], ms[0]);
      assert Joined(frames)[..cut] == frames[0][..cut];
    } else {
      assert Takes(parse, frames[0], ms[0]);
      CutJoined(parse, frames[1..], ms[1..], cut - |frames[0]|);
      CutNext(parse, frames, ms, cut);
    }
  }

  /** A whole frame in front of a cut stream. */
  lemma CutNext<M(!new)>(parse: Parser<M>, frames: seq<seq<Byte>>, ms: seq<M>, cut: nat)
    requires |frames| == |ms| > 0 && Takes(parse, frames[0], ms[0]) && |frames[0]| <= cut <= |Joined(frames)|
    requires var k, rest := WholeFrames(frames[1..], cut - |frames[0]|), cut - |frames[0]|;
             && |Joined(frames[1..][..k])| <= rest
             && ReadAll(parse, Joined(frames[1..])[..rest]) == (ms[1..][..k], CutOutcome(rest - |Joined(frames[1..][..k])|))
    ensures var k := WholeFrames(frames, cut);
            && |Joined(frames[..k])| <= cut
            && ReadAll(parse, Joined(frames)[..cut]) == (ms[..k], CutOutcome(cut - |Joined(frames[..k])|))
  {
    var k, rest := WholeFrames(frames, cut), Joined(frames[1..])[..cut - |frames[0]|];
    assert Joined(frames)[..cut] == frames[0] + rest;
    ReadOne(parse, frames[0], ms[0], rest);
    JoinedPrefix(frames, k);
    assert ms[..k] == [ms[0]] + ms[1..][..k - 1];
  }

  lemma ReadOne<M(!new)>(parse: Parser<M>, frame: seq<Byte>, m: M, rest: seq<Byte>)
    requires Takes(parse, frame, m)
    ensures ReadAll(parse, frame + rest) == ([m] + ReadAll(parse, rest).0, ReadAll(parse, rest).1)
  {
    assert parse(frame + rest) == (Message(m), rest);
  }

  lemma JoinedPrefix(frames: seq<seq<Byte>>, k: nat)
    requires 0 < k <= |frames|
    ensures Joined(frames[..k]) == frames[0] + Joined(frames[1..][..k - 1])
  {
    assert frames[..k][1..] == frames[1..][..k - 1];
  }

  // ----- and the parser does -----

  lemma PrefixRoundTrip(n: nat)
    requires n <= U32_MAX
    ensures FromBigEndian(BigEndian(n, PREFIX_BYTES)) == n
  {
    assert Power256(4) == U32_MAX + 1;
    BigEndianRoundTrip(n, PREFIX_BYTES);
  }

  lemma ParseFrame<M(!new)>(f: Format<M>, m: M, tail: seq<Byte>, limit: nat)
    requires Faithful(f) && Writable(f, m, limit)
    ensures Parse(f, Frame(f, m) + tail, limit) == (Message(m), tail)
  {
    var payload := f.encode(m).value;
    var data := Frame(f, m) + tail;
    PrefixRoundTrip(|payload|);
    assert data[..PREFIX_BYTES] == BigEndian(|payload|, PREFIX_BYTES);
    assert data[PREFIX_BYTES..] == payload + tail;
  }

  lemma ParseCutFrame<M(!new)>(f: Format<M>, m: M, limit: nat, cut: nat)
    requires Faithful(f) && Writable(f, m, limit) && cut < |Frame(f, m)|
    ensures Parse(f, Frame(f, m)[..cut], limit).0 == CutOutcome(cut)
  {
    if cut >= PREFIX_BYTES {
      PrefixRoundTrip(|f.encode(m).value|);
      assert Frame(f, m)[..cut][..PREFIX_BYTES] == BigEndian(|f.encode(m).value|, PREFIX_BYTES);
    }
  }

  lemma ParserTakes<M(!new)>(f: Format<M>, m: M, limit: nat)
    requires Faithful(f) && Writable(f, m, limit)
    ensures Takes(ParserOf(f, limit), Frame(f, m), m)
  {
    forall tail ensures ParserOf(f, limit)(Frame(f, m) + tail) == (Message(m), tail) {
      ParseFrame(f, m, tail, limit);
    }
    forall cut | 0 <= cut < |Frame(f, m)| ensures ParserOf(f, limit)(Frame(f, m)[..cut]).0 == CutOutcome(cut) {
      ParseCutFrame(f, m, limit, cut);
    }
  }

  lemma ParserTakesAll<M(!new)>(f: Format<M>, ms: seq<M>, limit: nat)
    requires Faithful(f) && AllWritable(f, ms, limit)
    ensures TakesAll(ParserOf(f, limit), Frames(f, ms, limit), ms) && ParserOf(f, limit)([]).0 == CleanEof
  {
    forall i | 0 <= i < |ms| ensures Takes(ParserOf(f, limit), Frames(f, ms, limit)[i], ms[i]) {
      ParserTakes(f, ms[i], limit);
    }
  }

  /** Any cut of what was written yields the whole messages before it and names what it split. */
  lemma CutStream<M(!new)>(f: Format<M>, ms: seq<M>, limit: nat, cut: nat, parse: Parser<M>, frames: seq<seq<Byte>>)
    requires Faithful(f) && AllWritable(f, ms, limit)
    requires parse == ParserOf(f, limit) && frames == Frames(f, ms, limit) && cut <= |Joined(frames)|
    ensures var k := WholeFrames(frames, cut);
            && |Joined(frames[..k])| <= cut
            && (k < |ms| ==> cut < |Joined(frames[..k + 1])|)
            && ReadAll(parse, Joined(frames)[..cut]) == (ms[..k], CutOutcome(cut - |Joined(frames[..k])|))
  {
    ParserTakesAll(f, ms, limit);
    WholeFramesFit(frames, cut);
    CutJoined(parse, frames, ms, cut);
  }

  lemma {:induction false} AllWhole(frames: seq<seq<Byte>>)
    requires forall i :: 0 <= i < |frames| ==> frames[i] != []
    ensures WholeFrames(frames, |Joined(frames)|) == |frames|
  {
    if frames != [] {
      AllWhole(frames[1..]);
    }
  }

  /** What was written is what is read, and then a clean end. */
  lemma RoundTrip<M(!new)>(f: Format<M>, ms: seq<M>, limit: nat)
    requires Faithful(f) && AllWritable(f, ms, limit)
    ensures ReadAll(ParserOf(f, limit), Joined(Frames(f, ms, limit))) == (ms, CleanEof)
  {
    var frames := Frames(f, ms, limit);
    ParserTakesAll(f, ms, limit);
    forall i | 0 <= i < |frames| ensures frames[i] != [] {
      assert Takes(ParserOf(f, limit), frames[i], ms[i]);
    }
    AllWhole(frames);
    CutJoined(ParserOf(f, limit), frames, ms, |Joined(frames)|);
    assert Joined(frames)[..|Joined(frames)|] == Joined(frames) && frames[..|frames|] == frames;
    assert ms[..|ms|] == ms;
  }

  // ----- the code -----

  /** What one `read` or `write` call does: at most `most + 1` bytes, an interruption, or a failure. */
  datatype Call = Partial(most: nat) | Interrupted | Broken

  predicate Unbroken(schedule: seq<Call>) {
    Broken !in schedule
  }

  datatype Transfer = Moved(count: nat) | Again | Failed

  /** A stream that one side reads from the front of and the other appends to. */
  class Stream {
    var data: seq<Byte>
    var schedule: seq<Call>

    constructor (bytes: seq<Byte>, calls: seq<Call>)
      ensures data == bytes && schedule == calls
    {
      data, schedule := bytes, calls;
    }

    /** How much of `want` bytes the next call moves. */
    method Step(want: nat) returns (t: Transfer)
      modifies this`schedule
      ensures t.Failed? ==> !Unbroken(old(schedule))
      ensures Unbroken(old(schedule)) ==> Unbroken(schedule)
      ensures |schedule| <= |old(schedule)| && (t.Again? ==> |schedule| < |old(schedule)|)
      ensures t.Moved? ==> t.count <= want && (t.count == 0 <==> want == 0)
    {
      if schedule == [] {
        return Moved(want);
      }
      var next := schedule[0];
      schedule := schedule[1..];
      match next {
        case Broken => t := Failed;
        case Interrupted => t := Again;
        case Partial(most) => t := Moved(if want <= most then want else most + 1);
      }
      if want == 0 && t.Moved? { t := Moved(0); }
    }

    /** Reads until `want` bytes have come or the stream ends; used for the prefix and by `read_exact`. */
    method Fill(want: nat) returns (got: seq<Byte>, ok: bool)
      modifies this
      ensures ok ==>
                var n := if want < |old(data)| then want else |old(data)|;
                got == old(data)[..n] && data == old(data)[n..]
      ensures !ok ==> !Unbroken(old(schedule))
      ensures Unbroken(old(schedule)) ==> Unbroken(schedule)
      ensures |schedule| <= |old(schedule)|
    {
      got := [];
      while |got| < want
        invariant |got| <= want && |got| <= |old(data)|
        invariant got == old(data)[..|got|] && data == old(data)[|got|..]
        invariant Unbroken(old(schedule)) ==> Unbroken(schedule)
        invariant |schedule| <= |old(schedule)|
        decreases want - |got| + |schedule|
      {
        var left := want - |got|;
        var t := Step(if left <= |data| then left else |data|);
        match t {
          case Failed => return got, false;
          case Again =>
          case Moved(count) =>
            if count == 0 {
              return got, true;
            }
            got := got + data[..count];
            data := data[count..];
        }
      }
      ok := true;
    }

    /** `read_frame`: whatever the schedule, the answer is the one the bytes determine, or the stream failed. */
    method ReadFrame<M>(f: Format<M>, limit: nat) returns (r: Outcome<M>)
      modifies this
      ensures !r.Io? ==> (r, data) == Parse(f, old(data), limit)
      ensures r.Io? ==> !Unbroken(old(schedule))
      ensures Unbroken(old(schedule)) ==> Unbroken(schedule)
    {
      var prefix, ok := Fill(PREFIX_BYTES);
      if !ok {
        return Io;
      }
      if prefix == [] {
        return CleanEof;
      }
      if |prefix| < PREFIX_BYTES {
        return TruncatedPrefix;
      }
      var length := FromBigEndian(prefix);
      if length == 0 {
        return Empty;
      }
      if length > limit {
        return TooLarge(length, limit);
      }
      var payload;
      payload, ok := Fill(length);
      if !ok {
        return Io;
      }
      if |payload| < length {
        return TruncatedPayload;
      }
      r := Decoded(f, payload);
    }

    /** `write_all`. */
    method WriteAll(bytes: seq<Byte>) returns (ok: bool)
      modifies this
      ensures ok ==> data == old(data) + bytes
      ensures !ok ==> !Unbroken(old(schedule)) && exists n :: 0 <= n < |bytes| && data == old(data) + bytes[..n]
      ensures Unbroken(old(schedule)) ==> Unbroken(schedule)
    {
      var sent := 0;
      while sent < |bytes|
        invariant sent <= |bytes|
        invariant data == old(data) + bytes[..sent]
        invariant Unbroken(old(schedule)) ==> Unbroken(schedule)
        decreases |bytes| - sent + |schedule|
      {
        var t := Step(|bytes| - sent);
        match t {
          case Failed => return false;
          case Again =>
          case Moved(count) =>
            assert bytes[..sent + count] == bytes[..sent] + bytes[sent..sent + count];
            data := data + bytes[sent..sent + count];
            sent := sent + count;
        }
      }
      ok := true;
    }

    /** `write_frame`: success appends exactly one frame; a broken stream keeps only a proper part of it. */
    method WriteFrame<M>(f: Format<M>, m: M, limit: nat) returns (r: Option<Outcome<M>>)
      modifies this
      ensures r.None? ==> Writable(f, m, limit) && data == old(data) + Frame(f, m)
      ensures Writable(f, m, limit) ==>
                r.None? || (r == Some(Io) && !Unbroken(old(schedule))
                  && exists n :: 0 <= n < |Frame(f, m)| && data == old(data) + Frame(f, m)[..n])
      ensures !Writable(f, m, limit) ==> data == old(data) && r.Some? && !r.value.Io?
      ensures Unbroken(old(schedule)) ==> Unbroken(schedule)
    {
      if !f.valid(m) {
        return Some(Invalid);
      }
      var encoded := f.encode(m);
      if encoded.None? {
        return Some(Json);
      }
      var payload := encoded.value;
      if payload == [] {
        return Some(Empty);
      }
      if |payload| > limit || |payload| > U32_MAX {
        return Some(TooLarge(|payload|, limit));
      }
      ghost var prefix := BigEndian(|payload|, PREFIX_BYTES);
      var ok := WriteAll(BigEndian(|payload|, PREFIX_BYTES));
      if !ok {
        ghost var n :| 0 <= n < |prefix| && data == old(data) + prefix[..n];
        assert Frame(f, m)[..n] == prefix[..n];
        return Some(Io);
      }
      ok := WriteAll(payload);
      if !ok {
        ghost var n :| 0 <= n < |payload| && data == old(data) + prefix + payload[..n];
        assert Frame(f, m)[..|prefix| + n] == prefix + payload[..n];
        assert data == old(data) + Frame(f, m)[..|prefix| + n];
        return Some(Io);
      }
      assert data == old(data) + Frame(f, m);
      r := None;
    }

    /** Reading frame after frame until one does not come. */
    method Drain<M>(f: Format<M>, limit: nat) returns (ms: seq<M>, last: Outcome<M>)
      modifies this
      ensures !last.Message?
      ensures !last.Io? ==> (ms, last) == ReadAll(ParserOf(f, limit), old(data))
      ensures last.Io? ==> !Unbroken(old(schedule)) && ms <= ReadAll(ParserOf(f, limit), old(data)).0
    {
      ms := [];
      ghost var parse := ParserOf(f, limit);
      ghost var all := ReadAll(parse, data);
      assert ms + all.0 == all.0;
      while true
        invariant Unbroken(old(schedule)) ==> Unbroken(schedule)
        invariant all == (ms + ReadAll(parse, data).0, ReadAll(parse, data).1)
        decreases |data|
      {
        ghost var before := data;
        last := ReadFrame(f, limit);
        if !last.Io? {
          ReadNext(parse, before, ms, last, data);
        }
        if !last.Message? {
          return;
        }
        ms := ms + [last.message];
      }
    }

    /** Any unbroken schedule on either side delivers exactly the messages written. */
    method Deliver<M(!new)>(f: Format<M>, ms: seq<M>, limit: nat) returns (got: seq<M>, last: Outcome<M>)
      requires Faithful(f) && AllWritable(f, ms, limit) && data == [] && Unbroken(schedule)
      modifies this
      ensures got == ms && last == CleanEof
    {
      for i := 0 to |ms|
        invariant data == Joined(Frames(f, ms, limit)[..i]) && Unbroken(schedule)
      {
        var r := WriteFrame(f, ms[i], limit);
        JoinedSnoc(Frames(f, ms, limit)[..i], Frame(f, ms[i]));
        assert Frames(f, ms, limit)[..i + 1] == Frames(f, ms, limit)[..i] + [Frame(f, ms[i])];
      }
      assert Frames(f, ms, limit)[..|ms|] == Frames(f, ms, limit);
      RoundTrip(f, ms, limit);
      got, last := Drain(f, limit);
    }
  }

  lemma ReadNext<M>(parse: Parser<M>, data: seq<Byte>, ms: seq<M>, o: Outcome<M>, rest: seq<Byte>)
    requires parse(data) == (o, rest) && (o.Message? ==> |rest| < |data|)
    ensures var (more, last) := ReadAll(parse, data);
            if o.Message? then
              && ms + more == ms + [o.message] + ReadAll(parse, rest).0
              && last == ReadAll(parse, rest).1
            else ms + more == ms && last == o
  {
    if o.Message? {
      assert ms + ([o.message] + ReadAll(parse, rest).0) == ms + [o.message] + ReadAll(parse, rest).0;
    }
  }
}
