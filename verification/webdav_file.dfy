/**
 Reading a file over WebDAV: the body is requested at the first read, from the position sought so far,
 and then read on to its end.
 */
module WebDavFile {
  import opened Data

  const LIMIT := 0x8000_0000_0000_0000

  /** A 64-bit signed sum. */
  function Wrap(x: int): (r: int)
    ensures -LIMIT <= r < LIMIT
    ensures -LIMIT <= x < LIMIT ==> r == x
  {
    (x + LIMIT) % (2 * LIMIT) - LIMIT
  }

  // ---------------------------------------------------------------- ranges (section 14.1.2 of RFC 9110)

  datatype Range = Whole | Suffix(length: int) | From(first: int) | Within(first: int, last: int)

  /** The Range header of a request. */
  function RangeFor(start: int, end: int): Range {
    if start == 0 && end < 0 then Suffix(-end)
    else if 0 < start && end == 0 then From(start)
    else if 0 <= start && start <= end then Within(start, end)
    else Whole
  }

  /** What a server answers that has the file: the bytes asked for, or None for status 416
      (section 15.5.17 of RFC 9110). A server may pass over the header. */
  function Answer(content: Bytes, ranges: bool, range: Range): Option<Bytes> {
    var size := |content|;
    if !ranges then Some(content)
    else match range
      case Whole => Some(content)
      case Suffix(n) => if n <= 0 then None else Some(content[if n < size then size - n else 0..])
      case From(a) => if 0 <= a < size then Some(content[a..]) else None
      case Within(a, b) =>
        if 0 <= a < size && a <= b then Some(content[a..if b + 1 < size then b + 1 else size]) else None
  }

  // ---------------------------------------------------------------- the reader

  datatype State = State(pos: int, seeked: bool, body: Option<Bytes>)

  datatype Whence = SeekStart | SeekCurrent | SeekEnd | SeekUnknown

  /** A read that has room for some bytes; whether a request it needs gets through, and how much of the body
      is there when it asks. */
  datatype Call = Seek(offset: int, whence: Whence) | Read(room: nat, up: bool, ready: nat)

  datatype Outcome = Moved(pos: int) | Invalid | Got(data: Bytes, eof: bool) | Failed

  const START := State(0, false, None)

  function Target(s: State, size: nat, offset: int, whence: Whence): int {
    match whence
    case SeekStart => offset
    case SeekCurrent => Wrap(s.pos + offset)
    case SeekEnd => Wrap(size + offset)
    case SeekUnknown => -1
  }

  /** The answer to the request of a first read. */
  function FirstBody(content: Bytes, ranges: bool, s: State): Option<Bytes> {
    Answer(content, ranges, RangeFor(if s.seeked then s.pos else -1, 0))
  }

  function TakeFrom(s: State, size: nat, room: nat, ready: nat): (State, Outcome)
    requires s.body.Some?
  {
    var body := s.body.value;
    var most := if room < ready then room else ready;
    var n := if most < |body| then most else |body|;
    var pos := Wrap(s.pos + n);
    (State(pos, s.seeked, Some(body[n..])), Got(body[..n], pos >= size))
  }

  lemma Taken(s: State, size: nat, room: nat, ready: nat)
    requires s.body.Some?
    ensures var (s', o) := TakeFrom(s, size, room, ready);
      && o.Got? && s'.body.Some? && s'.seeked == s.seeked
      && o.data + s'.body.value == s.body.value
      && s'.pos == Wrap(s.pos + |o.data|) && (o.eof <==> s'.pos >= size)
      && (room > 0 && ready > 0 && s.body.value != [] ==> o.data != [])
  {
  }

  lemma Shift(got: Bytes, data: Bytes, left: Bytes)
    ensures got + data + left == got + (data + left)
  {
  }

  function Do(content: Bytes, ranges: bool, s: State, call: Call): (State, Outcome) {
    match call
    case Seek(offset, whence) =>
      var npos := Target(s, |content|, offset, whence);
      if npos < 0 then (s, Invalid) else (State(npos, true, s.body), Moved(npos))
    case Read(room, up, ready) =>
      if s.body.Some? then TakeFrom(s, |content|, room, ready)
      else if !up then (s, Failed)
      else match FirstBody(content, ranges, s)
        case None => (s, Got([], true))
        case Some(body) => TakeFrom(s.(body := Some(body)), |content|, room, ready)
  }

  /** What the first request is answered with. */
  lemma FirstIs(content: Bytes, ranges: bool, s: State)
    ensures !s.seeked || !ranges ==> FirstBody(content, ranges, s) == Some(content)
    ensures s.seeked && ranges && s.pos >= |content| ==> FirstBody(content, ranges, s) == None
    ensures s.seeked && ranges && 0 <= s.pos < |content| ==>
      FirstBody(content, ranges, s) == Some(if s.pos == 0 then content[..1] else content[s.pos..])
  {
    assert content != [] ==> content[0..1] == content[..1];
  }

  /** What a read answers, and what it leaves of the body. */
  lemma ReadIs(content: Bytes, ranges: bool, s: State, room: nat, up: bool, ready: nat)
    ensures var (s', r) := Do(content, ranges, s, Call.Read(room, up, ready));
      && s'.seeked == s.seeked
      && (s.body.None? && !up ==> r == Failed && s' == s)
      && (s.body.None? && up && s.seeked && ranges && s.pos >= |content| ==> r == Got([], true) && s' == s)
      && (s.body.None? && up && (!s.seeked || !ranges) ==> GotFrom(s, s', r, content, room, ready, |content|))
      && (s.body.None? && up && s.seeked && ranges && 0 <= s.pos < |content| ==>
            GotFrom(s, s', r, if s.pos == 0 then content[..1] else content[s.pos..], room, ready, |content|))
      && (s.body.Some? ==> GotFrom(s, s', r, s.body.value, room, ready, |content|))
  {
    hide FirstBody, TakeFrom, GotFrom;
    FirstIs(content, ranges, s);
    forall body: Bytes ensures (
      var s1 := s.(body := Some(body)); var (s', r) := TakeFrom(s1, |content|, room, ready);
      s'.seeked == s.seeked && GotFrom(s, s', r, body, room, ready, |content|))
    {
      TakenFrom(s, body, |content|, room, ready);
    }
  }

  /** Some bytes off the front of the body, which is left without them; none only if nothing was there or asked for. */
  predicate GotFrom(s: State, s': State, r: Outcome, body: Bytes, room: nat, ready: nat, size: nat) {
    && r.Got? && s'.body.Some? && r.data + s'.body.value == body && |r.data| <= room
    && s'.pos == Wrap(s.pos + |r.data|) && (r.eof <==> s'.pos >= size)
    && (room > 0 && ready > 0 && body != [] ==> r.data != [])
  }

  lemma TakenFrom(s: State, body: Bytes, size: nat, room: nat, ready: nat)
    ensures var (s', r) := TakeFrom(s.(body := Some(body)), size, room, ready);
      s'.seeked == s.seeked && GotFrom(s, s', r, body, room, ready, size)
  {
    Taken(s.(body := Some(body)), size, room, ready);
  }

  class File {
    /** The file as the server has it; its length is the size that was reported when the file was opened. */
    const content: Bytes
    const ranges: bool
    var pos: int
    var seeked: bool
    var lastBody: Option<Bytes>

    ghost function Now(): State
      reads this
    {
      State(pos, seeked, lastBody)
    }

    constructor (content: Bytes, ranges: bool)
      ensures this.content == content && this.ranges == ranges && Now() == START
    {
      this.content, this.ranges := content, ranges;
      pos, seeked, lastBody := 0, false, None;
    }

    method Seek(offset: int, whence: Whence) returns (r: Outcome)
      modifies this
      ensures (Now(), r) == Do(content, ranges, old(Now()), Call.Seek(offset, whence))
      ensures whence == SeekStart && offset >= 0 ==> r == Moved(offset) && pos == offset
      ensures whence == SeekCurrent && 0 <= old(pos) + offset < LIMIT ==>
        r == Moved(old(pos) + offset) && pos == old(pos) + offset
      ensures whence == SeekEnd && 0 <= |content| + offset < LIMIT ==>
        r == Moved(|content| + offset) && pos == |content| + offset
      ensures r.Moved? ==> seeked && lastBody == old(lastBody)
      ensures || whence == SeekUnknown || (whence == SeekStart && offset < 0)
              || (whence == SeekCurrent && -LIMIT <= old(pos) + offset < 0)
              || (whence == SeekEnd && -LIMIT <= |content| + offset < 0)
              ==> r == Invalid && Now() == old(Now())
    {
      var npos := pos;
      match whence {
        case SeekStart => npos := offset;
        case SeekCurrent => npos := Wrap(npos + offset);
        case SeekEnd => npos := Wrap(|content| + offset);
        case SeekUnknown => npos := -1;
      }
      if npos < 0 {
        return Invalid;
      }
      pos := npos;
      seeked := true;
      return Moved(pos);
    }

    method DoRequest(offset: int, end: int, up: bool) returns (body: Option<Bytes>, r: Outcome)
      ensures body == if up then Answer(content, ranges, RangeFor(offset, end)) else None
      ensures body.None? ==> r == if up then Got([], true) else Failed
    {
      if !up {
        return None, Failed;
      }
      body := Answer(content, ranges, RangeFor(offset, end));
      r := Got([], true);
    }

    method Read(room: nat, up: bool, ready: nat) returns (r: Outcome)
      modifies this
      ensures (Now(), r) == Do(content, ranges, old(Now()), Call.Read(room, up, ready))
      ensures old(lastBody).None? && !up ==> r == Failed && Now() == old(Now())
      ensures old(lastBody).None? && up && old(seeked) && ranges && old(pos) >= |content| ==>
        r == Got([], true) && Now() == old(Now())
      ensures seeked == old(seeked)
      ensures old(lastBody).Some? ==> GotFrom(old(Now()), Now(), r, old(lastBody).value, room, ready, |content|)
      ensures old(lastBody).None? && up && (!old(seeked) || !ranges) ==>
        GotFrom(old(Now()), Now(), r, content, room, ready, |content|)
      ensures old(lastBody).None? && up && old(seeked) && ranges && 0 <= old(pos) < |content| ==>
        GotFrom(old(Now()), Now(), r, if old(pos) == 0 then content[..1] else content[old(pos)..],
                room, ready, |content|)
    {
      hide Answer, RangeFor, Wrap, GotFrom;
      ReadIs(content, ranges, Now(), room, up, ready);
      if lastBody.None? {
        var offset := -1;
        if seeked {
          offset := pos;
        }
        var body, failure := DoRequest(offset, 0, up);
        if body.None? {
          return failure;
        }
        lastBody := body;
      }
      var body := lastBody.value;
      var n := if room < ready then room else ready;
      if |body| < n {
        n := |body|;
      }
      var out := body[..n];
      lastBody := Some(body[n..]);
      pos := Wrap(pos + n);
      return Got(out, pos >= |content|);
    }
  }

  // ---------------------------------------------------------------- runs

  function Run(content: Bytes, ranges: bool, s: State, calls: seq<Call>): (r: (State, seq<Outcome>))
    ensures |r.1| == |calls|
  {
    if calls == [] then (s, [])
    else
      var before := Run(content, ranges, s, calls[..|calls| - 1]);
      var step := Do(content, ranges, before.0, calls[|calls| - 1]);
      (step.0, before.1 + [step.1])
  }

  /** The bytes handed out in a run. */
  function Delivered(log: seq<Outcome>): Bytes {
    if log == [] then []
    else Delivered(log[..|log| - 1]) + if log[|log| - 1].Got? then log[|log| - 1].data else []
  }

  lemma DeliveredSnoc(log: seq<Outcome>, o: Outcome)
    ensures Delivered(log + [o]) == Delivered(log) + if o.Got? then o.data else []
  {
    assert (log + [o])[..|log|] == log;
  }

  /** What is left of the file at a position. */
  function Rest(content: Bytes, pos: nat): Bytes {
    if pos <= |content| then content[pos..] else []
  }

  /** Whether the request of a first read asks for the rest of the file, and is answered with it. A read
      right after seeking to 0 asks for one byte. */
  predicate AsksForRest(content: Bytes, ranges: bool, s: State) {
    if !s.seeked then s.pos == 0 || content == []
    else if s.pos == 0 then !ranges || |content| <= 1
    else ranges || content == []
  }

  /** The answer to the first read is the rest of the file (or 416, if there is nothing left) exactly when the
      request asks for it. */
  lemma FirstBodyIsRest(content: Bytes, ranges: bool, s: State)
    requires s.pos >= 0
    ensures AsksForRest(content, ranges, s) <==>
      match FirstBody(content, ranges, s)
        case None => s.pos >= |content|
        case Some(body) => body == Rest(content, s.pos)
  {
    if s.seeked && s.pos == 0 && ranges {
      if content != [] {
        assert FirstBody(content, ranges, s) == Some(content[0..1]);
        assert |content| == 1 ==> content[0..1] == Rest(content, 0);
      }
    }
    assert s.pos == 0 ==> Rest(content, s.pos) == content;
    if FirstBody(content, ranges, s) == Some(content) && content == Rest(content, s.pos) && s.pos > 0 {
      assert |content| == |Rest(content, s.pos)|;
    }
  }

  predicate Reads(calls: seq<Call>) {
    forall c :: c in calls ==> c.Read?
  }

  predicate Seeks(calls: seq<Call>) {
    forall c :: c in calls ==> c.Seek?
  }

  /** Where a run of seeks ends: nothing requested yet, at 0 unless some seek succeeded. */
  lemma {:induction false} SeeksOnly(content: Bytes, ranges: bool, calls: seq<Call>)
    requires Seeks(calls)
    ensures var r := Run(content, ranges, START, calls);
      r.0.body.None? && r.0.pos >= 0 && (!r.0.seeked ==> r.0.pos == 0) && Delivered(r.1) == []
    decreases |calls|
  {
    if calls != [] {
      var front := calls[..|calls| - 1];
      assert forall c :: c in front ==> c in calls;
      SeeksOnly(content, ranges, front);
      assert calls[|calls| - 1] in calls;
      DeliveredSnoc(Run(content, ranges, START, front).1,
        Do(content, ranges, Run(content, ranges, START, front).0, calls[|calls| - 1]).1);
    }
  }

  /** Once there is a body, no call can make the reader hand out anything but the body, in order:
      a later seek moves the position and nothing else. */
  lemma {:induction false} BodyInOrder(content: Bytes, ranges: bool, s: State, calls: seq<Call>)
    requires s.body.Some?
    ensures var r := Run(content, ranges, s, calls);
      r.0.body.Some? && Delivered(r.1) + r.0.body.value == s.body.value
    decreases |calls|
  {
    hide TakeFrom, FirstBody, Target;
    if calls == [] {
      assert [] + s.body.value == s.body.value;
    } else {
      var front, call := calls[..|calls| - 1], calls[|calls| - 1];
      BodyInOrder(content, ranges, s, front);
      var before := Run(content, ranges, s, front);
      var step := Do(content, ranges, before.0, call);
      DeliveredSnoc(before.1, step.1);
      if call.Read? {
        Taken(before.0, |content|, call.room, call.ready);
        Shift(Delivered(before.1), step.1.data, step.0.body.value);
      }
    }
  }

  /** Reading on: the bytes handed out are the first ones of the body, and the position counts them. */
  lemma {:induction false} ReadsInOrder(content: Bytes, ranges: bool, s: State, calls: seq<Call>)
    requires Reads(calls) && s.body.None? && 0 <= s.pos < LIMIT && |content| < LIMIT && AsksForRest(content, ranges, s)
    ensures var r := Run(content, ranges, s, calls);
      && r.0.pos == s.pos + |Delivered(r.1)|
      && r.0.seeked == s.seeked
      && Delivered(r.1) <= Rest(content, s.pos)
      && (r.0.body.None? ==> r.0 == s)
      && (r.0.body.Some? ==> Delivered(r.1) + r.0.body.value == Rest(content, s.pos))
    decreases |calls|
  {
    hide FirstBody, AsksForRest;
    if calls != [] {
      var front, call := calls[..|calls| - 1], calls[|calls| - 1];
      assert forall c :: c in front ==> c in calls;
      assert call in calls;
      ReadsInOrder(content, ranges, s, front);
      FirstBodyIsRest(content, ranges, s);
      var before := Run(content, ranges, s, front);
      var step := Do(content, ranges, before.0, call);
      DeliveredSnoc(before.1, step.1);
      ReadOn(content, ranges, s, before.0, Delivered(before.1), call);
    }
  }

  lemma ReadOn(content: Bytes, ranges: bool, s: State, now: State, got: Bytes, call: Call)
    requires call.Read? && s.body.None? && 0 <= s.pos < LIMIT && |content| < LIMIT
    requires now.pos == s.pos + |got| && now.seeked == s.seeked && got <= Rest(content, s.pos)
    requires now.body.None? ==> now == s
    requires now.body.Some? ==> got + now.body.value == Rest(content, s.pos)
    requires match FirstBody(content, ranges, s)
             case None => s.pos >= |content|
             case Some(body) => body == Rest(content, s.pos)
    ensures var step := Do(content, ranges, now, call);
      var all := got + if step.1.Got? then step.1.data else [];
      && step.0.pos == s.pos + |all| && step.0.seeked == s.seeked
      && (step.0.body.None? ==> step.0 == s)
      && (step.0.body.Some? ==> all + step.0.body.value == Rest(content, s.pos))
      && all <= Rest(content, s.pos)
      && (step.1.Got? ==> (step.1.eof <==> step.0.pos >= |content|))
  {
    hide FirstBody, TakeFrom, Rest;
    var first := FirstBody(content, ranges, s);
    if now.body.Some? || (call.up && first.Some?) {
      var from := if now.body.Some? then now else s.(body := first);
      Taken(from, |content|, call.room, call.ready);
      var (s', o) := TakeFrom(from, |content|, call.room, call.ready);
      Shift(got, o.data, s'.body.value);
      assert now.body.None? ==> got == [] && [] + first.value == first.value;
      RestFits(content, s.pos);
      assert |got + o.data| <= |Rest(content, s.pos)|;
      assert (got + o.data + s'.body.value)[..|got + o.data|] == got + o.data;
    }
  }

  lemma RestFits(content: Bytes, pos: nat)
    ensures pos + |Rest(content, pos)| == if pos <= |content| then |content| else pos
  {
  }

  /** Seeks first, then reads in chunks of any size, some of which may fail to connect: the bytes handed out
      are content[s..] from the start, the position is s plus their number, and the end of the file is
      reported exactly when the position is at or past it. */
  lemma SeekThenRead(content: Bytes, ranges: bool, seeks: seq<Call>, chunks: seq<Call>)
    requires Seeks(seeks) && Reads(chunks) && |content| < LIMIT
    requires var s := Run(content, ranges, START, seeks).0; s.pos < LIMIT && AsksForRest(content, ranges, s)
    ensures var s := Run(content, ranges, START, seeks).0;
      var (now, log) := Run(content, ranges, s, chunks);
      && s.pos >= 0
      && now.pos == s.pos + |Delivered(log)|
      && Delivered(log) <= Rest(content, s.pos)
      && (log != [] && log[|log| - 1].Got? ==> (log[|log| - 1].eof <==> now.pos >= |content|))
  {
    hide FirstBody, AsksForRest;
    SeeksOnly(content, ranges, seeks);
    var s := Run(content, ranges, START, seeks).0;
    ReadsInOrder(content, ranges, s, chunks);
    if chunks != [] {
      var front, call := chunks[..|chunks| - 1], chunks[|chunks| - 1];
      assert forall c :: c in front ==> c in chunks;
      assert call in chunks;
      ReadsInOrder(content, ranges, s, front);
      FirstBodyIsRest(content, ranges, s);
      var before := Run(content, ranges, s, front);
      ReadOn(content, ranges, s, before.0, Delivered(before.1), call);
    }
  }

  /** A position that a seek asks for, now being the one before. */
  predicate SeeksTo(now: int, size: nat, offset: int, whence: Whence, at: int) {
    || (whence == SeekStart && at == offset)
    || (whence == SeekCurrent && at == now + offset)
    || (whence == SeekEnd && at == size + offset)
  }

  /** Whatever was sought before, after seeking to a place reads hand out the file from there: eager ones, enough
      of them, all of it. */
  lemma SoughtThenRead(content: Bytes, ranges: bool, seeks: seq<Call>, offset: int, whence: Whence, at: nat,
                       chunks: seq<Call>)
    requires Seeks(seeks) && Reads(chunks) && |content| < LIMIT && at < LIMIT
    requires SeeksTo(Run(content, ranges, START, seeks).0.pos, |content|, offset, whence, at)
    requires if at == 0 then !ranges || |content| <= 1 else ranges || content == []
    ensures var (s, answers) := Run(content, ranges, START, seeks + [Call.Seek(offset, whence)]);
      var (now, log) := Run(content, ranges, s, chunks);
      var rest := if at <= |content| then content[at..] else [];
      && answers[|answers| - 1] == Moved(at)
      && now.pos == at + |Delivered(log)| && Delivered(log) <= rest
      && ((forall c :: c in chunks ==> Eager(c)) && |chunks| > 0 && |chunks| >= |rest| ==> Delivered(log) == rest)
  {
    hide Run, Delivered, Eager, Reads;
    var calls := seeks + [Call.Seek(offset, whence)];
    assert calls[..|calls| - 1] == seeks;
    SeeksOnly(content, ranges, seeks);
    RunSnoc(content, ranges, START, calls);
    var s := Run(content, ranges, START, calls).0;
    assert s == State(at, true, None);
    SeekThenRead(content, ranges, calls, chunks);
    if forall c :: c in chunks ==> Eager(c) {
      ReadsToTheEnd(content, ranges, s, chunks);
    }
  }

  /** A read that gets through and has something to give, while there is something. */
  predicate Eager(call: Call) {
    call.Read? && call.up && call.room > 0 && call.ready > 0
  }

  /** An eager read gives a byte if there is one left, and then tells whether it was the last. */
  lemma EagerRead(content: Bytes, ranges: bool, s: State, now: State, got: Bytes, call: Call)
    requires Eager(call) && s.body.None? && 0 <= s.pos < LIMIT && |content| < LIMIT
    requires now.pos == s.pos + |got| && now.seeked == s.seeked && got <= Rest(content, s.pos)
    requires now.body.None? ==> now == s
    requires now.body.Some? ==> got + now.body.value == Rest(content, s.pos)
    requires match FirstBody(content, ranges, s)
             case None => s.pos >= |content|
             case Some(body) => body == Rest(content, s.pos)
    ensures var step := Do(content, ranges, now, call);
      && step.1.Got?
      && |got| + |step.1.data| >= (if |got| < |Rest(content, s.pos)| then |got| + 1 else |got|)
      && (step.1.eof <==> step.0.pos >= |content|)
  {
    hide FirstBody, TakeFrom, Rest;
    RestFits(content, s.pos);
    var first := FirstBody(content, ranges, s);
    if now.body.Some? || first.Some? {
      Taken(if now.body.Some? then now else s.(body := first), |content|, call.room, call.ready);
    }
  }

  lemma EagerReads(calls: seq<Call>)
    requires forall c :: c in calls ==> Eager(c)
    ensures Reads(calls) && (calls != [] ==> Reads(calls[..|calls| - 1]))
  {
    assert calls != [] ==> forall c :: c in calls[..|calls| - 1] ==> c in calls;
  }

  /** Eager reads, one for every byte left, or one if nothing is left, come to the end with everything handed out. */
  lemma {:induction false} ReadsToTheEnd(content: Bytes, ranges: bool, s: State, calls: seq<Call>)
    requires s.body.None? && 0 <= s.pos < LIMIT && |content| < LIMIT && AsksForRest(content, ranges, s)
    requires forall c :: c in calls ==> Eager(c)
    ensures var log := Run(content, ranges, s, calls).1;
      && |Delivered(log)| >= (if |calls| < |Rest(content, s.pos)| then |calls| else |Rest(content, s.pos)|)
      && (|calls| > 0 && |calls| >= |Rest(content, s.pos)| ==>
            Delivered(log) == Rest(content, s.pos) && log[|log| - 1].Got? && log[|log| - 1].eof)
    decreases |calls|
  {
    hide FirstBody, AsksForRest, Rest, Do, Eager, Reads, Delivered, Run;
    RunStarts(content, ranges, s);
    if calls != [] {
      EagerReads(calls);
      var front, call := calls[..|calls| - 1], calls[|calls| - 1];
      assert call in calls;
      ReadsToTheEnd(content, ranges, s, front);
      ReadsInOrder(content, ranges, s, front);
      ReadsInOrder(content, ranges, s, calls);
      FirstBodyIsRest(content, ranges, s);
      var before := Run(content, ranges, s, front);
      var step := Do(content, ranges, before.0, call);
      RunSnoc(content, ranges, s, calls);
      DeliveredSnoc(before.1, step.1);
      EagerRead(content, ranges, s, before.0, Delivered(before.1), call);
      RestFits(content, s.pos);
    }
  }

  lemma RunStarts(content: Bytes, ranges: bool, s: State)
    ensures Run(content, ranges, s, []) == (s, []) && Delivered([]) == []
  {
  }

  lemma RunSnoc(content: Bytes, ranges: bool, s: State, calls: seq<Call>)
    requires calls != []
    ensures var before := Run(content, ranges, s, calls[..|calls| - 1]);
      var step := Do(content, ranges, before.0, calls[|calls| - 1]);
      Run(content, ranges, s, calls) == (step.0, before.1 + [step.1])
  {
    hide Do;
  }

  /** What is left of the one byte. */
  predicate OneByteLeft(now: State, got: Bytes) {
    now.seeked && now.pos == |got| && match now.body case None => got == [] case Some(body) => |got| + |body| == 1
  }

  lemma OneByteStep(content: Bytes, now: State, got: Bytes, call: Call)
    requires |content| > 1 && call.Read? && OneByteLeft(now, got)
    ensures var (s', o) := Do(content, true, now, call);
      && OneByteLeft(s', got + if o.Got? then o.data else [])
      && (o.Got? ==> !o.eof)
  {
    hide TakeFrom;
    if now.body.None? {
      assert FirstBody(content, true, now) == Some(content[0..1]);
      Taken(now.(body := Some(content[0..1])), |content|, call.room, call.ready);
    } else {
      Taken(now, |content|, call.room, call.ready);
    }
  }

  /** After seeking to 0 the range asked for is 0 to 0: of a longer file one byte is handed out at most, and
      the end is never reported. */
  lemma {:induction false} OneByteAfterSeekToZero(content: Bytes, calls: seq<Call>)
    requires Reads(calls) && |content| > 1
    ensures var (now, log) := Run(content, true, State(0, true, None), calls);
      && OneByteLeft(now, Delivered(log))
      && |Delivered(log)| <= 1
      && forall i :: 0 <= i < |log| && log[i].Got? ==> !log[i].eof
    decreases |calls|
  {
    hide Do, OneByteLeft;
    var s := State(0, true, None);
    if calls == [] {
      OneByteStart(s);
    } else {
      var front, call := calls[..|calls| - 1], calls[|calls| - 1];
      assert forall c :: c in front ==> c in calls;
      assert call in calls;
      OneByteAfterSeekToZero(content, front);
      var (now, log) := Run(content, true, s, front);
      DeliveredSnoc(log, Do(content, true, now, call).1);
      OneByteStep(content, now, Delivered(log), call);
      OneByteAtMost(Do(content, true, now, call).0, Delivered(log + [Do(content, true, now, call).1]));
    }
  }

  lemma OneByteStart(s: State)
    requires s == State(0, true, None)
    ensures OneByteLeft(s, [])
  {
  }

  lemma OneByteAtMost(now: State, got: Bytes)
    requires OneByteLeft(now, got)
    ensures |got| <= 1
  {
  }
}
