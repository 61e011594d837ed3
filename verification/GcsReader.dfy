/** The bootserver's GCS reader: random access on top of a stream that can only be read forwards,
    skipping ahead or reopening the object as needed. */
module GcsReader {
  import opened Common

  datatype Err = Nil | Eof | UnexpectedEof | Broken

  /** What one Read of the stream does: at most `n` bytes, then possibly a failure; the end of the
      object may be reported with its last bytes or only afterwards. */
  datatype ReadStep = ReadStep(n: nat, broken: bool, eofAtOnce: bool)

  /** The bytes handed over, and the error reported with them. */
  datatype Answer = Answer(bytes: seq<byte>, err: Err)

  // ------------------------------------------------------------------ the stream

  /** A range reader on an object. When `script` is used up the connection is gone. */
  datatype StreamState = StreamState(obj: seq<byte>, pos: nat, open: bool, script: seq<ReadStep>)

  predicate InRange(s: StreamState) {
    s.pos <= |s.obj|
  }

  function ReadOnce(s: StreamState, count: nat): (StreamState, Answer)
    requires InRange(s)
  {
    if !s.open || s.script == [] then (s, Answer([], Broken))
    else
      var step := s.script[0];
      var k := Min(step.n, Min(count, |s.obj| - s.pos));
      var t := s.(pos := s.pos + k, script := s.script[1..]);
      var err := if step.broken then Broken
                 else if t.pos == |s.obj| && (k == 0 || step.eofAtOnce) then Eof
                 else Nil;
      (t, Answer(s.obj[s.pos..t.pos], err))
  }

  /** io.ReadAtLeast with the minimum equal to the buffer's length: reads until there are `count`
      bytes or an error. */
  function Full(s: StreamState, count: nat): (StreamState, Answer)
    requires InRange(s)
  {
    FullFrom(s, count, [])
  }

  function FullFrom(s: StreamState, count: nat, got: seq<byte>): (StreamState, Answer)
    requires InRange(s) && |got| <= count
    decreases |s.script|
  {
    if |got| == count then (s, Answer(got, Nil))
    else
      var (t, a) := ReadOnce(s, count - |got|);
      var all := got + a.bytes;
      if |all| == count then (t, Answer(all, Nil))
      else if a.err == Nil then FullFrom(t, count, all)
      else (t, Answer(all, if a.err == Eof && all != [] then UnexpectedEof else a.err))
  }

  /** The bytes are those that follow the position; they are all there exactly if there is no error;
      the end of the object is reported only there. */
  ghost predicate Follows(s: StreamState, count: nat, t: StreamState, a: Answer)
    requires InRange(s)
  {
    && t.obj == s.obj && t.open == s.open && s.pos <= t.pos <= |s.obj| && a.bytes == s.obj[s.pos..t.pos]
    && |a.bytes| <= count && (a.err == Nil <==> |a.bytes| == count)
    && (a.err == Eof ==> a.bytes == [] && t.pos == |s.obj|)
    && (a.err == UnexpectedEof ==> a.bytes != [] && t.pos == |s.obj|)
  }

  lemma Slices(obj: seq<byte>, i: nat, j: nat, k: nat)
    requires i <= j <= k <= |obj|
    ensures obj[i..j] + obj[j..k] == obj[i..k]
  {
  }

  lemma {:induction false} FullFromFollows(s: StreamState, u: StreamState, count: nat, got: seq<byte>)
    requires InRange(s) && InRange(u) && u.obj == s.obj && u.open == s.open && s.pos <= u.pos
    requires got == s.obj[s.pos..u.pos] && |got| <= count
    ensures var (t, a) := FullFrom(u, count, got); Follows(s, count, t, a)
    decreases |u.script|
  {
    if |got| < count {
      var (t, a) := ReadOnce(u, count - |got|);
      Slices(s.obj, s.pos, u.pos, t.pos);
      FullStep(u, count, got);
      if |got + a.bytes| < count && a.err == Nil {
        FullFromFollows(s, t, count, got + a.bytes);
      }
    }
  }

  lemma FullFollows(s: StreamState, count: nat)
    requires InRange(s)
    ensures var (t, a) := Full(s, count); Follows(s, count, t, a)
  {
    FullFromFollows(s, s, count, []);
  }

  /** No read is broken, and none comes back empty-handed before the end of the object. */
  predicate Steady(script: seq<ReadStep>) {
    forall i :: 0 <= i < |script| ==> !script[i].broken && script[i].n > 0
  }

  /** On an open stream with enough steady reads to come nothing breaks, and no more reads are used
      than bytes are read, and one. */
  lemma {:induction false} SteadyFull(s: StreamState, count: nat, got: seq<byte>)
    requires InRange(s) && |got| <= count && s.open && Steady(s.script) && |s.script| > count - |got|
    ensures var (t, a) := FullFrom(s, count, got);
            a.err != Broken && t.open && Steady(t.script) && |t.script| + count - |got| + 1 >= |s.script|
    decreases |s.script|
  {
    if |got| < count {
      var (t, a) := ReadOnce(s, count - |got|);
      if |got + a.bytes| < count && a.err == Nil {
        SteadyFull(t, count, got + a.bytes);
      }
    }
  }

  /** A closed stream breaks exactly if anything is to be read, and stays as it is. */
  lemma ClosedFull(s: StreamState, count: nat)
    requires InRange(s) && !s.open
    ensures Full(s, count) == (s, Answer([], if count > 0 then Broken else Nil))
  {
  }

  // ------------------------------------------------------------------ random access

  /** A stateless read of the object: the bytes at `offset`, as far as the object goes. */
  function RandomRead(obj: seq<byte>, offset: nat, count: nat): (bytes: seq<byte>)
    ensures |bytes| <= count && (|bytes| < count ==> offset + count > |obj|)
  {
    obj[Min(offset, |obj|)..Min(offset + count, |obj|)]
  }

  /** What a caller may conclude from a result: the bytes are those at the offset, the buffer is only
      left short together with an error, and without a broken connection the result is that of a
      stateless read. */
  predicate Correct(obj: seq<byte>, offset: nat, count: nat, a: Answer) {
    && a.bytes <= RandomRead(obj, offset, count)
    && (a.err == Nil ==> |a.bytes| == count)
    && (a.bytes != [] && |a.bytes| == count ==> a.err == Nil)
    && (a.err != Broken ==> a.bytes == RandomRead(obj, offset, count))
    && (a.err == Eof ==> offset + |a.bytes| >= |obj|)
    && a.err != UnexpectedEof
  }

  /** How an attempt to open the object at an offset goes. */
  datatype Opening = Opening(fails: bool, script: seq<ReadStep>)

  datatype Call = Call(offset: nat, count: nat, opening: Opening)

  /** The reader: no stream yet, or one whose position the index is. */
  type Reader = Option<StreamState>

  predicate IsReader(obj: seq<byte>, g: Reader) {
    g.Some? ==> InRange(g.value) && g.value.obj == obj
  }

  /** The call cannot be answered by reading on. */
  predicate Anew(g: Reader, call: Call) {
    g.None? || call.offset < g.value.pos
  }

  predicate Opens(obj: seq<byte>, call: Call) {
    !call.opening.fails && call.offset <= |obj|
  }

  /** A stream that is left behind is closed, and kept if opening another one fails. */
  function Closed(g: Reader): Reader {
    if g.None? then g else Some(g.value.(open := false))
  }

  /** Reads up to the offset, to throw the bytes away. */
  function Skip(s: StreamState, offset: nat): (StreamState, Answer)
    requires InRange(s) && s.pos <= offset
  {
    if offset > s.pos then Full(s, offset - s.pos) else (s, Answer([], Nil))
  }

  /** The skip gets to the offset, or to the end of the object before it; or it breaks. */
  lemma SkipEnds(s: StreamState, offset: nat)
    requires InRange(s) && s.pos <= offset
    ensures var (t, a) := Skip(s, offset);
            && t.obj == s.obj && t.open == s.open && InRange(t)
            && (a.err == Nil ==> t.pos == offset)
            && (a.err == Eof || a.err == UnexpectedEof ==> t.pos == |s.obj| < offset)
            && (a.err == Broken ==> t.pos < offset)
  {
    FullFollows(s, offset - s.pos);
  }

  function ReadOn(s: StreamState, offset: nat, count: nat): (StreamState, Answer)
    requires InRange(s) && s.pos <= offset
    ensures ReadOn(s, offset, count).0.obj == s.obj && InRange(ReadOn(s, offset, count).0)
  {
    SkipEnds(s, offset);
    var (t, skipped) := Skip(s, offset);
    if skipped.err != Nil && skipped.err != UnexpectedEof then (t, Answer([], skipped.err))
    else
      FullFollows(t, count);
      var (u, a) := Full(t, count);
      (u, a.(err := if a.err == UnexpectedEof then Eof else a.err))
  }

  function At(obj: seq<byte>, g: Reader, call: Call): (Reader, Answer)
    requires IsReader(obj, g)
    ensures IsReader(obj, At(obj, g, call).0)
  {
    if Anew(g, call) && !Opens(obj, call) then (Closed(g), Answer([], Broken))
    else
      var s := if Anew(g, call) then StreamState(obj, call.offset, true, call.opening.script) else g.value;
      var (t, a) := ReadOn(s, call.offset, call.count);
      (Some(t), a)
  }

  lemma ReadOnCorrect(s: StreamState, offset: nat, count: nat)
    requires InRange(s) && s.pos <= offset
    ensures var (t, a) := ReadOn(s, offset, count); Correct(s.obj, offset, count, a) && t.open == s.open
  {
    SkipEnds(s, offset);
    var (t, skipped) := Skip(s, offset);
    if skipped.err == Nil || skipped.err == UnexpectedEof {
      FullFollows(t, count);
      var a := Full(t, count).1;
      ReadCorrect(s.obj, offset, count, t.pos, a.(err := if a.err == UnexpectedEof then Eof else a.err));
    } else {
      ReadCorrect(s.obj, offset, count, t.pos, Answer([], skipped.err));
    }
  }

  /** A read that starts at the offset, or at the end of the object if that comes first. */
  lemma ReadCorrect(obj: seq<byte>, offset: nat, count: nat, start: nat, a: Answer)
    requires start + |a.bytes| <= |obj| && a.bytes == obj[start..start + |a.bytes|] && |a.bytes| <= count
    requires start == offset || (start < offset && (start == |obj| || (a.bytes == [] && a.err == Broken)))
    requires a.err == Nil ==> |a.bytes| == count
    requires a.bytes != [] && |a.bytes| == count ==> a.err == Nil
    requires a.err == Eof ==> start + |a.bytes| == |obj|
    requires a.err != UnexpectedEof
    ensures Correct(obj, offset, count, a)
  {
  }

  /** For every state of the reader and every call: the answer is one a caller can rely on. */
  lemma AtCorrect(obj: seq<byte>, g: Reader, call: Call)
    requires IsReader(obj, g)
    ensures Correct(obj, call.offset, call.count, At(obj, g, call).1)
  {
    if !(Anew(g, call) && !Opens(obj, call)) {
      var s := if Anew(g, call) then StreamState(obj, call.offset, true, call.opening.script) else g.value;
      ReadOnCorrect(s, call.offset, call.count);
    }
  }

  /** The reader has an open stream after a call exactly if the call opened one, or read on from one. */
  lemma OpenIff(obj: seq<byte>, g: Reader, call: Call)
    requires IsReader(obj, g)
    ensures var h := At(obj, g, call).0;
            (h.Some? && h.value.open) <==> if Anew(g, call) then Opens(obj, call) else g.value.open
  {
    if !(Anew(g, call) && !Opens(obj, call)) {
      var s := if Anew(g, call) then StreamState(obj, call.offset, true, call.opening.script) else g.value;
      ReadOnCorrect(s, call.offset, call.count);
    }
  }

  /** `rest` is what is left of the reads of a connection. */
  ghost predicate LeftOf(script: seq<ReadStep>, rest: seq<ReadStep>) {
    |rest| <= |script| && rest == script[|script| - |rest|..]
  }

  lemma {:induction false} FullUses(s: StreamState, count: nat, got: seq<byte>)
    requires InRange(s) && |got| <= count
    ensures LeftOf(s.script, FullFrom(s, count, got).0.script)
    decreases |s.script|
  {
    if |got| < count {
      var (t, a) := ReadOnce(s, count - |got|);
      if |got + a.bytes| < count && a.err == Nil {
        FullUses(t, count, got + a.bytes);
        LeftAgain(s.script, t.script, FullFrom(t, count, got + a.bytes).0.script);
      }
    }
  }

  lemma LeftAgain(script: seq<ReadStep>, rest: seq<ReadStep>, more: seq<ReadStep>)
    requires LeftOf(script, rest) && LeftOf(rest, more)
    ensures LeftOf(script, more)
  {
    assert rest[|rest| - |more|..] == script[|script| - |more|..];
  }

  lemma ReadOnUses(s: StreamState, offset: nat, count: nat)
    requires InRange(s) && s.pos <= offset
    ensures LeftOf(s.script, ReadOn(s, offset, count).0.script)
  {
    SkipEnds(s, offset);
    var (t, skipped) := Skip(s, offset);
    FullUses(s, offset - s.pos, []);
    FullUses(t, count, []);
    LeftAgain(s.script, t.script, Full(t, count).0.script);
  }

  /** Reading at or after the position stays with the connection there is; reading before it, or for the first
      time, takes a new one, and fails without a byte if there is none to be had. */
  lemma ForwardReadsOn(obj: seq<byte>, g: Reader, call: Call)
    requires IsReader(obj, g)
    ensures var (h, a) := At(obj, g, call);
            if g.Some? && g.value.pos <= call.offset then h.Some? && LeftOf(g.value.script, h.value.script)
            else if call.opening.fails || call.offset > |obj| then a == Answer([], Broken)
            else h.Some? && LeftOf(call.opening.script, h.value.script)
  {
    if g.Some? && g.value.pos <= call.offset {
      ReadOnUses(g.value, call.offset, call.count);
    } else if !call.opening.fails && call.offset <= |obj| {
      ReadOnUses(StreamState(obj, call.offset, true, call.opening.script), call.offset, call.count);
    }
  }

  /** The reads of which the call is answered. */
  function Script(g: Reader, call: Call): seq<ReadStep> {
    if Anew(g, call) then call.opening.script else g.value.script
  }

  /** Bytes to be skipped. */
  function Gap(g: Reader, call: Call): nat {
    if Anew(g, call) then 0 else call.offset - g.value.pos
  }

  lemma SteadyReadOn(s: StreamState, offset: nat, count: nat)
    requires InRange(s) && s.pos <= offset && s.open && Steady(s.script)
    requires |s.script| > offset - s.pos + count + 1
    ensures var (t, a) := ReadOn(s, offset, count);
            a.err != Broken && t.open && Steady(t.script) && |t.script| + (offset - s.pos) + count + 2 >= |s.script|
  {
    SkipEnds(s, offset);
    SteadySkip(s, offset);
    var (t, skipped) := Skip(s, offset);
    if skipped.err == Nil || skipped.err == UnexpectedEof {
      SteadyFull(t, count, []);
    }
  }

  lemma SteadySkip(s: StreamState, offset: nat)
    requires InRange(s) && s.pos <= offset && s.open && Steady(s.script) && |s.script| > offset - s.pos
    ensures var (t, a) := Skip(s, offset);
            a.err != Broken && t.open && Steady(t.script) && |t.script| + (offset - s.pos) + 1 >= |s.script|
  {
    SteadyFull(s, offset - s.pos, []);
  }

  /** Where the object can be opened if need be, or the stream is open, and the reads to come are steady
      and enough for what is skipped and read, the answer is that of a stateless read. */
  lemma SteadyAt(obj: seq<byte>, g: Reader, call: Call)
    requires IsReader(obj, g)
    requires if Anew(g, call) then Opens(obj, call) else g.value.open
    requires Steady(Script(g, call)) && |Script(g, call)| > Gap(g, call) + call.count + 1
    ensures var (h, a) := At(obj, g, call);
            && a.err != Broken && a.bytes == RandomRead(obj, call.offset, call.count)
            && h.Some? && h.value.open && Steady(h.value.script)
            && |h.value.script| + Gap(g, call) + call.count + 2 >= |Script(g, call)|
  {
    var s := if Anew(g, call) then StreamState(obj, call.offset, true, call.opening.script) else g.value;
    SteadyReadOn(s, call.offset, call.count);
    AtCorrect(obj, g, call);
  }

  /** A closed stream answers every forward read that has anything to read with a failure, and stays. */
  lemma ClosedAt(obj: seq<byte>, g: Reader, call: Call)
    requires IsReader(obj, g) && !Anew(g, call) && !g.value.open
    ensures At(obj, g, call) ==
            (g, Answer([], if call.offset > g.value.pos || call.count > 0 then Broken else Nil))
  {
    ClosedFull(g.value, call.offset - g.value.pos);
    ClosedFull(g.value, call.count);
  }

  // ------------------------------------------------------------------ sequences of calls

  function Calls(obj: seq<byte>, g: Reader, calls: seq<Call>): seq<Answer>
    requires IsReader(obj, g)
    decreases |calls|
  {
    if calls == [] then []
    else
      var (h, a) := At(obj, g, calls[0]);
      [a] + Calls(obj, h, calls[1..])
  }

  /** After any sequence of calls every answer is one a caller can rely on. */
  lemma {:induction false} CallsCorrect(obj: seq<byte>, g: Reader, calls: seq<Call>, i: nat)
    requires IsReader(obj, g) && i < |calls|
    ensures |Calls(obj, g, calls)| == |calls|
    ensures Correct(obj, calls[i].offset, calls[i].count, Calls(obj, g, calls)[i])
    decreases |calls|
  {
    var h := At(obj, g, calls[0]).0;
    if i == 0 {
      AtCorrect(obj, g, calls[0]);
      if |calls| > 1 {
        CallsCorrect(obj, h, calls[1..], 0);
      }
    } else {
      CallsCorrect(obj, h, calls[1..], i - 1);
    }
  }

  /** The reads that the calls can need. */
  function Need(calls: seq<Call>): nat {
    if calls == [] then 0 else calls[0].offset + calls[0].count + 2 + Need(calls[1..])
  }

  /** Every attempt to open the object succeeds, with steady reads that last for the rest of the calls. */
  ghost predicate Healthy(obj: seq<byte>, calls: seq<Call>)
    decreases |calls|
  {
    calls != [] ==>
      && Opens(obj, calls[0]) && Steady(calls[0].opening.script) && |calls[0].opening.script| >= Need(calls)
      && Healthy(obj, calls[1..])
  }

  ghost predicate Lasts(g: Reader, calls: seq<Call>) {
    g.Some? ==> g.value.open && Steady(g.value.script) && |g.value.script| >= Need(calls)
  }

  /** On a healthy connection every call of any sequence, with any offsets and lengths, is answered
      exactly as by a stateless read. */
  lemma {:induction false} HealthyCalls(obj: seq<byte>, g: Reader, calls: seq<Call>, i: nat)
    requires IsReader(obj, g) && i < |calls| && Healthy(obj, calls) && Lasts(g, calls)
    ensures |Calls(obj, g, calls)| == |calls|
    ensures var a := Calls(obj, g, calls)[i];
            a.err != Broken && a.bytes == RandomRead(obj, calls[i].offset, calls[i].count)
    decreases |calls|
  {
    var h := At(obj, g, calls[0]).0;
    CallsCorrect(obj, g, calls, i);
    SteadyAt(obj, g, calls[0]);
    if i > 0 {
      HealthyCalls(obj, h, calls[1..], i - 1);
    }
  }

  /** Three calls on a healthy object, of which the second cannot reopen it: the third only reads on,
      and is answered from the stream closed by the second. */
  lemma FailedReopeningStays()
    ensures var obj: seq<byte> := seq(16, _ => 0);
            var steps := seq(32, _ => ReadStep(16, false, false));
            var calls := [Call(4, 1, Opening(false, steps)), Call(0, 1, Opening(true, [])), Call(8, 1, Opening(false, steps))];
            var answers := Calls(obj, None, calls);
            |answers| == 3 && answers[0] == Answer([0], Nil) && answers[1].err == Broken && answers[2] == Answer([], Broken)
  {
    var obj: seq<byte> := seq(16, _ => 0);
    var steps := seq(32, _ => ReadStep(16, false, false));
    var calls := [Call(4, 1, Opening(false, steps)), Call(0, 1, Opening(true, [])), Call(8, 1, Opening(false, steps))];
    var (g, a) := At(obj, None, calls[0]);
    var s := StreamState(obj, 4, true, steps);
    assert ReadOnce(s, 1) == (s.(pos := 5, script := steps[1..]), Answer(obj[4..5], Nil));
    assert [] + obj[4..5] == [0];
    assert g == Some(s.(pos := 5, script := steps[1..])) && a == Answer([0], Nil);
    var h := Some(g.value.(open := false));
    assert At(obj, g, calls[1]) == (h, Answer([], Broken));
    ClosedAt(obj, h, calls[2]);
    var rest := calls[1..];
    assert rest == [calls[1], calls[2]] && rest[1..] == [calls[2]] && [calls[2]][1..] == [];
    assert Calls(obj, h, [calls[2]]) == [Answer([], Broken)];
    assert Calls(obj, g, rest) == [Answer([], Broken)] + Calls(obj, h, rest[1..]);
    assert Calls(obj, None, calls) == [a] + Calls(obj, g, rest);
  }

  // ------------------------------------------------------------------ the objects

  class Stream {
    const obj: seq<byte>
    var pos: nat
    var open: bool
    var script: seq<ReadStep>

    ghost predicate Valid()
      reads this
    {
      pos <= |obj|
    }

    ghost function View(): StreamState
      reads this
    {
      StreamState(obj, pos, open, script)
    }

    constructor (obj: seq<byte>, pos: nat, script: seq<ReadStep>)
      requires pos <= |obj|
      ensures Valid() && View() == StreamState(obj, pos, true, script)
    {
      this.obj := obj;
      this.pos := pos;
      this.script := script;
      open := true;
    }

    method Read(count: nat) returns (bytes: seq<byte>, err: Err)
      requires Valid()
      modifies this`pos, this`script
      ensures Valid() && (View(), Answer(bytes, err)) == ReadOnce(old(View()), count)
    {
      if !open || script == [] {
        return [], Broken;
      }
      var step := script[0];
      script := script[1..];
      var k := Min(step.n, Min(count, |obj| - pos));
      bytes := obj[pos..pos + k];
      pos := pos + k;
      if step.broken {
        err := Broken;
      } else if pos == |obj| && (k == 0 || step.eofAtOnce) {
        err := Eof;
      } else {
        err := Nil;
      }
    }
  }

  method ReadFull(r: Stream, count: nat) returns (bytes: seq<byte>, err: Err)
    requires r.Valid()
    modifies r`pos, r`script
    ensures r.Valid() && (r.View(), Answer(bytes, err)) == Full(old(r.View()), count)
  {
    bytes, err := [], Nil;
    ghost var whole := Full(r.View(), count);
    while |bytes| < count && err == Nil
      invariant r.Valid() && |bytes| <= count
      invariant whole == Onwards(r.View(), count, Answer(bytes, err))
      decreases |r.script|, err == Nil
    {
      FullStep(r.View(), count, bytes);
      ghost var got := bytes;
      var more;
      more, err := r.Read(count - |bytes|);
      bytes := bytes + more;
      assert bytes == got + more;
    }
    if |bytes| >= count {
      err := Nil;
    } else if bytes != [] && err == Eof {
      err := UnexpectedEof;
    }
  }

  function Outcome(bytes: seq<byte>, err: Err, count: nat): Answer {
    Answer(bytes, if |bytes| >= count then Nil else if bytes != [] && err == Eof then UnexpectedEof else err)
  }

  /** What reading comes to from here, with so much read and that error. */
  function Onwards(s: StreamState, count: nat, a: Answer): (StreamState, Answer)
    requires InRange(s) && |a.bytes| <= count
  {
    if a.err == Nil && |a.bytes| < count then FullFrom(s, count, a.bytes) else (s, Outcome(a.bytes, a.err, count))
  }

  lemma FullStep(s: StreamState, count: nat, got: seq<byte>)
    requires InRange(s) && |got| < count
    ensures var (t, a) := ReadOnce(s, count - |got|);
            var all := got + a.bytes;
            FullFrom(s, count, got) == Onwards(t, count, Answer(all, a.err))
  {
  }

  class GcsObjectReader {
    const obj: seq<byte>
    var reader: Stream?
    var index: nat

    /** `index` is the stream's true position. */
    ghost predicate Valid()
      reads this, reader
    {
      reader != null ==> reader.Valid() && reader.obj == obj && reader.pos == index
    }

    ghost function View(): Reader
      reads this, reader
    {
      if reader == null then None else Some(reader.View())
    }

    constructor (obj: seq<byte>)
      ensures Valid() && this.obj == obj && View() == None && reader == null
    {
      this.obj := obj;
      reader := null;
      index := 0;
    }

    /** Reads on from an open stream at or before the offset. */
    method Continue(count: nat, offset: nat) returns (bytes: seq<byte>, err: Err)
      requires Valid() && reader != null && index <= offset
      modifies this`index, reader
      ensures Valid() && (reader.View(), Answer(bytes, err)) == ReadOn(old(reader.View()), offset, count)
    {
      SkipEnds(reader.View(), offset);
      FullFollows(reader.View(), offset - index);
      if offset > index {
        var skipped;
        skipped, err := ReadFull(reader, offset - index);
        index := index + |skipped|;
        if err != Nil && err != UnexpectedEof {
          return [], err;
        }
      }
      FullFollows(reader.View(), count);
      bytes, err := ReadFull(reader, count);
      index := index + |bytes|;
      if err == UnexpectedEof {
        err := Eof;
      }
    }

    method ReadAt(count: nat, offset: nat, opening: Opening) returns (bytes: seq<byte>, err: Err)
      requires Valid()
      modifies this, reader
      ensures Valid() && (reader != null ==> reader == old(reader) || fresh(reader))
      ensures (View(), Answer(bytes, err)) == At(obj, old(View()), Call(offset, count, opening))
      ensures Correct(obj, offset, count, Answer(bytes, err))
    {
      AtCorrect(obj, View(), Call(offset, count, opening));
      if reader == null || offset < index {
        if reader != null {
          reader.open := false;
        }
        if opening.fails || offset > |obj| {
          return [], Broken;
        }
        reader := new Stream(obj, offset, opening.script);
        index := offset;
      }
      bytes, err := Continue(count, offset);
    }
  }

  /** Any sequence of calls, in any order of offsets, is answered as the specification says; by a stateless
      read if the connection is healthy. */
  method ReadMany(obj: seq<byte>, calls: seq<Call>) returns (answers: seq<Answer>)
    ensures answers == Calls(obj, None, calls)
    ensures |answers| == |calls|
    ensures forall i :: 0 <= i < |calls| ==> Correct(obj, calls[i].offset, calls[i].count, answers[i])
    ensures Healthy(obj, calls) ==>
              forall i :: 0 <= i < |calls| ==>
                answers[i].err != Broken && answers[i].bytes == RandomRead(obj, calls[i].offset, calls[i].count)
  {
    var g := new GcsObjectReader(obj);
    answers := [];
    assert calls[0..] == calls;
    for i := 0 to |calls|
      invariant g.Valid() && fresh(g) && g.obj == obj && (g.reader != null ==> fresh(g.reader))
      invariant IsReader(obj, g.View()) && answers + Calls(obj, g.View(), calls[i..]) == Calls(obj, None, calls)
    {
      assert calls[i..][1..] == calls[i + 1..];
      ghost var (h, a) := At(obj, g.View(), calls[i]);
      Assoc(answers, [a], Calls(obj, h, calls[i + 1..]));
      var bytes, err := g.ReadAt(calls[i].count, calls[i].offset, calls[i].opening);
      answers := answers + [Answer(bytes, err)];
    }
    assert calls[|calls|..] == [];
    AllAnswered(obj, calls);
  }

  lemma AllAnswered(obj: seq<byte>, calls: seq<Call>)
    ensures var answers := Calls(obj, None, calls);
            && |answers| == |calls|
            && (forall i :: 0 <= i < |calls| ==> Correct(obj, calls[i].offset, calls[i].count, answers[i]))
            && (Healthy(obj, calls) ==>
                  forall i :: 0 <= i < |calls| ==>
                    answers[i].err != Broken && answers[i].bytes == RandomRead(obj, calls[i].offset, calls[i].count))
  {
    var answers := Calls(obj, None, calls);
    forall i | 0 <= i < |calls|
      ensures |answers| == |calls| && Correct(obj, calls[i].offset, calls[i].count, answers[i])
    {
      CallsCorrect(obj, None, calls, i);
    }
    if Healthy(obj, calls) {
      forall i | 0 <= i < |calls|
        ensures answers[i].err != Broken && answers[i].bytes == RandomRead(obj, calls[i].offset, calls[i].count)
      {
        HealthyCalls(obj, None, calls, i);
      }
    }
  }
}
