/** Body transfer under partial progress: the streamed response body, copied in chunks to a socket
    that takes what it likes, and the request body, read in blocks from a VMO and written out. */
module BodyTransfer {
  import opened Common

  // ------------------------------------------------------------------ streamed response body

  const TRANSFER_SIZE: nat := 64 * 1024

  /** What one call of the socket's write does: takes some bytes, says that it is full and becomes
      writable again (or does not), or fails. */
  datatype WriteResult = Wrote(n: nat) | ShouldWait(writable: bool) | WriteFailed

  /** Blocked: the wait for the socket does not end. */
  datatype Status = Ok | Failed | Blocked

  /** How sending some bytes ends: how many of them were taken, and what the socket has still to do. */
  datatype Sending = Sending(status: Status, sent: nat, rest: seq<WriteResult>)

  function Plus(k: nat, s: Sending): Sending {
    s.(sent := k + s.sent)
  }

  /** Sending `n` bytes, at least one, from one transfer buffer. */
  function Chunk(script: seq<WriteResult>, n: nat): Sending
    decreases |script|
  {
    if script == [] then Sending(Blocked, 0, [])
    else
      var rest := script[1..];
      match script[0]
      case WriteFailed => Sending(Failed, 0, rest)
      case ShouldWait(writable) => if writable then Chunk(rest, n) else Sending(Failed, 0, rest)
      case Wrote(most) => if most >= n then Sending(Ok, n, rest) else Plus(most, Chunk(rest, n - most))
  }

  /** Sending `n` bytes, one transfer buffer after the other. */
  function Body(script: seq<WriteResult>, n: nat): Sending
    decreases n
  {
    if n == 0 then Sending(Ok, 0, script)
    else
      var todo := Min(TRANSFER_SIZE, n);
      var c := Chunk(script, todo);
      if c.status != Ok then c else Plus(todo, Body(c.rest, n - todo))
  }

  /** Sending the pieces of a body as they come in. */
  function Pieces(script: seq<WriteResult>, pieces: seq<seq<byte>>): Sending
    decreases |pieces|
  {
    if pieces == [] then Sending(Ok, 0, script)
    else
      var c := Body(script, |pieces[0]|);
      if c.status != Ok then c else Plus(|pieces[0]|, Pieces(c.rest, pieces[1..]))
  }

  predicate Fails(w: WriteResult) {
    w == WriteFailed || w == ShouldWait(false)
  }

  /** The buffers, no bigger than `block`, that `n` bytes go through. */
  function Buffers(n: nat, block: nat): seq<nat>
    requires block > 0
  {
    if n == 0 then [] else [Min(block, n)] + Buffers(n - Min(block, n), block)
  }

  function PieceBuffers(pieces: seq<seq<byte>>): seq<nat> {
    if pieces == [] then [] else Buffers(|pieces[0]|, 0x1_0000) + PieceBuffers(pieces[1..])
  }

  function Sum(sizes: seq<nat>): nat {
    if sizes == [] then 0 else sizes[0] + Sum(sizes[1..])
  }

  /** What a call takes out of buffers of these sizes, the first of them in use: a write takes what it
      likes, but no more than is left of its buffer. */
  function Got(w: WriteResult, sizes: seq<nat>): nat {
    if sizes == [] || !w.Wrote? then 0 else Min(w.n, sizes[0])
  }

  /** What is left of the buffers after that. */
  function After(w: WriteResult, sizes: seq<nat>): seq<nat> {
    if sizes == [] then [] else if Got(w, sizes) == sizes[0] then sizes[1..]
    else [sizes[0] - Got(w, sizes)] + sizes[1..]
  }

  /** The bytes that the calls take altogether. */
  function Taken(calls: seq<WriteResult>, sizes: seq<nat>): nat {
    if calls == [] then 0 else Got(calls[0], sizes) + Taken(calls[1..], After(calls[0], sizes))
  }

  /** How sending the bytes in buffers of these sizes can end: what has been sent is what the calls made
      took; it is a success exactly if that is everything, and then every call made was needed; it
      fails exactly if the last call made failed, no call before that having failed; and it blocks only
      with all calls used up. */
  ghost predicate EndsWell(script: seq<WriteResult>, sizes: seq<nat>, s: Sending) {
    CallsEnd(script, s) && CountsEnd(script[..|script| - |s.rest|], sizes, s)
  }

  ghost predicate CallsEnd(script: seq<WriteResult>, s: Sending) {
    && LeavesOver(script, s.rest)
    && (s.status == Blocked ==> s.rest == [])
    && FailsLast(script, |script| - |s.rest|, s.status == Failed)
  }

  ghost predicate CountsEnd(calls: seq<WriteResult>, sizes: seq<nat>, s: Sending) {
    && s.sent == Taken(calls, sizes) <= Sum(sizes)
    && (s.status == Ok <==> s.sent == Sum(sizes)) && (s.status == Ok ==> Full(calls, sizes))
  }

  /** The calls take everything, and the last of them is needed for that. */
  ghost predicate Full(calls: seq<WriteResult>, sizes: seq<nat>) {
    Taken(calls, sizes) == Sum(sizes) && (calls != [] ==> Taken(calls[..|calls| - 1], sizes) < Sum(sizes))
  }

  ghost predicate Positive(sizes: seq<nat>) {
    forall i :: 0 <= i < |sizes| ==> sizes[i] > 0
  }

  /** `rest` is what is left of `script` after some calls. */
  ghost predicate LeavesOver(script: seq<WriteResult>, rest: seq<WriteResult>) {
    |rest| <= |script| && rest == script[|script| - |rest|..]
  }

  /** Of the first `used` calls none failed, except for the last one if `failed`. */
  ghost predicate FailsLast(script: seq<WriteResult>, used: nat, failed: bool)
    requires used <= |script|
  {
    && (failed ==> used > 0 && Fails(script[used - 1]))
    && (forall i :: 0 <= i < used && Fails(script[i]) ==> failed && i == used - 1)
  }

  // What the buffers and the calls amount to.

  lemma {:induction false} BuffersSum(n: nat, block: nat)
    requires block > 0
    ensures Sum(Buffers(n, block)) == n && Positive(Buffers(n, block))
    decreases n
  {
    if n > 0 {
      BuffersSum(n - Min(block, n), block);
    }
  }

  lemma {:induction false} SumJoined(x: seq<nat>, y: seq<nat>)
    ensures Sum(x + y) == Sum(x) + Sum(y)
    decreases |x|
  {
    if x == [] {
      assert x + y == y;
    } else {
      assert (x + y)[1..] == x[1..] + y;
      SumJoined(x[1..], y);
    }
  }

  lemma AfterSum(w: WriteResult, sizes: seq<nat>)
    requires Positive(sizes)
    ensures Positive(After(w, sizes)) && Sum(After(w, sizes)) == Sum(sizes) - Got(w, sizes)
  {
  }

  /** A call that does not use up the first buffers does not see the ones behind them. */
  lemma AfterJoined(w: WriteResult, x: seq<nat>, y: seq<nat>)
    requires x != []
    ensures Got(w, x + y) == Got(w, x) && After(w, x + y) == After(w, x) + y
  {
    assert (x + y)[0] == x[0] && (x + y)[1..] == x[1..] + y;
    if Got(w, x) != x[0] {
      Assoc([x[0] - Got(w, x)], x[1..], y);
    }
  }

  lemma {:induction false} TakenAtMost(calls: seq<WriteResult>, x: seq<nat>)
    requires Positive(x)
    ensures Taken(calls, x) <= Sum(x)
    decreases |calls|
  {
    if calls != [] {
      AfterSum(calls[0], x);
      TakenAtMost(calls[1..], After(calls[0], x));
    }
  }

  /** Buffers that are not reached make no difference. */
  lemma {:induction false} TakenBefore(calls: seq<WriteResult>, x: seq<nat>, y: seq<nat>)
    requires Positive(x) && Taken(calls, x) < Sum(x)
    ensures Taken(calls, x + y) == Taken(calls, x)
    decreases |calls|
  {
    if calls != [] {
      AfterSum(calls[0], x);
      AfterJoined(calls[0], x, y);
      TakenBefore(calls[1..], After(calls[0], x), y);
    }
  }

  lemma FullRest(calls: seq<WriteResult>, x: seq<nat>)
    requires Positive(x) && Full(calls, x) && calls != []
    ensures x != [] && Full(calls[1..], After(calls[0], x))
  {
    AfterSum(calls[0], x);
    if |calls| > 1 {
      assert calls[..|calls| - 1][1..] == calls[1..][..|calls| - 2];
    }
  }

  /** Calls that just fill the first buffers leave the others to the calls after them. */
  lemma {:induction false} TakenJoined(a: seq<WriteResult>, b: seq<WriteResult>, x: seq<nat>, y: seq<nat>)
    requires Positive(x) && Full(a, x)
    ensures Taken(a + b, x + y) == Sum(x) + Taken(b, y)
    decreases |a|
  {
    if a == [] {
      assert a + b == b;
      assert x == [] && x + y == y;
    } else {
      FullRest(a, x);
      AfterSum(a[0], x);
      AfterJoined(a[0], x, y);
      assert (a + b)[1..] == a[1..] + b;
      TakenJoined(a[1..], b, After(a[0], x), y);
    }
  }

  lemma FullJoined(a: seq<WriteResult>, b: seq<WriteResult>, x: seq<nat>, y: seq<nat>)
    requires Positive(x) && Positive(y) && Full(a, x) && Full(b, y)
    ensures Full(a + b, x + y)
  {
    TakenJoined(a, b, x, y);
    SumJoined(x, y);
    if b == [] {
      assert a + b == a && y == [] && x + y == x;
    } else {
      TakenJoined(a, b[..|b| - 1], x, y);
      ButLast(a, b);
    }
  }

  lemma ButLast<T>(a: seq<T>, b: seq<T>)
    requires b != []
    ensures (a + b)[..|a + b| - 1] == a + b[..|b| - 1]
  {
  }

  /** All that the writes would take, if they could. */
  function Offered(calls: seq<WriteResult>): nat {
    if calls == [] then 0 else (if calls[0].Wrote? then calls[0].n else 0) + Offered(calls[1..])
  }

  /** Out of one buffer the writes take all they can, as long as there is something in it. */
  lemma {:induction false} TakenOfOne(calls: seq<WriteResult>, n: nat)
    requires n > 0
    ensures Taken(calls, [n]) == Min(n, Offered(calls))
    decreases |calls|
  {
    if calls != [] {
      if Got(calls[0], [n]) == n {
        NothingLeft(calls[1..]);
      } else {
        TakenOfOne(calls[1..], n - Got(calls[0], [n]));
        assert After(calls[0], [n]) == [n - Got(calls[0], [n])];
      }
    }
  }

  lemma {:induction false} NothingLeft(calls: seq<WriteResult>)
    ensures Taken(calls, []) == 0
    decreases |calls|
  {
    if calls != [] {
      NothingLeft(calls[1..]);
    }
  }

  // How sending ends.

  lemma {:induction false} ChunkEnds(script: seq<WriteResult>, n: nat)
    requires n > 0
    ensures EndsWell(script, [n], Chunk(script, n))
    decreases |script|
  {
    if script != [] {
      var w, rest := script[0], script[1..];
      if Fails(w) {
        ChunkFails(script, n);
      } else if w.Wrote? && w.n >= n {
        ChunkFills(script, n);
      } else {
        ChunkEnds(rest, n - Got(w, [n]));
        OneMore(script, n, Chunk(rest, n - Got(w, [n])));
      }
    }
  }

  lemma ChunkFails(script: seq<WriteResult>, n: nat)
    requires script != [] && n > 0 && Fails(script[0])
    ensures EndsWell(script, [n], Chunk(script, n))
  {
    assert script[..1] == [script[0]];
  }

  lemma ChunkFills(script: seq<WriteResult>, n: nat)
    requires script != [] && n > 0 && script[0].Wrote? && script[0].n >= n
    ensures EndsWell(script, [n], Chunk(script, n))
  {
    assert script[..1] == [script[0]] && script[..1][..0] == [];
  }

  lemma {:induction false} OfferedMore(calls: seq<WriteResult>, w: WriteResult)
    ensures Offered(calls) <= Offered(calls + [w])
    decreases |calls|
  {
    if calls != [] {
      assert (calls + [w])[1..] == calls[1..] + [w];
      OfferedMore(calls[1..], w);
    }
  }

  /** Out of one transfer buffer goes all that the writes made can take, and before the last of them it was less
      than the buffer held. */
  lemma ChunkTakes(script: seq<WriteResult>, n: nat)
    requires n > 0
    ensures var s := Chunk(script, n);
            && |s.rest| <= |script|
            && var used := script[..|script| - |s.rest|];
               s.sent == Min(n, Offered(used)) && (used != [] ==> Offered(used[..|used| - 1]) < n)
  {
    var s := Chunk(script, n);
    ChunkEnds(script, n);
    var used := script[..|script| - |s.rest|];
    assert Sum([n]) == n;
    TakenOfOne(used, n);
    if used != [] {
      TakenOfOne(used[..|used| - 1], n);
      OfferedMore(used[..|used| - 1], used[|used| - 1]);
      assert used == used[..|used| - 1] + [used[|used| - 1]];
    }
  }

  lemma OneMore(script: seq<WriteResult>, n: nat, s: Sending)
    requires script != [] && n > 0 && !Fails(script[0]) && Got(script[0], [n]) < n
    requires EndsWell(script[1..], [n - Got(script[0], [n])], s)
    ensures EndsWell(script, [n], Plus(Got(script[0], [n]), s))
  {
    var t := Plus(Got(script[0], [n]), s);
    OneMoreCall(script, s, t);
    OneMoreCount(script[..|script| - |s.rest|], n, s, t);
  }

  lemma OneMoreCall(script: seq<WriteResult>, s: Sending, t: Sending)
    requires script != [] && !Fails(script[0]) && CallsEnd(script[1..], s) && t.status == s.status && t.rest == s.rest
    ensures CallsEnd(script, t) && |s.rest| < |script|
    ensures var used := |script| - |s.rest|; script[..used][0] == script[0] && script[..used][1..] == script[1..][..used - 1]
  {
    LeftOverAgain(script, script[1..], s.rest);
    FailsLater(script, 1, |script| - 1 - |s.rest|, s.status == Failed);
  }

  lemma OneMoreCount(calls: seq<WriteResult>, n: nat, s: Sending, t: Sending)
    requires calls != [] && n > 0 && Got(calls[0], [n]) < n && t == Plus(Got(calls[0], [n]), s)
    requires CountsEnd(calls[1..], [n - Got(calls[0], [n])], s)
    ensures CountsEnd(calls, [n], t)
  {
    assert After(calls[0], [n]) == [n - Got(calls[0], [n])];
    assert Sum([n]) == n && Sum([n - Got(calls[0], [n])]) == n - Got(calls[0], [n]);
    if s.status == Ok {
      FullAgain(calls, n);
    }
  }

  lemma FullAgain(calls: seq<WriteResult>, n: nat)
    requires calls != [] && n > 0 && Got(calls[0], [n]) < n && Full(calls[1..], [n - Got(calls[0], [n])])
    ensures Full(calls, [n])
  {
    var m := |calls| - 1;
    assert After(calls[0], [n]) == [n - Got(calls[0], [n])];
    if m > 0 {
      assert calls[..m][1..] == calls[1..][..m - 1];
    }
  }

  lemma LeftOverAgain(script: seq<WriteResult>, rest: seq<WriteResult>, more: seq<WriteResult>)
    requires LeavesOver(script, rest) && LeavesOver(rest, more)
    ensures LeavesOver(script, more)
  {
    assert rest[|rest| - |more|..] == script[|script| - |more|..];
  }

  lemma FailsLater(script: seq<WriteResult>, m: nat, n: nat, failed: bool)
    requires m + n <= |script| && FailsLast(script, m, false) && FailsLast(script[m..], n, failed)
    ensures FailsLast(script, m + n, failed)
  {
    assert forall i :: 0 <= i < n ==> script[m..][i] == script[m + i];
    forall i | 0 <= i < m + n && Fails(script[i]) ensures failed && i == m + n - 1 {
      if i >= m {
        assert script[m..][i - m] == script[i];
      }
    }
  }

  lemma {:induction false} BodyEnds(script: seq<WriteResult>, n: nat)
    ensures EndsWell(script, Buffers(n, TRANSFER_SIZE), Body(script, n))
    decreases n
  {
    if n == 0 {
      assert script[..0] == [];
    } else {
      var todo := Min(TRANSFER_SIZE, n);
      var c := Chunk(script, todo);
      if c.status == Ok {
        BodyEnds(c.rest, n - todo);
      }
      BodyGoesOn(script, n, todo, c, Buffers(n - todo, TRANSFER_SIZE));
    }
  }

  lemma BodyGoesOn(script: seq<WriteResult>, n: nat, todo: nat, c: Sending, y: seq<nat>)
    requires n > 0 && todo == Min(TRANSFER_SIZE, n) && c == Chunk(script, todo) && y == Buffers(n - todo, TRANSFER_SIZE)
    requires c.status == Ok ==> EndsWell(c.rest, y, Body(c.rest, n - todo))
    ensures EndsWell(script, Buffers(n, TRANSFER_SIZE), Body(script, n))
  {
    ChunkEnds(script, todo);
    BodyStep(script, n, todo);
    BuffersSum(n - todo, TRANSFER_SIZE);
    assert Buffers(n, TRANSFER_SIZE) == [todo] + y;
    assert Sum([todo]) == todo && Positive([todo]);
    if c.status == Ok {
      Joined(script, [todo], c, y, Body(c.rest, n - todo));
    } else {
      Stopped(script, [todo], c, y);
    }
  }

  lemma Stopped(script: seq<WriteResult>, x: seq<nat>, c: Sending, y: seq<nat>)
    requires Positive(x) && EndsWell(script, x, c) && c.status != Ok
    ensures EndsWell(script, x + y, c)
  {
    TakenBefore(script[..|script| - |c.rest|], x, y);
    SumJoined(x, y);
  }

  lemma Joined(script: seq<WriteResult>, x: seq<nat>, c: Sending, y: seq<nat>, d: Sending)
    requires Positive(x) && Positive(y) && EndsWell(script, x, c) && c.status == Ok && EndsWell(c.rest, y, d)
    ensures EndsWell(script, x + y, Plus(Sum(x), d))
  {
    JoinedCalls(script, c, d, Plus(Sum(x), d));
    JoinedTaken(script[..|script| - |c.rest|], c.rest[..|c.rest| - |d.rest|], x, y);
  }

  lemma JoinedCalls(script: seq<WriteResult>, c: Sending, d: Sending, s: Sending)
    requires CallsEnd(script, c) && c.status == Ok && CallsEnd(c.rest, d) && s.status == d.status && s.rest == d.rest
    ensures CallsEnd(script, s)
    ensures script[..|script| - |s.rest|] == script[..|script| - |c.rest|] + c.rest[..|c.rest| - |d.rest|]
  {
    LeftOverAgain(script, c.rest, d.rest);
    FailsLater(script, |script| - |c.rest|, |c.rest| - |d.rest|, d.status == Failed);
  }

  lemma JoinedTaken(a: seq<WriteResult>, b: seq<WriteResult>, x: seq<nat>, y: seq<nat>)
    requires Positive(x) && Positive(y) && Full(a, x)
    ensures Taken(a + b, x + y) == Sum(x) + Taken(b, y) && Sum(x + y) == Sum(x) + Sum(y)
    ensures Full(b, y) ==> Full(a + b, x + y)
  {
    TakenJoined(a, b, x, y);
    SumJoined(x, y);
    if Full(b, y) {
      FullJoined(a, b, x, y);
    }
  }

  /** The counts alone. */
  lemma ChunkCounts(script: seq<WriteResult>, n: nat)
    requires n > 0
    ensures var s := Chunk(script, n); s.sent <= n && (s.status == Ok <==> s.sent == n)
  {
    ChunkEnds(script, n);
    assert Sum([n]) == n;
  }

  lemma BodyCounts(script: seq<WriteResult>, n: nat)
    ensures var s := Body(script, n); s.sent <= n && (s.status == Ok <==> s.sent == n)
  {
    BodyEnds(script, n);
    BuffersSum(n, TRANSFER_SIZE);
  }

  lemma {:induction false} ConcatFront(pieces: seq<seq<byte>>)
    requires pieces != []
    ensures Concat(pieces) == pieces[0] + Concat(pieces[1..])
    decreases |pieces|
  {
    var n := |pieces| - 1;
    if n == 0 {
      assert pieces[..0] == [] && pieces[1..] == [];
    } else {
      ConcatFront(pieces[..n]);
      assert pieces[..n][1..] == pieces[1..][..n - 1];
      assert pieces[1..][n - 1] == pieces[n];
      Assoc(pieces[0], Concat(pieces[1..][..n - 1]), pieces[n]);
    }
  }

  lemma {:induction false} PieceBuffersSum(pieces: seq<seq<byte>>)
    ensures Sum(PieceBuffers(pieces)) == |Concat(pieces)| && Positive(PieceBuffers(pieces))
    decreases |pieces|
  {
    if pieces != [] {
      ConcatFront(pieces);
      BuffersSum(|pieces[0]|, TRANSFER_SIZE);
      PieceBuffersSum(pieces[1..]);
      SumJoined(Buffers(|pieces[0]|, TRANSFER_SIZE), PieceBuffers(pieces[1..]));
    }
  }

  /** Whatever the socket does, this is how streaming a body ends. */
  lemma {:induction false} PiecesEnd(script: seq<WriteResult>, pieces: seq<seq<byte>>)
    ensures EndsWell(script, PieceBuffers(pieces), Pieces(script, pieces))
    decreases |pieces|
  {
    if pieces == [] {
      assert script[..0] == [];
    } else {
      var n := |pieces[0]|;
      var c := Body(script, n);
      BodyEnds(script, n);
      BuffersSum(n, TRANSFER_SIZE);
      PieceBuffersSum(pieces[1..]);
      if c.status == Ok {
        PiecesEnd(c.rest, pieces[1..]);
        Joined(script, Buffers(n, TRANSFER_SIZE), c, PieceBuffers(pieces[1..]), Pieces(c.rest, pieces[1..]));
      } else {
        Stopped(script, Buffers(n, TRANSFER_SIZE), c, PieceBuffers(pieces[1..]));
      }
    }
  }

  lemma PiecesCounts(script: seq<WriteResult>, pieces: seq<seq<byte>>)
    ensures var s := Pieces(script, pieces); s.sent <= |Concat(pieces)| && (s.status == Ok <==> s.sent == |Concat(pieces)|)
  {
    PiecesEnd(script, pieces);
    PieceBuffersSum(pieces);
  }

  lemma AllUsed(script: seq<WriteResult>, x: seq<nat>, s: Sending)
    requires Positive(x) && EndsWell(script, x, s) && forall w :: w in script ==> !Fails(w)
    ensures s.sent == Taken(script, x)
  {
    var used := |script| - |s.rest|;
    if s.status == Ok {
      TakenJoined(script[..used], s.rest, x, []);
      NothingLeft(s.rest);
      assert script[..used] + s.rest == script && x + [] == x;
    } else {
      NoneFailed(script, used, s.status == Failed);
      assert script[..used] == script;
    }
  }

  lemma NoneFailed(script: seq<WriteResult>, used: nat, failed: bool)
    requires used <= |script| && FailsLast(script, used, failed) && forall w :: w in script ==> !Fails(w)
    ensures !failed
  {
  }

  /** If no call fails, what arrives is what the writes take, and the whole body arrives exactly if they take it all. */
  lemma AllArrives(script: seq<WriteResult>, pieces: seq<seq<byte>>)
    requires forall w :: w in script ==> !Fails(w)
    ensures var s := Pieces(script, pieces);
            && s.sent == Taken(script, PieceBuffers(pieces))
            && (s.status == Ok <==> Taken(script, PieceBuffers(pieces)) == |Concat(pieces)|)
  {
    PiecesEnd(script, pieces);
    PieceBuffersSum(pieces);
    AllUsed(script, PieceBuffers(pieces), Pieces(script, pieces));
  }

  /** The number of writes that get somewhere. */
  function Progress(script: seq<WriteResult>): nat {
    if script == [] then 0 else (if script[0].Wrote? && script[0].n > 0 then 1 else 0) + Progress(script[1..])
  }

  lemma {:induction false} ProgressTakes(script: seq<WriteResult>, x: seq<nat>)
    requires Positive(x)
    ensures Taken(script, x) >= Min(Progress(script), Sum(x))
    decreases |script|
  {
    if script != [] {
      AfterSum(script[0], x);
      ProgressTakes(script[1..], After(script[0], x));
    }
  }

  /** So it arrives if there are as many writes that get somewhere as bytes. */
  lemma EnoughWrites(script: seq<WriteResult>, pieces: seq<seq<byte>>)
    requires (forall w :: w in script ==> !Fails(w)) && Progress(script) >= |Concat(pieces)|
    ensures Pieces(script, pieces).status == Ok && Pieces(script, pieces).sent == |Concat(pieces)|
  {
    AllArrives(script, pieces);
    PieceBuffersSum(pieces);
    ProgressTakes(script, PieceBuffers(pieces));
    TakenAtMost(script, PieceBuffers(pieces));
  }

  lemma NextPart(before: seq<byte>, buffer: seq<byte>, offset: nat, n: nat)
    requires offset + n <= |buffer|
    ensures (before + buffer[..offset]) + buffer[offset..offset + n] == before + buffer[..offset + n]
  {
  }

  class ResponseStream {
    var responseBuf: seq<byte>
    // Everything the socket has taken so far.
    var written: seq<byte>
    // What the socket will do; when it is used up the next write waits for ever.
    var script: seq<WriteResult>
    var open: bool

    constructor (script: seq<WriteResult>)
      ensures responseBuf == [] && written == [] && open && this.script == script
    {
      responseBuf, written, open := [], [], true;
      this.script := script;
    }

    /** The inner loop: writes `buffer` out, retrying as long as the socket becomes writable. */
    method WriteChunk(buffer: seq<byte>) returns (status: Status)
      requires buffer != []
      modifies this`written, this`script
      ensures var s := Chunk(old(script), |buffer|);
              && status == s.status && script == s.rest
              && s.sent <= |buffer| && written == old(written) + buffer[..s.sent]
    {
      var offset := 0;
      ghost var before, whole := written, Chunk(script, |buffer|);
      ChunkCounts(script, |buffer|);
      assert buffer[..0] == [];
      while true
        invariant 0 <= offset < |buffer| && written == before + buffer[..offset]
        invariant whole == Plus(offset, Chunk(script, |buffer| - offset))
        decreases |script|
      {
        if script == [] {
          return Blocked;
        }
        var result := script[0];
        script := script[1..];
        match result
        case ShouldWait(writable) =>
          if !writable {
            return Failed;
          }
        case WriteFailed =>
          return Failed;
        case Wrote(most) =>
          var n := Min(most, |buffer| - offset);
          written := written + buffer[offset..offset + n];
          NextPart(before, buffer, offset, n);
          offset := offset + n;
          if offset >= |buffer| {
            return Ok;
          }
      }
    }

    /** Takes `todo` bytes into the transfer buffer and writes them out. */
    method SendBuffer(todo: nat) returns (status: Status)
      requires 0 < todo <= |responseBuf|
      modifies this`responseBuf, this`written, this`script
      ensures responseBuf == old(responseBuf)[todo..]
      ensures var s := Chunk(old(script), todo);
              && status == s.status && script == s.rest && s.sent <= todo && (status == Ok ==> s.sent == todo)
              && written == old(written) + old(responseBuf)[..todo][..s.sent]
    {
      var buffer := responseBuf[..todo];
      responseBuf := responseBuf[todo..];
      ChunkCounts(script, todo);
      status := WriteChunk(buffer);
    }

    /** Whatever the socket does, what has been written is exactly the buffered bytes in order on
        success, and a prefix of them otherwise; EndsWell says which. */
    method SendStreamedBody() returns (status: Status, ghost taken: nat)
      modifies this
      ensures var s := Body(old(script), |old(responseBuf)|);
              && status == s.status && script == s.rest
              && s.sent <= |old(responseBuf)| && written == old(written) + old(responseBuf)[..s.sent]
              && s.sent <= taken <= |old(responseBuf)| && taken <= s.sent + TRANSFER_SIZE
              && responseBuf == old(responseBuf)[taken..] && (status == Ok ==> responseBuf == [])
      ensures open == old(open)
    {
      var size := |responseBuf|;
      ghost var all, before, whole := responseBuf, written, Body(script, size);
      var done := 0;
      BodyCounts(script, size);
      assert all[..0] == [];
      while done < size
        invariant 0 <= done <= size == |all|
        invariant responseBuf == all[done..] && written == before + all[..done]
        invariant whole == Plus(done, Body(script, size - done))
        invariant open == old(open)
      {
        var todo := Min(TRANSFER_SIZE, size - done);
        BodyStep(script, size - done, todo);
        ghost var sent := Chunk(script, todo).sent;
        SplitPrefix(all, done, todo, sent);
        ghost var chunk := all[done..][..todo][..Min(sent, todo)];
        Assoc(before, all[..done], chunk);
        status := SendBuffer(todo);
        if status != Ok {
          return status, done + todo;
        }
        done := done + todo;
      }
      return Ok, done;
    }

    /** The stream callbacks: each time more of the body has come in it is passed on; the first
        failure closes the stream, and so does the end of the connection. `pieces` are the body bytes
        as they arrive, the first of them with the headers; `ended` says that the read after them
        completed with end of file or an error, which brings no bytes. A wait that does not end
        leaves the stream open. */
    method StreamBody(pieces: seq<seq<byte>>, ended: bool) returns (status: Status)
      requires open && responseBuf == [] && written == []
      modifies this
      ensures var s := Pieces(old(script), pieces);
              && status == s.status && script == s.rest
              && s.sent <= |Concat(pieces)| && written == Concat(pieces)[..s.sent]
      ensures status == Ok ==> written == Concat(pieces) && responseBuf == []
      ensures open <==> status == Blocked || (status == Ok && !ended)
    {
      ghost var whole := Pieces(script, pieces);
      PiecesCounts(script, pieces);
      assert pieces[0..] == pieces;
      for i := 0 to |pieces|
        invariant open && responseBuf == [] && written == Concat(pieces[..i])
        invariant whole == Plus(|written|, Pieces(script, pieces[i..]))
      {
        responseBuf := responseBuf + pieces[i];
        assert responseBuf == pieces[i];
        ghost var s := Body(script, |pieces[i]|);
        BodyCounts(script, |pieces[i]|);
        PiecesStep(script, pieces, i);
        PieceSent(pieces, i, s.sent);
        ghost var taken;
        status, taken := SendStreamedBody();
        if status != Ok {
          if status == Failed {
            open := false;
          }
          return;
        }
      }
      assert pieces[..|pieces|] == pieces && pieces[|pieces|..] == [];
      if ended {
        open := false;
      }
      status := Ok;
    }
  }

  lemma PiecesStep(script: seq<WriteResult>, pieces: seq<seq<byte>>, i: nat)
    requires i < |pieces|
    ensures var c := Body(script, |pieces[i]|);
            Pieces(script, pieces[i..]) ==
              if c.status != Ok then c else Plus(|pieces[i]|, Pieces(c.rest, pieces[i + 1..]))
  {
    assert pieces[i..][1..] == pieces[i + 1..];
  }

  lemma PieceSent(pieces: seq<seq<byte>>, i: nat, n: nat)
    requires i < |pieces| && n <= |pieces[i]|
    ensures var k := |Concat(pieces[..i])| + n;
            && k <= |Concat(pieces)| && Concat(pieces[..i]) + pieces[i][..n] == Concat(pieces)[..k]
    ensures n == |pieces[i]| ==> Concat(pieces[..i]) + pieces[i][..n] == Concat(pieces[..i + 1])
  {
    ConcatPrefix(pieces, i + 1);
    assert pieces[..i + 1][..i] == pieces[..i];
    assert Concat(pieces[..i + 1]) == Concat(pieces[..i]) + pieces[i];
    assert n == |pieces[i]| ==> pieces[i][..n] == pieces[i];
  }

  lemma SplitPrefix(all: seq<byte>, done: nat, todo: nat, n: nat)
    requires done + todo <= |all|
    ensures all[done..][todo..] == all[done + todo..]
    ensures n <= todo ==> all[..done] + all[done..][..todo][..n] == all[..done + n]
  {
  }

  lemma BodyStep(script: seq<WriteResult>, n: nat, todo: nat)
    requires n > 0 && todo == Min(TRANSFER_SIZE, n)
    ensures var c := Chunk(script, todo);
            Body(script, n) == if c.status != Ok then c else Plus(todo, Body(c.rest, n - todo))
  {
  }

  function Concat(pieces: seq<seq<byte>>): seq<byte> {
    if pieces == [] then [] else Concat(pieces[..|pieces| - 1]) + pieces[|pieces| - 1]
  }

  lemma {:induction false} ConcatPrefix(pieces: seq<seq<byte>>, n: nat)
    requires n <= |pieces|
    ensures Concat(pieces[..n]) <= Concat(pieces)
    decreases |pieces|
  {
    if n < |pieces| {
      var m := |pieces| - 1;
      assert pieces[..m][..n] == pieces[..n];
      ConcatPrefix(pieces[..m], n);
    } else {
      assert pieces[..n] == pieces;
    }
  }

  // ------------------------------------------------------------------ request body from a VMO

  const BUFSIZE: nat := 1024
  const UNKNOWN_SIZE: nat := 0xffff_ffff_ffff_ffff

  /** `vmo` is the content of the memory object, `size` the size given with the request. */
  class VmoUploadElementReader {
    const vmo: seq<byte>
    const size: nat
    var offset: nat
    var failed: bool

    ghost predicate Valid()
      reads this
    {
      offset <= size && offset <= |vmo|
    }

    constructor (vmo: seq<byte>, size: nat)
      ensures Valid() && this.vmo == vmo && this.size == size && offset == 0 && !failed
    {
      this.vmo := vmo;
      this.size := size;
      offset := 0;
      failed := false;
    }

    /** Appends the next block to the output; a read beyond the end of the VMO fails, and any read
        may be `broken` for another reason. */
    method ReadAvailable(os: seq<byte>, broken: bool) returns (more: bool, out: seq<byte>)
      requires Valid()
      modifies this
      ensures Valid() && old(offset) <= offset
      ensures failed ==> !more
      ensures failed <==> broken || old(offset) + Min(size - old(offset), BUFSIZE) > |vmo|
      ensures out == os + vmo[old(offset)..offset]
      ensures offset == old(offset) + (if failed then 0 else Min(size - old(offset), BUFSIZE))
      ensures more <==> offset > old(offset)
      ensures !more && !failed ==> offset == size
    {
      out := os;
      var n := Min(size - offset, BUFSIZE);
      failed := broken || offset + n > |vmo|;
      if failed {
        return false, out;
      }
      if n > 0 {
        out := os + vmo[offset..offset + n];
        offset := offset + n;
        return true, out;
      }
      return false, out;
    }
  }

  /** How the body loop ends: the answer is read next, the reader failed, a write failed, or the
      next write does not complete. */
  datatype Outcome = BodySent | ReaderFailed | SendFailed | Waiting

  /** A completed write: how many of the buffered bytes (at least one) went out, or an error. */
  datatype Transfer = Transferred(n: nat) | TransferError

  /** The header that announces the length of the body. */
  function ContentLength(size: nat): Option<nat> {
    if size == UNKNOWN_SIZE then None else Some(size)
  }

  lemma Moved(sent: seq<byte>, body: seq<byte>, n: nat)
    requires n <= |body|
    ensures (sent + body[..n]) + body[n..] == sent + body
  {
  }

  /** What is left, after `sent` bytes, of the block that is being sent; a whole block between two blocks. */
  function BlockLeft(sent: nat): (left: nat)
    ensures 0 < left <= 1024
  {
    if sent < 1024 then 1024 - sent else BlockLeft(sent - 1024)
  }

  /** The last block may be shorter. */
  function Room(sent: nat, size: nat): nat
    requires sent <= size
  {
    Min(BlockLeft(sent), size - sent)
  }

  /** How many bytes of a body of `size` bytes the completed writes take: each of them at least one, but no more
      than is left of its block. */
  function SentBy(transfers: seq<Transfer>, size: nat): (sent: nat)
    ensures sent <= size
  {
    if transfers == [] then 0
    else
      var sent, t := SentBy(transfers[..|transfers| - 1], size), transfers[|transfers| - 1];
      if t.TransferError? then sent else sent + Min(if t.n == 0 then 1 else t.n, Room(sent, size))
  }

  lemma SentNext(transfers: seq<Transfer>, writes: nat, size: nat)
    requires writes < |transfers|
    ensures var sent, t := SentBy(transfers[..writes], size), transfers[writes];
            SentBy(transfers[..writes + 1], size) ==
              if t.TransferError? then sent else sent + Min(if t.n == 0 then 1 else t.n, Room(sent, size))
  {
    assert transfers[..writes + 1][..writes] == transfers[..writes];
  }

  /** What is buffered is the rest of the block. */
  ghost predicate Buffered(sent: nat, buffered: nat, size: nat) {
    sent <= size && if buffered == 0 then BlockLeft(sent) == BUFSIZE || sent == size else buffered == Room(sent, size)
  }

  lemma {:induction false} BlockLeftNext(sent: nat, n: nat)
    requires n <= BlockLeft(sent)
    ensures BlockLeft(sent + n) == if n == BlockLeft(sent) then BUFSIZE else BlockLeft(sent) - n
    decreases sent
  {
    if sent >= BUFSIZE {
      BlockLeftNext(sent - BUFSIZE, n);
    }
  }

  lemma BufferedNext(sent: nat, buffered: nat, size: nat, n: nat)
    requires Buffered(sent, buffered, size) && n <= buffered
    ensures Buffered(sent + n, buffered - n, size)
  {
    if buffered > 0 {
      BlockLeftNext(sent, n);
    }
  }

  /** None of the first `n` reads breaks. */
  ghost predicate NoneBroken(broken: set<nat>, n: nat) {
    forall k: nat :: k < n ==> k !in broken
  }

  /** None of the first `n` writes ends with an error. */
  ghost predicate NoErrors(transfers: seq<Transfer>, n: nat)
    requires n <= |transfers|
  {
    forall k :: 0 <= k < n ==> transfers[k] != TransferError
  }

  /** After the first `writes` writes, none of them an error, `sent` bytes are out and `buffered` are buffered. */
  ghost predicate Tracked(transfers: seq<Transfer>, writes: nat, size: nat, sent: nat, buffered: nat)
    requires writes <= |transfers|
  {
    && writes <= sent == SentBy(transfers[..writes], size)
    && NoErrors(transfers, writes) && Buffered(sent, buffered, size)
  }

  lemma NextUnbroken(broken: set<nat>, n: nat, failed: bool)
    requires NoneBroken(broken, n) && (!failed ==> n !in broken)
    ensures NoneBroken(broken, if failed then n else n + 1)
  {
  }

  lemma FirstPart(a: seq<byte>, b: seq<byte>, all: seq<byte>, whole: seq<byte>)
    requires a + b == all && all <= whole
    ensures a <= whole
  {
  }

  /** The next block is read when everything buffered has been sent. */
  method ReadBlock(reader: VmoUploadElementReader, sent: seq<byte>, broken: bool) returns (more: bool, body: seq<byte>)
    requires reader.Valid() && sent == reader.vmo[..reader.offset] && Buffered(|sent|, 0, reader.size)
    modifies reader
    ensures reader.Valid() && sent + body == reader.vmo[..reader.offset] && Buffered(|sent|, |body|, reader.size)
    ensures reader.failed <==> broken || |sent| + Min(reader.size - |sent|, BUFSIZE) > |reader.vmo|
    ensures more <==> body != []
    ensures reader.failed ==> !more
    ensures !more ==> reader.failed || |sent| == reader.size
  {
    ghost var start := reader.offset;
    more, body := reader.ReadAvailable([], broken);
    assert body == reader.vmo[start..reader.offset];
    assert reader.vmo[..start] + reader.vmo[start..reader.offset] == reader.vmo[..reader.offset];
  }

  /** Makes sure that something is buffered: `more` says that it is, `newBlocks` counts the blocks read. */
  method NextBlock(reader: VmoUploadElementReader, sent: seq<byte>, body: seq<byte>, blocks: nat, broken: set<nat>)
    returns (more: bool, newBody: seq<byte>, newBlocks: nat)
    requires reader.Valid() && sent + body == reader.vmo[..reader.offset] && Buffered(|sent|, |body|, reader.size)
    requires NoneBroken(broken, blocks)
    modifies reader
    ensures reader.Valid() && sent + newBody == reader.vmo[..reader.offset] && Buffered(|sent|, |newBody|, reader.size)
    ensures more <==> newBody != []
    ensures more ==> NoneBroken(broken, newBlocks)
    ensures !more ==> newBlocks > 0 && NoneBroken(broken, if reader.failed then newBlocks - 1 else newBlocks)
    ensures !more && !reader.failed ==> |sent| == reader.size
    ensures !more && reader.failed ==>
              newBlocks - 1 in broken || |sent| + Min(reader.size - |sent|, BUFSIZE) > |reader.vmo|
  {
    if body != [] {
      return true, body, blocks;
    }
    more, newBody := ReadBlock(reader, sent, blocks in broken);
    newBlocks := blocks + 1;
    NextUnbroken(broken, blocks, reader.failed);
  }

  /** A completed write takes what it says, at least one byte, out of what is buffered. */
  method OnWriteRequestBody(transfers: seq<Transfer>, writes: nat, sent: seq<byte>, body: seq<byte>, ghost size: nat)
    returns (failed: bool, newSent: seq<byte>, newBody: seq<byte>)
    requires writes < |transfers| && body != [] && Tracked(transfers, writes, size, |sent|, |body|)
    ensures failed <==> transfers[writes] == TransferError
    ensures newSent + newBody == sent + body && |newSent| == SentBy(transfers[..writes + 1], size)
    ensures failed ==> newSent == sent
    ensures !failed ==> Tracked(transfers, writes + 1, size, |newSent|, |newBody|) && |newSent| > |sent|
  {
    SentNext(transfers, writes, size);
    match transfers[writes]
    case TransferError =>
      return true, sent, body;
    case Transferred(taken) =>
      var n := Min(if taken == 0 then 1 else taken, |body|);
      Moved(sent, body, n);
      BufferedNext(|sent|, |body|, size, n);
      return false, sent + body[..n], body[n..];
  }

  /** The body loop, with writes that may take any non-empty part of the buffer: the bytes sent are
      those of the VMO in order, as many as the writes take; when the loop comes to its end they are
      exactly the first `size` bytes, as many as the header announced, and it gets there unless the
      size given is more than the VMO holds or one of the reads made, numbered in `broken`, breaks.
      `blocks` and `writes` count the reads and writes made. Unread plus buffered bytes shrink with every write. */
  method WriteRequestBody(reader: VmoUploadElementReader, transfers: seq<Transfer>, broken: set<nat>)
    returns (sent: seq<byte>, announced: Option<nat>, outcome: Outcome, blocks: nat, writes: nat)
    requires reader.Valid() && reader.offset == 0 && !reader.failed && reader.size <= UNKNOWN_SIZE
    modifies reader
    ensures sent <= reader.vmo && |sent| <= reader.size
    ensures announced.None? <==> reader.size == 0xffff_ffff_ffff_ffff
    ensures announced.Some? ==> announced.value == reader.size
    ensures outcome == BodySent ==> reader.size <= |reader.vmo| && sent == reader.vmo[..reader.size]
    ensures outcome == BodySent && announced.Some? ==> |sent| == announced.value
    ensures outcome == ReaderFailed ==>
              || |sent| + Min(reader.size - |sent|, 1024) > |reader.vmo|
              || (blocks > 0 && blocks - 1 in broken)
    ensures outcome == ReaderFailed ==> blocks > 0
    ensures NoneBroken(broken, if outcome == ReaderFailed then blocks - 1 else blocks)
    ensures writes <= |transfers| && |sent| == SentBy(transfers[..writes], reader.size)
    ensures outcome == SendFailed ==> writes > 0 && transfers[writes - 1] == TransferError
    ensures NoErrors(transfers, if outcome == SendFailed then writes - 1 else writes)
    ensures outcome == Waiting ==> writes == |transfers| <= |sent| < reader.size
  {
    announced := ContentLength(reader.size);
    sent := [];
    var body := [];
    blocks, writes := 0, 0;
    while true
      invariant reader.Valid() && NoneBroken(broken, blocks)
      invariant sent + body == reader.vmo[..reader.offset] && sent <= reader.vmo
      invariant 0 <= writes <= |transfers| && Tracked(transfers, writes, reader.size, |sent|, |body|)
      decreases reader.size - |sent|
    {
      var more;
      more, body, blocks := NextBlock(reader, sent, body, blocks, broken);
      if !more {
        outcome := if reader.failed then ReaderFailed else BodySent;
        return;
      }
      if writes >= |transfers| {
        outcome := Waiting;
        return;
      }
      var failed;
      ghost var all := sent + body;
      failed, sent, body := OnWriteRequestBody(transfers, writes, sent, body, reader.size);
      writes := writes + 1;
      FirstPart(sent, body, all, reader.vmo);
      if failed {
        outcome := SendFailed;
        return;
      }
    }
  }
}
