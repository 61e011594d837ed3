/** What one Start of the URL loader answers, told from the completions alone: which of them belong to
    connecting, to sending the request and to reading the answer is found by their positions. */
module UrlAnswers {
  import opened Common
  import opened UrlLoader

  // ------------------------------------------------------------------ the completions by position

  /** Resolving and connecting, and the handshake of https. */
  function Setup(ssl: bool): nat {
    if ssl then 3 else 2
  }

  /** The first completion from `i` on, before `n`, that is a failure; `n` or the end if there is none. */
  function FirstFailure(es: seq<Event>, i: nat, n: nat): (j: nat)
    requires i <= n && i <= |es|
    ensures i <= j <= n && j <= |es| && (j < n && j < |es| ==> !es[j].ok)
    decreases |es| - i
  {
    if i == n || i == |es| || !es[i].ok then i else FirstFailure(es, i + 1, n)
  }

  /** The first completion from `i` on that does not just leave more of the headers to write. */
  function HeadersEnd(es: seq<Event>, i: nat): (j: nat)
    requires i <= |es|
    ensures i <= j <= |es| && (j < |es| ==> !(es[j].ok && es[j].headersLeft))
    decreases |es| - i
  {
    if i == |es| || !(es[i].ok && es[i].headersLeft) then i else HeadersEnd(es, i + 1)
  }

  /** The first completion from `i` on after which no more of the body is written. */
  function BodyEnd(es: seq<Event>, i: nat): (j: nat)
    requires i <= |es|
    ensures i <= j <= |es| && (j < |es| ==> !(es[j].ok && es[j].body == MoreBody))
    decreases |es| - i
  {
    if i == |es| || !(es[i].ok && es[i].body == MoreBody) then i else BodyEnd(es, i + 1)
  }

  /** The first completion from `i` on with which streaming the answer's body ends. */
  function StreamEnd(es: seq<Event>, i: nat): (j: nat)
    requires i <= |es|
    ensures i <= j <= |es| && (j < |es| ==> !(es[j].ok && es[j].bodySent))
    decreases |es| - i
  {
    if i == |es| || !(es[i].ok && es[i].bodySent) then i else StreamEnd(es, i + 1)
  }

  lemma {:induction false} FirstFailureIs(es: seq<Event>, i: nat, n: nat, j: nat)
    requires i <= j <= n && j <= |es| && (j == n || j == |es| || !es[j].ok)
    requires forall k :: i <= k < j ==> es[k].ok
    ensures FirstFailure(es, i, n) == j
    decreases j - i
  {
    if i < j {
      FirstFailureIs(es, i + 1, n, j);
    }
  }

  lemma {:induction false} HeadersEndIs(es: seq<Event>, i: nat, j: nat)
    requires i <= j <= |es| && (j == |es| || !(es[j].ok && es[j].headersLeft))
    requires forall k :: i <= k < j ==> es[k].ok && es[k].headersLeft
    ensures HeadersEnd(es, i) == j
    decreases j - i
  {
    if i < j {
      HeadersEndIs(es, i + 1, j);
    }
  }

  lemma {:induction false} BodyEndIs(es: seq<Event>, i: nat, j: nat)
    requires i <= j <= |es| && (j == |es| || !(es[j].ok && es[j].body == MoreBody))
    requires forall k :: i <= k < j ==> es[k].ok && es[k].body == MoreBody
    ensures BodyEnd(es, i) == j
    decreases j - i
  {
    if i < j {
      BodyEndIs(es, i + 1, j);
    }
  }

  /** How sending the request goes: it is still under way, it is given up, or it is sent and completion
      `line` is that of the status line. */
  datatype Request = UnderWay | GivenUp(error: Error) | Sent(line: nat)

  /** Writing the body from completion `i` on. */
  function AfterHeaders(es: seq<Event>, i: nat): (r: Request)
    requires i <= |es|
    ensures r.Sent? ==> r.line <= |es|
  {
    var b := BodyEnd(es, i);
    if b == |es| then UnderWay
    else if !es[b].ok || es[b].body == BodyFailed then GivenUp(Failed)
    else Sent(b + 1)
  }

  /** Writing the request from completion `i` on. */
  function AfterSetup(es: seq<Event>, i: nat): (r: Request)
    requires i <= |es|
    ensures r.Sent? ==> r.line <= |es|
  {
    var m := HeadersEnd(es, i);
    if m == |es| then UnderWay
    else if !es[m].ok then GivenUp(Failed)
    else AfterHeaders(es, m)
  }

  function RequestOf(ssl: bool, es: seq<Event>): (r: Request)
    ensures r.Sent? ==> r.line <= |es|
  {
    var n := Setup(ssl);
    var f := FirstFailure(es, 0, n);
    if f == n then AfterSetup(es, n)
    else if f == |es| then UnderWay
    else if f == 0 then GivenUp(NameNotResolved)
    else if f == 1 then GivenUp(ConnectionFailed)
    else GivenUp(HandshakeNotCompleted)
  }

  /** How a client ends up: whether nothing is pending any more, its answers, and the status and redirect
      location it leaves behind. */
  datatype End = End(done: bool, replies: seq<Reply>, status: nat, location: Url)

  function Pending(status: nat): End {
    End(false, [], status, NO_URL)
  }

  function Over(replies: seq<Reply>, status: nat): End {
    End(true, replies, status, NO_URL)
  }

  predicate Accepted(line: Event) {
    line.ok && line.lineGood && line.isHttp
  }

  function StatusFrom(line: Event, initial: nat): nat {
    if line.stored then line.status else initial
  }

  /** The answer to a request that was sent; completion `i` is that of the status line. */
  function AnswerTo(mode: BodyMode, initial: nat, es: seq<Event>, i: nat): End
    requires i <= |es|
  {
    if i == |es| then Pending(initial)
    else if !es[i].ok then Over([], initial)
    else
      var status := StatusFrom(es[i], initial);
      if !Accepted(es[i]) then Over([ErrorReply(InvalidResponse)], status)
      else if i + 1 == |es| then Pending(status)
      else if !es[i + 1].ok then Over([], status)
      else if status == 301 || status == 302 then End(true, [], status, es[i + 1].location)
      else if mode == Stream then
        if !es[i + 1].socketCreated then Over([], status)
        else if !es[i + 1].bodySent then Over([Response(status)], status)
        else End(StreamEnd(es, i + 2) < |es|, [Response(status)], status, NO_URL)
      else if i + 2 == |es| then Pending(status)
      else if es[i + 2].ok || es[i + 2].endOfFile then Over([Response(status)], status)
      else Over([ErrorReply(Failed)], status)
  }

  function EndAfter(request: Request, mode: BodyMode, initial: nat, es: seq<Event>): End
    requires request.Sent? ==> request.line <= |es|
  {
    match request
    case UnderWay => Pending(initial)
    case GivenUp(error) => Over([ErrorReply(error)], initial)
    case Sent(line) => AnswerTo(mode, initial, es, line)
  }

  function EndOf(ssl: bool, mode: BodyMode, initial: nat, es: seq<Event>): End {
    EndAfter(RequestOf(ssl, es), mode, initial, es)
  }

  // ------------------------------------------------------------------ the client does that

  ghost predicate Matches(k: Client, end: End) {
    && (k.phase == Idle <==> end.done)
    && k.replies == end.replies && k.status == end.status && k.location == end.location
  }

  /** The client in state `s` goes on with the completions from `i` on. */
  function RunFrom(s: Client, es: seq<Event>, i: nat): Client
    requires i <= |es|
    decreases |es| - i
  {
    if i == |es| then s else RunFrom(Handle(s, es[i]), es, i + 1)
  }

  lemma {:induction false} RunForward(k: Client, es: seq<Event>, i: nat)
    requires i <= |es|
    ensures RunFrom(RunClient(k, es[..i]), es, i) == RunClient(k, es)
    decreases |es| - i
  {
    if i == |es| {
      assert es[..i] == es;
    } else {
      assert es[..i + 1][..i] == es[..i];
      RunForward(k, es, i + 1);
    }
  }

  ghost predicate Silent(s: Client) {
    s.replies == [] && s.location == NO_URL
  }

  lemma {:induction false} IdleFrom(s: Client, es: seq<Event>, i: nat)
    requires i <= |es| && s.phase == Idle
    ensures RunFrom(s, es, i) == s
    decreases |es| - i
  {
    if i < |es| {
      IdleFrom(s, es, i + 1);
    }
  }

  lemma {:induction false} StreamFrom(s: Client, es: seq<Event>, i: nat)
    requires i <= |es| && s.phase == StreamingBody
    ensures RunFrom(s, es, i) == if StreamEnd(es, i) < |es| then s.(phase := Idle) else s
    decreases |es| - i
  {
    if i < |es| {
      if es[i].ok && es[i].bodySent {
        StreamFrom(s, es, i + 1);
      } else {
        IdleFrom(s.(phase := Idle), es, i + 1);
      }
    }
  }

  lemma BufferFrom(s: Client, es: seq<Event>, i: nat)
    requires i <= |es| && s.phase == BufferingBody && s.replies == []
    ensures RunFrom(s, es, i) ==
            if i == |es| then s
            else if es[i].ok || es[i].endOfFile then s.(phase := Idle, replies := [Response(s.status)])
            else s.(phase := Idle, replies := [ErrorReply(Failed)])
  {
    if i < |es| {
      IdleFrom(Handle(s, es[i]), es, i + 1);
    }
  }

  lemma HeadersFrom(s: Client, es: seq<Event>, i: nat, initial: nat)
    requires 0 < i <= |es| && s.phase == ReadingHeaders && Silent(s)
    requires Accepted(es[i - 1]) && s.status == StatusFrom(es[i - 1], initial)
    ensures Matches(RunFrom(s, es, i), AnswerTo(s.mode, initial, es, i - 1))
  {
    if i < |es| {
      var t := Handle(s, es[i]);
      if t.phase == Idle {
        IdleFrom(t, es, i + 1);
      } else if t.phase == StreamingBody {
        StreamFrom(t, es, i + 1);
      } else {
        BufferFrom(t, es, i + 1);
      }
    }
  }

  lemma LineFrom(s: Client, es: seq<Event>, i: nat)
    requires i <= |es| && s.phase == ReadingStatus && Silent(s)
    ensures Matches(RunFrom(s, es, i), AnswerTo(s.mode, s.status, es, i))
  {
    if i < |es| {
      var t := Handle(s, es[i]);
      if Accepted(es[i]) {
        HeadersFrom(t, es, i + 1, s.status);
      } else {
        IdleFrom(t, es, i + 1);
      }
    }
  }

  lemma {:induction false} BodyFrom(s: Client, es: seq<Event>, i: nat)
    requires i <= |es| && s.phase == WritingBody && Silent(s)
    ensures Matches(RunFrom(s, es, i), EndAfter(AfterHeaders(es, i), s.mode, s.status, es))
    decreases |es| - i
  {
    if i < |es| {
      var t := Handle(s, es[i]);
      if t.phase == Idle {
        IdleFrom(t, es, i + 1);
      } else if t.phase == ReadingStatus {
        LineFrom(t, es, i + 1);
      } else {
        BodyFrom(s, es, i + 1);
      }
    }
  }

  lemma BodyStarts(s: Client, es: seq<Event>, i: nat)
    requires i < |es| && s.phase == WritingHeaders && Silent(s) && es[i].ok && !es[i].headersLeft
    ensures Matches(RunFrom(s, es, i), EndAfter(AfterHeaders(es, i), s.mode, s.status, es))
  {
    var t := Handle(s, es[i]);
    if t.phase == Idle {
      IdleFrom(t, es, i + 1);
    } else if t.phase == ReadingStatus {
      LineFrom(t, es, i + 1);
    } else {
      BodyFrom(t, es, i + 1);
    }
  }

  lemma {:induction false} WriteFrom(s: Client, es: seq<Event>, i: nat)
    requires i <= |es| && s.phase == WritingHeaders && Silent(s)
    ensures Matches(RunFrom(s, es, i), EndAfter(AfterSetup(es, i), s.mode, s.status, es))
    decreases |es| - i
  {
    if i < |es| {
      if !es[i].ok {
        IdleFrom(Handle(s, es[i]), es, i + 1);
      } else if es[i].headersLeft {
        WriteFrom(s, es, i + 1);
      } else {
        BodyStarts(s, es, i);
      }
    }
  }

  function SetupPhase(ssl: bool, i: nat): Phase {
    if i == 0 then Resolving else if i == 1 then Connecting else if ssl && i == 2 then Handshaking else WritingHeaders
  }

  function SetupError(i: nat): Error {
    if i == 0 then NameNotResolved else if i == 1 then ConnectionFailed else HandshakeNotCompleted
  }

  lemma {:induction false} SetupFrom(s: Client, es: seq<Event>, i: nat)
    requires i <= |es| && i <= Setup(s.ssl) && s.phase == SetupPhase(s.ssl, i) && Silent(s)
    ensures var f := FirstFailure(es, i, Setup(s.ssl));
            Matches(RunFrom(s, es, i),
                    if f == Setup(s.ssl) then EndAfter(AfterSetup(es, f), s.mode, s.status, es)
                    else if f == |es| then Pending(s.status)
                    else Over([ErrorReply(SetupError(f))], s.status))
    decreases |es| - i
  {
    if i == Setup(s.ssl) {
      WriteFrom(s, es, i);
    } else if i < |es| {
      var t := Handle(s, es[i]);
      if es[i].ok {
        SetupFrom(t, es, i + 1);
      } else {
        IdleFrom(t, es, i + 1);
      }
    }
  }

  /** Whatever completions come in, and in whatever number, a client ends as they say by their positions:
      the response with the status of the status line if everything succeeds, the error of the phase
      that fails, and silence where the code is silent. */
  lemma ClientAnswers(ssl: bool, mode: BodyMode, initial: nat, es: seq<Event>)
    ensures Matches(RunClient(Client(Resolving, ssl, mode, initial, NO_URL, []), es), EndOf(ssl, mode, initial, es))
  {
    var k := Client(Resolving, ssl, mode, initial, NO_URL, []);
    RunForward(k, es, 0);
    SetupFrom(k, es, 0);
  }

  /** Everything up to the headers of the answer succeeds: connecting, the request's headers up to completion
      `m`, its body up to completion `b`, then the status line and the headers. */
  ghost predicate Exchange(ssl: bool, es: seq<Event>, m: nat, b: nat) {
    && Setup(ssl) <= m <= b && b + 2 < |es|
    && (forall i :: 0 <= i < Setup(ssl) ==> es[i].ok)
    && (forall i :: Setup(ssl) <= i < m ==> es[i].ok && es[i].headersLeft)
    && es[m].ok && !es[m].headersLeft
    && (forall i :: m <= i < b ==> es[i].ok && es[i].body == MoreBody)
    && es[b].ok && es[b].body == BodyDone
    && es[b + 1].ok && es[b + 1].stored && es[b + 1].lineGood && es[b + 1].isHttp
    && es[b + 2].ok
  }

  lemma ExchangeSends(ssl: bool, es: seq<Event>, m: nat, b: nat)
    requires Exchange(ssl, es, m, b)
    ensures RequestOf(ssl, es) == Sent(b + 1)
  {
    var n := Setup(ssl);
    FirstFailureIs(es, 0, n, n);
    HeadersEndIs(es, n, m);
    BodyEndIs(es, m, b);
  }

  /** What a sent request comes to whose status line and headers, at completions `i` and `i + 1`, are good. */
  ghost predicate Answered(mode: BodyMode, es: seq<Event>, i: nat, k: Client)
    requires i + 1 < |es|
  {
    var status := es[i].status;
    if status == 301 || status == 302 then
      k.phase == Idle && k.replies == [] && k.status == status && k.location == es[i + 1].location
    else if mode == Stream then
      es[i + 1].socketCreated ==> k.replies == [Response(status)]
    else
      i + 2 < |es| && (es[i + 2].ok || es[i + 2].endOfFile) ==> k.phase == Idle && k.replies == [Response(status)]
  }

  lemma GoodAnswer(mode: BodyMode, initial: nat, es: seq<Event>, i: nat, k: Client)
    requires i + 1 < |es| && Accepted(es[i]) && es[i].stored && es[i + 1].ok
    requires Matches(k, AnswerTo(mode, initial, es, i))
    ensures Answered(mode, es, i, k)
  {
  }

  /** An ordinary request is answered, with the status of its status line; a 301 or 302 is left to the
      loader, with the location to go to. */
  lemma PlainExchange(ssl: bool, mode: BodyMode, initial: nat, es: seq<Event>, m: nat, b: nat)
    requires Exchange(ssl, es, m, b)
    ensures Answered(mode, es, b + 1, RunClient(Client(Resolving, ssl, mode, initial, NO_URL, []), es))
  {
    ClientAnswers(ssl, mode, initial, es);
    ExchangeSends(ssl, es, m, b);
    GoodAnswer(mode, initial, es, b + 1, RunClient(Client(Resolving, ssl, mode, initial, NO_URL, []), es));
  }

  /** An answer that never comes: the status line cannot be read, or it is accepted and then the headers cannot be
      read, or they are those of a redirect, or there is no socket to stream the body to. */
  predicate NoAnswer(mode: BodyMode, initial: nat, es: seq<Event>, i: nat) {
    && i < |es|
    && (|| !es[i].ok
        || (&& Accepted(es[i]) && i + 1 < |es|
            && (|| !es[i + 1].ok
                || StatusFrom(es[i], initial) in {301, 302}
                || (mode == Stream && !es[i + 1].socketCreated))))
  }

  lemma NoAnswerIff(mode: BodyMode, initial: nat, es: seq<Event>, i: nat)
    requires i <= |es|
    ensures var end := AnswerTo(mode, initial, es, i);
            end.done && end.replies == [] <==> NoAnswer(mode, initial, es, i)
  {
  }

  /** The client ends without an answer exactly if the request is sent and no answer comes. */
  lemma SilentIff(ssl: bool, mode: BodyMode, initial: nat, es: seq<Event>)
    ensures var k := RunClient(Client(Resolving, ssl, mode, initial, NO_URL, []), es);
            var r := RequestOf(ssl, es);
            k.phase == Idle && k.replies == [] <==> r.Sent? && NoAnswer(mode, initial, es, r.line)
  {
    ClientAnswers(ssl, mode, initial, es);
    var r := RequestOf(ssl, es);
    if r.Sent? {
      NoAnswerIff(mode, initial, es, r.line);
    }
  }

  // ------------------------------------------------------------------ the redirect loop

  /** What a request comes to: whether it can be made, and how its client ends over http and over https. */
  datatype Outcome = Outcome(created: bool, plain: End, secure: End)

  function OutcomeOf(a: Attempt, mode: BodyMode): Outcome {
    Outcome(a.created, EndOf(false, mode, a.initialStatus, a.events), EndOf(true, mode, a.initialStatus, a.events))
  }

  function OutcomesOf(env: Environment): seq<Outcome> {
    seq(|env.attempts|, i requires 0 <= i < |env.attempts| => OutcomeOf(env.attempts[i], env.mode))
  }

  function EndAt(os: seq<Outcome>, i: nat, url: Url): End
    requires i < |os|
  {
    if url.scheme == Https then os[i].secure else os[i].plain
  }

  predicate CanServe(https: bool, url: Url) {
    match url.scheme
    case Http => true
    case Https => https
    case OtherScheme => false
  }

  /** Request `i` is made, for the given URL. */
  predicate Made(https: bool, os: seq<Outcome>, i: nat, url: Url) {
    CanServe(https, url) && i < |os| && os[i].created
  }

  /** A request that ends with a redirect status. */
  predicate Redirected(end: End) {
    end.done && (end.status == 301 || end.status == 302)
  }

  /** The valid URL that request `i`, made for `url`, is redirected to. */
  function TargetBy(https: bool, os: seq<Outcome>, i: nat, url: Url): Option<Url> {
    if !Made(https, os, i, url) then None
    else
      var end := EndAt(os, i, url);
      if Redirected(end) && end.replies == [] && end.location.valid then Some(end.location) else None
  }

  /** The URL of the `i`-th request: every earlier answer was a redirect to a valid URL. */
  function UrlBy(https: bool, os: seq<Outcome>, start: Url, i: nat): Option<Url> {
    if i == 0 then (if start.valid then Some(start) else None)
    else
      var previous := UrlBy(https, os, start, i - 1);
      if previous.None? then None else TargetBy(https, os, i - 1, previous.value)
  }

  /** The last request reached from the `i`-th on; 20 if every one of the 20 is redirected. */
  function LastFrom(https: bool, os: seq<Outcome>, start: Url, i: nat): (j: nat)
    requires i <= 20 && UrlBy(https, os, start, i).Some?
    ensures i <= j <= 20 && UrlBy(https, os, start, j).Some? && (j < 20 ==> UrlBy(https, os, start, j + 1).None?)
    decreases 20 - i
  {
    if i == 20 || UrlBy(https, os, start, i + 1).None? then i else LastFrom(https, os, start, i + 1)
  }

  /** What Start answers if its last request is the `i`-th, for the given URL. */
  function Answer(https: bool, os: seq<Outcome>, i: nat, url: Url): seq<Reply> {
    if !CanServe(https, url) then [ErrorReply(InvalidArgument)]
    else if i >= |os| then []
    else if !os[i].created then [ErrorReply(InvalidArgument)]
    else
      var end := EndAt(os, i, url);
      if end.replies != [] then end.replies
      else if Redirected(end) then [ErrorReply(InvalidResponse)]
      else []
  }

  /** How a Start ends whose last request is the `j`-th. */
  ghost predicate EndsWith(https: bool, os: seq<Outcome>, start: Url, j: nat, m: Loader)
    requires UrlBy(https, os, start, j).Some?
  {
    var url := UrlBy(https, os, start, j).value;
    if j == 20 then m.replies == [ErrorReply(TooManyRedirects)] && m.requests == 20 && !m.crashed
    else
      && m.replies == Answer(https, os, j, url)
      && m.requests == (if Made(https, os, j, url) then j + 1 else j)
      && (m.crashed <==> Made(https, os, j, url) && EndAt(os, j, url).replies != [] && Redirected(EndAt(os, j, url)))
  }

  /** The outcomes are those of the clients. */
  ghost predicate Tells(env: Environment, os: seq<Outcome>) {
    && |os| == |env.attempts|
    && forall i :: 0 <= i < |os| ==> TellsAt(env.attempts[i], env.mode, os[i])
  }

  ghost predicate TellsAt(a: Attempt, mode: BodyMode, o: Outcome) {
    o.created == a.created && Matches(Finished(a, false, mode), o.plain) && Matches(Finished(a, true, mode), o.secure)
  }

  lemma OutcomesTell(env: Environment)
    ensures Tells(env, OutcomesOf(env))
  {
    forall i | 0 <= i < |env.attempts| ensures TellsAt(env.attempts[i], env.mode, OutcomesOf(env)[i]) {
      var a := env.attempts[i];
      ClientAnswers(false, env.mode, a.initialStatus, a.events);
      ClientAnswers(true, env.mode, a.initialStatus, a.events);
    }
  }

  /** A request that is made and not redirected to a valid URL ends the loop. */
  lemma LastMade(env: Environment, i: nat, l: Loader, end: End)
    requires i < 20 && i < |env.attempts| && Fresh(l, i) && Servable(env, l.url) && env.attempts[i].created
    requires Matches(ClientOf(env, i, l.url), end) && !(Redirected(end) && end.replies == [] && end.location.valid)
    ensures var m := Loop(env, i, l);
            && m.replies == (if end.replies != [] then end.replies
                             else if Redirected(end) then [ErrorReply(InvalidResponse)] else [])
            && m.requests == i + 1 && (m.crashed <==> end.replies != [] && Redirected(end))
  {
    ClientRepliesOnce(env.attempts[i], l.url.scheme == Https, env.mode);
  }

  lemma LastAnswers(env: Environment, os: seq<Outcome>, start: Url, i: nat, l: Loader)
    requires Tells(env, os) && i < 20 && Fresh(l, i)
    requires UrlBy(env.https, os, start, i) == Some(l.url) && UrlBy(env.https, os, start, i + 1).None?
    ensures EndsWith(env.https, os, start, i, Loop(env, i, l))
  {
    if Made(env.https, os, i, l.url) {
      assert TellsAt(env.attempts[i], env.mode, os[i]);
      LastMade(env, i, l, EndAt(os, i, l.url));
    } else if i < |os| {
      assert TellsAt(env.attempts[i], env.mode, os[i]);
    }
  }

  lemma TargetsAgree(env: Environment, os: seq<Outcome>, i: nat, url: Url)
    requires Tells(env, os)
    ensures TargetBy(env.https, os, i, url) == Target(env, i, url)
  {
    if i < |env.attempts| {
      assert TellsAt(env.attempts[i], env.mode, os[i]);
    }
  }

  lemma TurnAnswers(env: Environment, os: seq<Outcome>, i: nat, l: Loader)
    requires Tells(env, os) && i < 20 && Fresh(l, i) && TargetBy(env.https, os, i, l.url).Some?
    ensures var next := l.(requests := i + 1, url := TargetBy(env.https, os, i, l.url).value);
            Loop(env, i, l) == if i == 19 then Send(next, ErrorReply(TooManyRedirects)) else Loop(env, i + 1, next)
  {
    TargetsAgree(env, os, i, l.url);
    NextTurn(env, l.url, i, l);
  }

  lemma {:induction false} UrlBefore(https: bool, os: seq<Outcome>, start: Url, i: nat, j: nat)
    requires i <= j && UrlBy(https, os, start, j).Some?
    ensures UrlBy(https, os, start, i).Some?
    decreases j
  {
    if i < j {
      UrlBefore(https, os, start, i, j - 1);
    }
  }

  /** How the loop ends from a redirected turn on, given how it ends from the next turn on. */
  lemma NextAnswers(env: Environment, os: seq<Outcome>, start: Url, i: nat, j: nat, l: Loader, next: Loader)
    requires Tells(env, os) && i < 20 && Fresh(l, i) && UrlBy(env.https, os, start, j).Some?
    requires TargetBy(env.https, os, i, l.url) == Some(next.url) && next == l.(requests := i + 1, url := next.url)
    requires if i + 1 == 20 then j == 20 else EndsWith(env.https, os, start, j, Loop(env, i + 1, next))
    ensures EndsWith(env.https, os, start, j, Loop(env, i, l))
  {
    TurnAnswers(env, os, i, l);
  }

  lemma {:induction false} LoopAnswers(env: Environment, os: seq<Outcome>, start: Url, i: nat, j: nat, l: Loader)
    requires Tells(env, os) && i < 20 && i <= j <= 20 && Fresh(l, i) && UrlBy(env.https, os, start, i) == Some(l.url)
    requires UrlBy(env.https, os, start, j).Some? && (j < 20 ==> UrlBy(env.https, os, start, j + 1).None?)
    ensures EndsWith(env.https, os, start, j, Loop(env, i, l))
    decreases 20 - i
  {
    if i == j {
      LastAnswers(env, os, start, i, l);
    } else {
      UrlBefore(env.https, os, start, i + 1, j);
      var next := l.(requests := i + 1, url := UrlBy(env.https, os, start, i + 1).value);
      if i + 1 < 20 {
        LoopAnswers(env, os, start, i + 1, j, next);
      }
      NextAnswers(env, os, start, i, j, l, next);
    }
  }

  /** What every Start answers: an invalid URL is refused; otherwise redirects to valid URLs are followed, and the
      answer is that of the last request reached, or too many redirects after 20 of them. */
  lemma StartAnswers(env: Environment, start: Url)
    ensures var os, m := OutcomesOf(env), StartInternal(env, start);
            if !start.valid then m.replies == [ErrorReply(InvalidArgument)] && m.requests == 0 && !m.crashed
            else EndsWith(env.https, os, start, LastFrom(env.https, os, start, 0), m)
  {
    if start.valid {
      var os := OutcomesOf(env);
      OutcomesTell(env);
      LoopAnswers(env, os, start, 0, LastFrom(env.https, os, start, 0), Loader(true, start, [], 0, false));
    }
  }

  lemma AnsweredAtOnce(env: Environment, os: seq<Outcome>, start: Url)
    requires Tells(env, os) && start.valid && Made(env.https, os, 0, start)
    requires EndAt(os, 0, start).replies != []
    ensures StartInternal(env, start).replies == EndAt(os, 0, start).replies
  {
    LastAnswers(env, os, start, 0, Loader(true, start, [], 0, false));
  }

  /** A plain request that succeeds is answered with its response. */
  lemma PlainStart(env: Environment, start: Url, m: nat, b: nat)
    requires start.valid && CanServe(env.https, start) && env.attempts != [] && env.attempts[0].created
    requires Exchange(start.scheme == Https, env.attempts[0].events, m, b) && env.mode == Stream
    requires env.attempts[0].events[b + 1].status !in {301, 302} && env.attempts[0].events[b + 2].socketCreated
    ensures StartInternal(env, start).replies == [Response(env.attempts[0].events[b + 1].status)]
  {
    var a, os := env.attempts[0], OutcomesOf(env);
    OutcomesTell(env);
    PlainExchange(start.scheme == Https, Stream, a.initialStatus, a.events, m, b);
    FirstEnd(env, os, start);
    AnsweredAtOnce(env, os, start);
  }

  lemma FirstEnd(env: Environment, os: seq<Outcome>, start: Url)
    requires Tells(env, os) && env.attempts != []
    ensures os != [] && os[0].created == env.attempts[0].created && Matches(ClientOf(env, 0, start), EndAt(os, 0, start))
  {
    assert TellsAt(env.attempts[0], env.mode, os[0]);
  }
}
