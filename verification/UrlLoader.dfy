/** One Start of the URL loader: the asynchronous callback chain of an HTTP client, and the loop
    that follows redirects with a new client each time. */
module UrlLoader {
  import opened Common

  const MAX_REDIRECTS: nat := 20

  datatype Error =
    | InvalidArgument | InvalidResponse | TooManyRedirects | NameNotResolved | ConnectionFailed
    | HandshakeNotCompleted | Failed

  /** What the loader's callback is called with. */
  datatype Reply = Response(status: nat) | ErrorReply(error: Error)

  datatype Scheme = Http | Https | OtherScheme

  datatype Url = Url(valid: bool, scheme: Scheme)

  /** The URL of an empty string. */
  const NO_URL: Url := Url(false, OtherScheme)

  datatype BodyMode = Buffer | Stream

  predicate IsRedirect(status: nat) {
    status == 301 || status == 302
  }

  // ------------------------------------------------------------------ the client's callbacks

  /** The operation whose completion the client waits for; Idle when there is none. */
  datatype Phase =
    | Resolving | Connecting | Handshaking | WritingHeaders | WritingBody | ReadingStatus
    | ReadingHeaders | BufferingBody | StreamingBody | Idle

  /** What WriteRequestBody finds: something to write, a failed reader, or the end of the body. */
  datatype BodyStep = MoreBody | BodyFailed | BodyDone

  /** A completed operation; each phase looks at the fields that concern it.
      `status` is what reading the status line stores in `status_code_`, if it gets that far;
      `lineGood` and `isHttp` say whether the line was read whole and begins with "HTTP/";
      `location` is the URL of the last Location header, NO_URL if there is none. */
  datatype Event = Event(ok: bool, headersLeft: bool, body: BodyStep, stored: bool, status: nat,
                         lineGood: bool, isHttp: bool, location: Url, socketCreated: bool,
                         bodySent: bool, endOfFile: bool)

  datatype Client = Client(phase: Phase, ssl: bool, mode: BodyMode, status: nat, location: Url,
                           replies: seq<Reply>)

  function Fail(k: Client, error: Error): Client {
    k.(phase := Idle, replies := k.replies + [ErrorReply(error)])
  }

  function WriteRequestBody(k: Client, e: Event): Client {
    match e.body
    case MoreBody => k.(phase := WritingBody)
    case BodyFailed => Fail(k, Failed)
    case BodyDone => k.(phase := ReadingStatus)
  }

  function OnReadStatusLine(k: Client, e: Event): Client {
    if !e.ok then k.(phase := Idle)
    else
      var s := if e.stored then k.(status := e.status) else k;
      if !e.lineGood || !e.isHttp then Fail(s, InvalidResponse) else s.(phase := ReadingHeaders)
  }

  function OnReadHeaders(k: Client, e: Event): Client {
    if !e.ok then k.(phase := Idle)
    else if IsRedirect(k.status) then k.(phase := Idle, location := e.location)
    else if k.mode == Buffer then k.(phase := BufferingBody)
    else if !e.socketCreated then k.(phase := Idle)
    else k.(phase := if e.bodySent then StreamingBody else Idle, replies := k.replies + [Response(k.status)])
  }

  function Handle(k: Client, e: Event): Client {
    match k.phase
    case Resolving => if e.ok then k.(phase := Connecting) else Fail(k, NameNotResolved)
    case Connecting =>
      if !e.ok then Fail(k, ConnectionFailed)
      else k.(phase := if k.ssl then Handshaking else WritingHeaders)
    case Handshaking => if e.ok then k.(phase := WritingHeaders) else Fail(k, HandshakeNotCompleted)
    case WritingHeaders =>
      if !e.ok then Fail(k, Failed) else if e.headersLeft then k else WriteRequestBody(k, e)
    case WritingBody => if !e.ok then Fail(k, Failed) else WriteRequestBody(k, e)
    case ReadingStatus => OnReadStatusLine(k, e)
    case ReadingHeaders => OnReadHeaders(k, e)
    case BufferingBody =>
      if e.ok || e.endOfFile then k.(phase := Idle, replies := k.replies + [Response(k.status)])
      else Fail(k, Failed)
    case StreamingBody => if e.ok && e.bodySent then k else k.(phase := Idle)
    case Idle => k
  }

  /** Runs the callbacks on the completions that come in, until nothing is pending. */
  function RunClient(k: Client, es: seq<Event>): Client {
    if es == [] then k else Handle(RunClient(k, es[..|es| - 1]), es[|es| - 1])
  }

  /** One request: whether it can be made at all, what the client's uninitialised status happens to
      be, and the completions. */
  datatype Attempt = Attempt(created: bool, initialStatus: nat, events: seq<Event>)

  function Finished(a: Attempt, ssl: bool, mode: BodyMode): Client {
    RunClient(Client(Resolving, ssl, mode, a.initialStatus, NO_URL, []), a.events)
  }

  /** The client has answered and yet leaves a redirect status behind. */
  predicate Contradictory(k: Client) {
    k.replies != [] && IsRedirect(k.status)
  }

  /** How far a client can be: it answers at most once; with a redirect status it has answered only
      by giving up before the headers, and so has no location. */
  ghost predicate Sane(k: Client) {
    && |k.replies| <= 1
    && (k.replies != [] ==> k.phase == StreamingBody || k.phase == Idle)
    && (k.phase != Idle ==> k.location == NO_URL)
    && (k.replies != [] ==> k.location == NO_URL)
    && (k.phase == StreamingBody || k.phase == BufferingBody ==> !IsRedirect(k.status))
    && (k.location != NO_URL ==> IsRedirect(k.status))
  }

  lemma StepSane(k: Client, e: Event)
    requires Sane(k)
    ensures Sane(Handle(k, e))
  {
  }

  lemma {:induction false} ClientSane(k: Client, es: seq<Event>)
    requires Sane(k)
    ensures Sane(RunClient(k, es))
    decreases |es|
  {
    if es != [] {
      ClientSane(k, es[..|es| - 1]);
      StepSane(RunClient(k, es[..|es| - 1]), es[|es| - 1]);
    }
  }

  /** A client answers at most once; if it does and is left with a redirect status, it has no
      location to follow. */
  lemma ClientRepliesOnce(a: Attempt, ssl: bool, mode: BodyMode)
    ensures |Finished(a, ssl, mode).replies| <= 1
    ensures Contradictory(Finished(a, ssl, mode)) ==> Finished(a, ssl, mode).location == NO_URL
                                                      && Finished(a, ssl, mode).phase == Idle
  {
    ClientSane(Client(Resolving, ssl, mode, a.initialStatus, NO_URL, []), a.events);
  }

  /** The completion by which a client becomes contradictory: it gives up while its status is a
      redirect one, left over from before the status line or stored by a status line it refuses. */
  predicate GivesUpOnRedirect(k: Client, e: Event) {
    if k.phase == ReadingStatus then
      e.ok && (!e.lineGood || !e.isHttp) && IsRedirect(if e.stored then e.status else k.status)
    else
      && k.phase in {Resolving, Connecting, Handshaking, WritingHeaders, WritingBody}
      && IsRedirect(k.status)
      && (!e.ok || (e.body == BodyFailed && (k.phase == WritingBody || (k.phase == WritingHeaders && !e.headersLeft))))
  }

  lemma StepContradictory(k: Client, e: Event)
    requires Sane(k)
    ensures Contradictory(Handle(k, e)) <==> Contradictory(k) || GivesUpOnRedirect(k, e)
  {
  }

  ghost predicate GivesUpAt(k: Client, es: seq<Event>, i: nat) {
    i < |es| && GivesUpOnRedirect(RunClient(k, es[..i]), es[i])
  }

  lemma GivesUpNow(k: Client, es: seq<Event>)
    requires es != []
    ensures var n := |es| - 1;
            (exists i :: GivesUpAt(k, es, i)) <==>
              (exists i :: GivesUpAt(k, es[..n], i)) || GivesUpOnRedirect(RunClient(k, es[..n]), es[n])
  {
    var n := |es| - 1;
    forall i: nat | i < n ensures GivesUpAt(k, es[..n], i) == GivesUpAt(k, es, i) {
      assert es[..n][..i] == es[..i];
    }
    assert GivesUpAt(k, es, n) == GivesUpOnRedirect(RunClient(k, es[..n]), es[n]);
    if exists i :: GivesUpAt(k, es, i) {
      var i :| GivesUpAt(k, es, i);
      assert i == n || GivesUpAt(k, es[..n], i);
    }
    if exists i :: GivesUpAt(k, es[..n], i) {
      var i :| GivesUpAt(k, es[..n], i);
      assert GivesUpAt(k, es, i);
    }
  }

  /** A run of a client ends up contradictory exactly if at some completion it gives up on a
      redirect status. */
  lemma {:induction false} ContradictoryIff(k: Client, es: seq<Event>)
    requires Sane(k) && k.replies == []
    ensures Contradictory(RunClient(k, es)) <==> exists i :: GivesUpAt(k, es, i)
    decreases |es|
  {
    if es != [] {
      var n := |es| - 1;
      ContradictoryIff(k, es[..n]);
      ClientSane(k, es[..n]);
      StepContradictory(RunClient(k, es[..n]), es[n]);
      GivesUpNow(k, es);
    }
  }

  // ------------------------------------------------------------------ the redirect loop

  /** `env` fixes what the build and the outside do: whether https is built in, and the attempts. */
  datatype Environment = Environment(https: bool, mode: BodyMode, attempts: seq<Attempt>)

  /** `callback` says that the caller's callback has not been used; calling it again is a crash. */
  datatype Loader = Loader(callback: bool, url: Url, replies: seq<Reply>, requests: nat, crashed: bool)

  function Send(l: Loader, reply: Reply): Loader {
    if !l.callback then l.(crashed := true)
    else l.(callback := false, replies := l.replies + [reply])
  }

  predicate Servable(env: Environment, url: Url) {
    url.scheme == Http || (url.scheme == Https && env.https)
  }

  /** The client of the `i`-th request, for the given URL. */
  function ClientOf(env: Environment, i: nat, url: Url): Client
    requires i < |env.attempts|
  {
    Finished(env.attempts[i], url.scheme == Https, env.mode)
  }

  /** The loop from its `i`-th iteration on. A client that still waits for a completion after its
      last event blocks for ever, as does a request nothing is known about. */
  function Loop(env: Environment, i: nat, l: Loader): Loader
    requires i < MAX_REDIRECTS
    decreases MAX_REDIRECTS - i
  {
    if !Servable(env, l.url) then Send(l, ErrorReply(InvalidArgument))
    else if i >= |env.attempts| then l
    else if !env.attempts[i].created then Send(l, ErrorReply(InvalidArgument))
    else
      var k := ClientOf(env, i, l.url);
      var r := l.(requests := l.requests + 1);
      var m := if k.replies == [] then r else Send(r, k.replies[0]);
      if m.crashed || k.phase != Idle || !IsRedirect(k.status) then m
      else
        var next := m.(url := k.location);
        if !k.location.valid then Send(next, ErrorReply(InvalidResponse))
        else if i == MAX_REDIRECTS - 1 then Send(next, ErrorReply(TooManyRedirects))
        else Loop(env, i + 1, next)
  }

  function StartInternal(env: Environment, url: Url): Loader {
    var l := Loader(true, url, [], 0, false);
    if !url.valid then Send(l, ErrorReply(InvalidArgument)) else Loop(env, 0, l)
  }

  /** The valid URL that request `i`, made for `url`, is redirected to; None if the request is not
      made or not answered by such a redirect. */
  function Target(env: Environment, i: nat, url: Url): Option<Url> {
    if i >= |env.attempts| || !Servable(env, url) || !env.attempts[i].created then None
    else
      var k := ClientOf(env, i, url);
      if k.phase == Idle && IsRedirect(k.status) && k.replies == [] && k.location.valid then Some(k.location)
      else None
  }

  /** The URL of the `i`-th request: every earlier answer was a redirect to a valid URL. */
  function UrlAt(env: Environment, start: Url, i: nat): Option<Url> {
    if i == 0 then (if start.valid then Some(start) else None)
    else
      var previous := UrlAt(env, start, i - 1);
      if previous.None? then None else Target(env, i - 1, previous.value)
  }

  /** Request `i` is reached and made, and its client contradicts itself. */
  predicate ContradictoryAt(env: Environment, start: Url, i: nat) {
    var url := UrlAt(env, start, i);
    && url.Some? && i < |env.attempts| && Servable(env, url.value) && env.attempts[i].created
    && Contradictory(ClientOf(env, i, url.value))
  }

  ghost predicate ContradictoryFrom(env: Environment, start: Url, i: nat) {
    exists j :: i <= j < MAX_REDIRECTS && ContradictoryAt(env, start, j)
  }

  ghost predicate NeverCountsRedirects(k: Client) {
    ErrorReply(TooManyRedirects) !in k.replies
  }

  lemma {:induction false} ClientNeverCounts(k: Client, es: seq<Event>)
    requires NeverCountsRedirects(k)
    ensures NeverCountsRedirects(RunClient(k, es))
    decreases |es|
  {
    if es != [] {
      ClientNeverCounts(k, es[..|es| - 1]);
    }
  }

  ghost predicate Fresh(l: Loader, i: nat) {
    l.callback && l.replies == [] && !l.crashed && l.requests == i
  }

  /** One iteration that is not redirected ends the loop, with at most one answer; it crashes exactly
      if its client contradicts itself. */
  lemma LastTurn(env: Environment, start: Url, i: nat, l: Loader)
    requires i < MAX_REDIRECTS && Fresh(l, i)
    requires UrlAt(env, start, i) == Some(l.url) && Target(env, i, l.url).None?
    ensures var m := Loop(env, i, l);
            && m.requests <= i + 1 && |m.replies| <= 1 && ErrorReply(TooManyRedirects) !in m.replies
            && (m.crashed <==> ContradictoryAt(env, start, i))
  {
    if i < |env.attempts| {
      ClientRepliesOnce(env.attempts[i], l.url.scheme == Https, env.mode);
      ClientNeverCounts(Client(Resolving, l.url.scheme == Https, env.mode, env.attempts[i].initialStatus, NO_URL, []),
                        env.attempts[i].events);
    }
  }

  lemma {:induction false} NoUrlAfter(env: Environment, start: Url, i: nat, j: nat)
    requires i <= j && UrlAt(env, start, i).None?
    ensures UrlAt(env, start, j).None?
    decreases j
  {
    if i < j {
      NoUrlAfter(env, start, i, j - 1);
    }
  }

  lemma NothingAfter(env: Environment, start: Url, i: nat)
    requires i < MAX_REDIRECTS && UrlAt(env, start, i + 1).None?
    ensures UrlAt(env, start, MAX_REDIRECTS).None?
    ensures ContradictoryFrom(env, start, i) <==> ContradictoryAt(env, start, i)
  {
    forall j | i < j <= MAX_REDIRECTS ensures UrlAt(env, start, j).None? {
      NoUrlAfter(env, start, i + 1, j);
    }
  }

  lemma FromNext(env: Environment, start: Url, i: nat)
    requires i < MAX_REDIRECTS && !ContradictoryAt(env, start, i)
    ensures ContradictoryFrom(env, start, i) <==> i + 1 < MAX_REDIRECTS && ContradictoryFrom(env, start, i + 1)
  {
    if ContradictoryFrom(env, start, i) {
      var j :| i <= j < MAX_REDIRECTS && ContradictoryAt(env, start, j);
      assert i + 1 <= j;
    }
  }

  /** An iteration that is redirected goes on with the target, or gives up after the last one. */
  lemma NextTurn(env: Environment, start: Url, i: nat, l: Loader)
    requires i < MAX_REDIRECTS && Fresh(l, i) && Target(env, i, l.url).Some?
    ensures var next := l.(requests := i + 1, url := Target(env, i, l.url).value);
            Loop(env, i, l) ==
              if i == MAX_REDIRECTS - 1 then Send(next, ErrorReply(TooManyRedirects)) else Loop(env, i + 1, next)
  {
  }

  /** What the rest of the loop does, from any iteration that is reached. */
  lemma {:induction false} LoopOutcome(env: Environment, start: Url, i: nat, l: Loader)
    requires i < MAX_REDIRECTS && Fresh(l, i) && UrlAt(env, start, i) == Some(l.url)
    ensures var m := Loop(env, i, l);
            && m.requests <= MAX_REDIRECTS && |m.replies| <= 1
            && (m.crashed <==> ContradictoryFrom(env, start, i))
            && (ErrorReply(TooManyRedirects) in m.replies <==> UrlAt(env, start, MAX_REDIRECTS).Some?)
    decreases MAX_REDIRECTS - i
  {
    var target := Target(env, i, l.url);
    if target.None? {
      LastTurn(env, start, i, l);
      NothingAfter(env, start, i);
    } else {
      FromNext(env, start, i);
      NextTurn(env, start, i, l);
      if i < MAX_REDIRECTS - 1 {
        LoopOutcome(env, start, i + 1, l.(requests := i + 1, url := target.value));
      }
    }
  }

  /** Every run of one Start, whatever the network does: at most 20 requests are made, at most one
      answer is delivered, and the callback is called a second time (a crash) exactly if some client
      gives up on a redirect status. Too many redirects are reported exactly if all 20 requests
      were answered by redirects to valid URLs, the first 19 of them to URLs that can be served. */
  lemma StartOutcome(env: Environment, url: Url)
    ensures var m := StartInternal(env, url);
            && m.requests <= MAX_REDIRECTS && |m.replies| <= 1
            && (m.crashed <==> ContradictoryFrom(env, url, 0))
            && (ErrorReply(TooManyRedirects) in m.replies <==> UrlAt(env, url, MAX_REDIRECTS).Some?)
  {
    if url.valid {
      LoopOutcome(env, url, 0, Loader(true, url, [], 0, false));
    } else {
      forall j: nat ensures UrlAt(env, url, j).None? {
        NoUrlAfter(env, url, 0, j);
      }
    }
  }

  /** With a status that starts as a non-redirect one, and redirect codes stored only by status lines
      that are accepted, no client contradicts itself and nothing crashes. */
  lemma OneAnswer(env: Environment, url: Url)
    requires forall a :: a in env.attempts ==>
               && !IsRedirect(a.initialStatus)
               && forall e :: e in a.events && e.stored && IsRedirect(e.status) ==> e.lineGood && e.isHttp
    ensures !StartInternal(env, url).crashed
  {
    StartOutcome(env, url);
    forall i | 0 <= i < MAX_REDIRECTS ensures !ContradictoryAt(env, url, i) {
      var u := UrlAt(env, url, i);
      if u.Some? && i < |env.attempts| {
        var a := env.attempts[i];
        assert a in env.attempts;
        var k := Client(Resolving, u.value.scheme == Https, env.mode, a.initialStatus, NO_URL, []);
        PoliteClient(k, a.events);
      }
    }
  }

  ghost predicate Polite(m: Client) {
    && !Contradictory(m)
    && (IsRedirect(m.status) ==> m.replies == [] && (m.phase == ReadingHeaders || m.phase == Idle))
  }

  lemma StepPolite(k: Client, e: Event)
    requires Sane(k) && Polite(k)
    requires e.stored && IsRedirect(e.status) ==> e.lineGood && e.isHttp
    ensures Polite(Handle(k, e))
  {
  }

  lemma {:induction false} PoliteClient(k: Client, es: seq<Event>)
    requires k.phase == Resolving && k.replies == [] && k.location == NO_URL && !IsRedirect(k.status)
    requires forall e :: e in es && e.stored && IsRedirect(e.status) ==> e.lineGood && e.isHttp
    ensures Polite(RunClient(k, es))
    decreases |es|
  {
    if es != [] {
      var n := |es| - 1;
      PoliteClient(k, es[..n]);
      ClientSane(k, es[..n]);
      assert es[n] in es;
      StepPolite(RunClient(k, es[..n]), es[n]);
    }
  }

  // ------------------------------------------------------------------ two inputs that go wrong

  const DONE: Event := Event(true, false, BodyDone, true, 200, true, true, NO_URL, true, true, true)

  /** A plain-http server whose status line is "FOO 301 ..." is answered twice. */
  lemma RefusedRedirectCrashes() returns (env: Environment)
    ensures StartInternal(env, Url(true, Http)).crashed
  {
    var line := DONE.(status := 301, isHttp := false);
    var es := [DONE, DONE, DONE, line];
    env := Environment(false, Stream, [Attempt(true, 0, es)]);
    var k := Client(Resolving, false, Stream, 0, NO_URL, []);
    assert es[..3] == [DONE, DONE, DONE] && es[..3][..2] == [DONE, DONE] && es[..3][..2][..1] == [DONE];
    assert RunClient(k, [DONE]) == k.(phase := Connecting);
    assert RunClient(k, [DONE, DONE]) == k.(phase := WritingHeaders);
    assert RunClient(k, [DONE, DONE, DONE]) == k.(phase := ReadingStatus);
    assert Contradictory(Finished(env.attempts[0], false, Stream));
    assert ContradictoryAt(env, Url(true, Http), 0);
    StartOutcome(env, Url(true, Http));
  }

  function RedirectTo(target: Url): Attempt {
    Attempt(true, 0, [DONE, DONE, DONE, DONE.(status := 301), DONE.(location := target)])
  }

  lemma RedirectToRedirects(target: Url)
    ensures var k := Finished(RedirectTo(target), false, Stream);
            k.phase == Idle && k.status == 301 && k.replies == [] && k.location == target
  {
    var es := RedirectTo(target).events;
    var k := Client(Resolving, false, Stream, 0, NO_URL, []);
    assert es[..4] == [DONE, DONE, DONE, es[3]] && es[..4][..3] == [DONE, DONE, DONE];
    assert es[..4][..3][..2] == [DONE, DONE] && es[..4][..3][..2][..1] == [DONE];
    assert RunClient(k, [DONE]) == k.(phase := Connecting);
    assert RunClient(k, [DONE, DONE]) == k.(phase := WritingHeaders);
    assert RunClient(k, [DONE, DONE, DONE]) == k.(phase := ReadingStatus);
    assert RunClient(k, es[..4]) == k.(phase := ReadingHeaders, status := 301);
  }

  /** Too many redirects are reported even if the last redirect leads to a URL that could not have
      been requested. */
  lemma LastTargetNeedNotBeHttp() returns (env: Environment)
    ensures StartInternal(env, Url(true, Http)).replies == [ErrorReply(TooManyRedirects)]
    ensures |env.attempts| == 20 && ClientOf(env, 19, Url(true, Http)).location.scheme == OtherScheme
  {
    var http, other := Url(true, Http), Url(true, OtherScheme);
    env := Environment(false, Stream, seq(20, i => if i == 19 then RedirectTo(other) else RedirectTo(http)));
    RedirectToRedirects(http);
    RedirectToRedirects(other);
    HttpUntil(env, 19);
    StartOutcome(env, http);
    assert UrlAt(env, http, 20) == Some(other);
  }

  lemma {:induction false} HttpUntil(env: Environment, n: nat)
    requires env.mode == Stream && n <= |env.attempts|
    requires forall i :: 0 <= i < n ==> env.attempts[i] == RedirectTo(Url(true, Http))
    ensures UrlAt(env, Url(true, Http), n) == Some(Url(true, Http))
  {
    if n > 0 {
      HttpUntil(env, n - 1);
      RedirectToRedirects(Url(true, Http));
    }
  }

  // ------------------------------------------------------------------ the loader

  class URLLoaderImpl {
    var callback: bool
    var currentUrl: Url
    // History: the answers delivered, the requests made, and whether an empty callback was called.
    var replies: seq<Reply>
    var requests: nat
    var crashed: bool

    ghost function View(): Loader
      reads this
    {
      Loader(callback, currentUrl, replies, requests, crashed)
    }

    constructor (url: Url)
      ensures View() == Loader(true, url, [], 0, false)
    {
      callback, currentUrl, replies, requests, crashed := true, url, [], 0, false;
    }

    method SendResponse(reply: Reply)
      modifies this
      ensures View() == Send(old(View()), reply)
    {
      var taken := callback;
      callback := false;
      if taken {
        replies := replies + [reply];
      } else {
        crashed := true;
      }
    }

    /** One pass through the loop; `again` says that the redirect is to be followed. */
    method FollowOnce(env: Environment, i: nat) returns (again: bool)
      requires i < MAX_REDIRECTS
      modifies this
      ensures Loop(env, i, old(View())) ==
              if !again then View()
              else if i == MAX_REDIRECTS - 1 then Send(View(), ErrorReply(TooManyRedirects))
              else Loop(env, i + 1, View())
    {
      if !Servable(env, currentUrl) {
        SendResponse(ErrorReply(InvalidArgument));
        return false;
      }
      if i >= |env.attempts| {
        return false;
      }
      if !env.attempts[i].created {
        SendResponse(ErrorReply(InvalidArgument));
        return false;
      }
      var client := ClientOf(env, i, currentUrl);
      requests := requests + 1;
      if client.replies != [] {
        SendResponse(client.replies[0]);
      }
      if crashed || client.phase != Idle || !IsRedirect(client.status) {
        return false;
      }
      currentUrl := client.location;
      if !currentUrl.valid {
        SendResponse(ErrorReply(InvalidResponse));
        return false;
      }
      return true;
    }

    method RunStart(env: Environment)
      requires callback && replies == [] && requests == 0 && !crashed
      modifies this
      ensures View() == StartInternal(env, old(currentUrl))
    {
      if !currentUrl.valid {
        SendResponse(ErrorReply(InvalidArgument));
        return;
      }
      ghost var result := Loop(env, 0, View());
      var redirectsLeft := MAX_REDIRECTS;
      while true
        invariant 0 < redirectsLeft <= MAX_REDIRECTS
        invariant Loop(env, MAX_REDIRECTS - redirectsLeft, View()) == result
        decreases redirectsLeft
      {
        var again := FollowOnce(env, MAX_REDIRECTS - redirectsLeft);
        if !again {
          return;
        }
        redirectsLeft := redirectsLeft - 1;
        if redirectsLeft == 0 {
          break;
        }
      }
      SendResponse(ErrorReply(TooManyRedirects));
    }
  }
}
