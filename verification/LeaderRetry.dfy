/**
 internal/k1s/client.go: one client call is up to fourteen HTTP requests. `Retry` says which requests a
 call sends and what it returns, for every stream of replies; K1s.Client.DoJSONWithLeaderRetry is the loop.
 */
module LeaderRetry {
  import opened Json

  const FALLBACK_ATTEMPTS: nat := 12

  datatype Body = Empty | NotAnObject | Fields(fields: map<string, Value>)

  // What comes back for one request: nothing at all, or a status code and a body.
  datatype Reply = Unreachable | Response(status: int, body: Body)

  // Wrapped(e) is fmt.Errorf with %w: errors.As looks through it.
  datatype Err = Nil | Api(status: int) | NotLeader(advertiseAddr: string) | Other | Wrapped(inner: Err)

  datatype Dest = Service | Leader(addr: string)

  // Everything outside the operator's control during one call. `replies(r)` answers the call's r-th request,
  // `cancelled(a)` ends the pause before fallback a, `parses` is url.Parse, and `effect` tells whether some
  // request took effect on k1s although the call returns an error.
  datatype Script = Script(replies: nat -> Reply, cancelled: nat -> bool, parses: string -> bool, effect: bool)

  datatype Heard = Heard(err: Err, fields: map<string, Value>)

  // doJSONRequest, from the reply on
  function Classify(reply: Reply): Heard {
    match reply
    case Unreachable => Heard(Other, map[])
    case Response(status, body) =>
      if status < 200 || status > 299 then
        Heard(ParseNotLeader(status, body), map[])
      else
        match body
        case Empty => Heard(Nil, map[])
        case NotAnObject => Heard(Other, map[])
        case Fields(fields) => Heard(Nil, fields)
  }

  function ParseNotLeader(status: int, body: Body): Err {
    if status == 409 && body.Fields? && TextOnly(body.fields, "error") == "not_leader"
    then NotLeader(TextOnly(body.fields, "advertise_addr"))
    else Api(status)
  }

  function IsNotFound(err: Err): bool {
    match err
    case Api(status) => status == 404
    case Wrapped(inner) => IsNotFound(inner)
    case _ => false
  }

  datatype Attempt = Attempt(dests: seq<Dest>, err: Err, fields: map<string, Value>)

  // Which error a failed retry wraps: the advertised leader's, unless it was never asked.
  function GiveUp(leaderErr: Err, fallbackErr: Err): Err {
    Wrapped(if leaderErr.Nil? then fallbackErr else leaderErr)
  }

  function Fallback(s: Script, dests: seq<Dest>, leaderErr: Err, fallbackErr: Err, attempt: nat): Attempt
    requires attempt <= FALLBACK_ATTEMPTS
    decreases FALLBACK_ATTEMPTS - attempt, |dests|
  {
    if attempt == FALLBACK_ATTEMPTS then Attempt(dests, GiveUp(leaderErr, fallbackErr), map[])
    else if s.cancelled(attempt) then Attempt(dests, Other, map[])
    else
      var heard := Classify(s.replies(|dests|));
      if heard.err.Nil? then Attempt(dests + [Service], Nil, heard.fields)
      else if !heard.err.NotLeader? then Attempt(dests + [Service], GiveUp(leaderErr, heard.err), map[])
      else Fallback(s, dests + [Service], leaderErr, heard.err, attempt + 1)
  }

  function Retry(s: Script): Attempt {
    var first := Classify(s.replies(0));
    if !first.err.NotLeader? then Attempt([Service], first.err, first.fields)
    else if first.err.advertiseAddr == "" then Fallback(s, [Service], Nil, first.err, 0)
    else if !s.parses(first.err.advertiseAddr) then Attempt([Service], first.err, map[])
    else
      var dests := [Service, Leader(first.err.advertiseAddr)];
      var leader := Classify(s.replies(1));
      if leader.err.Nil? then Attempt(dests, Nil, leader.fields)
      else Fallback(s, dests, leader.err, first.err, 0)
  }

  // The reply to the r-th request of a call, classified
  function ErrAt(s: Script, r: nat): Err {
    Classify(s.replies(r)).err
  }

  // What a run of the fallback loop that began after `asked` earlier requests came to.
  ghost predicate FellBack(s: Script, dests: seq<Dest>, leaderErr: Err, attempt: nat, a: Attempt) {
    var asked, n, most := |dests|, |a.dests|, |dests| + FALLBACK_ATTEMPTS - attempt;
    && asked <= n <= most
    && a.dests[..asked] == dests
    && (forall r :: asked <= r < n ==> a.dests[r] == Service)
    && (forall r :: asked <= r < n - 1 ==> ErrAt(s, r).NotLeader?)
    && (a.err.Nil? <==> n > asked && ErrAt(s, n - 1).Nil?)
    && (IsNotFound(a.err) <==>
         && !a.err.Nil?
         && (n == most || (n > asked && !ErrAt(s, n - 1).NotLeader?))
         && (if leaderErr.Nil? then n > asked && ErrAt(s, n - 1) == Api(404) else leaderErr == Api(404)))
  }

  lemma {:induction false} FallbackShape(s: Script, dests: seq<Dest>, leaderErr: Err, fallbackErr: Err, attempt: nat)
    requires attempt <= FALLBACK_ATTEMPTS && fallbackErr.NotLeader? && !leaderErr.Wrapped?
    ensures FellBack(s, dests, leaderErr, attempt, Fallback(s, dests, leaderErr, fallbackErr, attempt))
    decreases FALLBACK_ATTEMPTS - attempt
  {
    if attempt < FALLBACK_ATTEMPTS && !s.cancelled(attempt) && ErrAt(s, |dests|).NotLeader? {
      var more := dests + [Service];
      FallbackShape(s, more, leaderErr, ErrAt(s, |dests|), attempt + 1);
      var a := Fallback(s, more, leaderErr, ErrAt(s, |dests|), attempt + 1);
      assert a.dests[..|dests|] == a.dests[..|more|][..|dests|] == dests;
      assert a.dests[|dests|] == a.dests[..|more|][|dests|] == Service;
    }
  }

  // Where the fallback requests start: after the first request and, if it was asked, the advertised leader.
  function Fallbacks(s: Script): nat {
    if ErrAt(s, 0).NotLeader? && ErrAt(s, 0).advertiseAddr != "" && s.parses(ErrAt(s, 0).advertiseAddr) then 2 else 1
  }

  // The call gets as far as the fallback loop.
  predicate EntersFallback(s: Script) {
    ErrAt(s, 0).NotLeader? && if Fallbacks(s) == 2 then !ErrAt(s, 1).Nil? else ErrAt(s, 0).advertiseAddr == ""
  }

  function Prefix(s: Script): seq<Dest> {
    if Fallbacks(s) == 2 then [Service, Leader(ErrAt(s, 0).advertiseAddr)] else [Service]
  }

  function LeaderErr(s: Script): Err {
    if Fallbacks(s) == 2 then ErrAt(s, 1) else Nil
  }

  lemma RetryShape(s: Script)
    ensures EntersFallback(s) ==> FellBack(s, Prefix(s), LeaderErr(s), 0, Retry(s))
    ensures !EntersFallback(s) ==>
      && Retry(s).dests == Prefix(s)
      && (Retry(s).err.Nil? <==> ErrAt(s, |Prefix(s)| - 1).Nil?)
      && (IsNotFound(Retry(s).err) <==> ErrAt(s, 0) == Api(404))
  {
    if EntersFallback(s) {
      FallbackShape(s, Prefix(s), LeaderErr(s), ErrAt(s, 0), 0);
    }
  }

  // At most fourteen requests: the service, at most one advertised leader, then at most twelve to the service.
  lemma RequestBound(s: Script)
    ensures var dests := Retry(s).dests;
      && 1 <= |dests| <= 14
      && |dests| <= Fallbacks(s) + FALLBACK_ATTEMPTS
      && dests[0] == Service
      && (Fallbacks(s) == 2 ==> |dests| >= 2 && dests[1] == Leader(ErrAt(s, 0).advertiseAddr))
      && (forall r :: Fallbacks(s) <= r < |dests| ==> dests[r] == Service)
  {
    RetryShape(s);
    assert Retry(s).dests[..Fallbacks(s)] == Prefix(s);
    assert Retry(s).dests[0] == Prefix(s)[0];
    assert Fallbacks(s) == 2 ==> Retry(s).dests[1] == Prefix(s)[1];
  }

  // No request follows a success, and the call succeeds exactly when its last request did.
  lemma SuccessIsLast(s: Script)
    ensures var n := |Retry(s).dests|;
      && n >= 1
      && (forall r :: 0 <= r < n - 1 ==> !ErrAt(s, r).Nil?)
      && (Retry(s).err.Nil? <==> ErrAt(s, n - 1).Nil?)
  {
    RetryShape(s);
  }

  // ---------- how long a call goes on ----------

  // A 409 whose body says not_leader
  ghost predicate SaysNotLeader(reply: Reply) {
    && reply.Response? && reply.status == 409 && reply.body.Fields?
    && "error" in reply.body.fields && reply.body.fields["error"] == Text("not_leader")
  }

  // The address that comes with it, if any
  ghost function Advertised(reply: Reply): string
    requires SaysNotLeader(reply)
  {
    var fields := reply.body.fields;
    if "advertise_addr" in fields && fields["advertise_addr"].Text? then fields["advertise_addr"].s else ""
  }

  // A 2xx whose body, if there is one, is an object
  ghost predicate Succeeds(reply: Reply) {
    reply.Response? && 200 <= reply.status <= 299 && !reply.body.NotAnObject?
  }

  lemma ClassifyExactly(reply: Reply)
    ensures Classify(reply).err.Nil? <==> Succeeds(reply)
    ensures Classify(reply).err.NotLeader? <==> SaysNotLeader(reply)
    ensures SaysNotLeader(reply) ==> Classify(reply).err.advertiseAddr == Advertised(reply)
  {
  }

  // The first reply says not_leader, and no leader it advertises takes the request: the service is asked again, after
  // `asked` earlier requests.
  ghost predicate FallsBack(s: Script, asked: nat) {
    && SaysNotLeader(s.replies(0))
    && if Advertised(s.replies(0)) == "" then asked == 1
       else asked == 2 && s.parses(Advertised(s.replies(0))) && !Succeeds(s.replies(1))
  }

  // The service is asked n more times: each of them but the last is answered not_leader, no pause before one is
  // cancelled, and after the n-th there is a reason to stop.
  ghost predicate StopsAfter(s: Script, asked: nat, n: nat) {
    && n <= 12
    && (forall b :: 0 <= b < n ==> !s.cancelled(b))
    && (forall r :: asked <= r < asked + n - 1 ==> SaysNotLeader(s.replies(r)))
    && (n == 12 || (n > 0 && !SaysNotLeader(s.replies(asked + n - 1))) || s.cancelled(n))
  }

  lemma {:induction false} FallbackCount(s: Script, dests: seq<Dest>, asked: nat, leaderErr: Err, fallbackErr: Err,
                                         attempt: nat, n: nat)
    requires attempt <= n && |dests| == asked + attempt && StopsAfter(s, asked, n)
    requires attempt > 0 ==> SaysNotLeader(s.replies(asked + attempt - 1))
    ensures var a := Fallback(s, dests, leaderErr, fallbackErr, attempt);
      && |a.dests| == asked + n
      && (a.err.Nil? <==> n > attempt && Succeeds(s.replies(asked + n - 1)))
      && (a.err.Nil? ==> a.fields == Classify(s.replies(asked + n - 1)).fields)
    decreases n - attempt
  {
    if attempt < n {
      ClassifyExactly(s.replies(asked + attempt));
      if attempt < n - 1 || SaysNotLeader(s.replies(asked + attempt)) {
        FallbackCount(s, dests + [Service], asked, leaderErr, ErrAt(s, |dests|), attempt + 1, n);
      }
    }
  }

  // Exactly how often the service is asked again, and when that succeeds.
  lemma RetriesExactly(s: Script, asked: nat, n: nat)
    requires FallsBack(s, asked) && StopsAfter(s, asked, n)
    ensures |Retry(s).dests| == asked + n
    ensures Retry(s).err.Nil? <==> n > 0 && Succeeds(s.replies(asked + n - 1))
  {
    ClassifyExactly(s.replies(0));
    ClassifyExactly(s.replies(1));
    FallbackCount(s, Prefix(s), asked, LeaderErr(s), ErrAt(s, 0), 0, n);
  }

  // A call does not give up early: a success among the first twelve service retries, with only not_leader replies
  // before it, is reached.
  lemma PersistsToSuccess(s: Script, asked: nat, attempt: nat)
    requires FallsBack(s, asked) && attempt < 12 && Succeeds(s.replies(asked + attempt))
    requires forall r :: asked <= r < asked + attempt ==> SaysNotLeader(s.replies(r))
    requires forall b :: 0 <= b <= attempt ==> !s.cancelled(b)
    ensures Retry(s).err.Nil? && |Retry(s).dests| == asked + attempt + 1
  {
    ClassifyExactly(s.replies(asked + attempt));
    RetriesExactly(s, asked, attempt + 1);
  }

  // And it does not go on for ever: after twelve not_leader replies it fails.
  lemma TwelveRetries(s: Script, asked: nat)
    requires FallsBack(s, asked) && forall b :: 0 <= b < 12 ==> !s.cancelled(b)
    requires forall r :: asked <= r < asked + 12 ==> SaysNotLeader(s.replies(r))
    ensures |Retry(s).dests| == asked + 12 && !Retry(s).err.Nil?
  {
    ClassifyExactly(s.replies(asked + 11));
    RetriesExactly(s, asked, 12);
  }

  // What a successful call returns is what its last reply held.
  lemma SuccessReturnsLastReply(s: Script)
    requires Retry(s).err.Nil?
    ensures |Retry(s).dests| >= 1
    ensures var last := s.replies(|Retry(s).dests| - 1);
      && Succeeds(last)
      && Retry(s).fields == if last.body.Fields? then last.body.fields else map[]
  {
    SuccessIsLast(s);
    ClassifyExactly(s.replies(|Retry(s).dests| - 1));
    if EntersFallback(s) {
      FallbackFields(s, Prefix(s), LeaderErr(s), ErrAt(s, 0), 0);
    }
  }

  lemma {:induction false} FallbackFields(s: Script, dests: seq<Dest>, leaderErr: Err, fallbackErr: Err, attempt: nat)
    requires attempt <= FALLBACK_ATTEMPTS
    ensures var a := Fallback(s, dests, leaderErr, fallbackErr, attempt);
      a.err.Nil? ==> |a.dests| > 0 && a.fields == Classify(s.replies(|a.dests| - 1)).fields
    decreases FALLBACK_ATTEMPTS - attempt
  {
    if attempt < FALLBACK_ATTEMPTS && ErrAt(s, |dests|).NotLeader? {
      FallbackFields(s, dests + [Service], leaderErr, ErrAt(s, |dests|), attempt + 1);
    }
  }

  // A call goes past its first request, and a fallback follows a fallback, only on a not_leader reply.
  lemma RetriesFollowNotLeader(s: Script, r: nat)
    requires r + 1 < |Retry(s).dests|
    ensures ErrAt(s, 0).NotLeader?
    ensures r >= Fallbacks(s) ==> ErrAt(s, r).NotLeader?
  {
    RetryShape(s);
  }

  // The call ran to its end: no pause was cancelled before the fallbacks were used up or answered.
  ghost predicate RanOut(s: Script) {
    var n := |Retry(s).dests|;
    n == Fallbacks(s) + FALLBACK_ATTEMPTS || (n > Fallbacks(s) && !ErrAt(s, n - 1).NotLeader?)
  }

  // Exactly when a call counts as NotFound: the first reply was a 404, or the retries ran out without success
  // and the wrapped error, the advertised leader's where one was asked, is a 404.
  lemma NotFoundExactly(s: Script)
    ensures var n := |Retry(s).dests|;
      IsNotFound(Retry(s).err) <==>
        || ErrAt(s, 0) == Api(404)
        || (ErrAt(s, 0).NotLeader? && Fallbacks(s) == 2 && ErrAt(s, 1) == Api(404)
            && RanOut(s) && !ErrAt(s, n - 1).Nil?)
        || (ErrAt(s, 0).NotLeader? && ErrAt(s, 0).advertiseAddr == "" && n > 1 && ErrAt(s, n - 1) == Api(404))
  {
    RetryShape(s);
  }

  // Some replica answered this reply with success or with 404.
  predicate Acknowledges(reply: Reply) {
    reply.Response? && (200 <= reply.status <= 299 || reply.status == 404)
  }

  // A call is never taken for done unless some replica said so in answer to that very call.
  lemma DoneWasAnswered(s: Script) returns (r: nat)
    requires Retry(s).err.Nil? || IsNotFound(Retry(s).err)
    ensures r < |Retry(s).dests| && Acknowledges(s.replies(r))
    ensures IsNotFound(Retry(s).err) ==> s.replies(r).status == 404
  {
    RequestBound(s);
    SuccessIsLast(s);
    NotFoundExactly(s);
    var n := |Retry(s).dests|;
    r := if ErrAt(s, 0) == Api(404) then 0
         else if IsNotFound(Retry(s).err) && Fallbacks(s) == 2 then 1 else n - 1;
  }

  // The converse fails: with the advertised leader unreachable, the service's own 404 is not recognised.
  lemma ServiceNotFoundIsLost() returns (s: Script)
    ensures |Retry(s).dests| == 3 && ErrAt(s, 2) == Api(404)
    ensures !IsNotFound(Retry(s).err)
  {
    var redirect := Response(409, Fields(map["error" := Text("not_leader"), "advertise_addr" := Text("l")]));
    var replies := (r: nat) => if r == 0 then redirect else if r == 1 then Unreachable else Response(404, Empty);
    s := Script(replies, _ => false, _ => true, false);
    assert ErrAt(s, 0) == NotLeader("l") && ErrAt(s, 1) == Other && ErrAt(s, 2) == Api(404);
  }
}
