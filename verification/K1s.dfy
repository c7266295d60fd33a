/** internal/k1s/client.go: the client and the part of the k1s store that one object's requests reach. */
module K1s {
  import opened Wrappers
  import opened Digests
  import opened Json
  import opened Resources
  import opened LeaderRetry

  // How one client call ended. `effect` matters only for an answer other than Ok: k1s may have acted all the same.
  datatype Answer = Ok | NotFound | Failed
  datatype Call = Call(answer: Answer, effect: bool, fields: map<string, Value>)

  type Oracle = nat -> Call

  // A mutating or reading call that was sent
  datatype Sent =
    | SentApply(raw: Raw, applied: Call)
    | SentDelete(target: Target, deleted: Call)
    | SentRead(route: Route, read: Call)

  // `remote` holds what this object put on k1s and is still there. `calls` counts the client calls of the pass.
  datatype Store = Store(remote: map<Key, Raw>, calls: nat, trace: seq<Sent>)

  function CallOf(s: Script): Call {
    var a := Retry(s);
    Call(if a.err.Nil? then Ok else if IsNotFound(a.err) then NotFound else Failed, s.effect, a.fields)
  }

  function AlwaysOk(): Oracle {
    (c: nat) => Call(Ok, false, map[])
  }

  function OracleOf(script: nat -> Script): Oracle {
    (i: nat) => CallOf(script(i))
  }

  function AfterApply(k: Store, o: Oracle, key: Key, raw: Raw): Store {
    var call := o(k.calls);
    Store(if call.answer.Ok? || call.effect then k.remote[key := raw] else k.remote,
          k.calls + 1, k.trace + [SentApply(raw, call)])
  }

  // k1s is taken at its word: after a 404 the resource is absent.
  function AfterDelete(k: Store, o: Oracle, target: Target): Store {
    var call := o(k.calls);
    Store(if !call.answer.Failed? || call.effect then Without(k.remote, target) else k.remote,
          k.calls + 1, k.trace + [SentDelete(target, call)])
  }

  function AfterRead(k: Store, o: Oracle, route: Route): Store {
    k.(calls := k.calls + 1, trace := k.trace + [SentRead(route, o(k.calls))])
  }

  // A delete request removes everything its target addresses.
  function Without(remote: map<Key, Raw>, target: Target): map<Key, Raw> {
    map k | k in remote && TargetOf(k) != Some(target) :: remote[k]
  }

  datatype Route =
    | ApplyRoute
    | DeleteRoute(target: Target)
    | AppStatusRoute(ref: string)
    | InferenceStatusRoute(cellSet: bool, namespace: string, name: string)

  datatype Request = Request(verb: string, dest: Dest, route: Route, body: Raw)

  class Client {
    const script: nat -> Script
    var remote: map<Key, Raw>
    var calls: nat
    var trace: seq<Sent>
    // the requests of the last call
    var sent: seq<Request>

    constructor (script: nat -> Script, remote: map<Key, Raw>)
      ensures this.script == script && State() == Store(remote, 0, [])
    {
      this.script, this.remote, calls, trace, sent := script, remote, 0, [], [];
    }

    function State(): Store
      reads this
    {
      Store(remote, calls, trace)
    }

    method DoJSONRequest(verb: string, dest: Dest, route: Route, body: Raw) returns (err: Err, out: map<string, Value>)
      modifies this`sent
      ensures sent == old(sent) + [Request(verb, dest, route, body)]
      ensures Heard(err, out) == Classify(script(calls).replies(|old(sent)|))
    {
      var heard := Classify(script(calls).replies(|sent|));
      sent := sent + [Request(verb, dest, route, body)];
      return heard.err, heard.fields;
    }

    // All requests of a call carry the same method, route and body; only where they go differs.
    ghost predicate Carries(dests: seq<Dest>, verb: string, route: Route, body: Raw)
      reads this`sent
    {
      |sent| == |dests| && forall r :: 0 <= r < |sent| ==> sent[r] == Request(verb, dests[r], route, body)
    }

    method DoJSONWithLeaderRetry(verb: string, route: Route, body: Raw) returns (err: Err, out: map<string, Value>)
      modifies this`sent
      ensures err == Retry(script(calls)).err && (err.Nil? ==> out == Retry(script(calls)).fields)
      ensures Carries(Retry(script(calls)).dests, verb, route, body)
    {
      var s := script(calls);
      sent := [];
      err, out := DoJSONRequest(verb, Service, route, body);
      if !err.NotLeader? {
        return;
      }
      var leaderErr := Nil;
      ghost var dests := [Service];
      if err.advertiseAddr != "" {
        if !s.parses(err.advertiseAddr) {
          return;
        }
        leaderErr, out := DoJSONRequest(verb, Leader(err.advertiseAddr), route, body);
        dests := [Service, Leader(err.advertiseAddr)];
        if leaderErr.Nil? {
          return Nil, out;
        }
      }
      var fallbackErr := err;
      for attempt := 0 to FALLBACK_ATTEMPTS
        invariant Carries(dests, verb, route, body)
        invariant Retry(s) == Fallback(s, dests, leaderErr, fallbackErr, attempt)
        invariant fallbackErr.NotLeader?
      {
        if s.cancelled(attempt) {
          return Other, out;
        }
        fallbackErr, out := DoJSONRequest(verb, Service, route, body);
        dests := dests + [Service];
        if fallbackErr.Nil? {
          return Nil, out;
        }
        if !fallbackErr.NotLeader? {
          break;
        }
      }
      return GiveUp(leaderErr, fallbackErr), out;
    }

    method Apply(key: Key, raw: Raw) returns (err: Err, out: map<string, Value>)
      modifies this
      ensures State() == AfterApply(old(State()), OracleOf(script), key, raw)
      ensures remote == if err.Nil? || script(old(calls)).effect then old(remote)[key := raw] else old(remote)
      ensures err == Retry(script(old(calls))).err && (err.Nil? ==> out == Retry(script(old(calls))).fields)
      ensures Carries(Retry(script(old(calls))).dests, "POST", ApplyRoute, raw)
    {
      err, out := DoJSONWithLeaderRetry("POST", ApplyRoute, raw);
      var call := CallOf(script(calls));
      if err.Nil? || call.effect {
        remote := remote[key := raw];
      }
      trace := trace + [SentApply(raw, call)];
      calls := calls + 1;
    }

    // DeleteApp, DeleteInferenceCell and DeleteInferenceCellSet post an empty object to the route of their target.
    method Delete(target: Target) returns (err: Err)
      modifies this
      ensures State() == AfterDelete(old(State()), OracleOf(script), target)
      ensures remote == if err.Nil? || IsNotFound(err) || script(old(calls)).effect then Without(old(remote), target)
                        else old(remote)
      ensures err == Retry(script(old(calls))).err
      ensures Carries(Retry(script(old(calls))).dests, "POST", DeleteRoute(target), [123, 125])
    {
      var out;
      err, out := DoJSONWithLeaderRetry("POST", DeleteRoute(target), [123, 125]);
      var call := CallOf(script(calls));
      if err.Nil? || IsNotFound(err) || call.effect {
        remote := Without(remote, target);
      }
      trace := trace + [SentDelete(target, call)];
      calls := calls + 1;
    }

    method GetJSON(route: Route) returns (err: Err, out: map<string, Value>)
      modifies this
      ensures State() == AfterRead(old(State()), OracleOf(script), route)
      ensures err == Retry(script(old(calls))).err && (err.Nil? ==> out == Retry(script(old(calls))).fields)
      ensures Carries(Retry(script(old(calls))).dests, "GET", route, [])
    {
      err, out := DoJSONWithLeaderRetry("GET", route, []);
      trace := trace + [SentRead(route, CallOf(script(calls)))];
      calls := calls + 1;
    }
  }
}
