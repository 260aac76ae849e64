/**
 * The calls between the UI and the manager (manager/ipc_client.go, manager/ipc_server.go): two
 * typed streams, any number of client threads behind rpcMutex, and the server's loop. Encoding
 * or decoding one value is one action.
 */
module Rpc {
  import opened Text

  datatype Method =
    StoredConfig | RuntimeConfig | Start | Stop | WaitForStop | Delete | GetState | GlobalState
    | Create | Tunnels | Quit | UpdateState | Update

  /** The types of the values on the streams. */
  datatype Kind = AString | AConfig | ATunnelState | ATunnel | SomeTunnels | ABool | AnUpdateState

  /** A value on a stream; the payload is whatever the type holds. */
  datatype Token = Call(m: Method) | Datum(kind: Kind, payload: string)

  /** What a service method returned. */
  datatype Outcome = Outcome(value: string, error: string)

  // ----- The client's half of the protocol -----

  /** What a call encodes. */
  function Sends(m: Method, arg: string): seq<Token> {
    match m
    case GlobalState => [Call(m)]
    case Tunnels => [Call(m)]
    case UpdateState => [Call(m)]
    case Update => [Call(m)]
    case Create => [Call(m), Datum(AConfig, arg)]
    case Quit => [Call(m), Datum(ABool, arg)]
    case _ => [Call(m), Datum(AString, arg)]
  }

  /** The variables a call decodes its reply into. */
  function Expects(m: Method): seq<Kind> {
    match m
    case StoredConfig => [AConfig, AString]
    case RuntimeConfig => [AConfig, AString]
    case GetState => [ATunnelState, AString]
    case GlobalState => [ATunnelState]
    case Create => [ATunnel, AString]
    case Tunnels => [SomeTunnels, AString]
    case Quit => [ABool, AString]
    case UpdateState => [AnUpdateState]
    case Update => []
    case _ => [AString]
  }

  /** What a call returns, from the values decoded: rpcDecodeError takes the last string, and an
      empty string means no error. */
  function Returned(m: Method, got: seq<Token>): Outcome
    requires |got| == |Expects(m)| && forall i :: 0 <= i < |got| ==> got[i].Datum?
  {
    match m
    case Update => Outcome("", "")
    case GlobalState => Outcome(got[0].payload, "")
    case UpdateState => Outcome(got[0].payload, "")
    case Start => Outcome("", got[0].payload)
    case Stop => Outcome("", got[0].payload)
    case WaitForStop => Outcome("", got[0].payload)
    case Delete => Outcome("", got[0].payload)
    case _ => Outcome(got[0].payload, got[1].payload)
  }

  // ----- The server's half -----

  /** The variable the server decodes an argument into. */
  function Takes(m: Method): seq<Kind> {
    match m
    case StoredConfig => [AString]
    case RuntimeConfig => [AString]
    case Start => [AString]
    case Stop => [AString]
    case WaitForStop => [AString]
    case Delete => [AString]
    case GetState => [AString]
    case Create => [AConfig]
    case Quit => [ABool]
    case _ => []
  }

  /** What the server encodes. */
  function Replies(m: Method, o: Outcome): seq<Token> {
    match m
    case StoredConfig => [Datum(AConfig, o.value), Datum(AString, o.error)]
    case RuntimeConfig => [Datum(AConfig, o.value), Datum(AString, o.error)]
    case Start => [Datum(AString, o.error)]
    case Stop => [Datum(AString, o.error)]
    case WaitForStop => [Datum(AString, o.error)]
    case Delete => [Datum(AString, o.error)]
    case GetState => [Datum(ATunnelState, o.value), Datum(AString, o.error)]
    case GlobalState => [Datum(ATunnelState, o.value)]
    case Create => [Datum(ATunnel, o.value), Datum(AString, o.error)]
    case Tunnels => [Datum(SomeTunnels, o.value), Datum(AString, o.error)]
    case Quit => [Datum(ABool, o.value), Datum(AString, o.error)]
    case UpdateState => [Datum(AnUpdateState, o.value)]
    case Update => []
  }

  // ----- The machine -----

  /** The thread that has rpcMutex, in the call numbered id. */
  datatype Client = Client(thread: int, id: nat, m: Method, arg: string, unsent: seq<Token>, got: seq<Token>)

  datatype Server =
    | Waiting                                  // to decode a method
    | Reading(m: Method, kinds: seq<Kind>, got: seq<Token>)
    | Replying(tokens: seq<Token>)

  /** `calls` and `served` count the calls begun and the requests read. */
  datatype State = State(client: Option<Client>, server: Server, requests: seq<Token>, replies: seq<Token>,
    calls: nat, served: nat)

  const INITIAL := State(None, Waiting, [], [], 0, 0)

  /** What the service returns for the n-th request. */
  type Service = (nat, Method, string) -> Outcome

  datatype Action = Lock(thread: int, m: Method, arg: string) | Encode | Decode | Unlock | Serve

  /** The argument as the server has it. */
  function Argument(got: seq<Token>): string {
    if got != [] && got[0].Datum? then got[0].payload else ""
  }

  predicate OfKind(t: Token, k: Kind) {
    t.Datum? && t.kind == k
  }

  predicate Enabled(s: State, a: Action) {
    match a
    case Lock(_, _, _) => s.client.None?
    case Encode => s.client.Some? && s.client.value.unsent != []
    case Decode =>
      && s.client.Some? && s.client.value.unsent == [] && s.replies != []
      && |s.client.value.got| < |Expects(s.client.value.m)|
    case Unlock => s.client.Some? && s.client.value.unsent == [] && |s.client.value.got| == |Expects(s.client.value.m)|
    case Serve => s.server.Replying? || (s.server.Reading? && s.server.kinds == []) || s.requests != []
  }

  /** The next value is of the type it is decoded into. */
  predicate WellTyped(s: State, a: Action)
    requires Enabled(s, a)
  {
    match a
    case Decode => OfKind(s.replies[0], Expects(s.client.value.m)[|s.client.value.got|])
    case Serve =>
      (s.server.Waiting? ==> s.requests[0].Call?)
      && (s.server.Reading? && s.server.kinds != [] ==> OfKind(s.requests[0], s.server.kinds[0]))
    case _ => true
  }

  function Serve(h: Service, s: State): State
    requires Enabled(s, Action.Serve) && WellTyped(s, Action.Serve)
  {
    match s.server
    case Waiting => s.(server := Reading(s.requests[0].m, Takes(s.requests[0].m), []), requests := s.requests[1..])
    case Reading(m, kinds, got) =>
      if kinds != [] then s.(server := Reading(m, kinds[1..], got + [s.requests[0]]), requests := s.requests[1..])
      else s.(server := Replying(Replies(m, h(s.served, m, Argument(got)))), served := s.served + 1)
    case Replying(tokens) =>
      if tokens == [] then s.(server := Waiting)
      else s.(server := Replying(tokens[1..]), replies := s.replies + [tokens[0]])
  }

  function Next(h: Service, s: State, a: Action): State
    requires Enabled(s, a) && WellTyped(s, a)
  {
    match a
    case Lock(t, m, arg) => s.(client := Some(Client(t, s.calls, m, arg, Sends(m, arg), [])), calls := s.calls + 1)
    case Encode =>
      var c := s.client.value;
      s.(client := Some(c.(unsent := c.unsent[1..])), requests := s.requests + [c.unsent[0]])
    case Decode =>
      var c := s.client.value;
      s.(client := Some(c.(got := c.got + [s.replies[0]])), replies := s.replies[1..])
    case Unlock => s.(client := None)
    case Serve => Serve(h, s)
  }

  // ----- What is on the way -----

  /** The replies the server still writes if it gets just these values, None if it cannot make
      sense of them, and the number of requests then served. */
  function Owed(h: Service, served: nat, server: Server, input: seq<Token>): Option<seq<Token>>
    decreases |input|, match server case Waiting => 0 case Reading(_, _, _) => 2 case Replying(_) => 1
  {
    match server
    case Waiting =>
      if input == [] then Some([])
      else if input[0].Call? then Owed(h, served, Reading(input[0].m, Takes(input[0].m), []), input[1..])
      else None
    case Reading(m, kinds, got) =>
      if kinds == [] then Owed(h, served + 1, Replying(Replies(m, h(served, m, Argument(got)))), input)
      else if input != [] && OfKind(input[0], kinds[0]) then
        Owed(h, served, Reading(m, kinds[1..], got + [input[0]]), input[1..])
      else None
    case Replying(tokens) =>
      var rest := Owed(h, served, Waiting, input);
      if rest.Some? then Some(tokens + rest.value) else None
  }

  /** The requests not served yet, as the server counts them. */
  function Unserved(server: Server, input: seq<Token>): nat {
    (if server.Reading? then 1 else 0) + Calls(input)
  }

  function Calls(input: seq<Token>): nat {
    if input == [] then 0 else (if input[0].Call? then 1 else 0) + Calls(input[1..])
  }

  function Unsent(s: State): seq<Token> {
    if s.client.Some? then s.client.value.unsent else []
  }

  /** The argument as far as it is sent. */
  function Passed(m: Method, arg: string): string {
    if |Sends(m, arg)| == 1 then "" else arg
  }

  /** The reply to the current call. */
  function Reply(h: Service, c: Client): seq<Token> {
    Replies(c.m, h(c.id, c.m, Passed(c.m, c.arg)))
  }

  /** What the current call has yet to decode. */
  function Awaited(h: Service, s: State): seq<Token> {
    if s.client.Some? && |s.client.value.got| <= |Reply(h, s.client.value)| then
      Reply(h, s.client.value)[|s.client.value.got|..]
    else []
  }

  /** The replies on the stream and those the server owes, for what was and will be sent, are
      exactly the ones the current call has yet to decode; what it has decoded is the rest. */
  predicate Inv(h: Service, s: State) {
    var owed := Owed(h, s.served, s.server, s.requests + Unsent(s));
    && owed.Some?
    && s.replies + owed.value == Awaited(h, s)
    && s.served + Unserved(s.server, s.requests + Unsent(s)) == s.calls
    && (s.client.Some? ==> s.client.value.got <= Reply(h, s.client.value))
  }

  // ----- Every action keeps it -----

  /** Both halves agree. */
  lemma {:induction false} HalvesAgree(m: Method, arg: string, o: Outcome)
    ensures |Replies(m, o)| == |Expects(m)|
    ensures forall i :: 0 <= i < |Expects(m)| ==> OfKind(Replies(m, o)[i], Expects(m)[i])
    ensures if Takes(m) == [] then Sends(m, arg) == [Call(m)]
      else |Takes(m)| == 1 && Sends(m, arg) == [Call(m), Datum(Takes(m)[0], arg)]
  {
  }

  /** A whole request on its own. */
  lemma {:induction false} OwedForRequest(h: Service, served: nat, m: Method, arg: string)
    ensures Owed(h, served, Waiting, Sends(m, arg)) == Some(Replies(m, h(served, m, Passed(m, arg))))
  {
    hide Replies, Sends, Takes;
    var r := Replies(m, h(served, m, Passed(m, arg)));
    HalvesAgree(m, arg, h(served, m, arg));
    assert r + [] == r;
    assert Owed(h, served + 1, Replying(r), []) == Some(r + []);
    if Takes(m) == [] {
      assert [Call(m)][1..] == [];
    } else {
      var d := Datum(Takes(m)[0], arg);
      assert [Call(m), d][1..] == [d] && [d][1..] == [] && [] + [d] == [d];
      assert Owed(h, served, Reading(m, [], [d]), []) == Some(r);
      assert Takes(m)[1..] == [];
      assert Owed(h, served, Reading(m, Takes(m), []), [d]) == Some(r);
    }
  }

  /** A request behind others adds its reply. */
  lemma {:induction false} OwedAppend(h: Service, served: nat, server: Server, input: seq<Token>, m: Method,
    arg: string)
    requires Owed(h, served, server, input).Some?
    ensures Owed(h, served, server, input + Sends(m, arg))
      == Some(Owed(h, served, server, input).value + Replies(m, h(served + Unserved(server, input), m, Passed(m, arg))))
    decreases |input|, match server case Waiting => 0 case Reading(_, _, _) => 2 case Replying(_) => 1
  {
    hide Replies, Sends, Takes, Passed;
    var more := input + Sends(m, arg);
    match server
    case Waiting =>
      if input == [] {
        OwedForRequest(h, served, m, arg);
        assert more == Sends(m, arg);
        var r := Replies(m, h(served, m, Passed(m, arg)));
        assert [] + r == r;
      } else {
        assert more[1..] == input[1..] + Sends(m, arg);
        OwedAppend(h, served, Reading(input[0].m, Takes(input[0].m), []), input[1..], m, arg);
      }
    case Reading(n, kinds, got) =>
      if kinds == [] {
        OwedAppend(h, served + 1, Replying(Replies(n, h(served, n, Argument(got)))), input, m, arg);
      } else {
        assert more[1..] == input[1..] + Sends(m, arg);
        OwedAppend(h, served, Reading(n, kinds[1..], got + [input[0]]), input[1..], m, arg);
      }
    case Replying(tokens) =>
      OwedAppend(h, served, Waiting, input, m, arg);
      var rest, r := Owed(h, served, Waiting, input).value,
        Replies(m, h(served + Unserved(server, input), m, Passed(m, arg)));
      assert tokens + (rest + r) == (tokens + rest) + r;
  }

  lemma {:induction false} CallsAppend(input: seq<Token>, m: Method, arg: string)
    ensures Calls(input + Sends(m, arg)) == Calls(input) + 1
  {
    hide Sends;
    if input == [] {
      assert input + Sends(m, arg) == Sends(m, arg);
      OneCall(m, arg);
    } else {
      assert (input + Sends(m, arg))[1..] == input[1..] + Sends(m, arg);
      CallsAppend(input[1..], m, arg);
    }
  }

  lemma {:induction false} OneCall(m: Method, arg: string)
    ensures Calls(Sends(m, arg)) == 1
  {
    hide Sends;
    HalvesAgree(m, arg, Outcome("", ""));
    if Takes(m) == [] {
      assert [Call(m)][1..] == [];
    } else {
      var d := Datum(Takes(m)[0], arg);
      assert [Call(m), d][1..] == [d] && [d][1..] == [];
      assert Calls([d]) == 0;
    }
  }

  lemma {:induction false} InitialInv(h: Service)
    ensures Inv(h, INITIAL)
  {
    assert INITIAL.requests + Unsent(INITIAL) == [];
  }

  lemma {:induction false} LockKeeps(h: Service, s: State, t: int, m: Method, arg: string)
    requires Inv(h, s) && Enabled(s, Lock(t, m, arg))
    ensures Inv(h, Next(h, s, Lock(t, m, arg)))
  {
    hide Replies, Sends, Owed, Passed;
    var s' := Next(h, s, Lock(t, m, arg));
    assert s.requests + Unsent(s) == s.requests;
    OwedAppend(h, s.served, s.server, s.requests, m, arg);
    CallsAppend(s.requests, m, arg);
    var r := Reply(h, s'.client.value);
    assert r[0..] == r && [] + r == r;
  }

  lemma {:induction false} EncodeKeeps(h: Service, s: State)
    requires Inv(h, s) && Enabled(s, Encode)
    ensures Inv(h, Next(h, s, Encode))
  {
    hide Replies, Owed, Passed;
    var c := s.client.value;
    var s' := Next(h, s, Encode);
    assert s'.requests + Unsent(s') == s.requests + Unsent(s) by {
      assert c.unsent == [c.unsent[0]] + c.unsent[1..];
    }
    assert Awaited(h, s') == Awaited(h, s);
  }

  /** The value the client decodes is the one it awaits, of the type it has for it. */
  lemma {:induction false} DecodeIsTyped(h: Service, s: State)
    requires Inv(h, s) && Enabled(s, Decode)
    ensures WellTyped(s, Decode) && s.replies[0] == Reply(h, s.client.value)[|s.client.value.got|]
  {
    hide Owed, Replies, Expects, Passed;
    var c := s.client.value;
    HalvesAgree(c.m, c.arg, h(c.id, c.m, Passed(c.m, c.arg)));
    var owed := Owed(h, s.served, s.server, s.requests + Unsent(s)).value;
    assert s.replies[0] == (s.replies + owed)[0] == Awaited(h, s)[0];
  }

  lemma {:induction false} DecodeKeeps(h: Service, s: State)
    requires Inv(h, s) && Enabled(s, Decode) && WellTyped(s, Decode)
    ensures Inv(h, Next(h, s, Decode))
  {
    hide Owed, Replies, Expects, Passed;
    DecodeIsTyped(h, s);
    var c := s.client.value;
    var s' := Next(h, s, Decode);
    var owed := Owed(h, s.served, s.server, s.requests + Unsent(s)).value;
    assert s'.requests + Unsent(s') == s.requests + Unsent(s);
    HalvesAgree(c.m, c.arg, h(c.id, c.m, Passed(c.m, c.arg)));
    assert s'.replies + owed == (s.replies + owed)[1..];
    assert Awaited(h, s') == Awaited(h, s)[1..];
    assert s'.client.value.got <= Reply(h, c);
  }

  /** The server is ready for what it decodes. */
  lemma {:induction false} ServeIsTyped(h: Service, s: State)
    requires Inv(h, s) && Enabled(s, Action.Serve)
    ensures WellTyped(s, Action.Serve)
  {
    hide Replies, Takes;
    assert s.requests != [] ==> (s.requests + Unsent(s))[0] == s.requests[0];
  }

  lemma {:induction false} ReadKeeps(h: Service, s: State)
    requires Inv(h, s) && Enabled(s, Action.Serve) && WellTyped(s, Action.Serve)
    requires s.server.Waiting? || (s.server.Reading? && s.server.kinds != [])
    ensures Inv(h, Serve(h, s))
  {
    hide Replies, Takes, Passed, Reply;
    var s', input := Serve(h, s), s.requests + Unsent(s);
    assert Awaited(h, s') == Awaited(h, s);
    DropFirst(s.requests, Unsent(s));
    assert s'.requests + Unsent(s') == input[1..];
    assert Owed(h, s'.served, s'.server, input[1..]) == Owed(h, s.served, s.server, input);
    assert Unserved(s'.server, input[1..]) == Unserved(s.server, input);
  }

  lemma {:induction false} DropFirst<T>(a: seq<T>, b: seq<T>)
    requires a != []
    ensures a[1..] + b == (a + b)[1..] && (a + b)[0] == a[0]
  {
  }

  lemma {:induction false} AnswerKeeps(h: Service, s: State)
    requires Inv(h, s) && Enabled(s, Action.Serve) && s.server.Reading? && s.server.kinds == []
    ensures Inv(h, Serve(h, s))
  {
    hide Replies, Takes, Passed, Reply;
    var s', input := Serve(h, s), s.requests + Unsent(s);
    assert Awaited(h, s') == Awaited(h, s);
    assert s'.requests + Unsent(s') == input;
    assert Owed(h, s'.served, s'.server, input) == Owed(h, s.served, s.server, input);
  }

  lemma {:induction false} WriteKeeps(h: Service, s: State)
    requires Inv(h, s) && Enabled(s, Action.Serve) && s.server.Replying?
    ensures Inv(h, Serve(h, s))
  {
    hide Replies, Takes, Passed, Reply;
    var s', input := Serve(h, s), s.requests + Unsent(s);
    assert Awaited(h, s') == Awaited(h, s);
    assert s'.requests + Unsent(s') == input;
    var rest, tokens := Owed(h, s.served, Waiting, input).value, s.server.tokens;
    if tokens == [] {
      assert tokens + rest == rest;
    } else {
      assert s.replies + (tokens + rest) == s'.replies + (tokens[1..] + rest);
    }
  }

  lemma {:induction false} ServeKeeps(h: Service, s: State)
    requires Inv(h, s) && Enabled(s, Action.Serve) && WellTyped(s, Action.Serve)
    ensures Inv(h, Next(h, s, Action.Serve))
  {
    hide Inv, Serve, Enabled, WellTyped;
    if s.server.Replying? {
      WriteKeeps(h, s);
    } else if s.server.Reading? && s.server.kinds == [] {
      AnswerKeeps(h, s);
    } else {
      ReadKeeps(h, s);
    }
  }

  lemma {:induction false} UnlockKeeps(h: Service, s: State)
    requires Inv(h, s) && Enabled(s, Unlock)
    ensures Inv(h, Next(h, s, Unlock))
    ensures s.replies == [] && s.client.value.got == Reply(h, s.client.value)
  {
    hide Owed, Replies, Expects, Passed;
    var c := s.client.value;
    HalvesAgree(c.m, c.arg, h(c.id, c.m, Passed(c.m, c.arg)));
    assert Awaited(h, s) == [];
    assert Unsent(s) == Unsent(s.(client := None));
  }

  lemma {:induction false} NextKeeps(h: Service, s: State, a: Action)
    requires Inv(h, s) && Enabled(s, a)
    ensures WellTyped(s, a) && Inv(h, Next(h, s, a))
  {
    hide Inv, Enabled, WellTyped, Next;
    match a
    case Lock(t, m, arg) => LockTyped(s, a); LockKeeps(h, s, t, m, arg);
    case Encode => LockTyped(s, a); EncodeKeeps(h, s);
    case Decode => DecodeIsTyped(h, s); DecodeKeeps(h, s);
    case Unlock => LockTyped(s, a); UnlockKeeps(h, s);
    case Serve => ServeIsTyped(h, s); ServeKeeps(h, s);
  }

  lemma {:induction false} LockTyped(s: State, a: Action)
    requires Enabled(s, a) && !a.Decode? && !a.Serve?
    ensures WellTyped(s, a)
  {
  }

  // ----- Whole runs -----

  /** A run: enabled actions, each from the state the one before led to. */
  ghost predicate Run(h: Service, states: seq<State>, actions: seq<Action>) {
    && |states| == |actions| + 1
    && states[0] == INITIAL
    && forall i :: 0 <= i < |actions| ==> Step(h, states[i], actions[i], states[i + 1])
  }

  /** Decoding into another type fails and takes nothing from the stream. */
  predicate Step(h: Service, s: State, a: Action, s': State) {
    Enabled(s, a) && (if WellTyped(s, a) then s' == Next(h, s, a) else s' == s)
  }

  lemma {:induction false} RunKeeps(h: Service, states: seq<State>, actions: seq<Action>, k: nat)
    requires Run(h, states, actions) && k < |states|
    ensures Inv(h, states[k])
  {
    hide Inv, Enabled, WellTyped, Next;
    if k == 0 {
      InitialInv(h);
    } else {
      RunKeeps(h, states, actions, k - 1);
      assert Step(h, states[k - 1], actions[k - 1], states[k - 1 + 1]);
      NextKeeps(h, states[k - 1], actions[k - 1]);
    }
  }

  /** In every run every value is decoded into its own type; while the mutex is free the reply
      stream is empty; and a call ends with exactly what the service returned for it. */
  lemma {:induction false} Safety(h: Service, states: seq<State>, actions: seq<Action>, k: nat)
    requires Run(h, states, actions) && k < |states|
    ensures k < |actions| ==> Enabled(states[k], actions[k]) && WellTyped(states[k], actions[k])
    ensures states[k].client.None? ==> states[k].replies == []
    ensures k < |actions| && actions[k] == Unlock ==> states[k].replies == [] && Answered(h, states[k].client)
  {
    hide Owed, Replies, Expects, Passed, Next;
    RunKeeps(h, states, actions, k);
    if k < |actions| {
      assert Step(h, states[k], actions[k], states[k + 1]);
      NextKeeps(h, states[k], actions[k]);
      if actions[k] == Unlock {
        UnlockKeeps(h, states[k]);
        ReturnsOutcome(h, states[k].client.value);
      }
    }
  }

  /** The call has decoded its own reply, and returns what the service returned. */
  predicate Answered(h: Service, client: Option<Client>) {
    && client.Some?
    && var c := client.value;
       && c.got == Reply(h, c) && |c.got| == |Expects(c.m)| && (forall i :: 0 <= i < |c.got| ==> c.got[i].Datum?)
       && Returned(c.m, c.got) == Kept(c.m, h(c.id, c.m, Passed(c.m, c.arg)))
  }

  /** The part of an outcome the protocol has a place for. */
  function Kept(m: Method, o: Outcome): Outcome {
    match m
    case Update => Outcome("", "")
    case GlobalState => o.(error := "")
    case UpdateState => o.(error := "")
    case Start => o.(value := "")
    case Stop => o.(value := "")
    case WaitForStop => o.(value := "")
    case Delete => o.(value := "")
    case _ => o
  }

  lemma {:induction false} ReturnsOutcome(h: Service, c: Client)
    requires c.got == Reply(h, c)
    ensures |c.got| == |Expects(c.m)| && forall i :: 0 <= i < |c.got| ==> c.got[i].Datum?
    ensures Returned(c.m, c.got) == Kept(c.m, h(c.id, c.m, Passed(c.m, c.arg)))
  {
  }

  /** While a call is under way, the client or the server can act. */
  lemma {:induction false} NoDeadlock(h: Service, s: State) returns (a: Action)
    requires Inv(h, s) && s.client.Some?
    ensures Enabled(s, a) && !a.Lock?
  {
    hide Replies, Expects, Passed, Takes;
    var c := s.client.value;
    HalvesAgree(c.m, c.arg, h(c.id, c.m, Passed(c.m, c.arg)));
    if c.unsent != [] {
      a := Encode;
    } else if |c.got| == |Expects(c.m)| {
      a := Unlock;
    } else if s.replies != [] {
      a := Decode;
    } else {
      a := Action.Serve;
      assert s.requests + Unsent(s) == s.requests;
      assert Awaited(h, s) != [];
    }
  }
}
