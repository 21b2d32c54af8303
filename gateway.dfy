/**
  The session handler: one accepted connection greets the client, then reads envelopes one
  at a time and dispatches each against the shared user registry until a read or parse
  fails or a close has been requested. Identifiers come from a generator whose successive
  results are supplied as a stream.
*/
module Gateway {
  import opened Options
  import opened Json
  import opened Protocol

  /** Where a session stands: still reading, ended by a failed read or parse, or closing. */
  datatype Status = Listening | Aborted | Closing(frame: CloseFrame)

  /** The observable state of one session: the registry, everything written, status, and
      how many identifiers have been generated so far. */
  datatype SessionState = SessionState(users: map<string, User>, sent: seq<Message>,
                                       status: Status, calls: nat)

  /** How many identifiers handling `env` draws from the generator. */
  function Consumed(env: Envelope): nat
  {
    if Classify(env.d) == FreshRegistration then 2 else 0
  }

  /** Handling one parsed envelope; the next two generated identifiers are the token and id. */
  function Apply(st: SessionState, env: Envelope, uuid: nat -> string): SessionState
  {
    var r := Dispatch(st.users, env, uuid(st.calls), uuid(st.calls + 1));
    SessionState(r.users, st.sent + r.sent,
                 if r.close.Some? then Closing(r.close.value) else st.status,
                 st.calls + Consumed(env))
  }

  /** One turn of the receive loop; `None` is a read or parse failure, which ends the session. */
  function Step(st: SessionState, frame: Option<Envelope>, uuid: nat -> string): SessionState
  {
    if !st.status.Listening? then st
    else match frame
      case None => st.(status := Aborted)
      case Some(env) => Apply(st, env, uuid)
  }

  /** The receive loop over the frames that arrive, in order. */
  function Run(st: SessionState, frames: seq<Option<Envelope>>, uuid: nat -> string): SessionState
    decreases |frames|
  {
    if frames == [] then st else Run(Step(st, frames[0], uuid), frames[1..], uuid)
  }

  /** The state right after the greeting has been written. */
  function Greeted(users: map<string, User>, calls: nat): SessionState
  {
    SessionState(users, [Message(Text, GreetingPayload)], Listening, calls)
  }

  /** A whole session: the greeting, then the receive loop. */
  function RunSession(users: map<string, User>, calls: nat, frames: seq<Option<Envelope>>,
                      uuid: nat -> string): SessionState
  {
    Run(Greeted(users, calls), frames, uuid)
  }

  /** Once a session has stopped listening, nothing that arrives changes it. */
  lemma {:induction false} RunEndedIsFinal(st: SessionState, frames: seq<Option<Envelope>>,
                                           uuid: nat -> string)
    requires !st.status.Listening?
    ensures Run(st, frames, uuid) == st
  {
    if frames != [] {
      RunEndedIsFinal(st, frames[1..], uuid);
    }
  }

  /** The user registry shared by every session; insertion is its only mutation. */
  class Registry {
    var users: map<string, User>

    constructor ()
      ensures users == map[]
    {
      users := map[];
    }

    /** Insert under the write lock: a present id is overwritten, every other key kept. */
    method Insert(id: string, user: User)
      modifies this
      ensures users == old(users)[id := user]
    {
      users := users[id := user];
    }
  }

  /** The identifier generator; its `k`-th result is `stream(k)`. */
  class UuidGenerator {
    const stream: nat -> string
    var calls: nat

    constructor (stream: nat -> string)
      ensures this.stream == stream && calls == 0
    {
      this.stream := stream;
      calls := 0;
    }

    method Generate() returns (s: string)
      modifies this
      ensures s == stream(old(calls)) && calls == old(calls) + 1
    {
      s := stream(calls);
      calls := calls + 1;
    }
  }

  /** One connection's handler, holding handles to the shared registry and generator. */
  class Session {
    const registry: Registry
    const generator: UuidGenerator
    var sent: seq<Message>
    var status: Status

    function State(): SessionState
      reads this, registry, generator
    {
      SessionState(registry.users, sent, status, generator.calls)
    }

    /** A connection has been accepted: write the Text greeting and start listening. */
    constructor Accept(registry: Registry, generator: UuidGenerator)
      ensures this.registry == registry && this.generator == generator
      ensures State() == Greeted(registry.users, generator.calls)
    {
      this.registry := registry;
      this.generator := generator;
      sent := [Message(Text, GreetingPayload)];
      status := Listening;
    }

    /** Dispatch one parsed envelope by its opcode. */
    method HandleEnvelope(env: Envelope)
      modifies this, registry, generator
      ensures State() == Apply(old(State()), env, generator.stream)
    {
      var closeOpts := NormalClose;
      match env.t
      case Connect =>
        if env.d == Null {
          sent := sent + [Message(Binary, MissingLoginDataPayload)];
          status := Closing(closeOpts);
        } else if Get(env.d, LoginPkg) == Null {
          var token := generator.Generate();
          var id := generator.Generate();
          registry.Insert(id, NewUser(UnnamedUser, token, id));
          sent := sent + [Message(Binary, SuccessPayload(token, id))];
        }
    }

    /** The receive loop: read, parse, dispatch, until a failure or a requested close. */
    method Serve(frames: seq<Option<Envelope>>)
      modifies this, registry, generator
      ensures State() == Run(old(State()), frames, generator.stream)
    {
      var i := 0;
      while i < |frames| && status.Listening?
        invariant 0 <= i <= |frames|
        invariant Run(State(), frames[i..], generator.stream)
               == Run(old(State()), frames, generator.stream)
      {
        match frames[i] {
          case None =>
            status := Aborted;
          case Some(env) =>
            HandleEnvelope(env);
        }
        i := i + 1;
      }
      if i < |frames| {
        RunEndedIsFinal(State(), frames[i..], generator.stream);
      }
    }
  }

  /** The task spawned for one accepted connection: greet, then serve what arrives. */
  method HandleConnection(registry: Registry, generator: UuidGenerator,
                          frames: seq<Option<Envelope>>) returns (session: Session)
    modifies registry, generator
    ensures fresh(session) && session.registry == registry && session.generator == generator
    ensures session.State()
         == RunSession(old(registry.users), old(generator.calls), frames, generator.stream)
  {
    session := new Session.Accept(registry, generator);
    session.Serve(frames);
  }
}
