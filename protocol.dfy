/**
  The protocol message model and the Connect dispatch: the envelope `{t, d}`, the user
  record, the literal payloads the server writes, and what one parsed envelope does to
  the user registry and to the connection.
*/
module Protocol {
  import opened Options
  import opened Json

  /** The closed set of opcodes; an unknown tag never parses into an envelope. */
  datatype Opcode = Connect

  /** A parsed request envelope: opcode `t` and untyped payload `d`. */
  datatype Envelope = Envelope(t: Opcode, d: Value)

  /** A registered participant. */
  datatype User = User(id: string, name: string, token: string)

  /** A WebSocket data frame as the server writes it: its kind and its text. */
  datatype MessageKind = Text | Binary
  datatype Message = Message(kind: MessageKind, payload: string)

  /** The close frame the server asks the connection to send. */
  datatype CloseCode = Normal
  datatype CloseFrame = CloseFrame(code: CloseCode, reason: string)

  const GreetingPayload: string := "{\"message\":\"You connected\"}"
  const MissingLoginDataPayload: string := "{\"error\":\"missing login data\"}"
  const UnnamedUser: string := "Unnamed user"
  const LoginPkg: string := "login_pkg"

  /** Normal closure with an empty reason. */
  const NormalClose: CloseFrame := CloseFrame(Normal, "")

  /** `User::new(name, token, id)`: the arguments are stored as given, in their own fields. */
  function NewUser(name: string, token: string, id: string): (u: User)
    ensures u.name == name && u.token == token && u.id == id
  {
    User(id, name, token)
  }

  // The three fixed pieces of the registration reply around the token and the id.
  const TokenPrefix: string := "{\"connection\": {\"token\":\""
  const IdInfix: string := "\", \"id\":\""
  const ReplySuffix: string := "\"}}"

  /**
    The registration reply `{"connection": {"token":"<token>", "id":"<id>"}}`: the fixed
    prefix, the token, the fixed infix, the id and the fixed suffix, each at its own offset.
  */
  function SuccessPayload(token: string, id: string): (r: string)
    ensures |r| == |TokenPrefix| + |token| + |IdInfix| + |id| + |ReplySuffix|
    ensures r[..|TokenPrefix|] == TokenPrefix
    ensures r[|TokenPrefix|..|TokenPrefix| + |token|] == token
    ensures r[|TokenPrefix| + |token|..|TokenPrefix| + |token| + |IdInfix|] == IdInfix
    ensures r[|TokenPrefix| + |token| + |IdInfix|..|r| - |ReplySuffix|] == id
    ensures r[|r| - |ReplySuffix|..] == ReplySuffix
  {
    TokenPrefix + (token + (IdInfix + (id + ReplySuffix)))
  }

  /** Position of the first double quote in `s`, or `|s|` when there is none. */
  function IndexOfQuote(s: string): (k: nat)
    ensures k <= |s|
    ensures k < |s| ==> s[k] == '"'
    ensures forall j :: 0 <= j < k ==> s[j] != '"'
  {
    if s == [] then 0
    else if s[0] == '"' then 0
    else 1 + IndexOfQuote(s[1..])
  }

  /** Splits `s` before its first double quote: a quote-free head and the rest. */
  function SplitAtQuote(s: string): (r: (string, string))
    ensures s == r.0 + r.1
    ensures '"' !in r.0
    ensures r.1 == [] || r.1[0] == '"'
  {
    var k := IndexOfQuote(s);
    assert s == s[..k] + s[k..];
    (s[..k], s[k..])
  }

  /** The rest of `s` after `prefix`, when `s` starts with it. */
  function StripPrefix(prefix: string, s: string): (r: Option<string>)
    ensures r.Some? ==> s == prefix + r.value
    ensures r.None? ==> !(|prefix| <= |s| && s[..|prefix|] == prefix)
  {
    if |prefix| <= |s| && s[..|prefix|] == prefix then
      assert s == s[..|prefix|] + s[|prefix|..];
      Some(s[|prefix|..])
    else None
  }

  /**
    Reads the token and id back out of a registration reply, as a client does. Whatever
    it accepts is exactly the reply for the pair it returns.
  */
  function ParseSuccessPayload(s: string): (r: Option<(string, string)>)
    ensures r.Some? ==> '"' !in r.value.0 && '"' !in r.value.1
    ensures r.Some? ==> s == SuccessPayload(r.value.0, r.value.1)
  {
    match StripPrefix(TokenPrefix, s)
    case None => None
    case Some(afterPrefix) =>
      var (token, afterToken) := SplitAtQuote(afterPrefix);
      match StripPrefix(IdInfix, afterToken)
      case None => None
      case Some(afterInfix) =>
        var (id, rest) := SplitAtQuote(afterInfix);
        if rest != ReplySuffix then None
        else Some((token, id))
  }

  /** Which branch of the Connect handler a payload takes. */
  datatype Outcome =
    | MissingLoginData   // `d` is null: error reply, then close
    | FreshRegistration  // `d["login_pkg"]` is null: mint and register a user
    | LoginPkgSupplied   // anything else: nothing happens

  /**
    The two null tests of the Connect handler: first on `d` itself, then on
    `d["login_pkg"]`, which is null for a non-object `d`, an absent key or an explicit null.
  */
  function Classify(d: Value): (o: Outcome)
    ensures o == MissingLoginData <==> d == Null
    ensures o == FreshRegistration <==>
              d != Null && (!d.Object? || LoginPkg !in d.fields || d.fields[LoginPkg] == Null)
    ensures o == LoginPkgSupplied <==>
              d.Object? && LoginPkg in d.fields && d.fields[LoginPkg] != Null
  {
    if d == Null then MissingLoginData
    else if Get(d, LoginPkg) == Null then FreshRegistration
    else LoginPkgSupplied
  }

  /** What handling one envelope produces: messages written, close requested, new registry. */
  datatype Reply = Reply(sent: seq<Message>, close: Option<CloseFrame>, users: map<string, User>)

  /**
    The opcode dispatch for one parsed envelope against the registry `users`, where `token`
    and `id` are the first and second identifiers the generator hands out.
  */
  function Dispatch(users: map<string, User>, env: Envelope, token: string, id: string): (r: Reply)
    ensures r.close.Some? <==> env.d == Null
    ensures r.close.Some? ==> r.close.value == NormalClose
    ensures |r.sent| <= 1 && forall m :: m in r.sent ==> m.kind == Binary
    ensures r.users == users || r.users == users[id := NewUser(UnnamedUser, token, id)]
  {
    match env.t
    case Connect =>
      match Classify(env.d)
      case MissingLoginData =>
        Reply([Message(Binary, MissingLoginDataPayload)], Some(NormalClose), users)
      case FreshRegistration =>
        Reply([Message(Binary, SuccessPayload(token, id))], None,
              users[id := NewUser(UnnamedUser, token, id)])
      case LoginPkgSupplied =>
        Reply([], None, users)
  }
}
