/** Properties of the Connect dispatch and of the registration reply. */
module ProtocolFacts {
  import opened Options
  import opened Json
  import opened Protocol

  /** In a quote-free head followed by a quote, the first quote is the one after the head. */
  lemma {:induction false} IndexOfQuoteAfter(head: string, tail: string)
    requires '"' !in head
    requires tail != [] && tail[0] == '"'
    ensures IndexOfQuote(head + tail) == |head|
  {
    if head != [] {
      assert (head + tail)[1..] == head[1..] + tail;
      assert head[0] in head;
      IndexOfQuoteAfter(head[1..], tail);
    }
  }

  /** A quote-free head followed by a quote is split exactly there. */
  lemma SplitAtQuoteOf(head: string, tail: string)
    requires '"' !in head
    requires tail != [] && tail[0] == '"'
    ensures SplitAtQuote(head + tail) == (head, tail)
  {
    IndexOfQuoteAfter(head, tail);
    assert (head + tail)[..|head|] == head;
    assert (head + tail)[|head|..] == tail;
  }

  /**
    A client reading the registration reply gets back exactly the token and the id that
    were sent, as long as neither contains a double quote (a UUID never does).
  */
  lemma SuccessPayloadRoundTrip(token: string, id: string)
    requires '"' !in token && '"' !in id
    ensures ParseSuccessPayload(SuccessPayload(token, id)) == Some((token, id))
  {
    var afterInfix := id + ReplySuffix;
    var afterToken := IdInfix + afterInfix;
    var afterPrefix := token + afterToken;
    var s := TokenPrefix + afterPrefix;
    assert s == SuccessPayload(token, id);
    assert s[..|TokenPrefix|] == TokenPrefix;
    assert StripPrefix(TokenPrefix, s) == Some(afterPrefix) by {
      assert s[|TokenPrefix|..] == afterPrefix;
    }
    SplitAtQuoteOf(token, afterToken);
    assert afterToken[..|IdInfix|] == IdInfix;
    assert StripPrefix(IdInfix, afterToken) == Some(afterInfix) by {
      assert afterToken[|IdInfix|..] == afterInfix;
    }
    SplitAtQuoteOf(id, ReplySuffix);
  }

  /** Two registration replies for quote-free pairs are equal only when the pairs are. */
  lemma SuccessPayloadInjective(token1: string, id1: string, token2: string, id2: string)
    requires '"' !in token1 && '"' !in id1 && '"' !in token2 && '"' !in id2
    requires SuccessPayload(token1, id1) == SuccessPayload(token2, id2)
    ensures token1 == token2 && id1 == id2
  {
    SuccessPayloadRoundTrip(token1, id1);
    SuccessPayloadRoundTrip(token2, id2);
  }

  /** The reply does no escaping: a token or id that itself holds the infix gives the same
      reply as another pair, so the quote-free hypothesis above cannot be dropped. */
  lemma SuccessPayloadCollidesWithQuotes()
    ensures "a" + IdInfix + "b" != "a"
    ensures SuccessPayload("a" + IdInfix + "b", "c") == SuccessPayload("a", "b" + IdInfix + "c")
  {
  }

  /**
    A null payload: exactly one Binary error message, a normal close with an empty
    reason, and the registry untouched.
  */
  lemma DispatchMissingLoginData(users: map<string, User>, env: Envelope, token: string, id: string)
    requires env.d == Null
    ensures Dispatch(users, env, token, id)
         == Reply([Message(Binary, "{\"error\":\"missing login data\"}")],
                  Some(CloseFrame(Normal, "")), users)
  {
  }

  /**
    A non-null payload with no usable `login_pkg`: the first identifier becomes the token,
    the second the id; the registry maps the id to a fresh unnamed user holding that pair,
    every other entry is kept, and the one Binary reply carries the same pair. No close.
  */
  lemma DispatchFreshRegistration(users: map<string, User>, env: Envelope, token: string, id: string)
    requires env.d != Null
    requires !env.d.Object? || "login_pkg" !in env.d.fields || env.d.fields["login_pkg"] == Null
    ensures var r := Dispatch(users, env, token, id);
      && r.sent == [Message(Binary, "{\"connection\": {\"token\":\"" + token
                                    + "\", \"id\":\"" + id + "\"}}")]
      && r.close == None
      && r.users.Keys == users.Keys + {id}
      && r.users[id] == User(id, "Unnamed user", token)
      && (forall k :: k in users && k != id ==> r.users[k] == users[k])
  {
    var r := Dispatch(users, env, token, id);
    assert SuccessPayload(token, id)
        == "{\"connection\": {\"token\":\"" + token + "\", \"id\":\"" + id + "\"}}";
  }

  /** A payload carrying a non-null `login_pkg`: nothing is written, closed or registered. */
  lemma DispatchLoginPkgSupplied(users: map<string, User>, env: Envelope, token: string, id: string)
    requires env.d.Object? && "login_pkg" in env.d.fields && env.d.fields["login_pkg"] != Null
    ensures Dispatch(users, env, token, id) == Reply([], None, users)
  {
  }

  /**
    The listed payloads go down the registration path: a number, a string, an empty
    object and an object holding an explicit null `login_pkg`; a string `login_pkg` does not.
  */
  lemma ClassifyExamples()
    ensures Classify(Number(5)) == FreshRegistration
    ensures Classify(Str("x")) == FreshRegistration
    ensures Classify(Object(map[])) == FreshRegistration
    ensures Classify(Object(map["login_pkg" := Null])) == FreshRegistration
    ensures Classify(Object(map["login_pkg" := Str("anything")])) == LoginPkgSupplied
    ensures Classify(Null) == MissingLoginData
  {
  }

  /**
    A registration whose id is already a key overwrites that entry and leaves the number
    of users unchanged; one with a new id adds exactly one entry.
  */
  lemma RegistrationOverwritesOnCollision(users: map<string, User>, env: Envelope, token: string, id: string)
    requires Classify(env.d) == FreshRegistration
    ensures var r := Dispatch(users, env, token, id);
      && r.users[id] == User(id, UnnamedUser, token)
      && (id in users ==> |r.users| == |users|)
      && (id !in users ==> |r.users| == |users| + 1)
  {
  }

  /**
    Envelopes handled on two connections touch the shared registry only through their own
    id, so when the ids differ the order in which the two are handled does not matter.
  */
  lemma DispatchesCommute(users: map<string, User>,
                          env1: Envelope, token1: string, id1: string,
                          env2: Envelope, token2: string, id2: string)
    requires id1 != id2
    ensures Dispatch(Dispatch(users, env1, token1, id1).users, env2, token2, id2).users
         == Dispatch(Dispatch(users, env2, token2, id2).users, env1, token1, id1).users
  {
  }

  /**
    Two clients that each send `{"t":"Connect","d":{}}` against an empty registry, with
    distinct identifiers, leave exactly their two users in it, in either order.
  */
  lemma TwoClientsRegister(token1: string, id1: string, token2: string, id2: string)
    requires id1 != id2
    ensures var env := Envelope(Connect, Object(map[]));
      var after := Dispatch(Dispatch(map[], env, token1, id1).users, env, token2, id2).users;
      && after == map[id1 := User(id1, UnnamedUser, token1), id2 := User(id2, UnnamedUser, token2)]
      && after == Dispatch(Dispatch(map[], env, token2, id2).users, env, token1, id1).users
  {
  }

  /**
    In the same two-client scenario, with quote-free identifiers, the two clients receive
    different replies, and each reply read back names that client's own key in the shared
    registry.
  */
  lemma TwoClientsGetDistinctReplies(token1: string, id1: string, token2: string, id2: string)
    requires id1 != id2
    requires '"' !in token1 && '"' !in id1 && '"' !in token2 && '"' !in id2
    ensures var env := Envelope(Connect, Object(map[]));
      var first := Dispatch(map[], env, token1, id1);
      var second := Dispatch(first.users, env, token2, id2);
      && first.sent[0].payload != second.sent[0].payload
      && ParseSuccessPayload(first.sent[0].payload) == Some((token1, id1))
      && ParseSuccessPayload(second.sent[0].payload) == Some((token2, id2))
      && id1 in second.users && second.users[id1].token == token1
      && id2 in second.users && second.users[id2].token == token2
  {
    var env := Envelope(Connect, Object(map[]));
    DispatchFreshRegistration(map[], env, token1, id1);
    var first := Dispatch(map[], env, token1, id1);
    assert first.sent == [Message(Binary, SuccessPayload(token1, id1))];
    DispatchFreshRegistration(first.users, env, token2, id2);
    var second := Dispatch(first.users, env, token2, id2);
    assert second.sent == [Message(Binary, SuccessPayload(token2, id2))];
    SuccessPayloadRoundTrip(token1, id1);
    SuccessPayloadRoundTrip(token2, id2);
  }
}
