/** Properties of whole sessions: ordering of what is written, termination of the loop,
    and how the shared registry grows. */
module GatewayFacts {
  import opened Options
  import opened Json
  import opened Protocol
  import opened Gateway
  import ProtocolFacts

  /** Running two batches of frames back to back is running their concatenation. */
  lemma {:induction false} RunAppend(st: SessionState, a: seq<Option<Envelope>>,
                                     b: seq<Option<Envelope>>, uuid: nat -> string)
    ensures Run(st, a + b, uuid) == Run(Run(st, a, uuid), b, uuid)
    decreases |a|
  {
    if a == [] {
      assert a + b == b;
    } else {
      assert (a + b)[0] == a[0];
      assert (a + b)[1..] == a[1..] + b;
      RunAppend(Step(st, a[0], uuid), a[1..], b, uuid);
    }
  }

  /**
    A read or parse failure ends the session where it happens: nothing is written and the
    registry is left as it was, and every later frame is ignored.
  */
  lemma ParseFailureAborts(st: SessionState, frames: seq<Option<Envelope>>, k: nat,
                           uuid: nat -> string)
    requires k < |frames| && frames[k] == None
    requires Run(st, frames[..k], uuid).status == Listening
    ensures Run(st, frames, uuid) == Run(st, frames[..k], uuid).(status := Aborted)
  {
    assert frames == frames[..k] + frames[k..];
    RunAppend(st, frames[..k], frames[k..], uuid);
    var mid := Run(st, frames[..k], uuid);
    RunEndedIsFinal(mid.(status := Aborted), frames[k + 1..], uuid);
  }

  /**
    A null payload on a listening session writes the one Binary error message and
    requests a normal close; the registry is unchanged and nothing after it is handled.
  */
  lemma MissingLoginDataEndsSession(st: SessionState, env: Envelope,
                                    rest: seq<Option<Envelope>>, uuid: nat -> string)
    requires st.status == Listening && env.d == Null
    ensures Run(st, [Some(env)] + rest, uuid)
         == st.(sent := st.sent + [Message(Binary, MissingLoginDataPayload)],
                status := Closing(NormalClose))
  {
    var next := Step(st, Some(env), uuid);
    assert ([Some(env)] + rest)[1..] == rest;
    RunEndedIsFinal(next, rest, uuid);
  }

  /** An envelope with a non-null `login_pkg` leaves the session exactly as it was; the loop
      goes on to the next frame. */
  lemma LoginPkgFrameIsSilent(st: SessionState, env: Envelope,
                              rest: seq<Option<Envelope>>, uuid: nat -> string)
    requires Classify(env.d) == LoginPkgSupplied
    ensures Step(st, Some(env), uuid) == st
    ensures Run(st, [Some(env)] + rest, uuid) == Run(st, rest, uuid)
  {
  }

  /** The loop only appends to what was written, and everything it appends is Binary. */
  lemma {:induction false} RunAppendsBinary(st: SessionState, frames: seq<Option<Envelope>>,
                                            uuid: nat -> string)
    ensures var r := Run(st, frames, uuid);
      && |st.sent| <= |r.sent| && r.sent[..|st.sent|] == st.sent
      && forall j :: |st.sent| <= j < |r.sent| ==> r.sent[j].kind == Binary
    decreases |frames|
  {
    if frames != [] {
      var next := Step(st, frames[0], uuid);
      assert |st.sent| <= |next.sent| && next.sent[..|st.sent|] == st.sent;
      assert forall j :: |st.sent| <= j < |next.sent| ==> next.sent[j] in next.sent[|st.sent|..];
      RunAppendsBinary(next, frames[1..], uuid);
    }
  }

  /**
    Every session writes the Text greeting `{"message":"You connected"}` first, and exactly
    once: everything written after it is Binary.
  */
  lemma SessionGreetsFirst(users: map<string, User>, calls: nat,
                           frames: seq<Option<Envelope>>, uuid: nat -> string)
    ensures var r := RunSession(users, calls, frames, uuid);
      && |r.sent| >= 1 && r.sent[0] == Message(Text, "{\"message\":\"You connected\"}")
      && forall j :: 1 <= j < |r.sent| ==> r.sent[j].kind == Binary
  {
    RunAppendsBinary(Greeted(users, calls), frames, uuid);
  }

  /** Each entry is stored under its own id and has a non-empty id and token. */
  ghost predicate WellFormed(users: map<string, User>)
  {
    forall k :: k in users ==> users[k].id == k && users[k].id != [] && users[k].token != []
  }

  /** Identifiers are never empty (a UUID's canonical text is 36 characters). */
  ghost predicate NonEmptyIds(uuid: nat -> string)
  {
    forall i: nat :: uuid(i) != []
  }

  /** A reader of the registry never sees an entry under a foreign key or with an empty
      id or token, however many envelopes have been handled. */
  lemma {:induction false} RunKeepsRegistryWellFormed(st: SessionState,
                                                      frames: seq<Option<Envelope>>,
                                                      uuid: nat -> string)
    requires WellFormed(st.users) && NonEmptyIds(uuid)
    ensures WellFormed(Run(st, frames, uuid).users)
    decreases |frames|
  {
    if frames != [] {
      var next := Step(st, frames[0], uuid);
      assert uuid(st.calls) != [] && uuid(st.calls + 1) != [];
      assert WellFormed(next.users);
      RunKeepsRegistryWellFormed(next, frames[1..], uuid);
    }
  }

  /** No two generator calls return the same identifier. */
  ghost predicate Distinct(uuid: nat -> string)
  {
    forall i: nat, j: nat :: i != j ==> uuid(i) != uuid(j)
  }

  /** No identifier the generator has yet to hand out is already a key of the registry. */
  ghost predicate Unused(st: SessionState, uuid: nat -> string)
  {
    forall i: nat :: st.calls <= i ==> uuid(i) !in st.users
  }

  /**
    The registry `users` after inserting the users minted from `n` consecutive pairs of
    generator results starting at call `c`: pair `i` uses result `c + 2i` as token and
    `c + 2i + 1` as id, and each insert overwrites an entry with the same id.
  */
  function MintInto(users: map<string, User>, uuid: nat -> string, c: nat, n: nat): map<string, User>
    decreases n
  {
    if n == 0 then users
    else MintInto(users[uuid(c + 1) := User(uuid(c + 1), UnnamedUser, uuid(c))], uuid, c + 2, n - 1)
  }

  /** One turn of the loop draws either no identifiers or one pair, and in the second case
      inserts the user minted from that pair. */
  lemma StepDrawsPairs(st: SessionState, frame: Option<Envelope>, uuid: nat -> string)
    ensures var next := Step(st, frame, uuid);
      || (next.calls == st.calls && next.users == st.users)
      || (next.calls == st.calls + 2
          && next.users == st.users[uuid(st.calls + 1) := User(uuid(st.calls + 1), UnnamedUser, uuid(st.calls))])
  {
  }

  /**
    On a listening session the generator advances by two exactly when one reply is written
    and the session keeps listening, that is on a registration; otherwise it does not move.
  */
  lemma StepDrawsExactlyOnReply(st: SessionState, env: Envelope, uuid: nat -> string)
    requires st.status == Listening
    ensures var next := Step(st, Some(env), uuid);
      && (next.calls == st.calls + 2 <==> next.status == Listening && |next.sent| == |st.sent| + 1)
      && (next.calls != st.calls + 2 ==> next.calls == st.calls)
  {
  }

  /**
    Whatever the identifiers are, the registry after the loop is the registry before it
    with the users minted from the identifiers the loop drew inserted in order; the loop
    draws them in pairs, and an id already present is overwritten, never rejected.
  */
  lemma {:induction false} RunRegistryIsMinted(st: SessionState, frames: seq<Option<Envelope>>,
                                               uuid: nat -> string)
    ensures var r := Run(st, frames, uuid);
      && st.calls <= r.calls && (r.calls - st.calls) % 2 == 0
      && r.users == MintInto(st.users, uuid, st.calls, (r.calls - st.calls) / 2)
    decreases |frames|
  {
    if frames != [] {
      var next := Step(st, frames[0], uuid);
      assert Run(st, frames, uuid) == Run(next, frames[1..], uuid);
      StepDrawsPairs(st, frames[0], uuid);
      RunRegistryIsMinted(next, frames[1..], uuid);
      var r := Run(next, frames[1..], uuid);
      var k := (r.calls - next.calls) / 2;
      if next.calls != st.calls {
        assert (r.calls - st.calls) / 2 == k + 1;
      }
    }
  }

  /** Inserting the pair minted from calls `c` and `c + 1` into a registry that holds none
      of the identifiers from call `c` on leaves the identifiers from `c + 2` on unregistered. */
  lemma MintOneFresh(users: map<string, User>, uuid: nat -> string, c: nat)
    requires Distinct(uuid)
    requires forall i: nat :: c <= i ==> uuid(i) !in users
    ensures uuid(c + 1) !in users
    ensures var users' := users[uuid(c + 1) := User(uuid(c + 1), UnnamedUser, uuid(c))];
      && users'.Keys == users.Keys + {uuid(c + 1)}
      && forall i: nat :: c + 2 <= i ==> uuid(i) !in users'
  {
  }

  /**
    With distinct identifiers none of which from call `c` on is a key of `users`, minting
    `n` pairs changes no entry that was there and leaves the later identifiers unregistered.
  */
  lemma {:induction false} MintIntoKeeps(users: map<string, User>, uuid: nat -> string, c: nat, n: nat)
    requires Distinct(uuid)
    requires forall i: nat :: c <= i ==> uuid(i) !in users
    ensures var m := MintInto(users, uuid, c, n);
      && (forall k :: k in users ==> k in m && m[k] == users[k])
      && (forall i: nat :: c + 2 * n <= i ==> uuid(i) !in m)
    decreases n
  {
    if n > 0 {
      MintOneFresh(users, uuid, c);
      MintIntoKeeps(users[uuid(c + 1) := User(uuid(c + 1), UnnamedUser, uuid(c))], uuid, c + 2, n - 1);
      assert c + 2 * n == (c + 2) + 2 * (n - 1);
    }
  }

  /** Under the same assumptions, minting `n` pairs adds exactly `n` entries. */
  lemma {:induction false} MintIntoCount(users: map<string, User>, uuid: nat -> string, c: nat, n: nat)
    requires Distinct(uuid)
    requires forall i: nat :: c <= i ==> uuid(i) !in users
    ensures |MintInto(users, uuid, c, n)| == |users| + n
    decreases n
  {
    if n > 0 {
      MintOneFresh(users, uuid, c);
      MintIntoCount(users[uuid(c + 1) := User(uuid(c + 1), UnnamedUser, uuid(c))], uuid, c + 2, n - 1);
    }
  }

  /**
    With identifiers that never repeat and are not yet registered: every registration adds
    exactly one entry, no entry that was there before is changed, and the identifiers still
    to come are still not keys.
  */
  lemma RunRegistersFreshUsers(st: SessionState, frames: seq<Option<Envelope>>,
                               uuid: nat -> string)
    requires Distinct(uuid) && Unused(st, uuid)
    ensures var r := Run(st, frames, uuid);
      && |r.users| == |st.users| + (r.calls - st.calls) / 2
      && (forall k :: k in st.users ==> k in r.users && r.users[k] == st.users[k])
      && Unused(r, uuid)
  {
    RunRegistryIsMinted(st, frames, uuid);
    MintedStateFresh(st, Run(st, frames, uuid), uuid);
  }

  /** The conclusion of RunRegistersFreshUsers for any state reached by minting pairs. */
  lemma MintedStateFresh(st: SessionState, r: SessionState, uuid: nat -> string)
    requires Distinct(uuid) && Unused(st, uuid)
    requires st.calls <= r.calls && (r.calls - st.calls) % 2 == 0
    requires r.users == MintInto(st.users, uuid, st.calls, (r.calls - st.calls) / 2)
    ensures |r.users| == |st.users| + (r.calls - st.calls) / 2
    ensures forall k :: k in st.users ==> k in r.users && r.users[k] == st.users[k]
    ensures Unused(r, uuid)
  {
    var n := (r.calls - st.calls) / 2;
    assert r.calls == st.calls + 2 * n;
    MintIntoKeeps(st.users, uuid, st.calls, n);
    MintIntoCount(st.users, uuid, st.calls, n);
  }


  /** The loop never removes a key from the registry: there is no disconnect clean-up. */
  lemma {:induction false} RunNeverRemovesUsers(st: SessionState, frames: seq<Option<Envelope>>,
                                                uuid: nat -> string)
    ensures st.users.Keys <= Run(st, frames, uuid).users.Keys
    decreases |frames|
  {
    if frames != [] {
      RunNeverRemovesUsers(Step(st, frames[0], uuid), frames[1..], uuid);
    }
  }

  /**
    If the id about to be drawn is not yet a key and both identifiers are quote-free, a
    fresh registration on a listening session writes one Binary reply; read back, the reply
    names a token and an id, and that id is a key newly present in the registry, whose
    entry holds that token. The registry grows by exactly that one entry.
  */
  lemma RegistrationReplyNamesNewKey(st: SessionState, env: Envelope, uuid: nat -> string)
    requires st.status == Listening && Classify(env.d) == FreshRegistration
    requires '"' !in uuid(st.calls) && '"' !in uuid(st.calls + 1)
    requires uuid(st.calls + 1) !in st.users
    ensures var next := Step(st, Some(env), uuid);
      && |next.sent| == |st.sent| + 1 && next.sent[..|st.sent|] == st.sent
      && next.sent[|st.sent|].kind == Binary
      && var parsed := ParseSuccessPayload(next.sent[|st.sent|].payload);
      && parsed.Some?
      && parsed.value.1 !in st.users && parsed.value.1 in next.users
      && next.users[parsed.value.1].token == parsed.value.0
      && next.users.Keys == st.users.Keys + {parsed.value.1}
      && next.status == Listening
  {
    var token, id := uuid(st.calls), uuid(st.calls + 1);
    var next := Step(st, Some(env), uuid);
    assert next.sent == st.sent + [Message(Binary, SuccessPayload(token, id))];
    assert next.users == st.users[id := User(id, UnnamedUser, token)];
    ProtocolFacts.SuccessPayloadRoundTrip(token, id);
  }
}
