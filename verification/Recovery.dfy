/** A lost answer to a rotation: how it happens, what recovers from it, and what never does. */
module Recovery {
  import opened Prelude
  import opened OrderedDict
  import opened Records
  import opened Inventory
  import opened ControlPlane
  import opened Callers
  import opened Transitions
  import opened Credentials
  import opened Idempotency
  import opened Rotation

  /** The server has rotated and the client does not know. */
  ghost predicate Lagging(x: System) {
    && x.kept.endpointId in x.server.endpoints
    && x.server.endpoints[x.kept.endpointId].generation == x.kept.generation + 1
  }

  function DigestOf(hash: BodyHash, r: Request): Digest {
    hash(r.endpointId, r.generation, r.credentialId)
  }

  // ---------------------------------------------------------------- where remembered rotations come from

  /** The request is the one the server remembers under its key, for the tenant of its token. */
  ghost predicate Remembered(hash: BodyHash, s: State, r: Request) {
    && r.tokenHash in s.credentials.rows
    && var key := (s.credentials.rows[r.tokenHash].tenantId, Rotating(r.endpointId), r.key);
       key in s.answered && s.answered[key].0 == DigestOf(hash, r)
  }

  /** The client has sent this request for its present credential, and the server remembers it. */
  ghost predicate Answerable(hash: BodyHash, x: System, r: Request) {
    r in x.requests && r == RequestOf(x.kept, r.key) && Remembered(hash, x.server, r)
  }

  ghost predicate RequestsCurrent(x: System) {
    forall r | r in x.requests && r.generation == x.kept.generation :: r == RequestOf(x.kept, r.key)
  }

  ghost predicate AnswersAsked(x: System) {
    forall a | a in x.answers :: a.0 in x.requests
  }

  ghost predicate WasAsked(hash: BodyHash, requests: set<Request>, key: string, digest: Digest) {
    exists r :: r in requests && r.key == key && DigestOf(hash, r) == digest
  }

  /** Every rotation of this endpoint the server remembers was asked for by this client. */
  ghost predicate RotationsAsked(hash: BodyHash, s: State, endpointId: Id, requests: set<Request>) {
    forall key: RequestKey | key in s.answered && key.1 == Rotating(endpointId) ::
      WasAsked(hash, requests, key.2, s.answered[key].0)
  }

  /** If the client lags, it once sent the request that made the server rotate. */
  ghost predicate LagAnswerable(hash: BodyHash, x: System) {
    Lagging(x) ==> exists r :: Answerable(hash, x, r)
  }

  ghost predicate Traced(hash: BodyHash, x: System) {
    && RequestsCurrent(x) && AnswersAsked(x) && LagAnswerable(hash, x)
    && RotationsAsked(hash, x.server, x.kept.endpointId, x.requests)
  }

  lemma RememberedStays(hash: BodyHash, s: State, t: State, r: Request)
    requires Remembered(hash, s, r) && IssuedStay(s, t)
    requires forall key | key in s.answered :: key in t.answered && t.answered[key] == s.answered[key]
    ensures Remembered(hash, t, r)
  {
  }

  lemma MoreAsked(hash: BodyHash, s: State, endpointId: Id, a: set<Request>, b: set<Request>)
    requires RotationsAsked(hash, s, endpointId, a) && a <= b
    ensures RotationsAsked(hash, s, endpointId, b)
  {
    forall key: RequestKey | key in s.answered && key.1 == Rotating(endpointId)
      ensures WasAsked(hash, b, key.2, s.answered[key].0)
    {
      assert WasAsked(hash, a, key.2, s.answered[key].0);
    }
  }

  lemma AskTraced(codec: Codec, overlapSeconds: nat, hash: BodyHash, x: System, key: string, now: Time)
    requires Traced(hash, x)
    ensures Traced(hash, Next(codec, hash, overlapSeconds, x, Asks(key, now)))
  {
    hide Remembered;
    var y := Next(codec, hash, overlapSeconds, x, Asks(key, now));
    MoreAsked(hash, x.server, x.kept.endpointId, x.requests, y.requests);
    if Lagging(y) {
      var r :| Answerable(hash, x, r);
      assert Answerable(hash, y, r);
    }
  }

  /** What a step of the server leaves alone for an endpoint it does not rotate. */
  lemma ElsewhereTraced(codec: Codec, overlapSeconds: nat, hash: BodyHash, x: System, op: Op)
    requires Agreeing(overlapSeconds, hash, x) && Traced(hash, x)
    requires Possible(overlapSeconds, hash, x, Elsewhere(op))
    ensures Traced(hash, Next(codec, hash, overlapSeconds, x, Elsewhere(op)))
  {
    hide Step, Chained, WellIssued, IssuedStay, WasAsked, Remembered, AnswersNext, RequestsOld, AnswersAdvance;
    var y := Next(codec, hash, overlapSeconds, x, Elsewhere(op));
    Answered(codec, x.server, op);
    StepKeepsIssued(codec, overlapSeconds, x.server, op);
    OthersKeepGeneration(codec, x.server, op, x.kept.endpointId);
    if Lagging(y) {
      var r :| Answerable(hash, x, r);
      RememberedStays(hash, x.server, y.server, r);
      assert Answerable(hash, y, r);
    }
  }

  lemma DeliveryTraced(codec: Codec, overlapSeconds: nat, hash: BodyHash, x: System, c: Credential)
    requires Agreeing(overlapSeconds, hash, x) && Traced(hash, x)
    requires Possible(overlapSeconds, hash, x, Delivers(c))
    ensures Traced(hash, Next(codec, hash, overlapSeconds, x, Delivers(c)))
  {
    DeliveryMakesEqual(codec, overlapSeconds, hash, x, c);
    DeliveredTo(codec, overlapSeconds, hash, x, c);
    hide Agreeing, Chained, WasAsked, Remembered;
    assert RequestsOld(x);
  }

  lemma NotAdmitted(codec: Codec, hash: BodyHash, s: State, r: Request, candidate: Credential, overlapSeconds: nat,
          now: Time)
    ensures Admitted(s, r, now).None? ==> Handle(codec, hash, s, r, candidate, overlapSeconds, now) == (s, None)
  {
    hide Step, AuthenticateDevice;
  }

  lemma AdmittedIsStepped(codec: Codec, hash: BodyHash, s: State, r: Request, candidate: Credential,
          overlapSeconds: nat, now: Time)
    requires Admitted(s, r, now).Some?
    ensures Handle(codec, hash, s, r, candidate, overlapSeconds, now).0
            == Step(codec, s, RotateOp(hash, Admitted(s, r, now).value, r, candidate, overlapSeconds)).0
  {
    hide Step, Admitted;
  }

  lemma SameServerTraced(hash: BodyHash, x: System, y: System)
    requires Traced(hash, x) && y == x.(answers := y.answers, pending := y.pending) && AnswersAsked(y)
    ensures Traced(hash, y)
  {
    hide Remembered, RotationsAsked;
    if Lagging(y) {
      var r :| Answerable(hash, x, r);
      assert Answerable(hash, y, r);
    }
  }

  /** The principal a request is admitted for is the one its token was issued to. */
  lemma AdmittedIsIssued(s: State, r: Request, now: Time)
    requires Admitted(s, r, now).Some?
    ensures r.tokenHash in s.credentials.rows
    ensures Admitted(s, r, now).value == PrincipalOf(s.credentials.rows[r.tokenHash])
    ensures Admitted(s, r, now).value.endpointId == r.endpointId
  {
  }

  lemma AnswerableMeans(hash: BodyHash, x: System, r: Request)
    requires Answerable(hash, x, r)
    ensures LagAnswerable(hash, x)
  {
  }

  lemma IssuedMeans(s: State, t: State, h: Digest)
    requires IssuedStay(s, t) && h in s.credentials.rows
    ensures h in t.credentials.rows && PrincipalOf(t.credentials.rows[h]) == PrincipalOf(s.credentials.rows[h])
  {
  }

  lemma NewlyAsked(hash: BodyHash, s: State, t: State, requests: set<Request>, r: Request, key: RequestKey)
    requires RotationsAsked(hash, s, r.endpointId, requests) && r in requests && key.2 == r.key && key in t.answered
    requires t.answered == s.answered[key := t.answered[key]] && t.answered[key].0 == DigestOf(hash, r)
    ensures RotationsAsked(hash, t, r.endpointId, requests)
  {
    forall k: RequestKey | k in t.answered && k.1 == Rotating(r.endpointId)
      ensures WasAsked(hash, requests, k.2, t.answered[k].0)
    {
      if k != key {
        assert WasAsked(hash, requests, k.2, s.answered[k].0);
      }
    }
  }

  /** The request that makes the server rotate is one for the client's present credential, and is remembered. */
  lemma RotatedTraced(codec: Codec, overlapSeconds: nat, hash: BodyHash, x: System, r: Request, candidate: Credential,
          now: Time)
    requires Agreeing(overlapSeconds, hash, x) && Traced(hash, x)
    requires Possible(overlapSeconds, hash, x, Arrives(r, candidate, now))
    requires Admitted(x.server, r, now).Some?
    requires var op := RotateOp(hash, Admitted(x.server, r, now).value, r, candidate, overlapSeconds);
             var t := Handle(codec, hash, x.server, r, candidate, overlapSeconds, now).0;
             && t == Step(codec, x.server, op).0
             && t.answered == x.server.answered[KeyOf(op).value.0 := (op.digest, CredentialReply(candidate))]
             && r.endpointId in x.server.endpoints && x.server.endpoints[r.endpointId].generation == r.generation
    ensures Traced(hash, Next(codec, hash, overlapSeconds, x, Arrives(r, candidate, now)))
  {
    hide Step, Chained, WellIssued, IssuedStay, AnswersNext, AnswersAdvance, Handle, WasIssued, Admitted, LagAnswerable;
    var s := x.server;
    var op := RotateOp(hash, Admitted(s, r, now).value, r, candidate, overlapSeconds);
    var y := Next(codec, hash, overlapSeconds, x, Arrives(r, candidate, now));
    AdmittedIsIssued(s, r, now);
    StepKeepsIssued(codec, overlapSeconds, s, op);
    IssuedMeans(s, y.server, r.tokenHash);
    assert r == RequestOf(x.kept, r.key);
    assert Answerable(hash, y, r);
    AnswerableMeans(hash, y, r);
    NewlyAsked(hash, s, y.server, x.requests, r, KeyOf(op).value.0);
  }

  lemma ArrivalTraced(codec: Codec, overlapSeconds: nat, hash: BodyHash, x: System, r: Request, candidate: Credential,
          now: Time)
    requires Agreeing(overlapSeconds, hash, x) && Traced(hash, x)
    requires Possible(overlapSeconds, hash, x, Arrives(r, candidate, now))
    ensures Traced(hash, Next(codec, hash, overlapSeconds, x, Arrives(r, candidate, now)))
  {
    hide Step, Chained, WellIssued, IssuedStay, WasAsked, Remembered, AnswersNext, AnswersAdvance, Handle, IsNext;
    hide AuthenticateDevice;
    var s := x.server;
    var y := Next(codec, hash, overlapSeconds, x, Arrives(r, candidate, now));
    NotAdmitted(codec, hash, s, r, candidate, overlapSeconds, now);
    if y.server == s {
      SameServerTraced(hash, x, y);
    } else {
      HandledRotation(codec, overlapSeconds, hash, s, r, candidate, now);
      RotationIsRemembered(codec, hash, s, r, candidate, overlapSeconds, now);
      AdmittedIsStepped(codec, hash, s, r, candidate, overlapSeconds, now);
      RotatedTraced(codec, overlapSeconds, hash, x, r, candidate, now);
    }
  }

  lemma NextTraced(codec: Codec, overlapSeconds: nat, hash: BodyHash, x: System, m: Move)
    requires Agreeing(overlapSeconds, hash, x) && Traced(hash, x) && Possible(overlapSeconds, hash, x, m)
    ensures Traced(hash, Next(codec, hash, overlapSeconds, x, m))
  {
    match m
    case Asks(key, now) => hide *; AskTraced(codec, overlapSeconds, hash, x, key, now);
    case Arrives(r, candidate, now) => hide *; ArrivalTraced(codec, overlapSeconds, hash, x, r, candidate, now);
    case Delivers(c) => hide *; DeliveryTraced(codec, overlapSeconds, hash, x, c);
    case Elsewhere(op) => hide *; ElsewhereTraced(codec, overlapSeconds, hash, x, op);
    case GivesUp => hide Agreeing, LagAnswerable, RotationsAsked; SameServerTraced(hash, x, x.(pending := None));
  }

  lemma {:induction false} AlwaysTraced(codec: Codec, overlapSeconds: nat, hash: BodyHash, x: System, moves: seq<Move>)
    requires Agreeing(overlapSeconds, hash, x) && TellsGenerations(hash) && Traced(hash, x)
    requires CanRun(codec, overlapSeconds, hash, x, moves)
    ensures var y := RunSystem(codec, overlapSeconds, hash, x, moves);
            Agreeing(overlapSeconds, hash, y) && Traced(hash, y)
    decreases |moves|
  {
    hide Agreeing, Traced, Next, WellIssued, Admitted;
    if moves == [] {
    } else {
      NextAgrees(codec, overlapSeconds, hash, x, moves[0]);
      NextTraced(codec, overlapSeconds, hash, x, moves[0]);
      AlwaysTraced(codec, overlapSeconds, hash, Next(codec, hash, overlapSeconds, x, moves[0]), moves[1..]);
    }
  }

  // ---------------------------------------------------------------- recovery

  /** A lagging client's token is still admitted until it expires, or the overlap is over. */
  lemma AdmittedExactly(overlapSeconds: nat, hash: BodyHash, x: System, key: string, now: Time)
    requires Agreeing(overlapSeconds, hash, x) && Lagging(x)
    ensures x.kept.tokenHash in x.server.credentials.rows
    ensures var rows := x.server.credentials.rows;
            var c := rows[x.kept.tokenHash];
            Admitted(x.server, RequestOf(x.kept, key), now).Some? <==>
              && now < c.expiresAt
              && exists next :: next in rows && ReplacedBy(overlapSeconds, c, rows[next])
                                && now < rows[next].issuedAt + overlapSeconds * SECOND
  {
    AuthenticatesExactly(overlapSeconds, x.server, x.kept.tokenHash, now);
    hide Chained, AnswersNext, AnswersAdvance, RequestsOld, ReplacedBy;
  }

  lemma RepeatedReply(codec: Codec, s: State, op: Op)
    requires IsRepeat(s, op)
    ensures Step(codec, s, op) == (s, Ok(s.answered[KeyOf(op).value.0].1))
  {
    hide Perform;
  }

  /** What the server remembers for the client's present credential is what the client sent. */
  lemma RememberedIsSent(hash: BodyHash, x: System, r: Request)
    requires Traced(hash, x) && TellsGenerations(hash) && r == RequestOf(x.kept, r.key)
    ensures Remembered(hash, x.server, r) ==> r in x.requests
  {
    hide LagAnswerable;
    if Remembered(hash, x.server, r) {
      var k := (x.server.credentials.rows[r.tokenHash].tenantId, Rotating(r.endpointId), r.key);
      assert WasAsked(hash, x.requests, k.2, x.server.answered[k].0);
      var sent :| sent in x.requests && sent.key == r.key && DigestOf(hash, sent) == DigestOf(hash, r);
      assert sent.generation == r.generation;
    }
  }

  lemma RepeatIsAnswerable(hash: BodyHash, x: System, r: Request, op: Op)
    requires Traced(hash, x) && TellsGenerations(hash) && r == RequestOf(x.kept, r.key)
    requires r.tokenHash in x.server.credentials.rows
    requires KeyOf(op) == Some(((x.server.credentials.rows[r.tokenHash].tenantId, Rotating(r.endpointId), r.key),
             DigestOf(hash, r)))
    ensures IsRepeat(x.server, op) <==> Answerable(hash, x, r)
  {
    hide LagAnswerable;
    RememberedIsSent(hash, x, r);
  }

  /** What a lagging client is given: the next credential, exactly for a request it sent and the server remembers. */
  lemma AnsweredExactly(codec: Codec, overlapSeconds: nat, hash: BodyHash, x: System, key: string,
          candidate: Credential, now: Time)
    requires Agreeing(overlapSeconds, hash, x) && Traced(hash, x) && TellsGenerations(hash) && Lagging(x)
    ensures var r := RequestOf(x.kept, key);
            var (t, answer) := Handle(codec, hash, x.server, r, candidate, overlapSeconds, now);
            && t == x.server
            && (answer.Some? <==> Admitted(x.server, r, now).Some? && Answerable(hash, x, r))
            && (answer.Some? ==>
                  IsNext(x.server, x.kept.endpointId, x.kept.generation, CredentialReply(answer.value)))
  {
    hide Step, Chained, AnswersNext, AuthenticateDevice, IsNext, WasIssued;
    var r := RequestOf(x.kept, key);
    NotAdmitted(codec, hash, x.server, r, candidate, overlapSeconds, now);
    if Admitted(x.server, r, now).Some? {
      OnlyRetransmissionRecovers(codec, overlapSeconds, hash, x, r, candidate, now);
      AdmittedIsIssued(x.server, r, now);
      var op := RotateOp(hash, Admitted(x.server, r, now).value, r, candidate, overlapSeconds);
      var k := KeyOf(op).value.0;
      RepeatIsAnswerable(hash, x, r, op);
      if IsRepeat(x.server, op) {
        assert IsNext(x.server, x.kept.endpointId, r.generation, x.server.answered[k].1);
        RepeatedReply(codec, x.server, op);
      }
    }
  }

  /** Repeating such a request brings a lagging client level, as long as its token is admitted. */
  lemma RetransmissionRecovers(codec: Codec, overlapSeconds: nat, hash: BodyHash, x: System, r: Request, at: Time,
          candidate: Credential, now: Time)
    returns (c: Credential)
    requires Agreeing(overlapSeconds, hash, x) && Traced(hash, x) && TellsGenerations(hash) && Lagging(x)
    requires Answerable(hash, x, r) && Admitted(x.server, r, now).Some?
    requires Possible(overlapSeconds, hash, x, Asks(r.key, at))
    ensures var y := Next(codec, hash, overlapSeconds, x, Asks(r.key, at));
            var z := Next(codec, hash, overlapSeconds, y, Arrives(r, candidate, now));
            && Possible(overlapSeconds, hash, z, Delivers(c))
            && var e := Next(codec, hash, overlapSeconds, z, Delivers(c));
               e.server == x.server && e.kept.endpointId == x.kept.endpointId && !Lagging(e)
               && e.kept.generation == x.kept.generation + 1
  {
    hide Handle, Admitted, Chained, Traced, Remembered, WasIssued;
    AnsweredExactly(codec, overlapSeconds, hash, x, r.key, candidate, now);
    c := Handle(codec, hash, x.server, r, candidate, overlapSeconds, now).1.value;
    var y := Next(codec, hash, overlapSeconds, x, Asks(r.key, at));
    var z := Next(codec, hash, overlapSeconds, y, Arrives(r, candidate, now));
    assert (r, c) in z.answers && z.pending == Some(Call(r, at));
  }

  // ---------------------------------------------------------------- what never recovers

  /** The client gave up on the request the server answered, and what it waits for now is not remembered. */
  ghost predicate Stuck(hash: BodyHash, x: System) {
    && Lagging(x)
    && (x.pending.Some? ==>
          && x.pending.value.request == RequestOf(x.kept, x.pending.value.request.key)
          && !Remembered(hash, x.server, x.pending.value.request)
          && forall a | a in x.answers :: a.0 != x.pending.value.request)
  }

  /** A request under a key the client has not used for its present credential, as with a new random key. */
  ghost predicate FreshAsk(x: System, m: Move) {
    m.Asks? ==> RequestOf(x.kept, m.key) !in x.requests
  }

  lemma AskStaysStuck(codec: Codec, overlapSeconds: nat, hash: BodyHash, x: System, key: string, now: Time)
    requires Traced(hash, x) && TellsGenerations(hash) && Stuck(hash, x) && FreshAsk(x, Asks(key, now))
    ensures Stuck(hash, Next(codec, hash, overlapSeconds, x, Asks(key, now)))
  {
    hide LagAnswerable, Remembered, RotationsAsked, RequestsCurrent;
    RememberedIsSent(hash, x, RequestOf(x.kept, key));
  }

  lemma ArrivalStaysStuck(codec: Codec, overlapSeconds: nat, hash: BodyHash, x: System, r: Request,
          candidate: Credential, now: Time)
    requires Agreeing(overlapSeconds, hash, x) && Traced(hash, x) && TellsGenerations(hash) && Stuck(hash, x)
    requires Possible(overlapSeconds, hash, x, Arrives(r, candidate, now))
    ensures Stuck(hash, Next(codec, hash, overlapSeconds, x, Arrives(r, candidate, now)))
  {
    hide Step, Chained, WellIssued, WasAsked, Remembered, AnswersNext, AnswersAdvance, Handle, IsNext,
        AuthenticateDevice;
    NotAdmitted(codec, hash, x.server, r, candidate, overlapSeconds, now);
    if Admitted(x.server, r, now).Some? {
      HandledRotation(codec, overlapSeconds, hash, x.server, r, candidate, now);
    }
    if x.pending.Some? && r == x.pending.value.request {
      AnsweredExactly(codec, overlapSeconds, hash, x, r.key, candidate, now);
    }
  }

  lemma ElsewhereStaysStuck(codec: Codec, overlapSeconds: nat, hash: BodyHash, x: System, op: Op)
    requires Agreeing(overlapSeconds, hash, x) && Stuck(hash, x) && Possible(overlapSeconds, hash, x, Elsewhere(op))
    ensures Stuck(hash, Next(codec, hash, overlapSeconds, x, Elsewhere(op)))
  {
    hide Step, Chained, WellIssued, IssuedStay, AnswersNext, AnswersAdvance, RequestsOld;
    Answered(codec, x.server, op);
    StepKeepsIssued(codec, overlapSeconds, x.server, op);
    OthersKeepGeneration(codec, x.server, op, x.kept.endpointId);
    IssuedMeans(x.server, Step(codec, x.server, op).0, x.kept.tokenHash);
  }

  lemma NextStaysStuck(codec: Codec, overlapSeconds: nat, hash: BodyHash, x: System, m: Move)
    requires Agreeing(overlapSeconds, hash, x) && Traced(hash, x) && TellsGenerations(hash) && Stuck(hash, x)
    requires Possible(overlapSeconds, hash, x, m) && FreshAsk(x, m)
    ensures var y := Next(codec, hash, overlapSeconds, x, m); Stuck(hash, y) && y.kept == x.kept
  {
    match m
    case Asks(key, now) => hide Agreeing, Traced, Stuck, Possible;
        AskStaysStuck(codec, overlapSeconds, hash, x, key, now);
    case Arrives(r, candidate, now) =>
      hide Agreeing, Traced, Stuck, Possible, Handle;
      ArrivalStaysStuck(codec, overlapSeconds, hash, x, r, candidate, now);
    case Elsewhere(op) =>
      hide Agreeing, Traced, Stuck, Possible, Step;
      ElsewhereStaysStuck(codec, overlapSeconds, hash, x, op);
    case Delivers(c) => assert false;
    case GivesUp =>
  }

  ghost predicate FreshAsks(codec: Codec, overlapSeconds: nat, hash: BodyHash, x: System, moves: seq<Move>)
    requires CanRun(codec, overlapSeconds, hash, x, moves)
    decreases |moves|
  {
    moves != [] ==>
      && FreshAsk(x, moves[0])
      && FreshAsks(codec, overlapSeconds, hash, Next(codec, hash, overlapSeconds, x, moves[0]), moves[1..])
  }

  lemma {:induction false} StaysStuck(codec: Codec, overlapSeconds: nat, hash: BodyHash, x: System, moves: seq<Move>)
    requires Agreeing(overlapSeconds, hash, x) && Traced(hash, x) && TellsGenerations(hash) && Stuck(hash, x)
    requires CanRun(codec, overlapSeconds, hash, x, moves) && FreshAsks(codec, overlapSeconds, hash, x, moves)
    ensures var y := RunSystem(codec, overlapSeconds, hash, x, moves); Stuck(hash, y) && y.kept == x.kept
    decreases |moves|
  {
    hide Agreeing, Traced, Stuck, Next, WellIssued, Admitted, FreshAsk;
    if moves == [] {
    } else {
      var y := Next(codec, hash, overlapSeconds, x, moves[0]);
      NextAgrees(codec, overlapSeconds, hash, x, moves[0]);
      NextTraced(codec, overlapSeconds, hash, x, moves[0]);
      NextStaysStuck(codec, overlapSeconds, hash, x, moves[0]);
      StaysStuck(codec, overlapSeconds, hash, y, moves[1..]);
    }
  }

  /**
   * A client that lags, has given up, and tries again under new keys only, as its callers do, keeps its old credential
   * whatever the network delivers, and for ever.
   */
  lemma NewKeysNeverRecover(codec: Codec, overlapSeconds: nat, hash: BodyHash, x: System, moves: seq<Move>)
    requires Agreeing(overlapSeconds, hash, x) && Traced(hash, x) && TellsGenerations(hash)
    requires Lagging(x) && x.pending.None?
    requires CanRun(codec, overlapSeconds, hash, x, moves) && FreshAsks(codec, overlapSeconds, hash, x, moves)
    ensures var y := RunSystem(codec, overlapSeconds, hash, x, moves); Lagging(y) && y.kept == x.kept
  {
    hide Agreeing, Traced, Lagging, CanRun, RunSystem, FreshAsks;
    StaysStuck(codec, overlapSeconds, hash, x, moves);
  }

  // ---------------------------------------------------------------- losing an answer

  lemma {:induction false} NamedFound(rows: map<Digest, Credential>, order: seq<Digest>, h: Digest)
    requires forall k | k in order :: k in rows
    requires h in order && forall k | k in order && rows[k].credentialId == rows[h].credentialId :: k == h
    ensures CredentialNamed(rows, order, rows[h].credentialId) == Some(h)
  {
    if order[0] == h {
    } else {
      assert h in order[1..];
      NamedFound(rows, order[1..], h);
    }
  }

  /** A client level with the server that asks in time under an unused key is given the next generation. */
  lemma LevelIsRotated(codec: Codec, overlapSeconds: nat, hash: BodyHash, x: System, key: string, candidate: Credential,
          now: Time)
    requires Agreeing(overlapSeconds, hash, x) && !Lagging(x)
    requires var r := RequestOf(x.kept, key);
             && Admitted(x.server, r, now).Some? && candidate.generation == r.generation + 1
             && KeyOf(RotateOp(hash, Admitted(x.server, r, now).value, r, candidate, overlapSeconds)).value.0
                !in x.server.answered
    ensures var (t, answer) := Handle(codec, hash, x.server, RequestOf(x.kept, key), candidate, overlapSeconds, now);
            && answer == Some(candidate) && x.kept.endpointId in t.endpoints
            && t.endpoints[x.kept.endpointId].generation == x.kept.generation + 1
  {
    hide NoGap, NoRepeat, HasReplacement, AnswersNext, AnswersAdvance, RequestsOld, Step, CredentialNamed,
        AuthenticateDevice;
    var s, r := x.server, RequestOf(x.kept, key);
    AdmittedIsIssued(s, r, now);
    var c := s.credentials.rows[r.tokenHash];
    assert Linked(overlapSeconds, s.endpoints, s.credentials.rows, c);
    NamedFound(s.credentials.rows, s.credentials.order, r.tokenHash);
    var op := RotateOp(hash, Admitted(s, r, now).value, r, candidate, overlapSeconds);
    FreshRotationIsStep(codec, s, op);
  }

  /** Losing the answer to such a request leaves the client lagging. */
  lemma LostAnswerLags(codec: Codec, overlapSeconds: nat, hash: BodyHash, x: System, key: string, at: Time,
          candidate: Credential, now: Time)
    requires Agreeing(overlapSeconds, hash, x) && !Lagging(x)
    requires var r := RequestOf(x.kept, key);
             && Admitted(x.server, r, now).Some? && candidate.generation == r.generation + 1
             && KeyOf(RotateOp(hash, Admitted(x.server, r, now).value, r, candidate, overlapSeconds)).value.0
                !in x.server.answered
    requires CanRun(codec, overlapSeconds, hash, x,
             [Asks(key, at), Arrives(RequestOf(x.kept, key), candidate, now), GivesUp])
    ensures var y := RunSystem(codec, overlapSeconds, hash, x,
                               [Asks(key, at), Arrives(RequestOf(x.kept, key), candidate, now), GivesUp]);
            Lagging(y) && y.pending.None? && y.kept == x.kept
  {
    hide Agreeing, Possible, Handle, Admitted, KeyOf;
    LevelIsRotated(codec, overlapSeconds, hash, x, key, candidate, now);
    var moves := [Asks(key, at), Arrives(RequestOf(x.kept, key), candidate, now), GivesUp];
    var y := Next(codec, hash, overlapSeconds, x, moves[0]);
    var z := Next(codec, hash, overlapSeconds, y, moves[1]);
    assert moves[1..][1..] == [GivesUp] && moves[1..][1..][1..] == [];
    assert RunSystem(codec, overlapSeconds, hash, x, moves) == RunSystem(codec, overlapSeconds, hash, z, [GivesUp]);
    assert RunSystem(codec, overlapSeconds, hash, z, [GivesUp]) == Next(codec, hash, overlapSeconds, z, GivesUp);
  }

  // ---------------------------------------------------------------- from enrollment on

  ghost predicate RotatorsEnrolled(s: State) {
    forall key: RequestKey | key in s.answered && key.1.Rotating? :: key.1.endpointId in s.endpoints
  }

  lemma AcceptedRotatorEnrolled(codec: Codec, s: State, op: Op)
    requires op.Rotate? && Step(codec, s, op).1.Ok? && KeyOf(op).value.0 !in s.answered
    ensures op.principal.endpointId in s.endpoints
  {
    hide CredentialNamed, Superseded;
  }

  lemma {:induction false} RunEnrolled(codec: Codec, s: State, ops: seq<Op>)
    requires RotatorsEnrolled(s)
    ensures RotatorsEnrolled(Run(codec, s, ops))
    decreases |ops|
  {
    hide Step;
    if ops == [] {
    } else {
      var t := Step(codec, s, ops[0]).0;
      Answered(codec, s, ops[0]);
      StepGrows(codec, s, ops[0]);
      if ops[0].Rotate? && t.answered != s.answered { AcceptedRotatorEnrolled(codec, s, ops[0]); }
      assert RotatorsEnrolled(t);
      RunEnrolled(codec, t, ops[1..]);
    }
  }

  lemma EnrollmentAccepted(codec: Codec, s: State, op: Op)
    requires op.Enroll? && KeyOf(op).value.0 !in s.answered && Step(codec, s, op).1.Ok?
    ensures var t := Step(codec, s, op).0;
            && op.endpoint.endpointId !in s.endpoints && op.endpoint.endpointId in t.endpoints
            && t.endpoints[op.endpoint.endpointId] == op.endpoint
            && op.credential.tokenHash in t.credentials.rows
               && t.credentials.rows[op.credential.tokenHash] == op.credential
            && t.answered == s.answered[KeyOf(op).value.0 := (op.digest, CredentialReply(op.credential))]
  {
    hide GrantRefusal, Consume;
  }

  /** The endpoint was enrolled, and has been given its first credential. */
  function Joined(codec: Codec, s: State, enroll: Op): System
    requires enroll.Enroll?
  {
    System(Step(codec, s, enroll).0, KeptOf(enroll.credential), None, {}, {})
  }

  lemma JoinedAgrees(codec: Codec, overlapSeconds: nat, hash: BodyHash, s: State, enroll: Op)
    requires Chained(overlapSeconds, s.endpoints, s.credentials.rows) && RotatorsEnrolled(s)
    requires WellIssued(overlapSeconds, s, enroll) && enroll.Enroll? && KeyOf(enroll).value.0 !in s.answered
    requires Step(codec, s, enroll).1.Ok?
    ensures Agreeing(overlapSeconds, hash, Joined(codec, s, enroll)) && Traced(hash, Joined(codec, s, enroll))
  {
    hide Step, Chained, NewCredential, Agreeing;
    StepKeepsChain(codec, overlapSeconds, s, enroll);
    EnrollmentAccepted(codec, s, enroll);
    EnrolledAgrees(overlapSeconds, hash, Step(codec, s, enroll).0, enroll.credential);
  }

  /**
   * Any endpoint, from the moment of its enrollment on, whatever happened before and whatever the network then does:
   * its client and the server agree, and a lag can be traced to a request the client sent.
   */
  lemma AgreeingSinceEnrollment(codec: Codec, overlapSeconds: nat, hash: BodyHash, before: seq<Op>, enroll: Op,
          moves: seq<Move>)
    requires TellsGenerations(hash) && WellIssuedRun(codec, overlapSeconds, EMPTY_STATE, before)
    requires var s := Run(codec, EMPTY_STATE, before);
             && WellIssued(overlapSeconds, s, enroll) && enroll.Enroll? && KeyOf(enroll).value.0 !in s.answered
             && Step(codec, s, enroll).1.Ok?
             && CanRun(codec, overlapSeconds, hash, Joined(codec, s, enroll), moves)
    ensures var x := Joined(codec, Run(codec, EMPTY_STATE, before), enroll);
            var y := RunSystem(codec, overlapSeconds, hash, x, moves);
            && Agreeing(overlapSeconds, hash, y) && Traced(hash, y)
            && y.kept.endpointId == enroll.endpoint.endpointId && 1 <= y.kept.generation
  {
    var s := Run(codec, EMPTY_STATE, before);
    hide Run, Step, WellIssuedRun, CanRun, RunSystem, Chained, NewCredential, Agreeing, Traced;
    NothingIssued(overlapSeconds);
    RunKeepsChain(codec, overlapSeconds, EMPTY_STATE, before);
    RunEnrolled(codec, EMPTY_STATE, before);
    JoinedAgrees(codec, overlapSeconds, hash, s, enroll);
    AlwaysAgreeing(codec, overlapSeconds, hash, Joined(codec, s, enroll), moves);
    AlwaysTraced(codec, overlapSeconds, hash, Joined(codec, s, enroll), moves);
  }
}
