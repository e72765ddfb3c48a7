/**
 * Credential rotation between an endpoint and the control plane, over a network that loses, delays and repeats
 * messages.
 */
module Rotation {
  import opened Prelude
  import opened OrderedDict
  import opened Records
  import opened Inventory
  import opened ControlPlane
  import opened Callers
  import opened Transitions
  import opened Credentials
  import opened Idempotency

  // ---------------------------------------------------------------- the client

  /** The credential the endpoint keeps; `tokenHash` stands for the token itself. */
  datatype Kept = Kept(endpointId: Id, credentialId: Id, generation: int, tokenHash: Digest, expiresAt: Time)

  datatype ClientError = MissingCredential | CredentialExpired | EnrollmentError | TransportError

  datatype ClientResult = Replaced(credential: Kept) | NotRotated(error: ClientError)

  /** What the call to the rotation endpoint gives back. */
  datatype Response = Answer(credential: Kept) | NoAnswer

  function AfterRotation(store: map<Id, Kept>, endpointId: Id, now: Time, response: Response): (map<Id, Kept>,
          ClientResult) {
    if endpointId !in store then (store, NotRotated(MissingCredential))
    else if now >= store[endpointId].expiresAt then (store, NotRotated(CredentialExpired))
    else if store[endpointId].credentialId == "" then (store, NotRotated(EnrollmentError))
    else
      match response
      case NoAnswer => (store, NotRotated(TransportError))
      case Answer(rotated) =>
        if rotated.endpointId != endpointId || rotated.generation <= store[endpointId].generation
            then (store, NotRotated(EnrollmentError))
        else (store[endpointId := rotated], Replaced(rotated))
  }

  class EnrollmentService {
    var store: map<Id, Kept>

    constructor (initial: map<Id, Kept>)
      ensures store == initial
    {
      store := initial;
    }

    /** `rotate`: the response comes from outside and is only looked at when a request would be sent. */
    method Rotate(endpointId: Id, now: Time, response: Response) returns (r: ClientResult)
      modifies this
      ensures (store, r) == AfterRotation(old(store), endpointId, now, response)
      ensures endpointId in old(store) ==>
                endpointId in store && old(store)[endpointId].generation <= store[endpointId].generation
    {
      if endpointId !in store {
        return NotRotated(MissingCredential);
      }
      var current := store[endpointId];
      if now >= current.expiresAt {
        return NotRotated(CredentialExpired);
      }
      if current.credentialId == "" {
        return NotRotated(EnrollmentError);
      }
      if response.NoAnswer? {
        return NotRotated(TransportError);
      }
      var rotated := response.credential;
      if rotated.endpointId != endpointId || rotated.generation <= current.generation {
        return NotRotated(EnrollmentError);
      }
      store := store[endpointId := rotated];
      r := Replaced(rotated);
    }
  }

  // ---------------------------------------------------------------- the server

  /** A rotation request: its idempotency key, the token it is sent with, and its body. */
  datatype Request = Request(key: string, tokenHash: Digest, endpointId: Id, generation: int, credentialId: Id)

  type BodyHash = (Id, int, Id) -> Digest

  /** Bodies that name different generations have different hashes. */
  ghost predicate TellsGenerations(hash: BodyHash) {
    forall a: Id, m: int, x: Id, b: Id, n: int, y: Id :: hash(a, m, x) == hash(b, n, y) ==> m == n
  }

  function RotateOp(hash: BodyHash, p: Principal, r: Request, candidate: Credential, overlapSeconds: int): Op {
    Rotate(p, r.generation, r.credentialId, candidate, overlapSeconds, r.key,
        hash(r.endpointId, r.generation, r.credentialId))
  }

  /** The principal the request is accepted for, if its token authenticates and its body matches. */
  function Admitted(s: State, r: Request, now: Time): Option<Principal> {
    var p := AuthenticateDevice(s, r.tokenHash, now);
    if p.Some? && p.value.endpointId == r.endpointId && p.value.generation == r.generation
        && p.value.credentialId == r.credentialId
    then p else None
  }

  function Handle(codec: Codec, hash: BodyHash, s: State, r: Request, candidate: Credential, overlapSeconds: int,
          now: Time): (State, Option<Credential>) {
    match Admitted(s, r, now)
    case None => (s, None)
    case Some(p) =>
      var (t, outcome) := Step(codec, s, RotateOp(hash, p, r, candidate, overlapSeconds));
      (t, if outcome.Ok? && outcome.reply.CredentialReply? then Some(outcome.reply.credential) else None)
  }

  function KeptOf(c: Credential): Kept {
    Kept(c.endpointId, c.credentialId, c.generation, c.tokenHash, c.expiresAt)
  }

  // ---------------------------------------------------------------- both, and the network between them

  /** A call in progress: the request, and when the client checked that it may send it. */
  datatype Call = Call(request: Request, at: Time)

  /** The client waits for the answer to `pending`; requests and answers may arrive late, repeatedly, or never. */
  datatype System = System(
    server: State, kept: Kept, pending: Option<Call>, requests: set<Request>, answers: set<(Request, Credential)>)

  datatype Move =
    | Asks(key: string, now: Time)
    | Arrives(request: Request, candidate: Credential, now: Time)
    | Delivers(credential: Credential)
    | GivesUp
    | Elsewhere(op: Op)

  /** The server's view is consistent, candidates are new, and nobody else rotates this endpoint's credentials. */
  ghost predicate Possible(overlapSeconds: nat, hash: BodyHash, x: System, m: Move) {
    match m
    case Asks(_, now) => x.pending.None? && now < x.kept.expiresAt && x.kept.credentialId != ""
    case Arrives(request, candidate, now) =>
      && request in x.requests
      && (Admitted(x.server, request, now).Some? ==>
            WellIssued(overlapSeconds, x.server,
                RotateOp(hash, Admitted(x.server, request, now).value, request, candidate, overlapSeconds))
            && candidate.generation == request.generation + 1 && candidate.endpointId == request.endpointId)
    case Delivers(credential) => x.pending.Some? && (x.pending.value.request, credential) in x.answers
    case GivesUp => true
    case Elsewhere(op) =>
      && WellIssued(overlapSeconds, x.server, op)
      && (op.Rotate? ==> op.principal.endpointId != x.kept.endpointId)
  }

  function RequestOf(kept: Kept, key: string): Request {
    Request(key, kept.tokenHash, kept.endpointId, kept.generation, kept.credentialId)
  }

  function Next(codec: Codec, hash: BodyHash, overlapSeconds: nat, x: System, m: Move): System
    requires m.Delivers? ==> x.pending.Some?
  {
    match m
    case Asks(key, now) =>
        x.(pending := Some(Call(RequestOf(x.kept, key), now)), requests := x.requests + {RequestOf(x.kept, key)})
    case Arrives(request, candidate, now) =>
      var (t, answer) := Handle(codec, hash, x.server, request, candidate, overlapSeconds, now);
      x.(server := t, answers := if answer.Some? then x.answers + {(request, answer.value)} else x.answers)
    case Delivers(credential) =>
      var (store, _) := AfterRotation(map[x.kept.endpointId := x.kept], x.kept.endpointId, x.pending.value.at,
          Answer(KeptOf(credential)));
      x.(kept := store[x.kept.endpointId], pending := None)
    case GivesUp => x.(pending := None)
    case Elsewhere(op) => x.(server := Step(codec, x.server, op).0)
  }

  // ---------------------------------------------------------------- what always holds

  /** The server issued a credential of this endpoint with this identifier and generation under this token. */
  ghost predicate WasIssued(s: State, tokenHash: Digest, endpointId: Id, credentialId: Id, generation: int) {
    && tokenHash in s.credentials.rows
    && s.credentials.rows[tokenHash].endpointId == endpointId
    && s.credentials.rows[tokenHash].credentialId == credentialId
    && s.credentials.rows[tokenHash].generation == generation
  }

  ghost predicate IsNext(s: State, endpointId: Id, n: int, reply: Reply) {
    && reply.CredentialReply? && reply.credential.endpointId == endpointId && reply.credential.generation == n + 1
    && WasIssued(s, reply.credential.tokenHash, endpointId, reply.credential.credentialId, n + 1)
  }

  /** Every remembered answer to a rotation of this endpoint is the next generation after the one its body names. */
  ghost predicate AnswersAdvance(hash: BodyHash, s: State, endpointId: Id) {
    forall key: RequestKey, n: int, c: Id ::
      key in s.answered && key.1 == Rotating(endpointId) && s.answered[key].0 == hash(endpointId, n, c) ==>
        IsNext(s, endpointId, n, s.answered[key].1)
  }

  ghost predicate InStepWith(s: State, kept: Kept) {
    && kept.endpointId in s.endpoints
    && kept.generation <= s.endpoints[kept.endpointId].generation <= kept.generation + 1
    && WasIssued(s, kept.tokenHash, kept.endpointId, kept.credentialId, kept.generation)
  }

  ghost predicate RequestsOld(x: System) {
    forall r | r in x.requests :: r.endpointId == x.kept.endpointId && r.generation <= x.kept.generation
  }

  ghost predicate AnswersNext(x: System) {
    forall a | a in x.answers :: IsNext(x.server, x.kept.endpointId, a.0.generation, CredentialReply(a.1))
  }

  /** The server is at most one generation ahead of the client, which keeps a credential the server issued. */
  ghost predicate Agreeing(overlapSeconds: nat, hash: BodyHash, x: System) {
    && Chained(overlapSeconds, x.server.endpoints, x.server.credentials.rows)
    && InStepWith(x.server, x.kept) && RequestsOld(x) && AnswersNext(x)
       && AnswersAdvance(hash, x.server, x.kept.endpointId)
    && (x.pending.Some? ==>
          && x.pending.value.request.generation == x.kept.generation
          && x.pending.value.at < x.kept.expiresAt && x.kept.credentialId != "")
  }

  // ---------------------------------------------------------------- the server's steps

  ghost predicate IssuedStay(s: State, t: State) {
    forall h | h in s.credentials.rows :: h in t.credentials.rows
        && PrincipalOf(t.credentials.rows[h]) == PrincipalOf(s.credentials.rows[h])
  }

  lemma StepKeepsIssued(codec: Codec, overlapSeconds: nat, s: State, op: Op)
    requires WellIssued(overlapSeconds, s, op)
    ensures IssuedStay(s, Step(codec, s, op).0)
  {
    hide Perform, Step, FreshEnrollment, FreshRotation, Authentic;
    StepPerforms(codec, s, op);
    IssueIsPerform(codec, s, op);
    if op.Enroll? {
      EnrollmentEffect(s, op.tenantId, op.endpoint, op.credential, op.grantHash);
    } else if op.Rotate? {
      RotationEffect(s, op.principal, op.expectedGeneration, op.expectedCredentialId, op.credential, op.overlapSeconds);
    } else {
      IssuesNothing(codec, s, op);
    }
  }

  /** Only a rotation of the endpoint changes its generation. */
  lemma OthersKeepGeneration(codec: Codec, s: State, op: Op, e: Id)
    requires e in s.endpoints && (op.Rotate? ==> op.principal.endpointId != e)
    ensures e in Step(codec, s, op).0.endpoints && Step(codec, s, op).0.endpoints[e].generation
            == s.endpoints[e].generation
  {
    hide Perform, Step, FreshEnrollment, FreshRotation, Rotated;
    StepPerforms(codec, s, op);
    IssueIsPerform(codec, s, op);
    if op.Enroll? {
      EnrollmentEffect(s, op.tenantId, op.endpoint, op.credential, op.grantHash);
    } else if op.Rotate? {
      RotationEffect(s, op.principal, op.expectedGeneration, op.expectedCredentialId, op.credential, op.overlapSeconds);
    } else {
      IssuesNothing(codec, s, op);
    }
  }

  lemma IssuedStill(s: State, t: State, tokenHash: Digest, endpointId: Id, credentialId: Id, generation: int)
    requires IssuedStay(s, t) && WasIssued(s, tokenHash, endpointId, credentialId, generation)
    ensures WasIssued(t, tokenHash, endpointId, credentialId, generation)
  {
  }

  lemma AnswersStill(s: State, t: State, x: System)
    requires AnswersNext(x) && x.server == s && IssuedStay(s, t)
    ensures AnswersNext(x.(server := t))
  {
    hide IssuedStay, WasIssued;
    forall a | a in x.answers ensures IsNext(t, x.kept.endpointId, a.0.generation, CredentialReply(a.1)) {
      assert IsNext(s, x.kept.endpointId, a.0.generation, CredentialReply(a.1));
      IssuedStill(s, t, a.1.tokenHash, x.kept.endpointId, a.1.credentialId, a.0.generation + 1);
    }
  }

  lemma RememberedStill(hash: BodyHash, s: State, t: State, op: Op, endpointId: Id)
    requires AnswersAdvance(hash, s, endpointId) && IssuedStay(s, t)
             && (op.Rotate? ==> op.principal.endpointId != endpointId)
    requires || t.answered == s.answered
             || (KeyOf(op).Some? && KeyOf(op).value.0 in t.answered
                 && t.answered == s.answered[KeyOf(op).value.0 := t.answered[KeyOf(op).value.0]])
    ensures AnswersAdvance(hash, t, endpointId)
  {
    hide IssuedStay, WasIssued;
    forall key: RequestKey, n: int, c: Id
      | key in t.answered && key.1 == Rotating(endpointId) && t.answered[key].0 == hash(endpointId, n, c)
      ensures IsNext(t, endpointId, n, t.answered[key].1)
    {
      assert key in s.answered && s.answered[key] == t.answered[key];
      assert IsNext(s, endpointId, n, s.answered[key].1);
      IssuedStill(s, t, s.answered[key].1.credential.tokenHash, endpointId, s.answered[key].1.credential.credentialId,
          n + 1);
    }
  }

  /** Whatever else the server does, this endpoint and its client stay in step. */
  lemma ElsewhereAgrees(codec: Codec, overlapSeconds: nat, hash: BodyHash, x: System, op: Op)
    requires Agreeing(overlapSeconds, hash, x) && Possible(overlapSeconds, hash, x, Elsewhere(op))
    ensures Agreeing(overlapSeconds, hash, Next(codec, hash, overlapSeconds, x, Elsewhere(op)))
  {
    hide Step, Chained, WellIssued, IssuedStay, WasIssued;
    var s, t := x.server, Step(codec, x.server, op).0;
    StepKeepsChain(codec, overlapSeconds, s, op);
    StepKeepsIssued(codec, overlapSeconds, s, op);
    OthersKeepGeneration(codec, s, op, x.kept.endpointId);
    IssuedStill(s, t, x.kept.tokenHash, x.kept.endpointId, x.kept.credentialId, x.kept.generation);
    Answered(codec, s, op);
    AnswersStill(s, t, x);
    RememberedStill(hash, s, t, op, x.kept.endpointId);
  }

  // ---------------------------------------------------------------- rotation requests

  lemma AnsweredRotation(codec: Codec, hash: BodyHash, s: State, op: Op, r: Request)
    requires AnswersAdvance(hash, s, r.endpointId) && op.Rotate? && op.principal.endpointId == r.endpointId
    requires op.digest == hash(r.endpointId, r.generation, r.credentialId) && KeyOf(op).value.0 in s.answered
    ensures var (t, outcome) := Step(codec, s, op);
            t == s && (outcome.Ok? ==> IsNext(s, r.endpointId, r.generation, outcome.reply))
  {
    hide Perform;
    var (key, digest) := KeyOf(op).value;
    assert s.answered[key].0 == digest ==> IsNext(s, r.endpointId, r.generation, s.answered[key].1);
  }

  lemma FreshRotationIsStep(codec: Codec, s: State, op: Op)
    requires op.Rotate? && KeyOf(op).value.0 !in s.answered
    ensures var (t, outcome) :=
            FreshRotation(s, op.principal, op.expectedGeneration, op.expectedCredentialId, op.credential,
                op.overlapSeconds);
            Step(codec, s, op) == if outcome.Ok?
                then (Remember(t, KeyOf(op).value.0, op.digest, outcome.reply), outcome) else (t, outcome)
    ensures FreshRotation(s, op.principal, op.expectedGeneration, op.expectedCredentialId, op.credential,
            op.overlapSeconds).1.Ok? ==>
              FreshRotation(s, op.principal, op.expectedGeneration, op.expectedCredentialId, op.credential,
                  op.overlapSeconds).1.reply == CredentialReply(op.credential)
  {
    hide CredentialNamed, Superseded;
  }

  lemma FreshlyRotated(codec: Codec, s: State, op: Op, r: Request, candidate: Credential)
    requires op.Rotate? && op.credential == candidate && op.principal.endpointId == r.endpointId
             && op.principal.generation == r.generation
    requires KeyOf(op).value.0 !in s.answered && candidate.endpointId == r.endpointId
             && candidate.generation == r.generation + 1
    ensures var (t, outcome) := Step(codec, s, op);
            if outcome.Refused? then t == s
            else
              && outcome.reply == CredentialReply(candidate) && IsNext(t, r.endpointId, r.generation, outcome.reply)
              && r.endpointId in s.endpoints && s.endpoints[r.endpointId].generation == r.generation
              && r.endpointId in t.endpoints && t.endpoints[r.endpointId].generation == r.generation + 1
  {
    hide FreshRotation, Step;
    RotationEffect(s, op.principal, op.expectedGeneration, op.expectedCredentialId, candidate, op.overlapSeconds);
    FreshRotationIsStep(codec, s, op);
  }

  /** A rotation that reaches the server is answered with the next generation, or changes nothing. */
  lemma HandledRotation(codec: Codec, overlapSeconds: nat, hash: BodyHash, s: State, r: Request,
          candidate: Credential, now: Time)
    requires AnswersAdvance(hash, s, r.endpointId) && Admitted(s, r, now).Some?
    requires WellIssued(overlapSeconds, s, RotateOp(hash, Admitted(s, r, now).value, r, candidate, overlapSeconds))
    requires candidate.generation == r.generation + 1 && candidate.endpointId == r.endpointId
    ensures var (t, answer) := Handle(codec, hash, s, r, candidate, overlapSeconds, now);
            && (t != s ==>
                  && answer == Some(candidate)
                  && r.endpointId in s.endpoints && s.endpoints[r.endpointId].generation == r.generation
                  && r.endpointId in t.endpoints && t.endpoints[r.endpointId].generation == r.generation + 1)
            && (answer.Some? ==> IsNext(t, r.endpointId, r.generation, CredentialReply(answer.value)))
  {
    hide Chained, Authentic, WellIssued, FreshRotation, AuthenticateDevice;
    var p := Admitted(s, r, now).value;
    var op := RotateOp(hash, p, r, candidate, overlapSeconds);
    if KeyOf(op).value.0 in s.answered {
      AnsweredRotation(codec, hash, s, op, r);
    } else {
      FreshlyRotated(codec, s, op, r, candidate);
    }
  }

  lemma NewAnswerAdvances(hash: BodyHash, s: State, t: State, op: Op, r: Request, candidate: Credential)
    requires AnswersAdvance(hash, s, r.endpointId) && IssuedStay(s, t) && TellsGenerations(hash)
    requires op.Rotate? && op.principal.endpointId == r.endpointId
             && op.digest == hash(r.endpointId, r.generation, r.credentialId)
    requires t.answered == s.answered[KeyOf(op).value.0 := (op.digest, CredentialReply(candidate))]
    requires IsNext(t, r.endpointId, r.generation, CredentialReply(candidate))
    ensures AnswersAdvance(hash, t, r.endpointId)
  {
    hide IssuedStay, WasIssued;
    forall key: RequestKey, n: int, c: Id
      | key in t.answered && key.1 == Rotating(r.endpointId) && t.answered[key].0 == hash(r.endpointId, n, c)
      ensures IsNext(t, r.endpointId, n, t.answered[key].1)
    {
      if key == KeyOf(op).value.0 {
        assert n == r.generation;
      } else {
        assert IsNext(s, r.endpointId, n, s.answered[key].1);
        IssuedStill(s, t, s.answered[key].1.credential.tokenHash, r.endpointId,
            s.answered[key].1.credential.credentialId, n + 1);
      }
    }
  }

  lemma FreshRefusal(s: State, op: Op)
    requires op.Rotate?
    ensures var (t, outcome) :=
            FreshRotation(s, op.principal, op.expectedGeneration, op.expectedCredentialId, op.credential,
                op.overlapSeconds);
            outcome.Refused? ==> t == s
  {
    hide FreshRotation;
    RotationEffect(s, op.principal, op.expectedGeneration, op.expectedCredentialId, op.credential, op.overlapSeconds);
  }

  /** A rotation that changes the state is remembered under its key. */
  lemma RotationIsRemembered(codec: Codec, hash: BodyHash, s: State, r: Request, candidate: Credential,
          overlapSeconds: nat, now: Time)
    requires Admitted(s, r, now).Some? && Handle(codec, hash, s, r, candidate, overlapSeconds, now).0 != s
    ensures var op := RotateOp(hash, Admitted(s, r, now).value, r, candidate, overlapSeconds);
            && Handle(codec, hash, s, r, candidate, overlapSeconds, now).0.answered
               == s.answered[KeyOf(op).value.0 := (op.digest, CredentialReply(candidate))]
            && op.principal.endpointId == r.endpointId
  {
    var op := RotateOp(hash, Admitted(s, r, now).value, r, candidate, overlapSeconds);
    hide FreshRotation, AuthenticateDevice;
    if KeyOf(op).value.0 !in s.answered {
      FreshRotationIsStep(codec, s, op);
      PerformAnswersNothing(codec, s, op);
      FreshRefusal(s, op);
    }
  }

  lemma ArrivalAgrees(codec: Codec, overlapSeconds: nat, hash: BodyHash, x: System, r: Request, candidate: Credential,
          now: Time)
    requires Agreeing(overlapSeconds, hash, x) && TellsGenerations(hash)
             && Possible(overlapSeconds, hash, x, Arrives(r, candidate, now))
    ensures Agreeing(overlapSeconds, hash, Next(codec, hash, overlapSeconds, x, Arrives(r, candidate, now)))
  {
    hide Chained, WellIssued, IssuedStay, WasIssued, AnswersAdvance, IsNext, Step, Admitted;
    var s := x.server;
    var (t, answer) := Handle(codec, hash, s, r, candidate, overlapSeconds, now);
    if Admitted(s, r, now).Some? {
      var op := RotateOp(hash, Admitted(s, r, now).value, r, candidate, overlapSeconds);
      HandledRotation(codec, overlapSeconds, hash, s, r, candidate, now);
      if t != s {
        StepKeepsChain(codec, overlapSeconds, s, op);
        StepKeepsIssued(codec, overlapSeconds, s, op);
        IssuedStill(s, t, x.kept.tokenHash, x.kept.endpointId, x.kept.credentialId, x.kept.generation);
        AnswersStill(s, t, x);
        RotationIsRemembered(codec, hash, s, r, candidate, overlapSeconds, now);
        NewAnswerAdvances(hash, s, t, op, r, candidate);
      }
    }
  }

  // ---------------------------------------------------------------- the theorems

  /** An answer that reaches the client brings it level with the server. */
  lemma DeliveryMakesEqual(codec: Codec, overlapSeconds: nat, hash: BodyHash, x: System, c: Credential)
    requires Agreeing(overlapSeconds, hash, x) && Possible(overlapSeconds, hash, x, Delivers(c))
    ensures var y := Next(codec, hash, overlapSeconds, x, Delivers(c));
            && y.kept == KeptOf(c) && y.kept.generation == x.kept.generation + 1
            && y.kept.generation == y.server.endpoints[y.kept.endpointId].generation
            && Agreeing(overlapSeconds, hash, y)
  {
    hide NoGap, NoRepeat, DistinctNames, HasReplacement, AnswersAdvance;
    assert IsNext(x.server, x.kept.endpointId, x.pending.value.request.generation, CredentialReply(c));
    assert Linked(overlapSeconds, x.server.endpoints, x.server.credentials.rows,
           x.server.credentials.rows[c.tokenHash]);
  }

  lemma DeliveredTo(codec: Codec, overlapSeconds: nat, hash: BodyHash, x: System, c: Credential)
    requires x.pending.Some?
    ensures Next(codec, hash, overlapSeconds, x, Delivers(c)).kept.endpointId == x.kept.endpointId
  {
  }

  lemma NextAgrees(codec: Codec, overlapSeconds: nat, hash: BodyHash, x: System, m: Move)
    requires Agreeing(overlapSeconds, hash, x) && TellsGenerations(hash) && Possible(overlapSeconds, hash, x, m)
    ensures var y := Next(codec, hash, overlapSeconds, x, m);
            Agreeing(overlapSeconds, hash, y) && x.kept.generation <= y.kept.generation
                && y.kept.endpointId == x.kept.endpointId
  {
    hide Chained, WellIssued, AnswersAdvance, InStepWith, Handle, Step, IsNext;
    match m
    case Asks(_, _) =>
    case Arrives(r, candidate, now) => hide Agreeing, Possible;
        ArrivalAgrees(codec, overlapSeconds, hash, x, r, candidate, now);
    case Delivers(c) => DeliveryMakesEqual(codec, overlapSeconds, hash, x, c);
        DeliveredTo(codec, overlapSeconds, hash, x, c);
    case GivesUp =>
    case Elsewhere(op) => hide Agreeing, Possible; ElsewhereAgrees(codec, overlapSeconds, hash, x, op);
  }

  ghost predicate CanRun(codec: Codec, overlapSeconds: nat, hash: BodyHash, x: System, moves: seq<Move>)
    decreases |moves|
  {
    moves == [] || (Possible(overlapSeconds, hash, x, moves[0])
        && CanRun(codec, overlapSeconds, hash, Next(codec, hash, overlapSeconds, x, moves[0]), moves[1..]))
  }

  ghost function RunSystem(codec: Codec, overlapSeconds: nat, hash: BodyHash, x: System, moves: seq<Move>): System
    requires CanRun(codec, overlapSeconds, hash, x, moves)
    decreases |moves|
  {
    if moves == [] then x
        else RunSystem(codec, overlapSeconds, hash, Next(codec, hash, overlapSeconds, x, moves[0]), moves[1..])
  }

  /**
   * Whatever the network loses, delays or repeats: the client's generation never decreases, never exceeds the server's,
   * is at most one behind, and names a credential the server issued.
   */
  lemma {:induction false} AlwaysAgreeing(codec: Codec, overlapSeconds: nat, hash: BodyHash, x: System,
          moves: seq<Move>)
    requires Agreeing(overlapSeconds, hash, x) && TellsGenerations(hash)
             && CanRun(codec, overlapSeconds, hash, x, moves)
    ensures var y := RunSystem(codec, overlapSeconds, hash, x, moves);
            && Agreeing(overlapSeconds, hash, y) && x.kept.generation <= y.kept.generation
               && y.kept.endpointId == x.kept.endpointId
    decreases |moves|
  {
    hide Agreeing, Next, WellIssued, Admitted;
    if moves == [] {
    } else {
      NextAgrees(codec, overlapSeconds, hash, x, moves[0]);
      AlwaysAgreeing(codec, overlapSeconds, hash, Next(codec, hash, overlapSeconds, x, moves[0]), moves[1..]);
    }
  }

  /** An endpoint that just received its first credential agrees with the server. */
  lemma EnrolledAgrees(overlapSeconds: nat, hash: BodyHash, s: State, c: Credential)
    requires Chained(overlapSeconds, s.endpoints, s.credentials.rows)
    requires c.tokenHash in s.credentials.rows && s.credentials.rows[c.tokenHash] == c
             && c.generation == s.endpoints[c.endpointId].generation
    requires forall key: RequestKey | key in s.answered :: key.1 != Rotating(c.endpointId)
    ensures Agreeing(overlapSeconds, hash, System(s, KeptOf(c), None, {}, {}))
  {
    hide NoGap, NoRepeat, DistinctNames, HasReplacement;
    assert Linked(overlapSeconds, s.endpoints, s.credentials.rows, c);
  }

  /**
   * When an answer was lost the server is ahead, and then the client catches up exactly by repeating the same request
   * under the same key; any other key is refused.
   */
  lemma OnlyRetransmissionRecovers(codec: Codec, overlapSeconds: nat, hash: BodyHash, x: System, r: Request,
          candidate: Credential, now: Time)
    requires Agreeing(overlapSeconds, hash, x) && x.server.endpoints[x.kept.endpointId].generation == x.kept.generation
             + 1
    requires r == RequestOf(x.kept, r.key) && Admitted(x.server, r, now).Some?
    ensures var op := RotateOp(hash, Admitted(x.server, r, now).value, r, candidate, overlapSeconds);
            var (t, answer) := Handle(codec, hash, x.server, r, candidate, overlapSeconds, now);
            t == x.server && (answer.Some? <==> IsRepeat(x.server, op))
  {
    hide Chained, CredentialNamed, Superseded, AnswersNext, RequestsOld;
    var op := RotateOp(hash, Admitted(x.server, r, now).value, r, candidate, overlapSeconds);
    if IsRepeat(x.server, op) {
      assert IsNext(x.server, x.kept.endpointId, r.generation, x.server.answered[KeyOf(op).value.0].1);
    }
  }
}
