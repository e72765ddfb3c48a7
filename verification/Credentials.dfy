/** The credential chain of an endpoint: generations without gap, one current credential, bounded overlap. */
module Credentials {
  import opened Prelude
  import opened OrderedDict
  import opened Records
  import opened Inventory
  import opened ControlPlane
  import opened Callers
  import opened Transitions

  // ---------------------------------------------------------------- the invariant

  /** `b` replaced `a`: `a` stays valid until it expires or the overlap ends, whichever is first. */
  ghost predicate ReplacedBy(overlapSeconds: nat, a: Credential, b: Credential) {
    && b.endpointId == a.endpointId && b.generation == a.generation + 1
    && a.supersededAt == Some(b.issuedAt)
    && a.validUntil == Some(Min(a.expiresAt, b.issuedAt + overlapSeconds * SECOND))
  }

  ghost predicate HasReplacement(overlapSeconds: nat, rows: map<Digest, Credential>, a: Credential) {
    exists hash :: hash in rows && ReplacedBy(overlapSeconds, a, rows[hash])
  }

  ghost predicate OfEndpoint(endpoints: map<Id, Endpoint>, c: Credential) {
    && c.endpointId in endpoints && c.tenantId == endpoints[c.endpointId].tenantId
    && 1 <= c.generation <= endpoints[c.endpointId].generation
  }

  /** The newest credential of an endpoint is not superseded; every older one was replaced by the next. */
  ghost predicate Linked(overlapSeconds: nat, endpoints: map<Id, Endpoint>, rows: map<Digest, Credential>,
          c: Credential) {
    && OfEndpoint(endpoints, c)
    && (if c.generation == endpoints[c.endpointId].generation then c.supersededAt.None? && c.validUntil.None?
        else HasReplacement(overlapSeconds, rows, c))
  }

  ghost predicate IsGeneration(rows: map<Digest, Credential>, endpointId: Id, n: int, hash: Digest) {
    hash in rows && rows[hash].endpointId == endpointId && rows[hash].generation == n
  }

  ghost predicate HasGeneration(rows: map<Digest, Credential>, endpointId: Id, n: int) {
    exists hash :: IsGeneration(rows, endpointId, n, hash)
  }

  ghost predicate NoGap(endpoints: map<Id, Endpoint>, rows: map<Digest, Credential>) {
    forall e, n: int | e in endpoints && 1 <= n <= endpoints[e].generation :: HasGeneration(rows, e, n)
  }

  ghost predicate NoRepeat(rows: map<Digest, Credential>) {
    forall a, b | a in rows && b in rows && rows[a].endpointId == rows[b].endpointId
        && rows[a].generation == rows[b].generation :: a == b
  }

  ghost predicate DistinctNames(rows: map<Digest, Credential>) {
    forall a, b | a in rows && b in rows && rows[a].credentialId == rows[b].credentialId :: a == b
  }

  ghost predicate AllLinked(overlapSeconds: nat, endpoints: map<Id, Endpoint>, rows: map<Digest, Credential>) {
    forall hash | hash in rows :: Linked(overlapSeconds, endpoints, rows, rows[hash])
  }

  ghost predicate KnownEndpoints(endpoints: map<Id, Endpoint>) {
    forall e | e in endpoints :: endpoints[e].generation >= 1
  }

  /** Every endpoint has credentials of generations 1 to its own, one each, and only the last is current. */
  ghost predicate Chained(overlapSeconds: nat, endpoints: map<Id, Endpoint>, rows: map<Digest, Credential>) {
    && KnownEndpoints(endpoints) && AllLinked(overlapSeconds, endpoints, rows)
    && NoGap(endpoints, rows) && NoRepeat(rows) && DistinctNames(rows)
  }

  // ---------------------------------------------------------------- steps that issue nothing

  /** Same endpoints with the same generations, tenants and operating systems, and the same credentials. */
  ghost predicate SameIssue(s: State, t: State) {
    && t.credentials == s.credentials && t.endpoints.Keys == s.endpoints.Keys
    && forall e | e in s.endpoints :: t.endpoints[e] == s.endpoints[e].(lastSeenAt := t.endpoints[e].lastSeenAt)
  }

  lemma TouchIssuesNothing(s: State, principal: Principal, now: Time)
    ensures SameIssue(s, Touch(s, principal, now))
  {
  }

  lemma IssuesNothing(codec: Codec, s: State, op: Op)
    requires !op.Enroll? && !op.Rotate?
    ensures SameIssue(s, Perform(codec, s, op).0)
  {
    hide ClaimNextJob, Perform, Touch;
    PerformFramed(codec, s, op);
    if op.PollJob? {
      PollPerforms(codec, s, op);
      PollChanges(s, op.principal, op.now);
      TouchIssuesNothing(s, op.principal, op.now);
    }
  }

  lemma SameIssueChained(overlapSeconds: nat, s: State, t: State)
    requires SameIssue(s, t) && Chained(overlapSeconds, s.endpoints, s.credentials.rows)
    ensures Chained(overlapSeconds, t.endpoints, t.credentials.rows)
  {
    hide NoRepeat, DistinctNames, HasReplacement, IsGeneration;
    assert NoGap(t.endpoints, t.credentials.rows);
  }

  // ---------------------------------------------------------------- enrollment

  lemma EnrollmentEffect(s: State, tenantId: Id, endpoint: Endpoint, credential: Credential, grantHash: Option<Digest>)
    ensures var (t, outcome) := FreshEnrollment(s, tenantId, endpoint, credential, grantHash);
            if outcome.Refused? then t == s
            else
              && endpoint.endpointId !in s.endpoints && credential.tokenHash !in s.credentials.rows
              && t.endpoints == s.endpoints[endpoint.endpointId := endpoint]
              && t.credentials.rows == s.credentials.rows[credential.tokenHash := credential]
  {
    hide GrantRefusal, Consume;
  }

  /** Replacements only depend on who replaced whom when; they survive new credentials. */
  lemma ReplacementStays(overlapSeconds: nat, rows: map<Digest, Credential>, issued: map<Digest, Credential>,
          a: Credential)
    requires forall hash | hash in rows :: hash in issued && issued[hash].endpointId == rows[hash].endpointId
                                           && issued[hash].generation == rows[hash].generation
                                              && issued[hash].issuedAt == rows[hash].issuedAt
    ensures HasReplacement(overlapSeconds, rows, a) ==> HasReplacement(overlapSeconds, issued, a)
  {
    if HasReplacement(overlapSeconds, rows, a) {
      var hash :| hash in rows && ReplacedBy(overlapSeconds, a, rows[hash]);
      assert ReplacedBy(overlapSeconds, a, issued[hash]);
    }
  }

  lemma EnrollmentLinked(overlapSeconds: nat, endpoints: map<Id, Endpoint>, rows: map<Digest, Credential>,
          endpoint: Endpoint, c: Credential)
    requires AllLinked(overlapSeconds, endpoints, rows) && endpoint.endpointId !in endpoints && c.tokenHash !in rows
    requires c.endpointId == endpoint.endpointId && c.tenantId == endpoint.tenantId
             && c.generation == endpoint.generation == 1
    requires c.supersededAt.None? && c.validUntil.None?
    ensures AllLinked(overlapSeconds, endpoints[endpoint.endpointId := endpoint], rows[c.tokenHash := c])
  {
    hide HasReplacement;
    var after, issued := endpoints[endpoint.endpointId := endpoint], rows[c.tokenHash := c];
    forall hash | hash in issued ensures Linked(overlapSeconds, after, issued, issued[hash]) {
      if hash != c.tokenHash {
        assert Linked(overlapSeconds, endpoints, rows, rows[hash]);
        ReplacementStays(overlapSeconds, rows, issued, rows[hash]);
      }
    }
  }

  lemma MoreGenerations(rows: map<Digest, Credential>, issued: map<Digest, Credential>, e: Id, n: int)
    requires forall hash | hash in rows ::
               && hash in issued && issued[hash].endpointId == rows[hash].endpointId
               && issued[hash].generation == rows[hash].generation
    ensures HasGeneration(rows, e, n) ==> HasGeneration(issued, e, n)
  {
    if HasGeneration(rows, e, n) {
      var hash :| IsGeneration(rows, e, n, hash);
      assert IsGeneration(issued, e, n, hash);
    }
  }

  /** A new credential of a generation its endpoint does not have yet. */
  lemma NewGeneration(endpoints: map<Id, Endpoint>, rows: map<Digest, Credential>, after: map<Id, Endpoint>,
          issued: map<Digest, Credential>, c: Credential)
    requires NoGap(endpoints, rows) && NoRepeat(rows) && DistinctNames(rows) && c.tokenHash !in rows
    requires issued.Keys == rows.Keys + {c.tokenHash} && issued[c.tokenHash] == c
    requires forall hash | hash in rows ::
               && issued[hash].endpointId == rows[hash].endpointId && issued[hash].generation == rows[hash].generation
               && issued[hash].credentialId == rows[hash].credentialId && rows[hash].credentialId != c.credentialId
               && (rows[hash].endpointId == c.endpointId ==> rows[hash].generation < c.generation)
    requires c.endpointId in after && after[c.endpointId].generation == c.generation
    requires forall e | e in after && e != c.endpointId :: e in endpoints && after[e] == endpoints[e]
    requires c.generation == 1 || (c.endpointId in endpoints && c.generation == endpoints[c.endpointId].generation + 1)
    ensures NoGap(after, issued) && NoRepeat(issued) && DistinctNames(issued)
  {
    forall e, n: int | e in after && 1 <= n <= after[e].generation ensures HasGeneration(issued, e, n) {
      if e == c.endpointId && n == c.generation {
        assert IsGeneration(issued, e, n, c.tokenHash);
      } else {
        assert HasGeneration(rows, e, n);
        MoreGenerations(rows, issued, e, n);
      }
    }
  }

  lemma EnrollmentChained(overlapSeconds: nat, endpoints: map<Id, Endpoint>, rows: map<Digest, Credential>,
          endpoint: Endpoint, c: Credential)
    requires Chained(overlapSeconds, endpoints, rows) && endpoint.endpointId !in endpoints && c.tokenHash !in rows
    requires c.endpointId == endpoint.endpointId && c.tenantId == endpoint.tenantId
             && c.generation == endpoint.generation == 1
    requires c.supersededAt.None? && c.validUntil.None? && forall hash | hash in rows ::
             rows[hash].credentialId != c.credentialId
    ensures Chained(overlapSeconds, endpoints[endpoint.endpointId := endpoint], rows[c.tokenHash := c])
  {
    hide HasReplacement, NoGap, NoRepeat, DistinctNames, HasGeneration;
    EnrollmentLinked(overlapSeconds, endpoints, rows, endpoint, c);
    assert forall hash | hash in rows :: Linked(overlapSeconds, endpoints, rows, rows[hash]);
    NewGeneration(endpoints, rows, endpoints[endpoint.endpointId := endpoint], rows[c.tokenHash := c], c);
  }

  // ---------------------------------------------------------------- rotation

  /** The rows after `current` is replaced by `next`. */
  function Rotated(overlapSeconds: int, rows: map<Digest, Credential>, current: Digest, next: Credential)
    : map<Digest, Credential>
    requires current in rows
  {
    rows[current := Superseded(rows[current], next.issuedAt, overlapSeconds)][next.tokenHash := next]
  }

  lemma RotationEffect(s: State, principal: Principal, generation: int, credentialId: Id, credential: Credential,
          overlapSeconds: int)
    ensures var (t, outcome) := FreshRotation(s, principal, generation, credentialId, credential, overlapSeconds);
            if outcome.Refused? then t == s
            else
              var e := principal.endpointId;
              && e in s.endpoints && s.endpoints[e].generation == principal.generation
                 && s.endpoints[e].tenantId == principal.tenantId
              && credential.generation == principal.generation + 1
              && t.endpoints == s.endpoints[e := s.endpoints[e].(generation := credential.generation,
                 lastSeenAt := credential.issuedAt)]
              && exists current ::
                   && current in s.credentials.rows && PrincipalOf(s.credentials.rows[current]) == principal
                   && t.credentials.rows == Rotated(overlapSeconds, s.credentials.rows, current, credential)
  {
    hide CredentialNamed, Superseded;
    var (t, outcome) := FreshRotation(s, principal, generation, credentialId, credential, overlapSeconds);
    if outcome.Ok? {
      var current := CredentialNamed(s.credentials.rows, s.credentials.order, principal.credentialId).value;
      assert current in s.credentials.rows && PrincipalOf(s.credentials.rows[current]) == principal;
    }
  }

  lemma RotationLinked(overlapSeconds: nat, endpoints: map<Id, Endpoint>, after: map<Id, Endpoint>,
          rows: map<Digest, Credential>, current: Digest, c: Credential)
    requires Chained(overlapSeconds, endpoints, rows) && current in rows && c.tokenHash !in rows
    requires c.endpointId == rows[current].endpointId && c.tenantId == rows[current].tenantId && c.supersededAt.None?
             && c.validUntil.None?
    requires rows[current].generation == endpoints[c.endpointId].generation
             && c.generation == rows[current].generation + 1
    requires after.Keys == endpoints.Keys && after[c.endpointId].generation == c.generation
             && after[c.endpointId].tenantId == endpoints[c.endpointId].tenantId
    requires forall e | e in endpoints && e != c.endpointId :: after[e] == endpoints[e]
    ensures AllLinked(overlapSeconds, after, Rotated(overlapSeconds, rows, current, c))
  {
    hide NoGap, DistinctNames;
    var issued := Rotated(overlapSeconds, rows, current, c);
    assert Linked(overlapSeconds, endpoints, rows, rows[current]);
    forall hash | hash in issued ensures Linked(overlapSeconds, after, issued, issued[hash]) {
      if hash == current {
        assert ReplacedBy(overlapSeconds, issued[current], issued[c.tokenHash]);
      } else if hash != c.tokenHash {
        assert Linked(overlapSeconds, endpoints, rows, rows[hash]);
        ReplacementStays(overlapSeconds, rows, issued, rows[hash]);
      }
    }
  }

  lemma NoRepeatMeans(rows: map<Digest, Credential>, current: Digest)
    requires NoRepeat(rows) && current in rows
    ensures forall hash | hash in rows && rows[hash].endpointId == rows[current].endpointId
            && rows[hash].generation == rows[current].generation :: hash == current
  {
  }

  lemma RotationDistinct(overlapSeconds: nat, endpoints: map<Id, Endpoint>, after: map<Id, Endpoint>,
          rows: map<Digest, Credential>, current: Digest, c: Credential)
    requires Chained(overlapSeconds, endpoints, rows) && current in rows && c.tokenHash !in rows
    requires c.endpointId == rows[current].endpointId
    requires rows[current].generation == endpoints[c.endpointId].generation
             && c.generation == rows[current].generation + 1
    requires after.Keys == endpoints.Keys && after[c.endpointId].generation == c.generation
    requires forall e | e in endpoints && e != c.endpointId :: after[e] == endpoints[e]
    requires forall hash | hash in rows :: rows[hash].credentialId != c.credentialId
    ensures var issued := Rotated(overlapSeconds, rows, current, c);
            KnownEndpoints(after) && NoGap(after, issued) && NoRepeat(issued) && DistinctNames(issued)
  {
    hide HasReplacement, NoGap, NoRepeat, DistinctNames, HasGeneration;
    assert forall hash | hash in rows :: Linked(overlapSeconds, endpoints, rows, rows[hash]);
    NoRepeatMeans(rows, current);
    NewGeneration(endpoints, rows, after, Rotated(overlapSeconds, rows, current, c), c);
  }

  // ---------------------------------------------------------------- every run

  lemma RotationKeepsChain(overlapSeconds: nat, s: State, op: Op)
    requires Chained(overlapSeconds, s.endpoints, s.credentials.rows) && op.Rotate? && WellIssued(overlapSeconds, s, op)
    ensures var t := FreshRotation(s, op.principal, op.expectedGeneration, op.expectedCredentialId, op.credential,
            op.overlapSeconds).0;
            Chained(overlapSeconds, t.endpoints, t.credentials.rows)
  {
    hide FreshRotation, AllLinked, NoGap, NoRepeat, DistinctNames, Rotated, Authentic;
    var (t, outcome) := FreshRotation(s, op.principal, op.expectedGeneration, op.expectedCredentialId, op.credential,
        op.overlapSeconds);
    RotationEffect(s, op.principal, op.expectedGeneration, op.expectedCredentialId, op.credential, op.overlapSeconds);
    if outcome.Ok? {
      var current :| current in s.credentials.rows && PrincipalOf(s.credentials.rows[current]) == op.principal
                     && t.credentials.rows == Rotated(op.overlapSeconds, s.credentials.rows, current, op.credential);
      RotationLinked(overlapSeconds, s.endpoints, t.endpoints, s.credentials.rows, current, op.credential);
      RotationDistinct(overlapSeconds, s.endpoints, t.endpoints, s.credentials.rows, current, op.credential);
    }
  }

  lemma PerformKeepsChain(codec: Codec, overlapSeconds: nat, s: State, op: Op)
    requires Chained(overlapSeconds, s.endpoints, s.credentials.rows) && WellIssued(overlapSeconds, s, op)
    ensures var t := Perform(codec, s, op).0; Chained(overlapSeconds, t.endpoints, t.credentials.rows)
  {
    hide Chained, FreshEnrollment, FreshRotation;
    if op.Enroll? {
      EnrollmentEffect(s, op.tenantId, op.endpoint, op.credential, op.grantHash);
      if Perform(codec, s, op).1.Ok? {
        EnrollmentChained(overlapSeconds, s.endpoints, s.credentials.rows, op.endpoint, op.credential);
      }
    } else if op.Rotate? {
      RotationKeepsChain(overlapSeconds, s, op);
    } else {
      hide Perform, WellIssued;
      IssuesNothing(codec, s, op);
      SameIssueChained(overlapSeconds, s, Perform(codec, s, op).0);
    }
  }

  lemma StepKeepsChain(codec: Codec, overlapSeconds: nat, s: State, op: Op)
    requires Chained(overlapSeconds, s.endpoints, s.credentials.rows) && WellIssued(overlapSeconds, s, op)
    ensures var t := Step(codec, s, op).0; Chained(overlapSeconds, t.endpoints, t.credentials.rows)
  {
    hide Perform, Step, Chained, WellIssued;
    StepPerforms(codec, s, op);
    PerformKeepsChain(codec, overlapSeconds, s, op);
  }

  /** In every reachable state the credentials of every endpoint form such a chain. */
  lemma {:induction false} RunKeepsChain(codec: Codec, overlapSeconds: nat, s: State, ops: seq<Op>)
    requires Chained(overlapSeconds, s.endpoints, s.credentials.rows) && WellIssuedRun(codec, overlapSeconds, s, ops)
    ensures var t := Run(codec, s, ops); Chained(overlapSeconds, t.endpoints, t.credentials.rows)
    decreases |ops|
  {
    hide Step, Chained, WellIssued;
    if ops == [] {
    } else {
      StepKeepsChain(codec, overlapSeconds, s, ops[0]);
      RunKeepsChain(codec, overlapSeconds, Step(codec, s, ops[0]).0, ops[1..]);
    }
  }

  /** A token that authenticates is the current one of its endpoint, or one replaced less than the overlap ago. */
  lemma AuthenticatesExactly(overlapSeconds: nat, s: State, hash: Digest, now: Time)
    requires Chained(overlapSeconds, s.endpoints, s.credentials.rows) && hash in s.credentials.rows
    ensures var c := s.credentials.rows[hash];
            AuthenticateDevice(s, hash, now).Some? <==>
              && now < c.expiresAt
              && (c.generation == s.endpoints[c.endpointId].generation
                  || exists next ::
                       && next in s.credentials.rows && ReplacedBy(overlapSeconds, c, s.credentials.rows[next])
                       && now < s.credentials.rows[next].issuedAt + overlapSeconds * SECOND)
  {
    hide NoGap, NoRepeat, DistinctNames;
    var c := s.credentials.rows[hash];
    assert Linked(overlapSeconds, s.endpoints, s.credentials.rows, c);
    if c.generation != s.endpoints[c.endpointId].generation {
      var next :| next in s.credentials.rows && ReplacedBy(overlapSeconds, c, s.credentials.rows[next]);
    }
  }

  // ---------------------------------------------------------------- with a monotone clock

  /** Later generations were issued later. */
  ghost predicate IssuedInOrder(rows: map<Digest, Credential>) {
    forall a, b | a in rows && b in rows && rows[a].endpointId == rows[b].endpointId
        && rows[a].generation <= rows[b].generation ::
      rows[a].issuedAt <= rows[b].issuedAt
  }

  /** The clock that stamps a rotation has not gone back since the endpoint's earlier credentials. */
  ghost predicate OnTime(s: State, op: Op) {
    op.Rotate? ==> forall hash | hash in s.credentials.rows
        && s.credentials.rows[hash].endpointId == op.principal.endpointId ::
                     s.credentials.rows[hash].issuedAt <= op.credential.issuedAt
  }

  lemma IssueIsPerform(codec: Codec, s: State, op: Op)
    ensures op.Enroll? ==>
              Perform(codec, s, op) == FreshEnrollment(s, op.tenantId, op.endpoint, op.credential, op.grantHash)
    ensures op.Rotate? ==>
              Perform(codec, s, op)
                  == FreshRotation(s, op.principal, op.expectedGeneration, op.expectedCredentialId, op.credential,
                      op.overlapSeconds)
  {
    hide FreshEnrollment, FreshRotation;
  }

  lemma StepKeepsOrder(codec: Codec, overlapSeconds: nat, s: State, op: Op)
    requires Chained(overlapSeconds, s.endpoints, s.credentials.rows) && WellIssued(overlapSeconds, s, op)
             && OnTime(s, op)
    requires IssuedInOrder(s.credentials.rows)
    ensures IssuedInOrder(Step(codec, s, op).0.credentials.rows)
  {
    hide Perform, Step, FreshEnrollment, FreshRotation, NoGap, NoRepeat, DistinctNames, HasReplacement, Authentic;
    StepPerforms(codec, s, op);
    var t := Perform(codec, s, op).0;
    assert forall hash | hash in s.credentials.rows ::
           Linked(overlapSeconds, s.endpoints, s.credentials.rows, s.credentials.rows[hash]);
    if op.Enroll? {
      EnrollmentEffect(s, op.tenantId, op.endpoint, op.credential, op.grantHash);
      IssueIsPerform(codec, s, op);
    } else if op.Rotate? {
      RotationEffect(s, op.principal, op.expectedGeneration, op.expectedCredentialId, op.credential, op.overlapSeconds);
      IssueIsPerform(codec, s, op);
    } else {
      IssuesNothing(codec, s, op);
    }
  }

  ghost predicate OnTimeRun(codec: Codec, s: State, ops: seq<Op>)
    decreases |ops|
  {
    ops != [] ==> OnTime(s, ops[0]) && OnTimeRun(codec, Step(codec, s, ops[0]).0, ops[1..])
  }

  lemma {:induction false} RunKeepsOrder(codec: Codec, overlapSeconds: nat, s: State, ops: seq<Op>)
    requires Chained(overlapSeconds, s.endpoints, s.credentials.rows) && WellIssuedRun(codec, overlapSeconds, s, ops)
             && OnTimeRun(codec, s, ops)
    requires IssuedInOrder(s.credentials.rows)
    ensures IssuedInOrder(Run(codec, s, ops).credentials.rows)
    decreases |ops|
  {
    hide Step, Chained, WellIssued, OnTime, IssuedInOrder;
    if ops == [] {
    } else {
      StepKeepsChain(codec, overlapSeconds, s, ops[0]);
      StepKeepsOrder(codec, overlapSeconds, s, ops[0]);
      RunKeepsOrder(codec, overlapSeconds, Step(codec, s, ops[0]).0, ops[1..]);
    }
  }

  lemma NothingIssued(overlapSeconds: nat)
    ensures Chained(overlapSeconds, EMPTY_STATE.endpoints, EMPTY_STATE.credentials.rows)
  {
  }

  lemma NewestIssuedLast(overlapSeconds: nat, s: State, newest: Digest)
    requires Chained(overlapSeconds, s.endpoints, s.credentials.rows) && IssuedInOrder(s.credentials.rows)
             && newest in s.credentials.rows
    requires s.credentials.rows[newest].generation == s.endpoints[s.credentials.rows[newest].endpointId].generation
    ensures forall hash | hash in s.credentials.rows
            && s.credentials.rows[hash].endpointId == s.credentials.rows[newest].endpointId ::
              s.credentials.rows[hash].issuedAt <= s.credentials.rows[newest].issuedAt
  {
    hide NoGap, NoRepeat, DistinctNames, HasReplacement;
    assert forall hash | hash in s.credentials.rows ::
           Linked(overlapSeconds, s.endpoints, s.credentials.rows, s.credentials.rows[hash]);
  }

  /** Once the overlap of the last rotation is over, only the latest generation authenticates. */
  lemma OnlyLatestAuthenticates(codec: Codec, overlapSeconds: nat, ops: seq<Op>, newest: Digest, hash: Digest,
          now: Time)
    requires WellIssuedRun(codec, overlapSeconds, EMPTY_STATE, ops) && OnTimeRun(codec, EMPTY_STATE, ops)
    requires var s := Run(codec, EMPTY_STATE, ops);
             && newest in s.credentials.rows && s.credentials.rows[newest].endpointId in s.endpoints
             && s.credentials.rows[newest].generation == s.endpoints[s.credentials.rows[newest].endpointId].generation
             && s.credentials.rows[newest].issuedAt + overlapSeconds * SECOND <= now
    requires var s := Run(codec, EMPTY_STATE, ops);
             && AuthenticateDevice(s, hash, now).Some?
             && AuthenticateDevice(s, hash, now).value.endpointId == s.credentials.rows[newest].endpointId
    ensures hash == newest
  {
    hide Run, NoGap, DistinctNames, WellIssuedRun, OnTimeRun;
    var s := Run(codec, EMPTY_STATE, ops);
    NothingIssued(overlapSeconds);
    RunKeepsChain(codec, overlapSeconds, EMPTY_STATE, ops);
    RunKeepsOrder(codec, overlapSeconds, EMPTY_STATE, ops);
    AuthenticatesExactly(overlapSeconds, s, hash, now);
    NewestIssuedLast(overlapSeconds, s, newest);
  }

  // ---------------------------------------------------------------- superseded principals

  ghost predicate GenerationsGrow(s: State, t: State) {
    forall e | e in s.endpoints :: e in t.endpoints && s.endpoints[e].generation <= t.endpoints[e].generation
  }

  lemma StepGrows(codec: Codec, s: State, op: Op)
    ensures GenerationsGrow(s, Step(codec, s, op).0)
  {
    hide Perform, Step, FreshEnrollment, FreshRotation, Rotated;
    StepPerforms(codec, s, op);
    if op.Enroll? {
      EnrollmentEffect(s, op.tenantId, op.endpoint, op.credential, op.grantHash);
      IssueIsPerform(codec, s, op);
    } else if op.Rotate? {
      RotationEffect(s, op.principal, op.expectedGeneration, op.expectedCredentialId, op.credential, op.overlapSeconds);
      IssueIsPerform(codec, s, op);
    } else {
      IssuesNothing(codec, s, op);
    }
  }

  /** Over any run, an endpoint's generation never decreases. */
  lemma {:induction false} GenerationNeverFalls(codec: Codec, s: State, ops: seq<Op>)
    ensures GenerationsGrow(s, Run(codec, s, ops))
    decreases |ops|
  {
    hide Step;
    if ops == [] {
    } else {
      StepGrows(codec, s, ops[0]);
      GenerationNeverFalls(codec, Step(codec, s, ops[0]).0, ops[1..]);
    }
  }

  /** A principal superseded once can never rotate again: at best it is given the answer it already got. */
  lemma SupersededNeverRotates(codec: Codec, s: State, ops: seq<Op>, op: Op)
    requires op.Rotate? && op.principal.endpointId in s.endpoints
             && op.principal.generation < s.endpoints[op.principal.endpointId].generation
    ensures var t := Run(codec, s, ops);
            && Step(codec, t, op).0 == t
            && (Step(codec, t, op).1.Ok? ==>
                  ReplayOf(t, KeyOf(op).value.0, op.digest) == Repeated(Step(codec, t, op).1.reply))
  {
    hide Run, CredentialNamed, Superseded;
    GenerationNeverFalls(codec, s, ops);
  }
}
